/**
  Quota accounting (app/services/quota.py, app/domain/quota.py).

  An upload owns a list of reservations. Each reservation names one counter row; a HELD
  reservation is part of that counter's `reserved` value, a CONSUMED one of its `used` value.
 */
module Quota {
  import opened Common

  datatype CounterKey = CounterKey(user: nat, limitKey: string, window: int)

  datatype Counter = Counter(used: nat, reserved: nat)

  // `Lapsed` is the source's ReservationStatus.EXPIRED.
  datatype ReservationStatus = Held | Consumed | Released | Lapsed

  datatype Reservation = Reservation(key: CounterKey, amount: nat, status: ReservationStatus)

  // One QuotaSpec: a counter, the amount asked for and the caller's limit (None is unlimited).
  datatype Spec = Spec(key: CounterKey, amount: nat, limit: Option<nat>)

  datatype QuotaError = NegativeValue | QuotaExceeded

  type Counters = map<CounterKey, Counter>

  // A counter row that does not exist yet is inserted with zeroes before it is locked.
  function Get(counters: Counters, key: CounterKey): Counter {
    if key in counters then counters[key] else Counter(0, 0)
  }

  /** The arithmetic of one admission: the new reserved value, or why it is refused. */
  function CheckReservation(used: int, reserved: int, requested: int, limit: Option<int>): (r: Result<int, QuotaError>)
    // Refusal means exactly a negative value or a positive request beyond the limit.
    ensures r == Err(NegativeValue) <==> used < 0 || reserved < 0 || requested < 0 || (limit.Some? && limit.value < 0)
    ensures r == Err(QuotaExceeded) <==>
            r != Err(NegativeValue) && limit.Some? && 0 < requested && limit.value < used + reserved + requested
    ensures r.Ok? ==> r.value == reserved + requested
  {
    if used < 0 || reserved < 0 || requested < 0 || (limit.Some? && limit.value < 0) then
      Err(NegativeValue)
    else if limit.None? then
      Ok(reserved + requested)
    else
      var remaining := if limit.value - used - reserved < 0 then 0 else limit.value - used - reserved;
      if remaining < requested then Err(QuotaExceeded) else Ok(reserved + requested)
  }

  function Admit(counters: Counters, spec: Spec): Option<Counters> {
    var c := Get(counters, spec.key);
    match CheckReservation(c.used, c.reserved, spec.amount, spec.limit)
    case Ok(newReserved) => Some(counters[spec.key := Counter(c.used, newReserved)])
    case Err(_) => None
  }

  // All specs are admitted in order, or the transaction is rolled back.
  function AdmitAll(counters: Counters, specs: seq<Spec>): Option<Counters>
    decreases |specs|
  {
    if specs == [] then Some(counters)
    else
      match Admit(counters, specs[0])
      case None => None
      case Some(next) => AdmitAll(next, specs[1..])
  }

  function Reserve(specs: seq<Spec>): (rs: seq<Reservation>)
    ensures |rs| == |specs|
    ensures forall i :: 0 <= i < |rs| ==> rs[i] == Reservation(specs[i].key, specs[i].amount, Held)
  {
    seq(|specs|, i requires 0 <= i < |specs| => Reservation(specs[i].key, specs[i].amount, Held))
  }

  // Settling moves a held amount out of `reserved`, clamped at zero, and into `used` when consumed.
  function SettleOne(counters: Counters, r: Reservation, outcome: ReservationStatus): Counters {
    if r.status != Held then counters
    else
      var c := Get(counters, r.key);
      var reserved := if c.reserved < r.amount then 0 else c.reserved - r.amount;
      var used := if outcome == Consumed then c.used + r.amount else c.used;
      counters[r.key := Counter(used, reserved)]
  }

  function SettleCounters(counters: Counters, rs: seq<Reservation>, outcome: ReservationStatus): Counters
    decreases |rs|
  {
    if rs == [] then counters
    else SettleCounters(SettleOne(counters, rs[0], outcome), rs[1..], outcome)
  }

  function SettleReservations(rs: seq<Reservation>, outcome: ReservationStatus): (out: seq<Reservation>)
    ensures |out| == |rs|
    ensures forall i :: 0 <= i < |rs| ==> out[i] == if rs[i].status == Held then rs[i].(status := outcome) else rs[i]
  {
    seq(|rs|, i requires 0 <= i < |rs| => if rs[i].status == Held then rs[i].(status := outcome) else rs[i])
  }

  // The amount that the reservations in a given status hold against one counter.
  function Amount(rs: seq<Reservation>, key: CounterKey, status: ReservationStatus): nat {
    if rs == [] then 0
    else (if rs[0].key == key && rs[0].status == status then rs[0].amount else 0) + Amount(rs[1..], key, status)
  }

  /** A settlement is exact, with no clamping, whenever the counters cover what is held. */
  lemma {:induction false} SettleIsExact(
    counters: Counters, rs: seq<Reservation>, outcome: ReservationStatus, key: CounterKey)
    requires outcome != Held
    requires Amount(rs, key, Held) <= Get(counters, key).reserved
    ensures Get(SettleCounters(counters, rs, outcome), key).reserved
            == Get(counters, key).reserved - Amount(rs, key, Held)
    ensures Get(SettleCounters(counters, rs, outcome), key).used
            == Get(counters, key).used + if outcome == Consumed then Amount(rs, key, Held) else 0
    decreases |rs|
  {
    if rs != [] {
      SettleIsExact(SettleOne(counters, rs[0], outcome), rs[1..], outcome, key);
    }
  }

  lemma {:induction false} SettledAmounts(rs: seq<Reservation>, outcome: ReservationStatus, key: CounterKey)
    requires outcome != Held
    ensures Amount(SettleReservations(rs, outcome), key, Held) == 0
    ensures Amount(SettleReservations(rs, outcome), key, Consumed)
            == Amount(rs, key, Consumed) + if outcome == Consumed then Amount(rs, key, Held) else 0
  {
    if rs != [] {
      SettledAmounts(rs[1..], outcome, key);
      assert SettleReservations(rs, outcome)[1..] == SettleReservations(rs[1..], outcome);
    }
  }

  lemma {:induction false} AdmittedAmounts(counters: Counters, specs: seq<Spec>, key: CounterKey)
    requires AdmitAll(counters, specs).Some?
    ensures Get(AdmitAll(counters, specs).value, key).reserved
            == Get(counters, key).reserved + Amount(Reserve(specs), key, Held)
    ensures Get(AdmitAll(counters, specs).value, key).used == Get(counters, key).used
    ensures Amount(Reserve(specs), key, Consumed) == 0
    decreases |specs|
  {
    if specs != [] {
      AdmittedAmounts(Admit(counters, specs[0]).value, specs[1..], key);
      assert Reserve(specs)[1..] == Reserve(specs[1..]);
    }
  }

  predicate UsesLimit(specs: seq<Spec>, key: CounterKey, limit: nat) {
    forall i :: 0 <= i < |specs| && specs[i].key == key ==> specs[i].limit == Some(limit)
  }

  /** Admission never takes a counter past the limit it is admitted under. */
  lemma {:induction false} AdmissionRespectsLimit(counters: Counters, specs: seq<Spec>, key: CounterKey, limit: nat)
    requires AdmitAll(counters, specs).Some? && UsesLimit(specs, key, limit)
    requires Get(counters, key).used + Get(counters, key).reserved <= limit
    ensures var c := Get(AdmitAll(counters, specs).value, key); c.used + c.reserved <= limit
    decreases |specs|
  {
    if specs != [] {
      assert UsesLimit(specs[1..], key, limit);
      AdmissionRespectsLimit(Admit(counters, specs[0]).value, specs[1..], key, limit);
    }
  }
}
