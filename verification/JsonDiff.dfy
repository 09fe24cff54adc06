/**
  The structural differ of scripts/host_isolation_guard.py.

  A position is a path of keys and indices. Digests are modelled by the digested values, so a
  change carries the value before and after. Paths of the specification are relative; the
  source's textual path is a rendering of them.
 */
module JsonDiff {
  import opened Common
  import opened Json
  import opened Sequences
  import opened Sorting

  datatype Step = Key(k: string) | Index(i: nat)

  type Path = seq<Step>

  datatype Kind = Added | Removed | Changed

  datatype Change = Change(path: Path, kind: Kind, before: Option<Json>, after: Option<Json>)

  function Under(step: Step, changes: seq<Change>): (r: seq<Change>)
    ensures |r| == |changes|
    ensures forall i :: 0 <= i < |r| ==> r[i] == changes[i].(path := [step] + changes[i].path)
  {
    seq(|changes|, i requires 0 <= i < |changes| => changes[i].(path := [step] + changes[i].path))
  }

  // ---- specification of the change list ----

  ghost function Diff(b: Json, a: Json): seq<Change>
    decreases b, 1, 0
  {
    if b.Obj? && a.Obj? then DiffKeys(b, a, Sorted(b.fields.Keys + a.fields.Keys))
    else if b.Arr? && a.Arr? then DiffItems(b, a, 0)
    else if b == a then []
    else [Change([], Changed, Some(b), Some(a))]
  }

  ghost function DiffKeys(b: Json, a: Json, keys: seq<string>): seq<Change>
    requires b.Obj? && a.Obj? && Elements(keys) <= b.fields.Keys + a.fields.Keys
    decreases b, 0, |keys|
  {
    if keys == [] then []
    else
      assert keys[0] in Elements(keys) && Elements(keys[1..]) <= Elements(keys);
      DiffKey(b, a, keys[0]) + DiffKeys(b, a, keys[1..])
  }

  ghost function DiffKey(b: Json, a: Json, k: string): seq<Change>
    requires b.Obj? && a.Obj? && k in b.fields.Keys + a.fields.Keys
    decreases b, 0, 0
  {
    if k !in b.fields then [Change([Key(k)], Added, None, Some(a.fields[k]))]
    else if k !in a.fields then [Change([Key(k)], Removed, Some(b.fields[k]), None)]
    else Under(Key(k), Diff(b.fields[k], a.fields[k]))
  }

  function Longest(b: Json, a: Json): nat
    requires b.Arr? && a.Arr?
  {
    if |b.items| < |a.items| then |a.items| else |b.items|
  }

  ghost function DiffItems(b: Json, a: Json, i: nat): seq<Change>
    requires b.Arr? && a.Arr? && i <= Longest(b, a)
    decreases b, 0, Longest(b, a) - i + 1
  {
    if i == Longest(b, a) then [] else DiffItem(b, a, i) + DiffItems(b, a, i + 1)
  }

  ghost function DiffItem(b: Json, a: Json, i: nat): seq<Change>
    requires b.Arr? && a.Arr? && i < Longest(b, a)
    decreases b, 0, 0
  {
    if i >= |b.items| then [Change([Index(i)], Added, None, Some(a.items[i]))]
    else if i >= |a.items| then [Change([Index(i)], Removed, Some(b.items[i]), None)]
    else Under(Index(i), Diff(b.items[i], a.items[i]))
  }

  // ---- positions ----

  function Child(j: Json, step: Step): (r: Option<Json>)
    ensures r.Some? ==> r.value < j
  {
    match step
    case Key(k) => if j.Obj? && k in j.fields then Some(j.fields[k]) else None
    case Index(i) => if j.Arr? && i < |j.items| then Some(j.items[i]) else None
  }

  function At(j: Json, path: Path): Option<Json> {
    if path == [] then Some(j)
    else
      match Child(j, path[0])
      case None => None
      case Some(child) => At(child, path[1..])
  }

  predicate SameContainer(b: Json, a: Json) { (b.Obj? && a.Obj?) || (b.Arr? && a.Arr?) }

  // The positions directly below two containers of the same type.
  predicate IsStep(b: Json, a: Json, step: Step) { Child(b, step).Some? || Child(a, step).Some? }

  predicate Shared(b: Json, a: Json, step: Step) { Child(b, step).Some? && Child(a, step).Some? }

  // The changes at or below one such position.
  ghost function DiffChild(b: Json, a: Json, step: Step): seq<Change>
    requires SameContainer(b, a) && IsStep(b, a, step)
  {
    var was, now := Child(b, step), Child(a, step);
    if was.None? then [Change([step], Added, None, now)]
    else if now.None? then [Change([step], Removed, was, None)]
    else Under(step, Diff(was.value, now.value))
  }

  lemma {:induction false} KeysMembers(b: Json, a: Json, keys: seq<string>, c: Change)
    requires b.Obj? && a.Obj? && Elements(keys) <= b.fields.Keys + a.fields.Keys
    ensures c in DiffKeys(b, a, keys) <==> exists k :: k in keys && IsStep(b, a, Key(k)) && c in DiffChild(b, a, Key(k))
    decreases |keys|
  {
    if keys != [] {
      assert keys[0] in Elements(keys) && Elements(keys[1..]) <= Elements(keys);
      KeysMembers(b, a, keys[1..], c);
      assert DiffKey(b, a, keys[0]) == DiffChild(b, a, Key(keys[0]));
    }
  }

  lemma {:induction false} ItemsMembers(b: Json, a: Json, i: nat, c: Change)
    requires b.Arr? && a.Arr? && i <= Longest(b, a)
    ensures c in DiffItems(b, a, i) <==> exists j :: i <= j < Longest(b, a) && c in DiffChild(b, a, Index(j))
    decreases Longest(b, a) - i
  {
    if i < Longest(b, a) {
      ItemsMembers(b, a, i + 1, c);
      assert DiffItem(b, a, i) == DiffChild(b, a, Index(i));
    }
  }

  /** The changes of two containers are exactly the changes at the positions below them. */
  lemma {:induction false} DiffMembers(b: Json, a: Json, c: Change)
    requires SameContainer(b, a)
    ensures c in Diff(b, a) <==>
            c.path != [] && IsStep(b, a, c.path[0]) && c in DiffChild(b, a, c.path[0])
  {
    if b.Obj? {
      var keys := Sorted(b.fields.Keys + a.fields.Keys);
      KeysMembers(b, a, keys, c);
      if c.path != [] && IsStep(b, a, c.path[0]) && c in DiffChild(b, a, c.path[0]) {
        assert c.path[0].k in Elements(keys);
      }
    } else {
      ItemsMembers(b, a, 0, c);
      if c.path != [] && IsStep(b, a, c.path[0]) && c in DiffChild(b, a, c.path[0]) {
        assert c in DiffChild(b, a, Index(c.path[0].i));
      }
    }
  }

  // A change that says truly how the value at its position differs.
  predicate Truthful(b: Json, a: Json, c: Change) {
    && c.before == At(b, c.path) && c.after == At(a, c.path) && c.before != c.after
    && match c.kind
       case Added => c.before.None?
       case Removed => c.after.None?
       case Changed => c.before.Some? && c.after.Some? && !SameContainer(c.before.value, c.after.value)
  }

  /** Every reported position really differs, and the report says how. */
  lemma {:induction false} ReportedReallyDiffers(b: Json, a: Json, c: Change)
    requires c in Diff(b, a)
    ensures Truthful(b, a, c)
    decreases b
  {
    if SameContainer(b, a) {
      DiffMembers(b, a, c);
      var step := c.path[0];
      if Shared(b, a, step) {
        var sub := FromChild(b, a, step, c);
        ReportedReallyDiffers(Child(b, step).value, Child(a, step).value, sub);
        TruthfulBelow(b, a, step, sub);
      } else {
        UnsharedIsTruthful(b, a, step, c);
      }
    } else {
      LeafIsTruthful(b, a, c);
    }
  }

  lemma {:induction false} LeafIsTruthful(b: Json, a: Json, c: Change)
    requires !SameContainer(b, a) && c in Diff(b, a)
    ensures Truthful(b, a, c)
  {
    assert c == Change([], Changed, Some(b), Some(a));
  }

  lemma {:induction false} TruthfulBelow(b: Json, a: Json, step: Step, sub: Change)
    requires Shared(b, a, step) && Truthful(Child(b, step).value, Child(a, step).value, sub)
    ensures Truthful(b, a, sub.(path := [step] + sub.path))
  {
    AtStep(b, step, sub.path);
    AtStep(a, step, sub.path);
  }

  lemma {:induction false} UnsharedIsTruthful(b: Json, a: Json, step: Step, c: Change)
    requires SameContainer(b, a) && IsStep(b, a, step) && !Shared(b, a, step) && c in DiffChild(b, a, step)
    ensures Truthful(b, a, c)
  {
    assert c.path == [step] + [];
    AtStep(b, step, []);
    AtStep(a, step, []);
  }

  lemma {:induction false} AtStep(j: Json, step: Step, rest: Path)
    ensures At(j, [step] + rest) == if Child(j, step).Some? then At(Child(j, step).value, rest) else None
  {
    assert ([step] + rest)[1..] == rest;
  }

  // A change below a shared position comes from the difference of the two children.
  lemma {:induction false} FromChild(b: Json, a: Json, step: Step, c: Change) returns (sub: Change)
    requires SameContainer(b, a) && Shared(b, a, step) && c in DiffChild(b, a, step)
    ensures sub in Diff(Child(b, step).value, Child(a, step).value) && c == sub.(path := [step] + sub.path)
  {
    var subs := Diff(Child(b, step).value, Child(a, step).value);
    var i :| 0 <= i < |subs| && c == Under(step, subs)[i];
    sub := subs[i];
  }

  // ---- no position is reported twice ----

  predicate Apart(p: Path, q: Path) { !(p <= q) && !(q <= p) }

  predicate AllApart(cs: seq<Change>) {
    forall i, j :: 0 <= i < j < |cs| ==> Apart(cs[i].path, cs[j].path)
  }

  lemma {:induction false} ApartBelow(step: Step, p: Path, q: Path)
    requires Apart(p, q)
    ensures Apart([step] + p, [step] + q)
  {
    var x, y := [step] + p, [step] + q;
    assert x[1..] == p && y[1..] == q;
  }

  lemma {:induction false} ChildApart(b: Json, a: Json, step: Step)
    requires SameContainer(b, a) && IsStep(b, a, step)
    requires Shared(b, a, step) ==> AllApart(Diff(Child(b, step).value, Child(a, step).value))
    ensures AllApart(DiffChild(b, a, step))
  {
    if Shared(b, a, step) {
      var sub := Diff(Child(b, step).value, Child(a, step).value);
      forall i, j | 0 <= i < j < |sub| ensures Apart(Under(step, sub)[i].path, Under(step, sub)[j].path) {
        ApartBelow(step, sub[i].path, sub[j].path);
      }
    }
  }

  lemma ChildPath(b: Json, a: Json, step: Step, c: Change)
    requires SameContainer(b, a) && IsStep(b, a, step) && c in DiffChild(b, a, step)
    ensures c.path != [] && c.path[0] == step
  {
  }

  lemma {:induction false} KeysElsewhere(b: Json, a: Json, k: string, keys: seq<string>, c: Change, d: Change)
    requires b.Obj? && a.Obj? && k in b.fields.Keys + a.fields.Keys && Elements(keys) <= b.fields.Keys + a.fields.Keys
    requires k !in keys && c in DiffChild(b, a, Key(k)) && d in DiffKeys(b, a, keys)
    ensures c.path != [] && d.path != [] && c.path[0] != d.path[0]
  {
    KeysMembers(b, a, keys, d);
    var other :| other in keys && IsStep(b, a, Key(other)) && d in DiffChild(b, a, Key(other));
    ChildPath(b, a, Key(k), c);
    ChildPath(b, a, Key(other), d);
  }

  lemma {:induction false} ItemsElsewhere(b: Json, a: Json, i: nat, c: Change, d: Change)
    requires b.Arr? && a.Arr? && i < Longest(b, a) && c in DiffChild(b, a, Index(i)) && d in DiffItems(b, a, i + 1)
    ensures c.path != [] && d.path != [] && c.path[0] != d.path[0]
  {
    ItemsMembers(b, a, i + 1, d);
    var j :| i + 1 <= j < Longest(b, a) && d in DiffChild(b, a, Index(j));
    ChildPath(b, a, Index(i), c);
    ChildPath(b, a, Index(j), d);
  }

  lemma {:induction false} ConcatApart(cs: seq<Change>, ds: seq<Change>)
    requires AllApart(cs) && AllApart(ds)
    requires forall c, d :: c in cs && d in ds ==> c.path != [] && d.path != [] && c.path[0] != d.path[0]
    ensures AllApart(cs + ds)
  {
    forall i, j | 0 <= i < j < |cs + ds| ensures Apart((cs + ds)[i].path, (cs + ds)[j].path) {
      if i < |cs| <= j {
        assert cs[i] in cs && ds[j - |cs|] in ds;
      }
    }
  }

  lemma {:induction false} KeysApart(b: Json, a: Json, keys: seq<string>)
    requires b.Obj? && a.Obj? && Elements(keys) <= b.fields.Keys + a.fields.Keys && NoDuplicates(keys)
    requires forall k :: k in keys && Shared(b, a, Key(k)) ==> AllApart(Diff(b.fields[k], a.fields[k]))
    ensures AllApart(DiffKeys(b, a, keys))
    decreases |keys|
  {
    if keys != [] {
      var k, rest := keys[0], keys[1..];
      assert k in Elements(keys) && Elements(rest) <= Elements(keys);
      assert k !in rest;
      KeysApart(b, a, rest);
      assert DiffKey(b, a, k) == DiffChild(b, a, Key(k));
      ChildApart(b, a, Key(k));
      forall c, d | c in DiffKey(b, a, k) && d in DiffKeys(b, a, rest)
        ensures c.path != [] && d.path != [] && c.path[0] != d.path[0]
      {
        KeysElsewhere(b, a, k, rest, c, d);
      }
      ConcatApart(DiffKey(b, a, k), DiffKeys(b, a, rest));
    }
  }

  lemma {:induction false} ItemsApart(b: Json, a: Json, i: nat)
    requires b.Arr? && a.Arr? && i <= Longest(b, a)
    requires forall j :: i <= j && Shared(b, a, Index(j)) ==> AllApart(Diff(b.items[j], a.items[j]))
    ensures AllApart(DiffItems(b, a, i))
    decreases Longest(b, a) - i
  {
    if i < Longest(b, a) {
      ItemsApart(b, a, i + 1);
      assert DiffItem(b, a, i) == DiffChild(b, a, Index(i));
      ChildApart(b, a, Index(i));
      forall c, d | c in DiffItem(b, a, i) && d in DiffItems(b, a, i + 1)
        ensures c.path != [] && d.path != [] && c.path[0] != d.path[0]
      {
        ItemsElsewhere(b, a, i, c, d);
      }
      ConcatApart(DiffItem(b, a, i), DiffItems(b, a, i + 1));
    }
  }

  /** No position is reported twice, nor together with a position inside it. */
  lemma {:induction false} ReportsAreApart(b: Json, a: Json)
    ensures AllApart(Diff(b, a))
    decreases b
  {
    if b.Obj? && a.Obj? {
      forall k | k in b.fields && k in a.fields ensures AllApart(Diff(b.fields[k], a.fields[k])) {
        ReportsAreApart(b.fields[k], a.fields[k]);
      }
      KeysApart(b, a, Sorted(b.fields.Keys + a.fields.Keys));
    } else if b.Arr? && a.Arr? {
      forall j | 0 <= j < |b.items| && j < |a.items| ensures AllApart(Diff(b.items[j], a.items[j])) {
        ReportsAreApart(b.items[j], a.items[j]);
      }
      ItemsApart(b, a, 0);
    }
  }

  // ---- the report explains the difference ----

  ghost function Paths(cs: seq<Change>): set<Path> { set c | c in cs :: c.path }

  ghost function Below(ps: set<Path>, step: Step): set<Path> {
    set p | p in ps && p != [] && p[0] == step :: p[1..]
  }

  // Whether a position below two containers survives, and with which value.
  ghost predicate Kept(b: Json, a: Json, ps: set<Path>, step: Step) {
    if Shared(b, a, step) then true
    else if [step] in ps then Child(a, step).Some?
    else Child(b, step).Some?
  }

  // `b` with the values of `a` put in (or taken out) at the given positions.
  ghost function Overwrite(b: Json, a: Json, ps: set<Path>): Json
    decreases b, 1, 0
  {
    if [] in ps then a
    else if b.Obj? && a.Obj? then
      Obj(map k | k in b.fields.Keys + a.fields.Keys && Kept(b, a, ps, Key(k)) :: OverwriteChild(b, a, ps, Key(k)))
    else if b.Arr? && a.Arr? then Arr(OverwriteItems(b, a, ps, 0))
    else b
  }

  ghost function OverwriteChild(b: Json, a: Json, ps: set<Path>, step: Step): Json
    requires Kept(b, a, ps, step)
    decreases b, 0, 0
  {
    if Shared(b, a, step) then Overwrite(Child(b, step).value, Child(a, step).value, Below(ps, step))
    else if Child(a, step).Some? then Child(a, step).value
    else Child(b, step).value
  }

  ghost function OverwriteItems(b: Json, a: Json, ps: set<Path>, i: nat): seq<Json>
    requires b.Arr? && a.Arr? && i <= Longest(b, a)
    decreases b, 0, Longest(b, a) - i + 1
  {
    if i == Longest(b, a) then []
    else
      (if Kept(b, a, ps, Index(i)) then [OverwriteChild(b, a, ps, Index(i))] else []) + OverwriteItems(b, a, ps, i + 1)
  }

  lemma {:induction false} ReportedBelow(b: Json, a: Json, step: Step, c: Change)
    requires SameContainer(b, a) && IsStep(b, a, step) && Shared(b, a, step)
    requires c in Diff(b, a) && c.path != [] && c.path[0] == step
    ensures c.path[1..] in Paths(Diff(Child(b, step).value, Child(a, step).value))
  {
    var sub := Diff(Child(b, step).value, Child(a, step).value);
    DiffMembers(b, a, c);
    var i :| 0 <= i < |sub| && c == Under(step, sub)[i];
    assert c.path[1..] == sub[i].path && sub[i] in sub;
  }

  lemma {:induction false} ReportedAbove(b: Json, a: Json, step: Step, p: Path)
    requires SameContainer(b, a) && IsStep(b, a, step) && Shared(b, a, step)
    requires p in Paths(Diff(Child(b, step).value, Child(a, step).value))
    ensures [step] + p in Paths(Diff(b, a))
  {
    var sub := Diff(Child(b, step).value, Child(a, step).value);
    var i :| 0 <= i < |sub| && sub[i].path == p;
    var c := Under(step, sub)[i];
    assert c in Under(step, sub) && c.path == [step] + p;
    DiffMembers(b, a, c);
  }

  lemma {:induction false} PathsBelow(b: Json, a: Json, step: Step)
    requires SameContainer(b, a) && IsStep(b, a, step)
    ensures Shared(b, a, step) ==>
              Below(Paths(Diff(b, a)), step) == Paths(Diff(Child(b, step).value, Child(a, step).value))
    ensures !Shared(b, a, step) ==> [step] in Paths(Diff(b, a))
  {
    var all := Paths(Diff(b, a));
    if Shared(b, a, step) {
      var sub := Paths(Diff(Child(b, step).value, Child(a, step).value));
      forall p | p in Below(all, step) ensures p in sub {
        var c :| c in Diff(b, a) && c.path != [] && c.path[0] == step && c.path[1..] == p;
        ReportedBelow(b, a, step, c);
      }
      forall p | p in sub ensures p in Below(all, step) {
        ReportedAbove(b, a, step, p);
        assert ([step] + p)[0] == step && ([step] + p)[1..] == p;
      }
    } else {
      UnsharedIsReported(b, a, step);
    }
  }

  lemma {:induction false} UnsharedIsReported(b: Json, a: Json, step: Step)
    requires SameContainer(b, a) && IsStep(b, a, step) && !Shared(b, a, step)
    ensures [step] in Paths(Diff(b, a))
  {
    var c := DiffChild(b, a, step)[0];
    assert c in DiffChild(b, a, step) && c.path == [step];
    DiffMembers(b, a, c);
  }

  lemma {:induction false} ContainersReportBelow(b: Json, a: Json)
    requires SameContainer(b, a)
    ensures [] !in Paths(Diff(b, a))
    ensures forall p :: p in Paths(Diff(b, a)) ==> p != [] && IsStep(b, a, p[0])
  {
    forall c | c in Diff(b, a) ensures c.path != [] && IsStep(b, a, c.path[0]) {
      DiffMembers(b, a, c);
    }
  }

  lemma ItemsStep(b: Json, a: Json, ps: set<Path>, i: nat)
    requires b.Arr? && a.Arr? && i < Longest(b, a)
    ensures OverwriteItems(b, a, ps, i)
         == (if Kept(b, a, ps, Index(i)) then [OverwriteChild(b, a, ps, Index(i))] else [])
           + OverwriteItems(b, a, ps, i + 1)
  {
  }

  lemma {:induction false} ItemsOverwritten(b: Json, a: Json, ps: set<Path>, i: nat)
    requires b.Arr? && a.Arr? && i <= Longest(b, a)
    requires forall j :: i <= j < Longest(b, a) ==> (Kept(b, a, ps, Index(j)) <==> j < |a.items|)
    requires forall j :: i <= j < |a.items| ==> OverwriteChild(b, a, ps, Index(j)) == a.items[j]
    ensures OverwriteItems(b, a, ps, i) == if i <= |a.items| then a.items[i..] else []
    decreases Longest(b, a) - i
  {
    if i < Longest(b, a) {
      ItemsOverwritten(b, a, ps, i + 1);
      ItemsStep(b, a, ps, i);
      if i < |a.items| {
        SuffixStep(a.items, i);
      }
    }
  }

  /** Replacing exactly the reported positions in `before` by those of `after` yields `after`. */
  lemma {:induction false} ReportIsComplete(b: Json, a: Json)
    ensures Overwrite(b, a, Paths(Diff(b, a))) == a
    decreases b
  {
    var ps := Paths(Diff(b, a));
    if SameContainer(b, a) {
      ContainersReportBelow(b, a);
      forall step | IsStep(b, a, step) ensures Restored(b, a, ps, step) {
        PathsBelow(b, a, step);
        if Shared(b, a, step) {
          ReportIsComplete(Child(b, step).value, Child(a, step).value);
        }
      }
      ContainerRestored(b, a, ps);
    } else if b != a {
      assert Diff(b, a)[0] in Diff(b, a);
    }
  }

  // A position gets what `a` has there.
  ghost predicate Restored(b: Json, a: Json, ps: set<Path>, step: Step) {
    && (Kept(b, a, ps, step) <==> Child(a, step).Some?)
    && (Child(a, step).Some? ==> OverwriteChild(b, a, ps, step) == Child(a, step).value)
  }

  lemma {:induction false} ContainerRestored(b: Json, a: Json, ps: set<Path>)
    requires SameContainer(b, a) && [] !in ps
    requires forall step :: IsStep(b, a, step) ==> Restored(b, a, ps, step)
    ensures Overwrite(b, a, ps) == a
  {
    if b.Obj? {
      forall k | k in b.fields.Keys + a.fields.Keys
        ensures Kept(b, a, ps, Key(k)) <==> k in a.fields
        ensures k in a.fields ==> OverwriteChild(b, a, ps, Key(k)) == a.fields[k]
      {
        assert IsStep(b, a, Key(k)) && Restored(b, a, ps, Key(k));
      }
      assert Overwrite(b, a, ps).fields == a.fields;
    } else {
      forall j | 0 <= j < Longest(b, a)
        ensures Kept(b, a, ps, Index(j)) <==> j < |a.items|
        ensures j < |a.items| ==> OverwriteChild(b, a, ps, Index(j)) == a.items[j]
      {
        assert IsStep(b, a, Index(j)) && Restored(b, a, ps, Index(j));
      }
      ItemsOverwritten(b, a, ps, 0);
      assert a.items[0..] == a.items;
    }
  }

  /** The report is empty exactly when the two trees are identical, types included. */
  lemma {:induction false} EmptyIffIdentical(b: Json, a: Json)
    ensures Diff(b, a) == [] <==> b == a
  {
    if Diff(b, a) == [] {
      assert Paths(Diff(b, a)) == {};
      ReportIsComplete(b, a);
      NothingOverwritten(b, a);
    } else if b == a {
      ReportedReallyDiffers(b, a, Diff(b, a)[0]);
    }
  }

  lemma {:induction false} ItemsKept(b: Json, a: Json, i: nat)
    requires b.Arr? && a.Arr? && i <= Longest(b, a)
    requires forall j :: i <= j < |b.items| ==> OverwriteChild(b, a, {}, Index(j)) == b.items[j]
    ensures OverwriteItems(b, a, {}, i) == if i <= |b.items| then b.items[i..] else []
    decreases Longest(b, a) - i
  {
    if i < Longest(b, a) {
      ItemsKept(b, a, i + 1);
      ItemsStep(b, a, {}, i);
      if i < |b.items| {
        SuffixStep(b.items, i);
      }
    }
  }

  lemma {:induction false} NothingOverwritten(b: Json, a: Json)
    ensures Overwrite(b, a, {}) == b
    decreases b
  {
    if SameContainer(b, a) {
      forall step | Child(b, step).Some? ensures OverwriteChild(b, a, {}, step) == Child(b, step).value {
        if Shared(b, a, step) {
          assert Below({}, step) == {};
          NothingOverwritten(Child(b, step).value, Child(a, step).value);
        }
      }
      if b.Obj? {
        forall k | k in b.fields ensures OverwriteChild(b, a, {}, Key(k)) == b.fields[k] {
          assert Child(b, Key(k)).Some?;
        }
        assert Overwrite(b, a, {}).fields == b.fields;
      } else {
        forall j | 0 <= j < |b.items| ensures OverwriteChild(b, a, {}, Index(j)) == b.items[j] {
          assert Child(b, Index(j)).Some?;
        }
        ItemsKept(b, a, 0);
        assert b.items[0..] == b.items;
      }
    }
  }

  // ---- nothing in the report can be left out ----

  // How many positions from `i` on survive.
  ghost function KeptCount(b: Json, a: Json, ps: set<Path>, i: nat): nat
    requires b.Arr? && a.Arr? && i <= Longest(b, a)
    decreases Longest(b, a) - i
  {
    if i == Longest(b, a) then 0 else (if Kept(b, a, ps, Index(i)) then 1 else 0) + KeptCount(b, a, ps, i + 1)
  }

  lemma {:induction false} KeptCountIsLength(b: Json, a: Json, ps: set<Path>, i: nat)
    requires b.Arr? && a.Arr? && i <= Longest(b, a)
    ensures |OverwriteItems(b, a, ps, i)| == KeptCount(b, a, ps, i)
    decreases Longest(b, a) - i
  {
    if i < Longest(b, a) {
      KeptCountIsLength(b, a, ps, i + 1);
    }
  }

  // Beyond the shared part, positions survive or not all on the same side, so a left-out one shows in the length.
  lemma {:induction false} TailCount(b: Json, a: Json, ps: set<Path>, i: nat)
    requires b.Arr? && a.Arr? && i <= Longest(b, a) && (|b.items| <= i || |a.items| <= i)
    ensures KeptCount(b, a, ps, i) <= Longest(b, a) - i
    ensures |b.items| < |a.items| && KeptCount(b, a, ps, i) == Longest(b, a) - i ==>
              forall j :: i <= j < Longest(b, a) ==> [Index(j)] in ps
    ensures |a.items| < |b.items| && KeptCount(b, a, ps, i) == 0 ==>
              forall j :: i <= j < Longest(b, a) ==> [Index(j)] in ps
    decreases Longest(b, a) - i
  {
    if i < Longest(b, a) {
      TailCount(b, a, ps, i + 1);
    }
  }

  lemma {:induction false} SharedCount(b: Json, a: Json, ps: set<Path>, i: nat, shared: nat)
    requires b.Arr? && a.Arr? && i <= shared && shared == (if |b.items| < |a.items| then |b.items| else |a.items|)
    ensures KeptCount(b, a, ps, i) == shared - i + KeptCount(b, a, ps, shared)
    decreases shared - i
  {
    if i < shared {
      SharedCount(b, a, ps, i + 1, shared);
    }
  }

  lemma {:induction false} SharedItem(b: Json, a: Json, ps: set<Path>, i: nat, j: nat)
    requires b.Arr? && a.Arr? && i <= j && j < |b.items| && j < |a.items|
    ensures j - i < |OverwriteItems(b, a, ps, i)|
            && OverwriteItems(b, a, ps, i)[j - i] == OverwriteChild(b, a, ps, Index(j))
    decreases j - i
  {
    var here, later := OverwriteItems(b, a, ps, i), OverwriteItems(b, a, ps, i + 1);
    ItemsStep(b, a, ps, i);
    if i < j {
      SharedItem(b, a, ps, i + 1, j);
      assert here[j - i] == later[j - (i + 1)];
    }
  }

  lemma {:induction false} StepsRestored(b: Json, a: Json, ps: set<Path>, step: Step)
    requires SameContainer(b, a) && IsStep(b, a, step) && [] !in ps && Overwrite(b, a, ps) == a
    ensures Shared(b, a, step) ==> OverwriteChild(b, a, ps, step) == Child(a, step).value
    ensures !Shared(b, a, step) ==> [step] in ps
  {
    if b.Obj? {
      var k := step.k;
      var merged := Overwrite(b, a, ps).fields;
      assert k in b.fields.Keys + a.fields.Keys;
      assert k in merged <==> Kept(b, a, ps, Key(k));
      if Shared(b, a, step) {
        assert merged[k] == OverwriteChild(b, a, ps, Key(k));
      }
    } else {
      var shared := if |b.items| < |a.items| then |b.items| else |a.items|;
      KeptCountIsLength(b, a, ps, 0);
      SharedCount(b, a, ps, 0, shared);
      TailCount(b, a, ps, shared);
      assert OverwriteItems(b, a, ps, 0) == a.items;
      if Shared(b, a, step) {
        SharedItem(b, a, ps, 0, step.i);
      }
    }
  }

  // Without a common child, the only position reported at a step is the step itself.
  lemma {:induction false} UnsharedPath(b: Json, a: Json, p: Path)
    requires SameContainer(b, a) && p in Paths(Diff(b, a)) && p != [] && IsStep(b, a, p[0]) && !Shared(b, a, p[0])
    ensures p == [p[0]]
  {
    var c :| c in Diff(b, a) && c.path == p;
    DiffMembers(b, a, c);
  }

  lemma {:induction false} PathFromBelow(ps: set<Path>, all: set<Path>, p: Path)
    requires p in all && p != [] && Below(ps, p[0]) == Below(all, p[0])
    ensures p in ps
  {
    assert p[1..] in Below(all, p[0]);
    var q :| q in ps && q != [] && q[0] == p[0] && q[1..] == p[1..];
    assert q == [p[0]] + q[1..] && p == [p[0]] + p[1..];
  }

  /** The report is minimal: of its positions, only all of them together turn `before` into `after`. */
  lemma {:induction false} ReportIsMinimal(b: Json, a: Json, ps: set<Path>)
    requires ps <= Paths(Diff(b, a)) && Overwrite(b, a, ps) == a
    ensures ps == Paths(Diff(b, a))
    decreases b, 1
  {
    var all := Paths(Diff(b, a));
    if SameContainer(b, a) {
      ContainersReportBelow(b, a);
      forall p | p in all ensures p in ps {
        StepsRestored(b, a, ps, p[0]);
        PathsBelow(b, a, p[0]);
        if Shared(b, a, p[0]) {
          MinimalChild(b, a, ps, p[0]);
          PathFromBelow(ps, all, p);
        } else {
          UnsharedPath(b, a, p);
        }
      }
    } else if b != a {
      assert all == {[]};
    }
  }

  lemma {:induction false} MinimalChild(b: Json, a: Json, ps: set<Path>, step: Step)
    requires SameContainer(b, a) && IsStep(b, a, step) && Shared(b, a, step) && [] !in ps
    requires ps <= Paths(Diff(b, a))
    requires Kept(b, a, ps, step) && OverwriteChild(b, a, ps, step) == Child(a, step).value
    ensures Below(ps, step) == Below(Paths(Diff(b, a)), step)
    decreases b, 0
  {
    PathsBelow(b, a, step);
    assert Below(ps, step) <= Below(Paths(Diff(b, a)), step);
    ReportIsMinimal(Child(b, step).value, Child(a, step).value, Below(ps, step));
  }

  // ---- the recursion that builds the list ----

  function Prefixed(path: Path, cs: seq<Change>): (r: seq<Change>)
    ensures |r| == |cs|
    ensures forall i :: 0 <= i < |r| ==> r[i] == cs[i].(path := path + cs[i].path)
  {
    seq(|cs|, i requires 0 <= i < |cs| => cs[i].(path := path + cs[i].path))
  }

  lemma PrefixedConcat(path: Path, cs: seq<Change>, ds: seq<Change>)
    ensures Prefixed(path, cs + ds) == Prefixed(path, cs) + Prefixed(path, ds)
  {
  }

  lemma {:induction false} PrefixedUnder(path: Path, step: Step, cs: seq<Change>)
    ensures Prefixed(path, Under(step, cs)) == Prefixed(path + [step], cs)
  {
    forall i | 0 <= i < |cs| ensures path + ([step] + cs[i].path) == (path + [step]) + cs[i].path {
    }
  }

  lemma {:induction false} PrefixedEmpty(cs: seq<Change>)
    ensures Prefixed([], cs) == cs
  {
    assert forall i :: 0 <= i < |cs| ==> [] + cs[i].path == cs[i].path;
  }

  /** _diff_hashes: the loops produce the specified list, at the path they were given. */
  method DiffHashes(b: Json, a: Json, path: Path) returns (changes: seq<Change>)
    ensures changes == Prefixed(path, Diff(b, a))
    decreases b, 1
  {
    if b.Obj? && a.Obj? {
      changes := DiffObjects(b, a, path);
    } else if b.Arr? && a.Arr? {
      changes := DiffArrays(b, a, path);
    } else if b == a {
      changes := [];
    } else {
      assert path + [] == path;
      changes := [Change(path, Changed, Some(b), Some(a))];
    }
  }

  // What one pass of a loop appends.
  method DiffPosition(b: Json, a: Json, path: Path, step: Step) returns (changes: seq<Change>)
    requires SameContainer(b, a) && IsStep(b, a, step)
    ensures changes == Prefixed(path, DiffChild(b, a, step))
    decreases b, 0, 0
  {
    var was, now := Child(b, step), Child(a, step);
    if was.None? {
      changes := [Change(path + [step], Added, None, now)];
    } else if now.None? {
      changes := [Change(path + [step], Removed, was, None)];
    } else {
      changes := DiffHashes(was.value, now.value, path + [step]);
      PrefixedUnder(path, step, Diff(was.value, now.value));
    }
  }

  lemma {:induction false} NextKey(b: Json, a: Json, path: Path, keys: seq<string>, n: nat)
    requires b.Obj? && a.Obj? && n < |keys| && Elements(keys[n..]) <= b.fields.Keys + a.fields.Keys
    ensures Elements(keys[n + 1..]) <= b.fields.Keys + a.fields.Keys && IsStep(b, a, Key(keys[n]))
    ensures Prefixed(path, DiffKeys(b, a, keys[n..]))
            == Prefixed(path, DiffChild(b, a, Key(keys[n]))) + Prefixed(path, DiffKeys(b, a, keys[n + 1..]))
  {
    var k := keys[n];
    assert keys[n..][0] == k && keys[n..][1..] == keys[n + 1..] && k in Elements(keys[n..]);
    assert Elements(keys[n + 1..]) <= Elements(keys[n..]);
    assert DiffKey(b, a, k) == DiffChild(b, a, Key(k));
    PrefixedConcat(path, DiffKey(b, a, k), DiffKeys(b, a, keys[n + 1..]));
  }

  method DiffObjects(b: Json, a: Json, path: Path) returns (changes: seq<Change>)
    requires b.Obj? && a.Obj?
    ensures changes == Prefixed(path, Diff(b, a))
    decreases b, 0, 2
  {
    var keys := Sort(b.fields.Keys + a.fields.Keys);
    changes := DiffFields(b, a, path, keys);
  }

  method DiffFields(b: Json, a: Json, path: Path, keys: seq<string>) returns (changes: seq<Change>)
    requires b.Obj? && a.Obj? && Elements(keys) <= b.fields.Keys + a.fields.Keys
    ensures changes == Prefixed(path, DiffKeys(b, a, keys))
    decreases b, 0, 1
  {
    changes := [];
    ghost var rest := Prefixed(path, DiffKeys(b, a, keys));
    ghost var all := rest;
    var n := 0;
    assert keys[0..] == keys;
    while n < |keys|
      invariant 0 <= n <= |keys| && Elements(keys[n..]) <= b.fields.Keys + a.fields.Keys
      invariant rest == Prefixed(path, DiffKeys(b, a, keys[n..])) && all == changes + rest
    {
      NextKey(b, a, path, keys, n);
      var more := DiffPosition(b, a, path, Key(keys[n]));
      rest := Prefixed(path, DiffKeys(b, a, keys[n + 1..]));
      RegroupLists(changes, more, rest);
      changes := changes + more;
      n := n + 1;
    }
    assert keys[n..] == [] && rest == [];
  }

  method DiffArrays(b: Json, a: Json, path: Path) returns (changes: seq<Change>)
    requires b.Arr? && a.Arr?
    ensures changes == Prefixed(path, Diff(b, a))
    decreases b, 0, 1
  {
    changes := [];
    var n := 0;
    while n < Longest(b, a)
      invariant 0 <= n <= Longest(b, a)
      invariant Prefixed(path, Diff(b, a)) == changes + Prefixed(path, DiffItems(b, a, n))
    {
      assert DiffItem(b, a, n) == DiffChild(b, a, Index(n));
      PrefixedConcat(path, DiffItem(b, a, n), DiffItems(b, a, n + 1));
      var more := DiffPosition(b, a, path, Index(n));
      changes := changes + more;
      n := n + 1;
    }
    assert Prefixed(path, []) == [];
  }

  // ---- the verification of a baseline ----

  const COMPARED := ["policy", "docker_host", "protected_containers", "protected_image_ids",
                     "protected_host_resources", "required_port_owners"]

  // document.get(key): a missing field reads as null.
  function Get(document: Json, key: string): Json {
    if Field(document, key).Some? then Field(document, key).value else Null
  }

  function Projection(document: Json, keys: seq<string>): Json {
    Obj(map k | k in keys :: Get(document, k))
  }

  predicate Agree(baseline: Json, current: Json, keys: seq<string>) {
    forall k :: k in keys ==> Get(baseline, k) == Get(current, k)
  }

  lemma {:induction false} ProjectionsAgree(baseline: Json, current: Json, keys: seq<string>)
    ensures Projection(baseline, keys) == Projection(current, keys) <==> Agree(baseline, current, keys)
  {
    var b, c := Projection(baseline, keys).fields, Projection(current, keys).fields;
    assert forall k :: k in keys ==> b[k] == Get(baseline, k) && c[k] == Get(current, k);
  }

  // The field is the same in both, where a missing one counts as null.
  predicate SameField(a: Json, b: Json, key: string) {
    || Field(a, key) == Field(b, key)
    || (Field(a, key) == None && Field(b, key) == Some(Null))
    || (Field(a, key) == Some(Null) && Field(b, key) == None)
  }

  lemma {:induction false} AgreeOnCompared(baseline: Json, current: Json)
    ensures Agree(baseline, current, COMPARED) <==>
            && SameField(baseline, current, "policy") && SameField(baseline, current, "docker_host")
            && SameField(baseline, current, "protected_containers")
            && SameField(baseline, current, "protected_image_ids")
            && SameField(baseline, current, "protected_host_resources")
            && SameField(baseline, current, "required_port_owners")
  {
    assert forall k :: SameField(baseline, current, k) <==> Get(baseline, k) == Get(current, k);
    assert COMPARED[0] == "policy" && COMPARED[1] == "docker_host" && COMPARED[2] == "protected_containers";
    assert COMPARED[3] == "protected_image_ids" && COMPARED[4] == "protected_host_resources";
    assert COMPARED[5] == "required_port_owners";
  }

  /** The verdict is PASS exactly when every compared field of the two snapshots is identical. */
  method VerifyAgainstBaseline(baseline: Json, current: Json) returns (pass: bool, changes: seq<Change>)
    ensures pass <==>
            && SameField(baseline, current, "policy") && SameField(baseline, current, "docker_host")
            && SameField(baseline, current, "protected_containers")
            && SameField(baseline, current, "protected_image_ids")
            && SameField(baseline, current, "protected_host_resources")
            && SameField(baseline, current, "required_port_owners")
    ensures pass <==> changes == []
    ensures Overwrite(Projection(baseline, COMPARED), Projection(current, COMPARED), Paths(changes))
            == Projection(current, COMPARED)
  {
    pass, changes := Compare(baseline, current, COMPARED);
    AgreeOnCompared(baseline, current);
  }

  method Compare(baseline: Json, current: Json, keys: seq<string>) returns (pass: bool, changes: seq<Change>)
    ensures pass <==> Agree(baseline, current, keys)
    ensures pass <==> changes == []
    ensures Overwrite(Projection(baseline, keys), Projection(current, keys), Paths(changes))
            == Projection(current, keys)
  {
    var before, after := Projection(baseline, keys), Projection(current, keys);
    changes := DiffHashes(before, after, []);
    PrefixedEmpty(Diff(before, after));
    pass := changes == [];
    EmptyIffIdentical(before, after);
    ReportIsComplete(before, after);
    ProjectionsAgree(baseline, current, keys);
  }
}
