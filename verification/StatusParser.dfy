/** Counting the NUL-separated output of git status (scripts/acceptance.py). */
module StatusParser {
  import opened Common
  import opened Sequences

  newtype byte = x: int | 0 <= x < 256

  type Bytes = seq<byte>

  const NUL: byte := 0
  const SPACE: byte := 32
  const QUESTION: byte := 63
  const A: byte := 65
  const C: byte := 67
  const D: byte := 68
  const R: byte := 82
  const U: byte := 85

  datatype Counts = Counts(total: nat, staged: nat, unstaged: nat, untracked: nat, conflicts: nat)

  // The two status letters of an entry.
  datatype Letters = Letters(x: byte, y: byte)

  predicate IsConflict(x: byte, y: byte) {
    || (x == D && (y == D || y == U))
    || (x == A && (y == A || y == U))
    || (x == U && (y == D || y == A || y == U))
  }

  predicate IsUntracked(l: Letters) { l.x == QUESTION && l.y == QUESTION }

  predicate IsStaged(l: Letters) { !IsUntracked(l) && l.x != SPACE }

  predicate IsUnstaged(l: Letters) { !IsUntracked(l) && l.y != SPACE }

  predicate InConflict(l: Letters) { IsConflict(l.x, l.y) }

  predicate HasOrigin(x: byte, y: byte) { x == R || y == R || x == C || y == C }

  // ---- the entries and their layout ----

  function Text(b: byte): char { (b as int) as char }

  // `origin` is the second path of a rename or copy; any bytes but NUL are allowed in a path.
  datatype Entry = Entry(x: byte, y: byte, path: Bytes, origin: Option<Bytes>)

  predicate EntryOk(e: Entry) {
    && e.x != NUL && e.y != NUL && e.path != [] && NUL !in e.path
    && (e.origin.Some? <==> Text(e.x) in {'R', 'C'} || Text(e.y) in {'R', 'C'})
    && (e.origin.Some? ==> NUL !in e.origin.value)
  }

  predicate EntriesOk(es: seq<Entry>) { forall i :: 0 <= i < |es| ==> EntryOk(es[i]) }

  function Head(e: Entry): Bytes { [e.x, e.y, SPACE] + e.path }

  function SerializeOne(e: Entry): Bytes {
    Head(e) + [NUL] + if e.origin.Some? then e.origin.value + [NUL] else []
  }

  function Serialize(es: seq<Entry>): Bytes {
    if es == [] then [] else SerializeOne(es[0]) + Serialize(es[1..])
  }

  function EntryLetters(es: seq<Entry>): (r: seq<Letters>)
    ensures |r| == |es|
  {
    if es == [] then [] else [Letters(es[0].x, es[0].y)] + EntryLetters(es[1..])
  }

  // How many of the entries satisfy a test.
  function Count(letters: seq<Letters>, test: Letters -> bool): nat {
    if letters == [] then 0
    else Count(letters[..|letters| - 1], test) + if test(letters[|letters| - 1]) then 1 else 0
  }

  function CountsOf(letters: seq<Letters>): Counts {
    Counts(|letters|, Count(letters, IsStaged), Count(letters, IsUnstaged), Count(letters, IsUntracked),
      Count(letters, InConflict))
  }

  // ---- splitting ----

  function Split(raw: Bytes): (records: seq<Bytes>)
    ensures records != []
  {
    if raw == [] then [[]]
    else
      var rest := Split(raw[1..]);
      if raw[0] == NUL then [[]] + rest else [[raw[0]] + rest[0]] + rest[1..]
  }

  lemma {:induction false} SplitAt(a: Bytes, rest: Bytes)
    requires NUL !in a
    ensures Split(a + [NUL] + rest) == [a] + Split(rest)
  {
    var all := a + [NUL] + rest;
    if a == [] {
      assert all[1..] == rest;
    } else {
      assert all[1..] == a[1..] + [NUL] + rest;
      SplitAt(a[1..], rest);
      assert [a[0]] + a[1..] == a;
    }
  }

  // ---- counting records ----

  // The letters read from the records from the given index on.
  function ReadFrom(records: seq<Bytes>, index: nat): seq<Letters>
    decreases |records| - index
  {
    if |records| <= index then []
    else
      var record := records[index];
      if |record| < 3 then ReadFrom(records, index + 1)
      else [Letters(record[0], record[1])] + ReadFrom(records, index + if HasOrigin(record[0], record[1]) then 2 else 1)
  }

  /** The loop of the source, for any bytes. */
  method StatusCounts(raw: Bytes) returns (counts: Counts)
    ensures counts == CountsOf(ReadFrom(Split(raw), 0))
  {
    var records := Split(raw);
    counts := Counts(0, 0, 0, 0, 0);
    ghost var all, seen: seq<Letters> := ReadFrom(records, 0), [];
    var index := 0;
    while index < |records|
      invariant all == seen + ReadFrom(records, index)
      invariant counts == CountsOf(seen)
      decreases |records| - index
    {
      var record := records[index];
      ReadFromStep(records, index);
      if |record| < 3 {
        index := index + 1;
        continue;
      }
      var letters := Letters(record[0], record[1]);
      var next := index + if HasOrigin(record[0], record[1]) then 2 else 1;
      RegroupLists(seen, [letters], ReadFrom(records, next));
      counts := AddRecord(counts, seen, letters);
      seen := seen + [letters];
      index := next;
    }
    assert ReadFrom(records, index) == [];
    assert seen + [] == seen;
  }

  lemma ReadFromStep(records: seq<Bytes>, index: nat)
    requires index < |records|
    ensures var record := records[index];
            ReadFrom(records, index) ==
              if |record| < 3 then ReadFrom(records, index + 1)
              else
                [Letters(record[0], record[1])]
                + ReadFrom(records, index + if HasOrigin(record[0], record[1]) then 2 else 1)
  {
  }

  lemma {:induction false} CountStep(letters: seq<Letters>, l: Letters, test: Letters -> bool)
    ensures Count(letters + [l], test) == Count(letters, test) + if test(l) then 1 else 0
  {
    assert (letters + [l])[..|letters|] == letters;
  }

  method AddRecord(before: Counts, ghost seen: seq<Letters>, l: Letters) returns (counts: Counts)
    requires before == CountsOf(seen)
    ensures counts == CountsOf(seen + [l])
  {
    CountStep(seen, l, IsStaged);
    CountStep(seen, l, IsUnstaged);
    CountStep(seen, l, IsUntracked);
    CountStep(seen, l, InConflict);
    counts := before.(total := before.total + 1);
    if l.x == QUESTION && l.y == QUESTION {
      counts := counts.(untracked := counts.untracked + 1);
    } else {
      if l.x != SPACE {
        counts := counts.(staged := counts.staged + 1);
      }
      if l.y != SPACE {
        counts := counts.(unstaged := counts.unstaged + 1);
      }
      if IsConflict(l.x, l.y) {
        counts := counts.(conflicts := counts.conflicts + 1);
      }
    }
  }

  lemma {:induction false} ReadFromShift(prefix: seq<Bytes>, records: seq<Bytes>, index: nat)
    ensures ReadFrom(prefix + records, |prefix| + index) == ReadFrom(records, index)
    decreases |records| - index
  {
    if index < |records| {
      assert (prefix + records)[|prefix| + index] == records[index];
      ReadFromShift(prefix, records, index + 1);
      ReadFromShift(prefix, records, index + 2);
    }
  }

  /** A record of less than three bytes is skipped; a longer one counts, with the next one as its origin or not. */
  lemma {:induction false} RecordMeans(record: Bytes, origin: Bytes, rest: seq<Bytes>)
    ensures |record| <= 2 ==> ReadFrom([record] + rest, 0) == ReadFrom(rest, 0)
    ensures |record| >= 3 && Text(record[0]) !in {'R', 'C'} && Text(record[1]) !in {'R', 'C'} ==>
              ReadFrom([record] + rest, 0) == [Letters(record[0], record[1])] + ReadFrom(rest, 0)
    ensures |record| >= 3 && (Text(record[0]) in {'R', 'C'} || Text(record[1]) in {'R', 'C'}) ==>
              ReadFrom([record, origin] + rest, 0) == [Letters(record[0], record[1])] + ReadFrom(rest, 0)
  {
    ReadFromShift([record], rest, 0);
    ReadFromShift([record, origin], rest, 0);
    if |record| >= 3 {
      OriginLetters(record[0], record[1]);
    }
  }

  function Records(e: Entry): seq<Bytes> {
    if e.origin.Some? then [Head(e), e.origin.value] else [Head(e)]
  }

  lemma {:induction false} ReadEntry(e: Entry, rest: seq<Bytes>)
    requires EntryOk(e)
    ensures ReadFrom(Records(e) + rest, 0) == [Letters(e.x, e.y)] + ReadFrom(rest, 0)
  {
    ReadFromShift(Records(e), rest, 0);
    OriginLetters(e.x, e.y);
    var record := (Records(e) + rest)[0];
    assert record == Head(e) && |record| >= 4 && record[0] == e.x && record[1] == e.y;
  }

  lemma {:induction false} SplitEntry(e: Entry, rest: Bytes)
    requires EntryOk(e)
    ensures Split(SerializeOne(e) + rest) == Records(e) + Split(rest)
  {
    if e.origin.Some? {
      var tail := e.origin.value + [NUL] + rest;
      assert SerializeOne(e) + rest == Head(e) + [NUL] + tail;
      SplitAt(Head(e), tail);
      SplitAt(e.origin.value, rest);
    } else {
      assert SerializeOne(e) + rest == Head(e) + [NUL] + rest;
      SplitAt(Head(e), rest);
    }
  }

  /** Reading the bytes of a list of entries gives back their letters, whatever the paths contain. */
  lemma {:induction false} ReadInvertsSerialize(es: seq<Entry>)
    requires EntriesOk(es)
    ensures ReadFrom(Split(Serialize(es)), 0) == EntryLetters(es)
  {
    if es == [] {
      assert Split([])[0] == [] && |Split([])| == 1;
    } else {
      SplitEntry(es[0], Serialize(es[1..]));
      ReadEntry(es[0], Split(Serialize(es[1..])));
      ReadInvertsSerialize(es[1..]);
    }
  }

  lemma OriginLetters(x: byte, y: byte)
    ensures HasOrigin(x, y) <==> Text(x) in {'R', 'C'} || Text(y) in {'R', 'C'}
  {
  }

  const CONFLICTS := {('D', 'D'), ('A', 'U'), ('U', 'D'), ('U', 'A'), ('D', 'U'), ('A', 'A'), ('U', 'U')}

  /** The seven unmerged states. */
  lemma ConflictPairs(x: byte, y: byte)
    ensures IsConflict(x, y) <==> (Text(x), Text(y)) in CONFLICTS
  {
  }

  ghost function Where(letters: seq<Letters>, test: Letters -> bool): set<int> {
    set i | 0 <= i < |letters| && test(letters[i])
  }

  lemma {:induction false} CountIsIndices(letters: seq<Letters>, test: Letters -> bool)
    ensures Count(letters, test) == |Where(letters, test)|
  {
    if letters == [] {
      assert Where(letters, test) == {};
    } else {
      var n := |letters| - 1;
      CountIsIndices(letters[..n], test);
      assert forall i :: 0 <= i < n ==> letters[..n][i] == letters[i];
      assert Where(letters, test) == Where(letters[..n], test) + if test(letters[n]) then {n} else {};
    }
  }

  // The numbers of entries with given status letters.
  ghost predicate Summarizes(counts: Counts, es: seq<Entry>) {
    && counts.total == |es|
    && counts.untracked == |set i | 0 <= i < |es| && Text(es[i].x) == '?' && Text(es[i].y) == '?'|
    && counts.staged == |set i | 0 <= i < |es| && Text(es[i].x) != ' ' && !BothUnknown(es[i])|
    && counts.unstaged == |set i | 0 <= i < |es| && Text(es[i].y) != ' ' && !BothUnknown(es[i])|
    && counts.conflicts == |set i | 0 <= i < |es| && (Text(es[i].x), Text(es[i].y)) in CONFLICTS|
  }

  predicate BothUnknown(e: Entry) { Text(e.x) == '?' && Text(e.y) == '?' }

  lemma {:induction false} LettersAt(es: seq<Entry>, i: nat)
    requires i < |es|
    ensures EntryLetters(es)[i] == Letters(es[i].x, es[i].y)
  {
    if i > 0 {
      LettersAt(es[1..], i - 1);
    }
  }

  // Counting letters is counting the entries that have them.
  lemma {:induction false} CountEntries(es: seq<Entry>, test: Letters -> bool, wanted: set<int>)
    requires forall i :: i in wanted <==> 0 <= i < |es| && test(Letters(es[i].x, es[i].y))
    ensures Count(EntryLetters(es), test) == |wanted|
  {
    var letters := EntryLetters(es);
    forall i | 0 <= i < |es| ensures letters[i] == Letters(es[i].x, es[i].y) {
      LettersAt(es, i);
    }
    CountIsIndices(letters, test);
    assert Where(letters, test) == wanted;
  }

  lemma {:induction false} ConflictsSummarize(es: seq<Entry>)
    ensures Count(EntryLetters(es), InConflict)
            == |set i | 0 <= i < |es| && (Text(es[i].x), Text(es[i].y)) in CONFLICTS|
  {
    forall i | 0 <= i < |es|
      ensures InConflict(Letters(es[i].x, es[i].y)) <==> (Text(es[i].x), Text(es[i].y)) in CONFLICTS
    {
      ConflictPairs(es[i].x, es[i].y);
    }
    CountEntries(es, InConflict, set i | 0 <= i < |es| && (Text(es[i].x), Text(es[i].y)) in CONFLICTS);
  }

  lemma {:induction false} UntrackedSummarize(es: seq<Entry>)
    ensures Count(EntryLetters(es), IsUntracked)
            == |set i | 0 <= i < |es| && Text(es[i].x) == '?' && Text(es[i].y) == '?'|
  {
    CountEntries(es, IsUntracked, set i | 0 <= i < |es| && Text(es[i].x) == '?' && Text(es[i].y) == '?');
  }

  lemma {:induction false} StagedSummarize(es: seq<Entry>)
    ensures Count(EntryLetters(es), IsStaged)
            == |set i | 0 <= i < |es| && Text(es[i].x) != ' ' && !BothUnknown(es[i])|
  {
    CountEntries(es, IsStaged, set i | 0 <= i < |es| && Text(es[i].x) != ' ' && !BothUnknown(es[i]));
  }

  lemma {:induction false} UnstagedSummarize(es: seq<Entry>)
    ensures Count(EntryLetters(es), IsUnstaged)
            == |set i | 0 <= i < |es| && Text(es[i].y) != ' ' && !BothUnknown(es[i])|
  {
    CountEntries(es, IsUnstaged, set i | 0 <= i < |es| && Text(es[i].y) != ' ' && !BothUnknown(es[i]));
  }

  lemma {:induction false} CountsSummarize(es: seq<Entry>)
    ensures Summarizes(CountsOf(EntryLetters(es)), es)
  {
    UntrackedSummarize(es);
    StagedSummarize(es);
    UnstagedSummarize(es);
    ConflictsSummarize(es);
  }

  /** Counting the bytes is counting the entries; the tree is clean exactly when nothing is listed. */
  method CountSerialized(es: seq<Entry>) returns (counts: Counts)
    requires EntriesOk(es)
    ensures counts == CountsOf(EntryLetters(es)) && Summarizes(counts, es)
    ensures counts == Counts(0, 0, 0, 0, 0) <==> es == []
  {
    ReadInvertsSerialize(es);
    CountsSummarize(es);
    counts := StatusCounts(Serialize(es));
  }
}
