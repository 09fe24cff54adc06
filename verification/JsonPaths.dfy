/**
  The textual paths of scripts/host_isolation_guard.py: `$`, then `.key` or `[index]` for each
  step. When two positions can share a text.
 */
module JsonPaths {
  import opened JsonDiff

  function Digit(d: nat): char
    requires d < 10
  {
    ('0' as int + d) as char
  }

  function Decimal(n: nat): string {
    if n < 10 then [Digit(n)] else Decimal(n / 10) + [Digit(n % 10)]
  }

  predicate IsDigit(c: char) { '0' <= c <= '9' }

  predicate AllDigits(s: string) { forall i :: 0 <= i < |s| ==> IsDigit(s[i]) }

  function RenderStep(step: Step): string {
    match step
    case Key(k) => "." + k
    case Index(i) => "[" + Decimal(i) + "]"
  }

  function RenderSteps(path: Path): string {
    if path == [] then "" else RenderStep(path[0]) + RenderSteps(path[1..])
  }

  function Render(path: Path): string { "$" + RenderSteps(path) }

  predicate Spells(alphabet: set<char>, k: string) { forall i :: 0 <= i < |k| ==> k[i] in alphabet }

  // Every key on the path is written in the given characters.
  predicate Over(alphabet: set<char>, path: Path) {
    forall i :: 0 <= i < |path| && path[i].Key? ==> Spells(alphabet, path[i].k)
  }

  // The alphabets in which a key can look like a position of its own.
  predicate Ambiguous(alphabet: set<char>) {
    '.' in alphabet || ('[' in alphabet && ']' in alphabet && exists c :: c in alphabet && IsDigit(c))
  }

  lemma {:induction false} DecimalDigits(n: nat)
    ensures AllDigits(Decimal(n)) && |Decimal(n)| >= 1 && (|Decimal(n)| == 1 <==> n < 10)
  {
    if n >= 10 {
      DecimalDigits(n / 10);
    }
  }

  lemma {:induction false} DecimalInjective(m: nat, n: nat)
    requires Decimal(m) == Decimal(n)
    ensures m == n
  {
    DecimalDigits(m);
    DecimalDigits(n);
    if m >= 10 {
      var x, y := Decimal(m), Decimal(n);
      assert x == Decimal(m / 10) + [Digit(m % 10)] && y == Decimal(n / 10) + [Digit(n % 10)];
      assert x[..|x| - 1] == Decimal(m / 10) && y[..|y| - 1] == Decimal(n / 10);
      assert x[|x| - 1] == Digit(m % 10) && y[|y| - 1] == Digit(n % 10);
      DecimalInjective(m / 10, n / 10);
    } else {
      assert Decimal(m)[0] == Digit(m) && Decimal(n)[0] == Digit(n);
    }
  }

  // The number that digits stand for, the last one worth least.
  function Value(s: string): int {
    if s == [] then 0 else Value(s[..|s| - 1]) * 10 + (s[|s| - 1] as int - '0' as int)
  }

  lemma {:induction false} DecimalMeans(n: nat)
    ensures Value(Decimal(n)) == n
  {
    var s := Decimal(n);
    if n < 10 {
      assert s[..|s| - 1] == [] && s[0] as int - '0' as int == n;
    } else {
      DecimalMeans(n / 10);
      assert s[..|s| - 1] == Decimal(n / 10) && s[|s| - 1] == Digit(n % 10);
    }
  }

  /** How a path is written: `$`, a dot before each key and brackets around each index. */
  lemma {:induction false} RenderMeans(k: string, i: nat)
    ensures Render([]) == "$" && Render([Key(k)]) == "$" + "." + k && Render([Index(i)]) == "$" + "[" + Decimal(i) + "]"
    ensures Render([Key(k), Index(i)]) == "$" + "." + k + "[" + Decimal(i) + "]"
  {
    assert [Key(k)][1..] == [] && [Index(i)][1..] == [] && [Key(k), Index(i)][1..] == [Index(i)];
    assert RenderSteps([]) == "";
    assert RenderSteps([Index(i)]) == "[" + Decimal(i) + "]";
  }

  lemma RenderStart(path: Path)
    ensures RenderSteps(path) == [] <==> path == []
    ensures path != [] ==> RenderSteps(path)[0] == if path[0].Key? then '.' else '['
  {
  }

  lemma {:induction false} ConcatInjective(a: string, b: string, a': string, b': string)
    requires a + b == a' + b' && |a| == |a'|
    ensures a == a' && b == b'
  {
    assert (a + b)[..|a|] == a && (a' + b')[..|a'|] == a';
    assert (a + b)[|a|..] == b && (a' + b')[|a'|..] == b';
  }

  // A bracketed number ends where its closing bracket stands.
  lemma {:induction false} BracketLength(d: string, t: string, d': string, t': string)
    requires AllDigits(d) && ("[" + d + "]") + t == ("[" + d' + "]") + t'
    ensures |d| <= |d'|
  {
    var x, y := ("[" + d + "]") + t, ("[" + d' + "]") + t';
    assert y[|d'| + 1] == ']';
    assert |d'| < |d| ==> IsDigit(x[|d'| + 1]);
  }

  lemma {:induction false} BracketsEnd(d: string, t: string, d': string, t': string)
    requires AllDigits(d) && AllDigits(d') && ("[" + d + "]") + t == ("[" + d' + "]") + t'
    ensures d == d' && t == t'
  {
    BracketLength(d, t, d', t');
    BracketLength(d', t', d, t);
    ConcatInjective("[" + d + "]", t, "[" + d' + "]", t');
    ConcatInjective("[" + d, "]", "[" + d', "]");
    ConcatInjective("[", d, "[", d');
  }

  lemma {:induction false} IndexEnds(i: nat, t: string, i': nat, t': string)
    requires RenderStep(Index(i)) + t == RenderStep(Index(i')) + t'
    ensures i == i' && t == t'
  {
    DecimalDigits(i);
    DecimalDigits(i');
    BracketsEnd(Decimal(i), t, Decimal(i'), t');
    DecimalInjective(i, i');
  }

  lemma {:induction false} Overrun(k: string, r: string, k': string, r': string) returns (over: string)
    requires |k| < |k'| && k + r == k' + r'
    ensures r == over + r' && k' == k + over && over != []
  {
    over := k'[|k|..];
    assert k' + r' == k'[..|k|] + (over + r');
    ConcatInjective(k, r, k'[..|k|], over + r');
  }

  // What is left of a bracketed step cannot be the text of further steps unless nothing is.
  lemma {:induction false} OverrunCoversBracket(over: string, d: string, t: string, p': Path)
    requires over != [] && d != [] && AllDigits(d) && ("[" + d + "]") + t == over + RenderSteps(p')
    ensures |d| + 1 < |over| && over[0] == '[' && over[1] == d[0] && over[|d| + 1] == ']'
  {
    var r, r' := ("[" + d + "]") + t, RenderSteps(p');
    RenderStart(p');
    assert r' == r[|over|..];
    assert r[0] == '[' && r[|d| + 1] == ']';
    assert forall x :: 1 <= x <= |d| ==> r[x] == d[x - 1];
    assert r' != [] ==> r'[0] == r[|over|];
  }

  // A key can only run on into the steps that follow a shorter key in an ambiguous alphabet.
  lemma {:induction false} LongerKeyIsAmbiguous(alphabet: set<char>, k: string, p: Path, k': string, p': Path)
    requires Spells(alphabet, k') && |k| < |k'| && k + RenderSteps(p) == k' + RenderSteps(p')
    ensures Ambiguous(alphabet)
  {
    var over := Overrun(k, RenderSteps(p), k', RenderSteps(p'));
    assert forall i :: 0 <= i < |over| ==> over[i] == k'[|k| + i];
    RenderStart(p);
    assert RenderSteps(p)[0] == over[0];
    if p[0].Index? {
      DecimalDigits(p[0].i);
      OverrunCoversBracket(over, Decimal(p[0].i), RenderSteps(p[1..]), p');
    }
  }

  lemma {:induction false} RenderInjective(alphabet: set<char>, p: Path, q: Path)
    requires !Ambiguous(alphabet) && Over(alphabet, p) && Over(alphabet, q) && RenderSteps(p) == RenderSteps(q)
    ensures p == q
    decreases |p|
  {
    RenderStart(p);
    RenderStart(q);
    if p != [] {
      SameHead(alphabet, p[0], p[1..], q[0], q[1..]);
      assert Over(alphabet, p[1..]) && Over(alphabet, q[1..]);
      RenderInjective(alphabet, p[1..], q[1..]);
      assert p == [p[0]] + p[1..] && q == [q[0]] + q[1..];
    }
  }

  lemma {:induction false} Regroup(k: string, r: string, k': string, r': string)
    requires ("." + k) + r == ("." + k') + r'
    ensures k + r == k' + r'
  {
    assert ("." + k) + r == "." + (k + r) && ("." + k') + r' == "." + (k' + r');
    ConcatInjective(".", k + r, ".", k' + r');
  }

  lemma {:induction false} SameHead(alphabet: set<char>, s: Step, p: Path, t: Step, q: Path)
    requires !Ambiguous(alphabet) && s.Key? == t.Key?
    requires s.Key? ==> Spells(alphabet, s.k) && Spells(alphabet, t.k)
    requires RenderStep(s) + RenderSteps(p) == RenderStep(t) + RenderSteps(q)
    ensures s == t && RenderSteps(p) == RenderSteps(q)
  {
    if s.Key? {
      Regroup(s.k, RenderSteps(p), t.k, RenderSteps(q));
      assert |s.k| == |t.k| by {
        if |s.k| < |t.k| {
          LongerKeyIsAmbiguous(alphabet, s.k, p, t.k, q);
        } else if |t.k| < |s.k| {
          LongerKeyIsAmbiguous(alphabet, t.k, q, s.k, p);
        }
      }
      ConcatInjective(s.k, RenderSteps(p), t.k, RenderSteps(q));
    } else {
      IndexEnds(s.i, RenderSteps(p), t.i, RenderSteps(q));
    }
  }

  ghost predicate TextsIdentifyPositions(alphabet: set<char>) {
    forall p, q :: Over(alphabet, p) && Over(alphabet, q) && Render(p) == Render(q) ==> p == q
  }

  /** Textual paths identify positions for every document over an alphabet iff it is unambiguous. */
  lemma {:induction false} TextsIdentifyIffUnambiguous(alphabet: set<char>)
    ensures TextsIdentifyPositions(alphabet) <==> !Ambiguous(alphabet)
  {
    if !Ambiguous(alphabet) {
      forall p, q | Over(alphabet, p) && Over(alphabet, q) && Render(p) == Render(q) ensures p == q {
        ConcatInjective("$", RenderSteps(p), "$", RenderSteps(q));
        RenderInjective(alphabet, p, q);
      }
    } else {
      var p, q := Collision(alphabet);
    }
  }

  /** Two different positions that an ambiguous alphabet renders alike. */
  lemma {:induction false} Collision(alphabet: set<char>) returns (p: Path, q: Path)
    requires Ambiguous(alphabet)
    ensures p != q && Over(alphabet, p) && Over(alphabet, q) && Render(p) == Render(q)
  {
    if '.' in alphabet {
      p, q := [Key(".")], [Key(""), Key("")];
      assert p[1..] == [] && q[1..] == [Key("")] && [Key("")][1..] == [];
      assert RenderSteps(q[1..]) == ".";
      assert RenderSteps(p) == ".." && RenderSteps(q) == "..";
    } else {
      var c :| c in alphabet && IsDigit(c);
      var v := c as int - '0' as int;
      p, q := [Key("[" + [c] + "]")], [Key(""), Index(v)];
      assert Decimal(v) == [c];
      assert p[1..] == [] && q[1..] == [Index(v)] && [Index(v)][1..] == [];
      assert RenderSteps(q[1..]) == "[" + [c] + "]";
      assert RenderSteps(p) == "." + ("[" + [c] + "]") && RenderSteps(q) == "." + ("[" + [c] + "]");
    }
  }
}
