/** Python's sorted() over a set of strings. */
module Sorting {
  import opened Sequences

  // Lexicographic order by character.
  predicate Leq(a: string, b: string) {
    a == [] || (b != [] && (a[0] < b[0] || (a[0] == b[0] && Leq(a[1..], b[1..]))))
  }

  lemma {:induction false} LeqTotal(a: string, b: string)
    ensures Leq(a, b) || Leq(b, a)
    ensures Leq(a, a)
  {
    if a != [] {
      LeqTotal(a[1..], if b == [] then [] else b[1..]);
    }
  }

  lemma {:induction false} LeqTransitive(a: string, b: string, c: string)
    requires Leq(a, b) && Leq(b, c)
    ensures Leq(a, c)
  {
    if a != [] && b[0] == a[0] && c[0] == b[0] {
      LeqTransitive(a[1..], b[1..], c[1..]);
    }
  }

  lemma {:induction false} LeqAntisymmetric(a: string, b: string)
    requires Leq(a, b) && Leq(b, a)
    ensures a == b
  {
    if a != [] {
      LeqAntisymmetric(a[1..], b[1..]);
      assert a == [a[0]] + a[1..] && b == [b[0]] + b[1..];
    }
  }

  ghost predicate IsLeast(k: string, s: set<string>) {
    k in s && forall other :: other in s ==> Leq(k, other)
  }

  method Least(s: set<string>) returns (k: string)
    requires s != {}
    ensures IsLeast(k, s)
  {
    var rest := s;
    k :| k in rest;
    rest := rest - {k};
    LeqTotal(k, k);
    while rest != {}
      invariant rest <= s && k in s
      invariant forall other :: other in s && other !in rest ==> Leq(k, other)
      decreases rest
    {
      var next :| next in rest;
      LeqTotal(k, next);
      LeqTotal(next, next);
      if !Leq(k, next) {
        forall other | other in s && other !in rest ensures Leq(next, other) {
          LeqTransitive(next, k, other);
        }
        k := next;
      }
      rest := rest - {next};
    }
  }

  lemma {:induction false} LeastExists(s: set<string>)
    requires s != {}
    ensures exists k :: IsLeast(k, s)
    decreases s
  {
    var x :| x in s;
    LeqTotal(x, x);
    if s == {x} {
      assert IsLeast(x, s);
    } else {
      LeastExists(s - {x});
      var k :| IsLeast(k, s - {x});
      LeqTotal(k, x);
      if Leq(k, x) {
        assert IsLeast(k, s);
      } else {
        forall other | other in s ensures Leq(x, other) {
          if other != x {
            LeqTransitive(x, k, other);
          }
        }
        assert IsLeast(x, s);
      }
    }
  }

  ghost function Sorted(s: set<string>): (r: seq<string>)
    ensures Elements(r) == s && NoDuplicates(r)
    decreases s
  {
    if s == {} then [] else
      LeastExists(s);
      var k :| IsLeast(k, s);
      var rest := Sorted(s - {k});
      ElementsCons(k, rest);
      assert forall i :: 0 <= i < |rest| ==> rest[i] in Elements(rest);
      [k] + rest
  }

  method Sort(s: set<string>) returns (r: seq<string>)
    ensures r == Sorted(s)
  {
    r := [];
    var rest := s;
    while rest != {}
      invariant rest <= s && Sorted(s) == r + Sorted(rest)
      decreases rest
    {
      var k := Least(rest);
      LeastUnique(rest, k);
      RegroupLists(r, [k], Sorted(rest - {k}));
      r := r + [k];
      rest := rest - {k};
    }
  }

  lemma {:induction false} LeastUnique(s: set<string>, k: string)
    requires IsLeast(k, s)
    ensures s != {} && Sorted(s) == [k] + Sorted(s - {k})
  {
    LeastExists(s);
    forall other | IsLeast(other, s) ensures other == k {
      LeqAntisymmetric(k, other);
    }
  }
}
