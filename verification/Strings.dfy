/** The string operations the models use. */
module Strings {
  import opened Common

  predicate At(s: string, pattern: string, i: nat) {
    i + |pattern| <= |s| && s[i..i + |pattern|] == pattern
  }

  // The first occurrence at or after `from`.
  function Find(s: string, pattern: string, from: nat): (r: Option<nat>)
    ensures r.Some? ==> from <= r.value && At(s, pattern, r.value) && forall j :: from <= j < r.value ==>
            !At(s, pattern, j)
    ensures r.None? ==> forall j :: from <= j ==> !At(s, pattern, j)
    decreases |s| - from
  {
    if At(s, pattern, from) then Some(from)
    else if |s| <= from then None
    else Find(s, pattern, from + 1)
  }

  lemma FindIs(s: string, pattern: string, i: nat)
    requires At(s, pattern, i) && forall j :: 0 <= j < i ==> !At(s, pattern, j)
    ensures Find(s, pattern, 0) == Some(i)
  {
  }

  // The pattern's first character first occurs where the pattern does.
  lemma {:induction false} FindFirst(s: string, pattern: string, i: nat)
    requires pattern != [] && At(s, pattern, i) && forall j :: 0 <= j < i ==> s[j] != pattern[0]
    ensures Find(s, pattern, 0) == Some(i)
  {
    forall j | 0 <= j < i ensures !At(s, pattern, j) {
      assert j + |pattern| <= |s| ==> s[j..j + |pattern|][0] == s[j];
    }
  }

  function Replace(s: string, from: char, to: char): (r: string)
    ensures |r| == |s| && forall i :: 0 <= i < |s| ==> r[i] == if s[i] == from then to else s[i]
  {
    seq(|s|, i requires 0 <= i < |s| => if s[i] == from then to else s[i])
  }

  function Split(s: string, separator: string): (parts: seq<string>)
    requires separator != []
    ensures parts != []
    decreases |s|
  {
    match Find(s, separator, 0)
    case None => [s]
    case Some(i) => [s[..i]] + Split(s[i + |separator|..], separator)
  }

  function Join(parts: seq<string>, separator: string): string {
    if parts == [] then []
    else if |parts| == 1 then parts[0]
    else parts[0] + separator + Join(parts[1..], separator)
  }

  predicate EndsWith(s: string, suffix: string) { |suffix| <= |s| && s[|s| - |suffix|..] == suffix }
}
