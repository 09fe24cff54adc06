/**
  npm bom-refs and their resolution in a package lock (scripts/normalize_cyclonedx_npm_sbom.py).

  Of a lock package the model keeps the version and whether the component built from it is
  accepted (licence identifier, distribution URL and integrity value).
 */
module NpmReferences {
  import opened Common
  import opened Sequences
  import opened Strings

  datatype Package = Package(version: Option<string>, describable: bool, optional: bool)

  // Entries of the lock that are not objects are absent.
  type Packages = map<string, Package>

  datatype Coordinate = Coordinate(name: string, version: string)

  predicate NameChar(c: char) {
    'A' <= c <= 'Z' || 'a' <= c <= 'z' || '0' <= c <= '9' || c in {'.', '_', '/', '-'}
  }

  predicate NameOk(s: string) {
    var body := if s != [] && s[0] == '@' then s[1..] else s;
    body != [] && forall i :: 0 <= i < |body| ==> NameChar(body[i])
  }

  predicate VersionOk(s: string) { s != [] && '@' !in s && '|' !in s }

  function Written(c: Coordinate): string { c.name + "@" + c.version }

  // The last at sign of a string.
  function LastAt(s: string): (r: Option<nat>)
    ensures r.None? ==> forall j :: 0 <= j < |s| ==> s[j] != '@'
    ensures r.Some? ==> r.value < |s| && s[r.value] == '@' && forall j :: r.value < j < |s| ==> s[j] != '@'
  {
    if s == [] then None
    else if s[|s| - 1] == '@' then Some(|s| - 1)
    else LastAt(s[..|s| - 1])
  }

  // _parse_segment: the segment pattern leaves only the last at sign as the separator.
  function ParseSegment(s: string): Option<Coordinate> {
    match LastAt(s)
    case None => None
    case Some(i) =>
      if NameOk(s[..i]) && VersionOk(s[i + 1..]) then Some(Coordinate(s[..i], s[i + 1..])) else None
  }

  /** Parsing inverts writing, and accepts exactly what is written from a valid coordinate. */
  lemma {:induction false} SegmentRoundTrip(s: string, c: Coordinate)
    ensures ParseSegment(s) == Some(c) <==> s == Written(c) && NameOk(c.name) && VersionOk(c.version)
  {
    var r := LastAt(s);
    if ParseSegment(s) == Some(c) {
      var i := r.value;
      assert s == s[..i] + [s[i]] + s[i + 1..];
    }
    if s == Written(c) && NameOk(c.name) && VersionOk(c.version) {
      assert s[|c.name|] == '@' && s[|c.name| + 1..] == c.version && s[..|c.name|] == c.name;
      forall j | |c.name| < j < |s| ensures s[j] != '@' {
        assert s[j] == c.version[j - |c.name| - 1];
      }
      assert r == Some(|c.name|);
    }
  }

  datatype ReferenceError = OutsideRoot | BadSegment | NotOneCandidate(n: nat) | NotDescribable | BadScope

  function Coordinates(segments: seq<string>): (r: Option<seq<Coordinate>>)
    ensures r.Some? ==> |r.value| == |segments|
    ensures r.Some? <==> forall i :: 0 <= i < |segments| ==> ParseSegment(segments[i]).Some?
  {
    if segments == [] then Some([])
    else
      var init, last := Coordinates(segments[..|segments| - 1]), ParseSegment(segments[|segments| - 1]);
      if init.Some? && last.Some? then Some(init.value + [last.value])
      else None
  }

  predicate StartsWith(s: string, prefix: string) { prefix <= s }

  function Names(cs: seq<Coordinate>): (r: seq<string>)
    ensures |r| == |cs|
  {
    seq(|cs|, i requires 0 <= i < |cs| => cs[i].name)
  }

  datatype Candidate = Candidate(path: string, leaf: Coordinate)

  // _candidate_package_paths
  function CandidatePath(reference: string, root: string): Result<Candidate, ReferenceError> {
    var prefix := root + "|";
    if !StartsWith(reference, prefix) then Err(OutsideRoot)
    else
      var parsed := Coordinates(Split(reference[|prefix|..], "|"));
      if parsed.None? then Err(BadSegment)
      else Ok(Candidate("node_modules/" + Join(Names(parsed.value), "/node_modules/"),
        parsed.value[|parsed.value| - 1]))
  }

  // ---- references as they are written ----

  function WrittenAll(cs: seq<Coordinate>): (r: seq<string>)
    ensures |r| == |cs| && forall i :: 0 <= i < |cs| ==> r[i] == Written(cs[i])
  {
    seq(|cs|, i requires 0 <= i < |cs| => Written(cs[i]))
  }

  // A path of packages from the root, one nested in the other.
  function Reference(root: string, cs: seq<Coordinate>): string { root + "|" + Join(WrittenAll(cs), "|") }

  predicate AllOk(cs: seq<Coordinate>) { forall i :: 0 <= i < |cs| ==> NameOk(cs[i].name) && VersionOk(cs[i].version) }

  lemma {:induction false} WrittenHasNoBar(c: Coordinate)
    requires NameOk(c.name) && VersionOk(c.version)
    ensures '|' !in Written(c)
  {
    var w := Written(c);
    forall i | 0 <= i < |w| ensures w[i] != '|' {
      if i < |c.name| {
        NameHasNoBar(c.name, i);
      } else if i > |c.name| {
        assert w[i] == c.version[i - |c.name| - 1] && w[i] in c.version;
      }
    }
  }

  lemma {:induction false} NameHasNoBar(name: string, i: nat)
    requires NameOk(name) && i < |name|
    ensures name[i] != '|'
  {
    var body := if name[0] == '@' then name[1..] else name;
    assert forall k :: 0 <= k < |body| ==> NameChar(body[k]);
    assert name[0] == '@' && i > 0 ==> body[i - 1] == name[i];
  }

  lemma {:induction false} SplitOne(part: string)
    requires '|' !in part
    ensures Split(part, "|") == [part]
  {
    forall j | 0 <= j < |part| ensures !At(part, "|", j) {
      assert part[j..j + 1][0] == part[j];
    }
    assert Find(part, "|", 0).None?;
  }

  lemma {:induction false} SplitFirst(part: string, rest: string)
    requires '|' !in part
    ensures Split(part + "|" + rest, "|") == [part] + Split(rest, "|")
  {
    var s := part + "|" + rest;
    assert s[|part|..|part| + 1] == "|" && forall j :: 0 <= j < |part| ==> s[j] == part[j];
    FindFirst(s, "|", |part|);
    assert s[..|part|] == part && s[|part| + 1..] == rest;
  }

  lemma {:induction false} SplitInvertsJoin(parts: seq<string>)
    requires parts != [] && forall i :: 0 <= i < |parts| ==> '|' !in parts[i]
    ensures Split(Join(parts, "|"), "|") == parts
  {
    if |parts| == 1 {
      SplitOne(parts[0]);
      assert parts == [parts[0]];
    } else {
      SplitFirst(parts[0], Join(parts[1..], "|"));
      SplitInvertsJoin(parts[1..]);
      assert parts == [parts[0]] + parts[1..];
    }
  }

  lemma {:induction false} JoinInvertsSplit(s: string)
    ensures Join(Split(s, "|"), "|") == s
    decreases |s|
  {
    var i := Find(s, "|", 0);
    if i.Some? {
      var rest := s[i.value + 1..];
      JoinInvertsSplit(rest);
      assert s == s[..i.value] + "|" + rest;
      assert ([s[..i.value]] + Split(rest, "|"))[1..] == Split(rest, "|");
    }
  }

  lemma {:induction false} CoordinatesAre(segments: seq<string>, cs: seq<Coordinate>)
    ensures Coordinates(segments) == Some(cs) <==> segments == WrittenAll(cs) && AllOk(cs)
  {
    if segments == [] {
      assert cs == [] <==> segments == WrittenAll(cs);
    } else {
      var n := |segments| - 1;
      if |cs| == |segments| {
        CoordinatesAre(segments[..n], cs[..n]);
        SegmentRoundTrip(segments[n], cs[n]);
        assert segments == segments[..n] + [segments[n]] && cs == cs[..n] + [cs[n]];
        assert WrittenAll(cs) == WrittenAll(cs[..n]) + [Written(cs[n])];
        assert AllOk(cs) <==> AllOk(cs[..n]) && NameOk(cs[n].name) && VersionOk(cs[n].version);
        LastCoordinate(segments, cs, n);
      } else {
        assert |WrittenAll(cs)| != |segments|;
      }
    }
  }

  lemma {:induction false} LastCoordinate(segments: seq<string>, cs: seq<Coordinate>, n: nat)
    requires |segments| == |cs| == n + 1
    ensures Coordinates(segments) == Some(cs)
            <==> Coordinates(segments[..n]) == Some(cs[..n]) && ParseSegment(segments[n]) == Some(cs[n])
  {
    var init, last := Coordinates(segments[..n]), ParseSegment(segments[n]);
    if init.Some? && last.Some? {
      assert Coordinates(segments) == Some(init.value + [last.value]);
      assert (init.value + [last.value])[..n] == init.value && (init.value + [last.value])[n] == last.value;
      assert cs == cs[..n] + [cs[n]];
    }
  }

  /**
    A reference is accepted exactly when it is written from the root and at least one valid
    coordinate; its candidate is then the innermost package, under the path of all their names.
   */
  lemma {:induction false} CandidateOfReference(root: string, cs: seq<Coordinate>)
    requires cs != [] && AllOk(cs)
    ensures CandidatePath(Reference(root, cs), root)
            == Ok(Candidate("node_modules/" + Join(Names(cs), "/node_modules/"), cs[|cs| - 1]))
  {
    forall i | 0 <= i < |cs| ensures '|' !in WrittenAll(cs)[i] {
      WrittenHasNoBar(cs[i]);
    }
    SplitInvertsJoin(WrittenAll(cs));
    CoordinatesAre(WrittenAll(cs), cs);
    CandidateOfTail(root, Join(WrittenAll(cs), "|"), cs);
  }

  lemma {:induction false} CandidateOfTail(root: string, tail: string, cs: seq<Coordinate>)
    requires cs != [] && Coordinates(Split(tail, "|")) == Some(cs)
    ensures CandidatePath(root + "|" + tail, root)
            == Ok(Candidate("node_modules/" + Join(Names(cs), "/node_modules/"), cs[|cs| - 1]))
  {
    var prefix := root + "|";
    var reference := prefix + tail;
    assert prefix <= reference && reference[|prefix|..] == tail;
  }

  lemma {:induction false} AcceptedIsWritten(reference: string, root: string) returns (cs: seq<Coordinate>)
    requires CandidatePath(reference, root).Ok?
    ensures cs != [] && AllOk(cs) && reference == Reference(root, cs)
  {
    var prefix := root + "|";
    var tail := reference[|prefix|..];
    cs := Coordinates(Split(tail, "|")).value;
    PrefixAndTail(reference, prefix);
    WrittenTail(tail, cs);
  }

  lemma PrefixAndTail(s: string, prefix: string)
    requires prefix <= s
    ensures s == prefix + s[|prefix|..]
  {
  }

  lemma {:induction false} WrittenTail(tail: string, cs: seq<Coordinate>)
    requires Coordinates(Split(tail, "|")) == Some(cs)
    ensures cs != [] && AllOk(cs) && tail == Join(WrittenAll(cs), "|")
  {
    CoordinatesAre(Split(tail, "|"), cs);
    JoinInvertsSplit(tail);
  }

  /** The path of a package in the root, and of one nested in it. */
  lemma {:induction false} CandidatePathsAre(root: string, outer: Coordinate, inner: Coordinate)
    requires AllOk([outer]) && AllOk([outer] + [inner])
    ensures CandidatePath(root + "|" + (outer.name + "@" + outer.version), root)
            == Ok(Candidate("node_modules/" + outer.name, outer))
    ensures CandidatePath(root + "|" + (Written(outer) + "|" + Written(inner)), root)
            == Ok(Candidate("node_modules/" + (outer.name + "/node_modules/" + inner.name), inner))
  {
    CandidateOfReference(root, [outer]);
    assert WrittenAll([outer]) == [Written(outer)] && Names([outer]) == [outer.name];
    CandidateOfReference(root, [outer] + [inner]);
    WrittenTwo(outer, inner);
  }

  lemma {:induction false} WrittenTwo(outer: Coordinate, inner: Coordinate)
    ensures Join(WrittenAll([outer] + [inner]), "|") == Written(outer) + "|" + Written(inner)
    ensures Join(Names([outer] + [inner]), "/node_modules/") == outer.name + "/node_modules/" + inner.name
  {
    assert WrittenAll([outer] + [inner]) == [Written(outer)] + [Written(inner)];
    assert Names([outer] + [inner]) == [outer.name] + [inner.name];
    JoinTwo(Written(outer), Written(inner), "|");
    JoinTwo(outer.name, inner.name, "/node_modules/");
  }

  lemma {:induction false} JoinTwo(a: string, b: string, separator: string)
    ensures Join([a] + [b], separator) == a + separator + b
  {
    assert ([a] + [b])[1..] == [b];
  }

  predicate Nested(packages: Packages, c: Candidate) {
    c.path in packages && packages[c.path].version == Some(c.leaf.version)
  }

  predicate IsExact(packages: Packages, leaf: Coordinate, path: string) {
    && path in packages && packages[path].version == Some(leaf.version)
    && (path == "node_modules/" + leaf.name || EndsWith(path, "/node_modules/" + leaf.name))
  }

  ghost function Exact(packages: Packages, leaf: Coordinate): set<string> {
    set path | path in packages && IsExact(packages, leaf, path)
  }

  // The lock entry a reference stands for: the nested path if it has the version, otherwise the
  // only entry anywhere with that name and version.
  ghost predicate ResolvesTo(reference: string, root: string, packages: Packages, path: string) {
    var c := CandidatePath(reference, root);
    c.Ok? && if Nested(packages, c.value) then path == c.value.path else Exact(packages, c.value.leaf) == {path}
  }

  /** Nothing is guessed: at most one entry, and it has the referenced version. */
  lemma {:induction false} ResolutionIsUnique(
    reference: string, root: string, packages: Packages, path: string, other: string)
    requires ResolvesTo(reference, root, packages, path)
    ensures ResolvesTo(reference, root, packages, other) ==> other == path
    ensures path in packages && packages[path].version == Some(CandidatePath(reference, root).value.leaf.version)
  {
    var c := CandidatePath(reference, root).value;
    assert path in {path};
    assert other in {other};
    assert !Nested(packages, c) ==> path in Exact(packages, c.leaf);
  }

  // The loop over the lock's entries.
  method CollectExact(packages: Packages, leaf: Coordinate) returns (found: seq<string>)
    ensures NoDuplicates(found) && Elements(found) == Exact(packages, leaf)
  {
    found := [];
    var rest := packages.Keys;
    while rest != {}
      invariant rest <= packages.Keys && NoDuplicates(found)
      invariant forall path :: path in Elements(found) <==>
                               path in packages && path !in rest && IsExact(packages, leaf, path)
      decreases rest
    {
      var path :| path in rest;
      rest := rest - {path};
      if IsExact(packages, leaf, path) {
        assert path !in Elements(found);
        found := found + [path];
      }
    }
  }

  // _resolve_lock_package
  method Resolve(reference: string, root: string, packages: Packages) returns (r: Result<string, ReferenceError>)
    ensures r.Ok? <==> exists path :: ResolvesTo(reference, root, packages, path)
    ensures r.Ok? ==> ResolvesTo(reference, root, packages, r.value)
    ensures r.Err? && r.error.NotOneCandidate? ==> 
              CandidatePath(reference, root).Ok?
                && r.error.n == |Exact(packages, CandidatePath(reference, root).value.leaf)| != 1
  {
    var c := CandidatePath(reference, root);
    if c.Err? {
      return Err(c.error);
    }
    if Nested(packages, c.value) {
      assert ResolvesTo(reference, root, packages, c.value.path);
      return Ok(c.value.path);
    }
    var found := CollectExact(packages, c.value.leaf);
    ElementsSize(found);
    if |found| != 1 {
      return Err(NotOneCandidate(|found|));
    }
    assert Elements(found) == {found[0]};
    assert ResolvesTo(reference, root, packages, found[0]);
    return Ok(found[0]);
  }
}
