/**
  Completion of a CycloneDX npm SBOM (scripts/normalize_cyclonedx_npm_sbom.py): components that
  the dependency graph references but the component list omits are appended in place.
 */
module Sbom {
  import opened Common
  import opened Sequences
  import opened Sorting
  import opened Strings
  import opened NpmReferences

  // `path` is the lock entry a component was built from, None for an original component.
  datatype Component = Component(
    bomRef: Option<string>, group: Option<string>, name: string, version: string, optional: bool, path: Option<string>)

  datatype Dependency = Dependency(reference: Option<string>, dependsOn: Option<seq<string>>)

  datatype Lock = Lock(isVersion3: bool, packages: Option<Packages>)

  datatype GraphError = EmptyRoot | BadShape | BadComponentRef | BadDependency

  datatype SbomError =
    | WrongFormat | MissingRoot | WrongLock | MissingPackages
    | Graph(g: GraphError)
    | Unresolved(reference: string, why: ReferenceError)
    | Recheck(g: GraphError)
    | StillDangling(references: seq<string>)

  // ---- the dependency graph ----

  predicate HasRef(c: Component) { c.bomRef.Some? && c.bomRef.value != "" }

  predicate RefsOk(root: string, cs: seq<Component>) {
    && (forall i :: 0 <= i < |cs| ==> HasRef(cs[i]) && cs[i].bomRef.value != root)
    && (forall i, j :: 0 <= i < j < |cs| ==> cs[i].bomRef != cs[j].bomRef)
  }

  predicate DependencyOk(d: Dependency) { d.reference.Some? && d.dependsOn.Some? }

  predicate DependenciesOk(ds: seq<Dependency>) { forall i :: 0 <= i < |ds| ==> DependencyOk(ds[i]) }

  ghost function Known(root: string, cs: seq<Component>): set<string> {
    {root} + set c | c in cs && c.bomRef.Some? :: c.bomRef.value
  }

  ghost function ReferencedBy(d: Dependency): set<string>
    requires DependencyOk(d)
  {
    {d.reference.value} + Elements(d.dependsOn.value)
  }

  ghost function Referenced(ds: seq<Dependency>): set<string>
    requires DependenciesOk(ds)
  {
    set i, r | 0 <= i < |ds| && r in ReferencedBy(ds[i]) :: r
  }

  ghost function Dangling(root: string, cs: seq<Component>, ds: seq<Dependency>): set<string>
    requires DependenciesOk(ds)
  {
    Referenced(ds) - Known(root, cs)
  }

  lemma {:induction false} KnownStep(root: string, cs: seq<Component>, c: Component)
    requires c.bomRef.Some?
    ensures Known(root, cs + [c]) == Known(root, cs) + {c.bomRef.value}
  {
    assert forall x :: x in cs + [c] <==> x in cs || x == c;
  }

  lemma {:induction false} RefsStep(root: string, cs: seq<Component>, c: Component)
    requires RefsOk(root, cs)
    ensures RefsOk(root, cs + [c]) <==> HasRef(c) && c.bomRef.value !in Known(root, cs)
  {
    var longer := cs + [c];
    assert longer[|cs|] == c && forall i :: 0 <= i < |cs| ==> longer[i] == cs[i];
    if HasRef(c) && c.bomRef.value !in Known(root, cs) {
      forall i | 0 <= i < |cs| ensures cs[i].bomRef != c.bomRef {
        assert cs[i].bomRef.value in Known(root, cs);
      }
    } else if HasRef(c) && c.bomRef.value != root {
      var x :| x in cs && x.bomRef == c.bomRef;
      var i :| 0 <= i < |cs| && cs[i] == x;
      assert longer[i].bomRef == longer[|cs|].bomRef;
    }
  }

  lemma RefsPrefix(root: string, cs: seq<Component>, i: nat)
    requires i <= |cs| && RefsOk(root, cs)
    ensures RefsOk(root, cs[..i])
  {
  }

  method CollectKnown(root: string, cs: seq<Component>) returns (r: Option<set<string>>)
    ensures r.Some? <==> RefsOk(root, cs)
    ensures r.Some? ==> r.value == Known(root, cs)
  {
    var known := {root};
    for i := 0 to |cs|
      invariant RefsOk(root, cs[..i]) && known == Known(root, cs[..i])
    {
      PrefixStep(cs, i);
      RefsStep(root, cs[..i], cs[i]);
      if !HasRef(cs[i]) || cs[i].bomRef.value in known {
        if RefsOk(root, cs) {
          RefsPrefix(root, cs, i + 1);
        }
        return None;
      }
      KnownStep(root, cs[..i], cs[i]);
      known := known + {cs[i].bomRef.value};
    }
    assert cs[..|cs|] == cs;
    return Some(known);
  }

  method CollectReferenced(ds: seq<Dependency>) returns (r: Option<set<string>>)
    ensures r.Some? <==> DependenciesOk(ds)
    ensures r.Some? ==> r.value == Referenced(ds)
  {
    var referenced := {};
    for i := 0 to |ds|
      invariant DependenciesOk(ds[..i]) && referenced == Referenced(ds[..i])
    {
      if !DependencyOk(ds[i]) {
        return None;
      }
      PrefixStep(ds, i);
      ReferencedStep(ds[..i], ds[i]);
      referenced := referenced + {ds[i].reference.value} + Elements(ds[i].dependsOn.value);
    }
    assert ds[..|ds|] == ds;
    return Some(referenced);
  }

  lemma {:induction false} ReferencedStep(ds: seq<Dependency>, d: Dependency)
    requires DependenciesOk(ds) && DependencyOk(d)
    ensures DependenciesOk(ds + [d]) && Referenced(ds + [d]) == Referenced(ds) + ReferencedBy(d)
  {
    var longer := ds + [d];
    assert longer[|ds|] == d && forall i :: 0 <= i < |ds| ==> longer[i] == ds[i];
    forall r | r in Referenced(ds) + ReferencedBy(d) ensures r in Referenced(longer) {
      if r in ReferencedBy(d) {
        assert r in ReferencedBy(longer[|ds|]);
      } else {
        var i :| 0 <= i < |ds| && r in ReferencedBy(ds[i]);
        assert r in ReferencedBy(longer[i]);
      }
    }
  }

  // _unknown_dependency_references
  method FindDangling(root: string, wellShaped: bool, cs: seq<Component>, ds: seq<Dependency>)
    returns (r: Result<set<string>, GraphError>)
    ensures r.Ok? <==> root != "" && wellShaped && RefsOk(root, cs) && DependenciesOk(ds)
    ensures r.Ok? ==> r.value == Dangling(root, cs, ds)
  {
    if root == "" { return Err(EmptyRoot); }
    if !wellShaped { return Err(BadShape); }
    var known := CollectKnown(root, cs);
    if known.None? { return Err(BadComponentRef); }
    var referenced := CollectReferenced(ds);
    if referenced.None? { return Err(BadDependency); }
    return Ok(referenced.value - known.value);
  }

  // ---- a component from the lock ----

  // The scope and the name of a package; None is an invalid scoped name.
  function Scoped(name: string): Option<(Option<string>, string)> {
    if !StartsWith(name, "@") then Some((None, name))
    else
      match Find(name, "/", 0)
      case None => None
      case Some(i) => if i + 1 == |name| then None else Some((Some(name[..i]), name[i + 1..]))
  }

  /** A scoped name is divided at its first slash; it needs a slash with something behind it. */
  lemma {:induction false} ScopedMeans(scope: string, rest: string)
    requires '/' !in scope
    ensures Scoped("@" + scope + "/" + rest) == if rest == "" then None else Some((Some("@" + scope), rest))
    ensures Scoped("@" + scope) == None
    ensures rest == "" || rest[0] != '@' ==> Scoped(rest) == Some((None, rest))
  {
    var name := "@" + scope + "/" + rest;
    assert forall j :: 0 <= j < |scope| + 1 ==> name[j] == ("@" + scope)[j] && name[j] != '/';
    assert name[|scope| + 1..|scope| + 2] == "/";
    FindFirst(name, "/", |scope| + 1);
    assert name[..|scope| + 1] == "@" + scope && name[|scope| + 2..] == rest;
    forall j | 0 <= j < |"@" + scope| ensures !At("@" + scope, "/", j) {
      assert ("@" + scope)[j..j + 1][0] == ("@" + scope)[j] != '/';
    }
  }

  ghost predicate BuiltFrom(c: Component, reference: string, root: string, packages: Packages) {
    && c.bomRef == Some(reference)
    && c.path.Some?
    && ResolvesTo(reference, root, packages, c.path.value)
    && c.path.value in packages && packages[c.path.value].describable
    && CandidatePath(reference, root).Ok?
    && var leaf := CandidatePath(reference, root).value.leaf;
    && c.version == leaf.version
    && Scoped(leaf.name) == Some((c.group, c.name))
    && c.optional == packages[c.path.value].optional
  }

  ghost predicate Buildable(reference: string, root: string, packages: Packages) {
    exists c :: BuiltFrom(c, reference, root, packages)
  }

  /** The component of a reference is determined by the lock. */
  lemma {:induction false} BuiltFromUnique(
    a: Component, b: Component, reference: string, root: string, packages: Packages)
    requires BuiltFrom(a, reference, root, packages) && BuiltFrom(b, reference, root, packages)
    ensures a == b
  {
    ResolutionIsUnique(reference, root, packages, a.path.value, b.path.value);
  }

  // _resolve_lock_package followed by _component_from_lock
  method Build(reference: string, root: string, packages: Packages) returns (r: Result<Component, ReferenceError>)
    ensures r.Ok? <==> Buildable(reference, root, packages)
    ensures r.Ok? ==> BuiltFrom(r.value, reference, root, packages)
  {
    var found := Resolve(reference, root, packages);
    if found.Err? { return Err(found.error); }
    var path := found.value;
    ResolutionIsUnique(reference, root, packages, path, path);
    forall c | BuiltFrom(c, reference, root, packages) ensures c.path == Some(path) {
      ResolutionIsUnique(reference, root, packages, path, c.path.value);
    }
    if !packages[path].describable { return Err(NotDescribable); }
    var leaf := CandidatePath(reference, root).value.leaf;
    var scoped := Scoped(leaf.name);
    if scoped.None? { return Err(BadScope); }
    var c := Component(Some(reference), scoped.value.0, scoped.value.1, leaf.version, packages[path].optional,
      Some(path));
    assert BuiltFrom(c, reference, root, packages);
    return Ok(c);
  }

  // ---- the document ----

  // The components built for the references, in order.
  ghost predicate BuiltInOrder(cs: seq<Component>, references: seq<string>, root: string, packages: Packages) {
    |cs| == |references| && forall i :: 0 <= i < |cs| ==> BuiltFrom(cs[i], references[i], root, packages)
  }

  /** Appending components for dangling references, all distinct, keeps the refs unique and closes the graph. */
  lemma {:induction false} AppendedRefs(
    root: string, cs: seq<Component>, added: seq<Component>, references: seq<string>, n: nat)
    requires RefsOk(root, cs) && NoDuplicates(references) && AreRefs(added, references)
    requires Elements(references) !! Known(root, cs) && n <= |added|
    ensures RefsOk(root, cs + added[..n])
    ensures Known(root, cs + added[..n]) == Known(root, cs) + Elements(references[..n])
    decreases n
  {
    if n == 0 {
      assert cs + added[..n] == cs && Elements(references[..n]) == {};
    } else {
      AppendedRefs(root, cs, added, references, n - 1);
      var next := references[n - 1];
      assert next in Elements(references);
      assert next !in Elements(references[..n - 1]);
      AppendedOne(root, cs + added[..n - 1], added[n - 1], next);
      SnocPrefix(cs, added, n - 1);
      PrefixStep(references, n - 1);
      ElementsSnoc(references[..n - 1], next);
    }
  }

  lemma {:induction false} AppendedCloses(
    root: string, before: seq<Component>, after: seq<Component>, ds: seq<Dependency>, references: seq<string>,
    packages: Packages)
    requires RefsOk(root, before) && DependenciesOk(ds) && before <= after
    requires NoDuplicates(references) && Elements(references) == Dangling(root, before, ds)
    requires BuiltInOrder(after[|before|..], references, root, packages)
    ensures RefsOk(root, after) && Dangling(root, after, ds) == {}
  {
    var added := after[|before|..];
    assert after == before + added;
    BuiltRefs(added, references, root, packages);
    AppendedRefs(root, before, added, references, |added|);
    assert added[..|added|] == added && references[..|added|] == references;
  }

  lemma SuffixSnoc<T>(s: seq<T>, x: T, n: nat)
    requires n <= |s|
    ensures (s + [x])[n..] == s[n..] + [x]
  {
  }

  lemma SnocPrefix<T>(a: seq<T>, b: seq<T>, n: nat)
    requires n < |b|
    ensures (a + b[..n]) + [b[n]] == a + b[..n + 1]
  {
  }

  lemma {:induction false} AppendedOne(root: string, cs: seq<Component>, c: Component, reference: string)
    requires RefsOk(root, cs) && c.bomRef == Some(reference) && reference != "" && reference !in Known(root, cs)
    ensures RefsOk(root, cs + [c]) && Known(root, cs + [c]) == Known(root, cs) + {reference}
  {
    KnownStep(root, cs, c);
    RefsStep(root, cs, c);
  }

  // The components carry the references, none of them empty.
  predicate AreRefs(cs: seq<Component>, references: seq<string>) {
    |cs| == |references| && forall i :: 0 <= i < |cs| ==> cs[i].bomRef == Some(references[i]) && references[i] != ""
  }

  lemma {:induction false} BuiltRefs(cs: seq<Component>, references: seq<string>, root: string, packages: Packages)
    requires BuiltInOrder(cs, references, root, packages)
    ensures AreRefs(cs, references)
  {
    forall i | 0 <= i < |cs| ensures cs[i].bomRef == Some(references[i]) && references[i] != "" {
      assert BuiltFrom(cs[i], references[i], root, packages);
      InsideRoot(references[i], root, packages);
    }
  }

  lemma BuiltSnoc(
    cs: seq<Component>, references: seq<string>, c: Component, reference: string, root: string, packages: Packages)
    requires BuiltInOrder(cs, references, root, packages) && BuiltFrom(c, reference, root, packages)
    ensures BuiltInOrder(cs + [c], references + [reference], root, packages)
  {
  }

  // A resolvable reference is not empty: it starts with the root and a bar.
  lemma InsideRoot(reference: string, root: string, packages: Packages)
    requires Buildable(reference, root, packages)
    ensures reference != ""
  {
  }

  // The root or some component has the reference.
  predicate Declared(root: string, cs: seq<Component>, reference: string) {
    reference == root || exists i :: 0 <= i < |cs| && cs[i].bomRef == Some(reference)
  }

  /** Nothing dangles exactly when every reference of the graph, from and to, is declared. */
  lemma {:induction false} NothingDanglesIff(root: string, cs: seq<Component>, ds: seq<Dependency>)
    requires DependenciesOk(ds)
    ensures Dangling(root, cs, ds) == {} <==>
            forall i :: 0 <= i < |ds| ==>
                          && Declared(root, cs, ds[i].reference.value)
                          && forall k :: 0 <= k < |ds[i].dependsOn.value| ==>
                                           Declared(root, cs, ds[i].dependsOn.value[k])
  {
    forall r ensures r in Known(root, cs) <==> Declared(root, cs, r) {
      KnownIsDeclared(root, cs, r);
    }
    if Dangling(root, cs, ds) == {} {
      forall i, r | 0 <= i < |ds| && r in ReferencedBy(ds[i]) ensures Declared(root, cs, r) {
        assert r in Referenced(ds);
        assert r !in Dangling(root, cs, ds);
      }
    }
  }

  lemma {:induction false} KnownIsDeclared(root: string, cs: seq<Component>, r: string)
    ensures r in Known(root, cs) <==> Declared(root, cs, r)
  {
    if Declared(root, cs, r) && r != root {
      var i :| 0 <= i < |cs| && cs[i].bomRef == Some(r);
      assert cs[i] in cs;
    }
  }

  class Bom {
    const isCycloneDx16: bool
    const root: Option<string>
    const wellShaped: bool
    const dependencies: seq<Dependency>
    var components: seq<Component>

    constructor (isCycloneDx16: bool, root: Option<string>, wellShaped: bool, dependencies: seq<Dependency>,
      components: seq<Component>)
      ensures this.isCycloneDx16 == isCycloneDx16 && this.root == root && this.wellShaped == wellShaped
      ensures this.dependencies == dependencies && this.components == components
    {
      this.isCycloneDx16 := isCycloneDx16;
      this.root := root;
      this.wellShaped := wellShaped;
      this.dependencies := dependencies;
      this.components := components;
    }

    predicate Acceptable(lock: Lock)
      reads this`components
    {
      && isCycloneDx16 && root.Some? && root.value != "" && wellShaped
      && lock.isVersion3 && lock.packages.Some?
      && RefsOk(root.value, components) && DependenciesOk(dependencies)
    }

    ghost function Missing(): set<string>
      requires root.Some? && DependenciesOk(dependencies)
      reads this`components
    {
      Dangling(root.value, components, dependencies)
    }

    ghost predicate Closed()
      reads this`components
    {
      root.Some? && RefsOk(root.value, components) && DependenciesOk(dependencies) && Missing() == {}
    }

    /**
      Normalisation succeeds exactly for an acceptable document whose missing references can all
      be built from the lock. Then the original components are an unchanged prefix, exactly the
      missing references were added, and the graph is closed; the checks after the loop never
      fail. A failure leaves the original components as a prefix.
     */
    method Normalize(lock: Lock) returns (r: Result<seq<string>, SbomError>)
      modifies this`components
      ensures r.Ok?
              <==> old(Acceptable(lock)) && forall m :: m in old(Missing()) ==>
              Buildable(m, root.value, lock.packages.value)
      ensures r.Ok? ==> r.value == Sorted(old(Missing())) && Closed()
      ensures r.Ok? ==> old(components) <= components
                        && BuiltInOrder(components[|old(components)|..], r.value, root.value, lock.packages.value)
      ensures r.Err? ==> old(components) <= components && !r.error.Recheck? && !r.error.StillDangling?
      ensures r.Err? && !r.error.Unresolved? ==> components == old(components)
    {
      if !isCycloneDx16 { return Err(WrongFormat); }
      if root.None? { return Err(MissingRoot); }
      if !lock.isVersion3 { return Err(WrongLock); }
      if lock.packages.None? { return Err(MissingPackages); }
      var dangling := FindDangling(root.value, wellShaped, components, dependencies);
      if dangling.Err? { return Err(Graph(dangling.error)); }
      var references := Sort(dangling.value);
      var failure := AppendAll(references, root.value, lock.packages.value);
      if failure.Some? { return Err(failure.value); }
      AppendedCloses(root.value, old(components), components, dependencies, references, lock.packages.value);
      var remaining := FindDangling(root.value, wellShaped, components, dependencies);
      match remaining {
        case Err(g) => return Err(Recheck(g));
        case Ok(rest) =>
          if rest != {} {
            var names := Sort(rest);
            return Err(StillDangling(names));
          }
      }
      return Ok(references);
    }

    // The loop that appends a component for each reference.
    method AppendAll(references: seq<string>, root: string, packages: Packages) returns (failure: Option<SbomError>)
      modifies this`components
      ensures old(components) <= components
      ensures failure.None? <==> forall m :: m in Elements(references) ==> Buildable(m, root, packages)
      ensures failure.None? ==> BuiltInOrder(components[|old(components)|..], references, root, packages)
      ensures failure.Some? ==> failure.value.Unresolved?
    {
      ghost var before := components;
      for i := 0 to |references|
        invariant before <= components && BuiltInOrder(components[|before|..], references[..i], root, packages)
        invariant forall j :: 0 <= j < i ==> Buildable(references[j], root, packages)
      {
        var c := Build(references[i], root, packages);
        if c.Err? {
          assert references[i] in Elements(references);
          return Some(Unresolved(references[i], c.error));
        }
        PrefixStep(references, i);
        SuffixSnoc(components, c.value, |before|);
        BuiltSnoc(components[|before|..], references[..i], c.value, references[i], root, packages);
        components := components + [c.value];
      }
      assert references[..|references|] == references;
      return None;
    }

    /** A second run after a success adds nothing and changes nothing. */
    method NormalizeTwice(lock: Lock)
      returns (first: Result<seq<string>, SbomError>, second: Result<seq<string>, SbomError>)
      modifies this`components
      ensures first.Ok? ==> second == Ok([]) && Closed()
      ensures first.Ok? ==> lock.packages.Some? && old(components) <= components
                            && BuiltInOrder(components[|old(components)|..], first.value, root.value,
                               lock.packages.value)
    {
      first := Normalize(lock);
      ghost var after := components;
      second := Normalize(lock);
      if first.Ok? {
        assert Sorted({}) == [];
        assert components[|after|..] == [] && components == after;
      }
    }
  }
}
