/** Pytest node ids and their JUnit identities (scripts/acceptance_gate.py). */
module PytestNodes {
  import opened Common
  import opened Strings

  const MODULE_END := ".py::"

  // _normalize_pytest_node_path: only the file part of a node id is a path.
  function Normalize(node: string): string {
    match Find(node, MODULE_END, 0)
    case None => node
    case Some(i) => Replace(node[..i], '\\', '/') + node[i..]
  }

  // Normalising changes backslashes to slashes and neither occurs in the end marker.
  lemma {:induction false} NormalizeKeepsMarkers(node: string, j: nat)
    ensures At(Normalize(node), MODULE_END, j) <==> At(node, MODULE_END, j)
  {
    var found := Find(node, MODULE_END, 0);
    if found.Some? {
      var i, r := found.value, Normalize(node);
      assert |r| == |node|;
      assert forall k :: 0 <= k < |node| ==> r[k] == if k < i && node[k] == '\\' then '/' else node[k];
      if j + 5 <= |node| {
        var a, b := r[j..j + 5], node[j..j + 5];
        assert forall k :: 0 <= k < 5 ==> a[k] == r[j + k] && b[k] == node[j + k];
        assert a == MODULE_END <==> b == MODULE_END by {
          assert a == [a[0], a[1], a[2], a[3], a[4]] && b == [b[0], b[1], b[2], b[3], b[4]];
        }
      }
    }
  }

  /** Normalising twice is normalising once, so the key of a normalised node is the node's key. */
  lemma {:induction false} NormalizeIdempotent(node: string)
    ensures Normalize(Normalize(node)) == Normalize(node)
    ensures Key(Normalize(node)) == Key(node)
  {
    var found := Find(node, MODULE_END, 0);
    if found.Some? {
      var i, r := found.value, Normalize(node);
      NormalizeKeepsMarkers(node, i);
      forall j | 0 <= j < i ensures !At(r, MODULE_END, j) {
        NormalizeKeepsMarkers(node, j);
      }
      FindIs(r, MODULE_END, i);
      assert Replace(r[..i], '\\', '/') == r[..i] && r[..i] + r[i..] == r;
    }
  }

  predicate Marks(node: string, i: nat) { i + 5 <= |node| && node[i..i + 5] == ".py::" }

  // Where the file part of a node id ends.
  predicate EndsFile(node: string, i: nat) { Marks(node, i) && forall j :: 0 <= j < i ==> !Marks(node, j) }

  /** Only backslashes of the file part become slashes; a node id without a file part stays as it is. */
  lemma {:induction false} NormalizeIsLocal(node: string, i: nat)
    ensures EndsFile(node, i) ==>
              && |Normalize(node)| == |node|
              && (forall k :: 0 <= k < i ==> Normalize(node)[k] == if node[k] == '\\' then '/' else node[k])
              && (forall k :: i <= k < |node| ==> Normalize(node)[k] == node[k])
    ensures (forall j :: 0 <= j < |node| ==> !Marks(node, j)) ==> Normalize(node) == node
  {
    assert forall j: nat :: At(node, MODULE_END, j) <==> Marks(node, j);
    if EndsFile(node, i) {
      FindIs(node, MODULE_END, i);
    }
  }

  // _junit_key_for_node: class name and test name; None is an invalid node id.
  function Key(node: string): Option<(string, string)> {
    var parts := Split(Normalize(node), "::");
    if |parts| < 2 || !EndsWith(parts[0], ".py") then None
    else
      var file := parts[0][..|parts[0]| - 3];
      Some((Join([Replace(file, '/', '.')] + parts[1..|parts| - 1], "."), parts[|parts| - 1]))
  }
}
