/** The order of the nodes in the project tree (desktop/tabs.go:3095-3177, 4913). */
module ProjectTree {
  import opened Common
  import opened StringLists
  import opened ProjectsFile

  datatype Kind = ProjectFolder | GlobalFolder | OtherNode

  datatype Node = Node(kind: Kind, root: string, name: string)

  /** The key the sidebar order names a node by; empty when it cannot be named. */
  function OrderKey(n: Norms, node: Node): string {
    match node.kind
    case GlobalFolder => GLOBAL_TOKEN
    case ProjectFolder => n.root(node.root)
    case OtherNode => ""
  }

  /** The root a pin names a node by; empty when it cannot be pinned. */
  function PinKey(n: Norms, node: Node): string {
    if node.kind == ProjectFolder && node.root != "" then n.root(node.root) else ""
  }

  type KeyOf = Node -> string

  predicate HasKey(nodes: seq<Node>, key: KeyOf, k: string) {
    exists i :: 0 <= i < |nodes| && key(nodes[i]) == k
  }

  /** The nodes that can be named have different names. */
  predicate DistinctKeys(nodes: seq<Node>, key: KeyOf) {
    forall i, j :: 0 <= i < j < |nodes| && key(nodes[i]) != "" ==> key(nodes[i]) != key(nodes[j])
  }

  /** The last node of each key, as a map filled in order ends up. */
  function ByKey(nodes: seq<Node>, key: KeyOf): map<string, Node> {
    if nodes == [] then map[]
    else
      var last := nodes[|nodes| - 1];
      var before := ByKey(nodes[..|nodes| - 1], key);
      if key(last) != "" then before[key(last) := last] else before
  }

  function Picked(byKey: map<string, Node>, keys: seq<string>): seq<Node>
    requires forall k :: k in keys ==> k in byKey
  {
    seq(|keys|, i requires 0 <= i < |keys| => byKey[keys[i]])
  }

  /** The nodes whose keys are not among those picked, in their order. */
  function Rest(nodes: seq<Node>, key: KeyOf, picked: seq<string>): seq<Node> {
    if nodes == [] then []
    else
      var rest := Rest(nodes[..|nodes| - 1], key, picked);
      if key(nodes[|nodes| - 1]) in picked then rest else rest + [nodes[|nodes| - 1]]
  }

  lemma {:induction false} ByKeyHas(nodes: seq<Node>, key: KeyOf)
    ensures forall k :: (k in ByKey(nodes, key)) <==> (k != "" && HasKey(nodes, key, k))
    ensures forall k :: k in ByKey(nodes, key) ==> key(ByKey(nodes, key)[k]) == k
  {
    if nodes != [] {
      var n := |nodes| - 1;
      ByKeyHas(nodes[..n], key);
      forall k ensures HasKey(nodes, key, k) <==> HasKey(nodes[..n], key, k) || key(nodes[n]) == k {
        if i :| 0 <= i < |nodes| && key(nodes[i]) == k {
          assert i < n ==> key(nodes[..n][i]) == k;
        }
        if i :| 0 <= i < n && key(nodes[..n][i]) == k {
          assert key(nodes[i]) == k;
        }
      }
    }
  }

  // ------------------------------------------------------------------- moving nodes first

  /** Keys that nodes have, each once. */
  ghost predicate Picks(nodes: seq<Node>, key: KeyOf, keys: seq<string>) {
    Distinct(keys) && forall k :: k in keys ==> k in ByKey(nodes, key)
  }

  /** The nodes of the given keys, in the order of the keys, and then the others. */
  function MovedFirst(nodes: seq<Node>, key: KeyOf, keys: seq<string>): seq<Node>
    requires forall k :: k in keys ==> k in ByKey(nodes, key)
  {
    Picked(ByKey(nodes, key), keys) + Rest(nodes, key, keys)
  }

  lemma {:induction false} RestIgnores(nodes: seq<Node>, key: KeyOf, keys: seq<string>, k: string)
    requires !HasKey(nodes, key, k)
    ensures Rest(nodes, key, keys + [k]) == Rest(nodes, key, keys)
  {
    if nodes != [] {
      var n := |nodes| - 1;
      assert forall i :: 0 <= i < n ==> key(nodes[..n][i]) == key(nodes[i]);
      RestIgnores(nodes[..n], key, keys, k);
      assert key(nodes[n]) != k;
    }
  }

  /** Picking one more key takes exactly its node out of the rest. */
  lemma {:induction false} RestDrops(nodes: seq<Node>, key: KeyOf, keys: seq<string>, k: string)
    requires DistinctKeys(nodes, key) && k !in keys && k in ByKey(nodes, key)
    ensures multiset(Rest(nodes, key, keys)) == multiset(Rest(nodes, key, keys + [k])) + multiset{ByKey(nodes, key)[k]}
  {
    var n := |nodes| - 1;
    ByKeyHas(nodes, key);
    if key(nodes[n]) == k {
      forall i | 0 <= i < n ensures key(nodes[..n][i]) != k {
        assert nodes[..n][i] == nodes[i];
      }
      RestIgnores(nodes[..n], key, keys, k);
    } else {
      RestDrops(nodes[..n], key, keys, k);
    }
  }

  lemma {:induction false} RestOfNone(nodes: seq<Node>, key: KeyOf)
    ensures Rest(nodes, key, []) == nodes
  {
    if nodes != [] {
      RestOfNone(nodes[..|nodes| - 1], key);
    }
  }

  /** Moving nodes first loses none and repeats none, when their keys are distinct. */
  lemma {:induction false} MovedIsPermutation(nodes: seq<Node>, key: KeyOf, keys: seq<string>)
    requires DistinctKeys(nodes, key) && Picks(nodes, key, keys)
    ensures multiset(MovedFirst(nodes, key, keys)) == multiset(nodes)
    decreases |keys|
  {
    var byKey := ByKey(nodes, key);
    if keys == [] {
      RestOfNone(nodes, key);
      assert MovedFirst(nodes, key, keys) == nodes;
    } else {
      var n := |keys| - 1;
      assert keys == keys[..n] + [keys[n]];
      DistinctConcat(keys[..n], [keys[n]]);
      MovedIsPermutation(nodes, key, keys[..n]);
      RestDrops(nodes, key, keys[..n], keys[n]);
      assert Picked(byKey, keys) == Picked(byKey, keys[..n]) + [byKey[keys[n]]];
    }
  }

  /** The first nodes carry the keys in order; behind them no other node carries one. */
  lemma MovedKeys(nodes: seq<Node>, key: KeyOf, keys: seq<string>)
    requires Picks(nodes, key, keys)
    ensures var r := MovedFirst(nodes, key, keys);
            && |keys| <= |r| && r[|keys|..] == Rest(nodes, key, keys)
            && (forall i :: 0 <= i < |keys| ==> key(r[i]) == keys[i])
            && (forall i :: |keys| <= i < |r| ==> key(r[i]) !in keys)
  {
    ByKeyHas(nodes, key);
    RestUnpicked(nodes, key, keys);
    var r := MovedFirst(nodes, key, keys);
    assert r[|keys|..] == Rest(nodes, key, keys);
    forall i | |keys| <= i < |r| ensures key(r[i]) !in keys {
      assert r[i] == Rest(nodes, key, keys)[i - |keys|];
    }
  }

  lemma {:induction false} RestUnpicked(nodes: seq<Node>, key: KeyOf, keys: seq<string>)
    ensures forall node :: node in Rest(nodes, key, keys) ==> key(node) !in keys
  {
    if nodes != [] {
      RestUnpicked(nodes[..|nodes| - 1], key, keys);
    }
  }

  /** The others are exactly the nodes whose keys are not picked, in their order. */
  lemma {:induction false} RestIsInOrder(nodes: seq<Node>, key: KeyOf, picked: seq<string>) returns (places: seq<nat>)
    ensures |places| == |Rest(nodes, key, picked)|
    ensures forall k :: 0 <= k < |places| ==> places[k] < |nodes| && Rest(nodes, key, picked)[k] == nodes[places[k]]
    ensures forall k, l :: 0 <= k < l < |places| ==> places[k] < places[l]
    ensures forall i: nat :: i < |nodes| ==> (i in places <==> key(nodes[i]) !in picked)
  {
    places := [];
    if nodes != [] {
      var n := |nodes| - 1;
      places := RestIsInOrder(nodes[..n], key, picked);
      assert forall i :: 0 <= i < n ==> nodes[..n][i] == nodes[i];
      if key(nodes[n]) !in picked {
        places := places + [n];
      }
    }
  }

  // ------------------------------------------------------------- the two orders of the tree

  function NamedNode(n: Norms, byKey: map<string, Node>, value: string): Option<string> {
    var trimmed := Trim(value);
    var k := if trimmed == GLOBAL_TOKEN then trimmed else n.root(trimmed);
    if k == "" || k !in byKey then None else Some(k)
  }

  function PinnedNode(n: Norms, byKey: map<string, Node>, value: string): Option<string> {
    if n.root(value) !in byKey then None else Some(n.root(value))
  }

  function OrderKeys(n: Norms, nodes: seq<Node>, order: seq<string>): seq<string> {
    var byKey := ByKey(nodes, node => OrderKey(n, node));
    Collected(order, v => NamedNode(n, byKey, v))
  }

  function PinKeys(n: Norms, nodes: seq<Node>, pinned: seq<string>): seq<string> {
    var byKey := ByKey(nodes, node => PinKey(n, node));
    Collected(Unique(pinned), v => PinnedNode(n, byKey, v))
  }

  lemma OrderKeysPick(n: Norms, nodes: seq<Node>, order: seq<string>)
    ensures Picks(nodes, node => OrderKey(n, node), OrderKeys(n, nodes, order))
  {
    var byKey := ByKey(nodes, node => OrderKey(n, node));
    var f := v => NamedNode(n, byKey, v);
    CollectedMembers(order, f);
    forall k | Names(order, f, k) ensures k in byKey {
    }
  }

  lemma PinKeysPick(n: Norms, nodes: seq<Node>, pinned: seq<string>)
    ensures Picks(nodes, node => PinKey(n, node), PinKeys(n, nodes, pinned))
  {
    var byKey := ByKey(nodes, node => PinKey(n, node));
    var f := v => PinnedNode(n, byKey, v);
    CollectedMembers(Unique(pinned), f);
    forall k | Names(Unique(pinned), f, k) ensures k in byKey {
    }
  }

  /** The other nodes, with only the first of those that share a key. */
  function RestOnce(nodes: seq<Node>, key: KeyOf, picked: seq<string>): seq<Node> {
    if nodes == [] then []
    else
      var n := |nodes| - 1;
      var rest, k := RestOnce(nodes[..n], key, picked), key(nodes[n]);
      if k in picked || (k != "" && HasKey(nodes[..n], key, k)) then rest else rest + [nodes[n]]
  }

  lemma {:induction false} RestOnceIsRest(nodes: seq<Node>, key: KeyOf, picked: seq<string>)
    requires DistinctKeys(nodes, key)
    ensures RestOnce(nodes, key, picked) == Rest(nodes, key, picked)
  {
    if nodes != [] {
      var n := |nodes| - 1;
      RestOnceIsRest(nodes[..n], key, picked);
      assert key(nodes[n]) != "" ==> !HasKey(nodes[..n], key, key(nodes[n]));
    }
  }

  function TreeOrdered(n: Norms, nodes: seq<Node>, order: seq<string>): seq<Node> {
    OrderKeysPick(n, nodes, order);
    var key := node => OrderKey(n, node);
    var keys := OrderKeys(n, nodes, order);
    if order == [] then nodes else Picked(ByKey(nodes, key), keys) + RestOnce(nodes, key, keys)
  }

  function PinnedOrdered(n: Norms, nodes: seq<Node>, pinned: seq<string>): seq<Node> {
    PinKeysPick(n, nodes, pinned);
    MovedFirst(nodes, node => PinKey(n, node), PinKeys(n, nodes, pinned))
  }

  lemma TreeOrderMoves(n: Norms, nodes: seq<Node>, order: seq<string>)
    requires DistinctKeys(nodes, node => OrderKey(n, node))
    ensures Picks(nodes, node => OrderKey(n, node), OrderKeys(n, nodes, order))
    ensures TreeOrdered(n, nodes, order) == MovedFirst(nodes, node => OrderKey(n, node), OrderKeys(n, nodes, order))
  {
    var key := node => OrderKey(n, node);
    OrderKeysPick(n, nodes, order);
    RestOnceIsRest(nodes, key, OrderKeys(n, nodes, order));
    RestOfNone(nodes, key);
  }

  lemma {:induction false} RestFromNodes(nodes: seq<Node>, key: KeyOf, picked: seq<string>)
    requires DistinctKeys(nodes, key)
    ensures DistinctKeys(Rest(nodes, key, picked), key)
    ensures forall node :: node in Rest(nodes, key, picked) ==> node in nodes
  {
    if nodes != [] {
      var n := |nodes| - 1;
      RestFromNodes(nodes[..n], key, picked);
      var rest := Rest(nodes[..n], key, picked);
      forall i | 0 <= i < |rest| && key(rest[i]) != "" ensures key(rest[i]) != key(nodes[n]) {
        assert rest[i] in nodes[..n];
        var j :| 0 <= j < n && nodes[j] == rest[i];
      }
    }
  }

  lemma MovedStaysDistinct(nodes: seq<Node>, key: KeyOf, keys: seq<string>)
    requires DistinctKeys(nodes, key) && Picks(nodes, key, keys)
    ensures DistinctKeys(MovedFirst(nodes, key, keys), key)
  {
    var r := MovedFirst(nodes, key, keys);
    MovedKeys(nodes, key, keys);
    RestFromNodes(nodes, key, keys);
    forall i, j | 0 <= i < j < |r| && key(r[i]) != "" ensures key(r[i]) != key(r[j]) {
      if i >= |keys| {
        assert r[i] == Rest(nodes, key, keys)[i - |keys|] && r[j] == Rest(nodes, key, keys)[j - |keys|];
      }
    }
  }

  lemma PinKeysDistinct(n: Norms, nodes: seq<Node>)
    requires DistinctKeys(nodes, node => OrderKey(n, node))
    ensures DistinctKeys(nodes, node => PinKey(n, node))
  {
    var order, pin := node => OrderKey(n, node), node => PinKey(n, node);
    forall i, j | 0 <= i < j < |nodes| && pin(nodes[i]) != "" ensures pin(nodes[i]) != pin(nodes[j]) {
      assert order(nodes[i]) == pin(nodes[i]);
      assert pin(nodes[j]) != "" ==> order(nodes[j]) == pin(nodes[j]);
      assert order(nodes[i]) != order(nodes[j]);
    }
  }

  /** The sidebar order: the nodes it names in its order, then the others as they were. */
  lemma SidebarOrder(n: Norms, nodes: seq<Node>, order: seq<string>)
    requires DistinctKeys(nodes, node => OrderKey(n, node))
    ensures var ordered, keys := TreeOrdered(n, nodes, order), OrderKeys(n, nodes, order);
            && multiset(ordered) == multiset(nodes) && DistinctKeys(ordered, node => PinKey(n, node))
            && |keys| <= |ordered| && (forall i :: 0 <= i < |keys| ==> OrderKey(n, ordered[i]) == keys[i])
            && ordered[|keys|..] == Rest(nodes, node => OrderKey(n, node), keys)
  {
    var key, keys, ordered := node => OrderKey(n, node), OrderKeys(n, nodes, order), TreeOrdered(n, nodes, order);
    TreeOrderMoves(n, nodes, order);
    MovedIsPermutation(nodes, key, keys);
    MovedKeys(nodes, key, keys);
    MovedStaysDistinct(nodes, key, keys);
    PinKeysDistinct(n, ordered);
    assert forall i :: 0 <= i < |keys| ==> key(ordered[i]) == keys[i];
  }

  /** The pinned projects come first, in the order of the pins. */
  lemma PinsComeFirst(n: Norms, nodes: seq<Node>, pinned: seq<string>)
    requires DistinctKeys(nodes, node => PinKey(n, node))
    ensures var r, pins := PinnedOrdered(n, nodes, pinned), PinKeys(n, nodes, pinned);
            && multiset(r) == multiset(nodes)
            && |pins| <= |r| && (forall i :: 0 <= i < |pins| ==> PinKey(n, r[i]) == pins[i])
            && r[|pins|..] == Rest(nodes, node => PinKey(n, node), pins)
  {
    var pin, pins := node => PinKey(n, node), PinKeys(n, nodes, pinned);
    PinKeysPick(n, nodes, pinned);
    MovedIsPermutation(nodes, pin, pins);
    MovedKeys(nodes, pin, pins);
    assert forall i :: 0 <= i < |pins| ==> pin(PinnedOrdered(n, nodes, pinned)[i]) == pins[i];
  }

  /** Both orders applied: the tree has the same nodes, the pinned projects come first in
      the order of the pins, and behind them the sidebar order is kept: the nodes it names
      in its order, then the others as they were. */
  lemma TreeIsPermutedAsAsked(n: Norms, nodes: seq<Node>, order: seq<string>, pinned: seq<string>)
    requires DistinctKeys(nodes, node => OrderKey(n, node))
    ensures var ordered := TreeOrdered(n, nodes, order);
            var r := PinnedOrdered(n, ordered, pinned);
            var keys, pins := OrderKeys(n, nodes, order), PinKeys(n, ordered, pinned);
            && multiset(r) == multiset(nodes)
            && |pins| <= |r| && (forall i :: 0 <= i < |pins| ==> PinKey(n, r[i]) == pins[i])
            && r[|pins|..] == Rest(ordered, node => PinKey(n, node), pins)
            && |keys| <= |ordered| && (forall i :: 0 <= i < |keys| ==> OrderKey(n, ordered[i]) == keys[i])
            && ordered[|keys|..] == Rest(nodes, node => OrderKey(n, node), keys)
  {
    SidebarOrder(n, nodes, order);
    PinsComeFirst(n, TreeOrdered(n, nodes, order), pinned);
  }

  /** The name an entry of the sidebar order gives: the token itself, else a normalised path. */
  function NameIn(n: Norms, value: string): string {
    if Trim(value) == GLOBAL_TOKEN then GLOBAL_TOKEN else n.root(Trim(value))
  }

  /** The global folder goes by the token, a project by its normalised root; other nodes
      cannot be named. */
  predicate GoesBy(n: Norms, node: Node, name: string) {
    || (node.kind == GlobalFolder && name == GLOBAL_TOKEN)
    || (node.kind == ProjectFolder && name == n.root(node.root))
  }

  /** The keys of the nodes the sidebar order puts first, from its entries and the nodes
      themselves: every name in the order that a node goes by, once, in the order of first
      appearance. */
  lemma OrderKeysAreFirsts(n: Norms, nodes: seq<Node>, order: seq<string>)
    ensures FirstsOf(order,
                     v => if NameIn(n, v) != "" && exists node :: node in nodes && GoesBy(n, node, NameIn(n, v)) then Some(NameIn(n, v)) else None,
                     Same, OrderKeys(n, nodes, order))
  {
    var byKey := ByKey(nodes, node => OrderKey(n, node));
    var f := v => NamedNode(n, byKey, v);
    var says := v => if NameIn(n, v) != "" && exists node :: node in nodes && GoesBy(n, node, NameIn(n, v)) then Some(NameIn(n, v)) else None;
    forall v ensures f(v) == says(v) {
      KeyIsOfNode(nodes, node => OrderKey(n, node), NameIn(n, v));
      assert forall node :: NameIn(n, v) != "" ==> (GoesBy(n, node, NameIn(n, v)) <==> OrderKey(n, node) == NameIn(n, v));
    }
    CollectedFirsts(order, f, says);
  }

  /** The keys of the pinned nodes, likewise: the root of every project with a path that a pin
      normalises to, once, in the order of first appearance. */
  lemma PinKeysAreFirsts(n: Norms, nodes: seq<Node>, pinned: seq<string>)
    requires PathLike(n)
    ensures FirstsOf(pinned,
                     v => if n.root(v) != "" && exists node :: node in nodes && PinnedBy(n, node, n.root(v)) then Some(n.root(v)) else None,
                     Same, PinKeys(n, nodes, pinned))
  {
    var byKey := ByKey(nodes, node => PinKey(n, node));
    var f := v => PinnedNode(n, byKey, v);
    var says := v => if n.root(v) != "" && exists node :: node in nodes && PinnedBy(n, node, n.root(v)) then Some(n.root(v)) else None;
    forall v ensures f(v) == says(v) {
      KeyIsOfNode(nodes, node => PinKey(n, node), n.root(v));
      assert forall node :: n.root(v) != "" ==> (PinnedBy(n, node, n.root(v)) <==> PinKey(n, node) == n.root(v));
    }
    forall v ensures says(v) == match NonEmptyTrim(v) case None => None case Some(x) => says(x) {
      assert PathLikeAt(n, v);
    }
    CollectedThrough(pinned, NonEmptyTrim, f);
    CollectedFirsts(pinned, f, says);
  }

  predicate PinnedBy(n: Norms, node: Node, root: string) {
    node.kind == ProjectFolder && node.root != "" && n.root(node.root) == root
  }

  lemma KeyIsOfNode(nodes: seq<Node>, key: KeyOf, k: string)
    ensures k in ByKey(nodes, key) <==> k != "" && exists node :: node in nodes && key(node) == k
  {
    ByKeyHas(nodes, key);
    if node :| node in nodes && key(node) == k {
      var i :| 0 <= i < |nodes| && nodes[i] == node;
      assert key(nodes[i]) == k;
    }
    if HasKey(nodes, key, k) {
      var i :| 0 <= i < |nodes| && key(nodes[i]) == k;
      assert nodes[i] in nodes;
    }
  }

  // ------------------------------------------------------------------------- the loops

  /** The map the source fills in a loop. */
  method IndexNodes(nodes: seq<Node>, key: KeyOf) returns (byKey: map<string, Node>)
    ensures byKey == ByKey(nodes, key)
  {
    byKey := map[];
    var i := 0;
    while i < |nodes|
      invariant 0 <= i <= |nodes| && byKey == ByKey(nodes[..i], key)
    {
      assert nodes[..i + 1][..i] == nodes[..i];
      var k := key(nodes[i]);
      if k != "" {
        byKey := byKey[k := nodes[i]];
      }
      i := i + 1;
    }
    assert nodes[..i] == nodes;
  }

  lemma PickedMore(byKey: map<string, Node>, keys: seq<string>, k: string)
    requires (forall x :: x in keys ==> x in byKey) && k in byKey
    ensures Picked(byKey, keys + [k]) == Picked(byKey, keys) + [byKey[k]]
  {}

  /** What has been picked so far: the keys, their nodes, and the set of the keys. */
  ghost predicate Collecting(byKey: map<string, Node>, keys: seq<string>, out: seq<Node>, seen: set<string>) {
    && (forall k :: k in keys ==> k in byKey) && out == Picked(byKey, keys)
    && forall x :: (x in seen) <==> (x in keys)
  }

  /** Takes one entry of the sidebar order. */
  method PickOne(n: Norms, byKey: map<string, Node>, value: string, out: seq<Node>, seen: set<string>, ghost keys: seq<string>)
    returns (out': seq<Node>, seen': set<string>, ghost keys': seq<string>)
    requires Collecting(byKey, keys, out, seen)
    ensures keys' == Extend(keys, NamedNode(n, byKey, value)) && Collecting(byKey, keys', out', seen')
  {
    out', seen', keys' := out, seen, keys;
    var key := Trim(value);
    if key != GLOBAL_TOKEN {
      key := n.root(key);
    }
    if key != "" && key !in seen && key in byKey {
      PickedMore(byKey, keys, key);
      seen' := seen + {key};
      out' := out + [byKey[key]];
      keys' := keys + [key];
    }
  }

  /** The nodes the sidebar order names, in its order. */
  method PickOrdered(n: Norms, byKey: map<string, Node>, order: seq<string>)
    returns (out: seq<Node>, seen: set<string>, ghost keys: seq<string>)
    ensures keys == Collected(order, v => NamedNode(n, byKey, v)) && Collecting(byKey, keys, out, seen)
  {
    ghost var f := v => NamedNode(n, byKey, v);
    seen, out, keys := {}, [], [];
    var i := 0;
    while i < |order|
      invariant 0 <= i <= |order| && keys == Collected(order[..i], f) && Collecting(byKey, keys, out, seen)
    {
      CollectedNext(order, f, i);
      out, seen, keys := PickOne(n, byKey, order[i], out, seen, keys);
      i := i + 1;
    }
    assert order[..|order|] == order;
  }

  method ApplyProjectTreeOrder(n: Norms, nodes: seq<Node>, order: seq<string>) returns (out: seq<Node>)
    ensures out == TreeOrdered(n, nodes, order)
  {
    if order == [] {
      return nodes;
    }
    var key := node => OrderKey(n, node);
    var byKey := IndexNodes(nodes, key);
    var seen; ghost var keys;
    out, seen, keys := PickOrdered(n, byKey, order);
    ghost var picked := out;
    ByKeyHas(nodes, key);
    var i := 0;
    while i < |nodes|
      invariant 0 <= i <= |nodes| && out == picked + RestOnce(nodes[..i], key, keys)
      invariant forall x :: (x in seen) <==> (x in keys || (x != "" && HasKey(nodes[..i], key, x)))
    {
      assert nodes[..i + 1][..i] == nodes[..i];
      HasKeyNext(nodes, key, i);
      var k := key(nodes[i]);
      if !(k != "" && k in seen) {
        if k != "" {
          seen := seen + {k};
        }
        out := out + [nodes[i]];
      }
      i := i + 1;
    }
    assert nodes[..i] == nodes;
  }

  lemma HasKeyNext(nodes: seq<Node>, key: KeyOf, i: nat)
    requires i < |nodes|
    ensures forall x :: HasKey(nodes[..i + 1], key, x) <==> HasKey(nodes[..i], key, x) || key(nodes[i]) == x
  {
    forall x ensures HasKey(nodes[..i + 1], key, x) <==> HasKey(nodes[..i], key, x) || key(nodes[i]) == x {
      var shorter, longer := nodes[..i], nodes[..i + 1];
      if j :| 0 <= j < |longer| && key(longer[j]) == x {
        assert j < i ==> key(shorter[j]) == x;
      }
      if j :| 0 <= j < |shorter| && key(shorter[j]) == x {
        assert key(longer[j]) == x;
      }
      assert longer[i] == nodes[i];
    }
  }

  /** The pinned projects, in the order of the pins. */
  method PickPinned(n: Norms, byRoot: map<string, Node>, pinned: seq<string>)
    returns (out: seq<Node>, seen: set<string>, ghost keys: seq<string>)
    ensures keys == Collected(pinned, v => PinnedNode(n, byRoot, v))
    ensures (forall k :: k in keys ==> k in byRoot) && out == Picked(byRoot, keys)
    ensures forall x :: (x in seen) <==> (x in keys)
  {
    ghost var f := v => PinnedNode(n, byRoot, v);
    seen, out, keys := {}, [], [];
    var i := 0;
    while i < |pinned|
      invariant 0 <= i <= |pinned| && keys == Collected(pinned[..i], f)
      invariant (forall k :: k in keys ==> k in byRoot) && out == Picked(byRoot, keys)
      invariant forall x :: (x in seen) <==> (x in keys)
    {
      assert pinned[..i + 1][..i] == pinned[..i];
      var root := n.root(pinned[i]);
      if root in byRoot && root !in seen {
        PickedMore(byRoot, keys, root);
        seen := seen + {root};
        out := out + [byRoot[root]];
        keys := keys + [root];
      }
      i := i + 1;
    }
    assert pinned[..i] == pinned;
  }

  lemma RestNext(nodes: seq<Node>, key: KeyOf, picked: seq<string>, i: nat)
    requires i < |nodes|
    ensures Rest(nodes[..i + 1], key, picked) ==
            Rest(nodes[..i], key, picked) + if key(nodes[i]) in picked then [] else [nodes[i]]
  {
    assert nodes[..i + 1][..i] == nodes[..i];
  }

  method ApplyPinnedProjectOrder(n: Norms, nodes: seq<Node>, pinned: seq<string>) returns (out: seq<Node>)
    ensures out == PinnedOrdered(n, nodes, pinned)
  {
    var unique := UniqueStrings(pinned);
    ghost var pin := node => PinKey(n, node);
    if unique == [] {
      RestOfNone(nodes, pin);
      return nodes;
    }
    var byRoot := IndexNodes(nodes, node => PinKey(n, node));
    ByKeyHas(nodes, pin);
    var seen; ghost var keys;
    out, seen, keys := PickPinned(n, byRoot, unique);
    out := AppendUnpinned(n, nodes, out, seen, keys);
  }

  /** The nodes that are not pinned follow, as they were. */
  method AppendUnpinned(n: Norms, nodes: seq<Node>, picked: seq<Node>, seen: set<string>, ghost keys: seq<string>)
    returns (out: seq<Node>)
    requires "" !in seen && forall x :: (x in seen) <==> (x in keys)
    ensures out == picked + Rest(nodes, node => PinKey(n, node), keys)
  {
    ghost var pin := node => PinKey(n, node);
    out := picked;
    var i := 0;
    while i < |nodes|
      invariant 0 <= i <= |nodes| && out == picked + Rest(nodes[..i], pin, keys)
    {
      RestNext(nodes, pin, keys, i);
      var node := nodes[i];
      if !(node.kind == ProjectFolder && node.root != "" && n.root(node.root) in seen) {
        out := out + [node];
      }
      i := i + 1;
    }
    assert nodes[..i] == nodes;
  }
}
