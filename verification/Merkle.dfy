/** The Merkle layer of the block circuit, over an arbitrary hash: recomputing a root from one leaf and its
    audit path, the rolling root over a block's operations, and the root of a full list of leaves. */
module Merkle {
  import opened Types
  import opened Powers
  import opened Bits

  /** Of a sequence of field elements: a leaf's content, or two children. */
  type Hasher = seq<nat> -> nat

  type Leaf = seq<nat>

  // ---------- Trees ----------

  /** The root over the given nodes. */
  function NodeRoot(h: Hasher, nodes: seq<nat>, depth: nat): nat
    requires |nodes| == Pow(2, depth)
  {
    if depth == 0 then nodes[0] else
    var half := Pow(2, depth - 1);
    h([NodeRoot(h, nodes[..half], depth - 1), NodeRoot(h, nodes[half..], depth - 1)])
  }

  function LeafHashes(h: Hasher, leaves: seq<Leaf>): seq<nat> {
    seq(|leaves|, i requires 0 <= i < |leaves| => h(leaves[i]))
  }

  function Root(h: Hasher, leaves: seq<Leaf>, depth: nat): nat
    requires |leaves| == Pow(2, depth)
  {
    NodeRoot(h, LeafHashes(h, leaves), depth)
  }

  /** Root from one leaf: `bits` are the leaf's index, lowest first, and `path` its siblings from the bottom up. */
  function RootFrom(h: Hasher, leaf: Leaf, bits: seq<bool>, path: seq<nat>): nat
    requires |bits| == |path|
  {
    if bits == [] then h(leaf) else
    var n := |bits| - 1;
    var below := RootFrom(h, leaf, bits[..n], path[..n]);
    if bits[n] then h([path[n], below]) else h([below, path[n]])
  }

  function Side(leaves: seq<Leaf>, half: nat, right: bool): (r: seq<Leaf>)
    requires |leaves| == 2 * half
    ensures |r| == half
  {
    if right then leaves[half..] else leaves[..half]
  }

  /** The half of the tree that the highest index bit selects, and the other one. */
  function Half(leaves: seq<Leaf>, right: bool, depth: nat): (r: seq<Leaf>)
    requires depth > 0 && |leaves| == Pow(2, depth)
    ensures |r| == Pow(2, depth - 1)
  {
    Side(leaves, Pow(2, depth - 1), right)
  }

  function AuditPath(h: Hasher, leaves: seq<Leaf>, bits: seq<bool>): (path: seq<nat>)
    requires |leaves| == Pow(2, |bits|)
    ensures |path| == |bits|
  {
    if bits == [] then [] else
    var n := |bits| - 1;
    AuditPath(h, Half(leaves, bits[n], n + 1), bits[..n]) + [Root(h, Half(leaves, !bits[n], n + 1), n)]
  }

  lemma IndexInRange(bits: seq<bool>)
    ensures ValueLE(bits) < Pow(2, |bits|)
  {
    BitsOfValue(bits);
  }

  function LeafAt(leaves: seq<Leaf>, bits: seq<bool>): Leaf
    requires |leaves| == Pow(2, |bits|)
  {
    IndexInRange(bits);
    leaves[ValueLE(bits)]
  }

  function SetLeaf(leaves: seq<Leaf>, bits: seq<bool>, leaf: Leaf): (r: seq<Leaf>)
    requires |leaves| == Pow(2, |bits|)
    ensures |r| == |leaves|
  {
    IndexInRange(bits);
    leaves[ValueLE(bits) := leaf]
  }

  lemma RootOfHalves(h: Hasher, leaves: seq<Leaf>, depth: nat)
    requires depth > 0 && |leaves| == Pow(2, depth)
    ensures Root(h, leaves, depth) ==
            h([Root(h, Half(leaves, false, depth), depth - 1), Root(h, Half(leaves, true, depth), depth - 1)])
  {
    var half := Pow(2, depth - 1);
    assert LeafHashes(h, leaves)[..half] == LeafHashes(h, leaves[..half]);
    assert LeafHashes(h, leaves)[half..] == LeafHashes(h, leaves[half..]);
  }

  /** The leaf at an index is the leaf of the selected half at the lower bits. */
  lemma LeafInHalf(leaves: seq<Leaf>, bits: seq<bool>, leaf: Leaf)
    requires bits != [] && |leaves| == Pow(2, |bits|)
    ensures var n := |bits| - 1;
            && LeafAt(leaves, bits) == LeafAt(Half(leaves, bits[n], n + 1), bits[..n])
            && Half(SetLeaf(leaves, bits, leaf), bits[n], n + 1) ==
               SetLeaf(Half(leaves, bits[n], n + 1), bits[..n], leaf)
            && Half(SetLeaf(leaves, bits, leaf), !bits[n], n + 1) == Half(leaves, !bits[n], n + 1)
  {
    hide Pow, ValueLE, Side;
    var n := |bits| - 1;
    IndexSplit(bits);
    SetInHalf(leaves, Pow(2, n), ValueLE(bits[..n]), bits[n], leaf);
  }

  /** The highest index bit says which half the leaf is in. */
  lemma IndexSplit(bits: seq<bool>)
    requires bits != []
    ensures var n := |bits| - 1;
            && Pow(2, |bits|) == 2 * Pow(2, n)
            && ValueLE(bits[..n]) < Pow(2, n)
            && ValueLE(bits) == ValueLE(bits[..n]) + (if bits[n] then Pow(2, n) else 0)
  {
    var n := |bits| - 1;
    assert bits == bits[..n] + [bits[n]];
    assert Pow(2, |bits|) == 2 * Pow(2, n);
    hide Pow, ValueLE;
    ValueOne(bits[..n], bits[n]);
    BitsOfValue(bits[..n]);
  }

  lemma SetInHalf(leaves: seq<Leaf>, half: nat, i: nat, right: bool, leaf: Leaf)
    requires |leaves| == 2 * half && i < half
    ensures var at := i + if right then half else 0;
            && leaves[at] == Side(leaves, half, right)[i]
            && Side(leaves[at := leaf], half, right) == Side(leaves, half, right)[i := leaf]
            && Side(leaves[at := leaf], half, !right) == Side(leaves, half, !right)
  {
  }

  // ---------- One leaf and its path ----------

  /** With the tree's own path, any leaf gives the root of the tree with that leaf in place. */
  lemma {:induction false} PathGivesRoot(h: Hasher, leaves: seq<Leaf>, bits: seq<bool>, leaf: Leaf)
    requires |leaves| == Pow(2, |bits|)
    ensures RootFrom(h, leaf, bits, AuditPath(h, leaves, bits)) == Root(h, SetLeaf(leaves, bits, leaf), |bits|)
  {
    if bits == [] {
    } else {
      hide Root, LeafHashes, SetLeaf, LeafAt, Half, Pow;
      var n := |bits| - 1;
      var path := AuditPath(h, leaves, bits);
      var half := Half(leaves, bits[n], n + 1);
      assert path[..n] == AuditPath(h, half, bits[..n]);
      PathGivesRoot(h, half, bits[..n], leaf);
      LeafInHalf(leaves, bits, leaf);
      RootOfHalves(h, SetLeaf(leaves, bits, leaf), n + 1);
    }
  }

  /** The tree's own leaf with its own path gives the root. */
  lemma OwnPathGivesRoot(h: Hasher, leaves: seq<Leaf>, bits: seq<bool>)
    requires |leaves| == Pow(2, |bits|)
    ensures RootFrom(h, LeafAt(leaves, bits), bits, AuditPath(h, leaves, bits)) == Root(h, leaves, |bits|)
  {
    PathGivesRoot(h, leaves, bits, LeafAt(leaves, bits));
    assert SetLeaf(leaves, bits, LeafAt(leaves, bits)) == leaves;
  }

  predicate Collide(h: Hasher, a: seq<nat>, b: seq<nat>) {
    a != b && h(a) == h(b)
  }

  /** Two different pairs of children, in the order the index bit asks for, with one hash. */
  lemma ChildrenCollide(h: Hasher, right: bool, x: nat, y: nat, u: nat, v: nat) returns (a: seq<nat>, b: seq<nat>)
    requires x != u || y != v
    requires Node(h, right, x, y) == Node(h, right, u, v)
    ensures Collide(h, a, b)
  {
    a, b := if right then [y, x] else [x, y], if right then [v, u] else [u, v];
    assert a[0] != b[0] || a[1] != b[1];
  }

  function Node(h: Hasher, right: bool, own: nat, beside: nat): nat {
    if right then h([beside, own]) else h([own, beside])
  }

  /** The root, the root from a leaf and the audit path, one level down. */
  lemma OneLevelDown(h: Hasher, leaves: seq<Leaf>, bits: seq<bool>, leaf: Leaf, path: seq<nat>)
    requires bits != [] && |leaves| == Pow(2, |bits|) && |path| == |bits|
    ensures var n := |bits| - 1;
            var half, other := Half(leaves, bits[n], n + 1), Half(leaves, !bits[n], n + 1);
            && Root(h, leaves, n + 1) == Node(h, bits[n], Root(h, half, n), Root(h, other, n))
            && RootFrom(h, leaf, bits, path) == Node(h, bits[n], RootFrom(h, leaf, bits[..n], path[..n]), path[n])
            && AuditPath(h, leaves, bits) == AuditPath(h, half, bits[..n]) + [Root(h, other, n)]
            && LeafAt(leaves, bits) == LeafAt(half, bits[..n])
  {
    hide Root, SetLeaf, LeafAt, Half, Pow;
    RootOfHalves(h, leaves, |bits|);
    LeafInHalf(leaves, bits, leaf);
  }

  lemma LoneLeaf(h: Hasher, leaves: seq<Leaf>, bits: seq<bool>, leaf: Leaf, path: seq<nat>)
    requires bits == [] && path == [] && |leaves| == Pow(2, |bits|)
    requires RootFrom(h, leaf, bits, path) == Root(h, leaves, |bits|)
    ensures path == AuditPath(h, leaves, bits)
    ensures leaf == LeafAt(leaves, bits) || Collide(h, leaf, LeafAt(leaves, bits))
  {
    assert ValueLE(bits) == 0;
  }

  /** Whoever finds another leaf or path with the tree's root has found two inputs with one hash. */
  lemma {:induction false} PathBinds(h: Hasher, leaves: seq<Leaf>, bits: seq<bool>, leaf: Leaf, path: seq<nat>)
    returns (a: seq<nat>, b: seq<nat>)
    requires |leaves| == Pow(2, |bits|) && |path| == |bits|
    requires RootFrom(h, leaf, bits, path) == Root(h, leaves, |bits|)
    ensures (leaf == LeafAt(leaves, bits) && path == AuditPath(h, leaves, bits)) || Collide(h, a, b)
    decreases |bits|
  {
    hide *;
    if bits == [] {
      a, b := leaf, LeafAt(leaves, bits);
      LoneLeaf(h, leaves, bits, leaf, path);
    } else {
      var n := |bits| - 1;
      var half, other := Half(leaves, bits[n], n + 1), Half(leaves, !bits[n], n + 1);
      var below := RootFrom(h, leaf, bits[..n], path[..n]);
      OneLevelDown(h, leaves, bits, leaf, path);
      if below == Root(h, half, n) && path[n] == Root(h, other, n) {
        a, b := PathBinds(h, half, bits[..n], leaf, path[..n]);
        assert path == path[..n] + [path[n]];
      } else {
        a, b := ChildrenCollide(h, bits[n], below, path[n], Root(h, half, n), Root(h, other, n));
      }
    }
  }

  ghost predicate Injective(h: Hasher) {
    forall a, b :: h(a) == h(b) ==> a == b
  }

  lemma PathIsOwn(h: Hasher, leaves: seq<Leaf>, bits: seq<bool>, leaf: Leaf, path: seq<nat>)
    requires Injective(h) && |leaves| == Pow(2, |bits|) && |path| == |bits|
    requires RootFrom(h, leaf, bits, path) == Root(h, leaves, |bits|)
    ensures leaf == LeafAt(leaves, bits) && path == AuditPath(h, leaves, bits)
  {
    var a, b := PathBinds(h, leaves, bits, leaf, path);
  }

  /** Only the low bits of the index count, as many as the path is long. */
  method AllocateMerkleRoot(h: Hasher, leaf: Leaf, index: seq<bool>, path: seq<nat>) returns (root: nat)
    requires |index| >= |path|
    ensures root == RootFrom(h, leaf, index[..|path|], path)
  {
    var bits := index[..|path|];
    root := h(leaf);
    for i := 0 to |bits|
      invariant root == RootFrom(h, leaf, bits[..i], path[..i])
    {
      assert bits[..i + 1][..i] == bits[..i] && path[..i + 1][..i] == path[..i];
      var left, right := root, path[i];
      if bits[i] {
        left, right := right, left;
      }
      root := h([left, right]);
    }
    assert bits[..|bits|] == bits && path[..|bits|] == path;
  }

  // ---------- The rolling root ----------

  /** One chunk of a block: the account leaf before and after it, its index and its audit path. */
  datatype Update = Update(bits: seq<bool>, path: seq<nat>, before: Leaf, after: Leaf)

  predicate Deep(updates: seq<Update>, depth: nat) {
    forall i | 0 <= i < |updates| :: |updates[i].bits| == |updates[i].path| == depth
  }

  /** None when some chunk's root before it is not the rolling root. */
  function Roll(h: Hasher, root: nat, updates: seq<Update>, depth: nat): Option<nat>
    requires Deep(updates, depth)
  {
    if updates == [] then Some(root) else
    var n := |updates| - 1;
    var u := updates[n];
    match Roll(h, root, updates[..n], depth)
    case None => None
    case Some(rolling) =>
      if RootFrom(h, u.before, u.bits, u.path) == rolling then Some(RootFrom(h, u.after, u.bits, u.path)) else None
  }

  method RollingRoot(h: Hasher, oldRoot: nat, updates: seq<Update>, depth: nat) returns (r: Option<nat>)
    requires Deep(updates, depth)
    ensures r == Roll(h, oldRoot, updates, depth)
  {
    var rolling := oldRoot;
    for i := 0 to |updates|
      invariant Roll(h, oldRoot, updates[..i], depth) == Some(rolling)
    {
      var u := updates[i];
      assert updates[..i + 1][..i] == updates[..i];
      assert u.bits[..depth] == u.bits;
      var stateRoot := AllocateMerkleRoot(h, u.before, u.bits, u.path);
      if stateRoot != rolling {
        RollStops(h, oldRoot, updates, i + 1, depth);
        return None;
      }
      rolling := AllocateMerkleRoot(h, u.after, u.bits, u.path);
    }
    assert updates[..|updates|] == updates;
    r := Some(rolling);
  }

  lemma {:induction false} RollStops(h: Hasher, root: nat, updates: seq<Update>, k: nat, depth: nat)
    requires Deep(updates, depth) && k <= |updates| && Roll(h, root, updates[..k], depth).None?
    ensures Roll(h, root, updates, depth).None?
    decreases |updates| - k
  {
    if k == |updates| {
      assert updates[..k] == updates;
    } else {
      assert updates[..k + 1][..k] == updates[..k];
      RollStops(h, root, updates, k + 1, depth);
    }
  }

  /** The leaves after the updates, in order. */
  function Updated(leaves: seq<Leaf>, updates: seq<Update>, depth: nat): (r: seq<Leaf>)
    requires |leaves| == Pow(2, depth) && Deep(updates, depth)
    ensures |r| == |leaves|
  {
    if updates == [] then leaves else
    var u := updates[|updates| - 1];
    SetLeaf(Updated(leaves, updates[..|updates| - 1], depth), u.bits, u.after)
  }

  /** Every update names the leaf that is there when its turn comes, with its path. */
  predicate Honest(h: Hasher, leaves: seq<Leaf>, updates: seq<Update>, depth: nat)
    requires |leaves| == Pow(2, depth) && Deep(updates, depth)
  {
    updates == [] ||
    (var n := |updates| - 1;
     var u, now := updates[n], Updated(leaves, updates[..n], depth);
     && Honest(h, leaves, updates[..n], depth)
     && u.before == LeafAt(now, u.bits) && u.path == AuditPath(h, now, u.bits))
  }

  /** Updates that check out are honest and the rolling root is that of the updated tree, or a collision was found. */
  lemma {:induction false} RollingIsSound(h: Hasher, leaves: seq<Leaf>, updates: seq<Update>, depth: nat)
    returns (a: seq<nat>, b: seq<nat>)
    requires |leaves| == Pow(2, depth) && Deep(updates, depth)
    requires Roll(h, Root(h, leaves, depth), updates, depth).Some?
    ensures Collide(h, a, b) ||
            (&& Honest(h, leaves, updates, depth)
             && Roll(h, Root(h, leaves, depth), updates, depth) ==
                Some(Root(h, Updated(leaves, updates, depth), depth)))
  {
    a, b := [], [];
    if updates != [] {
      hide Root, RootFrom, AuditPath, LeafAt, SetLeaf, Pow;
      var n := |updates| - 1;
      var u := updates[n];
      a, b := RollingIsSound(h, leaves, updates[..n], depth);
      if !Collide(h, a, b) {
        var now := Updated(leaves, updates[..n], depth);
        a, b := PathBinds(h, now, u.bits, u.before, u.path);
        PathGivesRoot(h, now, u.bits, u.after);
      }
    }
  }

  lemma {:induction false} RollingIsComplete(h: Hasher, leaves: seq<Leaf>, updates: seq<Update>, depth: nat)
    requires |leaves| == Pow(2, depth) && Deep(updates, depth) && Honest(h, leaves, updates, depth)
    ensures Roll(h, Root(h, leaves, depth), updates, depth) == Some(Root(h, Updated(leaves, updates, depth), depth))
  {
    if updates != [] {
      hide Root, RootFrom, AuditPath, LeafAt, SetLeaf, Pow;
      var n := |updates| - 1;
      var u := updates[n];
      RollingIsComplete(h, leaves, updates[..n], depth);
      var now := Updated(leaves, updates[..n], depth);
      OwnPathGivesRoot(h, now, u.bits);
      PathGivesRoot(h, now, u.bits, u.after);
    }
  }

  /** Under an injective hash the circuit accepts exactly the honest updates. */
  lemma RollingExactly(h: Hasher, leaves: seq<Leaf>, updates: seq<Update>, depth: nat)
    requires Injective(h) && |leaves| == Pow(2, depth) && Deep(updates, depth)
    ensures Roll(h, Root(h, leaves, depth), updates, depth) ==
            if Honest(h, leaves, updates, depth) then Some(Root(h, Updated(leaves, updates, depth), depth)) else None
  {
    hide Root, Roll, Updated, Honest;
    if Honest(h, leaves, updates, depth) {
      RollingIsComplete(h, leaves, updates, depth);
    } else if Roll(h, Root(h, leaves, depth), updates, depth).Some? {
      var a, b := RollingIsSound(h, leaves, updates, depth);
    }
  }

  // ---------- Level by level ----------

  /** Hash neighbours in pairs; a last one without a neighbour is hashed alone. */
  function LevelUp(h: Hasher, nodes: seq<nat>): seq<nat> {
    seq((|nodes| + 1) / 2, j requires 0 <= j < (|nodes| + 1) / 2 =>
      if 2 * j + 1 < |nodes| then h([nodes[2 * j], nodes[2 * j + 1]]) else h([nodes[2 * j]]))
  }

  function Levels(h: Hasher, nodes: seq<nat>, depth: nat): seq<nat> {
    if depth == 0 then nodes else LevelUp(h, Levels(h, nodes, depth - 1))
  }

  lemma LevelOfHalves(h: Hasher, left: seq<nat>, right: seq<nat>)
    requires |left| % 2 == 0
    ensures LevelUp(h, left + right) == LevelUp(h, left) + LevelUp(h, right)
  {
    var all := left + right;
    assert (|all| + 1) / 2 == |left| / 2 + (|right| + 1) / 2;
    forall j | 0 <= j < (|right| + 1) / 2 ensures LevelUp(h, all)[|left| / 2 + j] == LevelUp(h, right)[j] {
      assert all[2 * (|left| / 2 + j)] == right[2 * j];
      assert 2 * j + 1 < |right| ==> all[2 * (|left| / 2 + j) + 1] == right[2 * j + 1];
    }
  }

  lemma LevelHalvesLength(h: Hasher, nodes: seq<nat>, depth: nat)
    requires depth > 0 && |nodes| == Pow(2, depth)
    ensures |nodes| % 2 == 0 && |LevelUp(h, nodes)| == Pow(2, depth - 1)
  {
    assert Pow(2, depth) == 2 * Pow(2, depth - 1);
  }

  /** Whole levels of two halves stay apart for as long as the halves have whole levels. */
  lemma {:induction false} LevelsOfHalves(h: Hasher, left: seq<nat>, right: seq<nat>, levels: nat, depth: nat)
    requires levels <= depth && |left| == |right| == Pow(2, depth)
    ensures Levels(h, left + right, levels) == Levels(h, left, levels) + Levels(h, right, levels)
    ensures |Levels(h, left, levels)| == |Levels(h, right, levels)| == Pow(2, depth - levels)
  {
    hide LevelUp, Pow;
    if levels > 0 {
      LevelsOfHalves(h, left, right, levels - 1, depth);
      var below, beside := Levels(h, left, levels - 1), Levels(h, right, levels - 1);
      LevelHalvesLength(h, below, depth - levels + 1);
      LevelHalvesLength(h, beside, depth - levels + 1);
      LevelOfHalves(h, below, beside);
    }
  }

  /** Over a full level of nodes the loop ends with the root, and nothing else. */
  lemma {:induction false} LevelsGiveRoot(h: Hasher, nodes: seq<nat>, depth: nat)
    requires |nodes| == Pow(2, depth)
    ensures Levels(h, nodes, depth) == [NodeRoot(h, nodes, depth)]
  {
    if depth == 0 {
      assert nodes == [nodes[0]];
    } else {
      var half := Pow(2, depth - 1);
      assert nodes == nodes[..half] + nodes[half..];
      LevelsOfHalves(h, nodes[..half], nodes[half..], depth - 1, depth - 1);
      LevelsGiveRoot(h, nodes[..half], depth - 1);
      LevelsGiveRoot(h, nodes[half..], depth - 1);
    }
  }

  method HashLevel(h: Hasher, nodes: seq<nat>) returns (above: seq<nat>)
    ensures above == LevelUp(h, nodes)
  {
    above := [];
    for j := 0 to (|nodes| + 1) / 2
      invariant above == LevelUp(h, nodes)[..j]
    {
      var chunk;
      if 2 * j + 1 < |nodes| {
        chunk := nodes[2 * j..2 * j + 2];
        assert chunk == [nodes[2 * j], nodes[2 * j + 1]];
      } else {
        chunk := nodes[2 * j..];
        assert chunk == [nodes[2 * j]];
      }
      above := above + [h(chunk)];
    }
  }

  /** None when the levels do not end in a single node, on which the source aborts. */
  method RootFromFullRepresentation(h: Hasher, fees: seq<nat>, depth: nat) returns (root: Option<nat>)
    ensures var leaves := seq(|fees|, i requires 0 <= i < |fees| => [fees[i]]);
            && (root.Some? <==> |Levels(h, LeafHashes(h, leaves), depth)| == 1)
            && (root.Some? ==> Levels(h, LeafHashes(h, leaves), depth) == [root.value])
            && (|fees| == Pow(2, depth) ==> root == Some(Root(h, leaves, depth)))
  {
    ghost var leaves: seq<Leaf> := seq(|fees|, i requires 0 <= i < |fees| => [fees[i]]);
    var hashes := [];
    for i := 0 to |fees|
      invariant hashes == LeafHashes(h, leaves)[..i]
    {
      hashes := hashes + [h([fees[i]])];
    }
    ghost var bottom := hashes;
    assert bottom == LeafHashes(h, leaves);
    for i := 0 to depth
      invariant hashes == Levels(h, bottom, i)
    {
      hashes := HashLevel(h, hashes);
    }
    if |fees| == Pow(2, depth) {
      LevelsGiveRoot(h, bottom, depth);
    }
    root := if |hashes| == 1 then Some(hashes[0]) else None;
  }

  /** The level-by-level root is also the root from any single leaf with its audit path. */
  lemma LevelsGiveRootFromAnyLeaf(h: Hasher, leaves: seq<Leaf>, bits: seq<bool>)
    requires |leaves| == Pow(2, |bits|)
    ensures Levels(h, LeafHashes(h, leaves), |bits|) ==
            [RootFrom(h, LeafAt(leaves, bits), bits, AuditPath(h, leaves, bits))]
  {
    LevelsGiveRoot(h, LeafHashes(h, leaves), |bits|);
    OwnPathGivesRoot(h, leaves, bits);
  }
}
