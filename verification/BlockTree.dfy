/** The block tree: every block names its parent, and a chain is the ancestors of one tip.
    That a hash settles its whole past is a lemma here, not an assumption. */
module BlockTree {
  import opened Prelude
  import Hex

  type Hash = string

  datatype Node = Node(height: nat, parent: Hash, raw: Bytes)

  type Tree = map<Hash, Node>

  /** Heights count down to a root along parents, and names are in RPC form. */
  ghost predicate WellFormed(tree: Tree) {
    && (forall x :: x in tree ==> Hex.IsHash(x))
    && (forall x {:trigger tree[x].parent} :: x in tree && tree[x].height > 0 ==>
          tree[x].parent in tree && tree[tree[x].parent].height == tree[x].height - 1)
  }

  /** The ancestors of tip, from its root up to tip itself. */
  ghost function ChainOf(tree: Tree, tip: Hash): (chain: seq<Hash>)
    requires WellFormed(tree) && tip in tree
    ensures |chain| == tree[tip].height + 1
    decreases tree[tip].height
  {
    if tree[tip].height == 0 then [tip] else ChainOf(tree, tree[tip].parent) + [tip]
  }

  /** A chain, said link by link. */
  ghost predicate IsChain(tree: Tree, chain: seq<Hash>) {
    && |chain| > 0
    && (forall i :: 0 <= i < |chain| ==> chain[i] in tree && tree[chain[i]].height == i)
    && (forall i {:trigger tree[chain[i]].parent} :: 0 < i < |chain| ==> tree[chain[i]].parent == chain[i - 1])
  }

  lemma {:induction false} ChainOfIsChain(tree: Tree, tip: Hash)
    requires WellFormed(tree) && tip in tree
    ensures IsChain(tree, ChainOf(tree, tip))
    ensures ChainOf(tree, tip)[tree[tip].height] == tip
    decreases tree[tip].height
  {
    if tree[tip].height > 0 {
      ChainOfIsChain(tree, tree[tip].parent);
    }
  }

  /** The links leave no choice: a chain is the ancestors of its last block. */
  lemma {:induction false} ChainIsChainOf(tree: Tree, chain: seq<Hash>)
    requires WellFormed(tree) && IsChain(tree, chain)
    ensures chain == ChainOf(tree, chain[|chain| - 1])
    decreases |chain|
  {
    if |chain| > 1 {
      var shorter := chain[..|chain| - 1];
      ChainIsChainOf(tree, shorter);
      assert chain == shorter + [chain[|chain| - 1]];
    }
  }

  lemma ChainPrefix(tree: Tree, chain: seq<Hash>, h: nat)
    requires IsChain(tree, chain) && h < |chain|
    ensures IsChain(tree, chain[..h + 1])
  {
  }

  /** Chains that agree at one height agree at every height below it. */
  lemma SameHashSamePast(tree: Tree, a: seq<Hash>, b: seq<Hash>, h: nat)
    requires WellFormed(tree) && IsChain(tree, a) && IsChain(tree, b)
    requires h < |a| && h < |b| && a[h] == b[h]
    ensures a[..h + 1] == b[..h + 1]
  {
    ChainPrefix(tree, a, h);
    ChainPrefix(tree, b, h);
    ChainIsChainOf(tree, a[..h + 1]);
    ChainIsChainOf(tree, b[..h + 1]);
  }
}
