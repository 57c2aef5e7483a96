/**
 The shape of a binary hash tree, for any two-child hash `c` on any type of node: levels built by pairing
 neighbours, the same tree read from the top, and paths of siblings.
 */
module PairTree {

  type Combine<!T> = (T, T) -> T

  // ----- Levels -----

  /** Right child of pair `i`: an odd trailing node is its own sibling. */
  function RightOf<T>(level: seq<T>, i: nat): T
    requires 2 * i < |level|
  {
    if 2 * i + 1 < |level| then level[2 * i + 1] else level[2 * i]
  }

  function NextLevel<T>(c: Combine<T>, level: seq<T>): (next: seq<T>)
    ensures |next| == (|level| + 1) / 2
  {
    if level == [] then []
    else if |level| == 1 then [c(level[0], level[0])]
    else [c(level[0], level[1])] + NextLevel(c, level[2..])
  }

  lemma {:induction false} NextLevelAt<T>(c: Combine<T>, level: seq<T>, i: nat)
    requires 2 * i < |level|
    ensures NextLevel(c, level)[i] == c(level[2 * i], RightOf(level, i))
  {
    if i > 0 {
      NextLevelAt(c, level[2..], i - 1);
      assert RightOf(level[2..], i - 1) == RightOf(level, i);
    }
  }

  /** Level `k` above the leaves. */
  function Level<T>(c: Combine<T>, leaves: seq<T>, k: nat): (level: seq<T>)
    requires leaves != []
    ensures level != []
  {
    if k == 0 then leaves else NextLevel(c, Level(c, leaves, k - 1))
  }

  function Depth(n: nat): nat {
    if n <= 1 then 0 else 1 + Depth((n + 1) / 2)
  }

  function Root<T>(c: Combine<T>, leaves: seq<T>): T
    requires leaves != []
    decreases |leaves|
  {
    if |leaves| == 1 then leaves[0] else Root(c, NextLevel(c, leaves))
  }

  function Pow2(k: nat): (p: nat)
    ensures p >= 1
  {
    if k == 0 then 1 else 2 * Pow2(k - 1)
  }

  /** `Depth` is the rounded-up binary logarithm. */
  lemma {:induction false} DepthIsCeilLog2(n: nat)
    requires n >= 1
    ensures n <= Pow2(Depth(n))
    ensures n > 1 ==> Pow2(Depth(n) - 1) < n
  {
    if n > 1 {
      var m := (n + 1) / 2;
      DepthIsCeilLog2(m);
      assert Depth(n) == 1 + Depth(m) && 2 * m <= n + 1;
      if m > 1 { assert Pow2(Depth(m)) == 2 * Pow2(Depth(m) - 1); }
    }
  }

  lemma {:induction false} LevelShift<T>(c: Combine<T>, leaves: seq<T>, k: nat)
    requires leaves != []
    ensures Level(c, NextLevel(c, leaves), k) == Level(c, leaves, k + 1)
  {
    if k > 0 { LevelShift(c, leaves, k - 1); }
  }

  lemma {:induction false} RootIsTopLevel<T>(c: Combine<T>, leaves: seq<T>)
    requires leaves != []
    ensures Level(c, leaves, Depth(|leaves|)) == [Root(c, leaves)]
    decreases |leaves|
  {
    if |leaves| > 1 {
      RootIsTopLevel(c, NextLevel(c, leaves));
      LevelShift(c, leaves, Depth(|NextLevel(c, leaves)|));
    }
  }

  // ----- The tree read from the top -----

  /**
   Split after the first 2^(d-1) leaves; when nothing lies to the right of the split, the left subtree is
   combined with itself.
   */
  function TopDown<T>(c: Combine<T>, leaves: seq<T>, d: nat): T
    requires 1 <= |leaves| <= Pow2(d)
    decreases d
  {
    if d == 0 then leaves[0]
    else
      var half := Pow2(d - 1);
      if |leaves| <= half then
        var left := TopDown(c, leaves, d - 1);
        c(left, left)
      else
        c(TopDown(c, leaves[..half], d - 1), TopDown(c, leaves[half..], d - 1))
  }

  function Min(a: nat, b: nat): nat { if a < b then a else b }

  /** `i` doubled `k` times: the first leaf below node `i` of level `k`. */
  function Start(i: nat, k: nat): nat
    decreases k
  {
    if k == 0 then i else Start(2 * i, k - 1)
  }

  lemma {:induction false} StartNext(i: nat, k: nat)
    ensures Start(i + 1, k) == Start(i, k) + Pow2(k)
    decreases k
  {
    if k > 0 {
      StartNext(2 * i, k - 1);
      StartNext(2 * i + 1, k - 1);
    }
  }

  /** The leaves below node `i` of level `k`. */
  function Below<T>(leaves: seq<T>, k: nat, i: nat): seq<T>
    requires Start(i, k) < |leaves|
  {
    leaves[Start(i, k)..Min(Start(i, k) + Pow2(k), |leaves|)]
  }

  lemma {:induction false} LevelWidth<T>(c: Combine<T>, leaves: seq<T>, k: nat, i: nat)
    requires leaves != []
    ensures i < |Level(c, leaves, k)| <==> Start(i, k) < |leaves|
  {
    if k > 0 { LevelWidth(c, leaves, k - 1, 2 * i); }
  }

  /** Splitting the leaves below a node at 2^(k-1) gives the leaves below its children. */
  lemma BelowSplits<T>(leaves: seq<T>, k: nat, i: nat)
    requires k > 0 && Start(i, k) < |leaves|
    ensures Start(2 * i, k - 1) == Start(i, k)
    ensures Start(2 * i + 1, k - 1) < |leaves| ==>
              var all, half := Below(leaves, k, i), Pow2(k - 1);
              |all| > half && all[..half] == Below(leaves, k - 1, 2 * i)
              && all[half..] == Below(leaves, k - 1, 2 * i + 1)
    ensures Start(2 * i + 1, k - 1) >= |leaves| ==>
              |Below(leaves, k, i)| <= Pow2(k - 1) && Below(leaves, k, i) == Below(leaves, k - 1, 2 * i)
  {
    assert Start(i, k) == Start(2 * i, k - 1);
    StartNext(2 * i, k - 1);
  }

  /** One induction step of `NodeIsTopDown`: `below` is level `k - 1`, and `node` was hashed from pair `i` of it. */
  lemma NodeOverChildren<T>(c: Combine<T>, leaves: seq<T>, k: nat, i: nat, below: seq<T>, node: T)
    requires k > 0 && 2 * i < |below| && Start(i, k) < |leaves|
    requires 2 * i + 1 < |below| <==> Start(2 * i + 1, k - 1) < |leaves|
    requires node == c(below[2 * i], RightOf(below, i))
    requires below[2 * i] == TopDown(c, Below(leaves, k - 1, 2 * i), k - 1)
    requires 2 * i + 1 < |below| ==> below[2 * i + 1] == TopDown(c, Below(leaves, k - 1, 2 * i + 1), k - 1)
    ensures node == TopDown(c, Below(leaves, k, i), k)
  {
    BelowSplits(leaves, k, i);
  }

  /** Every node of every level is the recursive tree over the leaves below it. */
  lemma {:induction false} NodeIsTopDown<T>(c: Combine<T>, leaves: seq<T>, k: nat, i: nat)
    requires leaves != [] && i < |Level(c, leaves, k)|
    ensures Start(i, k) < |leaves| && Level(c, leaves, k)[i] == TopDown(c, Below(leaves, k, i), k)
  {
    LevelWidth(c, leaves, k, i);
    if k > 0 {
      var below := Level(c, leaves, k - 1);
      NextLevelAt(c, below, i);
      LevelWidth(c, leaves, k - 1, 2 * i + 1);
      NodeIsTopDown(c, leaves, k - 1, 2 * i);
      if 2 * i + 1 < |below| {
        NodeIsTopDown(c, leaves, k - 1, 2 * i + 1);
      }
      NodeOverChildren(c, leaves, k, i, below, Level(c, leaves, k)[i]);
    } else {
      assert Below(leaves, 0, i) == [leaves[i]];
    }
  }

  lemma {:induction false} StartOfRoot(d: nat)
    ensures Start(0, d) == 0
  {
    if d > 0 { StartOfRoot(d - 1); }
  }

  /** Level-by-level building computes the recursive tree, for every number of leaves. */
  lemma RootIsTopDown<T>(c: Combine<T>, leaves: seq<T>)
    requires leaves != []
    ensures |leaves| <= Pow2(Depth(|leaves|))
    ensures Root(c, leaves) == TopDown(c, leaves, Depth(|leaves|))
  {
    var d := Depth(|leaves|);
    DepthIsCeilLog2(|leaves|);
    RootIsTopLevel(c, leaves);
    NodeIsTopDown(c, leaves, d, 0);
    StartOfRoot(d);
    assert Below(leaves, d, 0) == leaves;
  }

  /** Repeating the last leaf of an odd list of at least three leaves does not change the root. */
  lemma RepeatedLastLeafKeepsRoot<T>(c: Combine<T>, leaves: seq<T>)
    requires |leaves| >= 3 && |leaves| % 2 == 1
    ensures Root(c, leaves + [leaves[|leaves| - 1]]) == Root(c, leaves)
  {
    var longer := leaves + [leaves[|leaves| - 1]];
    forall i | 0 <= i < |NextLevel(c, leaves)|
      ensures NextLevel(c, longer)[i] == NextLevel(c, leaves)[i]
    {
      NextLevelAt(c, longer, i);
      NextLevelAt(c, leaves, i);
    }
    assert NextLevel(c, longer) == NextLevel(c, leaves);
  }

  // ----- Paths of siblings -----

  /** A leaf combined with each element of a path in turn. */
  function Climb<T>(c: Combine<T>, leaf: T, path: seq<T>): T {
    if path == [] then leaf
    else c(Climb(c, leaf, path[..|path| - 1]), path[|path| - 1])
  }

  lemma ClimbOneMore<T>(c: Combine<T>, leaf: T, path: seq<T>, last: T)
    ensures Climb(c, leaf, path + [last]) == c(Climb(c, leaf, path), last)
  {
    assert (path + [last])[..|path|] == path;
  }

  function Sibling<T>(level: seq<T>, i: nat): T
    requires i < |level|
  {
    if i % 2 == 0 then RightOf(level, i / 2) else level[i - 1]
  }

  /** `i` halved `k` times: the ancestor of leaf `i` on level `k`. */
  function Ancestor(i: nat, k: nat): nat {
    if k == 0 then i else Ancestor(i, k - 1) / 2
  }

  lemma {:induction false} AncestorInLevel<T>(c: Combine<T>, leaves: seq<T>, i: nat, k: nat)
    requires i < |leaves|
    ensures Ancestor(i, k) < |Level(c, leaves, k)|
  {
    if k > 0 { AncestorInLevel(c, leaves, i, k - 1); }
  }

  /** Siblings met on the way from leaf `i` up to level `k`. */
  function Siblings<T>(c: Combine<T>, leaves: seq<T>, i: nat, k: nat): (path: seq<T>)
    requires i < |leaves|
    ensures |path| == k
  {
    if k == 0 then []
    else
      AncestorInLevel(c, leaves, i, k - 1);
      Siblings(c, leaves, i, k - 1) + [Sibling(Level(c, leaves, k - 1), Ancestor(i, k - 1))]
  }

  ghost predicate Commutes<T(!new)>(c: Combine<T>) {
    forall a, b :: c(a, b) == c(b, a)
  }

  /** A node combined with its sibling, in either order, is its parent. */
  lemma CombineWithSibling<T(!new)>(c: Combine<T>, level: seq<T>, j: nat)
    requires Commutes(c) && j < |level|
    ensures j / 2 < |NextLevel(c, level)|
    ensures c(level[j], Sibling(level, j)) == NextLevel(c, level)[j / 2]
  {
    NextLevelAt(c, level, j / 2);
  }

  /** Climbing the first `k` siblings of leaf `i` ends at its ancestor on level `k`. */
  lemma {:induction false} ClimbReachesAncestor<T(!new)>(c: Combine<T>, leaves: seq<T>, i: nat, k: nat)
    requires Commutes(c) && i < |leaves|
    ensures Ancestor(i, k) < |Level(c, leaves, k)|
    ensures Climb(c, leaves[i], Siblings(c, leaves, i, k)) == Level(c, leaves, k)[Ancestor(i, k)]
  {
    AncestorInLevel(c, leaves, i, k);
    if k > 0 {
      ClimbReachesAncestor(c, leaves, i, k - 1);
      var below, j := Level(c, leaves, k - 1), Ancestor(i, k - 1);
      CombineWithSibling(c, below, j);
      ClimbOneMore(c, leaves[i], Siblings(c, leaves, i, k - 1), Sibling(below, j));
    }
  }

  /** Completeness: the siblings of any leaf lead from it to the root. */
  lemma SiblingsLeadToRoot<T(!new)>(c: Combine<T>, leaves: seq<T>, i: nat)
    requires Commutes(c) && i < |leaves|
    ensures Climb(c, leaves[i], Siblings(c, leaves, i, Depth(|leaves|))) == Root(c, leaves)
  {
    ClimbReachesAncestor(c, leaves, i, Depth(|leaves|));
    RootIsTopLevel(c, leaves);
  }

  // ----- Walking a path back down -----

  /** Where a walk back down ends: at a node of the tree, or at two different pairs with one combination. */
  datatype Evidence<T> =
    | Node(index: nat)
    | Clash(a: T, b: T, a': T, b': T)

  predicate IsClash<T(==)>(c: Combine<T>, e: Evidence<T>) {
    && e.Clash?
    && c(e.a, e.b) == c(e.a', e.b')
    && !(e.a == e.a' && e.b == e.b') && !(e.a == e.b' && e.b == e.a')
  }

  /** One step down: the value before the last combination is a child of node `i`, or two pairs clash. */
  lemma DescendOnce<T>(c: Combine<T>, level: seq<T>, i: nat, current: T, sibling: T) returns (e: Evidence<T>)
    requires i < |NextLevel(c, level)| && c(current, sibling) == NextLevel(c, level)[i]
    ensures e.Clash? ==> IsClash(c, e)
    ensures e.Node? ==> e.index < |level| && level[e.index] == current
  {
    NextLevelAt(c, level, i);
    var left, right := level[2 * i], RightOf(level, i);
    if current == left {
      e := Node(2 * i);
    } else if current == right {
      e := Node(2 * i + 1);
    } else {
      e := Clash(current, sibling, left, right);
    }
  }

  /**
   Walks a climb that reached node `i` of level `k` back down its last `j` steps: the value before those steps
   is a node `j` levels further down, or two pairs clash.
   */
  lemma {:induction false} Descend<T>(c: Combine<T>, leaves: seq<T>, leaf: T, path: seq<T>, k: nat, i: nat, j: nat)
    returns (e: Evidence<T>)
    requires leaves != [] && j <= k && j <= |path|
    requires i < |Level(c, leaves, k)| && Climb(c, leaf, path) == Level(c, leaves, k)[i]
    ensures e.Clash? ==> IsClash(c, e)
    ensures e.Node? ==> e.index < |Level(c, leaves, k - j)|
    ensures e.Node? ==> Level(c, leaves, k - j)[e.index] == Climb(c, leaf, path[..|path| - j])
    decreases j
  {
    if j == 0 {
      assert path[..|path|] == path;
      e := Node(i);
    } else {
      var shorter := path[..|path| - 1];
      assert shorter[..|shorter| - (j - 1)] == path[..|path| - j];
      e := DescendOnce(c, Level(c, leaves, k - 1), i, Climb(c, leaf, shorter), path[|path| - 1]);
      if e.Node? {
        e := Descend(c, leaves, leaf, shorter, k - 1, e.index, j - 1);
      }
    }
  }

  /**
   A path that leads to the root, walked back as far as the tree goes: when it is no longer than the tree is
   deep its start is a node of the matching level, otherwise it passes through a leaf; or two pairs clash.
   */
  lemma PathFromRoot<T>(c: Combine<T>, leaves: seq<T>, leaf: T, path: seq<T>) returns (e: Evidence<T>)
    requires leaves != [] && Climb(c, leaf, path) == Root(c, leaves)
    ensures e.Clash? ==> IsClash(c, e)
    ensures e.Node? && |path| <= Depth(|leaves|) ==>
              e.index < |Level(c, leaves, Depth(|leaves|) - |path|)|
              && Level(c, leaves, Depth(|leaves|) - |path|)[e.index] == leaf
    ensures e.Node? && |path| >= Depth(|leaves|) ==>
              e.index < |leaves| && leaves[e.index] == Climb(c, leaf, path[..|path| - Depth(|leaves|)])
  {
    var d := Depth(|leaves|);
    RootIsTopLevel(c, leaves);
    if |path| <= d {
      e := Descend(c, leaves, leaf, path, d, 0, |path|);
      assert path[..0] == [];
    } else {
      e := Descend(c, leaves, leaf, path, d, 0, d);
    }
  }
}
