/**
 * The outline sidebar's tree (`OutlineNode.buildTree`): headings arrive as a
 * flat list in document order and are nested strictly by level. Any heading
 * deeper than the current level becomes a child, so skipped levels nest too.
 */
module OutlineTree {
  import HeadingExtractor

  type OutlineHeading = HeadingExtractor.OutlineHeading

  datatype OutlineNode = OutlineNode(heading: OutlineHeading, children: seq<OutlineNode>)

  /** Pre-order listing of a forest. */
  function Flatten(ns: seq<OutlineNode>): seq<OutlineHeading>
    decreases ns
  {
    if ns == [] then [] else [ns[0].heading] + Flatten(ns[0].children) + Flatten(ns[1..])
  }

  /** Every node is deeper than `parentLevel`, and every child deeper than its parent. */
  predicate Nested(ns: seq<OutlineNode>, parentLevel: int)
    decreases ns
  {
    ns != [] ==>
      && ns[0].heading.level > parentLevel
      && Nested(ns[0].children, ns[0].heading.level)
      && Nested(ns[1..], parentLevel)
  }

  /** All headings of `hs[i..j]` are deeper than `level`. */
  predicate Deeper(hs: seq<OutlineHeading>, i: nat, j: nat, level: int)
    requires i <= j <= |hs|
  {
    forall k :: i <= k < j ==> hs[k].level > level
  }

  /**
   * `buildLevel(headings:index:parentLevel:)`: the nodes of one level,
   * starting at index `i`, and the index where the level ends. The level
   * takes the maximal run of headings deeper than `parentLevel`; each node's
   * children are built from the headings right after it.
   */
  function BuildLevel(hs: seq<OutlineHeading>, i: nat, parentLevel: int): (r: (seq<OutlineNode>, nat))
    requires i <= |hs|
    ensures i <= r.1 <= |hs|
    ensures Flatten(r.0) == hs[i..r.1]
    ensures Deeper(hs, i, r.1, parentLevel)
    ensures r.1 == |hs| || hs[r.1].level <= parentLevel
    ensures Nested(r.0, parentLevel)
    decreases |hs| - i
  {
    if i == |hs| || hs[i].level <= parentLevel then ([], i)
    else
      var h := hs[i];
      var (children, j) := BuildLevel(hs, i + 1, h.level);
      var (rest, k) := BuildLevel(hs, j, parentLevel);
      LevelStep(hs, i, j, k, parentLevel, children, rest);
      ([OutlineNode(h, children)] + rest, k)
  }

  /** One iteration of the level loop: a node, its children, then the rest of the level. */
  lemma LevelStep(hs: seq<OutlineHeading>, i: nat, j: nat, k: nat, parentLevel: int,
                  children: seq<OutlineNode>, rest: seq<OutlineNode>)
    requires i < j <= k <= |hs| && hs[i].level > parentLevel
    requires Flatten(children) == hs[i + 1..j] && Deeper(hs, i + 1, j, hs[i].level)
    requires Nested(children, hs[i].level)
    requires Flatten(rest) == hs[j..k] && Deeper(hs, j, k, parentLevel) && Nested(rest, parentLevel)
    ensures Flatten([OutlineNode(hs[i], children)] + rest) == hs[i..k]
    ensures Deeper(hs, i, k, parentLevel)
    ensures Nested([OutlineNode(hs[i], children)] + rest, parentLevel)
  {
    var ns := [OutlineNode(hs[i], children)] + rest;
    assert ns[0] == OutlineNode(hs[i], children) && ns[1..] == rest;
    assert hs[i..k] == [hs[i]] + hs[i + 1..j] + hs[j..k];
  }

  /** `buildTree(from:)`: the top level, under an imaginary level-0 parent. */
  function BuildTree(hs: seq<OutlineHeading>): seq<OutlineNode> {
    BuildLevel(hs, 0, 0).0
  }

  // ----- Properties -----

  /**
   * When every heading has a level of at least 1, the pre-order listing of
   * the tree is the input, and every child is deeper than its parent.
   */
  lemma BuildTreeFlatten(hs: seq<OutlineHeading>)
    requires forall k :: 0 <= k < |hs| ==> hs[k].level >= 1
    ensures Flatten(BuildTree(hs)) == hs
    ensures Nested(BuildTree(hs), 0)
  {
    var r := BuildLevel(hs, 0, 0);
    assert hs[0..|hs|] == hs;
  }

  /** Where the run of headings deeper than `level` that starts at `i` ends. */
  function RunEnd(hs: seq<OutlineHeading>, i: nat, level: int): (j: nat)
    requires i <= |hs|
    ensures i <= j <= |hs|
    decreases |hs| - i
  {
    if i == |hs| || hs[i].level <= level then i else RunEnd(hs, i + 1, level)
  }

  /** A run end is the first index at or above `level`: any such index that only deeper headings precede is it. */
  lemma {:induction false} RunEndUnique(hs: seq<OutlineHeading>, i: nat, j: nat, level: int)
    requires i <= j <= |hs| && Deeper(hs, i, j, level) && (j == |hs| || hs[j].level <= level)
    ensures RunEnd(hs, i, level) == j
    decreases j - i
  {
    if i < j {
      RunEndUnique(hs, i + 1, j, level);
    }
  }

  /**
   * Read in pre-order from index `i`, each node of `ns` is the next heading,
   * and its children list exactly the run of headings after it that are
   * deeper than it, up to the first at its level or above.
   */
  predicate ChildrenAreRuns(ns: seq<OutlineNode>, hs: seq<OutlineHeading>, i: nat)
    requires i <= |hs|
    decreases ns
  {
    ns != [] ==>
      && i < |hs|
      && ns[0].heading == hs[i]
      && var j := RunEnd(hs, i + 1, hs[i].level);
        && Flatten(ns[0].children) == hs[i + 1..j]
        && ChildrenAreRuns(ns[0].children, hs, i + 1)
        && ChildrenAreRuns(ns[1..], hs, j)
  }

  lemma {:induction false} LevelRuns(hs: seq<OutlineHeading>, i: nat, parentLevel: int)
    requires i <= |hs|
    ensures ChildrenAreRuns(BuildLevel(hs, i, parentLevel).0, hs, i)
    decreases |hs| - i
  {
    if !(i == |hs| || hs[i].level <= parentLevel) {
      var (children, j) := BuildLevel(hs, i + 1, hs[i].level);
      var (rest, k) := BuildLevel(hs, j, parentLevel);
      RunEndUnique(hs, i + 1, j, hs[i].level);
      LevelRuns(hs, i + 1, hs[i].level);
      LevelRuns(hs, j, parentLevel);
      var ns := [OutlineNode(hs[i], children)] + rest;
      assert BuildLevel(hs, i, parentLevel).0 == ns;
      assert ns[0] == OutlineNode(hs[i], children) && ns[1..] == rest;
    }
  }

  /**
   * In the whole tree, a node's children are exactly the maximal run of
   * following headings deeper than it: they end at the first heading at its
   * level or above.
   */
  lemma TreeChildrenAreRuns(hs: seq<OutlineHeading>)
    ensures ChildrenAreRuns(BuildTree(hs), hs, 0)
  {
    LevelRuns(hs, 0, 0);
  }

  /** An empty list gives an empty tree. */
  lemma BuildTreeEmpty()
    ensures BuildTree([]) == []
  {
  }

  /** An h3 right after an h1 becomes the h1's child. */
  lemma SkippedLevelNests(a: OutlineHeading, b: OutlineHeading)
    requires a.level == 1 && b.level == 3
    ensures BuildTree([a, b]) == [OutlineNode(a, [OutlineNode(b, [])])]
  {
    var hs := [a, b];
    assert BuildLevel(hs, 2, 3) == ([], 2);
    assert BuildLevel(hs, 2, 1) == ([], 2);
    assert [OutlineNode(b, [])] + [] == [OutlineNode(b, [])];
    assert BuildLevel(hs, 1, 1) == ([OutlineNode(b, [])], 2);
    assert [OutlineNode(a, [OutlineNode(b, [])])] + [] == [OutlineNode(a, [OutlineNode(b, [])])];
    assert BuildLevel(hs, 2, 0) == ([], 2);
  }

  /** Two headings of the same level are siblings. */
  lemma SameLevelSiblings(a: OutlineHeading, b: OutlineHeading)
    requires a.level >= 1 && a.level == b.level
    ensures BuildTree([a, b]) == [OutlineNode(a, []), OutlineNode(b, [])]
  {
    var hs := [a, b];
    assert BuildLevel(hs, 1, a.level) == ([], 1);
    assert BuildLevel(hs, 2, b.level) == ([], 2);
    assert BuildLevel(hs, 2, 0) == ([], 2);
    assert [OutlineNode(b, [])] + [] == [OutlineNode(b, [])];
    assert BuildLevel(hs, 1, 0) == ([OutlineNode(b, [])], 2);
  }
}
