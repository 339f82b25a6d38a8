/**
 * List looseness for the Up renderer (`isLooseList`). Instead of the blank-line
 * rule of the Markdown grammar, the renderer looks at source lines: a list is
 * loose when a line is skipped between consecutive items, or between
 * consecutive blocks inside one item. Nodes without a source range are ignored.
 */
module UpLists {
  import opened Wrappers
  import opened Markup

  function StartLine(n: Node): int {
    if n.range.Some? then n.range.value.lower.line else 0
  }

  function EndLine(n: Node): int {
    if n.range.Some? then n.range.value.upper.line else 0
  }

  /**
   * Where an item's content ends: the end line of its last child when that
   * child has a range (the item's own range runs on over trailing blank
   * lines), else the end line of the item itself.
   */
  function ContentEnd(n: Node): int {
    if n.kind.ListItem? && n.children != [] && n.children[|n.children| - 1].range.Some?
    then EndLine(n.children[|n.children| - 1])
    else EndLine(n)
  }

  /** The scan over an item's blocks: a ranged block starting more than one line after the previous ranged block's end. */
  function GapFrom(cs: seq<Node>, prev: Option<int>, endOf: Node -> int): bool
    decreases |cs|
  {
    if cs == [] then false
    else if cs[0].range.None? then GapFrom(cs[1..], prev, endOf)
    else (prev.Some? && StartLine(cs[0]) > prev.value + 1) || GapFrom(cs[1..], Some(endOf(cs[0])), endOf)
  }

  /** The scan over a list's children, with the block scan of each ranged item. */
  function LooseFrom(cs: seq<Node>, prev: Option<int>): bool
    decreases |cs|
  {
    if cs == [] then false
    else if cs[0].range.None? then LooseFrom(cs[1..], prev)
    else
      || (prev.Some? && StartLine(cs[0]) > prev.value + 1)
      || (cs[0].kind.ListItem? && GapFrom(cs[0].children, None, EndLine))
      || LooseFrom(cs[1..], Some(ContentEnd(cs[0])))
  }

  /** `isLooseList`. */
  function IsLoose(list: Node): bool {
    LooseFrom(list.children, None)
  }

  // ----- Reference description -----

  /** The children that have a source range, in order. */
  function Ranged(cs: seq<Node>): (r: seq<Node>)
    ensures forall i :: 0 <= i < |r| ==> r[i].range.Some?
  {
    if cs == [] then []
    else (if cs[0].range.Some? then [cs[0]] else []) + Ranged(cs[1..])
  }

  /** Some consecutive pair of `rs` is more than one line apart, measured with `endOf`. */
  predicate SkipsLine(rs: seq<Node>, endOf: Node -> int) {
    exists i :: 1 <= i < |rs| && StartLine(rs[i]) > endOf(rs[i - 1]) + 1
  }

  /** The first of `rs` starts more than one line after `prev`. */
  predicate SkipsFrom(rs: seq<Node>, prev: Option<int>) {
    rs != [] && prev.Some? && StartLine(rs[0]) > prev.value + 1
  }

  /** Some ranged item has two ranged blocks more than one line apart. */
  predicate ItemSkipsLine(rs: seq<Node>) {
    exists i :: 0 <= i < |rs| && rs[i].kind.ListItem? && SkipsLine(Ranged(rs[i].children), EndLine)
  }

  /** Looseness stated over the ranged children, without the scan. */
  predicate LooseSpec(list: Node) {
    var rs := Ranged(list.children);
    SkipsLine(rs, ContentEnd) || ItemSkipsLine(rs)
  }

  // ----- Properties -----

  /** Putting a node in front of a sequence: the pairs are the new first pair and the old pairs. */
  lemma SkipsLineCons(x: Node, rs: seq<Node>, endOf: Node -> int)
    ensures SkipsLine([x] + rs, endOf) <==> SkipsFrom(rs, Some(endOf(x))) || SkipsLine(rs, endOf)
  {
    var xs := [x] + rs;
    if SkipsLine(xs, endOf) {
      var i :| 1 <= i < |xs| && StartLine(xs[i]) > endOf(xs[i - 1]) + 1;
      if i >= 2 {
        assert xs[i] == rs[i - 1] && xs[i - 1] == rs[i - 2];
      }
    }
    if SkipsFrom(rs, Some(endOf(x))) {
      assert xs[1] == rs[0] && xs[0] == x;
      assert StartLine(xs[1]) > endOf(xs[0]) + 1;
    }
    if SkipsLine(rs, endOf) {
      var i :| 1 <= i < |rs| && StartLine(rs[i]) > endOf(rs[i - 1]) + 1;
      assert xs[i + 1] == rs[i] && xs[i] == rs[i - 1];
      assert StartLine(xs[i + 1]) > endOf(xs[i + 1 - 1]) + 1;
    }
  }

  /** The block scan finds a gap exactly when the ranged blocks skip a line. */
  lemma {:induction false} GapFromSpec(cs: seq<Node>, prev: Option<int>, endOf: Node -> int)
    ensures GapFrom(cs, prev, endOf) <==> SkipsFrom(Ranged(cs), prev) || SkipsLine(Ranged(cs), endOf)
    decreases |cs|
  {
    if cs != [] {
      if cs[0].range.None? {
        GapFromSpec(cs[1..], prev, endOf);
        assert Ranged(cs) == Ranged(cs[1..]);
      } else {
        GapFromSpec(cs[1..], Some(endOf(cs[0])), endOf);
        assert Ranged(cs) == [cs[0]] + Ranged(cs[1..]);
        SkipsLineCons(cs[0], Ranged(cs[1..]), endOf);
      }
    }
  }

  lemma ItemSkipsCons(x: Node, rs: seq<Node>)
    ensures ItemSkipsLine([x] + rs) <==>
      (x.kind.ListItem? && SkipsLine(Ranged(x.children), EndLine)) || ItemSkipsLine(rs)
  {
    var xs := [x] + rs;
    if ItemSkipsLine(xs) {
      var i :| 0 <= i < |xs| && xs[i].kind.ListItem? && SkipsLine(Ranged(xs[i].children), EndLine);
      if i >= 1 {
        assert xs[i] == rs[i - 1];
      }
    }
    if x.kind.ListItem? && SkipsLine(Ranged(x.children), EndLine) {
      assert xs[0] == x;
    }
    if ItemSkipsLine(rs) {
      var i :| 0 <= i < |rs| && rs[i].kind.ListItem? && SkipsLine(Ranged(rs[i].children), EndLine);
      assert xs[i + 1] == rs[i];
      assert xs[i + 1].kind.ListItem? && SkipsLine(Ranged(xs[i + 1].children), EndLine);
    }
  }

  /** The list scan, read as a statement about the ranged children. */
  lemma {:induction false} LooseFromSpec(cs: seq<Node>, prev: Option<int>)
    ensures LooseFrom(cs, prev) <==>
      SkipsFrom(Ranged(cs), prev) || SkipsLine(Ranged(cs), ContentEnd) || ItemSkipsLine(Ranged(cs))
    decreases |cs|
  {
    if cs != [] {
      if cs[0].range.None? {
        LooseFromSpec(cs[1..], prev);
        assert Ranged(cs) == Ranged(cs[1..]);
      } else {
        var x := cs[0];
        LooseFromSpec(cs[1..], Some(ContentEnd(x)));
        assert Ranged(cs) == [x] + Ranged(cs[1..]);
        SkipsLineCons(x, Ranged(cs[1..]), ContentEnd);
        ItemSkipsCons(x, Ranged(cs[1..]));
        if x.kind.ListItem? {
          GapFromSpec(x.children, None, EndLine);
        }
      }
    }
  }

  /**
   * A list is loose exactly when two consecutive ranged items are more than
   * one line apart (from the end of the earlier item's content), or some
   * ranged item has two consecutive ranged blocks more than one line apart.
   */
  lemma IsLooseSpec(list: Node)
    ensures IsLoose(list) <==> LooseSpec(list)
  {
    LooseFromSpec(list.children, None);
  }

  /** Items on consecutive lines, each a single line, make a tight list. */
  lemma AdjacentItemsTight(a: Node, b: Node)
    requires a.kind.ListItem? && b.kind.ListItem?
    requires a.range.Some? && b.range.Some? && a.children == [] && b.children == []
    requires StartLine(b) == EndLine(a) + 1
    ensures !IsLoose(Node(UnorderedList, None, [a, b]))
  {
    var cs := [a, b];
    assert cs[1..] == [b] && cs[1..][1..] == [];
    assert !GapFrom(a.children, None, EndLine) && !GapFrom(b.children, None, EndLine);
    assert !LooseFrom([b], Some(ContentEnd(a)));
  }

  /** One blank line between two items makes the list loose. */
  lemma BlankLineLoose(a: Node, b: Node)
    requires a.kind.ListItem? && b.kind.ListItem?
    requires a.range.Some? && b.range.Some? && a.children == []
    requires StartLine(b) == EndLine(a) + 2
    ensures IsLoose(Node(OrderedList(1), None, [a, b]))
  {
    var cs := [a, b];
    assert cs[1..] == [b];
  }
}
