/** The picture of the history of a window: where the entries are placed, and which of
    them is at a point (desktop/browser_history.c, desktop/local_history.c). */
module HistoryLayout {

  datatype Option<T> = None | Some(value: T)

  /** struct history_page, without its bitmap and its scroll offsets. */
  datatype Page = Page(url: string, fragment: Option<string>, title: string)

  /** struct history_entry */
  class Entry {
    const page: Page
    var back: Entry?
    var next: Entry?
    var forward: Entry?
    var forwardPref: Entry?
    var forwardLast: Entry?
    var x: int
    var y: int

    constructor (page: Page, back: Entry?)
      ensures this.page == page && this.back == back && next == null && x == y == 0
      ensures forward == null && forwardPref == null && forwardLast == null
    {
      this.page, this.back, next := page, back, null;
      forward, forwardPref, forwardLast, x, y := null, null, null, 0, 0;
    }
  }

  /** The size of an entry, and the gaps to the right of it and below it. */
  datatype Sizes = Sizes(width: nat, height: nat, right: nat, bottom: nat)

  /** A list of siblings, each with the list of entries that come after it. */
  datatype Forest = Nil | Cons(e: Entry, forward: Forest, next: Forest)

  ghost function Nodes(f: Forest): set<Entry> {
    if f.Nil? then {} else {f.e} + Nodes(f.forward) + Nodes(f.next)
  }

  /** The pointers from `p` on are those of the list; `back` is the parent. */
  ghost predicate Linked(f: Forest, p: Entry?, back: Entry?)
    reads Nodes(f)`next, Nodes(f)`forward, Nodes(f)`back
  {
    match f
    case Nil => p == null
    case Cons(e, forward, next) =>
      p == e && e.back == back && Linked(forward, e.forward, e) && Linked(next, e.next, back)
  }

  /** No entry is in two places. */
  ghost predicate Distinct(f: Forest) {
    f.Cons? ==>
      && f.e !in Nodes(f.forward) && f.e !in Nodes(f.next) && Nodes(f.forward) !! Nodes(f.next)
      && Distinct(f.forward) && Distinct(f.next)
  }

  lemma {:induction false} NodesAllocated(f: Forest)
    ensures forall n <- Nodes(f) :: allocated(n)
  {
    if f.Cons? {
      NodesAllocated(f.forward);
      NodesAllocated(f.next);
    }
  }

  // ---------------------------------------------------------------------
  // Where entries should be
  // ---------------------------------------------------------------------

  function Max(a: int, b: int): int {
    if a < b then b else a
  }

  /** The greatest y used by an entry that starts at `y`, with these children. */
  ghost function Bottom(s: Sizes, f: Forest, y: int): int {
    match f
    case Nil => y + s.height
    case Cons(_, forward, next) =>
      var b := Bottom(s, forward, y);
      if next.Nil? then b else Bottom(s, next, b + s.bottom)
  }

  /** The y position of an entry with these children: in the middle of them. */
  ghost function Middle(s: Sizes, f: Forest, y: int): int {
    if f.Nil? then y else (y + Bottom(s, f, y)) / 2 - s.height / 2
  }

  /** The greatest x used, or `w`. */
  ghost function Wide(s: Sizes, f: Forest, x: int, w: int): int {
    match f
    case Nil => w
    case Cons(_, forward, next) => Wide(s, next, x, Wide(s, forward, x + s.width + s.right, Max(w, x + s.width)))
  }

  ghost predicate PlacedAt(s: Sizes, e: Entry, forward: Forest, x: int, y: int)
    reads e`x, e`y, Nodes(forward)`x, Nodes(forward)`y
  {
    e.x == x && e.y == Middle(s, forward, y) && Placed(s, forward, x + s.width + s.right, y)
  }

  /** Siblings are placed one below the other. */
  ghost predicate Placed(s: Sizes, f: Forest, x: int, y: int)
    reads Nodes(f)`x, Nodes(f)`y
  {
    f.Cons? ==>
      && f.e.x == x && f.e.y == Middle(s, f.forward, y) && Placed(s, f.forward, x + s.width + s.right, y)
      && Placed(s, f.next, x, Bottom(s, f.forward, y) + s.bottom)
  }

  // ---------------------------------------------------------------------
  // The siblings up to one of them
  // ---------------------------------------------------------------------

  predicate IsSuffix(f: Forest, rest: Forest) {
    f == rest || (f.Cons? && IsSuffix(f.next, rest))
  }

  ghost function NodesTo(f: Forest, rest: Forest): set<Entry> {
    if f == rest || f.Nil? then {} else {f.e} + Nodes(f.forward) + NodesTo(f.next, rest)
  }

  /** The siblings before `rest` are placed, and it should start at `end`. */
  ghost predicate PlacedTo(s: Sizes, f: Forest, rest: Forest, x: int, y: int, end: int)
    reads NodesTo(f, rest)`x, NodesTo(f, rest)`y
  {
    if f == rest then y == end
    else
      && f.Cons? && f.e.x == x && f.e.y == Middle(s, f.forward, y) && Placed(s, f.forward, x + s.width + s.right, y)
      && PlacedTo(s, f.next, rest, x, Bottom(s, f.forward, y) + s.bottom, end)
  }

  lemma {:induction false} SuffixNodes(f: Forest, rest: Forest)
    requires Distinct(f) && IsSuffix(f, rest)
    ensures Nodes(rest) <= Nodes(f) && NodesTo(f, rest) <= Nodes(f) && NodesTo(f, rest) !! Nodes(rest) && Distinct(rest)
  {
    if f != rest {
      SuffixNodes(f.next, rest);
    }
  }

  lemma {:induction false} SuffixStep(f: Forest, rest: Forest)
    requires IsSuffix(f, rest) && rest.Cons?
    ensures IsSuffix(f, rest.next)
  {
    if f != rest {
      SuffixStep(f.next, rest);
    } else {
      assert IsSuffix(f.next, rest.next);
    }
  }

  lemma {:induction false} PlacedStep(s: Sizes, f: Forest, rest: Forest, x: int, y: int, end: int)
    requires IsSuffix(f, rest) && rest.Cons? && PlacedTo(s, f, rest, x, y, end)
    requires PlacedAt(s, rest.e, rest.forward, x, end)
    ensures PlacedTo(s, f, rest.next, x, y, Bottom(s, rest.forward, end) + s.bottom)
  {
    NotInSuffix(f, rest);
    if f != rest {
      PlacedStep(s, f.next, rest, x, Bottom(s, f.forward, y) + s.bottom, end);
    }
  }

  /** A list is not its own suffix. */
  lemma NotInSuffix(f: Forest, rest: Forest)
    requires IsSuffix(f, rest) && rest.Cons?
    ensures f != rest.next
  {
    SuffixIsShorter(f, rest);
    SuffixIsShorter(rest, rest.next);
  }

  ghost function Length(f: Forest): nat {
    if f.Nil? then 0 else 1 + Length(f.next)
  }

  lemma {:induction false} SuffixIsShorter(f: Forest, rest: Forest)
    requires IsSuffix(f, rest)
    ensures Length(rest) <= Length(f)
  {
    if f != rest {
      SuffixIsShorter(f.next, rest);
    }
  }

  lemma {:induction false} PlacedToEnd(s: Sizes, f: Forest, x: int, y: int, end: int)
    requires PlacedTo(s, f, Nil, x, y, end)
    ensures Placed(s, f, x, y) && (f.Cons? ==> end == Bottom(s, f, y) + s.bottom)
  {
    if f.Cons? {
      PlacedToEnd(s, f.next, x, Bottom(s, f.forward, y) + s.bottom, end);
    }
  }

  // ---------------------------------------------------------------------
  // Layout
  // ---------------------------------------------------------------------

  /** A list of at most one. */
  predicate IsTree(f: Forest) {
    f.Cons? ==> f.next.Nil?
  }

  /** struct history. */
  class History {
    const sizes: Sizes
    var start: Entry?
    var current: Entry?
    var width: int
    var height: int

    constructor (sizes: Sizes)
      ensures this.sizes == sizes && start == null && current == null
      ensures width == sizes.right / 2 && height == sizes.bottom / 2
    {
      this.sizes := sizes;
      start, current, width, height := null, null, sizes.right / 2, sizes.bottom / 2;
    }

    /** browser_window_history__layout_subtree. `f` are the children of the entry. */
    method LayoutSubtree(entry: Entry, x: int, y: int, ghost f: Forest) returns (y1: int)
      requires Linked(f, entry.forward, entry) && entry !in Nodes(f) && Distinct(f)
      modifies this`width, entry`x, entry`y, Nodes(f)`x, Nodes(f)`y
      ensures PlacedAt(sizes, entry, f, x, y) && y1 == Bottom(sizes, f, y)
      ensures width == Wide(sizes, f, x + sizes.width + sizes.right, Max(old(width), x + sizes.width))
      decreases f, 1
    {
      y1 := y;
      if width < x + sizes.width {
        width := x + sizes.width;
      }
      if entry.forward == null {
        entry.x, entry.y := x, y;
        return y + sizes.height;
      }
      ghost var rest, end := f, y;
      NodesAllocated(f);
      var child, x1 := entry.forward, x + sizes.width + sizes.right;
      while child != null
        invariant IsSuffix(f, rest) && Linked(rest, child, entry) && Linked(f, entry.forward, entry)
        invariant PlacedTo(sizes, f, rest, x1, y, end) && y1 == if rest.Nil? then end - sizes.bottom else end
        invariant Wide(sizes, rest, x1, width) == Wide(sizes, f, x1, Max(old(width), x + sizes.width))
        decreases rest
      {
        y1, end := LayoutChild(child, x1, y, y1, f, rest, entry);
        if child.next != null {
          y1 := y1 + sizes.bottom;
        }
        child := child.next;
        SuffixStep(f, rest);
        rest := rest.next;
      }
      PlacedToEnd(sizes, f, x1, y, end);
      // place ourselves in the middle
      entry.x := x;
      entry.y := (y + y1) / 2 - sizes.height / 2;
    }

    /** browser_window_history__layout. `root` is the whole tree. */
    method Layout(ghost root: Forest)
      requires IsTree(root) && Linked(root, start, null) && Distinct(root)
      modifies this`width, this`height, Nodes(root)`x, Nodes(root)`y
      ensures Placed(sizes, root, sizes.right / 2, sizes.bottom / 2)
      ensures width == Wide(sizes, root, sizes.right / 2, 0) + sizes.right / 2
      ensures height == (if root.Nil? then 0 else Bottom(sizes, root, sizes.bottom / 2)) + sizes.bottom / 2
    {
      width := 0;
      height := 0;
      if start != null {
        NodesAllocated(root);
        height := LayoutSubtree(start, sizes.right / 2, sizes.bottom / 2, root.forward);
      }
      width := width + sizes.right / 2;
      height := height + sizes.bottom / 2;
    }

    /** One of the children. */
    method LayoutChild(child: Entry, x: int, ghost y: int, y1: int, ghost f: Forest, ghost rest: Forest, ghost parent: Entry)
      returns (y2: int, ghost end: int)
      requires Distinct(f) && IsSuffix(f, rest) && Linked(rest, child, parent) && Linked(f, parent.forward, parent)
      requires rest.Cons? && PlacedTo(sizes, f, rest, x, y, y1)
      modifies this`width, Nodes(f)`x, Nodes(f)`y
      ensures PlacedTo(sizes, f, rest.next, x, y, end) && y2 == Bottom(sizes, rest.forward, y1) && end == y2 + sizes.bottom
      ensures Wide(sizes, rest.next, x, width) == Wide(sizes, rest, x, old(width))
      ensures Linked(rest.next, child.next, parent) && Linked(f, parent.forward, parent)
      decreases f, 0
    {
      SuffixNodes(f, rest);
      SuffixIsSmaller(f, rest);
      assert NodesTo(f, rest) !! {child} + Nodes(rest.forward);
      NodesAllocated(f);
      y2 := LayoutSubtree(child, x, y1, rest.forward);
      end := y2 + sizes.bottom;
      PlacedStep(sizes, f, rest, x, y, y1);
    }
  }

  lemma {:induction false} SuffixIsSmaller(f: Forest, rest: Forest)
    requires IsSuffix(f, rest) && rest.Cons?
    ensures f decreases to rest.forward
  {
    if f != rest {
      SuffixIsSmaller(f.next, rest);
    }
  }

  // ---------------------------------------------------------------------
  // Bands
  // ---------------------------------------------------------------------

  /** Siblings take up at least the height of an entry, and some width. */
  lemma {:induction false} BottomIsBelow(s: Sizes, f: Forest, y: int)
    ensures Bottom(s, f, y) >= y + s.height
  {
    if f.Cons? {
      BottomIsBelow(s, f.forward, y);
      BottomIsBelow(s, f.next, Bottom(s, f.forward, y) + s.bottom);
    }
  }

  lemma {:induction false} WideIsWider(s: Sizes, f: Forest, x: int, w: int)
    ensures Wide(s, f, x, w) >= w
  {
    if f.Cons? {
      var v := Wide(s, f.forward, x + s.width + s.right, Max(w, x + s.width));
      WideIsWider(s, f.forward, x + s.width + s.right, Max(w, x + s.width));
      WideIsWider(s, f.next, x, v);
    }
  }

  /** An entry in the middle of its children lies between their top and bottom, as far from
      the one as from the other. */
  lemma MiddleIsInside(s: Sizes, f: Forest, y: int)
    requires y >= 0
    ensures var m, b := Middle(s, f, y), Bottom(s, f, y);
            y <= m && m + s.height <= b && -1 <= (m - y) - (b - (m + s.height)) <= 1
  {
    BottomIsBelow(s, f, y);
  }

  /** Each entry lies in the band of its tree. */
  lemma {:induction false} InBand(s: Sizes, f: Forest, x: int, y: int, w: int, n: Entry)
    requires y >= 0 && Placed(s, f, x, y) && n in Nodes(f)
    ensures x <= n.x && n.x + s.width <= Wide(s, f, x, w)
    ensures y <= n.y && n.y + s.height <= Bottom(s, f, y)
  {
    var b, x1 := Bottom(s, f.forward, y), x + s.width + s.right;
    var v := Wide(s, f.forward, x1, Max(w, x + s.width));
    BottomIsBelow(s, f.forward, y);
    BottomIsBelow(s, f.next, b + s.bottom);
    WideIsWider(s, f.forward, x1, Max(w, x + s.width));
    WideIsWider(s, f.next, x, v);
    MiddleIsInside(s, f.forward, y);
    if n == f.e {
    } else if n in Nodes(f.forward) {
      InBand(s, f.forward, x1, y, Max(w, x + s.width), n);
    } else {
      InBand(s, f.next, x, b + s.bottom, v, n);
    }
  }

  /** The highest and the lowest entries reach the ends of the band, so that it is just as
      high as it has to be. */
  lemma {:induction false} BandIsFull(s: Sizes, f: Forest, x: int, y: int)
    requires f.Cons? && Placed(s, f, x, y)
    ensures exists n :: n in Nodes(f) && n.y == y
    ensures exists n :: n in Nodes(f) && n.y + s.height == Bottom(s, f, y)
  {
    var b, x1 := Bottom(s, f.forward, y), x + s.width + s.right;
    if f.forward.Cons? {
      BandIsFull(s, f.forward, x1, y);
      var m :| m in Nodes(f.forward) && m.y == y;
      var n :| n in Nodes(f.forward) && n.y + s.height == b;
      assert m in Nodes(f) && n in Nodes(f);
    } else {
      assert f.e in Nodes(f) && f.e.y == y && b == y + s.height;
    }
    if f.next.Cons? {
      BandIsFull(s, f.next, x, b + s.bottom);
      var n :| n in Nodes(f.next) && n.y + s.height == Bottom(s, f.next, b + s.bottom);
      assert n in Nodes(f);
    }
  }

  /** The same for the right end. */
  lemma {:induction false} WidthIsUsed(s: Sizes, f: Forest, x: int, y: int, w: int)
    requires Placed(s, f, x, y)
    ensures Wide(s, f, x, w) == w || exists n :: n in Nodes(f) && n.x + s.width == Wide(s, f, x, w)
  {
    if f.Cons? {
      var b, x1 := Bottom(s, f.forward, y), x + s.width + s.right;
      var v := Wide(s, f.forward, x1, Max(w, x + s.width));
      WidthIsUsed(s, f.forward, x1, y, Max(w, x + s.width));
      WidthIsUsed(s, f.next, x, b + s.bottom, v);
      assert f.e in Nodes(f);
      assert Nodes(f.forward) <= Nodes(f) && Nodes(f.next) <= Nodes(f);
    }
  }

  /** Children are one gap to the right of their parent, and between the trees of siblings
      there is just one gap. */
  lemma GapsAreKept(s: Sizes, f: Forest, x: int, y: int)
    requires f.Cons? && Placed(s, f, x, y)
    ensures f.forward.Cons? ==> f.forward.e.x == f.e.x + s.width + s.right
    ensures f.next.Cons? ==>
              exists m, n :: (m == f.e || m in Nodes(f.forward)) && n in Nodes(f.next) && n.y == m.y + s.height + s.bottom
  {
    if f.next.Cons? {
      var m := LowestOfFirst(s, f, x, y);
      BandIsFull(s, f.next, x, Bottom(s, f.forward, y) + s.bottom);
      var n :| n in Nodes(f.next) && n.y == Bottom(s, f.forward, y) + s.bottom;
    }
  }

  lemma LowestOfFirst(s: Sizes, f: Forest, x: int, y: int) returns (m: Entry)
    requires f.Cons? && Placed(s, f, x, y)
    ensures (m == f.e || m in Nodes(f.forward)) && m.y + s.height == Bottom(s, f.forward, y)
  {
    m := f.e;
    if f.forward.Cons? {
      BandIsFull(s, f.forward, x + s.width + s.right, y);
      m :| m in Nodes(f.forward) && m.y + s.height == Bottom(s, f.forward, y);
    }
  }

  /** Do the rectangles have a point in common, edges and corners included? */
  predicate Touch(s: Sizes, m: Entry, n: Entry)
    reads m, n
  {
    m.x <= n.x + s.width && n.x <= m.x + s.width && m.y <= n.y + s.height && n.y <= m.y + s.height
  }

  /** No two entries touch, if there are gaps. */
  lemma {:induction false} EntriesAreApart(s: Sizes, f: Forest, x: int, y: int, m: Entry, n: Entry)
    requires s.right > 0 && s.bottom > 0 && y >= 0 && Placed(s, f, x, y)
    requires m in Nodes(f) && n in Nodes(f) && m != n
    ensures !Touch(s, m, n)
  {
    var b, x1 := Bottom(s, f.forward, y), x + s.width + s.right;
    BottomIsBelow(s, f.forward, y);
    if m in Nodes(f.forward) && n in Nodes(f.forward) {
      EntriesAreApart(s, f.forward, x1, y, m, n);
    } else if m in Nodes(f.next) && n in Nodes(f.next) {
      EntriesAreApart(s, f.next, x, b + s.bottom, m, n);
    } else if m in Nodes(f.next) {
      BeforeIsApart(s, f, x, y, n, m);
    } else if n in Nodes(f.next) {
      BeforeIsApart(s, f, x, y, m, n);
    } else {
      InBand(s, f.forward, x1, y, 0, if m == f.e then n else m);
    }
  }

  /** What belongs to the first sibling ends above the others. */
  lemma BeforeIsApart(s: Sizes, f: Forest, x: int, y: int, m: Entry, n: Entry)
    requires s.right > 0 && s.bottom > 0 && y >= 0 && Placed(s, f, x, y) && f.Cons?
    requires (m == f.e || m in Nodes(f.forward)) && n in Nodes(f.next)
    ensures m.y + s.height < n.y
  {
    var b := Bottom(s, f.forward, y);
    BottomIsBelow(s, f.forward, y);
    InBand(s, f.next, x, b + s.bottom, 0, n);
    if m == f.e {
      MiddleIsInside(s, f.forward, y);
    } else {
      InBand(s, f.forward, x + s.width + s.right, y, 0, m);
    }
  }

  /** After a layout, all entries are inside the picture. */
  lemma InsidePicture(h: History, root: Forest, n: Entry)
    requires Placed(h.sizes, root, h.sizes.right / 2, h.sizes.bottom / 2) && n in Nodes(root)
    requires h.width == Wide(h.sizes, root, h.sizes.right / 2, 0) + h.sizes.right / 2
    requires h.height == Bottom(h.sizes, root, h.sizes.bottom / 2) + h.sizes.bottom / 2
    ensures 0 <= n.x && n.x + h.sizes.width <= h.width && 0 <= n.y && n.y + h.sizes.height <= h.height
  {
    InBand(h.sizes, root, h.sizes.right / 2, h.sizes.bottom / 2, 0, n);
  }

  /** The picture is no larger than it has to be: but for half a gap, entries reach all of
      its edges. */
  lemma PictureIsFull(h: History, root: Forest)
    requires root.Cons? && Placed(h.sizes, root, h.sizes.right / 2, h.sizes.bottom / 2)
    requires h.width == Wide(h.sizes, root, h.sizes.right / 2, 0) + h.sizes.right / 2
    requires h.height == Bottom(h.sizes, root, h.sizes.bottom / 2) + h.sizes.bottom / 2
    ensures exists n :: n in Nodes(root) && n.y == h.sizes.bottom / 2
    ensures exists n :: n in Nodes(root) && n.y + h.sizes.height + h.sizes.bottom / 2 == h.height
    ensures exists n :: n in Nodes(root) && n.x == h.sizes.right / 2
    ensures exists n :: n in Nodes(root) && n.x + h.sizes.width + h.sizes.right / 2 == h.width
  {
    var x, y := h.sizes.right / 2, h.sizes.bottom / 2;
    BandIsFull(h.sizes, root, x, y);
    WidthIsUsed(h.sizes, root, x, y, 0);
    assert root.e in Nodes(root) && root.e.x == x;
    InBand(h.sizes, root, x, y, 0, root.e);
    var n :| n in Nodes(root) && n.y + h.sizes.height == Bottom(h.sizes, root, y);
    assert n.y + h.sizes.height + y == h.height;
  }

  // ---------------------------------------------------------------------
  // The entry at a point
  // ---------------------------------------------------------------------

  /** Is the point in the rectangle? Its edges belong to it. */
  predicate Inside(s: Sizes, n: Entry, x: int, y: int)
    reads n
  {
    n.x <= x <= n.x + s.width && n.y <= y <= n.y + s.height
  }

  ghost predicate NoneInside(s: Sizes, nodes: set<Entry>, x: int, y: int)
    reads nodes
  {
    forall n <- nodes :: !Inside(s, n, x, y)
  }

  lemma {:induction false} NodesToNext(f: Forest, rest: Forest)
    requires IsSuffix(f, rest) && rest.Cons?
    ensures NodesTo(f, rest.next) == NodesTo(f, rest) + {rest.e} + Nodes(rest.forward)
  {
    NotInSuffix(f, rest);
    if f != rest {
      NodesToNext(f.next, rest);
    } else {
      assert NodesTo(f.next, rest.next) == {};
    }
  }

  lemma {:induction false} NodesToEnd(f: Forest)
    ensures NodesTo(f, Nil) == Nodes(f)
  {
    if f.Cons? {
      NodesToEnd(f.next);
    }
  }

  /** find_entry_position. `f` are the children of the entry. */
  method FindEntryPosition(s: Sizes, entry: Entry?, x: int, y: int, ghost f: Forest) returns (r: Entry?)
    requires entry != null ==> Linked(f, entry.forward, entry) && Distinct(f)
    ensures entry == null ==> r == null
    ensures entry != null && r != null ==> r in {entry} + Nodes(f) && Inside(s, r, x, y)
    ensures entry != null && r == null ==> NoneInside(s, {entry} + Nodes(f), x, y)
    decreases f, 1
  {
    if entry == null {
      return null;
    }
    if entry.x <= x && x <= entry.x + s.width && entry.y <= y && y <= entry.y + s.height {
      return entry;
    }
    ghost var rest := f;
    var child := entry.forward;
    while child != null
      invariant IsSuffix(f, rest) && Linked(rest, child, entry) && NoneInside(s, NodesTo(f, rest), x, y)
      decreases rest
    {
      var found := FindBelow(s, child, x, y, f, rest, entry);
      if found != null { return found; }
      SuffixStep(f, rest);
      child := child.next;
      rest := rest.next;
    }
    NodesToEnd(f);
    r := null;
  }

  /** One of the children. */
  method FindBelow(s: Sizes, child: Entry, x: int, y: int, ghost f: Forest, ghost rest: Forest, ghost parent: Entry)
    returns (r: Entry?)
    requires Distinct(f) && IsSuffix(f, rest) && rest.Cons? && Linked(rest, child, parent)
    requires NoneInside(s, NodesTo(f, rest), x, y) && !Inside(s, parent, x, y)
    ensures r != null ==> r in Nodes(f) && Inside(s, r, x, y)
    ensures r == null ==> NoneInside(s, NodesTo(f, rest.next), x, y)
    ensures Linked(rest.next, child.next, parent) && !Inside(s, parent, x, y)
    decreases f, 0
  {
    SuffixIsSmaller(f, rest);
    SuffixNodes(f, rest);
    NodesToNext(f, rest);
    NodesAllocated(f);
    r := FindEntryPosition(s, child, x, y, rest.forward);
    if r != null { SuffixHas(f, rest, r); }
  }

  lemma {:induction false} SuffixHas(f: Forest, rest: Forest, n: Entry)
    requires IsSuffix(f, rest) && n in Nodes(rest)
    ensures n in Nodes(f)
  {
    if f != rest {
      SuffixHas(f.next, rest, n);
    }
  }

  /** In a picture with gaps, there is at most one entry at a point. */
  lemma HitIsUnique(s: Sizes, f: Forest, left: int, top: int, x: int, y: int, m: Entry, n: Entry)
    requires s.right > 0 && s.bottom > 0 && top >= 0 && Placed(s, f, left, top)
    requires m in Nodes(f) && n in Nodes(f) && Inside(s, m, x, y) && Inside(s, n, x, y)
    ensures m == n
  {
    if m != n {
      EntriesAreApart(s, f, left, top, m, n);
    }
  }

  /** Looking for the entry at a point of the picture: the entry whose rectangle has the
      point, if there is one. */
  method EntryAt(h: History, x: int, y: int, ghost root: Forest) returns (r: Entry?)
    requires IsTree(root) && Linked(root, h.start, null) && Distinct(root) && h.sizes.right > 0 && h.sizes.bottom > 0
    requires Placed(h.sizes, root, h.sizes.right / 2, h.sizes.bottom / 2)
    ensures forall n <- Nodes(root) :: Inside(h.sizes, n, x, y) <==> r == n
    ensures r != null ==> r in Nodes(root)
  {
    NodesAllocated(root);
    r := FindEntryPosition(h.sizes, h.start, x, y, if root.Cons? then root.forward else Nil);
    forall n | n in Nodes(root) ensures Inside(h.sizes, n, x, y) <==> r == n {
      if r != null && Inside(h.sizes, n, x, y) {
        HitIsUnique(h.sizes, root, h.sizes.right / 2, h.sizes.bottom / 2, x, y, n, r);
      }
    }
  }

  // ---------------------------------------------------------------------
  // Adding an entry
  // ---------------------------------------------------------------------

  function Head(f: Forest): Entry? {
    if f.Nil? then null else f.e
  }

  function Last(f: Forest): Entry? {
    if f.Nil? then null else if f.next.Nil? then f.e else Last(f.next)
  }

  /** Is `p` one of the siblings? */
  predicate IsSibling(p: Entry?, f: Forest) {
    f.Cons? && (p == f.e || IsSibling(p, f.next))
  }

  /** One of the children, if there are any. */
  predicate IsChild(p: Entry?, f: Forest) {
    if f.Nil? then p == null else IsSibling(p, f)
  }

  /** Each entry knows its last child, and prefers one of them. */
  ghost predicate LastsOk(f: Forest)
    reads Nodes(f)`forwardLast, Nodes(f)`forwardPref
  {
    f.Cons? ==>
      && f.e.forwardLast == Last(f.forward) && IsChild(f.e.forwardPref, f.forward)
      && LastsOk(f.forward) && LastsOk(f.next)
  }

  ghost predicate IsHistory(h: History, root: Forest)
    reads h`start, h`current, Nodes(root)
  {
    && IsTree(root) && Linked(root, h.start, null) && Distinct(root) && LastsOk(root)
    && (if root.Nil? then h.current == null else h.current != null && h.current in Nodes(root))
  }

  function Append(f: Forest, e: Entry): Forest {
    if f.Nil? then Cons(e, Nil, Nil) else Cons(f.e, f.forward, Append(f.next, e))
  }

  /** The new entry `e` comes last among the children of `c`. */
  function AddTo(f: Forest, c: Entry, e: Entry): Forest {
    match f
    case Nil => Nil
    case Cons(n, forward, next) =>
      if n == c then Cons(n, Append(forward, e), next) else Cons(n, AddTo(forward, c, e), AddTo(next, c, e))
  }

  ghost function ChildrenOf(f: Forest, c: Entry): Forest {
    match f
    case Nil => Nil
    case Cons(n, forward, next) =>
      if n == c then forward else if c in Nodes(forward) then ChildrenOf(forward, c) else ChildrenOf(next, c)
  }

  lemma {:induction false} AppendNodes(f: Forest, e: Entry)
    requires Distinct(f) && e !in Nodes(f)
    ensures Nodes(Append(f, e)) == Nodes(f) + {e} && Distinct(Append(f, e)) && Last(Append(f, e)) == e
  {
    if f.Cons? {
      AppendNodes(f.next, e);
    }
  }

  lemma {:induction false} AddToOther(f: Forest, c: Entry, e: Entry)
    requires c !in Nodes(f)
    ensures AddTo(f, c, e) == f
  {
    if f.Cons? {
      AddToOther(f.forward, c, e);
      AddToOther(f.next, c, e);
    }
  }

  lemma {:induction false} AddToNodes(f: Forest, c: Entry, e: Entry)
    requires Distinct(f) && c in Nodes(f) && e !in Nodes(f)
    ensures Nodes(AddTo(f, c, e)) == Nodes(f) + {e} && Distinct(AddTo(f, c, e))
    ensures Head(AddTo(f, c, e)) == Head(f) && Last(AddTo(f, c, e)) == Last(f) && (IsTree(f) ==> IsTree(AddTo(f, c, e)))
  {
    if f.e == c {
      AppendNodes(f.forward, e);
    } else if c in Nodes(f.forward) {
      AddToNodes(f.forward, c, e);
      AddToOther(f.next, c, e);
    } else {
      AddToOther(f.forward, c, e);
      AddToNodes(f.next, c, e);
    }
  }

  /** `Linked`, but for what `z` says of the next entry and `c` of its children. */
  ghost predicate LinkedBut(f: Forest, back: Entry?, z: Entry?, c: Entry)
    reads (Nodes(f) - {z})`next, (Nodes(f) - {c})`forward, Nodes(f)`back
  {
    f.Cons? ==>
      && f.e.back == back && (f.e != z ==> f.e.next == Head(f.next)) && (f.e != c ==> f.e.forward == Head(f.forward))
      && LinkedBut(f.forward, f.e, z, c) && LinkedBut(f.next, back, z, c)
  }

  lemma {:induction false} LinkedIsLinkedBut(f: Forest, p: Entry?, back: Entry?, z: Entry?, c: Entry)
    requires Linked(f, p, back)
    ensures LinkedBut(f, back, z, c) && p == Head(f)
  {
    if f.Cons? {
      LinkedIsLinkedBut(f.forward, f.e.forward, f.e, z, c);
      LinkedIsLinkedBut(f.next, f.e.next, back, z, c);
    }
  }

  lemma {:induction false} LinkedElsewhere(f: Forest, back: Entry?, z: Entry?, c: Entry)
    requires LinkedBut(f, back, z, c) && z !in Nodes(f) && c !in Nodes(f)
    ensures Linked(f, Head(f), back)
  {
    if f.Cons? {
      LinkedElsewhere(f.forward, f.e, z, c);
      LinkedElsewhere(f.next, back, z, c);
    }
  }

  ghost predicate IsLeaf(e: Entry, back: Entry)
    reads e
  {
    e.next == null && e.forward == null && e.back == back
  }

  lemma {:induction false} AppendLinked(f: Forest, back: Entry, z: Entry, c: Entry, e: Entry)
    requires Distinct(f) && f.Cons? && LinkedBut(f, back, z, c) && c !in Nodes(f)
    requires z == Last(f) && z.next == e && IsLeaf(e, back)
    ensures Linked(Append(f, e), Head(f), back) && z in Nodes(f)
  {
    if f.next.Nil? {
      LinkedElsewhere(f.forward, f.e, z, c);
    } else {
      AppendLinked(f.next, back, z, c, e);
      LinkedElsewhere(f.forward, f.e, z, c);
    }
  }

  lemma {:induction false} LastIsIn(f: Forest)
    ensures f.Cons? ==> Last(f) != null && Last(f) in Nodes(f)
  {
    if f.Cons? {
      LastIsIn(f.next);
    }
  }

  lemma {:induction false} ChildrenAreIn(f: Forest, c: Entry)
    requires c in Nodes(f)
    ensures Nodes(ChildrenOf(f, c)) <= Nodes(f)
  {
    if f.e != c {
      if c in Nodes(f.forward) { ChildrenAreIn(f.forward, c); } else { ChildrenAreIn(f.next, c); }
    }
  }

  /** The links once the new entry is in its place. */
  lemma {:induction false} LinkedAfterAdd(f: Forest, back: Entry?, z: Entry?, c: Entry, e: Entry)
    requires Distinct(f) && c in Nodes(f) && e !in Nodes(f) && LinkedBut(f, back, z, c)
    requires z == Last(ChildrenOf(f, c)) && c.forward == Head(Append(ChildrenOf(f, c), e)) && IsLeaf(e, c)
    requires z != null ==> z.next == e
    ensures Linked(AddTo(f, c, e), Head(f), back)
  {
    var kids := ChildrenOf(f, c);
    LastIsIn(kids);
    ChildrenAreIn(f, c);
    if f.e == c {
      LinkedElsewhere(f.next, back, z, c);
      if kids.Cons? { AppendLinked(kids, c, z, c, e); }
    } else if c in Nodes(f.forward) {
      ChildrenAreIn(f.forward, c);
      LinkedAfterAdd(f.forward, f.e, z, c, e);
      LinkedElsewhere(f.next, back, z, c);
      AddToOther(f.next, c, e);
      AddToNodes(f.forward, c, e);
    } else {
      ChildrenAreIn(f.next, c);
      LinkedAfterAdd(f.next, back, z, c, e);
      LinkedElsewhere(f.forward, f.e, z, c);
      AddToOther(f.forward, c, e);
      AddToNodes(f.next, c, e);
    }
  }

  ghost predicate LastsBut(f: Forest, c: Entry)
    reads (Nodes(f) - {c})`forwardLast, (Nodes(f) - {c})`forwardPref
  {
    f.Cons? ==>
      && (f.e != c ==> f.e.forwardLast == Last(f.forward) && IsChild(f.e.forwardPref, f.forward))
      && LastsBut(f.forward, c) && LastsBut(f.next, c)
  }

  lemma {:induction false} LastsAreLastsBut(f: Forest, c: Entry)
    requires LastsOk(f)
    ensures LastsBut(f, c) && (c in Nodes(f) ==> c.forwardLast == Last(ChildrenOf(f, c)))
  {
    if f.Cons? {
      LastsAreLastsBut(f.forward, c);
      LastsAreLastsBut(f.next, c);
    }
  }

  lemma {:induction false} LastsElsewhere(f: Forest, c: Entry)
    requires LastsBut(f, c) && c !in Nodes(f)
    ensures LastsOk(f)
  {
    if f.Cons? {
      LastsElsewhere(f.forward, c);
      LastsElsewhere(f.next, c);
    }
  }

  lemma {:induction false} AppendLasts(f: Forest, e: Entry)
    requires LastsOk(f) && e.forwardLast == null && e.forwardPref == null
    ensures LastsOk(Append(f, e)) && IsSibling(e, Append(f, e))
  {
    if f.Cons? {
      AppendLasts(f.next, e);
    }
  }

  lemma {:induction false} SiblingsStay(f: Forest, c: Entry, e: Entry, p: Entry?)
    requires IsSibling(p, f)
    ensures IsSibling(p, AddTo(f, c, e))
  {
    if p != f.e { SiblingsStay(f.next, c, e, p); }
    if f.e == c { assert p != f.e ==> IsSibling(p, f.next); }
  }

  lemma {:induction false} LastsAfterAdd(f: Forest, c: Entry, e: Entry)
    requires Distinct(f) && c in Nodes(f) && e !in Nodes(f) && LastsBut(f, c)
    requires c.forwardLast == e && c.forwardPref == e && e.forwardLast == null && e.forwardPref == null
    ensures LastsOk(AddTo(f, c, e))
  {
    if f.e == c {
      AppendNodes(f.forward, e);
      LastsElsewhere(f.forward, c);
      LastsElsewhere(f.next, c);
      AppendLasts(f.forward, e);
    } else if c in Nodes(f.forward) {
      AddToNodes(f.forward, c, e);
      AddToOther(f.next, c, e);
      LastsElsewhere(f.next, c);
      LastsAfterAdd(f.forward, c, e);
      SiblingsStay(f.forward, c, e, f.e.forwardPref);
    } else {
      AddToOther(f.forward, c, e);
      LastsElsewhere(f.forward, c);
      LastsAfterAdd(f.next, c, e);
    }
  }

  /** browser_window_history_add. */
  method AddEntry(h: History, page: Page, ghost root: Forest) returns (e: Entry, ghost root': Forest)
    requires IsHistory(h, root)
    modifies h, Nodes(root)
    ensures fresh(e) && e.page == page && h.current == e && IsHistory(h, root')
    ensures root' == if root.Nil? then Cons(e, Nil, Nil) else AddTo(root, old(h.current), e)
    ensures old(h.current) != null ==> old(h.current).forwardPref == e && e.back == old(h.current)
    ensures Placed(h.sizes, root', h.sizes.right / 2, h.sizes.bottom / 2)
  {
    NodesAllocated(root);
    e, root' := Add(h, page, root);
    AddedNodes(root, old(h.current), e, root');
    NodesAllocated(root');
    h.Layout(root');
  }

  lemma AddedNodes(root: Forest, c: Entry?, e: Entry, root': Forest)
    requires Distinct(root) && e !in Nodes(root) && (root.Cons? ==> c != null && c in Nodes(root))
    requires root' == if root.Nil? then Cons(e, Nil, Nil) else AddTo(root, c, e)
    ensures Nodes(root') == Nodes(root) + {e}
  {
    if root.Cons? { AddToNodes(root, c, e); }
  }

  /** The tree with the new entry: the new entry is the last child of
      the current one, and the current one from now on. */
  method Add(h: History, page: Page, ghost root: Forest) returns (e: Entry, ghost root': Forest)
    requires IsHistory(h, root)
    modifies h`start, h`current
    modifies Nodes(root)`next, Nodes(root)`forward, Nodes(root)`forwardPref, Nodes(root)`forwardLast
    ensures fresh(e) && e.page == page && h.current == e && IsHistory(h, root')
    ensures root' == if root.Nil? then Cons(e, Nil, Nil) else AddTo(root, old(h.current), e)
    ensures old(h.current) != null ==> old(h.current).forwardPref == e && e.back == old(h.current)
  {
    NodesAllocated(root);
    e := new Entry(page, h.current);
    root' := Cons(e, Nil, Nil);
    if h.current != null {
      root' := AddTo(root, h.current, e);
      LinkNew(h.current, e, h.start, root);
    } else {
      h.start := e;
    }
    h.current := e;
  }

  method LinkNew(c: Entry, e: Entry, start: Entry?, ghost root: Forest)
    requires Linked(root, start, null) && Distinct(root) && LastsOk(root) && IsTree(root) && c in Nodes(root)
    requires e !in Nodes(root) && IsLeaf(e, c) && e.forwardLast == null && e.forwardPref == null
    modifies Nodes(root)`next, Nodes(root)`forward, Nodes(root)`forwardPref, Nodes(root)`forwardLast
    ensures c.forwardPref == e
    ensures var t := AddTo(root, c, e); Linked(t, start, null) && Distinct(t) && LastsOk(t) && IsTree(t) && e in Nodes(t)
  {
    ghost var z := c.forwardLast;
    LinkedIsLinkedBut(root, start, null, z, c);
    LastsAreLastsBut(root, c);
    ChildrenAreIn(root, c);
    LastIsIn(ChildrenOf(root, c));
    KidsOf(root, start, null, c);
    AddToNodes(root, c, e);
    if c.forwardLast != null {
      c.forwardLast.next := e;
    } else {
      c.forward := e;
    }
    c.forwardPref := e;
    c.forwardLast := e;
    LinkedAfterAdd(root, null, z, c, e);
    LastsAfterAdd(root, c, e);
  }

  lemma {:induction false} KidsOf(f: Forest, p: Entry?, back: Entry?, c: Entry)
    requires Linked(f, p, back) && c in Nodes(f)
    ensures c.forward == Head(ChildrenOf(f, c))
  {
    if f.e != c {
      if c in Nodes(f.forward) { KidsOf(f.forward, f.e.forward, f.e, c); } else { KidsOf(f.next, f.e.next, back, c); }
    } else {
      LinkedIsLinkedBut(f.forward, f.e.forward, f.e, null, c);
    }
  }
}
