/** Copying the history of a window for a new window (desktop/browser_history.c). */
module HistoryClone {
  import opened HistoryLayout

  // ---------------------------------------------------------------------
  // Copies
  // ---------------------------------------------------------------------

  /** The same pages in trees of the same shape. */
  predicate SameTree(f: Forest, g: Forest) {
    match (f, g)
    case (Nil, Nil) => true
    case (Cons(d, df, dn), Cons(e, ef, en)) => d.page == e.page && SameTree(df, ef) && SameTree(dn, en)
    case _ => false
  }

  /** The entry of `g` in the place of the entry `n` of `f`; others stay. */
  ghost function Image(f: Forest, g: Forest, n: Entry?): Entry? {
    if f.Nil? || g.Nil? then n
    else if n == f.e then g.e
    else if n in Nodes(f.forward) then Image(f.forward, g.forward, n)
    else Image(f.next, g.next, n)
  }

  lemma {:induction false} ImageIsIn(f: Forest, g: Forest, n: Entry?)
    requires SameTree(f, g)
    ensures if n in Nodes(f) then Image(f, g, n) in Nodes(g) else Image(f, g, n) == n
  {
    if f.Cons? {
      ImageIsIn(f.forward, g.forward, n);
      ImageIsIn(f.next, g.next, n);
    }
  }

  /** The place of an entry among siblings. */
  lemma {:induction false} ImageOfSibling(f: Forest, g: Forest, p: Entry?)
    requires SameTree(f, g) && Distinct(f) && IsSibling(p, f)
    ensures IsSibling(Image(f, g, p), g)
  {
    if p != f.e {
      SiblingIsIn(f.next, p);
      ImageOfSibling(f.next, g.next, p);
    }
  }

  lemma {:induction false} SiblingIsIn(f: Forest, p: Entry?)
    requires IsSibling(p, f)
    ensures p in Nodes(f)
  {
    if p != f.e { SiblingIsIn(f.next, p); }
  }

  // ---------------------------------------------------------------------
  // Lists with one more sibling
  // ---------------------------------------------------------------------

  /** The list with the sibling `e`, whose children are `kids`, at its end. */
  function Snoc(f: Forest, e: Entry, kids: Forest): Forest {
    if f.Nil? then Cons(e, kids, Nil) else Cons(f.e, f.forward, Snoc(f.next, e, kids))
  }

  /** One list, and then another. */
  function Join(f: Forest, rest: Forest): Forest {
    if f.Nil? then rest else Cons(f.e, f.forward, Join(f.next, rest))
  }

  lemma {:induction false} JoinSnoc(f: Forest, rest: Forest)
    requires rest.Cons?
    ensures Join(f, rest) == Join(Snoc(f, rest.e, rest.forward), rest.next)
  {
    if f.Cons? { JoinSnoc(f.next, rest); }
  }

  lemma {:induction false} JoinNil(f: Forest)
    ensures Join(f, Nil) == f
  {
    if f.Cons? { JoinNil(f.next); }
  }

  lemma {:induction false} JoinNodes(f: Forest, rest: Forest)
    requires Distinct(Join(f, rest))
    ensures Nodes(Join(f, rest)) == Nodes(f) + Nodes(rest) && Nodes(f) !! Nodes(rest) && Distinct(rest) && Distinct(f)
  {
    if f.Cons? { JoinNodes(f.next, rest); }
  }

  lemma {:induction false} SnocNodes(f: Forest, e: Entry, kids: Forest)
    requires Distinct(f) && Distinct(kids) && e !in Nodes(f) && e !in Nodes(kids) && Nodes(f) !! Nodes(kids)
    ensures Nodes(Snoc(f, e, kids)) == Nodes(f) + {e} + Nodes(kids)
    ensures Distinct(Snoc(f, e, kids)) && Last(Snoc(f, e, kids)) == e && Head(Snoc(f, e, kids)) == if f.Nil? then e else f.e
  {
    if f.Cons? { SnocNodes(f.next, e, kids); }
  }

  lemma {:induction false} SnocSameTree(f: Forest, g: Forest, d: Entry, e: Entry, df: Forest, ef: Forest)
    requires SameTree(f, g) && d.page == e.page && SameTree(df, ef)
    ensures SameTree(Snoc(f, d, df), Snoc(g, e, ef))
  {
    if f.Cons? { SnocSameTree(f.next, g.next, d, e, df, ef); }
  }

  lemma {:induction false} SnocLasts(f: Forest, e: Entry, kids: Forest)
    requires LastsOk(f) && LastsOk(kids) && e.forwardLast == Last(kids) && IsChild(e.forwardPref, kids)
    ensures LastsOk(Snoc(f, e, kids))
  {
    if f.Cons? { SnocLasts(f.next, e, kids); }
  }

  /** Images in longer lists. */
  lemma {:induction false} SnocImage(f: Forest, g: Forest, d: Entry, e: Entry, df: Forest, ef: Forest, n: Entry?)
    requires SameTree(f, g) && Distinct(f)
    ensures Image(Snoc(f, d, df), Snoc(g, e, ef), n)
         == if n in Nodes(f) then Image(f, g, n) else Image(Cons(d, df, Nil), Cons(e, ef, Nil), n)
  {
    if f.Cons? { SnocImage(f.next, g.next, d, e, df, ef, n); }
  }

  // ---------------------------------------------------------------------
  // Links of a list that is being made
  // ---------------------------------------------------------------------

  /** The list `f` from `p` on, with the parent `back`; its last entry has `end` as the
      next one. */
  ghost predicate LinkedTo(f: Forest, p: Entry?, back: Entry, end: Entry?)
    reads Nodes(f)`next, Nodes(f)`forward, Nodes(f)`back
  {
    match f
    case Nil => p == end
    case Cons(e, forward, next) =>
      p == e && e.back == back && Linked(forward, e.forward, e) && LinkedTo(next, e.next, back, end)
  }

  lemma {:induction false} LinkedToNull(f: Forest, p: Entry?, back: Entry)
    requires LinkedTo(f, p, back, null)
    ensures Linked(f, p, back)
  {
    if f.Cons? { LinkedToNull(f.next, f.e.next, back); }
  }

  lemma {:induction false} LinkedToSnoc(f: Forest, p: Entry?, back: Entry, e: Entry, kids: Forest)
    requires LinkedTo(f, p, back, e) && e.back == back && Linked(kids, e.forward, e)
    ensures LinkedTo(Snoc(f, e, kids), p, back, e.next)
  {
    if f.Cons? { LinkedToSnoc(f.next, f.e.next, back, e, kids); }
  }

  /** A list without its last entry, and the children of that. */
  function Front(f: Forest): Forest
    requires f.Cons?
  {
    if f.next.Nil? then Nil else Cons(f.e, f.forward, Front(f.next))
  }

  function LastKids(f: Forest): Forest
    requires f.Cons?
  {
    if f.next.Nil? then f.forward else LastKids(f.next)
  }

  lemma {:induction false} LastIsApart(f: Forest)
    requires f.Cons? && Distinct(f)
    ensures Last(f) != null && f == Snoc(Front(f), Last(f), LastKids(f))
    ensures Nodes(Front(f)) + Nodes(LastKids(f)) + {Last(f)} == Nodes(f)
    ensures Last(f) !in Nodes(Front(f)) && Last(f) !in Nodes(LastKids(f))
  {
    if f.next.Cons? { LastIsApart(f.next); }
  }

  lemma {:induction false} LinkedToLast(f: Forest, p: Entry?, back: Entry, end: Entry?)
    requires f.Cons? && LinkedTo(f, p, back, end)
    ensures Last(f) != null && LinkedTo(Front(f), p, back, Last(f))
    ensures Last(f).back == back && Linked(LastKids(f), Last(f).forward, Last(f))
  {
    if f.next.Cons? { LinkedToLast(f.next, f.e.next, back, end); }
  }

  /** Let the last entry of a list point to another one. */
  method Redirect(prev: Entry, e: Entry, ghost f: Forest, ghost p: Entry?, ghost back: Entry, ghost end: Entry?)
    requires f.Cons? && Distinct(f) && LinkedTo(f, p, back, end) && prev == Last(f)
    modifies prev`next
    ensures LinkedTo(f, p, back, e) && prev.next == e
  {
    LastIsApart(f);
    LinkedToLast(f, p, back, end);
    ghost var front, kids := Front(f), LastKids(f);
    NodesAllocated(f);
    prev.next := e;
    LinkedToSnoc(front, p, back, prev, kids);
  }

  // ---------------------------------------------------------------------
  // Copying
  // ---------------------------------------------------------------------

  lemma NextImage(f: Forest, g: Forest, d: Entry, e: Entry, df: Forest, ef: Forest, n: Entry?)
    requires SameTree(f, g) && Distinct(f) && SameTree(df, ef) && d.page == e.page && Nodes(g) !! {d} + Nodes(df)
    ensures Image(Snoc(f, d, df), Snoc(g, e, ef), n)
         == Image(Cons(d, df, Nil), Cons(e, ef, Nil), Image(f, g, n))
  {
    SnocImage(f, g, d, e, df, ef, n);
    ImageIsIn(f, g, n);
    ImageIsIn(Cons(d, df, Nil), Cons(e, ef, Nil), Image(f, g, n));
  }

  lemma {:induction false} SiblingNotBelow(f: Forest, rest: Forest, p: Entry?)
    requires Distinct(Join(f, rest)) && rest.Cons? && IsSibling(p, Join(f, rest))
    ensures p !in Nodes(rest.forward)
  {
    JoinNodes(f, rest);
    if f.Cons? {
      if p != f.e { SiblingNotBelow(f.next, rest, p); }
    } else if p != rest.e {
      SiblingIsIn(rest.next, p);
    }
  }

  /** No entry has been given a place. */
  ghost predicate AtOrigin(f: Forest)
    reads Nodes(f)`x, Nodes(f)`y
  {
    f.Cons? ==> f.e.x == 0 && f.e.y == 0 && AtOrigin(f.forward) && AtOrigin(f.next)
  }

  lemma {:induction false} SnocAtOrigin(f: Forest, e: Entry, kids: Forest)
    requires AtOrigin(f) && AtOrigin(kids) && e.x == 0 && e.y == 0
    ensures AtOrigin(Snoc(f, e, kids))
  {
    if f.Cons? { SnocAtOrigin(f.next, e, kids); }
  }

  /** Each copy prefers the copy of the child that its original prefers. */
  ghost predicate PrefsCopied(f: Forest, g: Forest)
    reads Nodes(f)`forwardPref, Nodes(g)`forwardPref
  {
    f.Cons? && g.Cons? ==>
      && g.e.forwardPref == Image(f.forward, g.forward, f.e.forwardPref)
      && PrefsCopied(f.forward, g.forward) && PrefsCopied(f.next, g.next)
  }

  lemma {:induction false} SnocPrefs(f: Forest, g: Forest, d: Entry, e: Entry, df: Forest, ef: Forest)
    requires SameTree(f, g) && PrefsCopied(f, g) && PrefsCopied(df, ef)
    requires e.forwardPref == Image(df, ef, d.forwardPref)
    ensures PrefsCopied(Snoc(f, d, df), Snoc(g, e, ef))
  {
    if f.Cons? { SnocPrefs(f.next, g.next, d, e, df, ef); }
  }

  /** `n` is a copy of `entry`, and `g` of its children `f`. */
  ghost predicate IsCopy(entry: Entry, f: Forest, n: Entry, g: Forest)
    reads entry, n, Nodes(f), Nodes(g)
  {
    && SameTree(f, g) && PrefsCopied(f, g) && Distinct(g) && n !in Nodes(g) && AtOrigin(g) && n.x == 0 && n.y == 0
    && n.page == entry.page && n.back == entry.back && n.next == entry.next
    && Linked(g, n.forward, n) && LastsOk(g) && n.forwardLast == Last(g)
    && n.forwardPref == Image(f, g, entry.forwardPref) && IsChild(n.forwardPref, g)
  }

  /** The first children, `done`, have been copied to `g`; the others are `rest`. The
      copy of the last one still points to the next child, which is not a copy. */
  ghost predicate HalfCopied(entry: Entry, done: Forest, rest: Forest, n: Entry, g: Forest, prev: Entry?)
    reads entry, n, Nodes(done), Nodes(g)
  {
    && SameTree(done, g) && PrefsCopied(done, g) && Distinct(g) && n !in Nodes(g) && AtOrigin(g) && n.x == 0 && n.y == 0
    && n.page == entry.page && n.back == entry.back && n.next == entry.next
    && LinkedTo(g, n.forward, n, Head(rest)) && LastsOk(g) && prev == Last(g)
    && n.forwardLast == (if rest.Nil? then Last(g) else Last(rest))
    && n.forwardPref == Image(done, g, entry.forwardPref)
  }

  /** Where the loop over the children stands. */
  ghost predicate IsAt(entry: Entry, f: Forest, done: Forest, rest: Forest)
    reads entry, Nodes(f)
  {
    && Distinct(f) && f == Join(done, rest) && IsSuffix(f, rest) && entry !in Nodes(f) && Nodes(rest) <= Nodes(f)
    && Linked(rest, Head(rest), entry) && LastsOk(rest) && IsChild(entry.forwardPref, f)
  }

  /** What is known of the next child. */
  lemma NextChild(entry: Entry, f: Forest, done: Forest, rest: Forest)
    requires IsAt(entry, f, done, rest) && rest.Cons?
    ensures rest.e.next == Head(rest.next) && rest.e.back == entry && Linked(rest.forward, rest.e.forward, rest.e)
    ensures Distinct(done) && Distinct(rest) && Nodes(done) !! Nodes(rest) && Nodes(done) <= Nodes(f)
    ensures entry.forwardPref !in Nodes(rest.forward)
    ensures rest.next.Cons? ==> Last(rest.next) != rest.e
    ensures IsAt(entry, f, Snoc(done, rest.e, rest.forward), rest.next)
    ensures Nodes(Snoc(done, rest.e, rest.forward)) <= Nodes(f)
  {
    JoinNodes(done, rest);
    JoinSnoc(done, rest);
    JoinNodes(Snoc(done, rest.e, rest.forward), rest.next);
    SuffixStep(f, rest);
    SiblingNotBelow(done, rest, entry.forwardPref);
    LastIsIn(rest.next);
    LinkedIsLinkedBut(rest.next, rest.e.next, entry, null, entry);
  }

  /** The preferred child of the copy, if it pointed to `child`, points to its copy. */
  lemma PrefMoves(f: Forest, g: Forest, d: Entry, e: Entry, df: Forest, ef: Forest, p: Entry?)
    requires SameTree(f, g) && Distinct(f) && SameTree(df, ef) && d.page == e.page && Nodes(g) !! {d} + Nodes(df)
    requires p !in Nodes(df)
    ensures var x := Image(f, g, p);
            Image(Snoc(f, d, df), Snoc(g, e, ef), p) == if x == d then e else x
  {
    NextImage(f, g, d, e, df, ef, p);
    ImageIsIn(f, g, p);
  }

  /** Let the copy of the parent point to the copy of a child where it points to the
      child. */
  method Repoint(n: Entry, child: Entry, c: Entry)
    modifies n`forward, n`forwardPref, n`forwardLast
    ensures n.forward == if old(n.forward) == child then c else old(n.forward)
    ensures n.forwardPref == if old(n.forwardPref) == child then c else old(n.forwardPref)
    ensures n.forwardLast == if old(n.forwardLast) == child then c else old(n.forwardLast)
  {
    if n.forward == child { n.forward := c; }
    if n.forwardPref == child { n.forwardPref := c; }
    if n.forwardLast == child { n.forwardLast := c; }
  }

  /** Link the copy `c` of `child` behind the copies made so far. */
  method LinkCopy(n: Entry, prev: Entry?, child: Entry, c: Entry, ghost g: Forest, ghost kids: Forest)
    requires Distinct(g) && LinkedTo(g, n.forward, n, child) && prev == Last(g) && child !in Nodes(g)
    requires Linked(kids, c.forward, c) && c !in Nodes(kids) && c != n && {c} + Nodes(kids) !! {n} + Nodes(g) && n !in Nodes(g)
    modifies c`back, (if prev == null then {} else {prev})`next
    ensures Linked(kids, c.forward, c) && LinkedTo(g, if g.Nil? then c else n.forward, n, c)
    ensures LinkedTo(Snoc(g, c, kids), if g.Nil? then c else n.forward, n, c.next)
    ensures n.forward == child <==> g.Nil?
    ensures c.next == old(c.next)
  {
    NodesAllocated(g);
    NodesAllocated(kids);
    c.back := n;
    LastIsIn(g);
    if prev != null {
      Redirect(prev, c, g, n.forward, n, child);
    }
    LinkedToSnoc(g, if g.Nil? then c else n.forward, n, c, kids);
  }

  /** Neither step touches what the copies `g` prefer, or where they are. */
  method Relink(n: Entry, prev: Entry?, child: Entry, c: Entry, ghost g: Forest, ghost kids: Forest,
                ghost done': Forest, ghost g': Forest)
    requires Distinct(g) && LinkedTo(g, n.forward, n, child) && prev == Last(g) && child !in Nodes(g)
    requires Linked(kids, c.forward, c) && c !in Nodes(kids) && c != n && {c} + Nodes(kids) !! {n} + Nodes(g)
    requires g' == Snoc(g, c, kids) && n !in Nodes(g) && n !in Nodes(g') && n !in Nodes(done')
    requires LastsOk(g') && AtOrigin(g') && PrefsCopied(done', g')
    modifies c`back, n`forward, n`forwardPref, n`forwardLast
    modifies (if prev == null then {} else {prev})`next
    ensures LinkedTo(g', n.forward, n, old(c.next))
    ensures n.forwardPref == if old(n.forwardPref) == child then c else old(n.forwardPref)
    ensures n.forwardLast == if old(n.forwardLast) == child then c else old(n.forwardLast)
    ensures LastsOk(g') && AtOrigin(g') && PrefsCopied(done', g')
  {
    hide *;
    NodesAllocated(g');
    NodesAllocated(done');
    LinkCopy(n, prev, child, c, g, kids);
    Repoint(n, child, c);
  }

  /** What will hold of the lists when the copy `c` is behind the others. */
  lemma CopiesJoined(entry: Entry, n: Entry, prev: Entry?, c: Entry,
                     f: Forest, done: Forest, rest: Forest, g: Forest, kids: Forest)
    requires IsAt(entry, f, done, rest) && rest.Cons?
    requires HalfCopied(entry, done, rest, n, g, prev) && IsCopy(rest.e, rest.forward, c, kids)
    requires {n, c} + Nodes(g) + Nodes(kids) !! {entry} + Nodes(f)
    requires c != n && {c} + Nodes(kids) !! {n} + Nodes(g)
    ensures var g' := Snoc(g, c, kids);
            && SameTree(Snoc(done, rest.e, rest.forward), g') && Distinct(g') && n !in Nodes(g') && Last(g') == c
            && AtOrigin(g') && LastsOk(g') && PrefsCopied(Snoc(done, rest.e, rest.forward), g')
            && Image(Snoc(done, rest.e, rest.forward), g', entry.forwardPref)
            == if n.forwardPref == rest.e then c else n.forwardPref
  {
    NextChild(entry, f, done, rest);
    JoinNodes(done, rest);
    SnocNodes(g, c, kids);
    SnocSameTree(done, g, rest.e, c, rest.forward, kids);
    SnocAtOrigin(g, c, kids);
    SnocLasts(g, c, kids);
    SnocPrefs(done, g, rest.e, c, rest.forward, kids);
    PrefMoves(done, g, rest.e, c, rest.forward, kids, entry.forwardPref);
  }

  /** A current entry among the children done, or below the next one. */
  lemma CurrentNext(entry: Entry, n: Entry, prev: Entry?, c: Entry, was: Entry?,
                    f: Forest, done: Forest, rest: Forest, g: Forest, kids: Forest)
    requires IsAt(entry, f, done, rest) && rest.Cons?
    requires HalfCopied(entry, done, rest, n, g, prev) && IsCopy(rest.e, rest.forward, c, kids)
    requires Nodes(g) !! Nodes(f) && {c} + Nodes(kids) !! {n} + Nodes(g)
    ensures Image(Snoc(done, rest.e, rest.forward), Snoc(g, c, kids), was)
         == Image(Cons(rest.e, rest.forward, Nil), Cons(c, kids, Nil), Image(done, g, was))
    ensures Nodes(Snoc(g, c, kids)) == Nodes(g) + {c} + Nodes(kids)
  {
    NextChild(entry, f, done, rest);
    NextImage(done, g, rest.e, c, rest.forward, kids, was);
    SnocNodes(g, c, kids);
  }

  /** The next child has been copied. */
  method Attach(entry: Entry, n: Entry, prev: Entry?, child: Entry, c: Entry,
                ghost f: Forest, ghost done: Forest, ghost rest: Forest, ghost g: Forest, ghost kids: Forest)
    requires IsAt(entry, f, done, rest) && rest.Cons? && child == rest.e
    requires HalfCopied(entry, done, rest, n, g, prev) && IsCopy(child, rest.forward, c, kids)
    requires {n, c} + Nodes(g) + Nodes(kids) !! {entry} + Nodes(f)
    requires c != n && {c} + Nodes(kids) !! {n} + Nodes(g)
    modifies c`back, n`forward, n`forwardPref, n`forwardLast
    modifies (if prev == null then {} else {prev})`next
    ensures HalfCopied(entry, Snoc(done, child, rest.forward), rest.next, n, Snoc(g, c, kids), c)
  {
    hide *;
    CopiesJoined(entry, n, prev, c, f, done, rest, g, kids);
    ReadyToLink(entry, n, prev, c, f, done, rest, g, kids);
    CopiesAreApart(entry, n, prev, c, f, done, rest, g);
    Relink(n, prev, child, c, g, kids, Snoc(done, child, rest.forward), Snoc(g, c, kids));
    NowCopied(entry, Snoc(done, child, rest.forward), rest.next, n, Snoc(g, c, kids), c);
  }

  /** What linking the copy `c` asks for. */
  lemma ReadyToLink(entry: Entry, n: Entry, prev: Entry?, c: Entry,
                    f: Forest, done: Forest, rest: Forest, g: Forest, kids: Forest)
    requires IsAt(entry, f, done, rest) && rest.Cons?
    requires HalfCopied(entry, done, rest, n, g, prev) && IsCopy(rest.e, rest.forward, c, kids)
    ensures Distinct(g) && LinkedTo(g, n.forward, n, rest.e) && prev == Last(g)
    ensures Linked(kids, c.forward, c) && c !in Nodes(kids) && c.next == Head(rest.next)
    ensures n.page == entry.page && n.back == entry.back && n.next == entry.next && n.x == n.y == 0
    ensures (if n.forwardLast == rest.e then c else n.forwardLast) == if rest.next.Nil? then c else Last(rest.next)
  {
    hide IsAt, LinkedTo, Linked, Distinct, AtOrigin, LastsOk, PrefsCopied, SameTree, Image, IsChild, Join, Nodes, Snoc, Last;
    NextIsHere(entry, f, done, rest);
  }

  /** The copies made so far are none of the entries that are copied. */
  lemma CopiesAreApart(entry: Entry, n: Entry, prev: Entry?, c: Entry,
                       f: Forest, done: Forest, rest: Forest, g: Forest)
    requires IsAt(entry, f, done, rest) && rest.Cons? && HalfCopied(entry, done, rest, n, g, prev)
    requires {n, c} + Nodes(g) !! {entry} + Nodes(f)
    ensures rest.e !in Nodes(g) && n !in Nodes(g) && n !in Nodes(Snoc(done, rest.e, rest.forward))
    ensures entry != n && entry != prev && entry != c && n != prev
  {
    NextIsHere(entry, f, done, rest);
    LastIsIn(g);
    assert prev != null ==> prev in Nodes(g);
    assert n !in Nodes(g);
    hide *;
  }

  lemma NextIsHere(entry: Entry, f: Forest, done: Forest, rest: Forest)
    requires IsAt(entry, f, done, rest) && rest.Cons?
    ensures rest.e in Nodes(f) && rest.e.next == Head(rest.next) && Nodes(Snoc(done, rest.e, rest.forward)) <= Nodes(f)
    ensures Last(rest) == if rest.next.Nil? then rest.e else Last(rest.next)
    ensures rest.next.Cons? ==> Last(rest.next) != rest.e
  {
    NextChild(entry, f, done, rest);
  }

  lemma NowCopied(entry: Entry, done: Forest, rest: Forest, n: Entry, g: Forest, prev: Entry)
    requires SameTree(done, g) && Distinct(g) && n !in Nodes(g) && prev == Last(g)
    requires LinkedTo(g, n.forward, n, Head(rest)) && LastsOk(g) && AtOrigin(g) && PrefsCopied(done, g)
    requires n.page == entry.page && n.back == entry.back && n.next == entry.next && n.x == n.y == 0
    requires n.forwardLast == if rest.Nil? then prev else Last(rest)
    requires n.forwardPref == Image(done, g, entry.forwardPref)
    ensures HalfCopied(entry, done, rest, n, g, prev)
  {
  }

  /** browser_window_history__clone_entry. `f` are the children of the entry. A current
      entry is replaced by its copy. */
  method CloneEntry(h: History, entry: Entry, ghost f: Forest) returns (n: Entry, ghost g: Forest)
    requires Linked(f, entry.forward, entry) && entry !in Nodes(f) && Distinct(f) && LastsOk(f)
    requires entry.forwardLast == Last(f) && IsChild(entry.forwardPref, f)
    modifies h`current
    ensures fresh(n) && n !in Nodes(g) && IsCopy(entry, f, n, g) && forall x :: x in Nodes(g) ==> fresh(x)
    ensures h.current == Image(Cons(entry, f, Nil), Cons(n, g, Nil), old(h.current))
    decreases f, 2
  {
    NodesAllocated(f);
    n := new Entry(entry.page, entry.back);
    n.next, n.forward := entry.next, entry.forward;
    n.forwardPref, n.forwardLast := entry.forwardPref, entry.forwardLast;
    StartCopy(entry, f, n);
    g := CloneChildren(h, entry, n, f);
    CurrentMoves(entry, f, n, g, old(h.current));
    if h.current == entry {
      h.current := n;
    }
  }

  /** The loop over the children. */
  method CloneChildren(h: History, entry: Entry, n: Entry, ghost f: Forest) returns (ghost g: Forest)
    requires IsAt(entry, f, Nil, f) && HalfCopied(entry, Nil, f, n, Nil, null) && n.forward == Head(f)
    requires n != entry && n !in Nodes(f)
    modifies h`current, n`forward, n`forwardPref, n`forwardLast
    ensures IsCopy(entry, f, n, g) && forall x :: x in Nodes(g) ==> fresh(x)
    ensures h.current == Image(f, g, old(h.current)) && SameTree(f, g)
    decreases f, 1
  {
    NodesAllocated(f);
    ghost var done: Forest, rest := Nil, f;
    g := Nil;
    var child, prev: Entry? := n.forward, null;
    assert h.current == Image(done, g, old(h.current));
    hide IsAt, HalfCopied, IsCopy, Image, Linked, Distinct, LastsOk, IsChild, Snoc, Join;
    while child != null
      invariant IsAt(entry, f, done, rest) && child == Head(rest)
      invariant HalfCopied(entry, done, rest, n, g, prev) && (prev != null ==> fresh(prev))
      invariant forall x :: x in Nodes(g) ==> fresh(x)
      invariant h.current == Image(done, g, old(h.current))
      decreases rest
    {
      prev, g := CloneChild(h, entry, n, prev, child, f, done, rest, g, old(h.current));
      NextChild(entry, f, done, rest);
      done, rest := Snoc(done, rest.e, rest.forward), rest.next;
      child := child.next;
    }
    FinishCopy(entry, f, done, n, g, prev);
  }

  lemma StartCopy(entry: Entry, f: Forest, n: Entry)
    requires Linked(f, entry.forward, entry) && entry !in Nodes(f) && Distinct(f) && LastsOk(f)
    requires entry.forwardLast == Last(f) && IsChild(entry.forwardPref, f)
    requires n.page == entry.page && n.back == entry.back && n.next == entry.next && n.x == n.y == 0
    requires n.forward == entry.forward && n.forwardPref == entry.forwardPref && n.forwardLast == entry.forwardLast
    ensures IsAt(entry, f, Nil, f) && HalfCopied(entry, Nil, f, n, Nil, null) && n.forward == Head(f)
  {
    LinkedIsLinkedBut(f, entry.forward, entry, null, entry);
  }

  lemma CurrentMoves(entry: Entry, f: Forest, n: Entry, g: Forest, was: Entry?)
    requires SameTree(f, g) && entry !in Nodes(f) && entry !in Nodes(g)
    ensures var now := Image(f, g, was);
            Image(Cons(entry, f, Nil), Cons(n, g, Nil), was) == if now == entry then n else now
  {
    ImageIsIn(f, g, was);
  }

  lemma FinishCopy(entry: Entry, f: Forest, done: Forest, n: Entry, g: Forest, prev: Entry?)
    requires IsAt(entry, f, done, Nil) && HalfCopied(entry, done, Nil, n, g, prev)
    ensures done == f && SameTree(f, g) && IsCopy(entry, f, n, g)
  {
    JoinNil(done);
    LinkedToNull(g, n.forward, n);
    if f.Cons? { ImageOfSibling(f, g, entry.forwardPref); }
  }

  /** The next child can be copied. */
  lemma ChildIsReady(entry: Entry, f: Forest, done: Forest, rest: Forest)
    requires IsAt(entry, f, done, rest) && rest.Cons?
    ensures {rest.e} + Nodes(rest.forward) <= Nodes(f) && rest.e !in Nodes(rest.forward)
    ensures Linked(rest.forward, rest.e.forward, rest.e) && Distinct(rest.forward) && LastsOk(rest.forward)
    ensures rest.e.forwardLast == Last(rest.forward) && IsChild(rest.e.forwardPref, rest.forward)
    ensures f decreases to rest.forward
  {
    NextChild(entry, f, done, rest);
    SuffixIsSmaller(f, rest);
  }

  /** One of the children. */
  method CloneChild(h: History, entry: Entry, n: Entry, prev: Entry?, child: Entry,
                    ghost f: Forest, ghost done: Forest, ghost rest: Forest, ghost g: Forest, ghost was: Entry?)
    returns (c: Entry, ghost g': Forest)
    requires IsAt(entry, f, done, rest) && rest.Cons? && child == rest.e
    requires HalfCopied(entry, done, rest, n, g, prev) && h.current == Image(done, g, was)
    requires {n} + Nodes(g) !! {entry} + Nodes(f)
    modifies h`current, n`forward, n`forwardPref, n`forwardLast
    modifies (if prev == null then {} else {prev})`next
    ensures fresh(c) && forall x :: x in Nodes(g') ==> x in Nodes(g) || fresh(x)
    ensures HalfCopied(entry, Snoc(done, child, rest.forward), rest.next, n, g', c)
    ensures h.current == Image(Snoc(done, child, rest.forward), g', was)
    decreases f, 0
  {
    hide *;
    NodesAllocated(f);
    NodesAllocated(g);
    NodesAllocated(done);
    ChildIsReady(entry, f, done, rest);
    ghost var kids;
    c, kids := CloneEntry(h, child, rest.forward);
    NodesAllocated(kids);
    CurrentNext(entry, n, prev, c, was, f, done, rest, g, kids);
    Attach(entry, n, prev, child, c, f, done, rest, g, kids);
    g' := Snoc(g, c, kids);
  }

  lemma CopyIsHistory(h: History, root: Forest, c: History, n: Entry, g: Forest)
    requires IsHistory(h, root) && root.Cons? && c.start == n && n !in Nodes(g)
    requires IsCopy(root.e, root.forward, n, g) && c.current == Image(root, Cons(n, g, Nil), h.current)
    ensures var root' := Cons(n, g, Nil);
            IsHistory(c, root') && SameTree(root, root') && AtOrigin(root') && PrefsCopied(root, root')
  {
    ImageIsIn(root, Cons(n, g, Nil), h.current);
  }

  lemma StartIsReady(h: History, root: Forest)
    requires IsHistory(h, root)
    ensures root.Nil? <==> h.start == null
    ensures root.Cons? ==>
              var e, f := root.e, root.forward;
              && e == h.start && root == Cons(e, f, Nil) && Linked(f, e.forward, e) && e !in Nodes(f) && Distinct(f)
              && LastsOk(f) && e.forwardLast == Last(f) && IsChild(e.forwardPref, f)
  {
  }

  /** Fill a new history with a copy of one that is not empty. */
  method CopyInto(h: History, ghost root: Forest, c: History) returns (ghost root': Forest)
    requires IsHistory(h, root) && h.start != null && c != h
    modifies c
    ensures forall x :: x in Nodes(root') ==> fresh(x)
    ensures IsHistory(c, root') && SameTree(root, root') && c.current == Image(root, root', h.current)
    ensures PrefsCopied(root, root') && AtOrigin(root') && c.width == h.width && c.height == h.height
  {
    hide *;
    NodesAllocated(root);
    StartIsReady(h, root);
    c.start, c.current, c.width, c.height := h.start, h.current, h.width, h.height;
    var n;
    ghost var g;
    n, g := CloneEntry(c, h.start, root.forward);
    c.start := n;
    root' := Cons(n, g, Nil);
    NodesAllocated(g);
    CopyIsHistory(h, root, c, n, g);
    CopyNodes(n, g);
  }

  lemma CopyNodes(n: Entry, g: Forest)
    ensures Nodes(Cons(n, g, Nil)) == {n} + Nodes(g)
  {
  }

  /** browser_window_history_clone. The copy has the same pages in the same places of
      the tree, and the same one is current; but no entry has been placed. */
  method CloneHistory(h: History, ghost root: Forest) returns (c: History, ghost root': Forest)
    requires IsHistory(h, root)
    ensures fresh(c) && (forall x :: x in Nodes(root') ==> fresh(x)) && c.sizes == h.sizes
    ensures IsHistory(c, root') && SameTree(root, root') && c.current == Image(root, root', h.current)
    ensures PrefsCopied(root, root') && AtOrigin(root') && (root.Cons? ==> c.width == h.width && c.height == h.height)
  {
    NodesAllocated(root);
    StartIsReady(h, root);
    c := new History(h.sizes);
    root' := Nil;
    if h.start != null {
      root' := CopyInto(h, root, c);
    }
  }

  /** A copy has the layout of a picture only if it is one entry and there are no gaps;
      it stays so until an entry is added. */
  lemma CopyIsPlacedIff(s: Sizes, f: Forest)
    requires AtOrigin(f) && f.Cons? && IsTree(f) && s.width > 0
    ensures Placed(s, f, s.right / 2, s.bottom / 2) <==> f.forward.Nil? && s.right <= 1 && s.bottom <= 1
  {
    if f.forward.Cons? { assert f.forward.e.x == 0; }
  }
}
