/** The wildcard matcher behind "find in page": `*` matches any run of
    characters, `#` matches any one character (content/textsearch.c).

    `FindPattern` is the loop of the source, with its explicit stack of at most
    16 resumption contexts. `Run` is the same machine as a function. `Glob`
    says declaratively what a pattern matches. */
module TextSearch {
  import opened Ascii

  /** Capacity of the context stack. */
  const STACK_SIZE := 16

  datatype Query = Query(text: string, pattern: string, caseSens: bool)

  datatype Found = NotFound | Found(start: nat, len: nat)

  datatype Option<T> = None | Some(value: T)

  // ---------------------------------------------------------------------
  // Declarative meaning
  // ---------------------------------------------------------------------

  predicate CharMatches(q: Query, pc: char, c: char) {
    pc == '#' || (if q.caseSens then c == pc else SameLetter(c, pc))
  }

  /** How characters are compared. */
  predicate ComparesEqual(q: Query, pc: char, c: char): (r: bool)
    ensures r == CharMatches(q, pc, c)
  {
    pc == '#' || (if q.caseSens then c == pc else ToUpper(c) == ToUpper(pc))
  }

  /** `pattern[i..]` matches exactly `text[s..e]`. */
  ghost predicate Glob(q: Query, i: nat, s: nat, e: nat)
    requires i <= |q.pattern| && s <= e <= |q.text|
    decreases |q.pattern| - i, e - s
  {
    if i == |q.pattern| then s == e
    else if q.pattern[i] == '*' then Glob(q, i + 1, s, e) || (s < e && Glob(q, i, s + 1, e))
    else s < e && CharMatches(q, q.pattern[i], q.text[s]) && Glob(q, i + 1, s + 1, e)
  }

  /** Index of the first character at or after `i` that is not an asterisk. */
  function SkipStars(pattern: string, i: nat): (p: nat)
    requires i <= |pattern|
    ensures i <= p <= |pattern|
    ensures p < |pattern| ==> pattern[p] != '*'
    ensures i < p ==> pattern[p - 1] == '*'
    decreases |pattern| - i
  {
    if i < |pattern| && pattern[i] == '*' then SkipStars(pattern, i + 1) else i
  }

  lemma {:induction false} SkippedAreStars(pattern: string, i: nat)
    requires i <= |pattern|
    ensures forall k :: i <= k < SkipStars(pattern, i) ==> pattern[k] == '*'
    decreases |pattern| - i
  {
    if i < SkipStars(pattern, i) {
      SkippedAreStars(pattern, i + 1);
    }
  }

  lemma {:induction false} SkipStarsAgain(pattern: string, i: nat, j: nat)
    requires i <= |pattern| && i <= j <= SkipStars(pattern, i)
    ensures SkipStars(pattern, j) == SkipStars(pattern, i)
    decreases j - i
  {
    if i < j {
      SkipStarsAgain(pattern, i + 1, j);
    }
  }

  /** Number of leading asterisks; they add nothing to a substring search. */
  function Lead(q: Query): nat { SkipStars(q.pattern, 0) }

  /** `text[st..e]` is a substring that the pattern, without its leading
      asterisks, matches. */
  ghost predicate IsMatch(q: Query, st: nat, e: nat) {
    st <= e <= |q.text| && Glob(q, Lead(q), st, e)
  }

  /** The answer the search is meant to give: the leftmost start, and the
      shortest match from there. */
  ghost predicate IsFirstMatch(q: Query, r: Found) {
    match r
    case NotFound => forall st, e :: !IsMatch(q, st, e)
    case Found(st, len) =>
      && IsMatch(q, st, st + len)
      && (forall st', e' :: IsMatch(q, st', e') ==> st <= st')
      && (forall e' :: IsMatch(q, st, e') ==> st + len <= e')
  }

  /** Position `i` ends a group of asterisks that is followed by something
      else; -1 is the virtual asterisk in front of the pattern. */
  predicate IsGroupEnd(pattern: string, i: int) {
    -1 <= i < |pattern| - 1 && (i == -1 || pattern[i] == '*') && pattern[i + 1] != '*'
  }

  /** Number of group ends before position `k`. */
  function Groups(pattern: string, k: int): nat
    requires -1 <= k <= |pattern|
    decreases k + 1
  {
    if k == -1 then 0
    else Groups(pattern, k - 1) + (if IsGroupEnd(pattern, k - 1) then 1 else 0)
  }

  /** Number of asterisk groups with a non-asterisk on both sides. */
  function InnerGroups(q: Query): int { Groups(q.pattern, |q.pattern|) - 1 }

  // ---------------------------------------------------------------------
  // The matching machine as a function
  // ---------------------------------------------------------------------

  /** Loop variables: `ss` match start, `s` text index, `p` pattern index
      (-1 is the virtual asterisk), `first` no character matched yet. */
  datatype Frame = Frame(ss: nat, s: nat, p: int, first: bool)

  predicate FrameOk(q: Query, f: Frame) {
    && -1 <= f.p <= |q.pattern| && f.ss <= f.s <= |q.text|
    && (if f.first then f.p < Lead(q) && AtStar(q, f.p) else f.p >= Lead(q) && f.ss < f.s)
  }

  predicate AtStar(q: Query, p: int) {
    p == -1 || (0 <= p < |q.pattern| && q.pattern[p] == '*')
  }

  /** First text position at or after `s` where `pattern[p]` matches, or the
      text length. */
  function Scan(q: Query, p: nat, s: nat): (r: nat)
    requires p < |q.pattern| && s <= |q.text|
    ensures s <= r <= |q.text|
    ensures r < |q.text| ==> CharMatches(q, q.pattern[p], q.text[r])
    decreases |q.text| - s
  {
    if s < |q.text| && !CharMatches(q, q.pattern[p], q.text[s]) then Scan(q, p, s + 1) else s
  }

  /** Bound on the iterations started by a state with `a` pattern positions
      and `b` text positions to go. */
  function Bound(a: nat, b: nat): nat {
    if a == 0 || b == 0 then 0 else 2 + Bound(a - 1, b - 1) + Bound(a, b - 1)
  }

  lemma {:induction false} BoundMonotone(a: nat, b: nat, a': nat, b': nat)
    requires a <= a' && b <= b'
    ensures Bound(a, b) <= Bound(a', b')
    decreases b'
  {
    if a > 0 && b > 0 {
      BoundMonotone(a - 1, b - 1, a' - 1, b' - 1);
      BoundMonotone(a, b - 1, a', b' - 1);
    }
  }

  function Cost(q: Query, f: Frame): nat
    requires FrameOk(q, f)
  {
    Bound(|q.pattern| - f.p, |q.text| - f.s)
  }

  function StackCost(q: Query, stack: seq<Frame>): nat
    requires forall f <- stack :: FrameOk(q, f)
  {
    if stack == [] then 0
    else
      var top := stack[|stack| - 1];
      assert FrameOk(q, top);
      StackCost(q, stack[..|stack| - 1]) + 1 + Cost(q, top)
  }

  function TotalCost(q: Query, f: Frame, stack: seq<Frame>): nat
    requires FrameOk(q, f) && forall g <- stack :: FrameOk(q, g)
  {
    Cost(q, f) + StackCost(q, stack)
  }

  /** State of the loop: about to test the loop condition, or left for good. */
  datatype Machine = Go(f: Frame, stack: seq<Frame>) | Halt(result: Found)

  predicate MachineOk(q: Query, m: Machine) {
    m.Go? ==> FrameOk(q, m.f) && forall g <- m.stack :: FrameOk(q, g)
  }

  /** The match reported at the end of the pattern. */
  function MatchFrom(f: Frame): Found
    requires f.ss <= f.s
  {
    Found(f.ss, if f.s - f.ss > 1 then f.s - f.ss else 1)
  }

  /** Leaving the loop at the end of the pattern. */
  function Finish(f: Frame): Machine
    requires f.ss <= f.s
  {
    Halt(MatchFrom(f))
  }

  /** Resume with the topmost context, if there is one. */
  function Backtrack(stack: seq<Frame>): Machine {
    if stack == [] then Halt(NotFound) else Go(stack[|stack| - 1], stack[..|stack| - 1])
  }

  /** Remember where a wildcard may be extended; a full stack forgets it. */
  function Push(stack: seq<Frame>, again: Frame): seq<Frame> {
    if |stack| < STACK_SIZE then stack + [again] else stack
  }

  /** The pattern character that follows the group of asterisks at `f.p`. */
  function AfterStars(q: Query, f: Frame): (p: nat)
    requires FrameOk(q, f) && f.p < |q.pattern| && AtStar(q, f.p)
    ensures f.p < p <= |q.pattern|
    ensures p < |q.pattern| ==> IsGroupEnd(q.pattern, p - 1) && (f.first <==> p == Lead(q))
  {
    assert f.p < Lead(q) ==> SkipStars(q.pattern, f.p + 1) == Lead(q) by {
      if f.p < Lead(q) {
        SkipStarsAgain(q.pattern, 0, f.p + 1);
      }
    }
    SkipStars(q.pattern, f.p + 1)
  }

  /** The wildcard before `pattern[p]` ends at `s`, where `pattern[p]` matches. */
  function Take(f: Frame, p: nat, s: nat): Frame {
    Frame(if f.first then s else f.ss, s + 1, p + 1, false)
  }

  /** The wildcard before `pattern[p]` also swallows `text[s]`. */
  function Extend(f: Frame, p: nat, s: nat): Frame {
    Frame(f.ss, s + 1, p - 1, f.first)
  }

  /** One iteration of the loop. */
  function Step(q: Query, f: Frame, stack: seq<Frame>): (m: Machine)
    requires FrameOk(q, f) && forall g <- stack :: FrameOk(q, g)
    ensures MachineOk(q, m)
  {
    if f.p == |q.pattern| then Finish(f)
    else if AtStar(q, f.p) then
      var p := AfterStars(q, f);
      if p == |q.pattern| then Finish(f)
      else
        var s := Scan(q, p, f.s);
        if s == |q.text| then Backtrack(stack)
        else Go(Take(f, p, s), Push(stack, Extend(f, p, s)))
    else if f.s < |q.text| && CharMatches(q, q.pattern[f.p], q.text[f.s]) then
      Go(Frame(f.ss, f.s + 1, f.p + 1, false), stack)
    else Backtrack(stack)
  }

  lemma PushCost(q: Query, stack: seq<Frame>, again: Frame)
    requires FrameOk(q, again) && forall g <- stack :: FrameOk(q, g)
    ensures StackCost(q, Push(stack, again)) <= StackCost(q, stack) + 1 + Cost(q, again)
  {
    assert (stack + [again])[..|stack|] == stack;
  }

  lemma StarCost(q: Query, f: Frame, p: nat, s: nat)
    requires FrameOk(q, f) && f.p < p < |q.pattern| && f.s <= s < |q.text|
    requires FrameOk(q, Take(f, p, s)) && FrameOk(q, Extend(f, p, s))
    ensures Cost(q, Take(f, p, s)) + Cost(q, Extend(f, p, s)) + 2 <= Cost(q, f)
  {
    BoundMonotone(|q.pattern| - p - 1, |q.text| - s - 1, |q.pattern| - f.p - 1, |q.text| - f.s - 1);
    BoundMonotone(|q.pattern| - p + 1, |q.text| - s - 1, |q.pattern| - f.p, |q.text| - f.s - 1);
  }

  lemma StepDescends(q: Query, f: Frame, stack: seq<Frame>)
    requires FrameOk(q, f) && forall g <- stack :: FrameOk(q, g)
    ensures var m := Step(q, f, stack);
            m.Go? ==> TotalCost(q, m.f, m.stack) < TotalCost(q, f, stack)
  {
    if f.p < |q.pattern| && AtStar(q, f.p) {
      var p := AfterStars(q, f);
      if p < |q.pattern| && Scan(q, p, f.s) < |q.text| {
        var s := Scan(q, p, f.s);
        StarCost(q, f, p, s);
        PushCost(q, stack, Extend(f, p, s));
      }
    }
  }

  /** The run of the loop from a given state. */
  function Run(q: Query, f: Frame, stack: seq<Frame>): Found
    requires FrameOk(q, f) && forall g <- stack :: FrameOk(q, g)
    decreases TotalCost(q, f, stack)
  {
    StepDescends(q, f, stack);
    match Step(q, f, stack)
    case Halt(r) => r
    case Go(f', stack') => Run(q, f', stack')
  }

  /** The search as a whole. */
  function Search(q: Query): Found { Run(q, Frame(0, 0, -1, true), []) }

  // ---------------------------------------------------------------------
  // Greedy choice: letting every wildcard end as early as possible is enough
  // ---------------------------------------------------------------------

  /** End of the match of `pattern[i..]` from `s` in which every wildcard is as
      short as it can be. */
  function Greedy(q: Query, i: nat, s: nat): Option<nat>
    requires i <= |q.pattern| && s <= |q.text|
    decreases |q.pattern| - i, |q.text| - s
  {
    if i == |q.pattern| then Some(s)
    else if q.pattern[i] == '*' then
      var here := Greedy(q, i + 1, s);
      if here.Some? || s == |q.text| then here else Greedy(q, i, s + 1)
    else if s < |q.text| && CharMatches(q, q.pattern[i], q.text[s]) then Greedy(q, i + 1, s + 1)
    else None
  }

  lemma {:induction false} GreedyIsGlob(q: Query, i: nat, s: nat)
    requires i <= |q.pattern| && s <= |q.text| && Greedy(q, i, s).Some?
    ensures s <= Greedy(q, i, s).value <= |q.text|
    ensures Glob(q, i, s, Greedy(q, i, s).value)
    decreases |q.pattern| - i, |q.text| - s
  {
    if i == |q.pattern| {
    } else if q.pattern[i] == '*' {
      if Greedy(q, i + 1, s).Some? || s == |q.text| {
        GreedyIsGlob(q, i + 1, s);
      } else {
        GreedyIsGlob(q, i, s + 1);
      }
    } else {
      GreedyIsGlob(q, i + 1, s + 1);
    }
  }

  /** No match that starts at or after `s` ends before the greedy one. */
  lemma {:induction false} GreedyIsLeast(q: Query, i: nat, s: nat, t: nat, e: nat)
    requires i <= |q.pattern| && s <= t <= e <= |q.text| && Glob(q, i, t, e)
    requires s == t || Greedy(q, i, s).Some? || (i < |q.pattern| && q.pattern[i] == '*')
    ensures Greedy(q, i, s).Some? && Greedy(q, i, s).value <= e
    decreases |q.pattern| - i, (e - s) + (e - t)
  {
    if i == |q.pattern| {
    } else if q.pattern[i] != '*' {
      GreedyIsLeast(q, i + 1, s + 1, t + 1, e);
    } else if !Glob(q, i + 1, t, e) {
      // the wildcard swallows text[t] in the match that ends at e
      GreedyIsLeast(q, i, s, t + 1, e);
    } else if Greedy(q, i + 1, s).Some? || s == t {
      GreedyIsLeast(q, i + 1, s, t, e);
    } else {
      GreedyIsLeast(q, i, s + 1, t, e);
    }
  }

  /** Leftmost start at or after `s`, with the greedy end. */
  function LeftMost(q: Query, s: nat): Option<(nat, nat)>
    requires s <= |q.text|
    decreases |q.text| - s
  {
    var here := Greedy(q, Lead(q), s);
    if here.Some? then Some((s, here.value))
    else if s < |q.text| then LeftMost(q, s + 1)
    else None
  }

  lemma {:induction false} LeftMostIsFirst(q: Query, s: nat)
    requires s <= |q.text|
    ensures match LeftMost(q, s)
            case None => forall st, e :: s <= st ==> !IsMatch(q, st, e)
            case Some((st, e)) =>
              && s <= st && IsMatch(q, st, e)
              && (forall st', e' :: s <= st' && IsMatch(q, st', e') ==> st <= st')
              && (forall e' :: IsMatch(q, st, e') ==> e <= e')
    decreases |q.text| - s
  {
    var here := Greedy(q, Lead(q), s);
    forall e | IsMatch(q, s, e) ensures here.Some? && here.value <= e {
      GreedyIsLeast(q, Lead(q), s, s, e);
    }
    if here.Some? {
      GreedyIsGlob(q, Lead(q), s);
    } else if s < |q.text| {
      LeftMostIsFirst(q, s + 1);
    }
  }

  // ---------------------------------------------------------------------
  // What a loop state stands for
  // ---------------------------------------------------------------------

  /** The match that a loop state leads to if no context is ever forgotten. */
  function Value(q: Query, f: Frame): Option<(nat, nat)>
    requires FrameOk(q, f)
  {
    if f.first then LeftMost(q, f.s)
    else
      match Greedy(q, f.p, f.s)
      case None => None
      case Some(e) => Some((f.ss, e))
  }

  /** The first value among the current state and the contexts, top down. */
  function Outcome(q: Query, f: Frame, stack: seq<Frame>): Option<(nat, nat)>
    requires FrameOk(q, f) && forall g <- stack :: FrameOk(q, g)
    decreases |stack|
  {
    if Value(q, f).Some? || stack == [] then Value(q, f)
    else
      assert stack[|stack| - 1] in stack;
      Outcome(q, stack[|stack| - 1], stack[..|stack| - 1])
  }

  function ToFound(v: Option<(nat, nat)>): Found {
    match v
    case None => NotFound
    case Some((st, e)) => Found(st, if e - st > 1 then e - st else 1)
  }

  lemma {:induction false} GreedySkipsStars(q: Query, i: nat, s: nat)
    requires i < |q.pattern| && q.pattern[i] == '*' && s <= |q.text|
    ensures var p := SkipStars(q.pattern, i);
            Greedy(q, i, s) == if p == |q.pattern| then Some(s) else Greedy(q, p - 1, s)
    decreases |q.pattern| - i, |q.text| - s
  {
    var p := SkipStars(q.pattern, i);
    if i + 1 < p {
      assert SkipStars(q.pattern, i + 1) == p != i + 1;
      GreedySkipsStars(q, i + 1, s);
      if Greedy(q, i + 1, s).None? && s < |q.text| {
        GreedySkipsStars(q, i, s + 1);
      }
    }
  }

  /** A wildcard just before `pattern[p]` may start by skipping the text that
      cannot match `pattern[p]`. */
  lemma {:induction false} GreedyScans(q: Query, p: nat, s: nat)
    requires 0 < p < |q.pattern| && q.pattern[p - 1] == '*' && q.pattern[p] != '*' && s <= |q.text|
    ensures var s' := Scan(q, p, s);
            Greedy(q, p - 1, s) ==
              if s' == |q.text| then None
              else if Greedy(q, p + 1, s' + 1).Some? then Greedy(q, p + 1, s' + 1)
              else Greedy(q, p - 1, s' + 1)
    decreases |q.text| - s
  {
    if s < Scan(q, p, s) {
      GreedyScans(q, p, s + 1);
    }
  }

  lemma {:induction false} LeftMostScans(q: Query, s: nat)
    requires Lead(q) < |q.pattern| && s <= |q.text|
    ensures var s' := Scan(q, Lead(q), s);
            LeftMost(q, s) ==
              if s' == |q.text| then None
              else match Greedy(q, Lead(q) + 1, s' + 1)
                   case Some(e) => Some((s', e))
                   case None => LeftMost(q, s' + 1)
    decreases |q.text| - s
  {
    if s < Scan(q, Lead(q), s) {
      LeftMostScans(q, s + 1);
    }
  }

  /** A wildcard step splits a state's value over its two successors. */
  lemma StarStep(q: Query, f: Frame)
    requires FrameOk(q, f) && f.p < |q.pattern| && AtStar(q, f.p) && AfterStars(q, f) < |q.pattern|
    ensures var p := AfterStars(q, f);
            var s := Scan(q, p, f.s);
            if s == |q.text| then Value(q, f).None?
            else Value(q, f) == if Value(q, Take(f, p, s)).Some? then Value(q, Take(f, p, s))
                                else Value(q, Extend(f, p, s))
  {
    if f.first {
      LeftMostScans(q, f.s);
    } else {
      GreedySkipsStars(q, f.p, f.s);
      GreedyScans(q, AfterStars(q, f), f.s);
    }
  }

  lemma StarsAtEnd(q: Query, f: Frame)
    requires Lead(q) < |q.pattern|
    requires FrameOk(q, f) && f.p < |q.pattern| && AtStar(q, f.p) && AfterStars(q, f) == |q.pattern|
    ensures !f.first && Value(q, f) == Some((f.ss, f.s))
  {
    if f.first {
      SkipStarsAgain(q.pattern, 0, f.p + 1);
    } else {
      GreedySkipsStars(q, f.p, f.s);
    }
  }

  // ---------------------------------------------------------------------
  // Up to 15 inner groups no context is forgotten
  // ---------------------------------------------------------------------

  lemma {:induction false} GroupsMonotone(pattern: string, a: int, b: int)
    requires -1 <= a <= b <= |pattern|
    ensures Groups(pattern, a) <= Groups(pattern, b)
    decreases b - a
  {
    if a < b {
      GroupsMonotone(pattern, a, b - 1);
    }
  }

  /** Contexts sit on distinct group ends, in increasing order. */
  ghost predicate StackFits(q: Query, p: int, stack: seq<Frame>)
    requires -1 <= p <= |q.pattern|
  {
    && |stack| <= Groups(q.pattern, p)
    && forall i :: 0 <= i < |stack| ==>
         IsGroupEnd(q.pattern, stack[i].p) && i <= Groups(q.pattern, stack[i].p)
  }

  lemma StepKeepsFit(q: Query, f: Frame, stack: seq<Frame>)
    requires InnerGroups(q) < STACK_SIZE
    requires FrameOk(q, f) && forall g <- stack :: FrameOk(q, g)
    requires StackFits(q, f.p, stack)
    ensures var m := Step(q, f, stack);
            m.Go? ==> StackFits(q, m.f.p, m.stack)
    ensures Step(q, f, stack).Go? && AtStar(q, f.p) ==> |stack| < STACK_SIZE
  {
    if f.p < |q.pattern| && AtStar(q, f.p) {
      var p := AfterStars(q, f);
      if p < |q.pattern| {
        GroupsMonotone(q.pattern, f.p, p - 1);
        assert Groups(q.pattern, p) == Groups(q.pattern, p - 1) + 1;
        GroupsMonotone(q.pattern, p, p + 1);
        GroupsMonotone(q.pattern, p, |q.pattern|);
      }
    } else if f.p < |q.pattern| {
      GroupsMonotone(q.pattern, f.p, f.p + 1);
    }
  }

  lemma PushOutcome(q: Query, f: Frame, stack: seq<Frame>, again: Frame)
    requires FrameOk(q, f) && FrameOk(q, again) && forall g <- stack :: FrameOk(q, g)
    ensures Outcome(q, f, stack + [again])
         == if Value(q, f).Some? then Value(q, f) else Outcome(q, again, stack)
  {
    assert (stack + [again])[..|stack|] == stack;
  }

  lemma StepKeepsOutcome(q: Query, f: Frame, stack: seq<Frame>)
    requires Lead(q) < |q.pattern| && InnerGroups(q) < STACK_SIZE
    requires FrameOk(q, f) && forall g <- stack :: FrameOk(q, g)
    requires StackFits(q, f.p, stack)
    ensures match Step(q, f, stack)
            case Halt(r) => r == ToFound(Outcome(q, f, stack))
            case Go(f', stack') => Outcome(q, f', stack') == Outcome(q, f, stack)
  {
    hide StackFits, Lead, InnerGroups, Scan, AfterStars;
    if f.p < |q.pattern| && AtStar(q, f.p) {
      var p := AfterStars(q, f);
      if p == |q.pattern| {
        StarsAtEnd(q, f);
      } else {
        StarStep(q, f);
        var s := Scan(q, p, f.s);
        if s < |q.text| {
          StepKeepsFit(q, f, stack);
          PushOutcome(q, Take(f, p, s), stack, Extend(f, p, s));
        }
      }
    }
  }

  lemma {:induction false} RunIsOutcome(q: Query, f: Frame, stack: seq<Frame>)
    requires Lead(q) < |q.pattern| && InnerGroups(q) < STACK_SIZE
    requires FrameOk(q, f) && forall g <- stack :: FrameOk(q, g)
    requires StackFits(q, f.p, stack)
    ensures Run(q, f, stack) == ToFound(Outcome(q, f, stack))
    decreases TotalCost(q, f, stack)
  {
    StepKeepsFit(q, f, stack);
    StepKeepsOutcome(q, f, stack);
    StepDescends(q, f, stack);
    var m := Step(q, f, stack);
    if m.Go? {
      RunIsOutcome(q, m.f, m.stack);
    }
  }

  // ---------------------------------------------------------------------
  // Even with forgotten contexts, what is found is a match
  // ---------------------------------------------------------------------

  /** `text[st..e]` can still be found from the loop state `f`. */
  ghost predicate Candidate(q: Query, f: Frame, st: nat, e: nat)
    requires FrameOk(q, f)
  {
    if f.first then f.s <= st && IsMatch(q, st, e)
    else st == f.ss && f.s <= e <= |q.text| && Glob(q, f.p, f.s, e)
  }

  ghost predicate CandidateIn(q: Query, stack: seq<Frame>, st: nat, e: nat)
    requires forall g <- stack :: FrameOk(q, g)
  {
    exists g :: g in stack && Candidate(q, g, st, e)
  }

  lemma {:induction false} StarsAbsorb(q: Query, i: nat, k: nat, s: nat, t: nat, e: nat)
    requires i <= k <= |q.pattern| && s <= t <= e <= |q.text| && Glob(q, k, t, e)
    requires forall j :: i <= j < k ==> q.pattern[j] == '*'
    requires s == t || i < k || (k < |q.pattern| && q.pattern[k] == '*')
    ensures Glob(q, i, s, e)
    decreases k - i, t - s
  {
    if s < t {
      StarsAbsorb(q, i, k, s + 1, t, e);
    } else if i < k {
      StarsAbsorb(q, i + 1, k, s, t, e);
    }
  }

  lemma StarCandidate(q: Query, f: Frame, st: nat, e: nat)
    requires FrameOk(q, f) && f.p < |q.pattern| && AtStar(q, f.p) && AfterStars(q, f) < |q.pattern|
    requires var p := AfterStars(q, f);
             var s := Scan(q, p, f.s);
             s < |q.text| && (Candidate(q, Take(f, p, s), st, e) || Candidate(q, Extend(f, p, s), st, e))
    ensures Candidate(q, f, st, e)
  {
    var p := AfterStars(q, f);
    var s := Scan(q, p, f.s);
    SkippedAreStars(q.pattern, f.p + 1);
    if Candidate(q, Take(f, p, s), st, e) {
      assert Glob(q, p, s, e);
      if !f.first {
        StarsAbsorb(q, f.p, p, f.s, s, e);
      }
    } else if !f.first {
      StarsAbsorb(q, f.p, p - 1, f.s, s + 1, e);
    }
  }

  lemma StepKeepsCandidates(q: Query, f: Frame, stack: seq<Frame>, st: nat, e: nat)
    requires FrameOk(q, f) && forall g <- stack :: FrameOk(q, g)
    requires match Step(q, f, stack)
             case Halt(_) => false
             case Go(f', stack') => Candidate(q, f', st, e) || CandidateIn(q, stack', st, e)
    ensures Candidate(q, f, st, e) || CandidateIn(q, stack, st, e)
  {
    if f.p < |q.pattern| && AtStar(q, f.p) {
      var p := AfterStars(q, f);
      if p < |q.pattern| && Scan(q, p, f.s) < |q.text| {
        if Candidate(q, Take(f, p, Scan(q, p, f.s)), st, e)
        || Candidate(q, Extend(f, p, Scan(q, p, f.s)), st, e) {
          StarCandidate(q, f, st, e);
        }
      }
    }
  }

  /** Whatever is reported is a candidate of the state or of a context. */
  lemma {:induction false} RunFindsCandidate(q: Query, f: Frame, stack: seq<Frame>)
    requires Lead(q) < |q.pattern|
    requires FrameOk(q, f) && forall g <- stack :: FrameOk(q, g)
    ensures match Run(q, f, stack)
            case NotFound => true
            case Found(st, len) => Candidate(q, f, st, st + len) || CandidateIn(q, stack, st, st + len)
    decreases TotalCost(q, f, stack)
  {
    StepDescends(q, f, stack);
    var m := Step(q, f, stack);
    if m.Go? {
      RunFindsCandidate(q, m.f, m.stack);
      var r := Run(q, f, stack);
      if r.Found? {
        StepKeepsCandidates(q, f, stack, r.start, r.start + r.len);
      }
    } else if f.p < |q.pattern| && AtStar(q, f.p) && m.result.Found? {
      StarsAtEnd(q, f);
      SkippedAreStars(q.pattern, f.p + 1);
      StarsAbsorb(q, f.p, |q.pattern|, f.s, f.s, f.s);
    }
  }

  // ---------------------------------------------------------------------
  // The search as a whole
  // ---------------------------------------------------------------------

  /** Up to 15 inner asterisk groups, the search gives the leftmost and, from
      there, shortest match, and NotFound only if nothing matches. */
  lemma SearchIsFirstMatch(q: Query)
    requires Lead(q) < |q.pattern| && InnerGroups(q) < STACK_SIZE
    ensures IsFirstMatch(q, Search(q))
  {
    RunIsOutcome(q, Frame(0, 0, -1, true), []);
    LeftMostIsFirst(q, 0);
    var v := LeftMost(q, 0);
    if v.Some? {
      assert v.value.0 < v.value.1;
    }
  }

  /** However many groups there are, a reported match is a match. */
  lemma SearchReportsMatch(q: Query)
    requires Lead(q) < |q.pattern| && Search(q).Found?
    ensures IsMatch(q, Search(q).start, Search(q).start + Search(q).len)
  {
    RunFindsCandidate(q, Frame(0, 0, -1, true), []);
  }

  /** A pattern of asterisks only, or the empty pattern, is reported as a match
      of length one at the start, whatever the text. */
  lemma SearchForStars(q: Query)
    requires Lead(q) == |q.pattern|
    ensures Search(q) == Found(0, 1)
  {
    if |q.pattern| > 0 {
      SkipStarsAgain(q.pattern, 0, 0);
    }
  }

  // ---------------------------------------------------------------------
  // The bound of 15 is exact
  // ---------------------------------------------------------------------

  /** `a*a*...*a*bc`, with `g` inner asterisk groups. */
  function HardPattern(g: nat): string {
    seq(2 * g + 2, i => if i == 2 * g then 'b' else if i == 2 * g + 1 then 'c'
                        else if i % 2 == 0 then 'a' else '*')
  }

  /** `aa...abbc`: after the last `a`, `bc` is not at the first `b`. */
  function HardQuery(g: nat): Query {
    Query(seq(g + 3, i => if i < g then 'a' else if i < g + 2 then 'b' else 'c'), HardPattern(g), true)
  }

  lemma {:induction false} HardGroups(g: nat, k: nat)
    requires g > 0 && k <= 2 * g + 2
    ensures Groups(HardPattern(g), k) == 1 + (if k <= 2 * g then k / 2 else g)
  {
    if k > 0 {
      HardGroups(g, k - 1);
    }
  }

  /** The whole hard text matches. */
  lemma {:induction false} HardTextMatches(g: nat, k: nat)
    requires 0 < g && k < g
    ensures Glob(HardQuery(g), 2 * k, k, g + 3)
    decreases g - k
  {
    var q := HardQuery(g);
    if k + 1 < g {
      HardTextMatches(g, k + 1);
    } else {
      assert Glob(q, 2 * g + 2, g + 3, g + 3);
      assert Glob(q, 2 * g + 1, g + 2, g + 3);
      assert Glob(q, 2 * g, g + 1, g + 3);
      assert Glob(q, 2 * g - 1, g + 1, g + 3);
    }
    assert Glob(q, 2 * k + 1, k + 1, g + 3);
  }

  /** A match ends with the only `c`. */
  lemma {:induction false} HardMatchEnd(g: nat, i: nat, s: nat, e: nat)
    requires i < 2 * g + 2 && s <= e <= g + 3 && Glob(HardQuery(g), i, s, e)
    ensures e == g + 3
    decreases 2 * g + 2 - i, e - s
  {
    var q := HardQuery(g);
    if i == 2 * g + 1 {
      assert Glob(q, i + 1, s + 1, e);
    } else if q.pattern[i] == '*' && !Glob(q, i + 1, s, e) {
      HardMatchEnd(g, i, s + 1, e);
    } else {
      HardMatchEnd(g, i + 1, if q.pattern[i] == '*' then s else s + 1, e);
    }
  }

  /** The `k`th segment and those after it need one `a` each. */
  lemma {:induction false} HardNeedsRoom(g: nat, i: nat, s: nat, e: nat)
    requires i < 2 * g - 1 && s <= e <= g + 3 && Glob(HardQuery(g), i, s, e)
    ensures s <= (i + 1) / 2
    decreases 2 * g - i, e - s
  {
    var q := HardQuery(g);
    if i % 2 == 1 {
      if Glob(q, i + 1, s, e) {
        HardNeedsRoom(g, i + 1, s, e);
      } else {
        HardNeedsRoom(g, i, s + 1, e);
      }
    } else if i + 1 < 2 * g - 1 {
      HardNeedsRoom(g, i + 1, s + 1, e);
    }
  }

  /** The loop state in front of segment `j`, and the context it leaves. */
  function HardFrame(j: nat): Frame {
    if j == 0 then Frame(0, 0, -1, true) else Frame(0, j, 2 * j - 1, false)
  }

  function HardContext(j: nat): Frame { HardFrame(j).(s := j + 1) }

  /** The contexts left by segments `0..j`, as far as the stack has room. */
  function HardStack(j: nat): seq<Frame> {
    if j == 0 then [] else Push(HardStack(j - 1), HardContext(j - 1))
  }

  lemma HardFrameOk(g: nat, j: nat)
    requires 0 < g && j <= g
    ensures FrameOk(HardQuery(g), HardFrame(j))
    ensures j < g ==> FrameOk(HardQuery(g), HardContext(j))
  {
  }

  lemma {:induction false} HardStackOk(g: nat, j: nat)
    requires 0 < g && j <= g
    ensures |HardStack(j)| == if j < STACK_SIZE then j else STACK_SIZE
    ensures forall f <- HardStack(j) :: FrameOk(HardQuery(g), f)
  {
    if j > 0 {
      HardStackOk(g, j - 1);
      HardFrameOk(g, j - 1);
    }
  }

  /** Each segment but the last is matched at the first place tried. */
  lemma HardStep(g: nat, j: nat)
    requires j < g
    requires FrameOk(HardQuery(g), HardFrame(j)) && forall f <- HardStack(j) :: FrameOk(HardQuery(g), f)
    ensures Step(HardQuery(g), HardFrame(j), HardStack(j)) == Go(HardFrame(j + 1), HardStack(j + 1))
  {
    var q := HardQuery(g);
    assert AfterStars(q, HardFrame(j)) == 2 * j && Scan(q, 2 * j, j) == j;
  }

  /** The last segment's first character is found at the first `b`. */
  lemma HardTakeLast(g: nat, stack: seq<Frame>)
    requires STACK_SIZE <= g && |stack| == STACK_SIZE
    requires FrameOk(HardQuery(g), HardFrame(g)) && forall f <- stack :: FrameOk(HardQuery(g), f)
    ensures Step(HardQuery(g), HardFrame(g), stack) == Go(Frame(0, g + 1, 2 * g + 1, false), stack)
  {
    var q := HardQuery(g);
    assert AfterStars(q, HardFrame(g)) == 2 * g && Scan(q, 2 * g, g) == g;
  }

  /** Its second character is not there, and its context was forgotten. */
  lemma HardFailLast(g: nat, stack: seq<Frame>)
    requires 0 < g
    requires FrameOk(HardQuery(g), Frame(0, g + 1, 2 * g + 1, false)) && forall f <- stack :: FrameOk(HardQuery(g), f)
    ensures Step(HardQuery(g), Frame(0, g + 1, 2 * g + 1, false), stack) == Backtrack(stack)
  {
  }

  /** A run that steps through all the hard frames and then backtracks. */
  lemma {:induction false} RunThroughFrames(q: Query, g: nat, j: nat, last: Frame)
    requires j <= g && HardStack(g) != []
    requires FrameOk(q, last) && forall i :: j <= i <= g ==> FrameOk(q, HardFrame(i))
    requires forall i, f :: j <= i <= g && f in HardStack(i) ==> FrameOk(q, f)
    requires forall i :: j <= i < g ==>
               Step(q, HardFrame(i), HardStack(i)) == Go(HardFrame(i + 1), HardStack(i + 1))
    requires Step(q, HardFrame(g), HardStack(g)) == Go(last, HardStack(g))
    requires Step(q, last, HardStack(g)) == Backtrack(HardStack(g))
    ensures var stack := HardStack(g);
            Run(q, HardFrame(j), HardStack(j)) == Run(q, stack[|stack| - 1], stack[..|stack| - 1])
    decreases g - j
  {
    if j < g {
      RunThroughFrames(q, g, j + 1, last);
    } else {
      assert Run(q, HardFrame(g), HardStack(g)) == Run(q, last, HardStack(g));
    }
  }

  /** No context can lead to a match: its first segment has passed the only
      place from which there are enough `a`s. */
  lemma HardContextDead(g: nat, j: nat, st: nat, e: nat)
    requires j < g && FrameOk(HardQuery(g), HardContext(j))
    ensures !Candidate(HardQuery(g), HardContext(j), st, e)
  {
    if Candidate(HardQuery(g), HardContext(j), st, e) {
      if j == 0 {
        HardNeedsRoom(g, 0, st, e);
      } else {
        HardNeedsRoom(g, 2 * j - 1, j + 1, e);
      }
    }
  }

  lemma {:induction false} HardContextsDead(g: nat, j: nat, st: nat, e: nat)
    requires 0 < g && j <= g && forall f <- HardStack(j) :: FrameOk(HardQuery(g), f)
    ensures forall f <- HardStack(j) :: !Candidate(HardQuery(g), f, st, e)
  {
    if j > 0 {
      HardStackOk(g, j - 1);
      HardContextsDead(g, j - 1, st, e);
      HardFrameOk(g, j - 1);
      HardContextDead(g, j - 1, st, e);
    }
  }

  /** With 16 or more inner groups there are texts on which the only match is
      missed. */
  lemma HardIsMissed(g: nat)
    requires STACK_SIZE <= g
    ensures Search(HardQuery(g)) == NotFound
  {
    var q := HardQuery(g);
    forall i | 0 <= i <= g
      ensures FrameOk(q, HardFrame(i)) && forall f <- HardStack(i) :: FrameOk(q, f)
      ensures i < g ==> Step(q, HardFrame(i), HardStack(i)) == Go(HardFrame(i + 1), HardStack(i + 1))
    {
      HardFrameOk(g, i);
      HardStackOk(g, i);
      if i < g { HardStep(g, i); }
    }
    HardStackOk(g, g);
    var stack := HardStack(g);
    HardTakeLast(g, stack);
    HardFailLast(g, stack);
    RunThroughFrames(q, g, 0, Frame(0, g + 1, 2 * g + 1, false));
    HardStackIsDead(g);
  }

  lemma HardStackIsDead(g: nat)
    requires STACK_SIZE <= g && |HardStack(g)| == STACK_SIZE
    requires forall f <- HardStack(g) :: FrameOk(HardQuery(g), f)
    ensures var stack := HardStack(g);
            Run(HardQuery(g), stack[|stack| - 1], stack[..|stack| - 1]) == NotFound
  {
    hide Run, HardStack, FrameOk;
    var stack := HardStack(g);
    var r := Run(HardQuery(g), stack[|stack| - 1], stack[..|stack| - 1]);
    RunFindsCandidate(HardQuery(g), stack[|stack| - 1], stack[..|stack| - 1]);
    if r.Found? {
      HardContextsDead(g, g, r.start, r.start + r.len);
    }
  }

  lemma HardHasMatch(g: nat)
    requires 0 < g
    ensures var q := HardQuery(g);
            Lead(q) == 0 < |q.pattern| && InnerGroups(q) == g && IsFirstMatch(q, Found(0, g + 3))
  {
    var q := HardQuery(g);
    HardGroups(g, 2 * g + 2);
    HardTextMatches(g, 0);
    forall st, e | IsMatch(q, st, e) ensures e == g + 3 {
      HardMatchEnd(g, 0, st, e);
    }
  }

  /** The condition on the number of inner groups is exact. */
  lemma CapacityIsExact(g: nat)
    ensures (forall q :: Lead(q) < |q.pattern| && InnerGroups(q) == g ==> IsFirstMatch(q, Search(q)))
       <==> g < STACK_SIZE
  {
    if g < STACK_SIZE {
      forall q | Lead(q) < |q.pattern| && InnerGroups(q) == g ensures IsFirstMatch(q, Search(q)) {
        SearchIsFirstMatch(q);
      }
    } else {
      HardIsMissed(g);
      HardHasMatch(g);
    }
  }

  // ---------------------------------------------------------------------
  // The loop
  // ---------------------------------------------------------------------

  /** content_textsearch_find_pattern: one loop over the four variables of
      `cur`, and a fixed array used as a stack. */
  method FindPattern(text: string, pattern: string, caseSens: bool) returns (r: Found)
    ensures r == Search(Query(text, pattern, caseSens))
    ensures var q := Query(text, pattern, caseSens);
            && (Lead(q) < |pattern| && InnerGroups(q) < STACK_SIZE ==> IsFirstMatch(q, r))
            && (Lead(q) < |pattern| && r.Found? ==> IsMatch(q, r.start, r.start + r.len))
            && (Lead(q) == |pattern| ==> r == Found(0, 1))
  {
    var q := Query(text, pattern, caseSens);
    SearchMeans(q);
    var context := new Frame[STACK_SIZE];
    var cur, top: nat := Frame(0, 0, -1, true), 0;
    var running := true;
    r := NotFound;
    while running
      invariant top <= context.Length
      invariant running ==> FrameOk(q, cur) && forall g <- context[..top] :: FrameOk(q, g)
      invariant running ==> Run(q, cur, context[..top]) == Search(q)
      invariant !running ==> r == Search(q)
      decreases running, if running then TotalCost(q, cur, context[..top]) else 0
    {
      RunSteps(q, cur, context[..top]);
      running, cur, top, r := Iterate(q, context, cur, top);
    }
  }

  /** The loop condition, and the loop body if it holds. */
  method Iterate(q: Query, context: array<Frame>, f: Frame, top: nat)
    returns (running: bool, cur: Frame, top': nat, r: Found)
    requires top <= context.Length == STACK_SIZE
    requires FrameOk(q, f) && forall g <- context[..top] :: FrameOk(q, g)
    modifies context
    ensures top' <= context.Length
    ensures Step(q, f, old(context[..top])) == if running then Go(cur, context[..top']) else Halt(r)
  {
    hide CharMatches, ComparesEqual, Push, Extend;
    running, cur, top', r := true, f, top, NotFound;
    if cur.p >= |q.pattern| {
      running, r := false, MatchFrom(cur);
      return;
    }
    var matches;
    if cur.p < 0 || q.pattern[cur.p] == '*' {
      var p := NextNonStar(q.pattern, cur.p);
      if p >= |q.pattern| {
        running, r := false, MatchFrom(cur);
        return;
      }
      var s := NextMatch(q, p, cur.s);
      matches := s < |q.text|;
      if matches {
        top' := Remember(context, top, Extend(cur, p, s));
        cur := Frame(if cur.first then s else cur.ss, s, p, false);
      }
    } else if cur.s < |q.text| {
      matches := ComparesEqual(q, q.pattern[cur.p], q.text[cur.s]);
      if matches && cur.first {
        cur := cur.(ss := cur.s, first := false);
      }
    } else {
      matches := false;
    }
    if matches {
      cur := cur.(p := cur.p + 1, s := cur.s + 1);
    } else if top == 0 {
      running := false;
    } else {
      top' := top - 1;
      cur := context[top'];
      assert context[..top'] == context[..top][..top'];
    }
  }

  /** Stack a context, if there is room for it. */
  method Remember(context: array<Frame>, top: nat, again: Frame) returns (top': nat)
    requires top <= context.Length == STACK_SIZE
    modifies context
    ensures top' <= context.Length && context[..top'] == Push(old(context[..top]), again)
  {
    top' := top;
    if top < context.Length {
      context[top] := again;
      top' := top + 1;
    }
  }

  lemma RunSteps(q: Query, f: Frame, stack: seq<Frame>)
    requires FrameOk(q, f) && forall g <- stack :: FrameOk(q, g)
    ensures match Step(q, f, stack)
            case Halt(r) => Run(q, f, stack) == r
            case Go(f', stack') =>
              Run(q, f, stack) == Run(q, f', stack') && TotalCost(q, f', stack') < TotalCost(q, f, stack)
  {
    StepDescends(q, f, stack);
  }

  lemma SearchMeans(q: Query)
    ensures Lead(q) < |q.pattern| && InnerGroups(q) < STACK_SIZE ==> IsFirstMatch(q, Search(q))
    ensures Lead(q) < |q.pattern| && Search(q).Found? ==> IsMatch(q, Search(q).start, Search(q).start + Search(q).len)
    ensures Lead(q) == |q.pattern| ==> Search(q) == Found(0, 1)
  {
    if Lead(q) == |q.pattern| {
      SearchForStars(q);
    } else {
      if InnerGroups(q) < STACK_SIZE { SearchIsFirstMatch(q); }
      if Search(q).Found? { SearchReportsMatch(q); }
    }
  }

  /** Skip an asterisk and any that follow it. */
  method NextNonStar(pattern: string, p0: int) returns (p: nat)
    requires -1 <= p0 < |pattern|
    ensures p == SkipStars(pattern, p0 + 1)
  {
    p := p0 + 1;
    while p < |pattern| && pattern[p] == '*'
      invariant p0 + 1 <= p <= |pattern| && SkipStars(pattern, p) == SkipStars(pattern, p0 + 1)
    {
      p := p + 1;
    }
  }

  /** Scan forward for the character `pattern[p]`. */
  method NextMatch(q: Query, p: nat, s0: nat) returns (s: nat)
    requires p < |q.pattern| && s0 <= |q.text|
    ensures s == Scan(q, p, s0)
  {
    s := s0;
    while s < |q.text| && !ComparesEqual(q, q.pattern[p], q.text[s])
      invariant s0 <= s <= |q.text| && Scan(q, p, s) == Scan(q, p, s0)
    {
      s := s + 1;
    }
  }
}
