/** The per-region version of the widget: every scrolling region has a Context that
    keeps the stickers registered in it, the ones currently stuck (in stick order)
    and their total height, and a Sticker that sticks to the top of its context's
    view and comes off again. The caches that find a region's context and wrap each
    element once are in module Plugin. */
module StickyStack {
  import opened Dom
  import opened Arrays

  // ---------------------------------------------------------------------------
  // The stack bookkeeping, on values

  /** Sum of the heights of the stickers in `s`, a sticker that occurs twice counting twice. */
  function SumHeights(s: seq<Sticker>): (total: int)
  {
    if s == [] then 0 else SumHeights(s[..|s| - 1]) + s[|s| - 1].height
  }

  /** The stack part of a context: the stuck stickers in stick order and the running height. */
  datatype StackState = StackState(stack: seq<Sticker>, height: int)

  /** The running height is the total height of the stuck stickers. */
  predicate Balanced(st: StackState)
  {
    st.height == SumHeights(st.stack)
  }

  /** `attach`: the sticker goes to the end of the stack and its height is added. */
  function Attached(st: StackState, s: Sticker): (st': StackState)
  {
    StackState(st.stack + [s], st.height + s.height)
  }

  /** `dispatch`: if the sticker is on the stack its first occurrence is taken out and
      its height subtracted; otherwise nothing changes. */
  function Dispatched(st: StackState, s: Sticker): (st': StackState)
  {
    var pos := InArray(s, st.stack);
    if pos != -1 then StackState(Splice1(st.stack, pos), st.height - s.height) else st
  }

  /** `clear`: an empty stack of height zero. */
  function Cleared(): (st: StackState)
  {
    StackState([], 0)
  }

  lemma {:induction false} SumAppend(s: seq<Sticker>, x: Sticker)
    ensures SumHeights(s + [x]) == SumHeights(s) + x.height
  {
    assert (s + [x])[..|s|] == s;
  }

  lemma {:induction false} SumSplice(s: seq<Sticker>, pos: nat)
    requires pos < |s|
    ensures SumHeights(Splice1(s, pos)) == SumHeights(s) - s[pos].height
    decreases |s|
  {
    var n := |s| - 1;
    if pos == n {
      assert Splice1(s, pos) == s[..n];
    } else {
      var t := s[..n];
      assert Splice1(s, pos) == Splice1(t, pos) + [s[n]];
      SumSplice(t, pos);
      SumAppend(Splice1(t, pos), s[n]);
    }
  }

  /** Attaching keeps the running height equal to the sum over the stack. */
  lemma AttachBalanced(st: StackState, s: Sticker)
    requires Balanced(st)
    ensures Balanced(Attached(st, s))
  {
    SumAppend(st.stack, s);
  }

  /** Dispatching keeps the running height equal to the sum over the stack. */
  lemma DispatchBalanced(st: StackState, s: Sticker)
    requires Balanced(st)
    ensures Balanced(Dispatched(st, s))
  {
    var pos := InArray(s, st.stack);
    if pos != -1 {
      SumSplice(st.stack, pos);
    }
  }

  /** Dispatching a sticker that is on the stack removes exactly one occurrence of it,
      the first, and lowers the height by its height; one that is absent changes nothing. */
  lemma DispatchEffect(st: StackState, s: Sticker)
    ensures s !in st.stack ==> Dispatched(st, s) == st
    ensures s in st.stack ==>
      var pos := InArray(s, st.stack);
      && Dispatched(st, s).height == st.height - s.height
      && multiset(Dispatched(st, s).stack) == multiset(st.stack) - multiset{s}
      && Dispatched(st, s).stack == st.stack[..pos] + st.stack[pos + 1..]
      && s !in st.stack[..pos]
  {
    if s in st.stack {
      SpliceContents(st.stack, InArray(s, st.stack));
    }
  }

  // ---------------------------------------------------------------------------
  // One reflow pass, on values

  /** What one reflow step does to a sticker. */
  datatype Action = Stick | ComeOff | Keep

  /** The two rules of the reflow loop, checked against the height `stackHeight` taken
      before the loop. The second rule does not test the flag, so an unstuck sticker
      that fails the first rule can still be sent `comeOff`: only an unstuck sticker
      is sent `stick`, and an unstuck sticker of non-negative height is never left
      alone. */
  function Decide(sticked: bool, scrollTop: int, stackHeight: int, s: Sticker): (a: Action)
    ensures a == Stick ==> !sticked
    ensures !sticked && s.height >= 0 ==> a != Keep
  {
    if !sticked && scrollTop + stackHeight >= s.staticPos then Stick
    else if scrollTop + stackHeight - s.height < s.staticPos then ComeOff
    else Keep
  }

  /** The state a reflow pass works on: the look of every registered sticker (by
      index) and the context's stack. */
  datatype Pass = Pass(looks: seq<Look>, st: StackState)

  /** A sticker's look together with the stack of its context. */
  datatype Outcome = Outcome(look: Look, st: StackState)

  /** The body of the reflow loop for sticker `s`: `stick` places it at the current
      (live) stack height and attaches it; `comeOff` restores it and dispatches it. */
  function Step(s: Sticker, look: Look, st: StackState, scrollTop: int, stackHeight: int): (o: Outcome)
  {
    match Decide(look.sticked, scrollTop, stackHeight, s)
    case Stick => Outcome(StuckLook(st.height), Attached(st, s))
    case ComeOff => Outcome(UnstuckLook(s.staticCss), Dispatched(st, s))
    case Keep => Outcome(look, st)
  }

  /** The step of the reflow loop for the sticker at index `j`. */
  function Visit(stickers: seq<Sticker>, p: Pass, j: nat, scrollTop: int, stackHeight: int): (r: Pass)
    requires j < |stickers| == |p.looks|
    ensures |r.looks| == |p.looks|
  {
    var o := Step(stickers[j], p.looks[j], p.st, scrollTop, stackHeight);
    Pass(p.looks[j := o.look], o.st)
  }

  /** The context invariant, on values, for a duplicate-free list of registered
      stickers: the height is balanced, no sticker is stacked twice, only registered
      stickers are stacked, a sticker is on the stack exactly when its flag is set,
      and an unstuck sticker shows its static style with its placeholder hidden. */
  predicate Coherent(stickers: seq<Sticker>, p: Pass)
  {
    && |p.looks| == |stickers|
    && Balanced(p.st)
    && Distinct(p.st.stack)
    && (forall s :: s in p.st.stack ==> s in stickers)
    && (forall j :: 0 <= j < |stickers| ==> (stickers[j] in p.st.stack <==> p.looks[j].sticked))
    && (forall j :: 0 <= j < |stickers| && !p.looks[j].sticked ==> p.looks[j] == UnstuckLook(stickers[j].staticCss))
  }

  /** Sticking an unstuck registered sticker keeps the invariant. */
  lemma StickCoherent(stickers: seq<Sticker>, p: Pass, j: nat)
    requires j < |stickers| && Distinct(stickers) && Coherent(stickers, p) && !p.looks[j].sticked
    ensures Coherent(stickers, Pass(p.looks[j := StuckLook(p.st.height)], Attached(p.st, stickers[j])))
  {
    var s := stickers[j];
    var r := Pass(p.looks[j := StuckLook(p.st.height)], Attached(p.st, s));
    AttachBalanced(p.st, s);
    forall k | 0 <= k < |stickers| ensures stickers[k] in r.st.stack <==> r.looks[k].sticked {
      if k != j { assert stickers[k] != s; }
    }
  }

  /** A registered sticker coming off, stuck or not, keeps the invariant. */
  lemma ComeOffCoherent(stickers: seq<Sticker>, p: Pass, j: nat)
    requires j < |stickers| && Distinct(stickers) && Coherent(stickers, p)
    ensures Coherent(stickers, Pass(p.looks[j := UnstuckLook(stickers[j].staticCss)], Dispatched(p.st, stickers[j])))
  {
    var s := stickers[j];
    var r := Pass(p.looks[j := UnstuckLook(s.staticCss)], Dispatched(p.st, s));
    DispatchBalanced(p.st, s);
    var pos := InArray(s, p.st.stack);
    if pos != -1 {
      SpliceDistinct(p.st.stack, pos);
    }
    forall k | 0 <= k < |stickers| ensures stickers[k] in r.st.stack <==> r.looks[k].sticked {
      if k != j { assert stickers[k] != s; }
    }
  }

  lemma VisitCoherent(stickers: seq<Sticker>, p: Pass, j: nat, scrollTop: int, stackHeight: int)
    requires j < |stickers| == |p.looks|
    ensures Distinct(stickers) && Coherent(stickers, p) ==> Coherent(stickers, Visit(stickers, p, j, scrollTop, stackHeight))
  {
    if !(Distinct(stickers) && Coherent(stickers, p)) { return; }
    match Decide(p.looks[j].sticked, scrollTop, stackHeight, stickers[j])
    case Stick => StickCoherent(stickers, p, j);
    case ComeOff => ComeOffCoherent(stickers, p, j);
    case Keep => assert p.looks[j := p.looks[j]] == p.looks;
  }

  /** The reflow loop after its first `i` steps. Each step keeps the context
      invariant, so the loop does. */
  function ReflowUpTo(stickers: seq<Sticker>, p: Pass, scrollTop: int, stackHeight: int, i: nat): (r: Pass)
    requires i <= |stickers| == |p.looks|
    ensures |r.looks| == |p.looks|
    ensures Distinct(stickers) && Coherent(stickers, p) ==> Coherent(stickers, r)
  {
    if i == 0 then p
    else
      var q := ReflowUpTo(stickers, p, scrollTop, stackHeight, i - 1);
      VisitCoherent(stickers, q, i - 1, scrollTop, stackHeight);
      Visit(stickers, q, i - 1, scrollTop, stackHeight)
  }

  /** One whole reflow pass, every sticker checked against the height the stack had
      when the pass began. It keeps the context invariant. */
  function ReflowPass(stickers: seq<Sticker>, p: Pass, scrollTop: int): (r: Pass)
    requires |stickers| == |p.looks|
    ensures Distinct(stickers) && Coherent(stickers, p) ==> Coherent(stickers, r)
  {
    ReflowUpTo(stickers, p, scrollTop, p.st.height, |stickers|)
  }

  /** The loop touches sticker `j` only at step `j`: before it the sticker is as it
      was, after it the sticker keeps the look that step gave it. */
  lemma {:induction false} ReflowVisitsOnce(stickers: seq<Sticker>, p: Pass, scrollTop: int, stackHeight: int, i: nat, j: nat)
    requires i <= |stickers| == |p.looks| && j < |stickers|
    ensures j >= i ==> ReflowUpTo(stickers, p, scrollTop, stackHeight, i).looks[j] == p.looks[j]
    ensures j < i ==> ReflowUpTo(stickers, p, scrollTop, stackHeight, i).looks[j]
                      == ReflowUpTo(stickers, p, scrollTop, stackHeight, j + 1).looks[j]
  {
    if i > 0 && i - 1 != j {
      ReflowVisitsOnce(stickers, p, scrollTop, stackHeight, i - 1, j);
    }
  }

  /** What a pass does to the flag of each sticker depends only on that sticker's own
      flag and on the height the stack had before the pass: it is stuck afterwards
      exactly when the first rule fired, or when neither rule fired and it was stuck
      already. */
  lemma ReflowOutcome(stickers: seq<Sticker>, p: Pass, scrollTop: int, j: nat)
    requires |stickers| == |p.looks| && j < |stickers|
    ensures ReflowPass(stickers, p, scrollTop).looks[j].sticked <==>
      match Decide(p.looks[j].sticked, scrollTop, p.st.height, stickers[j])
      case Stick => true
      case ComeOff => false
      case Keep => p.looks[j].sticked
  {
    var h := p.st.height;
    ReflowVisitsOnce(stickers, p, scrollTop, h, |stickers|, j);
    ReflowVisitsOnce(stickers, p, scrollTop, h, j, j);
  }

  /** The unguarded second rule is harmless on a coherent state: sending `comeOff` to
      an unstuck sticker changes neither the stack nor the sticker. */
  lemma ComeOffUnstuckNoOp(stickers: seq<Sticker>, p: Pass, j: nat)
    requires Coherent(stickers, p) && j < |stickers| && !p.looks[j].sticked
    ensures Dispatched(p.st, stickers[j]) == p.st
    ensures p.looks[j := UnstuckLook(stickers[j].staticCss)] == p.looks
  {
    DispatchEffect(p.st, stickers[j]);
  }

  /** When the first rule fires on a balanced stack, the sticker goes to the top of
      the stack and is fixed at the total height of the stickers stuck before it. */
  lemma StickOffset(s: Sticker, look: Look, st: StackState, scrollTop: int, stackHeight: int)
    requires Balanced(st) && Decide(look.sticked, scrollTop, stackHeight, s) == Stick
    ensures var o := Step(s, look, st, scrollTop, stackHeight);
            var n := |o.st.stack| - 1;
            && n == |st.stack| && o.st.stack[n] == s && o.st.stack[..n] == st.stack
            && o.look == StuckLook(SumHeights(o.st.stack[..n]))
            && Balanced(o.st)
  {
    var o := Step(s, look, st, scrollTop, stackHeight);
    assert o.st.stack[..|st.stack|] == st.stack;
    AttachBalanced(st, s);
  }

  /** `stick` has no guard of its own: sticking an already stuck sticker attaches it a
      second time, so it is on the stack twice and its height is counted twice. */
  lemma StickTwiceDuplicates(st: StackState, s: Sticker)
    requires s in st.stack && Balanced(st)
    ensures !Distinct(Attached(st, s).stack)
    ensures Balanced(Attached(st, s)) && Attached(st, s).height == st.height + s.height
  {
    var i :| 0 <= i < |st.stack| && st.stack[i] == s;
    assert Attached(st, s).stack[i] == Attached(st, s).stack[|st.stack|];
    AttachBalanced(st, s);
  }

  // ---------------------------------------------------------------------------
  // The objects

  /** Looks of the stickers, in order. */
  ghost function LooksOf(ss: seq<Sticker>): (r: seq<Look>)
    reads ss`sticked, ss`css, ss`placeholderVisible
    ensures |r| == |ss| && forall j :: 0 <= j < |ss| ==> r[j] == ss[j].View()
  {
    if ss == [] then [] else [ss[0].View()] + LooksOf(ss[1..])
  }

  /** A scrolling region and the stickers registered in it. */
  class Context {
    /** The region: the window, or a scrollable element. */
    const node: Node
    /** The total height of the stuck stickers. */
    var height: int
    /** Every registered sticker, in registration order. */
    var stickers: seq<Sticker>
    /** The stuck stickers, in stick order. */
    var stack: seq<Sticker>

    function Stacked(): (st: StackState)
      reads this
    {
      StackState(stack, height)
    }

    /** The context invariant: the height is the sum over the stack, no sticker is
        registered or stacked twice, only registered stickers are stacked, a registered
        sticker is stacked exactly when its flag is set, and an unstuck one shows its
        static style with its placeholder hidden. */
    ghost predicate Valid()
      reads this, stickers`sticked, stickers`css, stickers`placeholderVisible
    {
      && Balanced(Stacked())
      && Distinct(stickers)
      && Distinct(stack)
      && (forall s :: s in stack ==> s in stickers)
      && (forall s :: s in stickers ==>
            && s.context == this
            && (s in stack <==> s.sticked)
            && (!s.sticked ==> s.View() == UnstuckLook(s.staticCss)))
    }

    /** The invariant gives the value-level `Coherent` of the context's state ... */
    lemma ValidCoherent()
      requires Valid()
      ensures Distinct(stickers) && Coherent(stickers, Pass(LooksOf(stickers), Stacked()))
      ensures forall s :: s in stickers ==> s.context == this
    {
    }

    /** ... and follows from it. */
    lemma CoherentValid()
      requires Distinct(stickers) && Coherent(stickers, Pass(LooksOf(stickers), Stacked()))
      requires forall s :: s in stickers ==> s.context == this
      ensures Valid()
    {
      var looks := LooksOf(stickers);
      forall s | s in stickers ensures (s in stack <==> s.sticked) && (!s.sticked ==> s.View() == UnstuckLook(s.staticCss)) {
        var j :| 0 <= j < |stickers| && stickers[j] == s;
        assert looks[j] == s.View();
      }
    }

    constructor (node: Node)
      ensures this.node == node && height == 0 && stickers == [] && stack == []
      ensures Valid()
    {
      this.node := node;
      height := 0;
      stickers := [];
      stack := [];
    }

    /** `addSticker`: registers a sticker and returns how many there are. */
    method AddSticker(s: Sticker) returns (count: nat)
      modifies this
      ensures stickers == old(stickers) + [s] && Stacked() == old(Stacked())
      ensures count == |stickers|
    {
      stickers := stickers + [s];
      count := |stickers|;
    }

    /** `removeSticker`: unregisters a sticker if it is registered and returns how many remain. */
    method RemoveSticker(s: Sticker) returns (count: nat)
      modifies this
      ensures s in old(stickers) ==> stickers == Splice1(old(stickers), InArray(s, old(stickers)))
      ensures s !in old(stickers) ==> stickers == old(stickers)
      ensures Stacked() == old(Stacked())
      ensures count == |stickers|
    {
      var pos := InArray(s, stickers);
      if pos != -1 {
        stickers := Splice1(stickers, pos);
      }
      count := |stickers|;
    }

    /** `attach`: puts a sticker on top of the stack. */
    method Attach(s: Sticker)
      modifies this
      ensures Stacked() == Attached(old(Stacked()), s)
      ensures stickers == old(stickers)
      ensures old(Balanced(Stacked())) ==> Balanced(Stacked())
    {
      if Balanced(Stacked()) { AttachBalanced(Stacked(), s); }
      height := height + s.height;
      stack := stack + [s];
    }

    /** `dispatch`: takes a sticker off the stack if it is there. */
    method Dispatch(s: Sticker)
      modifies this
      ensures Stacked() == Dispatched(old(Stacked()), s)
      ensures stickers == old(stickers)
      ensures old(Balanced(Stacked())) ==> Balanced(Stacked())
    {
      if Balanced(Stacked()) { DispatchBalanced(Stacked(), s); }
      var pos := InArray(s, stack);
      if pos != -1 {
        stack := Splice1(stack, pos);
        height := height - s.height;
      }
    }

    /** `getStackHeight`: in a balanced context, the total height of the stuck
        stickers. */
    function GetStackHeight(): (h: int)
      reads this
      ensures Balanced(Stacked()) ==> h == SumHeights(stack)
    {
      height
    }

    /** `clear`: every stuck sticker comes off without touching the stack, then the
        stack is emptied. */
    method Clear()
      modifies this, stack
      ensures Stacked() == Cleared() && stickers == old(stickers)
      ensures forall s :: s in old(stack) ==> s.View() == UnstuckLook(s.staticCss)
      ensures old(Valid()) ==> Valid()
    {
      var i := 0;
      while i < |stack|
        invariant 0 <= i <= |stack|
        invariant stack == old(stack) && height == old(height) && stickers == old(stickers)
        invariant forall j :: 0 <= j < i ==> stack[j].View() == UnstuckLook(stack[j].staticCss)
      {
        stack[i].ComeOff(true);
        i := i + 1;
      }
      ghost var was := stack;
      stack := [];
      height := 0;
      if old(Valid()) {
        forall j | 0 <= j < |stickers|
          ensures stickers[j].View() == UnstuckLook(stickers[j].staticCss)
        {
          var s := stickers[j];
          if s in was {
            var k :| 0 <= k < |was| && was[k] == s;
          } else {
            assert !old(LooksOf(stickers))[j].sticked;
          }
        }
      }
    }

    /** One reflow pass (the function `makeReflow` returns), at scroll offset
        `scrollTop`: the stack height is read once, then every registered sticker is
        checked in registration order against that height. */
    method Reflow(scrollTop: int)
      requires Valid()
      modifies this, stickers
      ensures Valid() && stickers == old(stickers)
      ensures var r := ReflowPass(stickers, Pass(old(LooksOf(stickers)), old(Stacked())), scrollTop);
              LooksOf(stickers) == r.looks && Stacked() == r.st
    {
      ValidCoherent();
      var stackHeight := GetStackHeight();
      EachSticker(scrollTop, stackHeight);
      CoherentValid();
    }

    /** The `$.each` loop of a reflow pass: every registered sticker, in order, goes
        through the reflow callback with the same `stackHeight`. */
    method EachSticker(scrollTop: int, stackHeight: int)
      requires Distinct(stickers) && forall s :: s in stickers ==> s.context == this
      modifies this, stickers
      ensures stickers == old(stickers)
      ensures var r := ReflowUpTo(stickers, Pass(old(LooksOf(stickers)), old(Stacked())), scrollTop, stackHeight, |stickers|);
              LooksOf(stickers) == r.looks && Stacked() == r.st
    {
      ghost var p0 := Pass(LooksOf(stickers), Stacked());
      ghost var p := p0;
      var i := 0;
      while i < |stickers|
        invariant 0 <= i <= |stickers| && stickers == old(stickers)
        invariant p == ReflowUpTo(stickers, p0, scrollTop, stackHeight, i)
        invariant Stacked() == p.st
        invariant forall j :: 0 <= j < |stickers| ==> stickers[j].View() == p.looks[j]
      {
        p := VisitAt(i, scrollTop, stackHeight, p0, p);
        i := i + 1;
      }
      assert LooksOf(stickers) == p.looks;
    }

    /** Step `i` of the `$.each` loop, followed on the ghost pass state `p`, the state
        after the first `i` steps from `p0`. */
    method VisitAt(i: nat, scrollTop: int, stackHeight: int, ghost p0: Pass, ghost p: Pass) returns (ghost q: Pass)
      requires i < |stickers| == |p0.looks| && Distinct(stickers)
      requires p == ReflowUpTo(stickers, p0, scrollTop, stackHeight, i)
      requires forall s :: s in stickers ==> s.context == this
      requires Stacked() == p.st
      requires forall j :: 0 <= j < |stickers| ==> stickers[j].View() == p.looks[j]
      modifies this, stickers[i]
      ensures stickers == old(stickers)
      ensures q == ReflowUpTo(stickers, p0, scrollTop, stackHeight, i + 1) && Stacked() == q.st
      ensures forall j :: 0 <= j < |stickers| ==> stickers[j].View() == q.looks[j]
    {
      var sticker := stickers[i];
      ReflowStep(sticker, scrollTop, stackHeight);
      q := Visit(stickers, p, i, scrollTop, stackHeight);
      forall j | 0 <= j < |stickers| && j != i
        ensures stickers[j].View() == q.looks[j]
      {
        assert stickers[j] != sticker;
      }
    }

    /** The callback the reflow loop runs for each sticker. */
    method ReflowStep(sticker: Sticker, scrollTop: int, stackHeight: int)
      requires sticker.context == this
      modifies this, sticker
      ensures Outcome(sticker.View(), Stacked()) == Step(sticker, old(sticker.View()), old(Stacked()), scrollTop, stackHeight)
      ensures stickers == old(stickers)
    {
      if !sticker.sticked && scrollTop + stackHeight >= sticker.staticPos {
        sticker.Stick();
      } else if scrollTop + stackHeight - sticker.height < sticker.staticPos {
        sticker.ComeOff(false);
      }
    }
  }

  /** An element that sticks, in the context it was registered with. */
  class Sticker {
    /** The element. */
    const node: Node
    const context: Context
    /** Its outer height, measured once. */
    const height: int
    /** Its offset from the top of the document, measured once. */
    const staticPos: int
    /** Its original inline `position` and `top`. */
    const staticCss: Css
    var sticked: bool
    /** Its current inline `position` and `top`. */
    var css: Css
    /** Whether the placeholder after it is shown. */
    var placeholderVisible: bool
    /** Whether the placeholder is still in the document. */
    var placeholderInDom: bool

    function View(): (l: Look)
      reads this`sticked, this`css, this`placeholderVisible
    {
      Look(sticked, css, placeholderVisible)
    }

    /** Wraps an element whose measured height, offset and style are given, inserts
        its hidden placeholder and registers it in `context`. */
    constructor (node: Node, context: Context, height: int, staticPos: int, staticCss: Css)
      modifies context
      ensures this.node == node && this.context == context
      ensures this.height == height && this.staticPos == staticPos && this.staticCss == staticCss
      ensures View() == UnstuckLook(staticCss) && placeholderInDom
      ensures context.stickers == old(context.stickers) + [this]
      ensures context.Stacked() == old(context.Stacked())
      ensures old(context.Valid()) ==> context.Valid()
    {
      this.node := node;
      this.context := context;
      this.height := height;
      this.staticPos := staticPos;
      this.staticCss := staticCss;
      sticked := false;
      css := staticCss;
      placeholderVisible := false;
      placeholderInDom := true;
      new;
      var _ := context.AddSticker(this);
    }

    /** `stick`: fixes the sticker at the height of the stack as it is now and puts it
        on the stack. There is no test of the flag. */
    method Stick()
      modifies this, context
      ensures View() == StuckLook(old(context.height))
      ensures context.Stacked() == Attached(old(context.Stacked()), this)
      ensures context.stickers == old(context.stickers) && placeholderInDom == old(placeholderInDom)
    {
      var stackHeight := context.GetStackHeight();
      css := Css(Fixed, Px(stackHeight));
      context.Attach(this);
      placeholderVisible := true;
      sticked := true;
    }

    /** `comeOff`: restores the static style and, unless `force`, takes the sticker
        off the stack. There is no test of the flag. */
    method ComeOff(force: bool)
      modifies this, if force then {} else {context}
      ensures View() == UnstuckLook(staticCss) && placeholderInDom == old(placeholderInDom)
      ensures force ==> unchanged(context)
      ensures !force ==> context.Stacked() == Dispatched(old(context.Stacked()), this)
                         && context.stickers == old(context.stickers)
      ensures !force && old(context.Valid()) ==> context.Valid()
    {
      if !force {
        ghost var pos := InArray(this, context.stack);
        if context.Valid() && pos != -1 {
          SpliceDistinct(context.stack, pos);
        }
        context.Dispatch(this);
      }
      css := staticCss;
      placeholderVisible := false;
      sticked := false;
    }

    /** `destroy`: comes off if stuck, removes the placeholder and unregisters. */
    method Destroy()
      modifies this, context
      ensures !sticked && !placeholderInDom
      ensures View() == if old(sticked) then UnstuckLook(staticCss) else old(View())
      ensures context.Stacked() == if old(sticked) then Dispatched(old(context.Stacked()), this) else old(context.Stacked())
      ensures this in old(context.stickers) ==> context.stickers == Splice1(old(context.stickers), InArray(this, old(context.stickers)))
      ensures this !in old(context.stickers) ==> context.stickers == old(context.stickers)
      ensures old(context.Valid()) ==> context.Valid() && this !in context.stickers
      ensures old(context.Valid()) && this in old(context.stickers) ==> View() == UnstuckLook(staticCss)
    {
      if sticked {
        ComeOff(false);
      }
      ghost var valid := context.Valid();
      ghost var pos := InArray(this, context.stickers);
      if valid && pos != -1 {
        SpliceDistinct(context.stickers, pos);
      }
      placeholderInDom := false;
      var _ := context.RemoveSticker(this);
    }
  }
}
