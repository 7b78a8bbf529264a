/** The earlier version of the widget: one page-wide stack, kept as a running height,
    and one list of stickers that a scroll handler walks. */
module Sticky {
  import opened Dom
  import opened Arrays

  // ---------------------------------------------------------------------------
  // The scroll pass, on values

  /** Total height of the stickers whose look is stuck. */
  function SumStuck(stickers: seq<Sticker>, looks: seq<Look>): (total: int)
    requires |looks| == |stickers|
  {
    if stickers == [] then 0
    else
      var n := |stickers| - 1;
      SumStuck(stickers[..n], looks[..n]) + (if looks[n].sticked then stickers[n].height else 0)
  }

  /** The contribution of a sticker to the total, when its look is `l`. */
  function Share(s: Sticker, l: Look): (h: int)
  {
    if l.sticked then s.height else 0
  }

  /** With no negative heights, the total is never negative. */
  lemma {:induction false} SumStuckNonNegative(stickers: seq<Sticker>, looks: seq<Look>)
    requires |looks| == |stickers|
    requires forall j :: 0 <= j < |stickers| ==> stickers[j].height >= 0
    ensures SumStuck(stickers, looks) >= 0
    decreases |stickers|
  {
    if stickers != [] {
      SumStuckNonNegative(stickers[..|stickers| - 1], looks[..|stickers| - 1]);
    }
  }

  /** Changing the look of one sticker changes the total by the difference of its shares. */
  lemma {:induction false} SumStuckUpdate(stickers: seq<Sticker>, looks: seq<Look>, j: nat, l: Look)
    requires |looks| == |stickers| && j < |stickers|
    ensures SumStuck(stickers, looks[j := l])
            == SumStuck(stickers, looks) - Share(stickers[j], looks[j]) + Share(stickers[j], l)
    decreases |stickers|
  {
    var n := |stickers| - 1;
    var looks' := looks[j := l];
    if j == n {
      assert looks'[..n] == looks[..n];
    } else {
      assert looks'[..n] == looks[..n][j := l];
      SumStuckUpdate(stickers[..n], looks[..n], j, l);
    }
  }

  /** The state the scroll handler works on: the look of every sticker (by index) and
      the height of the stack. */
  datatype Scan = Scan(looks: seq<Look>, height: int)

  /** A sticker's look together with the height of the stack. */
  datatype Outcome = Outcome(look: Look, height: int)

  /** `stick`: nothing if stuck already; otherwise the sticker is fixed at the current
      height of the stack, which grows by its height. */
  function StickOutcome(s: Sticker, look: Look, height: int): (o: Outcome)
  {
    if look.sticked then Outcome(look, height) else Outcome(StuckLook(height), height + s.height)
  }

  /** `comeOff`: nothing if not stuck; otherwise the sticker gets its static style back
      and the stack shrinks by its height. */
  function ComeOffOutcome(s: Sticker, look: Look, height: int): (o: Outcome)
  {
    if !look.sticked then Outcome(look, height) else Outcome(UnstuckLook(s.staticCss), height - s.height)
  }

  /** What one step of the scroll handler does to a sticker. */
  datatype Action = Stick | ComeOff | Keep

  /** The two rules of the scroll handler, checked against the height `height` the stack
      has when the sticker is reached. Both rules test the flag: only an unstuck
      sticker is sent `stick` and only a stuck one `comeOff`. */
  function Decide(sticked: bool, scrollTop: int, height: int, s: Sticker): (a: Action)
    ensures a == Stick ==> !sticked
    ensures a == ComeOff ==> sticked
  {
    if !sticked && scrollTop + height >= s.staticPos then Stick
    else if sticked && scrollTop + height - s.height < s.staticPos then ComeOff
    else Keep
  }

  /** A decision settles: a sticker that is sent `stick` is kept when it is checked
      again at the same offset with the stack grown by its height, and one that is
      sent `comeOff` is kept when checked again with the stack shrunk by it. */
  lemma DecideSettles(scrollTop: int, height: int, s: Sticker)
    ensures Decide(false, scrollTop, height, s) == Stick ==> Decide(true, scrollTop, height + s.height, s) == Keep
    ensures Decide(true, scrollTop, height, s) == ComeOff ==> Decide(false, scrollTop, height - s.height, s) == Keep
  {
  }

  /** One step of the scroll handler for sticker `s`. */
  function Step(s: Sticker, look: Look, scrollTop: int, height: int): (o: Outcome)
  {
    match Decide(look.sticked, scrollTop, height, s)
    case Stick => StickOutcome(s, look, height)
    case ComeOff => ComeOffOutcome(s, look, height)
    case Keep => Outcome(look, height)
  }

  /** The step for the sticker at index `j`, which reads the height as it is now. */
  function Visit(stickers: seq<Sticker>, p: Scan, j: nat, scrollTop: int): (r: Scan)
    requires j < |stickers| == |p.looks|
    ensures |r.looks| == |p.looks|
  {
    var o := Step(stickers[j], p.looks[j], scrollTop, p.height);
    Scan(p.looks[j := o.look], o.height)
  }

  /** The page invariant, on values: the height of the stack is the total height of
      the stuck stickers, and an unstuck sticker shows its static style with its
      placeholder hidden. */
  predicate Coherent(stickers: seq<Sticker>, p: Scan)
  {
    && |p.looks| == |stickers|
    && p.height == SumStuck(stickers, p.looks)
    && (forall j :: 0 <= j < |stickers| && !p.looks[j].sticked ==> p.looks[j] == UnstuckLook(stickers[j].staticCss))
  }

  /** Appending an unstuck sticker keeps the invariant. */
  lemma AppendCoherent(stickers: seq<Sticker>, p: Scan, s: Sticker)
    requires Coherent(stickers, p)
    ensures Coherent(stickers + [s], Scan(p.looks + [UnstuckLook(s.staticCss)], p.height))
  {
    var ss := stickers + [s];
    var looks := p.looks + [UnstuckLook(s.staticCss)];
    assert ss[..|stickers|] == stickers && looks[..|stickers|] == p.looks;
  }

  /** `stick` on the sticker at index `j` keeps the invariant. */
  lemma StickCoherent(stickers: seq<Sticker>, p: Scan, j: nat)
    requires j < |stickers| && Coherent(stickers, p)
    ensures var o := StickOutcome(stickers[j], p.looks[j], p.height);
            Coherent(stickers, Scan(p.looks[j := o.look], o.height))
  {
    var o := StickOutcome(stickers[j], p.looks[j], p.height);
    if !p.looks[j].sticked {
      SumStuckUpdate(stickers, p.looks, j, o.look);
    } else {
      assert p.looks[j := o.look] == p.looks;
    }
  }

  /** `comeOff` on the sticker at index `j` keeps the invariant. */
  lemma ComeOffCoherent(stickers: seq<Sticker>, p: Scan, j: nat)
    requires j < |stickers| && Coherent(stickers, p)
    ensures var o := ComeOffOutcome(stickers[j], p.looks[j], p.height);
            Coherent(stickers, Scan(p.looks[j := o.look], o.height))
  {
    var o := ComeOffOutcome(stickers[j], p.looks[j], p.height);
    if p.looks[j].sticked {
      SumStuckUpdate(stickers, p.looks, j, o.look);
    } else {
      assert p.looks[j := o.look] == p.looks;
    }
  }

  lemma VisitCoherent(stickers: seq<Sticker>, p: Scan, j: nat, scrollTop: int)
    requires j < |stickers| == |p.looks|
    ensures Coherent(stickers, p) ==> Coherent(stickers, Visit(stickers, p, j, scrollTop))
  {
    if !Coherent(stickers, p) { return; }
    match Decide(p.looks[j].sticked, scrollTop, p.height, stickers[j])
    case Stick => StickCoherent(stickers, p, j);
    case ComeOff => ComeOffCoherent(stickers, p, j);
    case Keep => assert p.looks[j := p.looks[j]] == p.looks;
  }

  /** The scroll handler after its first `i` steps. Each step keeps the invariant, so
      the handler does. */
  function ScanUpTo(stickers: seq<Sticker>, p: Scan, scrollTop: int, i: nat): (r: Scan)
    requires i <= |stickers| == |p.looks|
    ensures |r.looks| == |p.looks|
    ensures Coherent(stickers, p) ==> Coherent(stickers, r)
  {
    if i == 0 then p
    else
      var q := ScanUpTo(stickers, p, scrollTop, i - 1);
      VisitCoherent(stickers, q, i - 1, scrollTop);
      Visit(stickers, q, i - 1, scrollTop)
  }

  /** One whole run of the scroll handler. It keeps the invariant. */
  function OnScrollPass(stickers: seq<Sticker>, p: Scan, scrollTop: int): (r: Scan)
    requires |stickers| == |p.looks|
    ensures Coherent(stickers, p) ==> Coherent(stickers, r)
  {
    ScanUpTo(stickers, p, scrollTop, |stickers|)
  }

  /** The handler touches sticker `j` only at step `j`: before it the sticker is as it
      was, after it the sticker keeps the look that step gave it. So a sticker changes
      state at most once per run. */
  lemma {:induction false} ScanVisitsOnce(stickers: seq<Sticker>, p: Scan, scrollTop: int, i: nat, j: nat)
    requires i <= |stickers| == |p.looks| && j < |stickers|
    ensures j >= i ==> ScanUpTo(stickers, p, scrollTop, i).looks[j] == p.looks[j]
    ensures j < i ==> ScanUpTo(stickers, p, scrollTop, i).looks[j] == ScanUpTo(stickers, p, scrollTop, j + 1).looks[j]
  {
    if i > 0 && i - 1 != j {
      ScanVisitsOnce(stickers, p, scrollTop, i - 1, j);
    }
  }

  /** Sticker `j` is checked against the height the stack has when the handler reaches
      it, after the steps of the stickers before it: it is stuck after the run exactly
      when the first rule fired at that height, or when neither rule fired and it was
      stuck already. */
  lemma ScanOutcome(stickers: seq<Sticker>, p: Scan, scrollTop: int, j: nat)
    requires |stickers| == |p.looks| && j < |stickers|
    ensures var live := ScanUpTo(stickers, p, scrollTop, j).height;
      OnScrollPass(stickers, p, scrollTop).looks[j].sticked <==>
      match Decide(p.looks[j].sticked, scrollTop, live, stickers[j])
      case Stick => true
      case ComeOff => false
      case Keep => p.looks[j].sticked
  {
    ScanVisitsOnce(stickers, p, scrollTop, |stickers|, j);
    ScanVisitsOnce(stickers, p, scrollTop, j, j);
  }

  /** Sticking an unstuck sticker and then taking it off restores both its look and the
      height of the stack. */
  lemma StickComeOffRoundTrip(s: Sticker, look: Look, height: int)
    requires look == UnstuckLook(s.staticCss)
    ensures var o := StickOutcome(s, look, height);
            o.look.sticked && o.height == height + s.height
            && ComeOffOutcome(s, o.look, o.height) == Outcome(look, height)
  {
  }

  /** `stick` is idempotent, and so is `comeOff`. */
  lemma GuardsIdempotent(s: Sticker, look: Look, height: int)
    ensures var o := StickOutcome(s, look, height);
            o.look.sticked && StickOutcome(s, o.look, o.height) == o
    ensures var o := ComeOffOutcome(s, look, height);
            !o.look.sticked && ComeOffOutcome(s, o.look, o.height) == o
  {
  }

  // ---------------------------------------------------------------------------
  // The objects

  /** Looks of the stickers, in order. */
  ghost function LooksOf(ss: seq<Sticker>): (r: seq<Look>)
    reads ss`sticked, ss`css, ss`placeholderVisible
    ensures |r| == |ss| && forall j :: 0 <= j < |ss| ==> r[j] == ss[j].View()
  {
    if ss == [] then [] else [ss[0].View()] + LooksOf(ss[1..])
  }

  /** The looks of `ss` are determined pointwise. */
  lemma LooksOfPointwise(ss: seq<Sticker>, looks: seq<Look>)
    requires |looks| == |ss| && forall j :: 0 <= j < |ss| ==> ss[j].View() == looks[j]
    ensures LooksOf(ss) == looks
  {
  }

  lemma LooksOfAppend(ss: seq<Sticker>, s: Sticker)
    ensures LooksOf(ss + [s]) == LooksOf(ss) + [s.View()]
  {
    var l, r := LooksOf(ss + [s]), LooksOf(ss) + [s.View()];
    assert |l| == |r|;
    forall j | 0 <= j < |l| ensures l[j] == r[j] {
      if j < |ss| { assert (ss + [s])[j] == ss[j]; }
    }
  }

  /** The page-wide stack. Its array of stickers is never filled, because `push`
      stores into a misspelled property instead of the next index, and `remove` looks
      for the array inside the sticker, which always fails and so always takes the
      height off. What is left is the running height. */
  class Stack {
    var height: int

    constructor ()
      ensures height == 0
    {
      height := 0;
    }

    /** `push`: adds the sticker's height and returns the new height. */
    method Push(s: Sticker) returns (h: int)
      modifies this
      ensures height == old(height) + s.height && h == height
    {
      height := height + s.height;
      h := height;
    }

    /** `remove`: subtracts the sticker's height, whether it was pushed or not, and
        returns the new height. */
    method Remove(s: Sticker) returns (h: int)
      modifies this
      ensures height == old(height) - s.height && h == height
    {
      height := height - s.height;
      h := height;
    }

    /** `getHeight`: the running height of the stack. */
    function GetHeight(): (h: int)
      reads this
    {
      height
    }
  }

  /** An element that sticks to the top of the window. */
  class Sticker {
    /** Its outer height, measured once. */
    const height: int
    /** Its offset from the top of the document, measured once. */
    const staticPos: int
    /** Its original inline `position` and `top`. */
    const staticCss: Css
    var sticked: bool
    /** Its current inline `position` and `top`. */
    var css: Css
    /** Whether the placeholder after it is shown. */
    var placeholderVisible: bool

    function View(): (l: Look)
      reads this`sticked, this`css, this`placeholderVisible
    {
      Look(sticked, css, placeholderVisible)
    }

    /** Wraps an element whose measured height, offset and style are given. */
    constructor (height: int, staticPos: int, staticCss: Css)
      ensures this.height == height && this.staticPos == staticPos && this.staticCss == staticCss
      ensures View() == UnstuckLook(staticCss)
    {
      this.height := height;
      this.staticPos := staticPos;
      this.staticCss := staticCss;
      sticked := false;
      css := staticCss;
      placeholderVisible := false;
    }

    /** `stick`, guarded by the flag. */
    method Stick(stack: Stack)
      modifies this, stack
      ensures Outcome(View(), stack.height) == StickOutcome(this, old(View()), old(stack.height))
    {
      if sticked {
        return;
      }
      var stackHeight := stack.GetHeight();
      css := Css(Fixed, Px(stackHeight));
      var _ := stack.Push(this);
      placeholderVisible := true;
      sticked := true;
    }

    /** `comeOff`, guarded by the flag. */
    method ComeOff(stack: Stack)
      modifies this, stack
      ensures Outcome(View(), stack.height) == ComeOffOutcome(this, old(View()), old(stack.height))
    {
      if !sticked {
        return;
      }
      var _ := stack.Remove(this);
      css := staticCss;
      placeholderVisible := false;
      sticked := false;
    }
  }

  /** The script's state: the stack and the list of stickers. */
  class Page {
    const stack: Stack
    var stickers: seq<Sticker>

    /** The page invariant: no sticker is listed twice, and the stickers' looks and the
        stack's height are `Coherent`. */
    ghost predicate Valid()
      reads this, stack`height, stickers`sticked, stickers`css, stickers`placeholderVisible
    {
      Distinct(stickers) && Coherent(stickers, Scan(LooksOf(stickers), stack.height))
    }

    constructor ()
      ensures stickers == [] && stack.height == 0 && fresh(stack)
      ensures Valid()
    {
      stack := new Stack();
      stickers := [];
    }

    /** On a valid page, `getHeight` returns the total height of the stuck stickers,
        so a sticker is fixed below the ones stuck before it, never above the top
        when no height is negative. */
    lemma GetHeightIsStuckTotal()
      requires Valid()
      ensures stack.GetHeight() == SumStuck(stickers, LooksOf(stickers))
      ensures (forall s :: s in stickers ==> s.height >= 0) ==> stack.GetHeight() >= 0
    {
      if forall s :: s in stickers ==> s.height >= 0 {
        SumStuckNonNegative(stickers, LooksOf(stickers));
      }
    }

    /** Wraps one element and appends its sticker to the list. */
    method Register(height: int, staticPos: int, staticCss: Css) returns (s: Sticker)
      requires Valid()
      modifies this
      ensures fresh(s) && s.height == height && s.staticPos == staticPos && s.staticCss == staticCss
      ensures stickers == old(stickers) + [s] && s.View() == UnstuckLook(staticCss)
      ensures Valid()
    {
      s := new Sticker(height, staticPos, staticCss);
      ghost var p := Scan(LooksOf(stickers), stack.height);
      AppendCoherent(stickers, p, s);
      LooksOfAppend(stickers, s);
      AppendDistinct(stickers, s);
      stickers := stickers + [s];
    }

    /** `onScroll` at scroll offset `scrollTop`: every sticker, in order, is checked
        against the height the stack has when it is reached. */
    method OnScroll(scrollTop: int)
      requires Valid()
      modifies stack, stickers
      ensures Valid()
      ensures var r := OnScrollPass(stickers, Scan(old(LooksOf(stickers)), old(stack.height)), scrollTop);
              LooksOf(stickers) == r.looks && stack.height == r.height
    {
      ghost var p0 := Scan(LooksOf(stickers), stack.height);
      EachSticker(scrollTop, p0);
      LooksOfPointwise(stickers, OnScrollPass(stickers, p0, scrollTop).looks);
    }

    /** The `for` loop of `onScroll`, from the scan state `p0` the stickers and the
        stack are in. */
    method EachSticker(scrollTop: int, ghost p0: Scan)
      requires Distinct(stickers) && |p0.looks| == |stickers| && stack.height == p0.height
      requires forall j :: 0 <= j < |stickers| ==> stickers[j].View() == p0.looks[j]
      modifies stack, stickers
      ensures var r := ScanUpTo(stickers, p0, scrollTop, |stickers|);
              stack.height == r.height && forall j :: 0 <= j < |stickers| ==> stickers[j].View() == r.looks[j]
    {
      ghost var p := p0;
      var i := 0;
      while i < |stickers|
        invariant 0 <= i <= |stickers|
        invariant p == ScanUpTo(stickers, p0, scrollTop, i)
        invariant stack.height == p.height
        invariant forall j :: 0 <= j < |stickers| ==> stickers[j].View() == p.looks[j]
      {
        p := VisitAt(i, scrollTop, p0, p);
        i := i + 1;
      }
    }

    /** Step `i` of `onScroll`, followed on the ghost scan state `p`, the state after
        the first `i` steps from `p0`. */
    method VisitAt(i: nat, scrollTop: int, ghost p0: Scan, ghost p: Scan) returns (ghost q: Scan)
      requires i < |stickers| == |p0.looks| && Distinct(stickers)
      requires p == ScanUpTo(stickers, p0, scrollTop, i)
      requires stack.height == p.height
      requires forall j :: 0 <= j < |stickers| ==> stickers[j].View() == p.looks[j]
      modifies stack, stickers[i]
      ensures q == ScanUpTo(stickers, p0, scrollTop, i + 1) && stack.height == q.height
      ensures forall j :: 0 <= j < |stickers| ==> stickers[j].View() == q.looks[j]
    {
      var sticker := stickers[i];
      if !sticker.sticked && scrollTop + stack.height >= sticker.staticPos {
        sticker.Stick(stack);
      } else if sticker.sticked && scrollTop + stack.height - sticker.height < sticker.staticPos {
        sticker.ComeOff(stack);
      }
      q := Visit(stickers, p, i, scrollTop);
      forall j | 0 <= j < |stickers| && j != i
        ensures stickers[j].View() == q.looks[j]
      {
        assert stickers[j] != sticker;
      }
    }
  }
}
