/** Worked scrolls through both versions of the widget: three stickers at offsets
    100, 300 and 500 with heights 50, 60 and 40, scrolled to 0, 120, 260 and back
    to 30; and a pair of stickers on which reading the stack height once per pass
    and reading it live disagree. */
module Scenarios {
  import opened Dom
  import StickyStack
  import Sticky
  import Arrays

  /** Three stickers with the given offsets and heights, all in the static style `css`. */
  predicate ThreeStack(a: StickyStack.Sticker, b: StickyStack.Sticker, c: StickyStack.Sticker, css: Css)
  {
    && a != b && b != c && a != c
    && a.staticPos == 100 && a.height == 50 && a.staticCss == css
    && b.staticPos == 300 && b.height == 60 && b.staticCss == css
    && c.staticPos == 500 && c.height == 40 && c.staticCss == css
  }

  predicate ThreePage(a: Sticky.Sticker, b: Sticky.Sticker, c: Sticky.Sticker, css: Css)
  {
    && a.staticPos == 100 && a.height == 50 && a.staticCss == css
    && b.staticPos == 300 && b.height == 60 && b.staticCss == css
    && c.staticPos == 500 && c.height == 40 && c.staticCss == css
  }

  /** A reflow pass over two or three stickers is its steps, one after the other. */
  lemma {:induction false} ReflowSteps(ss: seq<StickyStack.Sticker>, p: StickyStack.Pass, t: int, qs: seq<StickyStack.Pass>)
    requires |ss| == |p.looks| == |qs| && 2 <= |ss| <= 3
    requires forall k :: 0 <= k < |ss| ==> |qs[k].looks| == |ss|
    requires qs[0] == StickyStack.Visit(ss, p, 0, t, p.st.height)
    requires forall k :: 0 < k < |ss| ==> qs[k] == StickyStack.Visit(ss, qs[k - 1], k, t, p.st.height)
    ensures StickyStack.ReflowPass(ss, p, t) == qs[|ss| - 1]
  {
    var h := p.st.height;
    assert StickyStack.ReflowUpTo(ss, p, t, h, 1) == qs[0];
    assert StickyStack.ReflowUpTo(ss, p, t, h, 2) == qs[1];
    if |ss| == 3 {
      assert StickyStack.ReflowUpTo(ss, p, t, h, 3) == qs[2];
    }
  }

  /** A run of the scroll handler over two or three stickers is its steps, one after
      the other. */
  lemma {:induction false} ScanSteps(ss: seq<Sticky.Sticker>, p: Sticky.Scan, t: int, qs: seq<Sticky.Scan>)
    requires |ss| == |p.looks| == |qs| && 2 <= |ss| <= 3
    requires forall k :: 0 <= k < |ss| ==> |qs[k].looks| == |ss|
    requires qs[0] == Sticky.Visit(ss, p, 0, t)
    requires forall k :: 0 < k < |ss| ==> qs[k] == Sticky.Visit(ss, qs[k - 1], k, t)
    ensures Sticky.OnScrollPass(ss, p, t) == qs[|ss| - 1]
  {
    assert Sticky.ScanUpTo(ss, p, t, 1) == qs[0];
    assert Sticky.ScanUpTo(ss, p, t, 2) == qs[1];
    if |ss| == 3 {
      assert Sticky.ScanUpTo(ss, p, t, 3) == qs[2];
    }
  }

  // The states of the three-sticker page, in the per-region version.

  function CtxStart(css: Css): (p: StickyStack.Pass)
  {
    StickyStack.Pass([UnstuckLook(css), UnstuckLook(css), UnstuckLook(css)], StickyStack.StackState([], 0))
  }

  function CtxAt120(a: StickyStack.Sticker, css: Css): (p: StickyStack.Pass)
  {
    StickyStack.Pass([StuckLook(0), UnstuckLook(css), UnstuckLook(css)], StickyStack.StackState([a], 50))
  }

  function CtxAt260(a: StickyStack.Sticker, b: StickyStack.Sticker, css: Css): (p: StickyStack.Pass)
  {
    StickyStack.Pass([StuckLook(0), StuckLook(50), UnstuckLook(css)], StickyStack.StackState([a, b], 110))
  }

  /** At 0 nothing sticks; the second rule sends every sticker `comeOff`, which
      changes nothing. */
  lemma ContextAt0(a: StickyStack.Sticker, b: StickyStack.Sticker, c: StickyStack.Sticker, css: Css)
    requires ThreeStack(a, b, c, css)
    ensures StickyStack.ReflowPass([a, b, c], CtxStart(css), 0) == CtxStart(css)
  {
    var u := UnstuckLook(css);
    var start := CtxStart(css);
    assert start.looks[0 := u] == start.looks && start.looks[1 := u] == start.looks && start.looks[2 := u] == start.looks;
    ReflowSteps([a, b, c], start, 0, [start, start, start]);
  }

  /** At 120 the first sticks at offset 0 and the stack is 50 high; the second and
      third fail the first rule and are sent `comeOff`, which changes nothing for
      them. */
  lemma ContextAt120(a: StickyStack.Sticker, b: StickyStack.Sticker, c: StickyStack.Sticker, css: Css)
    requires ThreeStack(a, b, c, css)
    ensures StickyStack.ReflowPass([a, b, c], CtxStart(css), 120) == CtxAt120(a, css)
  {
    var u := UnstuckLook(css);
    var q := CtxAt120(a, css);
    assert CtxStart(css).looks[0 := StuckLook(0)] == q.looks;
    assert q.looks[1 := u] == q.looks && q.looks[2 := u] == q.looks;
    assert StickyStack.Dispatched(q.st, b) == q.st;
    assert StickyStack.Dispatched(q.st, c) == q.st;
    ReflowSteps([a, b, c], CtxStart(css), 120, [q, q, q]);
  }

  /** At 260 the second sticks at offset 50 and the stack is 110 high. */
  lemma ContextAt260(a: StickyStack.Sticker, b: StickyStack.Sticker, c: StickyStack.Sticker, css: Css)
    requires ThreeStack(a, b, c, css)
    ensures StickyStack.ReflowPass([a, b, c], CtxAt120(a, css), 260) == CtxAt260(a, b, css)
  {
    var u := UnstuckLook(css);
    var p, q := CtxAt120(a, css), CtxAt260(a, b, css);
    assert p.looks[1 := StuckLook(50)] == q.looks;
    assert q.looks[2 := u] == q.looks;
    assert StickyStack.Dispatched(q.st, c) == q.st;
    ReflowSteps([a, b, c], p, 260, [p, q, q]);
  }

  /** Back at 30 both come off, the first before the second, and the page is as it
      started. */
  lemma ContextAt30(a: StickyStack.Sticker, b: StickyStack.Sticker, c: StickyStack.Sticker, css: Css)
    requires ThreeStack(a, b, c, css)
    ensures StickyStack.ReflowPass([a, b, c], CtxAt260(a, b, css), 30) == CtxStart(css)
  {
    var ss := [a, b, c];
    var u := UnstuckLook(css);
    var p, start := CtxAt260(a, b, css), CtxStart(css);
    var y := StickyStack.Pass([u, StuckLook(50), u], StickyStack.StackState([b], 60));
    assert StickyStack.Visit(ss, p, 0, 30, 110) == y by {
      assert StickyStack.Decide(true, 30, 110, a) == StickyStack.ComeOff;
      assert p.looks[0 := u] == y.looks;
      assert Arrays.InArray(a, [a, b]) == 0;
      assert Arrays.Splice1([a, b], 0) == [b];
    }
    assert StickyStack.Visit(ss, y, 1, 30, 110) == start by {
      assert StickyStack.Decide(true, 30, 110, b) == StickyStack.ComeOff;
      assert y.looks[1 := u] == start.looks;
      assert Arrays.InArray(b, [b]) == 0;
      assert Arrays.Splice1([b], 0) == [];
    }
    assert StickyStack.Visit(ss, start, 2, 30, 110) == start by {
      assert StickyStack.Decide(false, 30, 110, c) == StickyStack.ComeOff;
      assert start.looks[2 := u] == start.looks;
    }
    ReflowSteps(ss, p, 30, [y, start, start]);
  }

  /** The whole per-region scroll: 0, 120, 260, then back to 30. */
  lemma ContextScenario(a: StickyStack.Sticker, b: StickyStack.Sticker, c: StickyStack.Sticker, css: Css)
    requires ThreeStack(a, b, c, css)
    ensures var ss := [a, b, c];
      && StickyStack.ReflowPass(ss, CtxStart(css), 0) == CtxStart(css)
      && StickyStack.ReflowPass(ss, CtxStart(css), 120) == CtxAt120(a, css)
      && StickyStack.ReflowPass(ss, CtxAt120(a, css), 260) == CtxAt260(a, b, css)
      && StickyStack.ReflowPass(ss, CtxAt260(a, b, css), 30) == CtxStart(css)
  {
    ContextAt0(a, b, c, css);
    ContextAt120(a, b, c, css);
    ContextAt260(a, b, c, css);
    ContextAt30(a, b, c, css);
  }

  // The same page in the earlier version.

  function PageStart(css: Css): (p: Sticky.Scan)
  {
    Sticky.Scan([UnstuckLook(css), UnstuckLook(css), UnstuckLook(css)], 0)
  }

  function PageAt120(css: Css): (p: Sticky.Scan)
  {
    Sticky.Scan([StuckLook(0), UnstuckLook(css), UnstuckLook(css)], 50)
  }

  function PageAt260(css: Css): (p: Sticky.Scan)
  {
    Sticky.Scan([StuckLook(0), StuckLook(50), UnstuckLook(css)], 110)
  }

  lemma PageAt0Pass(a: Sticky.Sticker, b: Sticky.Sticker, c: Sticky.Sticker, css: Css)
    requires ThreePage(a, b, c, css)
    ensures Sticky.OnScrollPass([a, b, c], PageStart(css), 0) == PageStart(css)
  {
    var start := PageStart(css);
    ScanSteps([a, b, c], start, 0, [start, start, start]);
  }

  lemma PageAt120Pass(a: Sticky.Sticker, b: Sticky.Sticker, c: Sticky.Sticker, css: Css)
    requires ThreePage(a, b, c, css)
    ensures Sticky.OnScrollPass([a, b, c], PageStart(css), 120) == PageAt120(css)
  {
    var q := PageAt120(css);
    assert PageStart(css).looks[0 := StuckLook(0)] == q.looks;
    ScanSteps([a, b, c], PageStart(css), 120, [q, q, q]);
  }

  lemma PageAt260Pass(a: Sticky.Sticker, b: Sticky.Sticker, c: Sticky.Sticker, css: Css)
    requires ThreePage(a, b, c, css)
    ensures Sticky.OnScrollPass([a, b, c], PageAt120(css), 260) == PageAt260(css)
  {
    var p, q := PageAt120(css), PageAt260(css);
    assert p.looks[1 := StuckLook(50)] == q.looks;
    ScanSteps([a, b, c], p, 260, [p, q, q]);
  }

  lemma PageAt30Pass(a: Sticky.Sticker, b: Sticky.Sticker, c: Sticky.Sticker, css: Css)
    requires ThreePage(a, b, c, css)
    ensures Sticky.OnScrollPass([a, b, c], PageAt260(css), 30) == PageStart(css)
  {
    var u := UnstuckLook(css);
    var p, start := PageAt260(css), PageStart(css);
    var y := Sticky.Scan([u, StuckLook(50), u], 60);
    assert p.looks[0 := u] == y.looks && y.looks[1 := u] == start.looks;
    ScanSteps([a, b, c], p, 30, [y, start, start]);
  }

  /** The earlier version, on the same page and the same scroll: the same states,
      because on this page no sticker's decision is changed by a sticker before it in
      the same run. */
  lemma PageScenario(a: Sticky.Sticker, b: Sticky.Sticker, c: Sticky.Sticker, css: Css)
    requires ThreePage(a, b, c, css)
    ensures var ss := [a, b, c];
      && Sticky.OnScrollPass(ss, PageStart(css), 0) == PageStart(css)
      && Sticky.OnScrollPass(ss, PageStart(css), 120) == PageAt120(css)
      && Sticky.OnScrollPass(ss, PageAt120(css), 260) == PageAt260(css)
      && Sticky.OnScrollPass(ss, PageAt260(css), 30) == PageStart(css)
  {
    PageAt0Pass(a, b, c, css);
    PageAt120Pass(a, b, c, css);
    PageAt260Pass(a, b, c, css);
    PageAt30Pass(a, b, c, css);
  }

  /** Two stickers, at offsets 100 and 140 with heights 50 and 10, none stuck, one
      run at scroll offset 100. Both versions stick the first. The per-region
      version checks the second against the height the stack had before the run (0)
      and leaves it in place; the earlier version checks it against the height after
      the first stuck (50) and sticks it below the first. */
  lemma SnapshotAndLiveDiffer(x: StickyStack.Sticker, y: StickyStack.Sticker, x': Sticky.Sticker, y': Sticky.Sticker, css: Css)
    requires x != y
    requires x.staticPos == 100 && x.height == 50 && x.staticCss == css
    requires y.staticPos == 140 && y.height == 10 && y.staticCss == css
    requires x'.staticPos == 100 && x'.height == 50 && x'.staticCss == css
    requires y'.staticPos == 140 && y'.height == 10 && y'.staticCss == css
    ensures var r := StickyStack.ReflowPass([x, y], StickyStack.Pass([UnstuckLook(css), UnstuckLook(css)], StickyStack.StackState([], 0)), 100);
      r == StickyStack.Pass([StuckLook(0), UnstuckLook(css)], StickyStack.StackState([x], 50))
    ensures var r := Sticky.OnScrollPass([x', y'], Sticky.Scan([UnstuckLook(css), UnstuckLook(css)], 0), 100);
      r == Sticky.Scan([StuckLook(0), StuckLook(50)], 60)
  {
    var u := UnstuckLook(css);
    var p := StickyStack.Pass([u, u], StickyStack.StackState([], 0));
    var q := StickyStack.Pass([StuckLook(0), u], StickyStack.StackState([x], 50));
    assert [u, u][0 := StuckLook(0)] == q.looks && q.looks[1 := u] == q.looks;
    assert StickyStack.Dispatched(q.st, y) == q.st;
    ReflowSteps([x, y], p, 100, [q, q]);

    var p' := Sticky.Scan([u, u], 0);
    var q1 := Sticky.Scan([StuckLook(0), u], 50);
    assert [u, u][0 := StuckLook(0)] == q1.looks && q1.looks[1 := StuckLook(50)] == [StuckLook(0), StuckLook(50)];
    ScanSteps([x', y'], p', 100, [q1, Sticky.Scan([StuckLook(0), StuckLook(50)], 60)]);
  }
}
