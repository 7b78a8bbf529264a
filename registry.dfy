/** The plugin entry points of the per-region version: the caches that map a scrolling
    region to its context and an element to its sticker. */
module Plugin {
  import opened Dom
  import opened Arrays
  import opened StickyStack

  /** An element the plugin is applied to, as measured when it is wrapped: its outer
      height, its document offset, its inline style, and the region found by looking up
      its ancestors for the `context` option (`None` when there is no option or no
      ancestor matches). */
  datatype Target = Target(node: Node, height: int, staticPos: int, css: Css, region: Option<Node>)

  /** The node whose context `getContext` uses: the region if one was found, the
      window otherwise. */
  function RegionNode(region: Option<Node>): (n: Node)
  {
    if region.Some? then region.value else Window
  }

  /** A sticker built from target `t`. Only constant fields are involved. */
  predicate BuiltFrom(s: Sticker, t: Target)
  {
    s.node == t.node && s.height == t.height && s.staticPos == t.staticPos && s.staticCss == t.css
    && s.context.node == RegionNode(t.region)
  }

  /** `t[k]` is the first target for its element. */
  predicate FirstFor(targets: seq<Target>, k: nat)
    requires k < |targets|
  {
    forall m :: 0 <= m < k ==> targets[m].node != targets[k].node
  }

  /** The cache `m` holds a sticker built from target `t`. */
  predicate Made(m: map<Node, Sticker>, t: Target)
  {
    t.node in m && BuiltFrom(m[t.node], t)
  }

  /** The elements of `targets`. */
  function NodesOf(targets: seq<Target>): (r: set<Node>)
  {
    set k | 0 <= k < |targets| :: targets[k].node
  }

  /** The region nodes of `targets`. */
  function RegionsOf(targets: seq<Target>): (r: set<Node>)
  {
    set k | 0 <= k < |targets| :: RegionNode(targets[k].region)
  }

  lemma NodesOfSnoc(targets: seq<Target>, i: nat)
    requires i < |targets|
    ensures NodesOf(targets[..i + 1]) == NodesOf(targets[..i]) + {targets[i].node}
    ensures RegionsOf(targets[..i + 1]) == RegionsOf(targets[..i]) + {RegionNode(targets[i].region)}
  {
    assert targets[..i + 1] == targets[..i] + [targets[i]];
  }

  /** One step of the `initSticker` loop, on the sticker cache: if `cache` holds, for
      the targets before `i`, exactly the elements of those targets besides the ones in
      `before`, and a sticker built from the first target of each new element, and
      `cache'` is `cache` with at most a sticker for target `i` added (added when its
      element was new), then `cache'` holds the same for the targets up to `i`. */
  lemma InitStep(targets: seq<Target>, i: nat, before: map<Node, Sticker>, cache: map<Node, Sticker>, cache': map<Node, Sticker>)
    requires i < |targets|
    requires cache.Keys == before.Keys + NodesOf(targets[..i])
    requires forall k :: 0 <= k < i && targets[k].node !in before && FirstFor(targets, k) ==> Made(cache, targets[k])
    requires cache'.Keys == cache.Keys + {targets[i].node}
    requires forall n :: n in cache ==> n in cache' && cache'[n] == cache[n]
    requires targets[i].node !in cache ==> Made(cache', targets[i])
    ensures cache'.Keys == before.Keys + NodesOf(targets[..i + 1])
    ensures forall k :: 0 <= k <= i && targets[k].node !in before && FirstFor(targets, k) ==> Made(cache', targets[k])
  {
    NodesOfSnoc(targets, i);
    forall k | 0 <= k < i && targets[k].node !in before && FirstFor(targets, k)
      ensures Made(cache', targets[k])
    {
      assert targets[..i][k].node == targets[k].node;
    }
  }

  /** A cache that gained no keys and kept every entry is the same cache. */
  lemma KeptEntries(m: map<Node, Sticker>, m': map<Node, Sticker>)
    requires m'.Keys <= m.Keys && forall n :: n in m ==> n in m' && m'[n] == m[n]
    ensures m' == m
  {
  }

  // ---------------------------------------------------------------------------
  // The key of the context cache

  /** What `$.data` is handed in `getContext`: a jQuery wrapper object. The wrapper of
      the window is made once, when the plugin loads; the wrapper that `closest`
      returns is a new object on every call, told apart here by the number of the
      call that made it. */
  datatype Wrapper = WindowWrapper | ClosestResult(call: nat)

  /** The cache key of `getContext` as written, for the `call`-th lookup: the wrapper
      itself, not the node it wraps. */
  function KeyAsWritten(region: Option<Node>, call: nat): (w: Wrapper)
  {
    if region.Some? then ClosestResult(call) else WindowWrapper
  }

  /** The number of lookups in `regions` that found a region. */
  function Found(regions: seq<Option<Node>>): (n: nat)
  {
    if regions == [] then 0 else (if regions[0].Some? then 1 else 0) + Found(regions[1..])
  }

  /** How many contexts `getContext` as written creates for a run of lookups, the
      `k`-th of them being call number `call + k`, given the wrappers already cached. */
  function CreatedAsWritten(regions: seq<Option<Node>>, cached: set<Wrapper>, call: nat): (created: nat)
    decreases |regions|
  {
    if regions == [] then 0
    else
      var w := KeyAsWritten(regions[0], call);
      (if w in cached then 0 else 1) + CreatedAsWritten(regions[1..], cached + {w}, call + 1)
  }

  /** As written, provided no cached wrapper comes from a later call, a run of lookups
      creates one context for every lookup that found a region, and one more when the
      window is looked up and its wrapper is not cached yet. */
  lemma {:induction false} CreatedAsWrittenCount(regions: seq<Option<Node>>, cached: set<Wrapper>, call: nat)
    requires forall w :: w in cached && w.ClosestResult? ==> w.call < call
    ensures CreatedAsWritten(regions, cached, call)
            == Found(regions) + (if None in regions && WindowWrapper !in cached then 1 else 0)
  {
    if regions != [] {
      var w := KeyAsWritten(regions[0], call);
      assert None in regions <==> regions[0] == None || None in regions[1..];
      CreatedAsWrittenCount(regions[1..], cached + {w}, call + 1);
    }
  }

  /** As written, every lookup for a region other than the window misses the cache,
      so each of `n` elements of one region gets a context of its own. */
  lemma {:induction false} AsWrittenContextPerSticker(regions: seq<Option<Node>>, cached: set<Wrapper>, call: nat)
    requires forall k :: 0 <= k < |regions| ==> regions[k].Some?
    requires forall w :: w in cached && w.ClosestResult? ==> w.call < call
    ensures CreatedAsWritten(regions, cached, call) == |regions|
  {
    if regions != [] {
      var w := KeyAsWritten(regions[0], call);
      assert w !in cached;
      AsWrittenContextPerSticker(regions[1..], cached + {w}, call + 1);
    }
  }

  /** The nodes whose contexts the lookups `regions` use. */
  function RegionNodes(regions: seq<Option<Node>>): (r: set<Node>)
  {
    if regions == [] then {} else {RegionNode(regions[0])} + RegionNodes(regions[1..])
  }

  /** How many contexts `getContext` creates when it is keyed by the region node, as
      the registry below is, given the nodes already cached. */
  function CreatedByNode(regions: seq<Option<Node>>, cached: set<Node>): (created: nat)
    decreases |regions|
  {
    if regions == [] then 0
    else
      var n := RegionNode(regions[0]);
      (if n in cached then 0 else 1) + CreatedByNode(regions[1..], cached + {n})
  }

  /** Keyed by node, a run of lookups creates one context for every node looked up
      that is not cached yet. */
  lemma {:induction false} CreatedByNodeCount(regions: seq<Option<Node>>, cached: set<Node>)
    ensures CreatedByNode(regions, cached) == |RegionNodes(regions) - cached|
  {
    if regions != [] {
      var n := RegionNode(regions[0]);
      CreatedByNodeCount(regions[1..], cached + {n});
      assert n !in RegionNodes(regions[1..]) - (cached + {n});
      assert RegionNodes(regions) - cached
             == (if n in cached then {} else {n}) + (RegionNodes(regions[1..]) - (cached + {n}));
    }
  }

  /** Keyed by node, the elements of one region share one context: at most one is
      created, and none if the region has one already. */
  lemma {:induction false} OneContextPerRegion(regions: seq<Option<Node>>, cached: set<Node>, n: Node)
    requires forall k :: 0 <= k < |regions| ==> RegionNode(regions[k]) == n
    ensures CreatedByNode(regions, cached) <= 1
    ensures n in cached ==> CreatedByNode(regions, cached) == 0
  {
    if regions != [] {
      OneContextPerRegion(regions[1..], cached + {n}, n);
    }
  }

  /** The list of stickers and the stack of each of the contexts `cs`, in order. */
  ghost function Snapshot(cs: seq<Context>): (r: seq<(seq<Sticker>, StackState)>)
    reads cs
    ensures |r| == |cs| && forall k :: 0 <= k < |cs| ==> r[k] == (cs[k].stickers, cs[k].Stacked())
  {
    if cs == [] then [] else Snapshot(cs[..|cs| - 1]) + [(cs[|cs| - 1].stickers, cs[|cs| - 1].Stacked())]
  }

  /** The two caches and the list of all contexts. */
  class Registry {
    /** Every context created, in creation order. */
    var contexts: seq<Context>
    /** The context cached for a region node. */
    var contextOf: map<Node, Context>
    /** The sticker cached for an element. */
    var stickerOf: map<Node, Sticker>

    /** The registry invariant: there is at most one context per node, each context is
        cached under its own node and only created contexts are cached, and every cached
        sticker is cached under its own element and belongs to a created context. */
    ghost predicate Valid()
      reads this
    {
      && (forall i, j :: 0 <= i < j < |contexts| ==> contexts[i].node != contexts[j].node)
      && (forall i :: 0 <= i < |contexts| ==> contexts[i].node in contextOf && contextOf[contexts[i].node] == contexts[i])
      && (forall n :: n in contextOf ==> contextOf[n] in contexts && contextOf[n].node == n)
      && (forall n :: n in stickerOf ==> stickerOf[n].node == n && stickerOf[n].context in contexts)
    }

    /** An empty registry. */
    constructor ()
      ensures contexts == [] && contextOf == map[] && stickerOf == map[]
      ensures Valid()
    {
      contexts := [];
      contextOf := map[];
      stickerOf := map[];
    }

    /** `getContext`: the context cached for the region (the window when there is none),
        created and cached if there is none yet. */
    method GetContext(region: Option<Node>) returns (c: Context)
      requires Valid()
      modifies this
      ensures var n := RegionNode(region);
              c.node == n && n in contextOf && contextOf[n] == c
      ensures RegionNode(region) in old(contextOf) ==>
                c == old(contextOf[RegionNode(region)]) && unchanged(this)
      ensures RegionNode(region) !in old(contextOf) ==>
                && fresh(c) && c.stickers == [] && c.Stacked() == StackState([], 0)
                && contexts == old(contexts) + [c]
                && contextOf == old(contextOf)[RegionNode(region) := c]
                && stickerOf == old(stickerOf)
      ensures |contexts| == |old(contexts)| + CreatedByNode([region], old(contextOf).Keys)
      ensures Valid()
    {
      var n := RegionNode(region);
      if n in contextOf {
        c := contextOf[n];
      } else {
        c := CreateContext(n);
      }
    }

    /** `createContext`: a new context for `n`, cached under `n` and appended to the
        list of contexts. */
    method CreateContext(n: Node) returns (c: Context)
      modifies this
      ensures fresh(c) && c.node == n && c.stickers == [] && c.Stacked() == StackState([], 0)
      ensures contexts == old(contexts) + [c]
      ensures contextOf == old(contextOf)[n := c] && stickerOf == old(stickerOf)
      ensures old(Valid()) && n !in old(contextOf) ==> Valid()
    {
      c := new Context(n);
      contextOf := contextOf[n := c];
      contexts := contexts + [c];
    }

    /** `initSticker`: wraps every target that has no sticker yet in a sticker of the
        context of its region. The contexts keep their stacks, each old context only
        gains, after its old list, new stickers of its own, each new sticker is
        registered in its context, and nothing changes when every element has a
        sticker already. */
    method InitSticker(targets: seq<Target>)
      requires Valid()
      modifies this, contexts
      ensures Valid()
      ensures stickerOf.Keys == old(stickerOf).Keys + NodesOf(targets)
      ensures forall n :: n in old(stickerOf) ==> stickerOf[n] == old(stickerOf[n])
      ensures forall n :: n in stickerOf && n !in old(stickerOf) ==> fresh(stickerOf[n])
      ensures forall k :: 0 <= k < |targets| && targets[k].node !in old(stickerOf) && FirstFor(targets, k) ==>
                Made(stickerOf, targets[k])
      ensures forall n :: n in stickerOf && n !in old(stickerOf) ==> stickerOf[n] in stickerOf[n].context.stickers
      ensures forall n :: n in old(contextOf) ==> n in contextOf && contextOf[n] == old(contextOf[n])
      ensures forall c :: c in contexts && c !in old(contexts) ==>
                fresh(c) && c.node in RegionsOf(targets) && c.Stacked() == StackState([], 0)
      ensures forall c :: c in old(contexts) ==> c.Stacked() == old(c.Stacked())
      ensures forall c :: c in old(contexts) ==> Extends(c, old(c.stickers), old(stickerOf))
      ensures NodesOf(targets) <= old(stickerOf).Keys ==> stickerOf == old(stickerOf)
      ensures NodesOf(targets) <= old(stickerOf).Keys ==>
                contexts == old(contexts) && forall c :: c in old(contexts) ==> c.stickers == old(c.stickers)
    {
      ghost var snap0 := Snapshot(contexts);
      InitStart(targets, snap0);
      InitAll(targets, snap0);
      InitDone(targets, snap0);
    }

    /** The loop of `initSticker`, from the contexts `ctx0` with their lists of
        stickers and their stacks `snap0`. */
    method InitAll(targets: seq<Target>, ghost snap0: seq<(seq<Sticker>, StackState)>)
      requires InitInv(targets, 0, stickerOf, contextOf, contexts, snap0)
      modifies this, contexts
      ensures InitInv(targets, |targets|, old(stickerOf), old(contextOf), old(contexts), snap0)
      ensures forall n :: n in stickerOf && n !in old(stickerOf) ==> fresh(stickerOf[n])
      ensures forall c :: c in contexts && c !in old(contexts) ==> fresh(c)
    {
      var i := 0;
      while i < |targets|
        invariant 0 <= i <= |targets|
        invariant InitInv(targets, i, old(stickerOf), old(contextOf), old(contexts), snap0)
        invariant forall n :: n in stickerOf && n !in old(stickerOf) ==> fresh(stickerOf[n])
        invariant forall c :: c in contexts && c !in old(contexts) ==> fresh(c)
      {
        InitAt(targets, i, old(stickerOf), old(contextOf), old(contexts), snap0);
        i := i + 1;
      }
    }

    /** The loop invariant holds before the first target. */
    lemma InitStart(targets: seq<Target>, snap0: seq<(seq<Sticker>, StackState)>)
      requires Valid() && snap0 == Snapshot(contexts)
      ensures InitInv(targets, 0, stickerOf, contextOf, contexts, snap0)
    {
      assert targets[..0] == [];
    }

    /** The loop invariant after all the targets gives what `initSticker` promises. */
    twostate lemma InitDone(targets: seq<Target>, new snap0: seq<(seq<Sticker>, StackState)>)
      requires InitInv(targets, |targets|, old(stickerOf), old(contextOf), old(contexts), snap0)
      requires snap0 == old(Snapshot(contexts))
      requires forall c :: c in contexts && c !in old(contexts) ==> fresh(c)
      ensures Valid()
      ensures stickerOf.Keys == old(stickerOf).Keys + NodesOf(targets)
      ensures forall n :: n in old(stickerOf) ==> stickerOf[n] == old(stickerOf[n])
      ensures forall k :: 0 <= k < |targets| && targets[k].node !in old(stickerOf) && FirstFor(targets, k) ==>
                Made(stickerOf, targets[k])
      ensures forall n :: n in stickerOf && n !in old(stickerOf) ==> stickerOf[n] in stickerOf[n].context.stickers
      ensures forall n :: n in old(contextOf) ==> n in contextOf && contextOf[n] == old(contextOf[n])
      ensures forall c :: c in contexts && c !in old(contexts) ==>
                fresh(c) && c.node in RegionsOf(targets) && c.Stacked() == StackState([], 0)
      ensures forall c :: c in old(contexts) ==> c.Stacked() == old(c.Stacked())
      ensures forall c :: c in old(contexts) ==> Extends(c, old(c.stickers), old(stickerOf))
      ensures NodesOf(targets) <= old(stickerOf).Keys ==> stickerOf == old(stickerOf)
      ensures NodesOf(targets) <= old(stickerOf).Keys ==>
                contexts == old(contexts) && forall c :: c in old(contexts) ==> c.stickers == old(c.stickers)
    {
      assert targets[..|targets|] == targets;
      forall c | c in old(contexts)
        ensures c.Stacked() == old(c.Stacked())
        ensures Extends(c, old(c.stickers), old(stickerOf))
        ensures NodesOf(targets) <= old(stickerOf).Keys ==> c.stickers == old(c.stickers)
      {
        var k :| 0 <= k < |old(contexts)| && old(contexts)[k] == c;
      }
      if NodesOf(targets) <= old(stickerOf).Keys {
        KeptEntries(old(stickerOf), stickerOf);
      }
    }

    /** The invariant of the `initSticker` loop after the targets before `i`, given the
        sticker cache `before`, the context cache `contextOf0` and the contexts `ctx0`
        with their lists of stickers and their stacks `snap0`, all as they were when
        the loop started. */
    ghost predicate InitInv(targets: seq<Target>, i: nat, before: map<Node, Sticker>, contextOf0: map<Node, Context>,
                            ctx0: seq<Context>, snap0: seq<(seq<Sticker>, StackState)>)
      requires i <= |targets|
      reads this, contexts, ctx0
    {
      CacheInv(targets, i, before, contextOf0) && ContextInv(targets, i, before, ctx0, snap0)
    }

    /** The caches part: the sticker cache has gained the elements of the targets
        before `i`, keeps its old entries and holds a sticker built from the first
        target of each new element, and the context cache keeps its old entries. */
    ghost predicate CacheInv(targets: seq<Target>, i: nat, before: map<Node, Sticker>, contextOf0: map<Node, Context>)
      requires i <= |targets|
      reads this
    {
      && Valid()
      && stickerOf.Keys == before.Keys + NodesOf(targets[..i])
      && (forall n :: n in before ==> stickerOf[n] == before[n])
      && (forall k :: 0 <= k < i && targets[k].node !in before && FirstFor(targets, k) ==> Made(stickerOf, targets[k]))
      && (forall n :: n in contextOf0 ==> n in contextOf && contextOf[n] == contextOf0[n])
    }

    /** The contexts part: each new sticker is registered in its context, the old
        contexts are kept with their stacks and have only gained new stickers of their
        own, the contexts created are of the targets'
        regions with empty stacks, and the old contexts keep their lists while no
        element was new. */
    ghost predicate ContextInv(targets: seq<Target>, i: nat, before: map<Node, Sticker>,
                               ctx0: seq<Context>, snap0: seq<(seq<Sticker>, StackState)>)
      requires i <= |targets|
      reads this, contexts, ctx0
    {
      && (forall n :: n in stickerOf && n !in before ==>
            stickerOf[n].context in contexts && stickerOf[n] in stickerOf[n].context.stickers)
      && |snap0| == |ctx0|
      && (forall k :: 0 <= k < |ctx0| ==> ctx0[k] in contexts && ctx0[k].Stacked() == snap0[k].1)
      && (forall k :: 0 <= k < |ctx0| ==> Extends(ctx0[k], snap0[k].0, before))
      && (forall c :: c in contexts && c !in ctx0 ==> c.node in RegionsOf(targets[..i]) && c.Stacked() == StackState([], 0))
      && (NodesOf(targets[..i]) <= before.Keys ==>
            contexts == ctx0 && forall k :: 0 <= k < |ctx0| ==> ctx0[k].stickers == snap0[k].0)
    }

    /** The list of stickers of context `c` starts with `p`, and every sticker after
        that prefix is of context `c` and is the one the sticker cache holds for its
        element, an element that has no entry in the cache `before`. */
    ghost predicate Extends(c: Context, p: seq<Sticker>, before: map<Node, Sticker>)
      reads this, c
    {
      && p <= c.stickers
      && forall j :: |p| <= j < |c.stickers| ==>
           && c.stickers[j].context == c
           && c.stickers[j].node !in before
           && c.stickers[j].node in stickerOf
           && stickerOf[c.stickers[j].node] == c.stickers[j]
    }

    /** Step `i` of the `initSticker` loop: the loop invariant carries over to the
        targets up to `i`. */
    method InitAt(targets: seq<Target>, i: nat, ghost before: map<Node, Sticker>, ghost contextOf0: map<Node, Context>,
                  ghost ctx0: seq<Context>, ghost snap0: seq<(seq<Sticker>, StackState)>)
      requires i < |targets|
      requires InitInv(targets, i, before, contextOf0, ctx0, snap0)
      modifies this, contexts
      ensures InitInv(targets, i + 1, before, contextOf0, ctx0, snap0)
      ensures forall n :: n in old(stickerOf) ==> n in stickerOf && stickerOf[n] == old(stickerOf[n])
      ensures forall n :: n in stickerOf && n !in old(stickerOf) ==> fresh(stickerOf[n])
      ensures forall c :: c in old(contexts) ==> c in contexts
      ensures forall c :: c in contexts && c !in old(contexts) ==> fresh(c)
    {
      InitOne(targets[i]);
      InitAtStep(targets, i, before, contextOf0, ctx0, snap0);
    }

    /** The invariant of the `initSticker` loop is kept by a step that does to the
        registry what `InitOne` promises for target `i`. */
    twostate lemma InitAtStep(new targets: seq<Target>, i: nat, new before: map<Node, Sticker>, new contextOf0: map<Node, Context>,
                              new ctx0: seq<Context>, new snap0: seq<(seq<Sticker>, StackState)>)
      requires i < |targets|
      requires old(allocated(before)) && old(allocated(contextOf0)) && old(allocated(ctx0)) && old(allocated(snap0))
      requires old(InitInv(targets, i, before, contextOf0, ctx0, snap0))
      requires Valid()
      requires stickerOf.Keys == old(stickerOf).Keys + {targets[i].node}
      requires forall n :: n in old(stickerOf) ==> n in stickerOf && stickerOf[n] == old(stickerOf[n])
      requires targets[i].node !in old(stickerOf) ==> Made(stickerOf, targets[i])
      requires forall n :: n in old(contextOf) ==> n in contextOf && contextOf[n] == old(contextOf[n])
      requires Registered(targets[i], old(stickerOf), old(contexts))
      ensures InitInv(targets, i + 1, before, contextOf0, ctx0, snap0)
    {
      NodesOfSnoc(targets, i);
      InitStep(targets, i, before, old(stickerOf), stickerOf);
      ContextInvStep(targets, i, before, ctx0, snap0);
    }

    /** The contexts part of the loop invariant after the targets before `i` and one
        step for target `i` give the contexts part after the targets up to `i`. */
    twostate lemma ContextInvStep(new targets: seq<Target>, i: nat, new before: map<Node, Sticker>,
                                  new ctx0: seq<Context>, new snap0: seq<(seq<Sticker>, StackState)>)
      requires i < |targets|
      requires old(allocated(before)) && old(allocated(ctx0)) && old(allocated(snap0))
      requires old(Valid() && ContextInv(targets, i, before, ctx0, snap0))
      requires old(stickerOf).Keys == before.Keys + NodesOf(targets[..i])
      requires NodesOf(targets[..i + 1]) == NodesOf(targets[..i]) + {targets[i].node}
      requires RegionsOf(targets[..i + 1]) == RegionsOf(targets[..i]) + {RegionNode(targets[i].region)}
      requires stickerOf.Keys == before.Keys + NodesOf(targets[..i + 1])
      requires forall n :: n in old(stickerOf) ==> n in stickerOf && stickerOf[n] == old(stickerOf[n])
      requires targets[i].node !in old(stickerOf) ==> Made(stickerOf, targets[i])
      requires Registered(targets[i], old(stickerOf), old(contexts))
      ensures ContextInv(targets, i + 1, before, ctx0, snap0)
    {
      RegisteredStep(targets[i], before);
      StacksStep(targets, i, ctx0, snap0);
      ExtendsStep(targets[i], before, ctx0, snap0);
      KeptStep(targets, i, before, ctx0, snap0);
    }

    /** After a step, every sticker created since the loop started is still
        registered in its context. */
    twostate lemma RegisteredStep(new t: Target, new before: map<Node, Sticker>)
      requires old(Valid())
      requires old(forall n :: n in stickerOf && n !in before ==>
                     stickerOf[n].context in contexts && stickerOf[n] in stickerOf[n].context.stickers)
      requires stickerOf.Keys == old(stickerOf).Keys + {t.node}
      requires forall n :: n in old(stickerOf) ==> n in stickerOf && stickerOf[n] == old(stickerOf[n])
      requires Registered(t, old(stickerOf), old(contexts))
      ensures forall n :: n in stickerOf && n !in before ==>
                stickerOf[n].context in contexts && stickerOf[n] in stickerOf[n].context.stickers
    {
    }

    /** After a step, the contexts of the start keep their stacks and every context
        created since is of a region of the targets up to `i` and has an empty stack. */
    twostate lemma StacksStep(new targets: seq<Target>, i: nat, new ctx0: seq<Context>, new snap0: seq<(seq<Sticker>, StackState)>)
      requires i < |targets| && old(allocated(ctx0)) && old(allocated(snap0))
      requires old(|snap0| == |ctx0| && forall k :: 0 <= k < |ctx0| ==> ctx0[k] in contexts && ctx0[k].Stacked() == snap0[k].1)
      requires old(forall c :: c in contexts && c !in ctx0 ==> c.node in RegionsOf(targets[..i]) && c.Stacked() == StackState([], 0))
      requires RegionsOf(targets[..i + 1]) == RegionsOf(targets[..i]) + {RegionNode(targets[i].region)}
      requires Registered(targets[i], old(stickerOf), old(contexts))
      ensures forall k :: 0 <= k < |ctx0| ==> ctx0[k] in contexts && ctx0[k].Stacked() == snap0[k].1
      ensures forall c :: c in contexts && c !in ctx0 ==> c.node in RegionsOf(targets[..i + 1]) && c.Stacked() == StackState([], 0)
    {
    }

    /** After a step, each context of the start still has its list of the start
        followed only by new stickers of its own. */
    twostate lemma ExtendsStep(new t: Target, new before: map<Node, Sticker>,
                               new ctx0: seq<Context>, new snap0: seq<(seq<Sticker>, StackState)>)
      requires old(allocated(before)) && old(allocated(ctx0)) && old(allocated(snap0))
      requires |snap0| == |ctx0|
      requires old(forall k :: 0 <= k < |ctx0| ==> ctx0[k] in contexts && Extends(ctx0[k], snap0[k].0, before))
      requires before.Keys <= old(stickerOf).Keys
      requires forall n :: n in old(stickerOf) ==> n in stickerOf && stickerOf[n] == old(stickerOf[n])
      requires t.node !in old(stickerOf) ==> Made(stickerOf, t)
      requires Registered(t, old(stickerOf), old(contexts))
      ensures forall k :: 0 <= k < |ctx0| ==> Extends(ctx0[k], snap0[k].0, before)
    {
      forall k | 0 <= k < |ctx0|
        ensures Extends(ctx0[k], snap0[k].0, before)
      {
        var c := ctx0[k];
        assert old(Extends(c, snap0[k].0, before));
        if c.stickers != old(c.stickers) {
          assert c.stickers == old(c.stickers) + [stickerOf[t.node]];
        }
      }
    }

    /** After a step, if no element of the targets up to `i` was new, the contexts are
        still those of the start with their lists of stickers. */
    twostate lemma KeptStep(new targets: seq<Target>, i: nat, new before: map<Node, Sticker>,
                            new ctx0: seq<Context>, new snap0: seq<(seq<Sticker>, StackState)>)
      requires i < |targets| && |snap0| == |ctx0|
      requires old(allocated(before)) && old(allocated(ctx0)) && old(allocated(snap0))
      requires old(NodesOf(targets[..i]) <= before.Keys ==>
                     contexts == ctx0 && forall k :: 0 <= k < |ctx0| ==> ctx0[k].stickers == snap0[k].0)
      requires NodesOf(targets[..i + 1]) == NodesOf(targets[..i]) + {targets[i].node}
      requires old(stickerOf).Keys == before.Keys + NodesOf(targets[..i])
      requires Registered(targets[i], old(stickerOf), old(contexts))
      ensures NodesOf(targets[..i + 1]) <= before.Keys ==>
                contexts == ctx0 && forall k :: 0 <= k < |ctx0| ==> ctx0[k].stickers == snap0[k].0
    {
    }

    /** What one step of the `initSticker` loop, for target `t`, does to the contexts,
        given the sticker cache `cache0` and the contexts `contexts0` before it: no
        context is lost, every context keeps its stack and either keeps its list of
        stickers or, if it is the context of a new sticker for `t`, gets that sticker
        appended; a context created by the step is fresh, of the region of `t`, with
        an empty stack and the new sticker as its only one. */
    twostate predicate Registered(t: Target, cache0: map<Node, Sticker>, contexts0: seq<Context>)
      reads this, contexts
    {
      && t.node in stickerOf
      && (forall c :: c in contexts0 ==>
            && c in contexts && c.Stacked() == old(c.Stacked())
            && (|| c.stickers == old(c.stickers)
                || (t.node !in cache0 && c == stickerOf[t.node].context && c.stickers == old(c.stickers) + [stickerOf[t.node]])))
      && (t.node !in cache0 ==> stickerOf[t.node].context in contexts && stickerOf[t.node] in stickerOf[t.node].context.stickers)
      && (t.node in cache0 ==> contexts == contexts0)
      && (forall c :: c in contexts && c !in contexts0 ==>
            fresh(c) && c.node == RegionNode(t.region) && c.Stacked() == StackState([], 0) && c.stickers == [stickerOf[t.node]])
    }

    /** The body of the `initSticker` loop for one target: nothing if its element has
        a sticker already, otherwise a new sticker in the context of its region. */
    method InitOne(t: Target)
      requires Valid()
      modifies this, contexts
      ensures Valid()
      ensures t.node in old(stickerOf) ==> stickerOf == old(stickerOf) && contexts == old(contexts) && unchanged(contexts)
      ensures stickerOf.Keys == old(stickerOf).Keys + {t.node}
      ensures forall n :: n in old(stickerOf) ==> n in stickerOf && stickerOf[n] == old(stickerOf[n])
      ensures t.node !in old(stickerOf) ==> Made(stickerOf, t) && fresh(stickerOf[t.node])
      ensures forall n :: n in old(contextOf) ==> n in contextOf && contextOf[n] == old(contextOf[n])
      ensures Registered(t, old(stickerOf), old(contexts))
    {
      if t.node !in stickerOf {
        NewSticker(t);
      }
    }

    /** The body of the `initSticker` loop for a target whose element has no sticker:
        the context of its region, found or created, gets a new sticker for it. */
    method NewSticker(t: Target)
      requires Valid() && t.node !in stickerOf
      modifies this, contexts
      ensures Valid()
      ensures stickerOf.Keys == old(stickerOf).Keys + {t.node}
      ensures forall n :: n in old(stickerOf) ==> n in stickerOf && stickerOf[n] == old(stickerOf[n])
      ensures Made(stickerOf, t) && fresh(stickerOf[t.node])
      ensures forall n :: n in old(contextOf) ==> n in contextOf && contextOf[n] == old(contextOf[n])
      ensures Registered(t, old(stickerOf), old(contexts))
    {
      var c := GetContext(t.region);
      Wrap(t, c);
    }

    /** A new sticker for target `t` in context `c`, cached under its element. */
    method Wrap(t: Target, c: Context)
      requires Valid() && c in contexts && c.node == RegionNode(t.region)
      modifies this, c
      ensures Valid() && contexts == old(contexts) && contextOf == old(contextOf)
      ensures stickerOf.Keys == old(stickerOf).Keys + {t.node}
      ensures forall n :: n in stickerOf && n != t.node ==> stickerOf[n] == old(stickerOf[n])
      ensures Made(stickerOf, t) && fresh(stickerOf[t.node])
      ensures c.stickers == old(c.stickers) + [stickerOf[t.node]] && c.Stacked() == old(c.Stacked())
      ensures old(c.Valid()) ==> c.Valid()
    {
      var s := new Sticker(t.node, c, t.height, t.staticPos, t.css);
      stickerOf := stickerOf[t.node := s];
    }
  }
}
