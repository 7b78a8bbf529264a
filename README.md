# stickyStack in Dafny

A model of the stickyStack jQuery plugin, in both of its versions. The plugin
makes page elements ("stickers") stick to the top of a scrolling region once the
user scrolls past them. Each stuck sticker sits just below the ones stuck before
it. When the user scrolls back, the sticker returns to its place in the flow.

- `js/stickystack.js` is the per-region version.
  - Every scrolling region (the window, or an element chosen with the `context`
    option) has a **Context**.
  - A Context holds the stickers registered in the region, the **stack** of stuck
    stickers in stick order, and the stack's running **height**.
  - A **reflow** pass checks every registered sticker, in registration order,
    against the scroll offset and the stack height.
  - A registry finds or creates the context of a region. It wraps each element at
    most once.
- `js/sticky.js` is the earlier version. It has one page-wide stack, and since
  nothing is ever stored in its array, that stack is only a running height. It has
  one list of stickers and a scroll handler that walks that list.

The DOM is abstracted away:
- An element is a `Dom.Node`.
- Its measured outer height and document offset are integer constants of its
  sticker.
- Its inline `position`/`top` is a `Dom.Css`.
- What sticking changes on a sticker (its flag, its inline style, whether its
  placeholder is shown) is a `Dom.Look`.

Files:

| file | module | contents |
|---|---|---|
| `dom.dfy` | `Dom` | nodes, styles, looks |
| `arrays.dfy` | `Arrays` | `$.inArray` and `splice(pos, 1)` on sequences, and facts about them |
| `stickystack.dfy` | `StickyStack` | the per-region version: the stack bookkeeping and the reflow pass as functions on values, then the `Context` and `Sticker` classes, whose methods are proved against those functions |
| `registry.dfy` | `Plugin` | `initSticker`, `getContext` and `createContext` as a `Registry` class with two maps in place of `$.data`, and the cache-key finding below |
| `sticky.dfy` | `Sticky` | the earlier version: the value-level scroll pass, then the `Stack`, `Sticker` and `Page` classes |
| `scenarios.dfy` | `Scenarios` | three worked scrolls of a three-sticker page in both versions, and a page on which the two versions disagree |

## How the model is built

Each class keeps the fields the source updates in place:
- `Context.height`, `Context.stack` and `Context.stickers`, and `Sticker.sticked`,
  its style and its placeholder;
- in `js/sticky.js`, `stack.height` and the `stickers` array.

Every method states its new state as a function of the old one:
- `Attached`, `Dispatched` and `Cleared` for the stack;
- `Step`, `Visit`, `ReflowUpTo`/`ReflowPass` for a reflow pass;
- `StickOutcome`, `ComeOffOutcome` and `ScanUpTo`/`OnScrollPass` for the earlier
  version.

The properties are then proved about those functions:
- the height invariant;
- which rule fires on which sticker;
- that a pass changes a sticker's state at most once per pass.

The loops are `while` loops with invariants:
- `$.each` in `makeReflow`, the `for` loop of `onScroll` and `this.each` in
  `initSticker` each take one step through a per-step method (`VisitAt`,
  `InitAt`). The reflow and `onScroll` passes are followed on a ghost value, and
  the `initSticker` loop on ghost copies of the caches and contexts it started
  from.
- `$.each` in `clear` calls `comeOff(true)` directly. Its invariant says which
  stickers have been unstuck so far.

The context invariant (`StickyStack.Context.Valid`) says all of the following:
- the height is the sum of the heights on the stack;
- no sticker is registered or stacked twice;
- only registered stickers are stacked;
- a sticker is on the stack exactly when its flag is set;
- an unstuck sticker shows its static style with its placeholder hidden.

Its value form is `StickyStack.Coherent`. The page invariant of the earlier
version (`Sticky.Page.Valid` and `Sticky.Coherent`) says that the stack height is
the total height of the stuck stickers, and the same about unstuck stickers.

Where the widget's described behaviour and its code differ, the model follows
the code:
- **Stick guard:** in `js/stickystack.js`, `stick` has no already-stuck guard and
  `comeOff` has no not-stuck guard (js/stickystack.js:273-305). Only
  `js/sticky.js` guards them.
- **Second reflow rule:** it does not test the flag (js/stickystack.js:259), so
  an unstuck sticker can be sent `comeOff`. `StickyStack.ComeOffUnstuckNoOp`
  shows that this is harmless on a valid context.
- **Reflow height:** the reflow reads the stack height once, before its loop
  (js/stickystack.js:253-254). It is not re-read as stickers stick. Only
  `js/sticky.js` re-reads it (js/sticky.js:121, 123).

One place departs from the code on purpose. The code keys its context cache on
the jQuery wrapper object, not on the region (see Findings). `Plugin.Registry`,
and everything built on it, uses the intended key, the region node. The code's
wrapper key is modelled only by `Plugin.KeyAsWritten`, `Plugin.CreatedAsWritten`
and `Plugin.AsWrittenContextPerSticker`.

## Model

| member | source | states |
|---|---|---|
| Arrays.InArray | js/stickystack.js:187-188 | the result is -1 exactly when the item is absent; otherwise it is the index of the item's first occurrence |
| Arrays.Splice1 | js/stickystack.js:191 | `splice(pos, 1)` leaves one element fewer: those before `pos` in place, those after it one place down |
| Arrays.SpliceContents | js/stickystack.js:190-191 | removing index `pos` removes exactly one occurrence of the removed element and nothing else |
| Arrays.SpliceDistinct | js/stickystack.js:159-161 | splicing from a duplicate-free list leaves a duplicate-free list of exactly the other elements |
| Arrays.AppendDistinct | js/stickystack.js:146 | pushing an element that is not yet present keeps the list duplicate-free |
| StickyStack.SumAppend | js/stickystack.js:173-174 | pushing a sticker adds its height to the sum over the stack |
| StickyStack.SumSplice | js/stickystack.js:191-192 | splicing a sticker out subtracts its height from the sum over the stack |
| StickyStack.AttachBalanced | js/stickystack.js:172-178 | `attach` keeps the height equal to the sum of the stacked heights, duplicates counted |
| StickyStack.DispatchBalanced | js/stickystack.js:186-197 | `dispatch` keeps the height equal to the sum of the stacked heights |
| StickyStack.DispatchEffect | js/stickystack.js:186-197 | an absent sticker leaves stack and height unchanged; a present one loses exactly its first occurrence (the rest keeps its order) and the height drops by its height |
| StickyStack.StickCoherent | js/stickystack.js:273-287 | sticking an unstuck registered sticker at the current height keeps the context invariant |
| StickyStack.ComeOffCoherent | js/stickystack.js:295-305 | a registered sticker coming off, stuck or not, keeps the context invariant |
| StickyStack.VisitCoherent | js/stickystack.js:256-262 | one step of the reflow loop keeps the context invariant |
| StickyStack.Decide | js/stickystack.js:257-259 | only an unstuck sticker is sent `stick`; because the second rule does not test the flag, an unstuck sticker of non-negative height is never left alone — it is sent `stick` or `comeOff` |
| StickyStack.ReflowUpTo | js/stickystack.js:256-262 | the first `i` steps of the reflow loop keep the context invariant |
| StickyStack.ReflowPass | js/stickystack.js:251-263 | a whole reflow pass, taken against the height read before the loop, keeps the context invariant |
| StickyStack.ReflowVisitsOnce | js/stickystack.js:256-262 | step `i` only touches sticker `i`: a sticker keeps its look until it is reached, and the look its own step gave it afterwards, so it changes state at most once per pass |
| StickyStack.ReflowOutcome | js/stickystack.js:253-262 | after a pass, a sticker is stuck exactly when it was unstuck and `scrollTop + H >= staticPos`, or neither rule fired and it was stuck already; `H` is the height before the pass |
| StickyStack.ComeOffUnstuckNoOp | js/stickystack.js:259-261 | sending `comeOff` to an unstuck sticker of a valid context changes neither the stack nor the sticker |
| StickyStack.StickOffset | js/stickystack.js:273-287 | when a reflow sticks a sticker on a balanced stack, it goes on top of the stack and is fixed at the total height of the stickers stuck before it |
| StickyStack.StickTwiceDuplicates | js/stickystack.js:273-287 | `stick` on a stuck sticker puts it on the stack a second time and counts its height twice |
| StickyStack.Context.constructor | js/stickystack.js:32-39 | a new context has no stickers, an empty stack, height 0, and is valid |
| StickyStack.Context.AddSticker | js/stickystack.js:145-147 | appends the sticker to the registered list, returns the new count, and leaves the stack alone |
| StickyStack.Context.RemoveSticker | js/stickystack.js:155-164 | splices out the sticker's first occurrence if it is registered and otherwise changes nothing; returns the remaining count; leaves the stack alone |
| StickyStack.Context.Attach | js/stickystack.js:172-178 | the stack becomes `Attached` of the old one and the registered list is unchanged; keeps the height balanced |
| StickyStack.Context.Dispatch | js/stickystack.js:186-197 | the stack becomes `Dispatched` of the old one and the registered list is unchanged; keeps the height balanced |
| StickyStack.Context.GetStackHeight | js/stickystack.js:204-206 | in a balanced context, the total height of the stuck stickers |
| StickyStack.Context.Clear | js/stickystack.js:213-221 | the stack is empty with height 0; every sticker that was stacked is unstuck, with its static style back and its placeholder hidden; the context stays valid |
| StickyStack.Context.Reflow | js/stickystack.js:249-264 | the stickers' looks and the stack end up as `ReflowPass` of the old ones, with the height read once before the loop; the context stays valid |
| StickyStack.Context.EachSticker | js/stickystack.js:256-262 | the `$.each` loop takes looks and stack to the result of all its steps at a fixed `stackHeight` |
| StickyStack.Context.VisitAt | js/stickystack.js:256-262 | one iteration of the loop changes only sticker `i` and the stack, as `Visit` says |
| StickyStack.Context.ReflowStep | js/stickystack.js:257-261 | the loop body: `stick` when unstuck and past the threshold, else `comeOff` below the release threshold, without a flag test; the sticker's look and the stack end as `Step` says |
| StickyStack.Sticker.constructor | js/stickystack.js:48-70 | records the element's height, offset and static style; shows the static style with a hidden placeholder; registers the sticker at the end of its context, keeping the context valid |
| StickyStack.Sticker.Stick | js/stickystack.js:273-287 | the sticker is fixed at the stack height read before attaching, with its placeholder shown, and it is attached, without any guard |
| StickyStack.Sticker.ComeOff | js/stickystack.js:295-305 | restores the static style and hides the placeholder; with `force` the context is untouched, otherwise it is dispatched and the context stays valid |
| StickyStack.Sticker.Destroy | js/stickystack.js:310-316 | comes off (dispatching) only if stuck; the placeholder leaves the document; the sticker is unregistered; in a valid context it ends unstuck, with its static style, not registered, and the context stays valid |
| Plugin.InitStep | js/stickystack.js:83-100 | one iteration of the `initSticker` loop extends the cache exactly by the element's node and builds a sticker for the first target of each new element |
| Plugin.AsWrittenContextPerSticker | js/stickystack.js:109-120 | as written, the `$.data` key is the wrapper (`KeyAsWritten`: the shared window wrapper when no region was found, otherwise the new wrapper `closest` returned), so `n` lookups for a region other than the window create `n` contexts |
| Plugin.CreatedAsWrittenCount | js/stickystack.js:109-120 | as written, a run of lookups (`CreatedAsWritten`) creates one context per lookup that found a region, plus one if the window is looked up while its wrapper is not cached |
| Plugin.CreatedByNodeCount | js/stickystack.js:109-132 | keyed by node, a run of lookups (`CreatedByNode`) creates exactly one context per distinct node looked up that is not cached yet |
| Plugin.OneContextPerRegion | js/stickystack.js:109-132 | keyed by region, lookups for one region create at most one context, and none if it has one already |
| Plugin.Registry.constructor | js/stickystack.js:18 | an empty, valid registry with no contexts |
| Plugin.Registry.GetContext | js/stickystack.js:109-120 | keyed by `RegionNode` (the region found, else the window): returns the context cached for that node, changing nothing, or creates, caches and appends a fresh empty one; the number of contexts grows by `CreatedByNode` of that one lookup; keeps the registry valid |
| Plugin.Registry.CreateContext | js/stickystack.js:129-132 | a fresh empty context for the node, cached under it and appended to the list of contexts |
| Plugin.Registry.InitSticker | js/stickystack.js:82-101 | every element gets a sticker and old stickers are kept, so already-wrapped elements are skipped; new stickers are built from the element's first target and registered in their context; contexts created are fresh, of a target's region, with empty stacks; every old context keeps its stack, and its old list of stickers is a prefix of its new one, every sticker after that prefix being a new one (fresh, of an element that had none) whose context is that context (`Extends`); when every element is wrapped already, neither the caches nor the contexts change |
| Plugin.Registry.InitAll | js/stickystack.js:83-100 | the `this.each` loop takes the registry from the start of the loop to the loop invariant after all targets (the one `InitAt` keeps, old contexts' lists extended only by new stickers of their own included); the stickers and contexts it creates are fresh |
| Plugin.Registry.InitAt | js/stickystack.js:83-100 | one iteration of the `initSticker` loop keeps the loop invariant: caches extended by the target's element, new stickers registered, old contexts kept with their stacks, their lists extended only by new stickers of their own (`Extends`), and kept whole while no element was new |
| Plugin.Registry.InitOne | js/stickystack.js:89-99 | an element with a sticker is skipped and nothing changes, contexts included; otherwise it gets a new sticker appended to its region's context, every other context keeping its list and every context its stack |
| Plugin.Registry.NewSticker | js/stickystack.js:93-99 | looks up the context of the target's region and wraps the element in a new sticker there: the sticker is cached and appended to that context, a context created for it is fresh with an empty stack, and no context changes its stack |
| Plugin.Registry.Wrap | js/stickystack.js:98-99 | a new sticker built from the target, cached under the element and appended to the context's list; the context's stack is unchanged and a valid context stays valid |
| Sticky.Decide | js/sticky.js:121-123 | both rules test the flag: only an unstuck sticker is sent `stick`, only a stuck one `comeOff` |
| Sticky.DecideSettles | js/sticky.js:121-123 | checked again at the same offset against the live height, a sticker just sent `stick` or `comeOff` is kept, so the rules do not flip a sticker back |
| Sticky.SumStuckUpdate | js/sticky.js:25-43 | changing one sticker's flag changes the total stuck height by its height |
| Sticky.AppendCoherent | js/sticky.js:140 | appending an unstuck sticker keeps the page invariant |
| Sticky.StickCoherent | js/sticky.js:75-91 | guarded `stick` keeps the page invariant |
| Sticky.ComeOffCoherent | js/sticky.js:96-106 | guarded `comeOff` keeps the page invariant |
| Sticky.VisitCoherent | js/sticky.js:119-125 | one iteration of the scroll handler keeps the page invariant |
| Sticky.ScanUpTo | js/sticky.js:118-126 | the first `i` iterations keep the page invariant |
| Sticky.OnScrollPass | js/sticky.js:111-127 | a whole run of the scroll handler keeps the page invariant |
| Sticky.ScanVisitsOnce | js/sticky.js:121-125 | iteration `i` only touches sticker `i`, so a sticker changes state at most once per run |
| Sticky.ScanOutcome | js/sticky.js:118-126 | after a run, a sticker's state is decided by both guarded rules at the height the stack has when the handler reaches it |
| Sticky.StickComeOffRoundTrip | js/sticky.js:75-106 | `stick` then `comeOff` restores the sticker's look and the stack height |
| Sticky.GuardsIdempotent | js/sticky.js:75-106 | `stick` when stuck and `comeOff` when unstuck change nothing, so both are idempotent |
| Sticky.Stack.constructor | js/sticky.js:14-18 | the stack starts at height 0 |
| Sticky.Stack.Push | js/sticky.js:25-29 | adds the sticker's height and returns the new height |
| Sticky.Page.GetHeightIsStuckTotal | js/sticky.js:45-47 | on a valid page `getHeight` returns the total height of the stuck stickers, which is not negative when no height is |
| Sticky.Stack.Remove | js/sticky.js:35-43 | always subtracts the sticker's height, because the swapped search always misses, and returns the new height |
| Sticky.Sticker.constructor | js/sticky.js:56-69 | records the element's height, offset and static style; starts unstuck with its placeholder hidden |
| Sticky.Sticker.Stick | js/sticky.js:75-91 | nothing if stuck; otherwise fixed at the prior stack height, placeholder shown, with the stack grown by its height |
| Sticky.Sticker.ComeOff | js/sticky.js:96-106 | nothing if unstuck; otherwise the static style is back, the placeholder hidden and the stack shrunk by its height |
| Sticky.Page.constructor | js/sticky.js:4-7 | no stickers and an empty stack: a valid page |
| Sticky.Page.Register | js/sticky.js:140 | appends a new unstuck sticker and keeps the page valid |
| Sticky.Page.OnScroll | js/sticky.js:111-127 | looks and stack height end as `OnScrollPass` of the old ones; the page stays valid |
| Sticky.Page.EachSticker | js/sticky.js:118-126 | the `for` loop takes looks and height to the result of all its iterations, each reading the live height |
| Sticky.Page.VisitAt | js/sticky.js:119-125 | one iteration changes only sticker `i` and the stack height, as `Visit` says |
| Scenarios.ContextAt0 | js/stickystack.js:249-264 | at scroll offset 0 no sticker of the three-sticker page sticks |
| Scenarios.ContextAt120 | js/stickystack.js:249-264 | at 120 the first sticker sticks at offset 0, the stack is 50 high, and the others are unchanged |
| Scenarios.ContextAt260 | js/stickystack.js:249-264 | at 260 the second sticker sticks at offset 50 and the stack is 110 high |
| Scenarios.ContextAt30 | js/stickystack.js:249-264 | back at 30 both come off and the page is as it started |
| Scenarios.ContextScenario | js/stickystack.js:249-264 | the whole scroll 0, 120, 260, 30 in the per-region version |
| Scenarios.PageAt0Pass | js/sticky.js:111-127 | the earlier version at 0: no change |
| Scenarios.PageAt120Pass | js/sticky.js:111-127 | the earlier version at 120: the first sticks at 0 |
| Scenarios.PageAt260Pass | js/sticky.js:111-127 | the earlier version at 260: the second sticks at 50 |
| Scenarios.PageAt30Pass | js/sticky.js:111-127 | the earlier version at 30: both come off |
| Scenarios.PageScenario | js/sticky.js:111-127 | the same scroll in the earlier version gives the same states |
| Scenarios.SnapshotAndLiveDiffer | js/stickystack.js:253-254 | stickers at 100 (height 50) and 140 (height 10), scrolled to 100: the per-region version checks the second against the height before the pass and leaves it, the earlier one checks it against the live height 50 and sticks it |

## Left out

- DOM measurement (`outerHeight`, `offset().top`, `css` reads) and `scrollTop()`: heights, offsets, static styles and scroll offsets are integers and `Css` values given to the model.
- Floating point: positions and heights are numbers in JavaScript, but the logic only adds and compares them, so they are `int`.
- The placeholder element: its creation, `insertAfter`, `show`, `hide` and `remove` become the `placeholderVisible` and `placeholderInDom` flags.
- StickyStack.Context.Valid: says nothing about `placeholderInDom`; only `Destroy` states it.
- Events: the `trigger` calls for attach, detach, stick and come-off have no observable effect in the model.
- `start`, `stop` and the binding of the reflow function to `scroll` (js/stickystack.js:228-242): they only subscribe and unsubscribe event handlers. The reflow itself is `Context.Reflow`, called with the scroll offset.
- The window `load` handler that reflows every context (js/stickystack.js:336-340): it is event plumbing. One reflow of one context is modelled.
- `scrollOn`/`scrollOff` of `js/sticky.js`, its plugin function (js/sticky.js:136-146), the demo call and the empty `$.stickyStack` stubs. The plugin function calls `bindScroll`, which is not defined anywhere in the file, so it throws after the first element. Only the push of a new sticker (js/sticky.js:140) is modelled, as `Sticky.Page.Register`.
- The unused `viewport` object and the `$.fn.stickyStack` wrapper of the per-region version.
- `closest(options.context)` selector matching: the region found is an `Option<Node>` in each target.
- The array inside the singleton stack of `js/sticky.js`: `push` writes a misspelled property and `remove` never finds anything, so the array stays empty and is not modelled.
- Plugin.Registry.InitSticker: does not state that every context keeps its own invariant (`StickyStack.Context.Valid`); `Plugin.Registry.Wrap` states it for the one context it appends to.
- Plugin.Registry.Valid: does not carry the invariant of each context. `initSticker` only appends to contexts through the `Sticker` constructor, which keeps a valid context valid.
- Nothing in the plugin calls `destroy`, and `destroy` does not clear the element's `$.data` entry, so the model never removes a key from `stickerOf`.

## Findings

| source | as written | input that shows it | evidently intended | confidence | as-written member | corrected member |
|---|---|---|---|---|---|---|
| js/stickystack.js:112-119 | `getContext` passes the jQuery wrapper to `$.data`, so the cache holds data on that wrapper object. `closest` returns a new wrapper on every call, so every lookup of a region misses the cache and gets a new context. Only the window wrapper `$win` is created once. | two elements in one scrollable region, wrapped with `{context: '.region'}`: two contexts are created, one per sticker (that each then stacks only its own sticker is not modelled) | one context per region node, shared by the stickers in it | not executed; high | Plugin.AsWrittenContextPerSticker | Plugin.OneContextPerRegion |

The `Plugin.Registry` used by the rest of the model is the corrected one. It keys
the context cache on the region node (`Plugin.Registry.GetContext`).
