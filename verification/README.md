# snacky.js notification engine, modelled in Dafny

snacky.js is a snackbar library with one entry point, `show(message, options)`.
Each call merges the caller's options over `defaultConfig`. It then gets or
creates the container element for the requested `position`, using the
registry `containerStore`. The container's queue policy (`queueStrategy`,
`maxVisible`) sends some of its current children into their exit. Finally the
new notification element is inserted: first under a `top…` anchor, last
otherwise. An element leaves through `_hideAndRemove`, which adds the `hide`
class and arms a cleanup. The cleanup detaches the element and removes and
unregisters a container it leaves empty.

The model has five modules:

- `Settings`: the configuration, the options (a key is either given or left
  out) and the spread merge.
- `Presentation`: the pure decisions `show` makes while building an element:
  the theme variables, the icon, the progress bar, the container class name,
  what an action click does, and how an expand click toggles the line clamp.
- `Queue`: which children `_handleQueue` hides. It includes the branch as
  written, which can throw; see Findings.
- `Dom`: an abstract DOM with container and element records keyed by
  identity, the registry, and the shape invariant they keep at every step.
  A lemma shows that each DOM mutation preserves it.
- `Engine`: class `Snacky`, whose fields are the registry, the containers, the
  elements and the next fresh identity. Its methods are `show` and the
  operations it calls. The deferred callbacks (`requestAnimationFrame`, the
  auto-hide timeout, the two cleanup triggers, clicks) are methods the caller
  invokes when the event happens.

`Engine.Snacky.Valid` has two parts. The first is `Dom.Shaped`:
- every registry key names a live container created for that position;
- every live container is registered, under exactly one position;
- children and parents agree;
- a detached element is hiding;
- identities are fresh.

The second: between operations, every live container has at least one child.
This holds because the engine uses the corrected queue policy from Findings.
The code as written can throw and leave an empty container registered.

## Model

| member | source | states |
|---|---|---|
| Settings.Defaults | snacky.js:11-34 | `defaultConfig` key by key; MergeOfNothing states what it gives `show` |
| Settings.Merge | snacky.js:305 | the spread `{ ...defaultConfig, ...options }` key by key; MergeOfEverything and MergeOverrides state its properties |
| Settings.MergeOfNothing | snacky.js:11-34 | `show(message)` without options uses exactly `defaultConfig`: position `bottomRight`, strategy `stack`, at most 5 visible |
| Settings.MergeOfEverything | snacky.js:305 | options that give every key are returned unchanged by `{ ...defaultConfig, ...options }` |
| Settings.MergeOverrides | snacky.js:305 | a key the caller gives overrides the default and a key left out keeps it (position, queue strategy, maxVisible, autoHide, actions) |
| Presentation.Preset | snacky.js:244 | an unknown theme name falls back to the dark preset; every preset defines exactly the five `--snacky-*` tokens |
| Presentation.ResolveTheme | snacky.js:243-249 | the variables set on the element are the preset's keys plus the custom keys; a custom value wins, and the other tokens keep the preset value |
| Presentation.ThemeAlwaysComplete | snacky.js:244-245 | whatever theme name is given, all five tokens get a value; an unknown name without overrides gives exactly the dark preset |
| Presentation.IconChoice | snacky.js:318-326 | no icon exactly for `'hide'`; a string other than `'show'` is inserted as markup; an object with an `svg` is inserted with its aria label; everything else gives the kind's built-in glyph, or `info` for an unknown kind |
| Presentation.ProgressBar | snacky.js:357-363 | the progress bar's animation length, when the bar is drawn; BarOnlyWithAutoHide states its properties |
| Presentation.BarOnlyWithAutoHide | snacky.js:357-363 | a progress bar is drawn only when `progressBar` is `'show'` and `autoHide` is on; it animates for exactly `duration` ms; the defaults draw none |
| Presentation.Kebab | snacky.js:254 | the kebab form of a position has no capital letters, and it is between one and two times as long as the position |
| Presentation.CamelUndoesKebab | snacky.js:254 | kebab-casing loses nothing for a position name without dashes |
| Presentation.ContainerClass | snacky.js:254 | `snacky-container ` followed by the kebab form of the position; ContainerClassDistinguishes and OneCapitalClass state its properties |
| Presentation.ContainerClassDistinguishes | snacky.js:254 | two different dash-free positions never get the same container class |
| Presentation.KebabOfLowercase | snacky.js:254 | a position without capitals is its own kebab form |
| Presentation.KebabAppend | snacky.js:254 | the global capital replacement works letter by letter, so it distributes over concatenation |
| Presentation.OneCapital | snacky.js:254 | in a name with a single capital, that capital becomes a dash followed by its lower-case letter, and nothing else changes |
| Presentation.OneCapitalClass | snacky.js:254 | the class of a container whose position has one capital, e.g. `bottomRight` gives `snacky-container bottom-right` |
| Presentation.InvokesOnClick | snacky.js:383-386 | `onClick` is called when the clicked index names an action whose `onClick` is a function |
| Presentation.ShouldClose | snacky.js:387-390 | whether an action click dismisses; ClosePrecedence states its precedence rule |
| Presentation.ClosePrecedence | snacky.js:383-390 | an action's own `closeOnClick` decides alone, whatever `closeOnAction` is; without one, or without an action at that index, `closeOnAction` decides |
| Presentation.ActionCloseExamples | snacky.js:387-390 | concrete cases: an action without `closeOnClick` follows `closeOnAction` either way, and an explicit `closeOnClick` overrides it either way |
| Presentation.InitialClamp | snacky.js:330 | a new message is clamped to `maxLines` exactly when `maxLines` is non-zero; otherwise no clamp is set, and it is never `'unset'` |
| Presentation.RestoredLines | snacky.js:373 | the line count restored by an expand click, `maxLines` or else 3, is always positive |
| Presentation.ToggleClamp | snacky.js:372-374 | an expand click makes the clamp `'unset'` exactly when it was not, and otherwise restores `maxLines`, or 3 when `maxLines` is 0 |
| Presentation.ClicksAlternate | snacky.js:367-376 | after k expand clicks the message is unclamped exactly when k is odd; after a positive even number the clamp is `maxLines`, or 3 when `maxLines` is 0; when `maxLines` is non-zero, an even number of clicks restores the initial clamp |
| Queue.IsTop | snacky.js:289 | `position.startsWith('top')`: the position's first three characters are `top`, so a position not starting with `t` (such as `bottomRight`) is not a top anchor |
| Queue.Victims | snacky.js:276-295 | the policy hides only current children, at most one of them unless it hides them all, and nothing in an empty container |
| Queue.StackEvictsNothing | snacky.js:276-295 | `stack`, and every unrecognised strategy, hides nothing however full the container is |
| Queue.ReplaceAllEvictsEveryChild | snacky.js:278-281 | `replace-all` hides every child, in order |
| Queue.CollapseEvictsFirst | snacky.js:282-286 | `collapse` hides exactly the first child whenever there is one, whatever `maxVisible` is |
| Queue.ReplaceOldestAtCapacity | snacky.js:287-294 | `replace-oldest` hides a child exactly when the container is non-empty and at or over `maxVisible`: the last child under a top anchor, the first otherwise |
| Queue.ReplaceOldestKeepsCapacity | snacky.js:287-294 | under `replace-oldest`, one show into a container holding at most `maxVisible` children leaves at most `maxVisible` once the evicted child's cleanup has run; until then the victim is still a child, hiding |
| Queue.OldestStaysOldest | snacky.js:287-292 | a second `replace-oldest` show before the victim's cleanup picks the same child again, since the new element sits at the other end; that child already hides, so nothing new hides and the container holds one more live notification |
| Queue.PlanAsWritten | snacky.js:276-295 | the branches of `_handleQueue` as written, including the TypeError on an empty container; AsWrittenDiffersOnlyWhenEmpty compares it with Victims |
| Queue.AsWrittenDiffersOnlyWhenEmpty | snacky.js:287-294 | the code as written throws exactly for `replace-oldest`, an empty container and `maxVisible <= 0`; in every other case it hides what Victims says |
| Queue.FreshContainerThrows | snacky.js:287-294 | the first `replace-oldest` show at a position with `maxVisible: 0` throws as written, and hides nothing once corrected |
| Queue.Place | snacky.js:394-395 | the new element is first under a top anchor and last otherwise; the other children keep their order, and nothing else enters |
| Dom.NewNote | snacky.js:310-330 | the element `show` builds: attached to its container, neither hiding nor shown, clamped by InitialClamp |
| Dom.Rendered | snacky.js:314-363 | the rendered theme variables are the five tokens plus the custom keys; a progress bar is present exactly when `progressBar` is `'show'` and `autoHide` is on |
| Dom.Without | snacky.js:264 | `remove()` takes exactly that element out of the child list, shortens a duplicate-free list by one, and changes nothing when the element is not there |
| Dom.WithoutKeepsOrder | snacky.js:264 | in a duplicate-free child list, removing the element at index i leaves the children before it and after it, in order |
| Dom.MarkHiding | snacky.js:279 | the elements after `_hideAndRemove` has run on each listed one; MarkHidingMarksOnly states what changes |
| Dom.MarkHidingMarksOnly | snacky.js:260-261 | `_hideAndRemove` on a list adds `hide` to exactly the listed elements, keeps existing `hide` classes, and changes nothing else about any element |
| Dom.MarkHidingStep | snacky.js:279 | hiding one more element marks just that element |
| Dom.Unregistered | snacky.js:267-269 | the registry after the deletion loop; UnregisteredForgetsOnly states what it keeps |
| Dom.UnregisteredForgetsOnly | snacky.js:267-269 | the registry loop forgets exactly the positions that named the container, keeps every other entry, and leaves no entry naming it |
| Dom.PlaceNoDup | snacky.js:394-395 | inserting a new element never makes an element a child twice |
| Dom.CreateKeepsShape | snacky.js:251-258 | registering a new empty container under an unregistered position keeps the DOM's shape |
| Dom.InsertKeepsShape | snacky.js:394-395 | prepending or appending a fresh element keeps the DOM's shape |
| Dom.MarkHidingKeepsShape | snacky.js:260-261 | adding `hide` to any elements keeps the DOM's shape |
| Dom.RetagKeepsShape | snacky.js:400 | changing an element's classes or clamp, without detaching it or un-hiding a detached one, keeps the DOM's shape |
| Dom.DetachKeepsShape | snacky.js:263-264 | detaching a hiding element from its parent keeps the DOM's shape |
| Dom.DropKeepsShape | snacky.js:265-269 | removing an empty container and unregistering it keeps the DOM's shape |
| Engine.Snacky.constructor | snacky.js:8-9 | the library starts with an empty registry and no elements |
| Engine.Snacky.CreateContainer | snacky.js:251-258 | returns the registered container, leaving everything unchanged, or registers a new empty one created for the position under a fresh identity; either way the container's class is ContainerClass of the position; keeps the shape |
| Engine.Snacky.HideAndRemove | snacky.js:260-274 | adds `hide` to the element and changes nothing else; on an element already hiding it changes nothing |
| Engine.Snacky.HideEach | snacky.js:279 | the forEach marks exactly the listed elements as hiding |
| Engine.Snacky.HandleQueue | snacky.js:276-295 | marks exactly the container's policy victims (Queue.Victims) as hiding, and nothing else |
| Engine.Snacky.Insert | snacky.js:394-395 | the new element takes a fresh identity, is attached to the container at the place Queue.Place gives, and the shape is kept |
| Engine.Snacky.Show | snacky.js:303-405 | the whole `show` on the merged settings: registry, containers and elements after the call are the container for the position, the old children with the policy's victims hiding, and the new element, neither hiding nor shown, placed among them; the shape and non-empty containers are kept, and the new identity is fresh |
| Engine.Snacky.Present | snacky.js:306-395 | the same as Show, for settings that are already resolved |
| Engine.Snacky.AnimationFrame | snacky.js:400 | the frame callback adds `show` to the element and changes nothing else |
| Engine.Snacky.AutoHideFired | snacky.js:402-404 | the auto-hide timeout hides the element; on an element already detached it changes nothing |
| Engine.Snacky.Click | snacky.js:367-391 | away from the action buttons, an expandable element toggles its clamp; on an action button, `onClick` is called exactly when it is a function, and the element hides exactly when ShouldClose says so; nothing else changes |
| Engine.Snacky.Unregister | snacky.js:267-269 | the registry loop deletes exactly the keys naming the container |
| Engine.Snacky.Detach | snacky.js:263-264 | the element loses its parent; its container loses exactly that child, and the others keep their order |
| Engine.Snacky.Discard | snacky.js:265-269 | an emptied container disappears from the page and from the registry, and the shape is kept |
| Engine.Snacky.Cleanup | snacky.js:262-273 | after either trigger the element is detached. A container left empty is removed and unregistered; otherwise it keeps its other children. A second trigger changes nothing |
| Engine.Snacky.Occupancy | snacky.js:265-269 | between operations a position has children exactly when a container is registered under it, so the registry never holds an empty container |

## Left out

- `_injectCSS` and the `isInitialized` flag (lines 141-241, 297-301). They only inject a stylesheet once.
- The HTML that `show` assembles: class names, `data-direction`, message text, button markup. The model keeps the decisions that markup encodes (Dom.Rendered, Presentation).
- `wordHighlight` (lines 332-340). It is a regular-expression rewrite of the message text, which does not affect the queue or the lifecycle.
- `playNotif` and `navigator.vibrate` (lines 127-139, 397-398). Audio and device APIs are outside the model.
- Real time: `setTimeout`, `requestAnimationFrame` and `transitionend`. They are event methods the caller invokes (AnimationFrame, AutoHideFired, Cleanup), so `duration` and the 450 ms delay are not modelled as time.
- JavaScript values of the wrong type, explicitly `undefined` keys, `null` settings (`icon: null`), prototype keys of `containerStore`, and non-ASCII `toLowerCase`. Options are typed; a key is either given or left out.
- Engine.Snacky.Show: returns the new element's identity, so that the caller can deliver its later events; the source returns `undefined`.
- Dom.Note: the presentation values (theme variables, icon, progress bar) are not stored on the element record. Dom.Rendered derives them from its settings, and nothing changes them later.
- Engine.Snacky.HideAndRemove: a second call on the same element adds another listener and timeout. The model records only that a cleanup is armed (`hiding`); the extra cleanups are covered because Cleanup changes nothing after the first.
- Engine.Snacky.Click: `parseInt` of the button index and a `closest` lookup are replaced by the click target (an action index or elsewhere).
- Engine.Snacky.HandleQueue: uses the corrected policy Queue.Victims. For `replace-oldest` with `maxVisible <= 0` on an empty container, the source throws a TypeError (lines 287-292, 261) instead of hiding nothing; see Findings.
- Engine.Snacky.HandleQueue: requires that the container's children are elements, a structural fact of the DOM that `Valid` maintains.
- Engine.Snacky.Show: for `replace-oldest` with `maxVisible <= 0` at a position with no container, the source registers a new container (line 256) and then throws at lines 292 and 261, inserting nothing. The model inserts the element. The as-written behaviour is Queue.PlanAsWritten.
- Engine.Snacky.Present: the same difference as Show. It uses the corrected policy, so it never throws, and the container always receives the new element.
- Engine.Snacky.Occupancy: holds for the corrected engine only. The source's TypeError leaves an empty container registered (lines 256, 292), and there a registered position has no children.
- Presentation.Preset: `THEME_PRESETS[theme]` is a plain-object lookup. For an `Object.prototype` name such as `toString`, `constructor` or `__proto__`, it finds an inherited value whose spread has no tokens, not the dark preset. Theme names are treated as keys of the preset table only.
- Presentation.ThemeAlwaysComplete: "whatever theme name" excludes `Object.prototype` names, for which line 244 sets none of the five tokens.
- Dom.Rendered: its theme key set excludes `Object.prototype` theme names, for the same reason.
- Presentation.IconChoice: `ICONS[settings.type]` (line 324) is also a plain-object lookup. A `type` such as `constructor` inserts the inherited function's text, not the `info` glyph.
- Engine.Snacky.Click: `onClick` (line 385) is the caller's code and is treated as returning normally. If it throws, line 390 is not reached and the element does not hide.
- Engine.Snacky.Click: the spread at line 305 is shallow, so `settings.actions` is the caller's own array, and line 383 reads it again at click time. The model freezes the actions in Config when `show` runs.

## Findings

| source | as written | input that shows it | evidently intended | confidence | as-written member | corrected member |
|---|---|---|---|---|---|---|
| snacky.js:287-294 | `replace-oldest` calls `_hideAndRemove` on `lastElementChild` or `firstElementChild` without checking that the container has children | `show('x', { queueStrategy: 'replace-oldest', maxVisible: 0 })` at a position with no container: count 0 >= 0, the target is `null`, and `null.classList` throws a TypeError after the empty container was registered | hide the oldest child only when there is one | not executed | Queue.FreshContainerThrows | Queue.Victims |
