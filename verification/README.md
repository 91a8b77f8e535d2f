# Gramps Web front-end logic in Dafny

This project models three pieces of the Gramps Web front end. Each is written as
immutable records and pure functions, with its properties proved.

- **The lightbox.** This is the modal media viewer's zoom / pan / swipe engine.
  - The component's reactive properties form a `State`.
  - Every handler is a pure transition, and some also emit a `left` / `right` navigation signal. The handlers are:
    - mouse wheel;
    - pointer down / move / up;
    - touch start / move / end;
    - key press;
    - rectangle-draw start / end;
    - the close / left / right buttons;
    - the host's property assignments;
    - Lit's `updated` hook.
  - `LightboxRun` runs arbitrary event sequences and proves the invariant they keep:
    - the scale stays in [1, 8];
    - an unzoomed view is centred;
    - a pan session exists exactly when a pointer is tracked.
  - Layout measurements are an explicit `Dom` input, with `None` for a missing element.
  - `Math.exp` is any strictly positive function the caller supplies.
- **The server-settings editor.**
  - `ConfigText`: labels, descriptions, input types and error texts.
  - `ConfigKeys`: the key list with priority keys first, the case-insensitive search, and the grouping.
  - `Grouping`: a generic order-keeping filter, a descending sort and a grouping by classifier.
  - `ConfigState`: normalising server entries, per-key form / status / busy bookkeeping, and the form sync after a load.
- **The person-relationship badge.**
  - The four-way choice of label, after the self check.
  - The relations URL with its two defaulting rules.
  - A parser showing that the URL carries exactly the intended query parameters.

Shared modules:
- `Wrappers` holds `Option`.
- `Strings` holds prefix / suffix / infix tests, ASCII lower-casing, ECMAScript trimming, joining and splitting.
- `Json` holds JSON values with JavaScript truthiness and string conversion.

## Model

| member | source | states |
|---|---|---|
| Lightbox.Init | src/components/GrampsjsLightbox.js:166-182 | a new lightbox is closed, not zoomable, not drawing, with an empty zoom key, at scale 1 with zero pan, no pan session, no tracked pointer, no touch positions and a zero slide offset |
| Lightbox.ClampValue | src/components/GrampsjsLightbox.js:6 | with lo ≤ hi the result lies in [lo, hi]; a value already in range is returned unchanged; below gives lo, above gives hi |
| Lightbox.MaxPan | src/components/GrampsjsLightbox.js:425-426 | the pan bound is never negative; it is half the overhang of the scaled content when the content is larger than the viewport, and 0 otherwise |
| Lightbox.ClampPan | src/components/GrampsjsLightbox.js:404-429 | only the pan changes; scale ≤ 1 forces pan (0,0); a missing element or a non-positive size leaves the pan alone; otherwise each axis is clamped into [−bound, bound] for the current scale, so the pan ends in the box and a pan already inside is kept |
| Lightbox.ResetZoom | src/components/GrampsjsLightbox.js:431-437 | scale 1, pan (0,0), no session, no tracked pointer; nothing else changes |
| Lightbox.AnchorZoom | src/components/GrampsjsLightbox.js:355-358 | the pan after a zoom from prev to next around the cursor keeps the content point under the cursor fixed, (cursor − pan′)/next = (cursor − pan)/prev, and a cursor at the pan offset leaves the pan where it is |
| Lightbox.WheelTarget | src/components/GrampsjsLightbox.js:337-343 | the scale a wheel step aims for always lies in [1, 8], whatever the delta and the exponential |
| Lightbox.WheelZoom | src/components/GrampsjsLightbox.js:351-359 | before clamping, only scale and pan change, the scale becomes the clamped target, and on both axes the content point under the cursor (measured from the viewport centre) is the same before and after |
| Lightbox.Wheel | src/components/GrampsjsLightbox.js:331-361 | a no-op when zooming is disabled or a rectangle is drawn, when the viewport is missing, or when the scale would move by less than 0.001; otherwise the new scale is the target in [1, 8]; above scale 1 each pan axis is the cursor-anchored pan, clamped into its box when the layout is measurable and left as it is when not; at scale 1 the pan is zero; only scale and pan ever change |
| Lightbox.PointerDown | src/components/GrampsjsLightbox.js:363-381 | a session starts only when zoomable, not drawing, scale > 1, the pointer is not touch and button is 0; the session records the pointer id, the cursor and the pan origin; nothing else changes |
| Lightbox.PointerMove | src/components/GrampsjsLightbox.js:383-391 | a no-op unless a session with the same pointer id is active; otherwise each pan axis is origin + cursor delta, clamped into [−bound, bound] when the layout is measurable, unclamped when it is not, and zero at scale ≤ 1; only the pan changes |
| Lightbox.PointerUp | src/components/GrampsjsLightbox.js:393-402 | an event whose id differs from the tracked one changes nothing, including when no pointer is tracked; the tracked id ends the session and clears the id |
| Lightbox.Difference | src/components/GrampsjsLightbox.js:315-322 | the JavaScript difference of two positions is defined exactly when both are, and then adds back to the first |
| Lightbox.TouchStart | src/components/GrampsjsLightbox.js:305-310 | only when not drawing and scale ≤ 1: start and current touch position are set to the touch point |
| Lightbox.TouchMove | src/components/GrampsjsLightbox.js:312-317 | only when not drawing and scale ≤ 1: the slide offset is the move position minus the start position (undefined before any start) |
| Lightbox.SwipeSignal | src/components/GrampsjsLightbox.js:322-327 | `right` exactly when the swipe moved strictly more than 10 pixels leftwards, `left` exactly when more than 10 rightwards, at most one signal |
| Lightbox.TouchEnd | src/components/GrampsjsLightbox.js:319-329 | when disabled, no change and no signal; otherwise the slide snaps back to 0 and `right` / `left` are emitted iff moved < −10 / > 10 |
| Lightbox.KeyPress | src/components/GrampsjsLightbox.js:283-291 | Escape closes with no signal; otherwise the state is unchanged and ArrowRight/Right emit `right`, ArrowLeft/Left emit `left`, other keys nothing |
| Lightbox.Updated | src/components/GrampsjsLightbox.js:446-457 | opening, or a new zoom key while open, resets to scale 1 and pan (0,0) with no session and changes nothing else; without a reset, a change of `_scale` or `zoomable` gives exactly the clamped pan of `ClampPan`, and any other change leaves the state as it was |
| LightboxRun.PointerStep | src/components/GrampsjsLightbox.js:331-402 | the wheel and pointer handlers keep the invariant (scale in [1,8], scale ≤ 1 ⇒ pan (0,0), panning ⇔ a tracked pointer) |
| LightboxRun.TouchStep | src/components/GrampsjsLightbox.js:305-329 | the touch handlers keep the invariant and emit at most one signal, touch-end exactly that of `TouchEnd` |
| LightboxRun.ControlStep | src/components/GrampsjsLightbox.js:259-303 | Escape and the arrow keys, rectangle start / end, the close / left / right buttons, the host's assignments and the update cycle keep the invariant and emit at most one signal |
| LightboxRun.Step | src/components/GrampsjsLightbox.js:259-437 | any single handler keeps the invariant and emits at most one signal |
| LightboxRun.Run | src/components/GrampsjsLightbox.js:305-437 | any sequence of events from a valid state ends in a valid state, with no more signals than events |
| LightboxRun.InitValid | src/components/GrampsjsLightbox.js:166-182 | the initial state satisfies the invariant |
| LightboxRun.UnzoomedIsCentred | src/components/GrampsjsLightbox.js:404-409 | after any event sequence from a fresh lightbox, scale is in [1, 8], and scale 1 implies pan (0,0) |
| LightboxRun.WheelKeepsCursorPoint | src/components/GrampsjsLightbox.js:351-360 | when the clamp leaves the anchored pan alone (the content element is missing, or the anchored pan already lies in the box), a wheel zoom to a scale above 1 keeps the content point under the cursor fixed on both axes |
| LightboxRun.ClampedContentCoversViewport | src/components/GrampsjsLightbox.js:425-428 | after clamping, content wider (taller) than the viewport still covers it edge to edge, and narrower content is centred |
| LightboxRun.ClampPanIdempotent | src/components/GrampsjsLightbox.js:404-429 | clamping twice is the same as clamping once |
| LightboxRun.RunCons | src/components/GrampsjsLightbox.js:305-329 | running one event and then the rest equals running all of them, with the signals concatenated |
| LightboxRun.StepKeepsBox | src/components/GrampsjsLightbox.js:331-457 | in a measurable layout every handler leaves a pan that was inside its box inside its box |
| LightboxRun.RunKeepsBox | src/components/GrampsjsLightbox.js:331-457 | over any event sequence whose layout stays the same and measurable, a pan that starts inside its box stays inside |
| LightboxRun.ZoomKeyChangeResets | src/components/GrampsjsLightbox.js:446-452 | a new zoom key assigned while open, followed by the update cycle, returns to scale 1, pan (0,0), no session, no signal |
| LightboxRun.SwipeRun | src/components/GrampsjsLightbox.js:305-329 | on an unzoomed, enabled lightbox, touch start at a, move to b, end gives slide 0 and exactly the signal for b − a |
| LightboxRun.SwipeScenarios | src/components/GrampsjsLightbox.js:319-327 | a 50-pixel leftward swipe emits `right`; a 40-pixel rightward swipe emits `left` |
| LightboxRun.SwipeThresholdIsStrict | src/components/GrampsjsLightbox.js:323-326 | a swipe of exactly 10 pixels either way emits nothing |
| LightboxRun.UntrackedPointerUpIsNoOp | src/components/GrampsjsLightbox.js:393-396 | a pointer-up with no session in progress leaves the state exactly as it was and emits nothing |
| LightboxRun.RectDrawOnlyBlocksNewGestures | src/components/GrampsjsLightbox.js:293-303 | while drawing, no pan can start and neither wheel nor swipe apply, yet a running pan session still follows its pointer |
| ConfigText.FirstMatch | src/components/GrampsjsConfigSettings.js:425 | the index of the first matching rule (`Array.prototype.find`): it matches, no earlier rule matches, and none is returned only when no rule matches |
| ConfigText.Label | src/components/GrampsjsConfigSettings.js:446-448 | a key with a declared label shows it; any other key shows itself |
| ConfigText.Describe | src/components/GrampsjsConfigSettings.js:454-492 | for any table, rule list and fallback: a non-empty table entry wins; otherwise the first matching rule in order supplies the text; otherwise the fallback; non-empty whenever all the texts are |
| ConfigText.Description | src/components/GrampsjsConfigSettings.js:454-492 | the declared table, the eleven prefix / infix / suffix rules and 'Server behavior setting.' put into that lookup; every key gets a non-empty description |
| ConfigText.DescriptionTableWins | src/components/GrampsjsConfigSettings.js:455-457 | a key with a declared description shows exactly that description |
| ConfigText.InputType | src/components/GrampsjsConfigSettings.js:502-507 | 'password' exactly when the key contains PASSWORD, else 'text' |
| ConfigText.PasswordKeysMasked | src/components/GrampsjsConfigSettings.js:502-507 | any key with PASSWORD anywhere in its name gets a password input, and the test is case-sensitive ("password" alone is a text input) |
| ConfigText.ErrorText | src/components/GrampsjsConfigSettings.js:570-581 | a falsy error gives ''; a string is itself; an object with a message shows the message as Lit renders it ('' when the message is falsy); anything else is stringified |
| ConfigText.ErrorMessageUnwrapped | src/components/GrampsjsConfigSettings.js:570-581 | an error object with a truthy message reads the same as the bare message, unless that message is an array or itself an object with a message |
| ConfigText.ArrayMessageConcatenated | src/components/GrampsjsConfigSettings.js:577-580 | an array message is shown item after item with no separator, while the same array as the error itself is stringified with commas |
| ConfigKeys.PriorityKeysDistinct | src/components/GrampsjsConfigSettings.js:63-71 | the priority keys are pairwise distinct |
| ConfigKeys.FirstIndex | src/components/GrampsjsConfigSettings.js:414-415 | the position of the first occurrence of an element: it is there and not earlier |
| ConfigKeys.Dedupe | src/components/GrampsjsConfigSettings.js:414-415 | spreading a Set: no duplicates, the same members, ordered by first occurrence |
| ConfigKeys.DedupeExtends | src/components/GrampsjsConfigSettings.js:414-415 | deduplicating a longer list keeps the deduplicated prefix in front |
| ConfigKeys.DedupeDistinct | src/components/GrampsjsConfigSettings.js:414-415 | a list without duplicates is its own deduplication |
| ConfigKeys.AllKeys | src/components/GrampsjsConfigSettings.js:413-416 | no duplicates; exactly the priority keys and the configuration's keys; the priority keys first in declared order; the rest by first occurrence |
| ConfigKeys.FilteredKeys | src/components/GrampsjsConfigSettings.js:402-411 | a blank (after trimming) search gives all keys unchanged; otherwise exactly the keys whose lower-cased name or label contains the lower-cased trimmed query, as an order-keeping subsequence without duplicates |
| ConfigKeys.SearchFindsLabel | src/components/GrampsjsConfigSettings.js:402-411 | searching for a listed key's (non-blank) label shows that key |
| ConfigKeys.GroupOrder | src/components/GrampsjsConfigSettings.js:81-140 | the display order is the six declared groups in order, then the fallback, with no group twice |
| ConfigKeys.GroupOf | src/components/GrampsjsConfigSettings.js:424-426 | every key is assigned a group of the display order |
| ConfigKeys.GroupOfIsFirstMatch | src/components/GrampsjsConfigSettings.js:81-135 | a key goes to the first declared group whose predicate matches, and to 'other' exactly when none matches |
| ConfigKeys.GroupedVisibleKeys | src/components/GrampsjsConfigSettings.js:418-435 | the groups shown keep declaration order with the fallback last, each at most once; each is non-empty and sorted descending; each group's keys are a permutation of the shown keys classified into it, with no key twice; no shown key is left out |
| ConfigKeys.IsGroupOpen | src/components/GrampsjsConfigSettings.js:535-540 | every group is open during a search; otherwise exactly 'email' and 'urls' |
| ConfigKeys.DefaultOpenGroups | src/components/GrampsjsConfigSettings.js:535-540 | with a blank search exactly the first two groups of the display order start expanded |
| Grouping.Keep | src/components/GrampsjsConfigSettings.js:406-410 | keeps exactly the elements satisfying the predicate, as a subsequence, preserving distinctness |
| Grouping.Insert | src/components/GrampsjsConfigSettings.js:432 | inserting into a descending list keeps it descending and adds exactly that element, so a new element keeps the list free of duplicates |
| Grouping.SortDescending | src/components/GrampsjsConfigSettings.js:432 | the result is in descending order under the comparison and is a permutation of the input, without duplicates when the input has none |
| Grouping.Members | src/components/GrampsjsConfigSettings.js:424-426 | the keys pushed into a group are exactly the keys classified into it |
| Grouping.Present | src/components/GrampsjsConfigSettings.js:431-434 | the groups kept are exactly those of the order with at least one key, in order, each once |
| Grouping.BuildGroups | src/components/GrampsjsConfigSettings.js:418-435 | the groups shown are the non-empty ones in the given order; each holds keys, sorted descending, that are a permutation of the group's members (without duplicates when the keys have none), and a key is in a group iff it is a listed key classified into that group |
| Grouping.KeyInExactlyOneGroup | src/components/GrampsjsConfigSettings.js:418-435 | every listed key whose group is in the order appears in exactly one group, the one it is classified into |
| Grouping.BuildGroupsShowsAll | src/components/GrampsjsConfigSettings.js:418-435 | when every key's group is in the order, the groups hold exactly the keys, each in its own group, and none is left out |
| ConfigState.NormalizeEntry | src/components/GrampsjsConfigSettings.js:595-612 | a structured entry keeps its value (null as ''), its overridden flag coerced to bool and its type (falsy as 'str'); any other entry is its `${v ?? ''}` text, overridden, type 'str'; the type is always truthy |
| ConfigState.Normalize | src/components/GrampsjsConfigSettings.js:592-615 | the key set is preserved and each entry is normalised on its own |
| ConfigState.NormalizeEntryRoundTrip | src/components/GrampsjsConfigSettings.js:596-605 | normalising the structured form of a normal entry returns that entry |
| ConfigState.NormalizeIdempotent | src/components/GrampsjsConfigSettings.js:592-615 | normalising already normalised data, re-encoded, changes nothing |
| ConfigState.Init | src/components/GrampsjsConfigSettings.js:289-298 | a new editor is loading, with empty data, key order, form and statuses, nothing busy and no filter |
| ConfigState.StoredValue | src/components/GrampsjsConfigSettings.js:509-511 | the stored value, or '' for an unknown key |
| ConfigState.FormValue | src/components/GrampsjsConfigSettings.js:513-515 | the edited value, or '' for a key the form lacks |
| ConfigState.TypeOf | src/components/GrampsjsConfigSettings.js:494-496 | the entry's type when it is truthy, and 'str' for an unknown key or a falsy type; never falsy |
| ConfigState.IsOverridden | src/components/GrampsjsConfigSettings.js:517-519 | a known key is overridden exactly when its entry's flag is set; a key the server did not send never is |
| ConfigState.HasChanged | src/components/GrampsjsConfigSettings.js:521-523 | a key is changed iff its form value and stored value differ, a missing side reading as ''; a key in neither is unchanged |
| ConfigState.IsBusy | src/components/GrampsjsConfigSettings.js:525-533 | nothing is busy without a busy key; with no key asked, any busy key counts; with a key, only that key |
| ConfigState.SetSaveStatus | src/components/GrampsjsConfigSettings.js:554-559 | records {ok, message} for the key; other keys' statuses and every other field are unchanged |
| ConfigState.ClearSaveStatus | src/components/GrampsjsConfigSettings.js:561-568 | removes the key's status; an absent key leaves the whole state unchanged; other statuses are untouched |
| ConfigState.ClearUndoesSet | src/components/GrampsjsConfigSettings.js:554-568 | setting and then clearing a status for a key that had none restores the state |
| ConfigState.ClearIdempotent | src/components/GrampsjsConfigSettings.js:561-568 | clearing twice is clearing once |
| ConfigState.HandleInput | src/components/GrampsjsConfigSettings.js:583-586 | the form value of the key becomes the typed value and its status is removed; other keys' values and statuses and the other fields are unchanged |
| ConfigState.HandleInputChanged | src/components/GrampsjsConfigSettings.js:583-586 | after an edit the key counts as changed iff the typed value differs from the stored one; other keys' changed flags are unaffected |
| ConfigState.StartLoad | src/components/GrampsjsConfigSettings.js:617-619 | loading starts and the previous error is cleared; nothing else changes |
| ConfigState.LoadFailed | src/components/GrampsjsConfigSettings.js:627-631 | the error is kept for display, loading ends, and nothing else changes |
| ConfigState.LoadSucceeded | src/components/GrampsjsConfigSettings.js:632-638 | the data is the normalised response and the key order the response's; the form has an entry for exactly the keys of the key list, each equal to its stored value; loading ends; error, statuses, busy key and filter are unchanged |
| ConfigState.NothingChangedAfterLoad | src/components/GrampsjsConfigSettings.js:632-637 | right after a successful load no key counts as changed, listed or not |
| ConfigState.OverriddenAfterLoad | src/components/GrampsjsConfigSettings.js:517-519 | after a load a key is overridden iff the server sent it bare or as a structured entry with a truthy flag |
| ConfigState.BeginRequest | src/components/GrampsjsConfigSettings.js:641-642 | the key being saved or reset is busy, the editor as a whole is busy, no other key is, and nothing else changes |
| ConfigState.ResponseArrived | src/components/GrampsjsConfigSettings.js:647 | once the response arrives no key is busy |
| ConfigState.RequestFailed | src/components/GrampsjsConfigSettings.js:647-656 | an error response leaves nothing busy and reports the error text as not saved for the key; other keys' statuses and every other field are unchanged |
| ConfigState.RequestSucceeded | src/components/GrampsjsConfigSettings.js:657-658 | after the reload the key reports success with an empty message; other keys' statuses and every other field are unchanged |
| ConfigState.EditClearsError | src/components/GrampsjsConfigSettings.js:583-586 | editing a key whose save just failed removes the error again, restoring the statuses to what they were |
| ConfigState.SuccessfulSaveCycle | src/components/GrampsjsConfigSettings.js:641-660 | a successful save or reset followed by a successful reload ends with nothing busy, the key reported saved, and no key changed |
| Relationship.Get | src/components/GrampsjsPersonRelationship.js:39-40 | optional chaining: a field exists exactly for an object that has it, and is that field |
| Relationship.Relation | src/components/GrampsjsPersonRelationship.js:39 | the relationship string is defined exactly when the answer is an object with a `data` object holding that field, and is that field |
| Relationship.ViaName | src/components/GrampsjsPersonRelationship.js:40 | the bridging name is defined exactly when `data.association_via` is an object holding `name_display`, and is that field |
| Relationship.RelationshipLabel | src/components/GrampsjsPersonRelationship.js:38-54 | 'self' iff the two people are the same; otherwise blank iff no relationship field, 'Acquainted through' iff the string is empty and the bridging name is truthy, 'Not Related' iff empty without one, the value verbatim iff it is anything else |
| Relationship.SelfIgnoresData | src/components/GrampsjsPersonRelationship.js:41-43 | for the same person the label is 'self' whatever was fetched, even nothing |
| Relationship.LabelDependsOnTwoFields | src/components/GrampsjsPersonRelationship.js:39-40 | responses that agree on the relationship string and the bridging name give the same label |
| Relationship.LabelOfResponse | src/components/GrampsjsPersonRelationship.js:44-53 | on well-formed responses: a non-empty phrase is shown as is; an empty one shows the bridging person, or 'Not Related' without one |
| Relationship.Locale | src/components/GrampsjsPersonRelationship.js:29 | the locale is never empty; it is the language when one is set and 'en' when none is |
| Relationship.IncludeBridge | src/components/GrampsjsPersonRelationship.js:23-24 | associations are included when the setting is absent or null, and otherwise exactly when it is truthy; `false` and '' switch them off |
| Relationship.Bridge | src/components/GrampsjsPersonRelationship.js:23-27 | the association parameters are appended iff the setting is absent, null or truthy |
| Relationship.Params | src/components/GrampsjsPersonRelationship.js:22-31 | depth 20 and the locale come first; both association parameters are present iff the bridge is included |
| Relationship.Items | src/components/GrampsjsPersonRelationship.js:28-30 | one `name=value` item per parameter, in order |
| Relationship.QueryText | src/components/GrampsjsPersonRelationship.js:28-30 | the parameters joined by `&` are exactly the query text of the URL |
| Relationship.Url | src/components/GrampsjsPersonRelationship.js:22-31 | the URL is `/api/relations/<p1>/<p2>` followed by `?` and the query string of the parameters |
| Relationship.ParseUrl | src/components/GrampsjsPersonRelationship.js:22-31 | for ids without `?` and a plain locale, reading the URL's query back gives exactly the parameters |
| Relationship.BridgeVisible | src/components/GrampsjsPersonRelationship.js:23-30 | a reader of the URL sees the association parameter iff the setting allows it, and sees locale 'en' when no language is set |
| Strings.Trim | src/components/GrampsjsConfigSettings.js:403 | the trimmed text is empty iff the text is all white space, and otherwise starts and ends with a non-space |
| Strings.TrimIsMiddle | src/components/GrampsjsConfigSettings.js:403 | the trimmed text is a middle part `s[a..b]` of the text with only white space before and after it |
| Strings.LowerTrimmedInLower | src/components/GrampsjsConfigSettings.js:403-409 | the lower-cased trimmed text occurs in the lower-cased text |
| Strings.ToLower | src/components/GrampsjsConfigSettings.js:403-409 | same length, each character lower-cased (ASCII) |
| Strings.SplitJoin | src/components/GrampsjsPersonRelationship.js:28-30 | splitting a join of separator-free pieces gives back the pieces |
| Strings.JoinSplit | src/components/GrampsjsPersonRelationship.js:28-30 | for the URL reader of this model (`ParseQuery`), not the component: joining the pieces of a split gives back the text, so `Split` loses nothing |
| Json.TextOrEmpty | src/components/GrampsjsConfigSettings.js:602-608 | `${v ?? ''}` is '' for null and the string itself for a string |
| Json.LitText | src/components/GrampsjsConfigSettings.js:550 | Lit's child-position rendering: null renders nothing, a non-array value renders as its string conversion, an empty array renders nothing |

## Left out

- Rendering is not modelled: Lit templates, CSS, `render`, `_renderSaveStatus`, the arrow-hiding properties and focus handling.
- Browser side effects are not modelled: `preventDefault`, `stopPropagation`, pointer capture and release, and `CustomEvent` dispatch. Dispatched navigation events are the `signals` of a `Transition`.
- Layout is an input. The viewport rectangle, `clientWidth/Height` and `offsetWidth/Height` come in as `Dom`, because the DOM is outside the model.
- Numbers are `real`. Floating-point rounding and NaN from layout are not modelled. `Math.exp` is any strictly positive function, so properties hold for every such function.
- Lit batches several property changes into one update cycle. Host assignments and `updated` are separate events here, and the invariants are proved for every interleaving, which covers Lit's batching.
- The network calls are not modelled: `apiGet` / `apiPut` / `apiDelete`, the fallback fetch in `_loadData`, and notifications. The synchronous state changes around them are modelled (`StartLoad`, `LoadFailed`, `LoadSucceeded`, `BeginRequest`, `ResponseArrived`, `RequestFailed`, `RequestSucceeded`).
- The translation function `this._` and `_displayLabel` are not modelled. Labels are the untranslated English words, and `RelationLabel` names the label without its wording.
- `localeCompare` is not modelled, because it depends on the locale. It is any total comparison `le`, and sorting is proved descending under it.
- `toLowerCase` is modelled for ASCII letters only.
- Number formatting is not modelled. A JSON number carries the text `String(n)` gives for it.
- Object keys are not derived. `Object.keys` order is passed in as `keyOrder`. Prototype properties such as `constructor` are treated as absent from the label and description tables, and a JavaScript lookup of them would not be.
- `Lightbox.Wheel`: requires a positive scale, because the source divides by the previous scale. The component's invariant keeps the scale in [1, 8].
- `ConfigText.Description`: its own contract states only that the text is never empty. Which text a key gets is stated once by `ConfigText.Describe`, which `Description` applies to the declared table and rules, and by `DescriptionTableWins`.
- `ConfigText.ErrorText`: returns the text the save status shows, not the raw value `_errorText` returns. For an error object the component stores `message` as it is, and `_renderSaveStatus` renders it through Lit (src/components/GrampsjsConfigSettings.js:550). So a falsy message shows nothing, and an array message shows its items one after another, as `Json.LitText` models. Lit's rendering of templates and directives inside a message is not modelled.
- `ConfigState.LoadSucceeded`: takes the response's `data` map after `data.data || {}` has been applied.
- `ConfigState.NormalizeEntry`: a non-string `type` is kept as the JSON value it is. `TYPE_HINTS` placeholders are not modelled.
- `Relationship.Url`: the language is a string, and a missing language is modelled as the empty string.
- `Relationship.RelationshipLabel`: `renderContent` renders a non-string relationship value through Lit. The model keeps the value itself in `Verbatim` rather than its rendered text.
- Drawing a rectangle does not stop everything. The code's guards block new pans, wheel zoom and swipes, but a pan session already in progress still follows its pointer, as `RectDrawOnlyBlocksNewGestures` states. The model follows the code here.
- `Relationship.IncludeBridge`: the associations are left out for any falsy setting other than null, such as `0` or `''`, and not only for `false`. The code tests the value for truthiness after `?? true`, and the model follows the code.
- `src/views/GrampsjsViewServerSettings.js` is not part of this model: it is a permission-gated render.
- `web-test-runner.config.mjs` is not part of this model: it is test tooling configuration.
