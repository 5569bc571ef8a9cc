# Metrics export, list selection and data previews — a Dafny model

This project models three pieces of a desktop debugging tool:

- **Metrics export** (`src/utils/exportMetrics.tsx`). `exportMetrics` walks the persisted plugin states. Each state is keyed `"<clientID>#<pluginName>"`. The walk keeps the plugins the selection allows, hands each state to its plugin's `metricsReducer` and merges the result into a nested client → plugin → metrics dictionary. `exportMetricsFromTrace` first checks an imported trace document and then runs the same export on the plugin states the trace holds.
- **ListView selection** (`src/chrome/ListView.tsx`). This is the set of selected element names: how the props seed it, how a checkbox change updates it in single and multiple mode, what each row shows and what Submit hands over.
- **DataPreview** (`src/ui/components/data-inspector/DataPreview.tsx`). This covers `intersperse`, the array preview and the truncated object preview with its ellipsis.

Files:

- `wrappers.dfy` holds `Option` and `Result`.
- `strings.dfy` holds JavaScript's `split` and `join` on a one-character separator.
- `export_metrics.dfy`, `list_view.dfy` and `data_preview.dfy` hold one module per source file.

`exportMetrics` is modelled as the imperative method `ExportMetrics`. Its loop mutates a local `metrics` map, and it is proved equal to the specification function `Aggregate`, a fold of `Step` over the entries. The lemmas about `Aggregate` state what the export promises. Because `Aggregate` is a function, two exports of the same inputs give the same result. The trace checks are the pure function `LoadPluginStates`. The method `ExportMetricsFromTrace` runs those checks and then the export. The ListView component is the class `ListViewComponent`, with the selection as a `set<string>` field. The object preview loop is the method `PropertyNodes`.

Behaviour modelled as the code has it, where a plain reading of the design would expect otherwise:

- A key without `#` is not skipped. `split` always gives at least one piece, so the `pluginName === undefined` guard never fires. The key becomes client `""` with the whole key as the plugin name, so `"p"` and `"#p"` fill the same slot. A key ending in `#` is not skipped either: its plugin name is `""`, and that name is looked up like any other.
- The entries are walked in order and a later entry overwrites an earlier one for the same client and plugin. The result therefore depends on the order whenever two keys decompose alike.
- Every falsy JSON value (`null`, `false`, `0`, `""`) gets the same "valid JSON" error as text that does not parse. A falsy `store` or `pluginStates` counts as missing.
- A rejecting reducer is not caught. The whole export rejects with the error of the first reducer that rejects.
- A property name written twice in a trace's `pluginStates` is walked once, at its first position, with its last value, as `JSON.parse` and `for...in` treat it.
- After a checkbox change React derives the state from the props again before rendering. A change that empties the selection therefore snaps back to the props' initial selection: unchecking in single mode, or unchecking the last element in multiple mode.
- The object preview attaches the ellipsis when the number of keys equals `maxProperties`, even though no key is dropped.

## Model

| member | source | states |
|---|---|---|
| Strings.Split | src/utils/exportMetrics.tsx:30 | `key.split('#')` gives at least one piece and no piece contains the separator |
| Strings.JoinSplit | src/utils/exportMetrics.tsx:30-38 | joining the pieces of a split with the same separator gives the original string back |
| Strings.SplitWithout | src/utils/exportMetrics.tsx:30-33 | a key without `#` splits into itself alone, so popping always yields a plugin name |
| Strings.JoinLast | src/utils/exportMetrics.tsx:31-38 | joining two or more pieces puts the separator right before the popped last piece |
| ExportMetrics.DecomposeLast | src/utils/exportMetrics.tsx:30-38 | the plugin name has no `#`; with a `#`, clientID + "#" + pluginName is the key; without one, the key is client "" and plugin key |
| ExportMetrics.DecomposeUnique | src/utils/exportMetrics.tsx:30-38 | any split at a `#` that leaves no `#` in the plugin part is the decomposition, i.e. it splits at the last `#` |
| ExportMetrics.DecomposeNestedClient | src/utils/exportMetrics.tsx:30-38 | "a#b#pluginX" decomposes to client "a#b" and plugin "pluginX" |
| ExportMetrics.DecomposeCollision | src/utils/exportMetrics.tsx:30-38 | the distinct keys "p" and "#p" both decompose to client "" and plugin "p" |
| ExportMetrics.Merge | src/utils/exportMetrics.tsx:46-53 | storing a plugin's metrics sets that slot, keeps the client's other plugins and their values, and leaves every other client unchanged |
| ExportMetrics.ExportMetrics | src/utils/exportMetrics.tsx:22-57 | the loop over the plugin states returns exactly `Aggregate` of the entries, the selection and the plugin map |
| ExportMetrics.AggregateFailurePersists | src/utils/exportMetrics.tsx:45 | once a reducer has rejected, the remaining entries do not change the outcome |
| ExportMetrics.AggregateRejectsIff | src/utils/exportMetrics.tsx:45 | the export rejects if and only if some reducer that runs rejects |
| ExportMetrics.AggregateFirstRejection | src/utils/exportMetrics.tsx:45 | the export rejects with the error of the first reducer that rejects |
| ExportMetrics.AggregateSlots | src/utils/exportMetrics.tsx:39-53 | `result[c][p]` exists if and only if some entry whose reducer runs decomposes to `(c, p)` |
| ExportMetrics.AggregateLastWins | src/utils/exportMetrics.tsx:45-53 | a slot holds the reducer output of the last entry that decomposes to it |
| ExportMetrics.AggregateNoEmptyClient | src/utils/exportMetrics.tsx:44-53 | no client slot is created without a plugin's metrics in it |
| ExportMetrics.AggregateOnlySelectedReducers | src/utils/exportMetrics.tsx:32-44 | every slot's plugin is in a non-empty selection and is in the plugin map with a `metricsReducer` |
| ExportMetrics.AggregateEmptySelection | src/utils/exportMetrics.tsx:32-44 | with an empty selection a slot exists if and only if its plugin has a reducer and some key decomposes to it |
| ExportMetrics.KeyCollisionOverwrites | src/utils/exportMetrics.tsx:30-53 | the states under "p" and then "#p" give one slot `[""]["p"]` holding the second state's metrics |
| ExportMetrics.Lookup | src/utils/exportMetrics.tsx:109-118 | a property read finds the last property of that name, and finds nothing when no property has it |
| ExportMetrics.Names | src/utils/exportMetrics.tsx:28 | the property names of an object, each exactly once, and every name that is written |
| ExportMetrics.Entries | src/utils/exportMetrics.tsx:28-29 | `for...in` visits each property name once, with the value a read of that name gives, and visits every name written; a non-object has no entries |
| ExportMetrics.EntriesOfDistinct | src/utils/exportMetrics.tsx:28-29 | an object whose names are distinct is walked exactly as written, in order |
| ExportMetrics.LookupDistinct | src/utils/exportMetrics.tsx:29 | without repeated names, reading a property's name gives that property's value |
| ExportMetrics.RepeatedNameWalkedOnce | src/utils/exportMetrics.tsx:28-29 | `{"c#p": a, "c#p": b}` is walked as the single entry `c#p: b` |
| ExportMetrics.MessagesDistinct | src/utils/exportMetrics.tsx:104-125 | the three trace rejections carry three different messages |
| ExportMetrics.ExportMetricsFromTrace | src/utils/exportMetrics.tsx:96-127 | a trace that fails a check yields that check's error with no reducer result; otherwise the result is exactly the export of its plugin states, with a rejection passed on |
| ExportMetrics.FalsyIsInvalidJson | src/utils/exportMetrics.tsx:102-107 | every falsy parsed value gets the same "valid JSON" error as unparseable text |
| ExportMetrics.StoreDecides | src/utils/exportMetrics.tsx:109-127 | for a document whose last `store` property is truthy, the outcome is "no pluginStates" or that store's plugin states, depending only on the store |
| ExportMetrics.NoStoreProperty | src/utils/exportMetrics.tsx:109-116 | an object without a `store` property is rejected with the "no store" error |
| ExportMetrics.WellFormedTrace | src/utils/exportMetrics.tsx:108-127 | `{store: {pluginStates: P}}` is accepted and yields the `for...in` entries of `P`, which are exactly `P` when its names are distinct |
| ListView.SyncedSelection | src/chrome/ListView.tsx:126-137 | a non-empty selection is kept; an empty one is seeded with `selectedElements` (multiple) or `{selectedElement}` (single) |
| ListView.SyncedSelectionIdempotent | src/chrome/ListView.tsx:126-137 | applying the derived state a second time changes nothing |
| ListView.ChangeShowsRequest | src/chrome/ListView.tsx:139-157 | the set `handleChange` stores holds `id` if and only if the checkbox was set, in both modes |
| ListView.RenderAfterChange | src/chrome/ListView.tsx:126-157 | at the next render, a change that leaves something selected shows as requested, and one that empties the selection shows the props' seed |
| ListView.SingleUncheckSnapsBack | src/chrome/ListView.tsx:126-145 | in single mode, unchecking any row brings back `{selectedElement}` at the next render |
| ListView.MultipleUncheckLastSnapsBack | src/chrome/ListView.tsx:126-154 | in multiple mode, unchecking the last selected element brings back the props' `selectedElements` |
| ListView.SingleAtMostOne | src/chrome/ListView.tsx:140-145 | in single mode selecting gives exactly `{id}`, deselecting clears the set whatever `id` is, so at most one element is selected |
| ListView.MultipleOnlyTouchesId | src/chrome/ListView.tsx:147-154 | in multiple mode every element other than `id` keeps its state, and selecting a selected element changes nothing |
| ListView.MultipleDeselectUndoes | src/chrome/ListView.tsx:147-154 | in multiple mode deselecting undoes selecting an element that was not selected |
| ListView.ListViewComponent.constructor | src/chrome/ListView.tsx:125 | the initial selection is empty |
| ListView.ListViewComponent.SyncFromProps | src/chrome/ListView.tsx:126-137 | the selection becomes the synced selection of the props and the old selection |
| ListView.ListViewComponent.HandleChange | src/chrome/ListView.tsx:139-157 | the selection becomes the changed selection for the component's mode, `id` and checkbox state |
| ListView.ListViewComponent.ChangeAndRerender | src/chrome/ListView.tsx:126-157 | a checkbox change followed by React's derivation leaves the synced selection of the changed set |
| ListView.ListViewComponent.RowStates | src/chrome/ListView.tsx:172-177 | one checkbox per listed element, in order, checked exactly when that element is selected |
| ListView.ListViewComponent.Submit | src/chrome/ListView.tsx:194-196 | Submit hands over every selected element exactly once and nothing else |
| DataPreview.InterspersedFold | src/ui/components/data-inspector/DataPreview.tsx:27-32 | the reduce keeps its seed and appends separator and element alternately, two items per element |
| DataPreview.Intersperse | src/ui/components/data-inspector/DataPreview.tsx:22-33 | the empty array gives `[]`; n elements give 2n-1 items, even positions hold the elements in order and odd ones the separator |
| DataPreview.ArrayPreview | src/ui/components/data-inspector/DataPreview.tsx:49-73 | `[`, one slot per element in order with ", " between them even where a slot is null, then `]` |
| DataPreview.PropertyNodes | src/ui/components/data-inspector/DataPreview.tsx:78-99 | shows the keys in order, `min(#keys, max(maxProperties, 1))` of them; only the last shown carries the ellipsis, and only when `#keys >= maxProperties` |
| DataPreview.Render | src/ui/components/data-inspector/DataPreview.tsx:46-111 | arrays, dates and objects render their previews, an object's keys truncated as above and wrapped in braces; every other type renders nothing |
| DataPreview.TruncatedUnique | src/ui/components/data-inspector/DataPreview.tsx:80-99 | the truncation rule determines the shown keys completely |
| DataPreview.DefaultShowsFive | src/ui/components/data-inspector/DataPreview.tsx:42-44 | with `maxProperties` left to its default and more than five keys, five keys are shown and the fifth carries the ellipsis |
| DataPreview.EllipsisWhenNothingDropped | src/ui/components/data-inspector/DataPreview.tsx:84-98 | when the number of keys equals `maxProperties`, all keys are shown and the last still carries the ellipsis |

## Left out

- `serialize` and `deserializeObject`: the serialization format is external. The export result is the dictionary before serialization, and deserialization is the identity on the parsed document. The serialize/deserialize round trip is therefore not modelled.
- `fs.readFileSync`, `JSON.parse` and `console.error`: these are file I/O, a library parser and logging. The parse outcome is a parameter (None when `JSON.parse` throws), and a failing file read is not modelled.
- `exportMetricsWithoutTrace`: it only orchestrates the Redux store, `pluginsClassMap` and `fetchMetadata`, none of which is part of this model.
- Plugin `metricsReducer` bodies, `async`/`await` and promises: a reducer is a total function from state to metrics or a rejection reason, called in sequence.
- Enumeration order of `for...in`: the plugin states are walked in the written order of their first appearance. JavaScript enumerates integer-like names first, in ascending order; that reordering is not modelled. Keys that clash with `Object.prototype` members (such as `__proto__` or `toString`) are not modelled.
- ExportMetrics.Entries: a truthy `pluginStates` that is not an object has no entries in this model. The index keys that `for...in` yields over a string or an array are not modelled.
- JavaScript numbers are `int`. Metric values are only passed through. For truthiness only zero versus non-zero matters, and `NaN` is not modelled. A fractional `maxProperties` is not modelled either.
- ListView.ListViewComponent.Submit: the order of the handed-over array (the set's insertion order) is not modelled, only its elements and the absence of duplicates.
- The JSX rendering, styled components, the `ReactReduxContext`/`unsetShare` dispatch on Close, the `onSelect` and `onHide` callbacks, and `RowComponent`'s wiring of its checkbox to `handleChange` are left out.
- `extractValue`, `getSortedKeys`, `DataDescription`, `InspectorName` and a date's `toString` are external. Their outputs are inputs or opaque nodes here.
- The final `return null` of `getDerivedStateFromProps` for a type that is neither mode cannot be reached, because `Props` has exactly the two modes.
