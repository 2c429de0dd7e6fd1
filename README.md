# InventoryFlow in Dafny

InventoryFlow tracks retail stock. A product has colour variants. Each variant has a row of stock-unit slots, and each slot cycles empty → stocked → sold → empty. This project models and verifies the logic under the screens:

- **Entity model** (`inventory.dfy`): `Entry`, `ColorVariant`, `Product` and `InventoryData` as datatypes, plus the per-status count `StatusCount`.
- **Product-card handlers** (`product_card.dfy`): the status cycle, and add/delete colour, click/add/remove entry, as functions from the old product snapshot to the new one.
- **Product-list handlers** (`app.dfy`): add, replace by id, delete by id, the name search, and the variant total.
- **Local-first storage** (`storage.dfy`): the class `InventoryStore` holds the local record under `inventory_flow_data_v1`.
  - `Load` tries the remote endpoint first and mirrors what it gets into the local key. It falls back to the local record, or to `[]`.
  - `Save` always writes the local key first, then makes a best-effort remote write.
  - Both methods are proved against the functions `LoadSpec`, `SavedCell` and `SaveResult`.
- **Debounced save controller** (`sync_engine.dfy`): the class `SaveController` holds `products`, `isLoading`, `isSyncing`, `syncError` and the single pending timer.
  - Its events are `Mount`, `Edit`, `Fire` (timer expiry) and `Unmount`.
  - Each method is proved against the pure transition function `Step`.
  - The lemmas about `Step` give the debounce guarantees: the pending timer always carries the current list, a burst of edits arms one save of the last list, nothing is armed while loading, and the error flag means a failed remote write.
- **Insights summary** (`insights.dfy`): per product and per colour, the total, stocked, sold and empty slot counts, plus the missing-API-key guard.

Supporting modules: `Seqs` holds `filter`, `map` and counting over sequences, with their ordering and counting lemmas. `Text` holds JavaScript's `trim` test, lower-casing and `includes`. `Scenarios` walks two end-to-end examples.

The browser storage, the network, random identifiers and the clock are all parameters:
- whether a local read or write throws;
- what the remote read produced (an ok or not-ok response, a body that parses or not, or an exception);
- whether the remote write threw, or what HTTP status it got;
- fresh ids and timestamps.

### Behaviour of the code worth knowing

- **A save follows the initial load.** The save effect returns early while `isLoading` holds, so that the empty initial state is not saved (the comment at App.tsx:38). But once the load finishes, the save effect runs again and arms a save of the loaded list (App.tsx:37-49). `Step` on `LoadFinished` arms that timer, and `Mount` ends with it armed. So a list read from the remote endpoint is written straight back to it one second later.
- **HTTP error statuses count as success.** The save result ignores the status. Only an exception from `fetch` counts as failure (services/storage.ts:46-53). An HTTP 500 on save therefore does not raise `syncError`: `SaveResultIgnoresStatus` and `FiredErrorIffPostThrew` prove this, and `Scenarios.FailingRemoteScenario` clears the flag with an `Answered(500)`.
- **Names may contain surrounding whitespace.** Products and variants are only required to be non-blank. The name is stored as typed, surrounding whitespace included.
- **`updatedAt` is never refreshed.** It is set when a product is created and left alone by every card handler. Every handler's contract includes `r.(variants := p.variants) == p`.
- **The remote is a URL string.** A remote endpoint is configured exactly when its URL is a non-empty string (`HasRemote`), as in the code.

## Model

| member | source | states |
|---|---|---|
| Inventory.StatusCount | components/ProductCard.tsx:142-143 | the count of entries with a given status never exceeds the entry count, and equals the number of entries with that status |
| Inventory.StatusCountsPartition | services/geminiService.ts:21-24 | empty + stocked + sold counts equal the number of entries, because the status is three-valued |
| Inventory.StatusCountAppend | components/ProductCard.tsx:82 | appending one entry raises only the count of that entry's status, by one |
| ProductCard.NextStatus | components/ProductCard.tsx:57-61 | the transition table is total and never maps a status to itself |
| ProductCard.NextStatusCycle | components/ProductCard.tsx:57-61 | three steps return every status to itself; two steps never do |
| ProductCard.EmptySlots | components/ProductCard.tsx:38 | one empty entry per fresh id, in order |
| ProductCard.AddColor | components/ProductCard.tsx:33-43 | a blank colour name leaves the product unchanged; otherwise exactly one variant with the typed name and five empty slots is appended, earlier variants and all product fields untouched |
| ProductCard.DeleteColor | components/ProductCard.tsx:48-53 | the survivors are exactly the variants with another id, as a subsequence in the original order; the length drops by the number of matches; product fields unchanged |
| ProductCard.EditVariant | components/ProductCard.tsx:63-64 | only variants whose id matches are edited; length and positions kept |
| ProductCard.SetStatus | components/ProductCard.tsx:67-70 | matching entries get the new status, all ids and other statuses and the entry count unchanged |
| ProductCard.EntryClick | components/ProductCard.tsx:55-74 | in the target variant, every entry with the id takes next(currentStatus), where currentStatus is the passed-in status and not the stored one; other variants and product fields unchanged |
| ProductCard.AppendStocked | components/ProductCard.tsx:82 | the entry list grows by one stocked entry at the end, other fields kept |
| ProductCard.AddEntry | components/ProductCard.tsx:77-86 | exactly the target variants get one stocked entry appended; the rest is unchanged |
| ProductCard.DropEntry | components/ProductCard.tsx:93 | the survivors are exactly the entries with another id, in order; the length drops by the number of matches |
| ProductCard.RemoveEntry | components/ProductCard.tsx:88-97 | only the target variant loses entries; other variants and product fields unchanged |
| ProductCard.ShownCounts | components/ProductCard.tsx:142-143 | the first figure is the number of stocked entries and the second the number of sold ones; together they are the slot count minus the empty ones |
| ProductCard.EntryClickKeepsSlots | components/ProductCard.tsx:63-72 | a click never changes how many slots a variant has |
| ProductCard.AddEntryStocksOne | components/ProductCard.tsx:77-85 | adding an entry raises the stocked count by one and leaves the sold and empty counts |
| ProductCard.RemoveAbsentEntry | components/ProductCard.tsx:88-96 | removing an id that is not in the target variant leaves the product unchanged |
| Text.TrimStartDropsWhitespacePrefix | App.tsx:52 | trimming the start leaves the suffix after the maximal whitespace prefix, which does not start with whitespace |
| Text.TrimEndDropsWhitespaceSuffix | App.tsx:52 | trimming the end leaves the prefix before the maximal whitespace suffix, which does not end in whitespace |
| Text.TrimEmptyIffBlank | App.tsx:52 | `!s.trim()` holds exactly when every character is whitespace |
| Text.ToLower | App.tsx:75 | upper-case ASCII letters move to lower case; every other character is kept |
| Text.Lower | App.tsx:75 | lower-casing maps every character through `ToLower`, position by position, so the length is kept and no upper-case ASCII letter is left |
| Text.IncludesAt | App.tsx:75 | the recursive `includes` agrees with "occurs at some position" |
| Text.IncludesEmpty | App.tsx:75 | every string includes the empty query |
| App.AddProduct | App.tsx:51-59 | a blank name is a no-op; otherwise a product with the untrimmed name, no category and no variants goes to index 0, followed by the old list unchanged |
| App.UpdateProduct | App.tsx:64-66 | exactly the elements with the updated id are replaced; length and order kept |
| App.UpdateProductIdempotent | App.tsx:64-66 | replacing twice equals replacing once; replacing a product by itself changes nothing |
| App.DeleteProduct | App.tsx:68-72 | the result holds exactly the products with another id, each as often as in the input (its length is the number of such products), as an order-preserving subsequence |
| App.AddThenDelete | App.tsx:51-72 | deleting a just-added product with a fresh id restores the old list |
| App.FilteredProducts | App.tsx:74-76 | the shown products are exactly those whose lower-cased name includes the lower-cased query, each as often as in the input (its length is the number of matches), as an order-preserving subsequence |
| App.EmptySearchShowsAll | App.tsx:74-76 | an empty query shows the whole list |
| App.VariantTotal | App.tsx:145 | the reduce total bounds every product's variant count |
| App.VariantTotalAppend | App.tsx:145 | the total is additive over concatenated lists, so it is the sum of all variants lengths |
| App.VariantTotalCons | App.tsx:145 | the total of a list is its first product's variants plus the total of the rest |
| App.AddProductKeepsVariantTotal | App.tsx:51-59 | adding a product does not change the variant total |
| App.DeleteProductVariantTotal | App.tsx:68-72 | deleting never raises the variant total |
| Storage.ReadLocal | services/storage.ts:22-29 | the local fallback gives the stored list, or `[]` when the key is absent, unparsable or unreadable; it never fails |
| Storage.LoadSpec | services/storage.ts:7-30 | with a URL and an ok response that parses, plus a successful mirror write, load returns the remote data and the local key holds it; in every other case it returns the local fallback and leaves the key alone |
| Storage.SaveResult | services/storage.ts:40-56 | save reports true without a URL; with a URL, true exactly when the POST did not throw |
| Storage.SavedCell | services/storage.ts:33-38 | the local key holds the saved list unless the local write threw, and a failed local write changes nothing |
| Storage.InventoryStore.Load | services/storage.ts:7-30 | the returned data and the new local key are those of LoadSpec for the old key |
| Storage.InventoryStore.Save | services/storage.ts:32-57 | the local write comes first and happens whatever the remote does; the result is SaveResult, independent of the local write |
| Storage.SaveThenLoadLocal | services/storage.ts:22-38 | without a URL, loading after a save whose local write succeeded returns exactly the saved list |
| Storage.SaveThenLoadFallback | services/storage.ts:9-38 | when the remote read fails, load after save still returns the saved list, whatever the remote write did |
| Storage.SaveResultIgnoresStatus | services/storage.ts:46-50 | any HTTP status counts as a successful save |
| Storage.RemoteLoadRepairsLocal | services/storage.ts:9-16 | a successful remote load leaves the local key serving the same data |
| Storage.LoadOnlyMirrors | services/storage.ts:7-30 | load changes the local key only to mirror delivered remote data |
| SyncEngine.Initial | App.tsx:21-23 | the screen starts loading, with no timer armed and no error |
| SyncEngine.Step | App.tsx:26-49 | an edit while loading arms nothing, and an edit after loading arms exactly one timer carrying the new list; a fired timer clears itself and `isSyncing`, and sets `syncError` exactly when the save failed and a remote is configured; no other event touches the flags; an edit replaces the list; a finished load replaces the list, ends loading and arms a save of the loaded list; unmounting only clears the timer |
| SyncEngine.InitialConsistent | App.tsx:21-23 | the initial state satisfies the controller invariant |
| SyncEngine.StepKeepsConsistent | App.tsx:36-49 | every event keeps the invariant: no timer while loading, an armed timer carries the current list, no save half done |
| SyncEngine.RunKeepsConsistent | App.tsx:26-49 | every run of events from a consistent state stays consistent |
| SyncEngine.BurstArmsLast | App.tsx:40-48 | after loading, a burst of edits leaves one armed timer carrying the last list |
| SyncEngine.NoSaveWhileLoading | App.tsx:37-38 | before the load finishes, no sequence of edits, expiries or teardowns arms a save |
| SyncEngine.FireOnce | App.tsx:40-48 | a second expiry after a fired timer does nothing, so a burst yields one save |
| SyncEngine.SyncErrorOnlyFromFailedSave | App.tsx:41-44 | the error flag is raised only by a fired save that failed with a remote configured |
| SyncEngine.FiredErrorIffPostThrew | App.tsx:43-44 | after a fired save, the error flag is up exactly when a remote is configured and its POST threw |
| SyncEngine.FiredSaveIsLocal | App.tsx:40-43 | a fired save whose local write succeeds leaves the local key holding the current list |
| SyncEngine.SaveController.constructor | App.tsx:13-23 | the controller starts in the initial state |
| SyncEngine.SaveController.Mount | App.tsx:26-34 | the list becomes what the store loads, loading ends, a save of the loaded list is armed, and the store's key changes as LoadSpec says |
| SyncEngine.SaveController.Edit | App.tsx:36-49 | the new state is Step on an edit: the pending timer is cancelled and re-armed with the new list unless loading |
| SyncEngine.SaveController.Fire | App.tsx:40-46 | with a timer armed, the captured list goes through Save and the state is Step on the save's result; without one, nothing changes |
| SyncEngine.SaveController.Unmount | App.tsx:48 | teardown cancels the pending timer |
| Insights.SummarizeVariant | services/geminiService.ts:19-25 | color is the variant name, totalSlots is the entry count, stocked, sold and empty are the numbers of entries with that status, and the three add up to totalSlots |
| Insights.SummarizeProduct | services/geminiService.ts:17-20 | carries the product name and one summary per variant, in order |
| Insights.InventorySummary | services/geminiService.ts:17-26 | one summary per product, in order |
| Insights.GetInventoryInsights | services/geminiService.ts:11-26 | with an empty key, the fixed missing-key message and no request; otherwise a request carrying the summary and the query |
| Insights.SummaryAccountsForEverySlot | services/geminiService.ts:21-24 | every slot of every variant is counted exactly once in the summary |
| Scenarios.AddShirt | App.tsx:51-59 | adding "Shirt" to an empty list gives one product with no variants |
| Scenarios.AddBlue | components/ProductCard.tsx:33-43 | adding "Blue" gives one variant with five empty slots |
| Scenarios.ClickTwice | components/ProductCard.tsx:55-74 | two clicks on an empty slot make it sold and leave the other slots alone |
| Scenarios.RemoveClicked | components/ProductCard.tsx:88-96 | removing that slot leaves four |

## Left out

- Rendering, CSS, icons, expand/collapse and form-field state are presentation, and so is the sync-status indicator (App.tsx:88-97).
- components/GeminiAssistant.tsx is not part of this model. It is a dialog around the insights call.
- Insights.GetInventoryInsights stops at the request the language model would receive. The prompt text, the model call, its answer and its error message belong to a foreign library.
- `fetch`, HTTP and JSON are reduced to outcomes. A remote read is a response (`ok`, plus a body that parses to a product list or does not) or an exception. A remote body that parses to something other than a product list is not represented.
- The JSON encoding of the local record is not modelled. The key holds either a product list or unparsable text, and console logging is dropped.
- Identifiers from `Math.random` and timestamps from the clock are parameters.
- ProductCard.AddColor: takes its five fresh slot ids as a parameter instead of generating them.
- Delete is modelled as already confirmed; the confirmation dialog is UI.
- Lower-casing covers ASCII letters only. Unicode case mapping is not modelled.
- Timer expiry is an explicit event. Real time is not modelled.
- SyncEngine.SaveController.Fire: runs the save to completion in one step. So the interval in which `isSyncing` is true and the remote write is pending is not represented. An edit arriving in that interval re-arms the timer exactly as an edit after the save does. Two saves in flight at once, which the code allows, are not modelled.
- SyncEngine.SaveController.Mount: runs the load in one step. Edits made while the load is pending are modelled as `Edit` calls before `Mount`: they arm nothing and are overwritten by the loaded list.
