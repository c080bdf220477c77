# Boot-environment synchronisation of the COSMIC boot-environment applet

This project models, in Dafny, the synchronisation core of a desktop applet. The applet shows the
boot environments that the `ca.kamacite.BootEnvironments1` bus service manages below
`/ca/kamacite/BootEnvironments`, and it lets the user pick the environment to reboot into. The
model covers five parts of `src/app.rs`:

- **Record decoder** (`records.dfy`, module `Records`). `BootEnvironmentObject::from_properties`
  turns a property dictionary into a typed record, all or nothing. Bus values are a tagged
  `Value` (`Str`, `Bool`, `I64`, `Other`). The `Created` property is a signed 64-bit `Int64`.
  `ToProperties` is the decoder's inverse: the dictionary the service publishes for a record.
- **Ordering** (`ordering.dfy`, module `Ordering`). `SortByCreated` is a stable insertion sort. It
  is the reference definition of the `sort_by` call on `created`.
- **Enumeration loader** (`loader.dfy`, module `Loader`). This is the loop of
  `load_boot_environments`, run over the reply of `GetManagedObjects`. The reply is given as a
  sequence in arbitrary order. Objects without the `ca.kamacite.BootEnvironment` interface are
  skipped. The first decode failure aborts the load. The result is sorted by creation time.
- **Reducer** (`messages.dfy`, `reducer.dfy`, modules `Messages` and `Reducer`). `Step` is the pure
  definition of one `AppModel::update`. The class `AppModel` keeps `AppModel`'s three fields
  (`environments`, `conn`, `popup`) and updates them in place. `Update`'s postcondition ties the
  new fields and the returned task to `Step`. Each returned task is an `Effect`:
  - `LoadRequested`, a load on the held connection;
  - `ActivateRequested`, with the `temporary` flag of the bus method `Activate`;
  - `GetPopup` and `DestroyPopup`, for the popup;
  - `OpenConnection`, the task started by `init`;
  - `NoTask`.

  The `On...Result` functions are the closures that turn a finished task back into a message.
  `Run` replays a sequence of messages.
- **Views and signal translation** (`views.dfy`, `signals.dfy`, modules `Views` and `Signals`).
  These hold the selection and label logic of `view_window`: the active record, the dropdown
  labels, paths and preselected entry. They also hold the per-signal decisions of
  `object_manager_stream` and `properties_changed_stream`, and the two stream loops, run over the
  finite sequence of items each stream has received.

Outside inputs are parameters:
- the reply of the object manager (`objects`, `LoadReply`);
- whether the bus connection opened (`OnConnectResult`);
- whether an activation call succeeded (`OnActivateResult`);
- the identifier `Id::unique()` returns (`newId`);
- the items the bus delivers to each subscription.

Four behaviours of the code to note:
- After an activation the code schedules no reload. The activation task's closure returns
  `Action::None` (src/app.rs:408-419). The local list catches up only through the
  `PropertiesChanged` signals that the activation causes. `ActivateRequestsTemporary` states this.
- The decoder has one error, `IncorrectType`, for a missing property and for a mistyped one
  (src/app.rs:66). There is no separate missing-field error.
- `Added` does not check that a path is new, so the list can hold two records for one path. The
  model does not enforce unique paths. `LoadUniquePaths` proves that a load keeps paths distinct
  when the reply has distinct paths, as the keys of a map always are.
- On equal creation times the stored order is the reply order, because `sort_by` is stable and
  the reply comes from a hash map. A reload of unchanged server state can therefore reorder
  records that share a creation time. `TieOrderFollowsReply` shows this, and
  `LoadPermutationInvariant` proves the order is fixed when no two different records share a
  creation time.

## Model

| member | source | states |
|---|---|---|
| Records.FromProperties | src/app.rs:45-88 | Decoding succeeds exactly when all six of `Description`, `Name`, `Active`, `NextBoot`, `BootOnce` and `Created` are present with their types. A failure carries no record. An empty `Description` becomes `None` and a non-empty one `Some` of it. The other fields are copied and `path` is the given path. |
| Records.ToProperties | src/app.rs:72-87 | The encoding of a record has exactly the six required keys, each with the type the decoder expects. |
| Records.RoundTrip | src/app.rs:72-87 | Decoding the encoding of a record without an empty description gives the record back. |
| Records.DecodedIsEncoding | src/app.rs:64-87 | After a successful decode, the six required entries of the dictionary are exactly the encoding of the decoded record, and the record's path is the given one. |
| Records.OnlyRequiredPropertiesMatter | src/app.rs:64-69 | Two dictionaries that agree on the six required keys decode alike, so extra properties never matter. |
| Ordering.SortByCreated | src/app.rs:138 | The sort's result is a permutation of its input: the same records with the same multiplicities. |
| Ordering.SortByCreatedCorrect | src/app.rs:137-138 | The sort's result is ascending by `created`. |
| Ordering.InsertStable | src/app.rs:138 | Inserting a record adds it ahead of the records with its own creation time and leaves every other creation time's records as they were. |
| Ordering.SortByCreatedStable | src/app.rs:138 | For every creation time, the records with that time keep their input order, as `sort_by` is a stable sort. |
| Ordering.SortOfSortedIsIdentity | src/app.rs:138 | An already sorted list is returned unchanged. |
| Ordering.SortIdempotent | src/app.rs:138 | Sorting twice gives the same list as sorting once. |
| Ordering.SortedPermutationsEqual | src/app.rs:138 | Two sorted lists holding the same records are equal, provided records created at the same time are identical. |
| Ordering.SortPreservesUniquePaths | src/app.rs:129-140 | Sorting never makes two records share a path. |
| Loader.BootEnvironmentObjects | src/app.rs:130-131 | Every object kept has the boot-environment interface, and no more objects are kept than the reply holds. |
| Loader.BootEnvironmentObjectsMembers | src/app.rs:130-131 | An object is kept exactly when it is in the reply and has the boot-environment interface. A reply made only of such objects is kept whole. |
| Loader.BootEnvironmentObjectsAppend | src/app.rs:130-131 | Filtering a concatenated reply filters each part, so kept objects stay in reply order. |
| Loader.DecodeAll | src/app.rs:130-135 | A successful decode yields exactly one record per object that has the boot-environment interface. |
| Loader.Load | src/app.rs:129-140 | A load succeeds exactly when decoding succeeds. A successful load is sorted ascending by `created`, holds the same records as the decode, and has one record per interface-bearing object. |
| Loader.LoadBootEnvironments | src/app.rs:119-141 | The loop pushes each decoded boot environment, returns at the first decode error, then sorts. Its result equals `Load` of the reply. |
| Loader.DecodeAllAppend | src/app.rs:130-135 | Decoding a concatenated reply decodes the first part, then the second, and stops at the first error. |
| Loader.DecodeAllOkIff | src/app.rs:130-135 | Decoding succeeds exactly when every object that has the boot-environment interface decodes. Objects without it play no part. |
| Loader.DecodeAllContents | src/app.rs:130-134 | A successful decode yields one record per interface-bearing object, index by index, in reply order. |
| Loader.DecodeAllIgnoresOtherObjects | src/app.rs:131 | Dropping the objects that lack the interface does not change the result. |
| Loader.LoadCorrect | src/app.rs:129-140 | A load fails, with no list, exactly when some object that has the boot-environment interface fails to decode. On success, decoded record `k` is the decoding of the `k`-th interface-bearing object. |
| Loader.DecodeAllPermutation | src/app.rs:130-135 | Two replies listing the same objects in any order both fail or both succeed, and on success they decode to the same records. |
| Loader.LoadPermutationInvariant | src/app.rs:129-140 | Two replies listing the same objects in any order load into the same list, provided no two different decoded records share a creation time. |
| Loader.Publish | src/app.rs:130-132 | The object published for a record without an empty description has the boot-environment interface and decodes back to that record. |
| Loader.TieOrderFollowsReply | src/app.rs:129-140 | Two records with equal creation times, listed in either order, load in that same order. So the two loads differ whenever the records do. |
| Loader.LoadStable | src/app.rs:138 | Loaded records with equal creation times keep their reply order. |
| Loader.LoadUniquePaths | src/app.rs:129-140 | A reply with distinct paths loads into a list with distinct paths. |
| Loader.SortsSample | src/app.rs:138 | A worked example: records created at 100, 300 and 200 are sorted as 100, 200, 300. |
| Views.Position | src/app.rs:276-280 | `position` returns the first index whose element satisfies the predicate, and that index is in range. It returns none exactly when no element satisfies it. |
| Views.Find | src/app.rs:232 | `find` returns the element at the first index that satisfies the predicate. It returns none exactly when no element satisfies it. |
| Views.ActiveEnvironment | src/app.rs:232 | The summary shows the first active record. The result is none exactly when no record is active. |
| Views.Label | src/app.rs:264-271 | A label is "description (name)" for a record with a description and the bare name otherwise. A label equals the name exactly when there is no description. |
| Views.DropdownLabels | src/app.rs:261-272 | There is one label per record, and entry `i` is record `i`'s label. |
| Views.DropdownPaths | src/app.rs:282-286 | There is one path per record, and entry `i` is record `i`'s path. |
| Views.RebootTargetIndex | src/app.rs:276-280 | The preselected index is in range. It is the first `boot_once` record if there is one. Otherwise it is the first `next_boot` record. When neither flag is set anywhere, it is none. |
| Views.RebootDropdown | src/app.rs:274-297 | The dropdown exists exactly when the list is non-empty. It then holds the records' labels and paths in list order, and the reboot target as its preselected entry, which is in range. |
| Views.OnSelect | src/app.rs:291-293 | Choosing entry `idx` sends `ActivateEnvironment` for the path at index `idx`. |
| Views.SelectActivatesShownRecord | src/app.rs:282-293 | Entry `idx` of the dropdown shows record `idx`, and selecting it sends `ActivateEnvironment` for record `idx`'s path. |
| Views.RebootTargetSamples | src/app.rs:276-280 | A `boot_once` record at index 1 wins over a `next_boot` record at index 0. With both flags cleared, nothing is preselected. |
| Reducer.WithoutPath | src/app.rs:385 | `retain` keeps no record with the removed path, keeps every record with another path and never grows the list. |
| Reducer.Init | src/app.rs:182-205 | The initial state has no list, no connection and no popup, and is consistent, so nothing can be activated yet and a change notice issues no load. The returned task opens the bus connection. |
| Reducer.Step | src/app.rs:344-450 | A held connection is never dropped, and only `Connected` changes the connection. Only `BootEnvironmentsLoaded`, `Added` and `Removed` change the list. Only `TogglePopup` and `PopupClosed` change the popup. Only `Connected`, `BootEnvironmentsModified`, `ActivateEnvironment` and `TogglePopup` return a task. A message from where it can come keeps a consistent state consistent. |
| Reducer.AppModel.constructor | src/app.rs:187-193 | A new model has an empty list, no connection and no popup. |
| Reducer.AppModel.Update | src/app.rs:344-450 | The fields after the call and the returned task are exactly those `Step` gives for the old fields and the message. The caller must hold a connection before sending an activation request. |
| Reducer.OnConnectResult | src/app.rs:196-202 | An opened connection delivers `Connected` with it. A failure delivers nothing. |
| Reducer.OnLoadResult | src/app.rs:361-372 | A load that reaches the service and decodes delivers `BootEnvironmentsLoaded` with a list sorted by `created`. A transport or decode failure delivers nothing. |
| Reducer.OnActivateResult | src/app.rs:408-419 | An activation's completion, whether it succeeded or failed, delivers no message. |
| Reducer.Run | src/app.rs:344-450 | A replay that is handled to the end returns one task per message. A sequence without activation requests is always handled to the end. |
| Reducer.LoadedReplaces | src/app.rs:374-377 | `BootEnvironmentsLoaded(l)` sets the list to exactly `l`, changes nothing else and returns no task. |
| Reducer.AddedAppends | src/app.rs:378-382 | `Added(e)` keeps the old list as a prefix, puts `e` last and grows the list by one. Connection and popup are unchanged and no task is returned. |
| Reducer.AddedDoesNotResort | src/app.rs:380-381 | Adding a record older than the tail leaves the list out of order, because there is no re-sort. |
| Reducer.RemovedFilters | src/app.rs:383-386 | `Removed(p)` keeps exactly the records whose path is not `p`. Connection and popup are unchanged and no task is returned. |
| Reducer.WithoutPathAppend | src/app.rs:385 | The removal filters each part of a list separately, so the kept records stay in their relative order. |
| Reducer.WithoutPathAbsent | src/app.rs:385 | Removing a path that is not in the list leaves it unchanged. |
| Reducer.WithoutPathPresent | src/app.rs:385 | Removing a path that is in the list makes it shorter. |
| Reducer.WithoutPathKeepsSorted | src/app.rs:385 | A removal keeps a list sorted by `created` sorted. |
| Reducer.ConnectedStoresAndLoads | src/app.rs:350-373 | `Connected(c)` stores `c`, leaves the list alone and requests a load on `c`. |
| Reducer.ModifiedReloadsWhenConnected | src/app.rs:387-402 | `BootEnvironmentsModified` never changes state. It requests a load on the held connection, or no task when there is none. |
| Reducer.ActivateRequestsTemporary | src/app.rs:403-420 | `ActivateEnvironment(p)` with a connection leaves the state unchanged and requests a temporary activation of `p` (`activate(true)`, src/app.rs:155). The activation's completion delivers no message, so no reload is scheduled. |
| Reducer.ToggleTwice | src/app.rs:427-442 | With no popup, a toggle opens one under the fresh id. A second toggle closes that same popup and restores the state. |
| Reducer.PopupClosedOnlyOwn | src/app.rs:443-447 | `PopupClosed(id)` clears the popup only when `id` names it, and returns no task. |
| Reducer.ReloadResultWins | src/app.rs:387-402 | With a connection, a change notice requests a reload. When that load succeeds the list becomes exactly the sorted loaded list, whatever was cached or removed before. |
| Reducer.OneReloadPerNotification | src/app.rs:387-402 | `n` change notices in a row issue `n` reloads with no debouncing, and change no state. |
| Reducer.ActivationNeverPanics | src/app.rs:421-425 | Consider any sequence of messages from the initial state in which loads and subscription signals arrive only after a connection is stored, and activations only once the dropdown has been shown. Such a sequence never reaches `unreachable!`. |
| Signals.OnObjectManagerSignal | src/app.rs:496-518 | An added object gives `Added(env)` exactly when its arguments parse, it has the boot-environment interface and it decodes to `env`. An added object gives a message exactly when it decodes to some record. A decode failure is dropped. A removal gives `Removed(path)` whenever its arguments parse, whatever interfaces it lists. |
| Signals.ObjectManagerMessages | src/app.rs:494-520 | The reference definition of what the listener sends: at most one message per signal, each an `Added` or a `Removed`, in signal order (with `ObjectManagerMessagesAppend`, whose contract splits a concatenation). |
| Signals.ObjectManagerStream | src/app.rs:494-520 | The select loop sends, in order, the message of each signal that yields one. |
| Signals.ObjectManagerMessagesAppend | src/app.rs:496-511 | A dropped signal does not stop the listener. The messages for a concatenation are those of each part. |
| Signals.OnPropertiesChanged | src/app.rs:553-595 | Every delivered `PropertiesChanged` message gives exactly one `BootEnvironmentsModified`, whatever changed. A receive error gives nothing. |
| Signals.PropertiesChangedStream | src/app.rs:552-596 | The loop sends one `BootEnvironmentsModified` per delivered message and nothing else, with no batching. |

## Left out

- Rendering: widgets, spacing, theming, icons and `fl!` localisation in `view`, `view_window` and `style`. Only the selection, label and path logic is kept. Whether the summary title is a heading or monospace text is left out too.
- Popup geometry and window calls: `get_popup_settings`, `get_popup`, `destroy_popup` and the panic of `main_window_id().unwrap()`. They appear only as the `GetPopup` and `DestroyPopup` effects.
- Bus transport. This covers opening the system bus, building proxies, the `PropertiesChanged` match rule and its path-namespace filter (the bus applies it before items reach the stream), the `GetManagedObjects` and `Activate` calls, and failures to build or start a subscription. These are external. The model takes their results as inputs or emits them as effects.
- Subscription gating. `subscription` runs the two streams only while a connection is held. This appears only as the `Originates` assumption in `ActivationNeverPanics`.
- Concurrency. This covers `Task::perform`, `Subscription`, `tokio::select!` fairness, the bounded `channel(32)` backpressure, stream lifetimes, and the panic of `select!` once both streams have ended. The streams are finite sequences of received items here.
- zvariant details. A downcast succeeds only on the exact tag (`Str`, `Bool`, `I64`). zvariant's own conversion table (string-like variants, nested `Value::Value`) is not part of this model.
- The conversion of bus signal arguments to typed arguments is a parameter. An argument list that does not parse is `None`.
- Logging with `tracing`, and the debug-only parsing of `PropertiesChanged` bodies, which affects only logs.
- `BootSettingsClicked` only logs and is modelled as a no-op. `on_close_requested`, which wraps the window id in `PopupClosed`, is not modelled.
- `HashMap` iteration order of the managed-objects reply. The reply is an arbitrary sequence, and only the order after sorting is specified.
