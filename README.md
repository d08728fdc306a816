# Window registry of threejs-multi-window-sync, in Dafny

Each browser window of the art toy keeps a local copy of a shared,
insertion-ordered list of window records `{id, shape{x,y,w,h}, metaData}`
and a monotonic counter. It mirrors both into the origin's key-value store
under the keys `"windows"` and `"count"`. This project models that
registry, the `WindowManager` class. The class exists twice in the
repository, as `src/WindowManager.ts` and `tmws/WindowManager.ts`. One
Dafny class, `WindowManagement.WindowManager`, stands for both.

The two copies differ in three ways:
- `tmws` uses TypeScript `private` fields instead of `#` fields. This makes
  no difference to behaviour.
- `tmws` makes `didWindowsChange` public.
- The `tmws` close handler is a plain `function`, so its `this` is the
  browser window. It throws and removes nothing. This is
  `WindowManager.OnBeforeUnloadTmws` (see Findings).

The line numbers of `tmws/WindowManager.ts` are those of `src/` minus two
(for example, `init` is at 50-62 there and at 52-64 in `src/`).

How the model represents the browser:
- The store is an object, `WindowManagement.Store`, that every window's
  registry shares. It has two optional fields. `None` means that the key is
  absent.
- The window's geometry (`getWinShape`) is a parameter of `Init` and
  `Update`.
- The two callbacks are flags that say whether a callback is set. The
  registry's `effects` field records each callback call and each store write,
  in order.
- A JavaScript exception is a `Completion` value, `Thrown(TypeError)` or
  `Thrown(SyntaxError)`. The state is left as it was when the source threw.
- The storage event's payload is already parsed. `None` stands for a missing
  value, which `JSON.parse('')` rejects.

Modules:
- `Optional` holds the `Option` datatype.
- `WindowRecords` holds the records and rectangles.
- `WindowList` holds the specification functions over the list: the id
  lookup, the change test, the shape edit, `splice` and removal by id.
- `IdCounter` holds the counter rules.
- `WindowManagement` holds the store and the registry class.
- `Scenarios` holds two windows on one fresh store.

## Model

| member | source | states |
|---|---|---|
| `WindowList.LastIndexOf` | src/WindowManager.ts:76-84 | The result is -1 exactly when no record carries the id. Otherwise it is an index holding the id, and no later index holds it: the last match, because the scan never breaks. |
| `WindowManagement.WindowManager.GetWindowIndexFromId` | src/WindowManager.ts:76-84 | The accumulator loop over the local list returns `LastIndexOf(windows, id)`: -1 when the id is absent, otherwise the largest index holding it. |
| `WindowManagement.WindowManager.DidWindowsChange` | tmws/WindowManager.ts:35-47 | The loop returns true exactly when the lengths differ or some position holds a different id. Equivalently, it returns false exactly when the two id sequences are equal, so shapes and metadata are ignored. |
| `WindowList.WindowsChanged` | src/WindowManager.ts:37-49 | The change test: lengths differ, or some position holds a different id. A change is only ever reported for lists that differ. Both directions in terms of ids are given by `WindowsChangedIffIdsDiffer`. |
| `WindowList.WindowsChangedIffIdsDiffer` | src/WindowManager.ts:37-49 | The positional change test holds exactly when the id sequences of the old and new lists differ. This holds in both directions. |
| `WindowList.ReorderingIsAChange` | src/WindowManager.ts:43-45 | The test is positional: the same two windows listed in the other order count as a change. |
| `IdCounter.StoredCount` | src/WindowManager.ts:54 | The counter as `init` reads it, with a fallback of 0: the stored number, or 0 when the key is absent. |
| `IdCounter.NextId` | src/WindowManager.ts:54-57 | The new id is at least 1 and exceeds the stored counter. An absent counter gives 1. |
| `IdCounter.IdsAssignedIncrease` | src/WindowManager.ts:54-62 | Successive `init` calls on one store, each reading the counter the previous one wrote, hand out strictly increasing ids. All of them exceed the initial counter. |
| `IdCounter.AppendNextIdKeepsIdsUnique` | src/WindowManager.ts:54-60 | Suppose the stored ids are unique and none exceeds the counter. Then the list after appending the new record still has unique ids, and the new id bounds them all. |
| `WindowManagement.StoredList` | src/WindowManager.ts:53 | The list as `init` reads it, with a fallback of the empty list: the stored list, or the empty list when the key is absent. |
| `WindowManagement.WindowManager.Init` | src/WindowManager.ts:52-64 | The id is the stored counter plus one, with absent read as 0. The count equals the id, and `winData` is `{id, shape, metaData}`. The local list is the stored list (absent read as empty) with exactly that record appended. The store then holds the new count and the new list. The recorded writes are "count" then "windows". Callback settings are kept. If the stored ids were unique and none exceeded the stored counter, the new list has unique ids, all at most the new id. |
| `WindowManagement.WindowManager.UpdateWindowsLocalStorage` | src/WindowManager.ts:86-88 | Afterwards the stored "windows" value equals the in-memory list. One write is recorded. |
| `WindowList.SetShape` | src/WindowManager.ts:104-105 | The edit that `update` makes gives the record at the index the new shape. It keeps that record's id and metadata, keeps every other record, and keeps the length and the id sequence. |
| `WindowList.ShapeEditIsNotAWindowChange` | src/WindowManager.ts:96-109 | A list that differs only by `update`'s shape edit never triggers another window's window-set callback. |
| `WindowRecords.Moved` | src/WindowManager.ts:96-100 | The field-by-field test on x, y, w and h holds exactly when the two rectangles differ. |
| `WindowManagement.WindowManager.Update` | src/WindowManager.ts:90-111 | If x, y, w and h all equal the last known shape, nothing changes: no write and no callback. If a field differs, `winData` takes the new shape. Then the list entry at `LastIndexOf(windows, id)` gets the shape, the shape callback fires once (when set), and the list is written once, in that order. If the list has no entry for the id, the source throws after updating `winData`, and nothing else changes. Before `init`, it throws and changes nothing. |
| `WindowManagement.WindowManager.OnStorage` | src/WindowManager.ts:13-24 | Keys other than "windows" are ignored. For "windows", a missing value throws at parse time. Before `init`, the change test throws. Otherwise the local list is replaced by the new value unconditionally. The window-set callback fires (when set) exactly when `WindowsChanged(old list, new list)` holds. |
| `WindowManagement.WindowManager.OnBeforeUnload` | src/WindowManager.ts:27-33 | The local list becomes `splice(LastIndexOf(windows, id), 1)` of the old list and is written to the store. If the ids are unique and the own id is present, this removes exactly the own record and keeps the others in order. Unique ids stay unique. Before `init`, it throws and changes nothing. |
| `WindowList.SpliceOne` | src/WindowManager.ts:31 | JavaScript's `splice(start, 1)`. A negative start counts from the end and is clamped at 0. When the resulting position is inside the list, the result is one shorter: the records before it are kept, and the later ones move down by one. Otherwise the list is unchanged. |
| `WindowList.SpliceKeepsIdsUnique` | src/WindowManager.ts:31 | Splicing one record out of a list with unique ids keeps them unique, and keeps any upper bound on the ids. |
| `WindowList.CloseRemovesOwnRecord` | src/WindowManager.ts:27-33 | On a list with unique ids that holds the id, the splice at the looked-up index equals the list filtered by id (`WithoutId`). The result is one record shorter. |
| `WindowList.WithoutId` | src/WindowManager.ts:27-33 | This is the reference meaning of "remove this window's record": no record of the result carries the id, and the result is no longer than the input. |
| `WindowList.WithoutIdKeepsOthers` | src/WindowManager.ts:27-33 | Every record that does not carry the id is still in the result of `WithoutId`. |
| `WindowList.CloseWithoutOwnRecordDropsLast` | src/WindowManager.ts:28-31 | When the own id is missing, the index is -1, and `splice(-1, 1)` removes the last record of a non-empty list. On an empty list it removes nothing. |
| `WindowManagement.WindowManager.OnBeforeUnloadTmws` | tmws/WindowManager.ts:25-31 | The handler always throws a TypeError. It has no frame, so neither the registry nor the store changes. |
| `WindowManagement.WindowManager.constructor` | src/WindowManager.ts:1-9 | A new registry is not registered, has no callbacks, has written nothing, and is bound to the given store. |
| `WindowManagement.WindowManager.SetWinShapeChangeCallback` | src/WindowManager.ts:113-115 | This sets whether a shape-change callback is present, and changes nothing else. |
| `WindowManagement.WindowManager.SetWinChangeCallback` | src/WindowManager.ts:117-119 | This sets whether a window-set-change callback is present, and changes nothing else. |
| `WindowManagement.WindowManager.GetWindows` | src/WindowManager.ts:121-123 | This returns the local list, or `None` (the source's `undefined`) before `init`. |
| `WindowManagement.WindowManager.GetThisWindowData` | src/WindowManager.ts:125-127 | This returns this window's record, whose id is this window's id, or `None` (`undefined`) before `init`. |
| `WindowManagement.WindowManager.GetThisWindowID` | src/WindowManager.ts:129-131 | This returns this window's id, which is at least 1 after `init`, or `None` (`undefined`) before `init`. |
| `Scenarios.TwoWindowsOpenAndOneCloses` | src/WindowManager.ts:13-64 | On a fresh store, the first window gets id 1 and the second gets id 2. The first window's list follows the store through the second window's registration and close. Its window-set callback fires once for each of those two changes. |
| `Scenarios.TmwsCloseLeavesRecord` | tmws/WindowManager.ts:25-31 | With the tmws close handler, a closed window's record stays in the store. |

## Left out

- JSON: the store holds typed lists and numbers, not text.
  - Stored text that is malformed would make `JSON.parse` in `init` throw. The model has no such input.
  - The counter is stored as text and read back as a number. The model stores the number.
- Host I/O is left out: `localStorage` itself, `addEventListener`, and the reading of `window.screenLeft`, `screenTop`, `innerWidth` and `innerHeight` in `getWinShape`. The store is a `Store` object, the geometry is a parameter, and a listener firing is a call of `OnStorage` or `OnBeforeUnload`.
- Identity of objects is left out. In the source, `winData` is the same object as the record pushed into the list, and `getWindows` returns the list itself. The model works on values. This changes nothing observable here, because `update` assigns the same shape through both references.
- Races between windows (last writer wins) are left out. The scenarios deliver each write to the other window before the next step.
- UpdateWindowsLocalStorage: requires `init` to have run. Before `init` the source would store the text `undefined`, which a typed store cannot hold.
- GetWindowIndexFromId: requires `init` to have run. Before `init` the source throws on `undefined.length`. The handlers that call it model that throw themselves.
- The scene driver (`src/tmws.ts`, `tmws/tmws.ts`) is not part of this model. It is three.js rendering, floating-point easing, a wall clock and the `?clear` wipe of the store, built from calls into a library that is not shown.

## Findings

| source | as written | input that shows it | evidently intended | confidence | as-written member | corrected member |
|---|---|---|---|---|---|---|
| tmws/WindowManager.ts:25-31 | The `beforeunload` listener is a plain `function`, so `this` is the browser window. `this.getWindowIndexFromId` is not a function, so the handler throws a TypeError before removing or writing anything. | Open two windows on one store, then close the second. Its record stays in the stored list. | Remove the closing window's own record and write the list, as `src/WindowManager.ts:27-33` does through `that`. | high; not executed | `WindowManagement.WindowManager.OnBeforeUnloadTmws`, exhibited by `Scenarios.TmwsCloseLeavesRecord` | `WindowManagement.WindowManager.OnBeforeUnload`, with `WindowList.CloseRemovesOwnRecord` and `Scenarios.TwoWindowsOpenAndOneCloses` |
