# Insulin-sensitivity schedule editor — Dafny model

This project models the schedule-editing logic of the insulin-sensitivity
(ISF) editor in iAPS (`FreeAPS/Sources/Modules/ISFEditor/ISFEditorViewModel.swift`).
The editor keeps a list of rows. Each row is a pair of indices into two fixed grids:

- the **time grid**: one slot every 30 minutes across one day, in seconds
  (48 slots: 0, 1800, …, 84600);
- the **value grid** of the active glucose unit: 9 … 540 mg/dL by 1, or
  0.5 … 30.0 mmol/L by 0.1.

The view model has five operations, and the model covers all of them:
- `subscribe` loads the persisted entries into rows. Each lookup takes the first exact match, or 0 when there is none.
- `canAdd` says whether another row still fits.
- `add` appends a row that carries the previous value into the next slot.
- `validate` removes duplicate rows, sorts by slot and pins the first row to slot 0.
- `save` turns rows back into entries: a minute offset, an `"HH:mm:ss"` start and the grid value.

Layout:
- `grids.dfy`: the `Options` helper and the `Grids` module. It holds the stride, both grids and the exact-match lookup.
- `schedule.dfy` (`Schedule`): the `Item` row, plus dedup, sort, pin and `Validated` with their lemmas.
- `persistence.dfy` (`Persistence`): the persisted entry and profile, the `HH:mm:ss` formatter and parser, save, load and both round trips.
- `view_model.dfy` (`ISFEditor`): the `ViewModel` class. Its fields `items` and `units` are updated by `Subscribe`, `Add` and `Validate`.

Modelling decisions:
- **Values are integers in hundredths of the active unit.** 45 mg/dL is 4500 and 2.7 mmol/L is 270.
  - The source's stride bounds 540.01 and 30.01 then become the exact exclusive bounds 54001 and 3001.
  - The mg/dL grid is 900 … 54000 by 100 (532 entries). The mmol/L grid is 50 … 3000 by 10 (296 entries).
  - A persisted `Decimal` sensitivity is an integer in the same hundredths.
- **Both grids come from one `Stride` function.** It takes a start, an exclusive bound and a step, like Swift's `stride(from:to:by:)`.
- **Deterministic `validate`.** The source deduplicates through a `Set`, whose order is unspecified, and then sorts by slot. The model fixes the order:
  - it keeps the first occurrence of each distinct row;
  - it sorts stably by slot, so rows in the same slot keep that order;
  - then it pins the first row to slot 0.

  With this order `validate` is exactly idempotent (`ValidateIdempotent`). Rows are deduplicated by equality of both indices, as the design specifies. Two rows in the same slot with different values both survive.
- **Each external collaborator becomes a parameter or a result.**
  - The settings unit and the stored profile are parameters of `Subscribe`.
  - `Save` returns the profile instead of passing it to the provider.
  - The date formatter is replaced by `FormatTime`, an integer formatter of seconds within one day. `ParseTime`, its inverse, fixes what the format means.
- `subscribe` does not look at the stored profile's own unit fields. The model follows the code here.
- `canAdd` compares with `<`. It is therefore false whenever the last slot is 47 or more, not only when it equals 47. `ViewModel.CanAdd` follows the code.

## Model

| member | source | states |
|---|---|---|
| `Grids.Stride` | FreeAPS/Sources/Modules/ISFEditor/ISFEditorViewModel.swift:8-15 | element k is first + k·step and below the bound, and one more step would reach the bound, so the stride is exactly the values below the bound |
| `Grids.TimeValues` | FreeAPS/Sources/Modules/ISFEditor/ISFEditorViewModel.swift:8 | the time grid has 48 entries; entry k is k·1800 s, so it starts at 0, is strictly increasing and stays within the day |
| `Grids.RateValues` | FreeAPS/Sources/Modules/ISFEditor/ISFEditorViewModel.swift:10-17 | mg/dL: 532 entries, entry k is 9 + k mg/dL; mmol/L: 296 entries, entry k is 0.5 + 0.1·k mmol/L; strictly increasing for both units |
| `Grids.FirstIndex` | FreeAPS/Sources/Modules/ISFEditor/ISFEditorViewModel.swift:30-31 | finds an index exactly when the value occurs; the index holds the value and no earlier entry does |
| `Grids.IndexOrZero` | FreeAPS/Sources/Modules/ISFEditor/ISFEditorViewModel.swift:30-31 | the first exact match, or 0 when the value is absent; always in range of a non-empty grid |
| `Grids.IndexOfIncreasing` | FreeAPS/Sources/Modules/ISFEditor/ISFEditorViewModel.swift:30-31 | in a strictly increasing grid, looking up entry k gives back k |
| `Grids.OnTimeGrid` | FreeAPS/Sources/Modules/ISFEditor/ISFEditorViewModel.swift:8 | a number of seconds is on the time grid iff it is a whole number of 30-minute slots within the day |
| `Grids.OnMgdLGrid` | FreeAPS/Sources/Modules/ISFEditor/ISFEditorViewModel.swift:13 | a value is on the mg/dL grid iff it is a whole mg/dL in 9 … 540 |
| `Grids.OnMmolLGrid` | FreeAPS/Sources/Modules/ISFEditor/ISFEditorViewModel.swift:15 | a value is on the mmol/L grid iff it is a whole tenth in 0.5 … 30.0 |
| `Grids.TimeIndexOf` | FreeAPS/Sources/Modules/ISFEditor/ISFEditorViewModel.swift:30 | the time lookup gives seconds / 1800 for a time on the grid, else 0 |
| `Grids.RateIndexOf` | FreeAPS/Sources/Modules/ISFEditor/ISFEditorViewModel.swift:31 | the value lookup gives the grid position of a value on the unit's grid, else 0, for each unit |
| `Schedule.Dedup` | FreeAPS/Sources/Modules/ISFEditor/ISFEditorViewModel.swift:65 | the result has no duplicate rows and holds exactly the rows of the input; a list without duplicates is returned unchanged |
| `Schedule.Insert` | FreeAPS/Sources/Modules/ISFEditor/ISFEditorViewModel.swift:66 | the result is the input plus the inserted row, as a multiset |
| `Schedule.InsertSorted` | FreeAPS/Sources/Modules/ISFEditor/ISFEditorViewModel.swift:66 | inserting into a list sorted by slot keeps it sorted |
| `Schedule.InsertNoDuplicates` | FreeAPS/Sources/Modules/ISFEditor/ISFEditorViewModel.swift:65-66 | inserting a new row into a list without duplicates creates none |
| `Schedule.SortByTime` | FreeAPS/Sources/Modules/ISFEditor/ISFEditorViewModel.swift:66 | the result is sorted non-decreasingly by slot and is a permutation of the input |
| `Schedule.SortByTimeOfSorted` | FreeAPS/Sources/Modules/ISFEditor/ISFEditorViewModel.swift:66 | sorting leaves an already sorted list unchanged |
| `Schedule.SortByTimeNoDuplicates` | FreeAPS/Sources/Modules/ISFEditor/ISFEditorViewModel.swift:65-66 | sorting a list without duplicates creates none |
| `Schedule.SortByTimeMembers` | FreeAPS/Sources/Modules/ISFEditor/ISFEditorViewModel.swift:66 | sorting keeps exactly the rows of the input |
| `Schedule.PinFirstNoDuplicates` | FreeAPS/Sources/Modules/ISFEditor/ISFEditorViewModel.swift:65-67 | moving the first row of a sorted list without duplicates to slot 0 creates no duplicate, because a row already in slot 0 would have sorted first |
| `Schedule.SortedDedupMembers` | FreeAPS/Sources/Modules/ISFEditor/ISFEditorViewModel.swift:65-66 | after dedup and sort, the rows are exactly those of the input |
| `Schedule.SortedDedupFirstEarliest` | FreeAPS/Sources/Modules/ISFEditor/ISFEditorViewModel.swift:65-66 | for a non-empty input, the first row after dedup and sort is an input row in the earliest slot |
| `Schedule.PinFirst` | FreeAPS/Sources/Modules/ISFEditor/ISFEditorViewModel.swift:67 | the first row moves to slot 0 and keeps its value; the other rows are unchanged; a list sorted by slot stays sorted. `PinFirstNoDuplicates` adds that it creates no duplicate in a sorted duplicate-free list |
| `Schedule.Validated` | FreeAPS/Sources/Modules/ISFEditor/ISFEditorViewModel.swift:65-68 | the whole normalisation: dedup, sort by slot, pin the first row. The result has no duplicate rows, is sorted by slot and starts in slot 0 when non-empty, and it is empty iff the input is. `ValidatedTailFromInput`, `ValidatedFirstPinned`, `ValidatedKeepsInput`, `ValidateIdempotent` and `ValidatedInGrid` carry the rest |
| `Schedule.ValidatedTailFromInput` | FreeAPS/Sources/Modules/ISFEditor/ISFEditorViewModel.swift:65-68 | every validated row after the first is a row of the input |
| `Schedule.ValidatedFirstPinned` | FreeAPS/Sources/Modules/ISFEditor/ISFEditorViewModel.swift:65-68 | the first validated row is an input row from the earliest slot, moved to slot 0 |
| `Schedule.ValidatedKeepsInput` | FreeAPS/Sources/Modules/ISFEditor/ISFEditorViewModel.swift:65-68 | every input row survives, either unchanged after the first position or as the pinned first row |
| `Schedule.ValidatedFixesNormalised` | FreeAPS/Sources/Modules/ISFEditor/ISFEditorViewModel.swift:65-68 | validation leaves a list unchanged when it has no duplicates, is sorted and starts in slot 0 |
| `Schedule.ValidateIdempotent` | FreeAPS/Sources/Modules/ISFEditor/ISFEditorViewModel.swift:65-68 | validating twice gives the same rows as validating once |
| `Schedule.ValidatedInGrid` | FreeAPS/Sources/Modules/ISFEditor/ISFEditorViewModel.swift:65-68 | if every input row is on the grid, every validated row is too |
| `Schedule.DedupExample` | FreeAPS/Sources/Modules/ISFEditor/ISFEditorViewModel.swift:65 | [(3,5),(1,2),(3,5)] deduplicates to [(3,5),(1,2)] |
| `Schedule.SortExample` | FreeAPS/Sources/Modules/ISFEditor/ISFEditorViewModel.swift:66 | [(3,5),(1,2)] sorts to [(1,2),(3,5)] |
| `Schedule.ValidatedExample` | FreeAPS/Sources/Modules/ISFEditor/ISFEditorViewModel.swift:65-68 | [(3,5),(1,2),(3,5)] validates to [(0,2),(3,5)] |
| `Persistence.TwoDigits` | FreeAPS/Sources/Modules/ISFEditor/ISFEditorViewModel.swift:53 | a number below 100 written as exactly two decimal digits that read back as the number |
| `Persistence.FormatTime` | FreeAPS/Sources/Modules/ISFEditor/ISFEditorViewModel.swift:51-54 | the result has the form "dd:dd:dd", with fields hours = s / 3600, minutes = s mod 3600 / 60 and seconds = s mod 60 (UTC clock time of an epoch-anchored time within one day), and it parses back to s |
| `Persistence.FormatParsed` | FreeAPS/Sources/Modules/ISFEditor/ISFEditorViewModel.swift:51-54 | every well-formed "HH:mm:ss" string is the formatting of the time it denotes, so formatting and parsing are inverse bijections |
| `Persistence.SlotStart` | FreeAPS/Sources/Modules/ISFEditor/ISFEditorViewModel.swift:51-57 | the start string of slot t has HH = t / 2, mm = 30·(t mod 2) and ss = 00 |
| `Persistence.SaveEntry` | FreeAPS/Sources/Modules/ISFEditor/ISFEditorViewModel.swift:50-58 | one row's entry: offset = 30·timeIndex minutes, start "HH:mm:ss" as in `SlotStart`, which parses to offset·60 s, and value = value grid entry at rateIndex |
| `Persistence.SaveProfile` | FreeAPS/Sources/Modules/ISFEditor/ISFEditorViewModel.swift:49-59 | both unit fields are the active unit; one entry per row, in row order, each with offset 30·timeIndex, the formatted slot start and the grid value |
| `Persistence.OffsetSeconds` | FreeAPS/Sources/Modules/ISFEditor/ISFEditorViewModel.swift:30 | offset·60 seconds is on the time grid iff the offset is a whole multiple of 30 minutes within the day; the slot is offset / 30 |
| `Persistence.LoadItem` | FreeAPS/Sources/Modules/ISFEditor/ISFEditorViewModel.swift:29-33 | slot = offset / 30 when the offset is a whole slot within the day, else 0; value index = grid position of the sensitivity when it is on the unit's grid, else 0; both in range |
| `Persistence.LoadItems` | FreeAPS/Sources/Modules/ISFEditor/ISFEditorViewModel.swift:29-33 | one row per persisted entry, in entry order, all on the grid |
| `Persistence.LoadSavedEntry` | FreeAPS/Sources/Modules/ISFEditor/ISFEditorViewModel.swift:29-58 | loading the entry saved for a row on the grid gives back the row |
| `Persistence.SaveLoadRoundTrip` | FreeAPS/Sources/Modules/ISFEditor/ISFEditorViewModel.swift:29-59 | loading the saved profile's entries recovers exactly the saved rows |
| `Persistence.SaveLoadedEntry` | FreeAPS/Sources/Modules/ISFEditor/ISFEditorViewModel.swift:29-58 | saving the row loaded from an on-grid entry with the canonical start string gives back the entry |
| `Persistence.LoadSaveRoundTrip` | FreeAPS/Sources/Modules/ISFEditor/ISFEditorViewModel.swift:29-59 | entries on the grid with canonical start strings come back unchanged after a load and a save |
| `Persistence.LoadItemExample` | FreeAPS/Sources/Modules/ISFEditor/ISFEditorViewModel.swift:29-33 | a 90-minute entry whose value 45.5 mg/dL is off the grid loads as (3, 0) |
| `ISFEditor.ViewModel.constructor` | FreeAPS/Sources/Modules/ISFEditor/ISFEditorViewModel.swift:6-24 | a new editor has no rows and the unit mmol/L |
| `ISFEditor.ViewModel.RateGrid` | FreeAPS/Sources/Modules/ISFEditor/ISFEditorViewModel.swift:10-17 | the active unit's value grid. For mg/dL: 532 entries, entry k is 9 + k mg/dL. For mmol/L: 296 entries, entry k is 0.5 + 0.1·k mmol/L. Strictly increasing |
| `ISFEditor.ViewModel.CanAdd` | FreeAPS/Sources/Modules/ISFEditor/ISFEditorViewModel.swift:19-22 | true on an empty list; otherwise true iff the last row's slot is below 47, the last slot |
| `ISFEditor.ViewModel.Subscribe` | FreeAPS/Sources/Modules/ISFEditor/ISFEditorViewModel.swift:26-34 | the unit becomes the settings unit; the rows become the loaded entries, all on the grid |
| `ISFEditor.ViewModel.Add` | FreeAPS/Sources/Modules/ISFEditor/ISFEditorViewModel.swift:36-47 | appends exactly one row and keeps the existing rows. The new row is (0,0) on an empty list, else (last slot + 1, last value). When `CanAdd` held, the new slot is on the grid and on-grid rows stay on the grid. When it did not (and the rows were on the grid), the new slot is one past the grid |
| `ISFEditor.ViewModel.Save` | FreeAPS/Sources/Modules/ISFEditor/ISFEditorViewModel.swift:49-61 | returns the profile `SaveProfile` describes for the current unit and rows; loading that profile recovers the rows |
| `ISFEditor.ViewModel.Validate` | FreeAPS/Sources/Modules/ISFEditor/ISFEditorViewModel.swift:63-70 | replaces the rows by their validated form, which has no duplicate rows, is sorted by slot and starts in slot 0; on-grid rows stay on the grid; the unit is unchanged |

## Left out

- `Validate` runs synchronously. The source defers the normalisation to the main queue (`DispatchQueue.main.async`). That is UI scheduling, and the model has no concurrency.
- The SwiftUI and dependency-injection wiring is left out: `ObservableObject`, `@Published`, `@Injected` and the `BaseViewModel` base class. None of it holds logic.
- The settings manager and the profile provider are external collaborators. The model passes the unit and the stored profile in as parameters. `ViewModel.Save` returns the profile instead of calling `saveProfile`.
- `DateFormatter`, `TimeZone` and `Date` are left out. `FormatTime` formats integer seconds as two-digit fields on a 24-hour UTC clock in their place. The minute offset is the slot's seconds divided by 60. That matches the source's `Int(timeIntervalSince1970 / 60)` for times in the first day after the epoch.
  - The source's formatter sets no locale, so its output follows the device's locale (a 12/24-hour override, native digits). `FormatTime` always gives ASCII digits on a 24-hour clock.
- Floating point is left out: the `Double` strides, `Decimal(Double)` and `Double(Decimal)`. The model uses exact grids in hundredths, with exact arithmetic.
  - Because of this, the model's exact-match lookup always finds an on-grid mmol/L value.
  - The source compares `Double`s at line 31. A grid entry of the mmol/L stride and `Double(value.sensitivity)` for the same decimal need not be equal. So the source can miss a value that looks on-grid and fall back to index 0. The model does not show that miss.
- A persisted sensitivity finer than a hundredth of the unit cannot be represented. The source would find no exact match for it and use index 0.
- Swift `Int` overflow is not modelled. It would need an offset near the 64-bit limit before `offset * 60` traps.
- `Set` iteration order in `validate` is replaced by first-occurrence order. The sort's tie-break for rows in the same slot is therefore fixed as stable. The source leaves both unspecified.
- Out-of-range indices are not modelled. Indexing a Swift array out of range traps at lines 54 and 56. `SaveEntry`, `SaveProfile` and `ViewModel.Save` therefore require every row to lie on the grid, so the model says nothing about `save` on off-grid rows. `add` does not check bounds. After the last slot it yields the slot one past the grid, and `ViewModel.Add` says so in its contract.
- `Item`'s equality and hash are assumed to compare both indices, (timeIndex, rateIndex). `Set` at line 65 uses them.
- `Item` is a reference type in the source, so `sorted.first?.timeIndex = 0` changes an object that the input may share. The model treats rows as values and does not capture that aliasing. `Item`'s definition is not part of this model.
