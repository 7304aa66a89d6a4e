# Task board: reducers and drag session

A model of the core of a drag-and-drop task board: a fixed list of columns,
each an ordered list of tasks, and the drag session that turns hover events
into moves.

- `wrappers.dfy`, module `Wrappers`: `Option`, standing for a nullable ref or
  a search that finds nothing.
- `data_slice.dfy`, module `DataSlice`, models `src/slices/dataSlice.ts`:
  - `Task`, `Column` and `MoveIntent` (the `moveTask` payload).
  - The initial board `InitialBoard`.
  - The two reducers as functions of the board, `Created` and `Moved`. They
    follow the reducers branch by branch, including the JavaScript `splice`
    start rules (`SpliceStart`: a negative start counts from the end, a start
    past the end is clamped).
  - The class `Board`, whose `columns` field is the store's state.
    `CreateTask`, `MoveTask` and `ReindexColumn` change it in place the way
    the reducers change their draft (`push`, nested `splice`, the `forEach`
    that sets every task's id to its index). `CreateTask` and `MoveTask` are
    proved to produce exactly `Created`/`Moved` of the old board, and
    `ReindexColumn` gives `Reindexed` of its column. Tasks are values in the model,
    not shared objects. That makes a difference to the source only on boards
    that break `Board.Valid` (see "Left out").
  - `Board.Valid()` is every task's id equal to its position, plus distinct
    column ids. It holds initially and both reducers keep it.
- `drag_tracker.dfy`, module `Dashboard`, models the drag session of
  `src/app/index.tsx`:
  - A class `DragTracker` with the four refs (start column, start task, hover
    column, hover task).
  - The three handlers. Their dispatch of `moveTask` is a call of
    `Board.MoveTask`, and each handler returns the intent it dispatched.
  - The column area's `onDragEnter` wiring.

Behaviour the model states that is easy to miss in the code:

- **A same-column move can throw.** Take a same-column move over a task whose
  start position, after JavaScript normalisation, is the column's length
  (past the end, or any start in an empty column). Then `splice(fromId, 1)`
  removes nothing. Its `[0]` is `undefined`, that value is inserted, and the
  reindexing `forEach` fails on it.
  - The model says this with `Throws`.
  - The store keeps the old board, because the draft of a throwing reducer is
    discarded.
  - The error leaves the handler before the ref updates after the dispatch,
    so the same-column `threw` results of `TaskDragEnter` and
    `ColumnDragEnter` keep the start refs and leave the hover refs set.
- **A stale start position is not a silent no-op: the reducer throws.** Such
  a move can come from the tracker. Example: a drag that did not start on a
  card, such as a file dragged in from outside.
  1. Entering a column's area dispatches a move from column -1. No column
     has that id, so the move does nothing.
  2. The start is still set to (that column, its length).
  3. Entering one of that column's cards then dispatches a move whose start
     position is the column's length.
- **Find by id, remove by position.** The cross-column branch finds the task
  by id but removes it by position. `FoundByIdIsAtIndex` proves the two agree
  while the positional-id invariant holds. `SearchAndRemovalDisagree` shows a
  board without the invariant where one task is lost and another duplicated.
- **Column drag-enter sends -1 as the new position, not the destination's
  task count.** The count is used only as the new start position. A move
  dispatched with -1 appends to the destination (src/slices/dataSlice.ts:109-110),
  so the new start position is the index of the appended task.

## Model

| member | source | states |
|---|---|---|
| `DataSlice.InitialBoard` | src/slices/dataSlice.ts:45-54 | the initial board has one column per data entry; column `i` has id `i`, the entry's name and the entry's task descriptions in order |
| `DataSlice.InitialBoardWellFormed` | src/slices/dataSlice.ts:26-54 | the initial board has four columns, every task id is its position, and column ids are distinct |
| `DataSlice.Find` | src/slices/dataSlice.ts:61-63 | `find` as an index: the result is in range and matches, no earlier element matches, and none means no element matches |
| `DataSlice.SpliceStart` | src/slices/dataSlice.ts:85 | the start a `splice` uses never exceeds the array's length, and a start already within `0..length` is used as given |
| `DataSlice.Reindexed` | src/slices/dataSlice.ts:87 | after the `forEach` the column has as many tasks, the same descriptions in the same order, and every id equals its position |
| `DataSlice.Created` | src/slices/dataSlice.ts:60-73 | `createTask` keeps the number of columns and leaves every column other than the first one with the id unchanged |
| `DataSlice.Moved` | src/slices/dataSlice.ts:74-128 | `moveTask` keeps the number of columns, and when the reducer throws the store keeps the old board |
| `DataSlice.Throws` | src/slices/dataSlice.ts:81-87 | the defining condition of a throw: a same-column move over a task whose first `splice` starts at the column's end, so that it removes nothing |
| `DataSlice.InitialFirstColumns` | src/slices/dataSlice.ts:26-54 | the initial To Do and In Progress columns each hold one task with id 0, QA holds its three tasks numbered 0 to 2, and looking up ids 0 and 1 finds the first two columns |
| `DataSlice.Board.constructor` | src/slices/dataSlice.ts:45-58 | the store starts with the initial board, which satisfies the invariant |
| `DataSlice.ColumnIndex` | src/slices/dataSlice.ts:61-63 | the result is the first column whose id matches, or none when no column matches |
| `DataSlice.TaskIndex` | src/slices/dataSlice.ts:100-102 | the result is the first task whose id matches, or none when no task matches |
| `DataSlice.Board.ReindexColumn` | src/slices/dataSlice.ts:71 | afterwards column `k` has the same descriptions with ids equal to positions, and every other column and field is unchanged |
| `DataSlice.Board.CreateTask` | src/slices/dataSlice.ts:60-73 | the new board is `Created` of the old one and the invariant is kept |
| `DataSlice.CreateTaskAppends` | src/slices/dataSlice.ts:60-72 | on an existing column, that column grows by exactly one task, the new last task carries the description, the earlier descriptions are kept, ids equal positions, and the other columns and the column's id and name are unchanged |
| `DataSlice.CreateTaskNoopIff` | src/slices/dataSlice.ts:61-64 | `createTask` leaves the board unchanged if and only if no column has the id |
| `DataSlice.CreateTaskCount` | src/slices/dataSlice.ts:64-68 | the total number of tasks grows by one when the column exists and is unchanged otherwise |
| `DataSlice.CreatedKeepsInvariant` | src/slices/dataSlice.ts:60-72 | `createTask` keeps column order, ids and names, the positional-id invariant and distinct column ids |
| `DataSlice.CreateExample` | src/slices/dataSlice.ts:64-71 | creating "Draft spec" in the initial To Do gives `[Gather stakeholder feedback(0), Draft spec(1)]` |
| `DataSlice.Board.MoveTask` | src/slices/dataSlice.ts:74-128 | the new board is `Moved` of the old one, `threw` holds exactly in the throwing case, and the invariant is kept |
| `DataSlice.Board.MoveWithinColumn` | src/slices/dataSlice.ts:83-87 | the nested splice and reindex give `WithinColumn` of the old board, and they report a throw exactly when the first splice removes nothing |
| `DataSlice.Board.MoveAcrossColumns` | src/slices/dataSlice.ts:100-124 | removal by position, push, optional reposition from the last slot and reindex of both columns give `AcrossColumns` of the old board |
| `DataSlice.MovedKeepsShape` | src/slices/dataSlice.ts:74-128 | `moveTask` never changes the number, order, ids or names of the columns |
| `DataSlice.MovedKeepsInvariant` | src/slices/dataSlice.ts:74-128 | `moveTask` keeps the positional-id invariant and distinct column ids |
| `DataSlice.SameColumnNoop` | src/slices/dataSlice.ts:76-81 | a same-column move onto empty space, or with an unknown column, leaves the board unchanged and does not throw |
| `DataSlice.ThrowsIff` | src/slices/dataSlice.ts:81-87 | the reducer throws exactly for a same-column move over a task whose start position is at or past the column's end, or whose column is empty |
| `DataSlice.RelocatedMoves` | src/slices/dataSlice.ts:85 | the remove-then-insert splice puts the element at the target index, keeps the order of the rest and permutes the sequence |
| `DataSlice.SameColumnRelocates` | src/slices/dataSlice.ts:83-87 | with positions in range, the task from `prevPositionId` lands at `newPositionId` (the last slot if beyond), the others keep their relative order, the column is a permutation of the old one with ids reindexed, and the other columns are unchanged |
| `DataSlice.QaReorderExample` | src/slices/dataSlice.ts:83-87 | in a QA column like the initial one, moving 0 to 2 gives `[Design prototype(0), Write automation tests(1), Resourcing(2)]` |
| `DataSlice.FoundByIdIsAtIndex` | src/slices/dataSlice.ts:100-105 | under the invariant, the search by id finds a task exactly when the id is a valid position, and it finds the task at that position, the one the splice removes |
| `DataSlice.SearchAndRemovalDisagree` | src/slices/dataSlice.ts:100-107 | on a column whose ids are not its positions, the search and the removal pick different tasks, so one task is lost and another duplicated |
| `DataSlice.CrossMoveNoopIff` | src/slices/dataSlice.ts:92-103 | a cross-column move never throws, and it leaves the board unchanged if and only if the source column, the destination column or the task is missing |
| `DataSlice.CrossMoveTransfers` | src/slices/dataSlice.ts:99-124 | on an indexed board, a successful cross-column move removes exactly the task at `prevPositionId` from the source (the rest keep their order), grows the destination by one, reindexes both and leaves the other columns unchanged |
| `DataSlice.CrossMoveAppends` | src/slices/dataSlice.ts:106-111 | dropped on empty space, the destination grows by one, the earlier tasks keep their order, the moved task is last with its description, and ids equal positions |
| `DataSlice.CrossMoveInserts` | src/slices/dataSlice.ts:111-120 | dropped over a task, the moved task lands at `newPositionId` when that is within the destination, keeps its description, the other destination tasks keep their order, and ids equal positions |
| `DataSlice.MoveConservesCount` | src/slices/dataSlice.ts:99-124 | on an indexed board no move changes the total number of tasks |
| `DataSlice.NoDragStartIsNoop` | src/slices/dataSlice.ts:92-99 | a move from column -1 (no drag start) changes nothing and does not throw on any board shaped like the initial one, whose column ids are 0 to 3 |
| `DataSlice.ToDoToInProgress` | src/slices/dataSlice.ts:99-124 | moving the only To Do task into In Progress over its task gives `[moved(0), original(1)]`, on empty space `[original(0), moved(1)]`, and To Do ends empty |
| `Dashboard.DragTracker.constructor` | src/app/index.tsx:118-121 | all four refs start null |
| `Dashboard.DragTracker.TaskDragStart` | src/app/index.tsx:123-126 | the start refs become the card's column id and position, and the hover refs are untouched |
| `Dashboard.DragTracker.TaskDragEnter` | src/app/index.tsx:128-145 | exactly one move from the start refs to the card is dispatched, with null refs sent as -1. Unless it throws, the card becomes the start and both hover refs are cleared. Without a prior drag start, on a board with the initial board's columns, the board is unchanged and nothing throws |
| `Dashboard.DragTracker.ColumnDragEnter` | src/app/index.tsx:147-170 | in the start column: nothing is dispatched, the start is kept and the hover is (column, task). Elsewhere: one move is dispatched, and unless it throws the start becomes (column, `newPos`) and the hover is cleared |
| `Dashboard.DragTracker.ColumnAreaDragEnter` | src/app/index.tsx:258-265 | entering a column area dispatches a move from the start refs (null as -1) to empty space in that column unless it is the start column, and never throws. After a dispatch the start is (column, task count) and the hover refs are cleared, even when the move does nothing; after a successful move that start position is exactly the index where the reducer appended the moved task. Without a dispatch the start is kept and the hover is (column, -1). Without a prior drag start, on a board with the initial board's columns, the board is unchanged |

## Left out

- Rendering: the `NewTaskCard`, `TaskCard`, `DashboardColumn` and `App` components, styling and JSX. This is view code with no state logic.
- The text-entry state of a new card (text, the `valid` flag, the emptiness check). It is widget state, and `createTask` does not validate the description.
- Redux Toolkit and Immer: `createSlice`, action creators, `dispatch`, `useSelector` and the store. A reducer is a method on one `Board` object, and dispatch is a direct call. The unused `nanoid` import is left out too.
- DOM events: `preventDefault`, `stopPropagation`, and which DOM handler the browser fires in which order. The handlers are methods called with the card's or column's arguments. The card wiring of `TaskCard` is view code.
- JavaScript numbers are modelled as unbounded integers. Fractional or non-finite ids and positions are not modelled.
- Drag end and drop: the source has no handler for them, and the refs simply keep their values.
- `AcrossColumns`, `Board.MoveAcrossColumns`: tasks are values, not shared objects. Take a board where the search by id and the removal by position pick different tasks. In the source the found task object then stays in the source column and is also pushed to the destination, so the destination's reindex (src/slices/dataSlice.ts:124) overwrites the id that the source's reindex (line 123) gave it. In the model the two copies keep independent ids. Example: source `[x(1), y(0), z(2)]`, destination `[w(0)]`, a move from position 0 onto empty space. The source becomes `[y(1), z(1)]`, the model gives `[y(0), z(1)]`. Such boards break `Board.Valid`, which the store never does, so every stored board agrees.
- `MoveConservesCount`, `CrossMoveTransfers`: stated for boards where every task id is its position. That always holds for the store (`Board.Valid`). Without it a cross-column move can duplicate a task (`SearchAndRemovalDisagree`).
