/**
 * The board slice: columns of tasks, the initial board, and the two reducers
 * `createTask` and `moveTask`.
 *
 * The reducers are specified by the pure functions `Created` and `Moved`, which
 * follow the reducers' branches step by step; the class `Board` runs them
 * imperatively, mutating its column list the way the reducers mutate their
 * Immer draft, and is proved to agree with them. The lemmas below state what
 * the reducers promise: the positional-id invariant, count conservation, where
 * a moved task lands, and the no-op cases.
 */
module DataSlice {
  import opened Wrappers

  datatype Task = Task(id: int, description: string)

  datatype Column = Column(id: int, displayName: string, tasks: seq<Task>)

  /** The payload of `moveTask`. */
  datatype MoveIntent = MoveIntent(prevColumnId: int, newColumnId: int, prevPositionId: int, newPositionId: int)

  /** The position sent when a drag hovers over empty space rather than over a task. */
  const EmptySpace: int := -1

  // ---------------------------------------------------------------------------
  // Invariants and views of a board

  /** The central invariant: every task's id is its position in its column. */
  predicate Indexed(tasks: seq<Task>) {
    forall i :: 0 <= i < |tasks| ==> tasks[i].id == i
  }

  predicate BoardIndexed(cols: seq<Column>) {
    forall k :: 0 <= k < |cols| ==> Indexed(cols[k].tasks)
  }

  predicate DistinctColumnIds(cols: seq<Column>) {
    forall i, j :: 0 <= i < j < |cols| ==> cols[i].id != cols[j].id
  }

  /** Same columns, in the same order, with the same ids and names. */
  predicate SameShape(before: seq<Column>, after: seq<Column>) {
    |after| == |before| &&
    forall k :: 0 <= k < |before| ==>
      after[k].id == before[k].id && after[k].displayName == before[k].displayName
  }

  /** What a column shows, without the positional ids. */
  function Descriptions(tasks: seq<Task>): seq<string> {
    seq(|tasks|, i requires 0 <= i < |tasks| => tasks[i].description)
  }

  /** The number of tasks on the whole board. */
  function TotalTasks(cols: seq<Column>): nat {
    if |cols| == 0 then 0 else |cols[0].tasks| + TotalTasks(cols[1..])
  }

  // ---------------------------------------------------------------------------
  // The initial board

  /** Column names and task descriptions of the initial board, in order. */
  const InitialData: seq<(string, seq<string>)> := [
    ("To Do", ["Gather stakeholder feedback"]),
    ("In Progress", ["Write requirements"]),
    ("QA", ["Resourcing", "Design prototype", "Write automation tests"]),
    ("Done", [])
  ]

  /** `tasks.map((task, taskId) => ({ id: taskId, description: task }))` */
  function Numbered(descriptions: seq<string>): seq<Task> {
    seq(|descriptions|, i requires 0 <= i < |descriptions| => Task(i, descriptions[i]))
  }

  /** Column `i` of the data becomes a column with id `i`. */
  function InitialBoard(): (r: seq<Column>)
    ensures |r| == |InitialData|
    ensures forall i :: 0 <= i < |r| ==>
      r[i].id == i && r[i].displayName == InitialData[i].0 && Descriptions(r[i].tasks) == InitialData[i].1
  {
    seq(|InitialData|, i requires 0 <= i < |InitialData| =>
      Column(i, InitialData[i].0, Numbered(InitialData[i].1)))
  }

  // ---------------------------------------------------------------------------
  // Searching and splicing

  /** `Array.prototype.find`, as the index of the first element that matches. */
  function Find<T>(s: seq<T>, matches: T -> bool): (r: Option<nat>)
    ensures r.Some? ==> r.value < |s| && matches(s[r.value])
    ensures r.Some? ==> forall j :: 0 <= j < r.value ==> !matches(s[j])
    ensures r.None? ==> forall j :: 0 <= j < |s| ==> !matches(s[j])
  {
    if |s| == 0 then None
    else if matches(s[0]) then Some(0)
    else match Find(s[1..], matches)
      case None => None
      case Some(j) => Some(j + 1)
  }

  /** `state.find(column => column.id === id)` */
  function ColumnIndex(cols: seq<Column>, id: int): (r: Option<nat>)
    ensures r.Some? ==> r.value < |cols| && cols[r.value].id == id
    ensures r.Some? ==> forall j :: 0 <= j < r.value ==> cols[j].id != id
    ensures r.None? ==> forall j :: 0 <= j < |cols| ==> cols[j].id != id
  {
    Find(cols, (c: Column) => c.id == id)
  }

  /** `tasks.find(task => task.id === id)` */
  function TaskIndex(tasks: seq<Task>, id: int): (r: Option<nat>)
    ensures r.Some? ==> r.value < |tasks| && tasks[r.value].id == id
    ensures r.Some? ==> forall j :: 0 <= j < r.value ==> tasks[j].id != id
    ensures r.None? ==> forall j :: 0 <= j < |tasks| ==> tasks[j].id != id
  {
    Find(tasks, (t: Task) => t.id == id)
  }

  /**
   * Where `Array.prototype.splice(start, ...)` starts on an array of length
   * `len`: a negative start counts back from the end (but not past 0), one past
   * the end is clamped to the end.
   */
  function SpliceStart(start: int, len: nat): (r: nat)
    ensures r <= len
    ensures 0 <= start <= len ==> r == start
  {
    if start < 0 then (if len + start < 0 then 0 else len + start)
    else if start > len then len
    else start
  }

  /** `s.splice(k, 1)` when it removes an element. */
  function RemoveAt<T>(s: seq<T>, k: nat): seq<T>
    requires k < |s|
  {
    s[..k] + s[k + 1..]
  }

  /** `s.splice(k, 0, x)` with an already normalised start. */
  function InsertAt<T>(s: seq<T>, k: nat, x: T): seq<T>
    requires k <= |s|
  {
    s[..k] + [x] + s[k..]
  }

  /** `s.splice(to, 0, s.splice(from, 1)[0])` with normalised indices. */
  function Relocated<T>(s: seq<T>, from: nat, to: nat): seq<T>
    requires from < |s| && to < |s|
  {
    InsertAt(RemoveAt(s, from), to, s[from])
  }

  /** The column after `tasks.forEach((task, index) => (task.id = index))`. */
  function Reindexed(tasks: seq<Task>): (r: seq<Task>)
    ensures |r| == |tasks| && Indexed(r) && Descriptions(r) == Descriptions(tasks)
  {
    seq(|tasks|, i requires 0 <= i < |tasks| => Task(i, tasks[i].description))
  }

  // ---------------------------------------------------------------------------
  // The reducers as functions of the board

  /** `createTask`: append to the first column with the id, then reindex it. */
  function Created(cols: seq<Column>, columnId: int, description: string): (r: seq<Column>)
    ensures |r| == |cols|
    ensures forall j :: 0 <= j < |cols| && ColumnIndex(cols, columnId) != Some(j) ==> r[j] == cols[j]
  {
    match ColumnIndex(cols, columnId)
    case None => cols
    case Some(k) => cols[k := cols[k].(tasks := Reindexed(cols[k].tasks + [Task(-1, description)]))]
  }

  /** The same-column branch splices: the column exists and the target is a task. */
  predicate SameColumnSplice(cols: seq<Column>, m: MoveIntent) {
    m.prevColumnId == m.newColumnId && ColumnIndex(cols, m.prevColumnId).Some? &&
    m.newPositionId != EmptySpace
  }

  /**
   * The reducer throws: in the same-column branch `splice(fromId, 1)` removes
   * nothing, so `undefined` is inserted and the reindexing loop fails on it.
   */
  predicate Throws(cols: seq<Column>, m: MoveIntent) {
    SameColumnSplice(cols, m) &&
    var tasks := cols[ColumnIndex(cols, m.prevColumnId).value].tasks;
    SpliceStart(m.prevPositionId, |tasks|) == |tasks|
  }

  /** The cross-column branch does its work: both columns and the task are found. */
  predicate CrossApplies(cols: seq<Column>, m: MoveIntent) {
    m.prevColumnId != m.newColumnId &&
    ColumnIndex(cols, m.prevColumnId).Some? && ColumnIndex(cols, m.newColumnId).Some? &&
    TaskIndex(cols[ColumnIndex(cols, m.prevColumnId).value].tasks, m.prevPositionId).Some?
  }

  /** The task a cross-column move picks up (found by id). */
  function MovedTask(cols: seq<Column>, m: MoveIntent): Task
    requires CrossApplies(cols, m)
  {
    var tasks := cols[ColumnIndex(cols, m.prevColumnId).value].tasks;
    tasks[TaskIndex(tasks, m.prevPositionId).value]
  }

  /** The same-column branch on column `k` once it splices. */
  function WithinColumn(cols: seq<Column>, k: nat, m: MoveIntent): seq<Column>
    requires k < |cols|
  {
    var tasks := cols[k].tasks;
    var from := SpliceStart(m.prevPositionId, |tasks|);
    if from == |tasks| then cols
    else
      var to := SpliceStart(m.newPositionId, |tasks| - 1);
      cols[k := cols[k].(tasks := Reindexed(Relocated(tasks, from, to)))]
  }

  /** The cross-column branch from column `a` to column `b`, moving the task found at `t`. */
  function AcrossColumns(cols: seq<Column>, a: nat, b: nat, t: nat, m: MoveIntent): seq<Column>
    requires a < |cols| && b < |cols| && t < |cols[a].tasks|
  {
    var task := cols[a].tasks[t];
    var from := SpliceStart(m.prevPositionId, |cols[a].tasks|);
    var src := if from < |cols[a].tasks| then RemoveAt(cols[a].tasks, from) else cols[a].tasks;
    var pushed := cols[b].tasks + [task];
    var dst := if m.newPositionId == EmptySpace then pushed
               else Relocated(pushed, |pushed| - 1, SpliceStart(m.newPositionId, |pushed| - 1));
    cols[a := cols[a].(tasks := Reindexed(src))][b := cols[b].(tasks := Reindexed(dst))]
  }

  /**
   * `moveTask`: the board the store holds afterwards. When the reducer throws,
   * Immer discards the draft and the store keeps the old board.
   */
  function Moved(cols: seq<Column>, m: MoveIntent): (r: seq<Column>)
    ensures |r| == |cols|
    ensures Throws(cols, m) ==> r == cols
  {
    if m.prevColumnId == m.newColumnId then
      match ColumnIndex(cols, m.prevColumnId)
      case None => cols
      case Some(k) => if m.newPositionId == EmptySpace then cols else WithinColumn(cols, k, m)
    else
      match ColumnIndex(cols, m.prevColumnId)
      case None => cols
      case Some(a) =>
        match ColumnIndex(cols, m.newColumnId)
        case None => cols
        case Some(b) =>
          match TaskIndex(cols[a].tasks, m.prevPositionId)
          case None => cols
          case Some(t) => AcrossColumns(cols, a, b, t, m)
  }

  // ---------------------------------------------------------------------------
  // The store, updated in place

  class Board {
    var columns: seq<Column>

    ghost predicate Valid()
      reads this
    {
      BoardIndexed(columns) && DistinctColumnIds(columns)
    }

    /** The store starts from `initialState`. */
    constructor ()
      ensures columns == InitialBoard() && Valid()
    {
      columns := InitialBoard();
      InitialBoardWellFormed();
    }

    /** The `forEach` that sets each task's id of column `k` to its index. */
    method ReindexColumn(k: nat)
      requires k < |columns|
      modifies this
      ensures columns == old(columns)[k := old(columns)[k].(tasks := Reindexed(old(columns)[k].tasks))]
    {
      var i := 0;
      while i < |columns[k].tasks|
        invariant |columns| == |old(columns)| && k < |columns|
        invariant columns == old(columns)[k := columns[k]]
        invariant columns[k] == old(columns)[k].(tasks := columns[k].tasks)
        invariant |columns[k].tasks| == |old(columns)[k].tasks|
        invariant 0 <= i <= |columns[k].tasks|
        invariant forall j :: 0 <= j < |columns[k].tasks| ==>
                    columns[k].tasks[j].description == old(columns)[k].tasks[j].description
        invariant forall j :: 0 <= j < i ==> columns[k].tasks[j].id == j
        invariant forall j :: i <= j < |columns[k].tasks| ==> columns[k].tasks[j] == old(columns)[k].tasks[j]
      {
        var c := columns[k];
        columns := columns[k := c.(tasks := c.tasks[i := c.tasks[i].(id := i)])];
        i := i + 1;
      }
      assert columns[k].tasks == Reindexed(old(columns)[k].tasks);
    }

    /** The `createTask` reducer. */
    method CreateTask(columnId: int, description: string)
      requires Valid()
      modifies this
      ensures Valid()
      ensures columns == Created(old(columns), columnId, description)
    {
      CreatedKeepsInvariant(columns, columnId, description);
      var column := ColumnIndex(columns, columnId);
      if column.Some? {
        var k := column.value;
        columns := columns[k := columns[k].(tasks := columns[k].tasks + [Task(-1, description)])];
        ReindexColumn(k);
      }
    }

    /** The `moveTask` reducer; `threw` says it raised an error and left the store as it was. */
    method MoveTask(m: MoveIntent) returns (threw: bool)
      requires Valid()
      modifies this
      ensures Valid()
      ensures threw == Throws(old(columns), m)
      ensures columns == Moved(old(columns), m)
    {
      MovedKeepsInvariant(columns, m);
      threw := false;
      if m.prevColumnId == m.newColumnId {
        var column := ColumnIndex(columns, m.prevColumnId);
        if column.Some? && m.newPositionId != EmptySpace {
          threw := MoveWithinColumn(column.value, m);
        }
      } else {
        var prevColumn := ColumnIndex(columns, m.prevColumnId);
        var newColumn := ColumnIndex(columns, m.newColumnId);
        if prevColumn.Some? && newColumn.Some? {
          var found := TaskIndex(columns[prevColumn.value].tasks, m.prevPositionId);
          if found.Some? {
            MoveAcrossColumns(prevColumn.value, newColumn.value, found.value, m);
          }
        }
      }
    }

    /** Same column: `tasks.splice(toId, 0, tasks.splice(fromId, 1)[0])`, then reindex. */
    method MoveWithinColumn(k: nat, m: MoveIntent) returns (threw: bool)
      requires k < |columns|
      modifies this
      ensures threw == (SpliceStart(m.prevPositionId, |old(columns)[k].tasks|) == |old(columns)[k].tasks|)
      ensures columns == WithinColumn(old(columns), k, m)
    {
      var tasks := columns[k].tasks;
      var from := SpliceStart(m.prevPositionId, |tasks|);
      if from == |tasks| {
        // splice(fromId, 1) removed nothing: `undefined` goes in and the forEach throws
        return true;
      }
      var moving := tasks[from];
      var rest := RemoveAt(tasks, from);
      columns := columns[k := columns[k].(tasks := InsertAt(rest, SpliceStart(m.newPositionId, |rest|), moving))];
      ReindexColumn(k);
      return false;
    }

    /** Different columns: remove from `a` by position, push onto `b`, maybe reposition, reindex both. */
    method MoveAcrossColumns(a: nat, b: nat, t: nat, m: MoveIntent)
      requires a < |columns| && b < |columns| && a != b && t < |columns[a].tasks|
      modifies this
      ensures columns == AcrossColumns(old(columns), a, b, t, m)
    {
      var taskToMove := columns[a].tasks[t];
      // removal is by position, while the search that gave `t` was by id
      var src := columns[a].tasks;
      var from := SpliceStart(m.prevPositionId, |src|);
      if from < |src| {
        src := RemoveAt(src, from);
      }
      var dst := columns[b].tasks + [taskToMove];
      if m.newPositionId != EmptySpace {
        var last := |dst| - 1;
        var moving := dst[last];
        var rest := RemoveAt(dst, last);
        dst := InsertAt(rest, SpliceStart(m.newPositionId, |rest|), moving);
      }
      ghost var before := columns;
      columns := columns[a := columns[a].(tasks := src)][b := columns[b].(tasks := dst)];
      ghost var placed := columns;
      ReindexColumn(a);
      assert columns == placed[a := placed[a].(tasks := Reindexed(src))];
      ReindexColumn(b);
      assert columns == before[a := before[a].(tasks := Reindexed(src))][b := before[b].(tasks := Reindexed(dst))];
    }
  }

  // ---------------------------------------------------------------------------
  // Sequence facts

  lemma {:induction false} TotalTasksUpdate(cols: seq<Column>, k: nat, c: Column)
    requires k < |cols|
    ensures TotalTasks(cols[k := c]) == TotalTasks(cols) - |cols[k].tasks| + |c.tasks|
  {
    if k == 0 {
      assert cols[k := c][1..] == cols[1..];
    } else {
      assert cols[k := c][1..] == cols[1..][k - 1 := c];
      TotalTasksUpdate(cols[1..], k - 1, c);
    }
  }

  /** Relocating an element: it lands at `to`, and the others keep their order. */
  lemma RelocatedMoves<T>(s: seq<T>, from: nat, to: nat)
    requires from < |s| && to < |s|
    ensures |Relocated(s, from, to)| == |s|
    ensures Relocated(s, from, to)[to] == s[from]
    ensures RemoveAt(Relocated(s, from, to), to) == RemoveAt(s, from)
    ensures multiset(Relocated(s, from, to)) == multiset(s)
  {
    var rest := RemoveAt(s, from);
    var r := Relocated(s, from, to);
    assert r == rest[..to] + [s[from]] + rest[to..];
    assert RemoveAt(r, to) == rest[..to] + rest[to..];
    assert rest[..to] + rest[to..] == rest;
    assert s == s[..from] + [s[from]] + s[from + 1..];
    calc {
      multiset(r);
      multiset(rest[..to]) + multiset([s[from]]) + multiset(rest[to..]);
      { assert rest == rest[..to] + rest[to..]; }
      multiset(rest) + multiset([s[from]]);
      multiset(s[..from]) + multiset(s[from + 1..]) + multiset([s[from]]);
      multiset(s);
    }
  }

  lemma DescriptionsOfRelocated(s: seq<Task>, from: nat, to: nat)
    requires from < |s| && to < |s|
    ensures Descriptions(Relocated(s, from, to)) == Relocated(Descriptions(s), from, to)
  {
    var d := Descriptions(s);
    assert Descriptions(RemoveAt(s, from)) == RemoveAt(d, from);
    var rest := RemoveAt(s, from);
    assert Descriptions(InsertAt(rest, to, s[from])) == InsertAt(Descriptions(rest), to, s[from].description);
  }

  lemma DescriptionsOfRemoveAt(s: seq<Task>, k: nat)
    requires k < |s|
    ensures Descriptions(RemoveAt(s, k)) == RemoveAt(Descriptions(s), k)
  {
  }

  // ---------------------------------------------------------------------------
  // The initial board

  /** The initial board has four columns and satisfies the store invariant. */
  lemma InitialBoardWellFormed()
    ensures |InitialBoard()| == 4
    ensures BoardIndexed(InitialBoard()) && DistinctColumnIds(InitialBoard())
  {
  }

  // ---------------------------------------------------------------------------
  // createTask

  /** On an existing column: one more task, the new one last with the description, all reindexed, nothing else touched. */
  lemma CreateTaskAppends(cols: seq<Column>, columnId: int, description: string, k: nat)
    requires ColumnIndex(cols, columnId) == Some(k)
    ensures var r := Created(cols, columnId, description);
      |r| == |cols| &&
      |r[k].tasks| == |cols[k].tasks| + 1 &&
      Indexed(r[k].tasks) &&
      Descriptions(r[k].tasks) == Descriptions(cols[k].tasks) + [description] &&
      r[k].id == cols[k].id && r[k].displayName == cols[k].displayName &&
      forall j :: 0 <= j < |cols| && j != k ==> r[j] == cols[j]
  {
    var appended := cols[k].tasks + [Task(-1, description)];
    assert Descriptions(appended) == Descriptions(cols[k].tasks) + [description];
  }

  /** `createTask` leaves the board alone exactly when no column has the id. */
  lemma CreateTaskNoopIff(cols: seq<Column>, columnId: int, description: string)
    ensures Created(cols, columnId, description) == cols <==> ColumnIndex(cols, columnId).None?
  {
    match ColumnIndex(cols, columnId)
    case None =>
    case Some(k) =>
      assert |Created(cols, columnId, description)[k].tasks| == |cols[k].tasks| + 1;
  }

  /** `createTask` adds one task to the board when the column exists, none otherwise. */
  lemma CreateTaskCount(cols: seq<Column>, columnId: int, description: string)
    ensures TotalTasks(Created(cols, columnId, description)) ==
            TotalTasks(cols) + (if ColumnIndex(cols, columnId).Some? then 1 else 0)
  {
    match ColumnIndex(cols, columnId)
    case None =>
    case Some(k) =>
      TotalTasksUpdate(cols, k, cols[k].(tasks := Reindexed(cols[k].tasks + [Task(-1, description)])));
  }

  /** `createTask` keeps the columns and the positional-id invariant. */
  lemma CreatedKeepsInvariant(cols: seq<Column>, columnId: int, description: string)
    ensures SameShape(cols, Created(cols, columnId, description))
    ensures BoardIndexed(cols) ==> BoardIndexed(Created(cols, columnId, description))
    ensures DistinctColumnIds(cols) ==> DistinctColumnIds(Created(cols, columnId, description))
  {
    match ColumnIndex(cols, columnId)
    case None =>
    case Some(k) =>
  }

  // ---------------------------------------------------------------------------
  // moveTask

  /** A move keeps the columns: their number, order, ids and names. */
  lemma MovedKeepsShape(cols: seq<Column>, m: MoveIntent)
    ensures SameShape(cols, Moved(cols, m))
  {
    if m.prevColumnId == m.newColumnId {
      match ColumnIndex(cols, m.prevColumnId)
      case None =>
      case Some(k) =>
        if m.newPositionId != EmptySpace {
          assert Moved(cols, m) == WithinColumn(cols, k, m);
        }
    } else if CrossApplies(cols, m) {
      var a := ColumnIndex(cols, m.prevColumnId).value;
      var b := ColumnIndex(cols, m.newColumnId).value;
      var t := TaskIndex(cols[a].tasks, m.prevPositionId).value;
      assert Moved(cols, m) == AcrossColumns(cols, a, b, t, m);
    }
  }

  /** A move keeps the positional-id invariant and distinct column ids. */
  lemma MovedKeepsInvariant(cols: seq<Column>, m: MoveIntent)
    ensures SameShape(cols, Moved(cols, m))
    ensures BoardIndexed(cols) ==> BoardIndexed(Moved(cols, m))
    ensures DistinctColumnIds(cols) ==> DistinctColumnIds(Moved(cols, m))
  {
    MovedKeepsShape(cols, m);
    var r := Moved(cols, m);
    if BoardIndexed(cols) {
      forall k | 0 <= k < |r| ensures Indexed(r[k].tasks) {
        if r[k] != cols[k] {
          assert exists t :: r[k].tasks == Reindexed(t);
        }
      }
    }
  }

  /** Same column, dropped on empty space or on an unknown column: nothing happens. */
  lemma SameColumnNoop(cols: seq<Column>, m: MoveIntent)
    requires m.prevColumnId == m.newColumnId
    requires m.newPositionId == EmptySpace || ColumnIndex(cols, m.prevColumnId).None?
    ensures Moved(cols, m) == cols && !Throws(cols, m)
  {
  }

  /** When the same-column branch throws: its start position is past the end of the column (or the column is empty). */
  lemma ThrowsIff(cols: seq<Column>, m: MoveIntent)
    ensures Throws(cols, m) <==>
      SameColumnSplice(cols, m) &&
      var n := |cols[ColumnIndex(cols, m.prevColumnId).value].tasks|;
      n == 0 || m.prevPositionId >= n
  {
  }

  /**
   * Same column with positions in range: the task taken from `prevPositionId`
   * lands at `newPositionId` (the end if that is beyond it), the others keep
   * their relative order, the column is a permutation of what it was, and ids
   * are reindexed.
   */
  lemma SameColumnRelocates(cols: seq<Column>, m: MoveIntent, k: nat)
    requires m.prevColumnId == m.newColumnId && ColumnIndex(cols, m.prevColumnId) == Some(k)
    requires 0 <= m.prevPositionId < |cols[k].tasks| && 0 <= m.newPositionId
    ensures !Throws(cols, m)
    ensures var before := cols[k].tasks;
      var after := Moved(cols, m)[k].tasks;
      var to := if m.newPositionId < |before| then m.newPositionId else |before| - 1;
      |Moved(cols, m)| == |cols| &&
      |after| == |before| && Indexed(after) &&
      after[to].description == before[m.prevPositionId].description &&
      RemoveAt(Descriptions(after), to) == RemoveAt(Descriptions(before), m.prevPositionId) &&
      multiset(Descriptions(after)) == multiset(Descriptions(before)) &&
      Moved(cols, m)[k].id == cols[k].id &&
      forall j :: 0 <= j < |cols| && j != k ==> Moved(cols, m)[j] == cols[j]
  {
    var before := cols[k].tasks;
    var from := m.prevPositionId;
    var to := SpliceStart(m.newPositionId, |before| - 1);
    var moved := Relocated(before, from, to);
    DescriptionsOfRelocated(before, from, to);
    RelocatedMoves(Descriptions(before), from, to);
  }

  /** With distinct column ids, looking up a column's own id finds that column. */
  lemma ColumnIndexOfOwnId(cols: seq<Column>, c: nat)
    requires DistinctColumnIds(cols) && c < |cols|
    ensures ColumnIndex(cols, cols[c].id) == Some(c)
  {
  }

  /** With the invariant, the task found by id is the one at that index, so search and removal agree. */
  lemma FoundByIdIsAtIndex(tasks: seq<Task>, id: int)
    requires Indexed(tasks)
    ensures TaskIndex(tasks, id).Some? <==> 0 <= id < |tasks|
    ensures TaskIndex(tasks, id).Some? ==> TaskIndex(tasks, id).value == id == SpliceStart(id, |tasks|)
  {
    if 0 <= id < |tasks| {
      assert tasks[id].id == id;
    }
  }

  /** Without the invariant they can disagree: one task is lost and another duplicated. */
  lemma SearchAndRemovalDisagree()
    ensures var cols := [Column(0, "A", [Task(1, "x"), Task(0, "y")]), Column(1, "B", [])];
      var r := Moved(cols, MoveIntent(0, 1, 0, EmptySpace));
      Descriptions(r[0].tasks) == ["y"] && Descriptions(r[1].tasks) == ["y"]
  {
    var cols := [Column(0, "A", [Task(1, "x"), Task(0, "y")]), Column(1, "B", [])];
    assert ColumnIndex(cols, 0) == Some(0);
    assert ColumnIndex(cols[1..], 1) == Some(0);
    assert TaskIndex(cols[0].tasks[1..], 0) == Some(0);
  }

  /** A cross-column move does something exactly when both columns and the task are found. */
  lemma CrossMoveNoopIff(cols: seq<Column>, m: MoveIntent)
    requires m.prevColumnId != m.newColumnId
    ensures !Throws(cols, m)
    ensures Moved(cols, m) == cols <==> !CrossApplies(cols, m)
  {
    if CrossApplies(cols, m) {
      var b := ColumnIndex(cols, m.newColumnId).value;
      var a := ColumnIndex(cols, m.prevColumnId).value;
      assert a != b;
      assert |Moved(cols, m)[b].tasks| == |cols[b].tasks| + 1;
    }
  }

  /**
   * A successful cross-column move on an indexed board: the source loses
   * exactly the moved task (the rest keep their order), the destination gains
   * one, both are reindexed, and the other columns are untouched.
   */
  lemma CrossMoveTransfers(cols: seq<Column>, m: MoveIntent, a: nat, b: nat)
    requires BoardIndexed(cols) && CrossApplies(cols, m)
    requires ColumnIndex(cols, m.prevColumnId) == Some(a) && ColumnIndex(cols, m.newColumnId) == Some(b)
    ensures var r := Moved(cols, m);
      |r| == |cols| && a != b &&
      0 <= m.prevPositionId < |cols[a].tasks| &&
      Descriptions(r[a].tasks) == RemoveAt(Descriptions(cols[a].tasks), m.prevPositionId) &&
      |r[b].tasks| == |cols[b].tasks| + 1 &&
      Indexed(r[a].tasks) && Indexed(r[b].tasks) &&
      forall j :: 0 <= j < |cols| && j != a && j != b ==> r[j] == cols[j]
  {
    FoundByIdIsAtIndex(cols[a].tasks, m.prevPositionId);
    var src := RemoveAt(cols[a].tasks, m.prevPositionId);
    DescriptionsOfRemoveAt(cols[a].tasks, m.prevPositionId);
  }

  /**
   * Dropped on empty space, the moved task lands last in the destination, the
   * earlier tasks keep their order, and it keeps its description.
   */
  lemma CrossMoveAppends(cols: seq<Column>, m: MoveIntent, b: nat)
    requires CrossApplies(cols, m) && ColumnIndex(cols, m.newColumnId) == Some(b)
    requires m.newPositionId == EmptySpace
    ensures var after := Moved(cols, m)[b].tasks;
      |after| == |cols[b].tasks| + 1 && Indexed(after) &&
      Descriptions(after) == Descriptions(cols[b].tasks) + [MovedTask(cols, m).description]
  {
    var a := ColumnIndex(cols, m.prevColumnId).value;
    assert a != b;
    var task := MovedTask(cols, m);
    var pushed := cols[b].tasks + [task];
    assert Descriptions(pushed) == Descriptions(cols[b].tasks) + [task.description];
  }

  /**
   * Dropped over a task, the moved task lands at `newPositionId` when that is
   * within the destination (otherwise where `splice` puts it), the other
   * destination tasks keep their order, and it keeps its description.
   */
  lemma CrossMoveInserts(cols: seq<Column>, m: MoveIntent, b: nat)
    requires CrossApplies(cols, m) && ColumnIndex(cols, m.newColumnId) == Some(b)
    requires m.newPositionId != EmptySpace
    ensures var land := SpliceStart(m.newPositionId, |cols[b].tasks|);
      var after := Moved(cols, m)[b].tasks;
      |after| == |cols[b].tasks| + 1 && Indexed(after) &&
      after[land].description == MovedTask(cols, m).description &&
      RemoveAt(Descriptions(after), land) == Descriptions(cols[b].tasks) &&
      (0 <= m.newPositionId <= |cols[b].tasks| ==> land == m.newPositionId)
  {
    var a := ColumnIndex(cols, m.prevColumnId).value;
    assert a != b;
    var task := MovedTask(cols, m);
    var pushed := cols[b].tasks + [task];
    var d := |cols[b].tasks|;
    assert RemoveAt(pushed, d) == cols[b].tasks;
    var to := SpliceStart(m.newPositionId, d);
    var dst := Relocated(pushed, d, to);
    DescriptionsOfRelocated(pushed, d, to);
    RelocatedMoves(Descriptions(pushed), d, to);
    DescriptionsOfRemoveAt(pushed, d);
  }

  /** On an indexed board no move changes the number of tasks. */
  lemma MoveConservesCount(cols: seq<Column>, m: MoveIntent)
    requires BoardIndexed(cols)
    ensures TotalTasks(Moved(cols, m)) == TotalTasks(cols)
  {
    if m.prevColumnId == m.newColumnId {
      match ColumnIndex(cols, m.prevColumnId)
      case None =>
      case Some(k) =>
        if Moved(cols, m) != cols {
          TotalTasksUpdate(cols, k, Moved(cols, m)[k]);
          assert Moved(cols, m) == cols[k := Moved(cols, m)[k]];
        }
    } else if CrossApplies(cols, m) {
      var a := ColumnIndex(cols, m.prevColumnId).value;
      var b := ColumnIndex(cols, m.newColumnId).value;
      CrossMoveTransfers(cols, m, a, b);
      var r := Moved(cols, m);
      var mid := cols[a := r[a]];
      TotalTasksUpdate(cols, a, r[a]);
      TotalTasksUpdate(mid, b, r[b]);
      assert r == mid[b := r[b]];
    }
  }

  /**
   * A move whose source column id is -1 (no drag was started) does nothing on
   * any board with the initial board's columns, whose ids are 0 to 3.
   */
  lemma NoDragStartIsNoop(cols: seq<Column>, m: MoveIntent)
    requires SameShape(InitialBoard(), cols)
    requires m.prevColumnId == -1
    ensures Moved(cols, m) == cols && !Throws(cols, m)
  {
    InitialBoardWellFormed();
    assert ColumnIndex(cols, -1).None?;
  }

  // ---------------------------------------------------------------------------
  // Worked examples on the initial board

  /**
   * QA: moving "Resourcing" from 0 to 2, on any board whose first three
   * columns have ids 0 to 2 and whose QA column is the initial one
   * (`InitialFirstColumns` shows the initial board is such a board).
   */
  lemma QaReorderExample(cols: seq<Column>)
    requires |cols| == 4 && cols[0].id == 0 && cols[1].id == 1
    requires cols[2] == Column(2, "QA", [Task(0, "Resourcing"), Task(1, "Design prototype"), Task(2, "Write automation tests")])
    ensures Moved(cols, MoveIntent(2, 2, 0, 2))[2].tasks ==
      [Task(0, "Design prototype"), Task(1, "Write automation tests"), Task(2, "Resourcing")]
  {
    var m := MoveIntent(2, 2, 0, 2);
    assert ColumnIndex(cols, 2) == Some(2);
    assert Moved(cols, m) == WithinColumn(cols, 2, m);
    var tasks := cols[2].tasks;
    assert SpliceStart(0, 3) == 0 && SpliceStart(2, 2) == 2;
    assert RemoveAt(tasks, 0) == [tasks[1], tasks[2]];
    assert Relocated(tasks, 0, 2) == [tasks[1], tasks[2], tasks[0]];
  }

  /** Creating a task in To Do, which holds one task, gives it id 1. */
  lemma CreateExample()
    ensures Created(InitialBoard(), 0, "Draft spec")[0].tasks ==
      [Task(0, "Gather stakeholder feedback"), Task(1, "Draft spec")]
  {
    InitialBoardWellFormed();
    assert ColumnIndex(InitialBoard(), 0) == Some(0);
  }

  /** The first three columns of the initial board, written out. */
  lemma InitialFirstColumns()
    ensures InitialBoard()[0] == Column(0, "To Do", [Task(0, "Gather stakeholder feedback")])
    ensures InitialBoard()[1] == Column(1, "In Progress", [Task(0, "Write requirements")])
    ensures InitialBoard()[2] ==
      Column(2, "QA", [Task(0, "Resourcing"), Task(1, "Design prototype"), Task(2, "Write automation tests")])
    ensures ColumnIndex(InitialBoard(), 0) == Some(0) && ColumnIndex(InitialBoard(), 1) == Some(1)
  {
    InitialBoardWellFormed();
  }

  /**
   * Moving To Do's only task into In Progress, which holds one task, dropped
   * over that task or on empty space. `InitialFirstColumns` shows that the
   * initial board meets the requires.
   */
  lemma ToDoToInProgress(cols: seq<Column>, m: MoveIntent)
    requires |cols| == 4
    requires cols[0] == Column(0, "To Do", [Task(0, "Gather stakeholder feedback")])
    requires cols[1] == Column(1, "In Progress", [Task(0, "Write requirements")])
    requires m.prevColumnId == 0 && m.newColumnId == 1 && m.prevPositionId == 0
    requires m.newPositionId == 0 || m.newPositionId == EmptySpace
    ensures var r := Moved(cols, m);
      r[0].tasks == [] &&
      r[1].tasks == if m.newPositionId == 0
        then [Task(0, "Gather stakeholder feedback"), Task(1, "Write requirements")]
        else [Task(0, "Write requirements"), Task(1, "Gather stakeholder feedback")]
  {
    var moving := Task(0, "Gather stakeholder feedback");
    var waiting := Task(0, "Write requirements");
    assert ColumnIndex(cols, 0) == Some(0);
    assert ColumnIndex(cols, 1) == Some(1);
    assert TaskIndex(cols[0].tasks, 0) == Some(0);
    var r := AcrossColumns(cols, 0, 1, 0, m);
    assert Moved(cols, m) == r;
    assert SpliceStart(0, 1) == 0;
    var src := RemoveAt(cols[0].tasks, 0);
    assert src == [];
    var pushed := [waiting, moving];
    assert cols[1].tasks + [cols[0].tasks[0]] == pushed;
    var dst := if m.newPositionId == EmptySpace then pushed else Relocated(pushed, 1, SpliceStart(m.newPositionId, 1));
    assert r == cols[0 := cols[0].(tasks := Reindexed(src))][1 := cols[1].(tasks := Reindexed(dst))];
    assert r[0].tasks == Reindexed(src) == [];
    assert r[1].tasks == Reindexed(dst);
    if m.newPositionId == 0 {
      assert dst == [moving, waiting];
    } else {
      assert dst == [waiting, moving];
    }
  }
}
