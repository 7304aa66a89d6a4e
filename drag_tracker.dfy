/**
 * The drag session of the dashboard: four refs that remember where the
 * current drag started and what it hovers over, and the three handlers that
 * update them and dispatch `moveTask` to the board.
 *
 * A handler's dispatch is a call of `Board.MoveTask`. When the reducer throws,
 * the error leaves the handler at once, so the ref updates that follow the
 * dispatch do not happen; the handlers return `threw` to say so.
 */
module Dashboard {
  import opened Wrappers
  import opened DataSlice

  class DragTracker {
    var startColumn: Option<int>  // startDragColId
    var startTask: Option<int>    // startDragTaskId
    var hoverColumn: Option<int>  // dragOverColId
    var hoverTask: Option<int>    // dragOverTaskId

    /** All four refs start out null. */
    constructor ()
      ensures startColumn == None && startTask == None
      ensures hoverColumn == None && hoverTask == None
    {
      startColumn, startTask := None, None;
      hoverColumn, hoverTask := None, None;
    }

    /** `handleTaskDragStart`: the drag starts on a card. */
    method TaskDragStart(columnId: int, taskId: int)
      modifies this
      ensures startColumn == Some(columnId) && startTask == Some(taskId)
      ensures hoverColumn == old(hoverColumn) && hoverTask == old(hoverTask)
    {
      startColumn := Some(columnId);
      startTask := Some(taskId);
    }

    /**
     * `handleTaskDragEnter`: the drag enters a card. It always dispatches one
     * move from the start to the card (a null ref is sent as -1), then makes
     * the card the new start and clears the hover refs.
     */
    method TaskDragEnter(board: Board, columnId: int, taskId: int) returns (sent: MoveIntent, threw: bool)
      requires board.Valid()
      modifies this, board
      ensures board.Valid()
      ensures sent == MoveIntent(old(startColumn).GetOr(-1), columnId, old(startTask).GetOr(-1), taskId)
      ensures board.columns == Moved(old(board.columns), sent)
      ensures threw == Throws(old(board.columns), sent)
      ensures !threw ==> startColumn == Some(columnId) && startTask == Some(taskId)
      ensures !threw ==> hoverColumn == None && hoverTask == None
      ensures threw ==> startColumn == old(startColumn) && startTask == old(startTask)
      ensures threw ==> hoverColumn == Some(columnId) && hoverTask == Some(taskId)
      ensures old(startColumn) == None && SameShape(InitialBoard(), old(board.columns)) ==>
                board.columns == old(board.columns) && !threw
    {
      hoverColumn := Some(columnId);
      hoverTask := Some(taskId);
      sent := MoveIntent(startColumn.GetOr(-1), hoverColumn.GetOr(-1), startTask.GetOr(-1), hoverTask.GetOr(-1));
      if startColumn == None && SameShape(InitialBoard(), board.columns) {
        NoDragStartIsNoop(board.columns, sent);
      }
      threw := board.MoveTask(sent);
      if threw {
        return;
      }
      startTask := hoverTask;
      startColumn := hoverColumn;
      hoverTask := None;
      hoverColumn := None;
    }

    /**
     * `handleColumnDragEnter`: the drag enters a column's task area. Within the
     * start column nothing is dispatched and only the hover refs change;
     * otherwise one move is dispatched, the start becomes (`columnId`,
     * `newPos`) and the hover refs are cleared.
     */
    method ColumnDragEnter(board: Board, columnId: int, taskId: int, newPos: int)
      returns (sent: Option<MoveIntent>, threw: bool)
      requires board.Valid()
      modifies this, board
      ensures board.Valid()
      ensures hoverColumn == (if sent.Some? && !threw then None else Some(columnId))
      ensures hoverTask == (if sent.Some? && !threw then None else Some(taskId))
      ensures old(startColumn) == Some(columnId) ==>
                sent == None && !threw && board.columns == old(board.columns) &&
                startColumn == old(startColumn) && startTask == old(startTask)
      ensures old(startColumn) != Some(columnId) ==>
                sent == Some(MoveIntent(old(startColumn).GetOr(-1), columnId, old(startTask).GetOr(-1), taskId)) &&
                board.columns == Moved(old(board.columns), sent.value) &&
                threw == Throws(old(board.columns), sent.value)
      ensures old(startColumn) != Some(columnId) && !threw ==>
                startColumn == Some(columnId) && startTask == Some(newPos)
      ensures threw ==> startColumn == old(startColumn) && startTask == old(startTask)
      ensures old(startColumn) == None && SameShape(InitialBoard(), old(board.columns)) ==>
                board.columns == old(board.columns) && !threw
    {
      hoverColumn := Some(columnId);
      hoverTask := Some(taskId);
      sent, threw := None, false;
      if startColumn != hoverColumn {
        var m := MoveIntent(startColumn.GetOr(-1), hoverColumn.GetOr(-1), startTask.GetOr(-1), hoverTask.GetOr(-1));
        if startColumn == None && SameShape(InitialBoard(), board.columns) {
          NoDragStartIsNoop(board.columns, m);
        }
        sent := Some(m);
        threw := board.MoveTask(m);
        if threw {
          return;
        }
        startTask := Some(newPos);
        startColumn := hoverColumn;
        hoverTask := None;
        hoverColumn := None;
      }
    }

    /**
     * A column's `onDragEnter`: it passes the column's id, -1 for "no task"
     * and the column's task count. Such a call never throws, and when its move
     * succeeds the new start position is exactly where the reducer appended
     * the moved task.
     */
    method ColumnAreaDragEnter(board: Board, c: nat) returns (sent: Option<MoveIntent>, threw: bool)
      requires board.Valid() && c < |board.columns|
      modifies this, board
      ensures board.Valid()
      ensures !threw
      ensures sent.None? <==> old(startColumn) == Some(old(board.columns)[c].id)
      ensures sent.Some? ==>
                sent.value == MoveIntent(old(startColumn).GetOr(-1), old(board.columns)[c].id,
                                         old(startTask).GetOr(-1), EmptySpace)
      ensures board.columns == if sent.Some? then Moved(old(board.columns), sent.value) else old(board.columns)
      ensures sent.Some? && CrossApplies(old(board.columns), sent.value) ==>
                startColumn == Some(board.columns[c].id) &&
                startTask == Some(|old(board.columns)[c].tasks|) &&
                |old(board.columns)[c].tasks| < |board.columns[c].tasks| &&
                board.columns[c].tasks[|old(board.columns)[c].tasks|].description ==
                  MovedTask(old(board.columns), sent.value).description
      ensures sent.Some? ==>
                startColumn == Some(old(board.columns)[c].id) &&
                startTask == Some(|old(board.columns)[c].tasks|) &&
                hoverColumn == None && hoverTask == None
      ensures sent.None? ==>
                startColumn == old(startColumn) && startTask == old(startTask) &&
                hoverColumn == Some(old(board.columns)[c].id) && hoverTask == Some(EmptySpace)
      ensures old(startColumn) == None && SameShape(InitialBoard(), old(board.columns)) ==>
                board.columns == old(board.columns)
    {
      ghost var before := board.columns;
      var column := board.columns[c];
      ColumnIndexOfOwnId(before, c);
      sent, threw := ColumnDragEnter(board, column.id, EmptySpace, |column.tasks|);
      if sent.Some? && CrossApplies(before, sent.value) {
        CrossMoveAppends(before, sent.value, c);
        MovedKeepsShape(before, sent.value);
      }
    }
  }
}
