/**
 * The Kanban board component's state: the board it shows, whether the last
 * save failed, and the card being dragged. Every handler's board change goes
 * through Persist, which replaces the board wholesale; the handlers compute the
 * new board with the transforms of BoardOps. The load on mount also assigns the
 * board; it is not part of this model.
 */
module KanbanComponent {
  import opened Wrappers
  import opened BoardModel
  import BoardOps

  class KanbanBoard {
    var board: Board
    var saveError: bool
    var activeCardId: Option<Id>

    /** The component mounts with an empty board, no save error and no drag. */
    constructor ()
      ensures board == Board([], map[]) && Valid(board)
      ensures !saveError && activeCardId == None
    {
      board := Board([], map[]);
      saveError := false;
      activeCardId := None;
    }

    /**
     * persist: show the new board at once and clear the save-error banner.
     * The save request itself is not part of this model; its failure arrives
     * later as SaveFailed.
     */
    method Persist(next: Board)
      modifies this
      ensures board == next && !saveError
      ensures activeCardId == old(activeCardId)
    {
      board := next;
      saveError := false;
    }

    /** The save request failed: raise the banner; the board is not rolled back. */
    method SaveFailed()
      modifies this
      ensures saveError
      ensures board == old(board) && activeCardId == old(activeCardId)
    {
      saveError := true;
    }

    /** handleDragStart: remember the card being dragged. */
    method DragStart(activeId: Id)
      modifies this
      ensures activeCardId == Some(activeId)
      ensures board == old(board) && saveError == old(saveError)
    {
      activeCardId := Some(activeId);
    }

    /**
     * handleDragEnd: clear the dragged card; without a drop target, or when the
     * card is dropped on itself, change nothing else; otherwise persist the
     * board with the columns `moveCard` computes and the same cards.
     */
    method DragEnd(activeId: Id, overId: Option<Id>, moveCard: (seq<Column>, Id, Id) -> seq<Column>)
      modifies this
      ensures activeCardId == None
      ensures board == BoardOps.DragEnd(old(board), activeId, overId, moveCard)
      ensures board.cards == old(board.cards)
      ensures overId == None || overId == Some(activeId) ==> board == old(board) && saveError == old(saveError)
      ensures overId.Some? && overId.value != activeId ==> !saveError
    {
      activeCardId := None;
      if overId == None || overId == Some(activeId) {
        return;
      }
      Persist(board.(columns := moveCard(board.columns, activeId, overId.value)));
    }

    /** handleRenameColumn, persisted; the board invariant is kept. */
    method RenameColumn(columnId: Id, title: string)
      modifies this
      ensures board == BoardOps.RenameColumn(old(board), columnId, title)
      ensures Valid(old(board)) ==> Valid(board)
      ensures !saveError && activeCardId == old(activeCardId)
    {
      if Valid(board) {
        BoardOps.RenameColumnKeepsValid(board, columnId, title);
      }
      Persist(BoardOps.RenameColumn(board, columnId, title));
    }

    /**
     * handleAddCard, persisted. `id` is the value createId returns, which is
     * never already a key of `cards`. The board invariant is kept exactly when
     * some column has the id `columnId`.
     */
    method AddCard(columnId: Id, title: string, details: string, id: Id)
      requires id !in board.cards
      modifies this
      ensures board == BoardOps.AddCard(old(board), columnId, id, title, details)
      ensures Valid(old(board)) ==>
                (Valid(board) <==> exists i :: 0 <= i < |old(board).columns| && old(board).columns[i].id == columnId)
      ensures !saveError && activeCardId == old(activeCardId)
    {
      if Valid(board) {
        BoardOps.AddCardValidity(board, columnId, id, title, details);
      }
      Persist(BoardOps.AddCard(board, columnId, id, title, details));
    }

    /**
     * handleDeleteCard, persisted. The board invariant is kept exactly when the
     * card is absent or listed by the named column.
     */
    method DeleteCard(columnId: Id, cardId: Id)
      modifies this
      ensures board == BoardOps.DeleteCard(old(board), columnId, cardId)
      ensures Valid(old(board)) ==>
                (Valid(board) <==>
                   (cardId !in old(board).cards ||
                    exists i :: 0 <= i < |old(board).columns| &&
                                old(board).columns[i].id == columnId && cardId in old(board).columns[i].cardIds))
      ensures !saveError && activeCardId == old(activeCardId)
    {
      if Valid(board) {
        BoardOps.DeleteCardValidity(board, columnId, cardId);
      }
      Persist(BoardOps.DeleteCard(board, columnId, cardId));
    }

    /**
     * The card shown under the pointer while dragging: none when no card is
     * dragged or its id is the empty string (which the source's truthiness
     * test treats as absent), and none when the id is not a key of `cards`.
     */
    function ActiveCard(): (r: Option<Card>)
      reads this
      ensures r.Some? <==> activeCardId.Some? && activeCardId.value != "" && activeCardId.value in board.cards
      ensures r.Some? ==> r.value == board.cards[activeCardId.value]
      ensures Valid(board) && r.Some? ==> r.value.id == activeCardId.value
    {
      match activeCardId
      case None => None
      case Some(id) => if id != "" && id in board.cards then Some(board.cards[id]) else None
    }
  }
}
