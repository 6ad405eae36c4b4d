/**
 * The board transforms performed by the Kanban board's event handlers. Each
 * one builds a new board from the old one: renaming a column, adding a card,
 * deleting a card, and the guarded column replacement at the end of a drag.
 */
module BoardOps {
  import opened Wrappers
  import opened BoardModel

  /** The details stored for a card added with empty details. */
  const NoDetailsPlaceholder := "No details yet."

  /**
   * `columns.map(c => c.id === columnId ? f(c) : c)`: apply `f` to every column
   * whose id is `columnId` and keep the others as they are.
   */
  function MapMatching(cols: seq<Column>, columnId: Id, f: Column -> Column): (r: seq<Column>)
    ensures |r| == |cols|
    ensures forall i :: 0 <= i < |cols| && cols[i].id == columnId ==> r[i] == f(cols[i])
    ensures forall i :: 0 <= i < |cols| && cols[i].id != columnId ==> r[i] == cols[i]
  {
    seq(|cols|, i requires 0 <= i < |cols| => if cols[i].id == columnId then f(cols[i]) else cols[i])
  }

  /** `ids.filter(id => id !== x)`: every occurrence of x removed, the rest kept in order. */
  function RemoveAll(ids: seq<Id>, x: Id): (r: seq<Id>)
    ensures x !in r
    ensures forall y :: y in r <==> y in ids && y != x
    ensures |r| <= |ids|
  {
    if ids == [] then []
    else if ids[0] == x then RemoveAll(ids[1..], x)
    else [ids[0]] + RemoveAll(ids[1..], x)
  }

  /** Removing x changes the count of x to zero and no other count. */
  lemma {:induction false} RemoveAllCounts(ids: seq<Id>, x: Id)
    ensures multiset(RemoveAll(ids, x)) == multiset(ids)[x := 0]
  {
    if ids != [] {
      RemoveAllCounts(ids[1..], x);
      assert ids == [ids[0]] + ids[1..];
    }
  }

  /** Filtering distributes over concatenation, so the kept ids keep their order. */
  lemma {:induction false} RemoveAllConcat(a: seq<Id>, c: seq<Id>, x: Id)
    ensures RemoveAll(a + c, x) == RemoveAll(a, x) + RemoveAll(c, x)
  {
    if a != [] {
      RemoveAllConcat(a[1..], c, x);
      assert (a + c)[1..] == a[1..] + c;
    } else {
      assert a + c == c;
    }
  }

  /**
   * Filtering out an id listed once, at position p, removes exactly that
   * position: the ids before and after it stay in their order.
   */
  lemma RemoveAllListedOnce(ids: seq<Id>, x: Id, p: nat)
    requires p < |ids| && ids[p] == x
    requires multiset(ids)[x] == 1
    ensures RemoveAll(ids, x) == ids[..p] + ids[p + 1..]
  {
    var before, after := ids[..p], ids[p + 1..];
    assert ids == before + ([x] + after);
    assert multiset(ids)[x] == multiset(before)[x] + 1 + multiset(after)[x];
    RemoveAllAbsent(before, x);
    RemoveAllAbsent(after, x);
    RemoveAllConcat(before, [x] + after, x);
    assert RemoveAll([x] + after, x) == RemoveAll(after, x);
  }

  /** Filtering out an id that is not there returns the list unchanged. */
  lemma {:induction false} RemoveAllAbsent(ids: seq<Id>, x: Id)
    requires x !in ids
    ensures RemoveAll(ids, x) == ids
  {
    if ids != [] {
      RemoveAllAbsent(ids[1..], x);
      assert ids == [ids[0]] + ids[1..];
    }
  }

  /** Filtering an id out of a list with that id appended gives the filtered list. */
  lemma {:induction false} RemoveAllAppended(ids: seq<Id>, x: Id)
    ensures RemoveAll(ids + [x], x) == RemoveAll(ids, x)
  {
    if ids == [] {
      assert [x][1..] == [];
    } else {
      RemoveAllAppended(ids[1..], x);
      assert (ids + [x])[1..] == ids[1..] + [x];
    }
  }

  // ---------------------------------------------------------------------------
  // Rename a column
  // ---------------------------------------------------------------------------

  /** handleRenameColumn: give every column whose id is `columnId` the new title. */
  function RenameColumn(b: Board, columnId: Id, title: string): (r: Board)
    ensures r.cards == b.cards
    ensures SameColumnOrder(b.columns, r.columns)
    ensures forall i :: 0 <= i < |b.columns| ==> r.columns[i].cardIds == b.columns[i].cardIds
    ensures forall i :: 0 <= i < |b.columns| && b.columns[i].id == columnId ==> r.columns[i].title == title
    ensures forall i :: 0 <= i < |b.columns| && b.columns[i].id != columnId ==> r.columns[i] == b.columns[i]
  {
    Board(MapMatching(b.columns, columnId, (c: Column) => c.(title := title)), b.cards)
  }

  /** Renaming a column that does not exist is a no-op. */
  lemma RenameUnknownColumnIsNoop(b: Board, columnId: Id, title: string)
    requires forall i :: 0 <= i < |b.columns| ==> b.columns[i].id != columnId
    ensures RenameColumn(b, columnId, title) == b
  {
  }

  /** Renaming keeps the board invariant. */
  lemma RenameColumnKeepsValid(b: Board, columnId: Id, title: string)
    requires Valid(b)
    ensures Valid(RenameColumn(b, columnId, title))
  {
    ListedSameCardIds(b.columns, RenameColumn(b, columnId, title).columns);
  }

  // ---------------------------------------------------------------------------
  // Add a card
  // ---------------------------------------------------------------------------

  /** `details || "No details yet."`: the empty string is replaced by the placeholder. */
  function DetailsOrPlaceholder(details: string): (r: string)
    ensures r != ""
    ensures details != "" ==> r == details
    ensures details == "" ==> r == NoDetailsPlaceholder
  {
    if details == "" then NoDetailsPlaceholder else details
  }

  /**
   * handleAddCard, with `id` the value createId produced: store the card under
   * `id` and append `id` to every column whose id is `columnId`.
   */
  function AddCard(b: Board, columnId: Id, id: Id, title: string, details: string): (r: Board)
    ensures r.cards.Keys == b.cards.Keys + {id}
    ensures r.cards[id] == Card(id, title, DetailsOrPlaceholder(details))
    ensures forall k :: k in b.cards && k != id ==> r.cards[k] == b.cards[k]
    ensures SameColumnOrder(b.columns, r.columns)
    ensures forall i :: 0 <= i < |b.columns| && b.columns[i].id == columnId ==>
              r.columns[i] == b.columns[i].(cardIds := b.columns[i].cardIds + [id])
    ensures forall i :: 0 <= i < |b.columns| && b.columns[i].id != columnId ==> r.columns[i] == b.columns[i]
  {
    Board(MapMatching(b.columns, columnId, (c: Column) => c.(cardIds := c.cardIds + [id])),
          b.cards[id := Card(id, title, DetailsOrPlaceholder(details))])
  }

  /**
   * When exactly the column at k has the id `columnId`, adding a card lists its
   * id once more and changes no other count.
   */
  lemma AddCardListed(b: Board, columnId: Id, id: Id, title: string, details: string, k: nat)
    requires UniqueColumnIds(b.columns)
    requires k < |b.columns| && b.columns[k].id == columnId
    ensures Listed(AddCard(b, columnId, id, title, details).columns) == Listed(b.columns) + multiset{id}
  {
    var r := AddCard(b, columnId, id, title, details);
    ListedReplaceOne(b.columns, r.columns, k);
    var before := multiset(b.columns[k].cardIds);
    assert multiset(r.columns[k].cardIds) == before + multiset{id};
    forall x ensures Listed(r.columns)[x] == (Listed(b.columns) + multiset{id})[x] {
      assert (Listed(r.columns) + before)[x] == (Listed(b.columns) + (before + multiset{id}))[x];
    }
  }

  /** Adding a card with a fresh id to an existing column keeps the board invariant. */
  lemma AddCardKeepsValid(b: Board, columnId: Id, id: Id, title: string, details: string)
    requires Valid(b) && id !in b.cards
    requires exists i :: 0 <= i < |b.columns| && b.columns[i].id == columnId
    ensures Valid(AddCard(b, columnId, id, title, details))
  {
    var r := AddCard(b, columnId, id, title, details);
    assert UniqueColumnIds(r.columns);
    assert WellKeyed(r.cards);
    var k :| 0 <= k < |b.columns| && b.columns[k].id == columnId;
    AddCardListed(b, columnId, id, title, details, k);
    assert multiset(r.cards.Keys) == multiset(b.cards.Keys) + multiset{id};
  }

  /**
   * Adding a card under an unknown column id, with an id no column lists,
   * makes it an orphan: stored in `cards`, listed by no column.
   */
  lemma AddCardOrphan(b: Board, columnId: Id, id: Id, title: string, details: string)
    requires forall i :: 0 <= i < |b.columns| ==> b.columns[i].id != columnId
    requires id !in Listed(b.columns)
    ensures id in AddCard(b, columnId, id, title, details).cards
    ensures id !in Listed(AddCard(b, columnId, id, title, details).columns)
  {
    ListedSameCardIds(b.columns, AddCard(b, columnId, id, title, details).columns);
  }

  /**
   * Adding a card with a fresh id to a valid board gives a valid board exactly
   * when some column has the id `columnId`; otherwise the new card is an orphan:
   * stored in `cards` and listed by no column.
   */
  lemma AddCardValidity(b: Board, columnId: Id, id: Id, title: string, details: string)
    requires Valid(b) && id !in b.cards
    ensures Valid(AddCard(b, columnId, id, title, details)) <==>
              exists i :: 0 <= i < |b.columns| && b.columns[i].id == columnId
    ensures (forall i :: 0 <= i < |b.columns| ==> b.columns[i].id != columnId) ==>
              id in AddCard(b, columnId, id, title, details).cards &&
              id !in Listed(AddCard(b, columnId, id, title, details).columns)
  {
    assert Listed(b.columns)[id] == 0;
    if exists i :: 0 <= i < |b.columns| && b.columns[i].id == columnId {
      AddCardKeepsValid(b, columnId, id, title, details);
    } else {
      var r := AddCard(b, columnId, id, title, details);
      AddCardOrphan(b, columnId, id, title, details);
      assert multiset(r.cards.Keys)[id] == 1;
    }
  }

  // ---------------------------------------------------------------------------
  // Delete a card
  // ---------------------------------------------------------------------------

  /**
   * handleDeleteCard: drop the key `cardId` from `cards` and filter `cardId`
   * out of every column whose id is `columnId`; other columns keep their lists.
   */
  function DeleteCard(b: Board, columnId: Id, cardId: Id): (r: Board)
    ensures r.cards.Keys == b.cards.Keys - {cardId}
    ensures forall k :: k in r.cards ==> r.cards[k] == b.cards[k]
    ensures SameColumnOrder(b.columns, r.columns)
    ensures forall i :: 0 <= i < |b.columns| && b.columns[i].id == columnId ==>
              r.columns[i] == b.columns[i].(cardIds := RemoveAll(b.columns[i].cardIds, cardId))
    ensures forall i :: 0 <= i < |b.columns| && b.columns[i].id != columnId ==> r.columns[i] == b.columns[i]
  {
    Board(MapMatching(b.columns, columnId, (c: Column) => c.(cardIds := RemoveAll(c.cardIds, cardId))),
          b.cards - {cardId})
  }

  /**
   * When exactly the column at k has the id `columnId`, deleting a card lowers
   * the count of its id by the number of times that column listed it and
   * changes no other count.
   */
  lemma DeleteCardListed(b: Board, columnId: Id, cardId: Id, k: nat)
    requires UniqueColumnIds(b.columns)
    requires k < |b.columns| && b.columns[k].id == columnId
    ensures multiset(b.columns[k].cardIds)[cardId] <= Listed(b.columns)[cardId]
    ensures Listed(DeleteCard(b, columnId, cardId).columns) ==
              Listed(b.columns)[cardId := Listed(b.columns)[cardId] - multiset(b.columns[k].cardIds)[cardId]]
  {
    var r := DeleteCard(b, columnId, cardId);
    ListedOne(b.columns, k);
    ListedReplaceOne(b.columns, r.columns, k);
    RemoveAllCounts(b.columns[k].cardIds, cardId);
    var before := multiset(b.columns[k].cardIds);
    forall y ensures Listed(r.columns)[y] + before[y] == Listed(b.columns)[y] + before[cardId := 0][y] {
      assert (Listed(r.columns) + before)[y] == (Listed(b.columns) + before[cardId := 0])[y];
    }
  }

  /** Dropping a key from a set drops its count, and only its, to zero. */
  lemma KeysWithout(keys: set<Id>, x: Id)
    ensures multiset(keys - {x}) == multiset(keys)[x := 0]
  {
  }

  /**
   * Deleting a card that is absent, or listed by the named column, keeps the
   * board invariant.
   */
  lemma DeleteCardKeepsValid(b: Board, columnId: Id, cardId: Id)
    requires Valid(b)
    requires cardId !in b.cards ||
             exists i :: 0 <= i < |b.columns| && b.columns[i].id == columnId && cardId in b.columns[i].cardIds
    ensures Valid(DeleteCard(b, columnId, cardId))
  {
    var r := DeleteCard(b, columnId, cardId);
    var listed := Listed(b.columns);
    KeysWithout(b.cards.Keys, cardId);
    assert r.cards.Keys == b.cards.Keys - {cardId};
    assert multiset(r.cards.Keys) == listed[cardId := 0];
    if cardId !in b.cards {
      assert listed[cardId] == 0;
      if exists i :: 0 <= i < |b.columns| && b.columns[i].id == columnId {
        var k :| 0 <= k < |b.columns| && b.columns[k].id == columnId;
        DeleteCardListed(b, columnId, cardId, k);
      } else {
        ListedSameCardIds(b.columns, r.columns);
      }
      assert listed[cardId := 0] == listed;
    } else {
      var k :| 0 <= k < |b.columns| && b.columns[k].id == columnId && cardId in b.columns[k].cardIds;
      DeleteCardListed(b, columnId, cardId, k);
      assert multiset(b.columns[k].cardIds)[cardId] >= 1;
      assert listed[cardId] == 1;
    }
  }

  /**
   * Deleting a card that the named column does not list leaves its id
   * dangling: still listed by another column, no longer in `cards`.
   */
  lemma DeleteCardDangles(b: Board, columnId: Id, cardId: Id)
    requires Valid(b) && cardId in b.cards
    requires forall i :: 0 <= i < |b.columns| && b.columns[i].id == columnId ==> cardId !in b.columns[i].cardIds
    ensures cardId in Listed(DeleteCard(b, columnId, cardId).columns)
    ensures cardId !in DeleteCard(b, columnId, cardId).cards
  {
    var r := DeleteCard(b, columnId, cardId);
    if exists i :: 0 <= i < |b.columns| && b.columns[i].id == columnId {
      var k :| 0 <= k < |b.columns| && b.columns[k].id == columnId;
      DeleteCardListed(b, columnId, cardId, k);
    } else {
      ListedSameCardIds(b.columns, r.columns);
    }
    assert Listed(r.columns)[cardId] == 1;
  }

  /**
   * Deleting from a valid board gives a valid board exactly when the card is
   * absent or listed by the named column.
   */
  lemma DeleteCardValidity(b: Board, columnId: Id, cardId: Id)
    requires Valid(b)
    ensures Valid(DeleteCard(b, columnId, cardId)) <==>
              (cardId !in b.cards ||
               exists i :: 0 <= i < |b.columns| && b.columns[i].id == columnId && cardId in b.columns[i].cardIds)
  {
    if cardId !in b.cards ||
       exists i :: 0 <= i < |b.columns| && b.columns[i].id == columnId && cardId in b.columns[i].cardIds {
      DeleteCardKeepsValid(b, columnId, cardId);
    } else {
      DeleteCardDangles(b, columnId, cardId);
    }
  }

  /** Deleting a card that is not on a valid board is a no-op. */
  lemma DeleteAbsentCardIsNoop(b: Board, columnId: Id, cardId: Id)
    requires Valid(b) && cardId !in b.cards
    ensures DeleteCard(b, columnId, cardId) == b
  {
    var r := DeleteCard(b, columnId, cardId);
    ValidMeansIntegrity(b);
    forall i | 0 <= i < |b.columns| ensures r.columns[i] == b.columns[i] {
      if b.columns[i].id == columnId {
        RemoveAllAbsent(b.columns[i].cardIds, cardId);
      }
    }
    assert r.columns == b.columns;
  }

  /** Deleting the same card from the same column twice is the same as once. */
  lemma DeleteCardIdempotent(b: Board, columnId: Id, cardId: Id)
    ensures DeleteCard(DeleteCard(b, columnId, cardId), columnId, cardId) == DeleteCard(b, columnId, cardId)
  {
    var once := DeleteCard(b, columnId, cardId);
    var twice := DeleteCard(once, columnId, cardId);
    forall i | 0 <= i < |b.columns| ensures twice.columns[i] == once.columns[i] {
      if b.columns[i].id == columnId {
        RemoveAllAbsent(once.columns[i].cardIds, cardId);
      }
    }
    assert twice.columns == once.columns;
  }

  /**
   * Adding a card under an id the board does not use and then deleting that id
   * from the same column gives back the original board.
   */
  lemma AddThenDeleteRestores(b: Board, columnId: Id, id: Id, title: string, details: string)
    requires id !in b.cards
    requires forall i :: 0 <= i < |b.columns| ==> id !in b.columns[i].cardIds
    ensures DeleteCard(AddCard(b, columnId, id, title, details), columnId, id) == b
  {
    var added := AddCard(b, columnId, id, title, details);
    var r := DeleteCard(added, columnId, id);
    forall i | 0 <= i < |b.columns| ensures r.columns[i] == b.columns[i] {
      if b.columns[i].id == columnId {
        RemoveAllAppended(b.columns[i].cardIds, id);
        RemoveAllAbsent(b.columns[i].cardIds, id);
      }
    }
    assert r.columns == b.columns;
    assert r.cards == b.cards;
  }

  // ---------------------------------------------------------------------------
  // Drag end
  // ---------------------------------------------------------------------------

  /**
   * handleDragEnd's board change: nothing when there is no drop target or the
   * card was dropped on itself; otherwise the columns become what `moveCard`
   * computes and the cards map stays as it is. `moveCard`'s body is not part of
   * this model: it is a parameter.
   */
  function DragEnd(b: Board, activeId: Id, overId: Option<Id>,
                   moveCard: (seq<Column>, Id, Id) -> seq<Column>): (r: Board)
    ensures overId == None || overId == Some(activeId) ==> r == b
    ensures overId.Some? && overId.value != activeId ==>
              r.columns == moveCard(b.columns, activeId, overId.value)
    ensures r.cards == b.cards
  {
    match overId
    case None => b
    case Some(over) => if activeId == over then b else b.(columns := moveCard(b.columns, activeId, over))
  }

  /**
   * The drag end keeps the board invariant whenever `moveCard` keeps column ids
   * distinct and lists the same ids as before.
   */
  lemma DragEndKeepsValid(b: Board, activeId: Id, overId: Option<Id>,
                          moveCard: (seq<Column>, Id, Id) -> seq<Column>)
    requires Valid(b)
    requires overId.Some? ==> UniqueColumnIds(moveCard(b.columns, activeId, overId.value))
    requires overId.Some? ==> Listed(moveCard(b.columns, activeId, overId.value)) == Listed(b.columns)
    ensures Valid(DragEnd(b, activeId, overId, moveCard))
  {
  }

  // ---------------------------------------------------------------------------
  // Rendering lookup
  // ---------------------------------------------------------------------------

  /** `column.cardIds.map(cardId => board.cards[cardId])`, None for a missing key. */
  function ColumnCards(b: Board, column: Column): (r: seq<Option<Card>>)
    ensures |r| == |column.cardIds|
    ensures forall j :: 0 <= j < |r| ==> (r[j].Some? <==> column.cardIds[j] in b.cards)
    ensures forall j :: 0 <= j < |r| && r[j].Some? ==> r[j].value == b.cards[column.cardIds[j]]
  {
    seq(|column.cardIds|, j requires 0 <= j < |column.cardIds| =>
      if column.cardIds[j] in b.cards then Some(b.cards[column.cardIds[j]]) else None)
  }

  /** On a valid board every column renders a card for every id it lists, in order. */
  lemma ValidRendersEveryCard(b: Board, i: nat)
    requires Valid(b) && i < |b.columns|
    ensures forall j :: 0 <= j < |b.columns[i].cardIds| ==>
              ColumnCards(b, b.columns[i])[j].Some? &&
              ColumnCards(b, b.columns[i])[j].value.id == b.columns[i].cardIds[j]
  {
    ValidMeansIntegrity(b);
  }
}
