/**
 * The board the component's tests load (five empty columns) and the
 * add-then-delete sequence they perform on its first column, for any title
 * and details.
 */
module BoardScenarios {
  import opened BoardModel
  import opened BoardOps

  const EmptyFiveColumns := Board([
    Column("col-backlog", "Backlog", []),
    Column("col-discovery", "Discovery", []),
    Column("col-progress", "In Progress", []),
    Column("col-review", "Review", []),
    Column("col-done", "Done", [])
  ], map[])

  /**
   * Adding a card to the first column of the empty board gives a valid board
   * whose first column lists just that card, stored with its title and its
   * details (the placeholder when they are empty); deleting it again gives back
   * the empty board.
   */
  lemma AddThenDeleteOnEmptyBoard(id: Id, title: string, details: string)
    ensures var added := AddCard(EmptyFiveColumns, "col-backlog", id, title, details);
      && Valid(added)
      && added.columns[0].cardIds == [id]
      && added.cards[id] == Card(id, title, DetailsOrPlaceholder(details))
      && (details == "" ==> added.cards[id].details == NoDetailsPlaceholder)
      && DeleteCard(added, "col-backlog", id) == EmptyFiveColumns
  {
    var b := EmptyFiveColumns;
    assert Listed(b.columns[4..]) == multiset{};
    assert Listed(b.columns[3..]) == multiset{};
    assert Listed(b.columns[2..]) == multiset{};
    assert Listed(b.columns[1..]) == multiset{};
    assert Listed(b.columns) == multiset{};
    assert Valid(b);
    AddCardValidity(b, "col-backlog", id, title, details);
    AddThenDeleteRestores(b, "col-backlog", id, title, details);
  }
}
