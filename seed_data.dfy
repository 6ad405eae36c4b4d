/**
 * The board the backend stores when its database is first created: five
 * columns, eight cards. It shows that the board invariant can be met.
 */
module SeedData {
  import opened BoardModel

  const SeedColumns: seq<Column> := [
    Column("col-backlog", "Backlog", ["card-1", "card-2"]),
    Column("col-discovery", "Discovery", ["card-3"]),
    Column("col-progress", "In Progress", ["card-4", "card-5"]),
    Column("col-review", "Review", ["card-6"]),
    Column("col-done", "Done", ["card-7", "card-8"])
  ]

  const SeedCards: map<Id, Card> := map[
    "card-1" := Card("card-1", "Align roadmap themes", "Draft quarterly themes with impact statements and metrics."),
    "card-2" := Card("card-2", "Gather customer signals", "Review support tags, sales notes, and churn feedback."),
    "card-3" := Card("card-3", "Prototype analytics view", "Sketch initial dashboard layout and key drill-downs."),
    "card-4" := Card("card-4", "Refine status language", "Standardize column labels and tone across the board."),
    "card-5" := Card("card-5", "Design card layout", "Add hierarchy and spacing for scanning dense lists."),
    "card-6" := Card("card-6", "QA micro-interactions", "Verify hover, focus, and loading states."),
    "card-7" := Card("card-7", "Ship marketing page", "Final copy approved and asset pack delivered."),
    "card-8" := Card("card-8", "Close onboarding sprint", "Document release notes and share internally.")
  ]

  const SeedBoard := Board(SeedColumns, SeedCards)

  /** The seed columns list each of the eight seed card ids once. */
  lemma SeedListed()
    ensures Listed(SeedColumns) ==
              multiset{"card-1", "card-2", "card-3", "card-4", "card-5", "card-6", "card-7", "card-8"}
  {
  }

  /** The seed cards are stored under their own ids, one key per seed card id. */
  lemma SeedKeys()
    ensures WellKeyed(SeedCards)
    ensures multiset(SeedCards.Keys) ==
              multiset{"card-1", "card-2", "card-3", "card-4", "card-5", "card-6", "card-7", "card-8"}
  {
  }

  /** The five seed columns have distinct ids. */
  lemma SeedColumnIdsUnique()
    ensures UniqueColumnIds(SeedColumns)
  {
  }

  /** The seed board satisfies the board invariant and has five columns. */
  lemma SeedBoardValid()
    ensures Valid(SeedBoard) && |SeedBoard.columns| == 5
  {
    SeedListed();
    SeedKeys();
    SeedColumnIdsUnique();
  }
}
