/**
 * The board's data shapes: cards, columns and the board that holds them as a
 * normalised store (ordered columns listing card ids, plus a map from card id
 * to card), and the referential-integrity invariant the board must keep.
 */
module BoardModel {

  type Id = string

  datatype Card = Card(id: Id, title: string, details: string)

  /** A column lists the ids of its cards, top to bottom. */
  datatype Column = Column(id: Id, title: string, cardIds: seq<Id>)

  datatype Board = Board(columns: seq<Column>, cards: map<Id, Card>)

  /** Every card id listed by the columns, counted as often as it is listed. */
  function Listed(cols: seq<Column>): (r: multiset<Id>)
  {
    if cols == [] then multiset{} else multiset(cols[0].cardIds) + Listed(cols[1..])
  }

  /** No two columns share an id. */
  predicate UniqueColumnIds(cols: seq<Column>)
  {
    forall i, j :: 0 <= i < j < |cols| ==> cols[i].id != cols[j].id
  }

  /** The card stored under a key carries that key as its id. */
  predicate WellKeyed(cards: map<Id, Card>)
  {
    forall k :: k in cards ==> cards[k].id == k
  }

  /**
   * The board invariant. `Listed(columns) == multiset(cards.Keys)` says at once
   * that every listed id is a key of `cards` (no dangling id), that every key is
   * listed (no orphan card), and that no id is listed twice, whether in one
   * column or in two.
   */
  predicate Valid(b: Board)
  {
    && UniqueColumnIds(b.columns)
    && Listed(b.columns) == multiset(b.cards.Keys)
    && WellKeyed(b.cards)
  }

  /** Two column sequences have the same length and the same ids in the same order. */
  predicate SameColumnOrder(a: seq<Column>, b: seq<Column>)
  {
    |a| == |b| && forall i :: 0 <= i < |a| ==> a[i].id == b[i].id
  }

  // ---------------------------------------------------------------------------
  // Facts about Listed
  // ---------------------------------------------------------------------------

  /** Columns that list the same ids position by position list the same multiset. */
  lemma {:induction false} ListedSameCardIds(a: seq<Column>, b: seq<Column>)
    requires |a| == |b|
    requires forall i :: 0 <= i < |a| ==> a[i].cardIds == b[i].cardIds
    ensures Listed(a) == Listed(b)
  {
    if a != [] {
      ListedSameCardIds(a[1..], b[1..]);
    }
  }

  /**
   * Replacing the card-id list of column k alone changes Listed by exactly the
   * difference between the old and the new list.
   */
  lemma {:induction false} ListedReplaceOne(a: seq<Column>, b: seq<Column>, k: nat)
    requires |a| == |b| && k < |a|
    requires forall i :: 0 <= i < |a| && i != k ==> a[i].cardIds == b[i].cardIds
    ensures Listed(b) + multiset(a[k].cardIds) == Listed(a) + multiset(b[k].cardIds)
  {
    var ra, rb := Listed(a[1..]), Listed(b[1..]);
    var ma, mb := multiset(a[0].cardIds), multiset(b[0].cardIds);
    var mak, mbk := multiset(a[k].cardIds), multiset(b[k].cardIds);
    if k == 0 {
      ListedSameCardIds(a[1..], b[1..]);
    } else {
      ListedReplaceOne(a[1..], b[1..], k - 1);
      assert a[1..][k - 1] == a[k] && b[1..][k - 1] == b[k];
      assert rb + mak == ra + mbk;
      assert ma == mb;
    }
    forall x ensures (mb + rb + mak)[x] == (ma + ra + mbk)[x] {
      if k != 0 {
        assert (rb + mak)[x] == (ra + mbk)[x];
      }
    }
    assert mb + rb + mak == ma + ra + mbk;
  }

  /** An id is listed exactly when some column lists it. */
  lemma {:induction false} ListedMember(cols: seq<Column>, x: Id)
    ensures x in Listed(cols) <==> exists i :: 0 <= i < |cols| && x in cols[i].cardIds
  {
    if cols != [] {
      ListedMember(cols[1..], x);
      if x in Listed(cols[1..]) {
        var i :| 0 <= i < |cols[1..]| && x in cols[1..][i].cardIds;
        assert x in cols[i + 1].cardIds;
      }
      if exists i :: 0 <= i < |cols| && x in cols[i].cardIds {
        var i :| 0 <= i < |cols| && x in cols[i].cardIds;
        if i > 0 {
          assert x in cols[1..][i - 1].cardIds;
        }
      }
    }
  }

  /** Column i's list, and column j's beside it, are both counted in Listed. */
  lemma {:induction false} ListedTwo(cols: seq<Column>, i: nat, j: nat)
    requires i < j < |cols|
    ensures multiset(cols[i].cardIds) + multiset(cols[j].cardIds) <= Listed(cols)
  {
    if i == 0 {
      ListedOne(cols[1..], j - 1);
    } else {
      ListedTwo(cols[1..], i - 1, j - 1);
    }
  }

  /** Column i's list is counted in Listed. */
  lemma {:induction false} ListedOne(cols: seq<Column>, i: nat)
    requires i < |cols|
    ensures multiset(cols[i].cardIds) <= Listed(cols)
  {
    if i > 0 {
      ListedOne(cols[1..], i - 1);
    }
  }

  /**
   * The board invariant, spelled out: no dangling id, no duplicate within a
   * column, no id in two columns, and no orphan card.
   */
  lemma ValidMeansIntegrity(b: Board)
    requires Valid(b)
    ensures forall i, x :: 0 <= i < |b.columns| && x in b.columns[i].cardIds ==> x in b.cards
    ensures forall i, x :: 0 <= i < |b.columns| ==> multiset(b.columns[i].cardIds)[x] <= 1
    ensures forall i, j, x :: 0 <= i < j < |b.columns| && x in b.columns[i].cardIds ==> x !in b.columns[j].cardIds
    ensures forall x :: x in b.cards ==> exists i :: 0 <= i < |b.columns| && x in b.columns[i].cardIds
  {
    forall i, x | 0 <= i < |b.columns|
      ensures multiset(b.columns[i].cardIds)[x] <= 1
    {
      ListedOne(b.columns, i);
      assert multiset(b.columns[i].cardIds)[x] <= Listed(b.columns)[x] == multiset(b.cards.Keys)[x];
    }
    forall i, x | 0 <= i < |b.columns| && x in b.columns[i].cardIds
      ensures x in b.cards
    {
      ListedOne(b.columns, i);
      assert multiset(b.columns[i].cardIds)[x] <= Listed(b.columns)[x] == multiset(b.cards.Keys)[x];
    }
    forall i, j, x | 0 <= i < j < |b.columns| && x in b.columns[i].cardIds
      ensures x !in b.columns[j].cardIds
    {
      ListedTwo(b.columns, i, j);
      var m := multiset(b.columns[i].cardIds) + multiset(b.columns[j].cardIds);
      assert m[x] <= Listed(b.columns)[x] == multiset(b.cards.Keys)[x] <= 1;
    }
    forall x | x in b.cards
      ensures exists i :: 0 <= i < |b.columns| && x in b.columns[i].cardIds
    {
      ListedMember(b.columns, x);
    }
  }

  /**
   * An id that no column lists twice, and that no two columns both list, is
   * counted at most once in Listed.
   */
  lemma {:induction false} ListedAtMostOne(cols: seq<Column>, x: Id)
    requires forall i :: 0 <= i < |cols| ==> multiset(cols[i].cardIds)[x] <= 1
    requires forall i, j :: 0 <= i < j < |cols| && x in cols[i].cardIds ==> x !in cols[j].cardIds
    ensures Listed(cols)[x] <= 1
  {
    if cols != [] {
      var tail := cols[1..];
      forall i, j | 0 <= i < j < |tail| && x in tail[i].cardIds
        ensures x !in tail[j].cardIds
      {
        assert tail[i] == cols[i + 1] && tail[j] == cols[j + 1];
      }
      ListedAtMostOne(tail, x);
      if x in cols[0].cardIds {
        ListedMember(tail, x);
        if x in Listed(tail) {
          var j :| 0 <= j < |tail| && x in tail[j].cardIds;
          assert tail[j] == cols[j + 1];
        }
      }
    }
  }

  /**
   * The converse of ValidMeansIntegrity: a board whose column ids are distinct,
   * whose cards are stored under their own ids, and which has no dangling id,
   * no duplicate in a column, no id in two columns and no orphan card is valid.
   */
  lemma IntegrityMeansValid(b: Board)
    requires UniqueColumnIds(b.columns) && WellKeyed(b.cards)
    requires forall i, x :: 0 <= i < |b.columns| && x in b.columns[i].cardIds ==> x in b.cards
    requires forall i, x :: 0 <= i < |b.columns| ==> multiset(b.columns[i].cardIds)[x] <= 1
    requires forall i, j, x :: 0 <= i < j < |b.columns| && x in b.columns[i].cardIds ==> x !in b.columns[j].cardIds
    requires forall x :: x in b.cards ==> exists i :: 0 <= i < |b.columns| && x in b.columns[i].cardIds
    ensures Valid(b)
  {
    forall x ensures Listed(b.columns)[x] == multiset(b.cards.Keys)[x] {
      ListedAtMostOne(b.columns, x);
      ListedMember(b.columns, x);
    }
  }
}
