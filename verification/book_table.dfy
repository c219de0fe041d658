/**
 The query `checkInventory` sends to the `books` table, evaluated against a
 snapshot of the table: the key condition `bookId = :bookId` selects the
 records with the requested id, and the handler inspects the first of them.
 */
module BookTable {
  import opened Outcomes
  import opened Inventory

  /** Some record of the snapshot carries the requested id. */
  predicate Listed(table: seq<Book>, bookId: string) {
    exists b :: b in table && b.bookId == bookId
  }

  /** `index` is the position of the first record carrying the requested id. */
  predicate FirstListedAt(table: seq<Book>, bookId: string, index: nat) {
    && index < |table|
    && table[index].bookId == bookId
    && forall j :: 0 <= j < index ==> table[j].bookId != bookId
  }

  /**
   The items the query returns: the records with the requested id, each as
   often as the snapshot holds it. Which of them comes first is stated by
   `QueryHeadIsFirstListed`.
   */
  function Query(table: seq<Book>, bookId: string): (items: seq<Book>)
    ensures |items| <= |table|
    ensures forall b :: b in items <==> b in table && b.bookId == bookId
    ensures forall b :: multiset(items)[b] == (if b.bookId == bookId then multiset(table)[b] else 0)
    decreases |table|
  {
    if table == [] then []
    else
      assert table == [table[0]] + table[1..];
      var rest := Query(table[1..], bookId);
      if table[0].bookId == bookId then [table[0]] + rest else rest
  }

  /** The query comes back empty exactly when no record carries the id. */
  lemma QueryEmptyIffUnlisted(table: seq<Book>, bookId: string)
    ensures Query(table, bookId) == [] <==> !Listed(table, bookId)
  {
  }

  /** The first item the query returns is the first listed record of the snapshot. */
  lemma {:induction false} QueryHeadIsFirstListed(table: seq<Book>, bookId: string, index: nat)
    requires FirstListedAt(table, bookId, index)
    ensures Query(table, bookId) != [] && Query(table, bookId)[0] == table[index]
    decreases index
  {
    if index > 0 {
      assert table[0].bookId != bookId;
      assert FirstListedAt(table[1..], bookId, index - 1) by {
        forall j | 0 <= j < index - 1
          ensures table[1..][j].bookId != bookId
        {
          assert table[1..][j] == table[j + 1];
        }
      }
      QueryHeadIsFirstListed(table[1..], bookId, index - 1);
    }
  }

  /**
   Computes `Items[0]` of the query: scans the snapshot for the first record
   with the requested id.
   */
  method FindFirstListed(table: seq<Book>, bookId: string) returns (found: bool, index: nat)
    ensures found ==> FirstListedAt(table, bookId, index)
    ensures !found <==> !Listed(table, bookId)
  {
    index := 0;
    while index < |table|
      invariant index <= |table|
      invariant forall j :: 0 <= j < index ==> table[j].bookId != bookId
    {
      if table[index].bookId == bookId {
        return true, index;
      }
      index := index + 1;
    }
    return false, index;
  }

  /**
   `checkInventory` against a table snapshot: the outcome of the handler on
   the items the key condition selects.
   */
  method CheckStock(table: seq<Book>, bookId: string, quantity: int)
    returns (r: Result<Book, InventoryError>)
    ensures r == CheckInventory(Items(Query(table, bookId)), quantity)
    ensures r.Ok? ==> r.value in table && r.value.bookId == bookId && r.value.quantity > quantity
    ensures r == Err(BookNotFound) <==> !Listed(table, bookId)
    ensures r == Err(BookOutOfStock) ==>
      exists index: nat :: FirstListedAt(table, bookId, index) && table[index].quantity <= quantity
  {
    QueryEmptyIffUnlisted(table, bookId);
    var found, index := FindFirstListed(table, bookId);
    if !found {
      r := Err(BookNotFound);
    } else {
      QueryHeadIsFirstListed(table, bookId, index);
      var book := table[index];
      if IsBookAvailable(book, quantity) {
        r := Ok(book);
      } else {
        r := Err(BookOutOfStock);
      }
    }
  }
}
