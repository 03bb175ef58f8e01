/**
 * The selection state of the cart page: which cart lines the shopper has
 * ticked for ordering. An entry is a cart line; entries are told apart by
 * the id of their book.
 */
module CartPage {
  import opened Common

  /** Some selected entry is for `book` (`prevSelected.some(...)`). */
  predicate Selected(selected: seq<LineItem>, book: BookId) {
    exists i | 0 <= i < |selected| :: selected[i].book == book
  }

  /**
   * `toggleSelectItem`: an item whose book is already selected unselects
   * every entry for that book; any other item is appended at the end.
   */
  function ToggleSelect(selected: seq<LineItem>, item: LineItem): (r: seq<LineItem>)
    ensures Selected(selected, item.book) ==> !Selected(r, item.book) && |r| < |selected|
    ensures !Selected(selected, item.book) ==> r == selected + [item]
    ensures forall l: LineItem :: l.book != item.book ==> (l in r <==> l in selected)
  {
    if Selected(selected, item.book) then WithoutBook(selected, item.book) else selected + [item]
  }

  /** Filtering out a book no entry has keeps the list as it is. */
  lemma {:induction false} WithoutAbsentBook(items: seq<LineItem>, book: BookId)
    requires !Selected(items, book)
    ensures WithoutBook(items, book) == items
  {
    if items != [] {
      assert !Selected(items[1..], book) by {
        forall i | 0 <= i < |items[1..]| ensures items[1..][i].book != book {
          assert items[1..][i] == items[i + 1];
        }
      }
      WithoutAbsentBook(items[1..], book);
    }
  }

  /** Filtering commutes with appending: an appended entry is dropped or kept on its own. */
  lemma {:induction false} WithoutBookAppend(items: seq<LineItem>, item: LineItem, book: BookId)
    ensures WithoutBook(items + [item], book)
      == WithoutBook(items, book) + (if item.book == book then [] else [item])
  {
    if items == [] {
      assert [item][1..] == [];
    } else {
      assert (items + [item])[1..] == items[1..] + [item];
      WithoutBookAppend(items[1..], item, book);
    }
  }

  /** Filtering the same book twice is filtering it once. */
  lemma {:induction false} WithoutBookTwice(items: seq<LineItem>, book: BookId)
    ensures WithoutBook(WithoutBook(items, book), book) == WithoutBook(items, book)
  {
    var r := WithoutBook(items, book);
    assert !Selected(r, book) by {
      forall i | 0 <= i < |r| ensures r[i].book != book {
        assert r[i] in r;
      }
    }
    WithoutAbsentBook(r, book);
  }

  /** Entries for other books are the same, in the same order, after a toggle. */
  lemma ToggleKeepsOthers(selected: seq<LineItem>, item: LineItem)
    ensures WithoutBook(ToggleSelect(selected, item), item.book) == WithoutBook(selected, item.book)
  {
    if Selected(selected, item.book) {
      WithoutBookTwice(selected, item.book);
    } else {
      WithoutBookAppend(selected, item, item.book);
    }
  }

  /** Toggling an unselected item twice gives back the selection it started from. */
  lemma ToggleTwice(selected: seq<LineItem>, item: LineItem)
    requires !Selected(selected, item.book)
    ensures ToggleSelect(ToggleSelect(selected, item), item) == selected
  {
    var once := selected + [item];
    assert once[|selected|].book == item.book;
    WithoutBookAppend(selected, item, item.book);
    WithoutAbsentBook(selected, item.book);
  }

  /** A toggle never makes two entries share a book. */
  lemma ToggleDistinct(selected: seq<LineItem>, item: LineItem)
    requires DistinctBooks(selected)
    ensures DistinctBooks(ToggleSelect(selected, item))
  {
    if Selected(selected, item.book) {
      WithoutBookDistinct(selected, item.book);
    } else {
      var r := selected + [item];
      forall i, j | 0 <= i < j < |r| ensures r[i].book != r[j].book {
        if j == |selected| {
          assert r[i] == selected[i];
        }
      }
    }
  }

  /** What "Order now" leaves behind: the selection, and the items sent on to the order page, if any. */
  datatype OrderNow = OrderNow(selection: seq<LineItem>, sent: Option<seq<LineItem>>)

  /**
   * `handleOrderNow`: a non-empty selection is sent to the order page and
   * then cleared; an empty one only raises an alert and stays as it is.
   */
  function HandleOrderNow(selected: seq<LineItem>): (r: OrderNow)
    ensures r.sent.Some? <==> selected != []
    ensures r.sent.Some? ==> r.sent.value == selected && r.selection == []
    ensures r.sent.None? ==> r.selection == selected
  {
    if |selected| > 0 then OrderNow([], Some(selected)) else OrderNow(selected, None)
  }
}
