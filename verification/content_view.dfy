/** The two computations of `receipt-scanner/ContentView.swift` that are
    not layout: the search over the receipt list, and the one-line
    preview of a receipt's items shown in each row. */
module ContentView {
  import opened Text
  import opened Models

  // ---------------------------------------------------------------------
  // Search
  // ---------------------------------------------------------------------

  /** Whether some item's name, lowercased, contains `query`
      (`items.contains(where:)`). */
  predicate SomeItemNamed(items: seq<ReceiptItem>, query: string) {
    exists k :: 0 <= k < |items| && Contains(Lowercased(items[k].name), query)
  }

  /** The test `filteredReceipts` applies to each receipt, `query` being
      the search text already lowercased: the lowercased store name, some
      lowercased item name, or the date as written contains it. */
  predicate Matches(r: Receipt, query: string) {
    Contains(Lowercased(r.store), query) || SomeItemNamed(r.items, query) || Contains(r.date, query)
  }

  /** The receipts of `rs` that match `query`, in their order. */
  function Filter(rs: seq<Receipt>, query: string): (kept: seq<Receipt>)
    ensures |kept| <= |rs|
    ensures forall k :: 0 <= k < |kept| ==> Matches(kept[k], query)
    decreases |rs|
  {
    if rs == [] then []
    else
      var n := |rs| - 1;
      Filter(rs[..n], query) + (if Matches(rs[n], query) then [rs[n]] else [])
  }

  /** `filteredReceipts`: everything while the search text is empty,
      otherwise the receipts matching the lowercased search text. */
  function FilteredReceipts(receipts: seq<Receipt>, searchText: string): (shown: seq<Receipt>)
    ensures searchText == [] ==> shown == receipts
    ensures searchText != [] ==> forall k :: 0 <= k < |shown| ==> Matches(shown[k], Lowercased(searchText))
  {
    if searchText == [] then receipts else Filter(receipts, Lowercased(searchText))
  }

  /** A receipt is shown exactly when it is in the list and matches. */
  lemma {:induction false} FilterMembership(rs: seq<Receipt>, query: string, r: Receipt)
    ensures r in Filter(rs, query) <==> r in rs && Matches(r, query)
    decreases |rs|
  {
    if rs != [] {
      var n := |rs| - 1;
      FilterMembership(rs[..n], query, r);
      assert rs == rs[..n] + [rs[n]];
    }
  }

  /** Filtering works on each part of the list on its own, so the shown
      receipts keep the list's order. */
  lemma {:induction false} FilterAppend(a: seq<Receipt>, b: seq<Receipt>, query: string)
    ensures Filter(a + b, query) == Filter(a, query) + Filter(b, query)
    decreases |b|
  {
    if b == [] {
      assert a + b == a;
    } else {
      var n := |b| - 1;
      var last := if Matches(b[n], query) then [b[n]] else [];
      assert (a + b)[..|a| + n] == a + b[..n];
      assert (a + b)[|a| + n] == b[n];
      assert Filter(a + b, query) == Filter(a + b[..n], query) + last;
      FilterAppend(a, b[..n], query);
    }
  }

  /** Searching the search result again changes nothing. */
  lemma {:induction false} FilterIdempotent(rs: seq<Receipt>, query: string)
    ensures Filter(Filter(rs, query), query) == Filter(rs, query)
    decreases |rs|
  {
    if rs != [] {
      var n := |rs| - 1;
      var last := if Matches(rs[n], query) then [rs[n]] else [];
      FilterIdempotent(rs[..n], query);
      FilterAppend(Filter(rs[..n], query), last, query);
      assert Filter(last, query) == last by {
        if last != [] {
          assert last[..0] == [];
        }
      }
    }
  }

  /** Case mapping commutes with taking a slice. */
  lemma LowercasedSlice(s: string, i: int, j: int)
    requires 0 <= i <= j <= |s|
    ensures Lowercased(s)[i..j] == Lowercased(s[i..j])
  {
  }

  /** Text that contains the search text contains it in lower case once
      both are lowercased: the search ignores case in store and item
      names. */
  lemma {:induction false} ContainsLowercased(s: string, sub: string)
    requires Contains(s, sub)
    ensures Contains(Lowercased(s), Lowercased(sub))
    decreases |s|
  {
    if StartsWith(s, sub) {
      LowercasedSlice(s, 0, |sub|);
    } else {
      ContainsLowercased(s[1..], sub);
      LowercasedSlice(s, 1, |s|);
      assert Lowercased(s)[1..] == Lowercased(s[1..]);
    }
  }

  /** A receipt whose store name holds the search text, in any mix of
      cases (`t` is the text as it appears in the store name), is shown. */
  lemma StoreSearchIgnoresCase(receipts: seq<Receipt>, searchText: string, r: Receipt, t: string)
    requires r in receipts && Contains(r.store, t) && Lowercased(t) == Lowercased(searchText)
    ensures r in FilteredReceipts(receipts, searchText)
  {
    if searchText != [] {
      ContainsLowercased(r.store, t);
      FilterMembership(receipts, Lowercased(searchText), r);
    }
  }

  // ---------------------------------------------------------------------
  // Items preview
  // ---------------------------------------------------------------------

  /** The names of `items`, in order. */
  function Names(items: seq<ReceiptItem>): (names: seq<string>)
    ensures |names| == |items|
    ensures forall k :: 0 <= k < |items| ==> names[k] == items[k].name
  {
    seq(|items|, k requires 0 <= k < |items| => items[k].name)
  }

  /** `ReceiptRow.itemsPreview`: the names of the first two items, joined
      with `", "`, then `", and N more"` when `N` items are left over. */
  function ItemsPreview(items: seq<ReceiptItem>): (preview: string)
  {
    var shown := if |items| < 2 then |items| else 2;
    var names := Join(Names(items[..shown]), ", ");
    if |items| > shown then names + ", and " + NatToString(|items| - shown) + " more" else names
  }

  /** The preview names no item at all for an empty receipt, the one item
      of a single-item receipt, both items of a two-item receipt, and the
      first two items of a longer receipt followed by the number of items
      left out, written in decimal without a leading zero. */
  lemma ItemsPreviewCases(items: seq<ReceiptItem>)
    ensures |items| == 0 ==> ItemsPreview(items) == []
    ensures |items| == 1 ==> ItemsPreview(items) == items[0].name
    ensures |items| == 2 ==> ItemsPreview(items) == items[0].name + ", " + items[1].name
    ensures |items| > 2 ==> exists count: string ::
      ItemsPreview(items) == items[0].name + ", " + items[1].name + ", and " + count + " more"
      && |count| >= 1 && (forall i :: 0 <= i < |count| ==> IsDigit(count[i]))
      && DecimalValue(count) == |items| - 2 && count[0] != '0'
  {
    if |items| >= 2 {
      var names := Names(items[..2]);
      assert names[1..] == [items[1].name];
      assert Join(names, ", ") == items[0].name + ", " + items[1].name;
      if |items| > 2 {
        var count := NatToString(|items| - 2);
        DecimalRoundTrip(|items| - 2);
        NoLeadingZero(|items| - 2);
        assert ItemsPreview(items) == items[0].name + ", " + items[1].name + ", and " + count + " more";
      }
    } else if |items| == 1 {
      assert Names(items[..1]) == [items[0].name];
    }
  }
}
