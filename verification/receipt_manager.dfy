/** The persistence layer of `receipt-scanner/ReceiptManager.swift`: the
    receipts file (`receipts.csv`, one header line and one row per saved
    receipt), the digital-items file (`digital_items.csv`, one row per line
    item), reading rows back, the newest-first sort and deletion.

    The two files are modelled as their text: `None` when the file does not
    exist. Opening, writing and synchronising a file are taken to succeed;
    the one failure the model keeps is an unreadable receipts file. */
module ReceiptStorage {
  import opened Text
  import opened Models

  const ReceiptsHeader: string := "id,store,date,time,items,imageFilename\n"
  const DigitalHeader: string := "itemName,itemPrice,store,date,imageFilename\n"

  // ---------------------------------------------------------------------
  // Reading one row back
  // ---------------------------------------------------------------------

  /** The items column: `;`-separated pieces, keeping those that read as
      an item (`compactMap { ReceiptItem(fromCSV: $0) }`). */
  function ItemsFromColumn(pieces: seq<string>): (items: seq<ReceiptItem>)
    ensures |items| <= |pieces|
    decreases |pieces|
  {
    if pieces == [] then []
    else
      var rest := ItemsFromColumn(pieces[1..]);
      match ItemFromCsv(pieces[0])
      case Some(item) => [item] + rest
      case None => rest
  }

  /** A piece gives its item when it reads as one, and nothing otherwise. */
  lemma ItemsFromOnePiece(p: string)
    ensures ItemsFromColumn([p]) == if ItemFromCsv(p).Some? then [ItemFromCsv(p).value] else []
  {
    assert [p][1..] == [];
  }

  /** Pieces are read one by one, in order: the items of a column are the
      items of its first pieces, then those of the others. */
  lemma {:induction false} ItemsFromColumnAppend(a: seq<string>, b: seq<string>)
    ensures ItemsFromColumn(a + b) == ItemsFromColumn(a) + ItemsFromColumn(b)
    decreases |a|
  {
    if a == [] {
      assert a + b == b;
    } else {
      assert (a + b)[0] == a[0];
      assert (a + b)[1..] == a[1..] + b;
      ItemsFromColumnAppend(a[1..], b);
    }
  }

  /** `parseReceiptFromCSV`: at least six comma-separated columns; an id
      that does not parse is replaced by `freshId`, the `UUID()` the
      source draws at random. Columns past the sixth are ignored. */
  function ParseReceiptFromCsv(row: string, freshId: Uuid): (r: Option<Receipt>)
    ensures r.Some? <==> Count(row, ',') >= 5
    ensures r.Some? ==> r.value.id == ParseUuid(Split(row, Char(','))[0]).GetOr(freshId)
    ensures r.Some? ==> var columns := Split(row, Char(','));
      |columns| >= 6 && r.value.store == columns[1] && r.value.date == columns[2] && r.value.time == columns[3]
      && r.value.items == ItemsFromColumn(Split(columns[4], Char(';')))
      && r.value.imageFilename == columns[5]
  {
    var columns := Split(row, Char(','));
    SplitCount(row, ',');
    if |columns| < 6 then None
    else
      var items := ItemsFromColumn(Split(columns[4], Char(';')));
      Some(Receipt(ParseUuid(columns[0]).GetOr(freshId), columns[1], columns[2], columns[3], items, columns[5]))
  }

  /** A field that survives the row format: no comma, no line feed. */
  predicate PlainField(s: string) {
    ',' !in s && '\n' !in s
  }

  /** An item that survives the items column: besides being a plain field,
      no `:` or `;` inside, and no surrounding spaces or tabs. */
  predicate PlainItem(item: ReceiptItem) {
    PlainField(item.name) && PlainField(item.price)
    && ':' !in item.name && ':' !in item.price && ';' !in item.name && ';' !in item.price
    && IsTrimmed(item.name, Whitespaces) && IsTrimmed(item.price, Whitespaces)
  }

  /** A receipt that survives its row. */
  predicate PlainReceipt(r: Receipt) {
    PlainField(r.store) && PlainField(r.date) && PlainField(r.time) && PlainField(r.imageFilename)
    && forall k :: 0 <= k < |r.items| ==> PlainItem(r.items[k])
  }

  /** Trimming ignores one blank put in front of trimmed text. */
  lemma TrimAfterBlank(s: string)
    requires IsTrimmed(s, Whitespaces)
    ensures Trim([' '] + s, Whitespaces) == s
  {
    var t := [' '] + s;
    assert t[1..] == s;
    assert TrimStart(t, Whitespaces) == TrimStart(s, Whitespaces);
    assert TrimStart(s, Whitespaces) == s;
    assert TrimEnd(s, Whitespaces) == s;
  }

  /** An item's representation, with or without the blank that follows a
      `;` in the items column, reads back as the item. */
  lemma ItemFromPaddedCsv(pad: string, item: ReceiptItem)
    requires pad == [] || pad == [' ']
    requires PlainItem(item)
    ensures ItemFromCsv(pad + ItemCsv(item)) == Some(item)
  {
    var name := pad + item.name;
    assert ':' !in name;
    SplitJoin([name, item.price], ':');
    assert Join([name, item.price], ":") == pad + ItemCsv(item);
    if pad == [' '] {
      TrimAfterBlank(item.name);
    } else {
      assert name == item.name;
    }
  }

  /** Each piece behind a blank, as the pieces after the first of a
      column written with `"; "` read once split at `;`. */
  function Blanked(parts: seq<string>): (padded: seq<string>)
    ensures |padded| == |parts|
    ensures forall i :: 0 <= i < |parts| ==> padded[i] == [' '] + parts[i]
  {
    seq(|parts|, i requires 0 <= i < |parts| => [' '] + parts[i])
  }

  /** Splitting a column joined with `"; "` at `;` gives its pieces back,
      every one after the first behind the blank of the separator. */
  lemma {:induction false} SplitBlankJoin(pad: string, parts: seq<string>)
    requires ';' !in pad && |parts| >= 1
    requires forall i :: 0 <= i < |parts| ==> ';' !in parts[i]
    ensures Split(pad + Join(parts, "; "), Char(';')) == [pad + parts[0]] + Blanked(parts[1..])
    decreases |parts|
  {
    var head := pad + parts[0];
    assert NoDelimiter(head, Char(';'));
    SplitNoDelimiter(head, Char(';'));
    if |parts| == 1 {
      assert pad + Join(parts, "; ") == head;
    } else {
      var rest := parts[1..];
      SplitBlankJoin([' '], rest);
      assert pad + Join(parts, "; ") == head + [';'] + ([' '] + Join(rest, "; "));
      SplitAppend(head, ';', [' '] + Join(rest, "; "), Char(';'));
      assert Blanked(rest) == [[' '] + rest[0]] + Blanked(rest[1..]);
    }
  }

  /** Pieces that each read as an item give those items, in order. */
  lemma {:induction false} ItemsFromReadablePieces(pieces: seq<string>, items: seq<ReceiptItem>)
    requires |pieces| == |items|
    requires forall i :: 0 <= i < |pieces| ==> ItemFromCsv(pieces[i]) == Some(items[i])
    ensures ItemsFromColumn(pieces) == items
    decreases |pieces|
  {
    if pieces != [] {
      ItemsFromReadablePieces(pieces[1..], items[1..]);
      assert items == [items[0]] + items[1..];
    }
  }

  /** The items column reads back as the items. */
  lemma ItemsColumnRoundTrip(items: seq<ReceiptItem>)
    requires forall k :: 0 <= k < |items| ==> PlainItem(items[k])
    ensures ItemsFromColumn(Split(ItemsColumn(items), Char(';'))) == items
  {
    var reps := ItemCsvs(items);
    if items == [] {
      assert ItemsColumn(items) == [];
      assert Count([], ':') == 0;
    } else {
      forall i | 0 <= i < |reps|
        ensures ';' !in reps[i]
      {
        assert reps[i] == items[i].name + ":" + items[i].price;
      }
      SplitBlankJoin([], reps);
      assert [] + ItemsColumn(items) == ItemsColumn(items);
      var pieces := [reps[0]] + Blanked(reps[1..]);
      forall i | 0 <= i < |pieces|
        ensures ItemFromCsv(pieces[i]) == Some(items[i])
      {
        if i == 0 {
          ItemFromPaddedCsv([], items[0]);
          assert [] + ItemCsv(items[0]) == reps[0];
        } else {
          ItemFromPaddedCsv([' '], items[i]);
        }
      }
      ItemsFromReadablePieces(pieces, items);
    }
  }

  /** No column of a plain receipt's row holds `c`, a comma or a line
      feed. */
  lemma ColumnsAvoid(r: Receipt, c: char)
    requires PlainReceipt(r) && (c == ',' || c == '\n')
    ensures forall i :: 0 <= i < 6 ==> c !in Columns(r)[i]
  {
    UuidStringAlphabet(r.id);
    var reps := ItemCsvs(r.items);
    forall k | 0 <= k < |reps|
      ensures c !in reps[k]
    {
      assert reps[k] == r.items[k].name + ":" + r.items[k].price;
    }
    JoinAvoids(reps, "; ", c);
  }

  /** Columns past the sixth are ignored: more text after a sixth column
      changes nothing. */
  lemma ExtraColumnsIgnored(row: string, extra: string, freshId: Uuid)
    requires Count(row, ',') >= 5
    ensures ParseReceiptFromCsv(row + [','] + extra, freshId) == ParseReceiptFromCsv(row, freshId)
  {
    SplitAppend(row, ',', extra, Char(','));
    SplitCount(row, ',');
    var columns := Split(row, Char(','));
    assert forall k :: 0 <= k < 6 ==> Split(row + [','] + extra, Char(','))[k] == columns[k];
  }

  /** A plain receipt's row, without its line feed, reads back as the
      receipt, whatever id would have been drawn. */
  lemma RowRoundTrip(r: Receipt, freshId: Uuid)
    requires PlainReceipt(r)
    ensures ParseReceiptFromCsv(RowText(r), freshId) == Some(r)
  {
    var cols := Columns(r);
    ColumnsAvoid(r, ',');
    SplitJoin(cols, ',');
    assert Split(RowText(r), Char(',')) == cols;
    UuidRoundTrip(r.id);
    ItemsColumnRoundTrip(r.items);
  }

  /** A row has at least five commas, so it is never empty. */
  lemma RowTextNotEmpty(r: Receipt)
    ensures RowText(r) != []
  {
    assert |UuidString(r.id)| == 36;
    assert RowText(r)[..36] == UuidString(r.id);
  }

  /** Reading a plain receipt's row, as a row of the file, gives the
      receipt. */
  lemma RowDecodes(r: Receipt, freshId: Uuid)
    requires PlainReceipt(r)
    ensures DecodeRow(RowText(r), freshId) == [r]
  {
    RowTextNotEmpty(r);
    RowRoundTrip(r, freshId);
  }

  // ---------------------------------------------------------------------
  // Reading the receipts file
  // ---------------------------------------------------------------------

  /** One row of the file: an empty row is skipped, and so is a row that
      does not parse. */
  function DecodeRow(row: string, freshId: Uuid): (rs: seq<Receipt>)
    ensures |rs| <= 1
    ensures row == [] ==> rs == []
    ensures row != [] ==>
      rs == if ParseReceiptFromCsv(row, freshId).Some? then [ParseReceiptFromCsv(row, freshId).value] else []
  {
    if row == [] then []
    else
      match ParseReceiptFromCsv(row, freshId)
      case Some(r) => [r]
      case None => []
  }

  /** What a run of rows decodes to, row by row in order: `decode(row, k)`
      for each row, `k` being the row's line number, counting from
      `first`. */
  function Gather<T>(rows: seq<string>, decode: (string, nat) -> seq<T>, first: nat): seq<T>
    decreases |rows|
  {
    if rows == [] then []
    else
      var n := |rows| - 1;
      Gather(rows[..n], decode, first) + decode(rows[n], first + n)
  }

  lemma {:induction false} GatherAppend<T>(a: seq<string>, b: seq<string>, decode: (string, nat) -> seq<T>, first: nat)
    ensures Gather(a + b, decode, first) == Gather(a, decode, first) + Gather(b, decode, first + |a|)
    decreases |b|
  {
    if b == [] {
      assert a + b == a;
    } else {
      var n := |b| - 1;
      assert (a + b)[..|a| + n] == a + b[..n];
      assert (a + b)[|a| + n] == b[n];
      GatherAppend(a, b[..n], decode, first);
    }
  }

  lemma GatherOne<T>(row: string, decode: (string, nat) -> seq<T>, k: nat)
    ensures Gather([row], decode, k) == decode(row, k)
  {
    assert [row][..0] == [];
  }

  /** The receipts read from `rows`, the first of which is line `first` of
      the file; `draws(k)` is the id drawn for line `k`. */
  function DecodeRows(rows: seq<string>, draws: nat -> Uuid, first: nat): seq<Receipt> {
    Gather(rows, (row, k) => DecodeRow(row, draws(k)), first)
  }

  /** The receipts `loadReceipts` reads from the file's text: the text is
      split at every line feed and the first line, the header, dropped. */
  function DecodeFile(content: string, draws: nat -> Uuid): seq<Receipt> {
    var rows := Split(content, Char('\n'));
    DecodeRows(rows[1..], draws, 1)
  }

  /** A file of one line holds no receipts: that line is the header. */
  lemma DecodeOneLine(line: string, draws: nat -> Uuid)
    requires '\n' !in line
    ensures DecodeFile(line + ['\n'], draws) == []
  {
    SplitTerminated(line, '\n');
    var lines := Split(line + ['\n'], Char('\n'));
    var one: seq<string> := [[]];
    assert lines[1..] == one;
    assert DecodeRows(one, draws, 1) == [] by {
      assert one[..0] == [];
    }
  }

  /** A file holding only the header holds no receipts. */
  lemma DecodeHeaderOnly(draws: nat -> Uuid)
    ensures DecodeFile(ReceiptsHeader, draws) == []
  {
    var line := "id,store,date,time,items,imageFilename";
    assert ReceiptsHeader == line + ['\n'];
    DecodeOneLine(line, draws);
  }

  /** How the lines of a file that ends with a line feed change when a
      line is appended: the trailing empty line gives way to the new line,
      and a new empty line follows it. */
  lemma {:induction false} LinesAfterLine(content: string, line: string)
    requires EndsLine(content)
    requires '\n' !in line
    ensures var px := Split(content, Char('\n'));
      |px| >= 2 && px[|px| - 1] == []
      && Split(content + (line + ['\n']), Char('\n')) == px[..|px| - 1] + [line, []]
  {
    var px := Split(content, Char('\n'));
    SplitAfterDelimiter(content, line + ['\n'], Char('\n'));
    SplitTerminated(line, '\n');
    var body := content[..|content| - 1];
    assert content == body + ['\n'] + [];
    SplitAppend(body, '\n', [], Char('\n'));
    SplitNoDelimiter([], Char('\n'));
    assert px == Split(body, Char('\n')) + [[]];
  }

  /** Putting a row in place of a trailing empty line, and an empty line
      after it, adds what that row decodes to, when an empty line decodes
      to nothing. */
  lemma GatherReplaceTrailing<T>(lines: seq<string>, row: string, decode: (string, nat) -> seq<T>)
    requires |lines| >= 2 && lines[|lines| - 1] == []
    requires forall k :: decode([], k) == []
    ensures var m := |lines| - 1;
      Gather((lines[..m] + [row, []])[1..], decode, 1) == Gather(lines[1..], decode, 1) + decode(row, m)
  {
    var m := |lines| - 1;
    var before := lines[1..m];
    assert lines[1..] == before + [[]];
    assert (lines[..m] + [row, []])[1..] == before + [row] + [[]];
    GatherAppend(before, [[]], decode, 1);
    GatherAppend(before + [row], [[]], decode, 1);
    GatherAppend(before, [row], decode, 1);
    GatherOne([], decode, m);
    GatherOne([], decode, m + 1);
    GatherOne(row, decode, m);
  }

  /** Appending a line to a file that ends with a line feed appends what
      that line decodes to, with the id drawn for its line number. */
  lemma {:induction false} DecodeAfterLine(content: string, line: string, draws: nat -> Uuid)
    requires EndsLine(content)
    requires '\n' !in line
    ensures var m := |Split(content, Char('\n'))| - 1;
      DecodeFile(content + (line + ['\n']), draws) == DecodeFile(content, draws) + DecodeRow(line, draws(m))
  {
    var lines := Split(content, Char('\n'));
    LinesAfterLine(content, line);
    var decode := (row, k) => DecodeRow(row, draws(k));
    forall k: nat
      ensures decode([], k) == []
    {
      assert DecodeRow([], draws(k)) == [];
    }
    GatherReplaceTrailing(lines, line, decode);
  }

  /** Appending a plain receipt's row to a file that ends with a line feed
      appends the receipt to what the file reads as. */
  lemma {:induction false} DecodeAfterAppend(content: string, r: Receipt, draws: nat -> Uuid)
    requires |content| > 0 && content[|content| - 1] == '\n'
    requires PlainReceipt(r)
    ensures DecodeFile(content + CsvRow(r), draws) == DecodeFile(content, draws) + [r]
  {
    ColumnsAvoid(r, '\n');
    JoinAvoids(Columns(r), ",", '\n');
    assert CsvRow(r) == RowText(r) + ['\n'];
    DecodeAfterLine(content, RowText(r), draws);
    RowDecodes(r, draws(|Split(content, Char('\n'))| - 1));
  }

  // ---------------------------------------------------------------------
  // Writing the files back
  // ---------------------------------------------------------------------

  /** The texts of `xs`, one after the other, in order. */
  function Concat<T>(xs: seq<T>, text: T -> string): string
    decreases |xs|
  {
    if xs == [] then [] else Concat(xs[..|xs| - 1], text) + text(xs[|xs| - 1])
  }

  /** The rows `rewriteReceiptsCSV` writes after the header, one per
      receipt in memory, in order. */
  function RowsText(rs: seq<Receipt>): string {
    Concat(rs, CsvRow)
  }

  predicate EndsLine(content: string) {
    |content| > 0 && content[|content| - 1] == '\n'
  }

  /** Text that ends with a line feed still does after texts that each
      end with one are added. */
  lemma {:induction false} ConcatEndsLine<T>(content: string, xs: seq<T>, text: T -> string)
    requires EndsLine(content)
    requires forall k :: 0 <= k < |xs| ==> EndsLine(text(xs[k]))
    ensures EndsLine(content + Concat(xs, text))
  {
    if xs != [] {
      var last := text(xs[|xs| - 1]);
      var c := content + Concat(xs, text);
      assert c == content + Concat(xs[..|xs| - 1], text) + last;
      assert c[|c| - 1] == last[|last| - 1];
    }
  }

  /** A reading that grows by one element at each step has grown, after
      `n` steps, by the first `n` elements. */
  lemma {:induction false} Telescope<T>(f: nat -> seq<T>, xs: seq<T>, n: nat)
    requires n <= |xs|
    requires forall m :: 0 <= m < n ==> f(m + 1) == f(m) + [xs[m]]
    ensures f(n) == f(0) + xs[..n]
    decreases n
  {
    if n > 0 {
      Telescope(f, xs, n - 1);
      assert xs[..n] == xs[..n - 1] + [xs[n - 1]];
    }
  }

  lemma RowEndsLine(r: Receipt)
    ensures EndsLine(CsvRow(r))
  {
    assert CsvRow(r) == RowText(r) + "\n";
  }

  /** One step of the rewrite: the next receipt's row adds that receipt. */
  lemma RewriteStep(rs: seq<Receipt>, m: nat, draws: nat -> Uuid)
    requires m < |rs| && PlainReceipt(rs[m])
    ensures DecodeFile(ReceiptsHeader + RowsText(rs[..m + 1]), draws)
      == DecodeFile(ReceiptsHeader + RowsText(rs[..m]), draws) + [rs[m]]
  {
    assert rs[..m + 1][..m] == rs[..m];
    assert RowsText(rs[..m + 1]) == RowsText(rs[..m]) + CsvRow(rs[m]);
    assert ReceiptsHeader + RowsText(rs[..m + 1]) == (ReceiptsHeader + RowsText(rs[..m])) + CsvRow(rs[m]);
    assert |ReceiptsHeader| == 39 && ReceiptsHeader[38] == '\n';
    forall k | 0 <= k < |rs[..m]|
      ensures EndsLine(CsvRow(rs[..m][k]))
    {
      RowEndsLine(rs[..m][k]);
    }
    ConcatEndsLine(ReceiptsHeader, rs[..m], CsvRow);
    DecodeAfterAppend(ReceiptsHeader + RowsText(rs[..m]), rs[m], draws);
  }

  /** A file rewritten from memory reads back as the receipts in memory,
      in the same order, when every receipt is plain. */
  lemma LoadAfterRewrite(rs: seq<Receipt>, draws: nat -> Uuid)
    requires forall k :: 0 <= k < |rs| ==> PlainReceipt(rs[k])
    ensures DecodeFile(ReceiptsHeader + RowsText(rs), draws) == rs
  {
    var f := (m: nat) => if m <= |rs| then DecodeFile(ReceiptsHeader + RowsText(rs[..m]), draws) else [];
    forall m | 0 <= m < |rs|
      ensures f(m + 1) == f(m) + [rs[m]]
    {
      RewriteStep(rs, m, draws);
    }
    Telescope(f, rs, |rs|);
    assert rs[..0] == [] && rs[..|rs|] == rs;
    assert ReceiptsHeader + RowsText([]) == ReceiptsHeader;
    DecodeHeaderOnly(draws);
  }

  /** A rewritten file loads, sorted as `loadReceipts` sorts, as the
      receipts in memory when they were newest first already. */
  lemma LoadSortedAfterRewrite(rs: seq<Receipt>, draws: nat -> Uuid)
    requires forall k :: 0 <= k < |rs| ==> PlainReceipt(rs[k])
    requires LatestFirst(rs, ReceiptDay)
    ensures SortNewestFirst(DecodeFile(ReceiptsHeader + RowsText(rs), draws)) == rs
  {
    LoadAfterRewrite(rs, draws);
    SortNewestFirstSpec(rs);
  }

  /** One row of the digital-items file: the item, then the receipt's
      store, date and image file name. */
  function DigitalRow(item: ReceiptItem, r: Receipt): string {
    item.name + "," + item.price + "," + r.store + "," + r.date + "," + r.imageFilename + "\n"
  }

  /** The rows written for `items` of receipt `r`, in order. */
  function DigitalRows(items: seq<ReceiptItem>, r: Receipt): string {
    Concat(items, item => DigitalRow(item, r))
  }

  /** The rows written for every item of every receipt, in order. */
  function AllDigitalRows(rs: seq<Receipt>): string {
    Concat(rs, (r: Receipt) => DigitalRows(r.items, r))
  }

  /** The five fields of a digital row, in order. */
  function DigitalFields(item: ReceiptItem, r: Receipt): seq<string> {
    [item.name, item.price, r.store, r.date, r.imageFilename]
  }

  lemma DigitalRowJoin(item: ReceiptItem, r: Receipt)
    ensures DigitalRow(item, r) == Join(DigitalFields(item, r), ",") + "\n"
  {
    var n, p, s, d, f := item.name, item.price, r.store, r.date, r.imageFilename;
    JoinCons(d, [f], ",");
    assert [d, f] == [d] + [f];
    assert [s, d, f] == [s] + [d, f];
    JoinCons(s, [d, f], ",");
    assert [p, s, d, f] == [p] + [s, d, f];
    JoinCons(p, [s, d, f], ",");
    assert DigitalFields(item, r) == [n] + [p, s, d, f];
    JoinCons(n, [p, s, d, f], ",");
    assert Join([f], ",") == f;
  }

  /** A digital row of a plain item of a plain receipt is one line, and it
      holds the five fields, in order, and nothing else. */
  lemma DigitalRowFields(item: ReceiptItem, r: Receipt)
    requires PlainItem(item) && PlainReceipt(r)
    ensures var row := DigitalRow(item, r);
      row[|row| - 1] == '\n' && Count(row, '\n') == 1
      && Split(row[..|row| - 1], Char(',')) == DigitalFields(item, r)
  {
    var fields := DigitalFields(item, r);
    var row := DigitalRow(item, r);
    DigitalRowJoin(item, r);
    var line := Join(fields, ",");
    assert row[..|row| - 1] == line;
    SplitJoin(fields, ',');
    JoinAvoids(fields, ",", '\n');
    CountAppend(line, ['\n'], '\n');
    CountZero(line, '\n');
  }

  /** The number of items of `rs`, all receipts together. */
  function ItemCount(rs: seq<Receipt>): nat
    decreases |rs|
  {
    if rs == [] then 0 else ItemCount(rs[..|rs| - 1]) + |rs[|rs| - 1].items|
  }

  lemma {:induction false} DigitalRowsLines(items: seq<ReceiptItem>, r: Receipt)
    requires PlainReceipt(r)
    requires forall k :: 0 <= k < |items| ==> PlainItem(items[k])
    ensures Count(DigitalRows(items, r), '\n') == |items|
    decreases |items|
  {
    if items != [] {
      var n := |items| - 1;
      DigitalRowsLines(items[..n], r);
      DigitalRowFields(items[n], r);
      CountAppend(DigitalRows(items[..n], r), DigitalRow(items[n], r), '\n');
    }
  }

  /** The digital-items file holds one line per item of every receipt. */
  lemma {:induction false} AllDigitalRowsLines(rs: seq<Receipt>)
    requires forall k :: 0 <= k < |rs| ==> PlainReceipt(rs[k])
    ensures Count(AllDigitalRows(rs), '\n') == ItemCount(rs)
    decreases |rs|
  {
    if rs != [] {
      var n := |rs| - 1;
      AllDigitalRowsLines(rs[..n]);
      DigitalRowsLines(rs[n].items, rs[n]);
      CountAppend(AllDigitalRows(rs[..n]), DigitalRows(rs[n].items, rs[n]), '\n');
    }
  }

  // ---------------------------------------------------------------------
  // Order of the loaded receipts
  // ---------------------------------------------------------------------

  /** `a` sorts before `b` when both have a key and `a`'s is the larger;
      an element without a key sorts before nothing and after nothing. */
  predicate Later<T>(key: T -> Option<int>, a: T, b: T) {
    key(a).Some? && key(b).Some? && key(a).value > key(b).value
  }

  /** Nothing sorts before an element that comes earlier. */
  predicate LatestFirst<T>(s: seq<T>, key: T -> Option<int>) {
    forall i, j :: 0 <= i < j < |s| ==> !Later(key, s[j], s[i])
  }

  /** Moves `x` in from the right end past every element it sorts before,
      stopping at the first one it does not, as the insertion sort of
      Swift's standard library does for each new element. */
  function InsertLatest<T>(x: T, s: seq<T>, key: T -> Option<int>): (r: seq<T>)
    ensures multiset(r) == multiset(s) + multiset{x}
    decreases |s|
  {
    if s == [] then [x]
    else
      var n := |s| - 1;
      assert s == s[..n] + [s[n]];
      if Later(key, x, s[n]) then InsertLatest(x, s[..n], key) + [s[n]] else s + [x]
  }

  /** Insertion sort, latest key first; elements the order cannot tell
      apart keep their relative order. */
  function SortLatest<T>(s: seq<T>, key: T -> Option<int>): (r: seq<T>)
    ensures multiset(r) == multiset(s)
    decreases |s|
  {
    if s == [] then []
    else
      var n := |s| - 1;
      assert s == s[..n] + [s[n]];
      InsertLatest(s[n], SortLatest(s[..n], key), key)
  }

  lemma {:induction false} InsertLatestSorted<T>(x: T, s: seq<T>, key: T -> Option<int>)
    requires key(x).Some? && forall k :: 0 <= k < |s| ==> key(s[k]).Some?
    requires LatestFirst(s, key)
    ensures LatestFirst(InsertLatest(x, s, key), key)
    decreases |s|
  {
    if s != [] {
      var n := |s| - 1;
      LatestFirstInit(s[..n], s[n], key);
      if Later(key, x, s[n]) {
        var head := InsertLatest(x, s[..n], key);
        InsertLatestSorted(x, s[..n], key);
        forall k | 0 <= k < |head|
          ensures !Later(key, s[n], head[k])
        {
          assert head[k] in multiset(head);
          if head[k] != x {
            assert head[k] in multiset(s[..n]);
            var j :| 0 <= j < n && s[..n][j] == head[k];
          }
        }
        AppendLatestFirst(head, s[n], key);
      } else {
        forall k | 0 <= k < |s|
          ensures !Later(key, x, s[k])
        {
          if k < n {
            assert !Later(key, s[n], s[k]);
          }
        }
        AppendLatestFirst(s, x, key);
      }
    }
  }

  /** Appending an element that sorts before none of a sequence in order
      keeps it in order. */
  lemma AppendLatestFirst<T>(s: seq<T>, x: T, key: T -> Option<int>)
    requires LatestFirst(s, key)
    requires forall k :: 0 <= k < |s| ==> !Later(key, x, s[k])
    ensures LatestFirst(s + [x], key)
  {
    var r := s + [x];
    forall i, j | 0 <= i < j < |r|
      ensures !Later(key, r[j], r[i])
    {
      assert r[i] == s[i];
      if j < |s| {
        assert r[j] == s[j];
      }
    }
  }

  /** Keys for the example below: 0 has none, any other number is its own. */
  function ExampleKey(v: int): Option<int> {
    if v == 0 then None else Some(v)
  }

  /** An element without a key stops every later element from moving past
      it: keyed 1, unkeyed, keyed 2 stays in that order, although 2 is
      later than 1. */
  lemma UndatedStopsInsertion()
    ensures SortLatest([1, 0, 2], ExampleKey) == [1, 0, 2]
  {
    SortExampleFirstTwo();
    assert [1, 0, 2][..2] == [1, 0];
    InsertExampleLast();
  }

  /** The example's second step: the unkeyed element stays after 1. */
  lemma SortExampleFirstTwo()
    ensures SortLatest([1, 0], ExampleKey) == [1, 0]
  {
    assert [1, 0][..1] == [1];
    SortExampleFirst();
    assert !Later(ExampleKey, 0, 1);
  }

  /** The example's first step. */
  lemma SortExampleFirst()
    ensures SortLatest([1], ExampleKey) == [1]
  {
    assert [1][..0] == [];
  }

  /** The example's last step: 2 does not move past the unkeyed element. */
  lemma InsertExampleLast()
    ensures InsertLatest(2, [1, 0], ExampleKey) == [1, 0, 2]
  {
    assert !Later(ExampleKey, 2, 0);
  }

  /** When every element has a key, the sort puts the latest first. */
  lemma {:induction false} SortLatestSorted<T>(s: seq<T>, key: T -> Option<int>)
    requires forall k :: 0 <= k < |s| ==> key(s[k]).Some?
    ensures LatestFirst(SortLatest(s, key), key)
    decreases |s|
  {
    if s != [] {
      var n := |s| - 1;
      var sorted := SortLatest(s[..n], key);
      SortLatestSorted(s[..n], key);
      forall k | 0 <= k < |sorted|
        ensures key(sorted[k]).Some?
      {
        assert sorted[k] in multiset(s[..n]);
        var j :| 0 <= j < n && s[..n][j] == sorted[k];
      }
      InsertLatestSorted(s[n], sorted, key);
    }
  }

  /** An element that sorts before none of `s` goes to its end. */
  lemma InsertLatestAtEnd<T>(x: T, s: seq<T>, key: T -> Option<int>)
    requires forall k :: 0 <= k < |s| ==> !Later(key, x, s[k])
    ensures InsertLatest(x, s, key) == s + [x]
  {
    if s != [] {
      assert !Later(key, x, s[|s| - 1]);
    }
  }

  /** Dropping the last element of a sequence in order leaves one in
      order, and that element sorts before none of the others. */
  lemma LatestFirstInit<T>(init: seq<T>, x: T, key: T -> Option<int>)
    requires LatestFirst(init + [x], key)
    ensures LatestFirst(init, key)
    ensures forall k :: 0 <= k < |init| ==> !Later(key, x, init[k])
  {
    var s := init + [x];
    forall i, j | 0 <= i < j < |init|
      ensures !Later(key, init[j], init[i])
    {
      assert init[i] == s[i] && init[j] == s[j];
    }
    forall k | 0 <= k < |init|
      ensures !Later(key, x, init[k])
    {
      assert init[k] == s[k] && x == s[|init|];
    }
  }

  /** A sequence already in order is left as it is. */
  lemma {:induction false} SortLatestKeepsSorted<T>(s: seq<T>, key: T -> Option<int>)
    requires LatestFirst(s, key)
    ensures SortLatest(s, key) == s
    decreases |s|
  {
    if s != [] {
      var n := |s| - 1;
      var init := s[..n];
      assert s == init + [s[n]];
      LatestFirstInit(init, s[n], key);
      SortLatestKeepsSorted(init, key);
      KeepsSortedStep(init, s[n], key);
    }
  }

  /** Appending an element that sorts before none of a sequence the sort
      leaves alone gives a sequence the sort leaves alone. */
  lemma KeepsSortedStep<T>(init: seq<T>, x: T, key: T -> Option<int>)
    requires SortLatest(init, key) == init
    requires forall k :: 0 <= k < |init| ==> !Later(key, x, init[k])
    ensures SortLatest(init + [x], key) == init + [x]
  {
    SortLatestSnoc(init, x, key);
    InsertLatestAtEnd(x, init, key);
  }

  /** One step of `SortLatest`: the last element is inserted into the
      sorted rest. */
  lemma SortLatestSnoc<T>(init: seq<T>, x: T, key: T -> Option<int>)
    ensures SortLatest(init + [x], key) == InsertLatest(x, SortLatest(init, key), key)
  {
    assert (init + [x])[..|init|] == init;
  }

  /** The day a receipt's date denotes, when its date reads. */
  function ReceiptDay(r: Receipt): (day: Option<int>)
    ensures day.Some? <==> DateComponents(r.date).Some?
  {
    match DateComponents(r.date)
    case Some(k) => Some(DayOrdinal(k))
    case None => None
  }

  /** The comparator of `loadReceipts`' sort, `date1 > date2` when both
      dates read and `false` otherwise. */
  lemma NewerIsLaterDay(a: Receipt, b: Receipt)
    ensures Later(ReceiptDay, a, b) <==>
      DateComponents(a.date).Some? && DateComponents(b.date).Some?
      && After(DateComponents(a.date).value, DateComponents(b.date).value)
  {
  }

  /** `loadReceipts`' sort: newest first. */
  function SortNewestFirst(rs: seq<Receipt>): seq<Receipt> {
    SortLatest(rs, ReceiptDay)
  }

  /** The sort only reorders; when every date reads it leaves no receipt
      after an older one, and it leaves receipts already in that order as
      they are. */
  lemma SortNewestFirstSpec(rs: seq<Receipt>)
    ensures multiset(SortNewestFirst(rs)) == multiset(rs)
    ensures (forall k :: 0 <= k < |rs| ==> DateComponents(rs[k].date).Some?) ==>
      LatestFirst(SortNewestFirst(rs), ReceiptDay)
    ensures LatestFirst(rs, ReceiptDay) ==> SortNewestFirst(rs) == rs
  {
    if forall k :: 0 <= k < |rs| ==> DateComponents(rs[k].date).Some? {
      SortLatestSorted(rs, ReceiptDay);
    }
    if LatestFirst(rs, ReceiptDay) {
      SortLatestKeepsSorted(rs, ReceiptDay);
    }
  }

  // ---------------------------------------------------------------------
  // Deletion
  // ---------------------------------------------------------------------

  /** `removeAll { $0.id == id }`. */
  function RemoveId(rs: seq<Receipt>, id: Uuid): (kept: seq<Receipt>)
    ensures |kept| <= |rs|
    decreases |rs|
  {
    if rs == [] then []
    else
      var n := |rs| - 1;
      RemoveId(rs[..n], id) + (if rs[n].id == id then [] else [rs[n]])
  }

  /** Exactly the receipts carrying `id` go, every copy of them; the
      others stay as often as they were there. */
  lemma {:induction false} RemoveIdCounts(rs: seq<Receipt>, id: Uuid)
    ensures forall r :: multiset(RemoveId(rs, id))[r] == if r.id == id then 0 else multiset(rs)[r]
    decreases |rs|
  {
    if rs != [] {
      var n := |rs| - 1;
      RemoveIdCounts(rs[..n], id);
      assert rs == rs[..n] + [rs[n]];
    }
  }

  /** Removal works on each part of a sequence on its own, so the kept
      receipts stay in their order. */
  lemma {:induction false} RemoveIdAppend(a: seq<Receipt>, b: seq<Receipt>, id: Uuid)
    ensures RemoveId(a + b, id) == RemoveId(a, id) + RemoveId(b, id)
    decreases |b|
  {
    if b == [] {
      assert a + b == a;
    } else {
      var n := |b| - 1;
      var tail := if b[n].id == id then [] else [b[n]];
      assert (a + b)[..|a| + n] == a + b[..n];
      assert (a + b)[|a| + n] == b[n];
      assert RemoveId(a + b, id) == RemoveId(a + b[..n], id) + tail;
      assert RemoveId(b, id) == RemoveId(b[..n], id) + tail;
      RemoveIdAppend(a, b[..n], id);
    }
  }

  /** Removing an id no receipt carries changes nothing. */
  lemma {:induction false} RemoveAbsentId(rs: seq<Receipt>, id: Uuid)
    requires forall k :: 0 <= k < |rs| ==> rs[k].id != id
    ensures RemoveId(rs, id) == rs
    decreases |rs|
  {
    if rs != [] {
      var n := |rs| - 1;
      RemoveAbsentId(rs[..n], id);
      assert rs == rs[..n] + [rs[n]];
    }
  }

  // ---------------------------------------------------------------------
  // The manager
  // ---------------------------------------------------------------------

  /** Whether some receipt of `rs` carries `id`. */
  predicate HasId(rs: seq<Receipt>, id: Uuid) {
    exists k :: 0 <= k < |rs| && rs[k].id == id
  }

  /** No two receipts of `rs` carry the same id. */
  predicate UniqueIds(rs: seq<Receipt>) {
    forall i, j :: 0 <= i < j < |rs| ==> rs[i].id != rs[j].id
  }

  /** A receipt whose id is new keeps the ids unique. */
  lemma AddNewId(rs: seq<Receipt>, r: Receipt)
    requires UniqueIds(rs) && !HasId(rs, r.id)
    ensures UniqueIds(rs + [r])
  {
    var s := rs + [r];
    forall i, j | 0 <= i < j < |s|
      ensures s[i].id != s[j].id
    {
      assert s[i] == rs[i];
      if j < |rs| {
        assert s[j] == rs[j];
      } else {
        assert s[j] == r;
      }
    }
  }

  /** `ReceiptManager`: the receipts in memory and the two files. */
  class ReceiptManager {
    var receipts: seq<Receipt>
    /** `receipts.csv`, `None` while it does not exist. */
    var receiptsFile: Option<string>
    /** `digital_items.csv`, `None` while it does not exist. */
    var digitalFile: Option<string>

    /** Both files exist and hold exactly what a rewrite from memory
        writes. */
    predicate InSync()
      reads this
    {
      receiptsFile == Some(ReceiptsHeader + RowsText(receipts))
      && digitalFile == Some(DigitalHeader + AllDigitalRows(receipts))
    }

    /** `init`: the manager loads the receipts at once. `readable` says
        whether the receipts file can be read; `draws(k)` is the id drawn
        for line `k` if its id does not read. */
    constructor (receiptsOnDisk: Option<string>, digitalOnDisk: Option<string>, readable: bool, draws: nat -> Uuid)
      ensures receiptsFile == Some(receiptsOnDisk.GetOr(ReceiptsHeader))
      ensures digitalFile == Some(digitalOnDisk.GetOr(DigitalHeader))
      ensures receipts == if readable then SortNewestFirst(DecodeFile(receiptsFile.value, draws)) else []
    {
      receipts := [];
      receiptsFile := receiptsOnDisk;
      digitalFile := digitalOnDisk;
      new;
      LoadReceipts(readable, draws);
    }

    /** `ensureCSVFilesExist`: a missing file is created holding its
        header; an existing file is left alone. */
    method EnsureCsvFilesExist()
      modifies this
      ensures receiptsFile == Some(old(receiptsFile).GetOr(ReceiptsHeader))
      ensures digitalFile == Some(old(digitalFile).GetOr(DigitalHeader))
      ensures receipts == old(receipts)
    {
      if receiptsFile.None? {
        receiptsFile := Some(ReceiptsHeader);
      }
      if digitalFile.None? {
        digitalFile := Some(DigitalHeader);
      }
    }

    /** `saveReceipt`: the receipt joins memory unless one with its id is
        there already, and its row is appended to the receipts file in
        either case. */
    method SaveReceipt(r: Receipt)
      modifies this
      ensures receipts == if HasId(old(receipts), r.id) then old(receipts) else old(receipts) + [r]
      ensures receiptsFile == Some(old(receiptsFile).GetOr(ReceiptsHeader) + CsvRow(r))
      ensures digitalFile == Some(old(digitalFile).GetOr(DigitalHeader))
      ensures old(receiptsFile) == Some(ReceiptsHeader + RowsText(old(receipts))) && !HasId(old(receipts), r.id)
        ==> receiptsFile == Some(ReceiptsHeader + RowsText(receipts))
      ensures UniqueIds(old(receipts)) ==> UniqueIds(receipts)
    {
      if !HasId(receipts, r.id) {
        if UniqueIds(receipts) {
          AddNewId(receipts, r);
        }
        receipts := receipts + [r];
      }
      EnsureCsvFilesExist();
      receiptsFile := Some(receiptsFile.value + CsvRow(r));
      if old(receiptsFile) == Some(ReceiptsHeader + RowsText(old(receipts))) && !HasId(old(receipts), r.id) {
        RowsTextAppend(old(receipts), r);
      }
    }

    /** `saveDigitalItems`: one row per item of the receipt is appended to
        the digital-items file. */
    method SaveDigitalItems(r: Receipt)
      modifies this
      ensures digitalFile == Some(old(digitalFile).GetOr(DigitalHeader) + DigitalRows(r.items, r))
      ensures receiptsFile == Some(old(receiptsFile).GetOr(ReceiptsHeader))
      ensures receipts == old(receipts)
      ensures old(digitalFile) == Some(DigitalHeader + AllDigitalRows(old(receipts)))
        ==> digitalFile == Some(DigitalHeader + AllDigitalRows(old(receipts) + [r]))
    {
      EnsureCsvFilesExist();
      var data := ItemRows(r);
      if data != [] {
        digitalFile := Some(digitalFile.value + data);
      } else {
        assert digitalFile.value + data == digitalFile.value;
      }
      if old(digitalFile) == Some(DigitalHeader + AllDigitalRows(old(receipts))) {
        AllDigitalRowsAppend(old(receipts), r);
      }
    }

    /** `loadReceipts`: the files are ensured, the receipts file read row
        by row after its header, skipping empty rows and rows that do not
        parse, and the result sorted newest first; a file that cannot be
        read leaves no receipts. */
    method LoadReceipts(readable: bool, draws: nat -> Uuid)
      modifies this
      ensures receiptsFile == Some(old(receiptsFile).GetOr(ReceiptsHeader))
      ensures digitalFile == Some(old(digitalFile).GetOr(DigitalHeader))
      ensures receipts == if readable then SortNewestFirst(DecodeFile(receiptsFile.value, draws)) else []
    {
      EnsureCsvFilesExist();
      if !readable {
        receipts := [];
        return;
      }
      var loaded := ReadRows(receiptsFile.value, draws);
      receipts := SortNewestFirst(loaded);
    }

    /** `deleteReceipt`: every receipt with the id goes from memory, and
        both files are rewritten from memory. */
    method DeleteReceipt(r: Receipt)
      modifies this
      ensures receipts == RemoveId(old(receipts), r.id)
      ensures InSync()
    {
      receipts := RemoveId(receipts, r.id);
      RewriteReceiptsCsv();
      RewriteDigitalItemsCsv();
    }

    /** `rewriteReceiptsCSV`: the header, then one row per receipt in
        memory. */
    method RewriteReceiptsCsv()
      modifies this
      ensures receiptsFile == Some(ReceiptsHeader + RowsText(receipts))
      ensures receipts == old(receipts) && digitalFile == old(digitalFile)
    {
      var rs := receipts;
      var content := ReceiptsHeader;
      for i := 0 to |rs|
        invariant content == ReceiptsHeader + RowsText(rs[..i])
        invariant unchanged(this)
      {
        assert rs[..i + 1] == rs[..i] + [rs[i]];
        RowsTextAppend(rs[..i], rs[i]);
        content := content + CsvRow(rs[i]);
      }
      assert rs[..|rs|] == rs;
      receiptsFile := Some(content);
    }

    /** `rewriteDigitalItemsCSV`: the header, then one row per item of
        every receipt in memory. */
    method RewriteDigitalItemsCsv()
      modifies this
      ensures digitalFile == Some(DigitalHeader + AllDigitalRows(receipts))
      ensures receipts == old(receipts) && receiptsFile == old(receiptsFile)
    {
      var rs := receipts;
      var content := DigitalHeader;
      for i := 0 to |rs|
        invariant content == DigitalHeader + AllDigitalRows(rs[..i])
        invariant unchanged(this)
      {
        var rows := ItemRows(rs[i]);
        assert rs[..i + 1] == rs[..i] + [rs[i]];
        AllDigitalRowsAppend(rs[..i], rs[i]);
        content := content + rows;
      }
      assert rs[..|rs|] == rs;
      digitalFile := Some(content);
    }
  }

  /** The loop over a receipt's items shared by `saveDigitalItems` and
      `rewriteDigitalItemsCSV`: one digital row per item, in order. */
  method ItemRows(r: Receipt) returns (rows: string)
    ensures rows == DigitalRows(r.items, r)
  {
    rows := [];
    for j := 0 to |r.items|
      invariant rows == DigitalRows(r.items[..j], r)
    {
      assert r.items[..j + 1][..j] == r.items[..j];
      rows := rows + DigitalRow(r.items[j], r);
    }
    assert r.items[..|r.items|] == r.items;
  }

  /** One row of the loading loop: the rows read so far, with one more. */
  lemma LoadStep(rows: seq<string>, i: nat, draws: nat -> Uuid)
    requires 1 <= i < |rows|
    ensures DecodeRows(rows[1..i + 1], draws, 1) == DecodeRows(rows[1..i], draws, 1) + DecodeRow(rows[i], draws(i))
  {
    assert rows[1..i + 1] == rows[1..i] + [rows[i]];
    GatherAppend(rows[1..i], [rows[i]], (row, k) => DecodeRow(row, draws(k)), 1);
    GatherOne(rows[i], (row, k) => DecodeRow(row, draws(k)), i);
  }

  /** The row-reading loop of `loadReceipts`: every row after the header,
      in order, an empty row skipped, a row that parses kept. */
  method ReadRows(content: string, draws: nat -> Uuid) returns (loaded: seq<Receipt>)
    ensures loaded == DecodeFile(content, draws)
  {
    var rows := Split(content, Char('\n'));
    loaded := [];
    var i := 1;
    while i < |rows|
      invariant 1 <= i <= |rows|
      invariant loaded == DecodeRows(rows[1..i], draws, 1)
    {
      LoadStep(rows, i, draws);
      var row := rows[i];
      if row == [] {
        i := i + 1;
        continue;
      }
      var parsed := ParseReceiptFromCsv(row, draws(i));
      if parsed.Some? {
        loaded := loaded + [parsed.value];
      }
      i := i + 1;
    }
    assert rows[1..i] == rows[1..];
  }

  lemma RowsTextAppend(rs: seq<Receipt>, r: Receipt)
    ensures RowsText(rs + [r]) == RowsText(rs) + CsvRow(r)
    ensures ReceiptsHeader + RowsText(rs + [r]) == (ReceiptsHeader + RowsText(rs)) + CsvRow(r)
  {
    assert (rs + [r])[..|rs|] == rs;
  }

  lemma AllDigitalRowsAppend(rs: seq<Receipt>, r: Receipt)
    ensures AllDigitalRows(rs + [r]) == AllDigitalRows(rs) + DigitalRows(r.items, r)
    ensures DigitalHeader + AllDigitalRows(rs + [r]) == (DigitalHeader + AllDigitalRows(rs)) + DigitalRows(r.items, r)
  {
    assert (rs + [r])[..|rs|] == rs;
  }
}
