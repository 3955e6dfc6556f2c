/** The receipt record model of `receipt-scanner/Models.swift`: UUIDs and
    their string form, line items and their `name:price` codec, receipts and
    their one-line CSV row, and the `MM/dd/yyyy` date key used for sorting. */
module Models {
  import opened Text

  // ---------------------------------------------------------------------
  // UUID
  // ---------------------------------------------------------------------

  type Nibble = x: int | 0 <= x < 16

  /** A UUID as its 32 hexadecimal digits (128 bits). */
  type Uuid = s: seq<Nibble> | |s| == 32 witness seq(32, _ => 0)

  function HexDigit(n: Nibble): char {
    "0123456789ABCDEF"[n]
  }

  function HexValue(c: char): Option<Nibble> {
    if '0' <= c <= '9' then Some(c as int - '0' as int)
    else if 'A' <= c <= 'F' then Some(c as int - 'A' as int + 10)
    else if 'a' <= c <= 'f' then Some(c as int - 'a' as int + 10)
    else None
  }

  function Hex(ns: seq<Nibble>): (s: string)
    ensures |s| == |ns|
    ensures forall i :: 0 <= i < |ns| ==> s[i] == HexDigit(ns[i])
  {
    seq(|ns|, i requires 0 <= i < |ns| => HexDigit(ns[i]))
  }

  /** Case-insensitive hexadecimal digits, all or nothing. */
  function ParseHex(s: string): (r: Option<seq<Nibble>>)
    ensures r.Some? ==> |r.value| == |s|
    ensures r.Some? ==> forall i :: 0 <= i < |s| ==> HexValue(s[i]) == Some(r.value[i])
    decreases |s|
  {
    if s == [] then Some([])
    else
      match (HexValue(s[0]), ParseHex(s[1..]))
      case (Some(n), Some(ns)) =>
        assert forall i :: 1 <= i < |s| ==> s[i] == s[1..][i - 1];
        Some([n] + ns)
      case _ => None
  }

  lemma HexDigitValue(n: Nibble)
    ensures HexValue(HexDigit(n)) == Some(n)
  {
    var digits := "0123456789ABCDEF";
    assert digits[0] == '0' && digits[1] == '1' && digits[2] == '2' && digits[3] == '3';
    assert digits[4] == '4' && digits[5] == '5' && digits[6] == '6' && digits[7] == '7';
    assert digits[8] == '8' && digits[9] == '9' && digits[10] == 'A' && digits[11] == 'B';
    assert digits[12] == 'C' && digits[13] == 'D' && digits[14] == 'E' && digits[15] == 'F';
  }

  lemma {:induction false} ParseHexOfHex(ns: seq<Nibble>)
    ensures ParseHex(Hex(ns)) == Some(ns)
    decreases |ns|
  {
    if ns != [] {
      ParseHexOfHex(ns[1..]);
      assert Hex(ns)[1..] == Hex(ns[1..]);
      HexDigitValue(ns[0]);
      assert [ns[0]] + ns[1..] == ns;
    }
  }

  /** The digit a parsed character renders back to is its upper-case form. */
  lemma HexDigitOfValue(c: char)
    requires HexValue(c).Some?
    ensures HexDigit(HexValue(c).value) == UpperChar(c)
  {
    var digits := "0123456789ABCDEF";
    assert digits[0] == '0' && digits[1] == '1' && digits[2] == '2' && digits[3] == '3';
    assert digits[4] == '4' && digits[5] == '5' && digits[6] == '6' && digits[7] == '7';
    assert digits[8] == '8' && digits[9] == '9' && digits[10] == 'A' && digits[11] == 'B';
    assert digits[12] == 'C' && digits[13] == 'D' && digits[14] == 'E' && digits[15] == 'F';
  }

  /** `UUID.uuidString`: upper-case 8-4-4-4-12 groups. */
  function UuidString(u: Uuid): (s: string)
    ensures |s| == 36
  {
    Hex(u[..8]) + "-" + Hex(u[8..12]) + "-" + Hex(u[12..16]) + "-" + Hex(u[16..20]) + "-" + Hex(u[20..])
  }

  /** The string form uses only dashes and hexadecimal digits, so it never
      holds a CSV separator. */
  lemma UuidStringAlphabet(u: Uuid)
    ensures forall i :: 0 <= i < 36 ==> UuidString(u)[i] == '-' || HexValue(UuidString(u)[i]).Some?
  {
    var s := UuidString(u);
    forall i | 0 <= i < 36
      ensures s[i] == '-' || HexValue(s[i]).Some?
    {
      if i < 8 { HexDigitValue(u[i]); }
      else if i == 8 || i == 13 || i == 18 || i == 23 { }
      else if i < 13 { HexDigitValue(u[i - 1]); }
      else if i < 18 { HexDigitValue(u[i - 2]); }
      else if i < 23 { HexDigitValue(u[i - 3]); }
      else { HexDigitValue(u[i - 4]); }
    }
  }

  /** The 32 digit characters of an 8-4-4-4-12 string. */
  function UuidDigits(s: string): string
    requires |s| == 36
  {
    s[..8] + s[9..13] + s[14..18] + s[19..23] + s[24..]
  }

  /** `UUID(uuidString:)`: 8-4-4-4-12 hexadecimal groups in either case. */
  function ParseUuid(s: string): Option<Uuid>
  {
    if |s| == 36 && s[8] == '-' && s[13] == '-' && s[18] == '-' && s[23] == '-' then
      match ParseHex(UuidDigits(s))
      case Some(ns) => Some(ns)
      case None => None
    else None
  }

  predicate IsDashPosition(i: int) {
    i == 8 || i == 13 || i == 18 || i == 23
  }

  /** Where, among the 32 digits, the character at position `i` of an
      8-4-4-4-12 string sits. */
  function DigitIndex(i: int): (j: int)
    requires 0 <= i < 36 && !IsDashPosition(i)
    ensures 0 <= j < 32
  {
    if i < 8 then i else if i < 13 then i - 1 else if i < 18 then i - 2
    else if i < 23 then i - 3 else i - 4
  }

  lemma UuidDigitsAt(s: string, i: int)
    requires |s| == 36 && 0 <= i < 36 && !IsDashPosition(i)
    ensures UuidDigits(s)[DigitIndex(i)] == s[i]
  {
  }

  /** The string form of a UUID has its dashes in place and its 32 digits
      in order. */
  lemma UuidStringLayout(u: Uuid)
    ensures var s := UuidString(u);
      s[8] == '-' && s[13] == '-' && s[18] == '-' && s[23] == '-'
      && UuidDigits(s) == Hex(u)
  {
    var s := UuidString(u);
    var t := UuidDigits(s);
    forall i | 0 <= i < 32
      ensures t[i] == Hex(u)[i]
    {
      if i < 8 { assert t[i] == s[i]; }
      else if i < 12 { assert t[i] == s[i + 1]; }
      else if i < 16 { assert t[i] == s[i + 2]; }
      else if i < 20 { assert t[i] == s[i + 3]; }
      else { assert t[i] == s[i + 4]; }
    }
  }

  /** Parsing the string form of a UUID gives the UUID back. */
  lemma UuidRoundTrip(u: Uuid)
    ensures ParseUuid(UuidString(u)) == Some(u)
  {
    UuidStringLayout(u);
    ParseHexOfHex(u);
  }

  /** Every string the parser accepts is the string form of its result,
      up to letter case. */
  lemma UuidCanonical(s: string)
    requires ParseUuid(s).Some?
    ensures UuidString(ParseUuid(s).value) == Uppercased(s)
  {
    var u := ParseUuid(s).value;
    var t := UuidDigits(s);
    assert ParseHex(t) == Some(u);
    var r := UuidString(u);
    UuidStringLayout(u);
    forall i | 0 <= i < 36
      ensures r[i] == UpperChar(s[i])
    {
      if !IsDashPosition(i) {
        var j := DigitIndex(i);
        UuidDigitsAt(r, i);
        UuidDigitsAt(s, i);
        HexDigitOfValue(t[j]);
      }
    }
  }

  // ---------------------------------------------------------------------
  // Line items
  // ---------------------------------------------------------------------

  /** `ReceiptItem`; its random `id` is not persisted and is not modelled. */
  datatype ReceiptItem = ReceiptItem(name: string, price: string)

  /** `ReceiptItem.csvRepresentation`. */
  function ItemCsv(item: ReceiptItem): string {
    item.name + ":" + item.price
  }

  /** `ReceiptItem.init?(fromCSV:)`: exactly one colon, both halves trimmed
      of spaces and tabs. */
  function ItemFromCsv(s: string): (r: Option<ReceiptItem>)
    ensures r.Some? <==> Count(s, ':') == 1
    ensures r.Some? ==> IsTrimmed(r.value.name, Whitespaces) && IsTrimmed(r.value.price, Whitespaces)
  {
    var parts := Split(s, Char(':'));
    SplitCount(s, ':');
    if |parts| != 2 then None
    else Some(ReceiptItem(Trim(parts[0], Whitespaces), Trim(parts[1], Whitespaces)))
  }

  /** An item whose fields carry no colon and no surrounding blanks
      survives its own representation. */
  lemma ItemCsvRoundTrip(item: ReceiptItem)
    requires ':' !in item.name && ':' !in item.price
    requires IsTrimmed(item.name, Whitespaces) && IsTrimmed(item.price, Whitespaces)
    ensures ItemFromCsv(ItemCsv(item)) == Some(item)
  {
    SplitJoin([item.name, item.price], ':');
    assert Join([item.name, item.price], ":") == ItemCsv(item);
  }

  /** The empty piece is rejected, as are pieces with two colons. */
  lemma ItemFromCsvRejects(name: string, price: string, rest: string)
    ensures ItemFromCsv("") == None
    ensures ItemFromCsv(name + ":" + price + ":" + rest) == None
  {
    var s := name + ":" + price + ":" + rest;
    assert s == (name + ":" + price) + (":" + rest);
    CountAppend(name + ":" + price, ":" + rest, ':');
    assert name + ":" + price == name + (":" + price);
    CountAppend(name, ":" + price, ':');
    assert (":" + price)[1..] == price;
    assert (":" + rest)[1..] == rest;
  }

  lemma {:induction false} CountAppend(a: string, b: string, c: char)
    ensures Count(a + b, c) == Count(a, c) + Count(b, c)
    decreases |a|
  {
    if a != [] {
      CountAppend(a[1..], b, c);
      assert (a + b)[1..] == a[1..] + b;
    } else {
      assert a + b == b;
    }
  }

  // ---------------------------------------------------------------------
  // Receipts
  // ---------------------------------------------------------------------

  datatype Receipt = Receipt(
    id: Uuid,
    store: string,
    date: string,
    time: string,
    items: seq<ReceiptItem>,
    imageFilename: string)

  function ItemCsvs(items: seq<ReceiptItem>): (reps: seq<string>)
    ensures |reps| == |items|
    ensures forall i :: 0 <= i < |items| ==> reps[i] == ItemCsv(items[i])
  {
    seq(|items|, i requires 0 <= i < |items| => ItemCsv(items[i]))
  }

  /** The items column: representations joined by `"; "`. */
  function ItemsColumn(items: seq<ReceiptItem>): string {
    Join(ItemCsvs(items), "; ")
  }

  /** The six columns of a receipt's row, in file order, unescaped. */
  function Columns(r: Receipt): seq<string> {
    [UuidString(r.id), r.store, r.date, r.time, ItemsColumn(r.items), r.imageFilename]
  }

  /** `Receipt.csvRow` without its trailing line feed. */
  function RowText(r: Receipt): string {
    Join(Columns(r), ",")
  }

  /** `Receipt.csvRow`. */
  function CsvRow(r: Receipt): string {
    RowText(r) + "\n"
  }

  lemma JoinSix(a: string, b: string, c: string, d: string, e: string, f: string)
    ensures Join([a, b, c, d, e, f], ",") == a + "," + b + "," + c + "," + d + "," + e + "," + f
  {
    JoinCons(e, [f], ",");
    assert [e, f] == [e] + [f];
    assert [d, e, f] == [d] + [e, f];
    JoinCons(d, [e, f], ",");
    assert [c, d, e, f] == [c] + [d, e, f];
    JoinCons(c, [d, e, f], ",");
    assert [b, c, d, e, f] == [b] + [c, d, e, f];
    JoinCons(b, [c, d, e, f], ",");
    assert [a, b, c, d, e, f] == [a] + [b, c, d, e, f];
    JoinCons(a, [b, c, d, e, f], ",");
    assert Join([f], ",") == f;
  }

  /** The exact row layout: id, store, date, time, the items joined by
      `"; "`, the image file name and a line feed, with nothing escaped. */
  lemma CsvRowLayout(r: Receipt)
    ensures CsvRow(r) == UuidString(r.id) + "," + r.store + "," + r.date + "," + r.time + ","
                         + ItemsColumn(r.items) + "," + r.imageFilename + "\n"
  {
    JoinSix(UuidString(r.id), r.store, r.date, r.time, ItemsColumn(r.items), r.imageFilename);
  }

  // ---------------------------------------------------------------------
  // Date key
  // ---------------------------------------------------------------------

  /** The year, month and day components `Calendar` extracts. */
  datatype DateKey = DateKey(year: int, month: int, day: int)

  predicate IsLeapYear(y: int) {
    (y % 4 == 0 && y % 100 != 0) || y % 400 == 0
  }

  function DaysInMonth(y: int, m: int): int {
    if m == 2 then (if IsLeapYear(y) then 29 else 28)
    else if m == 4 || m == 6 || m == 9 || m == 11 then 30
    else 31
  }

  /** A calendar date whose year has at most four digits. */
  predicate ValidKey(k: DateKey) {
    0 <= k.year <= 9999 && 1 <= k.month <= 12 && 1 <= k.day <= DaysInMonth(k.year, k.month)
  }

  predicate AllDigits(s: string) {
    forall i :: 0 <= i < |s| ==> IsDigit(s[i])
  }

  /** `Receipt.dateComponents`: the date read under the fixed format
      `MM/dd/yyyy`, or nothing when the text is not such a date. */
  function DateComponents(date: string): (r: Option<DateKey>)
    ensures r.Some? ==> ValidKey(r.value)
  {
    if |date| == 10 && date[2] == '/' && date[5] == '/'
       && AllDigits(date[..2]) && AllDigits(date[3..5]) && AllDigits(date[6..])
    then
      var k := DateKey(DecimalValue(date[6..]), DecimalValue(date[..2]), DecimalValue(date[3..5]));
      if ValidKey(k) then Some(k) else None
    else None
  }

  /** `n` written with exactly `width` digits, zero-padded. */
  function FixedDigits(n: nat, width: nat): (s: string)
    ensures |s| == width && AllDigits(s)
    decreases width
  {
    if width == 0 then [] else FixedDigits(n / 10, width - 1) + [DigitChar(n % 10)]
  }

  function Pow10(w: nat): nat {
    if w == 0 then 1 else 10 * Pow10(w - 1)
  }

  lemma DigitCharValue(d: nat)
    requires d < 10
    ensures DigitChar(d) as int - '0' as int == d
  {
    var digits := "0123456789";
    assert digits[0] == '0' && digits[1] == '1' && digits[2] == '2' && digits[3] == '3';
    assert digits[4] == '4' && digits[5] == '5' && digits[6] == '6' && digits[7] == '7';
    assert digits[8] == '8' && digits[9] == '9';
  }

  lemma {:induction false} FixedDigitsValue(n: nat, width: nat)
    requires n < Pow10(width)
    ensures DecimalValue(FixedDigits(n, width)) == n
    decreases width
  {
    if width > 0 {
      var s := FixedDigits(n, width);
      assert s[..|s| - 1] == FixedDigits(n / 10, width - 1);
      FixedDigitsValue(n / 10, width - 1);
      DigitCharValue(n % 10);
    }
  }

  lemma {:induction false} FixedDigitsOfValue(s: string)
    requires AllDigits(s)
    ensures DecimalValue(s) < Pow10(|s|)
    ensures FixedDigits(DecimalValue(s), |s|) == s
    decreases |s|
  {
    if s != [] {
      var init := s[..|s| - 1];
      FixedDigitsOfValue(init);
      var d := s[|s| - 1] as int - '0' as int;
      var v := DecimalValue(s);
      assert v == DecimalValue(init) * 10 + d;
      assert v / 10 == DecimalValue(init) && v % 10 == d;
      var digits := "0123456789";
      assert digits[0] == '0' && digits[1] == '1' && digits[2] == '2' && digits[3] == '3';
      assert digits[4] == '4' && digits[5] == '5' && digits[6] == '6' && digits[7] == '7';
      assert digits[8] == '8' && digits[9] == '9';
      assert DigitChar(d) == s[|s| - 1];
      assert init + [s[|s| - 1]] == s;
    }
  }

  /** The canonical `MM/dd/yyyy` text of a date key. */
  function FormatDate(k: DateKey): (s: string)
    requires ValidKey(k)
    ensures |s| == 10
  {
    FixedDigits(k.month, 2) + "/" + FixedDigits(k.day, 2) + "/" + FixedDigits(k.year, 4)
  }

  /** The three fields of `MM/dd/yyyy` text and the text itself. */
  lemma SlashFields(a: string, b: string, c: string)
    requires |a| == 2 && |b| == 2 && |c| == 4
    ensures var s := a + "/" + b + "/" + c;
      |s| == 10 && s[2] == '/' && s[5] == '/' && s[..2] == a && s[3..5] == b && s[6..] == c
  {
  }

  lemma SlashLayout(s: string)
    requires |s| == 10 && s[2] == '/' && s[5] == '/'
    ensures s == s[..2] + "/" + s[3..5] + "/" + s[6..]
  {
    SlashFields(s[..2], s[3..5], s[6..]);
  }

  /** Every valid key is read back from its canonical text. */
  lemma DateComponentsOfFormat(k: DateKey)
    requires ValidKey(k)
    ensures DateComponents(FormatDate(k)) == Some(k)
  {
    SlashFields(FixedDigits(k.month, 2), FixedDigits(k.day, 2), FixedDigits(k.year, 4));
    FixedDigitsValue(k.month, 2);
    FixedDigitsValue(k.day, 2);
    FixedDigitsValue(k.year, 4);
  }

  /** The only texts that read as a date are canonical ones. */
  lemma FormatOfDateComponents(s: string)
    requires DateComponents(s).Some?
    ensures FormatDate(DateComponents(s).value) == s
  {
    FixedDigitsOfValue(s[..2]);
    FixedDigitsOfValue(s[3..5]);
    FixedDigitsOfValue(s[6..]);
    SlashLayout(s);
  }

  /** Days counted so that the order of keys is the calendar order. */
  function DayOrdinal(k: DateKey): int {
    k.year * 416 + k.month * 32 + k.day
  }

  /** `date1 > date2` for the dates two keys denote. */
  predicate After(a: DateKey, b: DateKey) {
    DayOrdinal(a) > DayOrdinal(b)
  }

  /** On valid keys `After` is the lexicographic order on year, month, day. */
  lemma AfterIsCalendarOrder(a: DateKey, b: DateKey)
    requires ValidKey(a) && ValidKey(b)
    ensures After(a, b) <==>
      a.year > b.year || (a.year == b.year && (a.month > b.month || (a.month == b.month && a.day > b.day)))
  {
  }
}
