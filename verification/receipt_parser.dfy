/** `parseReceiptText` and `isLikelyDate` of
    `receipt-scanner/ReceiptParser.swift`: OCR text in, store name, date,
    time and line items out.

    The source matches its lines against ICU regular expressions. Every
    pattern it uses is written out here as a deterministic matcher over
    maximal character runs; the comment on each matcher says why the
    regex engine's backtracking cannot find a match the greedy reading
    misses. */
module ReceiptParser {
  import opened Text
  import opened Models

  // ---------------------------------------------------------------------
  // Lines
  // ---------------------------------------------------------------------

  /** A line as the parser sees it: non-empty, trimmed, on one line. */
  predicate IsLine(l: string) {
    l != [] && IsTrimmed(l, WhitespacesAndNewlines) && NoDelimiter(l, Newlines)
  }

  lemma TrimmedLine(s: string)
    requires NoDelimiter(s, Newlines)
    ensures Trim(s, WhitespacesAndNewlines) != [] ==> IsLine(Trim(s, WhitespacesAndNewlines))
  {
    var t := Trim(s, WhitespacesAndNewlines);
    forall i | 0 <= i < |t|
      ensures !IsNewline(t[i])
    {
      assert t[i] in s;
      var j :| 0 <= j < |s| && s[j] == t[i];
    }
  }

  /** Trim every piece and keep the non-empty ones, in order. */
  function NonEmptyTrimmed(pieces: seq<string>): (lines: seq<string>)
    ensures |lines| <= |pieces|
    decreases |pieces|
  {
    if pieces == [] then []
    else
      var t := Trim(pieces[0], WhitespacesAndNewlines);
      var rest := NonEmptyTrimmed(pieces[1..]);
      if t == [] then rest else [t] + rest
  }

  /** Pieces free of line breaks trim to lines. */
  lemma {:induction false} NonEmptyTrimmedLines(pieces: seq<string>)
    requires forall i :: 0 <= i < |pieces| ==> NoDelimiter(pieces[i], Newlines)
    ensures forall i :: 0 <= i < |NonEmptyTrimmed(pieces)| ==> IsLine(NonEmptyTrimmed(pieces)[i])
    decreases |pieces|
  {
    if pieces != [] {
      var t := Trim(pieces[0], WhitespacesAndNewlines);
      TrimmedLine(pieces[0]);
      var tail := pieces[1..];
      forall i | 0 <= i < |tail|
        ensures NoDelimiter(tail[i], Newlines)
      {
        assert tail[i] == pieces[i + 1];
      }
      NonEmptyTrimmedLines(tail);
      var rest := NonEmptyTrimmed(tail);
      var lines := NonEmptyTrimmed(pieces);
      forall i | 0 <= i < |lines|
        ensures IsLine(lines[i])
      {
        if t == [] {
          assert lines[i] == rest[i];
        } else if i > 0 {
          assert lines[i] == rest[i - 1];
        }
      }
    }
  }

  /** Carriage returns removed, split on newlines, each line trimmed, empty
      lines dropped. */
  function NormalizeLines(text: string): (lines: seq<string>)
    ensures forall i :: 0 <= i < |lines| ==> IsLine(lines[i])
  {
    SplitPartsFree(RemoveChar(text, '\r'), Newlines);
    NonEmptyTrimmedLines(Split(RemoveChar(text, '\r'), Newlines));
    NonEmptyTrimmed(Split(RemoveChar(text, '\r'), Newlines))
  }

  lemma RemoveCharAbsent(s: string, c: char)
    requires c !in s
    ensures RemoveChar(s, c) == s
  {
    if s != [] {
      assert c !in s[1..];
      RemoveCharAbsent(s[1..], c);
      assert [s[0]] + s[1..] == s;
    }
  }

  /** A text that already is one clean line is read as exactly that line. */
  lemma NormalizeOneLine(text: string)
    requires IsLine(text) && '\r' !in text
    ensures NormalizeLines(text) == [text]
  {
    RemoveCharAbsent(text, '\r');
    SplitNoDelimiter(text, Newlines);
    assert NonEmptyTrimmed([text]) == [text] + NonEmptyTrimmed([]);
  }

  lemma RemoveCharCons(c: char, h: char, t: string)
    ensures RemoveChar([h] + t, c) == (if h == c then [] else [h]) + RemoveChar(t, c)
  {
    assert ([h] + t)[1..] == t;
  }

  lemma {:induction false} RemoveCharAppend(a: string, b: string, c: char)
    ensures RemoveChar(a + b, c) == RemoveChar(a, c) + RemoveChar(b, c)
    decreases |a|
  {
    if a == [] {
      assert a + b == b;
    } else {
      var h, t := a[0], a[1..];
      assert a == [h] + t;
      assert a + b == [h] + (t + b);
      RemoveCharCons(c, h, t + b);
      RemoveCharCons(c, h, t);
      RemoveCharAppend(t, b, c);
      Associative(if h == c then [] else [h], RemoveChar(t, c), RemoveChar(b, c));
    }
  }

  /** Sequence concatenation is associative. */
  lemma Associative<T>(x: seq<T>, y: seq<T>, z: seq<T>)
    ensures x + (y + z) == (x + y) + z
  {
  }

  lemma NonEmptyTrimmedCons(h: string, t: seq<string>)
    ensures var u := Trim(h, WhitespacesAndNewlines);
      NonEmptyTrimmed([h] + t) == (if u == [] then [] else [u]) + NonEmptyTrimmed(t)
  {
    assert ([h] + t)[0] == h;
    assert ([h] + t)[1..] == t;
  }

  lemma {:induction false} NonEmptyTrimmedAppend(p: seq<string>, q: seq<string>)
    ensures NonEmptyTrimmed(p + q) == NonEmptyTrimmed(p) + NonEmptyTrimmed(q)
    decreases |p|
  {
    if p == [] {
      assert p + q == q;
    } else {
      var h, t := p[0], p[1..];
      assert p == [h] + t;
      assert p + q == [h] + (t + q);
      NonEmptyTrimmedCons(h, t + q);
      NonEmptyTrimmedCons(h, t);
      NonEmptyTrimmedAppend(t, q);
      var u := Trim(h, WhitespacesAndNewlines);
      Associative(if u == [] then [] else [u], NonEmptyTrimmed(t), NonEmptyTrimmed(q));
    }
  }

  /** Lines are read independently: the lines of two texts joined by a line
      feed are the lines of the first followed by those of the second. */
  lemma NormalizeAppend(a: string, b: string)
    ensures NormalizeLines(a + "\n" + b) == NormalizeLines(a) + NormalizeLines(b)
  {
    RemoveCharAppend(a + "\n", b, '\r');
    RemoveCharAppend(a, "\n", '\r');
    assert RemoveChar("\n", '\r') == "\n" by {
      assert "\n"[1..] == [];
    }
    var a', b' := RemoveChar(a, '\r'), RemoveChar(b, '\r');
    assert RemoveChar(a + "\n" + b, '\r') == a' + ['\n'] + b';
    SplitAppend(a', '\n', b', Newlines);
    NonEmptyTrimmedAppend(Split(a', Newlines), Split(b', Newlines));
  }

  // ---------------------------------------------------------------------
  // Store name
  // ---------------------------------------------------------------------

  const StorePrefixes: seq<string> := ["RECEIPT", "INVOICE", "WELCOME TO", "THANK YOU FOR SHOPPING AT"]

  /** The first line with the first prefix (in the given order) that its
      upper-cased form starts with cut off and the rest trimmed. */
  function StripStorePrefix(line: string, prefixes: seq<string>): (r: string)
    ensures (forall i :: 0 <= i < |prefixes| ==> !StartsWith(Uppercased(line), prefixes[i])) ==> r == line
    ensures |prefixes| > 0 && StartsWith(Uppercased(line), prefixes[0]) ==>
              r == Trim(line[|prefixes[0]|..], WhitespacesAndNewlines)
    decreases |prefixes|
  {
    if prefixes == [] then line
    else if StartsWith(Uppercased(line), prefixes[0]) then Trim(line[|prefixes[0]|..], WhitespacesAndNewlines)
    else StripStorePrefix(line, prefixes[1..])
  }

  function StoreName(lines: seq<string>): string {
    if |lines| > 0 && lines[0] != [] then StripStorePrefix(lines[0], StorePrefixes) else "Unknown Store"
  }

  /** A first line with none of the prefixes is the store name as it stands. */
  lemma StoreNamePlain(lines: seq<string>)
    requires |lines| > 0 && lines[0] != []
    requires forall i :: 0 <= i < |StorePrefixes| ==> !StartsWith(Uppercased(lines[0]), StorePrefixes[i])
    ensures StoreName(lines) == lines[0]
  {
  }

  /** A first line that starts with one of the prefixes, in any letter case,
      loses exactly that prefix and the blanks after it. */
  lemma StoreNameStripsPrefix(lines: seq<string>, k: nat)
    requires k < |StorePrefixes|
    requires |lines| > 0 && StartsWith(Uppercased(lines[0]), StorePrefixes[k])
    ensures StoreName(lines) == Trim(lines[0][|StorePrefixes[k]|..], WhitespacesAndNewlines)
  {
    var u := Uppercased(lines[0]);
    PrefixInitialsDistinct();
    forall j | 0 <= j < k
      ensures !StartsWith(u, StorePrefixes[j])
    {
      assert u[0] == StorePrefixes[k][0];
    }
    StripFirstMatching(lines[0], StorePrefixes, k);
  }

  /** No two store prefixes start with the same letter, so a line starts
      with at most one of them. */
  lemma PrefixInitialsDistinct()
    ensures forall j :: 0 <= j < |StorePrefixes| ==> StorePrefixes[j] != []
    ensures forall j, k :: 0 <= j < k < |StorePrefixes| ==> StorePrefixes[j][0] != StorePrefixes[k][0]
  {
    var ps := StorePrefixes;
    assert ps[0][0] == 'R' && ps[1][0] == 'I' && ps[2][0] == 'W' && ps[3][0] == 'T';
  }

  /** The prefix removed is the first one in list order that matches. */
  lemma {:induction false} StripFirstMatching(line: string, prefixes: seq<string>, k: nat)
    requires k < |prefixes| && StartsWith(Uppercased(line), prefixes[k])
    requires forall j :: 0 <= j < k ==> !StartsWith(Uppercased(line), prefixes[j])
    ensures StripStorePrefix(line, prefixes) == Trim(line[|prefixes[k]|..], WhitespacesAndNewlines)
    decreases k
  {
    if k > 0 {
      StripFirstMatching(line, prefixes[1..], k - 1);
    }
  }

  /** There is no store name without a line. */
  lemma StoreNameEmpty()
    ensures StoreName([]) == "Unknown Store"
  {
  }

  // ---------------------------------------------------------------------
  // Runs of characters
  // ---------------------------------------------------------------------

  /** `\d`, `\s` and `\w`. */
  datatype CharClass = Digits | Spaces | WordChars {
    predicate Has(c: char) {
      match this
      case Digits => IsDigit(c)
      case Spaces => IsSpace(c)
      case WordChars => IsWordChar(c)
    }
  }

  /** The length of the longest run of `cls` characters starting at `i`. */
  function Run(s: string, i: nat, cls: CharClass): (n: nat)
    requires i <= |s|
    ensures i + n <= |s|
    decreases |s| - i
  {
    if i < |s| && cls.Has(s[i]) then 1 + Run(s, i + 1, cls) else 0
  }

  /** The run is maximal: every character in it is in the class and the
      character after it, if any, is not. */
  lemma {:induction false} RunSpec(s: string, i: nat, cls: CharClass)
    requires i <= |s|
    ensures forall j :: i <= j < i + Run(s, i, cls) ==> cls.Has(s[j])
    ensures i + Run(s, i, cls) == |s| || !cls.Has(s[i + Run(s, i, cls)])
    decreases |s| - i
  {
    if i < |s| && cls.Has(s[i]) {
      RunSpec(s, i + 1, cls);
    }
  }

  // ---------------------------------------------------------------------
  // Date and time patterns (unanchored search)
  // ---------------------------------------------------------------------

  /** The patterns the parser searches lines for. */
  datatype SearchPattern =
    | NumericDate       // \d{1,2}[/-]\d{1,2}[/-]\d{2,4}
    | ShortNumericDate  // \d{1,2}[/-]\d{1,2}[/-]\d{2}
    | MonthDayYear      // (Jan|...|Dec)\s+\d{1,2},?\s+\d{4}
    | DayMonthYear      // \d{1,2}\s+(Jan|...|Dec)\s+\d{4}
    | ClockTime         // \d{1,2}:\d{2}(?::\d{2})?(?:\s*[APMapm]{2})?
    | EuropeanTime      // \d{1,2}[h]\d{2}(?:min)?
    | DayMonth          // \d{1,2}\s+(Jan|...|Dec)

  const DatePatterns: seq<SearchPattern> := [NumericDate, ShortNumericDate, MonthDayYear, DayMonthYear]
  const TimePatterns: seq<SearchPattern> := [ClockTime, EuropeanTime]

  const MonthNames: seq<string> :=
    ["Jan", "Feb", "Mar", "Apr", "May", "Jun", "Jul", "Aug", "Sep", "Oct", "Nov", "Dec"]

  /** One of the twelve (case-sensitive) month abbreviations starts at `i`. */
  predicate MonthAt(s: string, i: nat) {
    i + 3 <= |s| && s[i..i + 3] in MonthNames
  }

  lemma MonthInitial(s: string, i: nat)
    requires MonthAt(s, i)
    ensures s[i] in "JFMASOND"
  {
    assert s[i] == s[i..i + 3][0];
  }

  predicate IsDateSeparator(c: char) { c == '/' || c == '-' }

  predicate IsMeridiemLetter(c: char) { c in "APMapm" }

  /** `\d{1,2}` followed by something that is not a digit: the backtracking
      engine cannot split a run of three or more digits, so the run that
      starts at `i` must have one or two digits. */
  predicate ShortNumber(n: nat) { n == 1 || n == 2 }

  function NumericDateAt(s: string, i: nat, maxYearDigits: nat): (r: Option<nat>)
    requires i <= |s| && maxYearDigits >= 2
    ensures r.Some? ==> i < r.value <= |s| && IsDigit(s[i])
  {
    var a := Run(s, i, Digits);
    if !ShortNumber(a) || i + a >= |s| || !IsDateSeparator(s[i + a]) then None
    else
      var j := i + a + 1;
      var b := Run(s, j, Digits);
      if !ShortNumber(b) || j + b >= |s| || !IsDateSeparator(s[j + b]) then None
      else
        var y := j + b + 1;
        var c := Run(s, y, Digits);
        if c < 2 then None
        else Some(y + if c < maxYearDigits then c else maxYearDigits)
  }

  /** `\s+` before a mandatory non-space token always takes the whole run;
      `,?` before `\s+` takes the comma whenever there is one. */
  function MonthDayYearAt(s: string, i: nat): (r: Option<nat>)
    requires i <= |s|
    ensures r.Some? ==> i < r.value <= |s| && MonthAt(s, i)
  {
    if !MonthAt(s, i) then None
    else
      var sp := Run(s, i + 3, Spaces);
      var d := i + 3 + sp;
      var a := Run(s, d, Digits);
      if sp == 0 || !ShortNumber(a) then None
      else
        var c := if d + a < |s| && s[d + a] == ',' then d + a + 1 else d + a;
        var sp2 := Run(s, c, Spaces);
        var y := c + sp2;
        if sp2 == 0 || Run(s, y, Digits) < 4 then None else Some(y + 4)
  }

  /** The day and month of `\d{1,2}\s+(Jan|...|Dec)`, ending after the month. */
  function DayMonthAt(s: string, i: nat): (r: Option<nat>)
    requires i <= |s|
    ensures r.Some? ==> i < r.value <= |s| && IsDigit(s[i])
  {
    var a := Run(s, i, Digits);
    var sp := if i + a <= |s| then Run(s, i + a, Spaces) else 0;
    var m := i + a + sp;
    if !ShortNumber(a) || sp == 0 || !MonthAt(s, m) then None else Some(m + 3)
  }

  function DayMonthYearAt(s: string, i: nat): (r: Option<nat>)
    requires i <= |s|
    ensures r.Some? ==> i < r.value <= |s| && IsDigit(s[i])
  {
    match DayMonthAt(s, i)
    case None => None
    case Some(m) =>
      var sp := Run(s, m, Spaces);
      var y := m + sp;
      if sp == 0 || Run(s, y, Digits) < 4 then None else Some(y + 4)
  }

  /** The optional seconds and the optional meridiem are taken whenever
      they are present, since nothing after them is mandatory. */
  function ClockTimeAt(s: string, i: nat): (r: Option<nat>)
    requires i <= |s|
    ensures r.Some? ==> i < r.value <= |s| && IsDigit(s[i])
  {
    var a := Run(s, i, Digits);
    if !ShortNumber(a) || i + a >= |s| || s[i + a] != ':' || Run(s, i + a + 1, Digits) < 2 then None
    else
      var j := i + a + 3;
      var j' := if j + 2 < |s| && s[j] == ':' && IsDigit(s[j + 1]) && IsDigit(s[j + 2]) then j + 3 else j;
      var t := j' + Run(s, j', Spaces);
      if t + 1 < |s| && IsMeridiemLetter(s[t]) && IsMeridiemLetter(s[t + 1]) then Some(t + 2) else Some(j')
  }

  function EuropeanTimeAt(s: string, i: nat): (r: Option<nat>)
    requires i <= |s|
    ensures r.Some? ==> i < r.value <= |s| && IsDigit(s[i])
  {
    var a := Run(s, i, Digits);
    if !ShortNumber(a) || i + a >= |s| || s[i + a] != 'h' || Run(s, i + a + 1, Digits) < 2 then None
    else
      var j := i + a + 3;
      if j + 3 <= |s| && s[j..j + 3] == "min" then Some(j + 3) else Some(j)
  }

  /** The end of the match of `p` that starts at `i`, if there is one. */
  function MatchAt(p: SearchPattern, s: string, i: nat): (r: Option<nat>)
    requires i <= |s|
    ensures r.Some? ==> i < r.value <= |s|
    ensures r.Some? ==> IsDigit(s[i]) || MonthAt(s, i)
  {
    match p
    case NumericDate => NumericDateAt(s, i, 4)
    case ShortNumericDate => NumericDateAt(s, i, 2)
    case MonthDayYear => MonthDayYearAt(s, i)
    case DayMonthYear => DayMonthYearAt(s, i)
    case ClockTime => ClockTimeAt(s, i)
    case EuropeanTime => EuropeanTimeAt(s, i)
    case DayMonth => DayMonthAt(s, i)
  }

  // The texts each pattern describes, stated on `s[i..e]` without the
  // matchers: each split names the lengths and positions the pattern's
  // quantifiers take.

  /** `\d{1,2}[/-]\d{1,2}[/-]\d{2,maxYearDigits}` with `a` and `b`
      digits for the first two numbers. */
  predicate NumericDateSplit(s: string, i: nat, e: nat, maxYearDigits: nat, a: nat, b: nat) {
    (a == 1 || a == 2) && (b == 1 || b == 2)
    && i + a + b + 4 <= e <= i + a + b + 2 + maxYearDigits && e <= |s|
    && AllIn(s, i, i + a, Digits) && IsDateSeparator(s[i + a])
    && AllIn(s, i + a + 1, i + a + 1 + b, Digits) && IsDateSeparator(s[i + a + 1 + b])
    && AllIn(s, i + a + b + 2, e, Digits)
  }

  /** `(Jan|...|Dec)\s+\d{1,2},?\s+\d{4}`, the day starting at `d` with
      `a` digits and the year starting at `y`. */
  predicate MonthDayYearSplit(s: string, i: nat, e: nat, d: nat, a: nat, y: nat) {
    i + 3 < d && (a == 1 || a == 2) && d + a < y && e == y + 4 && e <= |s|
    && MonthAt(s, i) && AllIn(s, i + 3, d, Spaces) && AllIn(s, d, d + a, Digits)
    && (AllIn(s, d + a, y, Spaces) || (s[d + a] == ',' && d + a + 1 < y && AllIn(s, d + a + 1, y, Spaces)))
    && AllIn(s, y, e, Digits)
  }

  /** `\d{1,2}\s+(Jan|...|Dec)`, the day with `a` digits and the month
      starting at `m`. */
  predicate DayMonthSplit(s: string, i: nat, e: nat, a: nat, m: nat) {
    (a == 1 || a == 2) && i + a < m && e == m + 3 && e <= |s|
    && AllIn(s, i, i + a, Digits) && AllIn(s, i + a, m, Spaces) && MonthAt(s, m)
  }

  /** `\d{1,2}\s+(Jan|...|Dec)\s+\d{4}`, the year starting at `y`. */
  predicate DayMonthYearSplit(s: string, i: nat, e: nat, a: nat, m: nat, y: nat) {
    DayMonthSplit(s, i, m + 3, a, m) && m + 3 < y && e == y + 4 && e <= |s|
    && AllIn(s, m + 3, y, Spaces) && AllIn(s, y, e, Digits)
  }

  /** `\d{1,2}:\d{2}(?::\d{2})?(?:\s*[APMapm]{2})?`, the hour with `a`
      digits, the clock ending at `c` and the meridiem starting at `t`. */
  predicate ClockTimeSplit(s: string, i: nat, e: nat, a: nat, c: nat, t: nat) {
    ClockSplit(s, i, c, a) && MeridiemSplit(s, c, e, t)
  }

  /** `\d{1,2}:\d{2}(?::\d{2})?`, ending at `c`. */
  predicate ClockSplit(s: string, i: nat, c: nat, a: nat) {
    var j := i + a + 3;
    (a == 1 || a == 2) && j <= c <= |s|
    && AllIn(s, i, i + a, Digits) && s[i + a] == ':' && AllIn(s, i + a + 1, j, Digits)
    && (c == j || (c == j + 3 && s[j] == ':' && AllIn(s, j + 1, c, Digits)))
  }

  /** `(?:\s*[APMapm]{2})?` from `c` to `e`, the letters starting at `t`. */
  predicate MeridiemSplit(s: string, c: nat, e: nat, t: nat) {
    c <= e <= |s|
    && (e == c || (c <= t && t + 2 == e && AllIn(s, c, t, Spaces)
                   && IsMeridiemLetter(s[t]) && IsMeridiemLetter(s[t + 1])))
  }

  /** `\d{1,2}[h]\d{2}(?:min)?`, the hour with `a` digits. */
  predicate EuropeanTimeSplit(s: string, i: nat, e: nat, a: nat) {
    (a == 1 || a == 2) && i + a + 3 <= e <= |s|
    && AllIn(s, i, i + a, Digits) && s[i + a] == 'h' && AllIn(s, i + a + 1, i + a + 3, Digits)
    && (e == i + a + 3 || (e == i + a + 6 && s[i + a + 3..e] == "min"))
  }

  /** `s[i..e]` is a text `p` describes. */
  ghost predicate Describes(p: SearchPattern, s: string, i: nat, e: nat) {
    match p
    case NumericDate => exists a: nat, b: nat :: NumericDateSplit(s, i, e, 4, a, b)
    case ShortNumericDate => exists a: nat, b: nat :: NumericDateSplit(s, i, e, 2, a, b)
    case MonthDayYear => exists d: nat, a: nat, y: nat :: MonthDayYearSplit(s, i, e, d, a, y)
    case DayMonthYear => exists a: nat, m: nat, y: nat :: DayMonthYearSplit(s, i, e, a, m, y)
    case ClockTime => exists a: nat, c: nat, t: nat :: ClockTimeSplit(s, i, e, a, c, t)
    case EuropeanTime => exists a: nat :: EuropeanTimeSplit(s, i, e, a)
    case DayMonth => exists a: nat, m: nat :: DayMonthSplit(s, i, e, a, m)
  }

  /** What a matcher finds is a text its pattern describes. */
  lemma MatchShape(p: SearchPattern, s: string, i: nat)
    requires i <= |s| && MatchAt(p, s, i).Some?
    ensures Describes(p, s, i, MatchAt(p, s, i).value)
  {
    match p
    case NumericDate => NumericDateShape(s, i, 4);
    case ShortNumericDate => NumericDateShape(s, i, 2);
    case MonthDayYear => MonthDayYearShape(s, i);
    case DayMonthYear => DayMonthYearShape(s, i);
    case ClockTime => ClockTimeShape(s, i);
    case EuropeanTime => EuropeanTimeShape(s, i);
    case DayMonth => DayMonthShape(s, i);
  }

  /** The first `n` characters of a run are all in its class. */
  lemma RunAllIn(s: string, i: nat, cls: CharClass, n: nat)
    requires i <= |s| && n <= Run(s, i, cls)
    ensures i + n <= |s| && AllIn(s, i, i + n, cls)
  {
    RunSpec(s, i, cls);
  }

  lemma NumericDateShape(s: string, i: nat, maxYearDigits: nat)
    requires i <= |s| && maxYearDigits >= 2 && NumericDateAt(s, i, maxYearDigits).Some?
    ensures exists a: nat, b: nat :: NumericDateSplit(s, i, NumericDateAt(s, i, maxYearDigits).value, maxYearDigits, a, b)
  {
    var a := Run(s, i, Digits);
    RunSpec(s, i, Digits);
    var j := i + a + 1;
    var b := Run(s, j, Digits);
    RunSpec(s, j, Digits);
    var y := j + b + 1;
    RunSpec(s, y, Digits);
    assert NumericDateSplit(s, i, NumericDateAt(s, i, maxYearDigits).value, maxYearDigits, a, b);
  }

  lemma MonthDayYearShape(s: string, i: nat)
    requires i <= |s| && MonthDayYearAt(s, i).Some?
    ensures exists d: nat, a: nat, y: nat :: MonthDayYearSplit(s, i, MonthDayYearAt(s, i).value, d, a, y)
  {
    var d := i + 3 + Run(s, i + 3, Spaces);
    var a := Run(s, d, Digits);
    var c := if d + a < |s| && s[d + a] == ',' then d + a + 1 else d + a;
    var y := c + Run(s, c, Spaces);
    assert MonthDayYearAt(s, i).value == y + 4;
    MonthDayYearParts(s, i, d, a, c, y);
  }

  /** The pieces of a month-day-year match, given where the matcher puts
      them. */
  lemma MonthDayYearParts(s: string, i: nat, d: nat, a: nat, c: nat, y: nat)
    requires MonthAt(s, i) && d == i + 3 + Run(s, i + 3, Spaces) && i + 3 < d
    requires a == Run(s, d, Digits) && ShortNumber(a)
    requires c == (if d + a < |s| && s[d + a] == ',' then d + a + 1 else d + a)
    requires y == c + Run(s, c, Spaces) && c < y && Run(s, y, Digits) >= 4
    ensures MonthDayYearSplit(s, i, y + 4, d, a, y)
  {
    RunAllIn(s, i + 3, Spaces, d - i - 3);
    RunAllIn(s, d, Digits, a);
    RunAllIn(s, c, Spaces, y - c);
    RunAllIn(s, y, Digits, 4);
  }

  lemma DayMonthShape(s: string, i: nat)
    requires i <= |s| && DayMonthAt(s, i).Some?
    ensures exists a: nat, m: nat :: DayMonthSplit(s, i, DayMonthAt(s, i).value, a, m)
  {
    var a := Run(s, i, Digits);
    RunAllIn(s, i, Digits, a);
    var sp := Run(s, i + a, Spaces);
    RunAllIn(s, i + a, Spaces, sp);
    var m := i + a + sp;
    assert DayMonthSplit(s, i, DayMonthAt(s, i).value, a, m);
  }

  lemma DayMonthYearShape(s: string, i: nat)
    requires i <= |s| && DayMonthYearAt(s, i).Some?
    ensures exists a: nat, m: nat, y: nat :: DayMonthYearSplit(s, i, DayMonthYearAt(s, i).value, a, m, y)
  {
    DayMonthShape(s, i);
    var a: nat, m: nat :| DayMonthSplit(s, i, DayMonthAt(s, i).value, a, m);
    assert DayMonthAt(s, i).value == m + 3;
    var sp2 := Run(s, m + 3, Spaces);
    RunAllIn(s, m + 3, Spaces, sp2);
    var y := m + 3 + sp2;
    RunAllIn(s, y, Digits, 4);
    assert DayMonthYearAt(s, i).value == y + 4;
    assert DayMonthYearSplit(s, i, y + 4, a, m, y);
  }

  lemma ClockTimeShape(s: string, i: nat)
    requires i <= |s| && ClockTimeAt(s, i).Some?
    ensures exists a: nat, c: nat, t: nat :: ClockTimeSplit(s, i, ClockTimeAt(s, i).value, a, c, t)
  {
    var a := Run(s, i, Digits);
    var j := i + a + 3;
    var c := if j + 2 < |s| && s[j] == ':' && IsDigit(s[j + 1]) && IsDigit(s[j + 2]) then j + 3 else j;
    var t := c + Run(s, c, Spaces);
    var e := if t + 1 < |s| && IsMeridiemLetter(s[t]) && IsMeridiemLetter(s[t + 1]) then t + 2 else c;
    assert ClockTimeAt(s, i).value == e;
    ClockPart(s, i, a, c);
    MeridiemPart(s, c, t, e);
    assert ClockTimeSplit(s, i, e, a, c, t);
  }

  /** The hours, minutes and optional seconds of a clock-time match. */
  lemma ClockPart(s: string, i: nat, a: nat, c: nat)
    requires i <= |s| && ClockTimeAt(s, i).Some? && a == Run(s, i, Digits)
    requires var j := i + a + 3;
      c == if j + 2 < |s| && s[j] == ':' && IsDigit(s[j + 1]) && IsDigit(s[j + 2]) then j + 3 else j
    ensures ClockSplit(s, i, c, a)
  {
    RunAllIn(s, i, Digits, a);
    RunAllIn(s, i + a + 1, Digits, 2);
    var j := i + a + 3;
    assert c == j || AllIn(s, j + 1, c, Digits);
  }

  /** The optional meridiem of a clock-time match. */
  lemma MeridiemPart(s: string, c: nat, t: nat, e: nat)
    requires c <= |s| && t == c + Run(s, c, Spaces)
    requires e == if t + 1 < |s| && IsMeridiemLetter(s[t]) && IsMeridiemLetter(s[t + 1]) then t + 2 else c
    ensures MeridiemSplit(s, c, e, t)
  {
    RunAllIn(s, c, Spaces, t - c);
  }

  lemma EuropeanTimeShape(s: string, i: nat)
    requires i <= |s| && EuropeanTimeAt(s, i).Some?
    ensures exists a: nat :: EuropeanTimeSplit(s, i, EuropeanTimeAt(s, i).value, a)
  {
    var a := Run(s, i, Digits);
    RunSpec(s, i, Digits);
    RunSpec(s, i + a + 1, Digits);
    assert EuropeanTimeSplit(s, i, EuropeanTimeAt(s, i).value, a);
  }

  datatype Span = Span(start: nat, end: nat)

  /** The leftmost match of `p` at or after `i`. */
  function FindFrom(p: SearchPattern, s: string, i: nat): (r: Option<Span>)
    requires i <= |s|
    ensures r.Some? ==> i <= r.value.start <= |s| && MatchAt(p, s, r.value.start) == Some(r.value.end)
    ensures r.Some? ==> forall j :: i <= j < r.value.start ==> MatchAt(p, s, j).None?
    ensures r.None? ==> forall j :: i <= j <= |s| ==> MatchAt(p, s, j).None?
    decreases |s| - i
  {
    match MatchAt(p, s, i)
    case Some(e) => Some(Span(i, e))
    case None => if i < |s| then FindFrom(p, s, i + 1) else None
  }

  /** `line.range(of: pattern, options: .regularExpression)`, as text. */
  function MatchText(p: SearchPattern, line: string): Option<string>
  {
    match FindFrom(p, line, 0)
    case Some(sp) => Some(line[sp.start..sp.end])
    case None => None
  }

  /** The text found is the leftmost match: it occurs iff the pattern
      matches somewhere, it begins where the first match begins, and it
      starts with a digit or with a month name's initial. */
  lemma MatchTextSpec(p: SearchPattern, line: string)
    ensures MatchText(p, line).Some? <==> exists i :: 0 <= i <= |line| && MatchAt(p, line, i).Some?
    ensures MatchText(p, line).Some? ==>
              exists i :: 0 <= i <= |line| && MatchAt(p, line, i).Some?
                          && MatchText(p, line).value == line[i..MatchAt(p, line, i).value]
                          && forall j :: 0 <= j < i ==> MatchAt(p, line, j).None?
    ensures MatchText(p, line).Some? ==>
              var t := MatchText(p, line).value;
              |t| > 0 && (IsDigit(t[0]) || t[0] in "JFMASOND")
  {
    match FindFrom(p, line, 0)
    case Some(sp) =>
      assert line[sp.start..sp.end][0] == line[sp.start];
      if !IsDigit(line[sp.start]) {
        MonthInitial(line, sp.start);
      }
    case None =>
  }

  /** The match text of the first pattern, in list order, that occurs in
      the line (not the leftmost match over all patterns). */
  function FirstPatternMatch(patterns: seq<SearchPattern>, line: string): Option<string>
    decreases |patterns|
  {
    if patterns == [] then None
    else
      var m := MatchText(patterns[0], line);
      if m.Some? then m else FirstPatternMatch(patterns[1..], line)
  }

  /** The match found in the first line that has one. */
  function FirstLineMatch(lines: seq<string>, patterns: seq<SearchPattern>): Option<string>
    decreases |lines|
  {
    if lines == [] then None
    else
      var m := FirstPatternMatch(patterns, lines[0]);
      if m.Some? then m else FirstLineMatch(lines[1..], patterns)
  }

  /** The pattern that decides is the first one that occurs, and nothing is
      found only when no pattern occurs. */
  lemma {:induction false} FirstPatternMatchSpec(patterns: seq<SearchPattern>, line: string)
    ensures FirstPatternMatch(patterns, line).None? <==>
              forall k :: 0 <= k < |patterns| ==> MatchText(patterns[k], line).None?
    ensures FirstPatternMatch(patterns, line).Some? ==>
              exists k :: 0 <= k < |patterns| && FirstPatternMatch(patterns, line) == MatchText(patterns[k], line)
                          && forall j :: 0 <= j < k ==> MatchText(patterns[j], line).None?
    decreases |patterns|
  {
    if patterns != [] && MatchText(patterns[0], line).None? {
      var rest := patterns[1..];
      FirstPatternMatchSpec(rest, line);
      assert forall k :: 1 <= k < |patterns| ==> patterns[k] == rest[k - 1];
      if FirstPatternMatch(rest, line).Some? {
        var k :| 0 <= k < |rest| && FirstPatternMatch(rest, line) == MatchText(rest[k], line)
                 && forall j :: 0 <= j < k ==> MatchText(rest[j], line).None?;
        assert forall j :: 0 <= j < k + 1 ==> MatchText(patterns[j], line).None? by {
          forall j | 0 <= j < k + 1 ensures MatchText(patterns[j], line).None? {
            if j > 0 { assert patterns[j] == rest[j - 1]; }
          }
        }
      }
    }
  }

  /** The line that decides is the first one with a match, and nothing is
      found only when no line has one. */
  lemma {:induction false} FirstLineMatchSpec(lines: seq<string>, patterns: seq<SearchPattern>)
    ensures FirstLineMatch(lines, patterns).None? <==>
              forall i :: 0 <= i < |lines| ==> FirstPatternMatch(patterns, lines[i]).None?
    ensures FirstLineMatch(lines, patterns).Some? ==>
              exists i :: 0 <= i < |lines| && FirstLineMatch(lines, patterns) == FirstPatternMatch(patterns, lines[i])
                          && forall j :: 0 <= j < i ==> FirstPatternMatch(patterns, lines[j]).None?
    decreases |lines|
  {
    if lines != [] && FirstPatternMatch(patterns, lines[0]).None? {
      var rest := lines[1..];
      FirstLineMatchSpec(rest, patterns);
      assert forall i :: 1 <= i < |lines| ==> lines[i] == rest[i - 1];
      if FirstLineMatch(rest, patterns).Some? {
        var i :| 0 <= i < |rest| && FirstLineMatch(rest, patterns) == FirstPatternMatch(patterns, rest[i])
                 && forall j :: 0 <= j < i ==> FirstPatternMatch(patterns, rest[j]).None?;
        assert forall j :: 0 <= j < i + 1 ==> FirstPatternMatch(patterns, lines[j]).None? by {
          forall j | 0 <= j < i + 1 ensures FirstPatternMatch(patterns, lines[j]).None? {
            if j > 0 { assert lines[j] == rest[j - 1]; }
          }
        }
      }
    }
  }

  /** A found date or time never reads "Unknown Date" or "Unknown Time",
      so the parser's "still unknown" test is the same as "not found". */
  lemma {:induction false} FoundIsNotDefault(patterns: seq<SearchPattern>, line: string)
    ensures FirstPatternMatch(patterns, line).Some? ==>
              |FirstPatternMatch(patterns, line).value| > 0 && FirstPatternMatch(patterns, line).value[0] != 'U'
    decreases |patterns|
  {
    if patterns != [] {
      MatchTextSpec(patterns[0], line);
      FoundIsNotDefault(patterns[1..], line);
    }
  }

  /** A two-digit-year date is a prefix of a date the first pattern already
      finds at the same place, so the second date pattern never decides. */
  lemma ShortDateAlsoLong(s: string, i: nat)
    requires i <= |s| && MatchAt(ShortNumericDate, s, i).Some?
    ensures MatchAt(NumericDate, s, i).Some?
    ensures MatchAt(ShortNumericDate, s, i).value <= MatchAt(NumericDate, s, i).value
  {
  }

  lemma ShortDateShadowed(line: string)
    ensures FirstPatternMatch(DatePatterns, line)
         == FirstPatternMatch([NumericDate, MonthDayYear, DayMonthYear], line)
  {
    var three := [NumericDate, MonthDayYear, DayMonthYear];
    var rest := [MonthDayYear, DayMonthYear];
    assert DatePatterns[0] == NumericDate && three[0] == NumericDate;
    if MatchText(NumericDate, line).Some? {
      FirstPatternHit(DatePatterns, line);
      FirstPatternHit(three, line);
    } else {
      MatchTextSpec(NumericDate, line);
      MatchTextSpec(ShortNumericDate, line);
      if MatchText(ShortNumericDate, line).Some? {
        var i :| 0 <= i <= |line| && MatchAt(ShortNumericDate, line, i).Some?;
        ShortDateAlsoLong(line, i);
      }
      var second := DatePatterns[1..];
      assert second == [ShortNumericDate] + rest;
      assert second[1..] == rest && three[1..] == rest;
      FirstPatternSkip(DatePatterns, line);
      FirstPatternSkip(second, line);
      FirstPatternSkip(three, line);
    }
  }

  /** The first pattern in the list decides when it occurs ... */
  lemma FirstPatternHit(patterns: seq<SearchPattern>, line: string)
    requires |patterns| > 0 && MatchText(patterns[0], line).Some?
    ensures FirstPatternMatch(patterns, line) == MatchText(patterns[0], line)
  {
  }

  /** ... and hands over to the rest of the list when it does not. */
  lemma FirstPatternSkip(patterns: seq<SearchPattern>, line: string)
    requires |patterns| > 0 && MatchText(patterns[0], line).None?
    ensures FirstPatternMatch(patterns, line) == FirstPatternMatch(patterns[1..], line)
  {
  }

  /** `isLikelyDate`: a numeric date or a day followed by a month name
      occurs anywhere in the text. */
  function IsLikelyDate(str: string): (r: bool)
    ensures r <==> exists i :: 0 <= i <= |str| && (MatchAt(NumericDate, str, i).Some? || MatchAt(DayMonth, str, i).Some?)
  {
    MatchTextSpec(NumericDate, str);
    MatchTextSpec(DayMonth, str);
    MatchText(NumericDate, str).Some? || MatchText(DayMonth, str).Some?
  }

  // ---------------------------------------------------------------------
  // Item patterns (anchored at the start of the line)
  // ---------------------------------------------------------------------

  /** The item patterns, in the order the parser tries them. Each begins
      with a lazy `^(.*?)`, the item name, and has the price as group 2. */
  datatype ItemPattern =
    | NamePrice           // ^(.*?)\s+(\$?\d+(?:[.,]\d+)?)(?:\s*\w{0,2})?\s*$
    | QuantityTimesPrice  // ^(.*?)\s+(\d+)\s*[xX]\s*(\$?\d+(?:[.,]\d+)?)\s*=?\s*(\$?\d+(?:[.,]\d+)?)
    | TabSeparated        // ^(.*?)(?:\s{2,}|\t)(\$?\d+(?:[.,]\d+)?)\s*$

  const ItemPatterns: seq<ItemPattern> := [NamePrice, QuantityTimesPrice, TabSeparated]

  predicate IsDecimalSeparator(c: char) { c == '.' || c == ',' }

  predicate AllIn(s: string, lo: nat, hi: nat, cls: CharClass)
    requires lo <= hi <= |s|
  {
    forall j :: lo <= j < hi ==> cls.Has(s[j])
  }

  /** The pieces of an amount `\$?\d+(?:[.,]\d+)?`: where its digits start,
      where its integer part ends, and where it ends. */
  datatype Amount = Amount(digitsStart: nat, intEnd: nat, end: nat)

  /** The greedy amount at `q`. Wherever the patterns below need the amount
      to be followed by something, that something is neither a digit nor a
      separator followed by a digit, so the engine gains nothing by giving
      digits or the fraction back. */
  function AmountAt(s: string, q: nat): (r: Option<Amount>)
    requires q <= |s|
    ensures r.Some? ==> q <= r.value.digitsStart < r.value.intEnd <= r.value.end <= |s|
    ensures r.Some? ==> r.value.digitsStart == q || (r.value.digitsStart == q + 1 && s[q] == '$')
    ensures r.Some? ==> AllIn(s, r.value.digitsStart, r.value.intEnd, Digits)
    ensures r.Some? ==>
              (r.value.end == r.value.intEnd
               || (r.value.intEnd + 1 < r.value.end && IsDecimalSeparator(s[r.value.intEnd])
                   && AllIn(s, r.value.intEnd + 1, r.value.end, Digits)))
    ensures r.Some? ==> r.value.end == |s| || !IsDigit(s[r.value.end])
  {
    var d := if q < |s| && s[q] == '$' then q + 1 else q;
    var n := Run(s, d, Digits);
    RunSpec(s, d, Digits);
    if n == 0 then None
    else
      var p := d + n;
      if p + 1 < |s| && IsDecimalSeparator(s[p]) && IsDigit(s[p + 1]) then
        RunSpec(s, p + 1, Digits);
        Some(Amount(d, p, p + 1 + Run(s, p + 1, Digits)))
      else Some(Amount(d, p, p))
  }

  /** `\s+`, the amount as group 2, then at most two word characters among
      blanks up to the end of the line (`EA`, `kg`, ...). */
  function NamePriceAt(s: string, k: nat): (r: Option<Span>)
    requires k <= |s|
    ensures r.Some? ==> k < r.value.start <= |s| && AmountAt(s, r.value.start).Some?
                        && AmountAt(s, r.value.start).value.end == r.value.end
  {
    var sp := Run(s, k, Spaces);
    if sp == 0 then None
    else
      match AmountAt(s, k + sp)
      case None => None
      case Some(a) =>
        var w := a.end + Run(s, a.end, Spaces);
        var c := Run(s, w, WordChars);
        if c <= 2 && w + c + Run(s, w + c, Spaces) == |s| then Some(Span(k + sp, a.end)) else None
  }

  /** `\s*=?\s*\$?\d`: what the final amount needs in order to begin. */
  predicate TotalFollows(s: string, p: nat)
    requires p <= |s|
  {
    var a := p + Run(s, p, Spaces);
    var b := if a < |s| && s[a] == '=' then a + 1 + Run(s, a + 1, Spaces) else a;
    var c := if b < |s| && s[b] == '$' then b + 1 else b;
    c < |s| && IsDigit(s[c])
  }

  /** The unit price `\$?\d+(?:[.,]\d+)?` and the start of the total after
      it. The engine may end the unit price one digit early so that its
      last digit begins the total, so any run of two digits is enough. */
  predicate UnitPriceThenTotal(s: string, u: nat)
    requires u <= |s|
  {
    var d := if u < |s| && s[u] == '$' then u + 1 else u;
    var n := Run(s, d, Digits);
    var p := d + n;
    n >= 1
    && (n >= 2 || TotalFollows(s, p)
        || (p + 1 < |s| && IsDecimalSeparator(s[p]) && IsDigit(s[p + 1])
            && (Run(s, p + 1, Digits) >= 2 || TotalFollows(s, p + 1 + Run(s, p + 1, Digits)))))
  }

  /** After blanks, the `x` of "quantity x unit price". */
  predicate TimesFollows(s: string, p: nat)
    requires p <= |s|
  {
    var x := p + Run(s, p, Spaces);
    x < |s| && (s[x] == 'x' || s[x] == 'X')
  }

  /** `\s+`, the quantity as group 2, `x`, the unit price and the start of
      the total; nothing is required after that. */
  function QuantityAt(s: string, k: nat): (r: Option<Span>)
    requires k <= |s|
    ensures r.Some? ==> k < r.value.start < r.value.end <= |s| && AllIn(s, r.value.start, r.value.end, Digits)
    ensures r.Some? ==> TimesFollows(s, r.value.end)
  {
    var sp := Run(s, k, Spaces);
    var q := k + sp;
    var n := Run(s, q, Digits);
    RunSpec(s, q, Digits);
    var x := q + n + Run(s, q + n, Spaces);
    if sp == 0 || n == 0 || x >= |s| || !(s[x] == 'x' || s[x] == 'X') then None
    else if UnitPriceThenTotal(s, x + 1 + Run(s, x + 1, Spaces)) then Some(Span(q, q + n))
    else None
  }

  /** Two or more blanks, or one tab, then the amount as group 2 and blanks
      to the end of the line. */
  function TabSeparatedAt(s: string, k: nat): (r: Option<Span>)
    requires k <= |s|
    ensures r.Some? ==> k < r.value.start <= |s| && AmountAt(s, r.value.start).Some?
                        && AmountAt(s, r.value.start).value.end == r.value.end
  {
    var sp := Run(s, k, Spaces);
    if !(sp >= 2 || (sp == 1 && s[k] == '\t')) then None
    else
      match AmountAt(s, k + sp)
      case None => None
      case Some(a) => if a.end + Run(s, a.end, Spaces) == |s| then Some(Span(k + sp, a.end)) else None
  }

  /** Where group 2 lies when the name group ends at `k`. */
  function GroupsAt(p: ItemPattern, s: string, k: nat): (r: Option<Span>)
    requires k <= |s|
    ensures r.Some? ==> k < r.value.start < r.value.end <= |s|
  {
    match p
    case NamePrice => NamePriceAt(s, k)
    case QuantityTimesPrice => QuantityAt(s, k)
    case TabSeparated => TabSeparatedAt(s, k)
  }

  /** A match of an item pattern: the name group is `line[..nameEnd]`. */
  datatype ItemMatch = ItemMatch(nameEnd: nat, price: Span)

  /** For every place the name group could end, where group 2 then lies. */
  function Hits(p: ItemPattern, line: string): (h: seq<Option<Span>>)
    ensures |h| == |line| + 1
    ensures forall k :: 0 <= k <= |line| ==> h[k] == GroupsAt(p, line, k)
  {
    seq(|line| + 1, k requires 0 <= k <= |line| => GroupsAt(p, line, k))
  }

  /** The lazy name group: the first place, from `k` on and never past a
      line break, where the rest of the pattern matches. */
  function FirstHit(hits: seq<Option<Span>>, s: string, k: nat): (r: Option<ItemMatch>)
    requires |hits| == |s| + 1 && k <= |s|
    ensures r.Some? ==> k <= r.value.nameEnd <= |s| && hits[r.value.nameEnd] == Some(r.value.price)
    ensures r.Some? ==> forall j :: k <= j < r.value.nameEnd ==> hits[j].None?
    ensures r.None? && NoDelimiter(s, Newlines) ==> forall j :: k <= j <= |s| ==> hits[j].None?
    decreases |s| - k
  {
    if hits[k].Some? then Some(ItemMatch(k, hits[k].value))
    else if k < |s| && !IsNewline(s[k]) then FirstHit(hits, s, k + 1)
    else None
  }

  /** `regex.firstMatch(in: line, ...)` for an item pattern: the shortest
      name group after which the rest of the pattern matches. */
  function MatchItemPattern(p: ItemPattern, line: string): (r: Option<ItemMatch>)
    ensures r.Some? ==> r.value.nameEnd <= |line| && GroupsAt(p, line, r.value.nameEnd) == Some(r.value.price)
    ensures r.Some? ==> r.value.nameEnd < r.value.price.start < r.value.price.end <= |line|
    ensures r.Some? ==> forall j :: 0 <= j < r.value.nameEnd ==> GroupsAt(p, line, j).None?
    ensures r.None? && NoDelimiter(line, Newlines) ==> forall j :: 0 <= j <= |line| ==> GroupsAt(p, line, j).None?
  {
    FirstHit(Hits(p, line), line, 0)
  }

  /** The price text without `$` and with a decimal comma turned into a
      point. */
  function CleanPrice(group: string): string {
    ReplaceChar(RemoveChar(group, '$'), ',', '.')
  }

  /** The item a match proposes: group 1 trimmed and group 2 cleaned. */
  function Candidate(line: string, m: ItemMatch): ReceiptItem
    requires m.nameEnd <= m.price.start <= m.price.end <= |line|
  {
    ReceiptItem(Trim(line[..m.nameEnd], WhitespacesAndNewlines), CleanPrice(line[m.price.start..m.price.end]))
  }

  predicate IsDigits(x: string) {
    |x| > 0 && forall i :: 0 <= i < |x| ==> IsDigit(x[i])
  }

  /** `Double(price) != nil` on the strings a price can be: digits, and
      optionally a point followed by more digits. */
  predicate IsDecimalNumeral(x: string) {
    IsDigits(x) || exists i :: 0 < i < |x| - 1 && x[i] == '.' && IsDigits(x[..i]) && IsDigits(x[i + 1..])
  }

  /** The checks a candidate must pass to become an item. */
  predicate Accepts(item: ReceiptItem) {
    item.name != [] && item.price != [] && !IsLikelyDate(item.name) && IsDecimalNumeral(item.price)
  }

  /** An item as the parser stores it. */
  predicate WellFormed(item: ReceiptItem) {
    Accepts(item) && IsTrimmed(item.name, WhitespacesAndNewlines) && '$' !in item.price && ',' !in item.price
  }

  /** The first pattern from `i` on that matches decides the line, whether
      or not its candidate passes the checks. */
  function DecideFrom(patterns: seq<ItemPattern>, i: nat, line: string): Option<ReceiptItem>
    requires i <= |patterns|
    decreases |patterns| - i
  {
    if i == |patterns| then None
    else
      match MatchItemPattern(patterns[i], line)
      case Some(m) =>
        var item := Candidate(line, m);
        if Accepts(item) then Some(item) else None
      case None => DecideFrom(patterns, i + 1, line)
  }

  /** A decided item is well formed, and comes from a pattern that matched. */
  lemma {:induction false} DecideFromSpec(patterns: seq<ItemPattern>, i: nat, line: string)
    requires i <= |patterns|
    ensures DecideFrom(patterns, i, line).Some? ==> WellFormed(DecideFrom(patterns, i, line).value)
    ensures DecideFrom(patterns, i, line).Some? ==>
              exists k :: i <= k < |patterns| && MatchItemPattern(patterns[k], line).Some?
    decreases |patterns| - i
  {
    if i < |patterns| {
      match MatchItemPattern(patterns[i], line)
      case Some(m) =>
        CandidatePriceIsNumeral(patterns[i], line);
      case None =>
        DecideFromSpec(patterns, i + 1, line);
    }
  }

  /** The item a line yields, if any. */
  function LineItem(line: string): Option<ReceiptItem> {
    DecideFrom(ItemPatterns, 0, line)
  }

  lemma DigitsBetween(s: string, lo: nat, hi: nat)
    requires lo < hi <= |s| && AllIn(s, lo, hi, Digits)
    ensures IsDigits(s[lo..hi])
  {
    var t := s[lo..hi];
    forall j | 0 <= j < |t|
      ensures IsDigit(t[j])
    {
      assert t[j] == s[lo + j];
    }
  }

  /** Cleaning leaves a string of digits unchanged. */
  lemma CleanDigits(x: string)
    requires IsDigits(x)
    ensures CleanPrice(x) == x
  {
    RemoveCharAbsent(x, '$');
  }

  /** Cleaning turns the separator of a fractional amount into a point. */
  lemma CleanFraction(x: string, c: char, y: string)
    requires IsDigits(x) && IsDigits(y) && IsDecimalSeparator(c)
    ensures CleanPrice(x + [c] + y) == x + ['.'] + y
    ensures IsDecimalNumeral(x + ['.'] + y)
  {
    var u := x + [c] + y;
    var t := x + ['.'] + y;
    forall j | 0 <= j < |u|
      ensures u[j] != '$' && ReplaceChar(u, ',', '.')[j] == t[j]
    {
      if j < |x| {
        assert u[j] == x[j] == t[j];
      } else if j > |x| {
        assert u[j] == y[j - |x| - 1] == t[j];
      }
    }
    assert '$' !in u;
    RemoveCharAbsent(u, '$');
    assert ReplaceChar(u, ',', '.') == t;
    var i := |x|;
    assert t[..i] == x;
    assert t[i + 1..] == y;
    assert 0 < i < |t| - 1 && t[i] == '.' && IsDigits(t[..i]) && IsDigits(t[i + 1..]);
  }

  /** A cleaned numeral holds neither a dollar sign nor a comma. */
  lemma NumeralAlphabet(t: string)
    requires IsDecimalNumeral(t)
    ensures '$' !in t && ',' !in t
  {
    if !IsDigits(t) {
      var i :| 0 < i < |t| - 1 && t[i] == '.' && IsDigits(t[..i]) && IsDigits(t[i + 1..]);
      forall j | 0 <= j < |t|
        ensures t[j] != '$' && t[j] != ','
      {
        if j < i { assert t[j] == t[..i][j]; }
        else if j > i { assert t[j] == t[i + 1..][j - i - 1]; }
      }
    }
  }

  /** The digits of an amount, with their fraction if any, clean to a
      decimal numeral. */
  lemma CleanAmountDigits(s: string, a: Amount)
    requires a.digitsStart < a.intEnd <= a.end <= |s|
    requires AllIn(s, a.digitsStart, a.intEnd, Digits)
    requires a.end == a.intEnd
             || (a.intEnd + 1 < a.end && IsDecimalSeparator(s[a.intEnd])
                 && AllIn(s, a.intEnd + 1, a.end, Digits))
    ensures IsDecimalNumeral(CleanPrice(s[a.digitsStart..a.end]))
  {
    var x := s[a.digitsStart..a.intEnd];
    DigitsBetween(s, a.digitsStart, a.intEnd);
    if a.end == a.intEnd {
      CleanDigits(x);
    } else {
      var y := s[a.intEnd + 1..a.end];
      DigitsBetween(s, a.intEnd + 1, a.end);
      assert s[a.digitsStart..a.end] == x + [s[a.intEnd]] + y;
      CleanFraction(x, s[a.intEnd], y);
    }
  }

  /** The optional dollar sign in front of an amount is cleaned away. */
  lemma CleanDollar(s: string, q: nat, a: Amount)
    requires q <= a.digitsStart <= a.end <= |s|
    requires a.digitsStart == q || (a.digitsStart == q + 1 && s[q] == '$')
    ensures CleanPrice(s[q..a.end]) == CleanPrice(s[a.digitsStart..a.end])
  {
    if a.digitsStart == q + 1 {
      assert s[q..a.end] == ['$'] + s[a.digitsStart..a.end];
      RemoveCharCons('$', '$', s[a.digitsStart..a.end]);
    }
  }

  /** Cleaning an amount gives digits, or digits, a point and digits. */
  lemma AmountCleansToNumeral(s: string, q: nat)
    requires q <= |s| && AmountAt(s, q).Some?
    ensures var t := CleanPrice(s[q..AmountAt(s, q).value.end]);
            IsDecimalNumeral(t) && '$' !in t && ',' !in t
  {
    var a := AmountAt(s, q).value;
    CleanAmountDigits(s, a);
    CleanDollar(s, q, a);
    NumeralAlphabet(CleanPrice(s[q..a.end]));
  }

  /** Every price a pattern proposes is a decimal numeral without `$` or
      `,`, so the source's `Double(price) != nil` test never rejects. */
  lemma CandidatePriceIsNumeral(p: ItemPattern, line: string)
    requires MatchItemPattern(p, line).Some?
    ensures var m := MatchItemPattern(p, line).value;
            var price := CleanPrice(line[m.price.start..m.price.end]);
            IsDecimalNumeral(price) && '$' !in price && ',' !in price
  {
    var m := MatchItemPattern(p, line).value;
    assert GroupsAt(p, line, m.nameEnd) == Some(m.price);
    match p
    case QuantityTimesPrice =>
      DigitsBetween(line, m.price.start, m.price.end);
      CleanDigits(line[m.price.start..m.price.end]);
    case NamePrice =>
      AmountCleansToNumeral(line, m.price.start);
    case TabSeparated =>
      AmountCleansToNumeral(line, m.price.start);
  }

  lemma QuantityGroup(line: string, k: nat)
    requires k <= |line| && QuantityAt(line, k).Some?
    ensures var g := QuantityAt(line, k).value;
            IsDigits(line[g.start..g.end]) && CleanPrice(line[g.start..g.end]) == line[g.start..g.end]
            && TimesFollows(line, g.end)
  {
    var g := QuantityAt(line, k).value;
    DigitsBetween(line, g.start, g.end);
    CleanDigits(line[g.start..g.end]);
  }

  /** The quantity pattern proposes the quantity, the digits right before
      the `x`, as the price. */
  lemma QuantityIsPrice(line: string, m: ItemMatch)
    requires MatchItemPattern(QuantityTimesPrice, line) == Some(m)
    ensures var price := line[m.price.start..m.price.end];
            CleanPrice(price) == price && IsDigits(price) && TimesFollows(line, m.price.end)
  {
    assert QuantityAt(line, m.nameEnd) == Some(m.price);
    QuantityGroup(line, m.nameEnd);
  }

  /** Wherever the tab-separated pattern matches, the name-and-price
      pattern matches too, with the same groups. */
  lemma TabSeparatedIsNamePrice(s: string, k: nat)
    requires k <= |s|
    ensures TabSeparatedAt(s, k).Some? ==> NamePriceAt(s, k) == TabSeparatedAt(s, k)
  {
  }

  /** So on a line the name-and-price pattern matches whenever the
      tab-separated one does ... */
  lemma TabSeparatedShadowed(line: string)
    requires NoDelimiter(line, Newlines)
    ensures MatchItemPattern(TabSeparated, line).Some? ==> MatchItemPattern(NamePrice, line).Some?
  {
    if MatchItemPattern(NamePrice, line).None? {
      forall j | 0 <= j <= |line|
        ensures GroupsAt(TabSeparated, line, j).None?
      {
        assert GroupsAt(NamePrice, line, j).None?;
        assert NamePriceAt(line, j).None?;
        TabSeparatedIsNamePrice(line, j);
      }
    }
  }

  /** ... and the tab-separated pattern never decides a line. */
  lemma LineItemWithoutTabSeparated(line: string)
    requires NoDelimiter(line, Newlines)
    ensures LineItem(line) == DecideFrom([NamePrice, QuantityTimesPrice], 0, line)
  {
    TabSeparatedShadowed(line);
    var two := [NamePrice, QuantityTimesPrice];
    if MatchItemPattern(NamePrice, line).Some? {
      DecideAgree(ItemPatterns, 0, two, 0, line);
    } else {
      DecideSkipped(ItemPatterns, 0, line);
      DecideSkipped(two, 0, line);
      if MatchItemPattern(QuantityTimesPrice, line).Some? {
        DecideAgree(ItemPatterns, 1, two, 1, line);
      } else {
        DecideSkipped(ItemPatterns, 1, line);
        DecideSkipped(two, 1, line);
        DecideSkipped(ItemPatterns, 2, line);
      }
    }
  }

  /** Two pattern lists decide alike from positions holding the same
      pattern when that pattern matches ... */
  lemma DecideAgree(ps: seq<ItemPattern>, i: nat, qs: seq<ItemPattern>, j: nat, line: string)
    requires i < |ps| && j < |qs| && ps[i] == qs[j] && MatchItemPattern(ps[i], line).Some?
    ensures DecideFrom(ps, i, line) == DecideFrom(qs, j, line)
  {
  }

  /** ... and a pattern that does not match hands over to the next one. */
  lemma DecideSkipped(ps: seq<ItemPattern>, i: nat, line: string)
    requires i < |ps| && MatchItemPattern(ps[i], line).None?
    ensures DecideFrom(ps, i, line) == DecideFrom(ps, i + 1, line)
  {
  }

  /** A line the first pattern matches yields that pattern's candidate or
      nothing, even when a later pattern would propose an acceptable item. */
  /** When the name-and-price pattern does not match and the quantity
      pattern does, the quantity pattern decides the line, and the price of
      the item it proposes is group 2, the quantity. */
  lemma QuantityDecides(line: string)
    requires MatchItemPattern(NamePrice, line).None? && MatchItemPattern(QuantityTimesPrice, line).Some?
    ensures var m := MatchItemPattern(QuantityTimesPrice, line).value;
            var item := Candidate(line, m);
            item.price == line[m.price.start..m.price.end]
            && LineItem(line) == (if Accepts(item) then Some(item) else None)
  {
    var m := MatchItemPattern(QuantityTimesPrice, line).value;
    QuantityIsPrice(line, m);
    DecideSkipped(ItemPatterns, 0, line);
    assert ItemPatterns[1] == QuantityTimesPrice;
  }

  lemma FirstMatchDecides(line: string)
    requires MatchItemPattern(NamePrice, line).Some?
    ensures var item := Candidate(line, MatchItemPattern(NamePrice, line).value);
            LineItem(line) == if Accepts(item) then Some(item) else None
  {
  }

  // ---------------------------------------------------------------------
  // The item section
  // ---------------------------------------------------------------------

  /** A column header: the line starts (or restarts) the item section. */
  predicate IsHeader(line: string) {
    var u := Uppercased(line);
    Contains(u, "ITEM") || Contains(u, "DESCRIPTION") || Contains(u, "QTY")
  }

  /** A total marker. */
  predicate IsTotal(line: string) {
    var u := Uppercased(line);
    Contains(u, "TOTAL") || Contains(u, "SUBTOTAL") || Contains(u, "AMOUNT")
  }

  /** The `SUBTOTAL` test adds nothing to the `TOTAL` test. */
  lemma SubtotalIsTotal(s: string)
    requires Contains(s, "SUBTOTAL")
    ensures Contains(s, "TOTAL")
    decreases |s|
  {
    if StartsWith(s, "SUBTOTAL") {
      assert s[3..][..5] == s[..8][3..];
      assert Contains(s[3..], "TOTAL");
      assert s[2..][1..] == s[3..];
      assert Contains(s[2..], "TOTAL");
      assert s[1..][1..] == s[2..];
      assert Contains(s[1..], "TOTAL");
    } else {
      SubtotalIsTotal(s[1..]);
    }
  }

  /** `processingItems` and `potentialTotalLine`. */
  datatype Gate = Gate(processingItems: bool, potentialTotalLine: int)

  /** A header line opens the section, a total line closes it and records
      its index; other lines leave the gate as it is. */
  function Step(g: Gate, index: nat, line: string): Gate {
    if IsHeader(line) then Gate(true, g.potentialTotalLine)
    else if IsTotal(line) then Gate(false, index)
    else g
  }

  /** The gate once the first `n` lines have been read. */
  function GateAfter(lines: seq<string>, n: nat): Gate
    requires n <= |lines|
    decreases n
  {
    if n == 0 then Gate(false, -1) else Step(GateAfter(lines, n - 1), n - 1, lines[n - 1])
  }

  /** Line `i` is tried against the item patterns. */
  predicate Eligible(lines: seq<string>, i: nat)
    requires i < |lines|
  {
    var g := GateAfter(lines, i + 1);
    !IsHeader(lines[i]) && (g.processingItems || g.potentialTotalLine == -1)
  }

  /** The items of the first `n` lines, when line `i` on its own yields
      `decided[i]`: the yield of every eligible line, in order. */
  function ItemsUpTo(lines: seq<string>, decided: seq<Option<ReceiptItem>>, n: nat): (items: seq<ReceiptItem>)
    requires n <= |lines| == |decided|
    ensures |items| <= n
    decreases n
  {
    if n == 0 then []
    else
      var item := decided[n - 1];
      ItemsUpTo(lines, decided, n - 1) + if Eligible(lines, n - 1) && item.Some? then [item.value] else []
  }

  /** What each line yields on its own. */
  function Decisions(lines: seq<string>): (ds: seq<Option<ReceiptItem>>)
    ensures |ds| == |lines|
  {
    seq(|lines|, i requires 0 <= i < |lines| => LineItem(lines[i]))
  }

  /** `decided` holds what each line yields. The trigger keeps a line's
      yield from being worked out until that line is looked at. */
  predicate Decided(lines: seq<string>, decided: seq<Option<ReceiptItem>>) {
    |decided| == |lines| && forall i {:trigger LineItem(lines[i])} :: 0 <= i < |lines| ==> decided[i] == LineItem(lines[i])
  }

  lemma DecisionsDecided(lines: seq<string>)
    ensures Decided(lines, Decisions(lines))
    ensures forall d :: Decided(lines, d) ==> d == Decisions(lines)
  {
    forall d | Decided(lines, d)
      ensures d == Decisions(lines)
    {
      forall i | 0 <= i < |lines|
        ensures d[i] == Decisions(lines)[i]
      {
        assert d[i] == LineItem(lines[i]);
      }
    }
  }

  /** The state of the item loop: the gate and the items kept so far. */
  datatype Scan = Scan(gate: Gate, items: seq<ReceiptItem>)

  /** The item loop's state after the first `n` lines, one line at a time. */
  function ScanUpTo(lines: seq<string>, decided: seq<Option<ReceiptItem>>, n: nat): Scan
    requires n <= |lines| == |decided|
    decreases n
  {
    if n == 0 then Scan(Gate(false, -1), [])
    else
      var st := ScanUpTo(lines, decided, n - 1);
      var g := Step(st.gate, n - 1, lines[n - 1]);
      var open := !IsHeader(lines[n - 1]) && (g.processingItems || g.potentialTotalLine == -1);
      Scan(g, st.items + if open && decided[n - 1].Some? then [decided[n - 1].value] else [])
  }

  /** The loop's state is the gate and the items defined line by line. */
  lemma {:induction false} ScanUpToSpec(lines: seq<string>, decided: seq<Option<ReceiptItem>>, n: nat)
    requires n <= |lines| == |decided|
    ensures ScanUpTo(lines, decided, n) == Scan(GateAfter(lines, n), ItemsUpTo(lines, decided, n))
    decreases n
  {
    if n > 0 {
      ScanUpToSpec(lines, decided, n - 1);
    }
  }

  /** The decisions of every line, known to the caller only through
      `Decided`. */
  lemma PickDecisions(lines: seq<string>) returns (ds: seq<Option<ReceiptItem>>)
    ensures Decided(lines, ds)
  {
    DecisionsDecided(lines);
    ds := Decisions(lines);
  }

  /** The items `parseReceiptText` returns. */
  function ParseItems(lines: seq<string>): seq<ReceiptItem> {
    ItemsUpTo(lines, Decisions(lines), |lines|)
  }

  /** Every item kept has a non-empty trimmed name that is not a date and a
      price that is a plain decimal numeral. */
  lemma ParseItemsWellFormed(lines: seq<string>)
    ensures forall k :: 0 <= k < |ParseItems(lines)| ==> WellFormed(ParseItems(lines)[k])
  {
    var ds := Decisions(lines);
    forall i | 0 <= i < |lines|
      ensures ds[i].Some? ==> WellFormed(ds[i].value)
    {
      DecideFromSpec(ItemPatterns, 0, lines[i]);
    }
    KeptWellFormed(lines, ds, |lines|);
  }

  lemma {:induction false} KeptWellFormed(lines: seq<string>, decided: seq<Option<ReceiptItem>>, n: nat)
    requires n <= |lines| == |decided|
    requires forall i :: 0 <= i < |lines| && decided[i].Some? ==> WellFormed(decided[i].value)
    ensures forall k :: 0 <= k < |ItemsUpTo(lines, decided, n)| ==> WellFormed(ItemsUpTo(lines, decided, n)[k])
    decreases n
  {
    if n > 0 {
      KeptWellFormed(lines, decided, n - 1);
    }
  }

  /** A total marker on a line that is not a header. */
  predicate ClosesSection(line: string) {
    !IsHeader(line) && IsTotal(line)
  }

  /** What the gate remembers: the index of the last closing line, and
      whether a header came after it. */
  lemma {:induction false} GateAfterCharacterised(lines: seq<string>, n: nat)
    requires n <= |lines|
    ensures var g := GateAfter(lines, n);
      (g.potentialTotalLine == -1 <==> forall j :: 0 <= j < n ==> !ClosesSection(lines[j]))
      && (g.potentialTotalLine != -1 ==>
            0 <= g.potentialTotalLine < n && ClosesSection(lines[g.potentialTotalLine])
            && forall j :: g.potentialTotalLine < j < n ==> !ClosesSection(lines[j]))
      && (g.processingItems <==>
            exists h :: 0 <= h < n && IsHeader(lines[h]) && forall j :: h < j < n ==> !ClosesSection(lines[j]))
    decreases n
  {
    if n > 0 {
      GateAfterCharacterised(lines, n - 1);
      var g0 := GateAfter(lines, n - 1);
      var g := GateAfter(lines, n);
      var line := lines[n - 1];
      if IsHeader(line) {
        assert IsHeader(lines[n - 1]);
      } else if IsTotal(line) {
        assert ClosesSection(lines[n - 1]);
        forall h | 0 <= h < n
          ensures !(IsHeader(lines[h]) && forall j :: h < j < n ==> !ClosesSection(lines[j]))
        {
          if h < n - 1 {
            assert ClosesSection(lines[n - 1]);
          }
        }
      } else {
        assert !ClosesSection(lines[n - 1]);
        if g.processingItems {
          var h :| 0 <= h < n - 1 && IsHeader(lines[h]) && forall j :: h < j < n - 1 ==> !ClosesSection(lines[j]);
          assert forall j :: h < j < n ==> !ClosesSection(lines[j]);
        }
        if exists h :: 0 <= h < n && IsHeader(lines[h]) && forall j :: h < j < n ==> !ClosesSection(lines[j]) {
          var h :| 0 <= h < n && IsHeader(lines[h]) && forall j :: h < j < n ==> !ClosesSection(lines[j]);
          assert h < n - 1;
          assert forall j :: h < j < n - 1 ==> !ClosesSection(lines[j]);
        }
      }
    }
  }

  /** Which lines are tried: not a header, and either no total line has
      been seen yet (up to and including this one) or a header has come
      since the last one. */
  lemma EligibleIff(lines: seq<string>, i: nat)
    requires i < |lines|
    ensures Eligible(lines, i) <==>
      !IsHeader(lines[i])
      && ((forall j :: 0 <= j <= i ==> !ClosesSection(lines[j]))
          || exists h :: 0 <= h < i && IsHeader(lines[h]) && forall j :: h < j <= i ==> !ClosesSection(lines[j]))
  {
    GateAfterCharacterised(lines, i + 1);
  }

  /** A total line never yields an item, whatever it looks like. */
  lemma TotalLineSkipped(lines: seq<string>, i: nat)
    requires i < |lines| && IsTotal(lines[i])
    ensures !Eligible(lines, i)
  {
  }

  // ---------------------------------------------------------------------
  // parseReceiptText
  // ---------------------------------------------------------------------

  /** The search loop shared by the date and the time: the first pattern
      (in list order) that occurs in the first line that has any, else the
      placeholder. The loop stops on "the value is no longer the
      placeholder", which is the same as "found". */
  method SearchLines(lines: seq<string>, patterns: seq<SearchPattern>, unknown: string)
    returns (found: string)
    requires unknown == "Unknown Date" || unknown == "Unknown Time"
    ensures found == FirstLineMatch(lines, patterns).GetOr(unknown)
  {
    found := unknown;
    var li := 0;
    while li < |lines|
      invariant 0 <= li <= |lines|
      invariant found == unknown
      invariant FirstLineMatch(lines, patterns) == FirstLineMatch(lines[li..], patterns)
    {
      var line := lines[li];
      var pi := 0;
      while pi < |patterns|
        invariant 0 <= pi <= |patterns|
        invariant found == unknown
        invariant FirstPatternMatch(patterns, line) == FirstPatternMatch(patterns[pi..], line)
      {
        var range := MatchText(patterns[pi], line);
        if range.Some? {
          found := range.value;
          break;
        }
        assert patterns[pi..][1..] == patterns[pi + 1..];
        pi := pi + 1;
      }
      FoundIsNotDefault(patterns, line);
      assert found == FirstPatternMatch(patterns, line).GetOr(unknown);
      if found != unknown {
        break;
      }
      assert lines[li..][1..] == lines[li + 1..];
      li := li + 1;
    }
  }

  /** The store-name block of `parseReceiptText`: the first line, without
      the first store prefix its upper-cased form starts with. */
  method StoreFromLines(lines: seq<string>) returns (store: string)
    ensures store == StoreName(lines)
  {
    store := "Unknown Store";

    if |lines| > 0 && lines[0] != [] {
      var firstLine := lines[0];
      var storeName := firstLine;
      var pi := 0;
      while pi < |StorePrefixes|
        invariant 0 <= pi <= |StorePrefixes|
        invariant storeName == firstLine
        invariant StripStorePrefix(firstLine, StorePrefixes) == StripStorePrefix(firstLine, StorePrefixes[pi..])
      {
        var prefix := StorePrefixes[pi];
        if StartsWith(Uppercased(storeName), prefix) {
          storeName := Trim(storeName[|prefix|..], WhitespacesAndNewlines);
          break;
        }
        assert StorePrefixes[pi..][1..] == StorePrefixes[pi + 1..];
        pi := pi + 1;
      }
      store := storeName;
    }
  }

  /** The pattern loop for one line: the first item pattern that matches
      decides, and its candidate is kept only if it passes the checks. */
  method TryItemPatterns(patterns: seq<ItemPattern>, line: string) returns (item: Option<ReceiptItem>)
    ensures item == DecideFrom(patterns, 0, line)
  {
    item := None;
    var pi := 0;
    while pi < |patterns|
      invariant 0 <= pi <= |patterns|
      invariant item.None?
      invariant DecideFrom(patterns, 0, line) == DecideFrom(patterns, pi, line)
    {
      var m := MatchItemPattern(patterns[pi], line);
      if m.Some? {
        var itemName := Trim(line[..m.value.nameEnd], WhitespacesAndNewlines);
        var price := line[m.value.price.start..m.value.price.end];
        price := RemoveChar(price, '$');
        price := ReplaceChar(price, ',', '.');
        assert ReceiptItem(itemName, price) == Candidate(line, m.value);
        if itemName != [] && price != [] && !IsLikelyDate(itemName) && IsDecimalNumeral(price) {
          item := Some(ReceiptItem(itemName, price));
        }
        break;
      }
      pi := pi + 1;
    }
  }

  /** The item loop of `parseReceiptText`: the header/total gate and the
      first item pattern that matches each eligible line. */
  method ItemsFromLines(lines: seq<string>) returns (items: seq<ReceiptItem>)
    ensures items == ParseItems(lines)
  {
    ghost var ds := PickDecisions(lines);
    items := [];
    var processingItems := false;
    var potentialTotalLine := -1;
    var index := 0;
    while index < |lines|
      invariant 0 <= index <= |lines| == |ds|
      invariant Scan(Gate(processingItems, potentialTotalLine), items) == ScanUpTo(lines, ds, index)
    {
      var line := lines[index];
      if IsHeader(line) {
        processingItems := true;
        index := index + 1;
        continue;
      }

      if IsTotal(line) {
        potentialTotalLine := index;
        processingItems := false;
      }

      if processingItems || potentialTotalLine == -1 {
        var item := TryItemPatterns(ItemPatterns, line);
        assert item == LineItem(line);
        if item.Some? {
          items := items + [item.value];
        }
      }
      index := index + 1;
    }
    ScanUpToSpec(lines, ds, |lines|);
    DecisionsDecided(lines);
  }

  /** `parseReceiptText`. */
  method ParseReceiptText(text: string)
    returns (store: string, date: string, time: string, items: seq<ReceiptItem>)
    ensures store == StoreName(NormalizeLines(text))
    ensures date == FirstLineMatch(NormalizeLines(text), DatePatterns).GetOr("Unknown Date")
    ensures time == FirstLineMatch(NormalizeLines(text), TimePatterns).GetOr("Unknown Time")
    ensures items == ParseItems(NormalizeLines(text))
    ensures forall k :: 0 <= k < |items| ==> WellFormed(items[k])
  {
    var lines := NormalizeLines(text);
    store := StoreFromLines(lines);
    date := SearchLines(lines, DatePatterns, "Unknown Date");
    time := SearchLines(lines, TimePatterns, "Unknown Time");
    items := ItemsFromLines(lines);
    ParseItemsWellFormed(lines);
  }
}
