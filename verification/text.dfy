/** ASCII text primitives shared by the receipt model: character classes,
    trimming, case mapping, substring search, splitting, joining and the
    decimal rendering of counts. Swift's Unicode-aware `String` operations
    are modelled on ASCII `seq<char>`. */
module Text {

  datatype Option<+T> = None | Some(value: T) {
    /** The wrapped value, or `default` when there is none (Swift's `??`). */
    function GetOr(default: T): T {
      match this
      case Some(v) => v
      case None => default
    }
  }

  // ---------------------------------------------------------------------
  // Character classes
  // ---------------------------------------------------------------------

  /** `\d` on ASCII input. */
  predicate IsDigit(c: char) { '0' <= c <= '9' }

  predicate IsLetter(c: char) { 'a' <= c <= 'z' || 'A' <= c <= 'Z' }

  /** `\w` on ASCII input. */
  predicate IsWordChar(c: char) { IsLetter(c) || IsDigit(c) || c == '_' }

  /** Foundation's `.whitespaces` restricted to ASCII: space and tab. */
  predicate IsBlank(c: char) { c == ' ' || c == '\t' }

  /** Foundation's `.newlines` restricted to ASCII: LF, VT, FF and CR. */
  predicate IsNewline(c: char) {
    c == '\n' || c == '\U{000B}' || c == '\U{000C}' || c == '\r'
  }

  /** `.whitespacesAndNewlines`, which on ASCII is also the regex class `\s`. */
  predicate IsSpace(c: char) { IsBlank(c) || IsNewline(c) }

  /** The two character sets the source trims with. */
  datatype CharSet = Whitespaces | WhitespacesAndNewlines {
    predicate Has(c: char) {
      match this
      case Whitespaces => IsBlank(c)
      case WhitespacesAndNewlines => IsSpace(c)
    }
  }

  // ---------------------------------------------------------------------
  // Case mapping
  // ---------------------------------------------------------------------

  function UpperChar(c: char): char {
    if 'a' <= c <= 'z' then (c as int - 32) as char else c
  }

  function LowerChar(c: char): char {
    if 'A' <= c <= 'Z' then (c as int + 32) as char else c
  }

  /** `String.uppercased()` on ASCII. */
  function Uppercased(s: string): (r: string)
    ensures |r| == |s|
    ensures forall i :: 0 <= i < |s| ==> r[i] == UpperChar(s[i])
  {
    seq(|s|, i requires 0 <= i < |s| => UpperChar(s[i]))
  }

  /** `String.lowercased()` on ASCII. */
  function Lowercased(s: string): (r: string)
    ensures |r| == |s|
    ensures forall i :: 0 <= i < |s| ==> r[i] == LowerChar(s[i])
  {
    seq(|s|, i requires 0 <= i < |s| => LowerChar(s[i]))
  }

  // ---------------------------------------------------------------------
  // Trimming
  // ---------------------------------------------------------------------

  /** Neither end of `s` is in `cs`. */
  predicate IsTrimmed(s: string, cs: CharSet) {
    s == [] || (!cs.Has(s[0]) && !cs.Has(s[|s| - 1]))
  }

  function TrimStart(s: string, cs: CharSet): (r: string)
    ensures |r| <= |s| && r == s[|s| - |r|..]
    ensures r == [] || !cs.Has(r[0])
    ensures forall i :: 0 <= i < |s| - |r| ==> cs.Has(s[i])
    decreases |s|
  {
    if s != [] && cs.Has(s[0]) then TrimStart(s[1..], cs) else s
  }

  function TrimEnd(s: string, cs: CharSet): (r: string)
    ensures |r| <= |s| && r == s[..|r|]
    ensures r == [] || !cs.Has(r[|r| - 1])
    ensures forall i :: |r| <= i < |s| ==> cs.Has(s[i])
    decreases |s|
  {
    if s != [] && cs.Has(s[|s| - 1]) then TrimEnd(s[..|s| - 1], cs) else s
  }

  /** `trimmingCharacters(in:)`: the result is the slice of `s` left after
      dropping every leading and trailing character of `cs`. */
  function Trim(s: string, cs: CharSet): (r: string)
    ensures IsTrimmed(r, cs)
    ensures IsTrimmed(s, cs) ==> r == s
    ensures |r| <= |s| && forall i :: 0 <= i < |r| ==> r[i] in s
  {
    var t := TrimStart(s, cs);
    var r := TrimEnd(t, cs);
    assert forall i :: 0 <= i < |r| ==> r[i] == t[i] == s[|s| - |t| + i];
    if IsTrimmed(s, cs) then
      assert s == [] || !cs.Has(s[0]);
      assert t == s;
      r
    else r
  }

  // ---------------------------------------------------------------------
  // Prefixes and substrings
  // ---------------------------------------------------------------------

  predicate StartsWith(s: string, prefix: string) {
    |prefix| <= |s| && s[..|prefix|] == prefix
  }

  /** `s.contains(sub)`: `sub` occurs in `s` at some position. */
  predicate Contains(s: string, sub: string)
    decreases |s|
  {
    StartsWith(s, sub) || (s != [] && Contains(s[1..], sub))
  }

  /** Number of occurrences of `c` in `s`. */
  function Count(s: string, c: char): nat
    decreases |s|
  {
    if s == [] then 0 else (if s[0] == c then 1 else 0) + Count(s[1..], c)
  }

  lemma {:induction false} CountZero(s: string, c: char)
    ensures Count(s, c) == 0 <==> c !in s
    decreases |s|
  {
    if s != [] {
      CountZero(s[1..], c);
      assert c in s <==> s[0] == c || c in s[1..];
    }
  }

  /** `replacingOccurrences(of:with:)` for one character by one character. */
  function ReplaceChar(s: string, from: char, to: char): (r: string)
    ensures |r| == |s|
    ensures forall i :: 0 <= i < |s| ==> r[i] == if s[i] == from then to else s[i]
  {
    seq(|s|, i requires 0 <= i < |s| => if s[i] == from then to else s[i])
  }

  /** `replacingOccurrences(of:with: "")` for one character. */
  function RemoveChar(s: string, c: char): (r: string)
    ensures c !in r
    ensures |r| <= |s|
    decreases |s|
  {
    if s == [] then [] else (if s[0] == c then [] else [s[0]]) + RemoveChar(s[1..], c)
  }

  // ---------------------------------------------------------------------
  // Splitting and joining
  // ---------------------------------------------------------------------

  /** A separator for `components(separatedBy:)`: one character, or the
      whole `.newlines` character set. */
  datatype Delimiter = Char(c: char) | Newlines {
    predicate Has(x: char) {
      match this
      case Char(c) => x == c
      case Newlines => IsNewline(x)
    }
  }

  predicate NoDelimiter(s: string, d: Delimiter) {
    forall i :: 0 <= i < |s| ==> !d.Has(s[i])
  }

  /** `components(separatedBy:)`: the maximal delimiter-free runs of `s`,
      in order; `k` delimiters give `k + 1` pieces, so `""` gives `[""]`. */
  function Split(s: string, d: Delimiter): (parts: seq<string>)
    ensures |parts| >= 1
    decreases |s|
  {
    if s == [] then [[]]
    else
      var rest := Split(s[1..], d);
      if d.Has(s[0]) then [[]] + rest
      else [[s[0]] + rest[0]] + rest[1..]
  }

  /** `joined(separator:)`. */
  function Join(parts: seq<string>, sep: string): string
    decreases |parts|
  {
    if |parts| == 0 then []
    else if |parts| == 1 then parts[0]
    else parts[0] + sep + Join(parts[1..], sep)
  }

  /** No piece holds a delimiter. */
  lemma {:induction false} SplitPartsFree(s: string, d: Delimiter)
    ensures forall i :: 0 <= i < |Split(s, d)| ==> NoDelimiter(Split(s, d)[i], d)
    decreases |s|
  {
    if s != [] {
      SplitPartsFree(s[1..], d);
    }
  }

  lemma {:induction false} SplitNoDelimiter(s: string, d: Delimiter)
    requires NoDelimiter(s, d)
    ensures Split(s, d) == [s]
    decreases |s|
  {
    if s != [] {
      SplitNoDelimiter(s[1..], d);
      assert [s[0]] + s[1..] == s;
    }
  }

  /** One step of `Split`: the first character either starts a new piece
      or joins the first piece of the rest. */
  lemma SplitCons(h: char, t: string, d: Delimiter)
    ensures var rest := Split(t, d);
      Split([h] + t, d) == if d.Has(h) then [[]] + rest else [[h] + rest[0]] + rest[1..]
  {
    assert ([h] + t)[1..] == t;
  }

  /** Splitting is compositional around one delimiter character. */
  lemma {:induction false} SplitAppend(x: string, c: char, y: string, d: Delimiter)
    requires d.Has(c)
    ensures Split(x + [c] + y, d) == Split(x, d) + Split(y, d)
    decreases |x|
  {
    if x == [] {
      assert x + [c] + y == [c] + y;
      SplitCons(c, y, d);
    } else {
      var h, t := x[0], x[1..];
      assert x == [h] + t;
      assert x + [c] + y == [h] + (t + [c] + y);
      SplitCons(h, t + [c] + y, d);
      SplitCons(h, t, d);
      SplitAppend(t, c, y, d);
      ConsPieces(h, d.Has(h), Split(t, d), Split(y, d));
    }
  }

  /** The piece arithmetic behind `SplitAppend`, apart from `Split`. */
  lemma ConsPieces(h: char, starts: bool, a: seq<string>, b: seq<string>)
    requires |a| >= 1
    ensures (if starts then [[]] + (a + b) else [[h] + (a + b)[0]] + (a + b)[1..])
      == (if starts then [[]] + a else [[h] + a[0]] + a[1..]) + b
  {
    if !starts {
      assert (a + b)[1..] == a[1..] + b;
    }
  }

  /** Splitting text that ends with a delimiter: the trailing empty piece of
      the first half is absorbed by the second half. */
  lemma SplitAfterDelimiter(x: string, y: string, d: Delimiter)
    requires |x| > 0 && d.Has(x[|x| - 1])
    ensures var px := Split(x, d);
      Split(x + y, d) == px[..|px| - 1] + Split(y, d)
  {
    var x' := x[..|x| - 1];
    var c := x[|x| - 1];
    assert x == x' + [c] + [];
    SplitAppend(x', c, [], d);
    assert x + y == x' + [c] + y;
    SplitAppend(x', c, y, d);
  }

  /** Splitting undoes joining when no piece contains the delimiter. */
  lemma {:induction false} SplitJoin(parts: seq<string>, c: char)
    requires |parts| >= 1
    requires forall i :: 0 <= i < |parts| ==> c !in parts[i]
    ensures Split(Join(parts, [c]), Char(c)) == parts
    decreases |parts|
  {
    assert NoDelimiter(parts[0], Char(c));
    SplitNoDelimiter(parts[0], Char(c));
    if |parts| > 1 {
      SplitJoin(parts[1..], c);
      SplitAppend(parts[0], c, Join(parts[1..], [c]), Char(c));
      assert [parts[0]] + parts[1..] == parts;
    }
  }

  /** Joining undoes splitting. */
  lemma {:induction false} JoinSplit(s: string, c: char)
    ensures Join(Split(s, Char(c)), [c]) == s
    decreases |s|
  {
    if s != [] {
      JoinSplit(s[1..], c);
      var rest := Split(s[1..], Char(c));
      if s[0] == c {
        assert Split(s, Char(c)) == [[]] + rest;
        assert ([[]] + rest)[1..] == rest;
      } else {
        var parts := Split(s, Char(c));
        assert parts == [[s[0]] + rest[0]] + rest[1..];
        if |rest| == 1 {
          assert Join(parts, [c]) == [s[0]] + rest[0];
        } else {
          assert parts[1..] == rest[1..];
          assert Join(rest, [c]) == rest[0] + [c] + Join(rest[1..], [c]);
        }
      }
    }
  }

  /** Joining a first part onto the rest puts the separator between. */
  lemma JoinCons(x: string, rest: seq<string>, sep: string)
    requires |rest| >= 1
    ensures Join([x] + rest, sep) == x + sep + Join(rest, sep)
  {
    assert ([x] + rest)[1..] == rest;
  }

  /** A character that is in no piece and not in the separator is not in
      the joined text. */
  lemma {:induction false} JoinAvoids(parts: seq<string>, sep: string, c: char)
    requires c !in sep
    requires forall i :: 0 <= i < |parts| ==> c !in parts[i]
    ensures c !in Join(parts, sep)
    decreases |parts|
  {
    if |parts| > 1 {
      JoinAvoids(parts[1..], sep, c);
    }
  }

  /** Splitting text that ends with one delimiter: its delimiter-free body,
      then an empty piece. */
  lemma SplitTerminated(s: string, c: char)
    requires c !in s
    ensures Split(s + [c], Char(c)) == [s, []]
  {
    assert NoDelimiter(s, Char(c));
    SplitNoDelimiter(s, Char(c));
    assert s + [c] == s + [c] + [];
    SplitAppend(s, c, [], Char(c));
  }

  /** One more piece than there are delimiter characters. */
  lemma {:induction false} SplitCount(s: string, c: char)
    ensures |Split(s, Char(c))| == Count(s, c) + 1
    decreases |s|
  {
    if s != [] {
      SplitCount(s[1..], c);
    }
  }

  // ---------------------------------------------------------------------
  // Decimal rendering of counts
  // ---------------------------------------------------------------------

  function DigitChar(d: nat): char
    requires d < 10
  {
    "0123456789"[d]
  }

  /** String interpolation of a non-negative `Int`. */
  function NatToString(n: nat): (s: string)
    ensures |s| >= 1
    ensures forall i :: 0 <= i < |s| ==> IsDigit(s[i])
    decreases n
  {
    if n < 10 then [DigitChar(n)] else NatToString(n / 10) + [DigitChar(n % 10)]
  }

  /** The value of a string of decimal digits. */
  function DecimalValue(s: string): nat
    requires forall i :: 0 <= i < |s| ==> IsDigit(s[i])
    decreases |s|
  {
    if s == [] then 0
    else
      assert IsDigit(s[|s| - 1]);
      DecimalValue(s[..|s| - 1]) * 10 + (s[|s| - 1] as int - '0' as int)
  }

  /** Rendering a count and reading it back gives the count. */
  lemma {:induction false} DecimalRoundTrip(n: nat)
    ensures DecimalValue(NatToString(n)) == n
    decreases n
  {
    var s := NatToString(n);
    if n >= 10 {
      DecimalRoundTrip(n / 10);
      assert s[..|s| - 1] == NatToString(n / 10);
    }
  }

  /** A positive count is written without a leading zero. */
  lemma {:induction false} NoLeadingZero(n: nat)
    requires n > 0
    ensures NatToString(n)[0] != '0'
    decreases n
  {
    if n >= 10 {
      NoLeadingZero(n / 10);
      assert NatToString(n)[0] == NatToString(n / 10)[0];
    }
  }
}
