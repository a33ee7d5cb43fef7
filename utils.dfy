/**
 * String helpers of lib/utils.ts: the Hijri date formatter and the word capitaliser, with the
 * pieces of JavaScript they rely on (`split`, `join`, `parseInt(_, 10)`, number printing and
 * case mapping) written out.
 */
module Utils {
  import opened SolatTypes

  // ---------------------------------------------------------------------------------------
  // Decimal digits
  // ---------------------------------------------------------------------------------------

  predicate IsDigit(c: char) {
    '0' <= c <= '9'
  }

  predicate AllDigits(s: string) {
    forall i :: 0 <= i < |s| ==> IsDigit(s[i])
  }

  function DigitChar(d: nat): (c: char)
    requires d < 10
    ensures IsDigit(c)
  {
    ('0' as int + d) as char
  }

  /** A string of digits contains no separator character. */
  lemma DigitsExclude(s: string, c: char)
    requires AllDigits(s) && !IsDigit(c)
    ensures c !in s
  {
  }

  /** The number a string of decimal digits denotes; leading zeros are allowed. */
  function DigitsValue(s: string): nat
    requires AllDigits(s)
  {
    if s == [] then 0 else DigitsValue(s[..|s| - 1]) * 10 + (s[|s| - 1] as int - '0' as int)
  }

  /** How JavaScript prints a non-negative integer: decimal, no leading zeros. */
  function NatToString(n: nat): (s: string)
    ensures 1 <= |s| && AllDigits(s)
    ensures |s| > 1 ==> s[0] != '0'
    ensures |s| == 1 <==> n < 10
    ensures n < 100 ==> |s| <= 2
  {
    if n < 10 then [DigitChar(n)] else NatToString(n / 10) + [DigitChar(n % 10)]
  }

  lemma {:induction false} NatToStringValue(n: nat)
    ensures DigitsValue(NatToString(n)) == n
  {
    if n >= 10 {
      var s := NatToString(n);
      assert s[..|s| - 1] == NatToString(n / 10);
      NatToStringValue(n / 10);
    }
  }

  /** How JavaScript prints an integral number. */
  function IntToString(i: int): string {
    if i < 0 then "-" + NatToString(-i) else NatToString(i)
  }

  /** How JavaScript prints the result of `parseInt`: None stands for NaN. */
  function ShowNumber(n: Option<int>): string {
    match n
    case None => "NaN"
    case Some(i) => IntToString(i)
  }

  // ---------------------------------------------------------------------------------------
  // parseInt(s, 10)
  // ---------------------------------------------------------------------------------------

  predicate IsWhiteSpace(c: char) {
    c == ' ' || c == '\t' || c == '\n' || c == '\r' || c == '\U{0B}' || c == '\U{0C}'
  }

  function TrimStart(s: string): (t: string)
    ensures |t| <= |s| && t == s[|s| - |t|..]
    ensures |t| > 0 ==> !IsWhiteSpace(t[0])
  {
    if |s| > 0 && IsWhiteSpace(s[0]) then TrimStart(s[1..]) else s
  }

  /** Length of the longest prefix of `s` made of decimal digits. */
  function DigitPrefix(s: string): (k: nat)
    ensures k <= |s| && AllDigits(s[..k])
    ensures k < |s| ==> !IsDigit(s[k])
  {
    if |s| > 0 && IsDigit(s[0]) then
      var k := 1 + DigitPrefix(s[1..]);
      assert s[..k] == [s[0]] + s[1..][..k - 1];
      k
    else 0
  }

  /**
   * `parseInt(s, 10)`: leading white space is skipped, an optional sign is read, then the
   * longest run of digits; None (NaN) when that run is empty.
   */
  function ParseInt(s: string): Option<int> {
    var t := TrimStart(s);
    var negative := |t| > 0 && t[0] == '-';
    var body := if |t| > 0 && (t[0] == '-' || t[0] == '+') then t[1..] else t;
    var k := DigitPrefix(body);
    if k == 0 then None
    else
      var magnitude: int := DigitsValue(body[..k]);
      Some(if negative then -magnitude else magnitude)
  }

  lemma ParseIntOfDigits(s: string)
    requires s != [] && AllDigits(s)
    ensures ParseInt(s) == Some(DigitsValue(s))
  {
    assert !IsWhiteSpace(s[0]) && s[0] != '-' && s[0] != '+';
    assert TrimStart(s) == s;
    AllDigitsPrefix(s);
    assert s[..|s|] == s;
  }

  lemma {:induction false} AllDigitsPrefix(s: string)
    requires AllDigits(s)
    ensures DigitPrefix(s) == |s|
  {
    if |s| > 0 {
      AllDigitsPrefix(s[1..]);
    }
  }

  /** parseInt reads back what JavaScript prints for a non-negative integer. */
  lemma ParseIntNatToString(n: nat)
    ensures ParseInt(NatToString(n)) == Some(n)
  {
    ParseIntOfDigits(NatToString(n));
    NatToStringValue(n);
  }

  // ---------------------------------------------------------------------------------------
  // split and join
  // ---------------------------------------------------------------------------------------

  /** `s.split(sep)` for a one-character separator: always at least one piece. */
  function Split(s: string, sep: char): (ws: seq<string>)
    ensures |ws| >= 1
    ensures forall i :: 0 <= i < |ws| ==> sep !in ws[i]
  {
    if |s| == 0 then [""]
    else if s[0] == sep then [""] + Split(s[1..], sep)
    else
      var rest := Split(s[1..], sep);
      [[s[0]] + rest[0]] + rest[1..]
  }

  /** `ws.join(sep)` for a one-character separator. */
  function Join(ws: seq<string>, sep: char): string {
    if |ws| == 0 then ""
    else if |ws| == 1 then ws[0]
    else ws[0] + [sep] + Join(ws[1..], sep)
  }

  /** Joining the pieces of a split gives back the original string. */
  lemma {:induction false} JoinSplit(s: string, sep: char)
    ensures Join(Split(s, sep), sep) == s
  {
    if |s| > 0 {
      var rest := Split(s[1..], sep);
      JoinSplit(s[1..], sep);
      if s[0] == sep {
        assert ([""] + rest)[1..] == rest;
      } else if |rest| > 1 {
        assert ([[s[0]] + rest[0]] + rest[1..])[1..] == rest[1..];
      }
    }
  }

  /** A piece without the separator, followed by the separator, splits off as one piece. */
  lemma {:induction false} SplitAfterPiece(a: string, sep: char, b: string)
    requires sep !in a
    ensures Split(a + [sep] + b, sep) == [a] + Split(b, sep)
  {
    if a == [] {
      assert ([] + [sep] + b)[1..] == b;
    } else {
      assert (a + [sep] + b)[0] == a[0] != sep;
      assert (a + [sep] + b)[1..] == a[1..] + [sep] + b;
      SplitAfterPiece(a[1..], sep, b);
      assert [a[0]] + a[1..] == a;
    }
  }

  /** A string without the separator splits into itself alone. */
  lemma {:induction false} SplitWithoutSep(a: string, sep: char)
    requires sep !in a
    ensures Split(a, sep) == [a]
  {
    if a != [] {
      assert a[0] != sep;
      SplitWithoutSep(a[1..], sep);
      assert [a[0]] + a[1..] == a;
    }
  }

  /** Three separator-free pieces joined by the separator split back into those pieces. */
  lemma SplitThree(a: string, b: string, c: string, sep: char)
    requires sep !in a && sep !in b && sep !in c
    ensures Split(a + [sep] + b + [sep] + c, sep) == [a, b, c]
  {
    SplitWithoutSep(c, sep);
    SplitAfterPiece(b, sep, c);
    assert a + [sep] + b + [sep] + c == a + [sep] + (b + [sep] + c);
    SplitAfterPiece(a, sep, b + [sep] + c);
  }

  // ---------------------------------------------------------------------------------------
  // formatHijri
  // ---------------------------------------------------------------------------------------

  const HijriMonths: seq<string> := [
    "Muharram", "Safar", "Rabiul Awwal", "Rabiul Akhir", "Jamadil Awwal", "Jamadil Akhir",
    "Rejab", "Syaaban", "Ramadhan", "Syawwal", "Zulkaedah", "Zulhijjah"]

  /** `hijriMonths[month]` concatenated into a string: "undefined" outside the table. */
  function MonthName(month: Option<int>): string {
    if month.Some? && 1 <= month.value <= 12 then HijriMonths[month.value - 1] else "undefined"
  }

  /** The month number a name stands for: its position in the table, counted from 1. */
  function MonthNumber(name: string): (m: Option<int>)
    ensures m.Some? ==> 1 <= m.value <= 12 && HijriMonths[m.value - 1] == name
    ensures m.None? ==> name !in HijriMonths
  {
    IndexFrom(name, 0)
  }

  function IndexFrom(name: string, from: nat): (m: Option<int>)
    requires from <= 12
    ensures m.Some? ==> from < m.value <= 12 && HijriMonths[m.value - 1] == name
    ensures m.None? ==> forall i :: from <= i < 12 ==> HijriMonths[i] != name
    decreases 12 - from
  {
    if from == 12 then None
    else if HijriMonths[from] == name then Some(from + 1)
    else IndexFrom(name, from + 1)
  }

  /**
   * The month a table name belongs to, read off its length and one distinguishing
   * character (0 for other strings).
   */
  function MonthOfName(s: string): int {
    if |s| == 5 then (if s[0] == 'S' then 2 else 7)
    else if |s| == 7 then (if s[3] == 'a' then 8 else 10)
    else if |s| == 8 then (if s[0] == 'M' then 1 else 9)
    else if |s| == 9 && s[0] == 'Z' then (if s[3] == 'k' then 11 else 12)
    else if |s| == 12 then (if s[9] == 'w' then 3 else 4)
    else if |s| == 13 then (if s[9] == 'w' then 5 else 6)
    else 0
  }

  lemma MonthOfNames()
    ensures forall i :: 0 <= i < 12 ==> MonthOfName(HijriMonths[i]) == i + 1
  {
    assert MonthOfName(HijriMonths[0]) == 1;
    assert MonthOfName(HijriMonths[1]) == 2;
    assert MonthOfName(HijriMonths[2]) == 3;
    assert MonthOfName(HijriMonths[3]) == 4;
    assert MonthOfName(HijriMonths[4]) == 5;
    assert MonthOfName(HijriMonths[5]) == 6;
    assert MonthOfName(HijriMonths[6]) == 7;
    assert MonthOfName(HijriMonths[7]) == 8;
    assert MonthOfName(HijriMonths[8]) == 9;
    assert MonthOfName(HijriMonths[9]) == 10;
    assert MonthOfName(HijriMonths[10]) == 11;
    assert MonthOfName(HijriMonths[11]) == 12;
  }

  /**
   * Reading a month's name back gives its number, so the twelve months have twelve
   * different names, and none of them is "undefined".
   */
  lemma MonthNameRoundTrip(month: int)
    requires 1 <= month <= 12
    ensures MonthNumber(MonthName(Some(month))) == Some(month)
    ensures MonthName(Some(month)) != "undefined"
  {
    MonthOfNames();
    var name := HijriMonths[month - 1];
    assert MonthOfName(name) == month;
    assert MonthOfName("undefined") == 0;
    var m := MonthNumber(name);
    if m.Some? {
      assert MonthOfName(HijriMonths[m.value - 1]) == m.value;
    }
  }

  lemma UndefinedIsNoMonth()
    ensures MonthNumber("undefined").None?
  {
    MonthOfNames();
    assert MonthOfName("undefined") == 0;
  }

  /**
   * The printed month is a name of the table exactly when the month is 1 to 12; anything
   * else, NaN included, prints "undefined", which is not a month name.
   */
  lemma MonthNameIsMonthIffInRange(month: Option<int>)
    ensures MonthNumber(MonthName(month)).Some? <==> month.Some? && 1 <= month.value <= 12
    ensures !(month.Some? && 1 <= month.value <= 12) ==> MonthName(month) == "undefined"
  {
    if month.Some? && 1 <= month.value <= 12 {
      MonthNameRoundTrip(month.value);
    } else {
      UndefinedIsNoMonth();
    }
  }

  /** "day monthName yearH", each number printed as JavaScript prints it. */
  function HijriText(year: Option<int>, month: Option<int>, day: Option<int>): string {
    ShowNumber(day) + " " + MonthName(month) + " " + ShowNumber(year) + "H"
  }

  /**
   * `formatHijri(input)`: split on '-', parse year, month and day with parseInt, and print
   * them. A missing piece parses as NaN.
   */
  function FormatHijri(input: string): string {
    var parts := Split(input, '-');
    var year := ParseInt(parts[0]);
    var month := if |parts| > 1 then ParseInt(parts[1]) else None;
    var day := if |parts| > 2 then ParseInt(parts[2]) else None;
    HijriText(year, month, day)
  }

  /**
   * On a well-formed "Y-M-D" string of digit groups (leading zeros allowed) the formatter
   * reads the three numbers the groups denote.
   */
  lemma FormatHijriDigits(y: string, m: string, d: string)
    requires y != [] && m != [] && d != [] && AllDigits(y) && AllDigits(m) && AllDigits(d)
    ensures FormatHijri(y + "-" + m + "-" + d)
         == HijriText(Some(DigitsValue(y)), Some(DigitsValue(m)), Some(DigitsValue(d)))
  {
    DigitsExclude(y, '-');
    DigitsExclude(m, '-');
    DigitsExclude(d, '-');
    SplitThree(y, m, d, '-');
    ParseIntOfDigits(y);
    ParseIntOfDigits(m);
    ParseIntOfDigits(d);
  }

  /**
   * Printing a Hijri date without leading zeros and formatting it gives the day, the month's
   * name and the year.
   */
  lemma FormatHijriRoundTrip(year: nat, month: nat, day: nat)
    requires 1 <= month <= 12
    ensures FormatHijri(NatToString(year) + "-" + NatToString(month) + "-" + NatToString(day))
         == NatToString(day) + " " + HijriMonths[month - 1] + " " + NatToString(year) + "H"
  {
    var y, m, d := NatToString(year), NatToString(month), NatToString(day);
    FormatHijriDigits(y, m, d);
    NatToStringValue(year);
    NatToStringValue(month);
    NatToStringValue(day);
    HijriTextOfNats(year, month, day);
  }

  lemma HijriTextOfNats(year: nat, month: nat, day: nat)
    requires 1 <= month <= 12
    ensures HijriText(Some(year), Some(month), Some(day))
         == NatToString(day) + " " + HijriMonths[month - 1] + " " + NatToString(year) + "H"
  {
    assert ShowNumber(Some(day)) == NatToString(day);
    assert ShowNumber(Some(year)) == NatToString(year);
    assert MonthName(Some(month)) == HijriMonths[month - 1];
  }

  lemma FormatHijriRamadhan()
    ensures FormatHijri("1446-09-05") == "5 Ramadhan 1446H"
  {
    assert "1446-09-05" == "1446" + "-" + "09" + "-" + "05";
    ExampleParse();
    ExampleText();
  }

  lemma ExampleParse()
    ensures FormatHijri("1446" + "-" + "09" + "-" + "05") == HijriText(Some(1446), Some(9), Some(5))
  {
    FormatHijriDigits("1446", "09", "05");
    ExampleDigits();
  }

  lemma ExampleText()
    ensures HijriText(Some(1446), Some(9), Some(5)) == "5 Ramadhan 1446H"
  {
    ExampleDigits();
    assert ShowNumber(Some(5)) == "5";
    assert ShowNumber(Some(1446)) == "1446";
    assert MonthName(Some(9)) == "Ramadhan";
  }

  lemma ExampleDigits()
    ensures DigitsValue("09") == 9 && DigitsValue("05") == 5 && DigitsValue("1446") == 1446
    ensures NatToString(5) == "5" && NatToString(1446) == "1446"
  {
    assert "09"[..1] == "0" && "05"[..1] == "0";
    assert "1446"[..3] == "144" && "144"[..2] == "14" && "14"[..1] == "1";
    assert NatToString(14) == "14";
    assert NatToString(144) == "144";
  }

  // ---------------------------------------------------------------------------------------
  // cap1st
  // ---------------------------------------------------------------------------------------

  /** `toLowerCase` on one character; only ASCII letters change. */
  function LowerChar(c: char): char {
    if 'A' <= c <= 'Z' then (c as int + 32) as char else c
  }

  /** `toUpperCase` on one character; only ASCII letters change. */
  function UpperChar(c: char): char {
    if 'a' <= c <= 'z' then (c as int - 32) as char else c
  }

  function Lower(s: string): (t: string)
    ensures |t| == |s|
  {
    seq(|s|, i requires 0 <= i < |s| => LowerChar(s[i]))
  }

  /** `word.charAt(0).toUpperCase() + word.slice(1)`. */
  function CapWord(w: string): string {
    if w == [] then [] else [UpperChar(w[0])] + w[1..]
  }

  /** Every word capitalised, in order. */
  function MapCapWord(ws: seq<string>): (r: seq<string>)
    ensures |r| == |ws|
    ensures forall i :: 0 <= i < |ws| ==> r[i] == CapWord(ws[i])
  {
    if |ws| == 0 then [] else [CapWord(ws[0])] + MapCapWord(ws[1..])
  }

  /**
   * Capitalisation by position: the character at the start of the string or right after a
   * space is upper-cased, every other one kept.
   */
  function CapFrom(s: string, atStart: bool): (r: string)
    ensures |r| == |s|
  {
    if s == [] then [] else [if atStart then UpperChar(s[0]) else s[0]] + CapFrom(s[1..], s[0] == ' ')
  }

  /** Position `i` begins a word: it is the first character or follows a space. */
  predicate WordStart(s: string, i: int)
    requires 0 <= i < |s|
  {
    i == 0 || s[i - 1] == ' '
  }

  /** What `cap1st(s)` is meant to return, character by character. */
  function Capitalized(s: string): (r: string)
    ensures |r| == |s|
  {
    CapFrom(Lower(s), true)
  }

  lemma {:induction false} CapFromAt(s: string, atStart: bool, i: int)
    requires 0 <= i < |s|
    ensures CapFrom(s, atStart)[i]
         == if (i == 0 && atStart) || (i > 0 && s[i - 1] == ' ') then UpperChar(s[i]) else s[i]
  {
    if i > 0 {
      CapFromAt(s[1..], s[0] == ' ', i - 1);
    }
  }

  /** Each character of `cap1st(s)`: upper case at a word start, lower case elsewhere. */
  lemma CapitalizedAt(s: string, i: int)
    requires 0 <= i < |s|
    ensures Capitalized(s)[i]
         == if WordStart(s, i) then UpperChar(LowerChar(s[i])) else LowerChar(s[i])
  {
    CapFromAt(Lower(s), true, i);
  }

  /** cap1st keeps the length and moves no space. */
  lemma CapitalizedKeepsSpaces(s: string)
    ensures |Capitalized(s)| == |s|
    ensures forall i :: 0 <= i < |s| ==> (Capitalized(s)[i] == ' ' <==> s[i] == ' ')
  {
    forall i | 0 <= i < |s|
      ensures Capitalized(s)[i] == ' ' <==> s[i] == ' '
    {
      CapitalizedAt(s, i);
    }
  }

  /** Outside word starts cap1st produces only characters that lower-casing leaves alone. */
  lemma CapitalizedLowerInside(s: string, i: int)
    requires 0 <= i < |s| && !WordStart(s, i)
    ensures LowerChar(Capitalized(s)[i]) == Capitalized(s)[i]
    ensures !('A' <= Capitalized(s)[i] <= 'Z')
  {
    CapitalizedAt(s, i);
  }

  /** cap1st is idempotent. */
  lemma CapitalizedIdempotent(s: string)
    ensures Capitalized(Capitalized(s)) == Capitalized(s)
  {
    var c := Capitalized(s);
    CapitalizedKeepsSpaces(s);
    forall i | 0 <= i < |s|
      ensures Capitalized(c)[i] == c[i]
    {
      CapitalizedAt(s, i);
      CapitalizedAt(c, i);
      assert WordStart(c, i) == WordStart(s, i);
    }
  }

  /** Joining a piece in front of at least one more puts the separator between them. */
  lemma JoinCons(w: string, ws: seq<string>, sep: char)
    requires |ws| >= 1
    ensures Join([w] + ws, sep) == w + [sep] + Join(ws, sep)
  {
    assert ([w] + ws)[1..] == ws;
  }

  /** A character put in front of the first piece comes out in front of the join. */
  lemma JoinPrepend(c: char, w: string, ws: seq<string>, sep: char)
    ensures Join([[c] + w] + ws, sep) == [c] + Join([w] + ws, sep)
  {
    if |ws| >= 1 {
      JoinCons([c] + w, ws, sep);
      JoinCons(w, ws, sep);
    }
  }

  /** Joining the capitalised words of a space-split string capitalises by position. */
  lemma {:induction false} JoinCapWords(s: string, atStart: bool)
    ensures var ws := Split(s, ' ');
            Join([if atStart then CapWord(ws[0]) else ws[0]] + MapCapWord(ws[1..]), ' ')
              == CapFrom(s, atStart)
    decreases |s|, 1
  {
    if |s| > 0 {
      if s[0] == ' ' {
        JoinCapWordsAfterSpace(s, atStart);
      } else {
        JoinCapWordsInWord(s, atStart);
      }
    }
  }

  /** The step of JoinCapWords for a string that starts with a space: an empty first word. */
  lemma {:induction false} JoinCapWordsAfterSpace(s: string, atStart: bool)
    requires |s| > 0 && s[0] == ' '
    ensures var ws := Split(s, ' ');
            Join([if atStart then CapWord(ws[0]) else ws[0]] + MapCapWord(ws[1..]), ' ')
              == CapFrom(s, atStart)
    decreases |s|, 0
  {
    var rest := Split(s[1..], ' ');
    JoinCapWords(s[1..], true);
    assert Split(s, ' ') == [""] + rest;
    assert ([""] + rest)[0] == "" && ([""] + rest)[1..] == rest;
    assert CapFrom(s, atStart) == [' '] + CapFrom(s[1..], true);
    JoinCons("", MapCapWord(rest), ' ');
  }

  /** The step of JoinCapWords for a string that starts inside its first word. */
  lemma {:induction false} JoinCapWordsInWord(s: string, atStart: bool)
    requires |s| > 0 && s[0] != ' '
    ensures var ws := Split(s, ' ');
            Join([if atStart then CapWord(ws[0]) else ws[0]] + MapCapWord(ws[1..]), ' ')
              == CapFrom(s, atStart)
    decreases |s|, 0
  {
    var rest := Split(s[1..], ' ');
    JoinCapWords(s[1..], false);
    var c := if atStart then UpperChar(s[0]) else s[0];
    var ws := [[s[0]] + rest[0]] + rest[1..];
    assert Split(s, ' ') == ws;
    assert ws[0] == [s[0]] + rest[0] && ws[1..] == rest[1..];
    assert CapFrom(s, atStart) == [c] + CapFrom(s[1..], false);
    assert (if atStart then CapWord(ws[0]) else ws[0]) == [c] + rest[0];
    JoinPrepend(c, rest[0], MapCapWord(rest[1..]), ' ');
  }

  /** Capitalising every word of a space-split string and joining them capitalises by position. */
  lemma JoinMapCapWord(s: string)
    ensures Join(MapCapWord(Split(s, ' ')), ' ') == CapFrom(s, true)
  {
    var ws := Split(s, ' ');
    JoinCapWords(s, true);
  }

  /**
   * `cap1st(str)`: lower-case, split on " ", overwrite each word with its capitalised form
   * in place, join with " ". The result is the positional capitalisation of the input.
   */
  method Cap1st(str: string) returns (r: string)
    ensures r == Capitalized(str)
  {
    var strLow := Lower(str);
    var parts := Split(strLow, ' ');
    var strWords := new string[|parts|](i requires 0 <= i < |parts| => parts[i]);
    assert strWords[..] == parts;
    CapitalizeEach(strWords);
    JoinMapCapWord(strLow);
    r := Join(strWords[..], ' ');
  }

  /** The loop of `cap1st`: each word of the array is overwritten with its capitalised form. */
  method CapitalizeEach(strWords: array<string>)
    modifies strWords
    ensures strWords[..] == MapCapWord(old(strWords[..]))
  {
    ghost var parts := strWords[..];
    var i := 0;
    while i < strWords.Length
      invariant 0 <= i <= strWords.Length
      invariant forall k :: 0 <= k < i ==> strWords[k] == CapWord(parts[k])
      invariant forall k :: i <= k < strWords.Length ==> strWords[k] == parts[k]
    {
      strWords[i] := CapWord(strWords[i]);
      i := i + 1;
    }
    assert strWords[..] == MapCapWord(parts);
  }
}
