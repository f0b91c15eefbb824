/**
 * Text formatting: the order identifier `VAG-YYYYMMDD-HHMMSS-XXXX`,
 * thousands grouping of amounts, and HTML entity escaping.
 */
module Format {
  import opened Strings

  // ----- Order identifier -----

  /**
   * Local date and time fields as `Date` reports them: `month` is
   * 0-based as `getMonth()` returns it.
   */
  datatype LocalTime = LocalTime(year: int, month: int, day: int, hours: int, minutes: int, seconds: int)

  predicate ValidTime(t: LocalTime)
  {
    0 <= t.month < 12 && 1 <= t.day <= 31 && 0 <= t.hours < 24 && 0 <= t.minutes < 60 && 0 <= t.seconds < 60
  }

  /** `Math.floor(u * 9000) + 1000` for a draw `u` of `Math.random()` in [0, 1). */
  function RandomSuffix(u: real): (r: int)
    requires 0.0 <= u < 1.0
    ensures 1000 <= r <= 9999
  {
    (u * 9000.0).Floor + 1000
  }

  /** `YYYYMMDD`: the year, then the 1-based month and the day padded to two digits. */
  function DatePart(t: LocalTime): string
    requires ValidTime(t)
  {
    IntToString(t.year) + Pad2(t.month + 1) + Pad2(t.day)
  }

  /** `HHMMSS`: hours, minutes and seconds, each padded to two digits. */
  function ClockPart(t: LocalTime): string
    requires ValidTime(t)
  {
    Pad2(t.hours) + Pad2(t.minutes) + Pad2(t.seconds)
  }

  /** The `YYYYMMDD-HHMMSS` stamp of the identifier. */
  function TimeStamp(t: LocalTime): string
    requires ValidTime(t)
  {
    DatePart(t) + "-" + ClockPart(t)
  }

  /** `generateOrderId()` with the clock reading and the random draw passed in. */
  function GenerateOrderId(t: LocalTime, u: real): (r: string)
    requires ValidTime(t) && 0.0 <= u < 1.0
    ensures |r| > 4 && r[..4] == "VAG-"
  {
    "VAG-" + TimeStamp(t) + "-" + NatToString(RandomSuffix(u))
  }

  /** `s` is a run of decimal digits that reads as `v`. */
  predicate FieldIs(s: string, v: int)
  {
    AllDigits(s) && DigitsValue(s) == v
  }

  /**
   * `r` is `VAG-` + 8 digits + `-` + 6 digits + `-` + 4 digits, the digit
   * fields reading back as the year, 1-based month, day, hours, minutes,
   * seconds of `t` and the suffix `n`.
   */
  predicate OrderIdFields(r: string, t: LocalTime, n: int)
  {
    |r| == 24 && r[..4] == "VAG-" && r[12] == '-' && r[19] == '-' &&
    FieldIs(r[4..8], t.year) && FieldIs(r[8..10], t.month + 1) && FieldIs(r[10..12], t.day) &&
    FieldIs(r[13..15], t.hours) && FieldIs(r[15..17], t.minutes) && FieldIs(r[17..19], t.seconds) &&
    FieldIs(r[20..], n)
  }

  /**
   * For a four-digit year the identifier has exactly that layout, and its
   * last field is the four-digit random suffix.
   */
  lemma {:induction false} OrderIdFormat(t: LocalTime, u: real)
    requires ValidTime(t) && 0.0 <= u < 1.0
    requires 1000 <= t.year <= 9999
    ensures OrderIdFields(GenerateOrderId(t, u), t, RandomSuffix(u))
    ensures 1000 <= RandomSuffix(u) <= 9999
  {
    var n := RandomSuffix(u);
    DateFields(t);
    ClockFields(t);
    SuffixField(n);
    Assemble(DatePart(t), ClockPart(t), NatToString(n), t, n);
  }

  /** The random suffix is written with exactly four digits. */
  lemma {:induction false} SuffixField(n: int)
    requires 1000 <= n <= 9999
    ensures |NatToString(n)| == 4 && FieldIs(NatToString(n), n)
  {
    assert Pow10(3) == 1000 && Pow10(4) == 10000;
    NatToStringWidth(n, 4);
    NatToStringRoundTrip(n);
  }

  /** Date, clock and suffix fields with the right widths and values assemble into a well-laid-out identifier. */
  lemma {:induction false} Assemble(date: string, clock: string, x: string, t: LocalTime, n: int)
    requires |date| == 8 && FieldIs(date[..4], t.year) && FieldIs(date[4..6], t.month + 1) && FieldIs(date[6..8], t.day)
    requires |clock| == 6 && FieldIs(clock[..2], t.hours) && FieldIs(clock[2..4], t.minutes) && FieldIs(clock[4..6], t.seconds)
    requires |x| == 4 && FieldIs(x, n)
    ensures OrderIdFields("VAG-" + (date + "-" + clock) + "-" + x, t, n)
  {
    Layout("VAG-", date, clock, x);
  }

  lemma {:induction false} Layout(a: string, date: string, clock: string, x: string)
    requires |a| == 4 && |date| == 8 && |clock| == 6 && |x| == 4
    ensures var r := a + (date + "-" + clock) + "-" + x;
      |r| == 24 && r[..4] == a && r[4..12] == date && r[12] == '-' &&
      r[13..19] == clock && r[19] == '-' && r[20..] == x &&
      r[4..8] == date[..4] && r[8..10] == date[4..6] && r[10..12] == date[6..8] &&
      r[13..15] == clock[..2] && r[15..17] == clock[2..4] && r[17..19] == clock[4..6]
  {
    var r := a + (date + "-" + clock) + "-" + x;
    assert r[4..12] == date;
    assert r[13..19] == clock;
  }

  lemma {:induction false} ThreeFields(a: string, b: string, c: string, w: nat)
    requires |a| == w && |b| == 2 && |c| == 2
    ensures var s := a + b + c; s[..w] == a && s[w..w + 2] == b && s[w + 2..w + 4] == c
  {
  }

  lemma {:induction false} DateFields(t: LocalTime)
    requires ValidTime(t) && 1000 <= t.year <= 9999
    ensures var s := DatePart(t);
      |s| == 8 && FieldIs(s[..4], t.year) && FieldIs(s[4..6], t.month + 1) && FieldIs(s[6..8], t.day)
  {
    assert Pow10(3) == 1000 && Pow10(4) == 10000;
    NatToStringWidth(t.year, 4);
    NatToStringRoundTrip(t.year);
    ThreeFields(IntToString(t.year), Pad2(t.month + 1), Pad2(t.day), 4);
  }

  lemma {:induction false} ClockFields(t: LocalTime)
    requires ValidTime(t)
    ensures var s := ClockPart(t);
      |s| == 6 && FieldIs(s[..2], t.hours) && FieldIs(s[2..4], t.minutes) && FieldIs(s[4..6], t.seconds)
  {
    ThreeFields(Pad2(t.hours), Pad2(t.minutes), Pad2(t.seconds), 2);
  }

  // ----- Thousands grouping -----

  /** Inserts a comma before every complete group of three digits counted from the right. */
  function Group(d: string): (r: string)
    decreases |d|
  {
    if |d| <= 3 then d else Group(d[..|d| - 3]) + "," + d[|d| - 3..]
  }

  /** `numberWithCommas(x)`: the decimal digits of `x`, grouped; a sign stays in front. */
  function NumberWithCommas(x: int): string
  {
    if x < 0 then "-" + Group(NatToString(-x)) else Group(NatToString(x))
  }

  function RemoveCommas(s: string): (r: string)
  {
    if s == [] then [] else (if s[0] == ',' then [] else [s[0]]) + RemoveCommas(s[1..])
  }

  lemma {:induction false} RemoveCommasAppend(a: string, b: string)
    ensures RemoveCommas(a + b) == RemoveCommas(a) + RemoveCommas(b)
  {
    if a != [] {
      assert (a + b)[1..] == a[1..] + b;
      RemoveCommasAppend(a[1..], b);
    } else {
      assert a + b == b;
    }
  }

  lemma {:induction false} RemoveCommasOfDigits(d: string)
    requires AllDigits(d)
    ensures RemoveCommas(d) == d
  {
    if d != [] {
      RemoveCommasOfDigits(d[1..]);
    }
  }

  /** Grouping only inserts commas: with them removed, the digits come back. */
  lemma {:induction false} GroupKeepsDigits(d: string)
    requires AllDigits(d)
    ensures RemoveCommas(Group(d)) == d
  {
    if |d| <= 3 {
      RemoveCommasOfDigits(d);
    } else {
      var g := Group(d[..|d| - 3]);
      var t := d[|d| - 3..];
      GroupKeepsDigits(d[..|d| - 3]);
      RemoveCommasAppend(g + ",", t);
      RemoveCommasAppend(g, ",");
      RemoveCommasOfDigits(t);
      assert RemoveCommas(",") == [];
      assert d == d[..|d| - 3] + t;
    }
  }

  /** Position `i` of `r` holds a comma exactly when a positive multiple of four characters remains, and a digit otherwise. */
  predicate WellPlaced(r: string, i: int)
    requires 0 <= i < |r|
  {
    (r[i] == ',' <==> i > 0 && (|r| - i) % 4 == 0) && (r[i] != ',' ==> IsDigit(r[i]))
  }

  /**
   * The shape of a grouped amount: every group after the first has three
   * digits and the first one to three, so the length is never a multiple
   * of four.
   */
  predicate Grouped(r: string)
  {
    |r| % 4 != 0 && forall i :: 0 <= i < |r| ==> WellPlaced(r, i)
  }

  /** Appending a comma and three digits to a grouped string keeps it grouped. */
  lemma {:induction false} GroupedAppend(g: string, t: string)
    requires Grouped(g) && |t| == 3 && AllDigits(t)
    ensures Grouped(g + "," + t)
  {
    var r := g + "," + t;
    forall i | 0 <= i < |r|
      ensures WellPlaced(r, i)
    {
      WellPlacedAfterAppend(g, t, i);
    }
  }

  lemma {:induction false} WellPlacedAfterAppend(g: string, t: string, i: int)
    requires Grouped(g) && |t| == 3 && AllDigits(t) && 0 <= i < |g| + 4
    ensures WellPlaced(g + "," + t, i)
  {
    var r := g + "," + t;
    if i < |g| {
      assert r[i] == g[i] && WellPlaced(g, i);
      assert (|r| - i) % 4 == (|g| - i) % 4;
    } else if i > |g| {
      assert r[i] == t[i - |g| - 1];
    }
  }

  /** Grouping a non-empty run of digits yields a grouped string. */
  lemma {:induction false} GroupShape(d: string)
    requires AllDigits(d) && d != []
    ensures Grouped(Group(d))
  {
    if |d| > 3 {
      GroupShape(d[..|d| - 3]);
      GroupedAppend(Group(d[..|d| - 3]), d[|d| - 3..]);
    } else {
      forall i | 0 <= i < |d|
        ensures WellPlaced(d, i)
      {
        assert IsDigit(d[i]);
      }
    }
  }

  /**
   * A non-negative amount is written as grouped digits, and removing the
   * commas gives back digits that read as the amount.
   */
  lemma {:induction false} NumberWithCommasRoundTrip(x: nat)
    ensures var r := NumberWithCommas(x);
      Grouped(r) && AllDigits(RemoveCommas(r)) && DigitsValue(RemoveCommas(r)) == x
  {
    GroupShape(NatToString(x));
    GroupKeepsDigits(NatToString(x));
    NatToStringRoundTrip(x);
  }

  // ----- HTML escaping -----

  /** `s.replace(/c/g, rep)`: every occurrence of `c`, left to right, becomes `rep`. */
  function ReplaceAll(s: string, c: char, rep: string): string
  {
    if s == [] then [] else (if s[0] == c then rep else [s[0]]) + ReplaceAll(s[1..], c, rep)
  }

  /** `escapeHtml(str)`: empty stays empty; otherwise five replacements, `&` first. */
  function EscapeHtml(s: string): string
  {
    if s == "" then ""
    else
      ReplaceAll(ReplaceAll(ReplaceAll(ReplaceAll(ReplaceAll(s,
        '&', "&amp;"), '<', "&lt;"), '>', "&gt;"), '"', "&quot;"), '\'', "&#039;")
  }

  /** Reference definition: each character escaped on its own. */
  function EscapeChar(c: char): string
  {
    match c
    case '&' => "&amp;"
    case '<' => "&lt;"
    case '>' => "&gt;"
    case '"' => "&quot;"
    case '\'' => "&#039;"
    case _ => [c]
  }

  function EscapeEach(s: string): string
  {
    if s == [] then [] else EscapeChar(s[0]) + EscapeEach(s[1..])
  }

  /** Decodes the five entities back to their characters (the inverse of escaping). */
  function Unescape(s: string): string
    decreases |s|
  {
    if s == [] then []
    else if "&amp;" <= s then "&" + Unescape(s[5..])
    else if "&lt;" <= s then "<" + Unescape(s[4..])
    else if "&gt;" <= s then ">" + Unescape(s[4..])
    else if "&quot;" <= s then "\"" + Unescape(s[6..])
    else if "&#039;" <= s then "'" + Unescape(s[6..])
    else [s[0]] + Unescape(s[1..])
  }

  predicate Unsafe(c: char) { c == '<' || c == '>' || c == '"' || c == '\'' }

  lemma {:induction false} ReplaceAllAppend(a: string, b: string, c: char, rep: string)
    ensures ReplaceAll(a + b, c, rep) == ReplaceAll(a, c, rep) + ReplaceAll(b, c, rep)
  {
    if a != [] {
      assert (a + b)[1..] == a[1..] + b;
      ReplaceAllAppend(a[1..], b, c, rep);
    } else {
      assert a + b == b;
    }
  }

  lemma {:induction false} ReplaceAllAbsent(s: string, c: char, rep: string)
    requires c !in s
    ensures ReplaceAll(s, c, rep) == s
  {
    if s != [] {
      ReplaceAllAbsent(s[1..], c, rep);
    }
  }

  /** The five chained replacements, applied to any string. */
  function Chain(s: string): string
  {
    ReplaceAll(ReplaceAll(ReplaceAll(ReplaceAll(ReplaceAll(s,
      '&', "&amp;"), '<', "&lt;"), '>', "&gt;"), '"', "&quot;"), '\'', "&#039;")
  }

  lemma {:induction false} ChainAppend(a: string, b: string)
    ensures Chain(a + b) == Chain(a) + Chain(b)
  {
    var a1, b1 := ReplaceAll(a, '&', "&amp;"), ReplaceAll(b, '&', "&amp;");
    ReplaceAllAppend(a, b, '&', "&amp;");
    var a2, b2 := ReplaceAll(a1, '<', "&lt;"), ReplaceAll(b1, '<', "&lt;");
    ReplaceAllAppend(a1, b1, '<', "&lt;");
    var a3, b3 := ReplaceAll(a2, '>', "&gt;"), ReplaceAll(b2, '>', "&gt;");
    ReplaceAllAppend(a2, b2, '>', "&gt;");
    var a4, b4 := ReplaceAll(a3, '"', "&quot;"), ReplaceAll(b3, '"', "&quot;");
    ReplaceAllAppend(a3, b3, '"', "&quot;");
    ReplaceAllAppend(a4, b4, '\'', "&#039;");
  }

  lemma {:induction false} ReplaceAllOne(c: char, x: char, rep: string)
    ensures ReplaceAll([c], x, rep) == if c == x then rep else [c]
  {
    assert [c][1..] == [];
  }

  lemma {:induction false} ChainAmp()
    ensures Chain("&") == "&amp;"
  {
    assert ReplaceAll("&", '&', "&amp;") == "&amp;";
    assert ReplaceAll("&amp;", '<', "&lt;") == "&amp;";
    assert ReplaceAll("&amp;", '>', "&gt;") == "&amp;";
    assert ReplaceAll("&amp;", '"', "&quot;") == "&amp;";
    assert ReplaceAll("&amp;", '\'', "&#039;") == "&amp;";
  }

  lemma {:induction false} ChainLt()
    ensures Chain("<") == "&lt;"
  {
    assert ReplaceAll("<", '&', "&amp;") == "<";
    assert ReplaceAll("<", '<', "&lt;") == "&lt;";
    assert ReplaceAll("&lt;", '>', "&gt;") == "&lt;";
    assert ReplaceAll("&lt;", '"', "&quot;") == "&lt;";
    assert ReplaceAll("&lt;", '\'', "&#039;") == "&lt;";
  }

  lemma {:induction false} ChainGt()
    ensures Chain(">") == "&gt;"
  {
    assert ReplaceAll(">", '&', "&amp;") == ">";
    assert ReplaceAll(">", '<', "&lt;") == ">";
    assert ReplaceAll(">", '>', "&gt;") == "&gt;";
    assert ReplaceAll("&gt;", '"', "&quot;") == "&gt;";
    assert ReplaceAll("&gt;", '\'', "&#039;") == "&gt;";
  }

  lemma {:induction false} ChainQuot()
    ensures Chain("\"") == "&quot;"
  {
    assert ReplaceAll("\"", '&', "&amp;") == "\"";
    assert ReplaceAll("\"", '<', "&lt;") == "\"";
    assert ReplaceAll("\"", '>', "&gt;") == "\"";
    assert ReplaceAll("\"", '"', "&quot;") == "&quot;";
    assert ReplaceAll("&quot;", '\'', "&#039;") == "&quot;";
  }

  lemma {:induction false} ChainApos()
    ensures Chain("'") == "&#039;"
  {
    assert ReplaceAll("'", '&', "&amp;") == "'";
    assert ReplaceAll("'", '<', "&lt;") == "'";
    assert ReplaceAll("'", '>', "&gt;") == "'";
    assert ReplaceAll("'", '"', "&quot;") == "'";
    assert ReplaceAll("'", '\'', "&#039;") == "&#039;";
  }

  lemma {:induction false} ChainChar(c: char)
    ensures Chain([c]) == EscapeChar(c)
  {
    if c == '&' {
      ChainAmp();
    } else if c == '<' {
      ChainLt();
    } else if c == '>' {
      ChainGt();
    } else if c == '"' {
      ChainQuot();
    } else if c == '\'' {
      ChainApos();
    } else {
      ReplaceAllOne(c, '&', "&amp;");
      ReplaceAllOne(c, '<', "&lt;");
      ReplaceAllOne(c, '>', "&gt;");
      ReplaceAllOne(c, '"', "&quot;");
      ReplaceAllOne(c, '\'', "&#039;");
    }
  }

  /** The chained replacements escape each character independently. */
  lemma {:induction false} EscapeHtmlIsPerChar(s: string)
    ensures EscapeHtml(s) == EscapeEach(s)
  {
    if s != [] {
      EscapeHtmlIsPerChar(s[1..]);
      assert s == [s[0]] + s[1..];
      ChainAppend([s[0]], s[1..]);
      ChainChar(s[0]);
      if s[1..] == [] {
        assert Chain([]) == [];
      }
    }
  }

  /** Escaped text holds no `<`, `>`, `"` or `'`, and unescaping it gives back the input. */
  lemma {:induction false} EscapeSafeAndReversible(s: string)
    ensures forall i :: 0 <= i < |EscapeHtml(s)| ==> !Unsafe(EscapeHtml(s)[i])
    ensures Unescape(EscapeHtml(s)) == s
  {
    EscapeHtmlIsPerChar(s);
    EscapeEachSafe(s);
    EscapeEachReversible(s);
  }

  lemma {:induction false} EscapeEachSafe(s: string)
    ensures forall i :: 0 <= i < |EscapeEach(s)| ==> !Unsafe(EscapeEach(s)[i])
  {
    if s != [] {
      EscapeEachSafe(s[1..]);
      var e := EscapeChar(s[0]);
      assert forall i :: 0 <= i < |e| ==> !Unsafe(e[i]);
      var r := EscapeEach(s);
      forall i | 0 <= i < |r| ensures !Unsafe(r[i]) {
        if i >= |e| { assert r[i] == EscapeEach(s[1..])[i - |e|]; }
      }
    }
  }

  lemma {:induction false} EscapeEachReversible(s: string)
    ensures Unescape(EscapeEach(s)) == s
  {
    if s != [] {
      EscapeEachReversible(s[1..]);
      UnescapeChar(s[0], EscapeEach(s[1..]));
      assert s == [s[0]] + s[1..];
    }
  }

  lemma {:induction false} UnescapeChar(c: char, rest: string)
    ensures Unescape(EscapeChar(c) + rest) == [c] + Unescape(rest)
  {
    var e := EscapeChar(c) + rest;
    if c == '&' {
      assert "&amp;" <= e;
      assert e[5..] == rest;
    } else if c == '<' {
      assert !("&amp;" <= e) by { assert e[1] == 'l'; }
      assert "&lt;" <= e;
      assert e[4..] == rest;
    } else if c == '>' {
      assert !("&amp;" <= e) by { assert e[1] == 'g'; }
      assert !("&lt;" <= e) by { assert e[1] == 'g'; }
      assert "&gt;" <= e;
      assert e[4..] == rest;
    } else if c == '"' {
      assert e[1] == 'q';
      assert "&quot;" <= e;
      assert e[6..] == rest;
    } else if c == '\'' {
      assert e[1] == '#';
      assert "&#039;" <= e;
      assert e[6..] == rest;
    } else {
      assert e[0] == c;
      assert e[1..] == rest;
    }
  }
}
