/** The JSON text of a string as `json.dumps` writes it, in ASCII with escapes. */
module JsonText {

  function HexDigit(d: nat): char
    requires d < 16
  {
    if d < 10 then ('0' as int + d) as char else ('a' as int + (d - 10)) as char
  }

  /** `\uXXXX` for one UTF-16 unit. */
  function Unit(v: nat): (s: string)
    requires v < 0x1_0000
    ensures |s| == 6 && s[0] == '\\' && s[1] == 'u'
  {
    ['\\', 'u', HexDigit(v / 4096), HexDigit(v / 256 % 16), HexDigit(v / 16 % 16), HexDigit(v % 16)]
  }

  function ShortEscape(c: char): char {
    if c == '\n' then 'n'
    else if c == '\r' then 'r'
    else if c == '\t' then 't'
    else if c as int == 0x0C then 'f'
    else if c as int == 0x08 then 'b'
    else if c == '"' || c == '\\' then c
    else '-'
  }

  /** Characters that stand for themselves: printable ASCII except quote and backslash. */
  predicate Plain(c: char) {
    ' ' <= c <= '~' && c != '"' && c != '\\'
  }

  function Escape(c: char): string {
    if Plain(c) then [c]
    else if ShortEscape(c) != '-' then ['\\', ShortEscape(c)]
    else if c as int < 0x1_0000 then Unit(c as int)
    else
      var v := c as int - 0x1_0000;
      Unit(0xD800 + v / 1024) + Unit(0xDC00 + v % 1024)
  }

  function EscapeAll(s: string): string {
    if s == "" then "" else Escape(s[0]) + EscapeAll(s[1..])
  }

  // ---------------------------------------------------------------- the text determines the string

  lemma CutPrefix(a: string, x: string, b: string, y: string)
    requires |a| == |b| && a + x == b + y
    ensures a == b && x == y
  {
    assert a == (a + x)[..|a|] && b == (b + y)[..|b|];
    assert x == (a + x)[|a|..] && y == (b + y)[|b|..];
  }

  lemma HexDigitsDiffer(d: nat, e: nat)
    requires d < 16 && e < 16 && HexDigit(d) == HexDigit(e)
    ensures d == e
  {}

  lemma HexValue(v: nat)
    requires v < 0x1_0000
    ensures v == v / 4096 * 4096 + v / 256 % 16 * 256 + v / 16 % 16 * 16 + v % 16
  {
    assert v / 256 == v / 4096 * 16 + v / 256 % 16;
    assert v / 16 == v / 256 * 16 + v / 16 % 16;
  }

  lemma UnitIsInjective(v: nat, w: nat)
    requires v < 0x1_0000 && w < 0x1_0000 && Unit(v) == Unit(w)
    ensures v == w
  {
    assert Unit(v)[2] == Unit(w)[2] && Unit(v)[3] == Unit(w)[3] && Unit(v)[4] == Unit(w)[4] && Unit(v)[5] == Unit(w)[5];
    HexDigitsDiffer(v / 4096, w / 4096);
    HexDigitsDiffer(v / 256 % 16, w / 256 % 16);
    HexDigitsDiffer(v / 16 % 16, w / 16 % 16);
    HexDigitsDiffer(v % 16, w % 16);
    HexValue(v);
    HexValue(w);
  }

  /** The first UTF-16 unit of a character that has no shorter form. */
  function FirstUnit(c: char): (v: nat)
    ensures v < 0x1_0000
  {
    if c as int < 0x1_0000 then c as int else 0xD800 + (c as int - 0x1_0000) / 1024
  }

  lemma LongEscape(c: char)
    requires !Plain(c) && ShortEscape(c) == '-'
    ensures |Escape(c)| >= 6 && Escape(c)[..6] == Unit(FirstUnit(c))
    ensures c as int < 0x1_0000 ==> Escape(c) == Unit(c as int)
  {}

  /** No escape is a proper prefix of another one. */
  lemma EscapeIsPrefixFree(c: char, x: string, d: char, y: string)
    requires Escape(c) + x == Escape(d) + y
    ensures c == d && x == y
  {
    var s := Escape(c) + x;
    assert s[0] == Escape(c)[0] == Escape(d)[0];
    if Plain(c) || Plain(d) {
      CutPrefix(Escape(c), x, Escape(d), y);
    } else {
      assert s[1] == Escape(c)[1] == Escape(d)[1];
      if ShortEscape(c) != '-' || ShortEscape(d) != '-' {
        CutPrefix(Escape(c), x, Escape(d), y);
      } else {
        LongEscapesAgree(c, x, d, y);
      }
    }
  }

  /** A surrogate pair determines its character. */
  lemma PairIsInjective(c: char, d: char)
    requires c as int >= 0x1_0000 && d as int >= 0x1_0000
    requires FirstUnit(c) == FirstUnit(d)
    requires Unit(0xDC00 + (c as int - 0x1_0000) % 1024) == Unit(0xDC00 + (d as int - 0x1_0000) % 1024)
    ensures c == d
  {
    var v, w := c as int - 0x1_0000, d as int - 0x1_0000;
    UnitIsInjective(0xDC00 + v % 1024, 0xDC00 + w % 1024);
    assert v == v / 1024 * 1024 + v % 1024 && w == w / 1024 * 1024 + w % 1024;
  }

  /** First units of characters outside the surrogate range tell short from long escapes. */
  lemma FirstUnitTellsLength(c: char, d: char)
    requires FirstUnit(c) == FirstUnit(d)
    ensures c as int < 0x1_0000 <==> d as int < 0x1_0000
    ensures c as int < 0x1_0000 ==> c == d
  {
    assert c as int >= 0x1_0000 ==> 0xD800 <= FirstUnit(c) < 0xDC00;
    assert d as int >= 0x1_0000 ==> 0xD800 <= FirstUnit(d) < 0xDC00;
  }

  lemma LongEscapesAgree(c: char, x: string, d: char, y: string)
    requires !Plain(c) && !Plain(d) && ShortEscape(c) == '-' && ShortEscape(d) == '-'
    requires Escape(c) + x == Escape(d) + y
    ensures c == d && x == y
  {
    var s := Escape(c) + x;
    LongEscape(c);
    LongEscape(d);
    assert s[..6] == Escape(c)[..6] == Escape(d)[..6];
    UnitIsInjective(FirstUnit(c), FirstUnit(d));
    FirstUnitTellsLength(c, d);
    CutPrefix(Escape(c), x, Escape(d), y);
    if c as int >= 0x1_0000 {
      LongEscapeTail(c);
      LongEscapeTail(d);
      PairIsInjective(c, d);
    }
  }

  lemma LongEscapeTail(c: char)
    requires c as int >= 0x1_0000
    ensures Escape(c)[6..] == Unit(0xDC00 + (c as int - 0x1_0000) % 1024)
  {}

  lemma EscapeNeverStartsWithQuote(c: char)
    ensures Escape(c) != "" && Escape(c)[0] != '"'
  {}

  /** An escaped string, its closing quote, and what follows. */
  function Closed(s: string, rest: string): string {
    EscapeAll(s) + "\"" + rest
  }

  lemma Regroup(a: string, b: string, c: string, d: string)
    ensures a + b + c + d == a + (b + c + d)
  {}

  lemma ClosedStep(s: string, rest: string)
    ensures s == "" ==> Closed(s, rest) == "\"" + rest
    ensures s != "" ==> Closed(s, rest) == Escape(s[0]) + Closed(s[1..], rest)
    ensures Closed(s, rest)[0] == '"' <==> s == ""
  {
    if s != "" {
      EscapeNeverStartsWithQuote(s[0]);
      Regroup(Escape(s[0]), EscapeAll(s[1..]), "\"", rest);
    }
  }

  /** A quoted string ends where its closing quote stands, and its text determines it. */
  lemma {:induction false} QuotedIsInjective(s: string, x: string, t: string, y: string)
    requires Closed(s, x) == Closed(t, y)
    ensures s == t && x == y
    decreases |s|
  {
    ClosedStep(s, x);
    ClosedStep(t, y);
    if s == "" {
      CutPrefix("\"", x, "\"", y);
    } else {
      EscapeIsPrefixFree(s[0], Closed(s[1..], x), t[0], Closed(t[1..], y));
      QuotedIsInjective(s[1..], x, t[1..], y);
    }
  }
}
