/** The escaping LanguageGenerator.saveConvert applies to a value before it
    is written as a line of a .properties file (the escaping of
    java.util.Properties.store), and the unescaping Properties.load applies
    when it reads the value back. Text is a sequence of UTF-16 code units,
    as a Java String is. */
module PropertiesEscape {
  import opened Wrappers

  /** A Java char: one UTF-16 code unit. */
  type JChar = c: int | 0 <= c < 0x1_0000

  const BACKSLASH: JChar := 0x5C
  const SPACE: JChar := 0x20
  const TAB: JChar := 0x09
  const LF: JChar := 0x0A
  const CR: JChar := 0x0D
  const FF: JChar := 0x0C

  function Code(c: char): JChar
    requires c as int < 0x1_0000
  {
    c as int
  }

  /** toHex: the hex digit of nibble & 0xF, upper case. */
  function ToHex(nibble: int): (r: JChar)
    ensures Code('0') <= r <= Code('9') || Code('A') <= r <= Code('F')
    ensures HexValue(r) == nibble % 16
  {
    var n := nibble % 16;
    if n < 10 then Code('0') + n else Code('A') + (n - 10)
  }

  predicate IsHexDigit(c: JChar)
  {
    Code('0') <= c <= Code('9') || Code('a') <= c <= Code('f') || Code('A') <= c <= Code('F')
  }

  /** The value of a hex digit, as Properties.load reads it (either case). */
  function HexValue(c: JChar): (r: int)
    ensures 0 <= r < 16
  {
    if Code('0') <= c <= Code('9') then c - Code('0')
    else if Code('a') <= c <= Code('f') then c - Code('a') + 10
    else if Code('A') <= c <= Code('F') then c - Code('A') + 10
    else 0
  }

  /** The output for one character; atStart holds for the first character
      of the value. */
  function EscapeChar(c: JChar, atStart: bool, escapeSpace: bool, escapeUnicode: bool): (r: seq<JChar>)
    ensures 1 <= |r| <= 6
    ensures !escapeUnicode ==> |r| <= 2
  {
    if 61 < c < 127 then
      if c == BACKSLASH then [BACKSLASH, BACKSLASH] else [c]
    else if c == SPACE then
      if atStart || escapeSpace then [BACKSLASH, SPACE] else [SPACE]
    else if c == TAB then [BACKSLASH, Code('t')]
    else if c == LF then [BACKSLASH, Code('n')]
    else if c == CR then [BACKSLASH, Code('r')]
    else if c == FF then [BACKSLASH, Code('f')]
    else if c == Code('=') || c == Code(':') || c == Code('#') || c == Code('!') then [BACKSLASH, c]
    else if (c < 0x20 || c > 0x7E) && escapeUnicode then
      [BACKSLASH, Code('u'), ToHex(c / 4096), ToHex(c / 256), ToHex(c / 16), ToHex(c)]
    else [c]
  }

  /** The escaped form of s, whose first character is at the start of the
      value when atStart holds. */
  function Escaped(s: seq<JChar>, atStart: bool, escapeSpace: bool, escapeUnicode: bool): (r: seq<JChar>)
    decreases |s|
  {
    if s == [] then []
    else EscapeChar(s[0], atStart, escapeSpace, escapeUnicode) + Escaped(s[1..], false, escapeSpace, escapeUnicode)
  }

  /** The unescaped character a backslash followed by c stands for. */
  function Unescape(c: JChar): JChar
  {
    if c == Code('t') then TAB
    else if c == Code('r') then CR
    else if c == Code('n') then LF
    else if c == Code('f') then FF
    else c
  }

  function PrependChar(c: JChar, r: Option<seq<JChar>>): Option<seq<JChar>>
  {
    if r.Some? then Some([c] + r.value) else None
  }

  /** Properties.load's unescaping of a value: a backslash escapes the next
      character (\t, \r, \n and \f stand for control characters), and
      \uXXXX for the code unit XXXX. A malformed \u escape is an error, and
      so is a backslash at the very end (a line continuation in a file). */
  function LoadConvert(s: seq<JChar>): Option<seq<JChar>>
    decreases |s|
  {
    if s == [] then Some([])
    else if s[0] != BACKSLASH then PrependChar(s[0], LoadConvert(s[1..]))
    else if |s| < 2 then None
    else if s[1] == Code('u') then
      if |s| < 6 || !(IsHexDigit(s[2]) && IsHexDigit(s[3]) && IsHexDigit(s[4]) && IsHexDigit(s[5])) then None
      else
        var v := ((HexValue(s[2]) * 16 + HexValue(s[3])) * 16 + HexValue(s[4])) * 16 + HexValue(s[5]);
        PrependChar(v, LoadConvert(s[6..]))
    else PrependChar(Unescape(s[1]), LoadConvert(s[2..]))
  }

  lemma HexRoundTrip(c: JChar)
    ensures ((HexValue(ToHex(c / 4096)) * 16 + HexValue(ToHex(c / 256))) * 16 + HexValue(ToHex(c / 16))) * 16
            + HexValue(ToHex(c)) == c
  {
    var d3, d2, d1, d0 := (c / 4096) % 16, (c / 256) % 16, (c / 16) % 16, c % 16;
    assert c / 4096 < 16;
    assert c / 256 == (c / 4096) * 16 + d2;
    assert c / 16 == (c / 256) * 16 + d1;
    assert c == (c / 16) * 16 + d0;
  }

  /** saveConvert's rules, character by character: printable characters
      above '=' are copied except the backslash, which is doubled; a space
      gets a backslash at the start of the value or when spaces are
      escaped; TAB, LF, CR and FF become \t, \n, \r and \f; '=', ':', '#'
      and '!' get a backslash; any other control or non-ASCII character is
      copied when escapeUnicode is off (EscapeUnicodeDigits gives the \u
      form otherwise); the remaining printable characters are copied. */
  lemma EscapeCharRules(c: JChar, atStart: bool, escapeSpace: bool, escapeUnicode: bool)
    ensures var e := EscapeChar(c, atStart, escapeSpace, escapeUnicode);
      && (61 < c < 127 && c != BACKSLASH ==> e == [c])
      && (c == BACKSLASH ==> e == [BACKSLASH, BACKSLASH])
      && (c == SPACE ==> e == if atStart || escapeSpace then [BACKSLASH, SPACE] else [SPACE])
      && (c == TAB ==> e == [BACKSLASH, Code('t')])
      && (c == LF ==> e == [BACKSLASH, Code('n')])
      && (c == CR ==> e == [BACKSLASH, Code('r')])
      && (c == FF ==> e == [BACKSLASH, Code('f')])
      && (c == Code('=') || c == Code(':') || c == Code('#') || c == Code('!') ==> e == [BACKSLASH, c])
      && (IsOtherSpecial(c) && !escapeUnicode ==> e == [c])
      && (SPACE < c <= 61 && c != Code('=') && c != Code(':') && c != Code('#') && c != Code('!') ==> e == [c])
  {
  }

  /** The \uXXXX rule: the four hex digits are upper case and spell the
      code's nibbles, most significant first. */
  lemma EscapeUnicodeDigits(c: JChar, atStart: bool, escapeSpace: bool)
    requires IsOtherSpecial(c)
    ensures var e := EscapeChar(c, atStart, escapeSpace, true);
      |e| == 6 && e[0] == BACKSLASH && e[1] == Code('u') &&
      (forall k :: 2 <= k < 6 ==> Code('0') <= e[k] <= Code('9') || Code('A') <= e[k] <= Code('F')) &&
      HexValue(e[2]) == c / 4096 && HexValue(e[3]) == (c / 256) % 16 &&
      HexValue(e[4]) == (c / 16) % 16 && HexValue(e[5]) == c % 16
  {
    assert !(61 < c < 127) && c != SPACE;
    assert EscapeChar(c, atStart, escapeSpace, true)
      == [BACKSLASH, Code('u'), ToHex(c / 4096), ToHex(c / 256), ToHex(c / 16), ToHex(c)];
    TopNibble(c);
  }

  /** A code unit's top nibble is c / 4096 itself. */
  lemma TopNibble(c: JChar)
    ensures HexValue(ToHex(c / 4096)) == c / 4096
  {
    assert c / 4096 < 16;
  }

  /** A control or non-ASCII character that no named rule covers. */
  predicate IsOtherSpecial(c: JChar)
  {
    (c < SPACE || c > 0x7E) && c != TAB && c != LF && c != CR && c != FF
  }

  /** The three forms EscapeChar produces: the character itself (never a
      backslash), a backslash pair that unescapes to it, or a \uXXXX escape. */
  lemma EscapeCharForms(c: JChar, atStart: bool, escapeSpace: bool, escapeUnicode: bool)
    ensures var e := EscapeChar(c, atStart, escapeSpace, escapeUnicode);
      (e == [c] && c != BACKSLASH) ||
      (|e| == 2 && e[0] == BACKSLASH && e[1] != Code('u') && Unescape(e[1]) == c) ||
      e == [BACKSLASH, Code('u'), ToHex(c / 4096), ToHex(c / 256), ToHex(c / 16), ToHex(c)]
  {
  }

  lemma LoadPlain(c: JChar, rest: seq<JChar>)
    requires c != BACKSLASH
    ensures LoadConvert([c] + rest) == PrependChar(c, LoadConvert(rest))
  {
    assert ([c] + rest)[1..] == rest;
  }

  lemma LoadPair(d: JChar, rest: seq<JChar>)
    requires d != Code('u')
    ensures LoadConvert([BACKSLASH, d] + rest) == PrependChar(Unescape(d), LoadConvert(rest))
  {
    assert ([BACKSLASH, d] + rest)[2..] == rest;
  }

  lemma LoadUnicode(c: JChar, rest: seq<JChar>)
    ensures LoadConvert([BACKSLASH, Code('u'), ToHex(c / 4096), ToHex(c / 256), ToHex(c / 16), ToHex(c)] + rest)
         == PrependChar(c, LoadConvert(rest))
  {
    var t := [BACKSLASH, Code('u'), ToHex(c / 4096), ToHex(c / 256), ToHex(c / 16), ToHex(c)] + rest;
    assert t[6..] == rest;
    HexRoundTrip(c);
  }

  /** Reading back one escaped character gives that character. */
  lemma LoadEscapeChar(c: JChar, atStart: bool, escapeSpace: bool, escapeUnicode: bool, rest: seq<JChar>)
    ensures LoadConvert(EscapeChar(c, atStart, escapeSpace, escapeUnicode) + rest) == PrependChar(c, LoadConvert(rest))
  {
    var e := EscapeChar(c, atStart, escapeSpace, escapeUnicode);
    EscapeCharForms(c, atStart, escapeSpace, escapeUnicode);
    if e == [c] && c != BACKSLASH {
      LoadPlain(c, rest);
    } else if |e| == 2 {
      assert e == [BACKSLASH, e[1]];
      LoadPair(e[1], rest);
    } else {
      LoadUnicode(c, rest);
    }
  }

  /** Escaping is undone by Properties.load: the value reads back exactly. */
  lemma {:induction false} LoadConvertUndoesEscaping(s: seq<JChar>, atStart: bool, escapeSpace: bool, escapeUnicode: bool)
    ensures LoadConvert(Escaped(s, atStart, escapeSpace, escapeUnicode)) == Some(s)
    decreases |s|
  {
    if s != [] {
      LoadConvertUndoesEscaping(s[1..], false, escapeSpace, escapeUnicode);
      LoadEscapeChar(s[0], atStart, escapeSpace, escapeUnicode, Escaped(s[1..], false, escapeSpace, escapeUnicode));
      assert [s[0]] + s[1..] == s;
    }
  }

  /** The output is at least as long as the input and at most twice as
      long, or six times as long when escapeUnicode is set. */
  lemma {:induction false} EscapedLength(s: seq<JChar>, atStart: bool, escapeSpace: bool, escapeUnicode: bool)
    ensures |s| <= |Escaped(s, atStart, escapeSpace, escapeUnicode)|
    ensures |Escaped(s, atStart, escapeSpace, escapeUnicode)| <= (if escapeUnicode then 6 else 2) * |s|
    decreases |s|
  {
    if s != [] {
      EscapedLength(s[1..], false, escapeSpace, escapeUnicode);
    }
  }

  /** No raw line break survives, so an escaped value stays on its line. */
  lemma {:induction false} EscapedHasNoLineBreak(s: seq<JChar>, atStart: bool, escapeSpace: bool, escapeUnicode: bool)
    ensures LF !in Escaped(s, atStart, escapeSpace, escapeUnicode)
    ensures CR !in Escaped(s, atStart, escapeSpace, escapeUnicode)
    decreases |s|
  {
    if s != [] {
      EscapedHasNoLineBreak(s[1..], false, escapeSpace, escapeUnicode);
    }
  }

  /** Under escapeUnicode the output is printable ASCII only. */
  lemma {:induction false} EscapedUnicodeIsAscii(s: seq<JChar>, atStart: bool, escapeSpace: bool)
    ensures forall i :: 0 <= i < |Escaped(s, atStart, escapeSpace, true)| ==>
      0x20 <= Escaped(s, atStart, escapeSpace, true)[i] <= 0x7E
    decreases |s|
  {
    if s != [] {
      EscapedUnicodeIsAscii(s[1..], false, escapeSpace);
      var e := EscapeChar(s[0], atStart, escapeSpace, true);
      var rest := Escaped(s[1..], false, escapeSpace, true);
      forall i | 0 <= i < |e + rest|
        ensures 0x20 <= (e + rest)[i] <= 0x7E
      {
        if i >= |e| {
          assert (e + rest)[i] == rest[i - |e|];
        }
      }
    }
  }

  /** A space is escaped exactly when it is the first character or
      escapeSpace holds. */
  lemma SpaceEscaping(atStart: bool, escapeSpace: bool, escapeUnicode: bool)
    ensures EscapeChar(SPACE, atStart, escapeSpace, escapeUnicode)
         == if atStart || escapeSpace then [BACKSLASH, SPACE] else [SPACE]
  {
  }

  /** One step of Escaped: the first character's escape, then the rest. */
  lemma EscapedStep(s: seq<JChar>, x: nat, escapeSpace: bool, escapeUnicode: bool)
    requires x < |s|
    ensures Escaped(s[x..], x == 0, escapeSpace, escapeUnicode)
         == EscapeChar(s[x], x == 0, escapeSpace, escapeUnicode) + Escaped(s[x + 1..], false, escapeSpace, escapeUnicode)
  {
    assert s[x..][1..] == s[x + 1..];
  }

  /** saveConvert: appends the escaped form of each character in turn (the
      switch on the character is EscapeChar). */
  method SaveConvert(theString: seq<JChar>, escapeSpace: bool, escapeUnicode: bool) returns (r: seq<JChar>)
    ensures r == Escaped(theString, true, escapeSpace, escapeUnicode)
  {
    var outBuffer: seq<JChar> := [];
    for x := 0 to |theString|
      invariant Escaped(theString, true, escapeSpace, escapeUnicode)
             == outBuffer + Escaped(theString[x..], x == 0, escapeSpace, escapeUnicode)
    {
      var piece := EscapeChar(theString[x], x == 0, escapeSpace, escapeUnicode);
      EscapedStep(theString, x, escapeSpace, escapeUnicode);
      outBuffer := outBuffer + piece;
    }
    r := outBuffer;
  }
}
