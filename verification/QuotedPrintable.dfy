/**
 * The e-mail relay's quoted-printable encoder and the decoder of section 6.7 of RFC 2045.
 *
 * A text is a sequence of Unicode code points; it is split into lines, each line turned into UTF-8,
 * escaped octet by octet and soft-wrapped.
 */
module QuotedPrintable {
  import opened Bytes
  import opened Lines

  const QP_LINE_LENGTH := 76
  const EQUALS: Byte := 0x3D
  const SPACE: Byte := 0x20
  const TAB: Byte := 0x09

  // ---------------------------------------------------------------- text

  type CodePoint = c: int | 0 <= c < 0x11_0000

  type Text = seq<CodePoint>

  /** UTF-8; an unpaired surrogate becomes U+FFFD. */
  function Utf8Of(c: CodePoint): Octets {
    if c < 0x80 then [c]
    else if c < 0x800 then [0xC0 + c / 0x40, 0x80 + c % 0x40]
    else if 0xD800 <= c < 0xE000 then [0xEF, 0xBF, 0xBD]
    else if c < 0x1_0000 then [0xE0 + c / 0x1000, 0x80 + c / 0x40 % 0x40, 0x80 + c % 0x40]
    else [0xF0 + c / 0x4_0000, 0x80 + c / 0x1000 % 0x40, 0x80 + c / 0x40 % 0x40, 0x80 + c % 0x40]
  }

  function Utf8(t: Text): Octets {
    if t == [] then [] else Utf8Of(t[0]) + Utf8(t[1..])
  }

  /** `text.split(/\r\n|\r|\n/)`, on any units in which CR and LF stand for themselves. */
  function TextLines(t: seq<int>): (lines: seq<seq<int>>)
    ensures |lines| > 0
    ensures forall i, k :: 0 <= i < |lines| && 0 <= k < |lines[i]| ==> lines[i][k] in t && !IsBreak(lines[i][k])
  {
    if t == [] then [[]]
    else if t[0] == 13 && |t| > 1 && t[1] == 10 then [[]] + TextLines(t[2..])
    else if IsBreak(t[0]) then [[]] + TextLines(t[1..])
    else var rest := TextLines(t[1..]); [[t[0]] + rest[0]] + rest[1..]
  }

  function LinesOf(t: Text): seq<Text> { TextLines(t) }

  function OctetLines(s: Octets): seq<Octets> { TextLines(s) }

  function Utf8Lines(lines: seq<Text>): seq<Octets> {
    if lines == [] then [] else [Utf8(lines[0])] + Utf8Lines(lines[1..])
  }

  /** The octets of a text with every line end written as CRLF. */
  function Normalised(t: Text): Octets {
    Join(OctetLines(Utf8(t)))
  }

  lemma {:induction false} Utf8Append(a: Text, b: Text)
    ensures Utf8(a + b) == Utf8(a) + Utf8(b)
  {
    if a == [] {
      assert a + b == b;
    } else {
      assert (a + b)[1..] == a[1..] + b;
      Utf8Append(a[1..], b);
    }
  }

  lemma {:induction false} LinesAfterPrefix(u: seq<int>, s: seq<int>)
    requires Unbroken(u)
    ensures TextLines(u + s) == [u + TextLines(s)[0]] + TextLines(s)[1..]
  {
    if u == [] {
      assert u + s == s;
      assert u + TextLines(s)[0] == TextLines(s)[0];
    } else {
      assert (u + s)[1..] == u[1..] + s;
      LinesAfterPrefix(u[1..], s);
      assert !IsBreak(u[0]);
      assert [u[0]] + (u[1..] + TextLines(s)[0]) == u + TextLines(s)[0];
    }
  }

  // Splitting before or after the UTF-8 encoding is the same: no octet of a multi-octet character
  // is a CR or an LF.
  lemma {:induction false} Utf8KeepsLines(t: Text)
    ensures OctetLines(Utf8(t)) == Utf8Lines(LinesOf(t))
  {
    if t != [] {
      if t[0] == 13 && |t| > 1 && t[1] == 10 {
        Utf8KeepsLines(t[2..]);
        KeepsCrlf(t);
      } else {
        Utf8KeepsLines(t[1..]);
        if IsBreak(t[0]) {
          KeepsBreak(t);
        } else {
          KeepsCharacter(t);
        }
      }
    }
  }

  lemma KeepsCrlf(t: Text)
    requires |t| > 1 && t[0] == 13 && t[1] == 10 && OctetLines(Utf8(t[2..])) == Utf8Lines(LinesOf(t[2..]))
    ensures OctetLines(Utf8(t)) == Utf8Lines(LinesOf(t))
  {
    assert t[1..][0] == 10 && t[1..][1..] == t[2..];
    assert Utf8(t) == [13] + ([10] + Utf8(t[2..]));
    assert Utf8(t)[2..] == Utf8(t[2..]);
    assert LinesOf(t)[1..] == LinesOf(t[2..]);
  }

  lemma KeepsBreak(t: Text)
    requires t != [] && IsBreak(t[0]) && !(t[0] == 13 && |t| > 1 && t[1] == 10)
    requires OctetLines(Utf8(t[1..])) == Utf8Lines(LinesOf(t[1..]))
    ensures OctetLines(Utf8(t)) == Utf8Lines(LinesOf(t))
  {
    hide Utf8, Utf8Of, TextLines;
    FirstOctets(t);
    LinesAfterBreak(t[0], Utf8(t[1..]));
    LinesAfterBreak(t[0], t[1..]);
    assert [t[0]] + t[1..] == t;
    assert LinesOf(t)[1..] == LinesOf(t[1..]);
    assert Utf8([]) == [] by {
      Utf8OfNothing();
    }
  }

  lemma Utf8OfNothing()
    ensures Utf8([]) == []
  {
  }

  lemma FirstOctets(t: Text)
    requires t != [] && IsBreak(t[0])
    ensures Utf8(t) == [t[0]] + Utf8(t[1..])
    ensures |t| > 1 ==> Utf8(t[1..]) != [] && (Utf8(t[1..])[0] == 10 <==> t[1] == 10)
    ensures |t| == 1 ==> Utf8(t[1..]) == []
  {
    hide Utf8Of;
    FirstOctet(t[0]);
    if |t| > 1 {
      FirstOctet(t[1]);
      assert Utf8(t[1..]) == Utf8Of(t[1]) + Utf8(t[1..][1..]);
    }
  }

  lemma FirstOctet(c: CodePoint)
    ensures Utf8Of(c) != [] && (Utf8Of(c)[0] == 10 <==> c == 10)
    ensures IsBreak(c) ==> Utf8Of(c) == [c]
  {
  }

  lemma LinesAfterBreak(c: int, rest: seq<int>)
    requires IsBreak(c) && !(c == 13 && rest != [] && rest[0] == 10)
    ensures TextLines([c] + rest) == [[]] + TextLines(rest)
  {
    assert ([c] + rest)[1..] == rest;
  }

  lemma KeepsCharacter(t: Text)
    requires t != [] && !IsBreak(t[0])
    requires OctetLines(Utf8(t[1..])) == Utf8Lines(LinesOf(t[1..]))
    ensures OctetLines(Utf8(t)) == Utf8Lines(LinesOf(t))
  {
    LinesAfterPrefix(Utf8Of(t[0]), Utf8(t[1..]));
    var rest := LinesOf(t[1..]);
    assert LinesOf(t) == [[t[0]] + rest[0]] + rest[1..];
    assert ([t[0]] + rest[0])[1..] == rest[0];
    assert LinesOf(t)[1..] == rest[1..];
  }

  // ---------------------------------------------------------------- UTF-8 read back

  /** A continuation octet's six bits. */
  function Tail(s: Octets, i: nat): int
    requires i < |s|
  {
    (s[i] as int) - 0x80
  }

  /** The code point at the start of well-formed UTF-8, and its length in octets (section 3 of RFC 3629). */
  function FirstCodePoint(s: Octets): (r: (int, nat))
    requires s != []
  {
    if s[0] < 0x80 then (s[0], 1)
    else if s[0] < 0xE0 && |s| >= 2 then (0x40 * ((s[0] as int) - 0xC0) + Tail(s, 1), 2)
    else if s[0] < 0xF0 && |s| >= 3 then
      (0x1000 * ((s[0] as int) - 0xE0) + 0x40 * Tail(s, 1) + Tail(s, 2), 3)
    else if |s| >= 4 then
      (0x4_0000 * ((s[0] as int) - 0xF0) + 0x1000 * Tail(s, 1) + 0x40 * Tail(s, 2) + Tail(s, 3), 4)
    else (0xFFFD, 1)
  }

  // Reading the octets of a text gives back each character, an unpaired surrogate as U+FFFD.
  lemma Utf8IsReadBack(c: CodePoint, rest: Octets)
    ensures FirstCodePoint(Utf8Of(c) + rest) == (if 0xD800 <= c < 0xE000 then 0xFFFD else c, |Utf8Of(c)|)
  {
    var s := Utf8Of(c) + rest;
    assert forall i :: 0 <= i < |Utf8Of(c)| ==> s[i] == Utf8Of(c)[i];
    SixBits(c, 0x40);
    SixBits(c / 0x40, 0x40);
    SixBits(c / 0x1000, 0x40);
    assert c / 0x40 / 0x40 == c / 0x1000 && c / 0x1000 / 0x40 == c / 0x4_0000;
  }

  lemma SixBits(x: int, m: int)
    requires m > 0
    ensures m * (x / m) + x % m == x
  {
  }

  // ---------------------------------------------------------------- the encoder

  function HexDigit(d: int): Byte
    requires 0 <= d < 16
  {
    if d < 10 then 0x30 + d else 0x37 + d
  }

  predicate IsPrintable(b: Byte) {
    0x21 <= b <= 0x7E && b != EQUALS
  }

  predicate IsBlank(b: Byte) {
    b == SPACE || b == TAB
  }

  function EscapeOctet(b: Byte, isLast: bool): Octets {
    if IsPrintable(b) || (IsBlank(b) && !isLast) then [b] else [EQUALS, HexDigit(b / 16), HexDigit(b % 16)]
  }

  function Escape(bytes: Octets): Octets {
    if bytes == [] then [] else EscapeOctet(bytes[0], |bytes| == 1) + Escape(bytes[1..])
  }

  function CutAt(rest: Octets): nat
    requires |rest| > QP_LINE_LENGTH
  {
    if rest[QP_LINE_LENGTH - 1] == EQUALS then QP_LINE_LENGTH - 1
    else if rest[QP_LINE_LENGTH - 2] == EQUALS then QP_LINE_LENGTH - 2
    else QP_LINE_LENGTH
  }

  function Wrap(rest: Octets): (segments: seq<Octets>)
    ensures |segments| > 0
  {
    if |rest| <= QP_LINE_LENGTH then [rest]
    else [rest[..CutAt(rest)] + [EQUALS]] + Wrap(rest[CutAt(rest)..])
  }

  function EncodeLine(line: Text): Octets {
    Join(Wrap(Escape(Utf8(line))))
  }

  function EncodeEach(lines: seq<Text>): seq<Octets> {
    if lines == [] then [] else [EncodeLine(lines[0])] + EncodeEach(lines[1..])
  }

  function QuotedPrintableEncode(t: Text): Octets {
    Join(EncodeEach(LinesOf(t)))
  }

  method SoftWrapQuotedPrintable(encoded: Octets) returns (wrapped: Octets)
    ensures wrapped == Join(Wrap(encoded))
  {
    hide Join, Wrap;
    var segments: seq<Octets> := [];
    var rest := encoded;
    while |rest| > QP_LINE_LENGTH
      invariant segments + Wrap(rest) == Wrap(encoded)
      decreases |rest|
    {
      var cut := QP_LINE_LENGTH;
      if rest[cut - 1] == EQUALS {
        cut := cut - 1;
      } else if rest[cut - 2] == EQUALS {
        cut := cut - 2;
      }
      var first := rest[..cut] + [EQUALS];
      WrapStep(rest);
      assert segments + ([first] + Wrap(rest[cut..])) == segments + [first] + Wrap(rest[cut..]);
      segments := segments + [first];
      rest := rest[cut..];
    }
    WrapStep(rest);
    segments := segments + [rest];
    wrapped := Join(segments);
  }

  lemma WrapStep(rest: Octets)
    ensures Wrap(rest) == if |rest| <= QP_LINE_LENGTH then [rest]
                          else [rest[..CutAt(rest)] + [EQUALS]] + Wrap(rest[CutAt(rest)..])
  {
  }

  method QuotedPrintableEncodeLine(line: Text) returns (r: Octets)
    ensures r == EncodeLine(line)
  {
    hide Escape, Wrap, Join, Utf8;
    var bytes := Utf8(line);
    var encoded: Octets := [];
    assert bytes[0..] == bytes;
    for i := 0 to |bytes|
      invariant encoded + Escape(bytes[i..]) == Escape(bytes)
    {
      var byte := bytes[i];
      var isLast := i == |bytes| - 1;
      var isPrintableAscii := byte >= 0x21 && byte <= 0x7E && byte != EQUALS;
      var isSafeWhitespace := (byte == SPACE || byte == TAB) && !isLast;
      var piece := if isPrintableAscii || isSafeWhitespace then [byte]
                   else [EQUALS, HexDigit(byte / 16), HexDigit(byte % 16)];
      EscapeFrom(bytes, i);
      assert piece == EscapeOctet(byte, isLast);
      Reassociate(encoded, piece, Escape(bytes[i + 1..]));
      encoded := encoded + piece;
    }
    EscapeEnd(bytes);
    assert encoded + [] == encoded;
    r := SoftWrapQuotedPrintable(encoded);
  }

  lemma Reassociate(a: Octets, b: Octets, c: Octets)
    ensures a + b + c == a + (b + c)
  {
  }

  lemma EscapeFrom(bytes: Octets, i: nat)
    requires i < |bytes|
    ensures Escape(bytes[i..]) == EscapeOctet(bytes[i], i == |bytes| - 1) + Escape(bytes[i + 1..])
  {
    assert bytes[i..][1..] == bytes[i + 1..];
  }

  lemma EscapeEnd(bytes: Octets)
    ensures Escape(bytes[|bytes|..]) == []
  {
  }

  // ---------------------------------------------------------------- the decoder of the standard

  predicate IsHex(b: Byte) {
    0x30 <= b <= 0x39 || 0x41 <= b <= 0x46
  }

  function HexValue(b: Byte): int
    requires IsHex(b)
  {
    if b <= 0x39 then b - 0x30 else b - 0x37
  }

  /** "=XX" stands for one octet, everything else for itself. */
  function DecodeLine(s: Octets): Octets {
    if s == [] then []
    else if s[0] == EQUALS && |s| >= 3 && IsHex(s[1]) && IsHex(s[2]) then
      [16 * HexValue(s[1]) + HexValue(s[2])] + DecodeLine(s[3..])
    else [s[0]] + DecodeLine(s[1..])
  }

  /** Blanks at a line's end are transport padding. */
  function DropPadding(line: Octets): Octets {
    if line != [] && IsBlank(line[|line| - 1]) then DropPadding(line[..|line| - 1]) else line
  }

  /** A line ending in "=" is continued by the next one; any other line break is a real one. */
  function DecodeLines(lines: seq<Octets>): Octets {
    if lines == [] then []
    else
      var line := DropPadding(lines[0]);
      if line != [] && line[|line| - 1] == EQUALS then
        DecodeLine(line[..|line| - 1]) + DecodeLines(lines[1..])
      else if |lines| == 1 then DecodeLine(line)
      else DecodeLine(line) + CRLF + DecodeLines(lines[1..])
  }

  function Decode(body: Octets): Octets {
    DecodeLines(Split(body))
  }

  // ---------------------------------------------------------------- escapes

  /** Every "=" opens a complete escape, and nothing but printable octets and blanks occurs. */
  predicate WellEscaped(s: Octets) {
    if s == [] then true
    else if s[0] == EQUALS then |s| >= 3 && IsHex(s[1]) && IsHex(s[2]) && WellEscaped(s[3..])
    else (IsPrintable(s[0]) || IsBlank(s[0])) && WellEscaped(s[1..])
  }

  lemma {:induction false} EscapeIsWellFormed(bytes: Octets)
    ensures WellEscaped(Escape(bytes)) && DecodeLine(Escape(bytes)) == bytes
    ensures bytes != [] ==> Escape(bytes) != [] && !IsBlank(Escape(bytes)[|Escape(bytes)| - 1])
  {
    if bytes != [] {
      EscapeIsWellFormed(bytes[1..]);
      var head, tail := EscapeOctet(bytes[0], |bytes| == 1), Escape(bytes[1..]);
      assert Escape(bytes) == head + tail;
      assert |bytes| == 1 ==> tail == [];
      hide Escape, WellEscaped, DecodeLine;
      FirstAtom(head + tail);
      assert (head + tail)[|head|..] == tail;
      assert [bytes[0]] + bytes[1..] == bytes;
    }
  }

  // Only what has to be is escaped: printable ASCII but "=", and blanks that do not end the line, stand
  // for themselves, and every other octet takes three.
  lemma {:induction false} EscapesOnlyWhatItMust(bytes: Octets)
    ensures Escape(bytes) == bytes <==>
            forall i :: 0 <= i < |bytes| ==>
              (0x21 <= bytes[i] <= 0x7E && bytes[i] != 0x3D) || (bytes[i] in {0x20, 0x09} && i < |bytes| - 1)
    ensures |Escape(bytes)| == |bytes| + 2 * Escaped(bytes)
  {
    if bytes != [] {
      EscapesOnlyWhatItMust(bytes[1..]);
      var head := EscapeOctet(bytes[0], |bytes| == 1);
      assert Escape(bytes) == head + Escape(bytes[1..]);
      assert |bytes| == 1 ==> bytes[1..] == [];
      if |head| == 1 {
        assert Escape(bytes)[1..] == Escape(bytes[1..]);
        assert forall i :: 0 <= i < |bytes[1..]| ==> bytes[1..][i] == bytes[i + 1];
        assert forall i :: 1 <= i < |bytes| ==> bytes[i] == bytes[1..][i - 1];
        assert [bytes[0]] + bytes[1..] == bytes;
      } else {
        assert |Escape(bytes)| > |bytes|;
      }
    }
  }

  /** How many of the octets may not stand for themselves. */
  function Escaped(bytes: Octets): nat {
    if bytes == [] then 0
    else
      var b := bytes[0];
      Escaped(bytes[1..]) +
      if (0x21 <= b <= 0x7E && b != 0x3D) || (b in {0x20, 0x09} && |bytes| > 1) then 0 else 1
  }

  // In well-escaped text an escape is never cut short by its neighbours.
  lemma {:induction false} EscapesAreComplete(s: Octets, i: nat)
    requires WellEscaped(s) && i < |s| && s[i] == EQUALS
    ensures i + 2 < |s| && s[i + 1] != EQUALS && s[i + 2] != EQUALS
  {
    if i > 0 {
      var n := if s[0] == EQUALS then 3 else 1;
      EscapesAreComplete(s[n..], i - n);
    }
  }

  predicate OutsideEscape(s: Octets, cut: nat)
    requires cut <= |s|
  {
    (cut >= 1 ==> s[cut - 1] != EQUALS) && (cut >= 2 ==> s[cut - 2] != EQUALS)
  }

  lemma {:induction false} CutOutsideEscape(a: Octets, b: Octets)
    requires WellEscaped(a + b) && OutsideEscape(a, |a|)
    ensures WellEscaped(a) && WellEscaped(b) && DecodeLine(a + b) == DecodeLine(a) + DecodeLine(b)
    decreases |a|
  {
    if a == [] {
      assert a + b == b;
    } else {
      hide WellEscaped, DecodeLine, AtomOk, AtomValue;
      var n := AtomLength(a);
      FirstAtom(a + b);
      assert (a + b)[n..] == a[n..] + b;
      CutOutsideEscape(a[n..], b);
      assert (a + b)[..|a|] == a;
      AtomOfPrefix(a + b, |a|);
      FirstAtom(a);
    }
  }

  function AtomLength(s: Octets): nat
    requires s != []
  {
    if s[0] == EQUALS then 3 else 1
  }

  predicate AtomOk(s: Octets)
    requires s != []
  {
    if s[0] == EQUALS then |s| >= 3 && IsHex(s[1]) && IsHex(s[2]) else IsPrintable(s[0]) || IsBlank(s[0])
  }

  function AtomValue(s: Octets): Byte
    requires s != [] && AtomOk(s)
  {
    if s[0] == EQUALS then 16 * HexValue(s[1]) + HexValue(s[2]) else s[0]
  }

  lemma FirstAtom(s: Octets)
    requires s != []
    ensures WellEscaped(s) <==> AtomOk(s) && AtomLength(s) <= |s| && WellEscaped(s[AtomLength(s)..])
    ensures AtomOk(s) ==> AtomLength(s) <= |s| && DecodeLine(s) == [AtomValue(s)] + DecodeLine(s[AtomLength(s)..])
  {
  }

  lemma AtomOfPrefix(s: Octets, cut: nat)
    requires s != [] && AtomOk(s) && AtomLength(s) <= cut <= |s|
    ensures AtomOk(s[..cut]) && AtomValue(s[..cut]) == AtomValue(s) && AtomLength(s[..cut]) == AtomLength(s)
  {
  }

  // The wrapping loop's adjusted cut never falls inside an escape.
  lemma CutIsOutsideEscape(rest: Octets)
    requires WellEscaped(rest) && |rest| > QP_LINE_LENGTH
    ensures var cut := CutAt(rest);
            && WellEscaped(rest[..cut]) && WellEscaped(rest[cut..])
            && DecodeLine(rest) == DecodeLine(rest[..cut]) + DecodeLine(rest[cut..])
  {
    hide WellEscaped, DecodeLine;
    var cut := CutAt(rest);
    if rest[cut - 1] == EQUALS {
      EscapesAreComplete(rest, cut - 1);
    } else if rest[cut - 2] == EQUALS {
      EscapesAreComplete(rest, cut - 2);
    }
    assert rest[..cut] + rest[cut..] == rest;
    CutOutsideEscape(rest[..cut], rest[cut..]);
  }

  // ---------------------------------------------------------------- line shape

  /** What a mail transport may rely on: no line break inside, no blank at the end. */
  predicate GoodLine(line: Octets) {
    Unbroken(line) && (line != [] ==> !IsBlank(line[|line| - 1]))
  }

  lemma {:induction false} WellEscapedIsUnbroken(s: Octets)
    requires WellEscaped(s)
    ensures Unbroken(s) && (s != [] ==> s[|s| - 1] != EQUALS)
  {
    if s != [] {
      var n := if s[0] == EQUALS then 3 else 1;
      WellEscapedIsUnbroken(s[n..]);
      forall i | 0 <= i < |s|
        ensures !IsBreak(s[i])
      {
        if i >= n {
          assert s[i] == s[n..][i - n];
        }
      }
    }
  }

  // Soft breaks never split an escape, no wrapped line ends in a blank, and none is longer than 77.
  lemma {:induction false} WrappedLines(s: Octets)
    requires WellEscaped(s) && (s != [] ==> !IsBlank(s[|s| - 1]))
    ensures forall i :: 0 <= i < |Wrap(s)| ==> GoodLine(Wrap(s)[i]) && |Wrap(s)[i]| <= 77
    decreases |s|
  {
    hide WellEscaped, DecodeLine;
    WellEscapedIsUnbroken(s);
    if |s| > QP_LINE_LENGTH {
      CutIsOutsideEscape(s);
      WrappedLines(s[CutAt(s)..]);
    }
  }

  /** Each cut of the wrapping loop lands on an escape and is moved back by one or two. */
  predicate EveryCutMeetsAnEscape(rest: Octets) {
    |rest| <= QP_LINE_LENGTH ||
    ((rest[QP_LINE_LENGTH - 1] == EQUALS || rest[QP_LINE_LENGTH - 2] == EQUALS) &&
     EveryCutMeetsAnEscape(rest[CutAt(rest)..]))
  }

  // The standard's limit of 76 octets is kept exactly when no cut is made at the full 76: the "="
  // appended there is octet number 77.
  lemma {:induction false} WidthLimitExactly(s: Octets)
    ensures (forall i :: 0 <= i < |Wrap(s)| ==> |Wrap(s)[i]| <= 76) <==> EveryCutMeetsAnEscape(s)
    decreases |s|
  {
    if |s| > QP_LINE_LENGTH {
      var rest := s[CutAt(s)..];
      WidthLimitExactly(rest);
      assert |Wrap(s)[0]| == CutAt(s) + 1;
      assert forall i :: 0 <= i < |Wrap(rest)| ==> Wrap(s)[i + 1] == Wrap(rest)[i];
      assert forall i :: 1 <= i < |Wrap(s)| ==> Wrap(s)[i] == Wrap(rest)[i - 1];
    }
  }

  // So every unescaped line of more than 76 characters is sent with an over-long first line.
  lemma PlainLinesOverflow(line: Octets)
    requires |line| > 76 && EQUALS !in line
    ensures |Wrap(line)[0]| == 77
  {
    assert line[QP_LINE_LENGTH - 1] in line && line[QP_LINE_LENGTH - 2] in line;
  }

  // ---------------------------------------------------------------- round trip

  /** All the lines sent for the given text lines. */
  function WireLines(lines: seq<Text>): seq<Octets> {
    if lines == [] then [] else Wrap(Escape(Utf8(lines[0]))) + WireLines(lines[1..])
  }

  lemma {:induction false} EncodeEachIsWireLines(lines: seq<Text>)
    requires lines != []
    ensures WireLines(lines) != []
    ensures Join(EncodeEach(lines)) == Join(WireLines(lines))
  {
    var first := Wrap(Escape(Utf8(lines[0])));
    if |lines| == 1 {
      assert EncodeEach(lines) == [EncodeLine(lines[0])];
      assert first + WireLines(lines[1..]) == first;
    } else {
      EncodeEachIsWireLines(lines[1..]);
      JoinAppend(first, WireLines(lines[1..]));
      assert EncodeEach(lines)[1..] == EncodeEach(lines[1..]);
    }
  }

  lemma {:induction false} WireLinesAreGood(lines: seq<Text>)
    ensures forall i :: 0 <= i < |WireLines(lines)| ==>
              GoodLine(WireLines(lines)[i]) && |WireLines(lines)[i]| <= QP_LINE_LENGTH + 1
  {
    if lines != [] {
      var bytes := Utf8(lines[0]);
      EscapeIsWellFormed(bytes);
      WrappedLines(Escape(bytes));
      WireLinesAreGood(lines[1..]);
    }
  }

  lemma SoftBreak(part: Octets, rest: seq<Octets>)
    ensures DecodeLines([part + [EQUALS]] + rest) == DecodeLine(part) + DecodeLines(rest)
  {
    hide DecodeLine;
    var first := part + [EQUALS];
    assert ([first] + rest)[1..] == rest;
    assert DropPadding(first) == first && first[..|first| - 1] == part;
  }

  lemma HardBreak(s: Octets, more: seq<Octets>)
    requires s != [] ==> !IsBlank(s[|s| - 1]) && s[|s| - 1] != EQUALS
    ensures DecodeLines([s] + more) ==
            if more == [] then DecodeLine(s) else DecodeLine(s) + CRLF + DecodeLines(more)
  {
    hide DecodeLine;
    assert ([s] + more)[1..] == more;
    assert DropPadding(s) == s;
  }

  lemma {:induction false} DecodeWrapped(s: Octets, more: seq<Octets>)
    requires WellEscaped(s) && (s != [] ==> !IsBlank(s[|s| - 1]))
    ensures DecodeLines(Wrap(s) + more) ==
            if more == [] then DecodeLine(s) else DecodeLine(s) + CRLF + DecodeLines(more)
    decreases |s|
  {
    hide DecodeLine, WellEscaped, DecodeLines, Wrap;
    WrapStep(s);
    if |s| <= QP_LINE_LENGTH {
      WellEscapedIsUnbroken(s);
      HardBreak(s, more);
    } else {
      var cut := CutAt(s);
      CutIsOutsideEscape(s);
      DecodeWrapped(s[cut..], more);
      assert Wrap(s) + more == [s[..cut] + [EQUALS]] + (Wrap(s[cut..]) + more);
      SoftBreak(s[..cut], Wrap(s[cut..]) + more);
      var head, tail := DecodeLine(s[..cut]), DecodeLine(s[cut..]);
      assert head + (tail + CRLF + DecodeLines(more)) == head + tail + CRLF + DecodeLines(more);
    }
  }

  lemma {:induction false} DecodeWireLines(lines: seq<Text>)
    requires lines != []
    ensures DecodeLines(WireLines(lines)) == Join(Utf8Lines(lines))
  {
    var bytes := Utf8(lines[0]);
    EscapeIsWellFormed(bytes);
    DecodeWrapped(Escape(bytes), WireLines(lines[1..]));
    if |lines| > 1 {
      EncodeEachIsWireLines(lines[1..]);
      DecodeWireLines(lines[1..]);
      assert Utf8Lines(lines)[1..] == Utf8Lines(lines[1..]);
    }
  }

  // Decoding what the relay encodes gives back the text, with its line ends normalised to CRLF.
  lemma DecodeEncode(t: Text)
    ensures Decode(QuotedPrintableEncode(t)) == Normalised(t)
  {
    var lines := LinesOf(t);
    EncodeEachIsWireLines(lines);
    WireLinesAreGood(lines);
    SplitJoin(WireLines(lines));
    DecodeWireLines(lines);
    Utf8KeepsLines(t);
  }
}
