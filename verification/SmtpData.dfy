/**
 * The DATA stage of one e-mail: the client's message source and terminator, and the server's
 * connection that cuts the octet stream into lines, removes the dot-stuffing and stores the body.
 */
module SmtpData {
  import opened Wrappers
  import opened Bytes
  import opened Lines
  import opened QuotedPrintable

  const DOT: Byte := 0x2E
  const COLON: Byte := 0x3A
  const LESS: Byte := 0x3C
  const GREATER: Byte := 0x3E

  // ---------------------------------------------------------------- the client

  datatype Message = Message(fromAddress: Octets, toAddress: Octets, subject: Octets,
                             date: Octets, messageId: Octets, bodyText: Text)

  /** The octets of a string of printable ASCII characters and spaces. */
  function Ascii(s: string): (octets: Octets)
    requires forall i :: 0 <= i < |s| ==> 0x20 <= s[i] as int < 0x7F
    ensures |octets| == |s| && Unbroken(octets)
    ensures forall i :: 0 <= i < |s| ==> octets[i] == s[i] as int
  {
    seq(|s|, i requires 0 <= i < |s| => s[i] as int)
  }

  const FIELD_FROM: Octets := Ascii("From")
  const FIELD_TO: Octets := Ascii("To")
  const FIELD_SUBJECT: Octets := Ascii("Subject")
  const FIELD_DATE: Octets := Ascii("Date")
  const FIELD_ID: Octets := Ascii("Message-ID")
  const FIELD_VERSION: Octets := Ascii("MIME-Version")
  const FIELD_TYPE: Octets := Ascii("Content-Type")
  const FIELD_ENCODING: Octets := Ascii("Content-Transfer-Encoding")

  const ID_SUFFIX: Octets := Ascii("@arald-email-relay>")
  const MIME_VERSION: Octets := Ascii("1.0")
  const PLAIN_TEXT: Octets := Ascii("text/plain; charset=utf-8")
  const QUOTED_PRINTABLE: Octets := Ascii("quoted-printable")

  /** A field's name can stand at the start of a header line. */
  predicate FieldName(name: Octets) {
    name != [] && name[0] != DOT && Unbroken(name)
  }

  function Field(name: Octets, value: Octets): (line: Octets)
    requires FieldName(name)
    ensures line != [] && line[0] != DOT && (Unbroken(value) ==> Unbroken(line))
  {
    name + [COLON, SPACE] + value
  }

  function Fields(m: Message): seq<Octets> {
    [ Field(FIELD_FROM, m.fromAddress),
      Field(FIELD_TO, m.toAddress),
      Field(FIELD_SUBJECT, m.subject),
      Field(FIELD_DATE, m.date),
      Field(FIELD_ID, [LESS] + m.messageId + ID_SUFFIX) ]
  }

  function MimeFields(): seq<Octets> {
    [ Field(FIELD_VERSION, MIME_VERSION),
      Field(FIELD_TYPE, PLAIN_TEXT),
      Field(FIELD_ENCODING, QUOTED_PRINTABLE) ]
  }

  function HeaderLines(m: Message): seq<Octets> {
    Fields(m) + MimeFields()
  }

  function Stuffed(line: Octets): Octets {
    if line != [] && line[0] == DOT then [DOT] + line else line
  }

  function StuffLines(lines: seq<Octets>): seq<Octets> {
    if lines == [] then [] else [Stuffed(lines[0])] + StuffLines(lines[1..])
  }

  function DotStuff(text: Octets): Octets {
    Join(StuffLines(OctetLines(text)))
  }

  function MessageSource(m: Message): Octets {
    Join(HeaderLines(m)) + CRLF + CRLF + DotStuff(QuotedPrintableEncode(m.bodyText))
  }

  predicate EndsWithCrlf(s: Octets) {
    |s| >= 2 && s[|s| - 2..] == CRLF
  }

  function Wire(m: Message): Octets {
    var source := MessageSource(m);
    source + if EndsWithCrlf(source) then [DOT] + CRLF else CRLF + [DOT] + CRLF
  }

  /** `sendEmail` up to the DATA octets; `None` where it throws on an address or subject with a line break. */
  function SendData(m: Message): Option<Octets> {
    if Unbroken(m.fromAddress) && Unbroken(m.toAddress) && Unbroken(m.subject) then Some(Wire(m)) else None
  }

  const EHLO: Octets := Ascii("EHLO")
  const AUTH: Octets := Ascii("AUTH")
  const MAIL: Octets := Ascii("MAIL")
  const RCPT: Octets := Ascii("RCPT")
  const DATA: Octets := Ascii("DATA")
  const QUIT: Octets := Ascii("QUIT")

  const CLIENT_NAME: Octets := Ascii(" arald-email-relay")
  const PLAIN: Octets := Ascii(" PLAIN ")
  const FROM: Octets := Ascii(" FROM:")
  const TO: Octets := Ascii(" TO:")

  function AddressLine(verb: Octets, address: Octets): Octets {
    verb + [LESS] + address + [GREATER]
  }

  /** The commands before the message; `credentials` is the base64 text of the login. */
  function Envelope(m: Message, credentials: Octets): (lines: seq<Octets>)
    ensures |lines| == 5
  {
    [ EHLO + CLIENT_NAME,
      AUTH + PLAIN + credentials,
      AddressLine(MAIL + FROM, m.fromAddress),
      AddressLine(RCPT + TO, m.toAddress),
      DATA ]
  }

  function SendLines(lines: seq<Octets>): Octets {
    if lines == [] then [] else lines[0] + CRLF + SendLines(lines[1..])
  }

  /**
   * All that `sendEmail` writes to the socket. It stops at a refused login, and says goodbye only
   * after the message has been accepted.
   */
  function Session(m: Message, credentials: Octets, authOk: bool, failNext: bool): Octets {
    if authOk then
      SendLines(Envelope(m, credentials)) + (Wire(m) + if failNext then [] else SendLines([QUIT]))
    else SendLines(Envelope(m, credentials)[..2])
  }

  // ---------------------------------------------------------------- the server

  datatype ConnState = Greeted | Authenticated | Mail | Rcpt | Data

  datatype Email = Email(fromAddress: Octets, toAddress: Octets, headerBlock: Octets, body: Octets)

  /** One connection; `authOk` and `failNext` stand for the credentials check and the injected failure. */
  datatype Conn = Conn(state: ConnState, pendingFrom: Octets, pendingTo: Octets, dataLines: seq<Octets>,
                       received: seq<Email>, authOk: bool, failNext: bool)

  /** `s.indexOf(pattern)`. */
  function Find(s: Octets, pattern: Octets): (i: int)
    ensures -1 <= i <= |s| - |pattern| || (i == -1 && |s| < |pattern|)
  {
    if |s| < |pattern| then -1
    else if s[..|pattern|] == pattern then 0
    else if s == [] then -1
    else var i := Find(s[1..], pattern); if i < 0 then -1 else i + 1
  }

  function Upper(s: Octets): Octets {
    seq(|s|, i requires 0 <= i < |s| => if 0x61 <= s[i] <= 0x7A then s[i] - 0x20 else s[i])
  }

  /** The text between the first "<" and the next ">". */
  function ExtractAddress(line: Octets): Octets {
    var open := Find(line, [LESS]);
    if open < 0 then []
    else
      var rest := line[open + 1..];
      var close := Find(rest, [GREATER]);
      if close < 0 then [] else rest[..close]
  }

  function FinishData(c: Conn): Conn {
    if c.failNext then c.(state := Rcpt, failNext := false)
    else
      var raw := Join(c.dataLines);
      var separator := Find(raw, CRLF + CRLF);
      var headerBlock := if separator == -1 then raw else raw[..separator];
      var body := if separator == -1 then [] else raw[separator + 4..];
      c.(state := Rcpt, received := c.received + [Email(c.pendingFrom, c.pendingTo, headerBlock, body)])
  }

  function Unstuffed(line: Octets): Octets {
    if |line| >= 2 && line[0] == DOT && line[1] == DOT then line[1..] else line
  }

  datatype Command = Ehlo | Auth | MailFrom | RcptTo | StartData | Other

  /** The first four characters of a line, in upper case. */
  function CommandOf(line: Octets): Command {
    var verb := Upper(if |line| < 4 then line else line[..4]);
    if verb == EHLO then Ehlo
    else if verb == AUTH then Auth
    else if verb == MAIL then MailFrom
    else if verb == RCPT then RcptTo
    else if verb == DATA then StartData
    else Other
  }

  function Handle(c: Conn, line: Octets): Conn {
    if c.state == Data then
      if line == [DOT] then FinishData(c) else c.(dataLines := c.dataLines + [Unstuffed(line)])
    else
      match CommandOf(line)
      case Ehlo => c.(state := Greeted)
      case Auth => if c.authOk then c.(state := Authenticated) else c
      case MailFrom => c.(pendingFrom := ExtractAddress(line), state := Mail)
      case RcptTo => c.(pendingTo := ExtractAddress(line), state := Rcpt)
      case StartData => c.(dataLines := [], state := Data)
      case Other => c
  }

  function HandleAll(c: Conn, lines: seq<Octets>): Conn {
    if lines == [] then c else Handle(HandleAll(c, lines[..|lines| - 1]), lines[|lines| - 1])
  }

  function Complete(s: Octets): seq<Octets> {
    Split(s)[..|Split(s)| - 1]
  }

  function Unfinished(s: Octets): Octets {
    Split(s)[|Split(s)| - 1]
  }

  /** The server's side of one socket: its state depends only on the octets received, not on their cutting. */
  class FakeSmtpConnection {
    var state: ConnState
    var buffer: Octets
    var pendingFrom: Octets
    var pendingTo: Octets
    var dataLines: seq<Octets>
    var received: seq<Email>
    var authOk: bool
    var failNext: bool
    ghost const start: Conn
    ghost var wire: Octets  // every octet received so far

    ghost function Abs(): Conn
      reads this
    {
      Conn(state, pendingFrom, pendingTo, dataLines, received, authOk, failNext)
    }

    ghost predicate Valid()
      reads this
    {
      Abs() == HandleAll(start, Complete(wire)) && buffer == Unfinished(wire)
    }

    constructor (authOk: bool, failNext: bool)
      ensures Valid() && wire == [] && start == Conn(Greeted, [], [], [], [], authOk, failNext)
    {
      state, buffer, pendingFrom, pendingTo, dataLines, received := Greeted, [], [], [], [], [];
      this.authOk, this.failNext := authOk, failNext;
      start := Conn(Greeted, [], [], [], [], authOk, failNext);
      wire := [];
    }

    method OnData(chunk: Octets)
      requires Valid()
      modifies this
      ensures Valid() && wire == old(wire) + chunk
    {
      hide Split, HandleAll, Handle, Find, Complete, Unfinished;
      ghost var lines := Complete(wire);
      WireGrows(wire, chunk);
      wire := wire + chunk;
      buffer := buffer + chunk;
      var index := Find(buffer, CRLF);
      while index != -1
        invariant wire == old(wire) + chunk && index == Find(buffer, CRLF)
        invariant lines + Complete(buffer) == Complete(wire) && Unfinished(buffer) == Unfinished(wire)
        invariant Abs() == HandleAll(start, lines)
        decreases |buffer|
      {
        var line := buffer[..index];
        FirstLine(buffer);
        assert lines + ([line] + Complete(buffer[index + 2..])) == lines + [line] + Complete(buffer[index + 2..]);
        buffer := buffer[index + |CRLF|..];
        HandleLine(line);
        HandleSnoc(start, lines, line);
        lines := lines + [line];
        index := Find(buffer, CRLF);
      }
      NoLine(buffer);
      assert lines + [] == lines;
    }

    method HandleLine(line: Octets)
      modifies this`state, this`pendingFrom, this`pendingTo, this`dataLines, this`received, this`failNext
      ensures Abs() == Handle(old(Abs()), line)
    {
      hide CommandOf, ExtractAddress, FinishData;
      if state == Data {
        if line == [DOT] {
          FinishDataStage();
          return;
        }
        dataLines := dataLines + [if |line| >= 2 && line[0] == DOT && line[1] == DOT then line[1..] else line];
        return;
      }
      match CommandOf(line) {
        case Ehlo =>
          state := Greeted;
        case Auth =>
          if authOk { state := Authenticated; }
        case MailFrom =>
          pendingFrom := ExtractAddress(line);
          state := Mail;
        case RcptTo =>
          pendingTo := ExtractAddress(line);
          state := Rcpt;
        case StartData =>
          dataLines := [];
          state := Data;
        case Other =>
      }
    }

    method FinishDataStage()
      modifies this`state, this`received, this`failNext
      ensures Abs() == FinishData(old(Abs()))
    {
      state := Rcpt;
      if failNext {
        failNext := false;
        return;
      }
      var raw := Join(dataLines);
      var separatorIndex := Find(raw, CRLF + CRLF);
      var headerBlock := if separatorIndex == -1 then raw else raw[..separatorIndex];
      var bodyText := if separatorIndex == -1 then [] else raw[separatorIndex + 2 * |CRLF|..];
      received := received + [Email(pendingFrom, pendingTo, headerBlock, bodyText)];
    }
  }

  lemma HandleSnoc(c: Conn, lines: seq<Octets>, line: Octets)
    ensures HandleAll(c, lines + [line]) == Handle(HandleAll(c, lines), line)
  {
    assert (lines + [line])[..|lines|] == lines;
  }

  lemma WireGrows(wire: Octets, chunk: Octets)
    ensures Complete(wire + chunk) == Complete(wire) + Complete(Unfinished(wire) + chunk)
    ensures Unfinished(wire + chunk) == Unfinished(Unfinished(wire) + chunk)
  {
    hide Split;
    SplitResumes(wire, chunk);
    var had, more := Split(wire), Split(Unfinished(wire) + chunk);
    var init := had[..|had| - 1];
    assert (init + more)[..|init| + |more| - 1] == init + more[..|more| - 1];
  }

  lemma {:induction false} FirstLine(s: Octets)
    requires Find(s, CRLF) != -1
    ensures var i := Find(s, CRLF);
            && Complete(s) == [s[..i]] + Complete(s[i + 2..])
            && Unfinished(s) == Unfinished(s[i + 2..])
  {
    hide Split, Complete, Unfinished;
    if s[..2] == CRLF {
      assert s[0] == s[..2][0] && s[1] == s[..2][1];
      CompleteBreak(s);
      assert s[..0] == [];
    } else {
      FirstLine(s[1..]);
      var i := Find(s[1..], CRLF);
      assert s[1..][i + 2..] == s[i + 3..];
      assert s[..i + 1] == [s[0]] + s[1..][..i];
      assert !(s[0] == CR && s[1] == LF) by {
        assert s[..2] == [s[0], s[1]];
      }
      CompleteOctet(s);
    }
  }

  lemma CompleteBreak(s: Octets)
    requires |s| >= 2 && s[0] == CR && s[1] == LF
    ensures Complete(s) == [[]] + Complete(s[2..]) && Unfinished(s) == Unfinished(s[2..])
  {
    hide Split;
    SplitBreak(s);
    var rest := Split(s[2..]);
    assert ([[]] + rest)[..|rest|] == [[]] + rest[..|rest| - 1];
  }

  lemma CompleteOctet(s: Octets)
    requires |s| >= 2 && !(s[0] == CR && s[1] == LF) && Complete(s[1..]) != []
    ensures Complete(s) == [[s[0]] + Complete(s[1..])[0]] + Complete(s[1..])[1..]
    ensures Unfinished(s) == Unfinished(s[1..])
  {
    hide Split;
    SplitOctet(s);
    var rest := Split(s[1..]);
    var first := [s[0]] + rest[0];
    assert ([first] + rest[1..])[..|rest| - 1] == [first] + rest[1..|rest| - 1];
    assert rest[..|rest| - 1][1..] == rest[1..|rest| - 1];
  }

  lemma {:induction false} NoLine(s: Octets)
    requires Find(s, CRLF) == -1
    ensures Complete(s) == [] && Unfinished(s) == s
  {
    hide Split;
    if |s| < 2 {
      ShortIsOneLine(s);
    } else {
      assert s[..2] == [s[0], s[1]];
      NoLine(s[1..]);
      SplitOctet(s);
      assert [s[0]] + s[1..] == s;
    }
  }

  // ---------------------------------------------------------------- one message, end to end

  /** What the server keeps of an encoded body: it drops one trailing CRLF. */
  function Stored(body: Octets): Octets {
    if EndsWithCrlf(body) then body[..|body| - 2] else body
  }

  /** A header line as the client builds them: not empty, one line, and it does not start with a dot. */
  predicate HeaderLine(line: Octets) {
    line != [] && line[0] != DOT && Unbroken(line)
  }

  predicate AllHeaderLines(lines: seq<Octets>) {
    forall i :: 0 <= i < |lines| ==> HeaderLine(lines[i])
  }

  // A message is sent exactly if neither address nor its subject holds a CR or an LF.
  lemma SendsExactly(m: Message)
    ensures SendData(m).Some? <==> 10 !in m.fromAddress + m.toAddress + m.subject &&
                                   13 !in m.fromAddress + m.toAddress + m.subject
    ensures SendData(m).Some? ==> SendData(m).value == Wire(m)
  {
    hide Wire;
    var all := m.fromAddress + m.toAddress + m.subject;
    assert forall b: Byte :: b in all <==> b in m.fromAddress || b in m.toAddress || b in m.subject;
    UnbrokenExactly(m.fromAddress);
    UnbrokenExactly(m.toAddress);
    UnbrokenExactly(m.subject);
  }

  lemma UnbrokenExactly(s: Octets)
    ensures Unbroken(s) <==> 10 !in s && 13 !in s
  {
  }

  lemma HeadersAreSingleLines(m: Message)
    requires Unbroken(m.fromAddress) && Unbroken(m.toAddress) && Unbroken(m.subject)
    requires Unbroken(m.date) && Unbroken(m.messageId)
    ensures AllHeaderLines(HeaderLines(m))
  {
    hide Field, Ascii;
  }

  /** The body of the first header field of this name (section 2.2 of RFC 5322). */
  function FieldBody(lines: seq<Octets>, name: Octets): Option<Octets> {
    if lines == [] then None
    else
      var n := |name| + 2;
      if |lines[0]| >= n && lines[0][..n] == name + [COLON, SPACE] then Some(lines[0][n..])
      else FieldBody(lines[1..], name)
  }

  lemma FirstField(name: Octets, value: Octets, rest: seq<Octets>)
    requires FieldName(name)
    ensures FieldBody([Field(name, value)] + rest, name) == Some(value)
  {
    var line := Field(name, value);
    var n := |name| + 2;
    assert line[..n] == name + [COLON, SPACE] && line[n..] == value;
    assert ([line] + rest)[0] == line;
  }

  // A field whose name has another letter at some place is passed over.
  lemma OtherField(lines: seq<Octets>, name: Octets, i: nat)
    requires lines != [] && i < |name| && i < |lines[0]| && lines[0][i] != name[i]
    ensures FieldBody(lines, name) == FieldBody(lines[1..], name)
  {
    var n := |name| + 2;
    if |lines[0]| >= n {
      assert lines[0][..n][i] == lines[0][i] && (name + [COLON, SPACE])[i] == name[i];
    }
  }

  // The letters by which the names differ: all in the first two, but for the two "Content-" ones.
  lemma Letters()
    ensures |FIELD_FROM| == 4 && FIELD_FROM[0] == 70 && |FIELD_TO| == 2 && FIELD_TO[0] == 84
    ensures |FIELD_SUBJECT| == 7 && FIELD_SUBJECT[0] == 83 && |FIELD_DATE| == 4 && FIELD_DATE[0] == 68
    ensures |FIELD_ID| == 10 && FIELD_ID[0] == 77 && FIELD_ID[1] == 101
    ensures |FIELD_VERSION| == 12 && FIELD_VERSION[0] == 77 && FIELD_VERSION[1] == 73
    ensures |FIELD_TYPE| == 12 && FIELD_TYPE[0] == 67 && FIELD_TYPE[9] == 121
    ensures |FIELD_ENCODING| == 25 && FIELD_ENCODING[0] == 67 && FIELD_ENCODING[9] == 114
  {
  }

  ghost predicate FieldOf(h: seq<Octets>, i: nat, name: Octets, value: Octets) {
    i < |h| && FieldName(name) && h[i] == Field(name, value)
  }

  lemma EightFields(m: Message)
    ensures var h := HeaderLines(m);
            && |h| == 8 && FieldOf(h, 0, FIELD_FROM, m.fromAddress) && FieldOf(h, 1, FIELD_TO, m.toAddress)
            && FieldOf(h, 2, FIELD_SUBJECT, m.subject) && FieldOf(h, 3, FIELD_DATE, m.date)
            && FieldOf(h, 4, FIELD_ID, [LESS] + m.messageId + ID_SUFFIX) && FieldOf(h, 5, FIELD_VERSION, MIME_VERSION)
            && FieldOf(h, 6, FIELD_TYPE, PLAIN_TEXT) && FieldOf(h, 7, FIELD_ENCODING, QUOTED_PRINTABLE)
  {
    hide Ascii, Field;
  }

  /** Some letter tells this line from a field of that name. */
  ghost predicate Differs(line: Octets, name: Octets) {
    exists i :: 0 <= i < |name| && i < |line| && line[i] != name[i]
  }

  // A field is found behind lines that differ from it.
  lemma {:induction false} FieldIsFound(h: seq<Octets>, k: nat, name: Octets, value: Octets)
    requires FieldOf(h, k, name, value) && forall j :: 0 <= j < k ==> Differs(h[j], name)
    ensures FieldBody(h, name) == Some(value)
    decreases k
  {
    hide Field, FieldName, FieldBody;
    if k == 0 {
      assert h == [h[0]] + h[1..];
      FirstField(name, value, h[1..]);
    } else {
      assert Differs(h[0], name);
      var i :| 0 <= i < |name| && i < |h[0]| && h[0][i] != name[i];
      OtherField(h, name, i);
      FieldIsFound(h[1..], k - 1, name, value);
    }
  }

  lemma DiffersAt(h: seq<Octets>, j: nat, other: Octets, value: Octets, name: Octets, i: nat)
    requires FieldOf(h, j, other, value) && i < |name| && i < |other| && other[i] != name[i]
    ensures Differs(h[j], name)
  {
    assert h[j][i] == other[i];
  }

  // A reader of header fields finds in the stored block exactly what the message was given: both its
  // addresses, its subject, date and identifier, and what its body is and how it is encoded.
  lemma HeadersAreRead(m: Message)
    requires SendData(m).Some? && Unbroken(m.date) && Unbroken(m.messageId)
    ensures var h := Split(Join(HeaderLines(m)));
            && FieldBody(h, FIELD_FROM) == Some(m.fromAddress) && FieldBody(h, FIELD_TO) == Some(m.toAddress)
            && FieldBody(h, FIELD_SUBJECT) == Some(m.subject) && FieldBody(h, FIELD_DATE) == Some(m.date)
            && FieldBody(h, FIELD_ID) == Some([LESS] + m.messageId + ID_SUFFIX)
            && FieldBody(h, FIELD_VERSION) == Some(MIME_VERSION) && FieldBody(h, FIELD_TYPE) == Some(PLAIN_TEXT)
            && FieldBody(h, FIELD_ENCODING) == Some(QUOTED_PRINTABLE)
  {
    hide HeaderLines, Ascii, Split, Join, FieldBody, FieldOf, Differs;
    var h := HeaderLines(m);
    HeadersAreSingleLines(m);
    EightFields(m);
    SplitHeaders(h);
    AddressesAreRead(m, h);
    RestIsRead(m, h);
    MimeIsRead(m, h);
  }

  lemma SplitHeaders(h: seq<Octets>)
    requires h != [] && AllHeaderLines(h)
    ensures Split(Join(h)) == h
  {
    SplitJoin(h);
  }

  lemma AddressesAreRead(m: Message, h: seq<Octets>)
    requires FieldOf(h, 0, FIELD_FROM, m.fromAddress) && FieldOf(h, 1, FIELD_TO, m.toAddress)
    requires FieldOf(h, 2, FIELD_SUBJECT, m.subject)
    ensures FieldBody(h, FIELD_FROM) == Some(m.fromAddress) && FieldBody(h, FIELD_TO) == Some(m.toAddress)
    ensures FieldBody(h, FIELD_SUBJECT) == Some(m.subject)
  {
    hide Ascii, FieldBody, FieldOf, Differs;
    Letters();
    DiffersAt(h, 0, FIELD_FROM, m.fromAddress, FIELD_TO, 0);
    DiffersAt(h, 0, FIELD_FROM, m.fromAddress, FIELD_SUBJECT, 0);
    DiffersAt(h, 1, FIELD_TO, m.toAddress, FIELD_SUBJECT, 0);
    FieldIsFound(h, 0, FIELD_FROM, m.fromAddress);
    FieldIsFound(h, 1, FIELD_TO, m.toAddress);
    FieldIsFound(h, 2, FIELD_SUBJECT, m.subject);
  }

  lemma FirstThreeDiffer(m: Message, h: seq<Octets>, name: Octets)
    requires FieldOf(h, 0, FIELD_FROM, m.fromAddress) && FieldOf(h, 1, FIELD_TO, m.toAddress)
    requires FieldOf(h, 2, FIELD_SUBJECT, m.subject)
    requires name != [] && name[0] != 70 && name[0] != 84 && name[0] != 83
    ensures forall j :: 0 <= j < 3 ==> Differs(h[j], name)
  {
    hide Ascii, Differs, FieldOf;
    Letters();
    DiffersAt(h, 0, FIELD_FROM, m.fromAddress, name, 0);
    DiffersAt(h, 1, FIELD_TO, m.toAddress, name, 0);
    DiffersAt(h, 2, FIELD_SUBJECT, m.subject, name, 0);
  }

  lemma RestIsRead(m: Message, h: seq<Octets>)
    requires FieldOf(h, 0, FIELD_FROM, m.fromAddress) && FieldOf(h, 1, FIELD_TO, m.toAddress)
    requires FieldOf(h, 2, FIELD_SUBJECT, m.subject) && FieldOf(h, 3, FIELD_DATE, m.date)
    requires FieldOf(h, 4, FIELD_ID, [LESS] + m.messageId + ID_SUFFIX)
    ensures FieldBody(h, FIELD_DATE) == Some(m.date)
    ensures FieldBody(h, FIELD_ID) == Some([LESS] + m.messageId + ID_SUFFIX)
  {
    hide Ascii, FieldBody, FieldOf, Differs;
    Letters();
    FirstThreeDiffer(m, h, FIELD_DATE);
    FirstThreeDiffer(m, h, FIELD_ID);
    DiffersAt(h, 3, FIELD_DATE, m.date, FIELD_ID, 0);
    FieldIsFound(h, 3, FIELD_DATE, m.date);
    FieldIsFound(h, 4, FIELD_ID, [LESS] + m.messageId + ID_SUFFIX);
  }

  lemma FirstFiveDiffer(m: Message, h: seq<Octets>, name: Octets)
    requires FieldOf(h, 0, FIELD_FROM, m.fromAddress) && FieldOf(h, 1, FIELD_TO, m.toAddress)
    requires FieldOf(h, 2, FIELD_SUBJECT, m.subject) && FieldOf(h, 3, FIELD_DATE, m.date)
    requires FieldOf(h, 4, FIELD_ID, [LESS] + m.messageId + ID_SUFFIX)
    requires |name| >= 2 && (name[0] == 67 || (name[0] == 77 && name[1] == 73))
    ensures forall j :: 0 <= j < 5 ==> Differs(h[j], name)
  {
    hide Ascii, Differs, FieldOf;
    Letters();
    FirstThreeDiffer(m, h, name);
    DiffersAt(h, 3, FIELD_DATE, m.date, name, 0);
    DiffersAt(h, 4, FIELD_ID, [LESS] + m.messageId + ID_SUFFIX, name, if name[0] == 67 then 0 else 1);
  }

  lemma MimeIsRead(m: Message, h: seq<Octets>)
    requires FieldOf(h, 0, FIELD_FROM, m.fromAddress) && FieldOf(h, 1, FIELD_TO, m.toAddress)
    requires FieldOf(h, 2, FIELD_SUBJECT, m.subject) && FieldOf(h, 3, FIELD_DATE, m.date)
    requires FieldOf(h, 4, FIELD_ID, [LESS] + m.messageId + ID_SUFFIX) && FieldOf(h, 5, FIELD_VERSION, MIME_VERSION)
    requires FieldOf(h, 6, FIELD_TYPE, PLAIN_TEXT) && FieldOf(h, 7, FIELD_ENCODING, QUOTED_PRINTABLE)
    ensures FieldBody(h, FIELD_VERSION) == Some(MIME_VERSION) && FieldBody(h, FIELD_TYPE) == Some(PLAIN_TEXT)
    ensures FieldBody(h, FIELD_ENCODING) == Some(QUOTED_PRINTABLE)
  {
    hide Ascii, FieldBody, FieldOf, Differs;
    Letters();
    FirstFiveDiffer(m, h, FIELD_VERSION);
    FieldIsFound(h, 5, FIELD_VERSION, MIME_VERSION);
    FirstFiveDiffer(m, h, FIELD_TYPE);
    DiffersAt(h, 5, FIELD_VERSION, MIME_VERSION, FIELD_TYPE, 0);
    FieldIsFound(h, 6, FIELD_TYPE, PLAIN_TEXT);
    FirstFiveDiffer(m, h, FIELD_ENCODING);
    DiffersAt(h, 5, FIELD_VERSION, MIME_VERSION, FIELD_ENCODING, 0);
    DiffersAt(h, 6, FIELD_TYPE, PLAIN_TEXT, FIELD_ENCODING, 9);
    FieldIsFound(h, 7, FIELD_ENCODING, QUOTED_PRINTABLE);
  }

  lemma {:induction false} StuffedIsUnbroken(lines: seq<Octets>)
    requires AllUnbroken(lines)
    ensures |StuffLines(lines)| == |lines| && AllUnbroken(StuffLines(lines))
    ensures forall i :: 0 <= i < |lines| ==> StuffLines(lines)[i] == Stuffed(lines[i])
  {
    if lines != [] {
      StuffedIsUnbroken(lines[1..]);
    }
  }

  lemma {:induction false} OctetLinesOfJoin(lines: seq<Octets>)
    requires lines != [] && AllUnbroken(lines)
    ensures OctetLines(Join(lines)) == lines
  {
    var first := lines[0];
    if |lines| == 1 {
      LinesAfterPrefix(first, []);
      assert first + [] == first;
    } else {
      OctetLinesOfJoin(lines[1..]);
      var rest := CRLF + Join(lines[1..]);
      assert Join(lines) == first + rest;
      LinesAfterPrefix(first, rest);
      assert rest[2..] == Join(lines[1..]);
      assert first + [] == first;
    }
  }

  // ---------------------------------------------------------------- the lines on the wire

  function BodyLines(t: Text): seq<Octets> {
    WireLines(LinesOf(t))
  }

  /** The body lines that are terminated by a line break of the message itself. */
  function SentLines(t: Text): seq<Octets> {
    var lines := BodyLines(t);
    if lines != [] && lines[|lines| - 1] == [] then lines[..|lines| - 1] else lines
  }

  lemma BodyIsJoin(t: Text)
    ensures BodyLines(t) != [] && AllUnbroken(BodyLines(t))
    ensures QuotedPrintableEncode(t) == Join(BodyLines(t))
  {
    EncodeEachIsWireLines(LinesOf(t));
    WireLinesAreGood(LinesOf(t));
  }

  // A joined text ends in CRLF exactly when its last line is empty and something precedes it.
  lemma JoinEnd(lines: seq<Octets>)
    requires |lines| >= 2 && AllUnbroken(lines)
    ensures EndsWithCrlf(Join(lines)) <==> lines[|lines| - 1] == []
    ensures lines[|lines| - 1] == [] ==> Join(lines) == Join(lines[..|lines| - 1]) + CRLF
  {
    var init, last := lines[..|lines| - 1], lines[|lines| - 1];
    assert lines == init + [last];
    JoinAppend(init, [last]);
    var s := Join(init) + CRLF + last;
    CrlfEnd(s);
    if last == [] {
      assert s == Join(init) + CRLF;
    } else {
      assert s[|s| - 1] == last[|last| - 1];
    }
  }

  lemma CrlfEnd(s: Octets)
    ensures EndsWithCrlf(s) ==> IsBreak(s[|s| - 1])
  {
    if EndsWithCrlf(s) {
      assert s[|s| - 2..][1] == LF;
    }
  }

  lemma StoredIsSentLines(t: Text)
    ensures Stored(QuotedPrintableEncode(t)) == Join(SentLines(t))
    ensures SentLines(t) == [] <==> QuotedPrintableEncode(t) == []
  {
    hide QuotedPrintableEncode, BodyLines;
    BodyIsJoin(t);
    StoredJoin(BodyLines(t));
  }

  lemma StoredJoin(lines: seq<Octets>)
    requires lines != [] && AllUnbroken(lines)
    ensures var sent := if lines[|lines| - 1] == [] then lines[..|lines| - 1] else lines;
            Stored(Join(lines)) == Join(sent) && (sent == [] <==> Join(lines) == [])
  {
    if |lines| >= 2 {
      JoinEnd(lines);
      JoinAppend(lines[..1], lines[1..]);
      assert lines == lines[..1] + lines[1..];
    } else {
      CrlfEnd(lines[0]);
    }
  }

  lemma StuffPrefix(lines: seq<Octets>, n: nat)
    requires AllUnbroken(lines) && n <= |lines|
    ensures |StuffLines(lines)| == |lines| && StuffLines(lines)[..n] == StuffLines(lines[..n])
  {
    StuffedIsUnbroken(lines);
    StuffedIsUnbroken(lines[..n]);
  }

  // The terminator is always a line of its own, right after the last line break of the source.
  lemma WireLinesOf(m: Message)
    requires AllHeaderLines(HeaderLines(m)) && HeaderLines(m) != []
    ensures Split(Wire(m)) == HeaderLines(m) + [[]] + StuffLines(SentLines(m.bodyText)) + [[DOT], []]
  {
    hide HeaderLines, Split, BodyLines, QuotedPrintableEncode, Join;
    var head, body := HeaderLines(m), BodyLines(m.bodyText);
    BodyIsJoin(m.bodyText);
    StuffedIsUnbroken(body);
    OctetLinesOfJoin(body);
    var lines := head + [[]] + StuffLines(body);
    SourceIsJoin(head, StuffLines(body));
    StuffPrefix(body, |body| - 1);
    var sent := head + [[]] + StuffLines(SentLines(m.bodyText));
    assert sent == if lines[|lines| - 1] == [] then lines[..|lines| - 1] else lines;
    TerminatorLine(lines);
  }

  lemma TerminatorLine(lines: seq<Octets>)
    requires |lines| >= 2 && AllUnbroken(lines)
    ensures var source := Join(lines);
            var sent := if lines[|lines| - 1] == [] then lines[..|lines| - 1] else lines;
            Split(source + if EndsWithCrlf(source) then [DOT] + CRLF else CRLF + [DOT] + CRLF) == sent + [[DOT], []]
  {
    hide Split, Join, EndsWithCrlf;
    var source := Join(lines);
    JoinEnd(lines);
    if lines[|lines| - 1] == [] {
      Terminated(lines[..|lines| - 1], source + ([DOT] + CRLF));
    } else {
      assert source + (CRLF + [DOT] + CRLF) == source + CRLF + ([DOT] + CRLF);
      Terminated(lines, source + (CRLF + [DOT] + CRLF));
    }
  }

  lemma Terminated(sent: seq<Octets>, wire: Octets)
    requires sent != [] && AllUnbroken(sent) && wire == Join(sent) + CRLF + ([DOT] + CRLF)
    ensures Split(wire) == sent + [[DOT], []]
  {
    hide Split, Join;
    JoinAppend(sent, [[DOT], []]);
    JoinOfTerminator();
    SplitJoin(sent + [[DOT], []]);
  }

  lemma JoinOfTerminator()
    ensures Join([[DOT], []]) == [DOT] + CRLF
  {
    assert [[DOT], []][1..] == [[]];
  }

  lemma SourceIsJoin(head: seq<Octets>, rest: seq<Octets>)
    requires head != [] && rest != []
    ensures Join(head + [[]] + rest) == Join(head) + CRLF + CRLF + Join(rest)
  {
    JoinAppend(head + [[]], rest);
    JoinAppend(head, [[]]);
    assert Join(head) + CRLF + [] == Join(head) + CRLF;
  }

  // ---------------------------------------------------------------- the lines at the server

  function UnstuffLines(lines: seq<Octets>): seq<Octets> {
    if lines == [] then [] else UnstuffLines(lines[..|lines| - 1]) + [Unstuffed(lines[|lines| - 1])]
  }

  lemma {:induction false} DataLinesAreKept(c: Conn, lines: seq<Octets>)
    requires c.state == Data && [DOT] !in lines
    ensures HandleAll(c, lines) == c.(dataLines := c.dataLines + UnstuffLines(lines))
  {
    if lines == [] {
      assert c.dataLines + [] == c.dataLines;
    } else {
      DataLinesAreKept(c, lines[..|lines| - 1]);
    }
  }

  lemma {:induction false} UnstuffUndoesStuffing(head: seq<Octets>, body: seq<Octets>)
    requires AllHeaderLines(head)
    ensures [DOT] !in head + [[]] + StuffLines(body)
    ensures UnstuffLines(head + [[]] + StuffLines(body)) == head + [[]] + body
    decreases |head| + |body|
  {
    if body != [] {
      var n := |body| - 1;
      StuffSnoc(body);
      UnstuffUndoesStuffing(head, body[..n]);
      var lines := head + [[]] + StuffLines(body);
      assert lines[..|lines| - 1] == head + [[]] + StuffLines(body[..n]);
      assert lines[|lines| - 1] == Stuffed(body[n]);
      assert head + [[]] + body == head + [[]] + body[..n] + [body[n]];
    } else {
      UnstuffHeaders(head);
      var lines := head + [[]] + [];
      assert lines[..|lines| - 1] == head;
    }
  }

  lemma {:induction false} StuffSnoc(body: seq<Octets>)
    requires body != []
    ensures StuffLines(body) == StuffLines(body[..|body| - 1]) + [Stuffed(body[|body| - 1])]
  {
    if |body| > 1 {
      StuffSnoc(body[1..]);
      assert body[1..][..|body| - 2] == body[..|body| - 1][1..];
    }
  }

  lemma {:induction false} UnstuffHeaders(head: seq<Octets>)
    requires AllHeaderLines(head)
    ensures UnstuffLines(head) == head && [DOT] !in head
  {
    if head != [] {
      UnstuffHeaders(head[..|head| - 1]);
      assert HeaderLine(head[|head| - 1]);
      assert head == head[..|head| - 1] + [head[|head| - 1]];
    }
  }

  // ---------------------------------------------------------------- the header separator

  const BLANK_LINE: Octets := CRLF + CRLF

  function Shifted(i: int, n: nat): int {
    if i < 0 then -1 else i + n
  }

  lemma {:induction false} FindPastText(u: Octets, s: Octets)
    requires Unbroken(u)
    ensures Find(u + s, BLANK_LINE) == Shifted(Find(s, BLANK_LINE), |u|)
  {
    if u == [] {
      assert u + s == s;
    } else {
      var t := u + s;
      assert t[1..] == u[1..] + s;
      FindPastText(u[1..], s);
      assert !IsBreak(u[0]);
      if |t| >= 4 {
        assert t[..4][0] == u[0] && BLANK_LINE[0] == CR;
      }
    }
  }

  lemma FindPastBreak(s: Octets)
    requires s != [] && !IsBreak(s[0])
    ensures Find(CRLF + s, BLANK_LINE) == Shifted(Find(s, BLANK_LINE), 2)
  {
    var t := CRLF + s;
    assert t[1..][1..] == s;
    if |t| >= 4 {
      assert t[..4][2] == s[0] && BLANK_LINE[2] == CR;
    }
    if |t[1..]| >= 4 {
      assert t[1..][..4][0] == LF && BLANK_LINE[0] == CR;
    }
  }

  lemma {:induction false} FindPastHeaders(head: seq<Octets>, s: Octets)
    requires head != [] && AllHeaderLines(head)
    ensures Find(Join(head) + s, BLANK_LINE) == Shifted(Find(s, BLANK_LINE), |Join(head)|)
  {
    hide Find;
    assert HeaderLine(head[0]);
    if |head| == 1 {
      FindPastText(head[0], s);
    } else {
      FindPastHeaders(head[1..], s);
      var rest := Join(head[1..]) + s;
      assert HeaderLine(head[1]) && head[1..][0] == head[1];
      assert rest[0] == head[1][0];
      FindPastBreak(rest);
      FindPastText(head[0], CRLF + rest);
      assert Join(head) + s == head[0] + (CRLF + rest);
    }
  }

  // ---------------------------------------------------------------- the theorem

  lemma RawMessage(head: seq<Octets>, body: seq<Octets>)
    requires head != [] && AllHeaderLines(head)
    ensures var raw := Join(head + [[]] + body);
            var separator := Find(raw, BLANK_LINE);
            if body == [] then separator == -1 && raw == Join(head) + CRLF
            else separator == |Join(head)| && raw[..separator] == Join(head) && raw[separator + 4..] == Join(body)
  {
    JoinAppend(head, [[]]);
    assert Join(head) + CRLF + [] == Join(head) + CRLF;
    if body == [] {
      FindPastHeaders(head, CRLF);
      assert head + [[]] + [] == head + [[]];
    } else {
      SourceIsJoin(head, body);
      var rest := BLANK_LINE + Join(body);
      assert Join(head) + CRLF + CRLF + Join(body) == Join(head) + rest;
      assert rest[..4] == BLANK_LINE;
      FindPastHeaders(head, rest);
    }
  }

  // For every message: after any but all of its complete lines the server is still reading data;
  // after all of them it has left the data state, and it has stored the quoted-printable body up to
  // one trailing CRLF (or, on an injected failure, nothing).
  lemma MessageIsStored(c: Conn, m: Message)
    requires c.state == Data && c.dataLines == []
    requires SendData(m).Some? && Unbroken(m.date) && Unbroken(m.messageId)
    ensures var lines := Complete(Wire(m));
            var body := QuotedPrintableEncode(m.bodyText);
            var headers := Join(HeaderLines(m)) + if body == [] then CRLF else [];
            && Unfinished(Wire(m)) == []
            && (forall k :: 0 <= k < |lines| ==> HandleAll(c, lines[..k]).state == Data)
            && HandleAll(c, lines).state == Rcpt && !HandleAll(c, lines).failNext
            && HandleAll(c, lines).received ==
               c.received + if c.failNext then [] else [Email(c.pendingFrom, c.pendingTo, headers, Stored(body))]
  {
    hide HeaderLines, SentLines, Split, QuotedPrintableEncode, Stored, FinishData, StuffLines, Wire;
    HeadersAreSingleLines(m);
    HeadersExist(m);
    WireLinesOf(m);
    StoredIsSentLines(m.bodyText);
    var head, sent := HeaderLines(m), SentLines(m.bodyText);
    var content := head + [[]] + StuffLines(sent);
    assert Complete(Wire(m)) == content + [[DOT]];
    ContentIsStored(c, head, sent);
  }

  lemma ContentIsStored(c: Conn, head: seq<Octets>, sent: seq<Octets>)
    requires c.state == Data && c.dataLines == [] && head != [] && AllHeaderLines(head)
    ensures var lines := head + [[]] + StuffLines(sent) + [[DOT]];
            var headers := Join(head) + if sent == [] then CRLF else [];
            && (forall k :: 0 <= k < |lines| ==> HandleAll(c, lines[..k]).state == Data)
            && HandleAll(c, lines).state == Rcpt && !HandleAll(c, lines).failNext
            && HandleAll(c, lines).received ==
               c.received + if c.failNext then [] else [Email(c.pendingFrom, c.pendingTo, headers, Join(sent))]
  {
    hide Join, Find, StuffLines, HandleAll;
    var content := head + [[]] + StuffLines(sent);
    var lines := content + [[DOT]];
    UnstuffUndoesStuffing(head, sent);
    forall k | 0 <= k < |lines|
      ensures HandleAll(c, lines[..k]).state == Data
    {
      assert lines[..k] == content[..k];
      DataLinesAreKept(c, content[..k]);
    }
    DataLinesAreKept(c, content);
    HandleSnoc(c, content, [DOT]);
    RawMessage(head, sent);
    assert [] + (head + [[]] + sent) == head + [[]] + sent;
    assert sent != [] ==> Join(head) + [] == Join(head);
    assert sent == [] ==> Join(sent) == [] by {
      JoinOfNothing();
    }
  }

  lemma JoinOfNothing()
    ensures Join([]) == []
  {
  }

  lemma HeadersExist(m: Message)
    ensures HeaderLines(m) != []
  {
  }

  // ---------------------------------------------------------------- a whole connection

  lemma {:induction false} SentLinesAreComplete(lines: seq<Octets>, rest: Octets)
    requires AllUnbroken(lines)
    ensures Complete(SendLines(lines) + rest) == lines + Complete(rest)
    ensures Unfinished(SendLines(lines) + rest) == Unfinished(rest)
  {
    hide Complete, Unfinished;
    if lines == [] {
      assert SendLines(lines) + rest == rest;
    } else {
      var more := SendLines(lines[1..]) + rest;
      assert SendLines(lines) + rest == lines[0] + CRLF + more;
      CompleteAfterLine(lines[0], more);
      SentLinesAreComplete(lines[1..], rest);
      assert [lines[0]] + (lines[1..] + Complete(rest)) == lines + Complete(rest);
    }
  }

  lemma CompleteAfterLine(line: Octets, rest: Octets)
    requires Unbroken(line)
    ensures Complete(line + CRLF + rest) == [line] + Complete(rest)
    ensures Unfinished(line + CRLF + rest) == Unfinished(rest)
  {
    hide Split, Unbroken;
    SplitLineThen(line, rest);
    var more := Split(rest);
    assert ([line] + more)[..|more|] == [line] + more[..|more| - 1];
  }

  lemma {:induction false} HandleAppend(c: Conn, a: seq<Octets>, b: seq<Octets>)
    ensures HandleAll(c, a + b) == HandleAll(HandleAll(c, a), b)
  {
    hide Handle;
    if b == [] {
      assert a + b == a;
    } else {
      var n := |b| - 1;
      HandleAppend(c, a, b[..n]);
      assert a + b == a + b[..n] + [b[n]];
      HandleSnoc(c, a + b[..n], b[n]);
    }
  }

  lemma {:induction false} FindFirst(prefix: Octets, b: Byte, rest: Octets)
    requires b !in prefix
    ensures Find(prefix + [b] + rest, [b]) == |prefix|
  {
    var s := prefix + [b] + rest;
    if prefix == [] {
      assert s[..1] == [b];
    } else {
      assert s[..1][0] == prefix[0];
      assert s[1..] == prefix[1..] + [b] + rest;
      FindFirst(prefix[1..], b, rest);
    }
  }

  lemma {:induction false} FindIsFirst(s: Octets, b: Byte)
    ensures var i := Find(s, [b]); i >= 0 ==> i < |s| && s[i] == b
  {
    if s != [] && s[..1] != [b] {
      FindIsFirst(s[1..], b);
    } else if s != [] {
      assert s[..1][0] == b;
    }
  }

  // The server reads back the address of a command exactly when it holds no ">".
  lemma AddressIsExtracted(verb: Octets, address: Octets)
    requires LESS !in verb
    ensures ExtractAddress(AddressLine(verb, address)) == address <==> GREATER !in address
  {
    hide Find;
    var line := AddressLine(verb, address);
    assert line == verb + [LESS] + (address + [GREATER]);
    FindFirst(verb, LESS, address + [GREATER]);
    var rest := line[|verb| + 1..];
    assert rest == address + [GREATER];
    FindIsFirst(rest, GREATER);
    if GREATER !in address {
      FindFirst(address, GREATER, []);
      assert address + [GREATER] + [] == rest;
    } else {
      var i :| 0 <= i < |address| && address[i] == GREATER;
      FindsSome(rest, GREATER, i);
    }
  }

  // Of a command line with no "<", or with no ">" behind it, nothing is taken; otherwise what lies between
  // the first "<" and the next ">".
  lemma AddressIsBetween(prefix: Octets, rest: Octets)
    requires LESS !in prefix
    ensures ExtractAddress(prefix) == []
    ensures GREATER !in rest ==> ExtractAddress(prefix + [LESS] + rest) == []
    ensures forall a, more :: GREATER !in a && rest == a + [GREATER] + more ==>
              ExtractAddress(prefix + [LESS] + rest) == a
  {
    hide Find;
    var line := prefix + [LESS] + rest;
    FindsNone(prefix, LESS);
    FindFirst(prefix, LESS, rest);
    assert line[|prefix| + 1..] == rest;
    if GREATER !in rest {
      FindsNone(rest, GREATER);
    }
    forall a, more | GREATER !in a && rest == a + [GREATER] + more
      ensures ExtractAddress(line) == a
    {
      FindFirst(a, GREATER, more);
    }
  }

  lemma FindsNone(s: Octets, b: Byte)
    requires b !in s
    ensures Find(s, [b]) == -1
  {
    FindIsFirst(s, b);
  }

  /** The other case of an ASCII letter. */
  function OtherCase(b: Byte): Byte {
    if 0x41 <= b <= 0x5A then b + 0x20 else if 0x61 <= b <= 0x7A then b - 0x20 else b
  }

  // Commands are recognized in any mixture of cases.
  lemma CaseIsIgnored(line: Octets, swapped: Octets)
    requires |line| == |swapped| && forall i :: 0 <= i < |line| ==> swapped[i] in {line[i], OtherCase(line[i])}
    ensures CommandOf(swapped) == CommandOf(line)
  {
    hide Ascii;
    var a, b := if |line| < 4 then line else line[..4], if |swapped| < 4 then swapped else swapped[..4];
    assert forall i :: 0 <= i < |a| ==> Upper(b)[i] == Upper(a)[i];
    assert Upper(b) == Upper(a);
  }

  lemma {:induction false} FindsSome(s: Octets, b: Byte, i: nat)
    requires i < |s| && s[i] == b
    ensures 0 <= Find(s, [b]) <= i
  {
    if i > 0 {
      FindsSome(s[1..], b, i - 1);
    } else {
      assert s[..1] == [b];
    }
  }

  function VerbCommand(verb: Octets): Command {
    if verb == EHLO then Ehlo
    else if verb == AUTH then Auth
    else if verb == MAIL then MailFrom
    else if verb == RCPT then RcptTo
    else if verb == DATA then StartData
    else Other
  }

  lemma VerbsAreUpperCase()
    ensures Upper(EHLO) == EHLO && Upper(AUTH) == AUTH && Upper(MAIL) == MAIL
    ensures Upper(RCPT) == RCPT && Upper(DATA) == DATA && Upper(QUIT) == QUIT
  {
  }

  lemma VerbStarts(verb: Octets, rest: Octets)
    requires |verb| == 4 && Upper(verb) == verb
    ensures CommandOf(verb + rest) == VerbCommand(verb)
  {
    hide Ascii, Upper;
    assert (verb + rest)[..4] == verb;
  }

  // All verbs differ in their first letters.
  lemma VerbsDiffer()
    ensures EHLO[0] == 69 && AUTH[0] == 65 && MAIL[0] == 77 && RCPT[0] == 82 && DATA[0] == 68 && QUIT[0] == 81
  {
  }

  lemma EnvelopeVerbs(m: Message, credentials: Octets)
    ensures var lines := Envelope(m, credentials);
            && CommandOf(lines[0]) == Ehlo && CommandOf(lines[1]) == Auth && CommandOf(lines[2]) == MailFrom
            && CommandOf(lines[3]) == RcptTo && CommandOf(lines[4]) == StartData
  {
    hide CommandOf, Ascii, Upper;
    VerbsAreUpperCase();
    VerbsDiffer();
    var from, to := [LESS] + m.fromAddress + [GREATER], [LESS] + m.toAddress + [GREATER];
    VerbStarts(EHLO, CLIENT_NAME);
    assert AUTH + PLAIN + credentials == AUTH + (PLAIN + credentials);
    VerbStarts(AUTH, PLAIN + credentials);
    assert AddressLine(MAIL + FROM, m.fromAddress) == MAIL + (FROM + from);
    VerbStarts(MAIL, FROM + from);
    assert AddressLine(RCPT + TO, m.toAddress) == RCPT + (TO + to);
    VerbStarts(RCPT, TO + to);
    assert DATA + [] == DATA;
    VerbStarts(DATA, []);
  }

  lemma EnvelopeIsTaken(c: Conn, m: Message, credentials: Octets)
    requires c.state == Greeted
    ensures var lines := Envelope(m, credentials);
            && HandleAll(c, lines[..2]).received == c.received
            && HandleAll(c, lines[..2]).state == (if c.authOk then Authenticated else Greeted)
            && HandleAll(c, lines) == c.(state := Data, dataLines := [],
                                         pendingFrom := ExtractAddress(lines[2]), pendingTo := ExtractAddress(lines[3]))
  {
    hide HandleAll, CommandOf, ExtractAddress, Envelope;
    var lines := Envelope(m, credentials);
    EnvelopeVerbs(m, credentials);
    HandledNone(c);
    assert lines[..0] == [] && lines[..5] == lines;
    forall n | 0 <= n < 5
      ensures HandleAll(c, lines[..n + 1]) == Handle(HandleAll(c, lines[..n]), lines[n])
    {
      assert lines[..n + 1] == lines[..n] + [lines[n]];
      HandleSnoc(c, lines[..n], lines[n]);
    }
  }

  lemma HandledNone(c: Conn)
    ensures HandleAll(c, []) == c
  {
  }

  // For every message and credentials, from the greeting to the last octet the client writes: the server
  // has stored that one message, unless it refused the login or rejected the message; the envelope is
  // the message's own exactly for addresses without ">", of which only the part before is stored.
  lemma SessionIsStored(c: Conn, m: Message, credentials: Octets)
    requires c.state == Greeted && SendData(m).Some?
    requires Unbroken(m.date) && Unbroken(m.messageId) && Unbroken(credentials)
    ensures var wire := Session(m, credentials, c.authOk, c.failNext);
            var end := HandleAll(c, Complete(wire));
            var body := QuotedPrintableEncode(m.bodyText);
            var headers := Join(HeaderLines(m)) + if body == [] then CRLF else [];
            && Unfinished(wire) == []
            && (if c.authOk && !c.failNext then
                  && |end.received| == |c.received| + 1 && end.received[..|c.received|] == c.received
                  && var stored := end.received[|c.received|];
                  && stored.headerBlock == headers && stored.body == Stored(body)
                  && (stored.fromAddress == m.fromAddress <==> GREATER !in m.fromAddress)
                  && (stored.toAddress == m.toAddress <==> GREATER !in m.toAddress)
                else end.received == c.received)
  {
    hide HandleAll, Handle, Complete, Unfinished, Wire, Stored, HeaderLines, QuotedPrintableEncode, Envelope;
    hide ExtractAddress, Ascii, Join;
    var lines := Envelope(m, credentials);
    EnvelopeIsUnbroken(m, credentials);
    EnvelopeIsTaken(c, m, credentials);
    if c.authOk {
      EnvelopeAddresses(m, credentials);
      var ready := HandleAll(c, lines);
      var rest := Wire(m) + if c.failNext then [] else SendLines([QUIT]);
      SentLinesAreComplete(lines, rest);
      HandleAppend(c, lines, Complete(rest));
      MessageIsStored(ready, m);
      GoodbyeChangesNothing(ready, m, c.failNext);
    } else {
      SentLinesAreComplete(lines[..2], []);
      assert SendLines(lines[..2]) + [] == SendLines(lines[..2]);
      NothingIsComplete();
      assert lines[..2] + [] == lines[..2];
    }
  }

  lemma NothingIsComplete()
    ensures Complete([]) == [] && Unfinished([]) == []
  {
  }

  lemma EnvelopeIsUnbroken(m: Message, credentials: Octets)
    requires Unbroken(m.fromAddress) && Unbroken(m.toAddress) && Unbroken(credentials)
    ensures AllUnbroken(Envelope(m, credentials)) && AllUnbroken(Envelope(m, credentials)[..2])
  {
    hide Ascii;
  }

  lemma EnvelopeAddresses(m: Message, credentials: Octets)
    ensures var lines := Envelope(m, credentials);
            && (ExtractAddress(lines[2]) == m.fromAddress <==> GREATER !in m.fromAddress)
            && (ExtractAddress(lines[3]) == m.toAddress <==> GREATER !in m.toAddress)
  {
    hide ExtractAddress, AddressLine;
    AddressIsExtracted(MAIL + FROM, m.fromAddress);
    AddressIsExtracted(RCPT + TO, m.toAddress);
  }

  lemma QuitIsNoCommand()
    ensures CommandOf(QUIT) == Other
  {
    hide CommandOf, Ascii, Upper;
    VerbsAreUpperCase();
    VerbsDiffer();
    VerbStarts(QUIT, []);
    assert QUIT + [] == QUIT;
  }

  lemma GoodbyeChangesNothing(c: Conn, m: Message, failNext: bool)
    requires Unfinished(Wire(m)) == [] && HandleAll(c, Complete(Wire(m))).state == Rcpt
    ensures var rest := Wire(m) + if failNext then [] else SendLines([QUIT]);
            Unfinished(rest) == [] && HandleAll(c, Complete(rest)) == HandleAll(c, Complete(Wire(m)))
  {
    hide Wire, Complete, Unfinished, HandleAll, Ascii, CommandOf;
    if failNext {
      assert Wire(m) + [] == Wire(m);
    } else {
      WireGrows(Wire(m), SendLines([QUIT]));
      assert [] + SendLines([QUIT]) == SendLines([QUIT]) + [];
      SentLinesAreComplete([QUIT], []);
      NothingIsComplete();
      assert [QUIT] + [] == [QUIT];
      HandleSnoc(c, Complete(Wire(m)), QUIT);
      QuitIsNoCommand();
    }
  }

  // So on any connection, whatever chunks the octets came in.
  lemma AnyChunking(connection: FakeSmtpConnection, m: Message, credentials: Octets)
    requires connection.Valid() && connection.start.state == Greeted && connection.start.received == []
    requires connection.wire == Session(m, credentials, connection.start.authOk, connection.start.failNext)
    requires SendData(m).Some? && Unbroken(m.date) && Unbroken(m.messageId) && Unbroken(credentials)
    ensures var body := QuotedPrintableEncode(m.bodyText);
            var headers := Join(HeaderLines(m)) + if body == [] then CRLF else [];
            if connection.start.authOk && !connection.start.failNext then
              connection.received == [Email(m.fromAddress, m.toAddress, headers, Stored(body))] <==>
              GREATER !in m.fromAddress && GREATER !in m.toAddress
            else connection.received == []
  {
    hide Session, HandleAll, Complete, Unfinished, Stored, HeaderLines, QuotedPrintableEncode, Join, SendData;
    SessionIsStored(connection.start, m, credentials);
  }

  lemma {:induction false} WireLinesSnoc(lines: seq<Text>)
    requires lines != []
    ensures var n := |lines| - 1;
            && WireLines(lines) == WireLines(lines[..n]) + Wrap(Escape(Utf8(lines[n])))
            && Utf8Lines(lines) == Utf8Lines(lines[..n]) + [Utf8(lines[n])]
  {
    hide WireLines, Utf8Lines, Wrap, Escape, Utf8;
    WireLinesStep(lines);
    NoWireLines();
    if |lines| == 1 {
      assert lines[1..] == [] && lines[..0] == [];
    } else {
      var init := lines[..|lines| - 1];
      WireLinesStep(init);
      WireLinesSnoc(lines[1..]);
      assert lines[1..][..|lines| - 2] == init[1..] && lines[1..][|lines| - 2] == lines[|lines| - 1];
    }
  }

  lemma WireLinesStep(lines: seq<Text>)
    requires lines != []
    ensures WireLines(lines) == Wrap(Escape(Utf8(lines[0]))) + WireLines(lines[1..])
    ensures Utf8Lines(lines) == [Utf8(lines[0])] + Utf8Lines(lines[1..])
  {
  }

  lemma NoWireLines()
    ensures WireLines([]) == [] && Utf8Lines([]) == []
  {
  }

  lemma {:induction false} LastPiece(s: Octets)
    ensures Wrap(s)[|Wrap(s)| - 1] == [] <==> s == []
    decreases |s|
  {
    if |s| > QP_LINE_LENGTH {
      LastPiece(s[CutAt(s)..]);
    }
  }

  // Decoding what the server stored gives back the text that was sent, up to one final line break.
  lemma StoredBodyDecodes(t: Text)
    ensures var text, got := Normalised(t), Decode(Stored(QuotedPrintableEncode(t)));
            got == text || got + CRLF == text
  {
    StoredIsSentLines(t);
    BodyIsJoin(t);
    DecodeEncode(t);
    var lines := LinesOf(t);
    var n := |lines| - 1;
    if BodyLines(t)[|BodyLines(t)| - 1] == [] {
      LastTextLineIsEmpty(t);
      if n > 0 {
        DecodeOfSent(lines[..n]);
        Utf8KeepsLines(t);
        EncodeEachIsWireLines(lines[..n]);
        WireLinesSnoc(lines);
        var utf8 := Utf8Lines(lines[..n]);
        JoinAppend(utf8, [[]]);
        assert Join(utf8) + CRLF + [] == Join(utf8) + CRLF;
      }
    }
  }

  lemma LastTextLineIsEmpty(t: Text)
    requires BodyLines(t) != [] && BodyLines(t)[|BodyLines(t)| - 1] == []
    ensures var lines := LinesOf(t);
            && Utf8(lines[|lines| - 1]) == []
            && SentLines(t) == WireLines(lines[..|lines| - 1])
  {
    hide WireLines, Wrap, Escape;
    var lines := LinesOf(t);
    var n := |lines| - 1;
    var bytes := Utf8(lines[n]);
    WireLinesSnoc(lines);
    LastPiece(Escape(bytes));
    EscapeIsWellFormed(bytes);
    assert Wrap(Escape(bytes)) == [[]] by {
      WrapOfNothing();
      EscapeOfNothing();
    }
  }

  lemma WrapOfNothing()
    ensures Wrap([]) == [[]]
  {
  }

  lemma EscapeOfNothing()
    ensures Escape([]) == []
  {
  }

  lemma DecodeOfSent(lines: seq<Text>)
    requires lines != []
    ensures Decode(Join(WireLines(lines))) == Join(Utf8Lines(lines))
  {
    hide WireLines, Utf8Lines;
    EncodeEachIsWireLines(lines);
    WireLinesAreGood(lines);
    SplitJoin(WireLines(lines));
    DecodeWireLines(lines);
  }
}
