/** Octet strings cut into lines at CRLF, and joined again. */
module Lines {
  import opened Bytes

  const CR: Byte := 13
  const LF: Byte := 10
  const CRLF: seq<Byte> := [13, 10]

  type Octets = seq<Byte>

  predicate IsBreak(b: int) { b == 13 || b == 10 }

  predicate Unbroken(line: seq<int>) {
    forall i :: 0 <= i < |line| ==> !IsBreak(line[i])
  }

  predicate AllUnbroken(lines: seq<Octets>) {
    forall i :: 0 <= i < |lines| ==> Unbroken(lines[i])
  }

  function Join(lines: seq<Octets>): Octets {
    if lines == [] then []
    else if |lines| == 1 then lines[0]
    else lines[0] + CRLF + Join(lines[1..])
  }

  /** `s.split("\r\n")`: never empty, and its last piece is what follows the last CRLF. */
  function Split(s: Octets): (lines: seq<Octets>)
    ensures |lines| > 0
  {
    if |s| < 2 then [s]
    else if s[0] == CR && s[1] == LF then [[]] + Split(s[2..])
    else var rest := Split(s[1..]); [[s[0]] + rest[0]] + rest[1..]
  }

  lemma {:induction false} JoinAppend(a: seq<Octets>, b: seq<Octets>)
    requires a != [] && b != []
    ensures Join(a + b) == Join(a) + CRLF + Join(b)
  {
    if |a| == 1 {
      assert (a + b)[1..] == b;
    } else {
      assert (a + b)[1..] == a[1..] + b;
      JoinAppend(a[1..], b);
      assert Join(a + b) == a[0] + CRLF + (Join(a[1..]) + CRLF + Join(b));
      assert Join(a) == a[0] + CRLF + Join(a[1..]);
    }
  }

  lemma {:induction false} SplitLineThen(line: Octets, rest: Octets)
    requires Unbroken(line)
    ensures Split(line + CRLF + rest) == [line] + Split(rest)
  {
    var s := line + CRLF + rest;
    if line == [] {
      assert s[2..] == rest;
    } else {
      assert s[1..] == line[1..] + CRLF + rest;
      SplitLineThen(line[1..], rest);
      assert [line[0]] + line[1..] == line;
      assert !IsBreak(line[0]);
    }
  }

  lemma {:induction false} SplitOneLine(line: Octets)
    requires Unbroken(line)
    ensures Split(line) == [line]
  {
    if |line| >= 2 {
      assert !IsBreak(line[0]);
      SplitOneLine(line[1..]);
      assert [line[0]] + line[1..] == line;
    }
  }

  // Lines free of CR and LF survive a round trip through the wire.
  lemma {:induction false} SplitJoin(lines: seq<Octets>)
    requires lines != [] && AllUnbroken(lines)
    ensures Split(Join(lines)) == lines
  {
    if |lines| == 1 {
      SplitOneLine(lines[0]);
    } else {
      SplitJoin(lines[1..]);
      SplitLineThen(lines[0], Join(lines[1..]));
    }
  }

  // However the octets arrive, the lines only depend on what has arrived: the unfinished piece of
  // the first part is continued by the second.
  lemma {:induction false} SplitResumes(a: Octets, b: Octets)
    ensures var had := Split(a);
            Split(a + b) == had[..|had| - 1] + Split(had[|had| - 1] + b)
  {
    hide Split;
    if |a| < 2 {
      ShortIsOneLine(a);
      assert Split(a)[..0] + Split(a + b) == Split(a + b);
    } else if a[0] == CR && a[1] == LF {
      SplitResumes(a[2..], b);
      assert (a + b)[2..] == a[2..] + b;
      ResumeAfterBreak(a, b, Split(a[2..]));
    } else {
      SplitResumes(a[1..], b);
      assert (a + b)[1..] == a[1..] + b;
      ResumeAfterOctet(a, b, Split(a[1..]));
    }
  }

  lemma ResumeAfterBreak(a: Octets, b: Octets, had: seq<Octets>)
    requires |a| >= 2 && a[0] == CR && a[1] == LF
    requires had == Split(a[2..])
    requires Split((a + b)[2..]) == had[..|had| - 1] + Split(had[|had| - 1] + b)
    ensures var all := Split(a);
            Split(a + b) == all[..|all| - 1] + Split(all[|all| - 1] + b)
  {
    hide Split;
    var all := Split(a);
    SplitBreak(a);
    SplitBreak(a + b);
    assert all[..|all| - 1] == [[]] + had[..|had| - 1];
  }

  lemma ResumeAfterOctet(a: Octets, b: Octets, had: seq<Octets>)
    requires |a| >= 2 && !(a[0] == CR && a[1] == LF)
    requires had == Split(a[1..])
    requires Split((a + b)[1..]) == had[..|had| - 1] + Split(had[|had| - 1] + b)
    ensures var all := Split(a);
            Split(a + b) == all[..|all| - 1] + Split(all[|all| - 1] + b)
  {
    hide Split;
    var n := |had| - 1;
    SplitOctet(a);
    SplitOctet(a + b);
    var all := [[a[0]] + had[0]] + had[1..];
    if n == 0 {
      OnePiece(a[1..]);
      assert all[0] + b == a + b;
    } else {
      assert all[..n] == [[a[0]] + had[0]] + had[1..n];
      assert had[..n] == [had[0]] + had[1..n];
    }
  }

  lemma ShortIsOneLine(s: Octets)
    requires |s| < 2
    ensures Split(s) == [s]
  {
  }

  lemma SplitBreak(s: Octets)
    requires |s| >= 2 && s[0] == CR && s[1] == LF
    ensures Split(s) == [[]] + Split(s[2..])
  {
  }

  lemma SplitOctet(s: Octets)
    requires |s| >= 2 && !(s[0] == CR && s[1] == LF)
    ensures Split(s) == [[s[0]] + Split(s[1..])[0]] + Split(s[1..])[1..]
  {
  }

  lemma {:induction false} OnePiece(s: Octets)
    ensures |Split(s)| == 1 ==> Split(s) == [s]
  {
    if |s| >= 2 && !(s[0] == CR && s[1] == LF) {
      OnePiece(s[1..]);
      assert [s[0]] + s[1..] == s;
    }
  }
}
