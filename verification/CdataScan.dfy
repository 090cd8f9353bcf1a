/**
 * The feed parser's scanner, which looks for tags outside CDATA sections.
 *
 * Which characters belong to a section is defined here one character at a time (`Section`); the
 * scanner instead lists the sections' spans once, finds the span around a match by binary search and
 * jumps to its end. A global regular expression over a text is a table: the length of its match at
 * every position, 0 where it has none.
 */
module CdataScan {
  import opened Wrappers

  const OPENING := "<![CDATA["
  const CLOSING := "]]>"

  predicate At(xml: string, pattern: string, i: nat) {
    i + |pattern| <= |xml| && xml[i..i + |pattern|] == pattern
  }

  // ---------------------------------------------------------------- sections, one character at a time

  /** The start of the section that character `i` belongs to, if it belongs to one. */
  function Section(xml: string, i: nat): Option<nat>
    requires i < |xml|
  {
    var before := if i == 0 then None else Section(xml, i - 1);
    if before.Some? && !EndsBefore(xml, before.value, i) then before
    else if At(xml, OPENING, i) then Some(i)
    else None
  }

  /** A section's closing marker ends just before character `i`. */
  predicate EndsBefore(xml: string, start: nat, i: nat) {
    start + |OPENING| + |CLOSING| <= i && At(xml, CLOSING, i - |CLOSING|)
  }

  /** No section reaches over the border before character `i`. */
  predicate Border(xml: string, i: nat) {
    i < |xml| ==> Section(xml, i) == if At(xml, OPENING, i) then Some(i) else None
  }

  lemma {:induction false} OutsideUntil(xml: string, from: nat, upto: nat)
    requires from <= upto <= |xml| && Border(xml, from)
    requires forall j :: from <= j < upto ==> !At(xml, OPENING, j)
    ensures Border(xml, upto)
    ensures forall j :: from <= j < upto ==> Section(xml, j) == None
    decreases upto - from
  {
    hide At;
    if from < upto {
      OutsideUntil(xml, from + 1, upto);
    }
  }

  lemma {:induction false} InsideUntil(xml: string, start: nat, i: nat)
    requires start <= i < |xml| && Border(xml, start) && At(xml, OPENING, start)
    requires forall j :: start + |OPENING| <= j < i - 2 ==> !At(xml, CLOSING, j)
    ensures Section(xml, i) == Some(start)
    decreases i
  {
    hide At;
    if start < i {
      InsideUntil(xml, start, i - 1);
    }
  }

  lemma SectionEnds(xml: string, start: nat, end: nat)
    requires Border(xml, start) && At(xml, OPENING, start)
    requires start + |OPENING| <= end && At(xml, CLOSING, end)
    requires forall j :: start + |OPENING| <= j < end ==> !At(xml, CLOSING, j)
    ensures Border(xml, end + |CLOSING|)
  {
    InsideUntil(xml, start, end + 2);
  }

  // ---------------------------------------------------------------- spans

  datatype Span = Span(start: nat, end: nat)

  ghost predicate Ordered(spans: seq<Span>) {
    && (forall k :: 0 <= k < |spans| ==> spans[k].start < spans[k].end)
    && (forall j, k :: 0 <= j < k < |spans| ==> spans[j].end <= spans[k].start)
  }

  predicate Within(span: Span, i: nat) {
    span.start <= i < span.end
  }

  /** Up to position `limit`, the spans are exactly the sections. */
  ghost predicate Describes(spans: seq<Span>, xml: string, limit: nat) {
    && limit <= |xml|
    && (forall k :: 0 <= k < |spans| ==> spans[k].end <= limit)
    && (forall i: nat, k :: 0 <= k < |spans| && Within(spans[k], i) && i < limit ==>
          Section(xml, i) == Some(spans[k].start))
    && (forall i :: 0 <= i < limit && Section(xml, i).Some? ==> exists k :: 0 <= k < |spans| && Within(spans[k], i))
  }

  ghost predicate SpansOf(spans: seq<Span>, xml: string) {
    Ordered(spans) && Describes(spans, xml, |xml|)
  }

  /** `xml.indexOf(pattern, from)`. */
  function IndexOf(xml: string, pattern: string, from: nat): (r: Option<nat>)
    ensures r.Some? ==> from <= r.value && At(xml, pattern, r.value)
    ensures forall j :: from <= j < (if r.Some? then r.value else |xml|) ==> !At(xml, pattern, j)
    decreases |xml| - from
  {
    if from >= |xml| then (if At(xml, pattern, from) then Some(from) else None)
    else if At(xml, pattern, from) then Some(from)
    else IndexOf(xml, pattern, from + 1)
  }

  lemma DescribesMore(spans: seq<Span>, xml: string, i: nat, span: Span)
    requires Ordered(spans) && Describes(spans, xml, i)
    requires i <= span.start < span.end <= |xml|
    requires forall j :: i <= j < span.start ==> Section(xml, j) == None
    requires forall j :: span.start <= j < span.end ==> Section(xml, j) == Some(span.start)
    ensures Ordered(spans + [span]) && Describes(spans + [span], xml, span.end)
  {
    hide Section;
    var all := spans + [span];
    assert all[|spans|] == span;
    forall j | 0 <= j < span.end && Section(xml, j).Some?
      ensures exists k :: 0 <= k < |all| && Within(all[k], j)
    {
      if j < i {
        var k :| 0 <= k < |spans| && Within(spans[k], j);
        assert all[k] == spans[k];
      } else {
        assert Within(all[|spans|], j);
      }
    }
  }

  lemma DescribesGap(spans: seq<Span>, xml: string, i: nat)
    requires Describes(spans, xml, i)
    requires forall j :: i <= j < |xml| ==> Section(xml, j) == None
    ensures Describes(spans, xml, |xml|)
  {
  }

  method FindCdataSpans(xml: string) returns (spans: seq<Span>)
    ensures SpansOf(spans, xml)
  {
    hide At, Section, Describes, Ordered;
    spans := [];
    var i := 0;
    NothingYet(xml);
    while i < |xml|
      invariant i <= |xml| && Border(xml, i)
      invariant Ordered(spans) && Describes(spans, xml, i)
      decreases |xml| - i
    {
      var start := IndexOf(xml, OPENING, i);
      if start.None? {
        OutsideUntil(xml, i, |xml|);
        DescribesGap(spans, xml, i);
        break;
      }
      AtFits(xml, OPENING, start.value);
      OutsideUntil(xml, i, start.value);
      var end := IndexOf(xml, CLOSING, start.value + 9);
      var span := Span(start.value, if end.None? then |xml| else end.value + 3);
      SectionSpan(xml, end, span);
      DescribesMore(spans, xml, i, span);
      spans := spans + [span];
      if end.None? { break; }
      i := end.value + 3;
    }
  }

  lemma NothingYet(xml: string)
    ensures Border(xml, 0) && Describes([], xml, 0) && Ordered([])
  {
  }

  lemma AtFits(xml: string, pattern: string, i: nat)
    requires At(xml, pattern, i)
    ensures i + |pattern| <= |xml|
  {
  }

  lemma SectionSpan(xml: string, end: Option<nat>, span: Span)
    requires Border(xml, span.start) && At(xml, OPENING, span.start)
    requires end == IndexOf(xml, CLOSING, span.start + |OPENING|)
    requires span.end == if end.None? then |xml| else end.value + |CLOSING|
    ensures span.start < span.end <= |xml| && Border(xml, span.end)
    ensures forall j :: span.start <= j < span.end ==> Section(xml, j) == Some(span.start)
  {
    hide At, Section;
    AtFits(xml, OPENING, span.start);
    if end.Some? {
      AtFits(xml, CLOSING, end.value);
      SectionEnds(xml, span.start, end.value);
    }
    forall j | span.start <= j < span.end
      ensures Section(xml, j) == Some(span.start)
    {
      InsideUntil(xml, span.start, j);
    }
  }

  /** Binary search for the span around `index`. */
  method FindSpanContaining(index: nat, spans: seq<Span>) returns (found: Option<Span>)
    requires Ordered(spans)
    ensures found.Some? ==> found.value in spans && Within(found.value, index)
    ensures found.None? ==> forall k :: 0 <= k < |spans| ==> !Within(spans[k], index)
  {
    var lo, hi := 0, |spans| - 1;
    while lo <= hi
      invariant 0 <= lo <= |spans| && -1 <= hi < |spans|
      invariant forall k :: 0 <= k < lo ==> spans[k].end <= index
      invariant forall k :: hi < k < |spans| ==> index < spans[k].start
      decreases hi - lo
    {
      var mid := (lo + hi) / 2;
      if index < spans[mid].start {
        hi := mid - 1;
      } else if index >= spans[mid].end {
        lo := mid + 1;
      } else {
        return Some(spans[mid]);
      }
    }
    return None;
  }

  // ---------------------------------------------------------------- matches outside sections

  /** Where a regular expression matches in a text: the match's length at each position, 0 for none. */
  type Matches = seq<nat>

  ghost predicate MatchesOf(re: Matches, xml: string) {
    |re| == |xml| && forall i :: 0 <= i < |re| ==> i + re[i] <= |xml|
  }

  /** `re.exec(xml)` with `re.lastIndex == from`. */
  function Exec(re: Matches, from: nat): (r: Option<nat>)
    ensures r.Some? ==> from <= r.value < |re| && re[r.value] > 0
    ensures forall j :: from <= j < (if r.Some? then r.value else |re|) ==> re[j] == 0
    decreases |re| - from
  {
    if from >= |re| then None else if re[from] > 0 then Some(from) else Exec(re, from + 1)
  }

  predicate MatchesOutside(xml: string, re: Matches, i: nat)
    requires i < |xml| == |re|
  {
    re[i] > 0 && Section(xml, i).None?
  }

  /** The scan that tries every position in turn and skips those inside a section. */
  function NaiveExec(xml: string, re: Matches, from: nat): (r: Option<nat>)
    requires |xml| == |re|
    ensures r.Some? ==> from <= r.value < |xml| && MatchesOutside(xml, re, r.value)
    ensures forall j :: from <= j < (if r.Some? then r.value else |xml|) ==> !MatchesOutside(xml, re, j)
    decreases |xml| - from
  {
    if from >= |xml| then None else if MatchesOutside(xml, re, from) then Some(from) else NaiveExec(xml, re, from + 1)
  }

  lemma {:induction false} NothingBetween(xml: string, re: Matches, from: nat, upto: nat)
    requires |xml| == |re| && from <= upto
    requires forall j :: from <= j < upto && j < |xml| ==> !MatchesOutside(xml, re, j)
    ensures NaiveExec(xml, re, from) == NaiveExec(xml, re, upto)
    decreases upto - from
  {
    hide MatchesOutside;
    if from < upto {
      NothingBetween(xml, re, from + 1, upto);
    }
  }

  method ExecOutsideCdata(xml: string, re: Matches, from: nat, spans: seq<Span>) returns (r: Option<nat>)
    requires MatchesOf(re, xml) && SpansOf(spans, xml)
    ensures r == NaiveExec(xml, re, from)
  {
    hide Section, NaiveExec;
    var lastIndex := from;
    while true
      invariant NaiveExec(xml, re, lastIndex) == NaiveExec(xml, re, from)
      decreases |xml| - lastIndex
    {
      var found := Exec(re, lastIndex);
      if found.None? {
        NothingBetween(xml, re, lastIndex, |xml| + lastIndex);
        NoneBeyond(xml, re, |xml| + lastIndex);
        return None;
      }
      NothingBetween(xml, re, lastIndex, found.value);
      var span := FindSpanContaining(found.value, spans);
      if span.None? {
        FoundHere(xml, re, found.value);
        return found;
      }
      SkipSpan(xml, re, spans, found.value, span.value);
      lastIndex := span.value.end;
    }
  }

  lemma NoneBeyond(xml: string, re: Matches, from: nat)
    requires |xml| == |re| && from >= |xml|
    ensures NaiveExec(xml, re, from) == None
  {
  }

  lemma FoundHere(xml: string, re: Matches, i: nat)
    requires i < |xml| == |re| && MatchesOutside(xml, re, i)
    ensures NaiveExec(xml, re, i) == Some(i)
  {
  }

  // The rest of a section holds no match that counts, so the search may resume at its end.
  lemma SkipSpan(xml: string, re: Matches, spans: seq<Span>, i: nat, span: Span)
    requires MatchesOf(re, xml) && SpansOf(spans, xml) && span in spans && Within(span, i)
    ensures span.end <= |xml| && NaiveExec(xml, re, i) == NaiveExec(xml, re, span.end)
  {
    hide Section, NaiveExec;
    var k :| 0 <= k < |spans| && spans[k] == span;
    forall j | i <= j < span.end
      ensures !MatchesOutside(xml, re, j)
    {
      assert Within(spans[k], j);
    }
    NothingBetween(xml, re, i, span.end);
  }

  /** All non-overlapping matches outside sections, left to right. */
  function NaiveMatchAll(xml: string, re: Matches, from: nat): seq<nat>
    requires MatchesOf(re, xml)
    decreases |xml| - from
  {
    var m := NaiveExec(xml, re, from);
    if m.None? then [] else [m.value] + NaiveMatchAll(xml, re, m.value + re[m.value])
  }

  method MatchAllOutsideCdata(xml: string, re: Matches, spans: seq<Span>) returns (results: seq<nat>)
    requires MatchesOf(re, xml) && SpansOf(spans, xml)
    ensures results == NaiveMatchAll(xml, re, 0)
  {
    hide NaiveExec, Section, SpansOf;
    results := [];
    var from := 0;
    while true
      invariant results + NaiveMatchAll(xml, re, from) == NaiveMatchAll(xml, re, 0)
      decreases |xml| - from
    {
      var m := ExecOutsideCdata(xml, re, from, spans);
      if m.None? { break; }
      var next := m.value + re[m.value];
      assert results + ([m.value] + NaiveMatchAll(xml, re, next)) == results + [m.value] + NaiveMatchAll(xml, re, next);
      results := results + [m.value];
      from := next;
    }
  }

  // The listed matches are outside every section, in order, and do not overlap.
  lemma {:induction false} MatchesAreDisjoint(xml: string, re: Matches, from: nat)
    requires MatchesOf(re, xml)
    ensures var ms := NaiveMatchAll(xml, re, from);
            && (forall i :: 0 <= i < |ms| ==> from <= ms[i] < |xml| && MatchesOutside(xml, re, ms[i]))
            && (forall i, j :: 0 <= i < j < |ms| ==> ms[i] + re[ms[i]] <= ms[j])
    decreases |xml| - from
  {
    hide NaiveExec;
    var m := NaiveExec(xml, re, from);
    if m.Some? {
      MatchesAreDisjoint(xml, re, m.value + re[m.value]);
      var ms := NaiveMatchAll(xml, re, from);
      assert forall i :: 1 <= i < |ms| ==> ms[i] == NaiveMatchAll(xml, re, m.value + re[m.value])[i - 1];
    }
  }

  // No match is missed: whatever matches outside sections starts within a listed match. Together with
  // the above this leaves one list only.
  lemma {:induction false} EveryMatchIsCovered(xml: string, re: Matches, from: nat, p: nat) returns (m: nat)
    requires MatchesOf(re, xml) && from <= p < |xml| && MatchesOutside(xml, re, p)
    ensures m in NaiveMatchAll(xml, re, from) && m < |xml| && m <= p < m + re[m]
    decreases |xml| - from
  {
    hide Section;
    m := NaiveExec(xml, re, from).value;
    if p >= m + re[m] {
      m := EveryMatchIsCovered(xml, re, m + re[m], p);
    }
  }

  // ---------------------------------------------------------------- tag blocks

  datatype Block = Block(start: nat, close: nat, end: nat)

  /** Blocks as a reader would cut them: each opening tag outside sections up to the next closing one. */
  function NaiveBlocks(xml: string, open: Matches, closing: Matches, from: nat): seq<Block>
    requires MatchesOf(open, xml) && MatchesOf(closing, xml)
    decreases |xml| - from
  {
    var o := NaiveExec(xml, open, from);
    if o.None? then []
    else
      var c := NaiveExec(xml, closing, o.value + open[o.value]);
      if c.None? then []
      else
        var end := c.value + closing[c.value];
        [Block(o.value, c.value, end)] + NaiveBlocks(xml, open, closing, end)
  }

  /** `findClosingTag`: -1 becomes `None`. */
  method FindClosingTag(xml: string, from: nat, closing: Matches, spans: seq<Span>) returns (r: Option<nat>)
    requires MatchesOf(closing, xml) && SpansOf(spans, xml)
    ensures r == NaiveExec(xml, closing, from)
  {
    r := ExecOutsideCdata(xml, closing, from, spans);
  }

  /** The literal `</tag>` has one length wherever it occurs. */
  ghost predicate Literal(closing: Matches, length: nat) {
    forall i :: 0 <= i < |closing| ==> closing[i] == 0 || closing[i] == length
  }

  method MatchAllTagBlocks(xml: string, open: Matches, closing: Matches, closeLength: nat)
    returns (blocks: seq<Block>, texts: seq<string>)
    requires MatchesOf(open, xml) && MatchesOf(closing, xml) && Literal(closing, closeLength)
    ensures blocks == NaiveBlocks(xml, open, closing, 0)
    ensures |texts| == |blocks|
    ensures forall k :: 0 <= k < |blocks| ==>
              blocks[k].start <= blocks[k].end <= |xml| && texts[k] == xml[blocks[k].start..blocks[k].end]
  {
    hide NaiveExec, Section, SpansOf, MatchesOutside, NaiveBlocks;
    var spans := FindCdataSpans(xml);
    blocks, texts := [], [];
    var from := 0;
    while true
      invariant blocks + NaiveBlocks(xml, open, closing, from) == NaiveBlocks(xml, open, closing, 0)
      invariant |texts| == |blocks|
      invariant forall k :: 0 <= k < |blocks| ==>
                  blocks[k].start <= blocks[k].end <= |xml| && texts[k] == xml[blocks[k].start..blocks[k].end]
      decreases |xml| - from
    {
      var openMatch := ExecOutsideCdata(xml, open, from, spans);
      BlocksStep(xml, open, closing, from);
      if openMatch.None? { break; }
      var bodyStart := openMatch.value + open[openMatch.value];
      var closeIndex := FindClosingTag(xml, bodyStart, closing, spans);
      if closeIndex.None? { break; }
      MatchIsLong(xml, closing, closeIndex.value);
      var blockEnd := closeIndex.value + closeLength;
      var block := Block(openMatch.value, closeIndex.value, blockEnd);
      assert blocks + ([block] + NaiveBlocks(xml, open, closing, blockEnd))
          == blocks + [block] + NaiveBlocks(xml, open, closing, blockEnd);
      blocks := blocks + [block];
      texts := texts + [xml[openMatch.value..blockEnd]];
      from := blockEnd;
    }
  }

  lemma BlocksStep(xml: string, open: Matches, closing: Matches, from: nat)
    requires MatchesOf(open, xml) && MatchesOf(closing, xml)
    ensures var o := NaiveExec(xml, open, from);
            NaiveBlocks(xml, open, closing, from) ==
            if o.None? then []
            else
              var c := NaiveExec(xml, closing, o.value + open[o.value]);
              if c.None? then []
              else
                [Block(o.value, c.value, c.value + closing[c.value])] +
                NaiveBlocks(xml, open, closing, c.value + closing[c.value])
  {
  }

  /** A block with both its tags outside every section, its parts in order, up to its first closing tag. */
  ghost predicate WellCut(xml: string, open: Matches, closing: Matches, b: Block)
    requires MatchesOf(open, xml) && MatchesOf(closing, xml)
  {
    && b.start < b.close < b.end <= |xml|
    && MatchesOutside(xml, open, b.start) && MatchesOutside(xml, closing, b.close)
    && b.start + open[b.start] <= b.close && b.end == b.close + closing[b.close]
    && forall c :: b.start + open[b.start] <= c < b.close ==> !MatchesOutside(xml, closing, c)
  }

  lemma BlocksUnfold(xml: string, open: Matches, closing: Matches, from: nat)
    requires MatchesOf(open, xml) && MatchesOf(closing, xml)
    ensures var b := NaiveBlocks(xml, open, closing, from);
            b != [] ==>
              && from <= b[0].start && WellCut(xml, open, closing, b[0])
              && (forall p :: from <= p < b[0].start ==> !MatchesOutside(xml, open, p))
              && b[1..] == NaiveBlocks(xml, open, closing, b[0].end)
    ensures NaiveBlocks(xml, open, closing, from) == [] ==>
              var o := NaiveExec(xml, open, from); o.Some? ==> Unclosed(xml, open, closing, o.value)
  {
    hide MatchesOutside;
    var o := NaiveExec(xml, open, from);
    if o.Some? {
      var c := NaiveExec(xml, closing, o.value + open[o.value]);
      MatchIsLong(xml, open, o.value);
      if c.Some? {
        MatchIsLong(xml, closing, c.value);
      }
    }
  }

  lemma MatchIsLong(xml: string, re: Matches, i: nat)
    requires MatchesOf(re, xml) && i < |xml| && MatchesOutside(xml, re, i)
    ensures re[i] > 0
  {
  }

  // Blocks are disjoint and in document order, both their tags start outside every section, and each
  // is the first its opening tag allows.
  lemma {:induction false} BlocksAreDisjoint(xml: string, open: Matches, closing: Matches, from: nat)
    requires MatchesOf(open, xml) && MatchesOf(closing, xml)
    ensures var b := NaiveBlocks(xml, open, closing, from);
            && (forall k :: 0 <= k < |b| ==> from <= b[k].start && WellCut(xml, open, closing, b[k]))
            && (forall j, k :: 0 <= j < k < |b| ==> b[j].end <= b[k].start)
    decreases |xml| - from
  {
    hide NaiveBlocks, WellCut;
    var b := NaiveBlocks(xml, open, closing, from);
    BlocksUnfold(xml, open, closing, from);
    if b != [] {
      CutIsForward(xml, open, closing, b[0]);
      BlocksAreDisjoint(xml, open, closing, b[0].end);
      assert forall k :: 1 <= k < |b| ==> b[k] == b[1..][k - 1];
    }
  }

  lemma CutIsForward(xml: string, open: Matches, closing: Matches, b: Block)
    requires MatchesOf(open, xml) && MatchesOf(closing, xml) && WellCut(xml, open, closing, b)
    ensures b.start < b.end <= |xml|
  {
  }

  // Nothing is missed: an opening tag outside every section lies in a block, unless it comes at or
  // after an opening tag that nothing closes any more.
  lemma {:induction false} NoTagIsMissed(xml: string, open: Matches, closing: Matches, from: nat, p: nat)
    requires MatchesOf(open, xml) && MatchesOf(closing, xml)
    requires from <= p < |xml| && MatchesOutside(xml, open, p)
    ensures (exists b :: b in NaiveBlocks(xml, open, closing, from) && b.start <= p < b.end) ||
            (exists o: nat :: from <= o <= p && Unclosed(xml, open, closing, o))
    decreases |xml| - from
  {
    hide NaiveBlocks, WellCut, MatchesOutside;
    var b := NaiveBlocks(xml, open, closing, from);
    BlocksUnfold(xml, open, closing, from);
    if b == [] {
      assert Unclosed(xml, open, closing, NaiveExec(xml, open, from).value);
    } else {
      CutIsForward(xml, open, closing, b[0]);
      assert b[0] in b && forall x :: x in b[1..] ==> x in b;
      if p >= b[0].end {
        NoTagIsMissed(xml, open, closing, b[0].end, p);
      }
    }
  }

  ghost predicate Unclosed(xml: string, open: Matches, closing: Matches, o: nat)
    requires MatchesOf(open, xml) && MatchesOf(closing, xml)
  {
    o < |xml| && MatchesOutside(xml, open, o) &&
    forall c :: o + open[o] <= c < |xml| ==> !MatchesOutside(xml, closing, c)
  }
}
