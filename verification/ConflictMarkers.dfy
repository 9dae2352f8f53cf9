/** The conflict-marker parser of the merge classifier. */
module ConflictMarkers {
  import opened GoStrings
  import opened Options

  type Line = string

  const START := "<<<<<<<"
  const MIDDLE := "======="
  const END := ">>>>>>>"

  predicate IsMarker(line: Line, marker: string) {
    HasPrefix(TrimSpace(line), marker)
  }

  datatype Block = Block(ours: string, theirs: string, oursLines: nat, theirsLines: nat)

  function MakeBlock(ours: seq<Line>, theirs: seq<Line>): Block {
    Block(JoinLines(ours), JoinLines(theirs), |ours|, |theirs|)
  }

  /** The first marker line from line i on, or the end. */
  function Until(lines: seq<Line>, i: nat, marker: string): (n: nat)
    requires i <= |lines|
    ensures i <= n <= |lines|
    ensures forall j | i <= j < n :: !IsMarker(lines[j], marker)
    ensures n < |lines| ==> IsMarker(lines[n], marker)
    decreases |lines| - i
  {
    if i == |lines| || IsMarker(lines[i], marker) then i else Until(lines, i + 1, marker)
  }

  /** The blocks from line i on: an opening marker, our lines up to the next middle marker, and
      their lines up to the next closing marker or the end. */
  function Blocks(lines: seq<Line>, i: nat): seq<Block>
    requires i <= |lines|
    decreases |lines| - i
  {
    if i == |lines| then []
    else if !IsMarker(lines[i], START) then Blocks(lines, i + 1)
    else
      var j := Until(lines, i + 1, MIDDLE);
      if j == |lines| then []
      else
        var k := Until(lines, j + 1, END);
        [MakeBlock(lines[i + 1..j], lines[j + 1..k])] + Blocks(lines, if k < |lines| then k + 1 else k)
  }

  function Count(lines: seq<Line>, i: nat, marker: string): nat
    requires i <= |lines|
    decreases |lines| - i
  {
    if i == |lines| then 0 else (if IsMarker(lines[i], marker) then 1 else 0) + Count(lines, i + 1, marker)
  }

  /** The inner loops: collect lines up to a marker line or the end. */
  method CollectUntil(lines: seq<Line>, from: nat, marker: string) returns (collected: seq<Line>, i: nat)
    requires from <= |lines|
    ensures i == Until(lines, from, marker)
    ensures collected == lines[from..i]
  {
    i := from;
    collected := [];
    while i < |lines| && !IsMarker(lines[i], marker)
      invariant from <= i <= |lines| && collected == lines[from..i]
      invariant Until(lines, from, marker) == Until(lines, i, marker)
    {
      collected := collected + [lines[i]];
      i := i + 1;
    }
  }

  /** parseConflictBlocks. */
  method ParseConflictBlocks(content: string) returns (blocks: seq<Block>)
    ensures blocks == Blocks(SplitLines(content), 0)
  {
    hide IsMarker, SplitLines, MakeBlock;
    blocks := [];
    var lines := SplitLines(content);
    var i := 0;
    while i < |lines|
      invariant 0 <= i <= |lines|
      invariant blocks + Blocks(lines, i) == Blocks(lines, 0)
    {
      if !IsMarker(lines[i], START) {
        i := i + 1;
        continue;
      }
      var ours, theirs;
      ours, i := CollectUntil(lines, i + 1, MIDDLE);
      if i >= |lines| {
        break;
      }
      theirs, i := CollectUntil(lines, i + 1, END);
      if i < |lines| {
        i := i + 1;
      }
      blocks := blocks + [MakeBlock(ours, theirs)];
    }
  }

  /** countConflictMarkers. */
  method CountConflictMarkers(content: string) returns (count: nat)
    ensures count == Count(SplitLines(content), 0, START)
  {
    count := 0;
    var lines := SplitLines(content);
    for i := 0 to |lines|
      invariant count + Count(lines, i, START) == Count(lines, 0, START)
    {
      if IsMarker(lines[i], START) {
        count := count + 1;
      }
    }
  }

  /** allConflictsSmall. */
  method AllConflictsSmall(content: string) returns (small: bool)
    ensures small <==> forall b | b in Blocks(SplitLines(content), 0) :: b.oursLines <= 5 && b.theirsLines <= 5
  {
    var blocks := ParseConflictBlocks(content);
    for i := 0 to |blocks|
      invariant forall b | b in blocks[..i] :: b.oursLines <= 5 && b.theirsLines <= 5
    {
      if blocks[i].oursLines > 5 || blocks[i].theirsLines > 5 {
        return false;
      }
    }
    small := true;
  }

  lemma {:induction false} CountDrops(lines: seq<Line>, i: nat, j: nat)
    requires i <= j <= |lines|
    ensures Count(lines, j, START) <= Count(lines, i, START)
    decreases j - i
  {
    if i < j {
      CountDrops(lines, i + 1, j);
    }
  }

  /** On any input there are at most as many blocks as opening markers. */
  lemma {:induction false} BlocksAtMostMarkers(lines: seq<Line>, i: nat)
    requires i <= |lines|
    ensures |Blocks(lines, i)| <= Count(lines, i, START)
    decreases |lines| - i
  {
    hide IsMarker, MakeBlock;
    if i < |lines| {
      if !IsMarker(lines[i], START) {
        BlocksAtMostMarkers(lines, i + 1);
      } else {
        var j := Until(lines, i + 1, MIDDLE);
        if j < |lines| {
          var k := Until(lines, j + 1, END);
          var next := if k < |lines| then k + 1 else k;
          CountDrops(lines, i + 1, next);
          BlocksAtMostMarkers(lines, next);
        }
      }
    }
  }

  // ---- Printing ----------------------------------------------------------------------------

  /** A line of context, or one conflict with its marker lines as git writes them. */
  datatype Segment =
    | Context(line: Line)
    | Conflict(open: Line, ours: seq<Line>, middle: Line, theirs: seq<Line>, close: Line)

  /** The bodies are free of exactly the markers that would end them early. */
  predicate WellMarked(s: Segment) {
    match s
    case Context(line) => !IsMarker(line, START)
    case Conflict(open, ours, middle, theirs, close) =>
      && IsMarker(open, START) && IsMarker(middle, MIDDLE) && IsMarker(close, END)
      && (forall l | l in ours :: !IsMarker(l, MIDDLE))
      && (forall l | l in theirs :: !IsMarker(l, END))
  }

  function SegmentLines(s: Segment): seq<Line> {
    match s
    case Context(line) => [line]
    case Conflict(open, ours, middle, theirs, close) => [open] + ours + [middle] + theirs + [close]
  }

  function PrintLines(segments: seq<Segment>): seq<Line> {
    if segments == [] then [] else SegmentLines(segments[0]) + PrintLines(segments[1..])
  }

  function BlocksOf(segments: seq<Segment>): seq<Block> {
    if segments == [] then []
    else
      (if segments[0].Conflict? then [MakeBlock(segments[0].ours, segments[0].theirs)] else [])
      + BlocksOf(segments[1..])
  }

  lemma {:induction false} UntilIs(lines: seq<Line>, i: nat, marker: string, n: nat)
    requires i <= n < |lines| && IsMarker(lines[n], marker)
    requires forall l | l in lines[i..n] :: !IsMarker(l, marker)
    ensures Until(lines, i, marker) == n
    decreases n - i
  {
    hide IsMarker;
    if i < n {
      assert lines[i..n][0] == lines[i] && lines[i..n][1..] == lines[i + 1..n];
      UntilIs(lines, i + 1, marker, n);
    }
  }

  lemma SuffixSplit<T>(lines: seq<T>, i: nat, a: seq<T>, b: seq<T>)
    requires i <= |lines| && lines[i..] == a + b
    ensures i + |a| <= |lines| && lines[i..i + |a|] == a && lines[i + |a|..] == b
  {
    var n := |a|;
    assert lines[i..][..n] == lines[i..i + n];
    assert lines[i..][n..] == lines[i + n..];
  }

  /** An element and a run of others, at the front of what is left. */
  lemma Bracketed<T>(lines: seq<T>, i: nat, first: T, body: seq<T>, rest: seq<T>)
    requires i <= |lines| && lines[i..] == [first] + body + rest
    ensures i + 1 + |body| <= |lines| && lines[i] == first && lines[i + 1..i + 1 + |body|] == body && lines[i + 1 + |body|..] == rest
  {
    assert [first] + body + rest == [first] + (body + rest);
    SuffixSplit(lines, i, [first], body + rest);
    assert lines[i] == lines[i..i + 1][0];
    SuffixSplit(lines, i + 1, body, rest);
  }

  lemma Regroup<T>(open: T, ours: seq<T>, middle: T, theirs: seq<T>, close: T, rest: seq<T>)
    ensures [open] + ours + [middle] + theirs + [close] + rest == [open] + ours + ([middle] + theirs + ([close] + rest))
  {}

  /** Where the parts of a printed conflict are. */
  lemma ConflictParts<T>(lines: seq<T>, i: nat, open: T, ours: seq<T>, middle: T, theirs: seq<T>, close: T, rest: seq<T>)
    requires i <= |lines| && lines[i..] == [open] + ours + [middle] + theirs + [close] + rest
    ensures var j := i + 1 + |ours|; var k := j + 1 + |theirs|;
            && k < |lines| && lines[i] == open && lines[i + 1..j] == ours
            && lines[j] == middle && lines[j + 1..k] == theirs && lines[k] == close
  {
    Regroup(open, ours, middle, theirs, close, rest);
    Bracketed(lines, i, open, ours, [middle] + theirs + ([close] + rest));
    var j := i + 1 + |ours|;
    Bracketed(lines, j, middle, theirs, [close] + rest);
    var k := j + 1 + |theirs|;
    assert lines[k] == lines[k..][0];
  }

  lemma ConflictAt(lines: seq<Line>, i: nat, s: Segment, rest: seq<Line>)
    requires s.Conflict? && i <= |lines| && lines[i..] == SegmentLines(s) + rest
    ensures var j := i + 1 + |s.ours|; var k := j + 1 + |s.theirs|;
            && k < |lines| && lines[i] == s.open && lines[i + 1..j] == s.ours
            && lines[j] == s.middle && lines[j + 1..k] == s.theirs && lines[k] == s.close
            && i + |SegmentLines(s)| == k + 1
  {
    ConflictParts(lines, i, s.open, s.ours, s.middle, s.theirs, s.close, rest);
  }

  lemma ConflictParses(lines: seq<Line>, i: nat, s: Segment, rest: seq<Line>)
    requires s.Conflict? && WellMarked(s) && i <= |lines| && lines[i..] == SegmentLines(s) + rest
    ensures i + |SegmentLines(s)| <= |lines|
    ensures Blocks(lines, i) == [MakeBlock(s.ours, s.theirs)] + Blocks(lines, i + |SegmentLines(s)|)
  {
    hide IsMarker, MakeBlock, SegmentLines, Blocks, Until, WellMarked;
    var j := i + 1 + |s.ours|;
    var k := j + 1 + |s.theirs|;
    ConflictAt(lines, i, s, rest);
    WellMarkedBodies(s);
    UntilIs(lines, i + 1, MIDDLE, j);
    UntilIs(lines, j + 1, END, k);
    BlockAt(lines, i, j, k);
  }

  lemma WellMarkedBodies(s: Segment)
    requires s.Conflict? && WellMarked(s)
    ensures IsMarker(s.open, START) && IsMarker(s.middle, MIDDLE) && IsMarker(s.close, END)
    ensures (forall l | l in s.ours :: !IsMarker(l, MIDDLE)) && forall l | l in s.theirs :: !IsMarker(l, END)
  {
    hide IsMarker;
  }

  /** The block that starts at an opening marker whose other two markers are found. */
  lemma BlockAt(lines: seq<Line>, i: nat, j: nat, k: nat)
    requires i < j < k < |lines| && IsMarker(lines[i], START)
    requires Until(lines, i + 1, MIDDLE) == j && Until(lines, j + 1, END) == k
    ensures Blocks(lines, i) == [MakeBlock(lines[i + 1..j], lines[j + 1..k])] + Blocks(lines, k + 1)
  {
    hide IsMarker, MakeBlock, Until;
  }

  lemma SegmentParses(lines: seq<Line>, i: nat, s: Segment, rest: seq<Line>)
    requires WellMarked(s) && i <= |lines| && lines[i..] == SegmentLines(s) + rest
    ensures i + |SegmentLines(s)| <= |lines|
    ensures Blocks(lines, i) == (if s.Conflict? then [MakeBlock(s.ours, s.theirs)] else []) + Blocks(lines, i + |SegmentLines(s)|)
  {
    hide IsMarker, MakeBlock, WellMarked, Blocks;
    if s.Context? {
      SuffixSplit(lines, i, [s.line], rest);
      ContextParses(lines, i, s, rest);
    } else {
      ConflictParses(lines, i, s, rest);
    }
  }

  lemma {:induction false} PrintedLinesParse(lines: seq<Line>, i: nat, segments: seq<Segment>)
    requires i <= |lines| && lines[i..] == PrintLines(segments)
    requires forall s | s in segments :: WellMarked(s)
    ensures Blocks(lines, i) == BlocksOf(segments)
    decreases segments
  {
    hide IsMarker, MakeBlock, WellMarked, Blocks, SegmentLines;
    if segments == [] {
      NoBlocksAtEnd(lines);
    } else {
      var s, rest := segments[0], PrintLines(segments[1..]);
      SuffixSplit(lines, i, SegmentLines(s), rest);
      SegmentParses(lines, i, s, rest);
      PrintedLinesParse(lines, i + |SegmentLines(s)|, segments[1..]);
    }
  }

  lemma NoBlocksAtEnd(lines: seq<Line>)
    ensures Blocks(lines, |lines|) == []
  {}

  lemma ContextParses(lines: seq<Line>, i: nat, s: Segment, rest: seq<Line>)
    requires s.Context? && WellMarked(s) && i < |lines| && lines[i..] == [s.line] + rest
    ensures Blocks(lines, i) == Blocks(lines, i + 1)
  {
    hide IsMarker;
    assert lines[i] == lines[i..][0];
  }

  /** Parsing a file printed from context lines and conflicts gives back exactly those
      conflicts, in order. */
  lemma PrintThenParse(segments: seq<Segment>)
    requires segments != [] && forall s | s in segments :: WellMarked(s)
    requires forall l | l in PrintLines(segments) :: '\n' !in l
    ensures Blocks(SplitLines(JoinLines(PrintLines(segments))), 0) == BlocksOf(segments)
  {
    var lines := PrintLines(segments);
    assert lines != [];
    SplitJoin(lines);
    assert lines[0..] == lines;
    PrintedLinesParse(lines, 0, segments);
  }

  // ---- Every file ----------------------------------------------------------------------------

  /** How a file ends: a conflict whose middle or closing marker never comes, or nothing more. */
  datatype Tail =
    | NoTail
    | OpenOurs(open: Line, ours: seq<Line>)
    | OpenTheirs(open: Line, ours: seq<Line>, middle: Line, theirs: seq<Line>)

  predicate TailOk(tail: Tail) {
    match tail
    case NoTail => true
    case OpenOurs(open, ours) => IsMarker(open, START) && forall l | l in ours :: !IsMarker(l, MIDDLE)
    case OpenTheirs(open, ours, middle, theirs) =>
      && IsMarker(open, START) && IsMarker(middle, MIDDLE)
      && (forall l | l in ours :: !IsMarker(l, MIDDLE))
      && (forall l | l in theirs :: !IsMarker(l, END))
  }

  function TailLines(tail: Tail): seq<Line> {
    match tail
    case NoTail => []
    case OpenOurs(open, ours) => [open] + ours
    case OpenTheirs(open, ours, middle, theirs) => [open] + ours + ([middle] + theirs)
  }

  /** Without a middle marker there is no block; without a closing one their side runs to the end. */
  function TailBlocks(tail: Tail): seq<Block> {
    if tail.OpenTheirs? then [MakeBlock(tail.ours, tail.theirs)] else []
  }

  lemma {:induction false} UntilEnd(lines: seq<Line>, i: nat, marker: string)
    requires i <= |lines| && forall l | l in lines[i..] :: !IsMarker(l, marker)
    ensures Until(lines, i, marker) == |lines|
    decreases |lines| - i
  {
    hide IsMarker;
    if i < |lines| {
      assert lines[i..][0] == lines[i] && lines[i..][1..] == lines[i + 1..];
      UntilEnd(lines, i + 1, marker);
    }
  }

  lemma BlocksFrom(lines: seq<Line>, i: nat)
    requires i < |lines| && IsMarker(lines[i], START)
    ensures var j := Until(lines, i + 1, MIDDLE);
            && (j == |lines| ==> Blocks(lines, i) == [])
            && (j < |lines| ==>
                  var k := Until(lines, j + 1, END);
                  Blocks(lines, i) == [MakeBlock(lines[i + 1..j], lines[j + 1..k])] + Blocks(lines, if k < |lines| then k + 1 else k))
  {
    hide IsMarker, MakeBlock, Until;
  }

  lemma TailParses(lines: seq<Line>, i: nat, tail: Tail)
    requires i <= |lines| && lines[i..] == TailLines(tail) && TailOk(tail)
    ensures Blocks(lines, i) == TailBlocks(tail)
  {
    hide IsMarker, MakeBlock, Blocks, Until;
    match tail
    case NoTail => NoBlocksAtEnd(lines);
    case OpenOurs(open, ours) =>
      Bracketed(lines, i, open, ours, []);
      assert lines[i + 1..] == ours;
      UntilEnd(lines, i + 1, MIDDLE);
      BlocksFrom(lines, i);
    case OpenTheirs(open, ours, middle, theirs) =>
      Bracketed(lines, i, open, ours, [middle] + theirs);
      var j := i + 1 + |ours|;
      Bracketed(lines, j, middle, theirs, []);
      assert lines[j + 1..] == theirs && lines[j + 1..|lines|] == theirs;
      UntilIs(lines, i + 1, MIDDLE, j);
      UntilEnd(lines, j + 1, END);
      BlocksFrom(lines, i);
      NoBlocksAtEnd(lines);
  }

  lemma {:induction false} FileParses(lines: seq<Line>, i: nat, segments: seq<Segment>, tail: Tail)
    requires i <= |lines| && lines[i..] == PrintLines(segments) + TailLines(tail)
    requires TailOk(tail) && forall s | s in segments :: WellMarked(s)
    ensures Blocks(lines, i) == BlocksOf(segments) + TailBlocks(tail)
    decreases segments
  {
    hide IsMarker, MakeBlock, WellMarked, Blocks, SegmentLines, TailOk, TailLines, TailBlocks;
    if segments == [] {
      assert lines[i..] == TailLines(tail);
      TailParses(lines, i, tail);
    } else {
      var s, rest := segments[0], PrintLines(segments[1..]) + TailLines(tail);
      assert lines[i..] == SegmentLines(s) + rest;
      SuffixSplit(lines, i, SegmentLines(s), rest);
      SegmentParses(lines, i, s, rest);
      FileParses(lines, i + |SegmentLines(s)|, segments[1..], tail);
    }
  }

  lemma FreeBody(lines: seq<Line>, i: nat, marker: string)
    requires i <= |lines|
    ensures forall l | l in lines[i..Until(lines, i, marker)] :: !IsMarker(l, marker)
  {
    hide IsMarker;
  }

  lemma UnfinishedSplit(lines: seq<Line>, i: nat, j: nat)
    requires i < j < |lines|
    ensures lines[i..] == [lines[i]] + lines[i + 1..j] + ([lines[j]] + lines[j + 1..])
  {}

  lemma FinishedSplit(lines: seq<Line>, i: nat, j: nat, k: nat)
    requires i < j < k < |lines|
    ensures [lines[i]] + lines[i + 1..j] + [lines[j]] + lines[j + 1..k] + [lines[k]] == lines[i..k + 1]
    ensures lines[i..k + 1] <= lines[i..]
  {}

  /** The first segment of what is left, or the tail. */
  lemma FirstSegment(lines: seq<Line>, i: nat) returns (s: Option<Segment>, tail: Tail)
    requires i < |lines|
    ensures s.None? ==> TailOk(tail) && lines[i..] == TailLines(tail)
    ensures s.Some? ==> WellMarked(s.value) && SegmentLines(s.value) <= lines[i..] && |SegmentLines(s.value)| > 0
  {
    hide IsMarker, Until;
    tail := NoTail;
    if !IsMarker(lines[i], START) {
      s := Some(Context(lines[i]));
      return;
    }
    var j := Until(lines, i + 1, MIDDLE);
    FreeBody(lines, i + 1, MIDDLE);
    if j == |lines| {
      s, tail := None, OpenOurs(lines[i], lines[i + 1..j]);
      return;
    }
    var k := Until(lines, j + 1, END);
    FreeBody(lines, j + 1, END);
    if k == |lines| {
      UnfinishedSplit(lines, i, j);
      assert lines[j + 1..] == lines[j + 1..k];
      s, tail := None, OpenTheirs(lines[i], lines[i + 1..j], lines[j], lines[j + 1..k]);
    } else {
      FinishedSplit(lines, i, j, k);
      s := Some(Conflict(lines[i], lines[i + 1..j], lines[j], lines[j + 1..k], lines[k]));
    }
  }

  lemma {:induction false} EveryFileIsPrinted(lines: seq<Line>, i: nat) returns (segments: seq<Segment>, tail: Tail)
    requires i <= |lines|
    ensures lines[i..] == PrintLines(segments) + TailLines(tail)
    ensures TailOk(tail) && forall s | s in segments :: WellMarked(s)
    decreases |lines| - i
  {
    hide IsMarker, WellMarked, SegmentLines, TailLines;
    if i == |lines| {
      segments, tail := [], NoTail;
      EmptyTail();
    } else {
      var s;
      s, tail := FirstSegment(lines, i);
      if s.None? {
        segments := [];
      } else {
        var n := |SegmentLines(s.value)|;
        var rest;
        rest, tail := EveryFileIsPrinted(lines, i + n);
        segments := [s.value] + rest;
        assert segments[1..] == rest;
        assert lines[i..] == SegmentLines(s.value) + lines[i + n..];
        assert SegmentLines(s.value) + (PrintLines(rest) + TailLines(tail)) == SegmentLines(s.value) + PrintLines(rest) + TailLines(tail);
      }
    }
  }

  lemma EmptyTail()
    ensures TailLines(NoTail) == []
  {}

  ghost predicate Reads(lines: seq<Line>, segments: seq<Segment>, tail: Tail) {
    TailOk(tail) && (forall s | s in segments :: WellMarked(s)) && lines == PrintLines(segments) + TailLines(tail)
  }

  /** Every file is context lines and complete conflicts, and at its end perhaps an unfinished
      one; the blocks are those of the conflicts, and of the unfinished one if it has its middle
      marker. */
  lemma BlocksExactly(lines: seq<Line>, blocks: seq<Block>)
    ensures blocks == Blocks(lines, 0) <==>
              exists segments, tail :: Reads(lines, segments, tail) && blocks == BlocksOf(segments) + TailBlocks(tail)
  {
    hide TailOk, WellMarked, PrintLines, TailLines, TailBlocks, BlocksOf, Blocks;
    assert lines[0..] == lines;
    var segments, tail := EveryFileIsPrinted(lines, 0);
    FileParses(lines, 0, segments, tail);
    assert Reads(lines, segments, tail);
    forall ss, end | Reads(lines, ss, end) ensures Blocks(lines, 0) == BlocksOf(ss) + TailBlocks(end) {
      FileParses(lines, 0, ss, end);
    }
  }
}
