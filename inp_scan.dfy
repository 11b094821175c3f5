/**
  `parse_inp`: one forward pass over the lines of an Abaqus `.inp` mesh file
  with a cursor `i`. A line is classified by its stripped, lower-cased text:
  `*elset...` gives at most one element-set name, `*surface,` opens a
  surface block, any other line containing `embed` opens an embed block,
  and every other line is passed over. A block is its opening line and the
  maximal run of following lines that do not start with `*` after leading
  whitespace; the cursor then resumes at the line that ended the block.

  The specification of the pass is `Scan`: the list of `Step`s the cursor
  takes, each the range of lines it consumed in one iteration. The lists the
  pass builds are projections of that list (`ElsetsOf`, `SurfNamesOf`,
  `Slices(Spans(..))`), and `ParseInp` keeps its accumulators equal to the
  projections of the steps taken so far.
 */
module InpScan {
  import opened Text
  import opened Sequences
  import opened Deduplication
  import opened ElsetPattern

  /** How the pass treats a line the cursor stands on. */
  datatype LineKind = ElsetLine | SurfaceLine | EmbedLine | OtherLine

  /** `lines[j].lstrip().startswith('*')`: the first character that is not
      whitespace is `*`; such a line ends any open block. */
  predicate IsDirective(line: string)
    decreases |line|
  {
    line != [] && (if IsSpace(line[0]) then IsDirective(line[1..]) else line[0] == '*')
  }

  /** `IsDirective` on the text from `j` on: the first character there that
      is not whitespace is `*`. */
  lemma {:induction false} IsDirectiveFrom(line: string, j: nat)
    requires j <= |line|
    ensures IsDirective(line[j..]) <==> var k := SkipSpaces(line, j); k < |line| && line[k] == '*'
    decreases |line| - j
  {
    if j < |line| && IsSpace(line[j]) {
      assert line[j..][1..] == line[j + 1..];
      IsDirectiveFrom(line, j + 1);
    }
  }

  /** `IsDirective` is `lstrip().startswith('*')`. */
  lemma IsDirectiveAfterLStrip(line: string)
    ensures IsDirective(line) <==> StartsWith(LStrip(line), "*")
  {
    IsDirectiveFrom(line, 0);
    assert line[0..] == line;
  }

  /** The classification at the cursor, in the order the branches are tried:
      `*elset`, then `*surface,`, then `embed` anywhere in the line. */
  function Classify(line: string): LineKind {
    var low := Lower(Strip(line));
    if StartsWith(low, "*elset") then ElsetLine
    else if StartsWith(low, "*surface,") then SurfaceLine
    else if Contains(low, "embed") then EmbedLine
    else OtherLine
  }

  /** The kinds whose line opens a block of following data lines. */
  predicate OwnsBlock(kind: LineKind) {
    kind == SurfaceLine || kind == EmbedLine
  }

  /** The end of the block's data lines that start at `j`: the first line at
      or after `j` that starts with `*`, or the end of the input. */
  function BlockEnd(lines: seq<string>, j: nat): (e: nat)
    requires j <= |lines|
    ensures j <= e <= |lines|
    decreases |lines| - j
  {
    if j < |lines| && !IsDirective(lines[j]) then BlockEnd(lines, j + 1) else j
  }

  /** A block's data lines are the maximal run of lines from `j` on that do
      not start with `*`: none of them does, and the line after them does,
      unless the input ends first. */
  lemma {:induction false} BlockEndStops(lines: seq<string>, j: nat)
    requires j <= |lines|
    ensures forall m :: j <= m < BlockEnd(lines, j) ==> !IsDirective(lines[m])
    ensures BlockEnd(lines, j) == |lines| || IsDirective(lines[BlockEnd(lines, j)])
    decreases |lines| - j
  {
    if j < |lines| && !IsDirective(lines[j]) {
      BlockEndStops(lines, j + 1);
    }
  }

  /** One iteration of the cursor loop: the line it stands on, how that line
      was classified, and the lines `start..end` the iteration consumed. */
  datatype Step = Step(kind: LineKind, start: nat, end: nat)

  /** The iteration with the cursor on line `i`; the next iteration starts at
      `end` (`i = j - 1` followed by `i += 1`). */
  function StepAt(lines: seq<string>, i: nat): (s: Step)
    requires i < |lines|
    ensures s.start == i < s.end <= |lines|
  {
    var kind := Classify(lines[i]);
    Step(kind, i, if OwnsBlock(kind) then BlockEnd(lines, i + 1) else i + 1)
  }

  /** The iterations of the cursor loop from line `i` on. */
  function Steps(lines: seq<string>, i: nat): (st: seq<Step>)
    requires i <= |lines|
    ensures forall s :: s in st ==> i <= s.start < s.end <= |lines|
    decreases |lines| - i
  {
    if i == |lines| then []
    else
      var s := StepAt(lines, i);
      [s] + Steps(lines, s.end)
  }

  /** The whole pass. */
  function Scan(lines: seq<string>): seq<Step> {
    Steps(lines, 0)
  }

  /** Every step names a non-empty range of lines of `lines`. */
  predicate InRange(lines: seq<string>, steps: seq<Step>) {
    forall s :: s in steps ==> s.start < s.end <= |lines|
  }

  /** The name one data line of a surface block adds: the first comma field,
      stripped, when it is not empty. */
  function DataName(line: string): (r: seq<string>)
    ensures |r| <= 1
    ensures forall name :: name in r ==> name != ""
  {
    var name := Strip(FirstField(line));
    if name != "" then [name] else []
  }

  /** The names the data lines `k..j` of a surface block add, in order. */
  function DataNames(lines: seq<string>, k: nat, j: nat): seq<string>
    requires k <= j <= |lines|
    decreases j
  {
    if j == k then [] else DataNames(lines, k, j - 1) + DataName(lines[j - 1])
  }

  /** The `elsets` list the steps build. */
  function ElsetsOf(lines: seq<string>, steps: seq<Step>): seq<string>
    requires InRange(lines, steps)
  {
    if steps == [] then []
    else ElsetsOf(lines, steps[..|steps| - 1]) + StepElset(lines, steps[|steps| - 1])
  }

  /** What one step adds to `elsets`: the name on its line when it was an
      `*elset` line, nothing otherwise. */
  function StepElset(lines: seq<string>, s: Step): seq<string>
    requires s.start < |lines|
  {
    if s.kind == ElsetLine then LineElset(lines[s.start]) else []
  }

  /** What an `*elset` line adds to `elsets`: the name found by the pattern
      in the stripped line, or nothing. */
  function LineElset(line: string): (r: seq<string>)
    ensures |r| <= 1
  {
    match ElsetName(Strip(line))
    case Some(name) => [name]
    case None => []
  }

  /** The `surf_names` list the steps build. */
  function SurfNamesOf(lines: seq<string>, steps: seq<Step>): seq<string>
    requires InRange(lines, steps)
  {
    if steps == [] then []
    else SurfNamesOf(lines, steps[..|steps| - 1]) + StepNames(lines, steps[|steps| - 1])
  }

  /** What one step adds to `surf_names`: the names of its data lines when it
      read a surface block, nothing otherwise. */
  function StepNames(lines: seq<string>, s: Step): seq<string>
    requires s.start < s.end <= |lines|
  {
    if s.kind == SurfaceLine then DataNames(lines, s.start + 1, s.end) else []
  }

  /** The steps of one kind, in order. */
  function Spans(steps: seq<Step>, kind: LineKind): (r: seq<Step>)
    ensures forall s :: s in r ==> s in steps
  {
    if steps == [] then []
    else
      var s := steps[|steps| - 1];
      Spans(steps[..|steps| - 1], kind) + (if s.kind == kind then [s] else [])
  }

  /** The steps of one kind are exactly the steps of that kind. */
  lemma {:induction false} SpansMembers(steps: seq<Step>, kind: LineKind)
    ensures forall s :: s in Spans(steps, kind) <==> s in steps && s.kind == kind
  {
    if steps != [] {
      var init, last := steps[..|steps| - 1], steps[|steps| - 1];
      SpansMembers(init, kind);
      assert steps == init + [last];
    }
  }

  /** The steps come in file order without overlapping: an earlier one ends
      no later than a later one starts. */
  predicate InFileOrder(steps: seq<Step>) {
    forall q, q' :: 0 <= q < q' < |steps| ==> steps[q].end <= steps[q'].start
  }

  /** Keeping the steps of one kind keeps their order: when the steps come
      in file order without overlapping, so do the kept ones. */
  lemma {:induction false} SpansOrdered(steps: seq<Step>, kind: LineKind)
    requires InFileOrder(steps)
    ensures InFileOrder(Spans(steps, kind))
  {
    if steps != [] {
      var init, last := steps[..|steps| - 1], steps[|steps| - 1];
      assert forall q :: 0 <= q < |init| ==> init[q] == steps[q];
      SpansOrdered(init, kind);
      var sp0, sp := Spans(init, kind), Spans(steps, kind);
      assert sp == sp0 + (if last.kind == kind then [last] else []);
      if last.kind == kind {
        forall q, q' | 0 <= q < q' < |sp|
          ensures sp[q].end <= sp[q'].start
        {
          if q' == |sp0| {
            assert sp0[q] in init;
            var k :| 0 <= k < |init| && init[k] == sp0[q];
            assert steps[k] == sp[q];
          } else {
            assert sp[q] == sp0[q] && sp[q'] == sp0[q'];
          }
        }
      } else {
        assert sp == sp0;
      }
    }
  }

  /** The verbatim lines of each step. */
  function Slices(lines: seq<string>, spans: seq<Step>): (r: seq<seq<string>>)
    requires InRange(lines, spans)
    ensures |r| == |spans|
  {
    if spans == [] then []
    else
      var s := spans[|spans| - 1];
      Slices(lines, spans[..|spans| - 1]) + [lines[s.start..s.end]]
  }

  /** The `q`-th slice is the lines of the `q`-th step. */
  lemma {:induction false} SlicesAt(lines: seq<string>, spans: seq<Step>)
    requires InRange(lines, spans)
    ensures forall q :: 0 <= q < |spans| ==> Slices(lines, spans)[q] == lines[spans[q].start..spans[q].end]
  {
    if spans != [] {
      var init := spans[..|spans| - 1];
      SlicesAt(lines, init);
      forall q | 0 <= q < |spans|
        ensures Slices(lines, spans)[q] == lines[spans[q].start..spans[q].end]
      {
        if q < |init| {
          assert spans[q] == init[q];
        }
      }
    }
  }

  /** The `surfaces` list the steps build. */
  function SurfaceBlocks(lines: seq<string>, steps: seq<Step>): seq<seq<string>>
    requires InRange(lines, steps)
  {
    Slices(lines, Spans(steps, SurfaceLine))
  }

  /** The `embeds` list the steps build. */
  function EmbedBlocks(lines: seq<string>, steps: seq<Step>): seq<seq<string>>
    requires InRange(lines, steps)
  {
    Slices(lines, Spans(steps, EmbedLine))
  }

  /** What one step adds to the block list of `kind`: its verbatim lines when
      it is of that kind, nothing otherwise. */
  function StepBlock(lines: seq<string>, s: Step, kind: LineKind): seq<seq<string>>
    requires s.start < s.end <= |lines|
  {
    if s.kind == kind then [lines[s.start..s.end]] else []
  }

  /** Appending a step appends its contribution to each list. */
  lemma AppendStep(lines: seq<string>, done: seq<Step>, s: Step)
    requires InRange(lines, done) && s.start < s.end <= |lines|
    ensures InRange(lines, done + [s])
    ensures ElsetsOf(lines, done + [s]) == ElsetsOf(lines, done) + StepElset(lines, s)
    ensures SurfNamesOf(lines, done + [s]) == SurfNamesOf(lines, done) + StepNames(lines, s)
    ensures SurfaceBlocks(lines, done + [s]) ==
            SurfaceBlocks(lines, done) + StepBlock(lines, s, SurfaceLine)
    ensures EmbedBlocks(lines, done + [s]) ==
            EmbedBlocks(lines, done) + StepBlock(lines, s, EmbedLine)
  {
    ElsetsAppend(lines, done, s);
    SurfNamesAppend(lines, done, s);
    AppendSpan(lines, done, s, SurfaceLine);
    AppendSpan(lines, done, s, EmbedLine);
  }

  lemma ElsetsAppend(lines: seq<string>, done: seq<Step>, s: Step)
    requires InRange(lines, done) && s.start < s.end <= |lines|
    ensures InRange(lines, done + [s])
    ensures ElsetsOf(lines, done + [s]) == ElsetsOf(lines, done) + StepElset(lines, s)
  {
    assert (done + [s])[..|done|] == done;
  }

  lemma SurfNamesAppend(lines: seq<string>, done: seq<Step>, s: Step)
    requires InRange(lines, done) && s.start < s.end <= |lines|
    ensures InRange(lines, done + [s])
    ensures SurfNamesOf(lines, done + [s]) == SurfNamesOf(lines, done) + StepNames(lines, s)
  {
    assert (done + [s])[..|done|] == done;
  }

  lemma AppendSpan(lines: seq<string>, done: seq<Step>, s: Step, kind: LineKind)
    requires InRange(lines, done) && s.start < s.end <= |lines|
    ensures InRange(lines, done + [s])
    ensures Slices(lines, Spans(done + [s], kind)) ==
            Slices(lines, Spans(done, kind)) + StepBlock(lines, s, kind)
  {
    InRangeAppend(lines, done, s);
    if s.kind == kind {
      AppendSpanOfKind(lines, done, s, kind);
    } else {
      AppendSpanOfOtherKind(lines, done, s, kind);
    }
  }

  lemma AppendSpanOfKind(lines: seq<string>, done: seq<Step>, s: Step, kind: LineKind)
    requires InRange(lines, done + [s]) && s.kind == kind
    ensures InRange(lines, done)
    ensures Slices(lines, Spans(done + [s], kind)) == Slices(lines, Spans(done, kind)) + [lines[s.start..s.end]]
  {
    assert (done + [s])[..|done|] == done;
    var sp := Spans(done, kind);
    assert Spans(done + [s], kind) == sp + [s];
    SlicesAppend(lines, sp, s);
  }

  lemma AppendSpanOfOtherKind(lines: seq<string>, done: seq<Step>, s: Step, kind: LineKind)
    requires InRange(lines, done + [s]) && s.kind != kind
    ensures InRange(lines, done)
    ensures Slices(lines, Spans(done + [s], kind)) == Slices(lines, Spans(done, kind))
  {
    assert (done + [s])[..|done|] == done;
    var sp := Spans(done, kind);
    assert Spans(done + [s], kind) == sp + [] == sp;
  }

  lemma InRangeAppend(lines: seq<string>, done: seq<Step>, s: Step)
    requires InRange(lines, done) && s.start < s.end <= |lines|
    ensures InRange(lines, done + [s])
  {
  }

  lemma SlicesAppend(lines: seq<string>, spans: seq<Step>, s: Step)
    requires InRange(lines, spans) && s.start < s.end <= |lines|
    ensures InRange(lines, spans + [s])
    ensures Slices(lines, spans + [s]) == Slices(lines, spans) + [lines[s.start..s.end]]
  {
    assert (spans + [s])[..|spans|] == spans;
  }

  /** Reading one more data line adds its name, if any. */
  lemma DataNamesExtend(lines: seq<string>, k: nat, j: nat)
    requires k <= j < |lines|
    ensures DataNames(lines, k, j + 1) == DataNames(lines, k, j) + DataName(lines[j])
  {
  }

  /** Reading data line `j` of the surface block opened at `i` extends the
      block by that line and the names by that line's name. */
  lemma ReadDataLine(lines: seq<string>, i: nat, j: nat, names0: seq<string>)
    requires i < j < |lines| && !IsDirective(lines[j])
    ensures BlockEnd(lines, j + 1) == BlockEnd(lines, j)
    ensures lines[i..j + 1] == lines[i..j] + [lines[j]]
    ensures names0 + DataNames(lines, i + 1, j + 1) == names0 + DataNames(lines, i + 1, j) + DataName(lines[j])
  {
    SliceExtend(lines, i, j);
    DataNamesExtend(lines, i + 1, j);
    AppendAssoc(names0, DataNames(lines, i + 1, j), DataName(lines[j]));
  }

  /** The `*surface,` branch of the cursor loop: the block from line `i` up
      to the next line that starts with `*`, appending the name of each data
      line, if it has one, to `names0` on the way. */
  method ReadSurfaceBlock(lines: seq<string>, i: nat, names0: seq<string>)
    returns (block: seq<string>, names: seq<string>, j: nat)
    requires i < |lines|
    ensures j == BlockEnd(lines, i + 1)
    ensures block == lines[i..j]
    ensures names == names0 + DataNames(lines, i + 1, j)
  {
    block := [lines[i]];
    names := names0;
    j := i + 1;
    while j < |lines| && !IsDirective(lines[j])
      invariant i + 1 <= j <= |lines|
      invariant BlockEnd(lines, j) == BlockEnd(lines, i + 1)
      invariant block == lines[i..j]
      invariant names == names0 + DataNames(lines, i + 1, j)
      decreases |lines| - j
    {
      ReadDataLine(lines, i, j, names0);
      block := block + [lines[j]];
      names := names + DataName(lines[j]);
      j := j + 1;
    }
  }

  /** The embed branch of the cursor loop: the block from line `i` up to the
      next line that starts with `*`. */
  method ReadEmbedBlock(lines: seq<string>, i: nat) returns (block: seq<string>, j: nat)
    requires i < |lines|
    ensures j == BlockEnd(lines, i + 1)
    ensures block == lines[i..j]
  {
    block := [lines[i]];
    j := i + 1;
    while j < |lines| && !IsDirective(lines[j])
      invariant i + 1 <= j <= |lines|
      invariant BlockEnd(lines, j) == BlockEnd(lines, i + 1)
      invariant block == lines[i..j]
      decreases |lines| - j
    {
      SliceExtend(lines, i, j);
      block := block + [lines[j]];
      j := j + 1;
    }
  }

  /** The steps taken and the steps ahead still make up the whole pass after
      the step at the cursor is taken. */
  lemma AdvanceSteps(lines: seq<string>, done: seq<Step>, i: nat)
    requires i < |lines|
    requires done + Steps(lines, i) == Scan(lines)
    ensures (done + [StepAt(lines, i)]) + Steps(lines, StepAt(lines, i).end) == Scan(lines)
  {
    TakeStep(lines, done, i);
  }

  /** Taking the step at `i` moves it from the steps ahead to the steps done. */
  lemma TakeStep(lines: seq<string>, done: seq<Step>, i: nat)
    requires i < |lines|
    ensures done + Steps(lines, i) == (done + [StepAt(lines, i)]) + Steps(lines, StepAt(lines, i).end)
  {
    var s := StepAt(lines, i);
    assert Steps(lines, i) == [s] + Steps(lines, s.end);
  }

  /** The body of the cursor loop with the cursor on line `i`, up to and not
      including `i += 1`: the line is classified and its contribution is
      appended to the four lists; after a block the cursor is put on the
      block's last line (`i = j - 1`). */
  method ParseLine(lines: seq<string>, i: nat, elsets: seq<string>, surfNames: seq<string>,
                   surfaces: seq<seq<string>>, embeds: seq<seq<string>>)
    returns (i': nat, elsets': seq<string>, surfNames': seq<string>,
             surfaces': seq<seq<string>>, embeds': seq<seq<string>>)
    requires i < |lines|
    ensures var s := StepAt(lines, i);
            && i' + 1 == s.end
            && elsets' == elsets + StepElset(lines, s)
            && surfNames' == surfNames + StepNames(lines, s)
            && surfaces' == surfaces + StepBlock(lines, s, SurfaceLine)
            && embeds' == embeds + StepBlock(lines, s, EmbedLine)
  {
    i', elsets', surfNames', surfaces', embeds' := i, elsets, surfNames, surfaces, embeds;
    var line := Strip(lines[i]);
    var low := Lower(line);
    if StartsWith(low, "*elset") {
      var m := ElsetName(line);
      if m.Some? {
        elsets' := elsets + [m.value];
      }
    } else if StartsWith(low, "*surface,") {
      var block, j;
      block, surfNames', j := ReadSurfaceBlock(lines, i, surfNames);
      surfaces' := surfaces + [block];
      i' := j - 1;
    } else if Contains(low, "embed") {
      var block, j := ReadEmbedBlock(lines, i);
      embeds' := embeds + [block];
      i' := j - 1;
    }
  }

  /** One pass of the loop body keeps the list part of the loop invariant
      of `parse_inp`: the four lists are the projections of the steps taken,
      now including the step at the cursor. */
  lemma Advance(lines: seq<string>, done: seq<Step>, i: nat,
                elsets: seq<string>, surfNames: seq<string>,
                surfaces: seq<seq<string>>, embeds: seq<seq<string>>,
                i': nat, elsets': seq<string>, surfNames': seq<string>,
                surfaces': seq<seq<string>>, embeds': seq<seq<string>>)
    requires i < |lines|
    requires InRange(lines, done)
    requires elsets == ElsetsOf(lines, done) && surfNames == SurfNamesOf(lines, done)
    requires surfaces == SurfaceBlocks(lines, done) && embeds == EmbedBlocks(lines, done)
    requires var s := StepAt(lines, i);
             && i' + 1 == s.end
             && elsets' == elsets + StepElset(lines, s)
             && surfNames' == surfNames + StepNames(lines, s)
             && surfaces' == surfaces + StepBlock(lines, s, SurfaceLine)
             && embeds' == embeds + StepBlock(lines, s, EmbedLine)
    ensures var done' := done + [StepAt(lines, i)];
            && InRange(lines, done')
            && elsets' == ElsetsOf(lines, done') && surfNames' == SurfNamesOf(lines, done')
            && surfaces' == SurfaceBlocks(lines, done') && embeds' == EmbedBlocks(lines, done')
  {
    AppendStep(lines, done, StepAt(lines, i));
  }

  /** The cursor loop of `parse_inp(lines)`: the four lists it builds are
      the projections of `Scan(lines)`. */
  method ScanLines(lines: seq<string>)
    returns (elsets: seq<string>, surfNames: seq<string>,
             surfaces: seq<seq<string>>, embeds: seq<seq<string>>)
    ensures InRange(lines, Scan(lines))
    ensures elsets == ElsetsOf(lines, Scan(lines)) && surfNames == SurfNamesOf(lines, Scan(lines))
    ensures surfaces == SurfaceBlocks(lines, Scan(lines)) && embeds == EmbedBlocks(lines, Scan(lines))
  {
    elsets, surfNames, surfaces, embeds := [], [], [], [];
    ghost var done: seq<Step> := [];
    var i := 0;
    assert done + Steps(lines, 0) == Scan(lines);
    while i < |lines|
      invariant i <= |lines|
      invariant done + Steps(lines, i) == Scan(lines)
      invariant InRange(lines, done)
      invariant elsets == ElsetsOf(lines, done) && surfNames == SurfNamesOf(lines, done)
      invariant surfaces == SurfaceBlocks(lines, done) && embeds == EmbedBlocks(lines, done)
      decreases |lines| - i
    {
      var next;
      AdvanceSteps(lines, done, i);
      done, next, elsets, surfNames, surfaces, embeds := ParseStep(lines, done, i, elsets, surfNames, surfaces, embeds);
      i := next;
    }
    ScanDone(lines, done);
  }

  /** One iteration of the cursor loop, `i += 1` included: the step at the
      cursor joins the steps taken, and the four lists stay their
      projections. */
  method ParseStep(lines: seq<string>, ghost done: seq<Step>, i: nat,
                   elsets: seq<string>, surfNames: seq<string>,
                   surfaces: seq<seq<string>>, embeds: seq<seq<string>>)
    returns (ghost done': seq<Step>, next: nat, elsets': seq<string>, surfNames': seq<string>,
             surfaces': seq<seq<string>>, embeds': seq<seq<string>>)
    requires i < |lines|
    requires InRange(lines, done)
    requires elsets == ElsetsOf(lines, done) && surfNames == SurfNamesOf(lines, done)
    requires surfaces == SurfaceBlocks(lines, done) && embeds == EmbedBlocks(lines, done)
    ensures done' == done + [StepAt(lines, i)] && next == StepAt(lines, i).end
    ensures InRange(lines, done')
    ensures elsets' == ElsetsOf(lines, done') && surfNames' == SurfNamesOf(lines, done')
    ensures surfaces' == SurfaceBlocks(lines, done') && embeds' == EmbedBlocks(lines, done')
  {
    var last;
    last, elsets', surfNames', surfaces', embeds' := ParseLine(lines, i, elsets, surfNames, surfaces, embeds);
    Advance(lines, done, i, elsets, surfNames, surfaces, embeds, last, elsets', surfNames', surfaces', embeds');
    done' := done + [StepAt(lines, i)];
    next := last + 1;
  }

  /** When the cursor has passed the last line, the steps taken are the whole
      pass. */
  lemma ScanDone(lines: seq<string>, done: seq<Step>)
    requires done + Steps(lines, |lines|) == Scan(lines)
    ensures done == Scan(lines)
  {
    assert done + [] == done;
  }

  /** `parse_inp(lines)`: the cursor loop, then `unique` on the two name
      lists. The four results are the projections of `Scan(lines)`, the name
      lists de-duplicated. */
  method ParseInp(lines: seq<string>)
    returns (elsets: seq<string>, surfNames: seq<string>,
             surfaces: seq<seq<string>>, embeds: seq<seq<string>>)
    ensures InRange(lines, Scan(lines))
    ensures elsets == Dedup(ElsetsOf(lines, Scan(lines)))
    ensures surfNames == Dedup(SurfNamesOf(lines, Scan(lines)))
    ensures surfaces == SurfaceBlocks(lines, Scan(lines))
    ensures embeds == EmbedBlocks(lines, Scan(lines))
  {
    var allElsets, allSurfNames;
    allElsets, allSurfNames, surfaces, embeds := ScanLines(lines);
    elsets := Unique(allElsets);
    surfNames := Unique(allSurfNames);
  }
}
