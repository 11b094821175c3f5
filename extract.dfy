/**
  `main` without its file handling: the lines of the mesh file go through
  `parse_inp`, the four lists are written out in the fixed layout, and the
  post-pass renumbers the surface tokens of the written text.

  `ReadBack` states what a reader of the intermediate file sees: when every
  input line ends with a line feed (a mesh file whose last line is
  terminated), the names carry no line feed, so the written text splits back
  into exactly the pieces of the layout.
 */
module ElementSets {
  import opened Text
  import opened Sequences
  import opened Deduplication
  import opened ElsetPattern
  import opened InpScan
  import opened Layout
  import opened SurfaceRenumber

  /** The text of the output file before the post-pass, for input `lines`. */
  function Output(lines: seq<string>): string
    requires InRange(lines, Scan(lines))
  {
    var st := Scan(lines);
    Render(Dedup(ElsetsOf(lines, st)), Dedup(SurfNamesOf(lines, st)),
           SurfaceBlocks(lines, st), EmbedBlocks(lines, st))
  }

  /** The pieces of that text, in the order they are written. */
  function OutputPieces(lines: seq<string>): seq<string>
    requires InRange(lines, Scan(lines))
  {
    var st := Scan(lines);
    OutputLines(Dedup(ElsetsOf(lines, st)), Dedup(SurfNamesOf(lines, st)),
                SurfaceBlocks(lines, st), EmbedBlocks(lines, st))
  }

  /** `main` from the lines read to the text written back: the file text is
      the renumbered layout of what `parse_inp` returned, and it has the
      length of the layout. */
  method ExtractElementSets(lines: seq<string>) returns (text: string)
    ensures InRange(lines, Scan(lines))
    ensures text == Substitute(Output(lines))
    ensures |text| == |Output(lines)|
  {
    var elsets, surfNames, surfaces, embeds := ParseInp(lines);
    var written := WriteOutput(elsets, surfNames, surfaces, embeds);
    text := Substitute(written);
    SubstituteIsRenumbered(written);
  }

  /** A text in which a line feed can only be the last character. */
  predicate FeedOnlyAtEnd(s: string) {
    forall k :: 0 <= k < |s| - 1 ==> s[k] != '\n'
  }

  /** Stripping such a text removes its line feed, if any. */
  lemma StripDropsFeed(s: string)
    requires FeedOnlyAtEnd(s)
    ensures '\n' !in Strip(s)
  {
    StripIsTrim(s);
    var a := SkipSpaces(s, 0);
    var b := TrimEnd(s, a, |s|);
    var r := Strip(s);
    forall q | 0 <= q < |r|
      ensures r[q] != '\n'
    {
      assert r[q] == s[a + q];
      assert r[|r| - 1] == s[b - 1];
    }
  }

  /** A slice of a text without line feed has none. */
  lemma SliceKeepsNoFeed(s: string, i: nat, j: nat)
    requires i <= j <= |s| && '\n' !in s
    ensures '\n' !in s[i..j]
  {
    forall q | 0 <= q < j - i
      ensures s[i..j][q] != '\n'
    {
      assert s[i..j][q] == s[i + q];
    }
  }

  /** A name found in a stripped `*elset` line holds no line feed. */
  lemma ElsetNameNoFeed(line: string)
    requires IsLine(line)
    ensures forall x :: x in LineElset(line) ==> '\n' !in x
  {
    var t := Strip(line);
    assert FeedOnlyAtEnd(line) by {
      assert forall k :: 0 <= k < |line| - 1 ==> line[k] == line[..|line| - 1][k];
    }
    StripDropsFeed(line);
    var p := FirstMatch(t, 0);
    if GroupAt(t, p).Some? {
      var g := GroupAt(t, p).value;
      SliceKeepsNoFeed(t, g.start, g.end);
      assert FeedOnlyAtEnd(t[g.start..g.end]);
      StripDropsFeed(t[g.start..g.end]);
    }
  }

  /** A name taken from a data line holds no line feed. */
  lemma DataNameNoFeed(line: string)
    requires IsLine(line)
    ensures forall x :: x in DataName(line) ==> '\n' !in x
  {
    var f := FirstField(line);
    assert FeedOnlyAtEnd(f) by {
      forall k | 0 <= k < |f| - 1
        ensures f[k] != '\n'
      {
        assert f[k] == line[k] == line[..|line| - 1][k];
      }
    }
    StripDropsFeed(f);
  }

  /** What a reader of the intermediate file sees: when every input line
      ends with its one line feed, the file splits back into the de-duplicated
      names with their line feeds, the separators and the verbatim blocks, in
      the order they were written. */
  lemma ReadBack(lines: seq<string>)
    requires forall l :: l in lines ==> IsLine(l)
    ensures InRange(lines, Scan(lines))
    ensures SplitLines(Output(lines)) == OutputPieces(lines)
  {
    var st := Scan(lines);
    var elsets := ElsetsOf(lines, st);
    var names := SurfNamesOf(lines, st);
    ElsetsHaveNoFeed(lines, st);
    SurfNamesHaveNoFeed(lines, st);
    BlocksAreLines(lines, Spans(st, SurfaceLine));
    BlocksAreLines(lines, Spans(st, EmbedLine));
    RenderSplits(Dedup(elsets), Dedup(names), SurfaceBlocks(lines, st), EmbedBlocks(lines, st));
  }

  lemma {:induction false} ElsetsHaveNoFeed(lines: seq<string>, steps: seq<Step>)
    requires InRange(lines, steps)
    requires forall l :: l in lines ==> IsLine(l)
    ensures forall x :: x in ElsetsOf(lines, steps) ==> '\n' !in x
    decreases |steps|
  {
    if steps != [] {
      var s := steps[|steps| - 1];
      assert s in steps;
      ElsetsHaveNoFeed(lines, steps[..|steps| - 1]);
      assert lines[s.start] in lines;
      ElsetNameNoFeed(lines[s.start]);
    }
  }

  lemma {:induction false} DataNamesHaveNoFeed(lines: seq<string>, k: nat, j: nat)
    requires k <= j <= |lines|
    requires forall l :: l in lines ==> IsLine(l)
    ensures forall x :: x in DataNames(lines, k, j) ==> '\n' !in x
    decreases j
  {
    if j > k {
      DataNamesHaveNoFeed(lines, k, j - 1);
      assert lines[j - 1] in lines;
      DataNameNoFeed(lines[j - 1]);
    }
  }

  lemma {:induction false} SurfNamesHaveNoFeed(lines: seq<string>, steps: seq<Step>)
    requires InRange(lines, steps)
    requires forall l :: l in lines ==> IsLine(l)
    ensures forall x :: x in SurfNamesOf(lines, steps) ==> '\n' !in x
    decreases |steps|
  {
    if steps != [] {
      var init, s := steps[..|steps| - 1], steps[|steps| - 1];
      assert s in steps;
      assert SurfNamesOf(lines, steps) == SurfNamesOf(lines, init) + StepNames(lines, s);
      SurfNamesHaveNoFeed(lines, init);
      DataNamesHaveNoFeed(lines, s.start + 1, s.end);
    }
  }

  lemma BlocksAreLines(lines: seq<string>, spans: seq<Step>)
    requires InRange(lines, spans)
    requires forall l :: l in lines ==> IsLine(l)
    ensures forall b, l :: b in Slices(lines, spans) && l in b ==> IsLine(l)
  {
    var blocks := Slices(lines, spans);
    SlicesAt(lines, spans);
    forall b, l | b in blocks && l in b
      ensures IsLine(l)
    {
      var q :| 0 <= q < |blocks| && blocks[q] == b;
      assert spans[q] in spans;
      SliceMembers(lines, spans[q].start, spans[q].end);
    }
  }
}
