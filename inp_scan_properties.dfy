/**
  What the cursor loop of `parse_inp` guarantees, stated about its
  specification `Scan`: the iterations tile the input in file order, every
  line is consumed by exactly one iteration (so a data line inside a block
  is never classified on its own), each block is its opening line and the
  maximal run of following lines that do not start with `*`, and the name
  lists hold exactly the names the pattern and the data lines give.
 */
module InpScanProperties {
  import opened Text
  import opened Sequences
  import opened ElsetPattern
  import opened Deduplication
  import opened InpScan

  /** Every iteration is the one the cursor loop takes at its first line. */
  lemma {:induction false} StepsAreStepAt(lines: seq<string>, i: nat)
    requires i <= |lines|
    ensures forall s :: s in Steps(lines, i) ==> s == StepAt(lines, s.start)
    decreases |lines| - i
  {
    if i < |lines| {
      var s := StepAt(lines, i);
      StepsAreStepAt(lines, s.end);
    }
  }

  /** The iterations from line `i` tile `i..|lines|`: the first starts at
      `i`, each starts where the previous one ended, the last ends at the end
      of the input. */
  lemma {:induction false} StepsTile(lines: seq<string>, i: nat)
    requires i <= |lines|
    ensures Steps(lines, i) == [] <==> i == |lines|
    ensures Steps(lines, i) != [] ==>
              Steps(lines, i)[0].start == i && Steps(lines, i)[|Steps(lines, i)| - 1].end == |lines|
    ensures forall q :: 0 <= q < |Steps(lines, i)| - 1 ==> Steps(lines, i)[q].end == Steps(lines, i)[q + 1].start
    decreases |lines| - i
  {
    if i < |lines| {
      var s := StepAt(lines, i);
      var rest := Steps(lines, s.end);
      StepsTile(lines, s.end);
      assert Steps(lines, i) == [s] + rest;
      forall q | 0 <= q < |rest|
        ensures Steps(lines, i)[q + 1] == rest[q]
      {
      }
    }
  }

  /** Iterations come in file order and do not overlap: an earlier one ends
      no later than a later one starts. */
  lemma StepsOrdered(lines: seq<string>, i: nat)
    requires i <= |lines|
    ensures InFileOrder(Steps(lines, i))
  {
    var st := Steps(lines, i);
    StepsTile(lines, i);
    assert forall q :: 0 <= q < |st| ==> st[q] in st;
    ChainOrdered(st);
  }

  /** Non-empty spans each starting where the previous one ended come in
      order. */
  lemma {:induction false} ChainOrdered(st: seq<Step>)
    requires forall q :: 0 <= q < |st| - 1 ==> st[q].end == st[q + 1].start
    requires forall q :: 0 <= q < |st| ==> st[q].start < st[q].end
    ensures InFileOrder(st)
    decreases |st|
  {
    if |st| > 1 {
      var init := st[..|st| - 1];
      ChainOrdered(init);
      forall q, q' | 0 <= q < q' < |st|
        ensures st[q].end <= st[q'].start
      {
        if q' < |st| - 1 {
          assert init[q] == st[q] && init[q'] == st[q'];
        } else if q < q' - 1 {
          assert init[q] == st[q] && init[q' - 1] == st[q' - 1];
        }
      }
    }
  }

  /** Every line from `i` on is consumed by some iteration. */
  lemma {:induction false} StepsCover(lines: seq<string>, i: nat, m: nat)
    requires i <= m < |lines|
    ensures exists s :: s in Steps(lines, i) && s.start <= m < s.end
    decreases |lines| - i
  {
    var s := StepAt(lines, i);
    assert Steps(lines, i) == [s] + Steps(lines, s.end);
    if s.end <= m {
      StepsCover(lines, s.end, m);
      var s' :| s' in Steps(lines, s.end) && s'.start <= m < s'.end;
      assert s' in Steps(lines, i);
    } else {
      assert s in Steps(lines, i);
    }
  }

  /** Every line is consumed by exactly one iteration of the whole pass. */
  lemma OneOwner(lines: seq<string>, m: nat)
    requires m < |lines|
    ensures exists q :: 0 <= q < |Scan(lines)| && Scan(lines)[q].start <= m < Scan(lines)[q].end
    ensures forall q, q' ::
              (0 <= q < |Scan(lines)| && 0 <= q' < |Scan(lines)| &&
               Scan(lines)[q].start <= m < Scan(lines)[q].end &&
               Scan(lines)[q'].start <= m < Scan(lines)[q'].end) ==> q == q'
  {
    var st := Scan(lines);
    StepsCover(lines, 0, m);
    var s :| s in st && s.start <= m < s.end;
    var q :| 0 <= q < |st| && st[q] == s;
    StepsOrdered(lines, 0);
  }

  /** A line inside a block (after its opening line) never starts an
      iteration: the loop never classifies a data line on its own. */
  lemma DataLinesNotClassified(lines: seq<string>)
    ensures forall s, s' :: s in Scan(lines) && s' in Scan(lines) ==> !(s.start < s'.start < s.end)
  {
    var st := Scan(lines);
    StepsOrdered(lines, 0);
    forall s, s' | s in st && s' in st
      ensures !(s.start < s'.start < s.end)
    {
      var q :| 0 <= q < |st| && st[q] == s;
      var q' :| 0 <= q' < |st| && st[q'] == s';
      if q < q' {
        assert s.end <= s'.start;
      } else if q' < q {
        assert s'.end <= s.start;
      }
    }
  }

  /** Line `e` ends a block: it starts with `*`, or the input ends there. */
  predicate ClosesBlock(lines: seq<string>, e: nat) {
    e == |lines| || (e < |lines| && IsDirective(lines[e]))
  }

  /** The shape of every iteration of the whole pass: its kind is the
      classification of its first line; an iteration on a surface or embed
      line consumes that line and the maximal run of following lines that do
      not start with `*`; any other iteration consumes one line. */
  lemma StepShape(lines: seq<string>, s: Step)
    requires s in Scan(lines)
    ensures s.start < s.end <= |lines|
    ensures s.kind == Classify(lines[s.start])
    ensures !OwnsBlock(s.kind) ==> s.end == s.start + 1
    ensures OwnsBlock(s.kind) ==>
              && (forall m :: s.start < m < s.end ==> !IsDirective(lines[m]))
              && ClosesBlock(lines, s.end)
  {
    StepsAreStepAt(lines, 0);
    assert s == StepAt(lines, s.start);
    StepAtShape(lines, s.start);
  }

  /** The same shape for the iteration that starts at line `i`. */
  lemma StepAtShape(lines: seq<string>, i: nat)
    requires i < |lines|
    ensures var s := StepAt(lines, i);
            && s.kind == Classify(lines[i])
            && (!OwnsBlock(s.kind) ==> s.end == i + 1)
            && (OwnsBlock(s.kind) ==>
                  && (forall m :: i < m < s.end ==> !IsDirective(lines[m]))
                  && ClosesBlock(lines, s.end))
  {
    BlockEndStops(lines, i + 1);
  }

  /** The names `k..j` data lines give: exactly the non-empty stripped first
      fields. */
  lemma DataNamesMembers(lines: seq<string>, k: nat, j: nat)
    requires k <= j <= |lines|
    ensures forall x :: x in DataNames(lines, k, j) <==> exists m :: k <= m < j && DataName(lines[m]) == [x]
    ensures forall x :: x in DataNames(lines, k, j) ==> x != ""
  {
    DataNamesSound(lines, k, j);
    forall x | x in DataNames(lines, k, j)
      ensures x != ""
    {
      var m :| k <= m < j && DataName(lines[m]) == [x];
      assert x in DataName(lines[m]);
    }
    forall x, m | k <= m < j && DataName(lines[m]) == [x]
      ensures x in DataNames(lines, k, j)
    {
      DataNamesComplete(lines, k, j, m);
    }
  }

  /** Every name in `DataNames` is the name of one of its data lines. */
  lemma DataNamesSound(lines: seq<string>, k: nat, j: nat)
    requires k <= j <= |lines|
    ensures forall x :: x in DataNames(lines, k, j) ==> exists m :: k <= m < j && DataName(lines[m]) == [x]
  {
    forall x | x in DataNames(lines, k, j)
      ensures exists m :: k <= m < j && DataName(lines[m]) == [x]
    {
      DataNameSource(lines, k, j, x);
    }
  }

  /** One added name and the data line it comes from. */
  lemma {:induction false} DataNameSource(lines: seq<string>, k: nat, j: nat, x: string)
    requires k < j <= |lines|
    requires x in DataNames(lines, k, j)
    ensures exists m :: k <= m < j && DataName(lines[m]) == [x]
    decreases j
  {
    if x in DataNames(lines, k, j - 1) {
      DataNameSource(lines, k, j - 1, x);
      var m :| k <= m < j - 1 && DataName(lines[m]) == [x];
      assert k <= m < j;
    } else {
      Singleton(DataName(lines[j - 1]), x);
    }
  }

  /** The name of every data line `m` is in `DataNames`. */
  lemma {:induction false} DataNamesComplete(lines: seq<string>, k: nat, j: nat, m: nat)
    requires k <= m < j <= |lines|
    ensures forall x :: x in DataName(lines[m]) ==> x in DataNames(lines, k, j)
    decreases j
  {
    if m < j - 1 {
      DataNamesComplete(lines, k, j - 1, m);
    }
  }

  /** `elsets` before de-duplication holds exactly the names found on the
      `*elset` lines the loop stood on. */
  lemma {:induction false} ElsetsOfMembers(lines: seq<string>, steps: seq<Step>)
    requires InRange(lines, steps)
    ensures forall x :: x in ElsetsOf(lines, steps) <==>
              exists s :: s in steps && s.kind == ElsetLine && ElsetName(Strip(lines[s.start])) == Some(x)
    decreases |steps|
  {
    if steps != [] {
      var init, s := steps[..|steps| - 1], steps[|steps| - 1];
      assert steps == init + [s];
      ElsetsOfMembers(lines, init);
      forall x
        ensures x in ElsetsOf(lines, steps) <==>
                exists s' :: s' in steps && s'.kind == ElsetLine && ElsetName(Strip(lines[s'.start])) == Some(x)
      {
        if exists s' :: s' in steps && s'.kind == ElsetLine && ElsetName(Strip(lines[s'.start])) == Some(x) {
          var s' :| s' in steps && s'.kind == ElsetLine && ElsetName(Strip(lines[s'.start])) == Some(x);
          if s' !in init {
            assert s' == s;
          }
        }
      }
    }
  }

  /** Step `s` read a surface block one of whose data lines gives `x`. */
  ghost predicate SurfaceDataName(lines: seq<string>, s: Step, x: string) {
    && s.kind == SurfaceLine && s.start < s.end <= |lines|
    && exists m :: s.start < m < s.end && DataName(lines[m]) == [x]
  }

  /** What one step adds to `surf_names` is exactly the names of the data
      lines of its surface block. */
  lemma StepNamesMembers(lines: seq<string>, s: Step)
    requires s.start < s.end <= |lines|
    ensures forall x :: x in StepNames(lines, s) <==> SurfaceDataName(lines, s, x)
  {
    DataNamesMembers(lines, s.start + 1, s.end);
  }

  /** `surf_names` before de-duplication holds exactly the names of the data
      lines of the surface blocks the loop read; none of them is empty. */
  lemma {:induction false} SurfNamesOfMembers(lines: seq<string>, steps: seq<Step>)
    requires InRange(lines, steps)
    ensures forall x :: x in SurfNamesOf(lines, steps) <==> exists s :: s in steps && SurfaceDataName(lines, s, x)
    ensures forall x :: x in SurfNamesOf(lines, steps) ==> x != ""
    decreases |steps|
  {
    if steps != [] {
      var init, s := steps[..|steps| - 1], steps[|steps| - 1];
      assert steps == init + [s];
      SurfNamesOfMembers(lines, init);
      StepNamesMembers(lines, s);
      forall x
        ensures x in SurfNamesOf(lines, steps) <==> exists s' :: s' in steps && SurfaceDataName(lines, s', x)
      {
        if exists s' :: s' in steps && SurfaceDataName(lines, s', x) {
          var s' :| s' in steps && SurfaceDataName(lines, s', x);
          if s' !in init {
            assert s' == s;
          }
        }
      }
    }
  }

  /** The blocks of one kind are the lines of exactly the iterations of that
      kind, in order. */
  lemma BlocksAreSteps(lines: seq<string>, kind: LineKind)
    requires InRange(lines, Scan(lines))
    ensures var blocks := Slices(lines, Spans(Scan(lines), kind));
            && (forall b :: b in blocks ==> exists s :: s in Scan(lines) && s.kind == kind && b == lines[s.start..s.end])
            && (forall s :: s in Scan(lines) && s.kind == kind ==> lines[s.start..s.end] in blocks)
  {
    var sp := Spans(Scan(lines), kind);
    var blocks := Slices(lines, sp);
    SpansMembers(Scan(lines), kind);
    SlicesAt(lines, sp);
    forall b | b in blocks
      ensures exists s :: s in Scan(lines) && s.kind == kind && b == lines[s.start..s.end]
    {
      var q :| 0 <= q < |blocks| && blocks[q] == b;
      assert sp[q] in sp;
    }
    forall s | s in Scan(lines) && s.kind == kind
      ensures lines[s.start..s.end] in blocks
    {
      var q :| 0 <= q < |sp| && sp[q] == s;
      assert blocks[q] == lines[s.start..s.end];
    }
  }

  /** The blocks of one kind come in file order and do not overlap: an
      earlier block ends no later than a later one starts. */
  lemma BlocksInFileOrder(lines: seq<string>, kind: LineKind)
    ensures InFileOrder(Spans(Scan(lines), kind))
  {
    StepsOrdered(lines, 0);
    SpansOrdered(Scan(lines), kind);
  }

  /** The lines of a block-reading step: the opening line of its kind, no
      line starting with `*` after it, and such a line or the end of the
      input right after the block. */
  lemma StepBlockShape(lines: seq<string>, s: Step)
    requires s in Scan(lines) && OwnsBlock(s.kind)
    ensures var b := lines[s.start..s.end];
            && b != [] && Classify(b[0]) == s.kind
            && (forall k :: 1 <= k < |b| ==> !IsDirective(b[k]))
            && ClosesBlock(lines, s.end)
  {
    StepShape(lines, s);
    var b := lines[s.start..s.end];
    assert forall k :: 0 <= k < |b| ==> b[k] == lines[s.start + k];
  }

  /** Each block `parse_inp` returns starts with a line of its kind, has no
      line starting with `*` after that one, and is followed by such a line
      or by the end of the input. */
  lemma BlockShape(lines: seq<string>, kind: LineKind, b: seq<string>)
    requires OwnsBlock(kind)
    requires InRange(lines, Scan(lines))
    requires b in Slices(lines, Spans(Scan(lines), kind))
    ensures b != [] && Classify(b[0]) == kind
    ensures forall k :: 1 <= k < |b| ==> !IsDirective(b[k])
    ensures exists s :: s in Scan(lines) && s.kind == kind && b == lines[s.start..s.end] && ClosesBlock(lines, s.end)
  {
    BlocksAreSteps(lines, kind);
    var s :| s in Scan(lines) && s.kind == kind && b == lines[s.start..s.end];
    StepBlockShape(lines, s);
  }

  /** `*Surface Section`, `*Surface Interaction` and any other keyword that
      continues `*surface` with a blank never open a surface block. */
  lemma SurfaceWithBlankIsNotBlock(line: string)
    requires StartsWith(Lower(Strip(line)), "*surface ")
    ensures Classify(line) != SurfaceLine
  {
    var low := Lower(Strip(line));
    assert low[..9][8] == ' ';
  }

  /** The branches are tried in order: a line whose stripped, lower-cased
      text starts with `*elset` is an elset line even when it contains
      `embed`; `*surface,` comes next; `embed` anywhere in the line last. */
  lemma ClassifyPriority(line: string)
    ensures var low := Lower(Strip(line));
            && (Classify(line) == ElsetLine <==> StartsWith(low, "*elset"))
            && (Classify(line) == SurfaceLine <==> !StartsWith(low, "*elset") && StartsWith(low, "*surface,"))
            && (Classify(line) == EmbedLine <==>
                  !StartsWith(low, "*elset") && !StartsWith(low, "*surface,") && exists k :: OccursAt(low, "embed", k))
  {
    ContainsIsSubstring(Lower(Strip(line)), "embed");
  }

  /** A line whose stripped, lower-cased text starts with `*` starts with
      `*` after its leading whitespace, so it ends any open block. */
  lemma StarLineIsDirective(line: string)
    requires StartsWith(Lower(Strip(line)), "*")
    ensures IsDirective(line)
  {
    StripIsTrim(line);
    var a := SkipSpaces(line, 0);
    assert Lower(Strip(line))[0] == LowerChar(line[a]) == '*';
    IsDirectiveFrom(line, 0);
    assert line[0..] == line;
  }

  /** A line starting with `*` is never a data line of a block: the loop
      stands on it, and it starts an iteration. */
  lemma DirectiveStartsStep(lines: seq<string>, m: nat)
    requires m < |lines| && IsDirective(lines[m])
    ensures forall s :: s in Scan(lines) ==> !(s.start < m < s.end)
    ensures exists s :: s in Scan(lines) && s.start == m
  {
    forall s | s in Scan(lines)
      ensures !(s.start < m < s.end)
    {
      StepShape(lines, s);
    }
    StepsCover(lines, 0, m);
  }

  /** A classified `*elset` or `*surface,` line starts with `*`. */
  lemma KeywordLineIsDirective(line: string)
    requires Classify(line) == ElsetLine || Classify(line) == SurfaceLine
    ensures IsDirective(line)
  {
    var low := Lower(Strip(line));
    assert low[0] == '*' by {
      if StartsWith(low, "*elset") {
        assert low[..6][0] == '*';
      } else {
        assert low[..9][0] == '*';
      }
    }
    assert low[..1] == "*";
    StarLineIsDirective(line);
  }

  /** The step the loop takes on line `m` when `m` starts with `*`. */
  lemma StepOnDirective(lines: seq<string>, m: nat)
    requires m < |lines| && IsDirective(lines[m])
    ensures StepAt(lines, m) in Scan(lines)
  {
    DirectiveStartsStep(lines, m);
    var s :| s in Scan(lines) && s.start == m;
    StepsAreStepAt(lines, 0);
  }

  /** `*Surface Section`, `*Surface Interaction` and the like, anywhere in
      the input: the loop stands on such a line, takes it as no surface
      line, and never reads it as a data line of a block, so it adds no
      surface name and opens no surface block. */
  lemma SurfaceWithBlankAddsNoName(lines: seq<string>, m: nat)
    requires m < |lines| && StartsWith(Lower(Strip(lines[m])), "*surface ")
    ensures forall s :: s in Scan(lines) ==> !(s.start < m < s.end)
    ensures StepAt(lines, m) in Scan(lines) && StepAt(lines, m).kind != SurfaceLine
  {
    var low := Lower(Strip(lines[m]));
    assert low[..9][0] == '*';
    assert low[..1] == "*";
    StarLineIsDirective(lines[m]);
    DirectiveStartsStep(lines, m);
    StepOnDirective(lines, m);
    SurfaceWithBlankIsNotBlock(lines[m]);
  }

  /** Every `*surface,` line of the input opens a block `parse_inp`
      returns: the line and the following lines up to the next `*` line. */
  lemma EverySurfaceLineOpensBlock(lines: seq<string>, m: nat)
    requires m < |lines| && Classify(lines[m]) == SurfaceLine
    ensures InRange(lines, Scan(lines))
    ensures lines[m..BlockEnd(lines, m + 1)] in SurfaceBlocks(lines, Scan(lines))
  {
    KeywordLineIsDirective(lines[m]);
    StepOnDirective(lines, m);
    BlocksAreSteps(lines, SurfaceLine);
  }

  /** Line `m` of the input is an `*elset` line naming `x`. */
  predicate NamesElset(lines: seq<string>, m: int, x: string) {
    0 <= m < |lines| && Classify(lines[m]) == ElsetLine && ElsetName(Strip(lines[m])) == Some(x)
  }

  /** Every `*elset` line of the input is one the loop stands on, so the
      name the pattern finds on it is returned. */
  lemma EveryElsetLineCounts(lines: seq<string>, m: nat, x: string)
    requires NamesElset(lines, m, x)
    ensures x in Dedup(ElsetsOf(lines, Scan(lines)))
  {
    KeywordLineIsDirective(lines[m]);
    StepOnDirective(lines, m);
    ElsetsResult(lines);
  }

  /** The returned element-set names, stated over the lines of the input:
      no name twice, and a name is in it exactly when some `*elset` line of
      the input gives it. */
  lemma ElsetsFromLines(lines: seq<string>)
    ensures var r := Dedup(ElsetsOf(lines, Scan(lines)));
            && NoDups(r)
            && forall x :: x in r <==> exists m :: NamesElset(lines, m, x)
  {
    var r := Dedup(ElsetsOf(lines, Scan(lines)));
    forall x
      ensures x in r <==> exists m :: NamesElset(lines, m, x)
    {
      if x in r {
        CountedElsetHasLine(lines, x);
      }
      if exists m :: NamesElset(lines, m, x) {
        var m :| NamesElset(lines, m, x);
        EveryElsetLineCounts(lines, m, x);
      }
    }
  }

  /** Every name in `elsets` was found on an `*elset` line of the input. */
  lemma CountedElsetHasLine(lines: seq<string>, x: string)
    requires x in Dedup(ElsetsOf(lines, Scan(lines)))
    ensures exists m :: NamesElset(lines, m, x)
  {
    var st := Scan(lines);
    assert x in ElsetsOf(lines, st);
    ElsetsOfMembers(lines, st);
    var s :| s in st && s.kind == ElsetLine && ElsetName(Strip(lines[s.start])) == Some(x);
    StepShape(lines, s);
    assert NamesElset(lines, s.start, x);
  }

  /** The de-duplicated `elsets` `parse_inp` returns: no name twice, and a
      name is in it exactly when an `*elset` line the loop stood on gives it. */
  lemma ElsetsResult(lines: seq<string>)
    ensures var r := Dedup(ElsetsOf(lines, Scan(lines)));
            && NoDups(r)
            && forall x :: x in r <==>
                 exists s :: s in Scan(lines) && s.kind == ElsetLine && ElsetName(Strip(lines[s.start])) == Some(x)
  {
    ElsetsOfMembers(lines, Scan(lines));
  }

  /** The de-duplicated `surf_names` `parse_inp` returns: no name twice, none
      empty, and a name is in it exactly when a data line of a surface block
      gives it. */
  lemma SurfNamesResult(lines: seq<string>)
    ensures var r := Dedup(SurfNamesOf(lines, Scan(lines)));
            && NoDups(r)
            && (forall x :: x in r ==> x != "")
            && forall x :: x in r <==> exists s :: s in Scan(lines) && SurfaceDataName(lines, s, x)
  {
    SurfNamesOfMembers(lines, Scan(lines));
  }
}
