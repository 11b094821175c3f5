/**
  The `element_sets.inc` text `main` writes: the element-set names one per
  line, a separator line, the surface names one per line, a separator line,
  then every surface block followed by a separator line and every embed
  block followed by a separator line. Block lines are written verbatim, so
  they keep the line ends they were read with.

  `OutputLines` is the list of pieces in the order they are written and
  `Render` their concatenation, the text of the file. `WriteOutput` is the
  sequence of writes. The round trip: splitting the text back into lines
  gives exactly the pieces, as long as no name holds a line feed and every
  block line ends with exactly one.
 */
module Layout {
  import opened Text
  import opened Sequences

  /** The marker line written after each section and each block: two
      asterisks (an Abaqus comment) and seventy dashes. */
  const Separator: string := "**" + Dashes(70) + "\n"

  /** `n` dashes. */
  function Dashes(n: nat): (r: string)
    ensures |r| == n && forall q :: 0 <= q < n ==> r[q] == '-'
  {
    if n == 0 then [] else Dashes(n - 1) + "-"
  }

  /** A text ends with a line feed and holds no other one: one line as
      `readlines` gives it. */
  predicate IsLine(l: string) {
    |l| > 0 && l[|l| - 1] == '\n' && '\n' !in l[..|l| - 1]
  }

  /** A text without line feed, with one appended, is a line. */
  lemma LineOfText(x: string)
    requires '\n' !in x
    ensures IsLine(x + "\n")
  {
    assert (x + "\n")[..|x|] == x;
  }

  /** The separator is a line. */
  lemma SeparatorIsLine()
    ensures IsLine(Separator)
  {
    var body := "**" + Dashes(70);
    assert forall q :: 0 <= q < |body| ==> body[q] == '*' || body[q] == '-';
    LineOfText(body);
  }

  /** The pieces joined in order. */
  function Concat(pieces: seq<string>): string {
    if pieces == [] then [] else Concat(pieces[..|pieces| - 1]) + pieces[|pieces| - 1]
  }

  /** `name + "\n"` for each name, in order. */
  function NameLines(names: seq<string>): (r: seq<string>)
    ensures |r| == |names|
    ensures forall k :: 0 <= k < |r| ==> r[k] == names[k] + "\n"
  {
    seq(|names|, k requires 0 <= k < |names| => names[k] + "\n")
  }

  /** `writelines(block)` and a separator, for each block in order. */
  function BlockLines(blocks: seq<seq<string>>): seq<string> {
    if blocks == [] then []
    else BlockLines(blocks[..|blocks| - 1]) + blocks[|blocks| - 1] + [Separator]
  }

  /** Every piece written to the output file, in order. */
  function OutputLines(elsets: seq<string>, surfNames: seq<string>,
                       surfaces: seq<seq<string>>, embeds: seq<seq<string>>): seq<string> {
    NameLines(elsets) + [Separator] + NameLines(surfNames) + [Separator] + BlockLines(surfaces) + BlockLines(embeds)
  }

  /** The text of the output file before the substitution. */
  function Render(elsets: seq<string>, surfNames: seq<string>,
                  surfaces: seq<seq<string>>, embeds: seq<seq<string>>): string {
    Concat(OutputLines(elsets, surfNames, surfaces, embeds))
  }

  /** The length of the first line of `t`, its line feed included; all of
      `t` when it has none. */
  function LineLength(t: string): (k: nat)
    ensures k <= |t|
    ensures t != [] ==> k > 0
    decreases |t|
  {
    if t == [] then 0
    else if t[0] == '\n' then 1
    else 1 + LineLength(t[1..])
  }

  /** `splitlines(keepends=True)` on line feeds: the lines of `t`, each with
      its line feed, the last one without when `t` does not end with one. */
  function SplitLines(t: string): seq<string>
    decreases |t|
  {
    if t == [] then [] else
      var k := LineLength(t);
      [t[..k]] + SplitLines(t[k..])
  }

  /** The first line of a line followed by any text is that line. */
  lemma {:induction false} LineLengthOfLine(l: string, rest: string)
    requires IsLine(l)
    ensures LineLength(l + rest) == |l|
    decreases |l|
  {
    var t := l + rest;
    if |l| == 1 {
      assert t[0] == '\n';
    } else {
      assert l[0] in l[..|l| - 1];
      assert t[0] != '\n';
      assert IsLine(l[1..]) by {
        assert l[1..][..|l| - 2] == l[1..|l| - 1];
        assert l[1..|l| - 1] == l[..|l| - 1][1..];
      }
      LineLengthOfLine(l[1..], rest);
      assert t[1..] == l[1..] + rest;
    }
  }

  /** Splitting a line followed by any text gives that line, then the lines
      of the text. */
  lemma SplitLinesCons(l: string, rest: string)
    requires IsLine(l)
    ensures SplitLines(l + rest) == [l] + SplitLines(rest)
  {
    LineLengthOfLine(l, rest);
    var t := l + rest;
    assert t[..|l|] == l;
    assert t[|l|..] == rest;
  }

  /** Joining lines and splitting the text again gives the lines back. */
  lemma {:induction false} SplitConcat(pieces: seq<string>)
    requires forall k :: 0 <= k < |pieces| ==> IsLine(pieces[k])
    ensures SplitLines(Concat(pieces)) == pieces
    decreases |pieces|
  {
    if pieces != [] {
      var tail := pieces[1..];
      ConcatCons(pieces[0], tail);
      assert pieces == [pieces[0]] + tail;
      SplitConcat(tail);
      SplitLinesCons(pieces[0], Concat(tail));
    }
  }

  /** `Concat` of a list with a first element. */
  lemma ConcatCons(p: string, tail: seq<string>)
    ensures Concat([p] + tail) == p + Concat(tail)
  {
    ConcatAppend([p], tail);
    assert Concat([p]) == Concat([]) + p;
  }

  /** `Concat` turns joining lists into joining texts. */
  lemma {:induction false} ConcatAppend(a: seq<string>, b: seq<string>)
    ensures Concat(a + b) == Concat(a) + Concat(b)
    decreases |b|
  {
    if b != [] {
      var init := b[..|b| - 1];
      assert (a + b)[..|a + b| - 1] == a + init;
      ConcatAppend(a, init);
    } else {
      assert a + b == a;
    }
  }

  /** Every piece is a line when the names hold no line feed and every block
      line is a line. */
  lemma OutputIsLines(elsets: seq<string>, surfNames: seq<string>,
                      surfaces: seq<seq<string>>, embeds: seq<seq<string>>)
    requires forall x :: x in elsets ==> '\n' !in x
    requires forall x :: x in surfNames ==> '\n' !in x
    requires forall b, l :: b in surfaces && l in b ==> IsLine(l)
    requires forall b, l :: b in embeds && l in b ==> IsLine(l)
    ensures forall l :: l in OutputLines(elsets, surfNames, surfaces, embeds) ==> IsLine(l)
  {
    NameLinesAreLines(elsets);
    NameLinesAreLines(surfNames);
    BlockLinesAreLines(surfaces);
    BlockLinesAreLines(embeds);
    SeparatorIsLine();
  }

  lemma NameLinesAreLines(names: seq<string>)
    requires forall x :: x in names ==> '\n' !in x
    ensures forall l :: l in NameLines(names) ==> IsLine(l)
  {
    forall k | 0 <= k < |names|
      ensures IsLine(names[k] + "\n")
    {
      LineOfText(names[k]);
    }
  }

  lemma {:induction false} BlockLinesAreLines(blocks: seq<seq<string>>)
    requires forall b, l :: b in blocks && l in b ==> IsLine(l)
    ensures forall l :: l in BlockLines(blocks) ==> IsLine(l)
    decreases |blocks|
  {
    if blocks != [] {
      var init := blocks[..|blocks| - 1];
      assert forall b :: b in init ==> b in blocks;
      BlockLinesAreLines(init);
      assert blocks[|blocks| - 1] in blocks;
      SeparatorIsLine();
    }
  }

  /** The round trip of the layout: reading the file written from lists
      whose names hold no line feed and whose block lines each end with one
      gives back, line by line, the names with their line feeds, the
      separators and the block lines, in the order they were written. */
  lemma RenderSplits(elsets: seq<string>, surfNames: seq<string>,
                     surfaces: seq<seq<string>>, embeds: seq<seq<string>>)
    requires forall x :: x in elsets ==> '\n' !in x
    requires forall x :: x in surfNames ==> '\n' !in x
    requires forall b, l :: b in surfaces && l in b ==> IsLine(l)
    requires forall b, l :: b in embeds && l in b ==> IsLine(l)
    ensures SplitLines(Render(elsets, surfNames, surfaces, embeds)) == OutputLines(elsets, surfNames, surfaces, embeds)
  {
    var out := OutputLines(elsets, surfNames, surfaces, embeds);
    OutputIsLines(elsets, surfNames, surfaces, embeds);
    assert forall k :: 0 <= k < |out| ==> out[k] in out;
    SplitConcat(out);
  }

  /** The layout in full: the names of each list with their line feeds and
      a separator after each list, then each surface block and a separator,
      then each embed block and a separator, and nothing else. */
  lemma LayoutShape(elsets: seq<string>, surfNames: seq<string>,
                    surfaces: seq<seq<string>>, embeds: seq<seq<string>>)
    ensures var out := OutputLines(elsets, surfNames, surfaces, embeds);
            var n := |elsets|;
            var m := |surfNames|;
            && |out| == n + m + 2 + BlocksSize(surfaces) + BlocksSize(embeds)
            && (forall k :: 0 <= k < n ==> out[k] == elsets[k] + "\n")
            && out[n] == Separator
            && (forall k :: 0 <= k < m ==> out[n + 1 + k] == surfNames[k] + "\n")
            && out[n + 1 + m] == Separator
            && out[n + m + 2..] == BlockLines(surfaces) + BlockLines(embeds)
  {
    BlockLinesSize(surfaces);
    BlockLinesSize(embeds);
    var head := NameLines(elsets) + [Separator] + NameLines(surfNames) + [Separator];
    var tail := BlockLines(surfaces) + BlockLines(embeds);
    HeadShape(elsets, surfNames);
    AppendAssoc(head, BlockLines(surfaces), BlockLines(embeds));
    assert OutputLines(elsets, surfNames, surfaces, embeds) == head + tail;
    assert (head + tail)[|head|..] == tail;
  }

  /** The two name sections, each closed by a separator. */
  lemma HeadShape(elsets: seq<string>, surfNames: seq<string>)
    ensures var head := NameLines(elsets) + [Separator] + NameLines(surfNames) + [Separator];
            var n := |elsets|;
            var m := |surfNames|;
            && |head| == n + m + 2
            && (forall k :: 0 <= k < n ==> head[k] == elsets[k] + "\n")
            && head[n] == Separator
            && (forall k :: 0 <= k < m ==> head[n + 1 + k] == surfNames[k] + "\n")
            && head[n + 1 + m] == Separator
  {
    var n := |elsets|;
    var front := NameLines(elsets) + [Separator];
    var head := front + NameLines(surfNames) + [Separator];
    assert forall k :: 0 <= k < |surfNames| ==> head[n + 1 + k] == NameLines(surfNames)[k];
  }

  /** The number of pieces the blocks take: their lines and one separator
      each. */
  function BlocksSize(blocks: seq<seq<string>>): nat {
    if blocks == [] then 0 else BlocksSize(blocks[..|blocks| - 1]) + |blocks[|blocks| - 1]| + 1
  }

  lemma {:induction false} BlockLinesSize(blocks: seq<seq<string>>)
    ensures |BlockLines(blocks)| == BlocksSize(blocks)
    decreases |blocks|
  {
    if blocks != [] {
      BlockLinesSize(blocks[..|blocks| - 1]);
    }
  }

  /** Each block, followed by its separator, sits in the written pieces
      right after the blocks before it. */
  lemma {:induction false} BlockLinesAt(blocks: seq<seq<string>>, q: nat)
    requires q < |blocks|
    ensures var off := BlocksSize(blocks[..q]);
            var b := blocks[q];
            && off + |b| < |BlockLines(blocks)|
            && BlockLines(blocks)[off..off + |b|] == b
            && BlockLines(blocks)[off + |b|] == Separator
    decreases |blocks|
  {
    var init := blocks[..|blocks| - 1];
    BlockLinesSize(blocks);
    BlockLinesSize(init);
    if q < |blocks| - 1 {
      BlockLinesAt(init, q);
      assert init[..q] == blocks[..q];
      assert init[q] == blocks[q];
      var off := BlocksSize(blocks[..q]);
      var b := blocks[q];
      var whole := BlockLines(init) + blocks[|blocks| - 1] + [Separator];
      assert whole == BlockLines(init) + (blocks[|blocks| - 1] + [Separator]);
      assert whole[off..off + |b|] == BlockLines(init)[off..off + |b|];
    } else {
      assert init == blocks[..q];
    }
  }

  /** A block whose last line has no line feed (the last line of a file
      that does not end with one) runs into the separator written after it:
      that line and the separator read back as a single line. */
  lemma SeparatorJoinsUnterminatedLine(block: seq<string>, x: string)
    requires '\n' !in x
    ensures Concat(BlockLines([block + [x]])) == Concat(block) + (x + Separator)
    ensures SplitLines(x + Separator) == [x + Separator]
  {
    assert BlockLines([block + [x]]) == block + [x] + [Separator];
    ConcatAppend(block + [x], [Separator]);
    ConcatAppend(block, [x]);
    ConcatOne(x);
    ConcatOne(Separator);
    AppendAssoc(Concat(block), x, Separator);
    TextBeforeSeparatorIsLine(x);
    SplitLinesCons(x + Separator, []);
    assert (x + Separator) + [] == x + Separator;
  }

  lemma ConcatOne(p: string)
    ensures Concat([p]) == p
  {
    assert Concat([p]) == Concat([]) + p;
  }

  /** A text without line feed followed by the separator is one line. */
  lemma TextBeforeSeparatorIsLine(x: string)
    requires '\n' !in x
    ensures IsLine(x + Separator)
  {
    var body := "**" + Dashes(70);
    assert '\n' !in body by {
      assert forall q :: 0 <= q < |body| ==> body[q] == '*' || body[q] == '-';
    }
    assert x + Separator == (x + body) + "\n";
    assert '\n' !in x + body;
    LineOfText(x + body);
  }

  /** The writes of `main`, in order: each element-set name with a line feed,
      a separator, each surface name with a line feed, a separator, then each
      surface block and each embed block, each followed by a separator. */
  method WriteOutput(elsets: seq<string>, surfNames: seq<string>,
                     surfaces: seq<seq<string>>, embeds: seq<seq<string>>)
    returns (out: string)
    ensures out == Render(elsets, surfNames, surfaces, embeds)
  {
    ghost var written: seq<string> := [];
    out := [];
    written, out := WriteNames(written, out, elsets);
    written, out := Write(written, out, Separator);
    written, out := WriteNames(written, out, surfNames);
    written, out := Write(written, out, Separator);
    written, out := WriteBlocks(written, out, surfaces);
    written, out := WriteBlocks(written, out, embeds);
    assert [] + NameLines(elsets) == NameLines(elsets);
  }

  /** `for name in names: out.write(name + "\n")`. */
  method WriteNames(ghost written: seq<string>, out: string, names: seq<string>)
    returns (ghost written': seq<string>, out': string)
    requires out == Concat(written)
    ensures written' == written + NameLines(names) && out' == Concat(written')
    ensures out' == out + Concat(NameLines(names))
  {
    written', out' := written, out;
    for k := 0 to |names|
      invariant written' == written + NameLines(names[..k]) && out' == Concat(written')
    {
      NameLinesSnoc(names, k);
      AppendAssoc(written, NameLines(names[..k]), [names[k] + "\n"]);
      written', out' := Write(written', out', names[k] + "\n");
    }
    assert names[..|names|] == names;
    ConcatAppend(written, NameLines(names));
  }

  /** `for block in blocks: out.writelines(block); out.write(separator)`. */
  method WriteBlocks(ghost written: seq<string>, out: string, blocks: seq<seq<string>>)
    returns (ghost written': seq<string>, out': string)
    requires out == Concat(written)
    ensures written' == written + BlockLines(blocks) && out' == Concat(written')
    ensures out' == out + Concat(BlockLines(blocks))
  {
    written', out' := written, out;
    for q := 0 to |blocks|
      invariant written' == written + BlockLines(blocks[..q]) && out' == Concat(written')
    {
      BlockLinesSnoc(blocks, q);
      AppendAssoc(written, BlockLines(blocks[..q]), blocks[q] + [Separator]);
      AppendAssoc(written + BlockLines(blocks[..q]), blocks[q], [Separator]);
      written', out' := WriteBlock(written', out', blocks[q]);
    }
    assert blocks[..|blocks|] == blocks;
    ConcatAppend(written, BlockLines(blocks));
  }

  lemma NameLinesSnoc(names: seq<string>, k: nat)
    requires k < |names|
    ensures NameLines(names[..k + 1]) == NameLines(names[..k]) + [names[k] + "\n"]
  {
  }

  lemma BlockLinesSnoc(blocks: seq<seq<string>>, q: nat)
    requires q < |blocks|
    ensures BlockLines(blocks[..q + 1]) == BlockLines(blocks[..q]) + (blocks[q] + [Separator])
  {
    assert blocks[..q + 1][..q] == blocks[..q];
    AppendAssoc(BlockLines(blocks[..q]), blocks[q], [Separator]);
  }

  /** `out.write(piece)`. */
  method Write(ghost written: seq<string>, out: string, piece: string)
    returns (ghost written': seq<string>, out': string)
    requires out == Concat(written)
    ensures written' == written + [piece] && out' == Concat(written')
    ensures out' == out + piece
  {
    written' := written + [piece];
    out' := out + piece;
    assert written'[..|written'| - 1] == written;
  }

  /** `out.writelines(block)` followed by a separator. */
  method WriteBlock(ghost written: seq<string>, out: string, block: seq<string>)
    returns (ghost written': seq<string>, out': string)
    requires out == Concat(written)
    ensures written' == written + block + [Separator] && out' == Concat(written')
    ensures out' == out + Concat(block + [Separator])
  {
    written' := written;
    out' := out;
    for k := 0 to |block|
      invariant written' == written + block[..k] && out' == Concat(written')
    {
      assert block[..k + 1] == block[..k] + [block[k]];
      AppendAssoc(written, block[..k], [block[k]]);
      written', out' := Write(written', out', block[k]);
    }
    assert block[..|block|] == block;
    written', out' := Write(written', out', Separator);
    AppendAssoc(written, block, [Separator]);
    ConcatAppend(written, block + [Separator]);
  }
}
