/**
  The element-set name lookup of `parse_inp`:
  `re.search(r'elset\s*=\s*([^,]+)', line, re.I)` followed by
  `m.group(1).strip()`. `GroupAt` is the attempt of the pattern at one
  position, giving the text from right after `=` to the next comma. That
  text holds the blanks that Python's greedy `\s*` after `=` would take
  instead, so it is not Python's `group(1)`; only its stripped form is the
  name Python returns, which is what `MatchGivesName` shows. `Search` is
  the leftmost-position scan of `re.search`. `PatternMatch` states the pattern
  as a relation on positions; the lemmas show that `GroupAt` succeeds
  exactly when the relation can be met and that the stripped group does not
  depend on how the engine shares the blanks after `=` between `\s*` and
  the group.
 */
module ElsetPattern {
  import opened Text

  datatype Option<T> = None | Some(value: T)

  /** The bounds `start..end` of the text after `=` up to the next comma:
      the captured group together with the blanks in front of it. */
  datatype Group = Group(start: nat, end: nat)

  /** The keyword of the pattern, matched without regard to letter case. */
  const Keyword: string := "elset"

  /** The pattern matched at `p`: the keyword at `p` in any letter case,
      blanks, `=` at `a`, blanks up to `b`, and the group `line[b..e]`: at
      least one character, none of them a comma. */
  ghost predicate PatternMatch(line: string, p: int, a: int, b: int, e: int) {
    && 0 <= p && p + |Keyword| <= a && a + 1 <= b < e <= |line|
    && Lower(line[p..p + |Keyword|]) == Keyword
    && SpacesBetween(line, p + |Keyword|, a) && line[a] == '='
    && SpacesBetween(line, a + 1, b)
    && forall m :: b <= m < e ==> line[m] != ','
  }

  /** The keyword occurs at `p`, compared character by character. */
  predicate KeywordAt(line: string, p: nat) {
    && p + |Keyword| <= |line|
    && LowerChar(line[p]) == Keyword[0] && LowerChar(line[p + 1]) == Keyword[1]
    && LowerChar(line[p + 2]) == Keyword[2] && LowerChar(line[p + 3]) == Keyword[3]
    && LowerChar(line[p + 4]) == Keyword[4]
  }

  /** `KeywordAt` compares the lower-cased text at `p` with the keyword. */
  lemma KeywordAtIsLower(line: string, p: nat)
    ensures KeywordAt(line, p) <==> p + |Keyword| <= |line| && Lower(line[p..p + |Keyword|]) == Keyword
  {
    if p + |Keyword| <= |line| {
      var w := Lower(line[p..p + |Keyword|]);
      assert w[0] == LowerChar(line[p]) && w[1] == LowerChar(line[p + 1]);
      assert w[2] == LowerChar(line[p + 2]) && w[3] == LowerChar(line[p + 3]);
      assert w[4] == LowerChar(line[p + 4]);
      if KeywordAt(line, p) {
        assert w == [w[0], w[1], w[2], w[3], w[4]];
      }
    }
  }

  /** The pattern tried at position `p` alone. `\s*` before `=` can only end
      at the first non-blank. The bounds returned run from right after `=`
      to the next comma, so they include the blanks that Python's `\s*`
      after `=` takes whenever a non-blank follows them; only the stripped
      text agrees with Python's group. The attempt fails when nothing at all
      stands between `=` and that comma. */
  function GroupAt(line: string, p: nat): (g: Option<Group>)
    ensures g.Some? ==> p + |Keyword| < g.value.start < g.value.end <= |line|
  {
    if KeywordAt(line, p) then
      var a := SkipSpaces(line, p + |Keyword|);
      if a < |line| && line[a] == '=' then
        var e := FieldEnd(line, a + 1);
        if a + 1 < e then Some(Group(a + 1, e)) else None
      else None
    else None
  }

  /** The stripped group of the attempt at `p`, if it succeeds. */
  function MatchAt(line: string, p: nat): Option<string> {
    match GroupAt(line, p)
    case Some(g) => Some(Strip(line[g.start..g.end]))
    case None => None
  }

  /** A successful attempt is a match of the pattern whose group starts right
      after `=` and runs to the next comma or the end of the line. */
  lemma GroupAtGivesPattern(line: string, p: nat)
    requires GroupAt(line, p).Some?
    ensures var g := GroupAt(line, p).value;
            && PatternMatch(line, p, g.start - 1, g.start, g.end)
            && (g.end == |line| || line[g.end] == ',')
  {
    KeywordAtIsLower(line, p);
    SkipSpacesStops(line, p + |Keyword|);
    FieldEndStops(line, SkipSpaces(line, p + |Keyword|) + 1);
  }

  /** Whenever the pattern matches at `p`, the attempt at `p` succeeds, with
      `=` at the same place and the group running at least to the match's
      end. */
  lemma GroupAtSucceeds(line: string, p: nat, a: int, b: int, e: int)
    requires PatternMatch(line, p, a, b, e)
    ensures GroupAt(line, p).Some?
    ensures GroupAt(line, p).value.start == a + 1 && GroupAt(line, p).value.end >= e
  {
    KeywordAtIsLower(line, p);
    SkipSpacesUnique(line, p + |Keyword|, a);
    NoCommaBeforeGroupEnd(line, a, b, e);
  }

  /** `GroupAt` succeeds exactly when the pattern can match at `p`. */
  lemma GroupAtIsPattern(line: string, p: nat)
    ensures GroupAt(line, p).Some? <==> exists a, b, e :: PatternMatch(line, p, a, b, e)
  {
    if GroupAt(line, p).Some? {
      GroupAtGivesPattern(line, p);
      var g := GroupAt(line, p).value;
      assert PatternMatch(line, p, g.start - 1, g.start, g.end);
    }
    forall a, b, e | PatternMatch(line, p, a, b, e)
      ensures GroupAt(line, p).Some?
    {
      GroupAtSucceeds(line, p, a, b, e);
    }
  }

  /** When the group of a match runs to the next comma (as the greedy
      `[^,]+` makes it), the stripped group is the name `MatchAt` gives,
      however the blanks after `=` are shared between `\s*` and the group. */
  lemma MatchGivesName(line: string, p: nat, a: int, b: int, e: int)
    requires PatternMatch(line, p, a, b, e)
    requires e == |line| || line[e] == ','
    ensures MatchAt(line, p) == Some(Strip(line[b..e]))
  {
    GroupAtSucceeds(line, p, a, b, e);
    GroupAfterBlanks(line, a, b, e);
  }

  /** In a match, no comma stands between `=` and the end of the group. */
  lemma NoCommaBeforeGroupEnd(line: string, a: nat, b: nat, e: nat)
    requires a + 1 <= b < e <= |line|
    requires SpacesBetween(line, a + 1, b)
    requires forall m :: b <= m < e ==> line[m] != ','
    ensures FieldEnd(line, a + 1) >= e
  {
    FieldEndStops(line, a + 1);
    var e' := FieldEnd(line, a + 1);
    assert e' < b ==> IsSpace(line[e']);
  }

  /** When the group ends at the next comma, stripping the text after `=`
      gives the stripped group. */
  lemma GroupAfterBlanks(line: string, a: nat, b: nat, e: nat)
    requires a + 1 <= b < e <= |line|
    requires SpacesBetween(line, a + 1, b)
    requires FieldEnd(line, a + 1) >= e
    requires e == |line| || line[e] == ','
    ensures FieldEnd(line, a + 1) == e
    ensures Strip(line[a + 1..e]) == Strip(line[b..e])
  {
    FieldEndStops(line, a + 1);
    var w := line[a + 1..b];
    assert AllSpace(w) by {
      assert forall k :: 0 <= k < |w| ==> w[k] == line[a + 1 + k];
    }
    assert line[a + 1..e] == w + line[b..e];
    StripAfterSpaces(w, line[b..e]);
  }

  /** The leftmost position at or after `p` where the pattern matches, or
      the end of the line when it matches nowhere after `p`. */
  function FirstMatch(line: string, p: nat): (q: nat)
    requires p <= |line|
    ensures p <= q <= |line|
    ensures forall q' :: p <= q' < q ==> GroupAt(line, q').None?
    ensures q == |line| || GroupAt(line, q).Some?
    decreases |line| - p
  {
    if p == |line| || GroupAt(line, p).Some? then p else FirstMatch(line, p + 1)
  }

  /** `re.search` from `p`: the stripped group of the attempt at the leftmost
      position where it succeeds; `None` exactly when it succeeds nowhere. */
  function Search(line: string, p: nat): (r: Option<string>)
    requires p <= |line|
    ensures r.None? <==> forall q :: p <= q <= |line| ==> GroupAt(line, q).None?
  {
    MatchAt(line, FirstMatch(line, p))
  }

  /** The name an `*elset` line contributes, if any: `m.group(1).strip()`
      when `m` is not `None`. */
  function ElsetName(line: string): Option<string> {
    Search(line, 0)
  }

  /** `ElsetName` finds a name exactly when the pattern matches somewhere in
      the line. */
  lemma ElsetNameIffMatch(line: string)
    ensures ElsetName(line).Some? <==> exists p, a, b, e :: PatternMatch(line, p, a, b, e)
  {
    if ElsetName(line).Some? {
      var p := FirstMatch(line, 0);
      GroupAtGivesPattern(line, p);
      var g := GroupAt(line, p).value;
      assert PatternMatch(line, p, g.start - 1, g.start, g.end);
    }
    if exists p, a, b, e :: PatternMatch(line, p, a, b, e) {
      var p, a, b, e :| PatternMatch(line, p, a, b, e);
      GroupAtSucceeds(line, p, a, b, e);
    }
  }

  /** The position of the leftmost match is the one `FirstMatch` finds. */
  lemma FirstMatchIsLeftmost(line: string, p: nat)
    requires p <= |line| && GroupAt(line, p).Some?
    requires forall q :: 0 <= q < p ==> GroupAt(line, q).None?
    ensures FirstMatch(line, 0) == p
  {
  }

  /** At the leftmost position where the pattern matches, with the group
      running to the next comma as the greedy `[^,]+` makes it, the stripped
      group is the name `ElsetName` finds. */
  lemma ElsetNameIsLeftmostMatch(line: string, p: nat, a: int, b: int, e: int)
    requires PatternMatch(line, p, a, b, e)
    requires e == |line| || line[e] == ','
    requires forall q, a', b', e' :: 0 <= q < p ==> !PatternMatch(line, q, a', b', e')
    ensures ElsetName(line) == Some(Strip(line[b..e]))
  {
    forall q | 0 <= q < p
      ensures GroupAt(line, q).None?
    {
      GroupAtIsPattern(line, q);
    }
    MatchGivesName(line, p, a, b, e);
    GroupAtSucceeds(line, p, a, b, e);
    FirstMatchIsLeftmost(line, p);
  }

  /** Blanks alone after `=` still form the group: the regex gives them up
      from `\s*` so that `[^,]+` matches them, and the name is empty. */
  lemma BlankElsetName()
    ensures ElsetName("*elset, elset= ,x") == Some("")
  {
    var t := "*elset, elset= ,x";
    NoGroupBeforeSecondKeyword();
    GroupAtSecondKeyword();
    FirstMatchIsLeftmost(t, 8);
    StripAllSpace(t[14..15]);
  }

  /** In that line the keyword of `*elset` itself is followed by a comma,
      so no attempt before the attribute succeeds. */
  lemma NoGroupBeforeSecondKeyword()
    ensures forall q :: 0 <= q < 8 ==> GroupAt("*elset, elset= ,x", q).None?
  {
    var t := "*elset, elset= ,x";
    assert SkipSpaces(t, 6) == 6;
    assert !KeywordAt(t, 0) && !KeywordAt(t, 2) && !KeywordAt(t, 3) && !KeywordAt(t, 4);
    assert !KeywordAt(t, 5) && !KeywordAt(t, 6) && !KeywordAt(t, 7);
  }

  /** The attempt at the attribute captures the single blank after `=`. */
  lemma GroupAtSecondKeyword()
    ensures GroupAt("*elset, elset= ,x", 8) == Some(Group(14, 15))
  {
    var t := "*elset, elset= ,x";
    assert KeywordAt(t, 8);
    assert SkipSpaces(t, 13) == 13;
    assert FieldEnd(t, 14) == 15;
  }
}
