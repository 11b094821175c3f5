/**
  The post-pass of `main` over the whole output text:
  `re.sub(r'\bS[1-4]\b', replace_surface, text)` with `replace_surface`
  looking the matched token up in `mapping` (S1 to S3, S2 to S4, S3 to S5,
  S4 to S6) and keeping it when it is missing there.

  `re.sub` scans left to right, replaces each match by the callback's result
  and resumes after the match in the ORIGINAL text, so a token it produced is
  never looked at again. `Substitute` is that scan; `Renumbered` is an
  independent, position-by-position description of its result.
 */
module SurfaceRenumber {
  import opened Text
  import opened Sequences

  /** `mapping` of `main`. */
  const Mapping: map<string, string> := map["S1" := "S3", "S2" := "S4", "S3" := "S5", "S4" := "S6"]

  /** `replace_surface`: `mapping.get(val, val)`. */
  function Replacement(val: string): string {
    if val in Mapping then Mapping[val] else val
  }

  /** `\b` at position `p`: exactly one of the characters on either side is
      a word character, the outside of the text counting as not one. */
  predicate Boundary(text: string, p: nat)
    requires p <= |text|
  {
    (p > 0 && IsWordChar(text[p - 1])) != (p < |text| && IsWordChar(text[p]))
  }

  /** `\bS[1-4]\b` matches at `p`. */
  predicate TokenAt(text: string, p: nat) {
    && p + 2 <= |text|
    && Boundary(text, p) && text[p] == 'S' && '1' <= text[p + 1] <= '4' && Boundary(text, p + 2)
  }

  /** `re.sub` from position `p`: at a match the callback's replacement and a
      resumption after the match, elsewhere the character kept. */
  function SubstituteFrom(text: string, p: nat): (r: string)
    requires p <= |text|
    ensures |r| == |text| - p
    decreases |text| - p
  {
    if p == |text| then []
    else if TokenAt(text, p) then Replacement(text[p..p + 2]) + SubstituteFrom(text, p + 2)
    else [text[p]] + SubstituteFrom(text, p + 1)
  }

  /** The text after the post-pass. */
  function Substitute(text: string): string {
    SubstituteFrom(text, 0)
  }

  /** The digit two higher: 1 to 3, 2 to 4, 3 to 5, 4 to 6. */
  function Bumped(d: char): char
    requires '1' <= d <= '4'
  {
    (d as int + 2) as char
  }

  /** Every matched token is in `mapping`, and its replacement is the same
      `S` with the digit two higher. */
  lemma ReplacementOfToken(text: string, p: nat)
    requires TokenAt(text, p)
    ensures Replacement(text[p..p + 2]) == ['S', Bumped(text[p + 1])]
  {
    var d := text[p + 1];
    assert text[p..p + 2] == ['S', d];
    if d == '1' {
      assert ['S', d] == "S1";
    } else if d == '2' {
      assert ['S', d] == "S2";
    } else if d == '3' {
      assert ['S', d] == "S3";
    } else {
      assert ['S', d] == "S4";
    }
  }

  /** The character at `k` of the substituted text: the digit two higher
      where `k` holds the digit of a token `S1`..`S4` standing as a whole
      word in the original text, the original character everywhere else. */
  function Renumbered(text: string, k: nat): char
    requires k < |text|
  {
    if k > 0 && TokenAt(text, k - 1) then Bumped(text[k]) else text[k]
  }

  /** `Renumbered` at every position of the text. */
  function Renumber(text: string): (r: string)
    ensures |r| == |text|
  {
    seq(|text|, k requires 0 <= k < |text| => Renumbered(text, k))
  }

  /** The scan from `p` gives the renumbered text from `p` on. */
  lemma {:induction false} SubstituteFromIsRenumbered(text: string, p: nat)
    requires p <= |text|
    requires p == 0 || !TokenAt(text, p - 1)
    ensures SubstituteFrom(text, p) == Renumber(text)[p..]
    decreases |text| - p
  {
    if p < |text| {
      if TokenAt(text, p) {
        assert !TokenAt(text, p + 1);
        SubstituteFromIsRenumbered(text, p + 2);
        TokenStep(text, p);
      } else {
        SubstituteFromIsRenumbered(text, p + 1);
        PlainStep(text, p);
      }
    }
  }

  /** At a match the scan emits the replacement and goes on after it. */
  lemma TokenStep(text: string, p: nat)
    requires TokenAt(text, p)
    requires p == 0 || !TokenAt(text, p - 1)
    requires SubstituteFrom(text, p + 2) == Renumber(text)[p + 2..]
    ensures SubstituteFrom(text, p) == Renumber(text)[p..]
  {
    TokenChars(text, p);
    RenumberAtToken(text, p);
  }

  /** The renumbered text at a token: `S`, the digit two higher, the rest. */
  lemma RenumberAtToken(text: string, p: nat)
    requires TokenAt(text, p)
    requires p == 0 || !TokenAt(text, p - 1)
    ensures Renumber(text)[p..] == ['S', Bumped(text[p + 1])] + Renumber(text)[p + 2..]
  {
    var r := Renumber(text);
    assert r[p] == 'S';
    assert r[p + 1] == Bumped(text[p + 1]);
    SuffixCons(r, p);
    SuffixCons(r, p + 1);
  }

  /** Elsewhere the scan keeps the character and goes on after it. */
  lemma PlainStep(text: string, p: nat)
    requires p < |text| && !TokenAt(text, p)
    requires p == 0 || !TokenAt(text, p - 1)
    requires SubstituteFrom(text, p + 1) == Renumber(text)[p + 1..]
    ensures SubstituteFrom(text, p) == Renumber(text)[p..]
  {
    var r := Renumber(text);
    assert r[p] == text[p];
    SuffixCons(r, p);
  }

  /** The post-pass keeps the length of the text and changes it exactly at
      the digits of the whole-word tokens `S1`..`S4` of the original text,
      each raised by two. */
  lemma SubstituteIsRenumbered(text: string)
    ensures |Substitute(text)| == |text|
    ensures forall k :: 0 <= k < |text| ==> Substitute(text)[k] == Renumbered(text, k)
  {
    SubstituteFromIsRenumbered(text, 0);
    assert Renumber(text)[0..] == Renumber(text);
  }

  /** Only the digit of a whole-word token `S1`..`S4` changes; the `S`, and
      every character outside such a token, is kept. */
  lemma SubstituteChangesOnlyDigits(text: string, k: nat)
    requires k < |text|
    ensures Substitute(text)[k] != text[k] <==> k > 0 && TokenAt(text, k - 1)
  {
    SubstituteIsRenumbered(text);
  }

  /** Each token of `mapping` on its own becomes its image. */
  lemma MappedTokens()
    ensures Substitute("S1") == "S3" && Substitute("S2") == "S4"
    ensures Substitute("S3") == "S5" && Substitute("S4") == "S6"
  {
    SubstituteIsRenumbered("S1");
    SubstituteIsRenumbered("S2");
    SubstituteIsRenumbered("S3");
    SubstituteIsRenumbered("S4");
    assert TokenAt("S1", 0) && TokenAt("S2", 0) && TokenAt("S3", 0) && TokenAt("S4", 0);
  }

  /** The post-pass does not cascade: the `S3` produced from `S1` stays as it
      is, while the `S3` of the original text becomes `S5`. */
  lemma NoCascade()
    ensures Substitute("S1 S3") == "S3 S5"
  {
    var t := "S1 S3";
    SubstituteIsRenumbered(t);
    assert TokenAt(t, 0) && TokenAt(t, 3);
    var r := Substitute(t);
    assert r[1] == '3' && r[4] == '5';
    assert r[0] == 'S' && r[2] == ' ' && r[3] == 'S';
  }

  /** Applying the post-pass twice would cascade: `S1` would become `S5`. */
  lemma TwiceCascades()
    ensures Substitute(Substitute("S1")) == "S5"
  {
    MappedTokens();
  }

  /** Only upper-case tokens with digits 1 to 4 are renumbered: `s1` and `S5`
      are left alone. */
  lemma NotTokens()
    ensures Substitute("s1") == "s1"
    ensures Substitute("S5") == "S5"
  {
    SubstituteIsRenumbered("s1");
    SubstituteIsRenumbered("S5");
  }

  /** Only whole words are renumbered: `S12`, `XS1` and `S1_` are left
      alone. */
  lemma NotWholeWords()
    ensures Substitute("S12") == "S12"
    ensures Substitute("XS1") == "XS1"
    ensures Substitute("S1_") == "S1_"
  {
    SubstituteIsRenumbered("S12");
    SubstituteIsRenumbered("XS1");
    SubstituteIsRenumbered("S1_");
  }

  /** Tokens inside Abaqus text are found between dashes, commas and line
      ends: `-S2,S4\n` becomes `-S4,S6\n`. */
  lemma TokensBetweenPunctuation()
    ensures Substitute("-S2,S4\n") == "-S4,S6\n"
  {
    var t := "-S2,S4\n";
    SubstituteIsRenumbered(t);
    assert TokenAt(t, 1) && TokenAt(t, 4);
    var r := Substitute(t);
    assert r[2] == '4' && r[5] == '6';
    assert r[0] == '-' && r[1] == 'S' && r[3] == ',' && r[4] == 'S' && r[6] == '\n';
  }

  /** At a match the scan writes `S` and the digit two higher. */
  lemma TokenChars(text: string, p: nat)
    requires TokenAt(text, p)
    ensures SubstituteFrom(text, p) == ['S', Bumped(text[p + 1])] + SubstituteFrom(text, p + 2)
  {
    ReplacementOfToken(text, p);
  }
}
