/**
  ASCII models of the Python string operations the extractor relies on:
  `str.strip` and `str.lstrip`, `str.lower`, `str.startswith`, the `in`
  substring test, `split(',')[0]`, and the character classes behind the
  regular-expression escapes `\s` and `\b`. Stripping is computed through
  two positions: where leading whitespace ends (`SkipSpaces`) and where
  trailing whitespace begins (`TrimEnd`).
 */
module Text {
  import opened Sequences

  /** `str.isspace` (and the regex class `\s`) on ASCII: space, tab, line
      feed, vertical tab, form feed, carriage return and the four
      information separators 0x1C..0x1F. */
  predicate IsSpace(c: char) {
    c == ' ' || ('\t' <= c <= '\r') || ('\U{1C}' <= c <= '\U{1F}')
  }

  /** The regex class `\w` on ASCII: letters, digits and the underscore. */
  predicate IsWordChar(c: char) {
    ('a' <= c <= 'z') || ('A' <= c <= 'Z') || ('0' <= c <= '9') || c == '_'
  }

  /** Every character of `s` at positions `i..j` is whitespace. */
  predicate SpacesBetween(s: string, i: int, j: int) {
    forall k :: i <= k < j && 0 <= k < |s| ==> IsSpace(s[k])
  }

  /** `s` is made of whitespace only. */
  predicate AllSpace(s: string) {
    SpacesBetween(s, 0, |s|)
  }

  /** The first position at or after `k` that does not hold whitespace, or
      the end of `s`. */
  function SkipSpaces(s: string, k: nat): (e: nat)
    requires k <= |s|
    ensures k <= e <= |s|
    decreases |s| - k
  {
    if k < |s| && IsSpace(s[k]) then SkipSpaces(s, k + 1) else k
  }

  /** `SkipSpaces` passes over whitespace only and stops at the end or at a
      character that is not whitespace. */
  lemma {:induction false} SkipSpacesStops(s: string, k: nat)
    requires k <= |s|
    ensures SpacesBetween(s, k, SkipSpaces(s, k))
    ensures SkipSpaces(s, k) == |s| || !IsSpace(s[SkipSpaces(s, k)])
    decreases |s| - k
  {
    if k < |s| && IsSpace(s[k]) {
      SkipSpacesStops(s, k + 1);
    }
  }

  /** The position after the last character of `s[k..e]` that is not
      whitespace, or `k` when there is none. */
  function TrimEnd(s: string, k: nat, e: nat): (r: nat)
    requires k <= e <= |s|
    ensures k <= r <= e
    decreases e
  {
    if k < e && IsSpace(s[e - 1]) then TrimEnd(s, k, e - 1) else e
  }

  /** `TrimEnd` passes back over whitespace only and stops at `k` or after a
      character that is not whitespace. */
  lemma {:induction false} TrimEndStops(s: string, k: nat, e: nat)
    requires k <= e <= |s|
    ensures SpacesBetween(s, TrimEnd(s, k, e), e)
    ensures TrimEnd(s, k, e) == k || !IsSpace(s[TrimEnd(s, k, e) - 1])
    decreases e
  {
    if k < e && IsSpace(s[e - 1]) {
      TrimEndStops(s, k, e - 1);
    }
  }

  /** `SkipSpaces` is the only position with its two properties. */
  lemma SkipSpacesUnique(s: string, k: nat, e: nat)
    requires k <= e <= |s|
    requires SpacesBetween(s, k, e)
    requires e == |s| || !IsSpace(s[e])
    ensures SkipSpaces(s, k) == e
  {
    SkipSpacesStops(s, k);
    var e' := SkipSpaces(s, k);
    assert e' <= e by {
      assert e < |s| ==> !IsSpace(s[e]);
    }
    assert e <= e' by {
      assert e' < |s| ==> !IsSpace(s[e']);
    }
  }

  /** `TrimEnd` is the only position with its two properties. */
  lemma TrimEndUnique(s: string, k: nat, e: nat, r: nat)
    requires k <= r <= e <= |s|
    requires SpacesBetween(s, r, e)
    requires r == k || !IsSpace(s[r - 1])
    ensures TrimEnd(s, k, e) == r
  {
    TrimEndStops(s, k, e);
    var r' := TrimEnd(s, k, e);
    assert r' <= r by {
      assert r > k ==> !IsSpace(s[r - 1]);
    }
    assert r <= r' by {
      assert r' > k ==> !IsSpace(s[r' - 1]);
    }
  }

  /** `s.lstrip()`. */
  function LStrip(s: string): string {
    s[SkipSpaces(s, 0)..]
  }

  /** `s.strip()`. */
  function Strip(s: string): string {
    var a := SkipSpaces(s, 0);
    s[a..TrimEnd(s, a, |s|)]
  }

  /** `Strip` removes exactly the whitespace at both ends: its result is a
      slice of `s` with only whitespace around it, which is empty or starts
      and ends with a character that is not whitespace. */
  lemma StripIsTrim(s: string)
    ensures var a := SkipSpaces(s, 0);
            var b := TrimEnd(s, a, |s|);
            && Strip(s) == s[a..b]
            && AllSpace(s[..a]) && AllSpace(s[b..])
            && (Strip(s) == [] || (!IsSpace(Strip(s)[0]) && !IsSpace(Strip(s)[|Strip(s)| - 1])))
  {
    var a := SkipSpaces(s, 0);
    var b := TrimEnd(s, a, |s|);
    SkipSpacesStops(s, 0);
    TrimEndStops(s, a, |s|);
    assert forall k :: 0 <= k < a ==> s[..a][k] == s[k];
    assert forall k :: 0 <= k < |s| - b ==> s[b..][k] == s[b + k];
  }

  /** Whitespace in front of a text does not change its stripped form. */
  lemma StripAfterSpaces(w: string, x: string)
    requires AllSpace(w)
    ensures Strip(w + x) == Strip(x)
  {
    var a := SkipSpaces(x, 0);
    var b := TrimEnd(x, a, |x|);
    SkipSpacesAfterSpaces(w, x);
    TrimEndAfterPrefix(w, x, a);
    SliceAfterPrefix(w, x, a, b);
  }

  lemma SkipSpacesAfterSpaces(w: string, x: string)
    requires AllSpace(w)
    ensures SkipSpaces(w + x, 0) == |w| + SkipSpaces(x, 0)
  {
    var t := w + x;
    var n := |w|;
    var a := SkipSpaces(x, 0);
    SkipSpacesStops(x, 0);
    forall k | 0 <= k < n + a
      ensures IsSpace(t[k])
    {
      if k < n {
        assert t[k] == w[k];
      } else {
        assert t[k] == x[k - n];
      }
    }
    assert n + a == |t| || t[n + a] == x[a];
    SkipSpacesUnique(t, 0, n + a);
  }

  lemma TrimEndAfterPrefix(w: string, x: string, a: nat)
    requires a <= |x|
    ensures TrimEnd(w + x, |w| + a, |w| + |x|) == |w| + TrimEnd(x, a, |x|)
  {
    var t := w + x;
    var n := |w|;
    var b := TrimEnd(x, a, |x|);
    TrimEndStops(x, a, |x|);
    forall k | n + b <= k < |t|
      ensures IsSpace(t[k])
    {
      assert t[k] == x[k - n];
    }
    assert n + b == n + a || t[n + b - 1] == x[b - 1];
    TrimEndUnique(t, n + a, |t|, n + b);
  }

  /** A text of whitespace only strips to the empty text. */
  lemma StripAllSpace(s: string)
    requires AllSpace(s)
    ensures Strip(s) == []
  {
    SkipSpacesUnique(s, 0, |s|);
  }

  /** ASCII `str.lower` on one character. */
  function LowerChar(c: char): (r: char)
    ensures 'A' <= c <= 'Z' ==> 'a' <= r <= 'z' && r as int - 'a' as int == c as int - 'A' as int
    ensures !('A' <= c <= 'Z') ==> r == c
  {
    if 'A' <= c <= 'Z' then (c as int - 'A' as int + 'a' as int) as char else c
  }

  /** ASCII `str.lower`: every letter lower-cased, every position kept. */
  function Lower(s: string): string {
    seq(|s|, k requires 0 <= k < |s| => LowerChar(s[k]))
  }

  /** `s.startswith(p)`. */
  predicate StartsWith(s: string, p: string) {
    |p| <= |s| && s[..|p|] == p
  }

  /** `p in s`: `p` occurs in `s` at some position. */
  predicate Contains(s: string, p: string)
    decreases |s|
  {
    StartsWith(s, p) || (s != [] && Contains(s[1..], p))
  }

  /** `p` occurs in `s` starting at position `k`. */
  predicate OccursAt(s: string, p: string, k: int) {
    0 <= k <= |s| - |p| && s[k..k + |p|] == p
  }

  /** `Contains` is the substring test: it holds exactly when `p` occurs in
      `s` at some position. */
  lemma {:induction false} ContainsIsSubstring(s: string, p: string)
    ensures Contains(s, p) <==> exists k :: OccursAt(s, p, k)
    decreases |s|
  {
    if StartsWith(s, p) {
      assert OccursAt(s, p, 0);
    } else if s != [] {
      ContainsIsSubstring(s[1..], p);
      if Contains(s[1..], p) {
        var k :| OccursAt(s[1..], p, k);
        assert s[k + 1..k + 1 + |p|] == s[1..][k..k + |p|];
        assert OccursAt(s, p, k + 1);
      }
      if exists k :: OccursAt(s, p, k) {
        var k :| OccursAt(s, p, k);
        assert k != 0;
        assert s[1..][k - 1..k - 1 + |p|] == s[k..k + |p|];
        assert OccursAt(s[1..], p, k - 1);
      }
    }
  }

  /** The first comma at or after `k`, or the end of `s`. */
  function FieldEnd(s: string, k: nat): (e: nat)
    requires k <= |s|
    ensures k <= e <= |s|
    decreases |s| - k
  {
    if k < |s| && s[k] != ',' then FieldEnd(s, k + 1) else k
  }

  /** `FieldEnd` passes over no comma and stops at the end or at a comma. */
  lemma {:induction false} FieldEndStops(s: string, k: nat)
    requires k <= |s|
    ensures forall m :: k <= m < FieldEnd(s, k) ==> s[m] != ','
    ensures FieldEnd(s, k) == |s| || s[FieldEnd(s, k)] == ','
    decreases |s| - k
  {
    if k < |s| && s[k] != ',' {
      FieldEndStops(s, k + 1);
    }
  }

  /** `s.split(',')[0]`: the text in front of the first comma, all of `s`
      when it has none. `split` never returns an empty list, so this field
      always exists. */
  function FirstField(s: string): string {
    s[..FieldEnd(s, 0)]
  }
}
