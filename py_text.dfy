/** Python's `str.strip()` and `str.upper()`, as the zone endpoints apply
    them to zone names (`zona_nombre.strip().upper()`). Whitespace is
    Python's full `str.isspace()` set; upper-casing covers ASCII and
    à–þ except ÷ (not ß, ÿ or µ), which is every letter of Spanish zone
    names. */
module PyText {

  /** The characters for which Python's `str.isspace()` holds. */
  predicate IsSpace(ch: char)
  {
    ch == ' ' || ('\t' <= ch <= '\r') || ('\U{1C}' <= ch <= '\U{1F}')
    || ch == '\U{85}' || ch == '\U{A0}' || ch == '\U{1680}'
    || ('\U{2000}' <= ch <= '\U{200A}') || ch == '\U{2028}' || ch == '\U{2029}'
    || ch == '\U{202F}' || ch == '\U{205F}' || ch == '\U{3000}'
  }

  /** Lower-case letters that `UpperChar` maps: a-z and à-þ except ÷. */
  predicate HasUpper(ch: char)
  {
    ('a' <= ch <= 'z') || ('\U{E0}' <= ch <= '\U{FE}' && ch != '\U{F7}')
  }

  /** `ch.upper()` for the letters `HasUpper` names; other characters are
      returned unchanged. */
  function UpperChar(ch: char): char
  {
    if HasUpper(ch) then (ch as int - 32) as char else ch
  }

  /** Index of the first non-whitespace character of `s` at or after `i`,
      or `|s|` when there is none. */
  function SkipSpace(s: string, i: nat): (r: nat)
    requires i <= |s|
    ensures i <= r <= |s|
    decreases |s| - i
  {
    if i < |s| && IsSpace(s[i]) then SkipSpace(s, i + 1) else i
  }

  /** End of `s[lo..j]` once its trailing whitespace is dropped. */
  function SkipSpaceBack(s: string, lo: nat, j: nat): (r: nat)
    requires lo <= j <= |s|
    ensures lo <= r <= j
  {
    if lo < j && IsSpace(s[j - 1]) then SkipSpaceBack(s, lo, j - 1) else j
  }

  /** `s.strip()`: leading and trailing whitespace removed. */
  function Strip(s: string): (r: string)
  {
    var a := SkipSpace(s, 0);
    s[a..SkipSpaceBack(s, a, |s|)]
  }

  /** Everything `SkipSpace` passes over is whitespace, and it stops at a
      character that is not. */
  lemma {:induction false} SkipSpaceSkipsSpace(s: string, i: nat)
    requires i <= |s|
    ensures forall k :: i <= k < SkipSpace(s, i) ==> IsSpace(s[k])
    ensures SkipSpace(s, i) < |s| ==> !IsSpace(s[SkipSpace(s, i)])
    decreases |s| - i
  {
    if i < |s| && IsSpace(s[i]) {
      SkipSpaceSkipsSpace(s, i + 1);
    }
  }

  /** Everything `SkipSpaceBack` passes over is whitespace, and it stops
      after a character that is not. */
  lemma {:induction false} SkipSpaceBackSkipsSpace(s: string, lo: nat, j: nat)
    requires lo <= j <= |s|
    ensures forall k :: SkipSpaceBack(s, lo, j) <= k < j ==> IsSpace(s[k])
    ensures lo < SkipSpaceBack(s, lo, j) ==> !IsSpace(s[SkipSpaceBack(s, lo, j) - 1])
  {
    if lo < j && IsSpace(s[j - 1]) {
      SkipSpaceBackSkipsSpace(s, lo, j - 1);
    }
  }

  /** `s.upper()`, restricted to the letters `UpperChar` maps. */
  function Upper(s: string): (r: string)
  {
    seq(|s|, k requires 0 <= k < |s| => UpperChar(s[k]))
  }

  /** The zone-name normalisation: `s.strip().upper()`. */
  function Normalize(s: string): (r: string)
  {
    Upper(Strip(s))
  }

  /** `s.strip()` is the run of `s` between its leading and trailing
      whitespace: every character dropped at either end is whitespace, and
      what is kept starts and ends with a character that is not. */
  lemma StripTrims(s: string)
    ensures var a := SkipSpace(s, 0);
            var b := SkipSpaceBack(s, a, |s|);
            Strip(s) == s[a..b]
            && (forall k :: 0 <= k < a ==> IsSpace(s[k]))
            && (forall k :: b <= k < |s| ==> IsSpace(s[k]))
            && (a < b ==> !IsSpace(s[a]) && !IsSpace(s[b - 1]))
  {
    var a := SkipSpace(s, 0);
    SkipSpaceSkipsSpace(s, 0);
    SkipSpaceBackSkipsSpace(s, a, |s|);
  }

  /** A normalised name has no whitespace at either end and no lower-case
      letter left, and is never longer than the input. */
  lemma NormalizeShape(s: string)
    ensures |Normalize(s)| <= |s|
    ensures Normalize(s) != [] ==> !IsSpace(Normalize(s)[0]) && !IsSpace(Normalize(s)[|Normalize(s)| - 1])
    ensures forall k :: 0 <= k < |Normalize(s)| ==> !HasUpper(Normalize(s)[k])
  {
    StripTrims(s);
  }

  /** Normalising a name twice gives the same as once: names already
      stored in normal form are stored unchanged. */
  lemma {:induction false} NormalizeIdempotent(s: string)
    ensures Normalize(Normalize(s)) == Normalize(s)
  {
    var t := Normalize(s);
    NormalizeShape(s);
    assert SkipSpace(t, 0) == 0;
    assert SkipSpaceBack(t, 0, |t|) == |t|;
    assert Strip(t) == t;
    assert Upper(t) == t;
  }
}
