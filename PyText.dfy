/** The few Python `str` methods the keybinding help script relies on:
    `isspace`, `lstrip`, `strip` and `startswith`, over Dafny strings. */
module PyText {

  /** The characters Python's `str.isspace` and argument-less `strip` treat as
      whitespace: the ASCII controls TAB..CR and FS..US, the space, NEL,
      NO-BREAK SPACE and the Unicode space and separator characters. */
  predicate IsSpace(c: char) {
    ('\t' <= c <= '\r') || ('\U{1C}' <= c <= '\U{1F}') || c == ' ' ||
    c == '\U{85}' || c == '\U{A0}' || c == '\U{1680}' ||
    ('\U{2000}' <= c <= '\U{200A}') || c == '\U{2028}' || c == '\U{2029}' ||
    c == '\U{202F}' || c == '\U{205F}' || c == '\U{3000}'
  }

  /** `s.startswith(p)` */
  predicate StartsWith(s: string, p: string) {
    |p| <= |s| && s[..|p|] == p
  }

  /** `s.isspace()`: true only for a non-empty string of whitespace. */
  predicate IsBlank(s: string) {
    |s| > 0 && forall i :: 0 <= i < |s| ==> IsSpace(s[i])
  }

  /** The end of the run of whitespace in `s` that starts at index `i`. */
  function SpacesFrom(s: string, i: nat): (n: nat)
    requires i <= |s|
    ensures i <= n <= |s|
    decreases |s| - i
  {
    if i < |s| && IsSpace(s[i]) then SpacesFrom(s, i + 1) else i
  }

  /** The start of the run of whitespace in `s` that ends just before index `j`. */
  function SpacesBefore(s: string, j: nat): (n: nat)
    requires j <= |s|
    ensures n <= j
    decreases j
  {
    if j > 0 && IsSpace(s[j - 1]) then SpacesBefore(s, j - 1) else j
  }

  /** `s.lstrip()`: the suffix of `s` that starts at its first non-whitespace character. */
  function LStrip(s: string): string {
    s[SpacesFrom(s, 0)..]
  }

  /** `s.rstrip()`: the prefix of `s` that ends at its last non-whitespace character. */
  function RStrip(s: string): string {
    s[..SpacesBefore(s, |s|)]
  }

  lemma {:induction false} SpacesFromSpec(s: string, i: nat)
    requires i <= |s|
    ensures forall m :: i <= m < SpacesFrom(s, i) ==> IsSpace(s[m])
    ensures SpacesFrom(s, i) < |s| ==> !IsSpace(s[SpacesFrom(s, i)])
    decreases |s| - i
  {
    if i < |s| && IsSpace(s[i]) {
      SpacesFromSpec(s, i + 1);
    }
  }

  lemma {:induction false} SpacesBeforeSpec(s: string, j: nat)
    requires j <= |s|
    ensures forall m :: SpacesBefore(s, j) <= m < j ==> IsSpace(s[m])
    ensures SpacesBefore(s, j) > 0 ==> !IsSpace(s[SpacesBefore(s, j) - 1])
    decreases j
  {
    if j > 0 && IsSpace(s[j - 1]) {
      SpacesBeforeSpec(s, j - 1);
    }
  }

  /** What `lstrip` removes is whitespace, and what it keeps does not start with any. */
  lemma LStripSpec(s: string)
    ensures |LStrip(s)| <= |s| && LStrip(s) == s[|s| - |LStrip(s)|..]
    ensures forall i :: 0 <= i < |s| - |LStrip(s)| ==> IsSpace(s[i])
    ensures |LStrip(s)| > 0 ==> !IsSpace(LStrip(s)[0])
  {
    SpacesFromSpec(s, 0);
  }

  /** What `rstrip` removes is whitespace, and what it keeps does not end with any. */
  lemma RStripSpec(s: string)
    ensures |RStrip(s)| <= |s| && RStrip(s) == s[..|RStrip(s)|]
    ensures forall i :: |RStrip(s)| <= i < |s| ==> IsSpace(s[i])
    ensures |RStrip(s)| > 0 ==> !IsSpace(RStrip(s)[|RStrip(s)| - 1])
  {
    SpacesBeforeSpec(s, |s|);
  }

  /** `s.strip()` */
  function Strip(s: string): string {
    RStrip(LStrip(s))
  }

  /** A stripped string neither starts nor ends with whitespace. */
  lemma StripIsClean(s: string)
    ensures |Strip(s)| > 0 ==> !IsSpace(Strip(s)[0]) && !IsSpace(Strip(s)[|Strip(s)| - 1])
  {
    var l := LStrip(s);
    LStripSpec(s);
    RStripSpec(l);
    if |RStrip(l)| > 0 {
      assert RStrip(l)[0] == l[0];
    }
  }

  /** Stripping a stripped string changes nothing. */
  lemma StripIdempotent(s: string)
    ensures Strip(Strip(s)) == Strip(s)
  {
    var r := Strip(s);
    StripIsClean(s);
    if |r| > 0 {
      LStripKeepsLeadingChar(r);
      assert SpacesBefore(r, |r|) == |r|;
    } else {
      assert LStrip(r) == r;
    }
  }

  /** A line that starts with a non-whitespace character is left alone by `lstrip`,
      and is not blank. */
  lemma LStripKeepsLeadingChar(s: string)
    requires |s| > 0 && !IsSpace(s[0])
    ensures LStrip(s) == s
    ensures !IsBlank(s)
  {
  }

  /** In particular a `#` line still starts with `#` after `lstrip`, and is never blank. */
  lemma HashLine(s: string)
    requires StartsWith(s, "#")
    ensures StartsWith(LStrip(s), "#")
    ensures !IsBlank(s)
  {
    assert s[0] == "#"[0];
    LStripKeepsLeadingChar(s);
  }

  /** A blank line strips to nothing. */
  lemma BlankStripsToEmpty(s: string)
    requires IsBlank(s)
    ensures LStrip(s) == [] && Strip(s) == []
  {
    LStripSpec(s);
  }
}
