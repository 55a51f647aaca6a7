/** The two functions of Go's `strings` package that the command parser
    relies on, on byte strings as Go has them. `TrimSpace` removes every
    leading and trailing rune for which `unicode.IsSpace` holds; on bytes
    such a rune is one of the UTF-8 encodings that `IsSpaceRune1`,
    `IsSpaceRune2` and `IsSpaceRune3` accept. */
module GoStrings {
  import opened Effects

  /** `strings.HasPrefix`: `s` is at least as long as `prefix` and begins
      with it, byte for byte. */
  predicate HasPrefix<T(==)>(s: seq<T>, prefix: seq<T>): (b: bool)
    ensures b <==> |prefix| <= |s| && forall i :: 0 <= i < |prefix| ==> s[i] == prefix[i]
  {
    |prefix| <= |s| && s[..|prefix|] == prefix
  }

  /** The runes `unicode.IsSpace` accepts, by the length of their UTF-8
      encoding: the six ASCII spaces; U+0085 and U+00A0; U+1680,
      U+2000..U+200A, U+2028, U+2029, U+202F, U+205F and U+3000. */
  predicate IsSpaceRune1(b0: byte) {
    b0 == 0x20 || 0x09 <= b0 <= 0x0D
  }

  predicate IsSpaceRune2(b0: byte, b1: byte) {
    b0 == 0xC2 && (b1 == 0x85 || b1 == 0xA0)
  }

  predicate IsSpaceRune3(b0: byte, b1: byte, b2: byte) {
    || (b0 == 0xE1 && b1 == 0x9A && b2 == 0x80)
    || (b0 == 0xE2 && b1 == 0x80 && (0x80 <= b2 <= 0x8A || b2 == 0xA8 || b2 == 0xA9 || b2 == 0xAF))
    || (b0 == 0xE2 && b1 == 0x81 && b2 == 0x9F)
    || (b0 == 0xE3 && b1 == 0x80 && b2 == 0x80)
  }

  /** The width in bytes of the space rune that begins at `lo` and ends by
      `hi` in `s`, or 0 when there is none. */
  function SpaceAtFront(s: seq<byte>, lo: nat, hi: nat): (w: nat)
    requires lo <= hi <= |s|
    ensures w <= hi - lo
  {
    if hi - lo >= 1 && IsSpaceRune1(s[lo]) then 1
    else if hi - lo >= 2 && IsSpaceRune2(s[lo], s[lo + 1]) then 2
    else if hi - lo >= 3 && IsSpaceRune3(s[lo], s[lo + 1], s[lo + 2]) then 3
    else 0
  }

  /** The width in bytes of the space rune that ends at `hi` and begins at
      or after `lo` in `s`, or 0 when there is none. */
  function SpaceAtBack(s: seq<byte>, lo: nat, hi: nat): (w: nat)
    requires lo <= hi <= |s|
    ensures w <= hi - lo
  {
    if hi - lo >= 1 && IsSpaceRune1(s[hi - 1]) then 1
    else if hi - lo >= 2 && IsSpaceRune2(s[hi - 2], s[hi - 1]) then 2
    else if hi - lo >= 3 && IsSpaceRune3(s[hi - 3], s[hi - 2], s[hi - 1]) then 3
    else 0
  }

  /** The width of the space rune `s` begins with, or 0. */
  function LeadingSpace(s: seq<byte>): nat {
    SpaceAtFront(s, 0, |s|)
  }

  /** The width of the space rune `s` ends with, or 0. */
  function TrailingSpace(s: seq<byte>): nat {
    SpaceAtBack(s, 0, |s|)
  }

  /** The bytes of `s` from `lo` up to `hi` are a run of space runes, read
      from the front. */
  predicate SpacesOnly(s: seq<byte>, lo: nat, hi: nat)
    requires lo <= hi <= |s|
    decreases hi - lo
  {
    lo == hi || (SpaceAtFront(s, lo, hi) > 0 && SpacesOnly(s, lo + SpaceAtFront(s, lo, hi), hi))
  }

  /** The bytes of `s` from `lo` up to `hi` are a run of space runes, read
      from the back. */
  predicate SpacesOnlyFromBack(s: seq<byte>, lo: nat, hi: nat)
    requires lo <= hi <= |s|
    decreases hi - lo
  {
    lo == hi || (SpaceAtBack(s, lo, hi) > 0 && SpacesOnlyFromBack(s, lo, hi - SpaceAtBack(s, lo, hi)))
  }

  /** A space rune at `lo` is found in any window that holds it, and a
      window with none has none in a narrower one. */
  lemma FrontWithin(s: seq<byte>, lo: nat, hi: nat, hi': nat)
    requires lo <= hi' <= hi <= |s| && SpaceAtFront(s, lo, hi) <= hi' - lo
    ensures SpaceAtFront(s, lo, hi') == SpaceAtFront(s, lo, hi)
  {
  }

  /** The mirror image of FrontWithin, at the back of the window. */
  lemma BackWithin(s: seq<byte>, lo: nat, lo': nat, hi: nat)
    requires lo <= lo' <= hi <= |s| && SpaceAtBack(s, lo, hi) <= hi - lo'
    ensures SpaceAtBack(s, lo', hi) == SpaceAtBack(s, lo, hi)
  {
  }

  /** Where `strings.TrimLeftFunc(s[lo:hi], unicode.IsSpace)` starts: the
      first position from `lo` that begins no space rune, with only space
      runes before it. */
  function TrimStart(s: seq<byte>, lo: nat, hi: nat): (i: nat)
    requires lo <= hi <= |s|
    ensures lo <= i <= hi && SpaceAtFront(s, i, hi) == 0
    ensures SpacesOnly(s, lo, i)
    decreases hi - lo
  {
    var w := SpaceAtFront(s, lo, hi);
    if w == 0 then lo
    else
      var i := TrimStart(s, lo + w, hi);
      FrontWithin(s, lo, hi, i);
      i
  }

  /** Where `strings.TrimRightFunc(s[lo:hi], unicode.IsSpace)` ends: the
      last position down from `hi` that ends no space rune, with only space
      runes after it. */
  function TrimEnd(s: seq<byte>, lo: nat, hi: nat): (j: nat)
    requires lo <= hi <= |s|
    ensures lo <= j <= hi && SpaceAtBack(s, lo, j) == 0
    ensures SpacesOnlyFromBack(s, j, hi)
    decreases hi - lo
  {
    var w := SpaceAtBack(s, lo, hi);
    if w == 0 then hi
    else
      var j := TrimEnd(s, lo, hi - w);
      BackWithin(s, lo, j, hi);
      j
  }

  /** The space runes at the ends of a slice are those of the window it
      was cut from. */
  lemma SliceSpaces(s: seq<byte>, i: nat, j: nat)
    requires i <= j <= |s|
    ensures LeadingSpace(s[i..j]) == SpaceAtFront(s, i, j)
    ensures TrailingSpace(s[i..j]) == SpaceAtBack(s, i, j)
  {
  }

  /** `r` is the part of `s` from `i` that only space runes surround. */
  predicate Inside(s: seq<byte>, i: nat, r: seq<byte>) {
    && i + |r| <= |s|
    && r == s[i..i + |r|]
    && SpacesOnly(s, 0, i)
    && SpacesOnlyFromBack(s, i + |r|, |s|)
  }

  /** `strings.TrimSpace`: what is left of `s` once the space runes in front
      (`strings.TrimLeftFunc`) and then those behind (`strings.TrimRightFunc`)
      are removed. The result lies inside `s` with space runes only before
      and after it, and has no space rune at either end. */
  function TrimSpace(s: seq<byte>): (r: seq<byte>)
    ensures Inside(s, TrimStart(s, 0, |s|), r)
    ensures LeadingSpace(r) == 0 && TrailingSpace(r) == 0
  {
    var i := TrimStart(s, 0, |s|);
    var j := TrimEnd(s, i, |s|);
    FrontWithin(s, i, |s|, j);
    SliceSpaces(s, i, j);
    s[i..j]
  }

  /** A string with no space at either end is its own trimmed form; in
      particular trimming twice is trimming once. */
  lemma TrimSpaceFixedPoint(s: seq<byte>)
    requires LeadingSpace(s) == 0 && TrailingSpace(s) == 0
    ensures TrimSpace(s) == s
  {
  }

  lemma TrimSpaceIdempotent(s: seq<byte>)
    ensures TrimSpace(TrimSpace(s)) == TrimSpace(s)
  {
    TrimSpaceFixedPoint(TrimSpace(s));
  }

  /** One trailing ASCII space is all that trimming removes from a string
      that otherwise has no space at either end. */
  lemma TrimSpaceDropsFinalSpace(s: seq<byte>)
    requires LeadingSpace(s + [0x20]) == 0 && TrailingSpace(s) == 0
    ensures TrimSpace(s + [0x20]) == s
  {
    var t := s + [0x20];
    assert SpaceAtBack(t, 0, |t|) == 1;
    assert SpaceAtBack(t, 0, |s|) == 0;
    assert t[0..|s|] == s;
  }
}
