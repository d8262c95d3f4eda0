/** The string operations the components call: `toLowerCase`/`toUpperCase`
    (over ASCII letters; other characters are left as they are), `trim` (with
    the full set of characters JavaScript treats as white space or line
    terminators) and `includes`. */
module Text {

  function LowerChar(c: char): char {
    if 'A' <= c <= 'Z' then (c as int + 32) as char else c
  }

  function UpperChar(c: char): char {
    if 'a' <= c <= 'z' then (c as int - 32) as char else c
  }

  /** `s.toLowerCase()` */
  function ToLower(s: string): (r: string)
    ensures |r| == |s|
    ensures forall i :: 0 <= i < |s| ==> r[i] == LowerChar(s[i])
    decreases |s|
  {
    if s == [] then [] else [LowerChar(s[0])] + ToLower(s[1..])
  }

  /** `s.toUpperCase()` */
  function ToUpper(s: string): (r: string)
    ensures |r| == |s|
    ensures forall i :: 0 <= i < |s| ==> r[i] == UpperChar(s[i])
    decreases |s|
  {
    if s == [] then [] else [UpperChar(s[0])] + ToUpper(s[1..])
  }

  /** Lower-casing forgets any earlier change of case. */
  lemma LowerIgnoresCase(s: string)
    ensures ToLower(ToUpper(s)) == ToLower(s)
    ensures ToLower(ToLower(s)) == ToLower(s)
  {
    forall i | 0 <= i < |s| ensures ToLower(ToUpper(s))[i] == ToLower(s)[i] {
      assert ToUpper(s)[i] == UpperChar(s[i]);
    }
    forall i | 0 <= i < |s| ensures ToLower(ToLower(s))[i] == ToLower(s)[i] {
      assert ToLower(s)[i] == LowerChar(s[i]);
    }
  }

  /** Lower-casing works character by character, so it distributes over concatenation. */
  lemma LowerAppend(a: string, b: string)
    ensures ToLower(a + b) == ToLower(a) + ToLower(b)
  {
    forall i | |a| <= i < |a| + |b| ensures ToLower(a + b)[i] == ToLower(b)[i - |a|] {
      assert (a + b)[i] == b[i - |a|];
    }
  }

  lemma LowerConcat(before: string, mid: string, after: string)
    ensures ToLower(before + mid + after) == ToLower(before) + ToLower(mid) + ToLower(after)
  {
    LowerAppend(before, mid);
    LowerAppend(before + mid, after);
  }

  /** The characters `String.prototype.trim` removes: white space and line terminators. */
  predicate IsWhitespace(c: char) {
    c == '\t' || c == '\n' || c == '\U{000B}' || c == '\U{000C}' || c == '\r' || c == ' '
    || c == '\U{00A0}' || c == '\U{1680}' || ('\U{2000}' <= c <= '\U{200A}')
    || c == '\U{2028}' || c == '\U{2029}' || c == '\U{202F}' || c == '\U{205F}'
    || c == '\U{3000}' || c == '\U{FEFF}'
  }

  function TrimStart(s: string): (r: string)
    ensures |r| <= |s| && r == s[|s| - |r|..]
    ensures r != [] ==> !IsWhitespace(r[0])
    ensures forall i :: 0 <= i < |s| - |r| ==> IsWhitespace(s[i])
    decreases |s|
  {
    if s != [] && IsWhitespace(s[0]) then TrimStart(s[1..]) else s
  }

  function TrimEnd(s: string): (r: string)
    ensures |r| <= |s| && r == s[..|r|]
    ensures r != [] ==> !IsWhitespace(r[|r| - 1])
    ensures forall i :: |r| <= i < |s| ==> IsWhitespace(s[i])
    decreases |s|
  {
    if s != [] && IsWhitespace(s[|s| - 1]) then TrimEnd(s[..|s| - 1]) else s
  }

  /** `s.trim()`: a contiguous block of `s` that neither starts nor ends with
      white space, found where the leading white space ends. */
  function Trim(s: string): (r: string)
    ensures |r| <= |s|
    ensures r != [] ==> !IsWhitespace(r[0]) && !IsWhitespace(r[|r| - 1])
    ensures OccursAt(s, r, |s| - |TrimStart(s)|)
    ensures forall i :: |s| - |TrimStart(s)| + |r| <= i < |s| ==> IsWhitespace(s[i])
  {
    var t := TrimStart(s);
    var r := TrimEnd(t);
    assert r != [] ==> r[0] == t[0];
    TrimOccurs(s);
    TrimLeavesWhitespaceAfter(s);
    r
  }

  /** The trimmed block sits where the leading white space ends. */
  lemma TrimOccurs(s: string)
    ensures OccursAt(s, TrimEnd(TrimStart(s)), |s| - |TrimStart(s)|)
  {
    var t := TrimStart(s);
    BlockOfSuffix(s, t, TrimEnd(t));
  }

  /** A prefix of a suffix is a block of the whole string. */
  lemma BlockOfSuffix(s: string, t: string, r: string)
    requires |t| <= |s| && t == s[|s| - |t|..]
    requires |r| <= |t| && r == t[..|r|]
    ensures OccursAt(s, r, |s| - |t|)
  {
    assert s[|s| - |t|..|s| - |t| + |r|] == s[|s| - |t|..][..|r|];
  }

  /** Everything after the trimmed block is white space. */
  lemma TrimLeavesWhitespaceAfter(s: string)
    ensures forall i :: |s| - |TrimStart(s)| + |TrimEnd(TrimStart(s))| <= i < |s|
                        ==> IsWhitespace(s[i])
  {
    var t := TrimStart(s);
    var off := |s| - |t|;
    forall i | off + |TrimEnd(t)| <= i < |s|
      ensures IsWhitespace(s[i])
    {
      assert s[i] == t[i - off];
    }
  }

  /** Some character of `s` is not white space. */
  predicate HasVisibleChar(s: string) {
    exists i :: 0 <= i < |s| && !IsWhitespace(s[i])
  }

  /** `s.trim() !== ""` holds exactly when `s` has a character that is not white space. */
  lemma TrimEmptyIff(s: string)
    ensures Trim(s) != [] <==> HasVisibleChar(s)
  {
    var t := TrimStart(s);
    if Trim(s) != [] {
      assert !IsWhitespace(t[0]);
      assert s[|s| - |t|] == t[0];
    }
    if HasVisibleChar(s) {
      var i :| 0 <= i < |s| && !IsWhitespace(s[i]);
      assert |s| - |t| <= i;
      assert t[i - (|s| - |t|)] == s[i];
      assert TrimEnd(t) != [];
    }
  }

  /** `hay.includes(needle)`: `needle` occurs in `hay` as a contiguous block,
      so it is never longer than `hay`. */
  function Contains(hay: string, needle: string): (found: bool)
    ensures found ==> |needle| <= |hay|
  {
    exists i :: 0 <= i <= |hay| - |needle| && OccursAt(hay, needle, i)
  }

  predicate OccursAt(hay: string, needle: string, i: int) {
    0 <= i && i + |needle| <= |hay| && hay[i..i + |needle|] == needle
  }

  /** A block placed anywhere inside a string is found there. */
  lemma ContainsInfix(before: string, needle: string, after: string)
    ensures Contains(before + needle + after, needle)
  {
    var hay := before + needle + after;
    assert hay[|before|..|before| + |needle|] == needle;
    assert OccursAt(hay, needle, |before|);
  }

  /** Conversely, a term found in the lower-cased string is, in some case, a
      block of the original string. */
  lemma LowerFoundIsBlock(f: string, term: string) returns (before: string, piece: string, after: string)
    requires Contains(ToLower(f), ToLower(term))
    ensures f == before + piece + after
    ensures ToLower(piece) == ToLower(term)
  {
    var lf, lt := ToLower(f), ToLower(term);
    var i :| 0 <= i <= |lf| - |lt| && OccursAt(lf, lt, i);
    before, piece, after := f[..i], f[i..i + |term|], f[i + |term|..];
    assert f == before + piece + after;
    forall k | 0 <= k < |piece|
      ensures ToLower(piece)[k] == lt[k]
    {
      assert piece[k] == f[i + k];
      assert lf[i..i + |lt|][k] == lf[i + k];
    }
  }

  /** Every string includes the empty string. */
  lemma ContainsEmpty(hay: string)
    ensures Contains(hay, [])
  {
    assert OccursAt(hay, [], 0);
  }
}
