/** The string operations of Python's `str` that the core relies on. */
module Text {

  /** The characters for which Python's `str.isspace()` holds. */
  const Whitespace: set<char> := {
    '\t', '\n', '\U{000B}', '\U{000C}', '\r', '\U{001C}', '\U{001D}', '\U{001E}', '\U{001F}', ' ',
    '\U{0085}', '\U{00A0}', '\U{1680}', '\U{2000}', '\U{2001}', '\U{2002}', '\U{2003}', '\U{2004}',
    '\U{2005}', '\U{2006}', '\U{2007}', '\U{2008}', '\U{2009}', '\U{200A}', '\U{2028}', '\U{2029}',
    '\U{202F}', '\U{205F}', '\U{3000}'
  }

  /** Drops the leading characters that belong to `cs`. */
  function TrimStart(s: string, cs: set<char>): (r: string)
    ensures |r| <= |s|
  {
    if s != [] && s[0] in cs then TrimStart(s[1..], cs) else s
  }

  /** What `TrimStart` drops is a run of characters of `cs`; what it keeps is the rest of `s`, which
      does not start with one. */
  lemma {:induction false} TrimStartFacts(s: string, cs: set<char>)
    ensures var r := TrimStart(s, cs);
      && r == s[|s| - |r|..]
      && (forall k :: 0 <= k < |s| - |r| ==> s[k] in cs)
      && (r == [] || r[0] !in cs)
  {
    if s != [] && s[0] in cs {
      TrimStartFacts(s[1..], cs);
    }
  }

  /** Drops the trailing characters that belong to `cs`. */
  function TrimEnd(s: string, cs: set<char>): (r: string)
    ensures |r| <= |s|
  {
    if s != [] && s[|s| - 1] in cs then TrimEnd(s[..|s| - 1], cs) else s
  }

  /** What `TrimEnd` drops is a run of characters of `cs`; what it keeps is the start of `s`, which
      does not end with one. */
  lemma {:induction false} TrimEndFacts(s: string, cs: set<char>)
    ensures var r := TrimEnd(s, cs);
      && r == s[..|r|]
      && (forall k :: |r| <= k < |s| ==> s[k] in cs)
      && (r == [] || r[|r| - 1] !in cs)
  {
    if s != [] && s[|s| - 1] in cs {
      TrimEndFacts(s[..|s| - 1], cs);
    }
  }

  /** Python's `s.strip(chars)` with `cs` the set of `chars`. */
  function Trim(s: string, cs: set<char>): (r: string)
    ensures |r| <= |s|
  {
    TrimEnd(TrimStart(s, cs), cs)
  }

  /** What `Trim` removes are characters of `cs` only: the result is the infix of `s` that starts
      after the leading run of `cs` characters, and neither starts nor ends with one of them. */
  lemma TrimInfix(s: string, cs: set<char>)
    ensures var a, r := |s| - |TrimStart(s, cs)|, Trim(s, cs);
      && a + |r| <= |s|
      && r == s[a..a + |r|]
      && (forall k :: 0 <= k < a ==> s[k] in cs)
      && (forall k :: a + |r| <= k < |s| ==> s[k] in cs)
      && (r == [] || (r[0] !in cs && r[|r| - 1] !in cs))
  {
    var t := TrimStart(s, cs);
    var r := TrimEnd(t, cs);
    var a := |s| - |t|;
    TrimStartFacts(s, cs);
    TrimEndFacts(t, cs);
    assert t == s[a..];
    assert r == t[..|r|];
    forall k | a + |r| <= k < |s|
      ensures s[k] in cs
    {
      assert s[k] == t[k - a];
    }
  }

  /** A string whose first and last characters lie outside `cs` is its own trim. */
  lemma TrimUntouched(s: string, cs: set<char>)
    requires s == [] || (s[0] !in cs && s[|s| - 1] !in cs)
    ensures Trim(s, cs) == s
  {
  }

  /** Trimming what is already trimmed changes nothing. */
  lemma TrimIdempotent(s: string, cs: set<char>)
    ensures Trim(Trim(s, cs), cs) == Trim(s, cs)
  {
    TrimInfix(s, cs);
    TrimUntouched(Trim(s, cs), cs);
  }

  /** Trimming leaves nothing exactly when every character belongs to `cs`. */
  lemma TrimEmptyIff(s: string, cs: set<char>)
    ensures Trim(s, cs) == [] <==> forall k :: 0 <= k < |s| ==> s[k] in cs
  {
    TrimInfix(s, cs);
    TrimStartFacts(s, cs);
  }

  /** Python's `s.strip()`. */
  function Strip(s: string): string
  {
    Trim(s, Whitespace)
  }

  /** Python's `not s or not s.strip()`: the string is empty or holds only whitespace. */
  predicate IsBlank(s: string)
  {
    forall k :: 0 <= k < |s| ==> s[k] in Whitespace
  }

  /** Stripping leaves nothing exactly on a blank string. */
  lemma StripEmptyIffBlank(s: string)
    ensures Strip(s) == [] <==> IsBlank(s)
  {
    TrimEmptyIff(s, Whitespace);
  }

  /** A string that starts with a non-whitespace character is not blank. */
  lemma NotBlankWhenStartVisible(s: string)
    requires |s| > 0 && s[0] !in Whitespace
    ensures !IsBlank(s)
  {
  }

  predicate IsUpper(c: char)
  {
    'A' <= c <= 'Z'
  }

  /** Python's `lower()` on one character, restricted to the ASCII letters. */
  function LowerChar(c: char): char
  {
    if IsUpper(c) then (c as int + 32) as char else c
  }

  /** Python's `s.lower()`, restricted to the ASCII letters. */
  function Lower(s: string): string
  {
    seq(|s|, k requires 0 <= k < |s| => LowerChar(s[k]))
  }

  /** Lowering turns each upper-case letter into its lower-case partner, leaves no upper-case
      letter and changes nothing else. */
  lemma LowerFacts(s: string)
    ensures |Lower(s)| == |s|
    ensures forall k :: 0 <= k < |s| && IsUpper(s[k]) ==> Lower(s)[k] as int == s[k] as int + 32
    ensures forall k :: 0 <= k < |s| ==> !IsUpper(Lower(s)[k])
    ensures forall k :: 0 <= k < |s| && !IsUpper(s[k]) ==> Lower(s)[k] == s[k]
    ensures Lower(Lower(s)) == Lower(s)
  {
  }

  /** `needle` occurs in `hay` starting at index `i`. */
  predicate OccursAt(hay: string, needle: string, i: int)
  {
    0 <= i && i + |needle| <= |hay| && hay[i..i + |needle|] == needle
  }

  /** Python's `needle in hay` on two strings. */
  predicate Contains(hay: string, needle: string)
  {
    exists i :: 0 <= i <= |hay| - |needle| && OccursAt(hay, needle, i)
  }
}
