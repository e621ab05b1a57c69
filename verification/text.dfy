/**
 The string primitives the game relies on, written out character by character:
 `String.prototype.trim` (used to reject blank guesses), `String.prototype.toLowerCase`
 (used to compare a guess with the card name) and `String.prototype.length`
 (used by the autocomplete gate, which counts UTF-16 code units).
 */
module Text {

  /** ECMAScript WhiteSpace and LineTerminator code points: exactly what `trim` strips.
      The Zs (space separator) category is taken as of Unicode 15. */
  predicate IsWhitespace(c: char) {
    || c == '\t' || c == '\n' || c == '\U{000B}' || c == '\U{000C}' || c == '\r'
    || c == ' ' || c == '\U{00A0}' || c == '\U{1680}'
    || ('\U{2000}' <= c <= '\U{200A}')
    || c == '\U{2028}' || c == '\U{2029}' || c == '\U{202F}' || c == '\U{205F}'
    || c == '\U{3000}' || c == '\U{FEFF}'
  }

  /** Drops leading whitespace. */
  function TrimStart(s: string): (r: string)
    ensures |r| <= |s|
    decreases |s|
  {
    if s != [] && IsWhitespace(s[0]) then TrimStart(s[1..]) else s
  }

  /** `TrimStart` keeps a suffix that is empty or starts with a non-whitespace character,
      and everything it drops is whitespace. */
  lemma {:induction false} TrimStartDrops(s: string)
    ensures var r := TrimStart(s);
            && r == s[|s| - |r|..]
            && (r != [] ==> !IsWhitespace(r[0]))
            && (forall i :: 0 <= i < |s| - |r| ==> IsWhitespace(s[i]))
    decreases |s|
  {
    if s != [] && IsWhitespace(s[0]) {
      TrimStartDrops(s[1..]);
      assert s[1..][|s| - 1 - |TrimStart(s)|..] == s[|s| - |TrimStart(s)|..];
    }
  }

  /** Drops trailing whitespace. */
  function TrimEnd(s: string): (r: string)
    ensures |r| <= |s|
    decreases |s|
  {
    if s != [] && IsWhitespace(s[|s| - 1]) then TrimEnd(s[..|s| - 1]) else s
  }

  /** `TrimEnd` keeps a prefix that is empty or ends with a non-whitespace character,
      and everything it drops is whitespace. */
  lemma {:induction false} TrimEndDrops(s: string)
    ensures var r := TrimEnd(s);
            && r == s[..|r|]
            && (r != [] ==> !IsWhitespace(r[|r| - 1]))
            && (forall i :: |r| <= i < |s| ==> IsWhitespace(s[i]))
    decreases |s|
  {
    if s != [] && IsWhitespace(s[|s| - 1]) {
      TrimEndDrops(s[..|s| - 1]);
      assert s[..|s| - 1][..|TrimEnd(s)|] == s[..|TrimEnd(s)|];
    }
  }

  /** `s.trim()`: what is left after stripping whitespace from both ends. */
  function Trim(s: string): (r: string)
    ensures |r| <= |s|
  {
    TrimEnd(TrimStart(s))
  }

  /** The trimmed text is empty or starts and ends with a non-whitespace character. */
  lemma TrimEnds(s: string)
    ensures var r := Trim(s);
            r != [] ==> !IsWhitespace(r[0]) && !IsWhitespace(r[|r| - 1])
  {
    var t := TrimStart(s);
    var r := TrimEnd(t);
    TrimStartDrops(s);
    TrimEndDrops(t);
    if r != [] {
      assert r[0] == t[0];
    }
  }

  /** `!s.trim()`: JavaScript treats the empty string as false. */
  predicate IsBlank(s: string) {
    Trim(s) == []
  }

  /** A string is blank exactly when every character in it is whitespace. */
  lemma BlankIff(s: string)
    ensures IsBlank(s) <==> forall i :: 0 <= i < |s| ==> IsWhitespace(s[i])
  {
    var t := TrimStart(s);
    var r := TrimEnd(t);
    TrimStartDrops(s);
    TrimEndDrops(t);
    if r != [] {
      assert r[0] == s[|s| - |t|];
    }
  }

  /** Characters that `toLowerCase` maps to a different single character within
      Basic Latin and Latin-1: A-Z and U+00C0..U+00DE except the multiplication sign. */
  predicate IsUpper(c: char) {
    ('A' <= c <= 'Z') || ('\U{00C0}' <= c <= '\U{00DE}' && c != '\U{00D7}')
  }

  /** A capital covered by `IsUpper` folds to the letter 32 code points above it
      (`'A'` to `'a'`, `'\U{00C0}'` to `'\U{00E0}'`); every other character is kept. */
  function LowerChar(c: char): (d: char)
    ensures !IsUpper(d)
    ensures IsUpper(c) ==> d as int == c as int + 32
    ensures !IsUpper(c) ==> d == c
  {
    if IsUpper(c) then (c as int + 32) as char else c
  }

  /** Two characters fold to the same character exactly when they are equal or one is
      the capital of the other. */
  lemma LowerCharSame(a: char, b: char)
    ensures LowerChar(a) == LowerChar(b) <==>
              || a == b
              || (IsUpper(a) && a as int + 32 == b as int)
              || (IsUpper(b) && b as int + 32 == a as int)
  {
    if IsUpper(a) && IsUpper(b) {
      assert LowerChar(a) as int == a as int + 32;
      assert LowerChar(b) as int == b as int + 32;
    }
  }

  /** `s.toLowerCase()` on the characters `IsUpper` covers; every other character is kept. */
  function Lower(s: string): (r: string)
    ensures |r| == |s|
    decreases |s|
  {
    if s == [] then [] else [LowerChar(s[0])] + Lower(s[1..])
  }

  /** Lowering works character by character. */
  lemma {:induction false} LowerAt(s: string, i: int)
    requires 0 <= i < |s|
    ensures Lower(s)[i] == LowerChar(s[i])
    decreases |s|
  {
    if i > 0 {
      LowerAt(s[1..], i - 1);
    }
  }

  /** Two strings are the same name up to case when they agree position by position
      after folding each character. */
  predicate SameIgnoringCase(a: string, b: string) {
    |a| == |b| && forall i :: 0 <= i < |a| ==> LowerChar(a[i]) == LowerChar(b[i])
  }

  /** Lowering leaves no upper-case character and keeps every other character. */
  lemma LowerFolds(s: string)
    ensures forall i :: 0 <= i < |s| ==> !IsUpper(Lower(s)[i])
    ensures forall i :: 0 <= i < |s| && !IsUpper(s[i]) ==> Lower(s)[i] == s[i]
  {
    forall i | 0 <= i < |s| ensures Lower(s)[i] == LowerChar(s[i]) {
      LowerAt(s, i);
    }
  }

  lemma LowerIdempotent(s: string)
    ensures Lower(Lower(s)) == Lower(s)
  {
    LowerFolds(s);
    forall i | 0 <= i < |s| ensures Lower(Lower(s))[i] == Lower(s)[i] {
      LowerAt(Lower(s), i);
    }
  }

  /** Comparing lowered strings is exactly case-insensitive comparison. */
  lemma LowerEqualIff(a: string, b: string)
    ensures Lower(a) == Lower(b) <==> SameIgnoringCase(a, b)
  {
    forall i | 0 <= i < |a| ensures Lower(a)[i] == LowerChar(a[i]) {
      LowerAt(a, i);
    }
    forall i | 0 <= i < |b| ensures Lower(b)[i] == LowerChar(b[i]) {
      LowerAt(b, i);
    }
    if SameIgnoringCase(a, b) {
      assert forall i :: 0 <= i < |a| ==> Lower(a)[i] == Lower(b)[i];
    }
  }

  /** `s.length`: the number of UTF-16 code units; code points above U+FFFF take two. */
  function Utf16Length(s: string): (n: nat)
    ensures |s| <= n <= 2 * |s|
    decreases |s|
  {
    if s == [] then 0
    else (if s[0] as int > 0xFFFF then 2 else 1) + Utf16Length(s[1..])
  }

  /** A single character takes two code units when it lies above U+FFFF, else one. */
  lemma Utf16LengthChar(c: char)
    ensures Utf16Length([c]) == if c as int > 0xFFFF then 2 else 1
  {
    assert [c][1..] == [];
  }

  /** Lengths add up under concatenation. */
  lemma {:induction false} Utf16LengthAppend(s: string, t: string)
    ensures Utf16Length(s + t) == Utf16Length(s) + Utf16Length(t)
    decreases |s|
  {
    if s == [] {
      assert s + t == t;
    } else {
      assert (s + t)[0] == s[0];
      assert (s + t)[1..] == s[1..] + t;
      Utf16LengthAppend(s[1..], t);
    }
  }

  /** Text within the Basic Multilingual Plane has one code unit per character. */
  lemma {:induction false} Utf16LengthBmp(s: string)
    requires forall i :: 0 <= i < |s| ==> s[i] as int <= 0xFFFF
    ensures Utf16Length(s) == |s|
    decreases |s|
  {
    if s != [] {
      assert s[0] as int <= 0xFFFF;
      Utf16LengthBmp(s[1..]);
    }
  }
}
