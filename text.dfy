/** The string operations the TypeScript code relies on: trim, includes,
    replace with a string pattern, toLowerCase. Characters are Unicode scalar
    values (see README: JavaScript strings are UTF-16). */
module Text {

  /** The characters String.prototype.trim removes: WhiteSpace (tab, vertical
      tab, form feed, space, no-break space, byte order mark and the Unicode
      space separators) and LineTerminator (LF, CR, U+2028, U+2029). */
  predicate IsWhitespace(c: char)
  {
    || c == '\t' || c == '\n' || c == '\U{000B}' || c == '\U{000C}' || c == '\r'
    || c == ' ' || c == '\U{00A0}' || c == '\U{1680}'
    || ('\U{2000}' <= c <= '\U{200A}')
    || c == '\U{2028}' || c == '\U{2029}' || c == '\U{202F}' || c == '\U{205F}'
    || c == '\U{3000}' || c == '\U{FEFF}'
  }

  /** s without its leading whitespace. */
  function TrimStart(s: string): (r: string)
    ensures |r| <= |s| && r == s[|s| - |r|..]
    ensures forall k :: 0 <= k < |s| - |r| ==> IsWhitespace(s[k])
    ensures r != [] ==> !IsWhitespace(r[0])
  {
    if s != [] && IsWhitespace(s[0]) then TrimStart(s[1..]) else s
  }

  /** s without its trailing whitespace. */
  function TrimEnd(s: string): (r: string)
    ensures |r| <= |s| && r == s[..|r|]
    ensures forall k :: |r| <= k < |s| ==> IsWhitespace(s[k])
    ensures r != [] ==> !IsWhitespace(r[|r| - 1])
  {
    if s != [] && IsWhitespace(s[|s| - 1]) then TrimEnd(s[..|s| - 1]) else s
  }

  /** String.prototype.trim. */
  function Trim(s: string): string
  {
    TrimEnd(TrimStart(s))
  }

  /** Trim cuts the slice s[i..i + |Trim(s)|] out of s, where i is the number
      of leading characters dropped, ... */
  lemma TrimIsSlice(s: string)
    ensures 0 <= |s| - |TrimStart(s)| <= |s| - |TrimStart(s)| + |Trim(s)| <= |s|
    ensures Trim(s) == s[|s| - |TrimStart(s)|..|s| - |TrimStart(s)| + |Trim(s)|]
  {
    var t := TrimStart(s);
    assert t == s[|s| - |t|..];
    TrimEndOfSuffix(s, |s| - |t|);
    assert Trim(s) == TrimEnd(s[|s| - |t|..]);
  }

  /** ... everything outside that slice is whitespace, ... */
  lemma TrimDropsWhitespace(s: string)
    ensures forall k :: 0 <= k < |s| - |TrimStart(s)| ==> IsWhitespace(s[k])
    ensures forall k :: |s| - |TrimStart(s)| + |Trim(s)| <= k < |s| ==> IsWhitespace(s[k])
  {
    TrimEndOfSuffix(s, |s| - |TrimStart(s)|);
  }

  /** ... and the slice neither starts nor ends with whitespace. */
  lemma TrimKeepsContentEnds(s: string)
    ensures Trim(s) != [] ==> !IsWhitespace(Trim(s)[0]) && !IsWhitespace(Trim(s)[|Trim(s)| - 1])
  {
    TrimEndOfSuffix(s, |s| - |TrimStart(s)|);
  }

  /** Trimming the end of the suffix s[i..] leaves a slice of s whose trailing
      characters in s are whitespace, and keeps its first character. */
  lemma TrimEndOfSuffix(s: string, i: nat)
    requires i <= |s|
    ensures i + |TrimEnd(s[i..])| <= |s| && TrimEnd(s[i..]) == s[i..i + |TrimEnd(s[i..])|]
    ensures forall k :: i + |TrimEnd(s[i..])| <= k < |s| ==> IsWhitespace(s[k])
    ensures TrimEnd(s[i..]) != [] ==> TrimEnd(s[i..])[0] == s[i]
  {
    var t := s[i..];
    var r := TrimEnd(t);
    assert r == t[..|r|];
    forall k | i + |r| <= k < |s|
      ensures IsWhitespace(s[k])
    {
      assert s[k] == t[k - i];
    }
  }

  /** A string trims to the empty string exactly when it is all whitespace. */
  lemma {:induction false} TrimEmptyIffBlank(s: string)
    ensures Trim(s) == [] <==> forall k :: 0 <= k < |s| ==> IsWhitespace(s[k])
  {
    TrimIsSlice(s);
    TrimDropsWhitespace(s);
    TrimKeepsContentEnds(s);
  }

  /** p occurs in s at index i. */
  predicate OccursAt(s: string, p: string, i: int)
  {
    0 <= i && i + |p| <= |s| && s[i..i + |p|] == p
  }

  /** String.prototype.indexOf(p, from): the first occurrence of p at or after from, or -1. */
  function IndexOfFrom(s: string, p: string, from: nat): (r: int)
    ensures r == -1 || (from <= r && OccursAt(s, p, r))
    ensures r == -1 ==> forall i :: from <= i ==> !OccursAt(s, p, i)
    ensures r >= 0 ==> forall i :: from <= i < r ==> !OccursAt(s, p, i)
    decreases |s| - from
  {
    if from + |p| > |s| then -1
    else if s[from..from + |p|] == p then from
    else IndexOfFrom(s, p, from + 1)
  }

  function IndexOf(s: string, p: string): int
  {
    IndexOfFrom(s, p, 0)
  }

  /** String.prototype.includes. */
  predicate Contains(s: string, p: string)
  {
    IndexOf(s, p) >= 0
  }

  /** s.includes(p) exactly when p occurs somewhere in s. */
  lemma ContainsIffOccurs(s: string, p: string)
    ensures Contains(s, p) <==> exists i :: OccursAt(s, p, i)
  {
  }

  /** String.prototype.replace(p, q) with a string pattern: only the first occurrence is replaced. */
  function ReplaceFirst(s: string, p: string, q: string): string
  {
    var i := IndexOf(s, p);
    if i < 0 then s else s[..i] + q + s[i + |p|..]
  }

  /** A string that does not contain p is left as it is. */
  lemma ReplaceAbsent(s: string, p: string, q: string)
    requires !Contains(s, p)
    ensures ReplaceFirst(s, p, q) == s
  {
  }

  /** Removing a suffix that base does not contain gives back base, provided the
      suffix's first character does not recur in it (so no occurrence can
      straddle the join). */
  lemma {:induction false} RemoveAppendedSuffix(base: string, suffix: string)
    requires |suffix| > 0 && suffix[0] !in suffix[1..]
    requires !Contains(base, suffix)
    ensures ReplaceFirst(base + suffix, suffix, "") == base
  {
    var s := base + suffix;
    forall i | 0 <= i < |base|
      ensures !OccursAt(s, suffix, i)
    {
      if i + |suffix| <= |base| {
        assert s[i..i + |suffix|] == base[i..i + |suffix|];
        assert !OccursAt(base, suffix, i);
      } else {
        var d := |base| - i;
        assert s[|base|] == suffix[0];
        assert suffix[d] == suffix[1..][d - 1];
        assert suffix[d] != suffix[0];
        assert s[i..i + |suffix|][d] != suffix[d];
      }
    }
    assert OccursAt(s, suffix, |base|);
    assert IndexOf(s, suffix) == |base|;
    assert s[..|base|] == base;
  }

  /** A string in which every '_' that is followed by a character is followed by
      something other than 'f' does not contain "_fake". */
  lemma NoFakeMarker(s: string)
    requires forall i :: 0 <= i < |s| - 1 && s[i] == '_' ==> s[i + 1] != 'f'
    ensures !Contains(s, "_fake")
  {
    forall i | 0 <= i && i + 5 <= |s|
      ensures !OccursAt(s, "_fake", i)
    {
      if s[i] == '_' {
        assert s[i..i + 5][1] != "_fake"[1];
      } else {
        assert s[i..i + 5][0] != "_fake"[0];
      }
    }
  }

  /** ASCII upper-case letters to lower case (String.prototype.toLowerCase on ASCII). */
  function LowerChar(c: char): (r: char)
    ensures 'A' <= c <= 'Z' ==> r as int == c as int + 32 && 'a' <= r <= 'z'
    ensures !('A' <= c <= 'Z') ==> r == c
  {
    if 'A' <= c <= 'Z' then (c as int + 32) as char else c
  }

  function ToLower(s: string): (r: string)
    ensures |r| == |s|
    ensures forall i :: 0 <= i < |s| ==> r[i] == LowerChar(s[i])
  {
    seq(|s|, i requires 0 <= i < |s| => LowerChar(s[i]))
  }

  /** a and b are the same character or the two cases of one ASCII letter. */
  predicate CaseVariant(a: char, b: char)
  {
    || a == b
    || ('A' <= a <= 'Z' && b as int == a as int + 32)
    || ('A' <= b <= 'Z' && a as int == b as int + 32)
  }

  /** s and t differ at most in the case of ASCII letters. */
  predicate EqualIgnoringCase(s: string, t: string)
  {
    |s| == |t| && forall i :: 0 <= i < |s| ==> CaseVariant(s[i], t[i])
  }

  lemma LowerCharMatchesIffCaseVariant(a: char, b: char)
    ensures LowerChar(a) == LowerChar(b) <==> CaseVariant(a, b)
  {
  }

  /** Lower-casing the names makes them equal exactly when they differ at
      most in the case of ASCII letters. */
  lemma ToLowerEqualIffEqualIgnoringCase(s: string, t: string)
    ensures ToLower(s) == ToLower(t) <==> EqualIgnoringCase(s, t)
  {
    if ToLower(s) == ToLower(t) {
      forall i | 0 <= i < |s|
        ensures CaseVariant(s[i], t[i])
      {
        assert ToLower(s)[i] == ToLower(t)[i];
        LowerCharMatchesIffCaseVariant(s[i], t[i]);
      }
    }
    if EqualIgnoringCase(s, t) {
      forall i | 0 <= i < |s|
        ensures ToLower(s)[i] == ToLower(t)[i]
      {
        LowerCharMatchesIffCaseVariant(s[i], t[i]);
      }
    }
  }

  /** Lower-casing twice is lower-casing once. */
  lemma ToLowerIdempotent(s: string)
    ensures ToLower(ToLower(s)) == ToLower(s)
  {
  }
}
