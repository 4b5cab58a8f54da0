/**
  Character-level helpers shared by the slug generator, the title formatter and the
  input collector. Everything is restricted to ASCII: `lower`, `upper` and `capitalize`
  change only the letters A-Z and a-z, one character at a time, and whitespace is the
  ASCII part of Python's `str.isspace` (which is also what `\s` and `strip()` use).
*/
module Chars {

  /** Space, the controls from tab to carriage return, and the separators 0x1C to 0x1F. */
  predicate IsSpace(c: char) {
    c == ' ' || ('\t' <= c <= '\r') || ('\U{001C}' <= c <= '\U{001F}')
  }

  predicate IsUpper(c: char) { 'A' <= c <= 'Z' }

  predicate IsLower(c: char) { 'a' <= c <= 'z' }

  function ToLower(c: char): (r: char)
    ensures !IsUpper(r)
    ensures IsUpper(c) ==> IsLower(r)
    ensures !IsUpper(c) ==> r == c
    ensures IsSpace(r) == IsSpace(c)
  {
    if IsUpper(c) then c - 'A' + 'a' else c
  }

  function ToUpper(c: char): (r: char)
    ensures !IsLower(r)
    ensures IsLower(c) ==> IsUpper(r)
    ensures !IsLower(c) ==> r == c
    ensures IsSpace(r) == IsSpace(c)
  {
    if IsLower(c) then c - 'a' + 'A' else c
  }

  lemma CaseFold(c: char)
    ensures ToLower(ToUpper(c)) == ToLower(c)
    ensures ToLower(ToLower(c)) == ToLower(c)
  {
  }

  /** Python's `str.lower()` on ASCII text. */
  function Lower(s: string): (r: string)
    ensures |r| == |s|
    ensures forall i :: 0 <= i < |s| ==> r[i] == ToLower(s[i])
  {
    seq(|s|, i requires 0 <= i < |s| => ToLower(s[i]))
  }

  /** Python's `str.upper()` on ASCII text. */
  function Upper(s: string): (r: string)
    ensures |r| == |s|
    ensures forall i :: 0 <= i < |s| ==> r[i] == ToUpper(s[i])
  {
    seq(|s|, i requires 0 <= i < |s| => ToUpper(s[i]))
  }

  /** Python's `str.capitalize()` on ASCII text: first character upper, the rest lower. */
  function Capitalize(s: string): (r: string)
    ensures |r| == |s|
    ensures |s| > 0 ==> r[0] == ToUpper(s[0])
    ensures forall i :: 0 < i < |s| ==> r[i] == ToLower(s[i])
  {
    seq(|s|, i requires 0 <= i < |s| => if i == 0 then ToUpper(s[i]) else ToLower(s[i]))
  }

  /** A string is a case variant of another when lower-casing each gives the same. */
  predicate SameUpToCase(a: string, b: string) {
    |a| == |b| && forall i :: 0 <= i < |a| ==> ToLower(a[i]) == ToLower(b[i])
  }

  lemma SameUpToCaseLower(a: string, b: string)
    requires SameUpToCase(a, b)
    ensures Lower(a) == Lower(b)
  {
  }

  lemma CaseVariants(s: string)
    ensures SameUpToCase(Lower(s), s)
    ensures SameUpToCase(Upper(s), s)
    ensures SameUpToCase(Capitalize(s), s)
  {
    forall i | 0 <= i < |s| ensures ToLower(Upper(s)[i]) == ToLower(s[i]) {
      CaseFold(s[i]);
    }
    forall i | 0 <= i < |s| ensures ToLower(Capitalize(s)[i]) == ToLower(s[i]) {
      CaseFold(s[i]);
    }
  }

  predicate NoSpace(s: string) { forall i :: 0 <= i < |s| ==> !IsSpace(s[i]) }

  predicate AllSpace(s: string) { forall i :: 0 <= i < |s| ==> IsSpace(s[i]) }

  /** `"".join(parts)` */
  function Concat(parts: seq<string>): (r: string)
    ensures |parts| == 0 ==> r == []
  {
    if parts == [] then [] else parts[0] + Concat(parts[1..])
  }

  lemma {:induction false} ConcatAppend(a: seq<string>, b: seq<string>)
    ensures Concat(a + b) == Concat(a) + Concat(b)
  {
    if a == [] {
      assert a + b == b;
    } else {
      assert (a + b)[1..] == a[1..] + b;
      ConcatAppend(a[1..], b);
    }
  }

  /** `s` without its leading whitespace (`str.lstrip()`). */
  function StripStart(s: string): (r: string)
    ensures |r| <= |s|
    ensures r == [] || !IsSpace(r[0])
  {
    if s != [] && IsSpace(s[0]) then StripStart(s[1..]) else s
  }

  /** `s` without its trailing whitespace (`str.rstrip()`). */
  function StripEnd(s: string): (r: string)
    ensures |r| <= |s|
    ensures r == [] || !IsSpace(r[|r| - 1])
  {
    if s != [] && IsSpace(s[|s| - 1]) then StripEnd(s[..|s| - 1]) else s
  }

  /** Python's `str.strip()` with no argument (ASCII whitespace). */
  function Strip(s: string): (r: string)
    ensures r == [] || (!IsSpace(r[0]) && !IsSpace(r[|r| - 1]))
  {
    var t := StripStart(s);
    StripEndIsPrefix(t);
    StripEnd(t)
  }

  /** `StripStart` keeps a suffix of its argument. */
  lemma {:induction false} StripStartIsSuffix(s: string)
    ensures StripStart(s) == s[|s| - |StripStart(s)|..]
  {
    if s != [] && IsSpace(s[0]) {
      StripStartIsSuffix(s[1..]);
      assert s[1..][|s| - 1 - |StripStart(s)|..] == s[|s| - |StripStart(s)|..];
    }
  }

  /** `StripEnd` keeps a prefix of its argument. */
  lemma {:induction false} StripEndIsPrefix(s: string)
    ensures StripEnd(s) == s[..|StripEnd(s)|]
  {
    if s != [] && IsSpace(s[|s| - 1]) {
      StripEndIsPrefix(s[..|s| - 1]);
      assert s[..|s| - 1][..|StripEnd(s)|] == s[..|StripEnd(s)|];
    }
  }

  /** Text that neither starts nor ends with whitespace is left as it is. */
  lemma StripKeeps(s: string)
    requires s == [] || (!IsSpace(s[0]) && !IsSpace(s[|s| - 1]))
    ensures Strip(s) == s
  {
    assert StripStart(s) == s;
  }

  /** What `StripStart` removed is whitespace. */
  lemma {:induction false} StripStartRemovesSpace(s: string)
    ensures AllSpace(s[..|s| - |StripStart(s)|])
  {
    if s != [] && IsSpace(s[0]) {
      StripStartRemovesSpace(s[1..]);
      var n := |s| - |StripStart(s)|;
      forall m | 0 <= m < n ensures IsSpace(s[..n][m]) {
        if m > 0 {
          assert s[..n][m] == s[1..][..n - 1][m - 1];
        }
      }
    }
  }

  /** What `StripEnd` removed is whitespace. */
  lemma {:induction false} StripEndRemovesSpace(s: string)
    ensures AllSpace(s[|StripEnd(s)|..])
  {
    if s != [] && IsSpace(s[|s| - 1]) {
      var t := s[..|s| - 1];
      StripEndRemovesSpace(t);
      var k := |StripEnd(s)|;
      forall m | 0 <= m < |s| - k ensures IsSpace(s[k..][m]) {
        if k + m < |s| - 1 {
          assert s[k..][m] == t[k..][m];
        }
      }
    }
  }

  /**
    Stripping keeps one slice of the text: everything before it and everything after it is
    whitespace, and the slice neither starts nor ends with whitespace.
  */
  lemma StripIsSlice(s: string)
    ensures exists i, j :: 0 <= i <= j <= |s| && Strip(s) == s[i..j] && AllSpace(s[..i]) && AllSpace(s[j..])
  {
    var t := StripStart(s);
    var i := |s| - |t|;
    var j := i + |StripEnd(t)|;
    StripStartIsSuffix(s);
    StripEndIsPrefix(t);
    StripStartRemovesSpace(s);
    StripEndRemovesSpace(t);
    assert Strip(s) == s[i..j];
    assert s[j..] == t[|StripEnd(t)|..];
  }
}
