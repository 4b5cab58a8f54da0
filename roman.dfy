/**
  The Roman-numeral test of `handle_title`. The source uses the regular expression
  `^((?=[MDCLXVI])M*(C[MD]|D?C{0,3})(X[CL]|L?X{0,3})(I[XV]|V?I{0,3}))$` with IGNORECASE.
  `MatchesRoman` states that pattern as it reads; `RomanUpper` is the matcher the model
  runs, and `RomanUpperMatches` proves the two agree on every string.
*/
module Roman {
  import opened Chars

  predicate IsRomanLetter(c: char) {
    c == 'M' || c == 'D' || c == 'C' || c == 'L' || c == 'X' || c == 'V' || c == 'I'
  }

  /** The run of `M`s and the three digit groups of the pattern. */
  datatype Group = Thousands | Hundreds | Tens | Ones

  /** The letters a group's forms are made of. */
  predicate InGroup(c: char, g: Group) {
    match g
    case Thousands => c == 'M'
    case Hundreds => c == 'C' || c == 'D' || c == 'M'
    case Tens => c == 'X' || c == 'L' || c == 'C'
    case Ones => c == 'I' || c == 'V' || c == 'X'
  }

  /** The letters a non-empty form of a digit group starts with. */
  predicate StartsGroup(c: char, g: Group) {
    match g
    case Thousands => c == 'M'
    case Hundreds => c == 'C' || c == 'D'
    case Tens => c == 'X' || c == 'L'
    case Ones => c == 'I' || c == 'V'
  }

  /** The one, five and ten letters of a digit group. */
  function One(g: Group): char {
    match g
    case Thousands => 'M'
    case Hundreds => 'C'
    case Tens => 'X'
    case Ones => 'I'
  }

  function Five(g: Group): char {
    match g
    case Thousands => 'M'
    case Hundreds => 'D'
    case Tens => 'L'
    case Ones => 'V'
  }

  function Ten(g: Group): char {
    match g
    case Thousands => 'M'
    case Hundreds => 'M'
    case Tens => 'C'
    case Ones => 'X'
  }

  /**
    The strings one digit group of the pattern matches: `one` `ten` | `one` `five` |
    `five`? `one`{0,3}; for the hundreds this is `C[MD]|D?C{0,3}`.
  */
  predicate IsForm(f: string, g: Group) {
    f == [One(g), Ten(g)] || f == [One(g), Five(g)] ||
    var k := if f != [] && f[0] == Five(g) then 1 else 0;
    |f| <= k + 3 && forall i :: k <= i < |f| ==> f[i] == One(g)
  }

  function Repeat(c: char, n: nat): (r: string)
    ensures |r| == n && forall i :: 0 <= i < n ==> r[i] == c
  {
    if n == 0 then [] else [c] + Repeat(c, n - 1)
  }

  /**
    The pattern matched against the whole of an upper-case string, as the pattern reads:
    a first letter that is a numeral letter (the lookahead), some number of `M`s, then one
    form of each digit group.
  */
  ghost predicate MatchesRoman(u: string) {
    |u| > 0 && IsRomanLetter(u[0]) &&
    exists m, h, t, o | 0 <= m <= |u| && IsForm(h, Hundreds) && IsForm(t, Tens) && IsForm(o, Ones) ::
      u == Repeat('M', m) + h + t + o
  }

  /** Length of the longest prefix of `s` made of letters of group `g`. */
  function RunLen(s: string, g: Group): (n: nat)
    ensures n <= |s|
    ensures forall i :: 0 <= i < n ==> InGroup(s[i], g)
    ensures n < |s| ==> !InGroup(s[n], g)
  {
    if s == [] || !InGroup(s[0], g) then 0 else 1 + RunLen(s[1..], g)
  }

  lemma RunLenIs(s: string, g: Group, n: nat)
    requires n <= |s| && (forall i :: 0 <= i < n ==> InGroup(s[i], g)) && (n < |s| ==> !InGroup(s[n], g))
    ensures RunLen(s, g) == n
  {
  }

  /**
    The matcher: the run of `M`s, then the run of hundreds letters, then the run of tens
    letters, each digit group checked against its forms.
  */
  predicate RomanUpper(u: string) {
    |u| > 0 && IsRomanLetter(u[0]) &&
    var r1 := u[RunLen(u, Thousands)..];
    var b := RunLen(r1, Hundreds);
    var r2 := r1[b..];
    var c := RunLen(r2, Tens);
    IsForm(r1[..b], Hundreds) && IsForm(r2[..c], Tens) && IsForm(r2[c..], Ones)
  }

  /** The source matches case-insensitively, which on ASCII text is matching the upper-cased part. */
  predicate IsRoman(part: string) {
    RomanUpper(Upper(part))
  }

  lemma MatchesRomanIntro(u: string, m: nat, h: string, t: string, o: string)
    requires |u| > 0 && IsRomanLetter(u[0])
    requires IsForm(h, Hundreds) && IsForm(t, Tens) && IsForm(o, Ones)
    requires u == Repeat('M', m) + h + t + o
    ensures MatchesRoman(u)
  {
  }

  lemma SplitFour(u: string, a: nat, b: nat, c: nat)
    requires a <= |u| && b <= |u| - a && c <= |u| - a - b
    ensures u == u[..a] + u[a..][..b] + u[a..][b..][..c] + u[a..][b..][c..]
  {
    var r1 := u[a..];
    var r2 := r1[b..];
    assert r2 == r2[..c] + r2[c..];
    assert r1 == r1[..b] + r2;
    assert u == u[..a] + r1;
  }

  lemma Assoc4(a: string, b: string, c: string, d: string)
    ensures a + b + c + d == a + (b + (c + d))
  {
  }

  lemma MRunPrefix(u: string)
    ensures u[..RunLen(u, Thousands)] == Repeat('M', RunLen(u, Thousands))
  {
  }

  /** Whatever the matcher accepts is matched by the pattern. */
  lemma RomanUpperSound(u: string)
    requires RomanUpper(u)
    ensures MatchesRoman(u)
  {
    var a := RunLen(u, Thousands);
    var r1 := u[a..];
    var b := RunLen(r1, Hundreds);
    var r2 := r1[b..];
    var c := RunLen(r2, Tens);
    var h, t, o := r1[..b], r2[..c], r2[c..];
    SplitFour(u, a, b, c);
    MRunPrefix(u);
    MatchesRomanIntro(u, a, h, t, o);
  }

  /** `f` is made of letters of `g` and, unless empty, starts with a first letter of `g`. */
  predicate Shaped(f: string, g: Group) {
    (forall i :: 0 <= i < |f| ==> InGroup(f[i], g)) && (f == [] || StartsGroup(f[0], g))
  }

  lemma FormsShaped(g: Group, f: string)
    requires g != Thousands && IsForm(f, g)
    ensures Shaped(f, g)
  {
  }

  lemma RunOfShaped(x: string, g: Group, y: string)
    requires forall i :: 0 <= i < |x| ==> InGroup(x[i], g)
    requires y != [] ==> !InGroup(y[0], g)
    ensures RunLen(x + y, g) == |x|
    ensures (x + y)[..|x|] == x && (x + y)[|x|..] == y
  {
    var s := x + y;
    assert forall i :: 0 <= i < |x| ==> s[i] == x[i];
    assert |x| < |s| ==> s[|x|] == y[0];
    RunLenIs(s, g, |x|);
  }

  /** The matcher finds the groups of any string the pattern builds. */
  lemma RomanUpperOf(m: nat, h: string, t: string, o: string)
    requires Shaped(h, Hundreds) && Shaped(t, Tens) && Shaped(o, Ones)
    ensures var u := Repeat('M', m) + (h + (t + o));
      var r1 := u[RunLen(u, Thousands)..];
      var r2 := r1[RunLen(r1, Hundreds)..];
      r1[..RunLen(r1, Hundreds)] == h && r2[..RunLen(r2, Tens)] == t && r2[RunLen(r2, Tens)..] == o
  {
    var to := t + o;
    var rest := h + to;
    assert to != [] ==> !InGroup(to[0], Hundreds) && !InGroup(to[0], Thousands) by {
      if t != [] { assert to[0] == t[0]; } else { assert to == o; }
    }
    assert rest != [] ==> !InGroup(rest[0], Thousands) by {
      if h != [] { assert rest[0] == h[0]; } else { assert rest == to; }
    }
    RunOfShaped(Repeat('M', m), Thousands, rest);
    RunOfShaped(h, Hundreds, to);
    RunOfShaped(t, Tens, o);
  }

  lemma RomanUpperFound(u: string, h: string, t: string, o: string)
    requires |u| > 0 && IsRomanLetter(u[0])
    requires IsForm(h, Hundreds) && IsForm(t, Tens) && IsForm(o, Ones)
    requires var r1 := u[RunLen(u, Thousands)..];
      var r2 := r1[RunLen(r1, Hundreds)..];
      r1[..RunLen(r1, Hundreds)] == h && r2[..RunLen(r2, Tens)] == t && r2[RunLen(r2, Tens)..] == o
    ensures RomanUpper(u)
  {
  }

  /** Whatever the pattern matches is accepted by the matcher. */
  lemma RomanUpperComplete(u: string)
    requires MatchesRoman(u)
    ensures RomanUpper(u)
  {
    var m, h, t, o :| 0 <= m <= |u| && IsForm(h, Hundreds) && IsForm(t, Tens) && IsForm(o, Ones) &&
      u == Repeat('M', m) + h + t + o;
    Assoc4(Repeat('M', m), h, t, o);
    FormsShaped(Hundreds, h);
    FormsShaped(Tens, t);
    FormsShaped(Ones, o);
    RomanUpperOf(m, h, t, o);
    RomanUpperFound(u, h, t, o);
  }

  /** The matcher accepts exactly the strings the pattern describes. */
  lemma RomanUpperMatches(u: string)
    ensures RomanUpper(u) <==> MatchesRoman(u)
  {
    if RomanUpper(u) { RomanUpperSound(u); }
    if MatchesRoman(u) { RomanUpperComplete(u); }
  }

  predicate AllRomanLetters(s: string) {
    forall i :: 0 <= i < |s| ==> IsRomanLetter(s[i])
  }

  lemma GroupLettersRoman(s: string, g: Group)
    requires forall i :: 0 <= i < |s| ==> InGroup(s[i], g)
    ensures AllRomanLetters(s)
  {
  }

  lemma AllRomanLettersAppend(x: string, y: string)
    requires AllRomanLetters(x) && AllRomanLetters(y)
    ensures AllRomanLetters(x + y)
  {
    forall i | 0 <= i < |x + y| ensures IsRomanLetter((x + y)[i]) {
      if i >= |x| { assert (x + y)[i] == y[i - |x|]; }
    }
  }

  lemma RomanUpperLetters(u: string)
    requires RomanUpper(u)
    ensures AllRomanLetters(u)
  {
    var a := RunLen(u, Thousands);
    var r1 := u[a..];
    var b := RunLen(r1, Hundreds);
    var r2 := r1[b..];
    var c := RunLen(r2, Tens);
    SplitFour(u, a, b, c);
    GroupLettersRoman(u[..a], Thousands);
    GroupLettersRoman(r1[..b], Hundreds);
    GroupLettersRoman(r2[..c], Tens);
    FormsShaped(Ones, r2[c..]);
    GroupLettersRoman(r2[c..], Ones);
    AllRomanLettersAppend(u[..a], r1[..b]);
    AllRomanLettersAppend(u[..a] + r1[..b], r2[..c]);
    AllRomanLettersAppend(u[..a] + r1[..b] + r2[..c], r2[c..]);
  }

  /** A numeral is made of numeral letters only, in either case. */
  lemma RomanUsesRomanLetters(part: string)
    requires IsRoman(part)
    ensures forall i :: 0 <= i < |part| ==> IsRomanLetter(ToUpper(part[i]))
  {
    RomanUpperLetters(Upper(part));
  }

  /** A part with a character that is not a numeral letter (in either case) is not a numeral. */
  lemma NotRoman(part: string, i: nat)
    requires i < |part| && !IsRomanLetter(ToUpper(part[i]))
    ensures !IsRoman(part)
  {
    if IsRoman(part) {
      RomanUsesRomanLetters(part);
    }
  }

  /** A numeral is matched whatever its letter case: "ii", "Ii" and "II" all match. */
  lemma RomanIgnoresCase(a: string, b: string)
    requires SameUpToCase(a, b)
    ensures IsRoman(a) <==> IsRoman(b)
  {
    assert Upper(a) == Upper(b) by {
      forall i | 0 <= i < |a| ensures ToUpper(a[i]) == ToUpper(b[i]) {
        assert ToLower(a[i]) == ToLower(b[i]);
      }
    }
  }

  /** A lone ones digit ("I" to "IX") is a numeral. */
  lemma OnesNumeral(u: string)
    requires u != [] && IsForm(u, Ones)
    ensures RomanUpper(u)
  {
    FormsShaped(Ones, u);
    assert IsRomanLetter(u[0]);
    assert u == Repeat('M', 0) + [] + [] + u;
    MatchesRomanIntro(u, 0, [], [], u);
    RomanUpperComplete(u);
  }
}
