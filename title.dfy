/**
  `handle_title`: title casing with minor words and Roman numerals. The text is split on
  whitespace runs with the runs kept (`re.split(r"(\s+)", text)`), each part is re-cased on
  its own, and the parts are joined again.
*/
module Title {
  import opened Chars
  import opened Roman

  // ---------------------------------------------------------------------------------------
  // Splitting on whitespace with the separators kept
  // ---------------------------------------------------------------------------------------

  /** The end of the run of non-whitespace characters of `s` that starts at `i`. */
  function WordEnd(s: string, i: nat): (j: nat)
    requires i <= |s|
    ensures i <= j <= |s|
    ensures forall m :: i <= m < j ==> !IsSpace(s[m])
    ensures j < |s| ==> IsSpace(s[j])
    decreases |s| - i
  {
    if i == |s| || IsSpace(s[i]) then i else WordEnd(s, i + 1)
  }

  /** The end of the run of whitespace characters of `s` that starts at `i`. */
  function SpaceEnd(s: string, i: nat): (j: nat)
    requires i <= |s|
    ensures i <= j <= |s|
    ensures forall m :: i <= m < j ==> IsSpace(s[m])
    ensures j < |s| ==> !IsSpace(s[j])
    decreases |s| - i
  {
    if i == |s| || !IsSpace(s[i]) then i else SpaceEnd(s, i + 1)
  }

  /** The split of the text from position `i` on. */
  function SplitFrom(s: string, i: nat): (parts: seq<string>)
    requires i <= |s|
    ensures |parts| % 2 == 1
    ensures parts[0] == s[i..WordEnd(s, i)]
    decreases |s| - i
  {
    var w := WordEnd(s, i);
    if w == |s| then [s[i..]]
    else
      var k := SpaceEnd(s, w);
      [s[i..w], s[w..k]] + SplitFrom(s, k)
  }

  /** One step of the split: a word, the whitespace run after it, then the split of the rest. */
  lemma SplitFromStep(s: string, i: nat, w: nat, k: nat)
    requires i <= |s| && w == WordEnd(s, i) < |s| && k == SpaceEnd(s, w)
    ensures SplitFrom(s, i) == [s[i..w], s[w..k]] + SplitFrom(s, k)
  {
  }

  /**
    `re.split(r"(\s+)", s)`: the text before the first whitespace run, the run, the text up
    to the next run, and so on. The first and the last part may be empty; the list always
    has an odd number of parts.
  */
  function SplitWs(s: string): (parts: seq<string>)
    ensures |parts| % 2 == 1
  {
    SplitFrom(s, 0)
  }

  /**
    What a split produces: parts alternate between text without whitespace (even
    positions; empty only at the two ends) and non-empty runs of whitespace (odd positions).
  */
  predicate WellFormed(parts: seq<string>) {
    |parts| % 2 == 1 &&
    forall i :: 0 <= i < |parts| ==>
      (i % 2 == 0 ==> NoSpace(parts[i]) && (0 < i < |parts| - 1 ==> parts[i] != [])) &&
      (i % 2 == 1 ==> parts[i] != [] && AllSpace(parts[i]))
  }

  lemma ConcatOne(a: string)
    ensures Concat([a]) == a
  {
    assert Concat([a]) == a + Concat([]);
  }

  lemma ConcatPair(a: string, b: string, rest: seq<string>)
    ensures Concat([a, b] + rest) == a + b + Concat(rest)
  {
    ConcatAppend([a, b], rest);
    assert Concat([a, b]) == a + Concat([b]);
    ConcatOne(b);
  }

  lemma SliceThree(s: string, i: nat, w: nat, k: nat)
    requires i <= w <= k <= |s|
    ensures s[i..] == s[i..w] + s[w..k] + s[k..]
  {
  }

  lemma {:induction false} SplitFromJoin(s: string, i: nat)
    requires i <= |s|
    ensures Concat(SplitFrom(s, i)) == s[i..]
    decreases |s| - i
  {
    var w := WordEnd(s, i);
    if w == |s| {
      assert SplitFrom(s, i) == [s[i..]];
      ConcatOne(s[i..]);
    } else {
      var k := SpaceEnd(s, w);
      SplitFromStep(s, i, w, k);
      SplitFromJoin(s, k);
      ConcatPair(s[i..w], s[w..k], SplitFrom(s, k));
      SliceThree(s, i, w, k);
    }
  }

  /** Joining the parts gives the original text back. */
  lemma SplitJoin(s: string)
    ensures Concat(SplitWs(s)) == s
  {
    SplitFromJoin(s, 0);
  }

  lemma WellFormedTail(parts: seq<string>)
    requires WellFormed(parts) && |parts| > 1
    ensures WellFormed(parts[2..])
  {
    var t := parts[2..];
    forall i | 0 <= i < |t|
      ensures (i % 2 == 0 ==> NoSpace(t[i]) && (0 < i < |t| - 1 ==> t[i] != [])) &&
              (i % 2 == 1 ==> t[i] != [] && AllSpace(t[i]))
    {
      assert t[i] == parts[i + 2];
      assert (i + 2) % 2 == i % 2;
    }
  }

  /** A word and a whitespace run in front of well-formed parts give well-formed parts. */
  lemma WellFormedCons(word: string, run: string, rest: seq<string>)
    requires NoSpace(word) && run != [] && AllSpace(run) && WellFormed(rest)
    requires |rest| > 1 ==> rest[0] != []
    ensures WellFormed([word, run] + rest)
  {
    var parts := [word, run] + rest;
    forall i | 2 <= i < |parts|
      ensures (i % 2 == 0 ==> NoSpace(parts[i]) && (0 < i < |parts| - 1 ==> parts[i] != [])) &&
              (i % 2 == 1 ==> parts[i] != [] && AllSpace(parts[i]))
    {
      assert parts[i] == rest[i - 2];
      assert (i - 2) % 2 == i % 2;
    }
  }

  lemma WordSlice(s: string, i: nat, w: nat)
    requires i <= w <= |s| && forall m :: i <= m < w ==> !IsSpace(s[m])
    ensures NoSpace(s[i..w])
  {
    forall m | 0 <= m < w - i ensures !IsSpace(s[i..w][m]) {
      assert s[i..w][m] == s[i + m];
    }
  }

  lemma SpaceSlice(s: string, w: nat, k: nat)
    requires w <= k <= |s| && forall m :: w <= m < k ==> IsSpace(s[m])
    ensures AllSpace(s[w..k])
  {
    forall m | 0 <= m < k - w ensures IsSpace(s[w..k][m]) {
      assert s[w..k][m] == s[w + m];
    }
  }

  lemma {:induction false} SplitFromWellFormed(s: string, i: nat)
    requires i <= |s|
    ensures WellFormed(SplitFrom(s, i))
    decreases |s| - i
  {
    var w := WordEnd(s, i);
    if w < |s| {
      var k := SpaceEnd(s, w);
      var rest := SplitFrom(s, k);
      SplitFromStep(s, i, w, k);
      SplitFromWellFormed(s, k);
      assert k < |s| ==> WordEnd(s, k) > k;
      WordSlice(s, i, w);
      SpaceSlice(s, w, k);
      WellFormedCons(s[i..w], s[w..k], rest);
    }
  }

  /** Every split is well-formed. */
  lemma SplitWellFormed(s: string)
    ensures WellFormed(SplitWs(s))
  {
    SplitFromWellFormed(s, 0);
  }

  lemma {:induction false} WordEndIs(s: string, i: nat, n: nat)
    requires i <= n <= |s|
    requires forall m :: i <= m < n ==> !IsSpace(s[m])
    requires n < |s| ==> IsSpace(s[n])
    ensures WordEnd(s, i) == n
  {
  }

  lemma {:induction false} SpaceEndIs(s: string, i: nat, n: nat)
    requires i <= n <= |s|
    requires forall m :: i <= m < n ==> IsSpace(s[m])
    requires n < |s| ==> !IsSpace(s[n])
    ensures SpaceEnd(s, i) == n
  {
  }

  /** The rest of `s` from `i` is a single part without whitespace. */
  lemma JoinSplitOne(parts: seq<string>, s: string, i: nat)
    requires WellFormed(parts) && |parts| == 1 && i <= |s| && s[i..] == Concat(parts)
    ensures SplitFrom(s, i) == parts
  {
    var p0 := parts[0];
    assert s[i..] == p0 + Concat([]) == p0;
    forall m | i <= m < |s| ensures !IsSpace(s[m]) {
      assert s[m] == p0[m - i];
    }
    WordEndIs(s, i, |s|);
    assert SplitFrom(s, i) == [s[i..]];
  }

  /** A word that the rest of `s` starts with, followed by whitespace or the end, is where the split stops. */
  lemma WordEndAt(s: string, i: nat, p: string, rest: string)
    requires i <= |s| && s[i..] == p + rest && NoSpace(p) && (rest != [] ==> IsSpace(rest[0]))
    ensures i + |p| <= |s| && WordEnd(s, i) == i + |p| && s[i..i + |p|] == p && s[i + |p|..] == rest
  {
    forall m | i <= m < i + |p| ensures !IsSpace(s[m]) {
      assert s[m] == s[i..][m - i] == p[m - i];
    }
    assert i + |p| < |s| ==> s[i + |p|] == s[i..][|p|] == rest[0];
    WordEndIs(s, i, i + |p|);
  }

  /** A whitespace run that the rest of `s` starts with, followed by a non-space or the end. */
  lemma SpaceEndAt(s: string, i: nat, p: string, rest: string)
    requires i <= |s| && s[i..] == p + rest && AllSpace(p) && (rest != [] ==> !IsSpace(rest[0]))
    ensures i + |p| <= |s| && SpaceEnd(s, i) == i + |p| && s[i..i + |p|] == p && s[i + |p|..] == rest
  {
    forall m | i <= m < i + |p| ensures IsSpace(s[m]) {
      assert s[m] == s[i..][m - i] == p[m - i];
    }
    assert i + |p| < |s| ==> s[i + |p|] == s[i..][|p|] == rest[0];
    SpaceEndIs(s, i, i + |p|);
  }

  /** The first two parts, then the join of the rest. */
  lemma ConcatTwo(parts: seq<string>)
    requires |parts| > 1
    ensures Concat(parts) == parts[0] + (parts[1] + Concat(parts[2..]))
  {
    assert parts[1..][1..] == parts[2..];
  }

  /** What the parts of a well-formed split after its first word and run are joined to. */
  lemma RestStart(parts: seq<string>)
    requires WellFormed(parts) && |parts| > 1
    ensures NoSpace(parts[0]) && parts[1] != [] && AllSpace(parts[1])
    ensures var r := Concat(parts[2..]); r == [] || !IsSpace(r[0])
  {
    assert 1 % 2 == 1;
    var t := parts[2..];
    var r := Concat(t);
    assert r == t[0] + Concat(t[1..]);
    if |t| > 1 {
      assert t[0] == parts[2] && parts[2] != [];
    } else {
      assert t[1..] == [];
    }
  }

  /**
    The rest of `s` from `i` starts with a word and a whitespace run: the split finds
    exactly their ends.
  */
  lemma JoinSplitStep(parts: seq<string>, s: string, i: nat, k: nat)
    requires WellFormed(parts) && |parts| > 1 && i <= |s| && s[i..] == Concat(parts)
    requires k == i + |parts[0]| + |parts[1]|
    ensures k <= |s| && s[k..] == Concat(parts[2..])
    ensures SplitFrom(s, i) == [parts[0], parts[1]] + SplitFrom(s, k)
  {
    var p0, p1, r := parts[0], parts[1], Concat(parts[2..]);
    ConcatTwo(parts);
    RestStart(parts);
    WordEndAt(s, i, p0, p1 + r);
    var w := i + |p0|;
    SpaceEndAt(s, w, p1, r);
    SplitFromStep(s, i, w, k);
    assert s[i..w] == p0 && s[w..k] == p1;
  }

  lemma ConsTwo(parts: seq<string>)
    requires |parts| > 1
    ensures [parts[0], parts[1]] + parts[2..] == parts
  {
  }

  /** Splitting `s` from `i`, where the rest of `s` was joined from well-formed parts. */
  lemma {:induction false} JoinSplitFrom(parts: seq<string>, s: string, i: nat)
    requires WellFormed(parts) && i <= |s| && s[i..] == Concat(parts)
    ensures SplitFrom(s, i) == parts
    decreases |parts|
  {
    if |parts| == 1 {
      JoinSplitOne(parts, s, i);
    } else {
      var k := i + |parts[0]| + |parts[1]|;
      JoinSplitStep(parts, s, i, k);
      WellFormedTail(parts);
      JoinSplitFrom(parts[2..], s, k);
      ConsTwo(parts);
    }
  }

  /** Splitting what was joined from well-formed parts gives the same parts back. */
  lemma JoinSplit(parts: seq<string>)
    requires WellFormed(parts)
    ensures SplitWs(Concat(parts)) == parts
  {
    var s := Concat(parts);
    JoinSplitFrom(parts, s, 0);
  }

  // ---------------------------------------------------------------------------------------
  // Title casing
  // ---------------------------------------------------------------------------------------

  /** Words kept lower-case unless they equal the first part of the title. */
  const MinorWords: set<string> := {
    "a", "an", "the", "and", "but", "or", "nor", "for", "so", "yet", "as", "at", "by",
    "down", "from", "in", "into", "like", "near", "of", "off", "on", "onto", "out", "over",
    "past", "per", "to", "up", "upon", "with", "via", "vs"
  }

  /**
    The same words as `MinorWords`, told apart by length and letters; this is the form the
    re-casing uses (`MinorWordsSpelled` proves the two agree).
  */
  predicate IsMinorWord(w: string) {
    (|w| == 1 && w[0] == 'a') ||
    (|w| == 2 && Minor2(w[0], w[1])) ||
    (|w| == 3 && Minor3(w[0], w[1], w[2])) ||
    (|w| == 4 && Minor4(w[0], w[1], w[2], w[3]))
  }

  /** an as at by in of on or so to up vs */
  predicate Minor2(a: char, b: char) {
    (a == 'a' && (b == 'n' || b == 's' || b == 't')) ||
    (a == 'b' && b == 'y') ||
    (a == 'i' && b == 'n') ||
    (a == 'o' && (b == 'f' || b == 'n' || b == 'r')) ||
    (a == 's' && b == 'o') ||
    (a == 't' && b == 'o') ||
    (a == 'u' && b == 'p') ||
    (a == 'v' && b == 's')
  }

  /** the and but nor for yet off out per via */
  predicate Minor3(a: char, b: char, c: char) {
    (a == 't' && b == 'h' && c == 'e') ||
    (a == 'a' && b == 'n' && c == 'd') ||
    (a == 'b' && b == 'u' && c == 't') ||
    (a == 'n' && b == 'o' && c == 'r') ||
    (a == 'f' && b == 'o' && c == 'r') ||
    (a == 'y' && b == 'e' && c == 't') ||
    (a == 'o' && b == 'f' && c == 'f') ||
    (a == 'o' && b == 'u' && c == 't') ||
    (a == 'p' && b == 'e' && c == 'r') ||
    (a == 'v' && b == 'i' && c == 'a')
  }

  /** down from into like near onto over past upon with */
  predicate Minor4(a: char, b: char, c: char, d: char) {
    (a == 'd' && b == 'o' && c == 'w' && d == 'n') ||
    (a == 'f' && b == 'r' && c == 'o' && d == 'm') ||
    (a == 'i' && b == 'n' && c == 't' && d == 'o') ||
    (a == 'l' && b == 'i' && c == 'k' && d == 'e') ||
    (a == 'n' && b == 'e' && c == 'a' && d == 'r') ||
    (a == 'o' && b == 'n' && c == 't' && d == 'o') ||
    (a == 'o' && b == 'v' && c == 'e' && d == 'r') ||
    (a == 'p' && b == 'a' && c == 's' && d == 't') ||
    (a == 'u' && b == 'p' && c == 'o' && d == 'n') ||
    (a == 'w' && b == 'i' && c == 't' && d == 'h')
  }

  /** The spelled-out predicate picks out exactly the words of the set. */
  lemma MinorWordsSpelled(w: string)
    ensures w in MinorWords <==> IsMinorWord(w)
  {
    if IsMinorWord(w) {
      if |w| == 1 { assert w == [w[0]]; }
      else if |w| == 2 { assert w == [w[0], w[1]]; }
      else if |w| == 3 { assert w == [w[0], w[1], w[2]]; }
      else { assert w == [w[0], w[1], w[2], w[3]]; }
    }
  }

  /** How one part of the split is re-cased; `first` is the first part of the split. */
  function TitlePart(part: string, first: string): string {
    if IsRoman(part) then Upper(part)
    else if !IsMinorWord(part) || part == first then Capitalize(part)
    else Lower(part)
  }

  /** Re-casing a part changes letter case only, so whitespace stays where it was. */
  lemma TitlePartCase(part: string, first: string)
    ensures SameUpToCase(TitlePart(part, first), part)
    ensures |TitlePart(part, first)| == |part|
    ensures forall i :: 0 <= i < |part| ==> IsSpace(TitlePart(part, first)[i]) == IsSpace(part[i])
  {
    CaseVariants(part);
  }

  /** `handle_title` */
  function HandleTitle(text: string): string {
    var parts := SplitWs(text);
    Concat(RecaseParts(parts, parts[0]))
  }

  /** The list `new_parts` built from `parts`, one re-cased part per part. */
  function RecaseParts(parts: seq<string>, first: string): (r: seq<string>)
    ensures |r| == |parts|
    ensures forall i :: 0 <= i < |parts| ==> r[i] == TitlePart(parts[i], first)
  {
    if parts == [] then [] else [TitlePart(parts[0], first)] + RecaseParts(parts[1..], first)
  }

  lemma {:induction false} ConcatSameUpToCase(a: seq<string>, b: seq<string>)
    requires |a| == |b| && forall i :: 0 <= i < |a| ==> SameUpToCase(a[i], b[i])
    ensures SameUpToCase(Concat(a), Concat(b))
  {
    if a != [] {
      ConcatSameUpToCase(a[1..], b[1..]);
      assert SameUpToCase(a[0], b[0]);
      var x, y := Concat(a[1..]), Concat(b[1..]);
      assert Concat(a) == a[0] + x && Concat(b) == b[0] + y;
      forall i | 0 <= i < |a[0]| + |x| ensures ToLower((a[0] + x)[i]) == ToLower((b[0] + y)[i]) {
        if i >= |a[0]| {
          assert (a[0] + x)[i] == x[i - |a[0]|];
          assert (b[0] + y)[i] == y[i - |b[0]|];
        }
      }
    }
  }

  /**
    Title casing changes only letter case: the length is the same and lower-casing the
    result gives the lower-cased input.
  */
  lemma HandleTitleOnlyCase(text: string)
    ensures |HandleTitle(text)| == |text|
    ensures Lower(HandleTitle(text)) == Lower(text)
  {
    var parts := SplitWs(text);
    var recased := RecaseParts(parts, parts[0]);
    forall i | 0 <= i < |parts| ensures SameUpToCase(recased[i], parts[i]) {
      TitlePartCase(parts[i], parts[0]);
    }
    ConcatSameUpToCase(recased, parts);
    SplitJoin(text);
    SameUpToCaseLower(HandleTitle(text), text);
  }

  /** A part made of whitespace is kept as it is. */
  lemma SpaceRunVerbatim(part: string, first: string)
    requires part != [] && AllSpace(part)
    ensures TitlePart(part, first) == part
  {
    NotRoman(part, 0);
  }

  /**
    Splitting the result gives the same number of parts as splitting the input: every
    whitespace run comes out verbatim and every other part is re-cased on its own.
  */
  lemma HandleTitleParts(text: string)
    ensures |SplitWs(HandleTitle(text))| == |SplitWs(text)|
    ensures forall i :: 0 <= i < |SplitWs(text)| && i % 2 == 1 ==>
      SplitWs(HandleTitle(text))[i] == SplitWs(text)[i]
    ensures forall i :: 0 <= i < |SplitWs(text)| && i % 2 == 0 ==>
      SplitWs(HandleTitle(text))[i] == TitlePart(SplitWs(text)[i], SplitWs(text)[0])
  {
    var parts := SplitWs(text);
    var recased := RecaseParts(parts, parts[0]);
    SplitWellFormed(text);
    forall i | 0 <= i < |parts|
      ensures (i % 2 == 0 ==> NoSpace(recased[i]) && (0 < i < |parts| - 1 ==> recased[i] != [])) &&
              (i % 2 == 1 ==> recased[i] != [] && AllSpace(recased[i]))
    {
      TitlePartCase(parts[i], parts[0]);
    }
    assert WellFormed(recased);
    JoinSplit(recased);
    forall i | 0 <= i < |parts| && i % 2 == 1 ensures recased[i] == parts[i] {
      SpaceRunVerbatim(parts[i], parts[0]);
    }
  }

  /** A numeral part is upper-cased in full, wherever it stands. */
  lemma RomanPartUpper(part: string, first: string)
    requires IsRoman(part)
    ensures TitlePart(part, first) == Upper(part)
  {
  }

  /** No minor word is a numeral, so the minor-word rule is never shadowed by the numeral rule. */
  lemma MinorWordsNotRoman(w: string)
    requires IsMinorWord(w)
    ensures !IsRoman(w)
  {
    if !IsRomanLetter(ToUpper(w[0])) {
      NotRoman(w, 0);
    } else if !IsRomanLetter(ToUpper(w[1])) {
      NotRoman(w, 1);
    } else {
      NotRoman(w, 2);
    }
  }

  /**
    A minor word is lower-cased unless it is equal to the first part of the split; the test
    is on the text, so a later copy of the first word is capitalized as well.
  */
  lemma MinorPartLower(part: string, first: string)
    requires IsMinorWord(part)
    ensures part != first ==> TitlePart(part, first) == Lower(part)
    ensures part == first ==> TitlePart(part, first) == Capitalize(part)
  {
    MinorWordsNotRoman(part);
  }

  // ---------------------------------------------------------------------------------------
  // The behaviour the unit tests of the repository pin down
  // ---------------------------------------------------------------------------------------

  /** Words separated by single spaces (`" ".join(words)`). */
  function Unwords(words: seq<string>): string
    requires |words| > 0
  {
    if |words| == 1 then words[0] else Unwords(words[..|words| - 1]) + " " + words[|words| - 1]
  }

  /** The first word, a space, then the rest. */
  lemma {:induction false} UnwordsCons(words: seq<string>)
    requires |words| > 1
    ensures Unwords(words) == words[0] + " " + Unwords(words[1..])
  {
    var n := |words|;
    var init, last := words[..n - 1], words[n - 1];
    if n == 2 {
      assert init == [words[0]] && words[1..] == [last];
    } else {
      UnwordsCons(init);
      assert init[1..] == words[1..][..n - 2];
      var u := Unwords(init[1..]);
      assert Unwords(words) == words[0] + " " + u + " " + last;
      assert Unwords(words[1..]) == u + " " + last;
    }
  }

  /** The split of `Unwords(words)`: the words with a single space between each pair. */
  function Interleave(words: seq<string>): (parts: seq<string>)
    requires |words| > 0
    ensures |parts| == 2 * |words| - 1 && parts[0] == words[0]
  {
    if |words| == 1 then [words[0]] else [words[0], " "] + Interleave(words[1..])
  }

  predicate PlainWords(words: seq<string>) {
    forall i :: 0 <= i < |words| ==> words[i] != [] && NoSpace(words[i])
  }

  lemma {:induction false} InterleaveWellFormed(words: seq<string>)
    requires |words| > 0 && PlainWords(words)
    ensures WellFormed(Interleave(words))
    ensures Concat(Interleave(words)) == Unwords(words)
  {
    if |words| > 1 {
      var tail := Interleave(words[1..]);
      InterleaveWellFormed(words[1..]);
      assert Interleave(words) == [words[0], " "] + tail;
      assert tail[0] == words[1];
      WellFormedCons(words[0], " ", tail);
      UnwordsCons(words);
      ConcatAppend([words[0], " "], tail);
      assert Concat([words[0], " "]) == words[0] + " ";
    }
  }

  /** `new_parts` of a spaced title: each word re-cased against the first word. */
  function RecaseWords(words: seq<string>, first: string): (r: seq<string>)
    ensures |r| == |words|
    ensures forall i :: 0 <= i < |words| ==> r[i] == TitlePart(words[i], first)
  {
    if words == [] then [] else [TitlePart(words[0], first)] + RecaseWords(words[1..], first)
  }

  lemma {:induction false} RecasePartsAppend(a: seq<string>, b: seq<string>, first: string)
    ensures RecaseParts(a + b, first) == RecaseParts(a, first) + RecaseParts(b, first)
  {
    if a == [] {
      assert a + b == b;
    } else {
      assert (a + b)[1..] == a[1..] + b;
      RecasePartsAppend(a[1..], b, first);
    }
  }

  lemma {:induction false} RecaseInterleave(words: seq<string>, first: string)
    requires |words| > 0
    ensures RecaseParts(Interleave(words), first) == Interleave(RecaseWords(words, first))
  {
    if |words| > 1 {
      var tail := words[1..];
      RecaseInterleave(tail, first);
      SpaceRunVerbatim(" ", first);
      RecasePartsAppend([words[0], " "], Interleave(tail), first);
      assert RecaseParts([words[0], " "], first) == [TitlePart(words[0], first), " "];
      assert RecaseWords(words, first)[1..] == RecaseWords(tail, first);
    }
  }

  /**
    For words separated by single spaces, title casing re-cases each word on its own against
    the first word and keeps the spaces.
  */
  lemma HandleTitleWords(words: seq<string>)
    requires |words| > 0 && PlainWords(words)
    ensures PlainWords(RecaseWords(words, words[0]))
    ensures HandleTitle(Unwords(words)) == Unwords(RecaseWords(words, words[0]))
  {
    var r := RecaseWords(words, words[0]);
    forall i | 0 <= i < |words| ensures r[i] != [] && NoSpace(r[i]) {
      TitlePartCase(words[i], words[0]);
    }
    InterleaveWellFormed(words);
    InterleaveWellFormed(r);
    JoinSplit(Interleave(words));
    RecaseInterleave(words, words[0]);
  }

  /** An ordinary word (not a numeral, not a minor word) is capitalized. */
  lemma OrdinaryWord(w: string, first: string, i: nat)
    requires i < |w| && !IsRomanLetter(ToUpper(w[i])) && !IsMinorWord(w)
    ensures TitlePart(w, first) == Capitalize(w)
  {
    NotRoman(w, i);
  }

  lemma Unwords2(ws: seq<string>)
    requires |ws| == 2
    ensures Unwords(ws) == ws[0] + " " + ws[1]
  {
    assert Unwords(ws[..1]) == ws[0];
  }

  lemma Unwords3(ws: seq<string>)
    requires |ws| == 3
    ensures Unwords(ws) == ws[0] + " " + ws[1] + " " + ws[2]
  {
    Unwords2(ws[..2]);
  }

  lemma Unwords4(ws: seq<string>)
    requires |ws| == 4
    ensures Unwords(ws) == ws[0] + " " + ws[1] + " " + ws[2] + " " + ws[3]
  {
    Unwords3(ws[..3]);
  }

  /**
    `HandleTitleWords` for a title of two words: given how each word is re-cased, the result is
    those re-cased words joined by single spaces.
  */
  lemma HandleTitleTwo(w1: string, w2: string, o1: string, o2: string, t: string)
    requires PlainWords([w1, w2]) && t == w1 + " " + w2
    requires TitlePart(w1, w1) == o1 && TitlePart(w2, w1) == o2
    ensures HandleTitle(t) == o1 + " " + o2
  {
    var ws := [w1, w2];
    var r := RecaseWords(ws, w1);
    assert HandleTitle(Unwords(ws)) == Unwords(r) by {
      HandleTitleWords(ws);
    }
    Unwords2(ws);
    Unwords2(r);
  }

  /** `HandleTitleWords` for a title of three words. */
  lemma HandleTitleThree(w1: string, w2: string, w3: string, o1: string, o2: string, o3: string, t: string)
    requires PlainWords([w1, w2, w3]) && t == w1 + " " + w2 + " " + w3
    requires TitlePart(w1, w1) == o1 && TitlePart(w2, w1) == o2 && TitlePart(w3, w1) == o3
    ensures HandleTitle(t) == o1 + " " + o2 + " " + o3
  {
    var ws := [w1, w2, w3];
    var r := RecaseWords(ws, w1);
    assert HandleTitle(Unwords(ws)) == Unwords(r) by {
      HandleTitleWords(ws);
    }
    Unwords3(ws);
    Unwords3(r);
  }

  /** `HandleTitleWords` for a title of four words. */
  lemma HandleTitleFour(w1: string, w2: string, w3: string, w4: string,
                        o1: string, o2: string, o3: string, o4: string, t: string)
    requires PlainWords([w1, w2, w3, w4]) && t == w1 + " " + w2 + " " + w3 + " " + w4
    requires TitlePart(w1, w1) == o1 && TitlePart(w2, w1) == o2
    requires TitlePart(w3, w1) == o3 && TitlePart(w4, w1) == o4
    ensures HandleTitle(t) == o1 + " " + o2 + " " + o3 + " " + o4
  {
    var ws := [w1, w2, w3, w4];
    var r := RecaseWords(ws, w1);
    assert HandleTitle(Unwords(ws)) == Unwords(r) by {
      HandleTitleWords(ws);
    }
    Unwords4(ws);
    Unwords4(r);
  }
}
