/**
  `generate_slug`: the file-system and link name of a title. The source applies a fixed
  chain of `str.replace` calls and then `lower()`; the model keeps that chain and proves it
  equal to a character-by-character translation, from which the slug properties follow.
*/
module Slug {
  import opened Chars

  /** Python's `s.replace(c, t)` for a one-character `c`: every occurrence, left to right. */
  function Replace(s: string, c: char, t: string): (r: string)
    ensures c !in t ==> c !in r
  {
    if s == [] then [] else (if s[0] == c then t else [s[0]]) + Replace(s[1..], c, t)
  }

  lemma {:induction false} ReplaceAppend(a: string, b: string, c: char, t: string)
    ensures Replace(a + b, c, t) == Replace(a, c, t) + Replace(b, c, t)
  {
    if a != [] {
      var h := if a[0] == c then t else [a[0]];
      assert (a + b)[0] == a[0] && (a + b)[1..] == a[1..] + b;
      ReplaceAppend(a[1..], b, c, t);
      calc {
        Replace(a + b, c, t);
        h + Replace(a[1..] + b, c, t);
        h + (Replace(a[1..], c, t) + Replace(b, c, t));
        (h + Replace(a[1..], c, t)) + Replace(b, c, t);
      }
    } else {
      assert a + b == b;
    }
  }

  lemma LowerAppend(a: string, b: string)
    ensures Lower(a + b) == Lower(a) + Lower(b)
  {
  }

  /** The replace chain before lower-casing. */
  function Chain(title: string): string {
    Replace(Replace(Replace(Replace(Replace(Replace(Replace(Replace(Replace(
      title, '(', ""), ')', ""), ' ', "_"), ':', "_-"), '/', "-"), '?', ""), '!', ""), ',', ""), '\'', "")
  }

  /** The slug of a title, as the source computes it. */
  function GenerateSlug(title: string): string {
    Lower(Chain(title))
  }

  /** Characters that never appear in a slug. */
  predicate Forbidden(c: char) {
    c == '(' || c == ')' || c == ' ' || c == ':' || c == '/' || c == '?' || c == '!' || c == ',' || c == '\'' ||
    IsUpper(c)
  }

  /** What one title character becomes in the slug. */
  function SlugChar(c: char): string {
    match c
    case '(' => ""
    case ')' => ""
    case ' ' => "_"
    case ':' => "_-"
    case '/' => "-"
    case '?' => ""
    case '!' => ""
    case ',' => ""
    case '\'' => ""
    case _ => [ToLower(c)]
  }

  /** Reference definition: translate each character on its own. */
  function SlugOf(s: string): string {
    if s == [] then [] else SlugChar(s[0]) + SlugOf(s[1..])
  }

  lemma {:induction false} GenerateSlugAppend(a: string, b: string)
    ensures GenerateSlug(a + b) == GenerateSlug(a) + GenerateSlug(b)
  {
    var s0, t0 := a, b;
    ReplaceAppend(s0, t0, '(', "");
    var s1, t1 := Replace(s0, '(', ""), Replace(t0, '(', "");
    ReplaceAppend(s1, t1, ')', "");
    var s2, t2 := Replace(s1, ')', ""), Replace(t1, ')', "");
    ReplaceAppend(s2, t2, ' ', "_");
    var s3, t3 := Replace(s2, ' ', "_"), Replace(t2, ' ', "_");
    ReplaceAppend(s3, t3, ':', "_-");
    var s4, t4 := Replace(s3, ':', "_-"), Replace(t3, ':', "_-");
    ReplaceAppend(s4, t4, '/', "-");
    var s5, t5 := Replace(s4, '/', "-"), Replace(t4, '/', "-");
    ReplaceAppend(s5, t5, '?', "");
    var s6, t6 := Replace(s5, '?', ""), Replace(t5, '?', "");
    ReplaceAppend(s6, t6, '!', "");
    var s7, t7 := Replace(s6, '!', ""), Replace(t6, '!', "");
    ReplaceAppend(s7, t7, ',', "");
    var s8, t8 := Replace(s7, ',', ""), Replace(t7, ',', "");
    ReplaceAppend(s8, t8, '\'', "");
    LowerAppend(Replace(s8, '\'', ""), Replace(t8, '\'', ""));
  }

  lemma {:induction false} ReplaceAbsent(s: string, c: char, t: string)
    requires c !in s
    ensures Replace(s, c, t) == s
  {
    if s != [] {
      ReplaceAbsent(s[1..], c, t);
    }
  }

  lemma ReplaceOne(x: char, c: char, t: string)
    ensures Replace([x], c, t) == if x == c then t else [x]
  {
    assert [x][1..] == [];
  }

  /** The first three replacements of the chain. */
  function Head(s: string): string {
    Replace(Replace(Replace(s, '(', ""), ')', ""), ' ', "_")
  }

  /** The last six replacements of the chain. */
  function Tail(s: string): string {
    Replace(Replace(Replace(Replace(Replace(Replace(s, ':', "_-"), '/', "-"), '?', ""), '!', ""), ',', ""), '\'', "")
  }

  lemma HeadChar(c: char)
    ensures Head([c]) == if c == '(' || c == ')' then [] else if c == ' ' then "_" else [c]
  {
    ReplaceOne(c, '(', "");
    if c != '(' {
      ReplaceOne(c, ')', "");
      if c != ')' {
        ReplaceOne(c, ' ', "_");
      }
    }
  }

  /** The last six replacements leave a string without their characters alone. */
  lemma TailKeeps(s: string)
    requires ':' !in s && '/' !in s && '?' !in s && '!' !in s && ',' !in s && '\'' !in s
    ensures Tail(s) == s
  {
    ReplaceAbsent(s, ':', "_-");
    ReplaceAbsent(s, '/', "-");
    ReplaceAbsent(s, '?', "");
    ReplaceAbsent(s, '!', "");
    ReplaceAbsent(s, ',', "");
    ReplaceAbsent(s, '\'', "");
  }

  lemma TailChar(c: char)
    requires c != '(' && c != ')' && c != ' '
    ensures Tail([c]) == SlugCharCased(c)
  {
    var s4 := Replace([c], ':', "_-");
    ReplaceOne(c, ':', "_-");
    if c == ':' {
      TailKeeps(s4);
      assert Tail([c]) == Tail(s4) == s4;
    } else {
      assert s4 == [c];
      var s5 := Replace(s4, '/', "-");
      ReplaceOne(c, '/', "-");
      if c == '/' {
        assert s5 == "-";
        ReplaceAbsent(s5, '?', "");
        ReplaceAbsent(s5, '!', "");
        ReplaceAbsent(s5, ',', "");
        ReplaceAbsent(s5, '\'', "");
      } else {
        assert s5 == [c];
        ReplaceOne(c, '?', "");
        ReplaceOne(c, '!', "");
        ReplaceOne(c, ',', "");
        ReplaceOne(c, '\'', "");
        if c == '?' || c == '!' || c == ',' {
          ReplaceAbsent([], '!', "");
          ReplaceAbsent([], ',', "");
          ReplaceAbsent([], '\'', "");
        }
      }
    }
  }

  /** What one character becomes before lower-casing. */
  function SlugCharCased(c: char): string {
    match c
    case '(' => ""
    case ')' => ""
    case ' ' => "_"
    case ':' => "_-"
    case '/' => "-"
    case '?' => ""
    case '!' => ""
    case ',' => ""
    case '\'' => ""
    case _ => [c]
  }

  lemma GenerateSlugChar(c: char)
    ensures GenerateSlug([c]) == SlugChar(c)
  {
    assert GenerateSlug([c]) == Lower(Tail(Head([c])));
    HeadChar(c);
    if c == '(' || c == ')' {
      TailKeeps([]);
    } else if c == ' ' {
      TailKeeps("_");
    } else {
      TailChar(c);
    }
  }

  /** The replace chain equals the per-character translation. */
  lemma {:induction false} GenerateSlugIsSlugOf(s: string)
    ensures GenerateSlug(s) == SlugOf(s)
  {
    if s != [] {
      assert s == [s[0]] + s[1..];
      GenerateSlugAppend([s[0]], s[1..]);
      GenerateSlugChar(s[0]);
      GenerateSlugIsSlugOf(s[1..]);
    }
  }

  lemma {:induction false} SlugOfClean(s: string)
    ensures forall i :: 0 <= i < |SlugOf(s)| ==> !Forbidden(SlugOf(s)[i])
  {
    if s != [] {
      SlugOfClean(s[1..]);
      var h := SlugChar(s[0]);
      assert forall i :: 0 <= i < |h| ==> !Forbidden(h[i]);
    }
  }

  /**
    A slug contains none of `(`, `)`, space, `:`, `/`, `?`, `!`, `,`, `'` and no upper-case
    letter.
  */
  lemma SlugIsClean(title: string)
    ensures forall i :: 0 <= i < |GenerateSlug(title)| ==> !Forbidden(GenerateSlug(title)[i])
  {
    GenerateSlugIsSlugOf(title);
    SlugOfClean(title);
  }

  /**
    Slugs compose: the slug of `a + [c] + b` is the slug of `a`, then what `c` becomes, then
    the slug of `b`.
  */
  lemma SlugSplits(a: string, c: char, b: string)
    ensures GenerateSlug(a + [c] + b) == GenerateSlug(a) + SlugChar(c) + GenerateSlug(b)
  {
    GenerateSlugAppend(a + [c], b);
    GenerateSlugAppend(a, [c]);
    GenerateSlugChar(c);
  }

  lemma {:induction false} SlugOfFixesClean(s: string)
    requires forall i :: 0 <= i < |s| ==> !Forbidden(s[i])
    ensures SlugOf(s) == s
  {
    if s != [] {
      SlugOfFixesClean(s[1..]);
    }
  }

  /** Slugifying a slug changes nothing. */
  lemma SlugIdempotent(title: string)
    ensures GenerateSlug(GenerateSlug(title)) == GenerateSlug(title)
  {
    var s := GenerateSlug(title);
    SlugIsClean(title);
    GenerateSlugIsSlugOf(s);
    SlugOfFixesClean(s);
  }
}
