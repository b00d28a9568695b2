/**
 * URL slugs. Two regular-expression pipelines produce them: the WordPress
 * migration's `slugify` and the kebab-case pipeline the article editor and
 * the OPML importer share (lower-case, every run of characters other than
 * `[a-z0-9]` becomes one `-`, dashes at either end dropped).
 */
module Slugs {
  import opened Text
  import Lists

  predicate IsAlnumLower(c: char) { IsLowerLetter(c) || IsDigit(c) }

  /** Every character is a lower-case letter, a digit or a dash. */
  predicate SlugChars(s: string) {
    forall i :: 0 <= i < |s| ==> IsAlnumLower(s[i]) || s[i] == '-'
  }

  /** No two dashes are adjacent. */
  predicate SingleDashes(s: string) {
    forall i :: 0 <= i < |s| - 1 ==> s[i] != '-' || s[i + 1] != '-'
  }

  /** The shape both pipelines produce: `[a-z0-9]` words joined by single dashes. */
  predicate IsSlug(s: string) {
    SlugChars(s) && SingleDashes(s) && (s == [] || (s[0] != '-' && s[|s| - 1] != '-'))
  }

  predicate IsDash(c: char) { c == '-' }

  /** `[^a-z0-9]` */
  predicate NotAlnumLower(c: char) { !IsAlnumLower(c) }

  /** `[\s_-]` */
  predicate IsSlugSeparator(c: char) { IsJsSpace(c) || c == '_' || c == '-' }

  /** `[\w\s-]`, the characters `slugify` keeps before collapsing. */
  predicate IsSlugKept(c: char) { IsWordChar(c) || IsJsSpace(c) || c == '-' }

  /**
   * `s.replace(/[sep]+/g, '-')`: every maximal run of separator characters
   * becomes a single dash. Because the dash is itself a separator, no two
   * dashes end up adjacent.
   */
  function CollapseRuns(s: string, sep: char -> bool): (r: string)
    requires sep('-')
    ensures SingleDashes(r)
    ensures s == [] <==> r == []
    ensures s != [] ==> (r[0] == '-' <==> sep(s[0]))
    decreases |s|
  {
    if s == [] then []
    else if sep(s[0]) then
      var rest := TrimStartWith(s, sep);
      "-" + CollapseRuns(rest, sep)
    else
      [s[0]] + CollapseRuns(s[1..], sep)
  }

  /** What survives a collapse: dashes and characters that were in the text and are no separators. */
  lemma {:induction false} CollapseChars(s: string, sep: char -> bool, ok: char -> bool)
    requires sep('-')
    requires forall i :: 0 <= i < |s| ==> ok(s[i]) || sep(s[i])
    ensures forall i :: 0 <= i < |CollapseRuns(s, sep)| ==>
              CollapseRuns(s, sep)[i] == '-' || (ok(CollapseRuns(s, sep)[i]) && !sep(CollapseRuns(s, sep)[i]))
    decreases |s|
  {
    if s != [] {
      if sep(s[0]) {
        CollapseChars(TrimStartWith(s, sep), sep, ok);
      } else {
        CollapseChars(s[1..], sep, ok);
      }
    }
  }

  /** `s.replace(/^-+|-+$/g, '')` */
  function StripDashes(s: string): (r: string)
    ensures r == [] || (r[0] != '-' && r[|r| - 1] != '-')
  {
    TrimEndWith(TrimStartWith(s, IsDash), IsDash)
  }

  /** Stripping the edge dashes of a string of slug characters without double dashes leaves a slug. */
  lemma SlugShape(c: string)
    requires SlugChars(c) && SingleDashes(c)
    ensures IsSlug(StripDashes(c))
  {
    var t := TrimStartWith(c, IsDash);
    var k := LeadingCount(c, IsDash);
    assert SlugChars(t) && SingleDashes(t) by {
      assert forall i :: 0 <= i < |t| ==> t[i] == c[k + i];
    }
    var r := TrimEndWith(t, IsDash);
    assert forall i :: 0 <= i < |r| ==> r[i] == t[i];
  }

  /** The slug pipeline of the article editor and the OPML category import. */
  function Kebab(s: string): (r: string)
    ensures IsSlug(r)
  {
    var c := CollapseRuns(Lower(s), NotAlnumLower);
    CollapseChars(Lower(s), NotAlnumLower, IsAlnumLower);
    SlugShape(c);
    StripDashes(c)
  }

  /** `slugify` of the WordPress migration. */
  function Slugify(s: string): (r: string)
    ensures IsSlug(r)
  {
    var kept := Lists.Filter(Trim(Lower(s)), IsSlugKept);
    var c := CollapseRuns(kept, IsSlugSeparator);
    SlugifyChars(s);
    CollapseChars(kept, IsSlugSeparator, LowerOrSeparator);
    SlugShape(c);
    StripDashes(c)
  }

  predicate LowerOrSeparator(c: char) { IsAlnumLower(c) || IsSlugSeparator(c) }

  predicate NoUpper(s: string) {
    forall i :: 0 <= i < |s| ==> !('A' <= s[i] <= 'Z')
  }

  lemma NoUpperTrim(s: string)
    requires NoUpper(s)
    ensures NoUpper(Trim(s))
  {
    var k, m := TrimSlice(s, IsJsSpace);
    forall i | 0 <= i < m - k ensures !('A' <= s[k..m][i] <= 'Z') {
      assert s[k..m][i] == s[k + i];
    }
  }

  /** After lower-casing, trimming and dropping `[^\w\s-]`, only slug characters and separators remain. */
  lemma SlugifyChars(s: string)
    ensures forall i :: 0 <= i < |Lists.Filter(Trim(Lower(s)), IsSlugKept)| ==>
              LowerOrSeparator(Lists.Filter(Trim(Lower(s)), IsSlugKept)[i])
  {
    var t := Trim(Lower(s));
    LowerNoUpper(s);
    NoUpperTrim(Lower(s));
    var kept := Lists.Filter(t, IsSlugKept);
    forall i | 0 <= i < |kept| ensures LowerOrSeparator(kept[i]) {
      Lists.FilterMembers(t, IsSlugKept, kept[i]);
      NoUpperIn(t, kept[i]);
      KeptLower(kept[i]);
    }
  }

  lemma LowerNoUpper(s: string)
    ensures NoUpper(Lower(s))
  {
    forall i | 0 <= i < |s| ensures !('A' <= Lower(s)[i] <= 'Z') {
      assert Lower(s)[i] == LowerChar(s[i]);
    }
  }

  lemma NoUpperIn(s: string, c: char)
    requires NoUpper(s) && c in s
    ensures !('A' <= c <= 'Z')
  {
    var j :| 0 <= j < |s| && s[j] == c;
  }

  /** A kept character that is not upper case is a slug character or a separator. */
  lemma KeptLower(c: char)
    requires IsSlugKept(c) && !('A' <= c <= 'Z')
    ensures LowerOrSeparator(c)
  {
  }

  lemma TrimSlug(s: string)
    requires SlugChars(s)
    ensures Trim(s) == s
  {
    assert s == [] || !IsJsSpace(s[0]);
    assert LeadingCount(s, IsJsSpace) == 0;
    assert s == [] || !IsJsSpace(s[|s| - 1]);
    assert TrailingCount(s, IsJsSpace) == 0;
  }

  /** A slug has no run to collapse: each separator in it is a single dash. */
  lemma {:induction false} CollapseFixed(s: string, sep: char -> bool)
    requires sep('-')
    requires forall i :: 0 <= i < |s| ==> s[i] == '-' || !sep(s[i])
    requires SingleDashes(s)
    ensures CollapseRuns(s, sep) == s
    decreases |s|
  {
    if s != [] {
      if s[0] == '-' {
        if |s| > 1 {
          assert s[1] != '-';
        }
        assert LeadingCount(s[1..], sep) == 0;
        assert LeadingCount(s, sep) == 1;
      }
      CollapseFixed(s[1..], sep);
      assert [s[0]] + s[1..] == s;
    }
  }

  lemma StripFixed(s: string)
    requires IsSlug(s)
    ensures StripDashes(s) == s
  {
    assert LeadingCount(s, IsDash) == 0;
    assert TrailingCount(s, IsDash) == 0;
  }

  lemma LowerFixed(s: string)
    requires SlugChars(s)
    ensures Lower(s) == s
  {
  }

  /** A string already of slug shape passes through the kebab pipeline unchanged. */
  lemma KebabFixed(s: string)
    requires IsSlug(s)
    ensures Kebab(s) == s
  {
    LowerFixed(s);
    CollapseFixed(s, NotAlnumLower);
    StripFixed(s);
  }

  /** A string already of slug shape passes through `slugify` unchanged. */
  lemma SlugifyFixed(s: string)
    requires IsSlug(s)
    ensures Slugify(s) == s
  {
    LowerFixed(s);
    TrimSlug(s);
    assert forall i :: 0 <= i < |s| ==> IsSlugKept(s[i]);
    Lists.FilterAll(s, IsSlugKept);
    assert forall i :: 0 <= i < |s| ==> s[i] == '-' || !IsSlugSeparator(s[i]);
    CollapseFixed(s, IsSlugSeparator);
    StripFixed(s);
  }

  /** Collapsing separator runs keeps every letter and digit, in order. */
  lemma {:induction false} CollapseKeepsAlnum(s: string, sep: char -> bool)
    requires sep('-')
    requires forall i :: 0 <= i < |s| ==> (IsAlnumLower(s[i]) <==> !sep(s[i]))
    ensures Lists.Filter(CollapseRuns(s, sep), IsAlnumLower) == Lists.Filter(s, IsAlnumLower)
    decreases |s|
  {
    if s == [] {
    } else if sep(s[0]) {
      var k := LeadingCount(s, sep);
      var rest := s[k..];
      assert rest == TrimStartWith(s, sep);
      assert forall i :: 0 <= i < |rest| ==> rest[i] == s[k + i];
      assert forall i :: 0 <= i < |rest| ==> (IsAlnumLower(rest[i]) <==> !sep(rest[i]));
      CollapseKeepsAlnum(rest, sep);
      SeparatorRunKeeps(s, sep, k);
      DropNone("-", CollapseRuns(rest, sep), IsAlnumLower);
    } else {
      var rest := s[1..];
      assert forall i :: 0 <= i < |rest| ==> rest[i] == s[1 + i];
      assert forall i :: 0 <= i < |rest| ==> (IsAlnumLower(rest[i]) <==> !sep(rest[i]));
      CollapseKeepsAlnum(rest, sep);
      assert s == [s[0]] + rest;
      Lists.FilterConcat([s[0]], rest, IsAlnumLower);
      Lists.FilterConcat([s[0]], CollapseRuns(rest, sep), IsAlnumLower);
    }
  }

  lemma SeparatorRunKeeps(s: string, sep: char -> bool, k: nat)
    requires k <= |s|
    requires forall i :: 0 <= i < k ==> sep(s[i])
    requires forall i :: 0 <= i < |s| ==> (IsAlnumLower(s[i]) <==> !sep(s[i]))
    ensures Lists.Filter(s, IsAlnumLower) == Lists.Filter(s[k..], IsAlnumLower)
  {
    var pre := s[..k];
    assert s == pre + s[k..];
    assert forall i :: 0 <= i < |pre| ==> !IsAlnumLower(pre[i]);
    DropNone(pre, s[k..], IsAlnumLower);
  }

  /** A prefix of rejected characters does not change a filter. */
  lemma DropNone(pre: string, s: string, f: char -> bool)
    requires forall i :: 0 <= i < |pre| ==> !f(pre[i])
    ensures Lists.Filter(pre + s, f) == Lists.Filter(s, f)
  {
    Lists.FilterConcat(pre, s, f);
    Lists.FilterNone(pre, f);
  }

  /** Removing characters that fail a test at both ends keeps what passes it. */
  lemma TrimKeeps(s: string, ws: char -> bool, f: char -> bool)
    requires forall i :: 0 <= i < |s| ==> ws(s[i]) ==> !f(s[i])
    ensures Lists.Filter(TrimEndWith(TrimStartWith(s, ws), ws), f) == Lists.Filter(s, f)
  {
    var k, m := TrimSlice(s, ws);
    Lists.FilterMiddle(s, k, m, f);
  }

  /** The kebab slug holds exactly the letters and digits of the lower-cased text, in order. */
  lemma KebabKeepsAlnum(s: string)
    ensures Lists.Filter(Kebab(s), IsAlnumLower) == Lists.Filter(Lower(s), IsAlnumLower)
  {
    var c := CollapseRuns(Lower(s), NotAlnumLower);
    CollapseKeepsAlnum(Lower(s), NotAlnumLower);
    StripKeeps(c);
  }

  /** `slugify` also keeps exactly the letters and digits of the lower-cased title, in order. */
  lemma SlugifyKeepsAlnum(s: string)
    ensures Lists.Filter(Slugify(s), IsAlnumLower) == Lists.Filter(Lower(s), IsAlnumLower)
  {
    var kept := Lists.Filter(Trim(Lower(s)), IsSlugKept);
    var c := CollapseRuns(kept, IsSlugSeparator);
    SlugifyTrimKeeps(s);
    SlugifyCollapseKeeps(s);
    StripKeeps(c);
    assert Slugify(s) == StripDashes(c);
  }

  lemma SlugifyTrimKeeps(s: string)
    ensures Lists.Filter(Lists.Filter(Trim(Lower(s)), IsSlugKept), IsAlnumLower)
         == Lists.Filter(Lower(s), IsAlnumLower)
  {
    var l := Lower(s);
    var t := Trim(l);
    assert forall i :: 0 <= i < |l| ==> IsJsSpace(l[i]) ==> !IsAlnumLower(l[i]);
    TrimKeeps(l, IsJsSpace, IsAlnumLower);
    assert forall i :: 0 <= i < |t| ==> IsAlnumLower(t[i]) ==> IsSlugKept(t[i]);
    Lists.FilterFilter(t, IsSlugKept, IsAlnumLower);
  }

  lemma SlugifyCollapseKeeps(s: string)
    ensures var kept := Lists.Filter(Trim(Lower(s)), IsSlugKept);
            Lists.Filter(CollapseRuns(kept, IsSlugSeparator), IsAlnumLower) == Lists.Filter(kept, IsAlnumLower)
  {
    var kept := Lists.Filter(Trim(Lower(s)), IsSlugKept);
    SlugifyChars(s);
    assert forall i :: 0 <= i < |kept| ==> (IsAlnumLower(kept[i]) <==> !IsSlugSeparator(kept[i]));
    CollapseKeepsAlnum(kept, IsSlugSeparator);
  }

  lemma StripKeeps(c: string)
    ensures Lists.Filter(StripDashes(c), IsAlnumLower) == Lists.Filter(c, IsAlnumLower)
  {
    assert forall i :: 0 <= i < |c| ==> IsDash(c[i]) ==> !IsAlnumLower(c[i]);
    TrimKeeps(c, IsDash, IsAlnumLower);
  }

  /** Both pipelines are idempotent. */
  lemma SlugsIdempotent(s: string)
    ensures Kebab(Kebab(s)) == Kebab(s)
    ensures Slugify(Slugify(s)) == Slugify(s)
  {
    KebabFixed(Kebab(s));
    SlugifyFixed(Slugify(s));
  }
}
