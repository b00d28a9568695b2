/**
 * Glossary queries: the term of the day, keyword search, the category
 * filter and the list of categories. The functions take the term table as
 * an argument; the site passes its constant table of terms.
 */
module Glossary {
  import opened Wrappers
  import opened Text
  import opened Lists

  datatype GlossaryTerm = GlossaryTerm(
    term: string,
    definition: string,
    category: string,
    relatedTerms: seq<string>,
    source: Option<string>)

  /**
   * `getTermOfDay`: the term at the day of the year modulo the table size,
   * so every day has a term of the table.
   */
  function TermOfDay(terms: seq<GlossaryTerm>, dayOfYear: nat): (t: GlossaryTerm)
    requires |terms| > 0
    ensures t in terms
  {
    terms[dayOfYear % |terms|]
  }

  /** The rotation repeats after as many days as there are terms. */
  lemma TermOfDayPeriodic(terms: seq<GlossaryTerm>, dayOfYear: nat)
    requires |terms| > 0
    ensures TermOfDay(terms, dayOfYear + |terms|) == TermOfDay(terms, dayOfYear)
  {
    ModShift(dayOfYear, |terms|);
  }

  lemma ModShift(d: nat, n: nat)
    requires n > 0
    ensures (d + n) % n == d % n
  {
    var q, r := d / n, d % n;
    assert d == q * n + r;
    assert d + n == (q + 1) * n + r;
    ModUnique(d + n, n, q + 1, r);
  }

  /** Division with remainder has one answer. */
  lemma ModUnique(a: int, n: int, q: int, r: int)
    requires n > 0 && 0 <= r < n && a == q * n + r
    ensures a % n == r
  {
    var q', r' := a / n, a % n;
    assert a == q' * n + r';
    if q' < q {
      MulMonotone(q' + 1, q, n);
      assert false;
    } else if q' > q {
      MulMonotone(q + 1, q', n);
      assert false;
    }
  }

  lemma MulMonotone(x: int, y: int, n: int)
    requires x <= y && n > 0
    ensures x * n <= y * n
  {
    assert y * n - x * n == (y - x) * n;
  }

  /** In the first cycle, day `d` shows the term at index `d`, so every term of the table gets its day. */
  lemma TermOfDayCycles(terms: seq<GlossaryTerm>, d: nat)
    requires d < |terms|
    ensures TermOfDay(terms, d) == terms[d]
  {
  }

  /** The test `searchTerms` applies, given the lower-cased query. */
  predicate MatchesQuery(t: GlossaryTerm, lowerQuery: string) {
    Contains(Lower(t.term), lowerQuery)
    || Contains(Lower(t.definition), lowerQuery)
    || Contains(Lower(t.category), lowerQuery)
  }

  /** `searchTerms`: the terms whose term, definition or category contains the query, ignoring case. */
  function SearchTerms(terms: seq<GlossaryTerm>, query: string): (r: seq<GlossaryTerm>)
    ensures |r| <= |terms|
    ensures forall i :: 0 <= i < |r| ==> MatchesQuery(r[i], Lower(query))
  {
    var lowerQuery := Lower(query);
    Filter(terms, t => MatchesQuery(t, lowerQuery))
  }

  /** A term is found exactly when it is in the table and matches. */
  lemma SearchTermsMembers(terms: seq<GlossaryTerm>, query: string, t: GlossaryTerm)
    ensures t in SearchTerms(terms, query) <==> t in terms && MatchesQuery(t, Lower(query))
  {
    var lowerQuery := Lower(query);
    FilterMembers(terms, t => MatchesQuery(t, lowerQuery), t);
  }

  /** The empty query finds every term, in table order. */
  lemma SearchEmptyQuery(terms: seq<GlossaryTerm>)
    ensures SearchTerms(terms, "") == terms
  {
    var lowerQuery := Lower("");
    assert lowerQuery == "";
    forall i | 0 <= i < |terms| ensures MatchesQuery(terms[i], lowerQuery) {
      ContainsEmpty(Lower(terms[i].term));
    }
    FilterAll(terms, t => MatchesQuery(t, lowerQuery));
  }

  /** `getTermsByCategory`: exact, case-sensitive category match. */
  function TermsByCategory(terms: seq<GlossaryTerm>, category: string): (r: seq<GlossaryTerm>)
    ensures |r| <= |terms|
    ensures forall i :: 0 <= i < |r| ==> r[i].category == category
  {
    Filter(terms, (t: GlossaryTerm) => t.category == category)
  }

  /** No term of the category is left out, and nothing else is let in. */
  lemma TermsByCategoryMembers(terms: seq<GlossaryTerm>, category: string, t: GlossaryTerm)
    ensures t in TermsByCategory(terms, category) <==> t in terms && t.category == category
  {
    FilterMembers(terms, (u: GlossaryTerm) => u.category == category, t);
  }

  /** `glossaryTerms.map(term => term.category)` */
  function CategoryColumn(terms: seq<GlossaryTerm>): (r: seq<string>)
    ensures |r| == |terms|
    ensures forall i :: 0 <= i < |terms| ==> r[i] == terms[i].category
  {
    seq(|terms|, i requires 0 <= i < |terms| => terms[i].category)
  }

  /** `getCategories`: each category once, in order of first appearance. */
  function Categories(terms: seq<GlossaryTerm>): (r: seq<string>)
    ensures NoDup(r)
    ensures forall i :: 0 <= i < |terms| ==> terms[i].category in r
    ensures forall i :: 0 <= i < |r| ==> exists j :: 0 <= j < |terms| && terms[j].category == r[i]
  {
    var column := CategoryColumn(terms);
    var r := Dedup(column);
    assert forall i :: 0 <= i < |terms| ==> column[i] in r;
    assert forall i :: 0 <= i < |r| ==> exists j :: 0 <= j < |terms| && column[j] == r[i] by {
      forall i | 0 <= i < |r| ensures exists j :: 0 <= j < |terms| && column[j] == r[i] {
        var j := FirstIndex(column, r[i]);
      }
    }
    r
  }

  /** Categories are listed in the order in which the table first uses them. */
  lemma CategoriesOrder(terms: seq<GlossaryTerm>)
    ensures var column, r := CategoryColumn(terms), Categories(terms);
      forall i, j :: 0 <= i < j < |r| ==> FirstIndex(column, r[i]) < FirstIndex(column, r[j])
  {
    DedupOrder(CategoryColumn(terms));
  }

  /** Every category returned has at least one term. */
  lemma CategoryHasTerms(terms: seq<GlossaryTerm>, c: string)
    requires c in Categories(terms)
    ensures TermsByCategory(terms, c) != []
  {
    var r := Categories(terms);
    var i :| 0 <= i < |r| && r[i] == c;
    var j :| 0 <= j < |terms| && terms[j].category == c;
    TermsByCategoryMembers(terms, c, terms[j]);
  }
}
