/**
 * The investment page's search over insights: an insight is shown when the
 * lower-cased search term occurs in its lower-cased title or description, and
 * the shown insights keep their order.
 */
module InsightFilter {
  import opened Text

  /** A video insight as the data service pushes it; the page only reads it. */
  datatype Insight = Insight(id: int, title: string, description: string, thumbnail: string, videoUrl: string, youtubeUrl: string)

  /** The search predicate of one insight. */
  predicate Matches(x: Insight, term: string) {
    Includes(Lower(x.title), Lower(term)) || Includes(Lower(x.description), Lower(term))
  }

  /** `insights.filter(...)`: the insights that match, in their original order. */
  function FilterInsights(insights: seq<Insight>, term: string): seq<Insight> {
    if insights == [] then []
    else (if Matches(insights[0], term) then [insights[0]] else []) + FilterInsights(insights[1..], term)
  }

  /** `r` is `s` with some elements left out and the rest in the same order. */
  predicate IsSubsequence(r: seq<Insight>, s: seq<Insight>)
    decreases |s|
  {
    || r == []
    || (s != [] && ((r[0] == s[0] && IsSubsequence(r[1..], s[1..])) || IsSubsequence(r, s[1..])))
  }

  /** An insight is shown exactly when it is one of the insights and it matches. */
  lemma {:induction false} FilterMembership(insights: seq<Insight>, term: string, x: Insight)
    ensures x in FilterInsights(insights, term) <==> x in insights && Matches(x, term)
  {
    if insights != [] {
      FilterMembership(insights[1..], term, x);
      assert insights == [insights[0]] + insights[1..];
    }
  }

  /** Each insight is shown as many times as it occurs if it matches, and not at all otherwise. */
  lemma {:induction false} FilterCounts(insights: seq<Insight>, term: string, x: Insight)
    ensures multiset(FilterInsights(insights, term))[x] == if Matches(x, term) then multiset(insights)[x] else 0
  {
    if insights != [] {
      FilterCounts(insights[1..], term, x);
      assert insights == [insights[0]] + insights[1..];
    }
  }

  /** Filtering a concatenation filters each part: the filter is stable. */
  lemma {:induction false} FilterAppend(a: seq<Insight>, b: seq<Insight>, term: string)
    ensures FilterInsights(a + b, term) == FilterInsights(a, term) + FilterInsights(b, term)
  {
    if a == [] {
      assert a + b == b;
    } else {
      assert (a + b)[0] == a[0] && (a + b)[1..] == a[1..] + b;
      FilterAppend(a[1..], b, term);
      var head := if Matches(a[0], term) then [a[0]] else [];
      assert FilterInsights(a + b, term) == head + (FilterInsights(a[1..], term) + FilterInsights(b, term));
    }
  }

  /** The shown insights are a subsequence of the insights. */
  lemma {:induction false} FilterIsSubsequence(insights: seq<Insight>, term: string)
    ensures IsSubsequence(FilterInsights(insights, term), insights)
  {
    if insights != [] {
      FilterIsSubsequence(insights[1..], term);
      var rest := FilterInsights(insights[1..], term);
      if Matches(insights[0], term) {
        var r := FilterInsights(insights, term);
        assert r == [insights[0]] + rest;
        assert r[0] == insights[0] && r[1..] == rest;
      } else {
        assert FilterInsights(insights, term) == rest;
      }
    }
  }

  /** With an empty search term every insight is shown, in order. */
  lemma {:induction false} FilterEmptyTerm(insights: seq<Insight>)
    ensures FilterInsights(insights, "") == insights
  {
    if insights != [] {
      assert Lower("") == "";
      IncludesEmpty(Lower(insights[0].title));
      FilterEmptyTerm(insights[1..]);
    }
  }

  /** Search terms that differ only in letter case show the same insights. */
  lemma {:induction false} FilterIgnoresTermCase(insights: seq<Insight>, t1: string, t2: string)
    requires EqualsIgnoreCase(t1, t2)
    ensures FilterInsights(insights, t1) == FilterInsights(insights, t2)
  {
    if insights != [] {
      FilterIgnoresTermCase(insights[1..], t1, t2);
    }
  }

  /** Filtering twice with the same term shows the same insights as filtering once. */
  lemma {:induction false} FilterIdempotent(insights: seq<Insight>, term: string)
    ensures FilterInsights(FilterInsights(insights, term), term) == FilterInsights(insights, term)
  {
    if insights != [] {
      var head := if Matches(insights[0], term) then [insights[0]] else [];
      FilterAppend(head, FilterInsights(insights[1..], term), term);
      FilterIdempotent(insights[1..], term);
      if Matches(insights[0], term) {
        assert FilterInsights(head, term) == head;
      }
    }
  }
}
