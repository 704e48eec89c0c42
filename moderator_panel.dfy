/** The queue view of src/components/ModeratorPanel.tsx:30-54: a status filter
    combined with a case-insensitive search over three fields, a stable sort by
    timestamp, newest or oldest first, and the toggle between the two orders.
    Timestamps are the integers `new Date(timestamp).getTime()` gives. */
module ModeratorPanel {
  import opened Text
  import opened Ranking
  import opened MockData

  datatype SortOrder = Newest | Oldest

  /** `toggleSortOrder`. */
  function Toggle(o: SortOrder): SortOrder
  {
    if o == Newest then Oldest else Newest
  }

  /** The toggle always changes the order and undoes itself. */
  lemma ToggleFlips(o: SortOrder)
    ensures Toggle(o) != o
    ensures Toggle(Toggle(o)) == o
  {
  }

  /** `filter === "all" || tweet.status === filter`. */
  predicate MatchesFilter(filter: string, t: Tweet)
  {
    filter == "all" || StatusName(t.status) == filter
  }

  /** The lower-cased query occurs in the lower-cased content, username or
      name. */
  predicate MatchesSearch(query: string, t: Tweet)
  {
    ContainsIgnoreCase(t.content, query) || ContainsIgnoreCase(t.username, query)
    || ContainsIgnoreCase(t.name, query)
  }

  function Keep(filter: string, query: string): Tweet -> bool
  {
    (t: Tweet) => MatchesFilter(filter, t) && MatchesSearch(query, t)
  }

  /** `filteredTweets`. */
  function FilteredTweets(ts: seq<Tweet>, filter: string, query: string): seq<Tweet>
  {
    Filter(ts, Keep(filter, query))
  }

  function Timestamp(t: Tweet): int { t.timestamp }

  function NegatedTimestamp(t: Tweet): int { -t.timestamp }

  /** Newest first sorts by descending timestamp; oldest first by ascending
      timestamp, the descending sort of the negated timestamp. */
  function SortKey(o: SortOrder): Tweet -> int
  {
    if o == Newest then Timestamp else NegatedTimestamp
  }

  /** `sortedTweets`: a stable sort of a copy of the filtered list. */
  function SortedTweets(ts: seq<Tweet>, filter: string, query: string, o: SortOrder): seq<Tweet>
  {
    SortDesc(FilteredTweets(ts, filter, query), SortKey(o))
  }

  // ---------------------------------------------------------------------------
  // Filtering

  /** The filtered list keeps input order and keeps exactly the tweets that
      pass both the status filter and the search. */
  lemma FilteredSpec(ts: seq<Tweet>, filter: string, query: string)
    ensures IsSubseq(FilteredTweets(ts, filter, query), ts)
    ensures forall t :: t in FilteredTweets(ts, filter, query) ==>
      t in ts && MatchesFilter(filter, t) && MatchesSearch(query, t)
    ensures forall i :: 0 <= i < |ts| && MatchesFilter(filter, ts[i]) && MatchesSearch(query, ts[i]) ==>
      ts[i] in FilteredTweets(ts, filter, query)
  {
    FilterIsSubseq(ts, Keep(filter, query));
  }

  /** "all" excludes nothing by status; any other filter keeps only tweets
      whose status string is the filter. */
  lemma StatusFilterSpec(filter: string, t: Tweet)
    ensures filter == "all" ==> MatchesFilter(filter, t)
    ensures filter != "all" ==> (MatchesFilter(filter, t) <==> StatusName(t.status) == filter)
  {
  }

  /** A tweet passes the search exactly when the lower-cased query occurs
      somewhere in one of the three lower-cased fields. */
  lemma SearchSpec(query: string, t: Tweet)
    ensures MatchesSearch(query, t) <==>
      Occurs(Lower(t.content), Lower(query)) || Occurs(Lower(t.username), Lower(query))
      || Occurs(Lower(t.name), Lower(query))
  {
    ContainsOccurs(Lower(t.content), Lower(query));
    ContainsOccurs(Lower(t.username), Lower(query));
    ContainsOccurs(Lower(t.name), Lower(query));
  }

  /** The empty query passes every tweet. */
  lemma EmptyQueryPassesAll(t: Tweet)
    ensures MatchesSearch("", t)
  {
    ContainsEmpty(Lower(t.content));
  }

  /** With no filter and no query the view is the whole input. */
  lemma {:induction false} NoFilterNoQuery(ts: seq<Tweet>)
    ensures FilteredTweets(ts, "all", "") == ts
  {
    if ts != [] {
      EmptyQueryPassesAll(ts[0]);
      NoFilterNoQuery(ts[1..]);
    }
  }

  // ---------------------------------------------------------------------------
  // Sorting

  /** The sorted list is a permutation of the filtered list. */
  lemma SortedIsPermutation(ts: seq<Tweet>, filter: string, query: string, o: SortOrder)
    ensures multiset(SortedTweets(ts, filter, query, o)) == multiset(FilteredTweets(ts, filter, query))
    ensures |SortedTweets(ts, filter, query, o)| == |FilteredTweets(ts, filter, query)|
  {
    SortDescProps(FilteredTweets(ts, filter, query), SortKey(o));
  }

  /** Newest first: timestamps never increase along the list. */
  lemma NewestOrder(ts: seq<Tweet>, filter: string, query: string)
    ensures forall i, j :: 0 <= i < j < |SortedTweets(ts, filter, query, Newest)| ==>
      SortedTweets(ts, filter, query, Newest)[i].timestamp >= SortedTweets(ts, filter, query, Newest)[j].timestamp
  {
    SortDescProps(FilteredTweets(ts, filter, query), Timestamp);
  }

  /** Oldest first: timestamps never decrease along the list. */
  lemma OldestOrder(ts: seq<Tweet>, filter: string, query: string)
    ensures forall i, j :: 0 <= i < j < |SortedTweets(ts, filter, query, Oldest)| ==>
      SortedTweets(ts, filter, query, Oldest)[i].timestamp <= SortedTweets(ts, filter, query, Oldest)[j].timestamp
  {
    var s := SortedTweets(ts, filter, query, Oldest);
    SortDescProps(FilteredTweets(ts, filter, query), NegatedTimestamp);
    assert forall i, j :: 0 <= i < j < |s| ==> NegatedTimestamp(s[i]) >= NegatedTimestamp(s[j]);
  }

  /** The tweets of one timestamp, in list order, are the same for both
      keys. */
  lemma {:induction false} SelectNegated(s: seq<Tweet>, v: int)
    ensures Select(s, NegatedTimestamp, -v) == Select(s, Timestamp, v)
  {
    if s != [] {
      SelectNegated(s[1..], v);
    }
  }

  /** Tweets with equal timestamps keep their filtered order, in both sort
      orders. */
  lemma SortIsStable(ts: seq<Tweet>, filter: string, query: string, o: SortOrder)
    ensures forall v :: Select(SortedTweets(ts, filter, query, o), Timestamp, v)
                        == Select(FilteredTweets(ts, filter, query), Timestamp, v)
  {
    var f := FilteredTweets(ts, filter, query);
    var s := SortedTweets(ts, filter, query, o);
    SortDescProps(f, SortKey(o));
    if o == Oldest {
      forall v ensures Select(s, Timestamp, v) == Select(f, Timestamp, v) {
        SelectNegated(s, v);
        SelectNegated(f, v);
      }
    }
  }
}
