/**
 * The check-in page's event list: the season's events (those whose code begins with
 * the season's year), narrowed by a case-insensitive search over code and name.
 */
module CheckIn {
  import opened Wrappers
  import opened Text
  import opened Seqs

  /** A stored event; either column may be null. */
  datatype Event = Event(code: Option<string>, name: Option<string>)

  /** `String(season)`: the decimal text, or "NaN" when the season input did not parse. */
  function SeasonPrefix(season: Option<int>): (p: string)
    ensures p != ""
  {
    match season
    case Some(y) => IntToString(y)
    case None => "NaN"
  }

  /** `(e.code || '').startsWith(prefix)`. */
  function InSeason(prefix: string): Event -> bool {
    (e: Event) => StartsWith(e.code.GetOr(""), prefix)
  }

  /**
   * The events `loadEvents` keeps: exactly those whose code starts with the season's
   * text. A null code reads as "", which no season's text begins, so it is dropped.
   */
  function SeasonEvents(events: seq<Event>, season: Option<int>): (r: seq<Event>)
    ensures forall i :: 0 <= i < |r| ==> r[i] in events && StartsWith(r[i].code.GetOr(""), SeasonPrefix(season))
    ensures forall i :: 0 <= i < |events| ==>
      (events[i] in r <==> StartsWith(events[i].code.GetOr(""), SeasonPrefix(season)))
    ensures forall i :: 0 <= i < |r| ==> r[i].code.Some?
  {
    FilterMembers(events, InSeason(SeasonPrefix(season)));
    Filter(events, InSeason(SeasonPrefix(season)))
  }

  /**
   * The season's events keep the order in which the store listed them, and every
   * copy of a kept event.
   */
  lemma SeasonEventsOrder(events: seq<Event>, season: Option<int>)
    ensures SubsequenceOf(SeasonEvents(events, season), events)
    ensures forall e ::
              Count(SeasonEvents(events, season), e) ==
              (if StartsWith(e.code.GetOr(""), SeasonPrefix(season)) then Count(events, e) else 0)
  {
    FilterIsSubsequence(events, InSeason(SeasonPrefix(season)));
    forall e ensures Count(SeasonEvents(events, season), e) ==
      (if StartsWith(e.code.GetOr(""), SeasonPrefix(season)) then Count(events, e) else 0)
    {
      FilterCount(events, InSeason(SeasonPrefix(season)), e);
    }
  }

  /** `(e.code + ' ' + e.name).toLowerCase()`; string concatenation prints null as "null". */
  function SearchText(e: Event): string {
    Lower(e.code.GetOr("null") + " " + e.name.GetOr("null"))
  }

  function Matches(q: string): Event -> bool {
    (e: Event) => Contains(SearchText(e), Lower(q))
  }

  /** `filtered`: the events whose search text holds the lower-cased query. */
  function Search(events: seq<Event>, q: string): (r: seq<Event>)
    ensures forall i :: 0 <= i < |r| ==> r[i] in events && Contains(SearchText(r[i]), Lower(q))
    ensures forall i :: 0 <= i < |events| ==> (events[i] in r <==> Contains(SearchText(events[i]), Lower(q)))
  {
    FilterMembers(events, Matches(q));
    Filter(events, Matches(q))
  }

  /** An empty search shows every event. */
  lemma EmptySearchKeepsAll(events: seq<Event>)
    ensures Search(events, "") == events
  {
    forall e | e in events ensures Matches("")(e) {
      assert OccursAt(SearchText(e), "", 0);
    }
    FilterKeepsAll(events, Matches(""));
  }

  /**
   * The search keeps the order of the list and every copy of a matching event, and
   * searching its result again changes nothing.
   */
  lemma SearchOrderAndIdempotent(events: seq<Event>, q: string)
    ensures SubsequenceOf(Search(events, q), events)
    ensures forall e ::
              Count(Search(events, q), e) ==
              (if Contains(SearchText(e), Lower(q)) then Count(events, e) else 0)
    ensures Search(Search(events, q), q) == Search(events, q)
  {
    FilterIsSubsequence(events, Matches(q));
    forall e ensures Count(Search(events, q), e) ==
      (if Contains(SearchText(e), Lower(q)) then Count(events, e) else 0)
    {
      FilterCount(events, Matches(q), e);
    }
    FilterIdempotent(events, Matches(q));
  }

  /** The search ignores the case of the query. */
  lemma SearchIgnoresCase(events: seq<Event>, q: string)
    ensures Search(events, Upper(q)) == Search(events, q)
    ensures Search(events, Lower(q)) == Search(events, q)
  {
    assert Lower(Upper(q)) == Lower(q) by {
      forall i | 0 <= i < |q| ensures Lower(Upper(q))[i] == Lower(q)[i] {
        assert LowerChar(UpperChar(q[i])) == LowerChar(q[i]);
      }
    }
    assert Lower(Lower(q)) == Lower(q);
    assert Matches(Upper(q)) == Matches(q);
    assert Matches(Lower(q)) == Matches(q);
  }
}
