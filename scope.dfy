/**
 * Which stored records a leaderboard shows: the "current event" scope filters by
 * the event code remembered on the device, the "current season" scope by a year
 * read off the front of that code (or the calendar year).
 */
module Scope {
  import opened Wrappers
  import opened Text

  datatype ScopeKind = Event | Season

  /** The equality filter put on the store query. */
  datatype RowFilter = NoFilter | EventCodeIs(code: string) | SeasonIs(year: int)

  /** The stored code begins with four ASCII digits (`/^\d{4}/`). */
  predicate HasYearPrefix(code: string) {
    |code| >= 4 && AllDigits(code[..4])
  }

  /**
   * The season a scope of "current season" uses: the number written by the first four
   * characters of the stored event code when they are digits, otherwise the current
   * calendar year (`currentYear`, read from the clock by the caller).
   */
  function SeasonYear(stored: Option<string>, currentYear: int): (y: int)
    ensures stored.Some? && HasYearPrefix(stored.value) ==> y == DigitsValue(stored.value[..4])
    ensures !(stored.Some? && HasYearPrefix(stored.value)) ==> y == currentYear
  {
    if stored.Some? && stored.value != "" && HasYearPrefix(stored.value) then
      var p := ParseInt10(stored.value[..4]);
      ParseIntOfDigits(stored.value[..4], false);
      p.value
    else currentYear
  }

  /**
   * The filter for a scope: an event scope filters by the stored code only when one
   * is stored and non-empty, and applies no filter otherwise; a season scope always
   * filters by `SeasonYear`.
   */
  function ScopeFilter(kind: ScopeKind, stored: Option<string>, currentYear: int): (f: RowFilter)
    ensures kind == Event && stored.Some? && stored.value != "" ==> f == EventCodeIs(stored.value)
    ensures kind == Event && (stored.None? || stored.value == "") ==> f == NoFilter
    ensures kind == Season ==> f == SeasonIs(SeasonYear(stored, currentYear))
  {
    match kind
    case Event => if stored.Some? && stored.value != "" then EventCodeIs(stored.value) else NoFilter
    case Season => SeasonIs(SeasonYear(stored, currentYear))
  }

  /** A record with this event code and season passes the filter. */
  predicate Passes(f: RowFilter, eventCode: string, season: int) {
    match f
    case NoFilter => true
    case EventCodeIs(c) => eventCode == c
    case SeasonIs(y) => season == y
  }

  lemma {:induction false} FourDigitString(n: nat)
    requires 1000 <= n <= 9999
    ensures |NatToString(n)| == 4
  {
    var a := n / 10;
    var b := a / 10;
    var c := b / 10;
    assert 100 <= a <= 999 && 10 <= b <= 99 && 1 <= c <= 9;
    assert |NatToString(n)| == |NatToString(a)| + 1;
    assert |NatToString(a)| == |NatToString(b)| + 1;
    assert |NatToString(b)| == |NatToString(c)| + 1;
    assert |NatToString(c)| == 1;
  }

  /**
   * An event code that begins with a four-digit year (as the event keys of a season
   * do) puts a "current season" scope on that year, whatever the calendar says.
   */
  lemma {:induction false} SeasonOfEventCode(code: string, year: int, currentYear: int)
    requires 1000 <= year <= 9999
    requires StartsWith(code, IntToString(year))
    ensures SeasonYear(Some(code), currentYear) == year
    ensures ScopeFilter(Season, Some(code), currentYear) == SeasonIs(year)
  {
    FourDigitString(year);
    NatToStringValue(year);
    assert code[..4] == NatToString(year);
  }
}
