/**
 * The scouting form: the identifying inputs of one match record, the values entered
 * for the season's fields, and the submit step that stores them and clears the form
 * for the next match.
 */
module Collector {
  import opened Wrappers
  import opened JsValue
  import opened Text
  import opened FormSchema

  /**
   * A value the form holds: a counter's number (or NaN, once a non-numeric value
   * has been decremented), a checkbox state or a text.
   */
  predicate FormValue(v: Value) {
    v.Num? || v.Bool? || v.Str? || v.NaN?
  }

  /** The value a field starts at; a multiple-choice field gets no entry. */
  function DefaultValue(kind: FieldType): (r: Option<Value>)
    ensures r.Some? <==> kind != MultiSelect
    ensures r.Some? ==> FormValue(r.value)
  {
    match kind
    case Counter => Some(Num(0.0))
    case Checkbox => Some(Bool(false))
    case TextInput => Some(Str(""))
    case MultiSelect => None
  }

  /** Field `i` is the last of `fields[..n]` that gives its caption a starting value. */
  predicate LastWithCaption(fields: seq<Field>, n: nat, i: nat)
    requires i < n <= |fields|
  {
    DefaultValue(fields[i].kind).Some?
    && forall j :: i < j < n && fields[j].caption == fields[i].caption ==> DefaultValue(fields[j].kind).None?
  }

  /**
   * `vals` holds the starting values for `fields[..n]`: an entry for every caption of a
   * counter, checkbox or text field, set by the last such field with that caption.
   */
  ghost predicate InitialUpTo(fields: seq<Field>, n: nat, vals: map<string, Value>)
    requires n <= |fields|
  {
    && (forall k :: k in vals <==> exists i :: 0 <= i < n && fields[i].caption == k && DefaultValue(fields[i].kind).Some?)
    && (forall i :: 0 <= i < n && LastWithCaption(fields, n, i) ==> vals[fields[i].caption] == DefaultValue(fields[i].kind).value)
  }

  ghost predicate IsInitialFor(fields: seq<Field>, vals: map<string, Value>) {
    InitialUpTo(fields, |fields|, vals)
  }

  /** The loop that builds `initial` (and, after a submit, `reset`). */
  method InitialValues(fields: seq<Field>) returns (vals: map<string, Value>)
    ensures IsInitialFor(fields, vals)
    ensures forall k :: k in vals ==> FormValue(vals[k])
  {
    vals := map[];
    var n := 0;
    while n < |fields|
      invariant 0 <= n <= |fields|
      invariant InitialUpTo(fields, n, vals)
      invariant forall k :: k in vals ==> FormValue(vals[k])
    {
      var f := fields[n];
      var d := DefaultValue(f.kind);
      if d.Some? {
        vals := vals[f.caption := d.value];
      }
      n := n + 1;
    }
  }

  /** The last field of `fields[..n]` that gives caption `k` a starting value, if any. */
  function LastIndexFor(fields: seq<Field>, n: nat, k: string): (r: Option<nat>)
    requires n <= |fields|
    ensures r.None? ==> forall i :: 0 <= i < n ==> fields[i].caption != k || DefaultValue(fields[i].kind).None?
    ensures r.Some? ==> r.value < n && fields[r.value].caption == k && LastWithCaption(fields, n, r.value)
  {
    if n == 0 then None
    else if fields[n - 1].caption == k && DefaultValue(fields[n - 1].kind).Some? then Some(n - 1)
    else LastIndexFor(fields, n - 1, k)
  }

  /** The starting values of a field list are determined by it: load and reset agree. */
  lemma InitialUnique(fields: seq<Field>, a: map<string, Value>, b: map<string, Value>)
    requires IsInitialFor(fields, a) && IsInitialFor(fields, b)
    ensures a == b
  {
    forall k | k in a ensures k in b && a[k] == b[k] {
      var i := LastIndexFor(fields, |fields|, k);
      assert i.Some?;
    }
    assert a.Keys == b.Keys;
  }

  /** `(v ?? 0) + 1`: a number goes up by one, but a text gets "1" appended. */
  function Incremented(v: Option<Value>): (r: Value)
    requires v.None? || FormValue(v.value)
    ensures FormValue(r)
    ensures v.None? ==> r == Num(1.0)
    ensures v.Some? && v.value.Num? ==> r == Num(v.value.n + 1.0)
    ensures v.Some? && v.value.Str? ==> r == Str(v.value.s + "1")
  {
    match v
    case None => Num(1.0)
    case Some(Num(n)) => Num(n + 1.0)
    case Some(Bool(b)) => Num(if b then 2.0 else 1.0)
    case Some(Str(s)) => Str(s + "1")
    case Some(NaN) => NaN
  }

  /** `Math.max(0, (v ?? 0) - 1)`: never below zero, NaN when `v` has no number. */
  function Decremented(v: Option<Value>, strNum: StrCoercion): (r: Value)
    ensures FormValue(r)
    ensures r.Num? ==> r.n >= 0.0
    ensures r.NaN? <==> ToNumber(v.GetOr(Num(0.0)), strNum).None?
  {
    match ToNumber(v.GetOr(Num(0.0)), strNum)
    case None => NaN
    case Some(n) => Num(if n - 1.0 > 0.0 then n - 1.0 else 0.0)
  }

  /** Taking a non-negative count (or an empty one) up and down again restores it. */
  lemma DecrementUndoesIncrement(v: Option<Value>, strNum: StrCoercion)
    requires v.None? || (v.value.Num? && v.value.n >= 0.0)
    ensures Decremented(Some(Incremented(v)), strNum) == v.GetOr(Num(0.0))
  {
  }

  /** What a submit sends to the store. `None` for a number stands for NaN. */
  datatype Payload = Payload(season: Option<int>, eventCode: string, matchKey: string,
                             teamNumber: Option<int>, scoutId: Option<string>, metrics: map<string, Value>)

  /** The message line of the page. */
  datatype Status = Ready | LoadFailed | MissingIds | SubmitFailed | Submitted

  class Collector {
    var season: Option<int>
    var eventCode: string
    var matchKey: string
    var teamNumber: string
    var fields: seq<Field>
    var values: map<string, Value>
    var status: Status

    ghost predicate Valid()
      reads this
    {
      forall k :: k in values ==> FormValue(values[k])
    }

    constructor(defaultSeason: int)
      ensures Valid()
      ensures season == Some(defaultSeason) && eventCode == "" && matchKey == "" && teamNumber == ""
      ensures fields == [] && values == map[] && status == Ready
    {
      season := Some(defaultSeason);
      eventCode := "";
      matchKey := "";
      teamNumber := "";
      fields := [];
      values := map[];
      status := Ready;
    }

    /**
     * The season input: an empty input falls back to the default season, and text
     * that `parseInt` cannot read makes the season NaN.
     */
    method SetSeasonInput(text: string, defaultSeason: int)
      modifies this
      requires Valid()
      ensures Valid()
      ensures season == ParseInt10(if text == "" then IntToString(defaultSeason) else text)
      ensures text == "" ==> season == Some(defaultSeason)
      ensures eventCode == old(eventCode) && matchKey == old(matchKey) && teamNumber == old(teamNumber)
      ensures fields == old(fields) && values == old(values) && status == old(status)
    {
      if text == "" {
        ParseIntOfIntToString(defaultSeason);
        season := ParseInt10(IntToString(defaultSeason));
      } else {
        season := ParseInt10(text);
      }
    }

    /** The three identifying text inputs. */
    method SetIdentity(code: string, key: string, team: string)
      modifies this
      requires Valid()
      ensures Valid()
      ensures eventCode == code && matchKey == key && teamNumber == team
      ensures season == old(season) && fields == old(fields) && values == old(values) && status == old(status)
    {
      eventCode := code;
      matchKey := key;
      teamNumber := team;
    }

    /**
     * Loading the season's template: on a store error only the status changes;
     * otherwise the fields are the loaded list and every value starts afresh.
     */
    method LoadForm(def: Option<StoredDefinition>, failed: bool)
      modifies this
      requires Valid()
      ensures Valid()
      ensures failed ==> fields == old(fields) && values == old(values) && status == LoadFailed
      ensures !failed ==> fields == LoadedFields(def) && IsInitialFor(fields, values) && status == Ready
      ensures season == old(season) && eventCode == old(eventCode)
      ensures matchKey == old(matchKey) && teamNumber == old(teamNumber)
    {
      if failed {
        status := LoadFailed;
      } else {
        fields := LoadedFields(def);
        values := InitialValues(fields);
        status := Ready;
      }
    }

    /** `setValue`: only the entry for `caption` changes. */
    method SetValue(caption: string, v: Value)
      modifies this
      requires Valid() && FormValue(v)
      ensures Valid()
      ensures values == old(values)[caption := v]
      ensures forall k :: k != caption && k in old(values) ==> k in values && values[k] == old(values)[k]
      ensures season == old(season) && eventCode == old(eventCode) && matchKey == old(matchKey)
      ensures teamNumber == old(teamNumber) && fields == old(fields) && status == old(status)
    {
      values := values[caption := v];
    }

    /** The counter's "+" button. */
    method Increment(caption: string)
      modifies this
      requires Valid()
      ensures Valid()
      ensures values == old(values)[caption := Incremented(if caption in old(values) then Some(old(values)[caption]) else None)]
      ensures season == old(season) && eventCode == old(eventCode) && matchKey == old(matchKey)
      ensures teamNumber == old(teamNumber) && fields == old(fields) && status == old(status)
    {
      var current := if caption in values then Some(values[caption]) else None;
      SetValue(caption, Incremented(current));
    }

    /** The counter's "-" button. */
    method Decrement(caption: string, strNum: StrCoercion)
      modifies this
      requires Valid()
      ensures Valid()
      ensures values == old(values)[caption := Decremented(if caption in old(values) then Some(old(values)[caption]) else None, strNum)]
      ensures season == old(season) && eventCode == old(eventCode) && matchKey == old(matchKey)
      ensures teamNumber == old(teamNumber) && fields == old(fields) && status == old(status)
    {
      var current := if caption in values then Some(values[caption]) else None;
      SetValue(caption, Decremented(current, strNum));
    }

    /**
     * `submit`: refused without an event code, match key and team number; otherwise
     * the record is sent, and after a successful insert the match key and team number
     * are cleared and the values start afresh, while a failed insert keeps everything.
     */
    method Submit(scoutId: Option<string>, insertFails: bool) returns (sent: Option<Payload>)
      modifies this
      requires Valid()
      ensures Valid()
      ensures season == old(season) && eventCode == old(eventCode) && fields == old(fields)
      ensures old(eventCode) == "" || old(matchKey) == "" || old(teamNumber) == "" ==>
        && sent == None && status == MissingIds
        && matchKey == old(matchKey) && teamNumber == old(teamNumber) && values == old(values)
      ensures old(eventCode) != "" && old(matchKey) != "" && old(teamNumber) != "" ==>
        sent == Some(Payload(old(season), old(eventCode), old(matchKey), ParseInt10(old(teamNumber)), scoutId, old(values)))
      ensures old(eventCode) != "" && old(matchKey) != "" && old(teamNumber) != "" && insertFails ==>
        && status == SubmitFailed
        && matchKey == old(matchKey) && teamNumber == old(teamNumber) && values == old(values)
      ensures old(eventCode) != "" && old(matchKey) != "" && old(teamNumber) != "" && !insertFails ==>
        && status == Submitted
        && matchKey == "" && teamNumber == "" && IsInitialFor(fields, values)
    {
      if eventCode == "" || matchKey == "" || teamNumber == "" {
        status := MissingIds;
        return None;
      }
      var team := ParseInt10(teamNumber);
      sent := Some(Payload(season, eventCode, matchKey, team, scoutId, values));
      if insertFails {
        status := SubmitFailed;
        return;
      }
      ClearForNextMatch();
    }

    /** After a successful insert: clear the match key and team number, start the values afresh. */
    method ClearForNextMatch()
      modifies this
      ensures Valid()
      ensures season == old(season) && eventCode == old(eventCode) && fields == old(fields)
      ensures status == Submitted && matchKey == "" && teamNumber == "" && IsInitialFor(fields, values)
    {
      matchKey := "";
      teamNumber := "";
      values := InitialValues(fields);
      status := Submitted;
    }
  }
}
