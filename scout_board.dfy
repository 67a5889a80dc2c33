/**
 * The scout leaderboard: how many match and pit records each signed-in scout has
 * submitted, with a display name for each scout, highest total first, and the rank
 * of the current user.
 */
module ScoutBoard {
  import opened Wrappers
  import opened Seqs
  import opened StableSort

  /** `r.scout_id` is neither null nor empty (`if (!r.scout_id) return`). */
  predicate Present(o: Option<string>) {
    o.Some? && o.value != ""
  }

  /** The scout ids that get counted, one per record that carries one, in record order. */
  function IdsOf(rows: seq<Option<string>>): (ids: seq<string>)
    ensures |ids| <= |rows|
    ensures forall i :: 0 <= i < |ids| ==> ids[i] != ""
  {
    if rows == [] then []
    else
      var last := rows[|rows| - 1];
      IdsOf(rows[..|rows| - 1]) + (if Present(last) then [last.value] else [])
  }

  lemma IdsOfSnoc(rows: seq<Option<string>>, i: nat)
    requires i < |rows|
    ensures IdsOf(rows[..i + 1]) == if Present(rows[i]) then IdsOf(rows[..i]) + [rows[i].value] else IdsOf(rows[..i])
  {
    assert rows[..i + 1][..i] == rows[..i];
    assert IdsOf(rows[..i]) + [] == IdsOf(rows[..i]);
  }

  /**
   * A scout's count is the number of records carrying that id; records with a null
   * or empty id count for nobody.
   */
  lemma {:induction false} IdsOfCount(rows: seq<Option<string>>, id: string)
    ensures Count(IdsOf(rows), id) == (if id == "" then 0 else Count(rows, Some(id)))
  {
    if rows != [] {
      var init := rows[..|rows| - 1];
      var last := rows[|rows| - 1];
      IdsOfCount(init, id);
      assert Count(rows, Some(id)) == Count(init, Some(id)) + (if last == Some(id) then 1 else 0);
      if Present(last) {
        assert IdsOf(rows) == IdsOf(init) + [last.value];
        CountSnoc(IdsOf(init), last.value, id);
      } else {
        assert IdsOf(rows) == IdsOf(init) + [];
        assert IdsOf(init) + [] == IdsOf(init);
        assert last != Some(id) || id == "";
      }
    }
  }

  /** `keys` and `counts` are the `Map` a `forEach` has built after counting `ids`. */
  ghost predicate Tallied(ids: seq<string>, keys: seq<string>, counts: map<string, nat>) {
    && keys == Distinct(ids)
    && (forall x :: x in counts <==> x in ids)
    && (forall x :: x in counts ==> counts[x] == Count(ids, x))
  }

  /** Counting one more id keeps the keys in first-appearance order and the counts exact. */
  lemma CountStep(ids: seq<string>, id: string, keys: seq<string>, counts: map<string, nat>)
    requires Tallied(ids, keys, counts)
    ensures Tallied(ids + [id], if id in counts then keys else keys + [id],
                    counts[id := (if id in counts then counts[id] else 0) + 1])
  {
    assert (ids + [id])[..|ids|] == ids;
    forall x ensures Count(ids + [id], x) == Count(ids, x) + (if id == x then 1 else 0) {
      CountSnoc(ids, id, x);
    }
  }

  /** The loop step of `CountByScout`: a record without a scout id changes nothing. */
  lemma TallyRow(rows: seq<Option<string>>, i: nat, keys: seq<string>, counts: map<string, nat>,
                 keys': seq<string>, counts': map<string, nat>)
    requires i < |rows| && Tallied(IdsOf(rows[..i]), keys, counts)
    requires !Present(rows[i]) ==> keys' == keys && counts' == counts
    requires Present(rows[i]) && rows[i].value in counts ==>
      keys' == keys && counts' == counts[rows[i].value := counts[rows[i].value] + 1]
    requires Present(rows[i]) && rows[i].value !in counts ==>
      keys' == keys + [rows[i].value] && counts' == counts[rows[i].value := 1]
    ensures Tallied(IdsOf(rows[..i + 1]), keys', counts')
  {
    IdsOfSnoc(rows, i);
    if Present(rows[i]) {
      CountStep(IdsOf(rows[..i]), rows[i].value, keys, counts);
    }
  }

  /**
   * One of the `forEach` loops: a count per scout id in a `Map`, whose keys are
   * listed in the order the ids first occur.
   */
  method CountByScout(rows: seq<Option<string>>) returns (keys: seq<string>, counts: map<string, nat>)
    ensures keys == Distinct(IdsOf(rows))
    ensures forall id :: id in counts <==> id in IdsOf(rows)
    ensures forall id :: id in counts ==> counts[id] == Count(IdsOf(rows), id)
  {
    keys := [];
    counts := map[];
    var i := 0;
    while i < |rows|
      invariant 0 <= i <= |rows|
      invariant Tallied(IdsOf(rows[..i]), keys, counts)
    {
      ghost var keys0, counts0 := keys, counts;
      var r := rows[i];
      if Present(r) {
        var id := r.value;
        if id in counts {
          counts := counts[id := counts[id] + 1];
        } else {
          keys := keys + [id];
          counts := counts[id := 1];
        }
      }
      TallyRow(rows, i, keys0, counts0, keys, counts);
      i := i + 1;
    }
    assert rows[..|rows|] == rows;
  }

  /** A row of the `profiles` table as fetched. */
  datatype Profile = Profile(id: string, fullName: Option<string>, email: Option<string>)

  /** An entry of the `people` dictionary. */
  datatype Person = Person(name: string, email: string)

  /** `a || b` for a possibly null string `a`: null and "" fall through to `b`. */
  function Or(a: Option<string>, b: string): (r: string)
    ensures a.Some? && a.value != "" ==> r == a.value
    ensures a.None? || a.value == "" ==> r == b
  {
    if a.Some? && a.value != "" then a.value else b
  }

  /** A profile's display name (`full_name`, else email, else id) and email (else ""). */
  function ProfilePerson(p: Profile): Person {
    Person(Or(p.fullName, Or(p.email, p.id)), Or(p.email, ""))
  }

  /** `people` after the `forEach` over the fetched profiles. */
  function FromProfiles(profs: seq<Profile>): map<string, Person> {
    if profs == [] then map[]
    else
      var last := profs[|profs| - 1];
      FromProfiles(profs[..|profs| - 1])[last.id := ProfilePerson(last)]
  }

  /** The entry added for the current user when no profile supplied one. */
  function Patch(people: map<string, Person>, patchId: string, patchEmail: string): map<string, Person> {
    if patchId != "" && patchId !in people then
      people[patchId := Person(if patchEmail != "" then patchEmail else patchId, patchEmail)]
    else people
  }

  /** The `people` dictionary: profiles are fetched only when some scout id exists. */
  function People(ids: seq<string>, profs: seq<Profile>, patchId: string, patchEmail: string): map<string, Person> {
    Patch(if |ids| > 0 then FromProfiles(profs) else map[], patchId, patchEmail)
  }

  /** `people[id] || { name: id, email: '' }`. */
  function Label(people: map<string, Person>, id: string): Person {
    if id in people then people[id] else Person(id, "")
  }

  /** Filling and patching the `people` dictionary in place. */
  method BuildPeople(ids: seq<string>, profs: seq<Profile>, patchId: string, patchEmail: string)
    returns (people: map<string, Person>)
    ensures people == People(ids, profs, patchId, patchEmail)
  {
    people := map[];
    if |ids| > 0 {
      var k := 0;
      while k < |profs|
        invariant 0 <= k <= |profs|
        invariant people == FromProfiles(profs[..k])
      {
        assert profs[..k + 1][..k] == profs[..k];
        people := people[profs[k].id := ProfilePerson(profs[k])];
        k := k + 1;
      }
      assert profs[..|profs|] == profs;
    }
    if patchId != "" {
      if patchId !in people {
        people := people[patchId := Person(if patchEmail != "" then patchEmail else patchId, patchEmail)];
      }
    }
  }

  /** The last fetched profile with a given id is the one whose entry survives. */
  lemma {:induction false} FromProfilesLookup(profs: seq<Profile>, id: string, k: nat)
    requires k < |profs| && profs[k].id == id
    requires forall j :: k < j < |profs| ==> profs[j].id != id
    ensures id in FromProfiles(profs) && FromProfiles(profs)[id] == ProfilePerson(profs[k])
  {
    if k < |profs| - 1 {
      FromProfilesLookup(profs[..|profs| - 1], id, k);
    }
  }

  lemma {:induction false} FromProfilesAbsent(profs: seq<Profile>, id: string)
    requires forall j :: 0 <= j < |profs| ==> profs[j].id != id
    ensures id !in FromProfiles(profs)
  {
    if profs != [] {
      FromProfilesAbsent(profs[..|profs| - 1], id);
    }
  }

  /**
   * A scout with a profile is shown by its full name, else its email, else its id,
   * with the profile's email or "".
   */
  lemma LabelOfProfiled(ids: seq<string>, profs: seq<Profile>, patchId: string, patchEmail: string, k: nat)
    requires |ids| > 0 && k < |profs|
    requires forall j :: k < j < |profs| ==> profs[j].id != profs[k].id
    ensures var p := profs[k];
      Label(People(ids, profs, patchId, patchEmail), p.id)
      == Person(Or(p.fullName, Or(p.email, p.id)), Or(p.email, ""))
  {
    FromProfilesLookup(profs, profs[k].id, k);
  }

  /**
   * A scout without a profile is shown by id with an empty email, except the current
   * user, who is shown by their own email, else id.
   */
  lemma LabelOfUnprofiled(ids: seq<string>, profs: seq<Profile>, patchId: string, patchEmail: string, id: string)
    requires forall j :: 0 <= j < |profs| ==> profs[j].id != id
    ensures Label(People(ids, profs, patchId, patchEmail), id)
      == if id == patchId && id != "" then Person(if patchEmail != "" then patchEmail else id, patchEmail)
         else Person(id, "")
  {
    FromProfilesAbsent(profs, id);
  }

  /** A row of the scout leaderboard. */
  datatype LeaderRow = LeaderRow(scoutId: string, name: string, email: string, matchCount: nat, pitCount: nat, total: nat)

  function RowFor(id: string, matchCount: nat, pitCount: nat, people: map<string, Person>): LeaderRow {
    var info := Label(people, id);
    LeaderRow(id, info.name, info.email, matchCount, pitCount, matchCount + pitCount)
  }

  /** The sort key of `(a, b) => b.total - a.total`. */
  function TotalKey(): LeaderRow -> real {
    (r: LeaderRow) => r.total as real
  }

  function TotalOf(): LeaderRow -> int {
    (r: LeaderRow) => r.total
  }

  /** `ids`: every scout id of either table, once, match scouts first. */
  function ScoutIds(matchRows: seq<Option<string>>, pitRows: seq<Option<string>>): seq<string> {
    Distinct(Distinct(IdsOf(matchRows)) + Distinct(IdsOf(pitRows)))
  }

  /** `ids.map(...)`, before sorting. */
  function Unsorted(ids: seq<string>, m: seq<string>, p: seq<string>, people: map<string, Person>): seq<LeaderRow> {
    seq(|ids|, i requires 0 <= i < |ids| => RowFor(ids[i], Count(m, ids[i]), Count(p, ids[i]), people))
  }

  /** The leaderboard built from the match and pit records, with the current user as given. */
  function Board(matchRows: seq<Option<string>>, pitRows: seq<Option<string>>, profs: seq<Profile>,
                 patchId: string, patchEmail: string): seq<LeaderRow> {
    var ids := ScoutIds(matchRows, pitRows);
    var people := People(ids, profs, patchId, patchEmail);
    SortDesc(Unsorted(ids, IdsOf(matchRows), IdsOf(pitRows), people), TotalKey())
  }

  /** `map.get(id) || 0` on a finished count is the number of occurrences. */
  lemma LookupCount(counts: map<string, nat>, ids: seq<string>, id: string)
    requires forall x :: x in counts <==> x in ids
    requires forall x :: x in counts ==> counts[x] == Count(ids, x)
    ensures (if id in counts then counts[id] else 0) == Count(ids, id)
  {
  }

  /**
   * The counting and tallying part of `load`, given the records and profiles it
   * fetches and the user id and email it patches into `people`.
   */
  method Tally(matchRows: seq<Option<string>>, pitRows: seq<Option<string>>, profs: seq<Profile>,
               patchId: string, patchEmail: string) returns (out: seq<LeaderRow>)
    ensures out == Board(matchRows, pitRows, profs, patchId, patchEmail)
  {
    var matchKeys, matchCounts := CountByScout(matchRows);
    var pitKeys, pitCounts := CountByScout(pitRows);
    var ids := Distinct(matchKeys + pitKeys);
    var people := BuildPeople(ids, profs, patchId, patchEmail);
    var rows := seq(|ids|, i requires 0 <= i < |ids| =>
      RowFor(ids[i], if ids[i] in matchCounts then matchCounts[ids[i]] else 0,
             if ids[i] in pitCounts then pitCounts[ids[i]] else 0, people));
    ghost var expected := Unsorted(ids, IdsOf(matchRows), IdsOf(pitRows), people);
    forall i | 0 <= i < |ids| ensures rows[i] == expected[i] {
      LookupCount(matchCounts, IdsOf(matchRows), ids[i]);
      LookupCount(pitCounts, IdsOf(pitRows), ids[i]);
    }
    assert rows == expected;
    out := SortDesc(rows, TotalKey());
  }

  /**
   * `load` as intended: the current user's label comes from the signed-in user's id
   * and email (`auth.user.id`, `auth.user.email || ''`).
   */
  method Load(matchRows: seq<Option<string>>, pitRows: seq<Option<string>>, profs: seq<Profile>,
              userId: string, userEmail: Option<string>) returns (out: seq<LeaderRow>)
    ensures out == Board(matchRows, pitRows, profs, userId, Or(userEmail, ""))
  {
    out := Tally(matchRows, pitRows, profs, userId, Or(userEmail, ""));
  }

  /**
   * `load` as written: the patch reads the `meId` and `meEmail` state of the render
   * that started the load, which is "" on the first load, however the user signed in.
   */
  method LoadAsWritten(matchRows: seq<Option<string>>, pitRows: seq<Option<string>>, profs: seq<Profile>,
                       staleMeId: string, staleMeEmail: string) returns (out: seq<LeaderRow>)
    ensures out == Board(matchRows, pitRows, profs, staleMeId, staleMeEmail)
  {
    out := Tally(matchRows, pitRows, profs, staleMeId, staleMeEmail);
  }

  /** On a first load (stale id ""), a user without a profile is listed by raw id, not email. */
  lemma FirstLoadMissesOwnLabel()
    ensures Board([Some("u1")], [], [], "", "")[0].name == "u1"
    ensures Board([Some("u1")], [], [], "u1", "a@x")[0].name == "a@x"
  {
    var m := [Some("u1")];
    assert IdsOf(m) == IdsOf(m[..0]) + ["u1"];
    assert IdsOf(m) == ["u1"];
    assert Distinct(IdsOf(m)) == ["u1"] by {
      assert Distinct(["u1"]) == Distinct([]) + ["u1"];
    }
    assert ScoutIds(m, []) == ["u1"] by {
      assert Distinct(["u1"]) == Distinct([]) + ["u1"];
      assert ["u1"] + Distinct(IdsOf([])) == ["u1"];
    }
  }

  /** Facts about `Unsorted` the board lemmas share. */
  lemma UnsortedRows(mRows: seq<Option<string>>, pRows: seq<Option<string>>, people: map<string, Person>)
    ensures var ids := ScoutIds(mRows, pRows);
      var rows := Unsorted(ids, IdsOf(mRows), IdsOf(pRows), people);
      && NoDups(rows)
      && (forall r :: r in rows ==>
            r == RowFor(r.scoutId, Count(IdsOf(mRows), r.scoutId), Count(IdsOf(pRows), r.scoutId), people)
            && (r.scoutId in IdsOf(mRows) || r.scoutId in IdsOf(pRows)))
      && (forall id :: id in IdsOf(mRows) || id in IdsOf(pRows) ==> exists i :: 0 <= i < |rows| && rows[i].scoutId == id)
  {
    var m := IdsOf(mRows);
    var p := IdsOf(pRows);
    var ids := ScoutIds(mRows, pRows);
    var rows := Unsorted(ids, m, p, people);
    assert NoDups(rows) by {
      forall i, j | 0 <= i < j < |rows| ensures rows[i] != rows[j] {
        assert rows[i].scoutId == ids[i] && rows[j].scoutId == ids[j];
      }
    }
    forall r | r in rows
      ensures r == RowFor(r.scoutId, Count(m, r.scoutId), Count(p, r.scoutId), people)
      ensures r.scoutId in m || r.scoutId in p
    {
      var i :| 0 <= i < |rows| && rows[i] == r;
      assert r.scoutId == ids[i];
      assert ids[i] in Distinct(m) + Distinct(p);
    }
    forall id | id in m || id in p
      ensures exists i :: 0 <= i < |rows| && rows[i].scoutId == id
    {
      assert id in Distinct(m) + Distinct(p);
      var i :| 0 <= i < |ids| && ids[i] == id;
      assert rows[i].scoutId == id;
    }
  }

  /** The board is a rearrangement of the unsorted rows. */
  lemma BoardMembers(mRows: seq<Option<string>>, pRows: seq<Option<string>>, profs: seq<Profile>,
                     patchId: string, patchEmail: string)
    ensures var ids := ScoutIds(mRows, pRows);
      var rows := Unsorted(ids, IdsOf(mRows), IdsOf(pRows), People(ids, profs, patchId, patchEmail));
      var out := Board(mRows, pRows, profs, patchId, patchEmail);
      && multiset(out) == multiset(rows)
      && NonIncreasing(out, TotalKey())
      && forall i :: 0 <= i < |out| ==> out[i] in rows
  {
    var ids := ScoutIds(mRows, pRows);
    var rows := Unsorted(ids, IdsOf(mRows), IdsOf(pRows), People(ids, profs, patchId, patchEmail));
    var out := SortDesc(rows, TotalKey());
    assert out == Board(mRows, pRows, profs, patchId, patchEmail);
    forall i | 0 <= i < |out| ensures out[i] in rows {
      assert out[i] in multiset(out);
    }
  }

  /**
   * Every row of the board: its total is its match count plus its pit count, those
   * are the numbers of records carrying its id, it has at least one record, and its
   * name and email are the id's label among the people; the rows run from the
   * highest total down.
   */
  lemma BoardRows(mRows: seq<Option<string>>, pRows: seq<Option<string>>, profs: seq<Profile>,
                  patchId: string, patchEmail: string)
    ensures var out := Board(mRows, pRows, profs, patchId, patchEmail);
      && NonIncreasing(out, TotalKey())
      && forall i :: 0 <= i < |out| ==>
        && out[i].total == out[i].matchCount + out[i].pitCount
        && out[i].matchCount == Count(IdsOf(mRows), out[i].scoutId)
        && out[i].pitCount == Count(IdsOf(pRows), out[i].scoutId)
        && out[i].total >= 1
        && out[i].name == Label(People(ScoutIds(mRows, pRows), profs, patchId, patchEmail), out[i].scoutId).name
        && out[i].email == Label(People(ScoutIds(mRows, pRows), profs, patchId, patchEmail), out[i].scoutId).email
  {
    var ids := ScoutIds(mRows, pRows);
    UnsortedRows(mRows, pRows, People(ids, profs, patchId, patchEmail));
    BoardMembers(mRows, pRows, profs, patchId, patchEmail);
  }

  /** No two rows of the board are for the same scout. */
  lemma BoardIdsUnique(mRows: seq<Option<string>>, pRows: seq<Option<string>>, profs: seq<Profile>,
                       patchId: string, patchEmail: string)
    ensures var out := Board(mRows, pRows, profs, patchId, patchEmail);
      forall i, j :: 0 <= i < j < |out| ==> out[i].scoutId != out[j].scoutId
  {
    var ids := ScoutIds(mRows, pRows);
    var people := People(ids, profs, patchId, patchEmail);
    var rows := Unsorted(ids, IdsOf(mRows), IdsOf(pRows), people);
    var out := Board(mRows, pRows, profs, patchId, patchEmail);
    UnsortedRows(mRows, pRows, people);
    BoardMembers(mRows, pRows, profs, patchId, patchEmail);
    PermutationNoDups(out, rows);
  }

  /** The board lists exactly the scouts that have a record. */
  lemma BoardIdsCover(mRows: seq<Option<string>>, pRows: seq<Option<string>>, profs: seq<Profile>,
                      patchId: string, patchEmail: string)
    ensures var out := Board(mRows, pRows, profs, patchId, patchEmail);
      forall id :: (exists i :: 0 <= i < |out| && out[i].scoutId == id) <==> id in IdsOf(mRows) || id in IdsOf(pRows)
  {
    var ids := ScoutIds(mRows, pRows);
    var people := People(ids, profs, patchId, patchEmail);
    var rows := Unsorted(ids, IdsOf(mRows), IdsOf(pRows), people);
    var out := Board(mRows, pRows, profs, patchId, patchEmail);
    UnsortedRows(mRows, pRows, people);
    BoardMembers(mRows, pRows, profs, patchId, patchEmail);
    forall id | id in IdsOf(mRows) || id in IdsOf(pRows)
      ensures exists i :: 0 <= i < |out| && out[i].scoutId == id
    {
      var k :| 0 <= k < |rows| && rows[k].scoutId == id;
      assert rows[k] in multiset(rows);
      var i :| 0 <= i < |out| && out[i] == rows[k];
    }
  }

  lemma {:induction false} SumUnsorted(ids: seq<string>, m: seq<string>, p: seq<string>, people: map<string, Person>)
    ensures SumBy(Unsorted(ids, m, p, people), TotalOf()) == SumCounts(ids, m) + SumCounts(ids, p)
  {
    if ids != [] {
      var init := ids[..|ids| - 1];
      SumUnsorted(init, m, p, people);
      var rows := Unsorted(ids, m, p, people);
      assert rows[..|rows| - 1] == Unsorted(init, m, p, people);
    }
  }

  /** The totals add up to the number of records with a scout id, over both tables. */
  lemma BoardTotals(mRows: seq<Option<string>>, pRows: seq<Option<string>>, profs: seq<Profile>,
                    patchId: string, patchEmail: string)
    ensures SumBy(Board(mRows, pRows, profs, patchId, patchEmail), TotalOf()) == |IdsOf(mRows)| + |IdsOf(pRows)|
  {
    var m := IdsOf(mRows);
    var p := IdsOf(pRows);
    var ids := ScoutIds(mRows, pRows);
    var people := People(ids, profs, patchId, patchEmail);
    SumBySortDesc(Unsorted(ids, m, p, people), TotalKey(), TotalOf());
    SumUnsorted(ids, m, p, people);
    forall x | x in m ensures x in ids {
      assert x in Distinct(m) + Distinct(p);
    }
    forall x | x in p ensures x in ids {
      assert x in Distinct(m) + Distinct(p);
    }
    SumCountsCover(ids, m);
    SumCountsCover(ids, p);
  }

  /** `meRank`: the 1-based position of the first row of `meId`, if any. */
  function MeRank(rows: seq<LeaderRow>, meId: string): (r: Option<nat>)
    ensures r.Some? <==> exists i :: 0 <= i < |rows| && rows[i].scoutId == meId
    ensures r.Some? ==> 1 <= r.value <= |rows| && rows[r.value - 1].scoutId == meId
    ensures r.Some? ==> forall j :: 0 <= j < r.value - 1 ==> rows[j].scoutId != meId
  {
    if rows == [] then None
    else if rows[0].scoutId == meId then Some(1)
    else
      match MeRank(rows[1..], meId)
      case None => None
      case Some(k) =>
        assert rows[k] == rows[1..][k - 1];
        Some(k + 1)
  }

  /** No scout id is empty, so a user id of "" is never ranked. */
  lemma NoRankForEmptyId(mRows: seq<Option<string>>, pRows: seq<Option<string>>, profs: seq<Profile>,
                         patchId: string, patchEmail: string)
    ensures MeRank(Board(mRows, pRows, profs, patchId, patchEmail), "") == None
  {
    var ids := ScoutIds(mRows, pRows);
    UnsortedRows(mRows, pRows, People(ids, profs, patchId, patchEmail));
    BoardMembers(mRows, pRows, profs, patchId, patchEmail);
  }
}
