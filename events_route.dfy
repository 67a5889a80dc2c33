/**
 * The event import route: it validates the request, fetches the season's events from
 * the upstream service, maps each event to a stored row, and upserts the rows in
 * chunks of at most 1000, stopping at the first chunk the store rejects.
 */
module EventsRoute {
  import opened Wrappers

  /** An upstream event with the fields the route reads; either date may be missing. */
  datatype TbaEvent = TbaEvent(key: string, name: string, startDate: Option<string>, endDate: Option<string>)

  /** A row of the `events` table; a missing date is stored as null (None). */
  datatype EventRow = EventRow(code: string, name: string, startDate: Option<string>, endDate: Option<string>)

  /** What the upstream fetch returns: a non-ok response with its text, or the event list. */
  datatype Upstream = UpstreamFailed(text: string) | UpstreamOk(events: seq<TbaEvent>)

  datatype Body = ErrorBody(error: string) | ErrorDetails(error: string, details: string) | CountBody(count: nat)

  datatype Response = Response(status: int, body: Body)

  const ChunkSize: nat := 1000

  function ToRow(e: TbaEvent): EventRow {
    EventRow(e.key, e.name, e.startDate, e.endDate)
  }

  /** `events.map(...)`: one row per event, in order, keyed by the event key. */
  function Rows(events: seq<TbaEvent>): (rows: seq<EventRow>)
    ensures |rows| == |events|
    ensures forall i :: 0 <= i < |events| ==> rows[i] == ToRow(events[i])
  {
    seq(|events|, i requires 0 <= i < |events| => ToRow(events[i]))
  }

  function Min(a: int, b: int): int {
    if a <= b then a else b
  }

  /** The rows cut into consecutive pieces of `ChunkSize`, the last one possibly shorter. */
  function Chunks<T>(rows: seq<T>): seq<seq<T>>
    decreases |rows|
  {
    if rows == [] then []
    else
      var n := Min(ChunkSize, |rows|);
      [rows[..n]] + Chunks(rows[n..])
  }

  function Flatten<T>(chunks: seq<seq<T>>): seq<T> {
    if chunks == [] then [] else chunks[0] + Flatten(chunks[1..])
  }

  /** Putting the chunks back together gives the rows, and no chunk is empty or too big. */
  lemma {:induction false} ChunksCover<T>(rows: seq<T>)
    ensures Flatten(Chunks(rows)) == rows
    ensures forall k :: 0 <= k < |Chunks(rows)| ==> 1 <= |Chunks(rows)[k]| <= ChunkSize
    decreases |rows|
  {
    if rows != [] {
      var n := Min(ChunkSize, |rows|);
      ChunksCover(rows[n..]);
      var cs := Chunks(rows);
      assert cs[1..] == Chunks(rows[n..]);
      assert rows[..n] + rows[n..] == rows;
    }
  }

  /** Chunk `k - 1` of what follows the first chunk is chunk `k` of the rows. */
  lemma ChunkShift<T>(rows: seq<T>, k: nat)
    requires ChunkSize < |rows| && 1 <= k && k * ChunkSize <= |rows|
    ensures var rest := rows[ChunkSize..];
      var lo := (k - 1) * ChunkSize;
      lo <= |rest| && rest[lo..Min(lo + ChunkSize, |rest|)] == rows[k * ChunkSize..Min(k * ChunkSize + ChunkSize, |rows|)]
  {
    var rest := rows[ChunkSize..];
    var lo := (k - 1) * ChunkSize;
    assert lo + ChunkSize == k * ChunkSize;
    var hi := Min(lo + ChunkSize, |rest|);
    assert hi + ChunkSize == Min(k * ChunkSize + ChunkSize, |rows|);
    assert forall j :: 0 <= j < hi - lo ==> rest[lo..hi][j] == rows[ChunkSize + lo + j];
  }

  /** There are ceil(n / 1000) chunks, and chunk `k` is the slice starting at row 1000k. */
  lemma {:induction false} ChunkAt<T>(rows: seq<T>)
    ensures |Chunks(rows)| == (|rows| + ChunkSize - 1) / ChunkSize
    ensures forall k :: 0 <= k < |Chunks(rows)| ==>
      k * ChunkSize <= |rows| && Chunks(rows)[k] == rows[k * ChunkSize..Min(k * ChunkSize + ChunkSize, |rows|)]
    decreases |rows|
  {
    if rows != [] {
      var n := Min(ChunkSize, |rows|);
      var rest := rows[n..];
      ChunkAt(rest);
      var cs := Chunks(rows);
      assert cs == [rows[..n]] + Chunks(rest);
      forall k | 1 <= k < |cs|
        ensures k * ChunkSize <= |rows| && cs[k] == rows[k * ChunkSize..Min(k * ChunkSize + ChunkSize, |rows|)]
      {
        assert cs[k] == Chunks(rest)[k - 1];
        assert n == ChunkSize;
        ChunkShift(rows, k);
      }
    }
  }

  /** The first of `count` upsert calls that fails, if any. */
  function FirstFailure(count: nat, upsertError: nat -> Option<string>): (r: Option<nat>)
    ensures r.None? ==> forall j :: 0 <= j < count ==> upsertError(j).None?
    ensures r.Some? ==> r.value < count && upsertError(r.value).Some?
    ensures r.Some? ==> forall j :: 0 <= j < r.value ==> upsertError(j).None?
  {
    if count == 0 then None
    else
      match FirstFailure(count - 1, upsertError)
      case Some(k) => Some(k)
      case None => if upsertError(count - 1).Some? then Some(count - 1) else None
  }

  /** The loop's bookkeeping: `sent` is the first `k` chunks, all accepted; `i` is where chunk `k` starts. */
  ghost predicate SentSoFar(rows: seq<EventRow>, upsertError: nat -> Option<string>, i: nat, k: nat, sent: seq<seq<EventRow>>) {
    && i == k * ChunkSize
    && k == |sent|
    && k <= |Chunks(rows)|
    && (k < |Chunks(rows)| <==> i < |rows|)
    && sent == Chunks(rows)[..k]
    && forall j :: 0 <= j < k ==> upsertError(j).None?
  }

  /**
   * `GET /api/tba/events?season=...`. `upstream` is what fetching the season's events
   * returns, `hasAdmin` whether the service-role store client exists, and
   * `upsertError(k)` the error, if any, of the `k`-th upsert call. Besides the response,
   * the method reports whether the upstream service was called and which chunks were
   * sent to the store, in order.
   */
  method Get(season: Option<string>, authKey: Option<string>, upstream: Upstream, hasAdmin: bool,
             upsertError: nat -> Option<string>)
    returns (resp: Response, upstreamCalled: bool, sent: seq<seq<EventRow>>)
    ensures season.None? || season.value == "" ==>
      resp == Response(400, ErrorBody("missing season")) && !upstreamCalled && sent == []
    ensures season.Some? && season.value != "" && (authKey.None? || authKey.value == "") ==>
      resp == Response(500, ErrorBody("TBA_AUTH_KEY not set")) && !upstreamCalled && sent == []
    ensures upstreamCalled <==> season.Some? && season.value != "" && authKey.Some? && authKey.value != ""
    ensures upstreamCalled && upstream.UpstreamFailed? ==>
      resp == Response(502, ErrorDetails("TBA error", upstream.text)) && sent == []
    ensures upstreamCalled && upstream.UpstreamOk? && !hasAdmin ==>
      resp == Response(200, CountBody(|upstream.events|)) && sent == []
    ensures upstreamCalled && upstream.UpstreamOk? && hasAdmin ==>
      var chunks := Chunks(Rows(upstream.events));
      match FirstFailure(|chunks|, upsertError)
      case None => sent == chunks && resp == Response(200, CountBody(|upstream.events|))
      case Some(k) => sent == chunks[..k + 1] && resp == Response(500, ErrorBody(upsertError(k).value))
  {
    upstreamCalled := false;
    sent := [];
    if season.None? || season.value == "" {
      return Response(400, ErrorBody("missing season")), upstreamCalled, sent;
    }
    if authKey.None? || authKey.value == "" {
      return Response(500, ErrorBody("TBA_AUTH_KEY not set")), upstreamCalled, sent;
    }
    upstreamCalled := true;
    if upstream.UpstreamFailed? {
      return Response(502, ErrorDetails("TBA error", upstream.text)), upstreamCalled, sent;
    }
    var events := upstream.events;
    if hasAdmin {
      var rows := Rows(events);
      ghost var chunks := Chunks(rows);
      ChunkAt(rows);
      var i := 0;
      ghost var k := 0;
      while i < |rows|
        invariant SentSoFar(rows, upsertError, i, k, sent)
        decreases |rows| - i
      {
        var chunk := rows[i..Min(i + ChunkSize, |rows|)];
        assert chunk == chunks[k];
        sent := sent + [chunk];
        assert sent == chunks[..k + 1];
        var err := upsertError(|sent| - 1);
        if err.Some? {
          assert FirstFailure(|chunks|, upsertError) == Some(k) by {
            FirstFailureAt(|chunks|, upsertError, k);
          }
          return Response(500, ErrorBody(err.value)), upstreamCalled, sent;
        }
        i := i + ChunkSize;
        k := k + 1;
      }
      assert sent == chunks;
      FirstFailureNone(|chunks|, upsertError);
    }
    resp := Response(200, CountBody(|events|));
  }

  lemma FirstFailureAt(count: nat, upsertError: nat -> Option<string>, k: nat)
    requires k < count && upsertError(k).Some?
    requires forall j :: 0 <= j < k ==> upsertError(j).None?
    ensures FirstFailure(count, upsertError) == Some(k)
  {
  }

  lemma FirstFailureNone(count: nat, upsertError: nat -> Option<string>)
    requires forall j :: 0 <= j < count ==> upsertError(j).None?
    ensures FirstFailure(count, upsertError).None?
  {
  }
}
