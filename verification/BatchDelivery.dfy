/**
 The durable batch store: stored batches, the Redis streams that hold them, the sender with its bounded retries, and
 the adoption of an older listener's streams. Replies are scripted. Several processes at once are the subject of the
 delivery protocol.
 */
module BatchDelivery {
  import opened Texts
  import opened Json
  import ItemNames

  // ---- A stored batch ----

  datatype StoredBatch = StoredBatch(recordId: nat, batchId: string, venue: string, ticks: seq<Json>, feedEvents: seq<Json>)

  type IsUuid = string -> bool

  /** `not value.strip()`. */
  predicate IsBlank(s: string) {
    ItemNames.Strip(s) == ""
  }

  lemma BlankIff(s: string)
    ensures IsBlank(s) <==> forall i :: 0 <= i < |s| ==> s[i] in {' ', '\t', '\n', '\r'}
  {
    ItemNames.StripsToNothing(s);
  }

  /** `StoredBatch.payload`: feed events are left out when there are none. */
  function PayloadOf(b: StoredBatch): Json {
    var fields := map["batch_id" := Text(b.batchId), "venue" := Text(b.venue), "ticks" := List(b.ticks)];
    Object(if b.feedEvents == [] then fields else fields["feed_events" := List(b.feedEvents)])
  }

  /** `StoredBatch.deserialize`; None where it raises. A batch of the older format names its venue `source`. */
  function Deserialize(recordId: nat, doc: Json, isUuid: IsUuid): Option<StoredBatch> {
    var venue := if Has(doc, "venue") then doc.fields["venue"] else Field(doc, "source", Null);
    var feedEvents := Field(doc, "feed_events", List([]));
    if !Has(doc, "batch_id") || !(Has(doc, "venue") || Has(doc, "source")) || !Has(doc, "ticks") then None
    else
      var batchId, ticks := doc.fields["batch_id"], doc.fields["ticks"];
      if !batchId.Text? || batchId.s == "" || !isUuid(batchId.s) then None
      else if !venue.Text? || IsBlank(venue.s) then None
      else if !IsObjects(ticks) || !IsObjects(feedEvents) then None
      else Some(StoredBatch(recordId, batchId.s, venue.s, ticks.items, feedEvents.items))
  }

  predicate Storable(b: StoredBatch, isUuid: IsUuid) {
    && b.batchId != "" && isUuid(b.batchId) && !IsBlank(b.venue)
    && IsObjects(List(b.ticks)) && IsObjects(List(b.feedEvents))
  }

  /** A batch read back from a stream is the batch stored, and anything else is refused; no events are not stored as none. */
  lemma StoredRoundTrip(b: StoredBatch, recordId: nat, isUuid: IsUuid)
    ensures Has(PayloadOf(b), "feed_events") <==> b.feedEvents != []
    ensures Deserialize(recordId, PayloadOf(b), isUuid) == if Storable(b, isUuid) then Some(b.(recordId := recordId)) else None
  {
  }

  /** Whatever deserializes can be stored again unchanged: a dead letter carries the batch, legacy format or not. */
  lemma StoredAgain(doc: Json, recordId: nat, newId: nat, isUuid: IsUuid)
    ensures var b := Deserialize(recordId, doc, isUuid);
      b.Some? ==> Storable(b.value, isUuid) && Deserialize(newId, PayloadOf(b.value), isUuid) == Some(b.value.(recordId := newId))
  {
    var b := Deserialize(recordId, doc, isUuid);
    if b.Some? {
      StoredRoundTrip(b.value, newId, isUuid);
    }
  }

  /** A batch stored under the older key reads as the same batch. */
  lemma LegacyVenue(b: StoredBatch, isUuid: IsUuid)
    requires Storable(b, isUuid)
    ensures Deserialize(b.recordId, Object(PayloadOf(b).fields - {"venue"} + map["source" := Text(b.venue)]), isUuid) == Some(b)
  {
  }

  // ---- Streams ----

  /** A stream entry's payload field, and why it is where it is. */
  datatype Raw = Missing | Unparsable(text: string) | Parsed(doc: Json)

  datatype Fields = Fields(payload: Raw, note: string)

  datatype Entry = Entry(rid: nat, fields: Fields)

  datatype Stream = Stream(entries: seq<Entry>, lastId: nat)

  /** Redis keeps entries in the order of their IDs. */
  ghost predicate Ascending(s: Stream) {
    && (forall i, j :: 0 <= i < j < |s.entries| ==> s.entries[i].rid < s.entries[j].rid)
    && (forall i :: 0 <= i < |s.entries| ==> 0 < s.entries[i].rid <= s.lastId)
  }

  const EMPTY := Stream([], 0)

  function Added(s: Stream, fields: Fields): Stream {
    Stream(s.entries + [Entry(s.lastId + 1, fields)], s.lastId + 1)
  }

  function Without(entries: seq<Entry>, rid: nat): seq<Entry> {
    if entries == [] then []
    else if entries[|entries| - 1].rid == rid then Without(entries[..|entries| - 1], rid)
    else Without(entries[..|entries| - 1], rid) + [entries[|entries| - 1]]
  }

  function Removed(s: Stream, rid: nat): Stream {
    s.(entries := Without(s.entries, rid))
  }

  /** XRANGE from an exclusive start. */
  function After(entries: seq<Entry>, rid: nat): seq<Entry> {
    if entries == [] then []
    else if entries[|entries| - 1].rid > rid then After(entries[..|entries| - 1], rid) + [entries[|entries| - 1]]
    else After(entries[..|entries| - 1], rid)
  }

  function Page(s: Stream, after: nat, count: nat): seq<Entry> {
    var rest := After(s.entries, after);
    if |rest| <= count then rest else rest[..count]
  }

  function Read(e: Entry, isUuid: IsUuid): Option<StoredBatch> {
    if e.fields.payload.Parsed? then Deserialize(e.rid, e.fields.payload.doc, isUuid) else None
  }

  /** The batches of the readable entries, in order. */
  function Batches(entries: seq<Entry>, isUuid: IsUuid): seq<StoredBatch> {
    if entries == [] then []
    else
      var rest, b := Batches(entries[..|entries| - 1], isUuid), Read(entries[|entries| - 1], isUuid);
      if b.Some? then rest + [b.value] else rest
  }

  /** What is added as a storable batch is read as that batch, after everything before it; any other entry is not read. */
  lemma AddedIsRead(s: Stream, b: StoredBatch, note: string, isUuid: IsUuid)
    ensures var s' := Added(s, Fields(Parsed(PayloadOf(b)), note));
      Batches(s'.entries, isUuid)
        == Batches(s.entries, isUuid) + if Storable(b, isUuid) then [b.(recordId := s'.lastId)] else []
    ensures forall raw: Raw :: !raw.Parsed? ==> Batches(Added(s, Fields(raw, note)).entries, isUuid) == Batches(s.entries, isUuid)
  {
    hide PayloadOf;
    hide Deserialize;
    hide Storable;
    StoredRoundTrip(b, s.lastId + 1, isUuid);
    forall fields: Fields ensures Added(s, fields).entries[..|s.entries|] == s.entries {
    }
  }

  function Readable(entries: seq<Entry>, isUuid: IsUuid): seq<Entry> {
    if entries == [] then []
    else
      var rest, e := Readable(entries[..|entries| - 1], isUuid), entries[|entries| - 1];
      if Read(e, isUuid).Some? then rest + [e] else rest
  }

  /** The malformed stream after each unreadable entry is moved to it. */
  function Quarantined(malformed: Stream, entries: seq<Entry>, note: string, isUuid: IsUuid): Stream {
    if entries == [] then malformed
    else
      var rest, e := Quarantined(malformed, entries[..|entries| - 1], note, isUuid), entries[|entries| - 1];
      if Read(e, isUuid).Some? then rest else Added(rest, e.fields.(note := note))
  }

  lemma {:induction false} AfterSplit(a: seq<Entry>, b: seq<Entry>, rid: nat)
    requires forall e :: e in a ==> e.rid <= rid
    requires forall e :: e in b ==> e.rid > rid
    ensures After(a + b, rid) == b
  {
    if b != [] {
      AfterSplit(a, b[..|b| - 1], rid);
      assert (a + b)[..|a + b| - 1] == a + b[..|b| - 1];
    } else if a != [] {
      AfterSplit(a[..|a| - 1], [], rid);
      assert a[..|a| - 1] + [] == a[..|a| - 1];
      assert a + [] == a;
    }
  }

  lemma {:induction false} WithoutAbsent(entries: seq<Entry>, rid: nat)
    requires forall e :: e in entries ==> e.rid != rid
    ensures Without(entries, rid) == entries
  {
    if entries != [] {
      WithoutAbsent(entries[..|entries| - 1], rid);
    }
  }

  lemma {:induction false} WithoutMiddle(a: seq<Entry>, e: Entry, b: seq<Entry>)
    requires forall x :: x in a || x in b ==> x.rid != e.rid
    ensures Without(a + [e] + b, e.rid) == a + b
  {
    var all := a + [e] + b;
    if b == [] {
      assert all[..|all| - 1] == a;
      WithoutAbsent(a, e.rid);
      assert a + b == a;
    } else {
      WithoutMiddle(a, e, b[..|b| - 1]);
      assert all[..|all| - 1] == a + [e] + b[..|b| - 1];
      assert a + b == a + b[..|b| - 1] + [b[|b| - 1]];
    }
  }

  lemma {:induction false} ReadableSubset(entries: seq<Entry>, isUuid: IsUuid)
    ensures forall e :: e in Readable(entries, isUuid) <==> e in entries && Read(e, isUuid).Some?
  {
    if entries != [] {
      ReadableSubset(entries[..|entries| - 1], isUuid);
      assert entries == entries[..|entries| - 1] + [entries[|entries| - 1]];
    }
  }

  /** How many entries the iteration reads: up to the one that brings the `limit`-th batch. */
  function ReadUpTo(entries: seq<Entry>, limit: Option<nat>, isUuid: IsUuid): (n: nat)
    ensures n <= |entries|
  {
    if entries == [] then 0
    else
      var front := entries[..|entries| - 1];
      var n := ReadUpTo(front, limit, isUuid);
      if n < |front| || limit == Some(|Batches(front, isUuid)|) then n else |entries|
  }

  /** The stream once `n` of its entries are read: the unreadable ones are gone. */
  function LeftAfter(start: Stream, n: nat, isUuid: IsUuid): Stream
    requires n <= |start.entries|
  {
    Stream(Readable(start.entries[..n], isUuid) + start.entries[n..], start.lastId)
  }

  /** Where the page loop stands after `n` of the entries: what it has handed on, and both streams. */
  ghost predicate Halfway(start: Stream, malformed: Stream, n: nat, note: string, isUuid: IsUuid,
                          batches: seq<StoredBatch>, s: Stream, m: Stream) {
    && n <= |start.entries|
    && batches == Batches(start.entries[..n], isUuid)
    && s == LeftAfter(start, n, isUuid)
    && m == Quarantined(malformed, start.entries[..n], note, isUuid)
  }

  /** The first `n` entries do not reach the limit. */
  ghost predicate GoesOn(entries: seq<Entry>, n: nat, limit: Option<nat>, isUuid: IsUuid) {
    && n <= |entries|
    && ReadUpTo(entries[..n], limit, isUuid) == n
    && limit != Some(|Batches(entries[..n], isUuid)|)
  }

  lemma GoesOnOrStops(entries: seq<Entry>, n: nat, limit: Option<nat>, isUuid: IsUuid)
    requires n < |entries| && GoesOn(entries, n, limit, isUuid)
    ensures if limit == Some(|Batches(entries[..n + 1], isUuid)|) then ReadUpTo(entries, limit, isUuid) == n + 1
            else GoesOn(entries, n + 1, limit, isUuid)
  {
    hide Batches;
    assert entries[..n + 1][..n] == entries[..n];
    if limit == Some(|Batches(entries[..n + 1], isUuid)|) {
      StopsThere(entries, n + 1, limit, isUuid);
    }
  }

  lemma {:induction false} StopsThere(entries: seq<Entry>, n: nat, limit: Option<nat>, isUuid: IsUuid)
    requires n <= |entries| && ReadUpTo(entries[..n], limit, isUuid) == n && limit == Some(|Batches(entries[..n], isUuid)|)
    ensures ReadUpTo(entries, limit, isUuid) == n
    decreases |entries|
  {
    hide Batches;
    if n == |entries| {
      assert entries[..n] == entries;
    } else {
      var front := entries[..|entries| - 1];
      assert front[..n] == entries[..n];
      StopsThere(front, n, limit, isUuid);
      if n == |front| {
        assert front[..n] == front;
      }
    }
  }

  /** The iteration ends with the stream, or with the batch that reaches the limit; never beyond either. */
  lemma {:induction false} ReadsToLimit(entries: seq<Entry>, limit: Option<nat>, isUuid: IsUuid)
    ensures var n := ReadUpTo(entries, limit, isUuid);
      var read := Batches(entries[..n], isUuid);
      && (n < |entries| ==> limit == Some(|read|))
      && (limit.Some? ==> |read| <= limit.value)
      && (n > 0 && limit == Some(|read|) ==> |Batches(entries[..n - 1], isUuid)| < |read|)
  {
    hide Read;
    if entries != [] {
      var front := entries[..|entries| - 1];
      var n := ReadUpTo(front, limit, isUuid);
      ReadsToLimit(front, limit, isUuid);
      assert front[..n] == entries[..n];
      assert front[..|front|] == front && entries[..|entries|] == entries;
      if n > 0 {
        assert front[..n - 1] == entries[..n - 1];
      }
    }
  }

  lemma PrefixBounds(start: Stream, n: nat, isUuid: IsUuid)
    requires Ascending(start) && n <= |start.entries|
    ensures var at := if n == 0 then 0 else start.entries[n - 1].rid;
      && (forall e :: e in Readable(start.entries[..n], isUuid) ==> e.rid <= at)
      && (forall e :: e in start.entries[n..] ==> e.rid > at)
  {
    ReadableSubset(start.entries[..n], isUuid);
  }

  /** The id of the last of the first `n` entries, where the next page starts; stream ids are positive. */
  ghost function LastId(entries: seq<Entry>, n: nat): nat
    requires n <= |entries|
  {
    if n == 0 then 0 else entries[n - 1].rid
  }

  lemma NoLastId(entries: seq<Entry>)
    ensures LastId(entries, 0) == 0
  {
  }

  lemma LastOfPage(entries: seq<Entry>, n: nat, page: seq<Entry>)
    requires page != [] && n + |page| <= |entries| && page == entries[n..n + |page|]
    ensures page[|page| - 1].rid == LastId(entries, n + |page|)
  {
    assert page[|page| - 1] == entries[n + |page| - 1];
  }

  lemma NextPage(start: Stream, malformed: Stream, n: nat, note: string, isUuid: IsUuid, batches: seq<StoredBatch>, s: Stream, m: Stream, count: nat)
    requires Ascending(start) && Halfway(start, malformed, n, note, isUuid, batches, s, m)
    ensures var page := Page(s, LastId(start.entries, n), count);
      && n + |page| <= |start.entries| && page == start.entries[n..n + |page|] && |page| <= count
      && (|page| < count ==> n + |page| == |start.entries|)
  {
    hide Readable;
    PrefixBounds(start, n, isUuid);
    var at := LastId(start.entries, n);
    AfterSplit(Readable(start.entries[..n], isUuid), start.entries[n..], at);
  }

  /** The next entry is kept, or leaves the stream. */
  lemma NextEntry(s: Stream, n: nat, kept: seq<Entry>)
    requires Ascending(s) && n < |s.entries| && forall e :: e in kept ==> e in s.entries[..n]
    ensures kept + s.entries[n..] == (kept + [s.entries[n]]) + s.entries[n + 1..]
    ensures Without(kept + s.entries[n..], s.entries[n].rid) == kept + s.entries[n + 1..]
  {
    var e, left := s.entries[n], s.entries[n + 1..];
    WithoutMiddle(kept, e, left);
    hide Without;
    assert kept + s.entries[n..] == kept + [e] + left;
  }

  lemma OneEntry(start: Stream, malformed: Stream, n: nat, note: string, isUuid: IsUuid, batches: seq<StoredBatch>, s: Stream, m: Stream)
    requires Ascending(start) && n < |start.entries| && Halfway(start, malformed, n, note, isUuid, batches, s, m)
    ensures var e := start.entries[n];
      var b := Read(e, isUuid);
      if b.Some? then Halfway(start, malformed, n + 1, note, isUuid, batches + [b.value], s, m)
      else Halfway(start, malformed, n + 1, note, isUuid, batches, Removed(s, e.rid), Added(m, e.fields.(note := note)))
  {
    hide Read;
    hide Ascending;
    assert start.entries[..n + 1][..n] == start.entries[..n];
    ReadableSubset(start.entries[..n], isUuid);
    NextEntry(start, n, Readable(start.entries[..n], isUuid));
    hide Without;
    hide Added;
  }

  lemma NothingRead(start: Stream, malformed: Stream, note: string, isUuid: IsUuid)
    ensures Halfway(start, malformed, 0, note, isUuid, [], start, malformed)
  {
    assert [] + start.entries[0..] == start.entries;
  }

  /** The entries of one page; stops early once `limit` batches are handed on. */
  method ReadPage(page: seq<Entry>, batches: seq<StoredBatch>, s: Stream, m: Stream, note: string, limit: Option<nat>, isUuid: IsUuid,
                  ghost start: Stream, ghost malformed: Stream, ghost n: nat)
    returns (batches': seq<StoredBatch>, s': Stream, m': Stream, full: bool)
    requires Ascending(start) && Halfway(start, malformed, n, note, isUuid, batches, s, m) && GoesOn(start.entries, n, limit, isUuid)
    requires n + |page| <= |start.entries| && page == start.entries[n..n + |page|]
    ensures full ==> Halfway(start, malformed, ReadUpTo(start.entries, limit, isUuid), note, isUuid, batches', s', m')
    ensures !full ==>
      Halfway(start, malformed, n + |page|, note, isUuid, batches', s', m') && GoesOn(start.entries, n + |page|, limit, isUuid)
  {
    hide Read;
    hide Halfway;
    hide GoesOn;
    batches', s', m', full := batches, s, m, false;
    for i := 0 to |page|
      invariant Halfway(start, malformed, n + i, note, isUuid, batches', s', m') && GoesOn(start.entries, n + i, limit, isUuid)
    {
      OneEntry(start, malformed, n + i, note, isUuid, batches', s', m');
      GoesOnOrStops(start.entries, n + i, limit, isUuid);
      assert page[i] == start.entries[n + i];
      var b := Read(page[i], isUuid);
      if b.None? {
        m' := Added(m', page[i].fields.(note := note));
        s' := Removed(s', page[i].rid);
        UnreadableGoesOn(start.entries, n + i, limit, isUuid);
      } else {
        batches' := batches' + [b.value];
        HalfwayBatches(start, malformed, n + i + 1, note, isUuid, batches', s', m');
        if limit == Some(|batches'|) {
          full := true;
          return;
        }
      }
    }
  }

  lemma HalfwayBatches(start: Stream, malformed: Stream, n: nat, note: string, isUuid: IsUuid, batches: seq<StoredBatch>, s: Stream, m: Stream)
    requires Halfway(start, malformed, n, note, isUuid, batches, s, m)
    ensures n <= |start.entries| && batches == Batches(start.entries[..n], isUuid)
  {
  }

  /** An unreadable entry does not bring the limit nearer. */
  lemma UnreadableGoesOn(entries: seq<Entry>, n: nat, limit: Option<nat>, isUuid: IsUuid)
    requires n < |entries| && GoesOn(entries, n, limit, isUuid) && Read(entries[n], isUuid).None?
    ensures GoesOn(entries, n + 1, limit, isUuid)
  {
    hide Read;
    assert entries[..n + 1][..n] == entries[..n];
  }

  /** `_iter_stream`: page by page, until a short page or `limit` batches; unreadable entries are moved out of the way. */
  method IterStream(start: Stream, malformed: Stream, note: string, pageSize: nat, limit: Option<nat>, isUuid: IsUuid)
    returns (batches: seq<StoredBatch>, s: Stream, m: Stream)
    requires Ascending(start) && pageSize >= 1
    ensures Halfway(start, malformed, ReadUpTo(start.entries, limit, isUuid), note, isUuid, batches, s, m)
  {
    hide *;
    batches, s, m := [], start, malformed;
    NothingRead(start, malformed, note, isUuid);
    NothingReached(start.entries, limit, isUuid);
    if limit == Some(0) {
      return;
    }
    var at := 0;
    ghost var n := 0;
    NoLastId(start.entries);
    while true
      invariant n <= |start.entries| && GoesOn(start.entries, n, limit, isUuid)
      invariant Halfway(start, malformed, n, note, isUuid, batches, s, m)
      invariant at == LastId(start.entries, n)
      decreases |start.entries| - n
    {
      NextPage(start, malformed, n, note, isUuid, batches, s, m, pageSize);
      AllRead(start.entries, n, limit, isUuid);
      var page := Page(s, at, pageSize);
      if page == [] {
        return;
      }
      var full;
      batches, s, m, full := ReadPage(page, batches, s, m, note, limit, isUuid, start, malformed, n);
      if full {
        return;
      }
      n := n + |page|;
      AllRead(start.entries, n, limit, isUuid);
      if |page| < pageSize {
        return;
      }
      LastOfPage(start.entries, n - |page|, page);
      at := page[|page| - 1].rid;
    }
  }

  lemma NothingReached(entries: seq<Entry>, limit: Option<nat>, isUuid: IsUuid)
    ensures if limit == Some(0) then ReadUpTo(entries, limit, isUuid) == 0 else GoesOn(entries, 0, limit, isUuid)
  {
    assert entries[..0] == [];
    if limit == Some(0) {
      StopsThere(entries, 0, limit, isUuid);
    }
  }

  lemma AllRead(entries: seq<Entry>, n: nat, limit: Option<nat>, isUuid: IsUuid)
    requires GoesOn(entries, n, limit, isUuid)
    ensures n == |entries| ==> ReadUpTo(entries, limit, isUuid) == n
  {
    if n == |entries| {
      assert entries[..n] == entries;
    }
  }

  /** Without a limit every readable batch is handed on, in order, and exactly the unreadable entries left the stream. */
  lemma {:induction false} IterationIsComplete(start: Stream, malformed: Stream, note: string, isUuid: IsUuid,
                                               batches: seq<StoredBatch>, s: Stream, m: Stream)
    requires Halfway(start, malformed, ReadUpTo(start.entries, None, isUuid), note, isUuid, batches, s, m)
    ensures batches == Batches(start.entries, isUuid) && s.entries == Readable(start.entries, isUuid)
    ensures |m.entries| - |malformed.entries| == |start.entries| - |s.entries|
  {
    ReadsToLimit(start.entries, None, isUuid);
    var n := |start.entries|;
    assert start.entries[..n] == start.entries && start.entries[n..] == [];
    QuarantineCount(malformed, start.entries, note, isUuid);
  }

  lemma {:induction false} QuarantineCount(malformed: Stream, entries: seq<Entry>, note: string, isUuid: IsUuid)
    ensures |Quarantined(malformed, entries, note, isUuid).entries| == |malformed.entries| + |entries| - |Readable(entries, isUuid)|
  {
    hide Read;
    if entries != [] {
      QuarantineCount(malformed, entries[..|entries| - 1], note, isUuid);
    }
  }

  // ---- Sending ----

  datatype Reply = Status(code: int) | NoConnection

  predicate Accepted(r: Reply) {
    r.Status? && 200 <= r.code < 300
  }

  /** Transport errors, and the statuses that may pass. */
  predicate Retryable(r: Reply) {
    r.NoConnection? || r.code in {408, 425, 429} || r.code >= 500
  }

  /** By the class of a status: success is accepted, a server error is tried again, of the client errors only three are. */
  lemma StatusClasses(code: int)
    ensures Accepted(Status(code)) <==> code / 100 == 2
    ensures Retryable(Status(code)) <==> code / 100 >= 5 || (code / 100 == 4 && code % 100 in {8, 25, 29})
    ensures !(Accepted(Status(code)) && Retryable(Status(code)))
  {
  }

  datatype Sending = BadSettings | Sent | Failed(last: Reply)

  function ReplyAt(script: seq<Reply>, k: nat): Reply {
    if k < |script| then script[k] else NoConnection
  }

  /** Some reply within the attempts is accepted, and every one before it is worth a retry. */
  ghost predicate AcceptedWithin(script: seq<Reply>, maxAttempts: int) {
    exists k: nat :: k < maxAttempts && Accepted(ReplyAt(script, k)) && forall j :: 0 <= j < k ==> Retryable(ReplyAt(script, j))
  }

  predicate GoodSettings(maxAttempts: int, baseDelay: real, maxDelay: real) {
    maxAttempts >= 1 && baseDelay > 0.0 && maxDelay > 0.0
  }

  /**
   `send_batch_with_retry`: stops at the first accepted reply, at the first that no retry can help, or after
   `maxAttempts`.
   */
  method SendBatchWithRetry(script: seq<Reply>, maxAttempts: int, baseDelay: real, maxDelay: real)
    returns (outcome: Sending, attempts: nat)
    ensures outcome == BadSettings <==> !GoodSettings(maxAttempts, baseDelay, maxDelay)
    ensures outcome == Sent <==> GoodSettings(maxAttempts, baseDelay, maxDelay) && AcceptedWithin(script, maxAttempts)
    ensures outcome == BadSettings <==> attempts == 0
    ensures attempts > 0 ==> attempts <= maxAttempts
    ensures forall k :: 0 <= k < attempts - 1 ==> !Accepted(ReplyAt(script, k)) && Retryable(ReplyAt(script, k))
    ensures attempts > 0 ==>
      var last := ReplyAt(script, attempts - 1);
      && (outcome == Sent <==> Accepted(last))
      && (outcome != Sent ==> outcome == Failed(last) && (attempts == maxAttempts || !Retryable(last)))
  {
    if maxAttempts < 1 || baseDelay <= 0.0 || maxDelay <= 0.0 {
      return BadSettings, 0;
    }
    attempts := 0;
    while attempts < maxAttempts
      invariant attempts <= maxAttempts
      invariant forall k :: 0 <= k < attempts ==> !Accepted(ReplyAt(script, k)) && Retryable(ReplyAt(script, k))
      invariant attempts > 0 ==> attempts < maxAttempts
    {
      var reply := ReplyAt(script, attempts);
      attempts := attempts + 1;
      if Accepted(reply) {
        return Sent, attempts;
      }
      if !Retryable(reply) || attempts == maxAttempts {
        return Failed(reply), attempts;
      }
    }
    outcome := BadSettings;
  }

  // ---- Adoption of the legacy streams ----

  function FieldsOf(entries: seq<Entry>): (fields: seq<Fields>)
    ensures |fields| == |entries|
    ensures forall i :: 0 <= i < |entries| ==> fields[i] == entries[i].fields
  {
    seq(|entries|, i requires 0 <= i < |entries| => entries[i].fields)
  }

  function AddedAll(s: Stream, fields: seq<Fields>): Stream {
    if fields == [] then s else Added(AddedAll(s, fields[..|fields| - 1]), fields[|fields| - 1])
  }

  /** The merge of a legacy stream into an existing one: one transaction per entry, a page at a time. */
  method MoveEntries(legacy: Stream, target: Stream, pageSize: nat) returns (legacy': Stream, target': Stream, moved: nat)
    requires pageSize >= 1 && Ascending(legacy)
    ensures legacy' == Stream([], legacy.lastId) && moved == |legacy.entries|
    ensures target' == AddedAll(target, FieldsOf(legacy.entries))
  {
    hide *;
    legacy', target', moved := legacy, target, 0;
    NothingMoved(legacy, target);
    while true
      invariant Moving(legacy, target, moved, legacy', target')
      decreases |legacy.entries| - moved
    {
      var entries := if |legacy'.entries| <= pageSize then legacy'.entries else legacy'.entries[..pageSize];
      MovedSoFar(legacy, target, moved, legacy', target');
      if entries == [] {
        return;
      }
      ghost var first := moved;
      for i := 0 to |entries|
        invariant moved == first + i && Moving(legacy, target, moved, legacy', target')
      {
        MoveOne(legacy, target, moved, legacy', target');
        target' := Added(target', entries[i].fields);
        legacy' := Removed(legacy', entries[i].rid);
        moved := moved + 1;
      }
    }
  }

  /** A merge with the first `n` legacy entries moved. */
  ghost predicate Moving(legacy: Stream, target: Stream, n: nat, legacy': Stream, target': Stream) {
    && n <= |legacy.entries|
    && legacy' == Stream(legacy.entries[n..], legacy.lastId)
    && target' == AddedAll(target, FieldsOf(legacy.entries[..n]))
  }

  lemma NothingMoved(legacy: Stream, target: Stream)
    ensures Moving(legacy, target, 0, legacy, target)
  {
    assert legacy.entries[0..] == legacy.entries;
    assert FieldsOf(legacy.entries[..0]) == [];
  }

  lemma MovedSoFar(legacy: Stream, target: Stream, n: nat, legacy': Stream, target': Stream)
    requires Moving(legacy, target, n, legacy', target')
    ensures n + |legacy'.entries| == |legacy.entries| && legacy'.entries == legacy.entries[n..]
    ensures n == |legacy.entries| ==> legacy' == Stream([], legacy.lastId) && target' == AddedAll(target, FieldsOf(legacy.entries))
  {
    hide AddedAll;
    hide FieldsOf;
    if n == |legacy.entries| {
      assert legacy.entries[..n] == legacy.entries;
    }
  }

  lemma MoveOne(legacy: Stream, target: Stream, n: nat, legacy': Stream, target': Stream)
    requires Ascending(legacy) && Moving(legacy, target, n, legacy', target') && n < |legacy.entries|
    ensures var e := legacy.entries[n]; Moving(legacy, target, n + 1, Removed(legacy', e.rid), Added(target', e.fields))
  {
    FieldsSnoc(legacy.entries, n);
    FirstRemoved(legacy, n);
    hide FieldsOf;
    hide Ascending;
    hide Without;
    hide Added;
  }

  lemma FieldsSnoc(entries: seq<Entry>, n: nat)
    requires n < |entries|
    ensures FieldsOf(entries[..n + 1]) == FieldsOf(entries[..n]) + [entries[n].fields]
    ensures FieldsOf(entries[..n + 1])[..n] == FieldsOf(entries[..n])
  {
  }

  lemma FirstRemoved(s: Stream, n: nat)
    requires Ascending(s) && n < |s.entries|
    ensures Without(s.entries[n..], s.entries[n].rid) == s.entries[n + 1..]
  {
    assert s.entries[n..] == [] + [s.entries[n]] + s.entries[n + 1..];
    WithoutMiddle([], s.entries[n], s.entries[n + 1..]);
    assert [] + s.entries[n + 1..] == s.entries[n + 1..];
  }

  type Streams = map<string, Stream>

  function Contents(streams: Streams, key: string): seq<Fields> {
    if key in streams then FieldsOf(streams[key].entries) else []
  }

  /** One pair of keys: renamed when the venue's own stream does not exist yet, else merged and deleted. */
  function AdoptedPair(streams: Streams, legacyKey: string, key: string): Streams {
    if legacyKey == key || legacyKey !in streams then streams
    else if key !in streams then streams[key := streams[legacyKey]] - {legacyKey}
    else streams[key := AddedAll(streams[key], FieldsOf(streams[legacyKey].entries))] - {legacyKey}
  }

  lemma {:induction false} AddedAllContents(s: Stream, fields: seq<Fields>)
    ensures FieldsOf(AddedAll(s, fields).entries) == FieldsOf(s.entries) + fields
  {
    if fields == [] {
      assert FieldsOf(s.entries) + fields == FieldsOf(s.entries);
    } else {
      AddedAllContents(s, fields[..|fields| - 1]);
      assert fields == fields[..|fields| - 1] + [fields[|fields| - 1]];
    }
  }

  /** Nothing is lost and nothing is reordered: the venue's stream ends with the legacy one's entries. */
  lemma AdoptedContents(streams: Streams, legacyKey: string, key: string, other: string)
    requires legacyKey != key
    ensures var adopted := AdoptedPair(streams, legacyKey, key);
      && legacyKey !in adopted
      && Contents(adopted, key) == Contents(streams, key) + Contents(streams, legacyKey)
      && (other != key && other != legacyKey ==> Contents(adopted, other) == Contents(streams, other))
  {
    if legacyKey !in streams {
      assert Contents(streams, key) + [] == Contents(streams, key);
    } else if key !in streams {
      assert [] + Contents(streams, legacyKey) == Contents(streams, legacyKey);
    } else {
      AddedAllContents(streams[key], FieldsOf(streams[legacyKey].entries));
    }
  }

  function AdoptedAll(streams: Streams, pairs: seq<(string, string)>): Streams {
    if pairs == [] then streams
    else
      var last := pairs[|pairs| - 1];
      AdoptedPair(AdoptedAll(streams, pairs[..|pairs| - 1]), last.0, last.1)
  }

  /** How many entries adoption moves. */
  function AdoptedCount(streams: Streams, pairs: seq<(string, string)>): nat {
    if pairs == [] then 0
    else
      var front, last := pairs[..|pairs| - 1], pairs[|pairs| - 1];
      AdoptedCount(streams, front) + if last.0 == last.1 then 0 else |Contents(AdoptedAll(streams, front), last.0)|
  }

  ghost predicate AllAscending(streams: Streams) {
    forall key :: key in streams ==> Ascending(streams[key])
  }

  lemma {:induction false} AddedAllAscending(s: Stream, fields: seq<Fields>)
    requires Ascending(s)
    ensures Ascending(AddedAll(s, fields))
  {
    if fields != [] {
      AddedAllAscending(s, fields[..|fields| - 1]);
    }
  }

  lemma {:induction false} AdoptedAscending(streams: Streams, pairs: seq<(string, string)>)
    requires AllAscending(streams)
    ensures AllAscending(AdoptedAll(streams, pairs))
  {
    hide Ascending;
    if pairs != [] {
      var last := pairs[|pairs| - 1];
      var before := AdoptedAll(streams, pairs[..|pairs| - 1]);
      AdoptedAscending(streams, pairs[..|pairs| - 1]);
      if last.1 in before && last.0 in before {
        AddedAllAscending(before[last.1], FieldsOf(before[last.0].entries));
      }
    }
  }

  // ---- The store ----

  datatype ReplayResult = ReplayResult(attempted: nat, succeeded: nat, failed: nat)

  /** How the `k`-th batch sent fares. */
  ghost predicate IsAccepted(scripts: seq<seq<Reply>>, k: nat, maxAttempts: int, goodSettings: bool) {
    goodSettings && AcceptedWithin(if k < |scripts| then scripts[k] else [], maxAttempts)
  }

  lemma AcceptedMeans(scripts: seq<seq<Reply>>, k: nat, maxAttempts: int, goodSettings: bool)
    ensures IsAccepted(scripts, k, maxAttempts, goodSettings)
      <==> goodSettings && AcceptedWithin(if k < |scripts| then scripts[k] else [], maxAttempts)
  {
  }

  /** The readable entries whose batch is not accepted, the batches sent one by one. */
  ghost function Unaccepted(entries: seq<Entry>, scripts: seq<seq<Reply>>, maxAttempts: int, goodSettings: bool, isUuid: IsUuid): (kept: seq<Entry>)
    ensures forall e :: e in kept ==> e in entries
    ensures |kept| <= |Batches(entries, isUuid)|
  {
    if entries == [] then []
    else
      var front, e := entries[..|entries| - 1], entries[|entries| - 1];
      var kept := Unaccepted(front, scripts, maxAttempts, goodSettings, isUuid);
      if Read(e, isUuid).None? || IsAccepted(scripts, |Batches(front, isUuid)|, maxAttempts, goodSettings) then kept else kept + [e]
  }

  /** Where a replay stands after `n` of the dead letters. */
  ghost predicate Replaying(start: Stream, malformed: Stream, n: nat, note: string, isUuid: IsUuid, scripts: seq<seq<Reply>>,
                            maxAttempts: int, goodSettings: bool, s: Stream, m: Stream, result: ReplayResult) {
    && n <= |start.entries|
    && s == Stream(Unaccepted(start.entries[..n], scripts, maxAttempts, goodSettings, isUuid) + start.entries[n..], start.lastId)
    && m == Quarantined(malformed, start.entries[..n], note, isUuid)
    && result.attempted == |Batches(start.entries[..n], isUuid)| == result.succeeded + result.failed
    && result.failed == |Unaccepted(start.entries[..n], scripts, maxAttempts, goodSettings, isUuid)|
  }

  lemma OneDeadLetter(start: Stream, malformed: Stream, n: nat, note: string, isUuid: IsUuid, scripts: seq<seq<Reply>>,
                      maxAttempts: int, goodSettings: bool, s: Stream, m: Stream, result: ReplayResult)
    requires Ascending(start) && n < |start.entries|
    requires Replaying(start, malformed, n, note, isUuid, scripts, maxAttempts, goodSettings, s, m, result)
    ensures var e := start.entries[n];
      if Read(e, isUuid).None?
      then Replaying(start, malformed, n + 1, note, isUuid, scripts, maxAttempts, goodSettings,
                     Removed(s, e.rid), Added(m, e.fields.(note := note)), result)
      else if IsAccepted(scripts, result.attempted, maxAttempts, goodSettings)
      then Replaying(start, malformed, n + 1, note, isUuid, scripts, maxAttempts, goodSettings, Removed(s, e.rid), m,
                     ReplayResult(result.attempted + 1, result.succeeded + 1, result.failed))
      else Replaying(start, malformed, n + 1, note, isUuid, scripts, maxAttempts, goodSettings, s, m,
                     ReplayResult(result.attempted + 1, result.succeeded, result.failed + 1))
  {
    hide Read;
    hide IsAccepted;
    hide Ascending;
    assert start.entries[..n + 1][..n] == start.entries[..n];
    NextEntry(start, n, Unaccepted(start.entries[..n], scripts, maxAttempts, goodSettings, isUuid));
    hide Without;
    hide Added;
  }

  lemma NextDeadLetters(start: Stream, malformed: Stream, n: nat, note: string, isUuid: IsUuid, scripts: seq<seq<Reply>>,
                        maxAttempts: int, goodSettings: bool, s: Stream, m: Stream, result: ReplayResult, count: nat)
    requires Ascending(start) && Replaying(start, malformed, n, note, isUuid, scripts, maxAttempts, goodSettings, s, m, result)
    ensures var page := Page(s, LastId(start.entries, n), count);
      && n + |page| <= |start.entries| && page == start.entries[n..n + |page|] && |page| <= count
      && (|page| < count ==> n + |page| == |start.entries|)
  {
    hide Quarantined;
    var at := LastId(start.entries, n);
    AfterSplit(Unaccepted(start.entries[..n], scripts, maxAttempts, goodSettings, isUuid), start.entries[n..], at);
  }

  lemma NothingReplayed(start: Stream, malformed: Stream, note: string, isUuid: IsUuid, scripts: seq<seq<Reply>>, maxAttempts: int, goodSettings: bool)
    ensures Replaying(start, malformed, 0, note, isUuid, scripts, maxAttempts, goodSettings, start, malformed, ReplayResult(0, 0, 0))
  {
    assert [] + start.entries[0..] == start.entries;
  }

  /** One page of dead letters, each sent as it is read; stops once `limit` of them are tried. */
  method ReplayPage(page: seq<Entry>, s: Stream, m: Stream, result: ReplayResult, note: string, limit: nat, isUuid: IsUuid,
                    scripts: seq<seq<Reply>>, maxAttempts: int, baseDelay: real, maxDelay: real,
                    ghost start: Stream, ghost malformed: Stream, ghost n: nat)
    returns (s': Stream, m': Stream, result': ReplayResult, full: bool)
    requires Ascending(start) && limit >= 1 && GoesOn(start.entries, n, Some(limit), isUuid)
    requires Replaying(start, malformed, n, note, isUuid, scripts, maxAttempts, GoodSettings(maxAttempts, baseDelay, maxDelay), s, m, result)
    requires n + |page| <= |start.entries| && page == start.entries[n..n + |page|]
    ensures full ==> Replaying(start, malformed, ReadUpTo(start.entries, Some(limit), isUuid), note, isUuid, scripts,
                               maxAttempts, GoodSettings(maxAttempts, baseDelay, maxDelay), s', m', result')
    ensures !full ==>
      && Replaying(start, malformed, n + |page|, note, isUuid, scripts,
                   maxAttempts, GoodSettings(maxAttempts, baseDelay, maxDelay), s', m', result')
      && GoesOn(start.entries, n + |page|, Some(limit), isUuid)
  {
    hide *;
    ghost var goodSettings := GoodSettings(maxAttempts, baseDelay, maxDelay);
    s', m', result', full := s, m, result, false;
    for i := 0 to |page|
      invariant Replaying(start, malformed, n + i, note, isUuid, scripts, maxAttempts, goodSettings, s', m', result')
      invariant GoesOn(start.entries, n + i, Some(limit), isUuid)
    {
      OneDeadLetter(start, malformed, n + i, note, isUuid, scripts, maxAttempts, goodSettings, s', m', result');
      GoesOnOrStops(start.entries, n + i, Some(limit), isUuid);
      assert page[i] == start.entries[n + i];
      var b := Read(page[i], isUuid);
      if b.None? {
        m' := Added(m', page[i].fields.(note := note));
        s' := Removed(s', page[i].rid);
        UnreadableGoesOn(start.entries, n + i, Some(limit), isUuid);
      } else {
        ReadKeepsId(page[i], isUuid);
        AcceptedMeans(scripts, result'.attempted, maxAttempts, goodSettings);
        var outcome, _ := SendBatchWithRetry(if result'.attempted < |scripts| then scripts[result'.attempted] else [],
                                             maxAttempts, baseDelay, maxDelay);
        if outcome == Sent {
          s' := Removed(s', b.value.recordId);
          result' := result'.(succeeded := result'.succeeded + 1);
        } else {
          result' := result'.(failed := result'.failed + 1);
        }
        result' := result'.(attempted := result'.attempted + 1);
        ReplayedBatches(start, malformed, n + i + 1, note, isUuid, scripts, maxAttempts, goodSettings, s', m', result');
        if result'.attempted >= limit {
          NotBeyond(start.entries, n + i, limit, isUuid);
          full := true;
          return;
        }
      }
    }
  }

  lemma ReadKeepsId(e: Entry, isUuid: IsUuid)
    ensures Read(e, isUuid).Some? ==> Read(e, isUuid).value.recordId == e.rid
  {
  }

  lemma ReplayedBatches(start: Stream, malformed: Stream, n: nat, note: string, isUuid: IsUuid, scripts: seq<seq<Reply>>,
                        maxAttempts: int, goodSettings: bool, s: Stream, m: Stream, result: ReplayResult)
    requires Replaying(start, malformed, n, note, isUuid, scripts, maxAttempts, goodSettings, s, m, result)
    ensures n <= |start.entries| && result.attempted == |Batches(start.entries[..n], isUuid)|
  {
  }

  /** While the iteration goes on it is short of its limit, so one more batch at most reaches it. */
  lemma NotBeyond(entries: seq<Entry>, n: nat, limit: nat, isUuid: IsUuid)
    requires n < |entries| && limit >= 1 && GoesOn(entries, n, Some(limit), isUuid)
    ensures |Batches(entries[..n + 1], isUuid)| <= limit
  {
    hide Read;
    ReadsToLimit(entries[..n], Some(limit), isUuid);
    assert entries[..n][..n] == entries[..n];
    assert entries[..n + 1][..n] == entries[..n];
  }

  /** The iteration over the dead letters with a replay at work on each batch. */
  method ReplayStream(start: Stream, malformed: Stream, note: string, pageSize: nat, limit: nat, isUuid: IsUuid,
                      scripts: seq<seq<Reply>>, maxAttempts: int, baseDelay: real, maxDelay: real)
    returns (s: Stream, m: Stream, result: ReplayResult)
    requires Ascending(start) && pageSize >= 1 && limit >= 1
    ensures Replaying(start, malformed, ReadUpTo(start.entries, Some(limit), isUuid), note, isUuid, scripts,
                      maxAttempts, GoodSettings(maxAttempts, baseDelay, maxDelay), s, m, result)
  {
    hide *;
    ghost var goodSettings := GoodSettings(maxAttempts, baseDelay, maxDelay);
    s, m, result := start, malformed, ReplayResult(0, 0, 0);
    NothingReplayed(start, malformed, note, isUuid, scripts, maxAttempts, goodSettings);
    NothingReached(start.entries, Some(limit), isUuid);
    var at := 0;
    ghost var n := 0;
    NoLastId(start.entries);
    while true
      invariant n <= |start.entries| && GoesOn(start.entries, n, Some(limit), isUuid)
      invariant Replaying(start, malformed, n, note, isUuid, scripts, maxAttempts, goodSettings, s, m, result)
      invariant at == LastId(start.entries, n)
      decreases |start.entries| - n
    {
      NextDeadLetters(start, malformed, n, note, isUuid, scripts, maxAttempts, goodSettings, s, m, result, pageSize);
      AllRead(start.entries, n, Some(limit), isUuid);
      var page := Page(s, at, pageSize);
      if page == [] {
        return;
      }
      var full;
      s, m, result, full := ReplayPage(page, s, m, result, note, limit, isUuid, scripts, maxAttempts, baseDelay, maxDelay,
                                       start, malformed, n);
      if full {
        return;
      }
      n := n + |page|;
      AllRead(start.entries, n, Some(limit), isUuid);
      if |page| < pageSize {
        return;
      }
      LastOfPage(start.entries, n - |page|, page);
      at := page[|page| - 1].rid;
    }
  }

  class RedisBatchStore {
    var streams: Streams
    const pendingKey: string
    const deadLetterKey: string
    const malformedKey: string

    constructor (streams: Streams, pendingKey: string, deadLetterKey: string, malformedKey: string)
      ensures this.streams == streams
      ensures this.pendingKey == pendingKey && this.deadLetterKey == deadLetterKey && this.malformedKey == malformedKey
    {
      this.streams := streams;
      this.pendingKey, this.deadLetterKey, this.malformedKey := pendingKey, deadLetterKey, malformedKey;
    }

    function StreamAt(key: string): Stream
      reads this
    {
      if key in streams then streams[key] else EMPTY
    }

    method Add(venue: string, ticks: seq<Json>, batchId: string, feedEvents: seq<Json>) returns (stored: StoredBatch)
      modifies this`streams
      ensures stored == StoredBatch(old(StreamAt(pendingKey)).lastId + 1, batchId, venue, ticks, feedEvents)
      ensures streams == old(streams)[pendingKey := Added(old(StreamAt(pendingKey)), Fields(Parsed(PayloadOf(stored)), ""))]
    {
      var batch := StoredBatch(0, batchId, venue, ticks, feedEvents);
      var stream := Added(StreamAt(pendingKey), Fields(Parsed(PayloadOf(batch)), ""));
      streams := streams[pendingKey := stream];
      stored := batch.(recordId := stream.lastId);
    }

    method Delete(key: string, rid: nat)
      modifies this`streams
      ensures streams == if key in old(streams) then old(streams)[key := Removed(old(streams)[key], rid)] else old(streams)
    {
      if key in streams {
        streams := streams[key := Removed(streams[key], rid)];
      }
    }

    /** One transaction: the batch enters the dead letters as it leaves the pending stream. */
    method DeadLetter(batch: StoredBatch, error: string)
      requires pendingKey != deadLetterKey
      modifies this`streams
      ensures StreamAt(deadLetterKey) == Added(old(StreamAt(deadLetterKey)), Fields(Parsed(PayloadOf(batch)), error))
      ensures StreamAt(pendingKey) == Removed(old(StreamAt(pendingKey)), batch.recordId)
      ensures forall key :: key !in {pendingKey, deadLetterKey} ==> StreamAt(key) == old(StreamAt(key))
    {
      streams := streams[deadLetterKey := Added(StreamAt(deadLetterKey), Fields(Parsed(PayloadOf(batch)), error))];
      Delete(pendingKey, batch.recordId);
    }

    /** `deliver_stored_batch`: acknowledged after an accepted reply, dead-lettered after anything else. */
    method DeliverStoredBatch(batch: StoredBatch, script: seq<Reply>, maxAttempts: int, baseDelay: real, maxDelay: real)
      returns (outcome: Sending)
      requires pendingKey != deadLetterKey
      modifies this`streams
      ensures StreamAt(pendingKey) == Removed(old(StreamAt(pendingKey)), batch.recordId)
      ensures outcome == Sent <==> GoodSettings(maxAttempts, baseDelay, maxDelay) && AcceptedWithin(script, maxAttempts)
      ensures outcome == Sent ==> StreamAt(deadLetterKey) == old(StreamAt(deadLetterKey))
      ensures outcome != Sent ==>
        exists error :: StreamAt(deadLetterKey) == Added(old(StreamAt(deadLetterKey)), Fields(Parsed(PayloadOf(batch)), error))
      ensures forall key :: key !in {pendingKey, deadLetterKey} ==> StreamAt(key) == old(StreamAt(key))
    {
      hide AcceptedWithin;
      var attempts;
      outcome, attempts := SendBatchWithRetry(script, maxAttempts, baseDelay, maxDelay);
      if outcome == Sent {
        Delete(pendingKey, batch.recordId);
      } else {
        DeadLetter(batch, "delivery failed");
      }
    }

    /**
     The replay of dead letters, at most `limit` of them: those the backend accepts leave the stream, the others stay
     for the next replay.
     */
    method ReplayDeadLetters(limit: int, scripts: seq<seq<Reply>>, maxAttempts: int, baseDelay: real, maxDelay: real,
                             pageSize: nat, isUuid: IsUuid)
      returns (result: Option<ReplayResult>)
      requires pageSize >= 1 && deadLetterKey != malformedKey && Ascending(StreamAt(deadLetterKey))
      modifies this`streams
      ensures result.None? <==> limit < 1
      ensures result.None? ==> streams == old(streams)
      ensures result.Some? ==>
        var dead := old(StreamAt(deadLetterKey));
        Replaying(dead, old(StreamAt(malformedKey)), ReadUpTo(dead.entries, Some(limit), isUuid), deadLetterKey, isUuid, scripts,
                  maxAttempts, GoodSettings(maxAttempts, baseDelay, maxDelay),
                  StreamAt(deadLetterKey), StreamAt(malformedKey), result.value)
      ensures forall key :: key !in {deadLetterKey, malformedKey} ==> StreamAt(key) == old(StreamAt(key))
    {
      hide Replaying;
      hide ReadUpTo;
      if limit < 1 {
        return None;
      }
      var s, m, counts := ReplayStream(StreamAt(deadLetterKey), StreamAt(malformedKey), deadLetterKey, pageSize, limit, isUuid,
                                       scripts, maxAttempts, baseDelay, maxDelay);
      streams := streams[malformedKey := m][deadLetterKey := s];
      result := Some(counts);
    }

    /** `adopt_legacy_streams`. */
    method AdoptLegacyStreams(pairs: seq<(string, string)>, pageSize: nat) returns (moved: nat)
      requires pageSize >= 1 && AllAscending(streams)
      modifies this`streams
      ensures streams == AdoptedAll(old(streams), pairs)
      ensures moved == AdoptedCount(old(streams), pairs)
    {
      hide AdoptedPair;
      hide Ascending;
      moved := 0;
      for i := 0 to |pairs|
        invariant streams == AdoptedAll(old(streams), pairs[..i])
        invariant moved == AdoptedCount(old(streams), pairs[..i])
      {
        assert pairs[..i + 1][..i] == pairs[..i];
        AdoptedAscending(old(streams), pairs[..i]);
        var legacyKey, key := pairs[i].0, pairs[i].1;
        var count;
        streams, count := AdoptPair(streams, legacyKey, key, pageSize);
        moved := moved + count;
      }
      assert pairs[..|pairs|] == pairs;
    }
  }

  method AdoptPair(streams: Streams, legacyKey: string, key: string, pageSize: nat) returns (adopted: Streams, moved: nat)
    requires pageSize >= 1 && AllAscending(streams)
    ensures adopted == AdoptedPair(streams, legacyKey, key)
    ensures moved == if legacyKey == key then 0 else |Contents(streams, legacyKey)|
  {
    if legacyKey == key || legacyKey !in streams {
      return streams, 0;
    }
    if key !in streams {
      return streams[key := streams[legacyKey]] - {legacyKey}, |streams[legacyKey].entries|;
    }
    var legacy, target;
    legacy, target, moved := MoveEntries(streams[legacyKey], streams[key], pageSize);
    adopted := streams[key := target][legacyKey := legacy] - {legacyKey};
  }
}
