/**
 Exactly-once effect of at-least-once delivery, under any interleaving of crashes, lost responses and retries. Each step
 is one atomic operation of Redis or of a database transaction. Batch IDs are fresh UUIDs, and equal payload digests mean
 equal payloads.
 */
module DeliveryProtocol {
  import opened Texts

  type Record = string

  datatype Payload = Payload(venue: string, ticks: seq<Record>, feedEvents: seq<Record>)

  datatype Batch = Batch(id: string, payload: Payload)

  // ---- Redis streams ----

  datatype Entry = Entry(rid: nat, batch: Batch)

  /** A stream never reuses an entry ID, not even after all its entries are deleted. */
  datatype Stream = Stream(entries: seq<Entry>, lastId: nat)

  function Appended(s: Option<Stream>, b: Batch): Stream {
    match s
    case None => Stream([Entry(1, b)], 1)
    case Some(stream) => Stream(stream.entries + [Entry(stream.lastId + 1, b)], stream.lastId + 1)
  }

  function Dropped(entries: seq<Entry>, rid: nat): seq<Entry> {
    if entries == [] then []
    else if entries[|entries| - 1].rid == rid then Dropped(entries[..|entries| - 1], rid)
    else Dropped(entries[..|entries| - 1], rid) + [entries[|entries| - 1]]
  }

  /** XDEL: the stream stays, even when it becomes empty. */
  function Deleted(s: Option<Stream>, rid: nat): Option<Stream> {
    match s
    case None => None
    case Some(stream) => Some(stream.(entries := Dropped(stream.entries, rid)))
  }

  function EntriesOf(s: Option<Stream>): seq<Entry> {
    if s.None? then [] else s.value.entries
  }

  predicate In(s: Option<Stream>, b: Batch) {
    exists e :: e in EntriesOf(s) && e.batch == b
  }

  ghost predicate StreamSound(s: Option<Stream>) {
    && (forall e :: e in EntriesOf(s) ==> e.rid <= s.value.lastId)
    && (forall e, f :: e in EntriesOf(s) && f in EntriesOf(s) && e.rid == f.rid ==> e == f)
  }

  lemma {:induction false} DroppedHas(entries: seq<Entry>, rid: nat)
    ensures forall e :: e in Dropped(entries, rid) <==> e in entries && e.rid != rid
    ensures |Dropped(entries, rid)| <= |entries|
    ensures (exists e :: e in entries && e.rid == rid) ==> |Dropped(entries, rid)| < |entries|
  {
    if entries != [] {
      var front, last := entries[..|entries| - 1], entries[|entries| - 1];
      DroppedHas(front, rid);
      assert entries == front + [last];
    }
  }

  lemma AppendKeeps(s: Option<Stream>, b: Batch)
    requires StreamSound(s)
    ensures StreamSound(Some(Appended(s, b)))
    ensures forall e :: e in Appended(s, b).entries <==> e in EntriesOf(s) || e == Entry(Appended(s, b).lastId, b)
    ensures forall c :: In(Some(Appended(s, b)), c) <==> In(s, c) || c == b
  {
    var appended := Appended(s, b);
    assert forall e :: e in appended.entries <==> e in EntriesOf(s) || e == Entry(appended.lastId, b);
    forall c | In(s, c) || c == b ensures In(Some(appended), c) {
      if c == b {
        assert Entry(appended.lastId, b) in EntriesOf(Some(appended));
      } else {
        var e :| e in EntriesOf(s) && e.batch == c;
        assert e in EntriesOf(Some(appended));
      }
    }
  }

  lemma DeleteKeeps(s: Option<Stream>, rid: nat)
    requires StreamSound(s)
    ensures StreamSound(Deleted(s, rid))
    ensures forall e :: e in EntriesOf(Deleted(s, rid)) <==> e in EntriesOf(s) && e.rid != rid
    ensures forall c :: In(Deleted(s, rid), c) ==> In(s, c)
    ensures forall c :: In(s, c) ==> In(Deleted(s, rid), c) || exists e :: e in EntriesOf(s) && e.rid == rid && e.batch == c
  {
    DroppedHas(EntriesOf(s), rid);
    forall c | In(s, c) && !In(Deleted(s, rid), c) ensures exists e :: e in EntriesOf(s) && e.rid == rid && e.batch == c {
      var e :| e in EntriesOf(s) && e.batch == c;
      assert e !in EntriesOf(Deleted(s, rid));
    }
  }

  // ---- The whole system ----

  /** The consumer flushes once more after a flush fails, and reads nothing in between. */
  datatype Control = Running | Dying | Dead

  datatype Source = Pending | DeadLetters

  /** A delivery in flight; `confirmed` once the backend answered 2xx. */
  datatype Job = Job(source: Source, rid: nat, batch: Batch, confirmed: bool)

  datatype System = System(
    venue: string,
    control: Control,
    ticks: seq<Record>,            // the consumer's buffers and the ID it has given them
    feedEvents: seq<Record>,
    bufferId: Option<string>,
    usedIds: set<string>,
    pending: Option<Stream>,
    dead: Option<Stream>,
    legacyPending: Option<Stream>,
    legacyDead: Option<Stream>,
    jobs: set<Job>,
    sent: set<Batch>,              // every request ever sent; the backend may still act on any of them
    ledger: map<string, Payload>,
    rows: seq<Batch>,              // what was committed to the tables, in order
    added: set<Batch>,             // every batch ever in a stream
    conflicts: nat)                // 409 answers

  function StreamOf(s: System, source: Source): Option<Stream> {
    if source.Pending? then s.pending else s.dead
  }

  function LegacyOf(s: System, source: Source): Option<Stream> {
    if source.Pending? then s.legacyPending else s.legacyDead
  }

  function WithStream(s: System, source: Source, stream: Option<Stream>): System {
    if source.Pending? then s.(pending := stream) else s.(dead := stream)
  }

  function WithLegacy(s: System, source: Source, stream: Option<Stream>): System {
    if source.Pending? then s.(legacyPending := stream) else s.(legacyDead := stream)
  }

  function BufferBatch(s: System, id: string): Batch {
    Batch(id, Payload(s.venue, s.ticks, s.feedEvents))
  }

  predicate Committed(s: System, b: Batch) {
    b.id in s.ledger && s.ledger[b.id] == b.payload
  }

  predicate Stored(s: System, b: Batch) {
    In(s.pending, b) || In(s.dead, b) || In(s.legacyPending, b) || In(s.legacyDead, b)
  }

  datatype Step =
    | Buffer(record: Record, isFeedEvent: bool)
    | StartFlush(id: string)                      // the ID of a new batch, a fresh UUID
    | FlushStored                                 // the stream has it and the consumer knows
    | FlushLost                                   // the stream has it, but the reply was lost
    | FlushFailed                                 // nothing happened
    | ListenerCrash
    | ReplayCrash
    | Schedule(source: Source, entry: Entry)      // from a flush, recovery, or the replay of dead letters
    | Send(job: Job)                              // one attempt; a retry is another Send
    | Receive(request: Batch)                     // the backend acts on a request, once or again
    | Confirm(job: Job)                           // a 2xx answer arrives; a lost answer is no step
    | Acknowledge(job: Job)                       // XDEL, after the confirmation
    | GiveUp(job: Job)                            // retries exhausted or refused: to the dead letters
    | DropJob(job: Job)                           // a job that fails between its steps
    | AdoptRename(source: Source)                 // RENAMENX
    | AdoptMove(source: Source, entry: Entry)     // XADD and XDEL in one transaction; two adopters may both do it
    | AdoptDelete(source: Source)                 // the emptied legacy stream

  ghost predicate Allowed(s: System, step: Step) {
    match step
    case Buffer(_, _) => s.control == Running && s.bufferId.None?
    case StartFlush(id) => s.control != Dead && s.bufferId.None? && id !in s.usedIds
    case FlushStored => s.control != Dead && s.bufferId.Some?
    case FlushLost => s.control != Dead && s.bufferId.Some?
    case FlushFailed => s.control != Dead && s.bufferId.Some?
    case Schedule(source, entry) => entry in EntriesOf(StreamOf(s, source))
    case Send(job) => job in s.jobs
    case Receive(request) => request in s.sent
    case Confirm(job) => job in s.jobs && job.batch in s.sent && Committed(s, job.batch)
    case Acknowledge(job) => job in s.jobs && job.confirmed
    case GiveUp(job) => job in s.jobs && job.source.Pending?
    case DropJob(job) => job in s.jobs
    case AdoptRename(source) => LegacyOf(s, source).Some? && StreamOf(s, source).None?
    case AdoptMove(source, entry) =>
      entry.batch in s.added
      && forall e :: e in EntriesOf(LegacyOf(s, source)) && e.rid == entry.rid ==> e == entry
    case AdoptDelete(source) => LegacyOf(s, source).Some? && LegacyOf(s, source).value.entries == []
    case _ => true
  }

  /** What follows a flush that raised: one more try, then the end of the consumer. */
  function AfterFailure(c: Control): Control {
    if c.Running? then Dying else Dead
  }

  function Taken(s: System, step: Step): System {
    match step
    case Buffer(record, isFeedEvent) =>
      if isFeedEvent then s.(feedEvents := s.feedEvents + [record]) else s.(ticks := s.ticks + [record])
    case StartFlush(id) => s.(bufferId := Some(id), usedIds := s.usedIds + {id})
    case FlushStored =>
      if s.bufferId.None? then s
      else
        var b := BufferBatch(s, s.bufferId.value);
        s.(pending := Some(Appended(s.pending, b)), added := s.added + {b}, ticks := [], feedEvents := [], bufferId := None)
    case FlushLost =>
      if s.bufferId.None? then s
      else
        var b := BufferBatch(s, s.bufferId.value);
        s.(pending := Some(Appended(s.pending, b)), added := s.added + {b}, control := AfterFailure(s.control))
    case FlushFailed => s.(control := AfterFailure(s.control))
    case ListenerCrash =>
      s.(control := Running, ticks := [], feedEvents := [], bufferId := None, jobs := set j | j in s.jobs && j.source.DeadLetters?)
    case ReplayCrash => s.(jobs := set j | j in s.jobs && j.source.Pending?)
    case Schedule(source, entry) => s.(jobs := s.jobs + {Job(source, entry.rid, entry.batch, false)})
    case Send(job) => s.(sent := s.sent + {job.batch})
    case Receive(request) =>
      if request.id !in s.ledger then s.(ledger := s.ledger[request.id := request.payload], rows := s.rows + [request])
      else if s.ledger[request.id] == request.payload then s
      else s.(conflicts := s.conflicts + 1)
    case Confirm(job) => s.(jobs := s.jobs - {job} + {job.(confirmed := true)})
    case Acknowledge(job) => WithStream(s, job.source, Deleted(StreamOf(s, job.source), job.rid)).(jobs := s.jobs - {job})
    case GiveUp(job) =>
      s.(dead := Some(Appended(s.dead, job.batch)), pending := Deleted(s.pending, job.rid), jobs := s.jobs - {job})
    case DropJob(job) => s.(jobs := s.jobs - {job})
    case AdoptRename(source) => WithLegacy(WithStream(s, source, LegacyOf(s, source)), source, None)
    case AdoptMove(source, entry) =>
      WithLegacy(WithStream(s, source, Some(Appended(StreamOf(s, source), entry.batch))), source,
                 Deleted(LegacyOf(s, source), entry.rid))
    case AdoptDelete(source) => WithLegacy(s, source, None)
  }

  // ---- The invariant ----

  /** One ID, one payload: over everything ever stored and everything committed. */
  ghost predicate OnePayloadPerId(s: System) {
    && (forall b, c :: b in s.added && c in s.added && b.id == c.id ==> b == c)
    && (forall b :: b in s.added && b.id in s.ledger ==> s.ledger[b.id] == b.payload)
    && (forall b :: b in s.added ==> b.id in s.usedIds)
    && s.ledger.Keys <= s.usedIds
    && s.sent <= s.added
  }

  /** The buffer's ID is new, or was stored by a flush whose reply was lost, with the same content. */
  ghost predicate BufferSound(s: System) {
    s.bufferId.Some? ==>
      && s.bufferId.value in s.usedIds
      && (forall b :: b in s.added && b.id == s.bufferId.value ==> b == BufferBatch(s, s.bufferId.value))
      && (s.bufferId.value in s.ledger ==> exists b :: b in s.added && b.id == s.bufferId.value)
  }

  ghost predicate StreamsSound(s: System) {
    && StreamSound(s.pending) && StreamSound(s.dead) && StreamSound(s.legacyPending) && StreamSound(s.legacyDead)
    && (forall b :: Stored(s, b) ==> b in s.added)
  }

  /** A delivery's record ID still names its batch, or nothing; a confirmed one is committed. */
  ghost predicate JobSound(s: System, j: Job) {
    && j.batch in s.added
    && StreamOf(s, j.source).Some? && j.rid <= StreamOf(s, j.source).value.lastId
    && (forall e :: e in EntriesOf(StreamOf(s, j.source)) && e.rid == j.rid ==> e.batch == j.batch)
    && (j.confirmed ==> Committed(s, j.batch))
  }

  ghost predicate JobsSound(s: System) {
    forall j :: j in s.jobs ==> JobSound(s, j)
  }

  /** The tables hold each committed batch once. */
  ghost predicate RowsSound(s: System) {
    && (forall i :: 0 <= i < |s.rows| ==> Committed(s, s.rows[i]))
    && (forall i, j :: 0 <= i < j < |s.rows| ==> s.rows[i].id != s.rows[j].id)
    && (forall id :: id in s.ledger ==> Batch(id, s.ledger[id]) in s.rows)
  }

  ghost predicate NothingLost(s: System) {
    forall b :: b in s.added ==> Stored(s, b) || Committed(s, b)
  }

  ghost predicate Inv(s: System) {
    && OnePayloadPerId(s) && BufferSound(s) && StreamsSound(s) && JobsSound(s) && RowsSound(s) && NothingLost(s)
    && s.conflicts == 0
  }

  // ---- Every step keeps it ----

  lemma AppendKeepsJob(s: System, s': System, j: Job, b: Batch)
    requires StreamsSound(s) && JobSound(s, j)
    requires StreamOf(s', j.source) == Some(Appended(StreamOf(s, j.source), b))
    requires s.added <= s'.added && s'.ledger == s.ledger
    ensures JobSound(s', j)
  {
    AppendKeeps(StreamOf(s, j.source), b);
  }

  lemma DeleteKeepsJob(s: System, s': System, j: Job, rid: nat)
    requires StreamsSound(s) && JobSound(s, j)
    requires StreamOf(s', j.source) == Deleted(StreamOf(s, j.source), rid)
    requires s.added <= s'.added && s'.ledger == s.ledger
    ensures JobSound(s', j)
  {
    DeleteKeeps(StreamOf(s, j.source), rid);
  }

  lemma SameKeepsJob(s: System, s': System, j: Job)
    requires JobSound(s, j) && StreamOf(s', j.source) == StreamOf(s, j.source)
    requires s.added <= s'.added && forall id :: id in s.ledger ==> id in s'.ledger && s'.ledger[id] == s.ledger[id]
    ensures JobSound(s', j)
  {
  }

  /** A flush that reached the stream, whether or not its reply did. */
  lemma FlushKeeps(s: System, s': System)
    requires Inv(s) && s.bufferId.Some?
    requires var b := BufferBatch(s, s.bufferId.value);
      s' == s.(pending := Some(Appended(s.pending, b)), added := s.added + {b})
    ensures Inv(s')
  {
    var b := BufferBatch(s, s.bufferId.value);
    FlushOnePayload(s, s', b);
    FlushStreams(s, s', b);
    FlushJobs(s, s', b);
    SameRows(s, s');
    hide OnePayloadPerId;
    hide BufferSound;
    hide RowsSound;
    hide Stored;
    hide JobsSound;
    hide StreamsSound;
    hide NothingLost;
    hide Appended;
  }

  lemma FlushStreams(s: System, s': System, b: Batch)
    requires StreamsSound(s) && NothingLost(s) && s' == s.(pending := Some(Appended(s.pending, b)), added := s.added + {b})
    ensures StreamsSound(s') && NothingLost(s')
  {
    hide In;
    hide StreamSound;
    hide Appended;
    AppendKeeps(s.pending, b);
    assert forall c :: Stored(s', c) <==> Stored(s, c) || c == b;
  }

  lemma FlushJobs(s: System, s': System, b: Batch)
    requires StreamsSound(s) && JobsSound(s) && s' == s.(pending := Some(Appended(s.pending, b)), added := s.added + {b})
    ensures JobsSound(s')
  {
    hide StreamsSound;
    hide JobSound;
    hide Appended;
    forall j | j in s'.jobs ensures JobSound(s', j) {
      if j.source.Pending? { AppendKeepsJob(s, s', j, b); } else { SameKeepsJob(s, s', j); }
    }
  }

  lemma FlushOnePayload(s: System, s': System, b: Batch)
    requires OnePayloadPerId(s) && BufferSound(s) && s.bufferId.Some? && b == BufferBatch(s, s.bufferId.value)
    requires s' == s.(pending := Some(Appended(s.pending, b)), added := s.added + {b})
    ensures OnePayloadPerId(s') && BufferSound(s')
  {
    hide Appended;
  }

  lemma SameRows(s: System, s': System)
    requires RowsSound(s) && s'.ledger == s.ledger && s'.rows == s.rows
    ensures RowsSound(s')
  {
  }

  lemma ForgettingBufferKeeps(s: System, s': System)
    requires Inv(s) && s' == s.(ticks := s'.ticks, feedEvents := s'.feedEvents, bufferId := None, control := s'.control, jobs := s'.jobs)
    requires s'.jobs <= s.jobs
    ensures Inv(s')
  {
    forall j | j in s'.jobs ensures JobSound(s', j) {
      SameKeepsJob(s, s', j);
    }
    assert forall b :: Stored(s', b) <==> Stored(s, b);
    assert forall b :: Committed(s', b) <==> Committed(s, b);
  }

  lemma DroppingJobsKeeps(s: System, s': System)
    requires Inv(s) && s' == s.(jobs := s'.jobs, control := s'.control) && s'.jobs <= s.jobs
    ensures Inv(s')
  {
    forall j | j in s'.jobs ensures JobSound(s', j) {
      SameKeepsJob(s, s', j);
    }
    assert BufferSound(s');
    assert forall b :: Stored(s', b) <==> Stored(s, b);
    assert forall b :: Committed(s', b) <==> Committed(s, b);
  }

  lemma JobsKept(s: System, s': System)
    requires JobsSound(s) && s'.jobs <= s.jobs && s'.pending == s.pending && s'.dead == s.dead
    requires s.added <= s'.added && forall id :: id in s.ledger ==> id in s'.ledger && s'.ledger[id] == s.ledger[id]
    ensures JobsSound(s')
  {
    forall j | j in s'.jobs ensures JobSound(s', j) {
      SameKeepsJob(s, s', j);
    }
  }

  lemma SameStored(s: System, s': System)
    requires s'.pending == s.pending && s'.dead == s.dead && s'.legacyPending == s.legacyPending && s'.legacyDead == s.legacyDead
    ensures forall b :: Stored(s', b) <==> Stored(s, b)
  {
  }

  lemma BufferKeeps(s: System, step: Step)
    requires Inv(s) && Allowed(s, step) && (step.Buffer? || step.StartFlush?)
    ensures Inv(Taken(s, step))
  {
    hide StreamSound;
    var s' := Taken(s, step);
    JobsKept(s, s');
    SameStored(s, s');
    hide Stored;
    hide JobsSound;
    assert forall b :: Committed(s', b) <==> Committed(s, b);
  }

  lemma ScheduleKeeps(s: System, source: Source, entry: Entry)
    requires Inv(s) && entry in EntriesOf(StreamOf(s, source))
    ensures Inv(Taken(s, Schedule(source, entry)))
  {
    hide OnePayloadPerId;
    hide BufferSound;
    hide RowsSound;
    hide NothingLost;
    var s' := Taken(s, Schedule(source, entry));
    assert In(StreamOf(s, source), entry.batch);
    forall j | j in s'.jobs ensures JobSound(s', j) {
      if j in s.jobs { SameKeepsJob(s, s', j); }
    }
    UnchangedData(s, s');
  }

  lemma SendKeeps(s: System, job: Job)
    requires Inv(s) && job in s.jobs
    ensures Inv(Taken(s, Send(job)))
  {
    hide BufferSound;
    hide RowsSound;
    hide NothingLost;
    var s' := Taken(s, Send(job));
    assert JobSound(s, job);
    JobsKept(s, s');
    UnchangedData(s, s');
  }

  lemma ConfirmKeeps(s: System, job: Job)
    requires Inv(s) && Allowed(s, Confirm(job))
    ensures Inv(Taken(s, Confirm(job)))
  {
    hide BufferSound;
    hide OnePayloadPerId;
    hide RowsSound;
    hide NothingLost;
    hide StreamSound;
    var s' := Taken(s, Confirm(job));
    forall j | j in s'.jobs ensures JobSound(s', j) {
      SameKeepsJob(s, s', if j in s.jobs then j else job);
    }
    UnchangedData(s, s');
  }

  /** The parts of the invariant that a change of jobs and requests does not touch. */
  lemma UnchangedData(s: System, s': System)
    requires s' == s.(jobs := s'.jobs, sent := s'.sent)
    ensures BufferSound(s) ==> BufferSound(s')
    ensures RowsSound(s) ==> RowsSound(s')
    ensures NothingLost(s) ==> NothingLost(s')
    ensures StreamsSound(s) ==> StreamsSound(s')
    ensures OnePayloadPerId(s) && (s'.sent == s.sent || s'.sent <= s.added) ==> OnePayloadPerId(s')
  {
    SameStored(s, s');
    hide Stored;
    assert forall b :: Committed(s', b) <==> Committed(s, b);
  }

  lemma {:induction false} ReceiveKeeps(s: System, request: Batch)
    requires Inv(s) && request in s.sent
    ensures Inv(Taken(s, Receive(request)))
  {
    if request.id !in s.ledger {
      JobsKept(s, Taken(s, Receive(request)));
      ReceiveRows(s, request);
      ReceiveStreams(s, request);
      ReceiveOnePayload(s, request);
      hide Stored;
      hide JobsSound;
      hide RowsSound;
      hide StreamsSound;
      hide OnePayloadPerId;
      hide BufferSound;
      hide NothingLost;
    }
  }

  lemma ReceiveStreams(s: System, request: Batch)
    requires StreamsSound(s) && NothingLost(s) && request.id !in s.ledger
    ensures var s' := Taken(s, Receive(request)); StreamsSound(s') && NothingLost(s')
  {
    hide In;
    hide StreamSound;
  }

  lemma ReceiveOnePayload(s: System, request: Batch)
    requires OnePayloadPerId(s) && BufferSound(s) && request in s.sent && request.id !in s.ledger
    ensures var s' := Taken(s, Receive(request)); OnePayloadPerId(s') && BufferSound(s')
  {
  }

  lemma ReceiveRows(s: System, request: Batch)
    requires RowsSound(s) && request.id !in s.ledger
    ensures RowsSound(Taken(s, Receive(request)))
  {
    var s' := Taken(s, Receive(request));
    forall i | 0 <= i < |s'.rows| ensures Committed(s', s'.rows[i]) {
      if i < |s.rows| { assert Committed(s, s.rows[i]); }
    }
    forall i, j | 0 <= i < j < |s'.rows| ensures s'.rows[i].id != s'.rows[j].id {
      assert Committed(s, s.rows[i]);
    }
    forall id | id in s'.ledger ensures Batch(id, s'.ledger[id]) in s'.rows {
      if id == request.id { assert s'.rows[|s.rows|] == request; }
    }
  }

  /** Moving entries between streams keeps everything, as long as nothing uncommitted is left out. */
  lemma StreamsChanged(s: System, s': System)
    requires Inv(s)
    requires s' == s.(pending := s'.pending, dead := s'.dead, legacyPending := s'.legacyPending, legacyDead := s'.legacyDead, jobs := s'.jobs)
    requires StreamSound(s'.pending) && StreamSound(s'.dead) && StreamSound(s'.legacyPending) && StreamSound(s'.legacyDead)
    requires forall b :: Stored(s', b) ==> b in s.added
    requires forall b :: Stored(s, b) ==> Stored(s', b) || Committed(s, b)
    requires JobsSound(s')
    ensures Inv(s')
  {
    hide Stored;
    hide StreamSound;
    hide JobsSound;
    assert forall b :: Committed(s', b) <==> Committed(s, b);
    assert BufferSound(s');
    assert OnePayloadPerId(s');
  }

  lemma AcknowledgeKeeps(s: System, job: Job)
    requires Inv(s) && job in s.jobs && job.confirmed
    ensures Inv(Taken(s, Acknowledge(job)))
  {
    var s' := Taken(s, Acknowledge(job));
    assert JobSound(s, job);
    AcknowledgeStreams(s, job);
    hide Inv;
    StreamsChanged(s, s');
  }

  lemma AcknowledgeStreams(s: System, job: Job)
    requires StreamsSound(s) && JobsSound(s) && JobSound(s, job)
    ensures var s' := Taken(s, Acknowledge(job));
      && StreamsSound(s') && JobsSound(s')
      && (forall b :: Stored(s, b) ==> Stored(s', b) || b == job.batch)
  {
    AcknowledgeJobs(s, job);
    hide JobsSound;
    DeleteKeeps(StreamOf(s, job.source), job.rid);
    hide StreamSound;
    hide Deleted;
    hide In;
    hide Committed;
  }

  lemma AcknowledgeJobs(s: System, job: Job)
    requires StreamsSound(s) && JobsSound(s)
    ensures JobsSound(Taken(s, Acknowledge(job)))
  {
    hide JobSound;
    hide StreamSound;
    hide Stored;
    var s' := Taken(s, Acknowledge(job));
    forall j | j in s'.jobs ensures JobSound(s', j) {
      if j.source == job.source { DeleteKeepsJob(s, s', j, job.rid); } else { SameKeepsJob(s, s', j); }
    }
  }

  lemma GiveUpStreams(s: System, job: Job)
    requires StreamsSound(s) && JobsSound(s) && JobSound(s, job) && job.source.Pending?
    ensures var s' := Taken(s, GiveUp(job));
      && StreamsSound(s') && JobsSound(s')
      && (forall b :: Stored(s, b) ==> Stored(s', b))
  {
    var s' := Taken(s, GiveUp(job));
    DeleteKeeps(s.pending, job.rid);
    AppendKeeps(s.dead, job.batch);
    forall j | j in s'.jobs ensures JobSound(s', j) {
      if j.source.Pending? { DeleteKeepsJob(s, s', j, job.rid); } else { AppendKeepsJob(s, s', j, job.batch); }
    }
    hide StreamSound;
  }

  lemma GiveUpKeeps(s: System, job: Job)
    requires Inv(s) && job in s.jobs && job.source.Pending?
    ensures Inv(Taken(s, GiveUp(job)))
  {
    assert JobSound(s, job);
    GiveUpStreams(s, job);
    hide Inv;
    StreamsChanged(s, Taken(s, GiveUp(job)));
  }

  lemma AdoptRenameKeeps(s: System, source: Source)
    requires Inv(s) && Allowed(s, AdoptRename(source))
    ensures Inv(Taken(s, AdoptRename(source)))
  {
    hide RowsSound;
    hide OnePayloadPerId;
    hide BufferSound;
    hide NothingLost;
    var s' := Taken(s, AdoptRename(source));
    forall j | j in s'.jobs ensures JobSound(s', j) {
      assert JobSound(s, j);
      SameKeepsJob(s, s', j);
    }
    assert forall b :: In(StreamOf(s', source), b) <==> In(LegacyOf(s, source), b);
    assert forall b :: Stored(s', b) <==> Stored(s, b);
    StreamsChanged(s, s');
  }

  /** One transaction of the adoption: the entry is appended here and deleted there. */
  lemma MovedEntry(target: Option<Stream>, legacy: Option<Stream>, entry: Entry)
    requires StreamSound(target) && StreamSound(legacy)
    requires forall e :: e in EntriesOf(legacy) && e.rid == entry.rid ==> e == entry
    ensures var target', legacy' := Some(Appended(target, entry.batch)), Deleted(legacy, entry.rid);
      && StreamSound(target') && StreamSound(legacy')
      && (forall b :: In(target, b) || In(legacy, b) ==> In(target', b) || In(legacy', b))
      && (forall b :: In(target', b) || In(legacy', b) ==> In(target, b) || In(legacy, b) || b == entry.batch)
  {
    hide In;
    AppendKeeps(target, entry.batch);
    DeleteKeeps(legacy, entry.rid);
    hide StreamSound;
  }

  lemma AdoptMoveStreams(s: System, source: Source, entry: Entry)
    requires StreamsSound(s) && Allowed(s, AdoptMove(source, entry))
    ensures var s' := Taken(s, AdoptMove(source, entry));
      && StreamsSound(s')
      && (forall b :: Stored(s, b) ==> Stored(s', b))
  {
    hide In;
    hide StreamSound;
    hide Appended;
    hide Deleted;
    MovedEntry(StreamOf(s, source), LegacyOf(s, source), entry);
  }

  lemma AdoptMoveJobs(s: System, source: Source, entry: Entry)
    requires StreamsSound(s) && JobsSound(s) && Allowed(s, AdoptMove(source, entry))
    ensures JobsSound(Taken(s, AdoptMove(source, entry)))
  {
    hide In;
    hide StreamSound;
    var s' := Taken(s, AdoptMove(source, entry));
    forall j | j in s'.jobs ensures JobSound(s', j) {
      if j.source == source { AppendKeepsJob(s, s', j, entry.batch); } else { SameKeepsJob(s, s', j); }
    }
  }

  lemma AdoptMoveKeeps(s: System, source: Source, entry: Entry)
    requires Inv(s) && Allowed(s, AdoptMove(source, entry))
    ensures Inv(Taken(s, AdoptMove(source, entry)))
  {
    AdoptMoveStreams(s, source, entry);
    AdoptMoveJobs(s, source, entry);
    hide Inv;
    StreamsChanged(s, Taken(s, AdoptMove(source, entry)));
  }

  lemma AdoptDeleteKeeps(s: System, source: Source)
    requires Inv(s) && Allowed(s, AdoptDelete(source))
    ensures Inv(Taken(s, AdoptDelete(source)))
  {
    hide RowsSound;
    hide OnePayloadPerId;
    hide BufferSound;
    hide NothingLost;
    var s' := Taken(s, AdoptDelete(source));
    JobsKept(s, s');
    assert forall b :: !In(LegacyOf(s, source), b);
    assert forall b :: Stored(s', b) <==> Stored(s, b);
    StreamsChanged(s, s');
  }

  lemma {:induction false} StepKeeps(s: System, step: Step)
    requires Inv(s) && Allowed(s, step)
    ensures Inv(Taken(s, step))
  {
    match step
    case Buffer(_, _) => BufferKeeps(s, step);
    case StartFlush(_) => BufferKeeps(s, step);
    case FlushStored =>
      var b := BufferBatch(s, s.bufferId.value);
      var stored := s.(pending := Some(Appended(s.pending, b)), added := s.added + {b});
      FlushKeeps(s, stored);
      ForgettingBufferKeeps(stored, Taken(s, step));
    case FlushLost =>
      var b := BufferBatch(s, s.bufferId.value);
      var stored := s.(pending := Some(Appended(s.pending, b)), added := s.added + {b});
      FlushKeeps(s, stored);
      DroppingJobsKeeps(stored, Taken(s, step));
    case FlushFailed => DroppingJobsKeeps(s, Taken(s, step));
    case ListenerCrash => ForgettingBufferKeeps(s, Taken(s, step));
    case ReplayCrash => DroppingJobsKeeps(s, Taken(s, step));
    case Schedule(source, entry) => ScheduleKeeps(s, source, entry);
    case Send(job) => SendKeeps(s, job);
    case Receive(request) => ReceiveKeeps(s, request);
    case Confirm(job) => ConfirmKeeps(s, job);
    case Acknowledge(job) => AcknowledgeKeeps(s, job);
    case GiveUp(job) => GiveUpKeeps(s, job);
    case DropJob(_) => DroppingJobsKeeps(s, Taken(s, step));
    case AdoptRename(source) => AdoptRenameKeeps(s, source);
    case AdoptMove(source, entry) => AdoptMoveKeeps(s, source, entry);
    case AdoptDelete(source) => AdoptDeleteKeeps(s, source);
  }

  // ---- Every run ----

  /** A fresh process beside whatever the legacy streams and the ledger hold from before. */
  ghost predicate IsStart(s: System) {
    && s.control == Running && s.ticks == [] && s.feedEvents == [] && s.bufferId.None?
    && s.pending.None? && s.dead.None? && s.jobs == {} && s.sent == {} && s.conflicts == 0
    && StreamSound(s.legacyPending) && StreamSound(s.legacyDead)
    && (forall b :: b in s.added <==> In(s.legacyPending, b) || In(s.legacyDead, b))
    && OnePayloadPerId(s) && RowsSound(s)
  }

  ghost predicate Follows(s: System, s': System) {
    exists step :: Allowed(s, step) && s' == Taken(s, step)
  }

  ghost predicate IsRun(run: seq<System>) {
    run != [] && IsStart(run[0]) && forall i :: 0 <= i < |run| - 1 ==> Follows(run[i], run[i + 1])
  }

  lemma StartIsSound(s: System)
    requires IsStart(s)
    ensures Inv(s)
  {
  }

  lemma {:induction false} InvariantHolds(run: seq<System>, i: nat)
    requires IsRun(run) && i < |run|
    ensures Inv(run[i])
    decreases i
  {
    if i == 0 {
      StartIsSound(run[0]);
    } else {
      hide Inv;
      InvariantHolds(run, i - 1);
      assert Follows(run[i - 1], run[i - 1 + 1]);
      var step :| Allowed(run[i - 1], step) && run[i] == Taken(run[i - 1], step);
      StepKeeps(run[i - 1], step);
    }
  }

  /** How often a batch was committed to the tables. */
  function TimesCommitted(rows: seq<Batch>, b: Batch): nat {
    if rows == [] then 0
    else TimesCommitted(rows[..|rows| - 1], b) + if rows[|rows| - 1] == b then 1 else 0
  }

  lemma {:induction false} DistinctRowsOnce(rows: seq<Batch>, b: Batch)
    requires forall i, j :: 0 <= i < j < |rows| ==> rows[i].id != rows[j].id
    ensures TimesCommitted(rows, b) == if b in rows then 1 else 0
  {
    if rows != [] {
      var front, last := rows[..|rows| - 1], rows[|rows| - 1];
      DistinctRowsOnce(front, b);
      assert rows == front + [last];
      if last == b {
        assert forall i :: 0 <= i < |front| ==> rows[i].id != rows[|rows| - 1].id;
        assert b !in front;
      }
    }
  }

  /**
   In every reachable state every batch ever in a stream is still in one or is committed; a committed batch is in the
   tables exactly once; and the backend never had to refuse an ID used with another payload.
   */
  lemma ExactlyOnce(run: seq<System>, i: nat, b: Batch)
    requires IsRun(run) && i < |run| && b in run[i].added
    ensures var s := run[i];
      && (Stored(s, b) || Committed(s, b))
      && TimesCommitted(s.rows, b) == (if Committed(s, b) then 1 else 0)
      && s.conflicts == 0
      && forall c :: c in s.added && c.id == b.id ==> c == b
  {
    InvariantHolds(run, i);
    var s := run[i];
    DistinctRowsOnce(s.rows, b);
    if b in s.rows {
      var k :| 0 <= k < |s.rows| && s.rows[k] == b;
      assert Committed(s, s.rows[k]);
    }
  }

  /** A step that leaves a batch in no stream is the acknowledgement of a batch that was committed before it. */
  lemma AcknowledgedAfterCommit(run: seq<System>, i: nat, step: Step, b: Batch)
    requires IsRun(run) && i < |run| && Allowed(run[i], step)
    requires Stored(run[i], b) && !Stored(Taken(run[i], step), b)
    ensures step.Acknowledge? && step.job.batch == b && Committed(run[i], b)
  {
    var s, s' := run[i], Taken(run[i], step);
    InvariantHolds(run, i);
    StillStored(s, step, b);
  }

  lemma StillStored(s: System, step: Step, b: Batch)
    requires Inv(s) && Allowed(s, step) && Stored(s, b) && !Stored(Taken(s, step), b)
    ensures step.Acknowledge? && step.job.batch == b && Committed(s, b)
  {
    hide In;
    hide RowsSound;
    hide NothingLost;
    hide BufferSound;
    hide OnePayloadPerId;
    hide Appended;
    hide Deleted;
    hide StreamSound;
    match step
    case FlushStored => AppendKeeps(s.pending, BufferBatch(s, s.bufferId.value));
    case FlushLost => AppendKeeps(s.pending, BufferBatch(s, s.bufferId.value));
    case Acknowledge(job) =>
      assert JobSound(s, job);
      DeleteKeeps(StreamOf(s, job.source), job.rid);
    case GiveUp(job) =>
      assert JobSound(s, job);
      DeleteKeeps(s.pending, job.rid);
      AppendKeeps(s.dead, job.batch);
    case AdoptMove(source, entry) =>
      AppendKeeps(StreamOf(s, source), entry.batch);
      DeleteKeeps(LegacyOf(s, source), entry.rid);
    case AdoptRename(source) => NothingIn(StreamOf(s, source), b);
    case AdoptDelete(source) => NothingIn(LegacyOf(s, source), b);
    case _ =>
  }

  lemma NothingIn(s: Option<Stream>, b: Batch)
    requires EntriesOf(s) == []
    ensures !In(s, b)
  {
  }

  // ---- Whatever is left is delivered once the backend accepts ----

  ghost predicate Reaches(s: System, s': System, n: nat)
    decreases n
  {
    if n == 0 then s == s' else exists mid :: Reaches(s, mid, n - 1) && Follows(mid, s')
  }

  lemma {:induction false} OneMore(s: System, mid: System, n: nat, step: Step)
    requires Reaches(s, mid, n) && Inv(mid) && Allowed(mid, step)
    ensures Reaches(s, Taken(mid, step), n + 1) && Inv(Taken(mid, step))
  {
    hide Inv;
    StepKeeps(mid, step);
    assert Follows(mid, Taken(mid, step));
  }

  function OtherSource(source: Source): Source {
    if source.Pending? then DeadLetters else Pending
  }

  ghost predicate SameElsewhere(s: System, s': System, source: Source) {
    && s'.added == s.added
    && StreamOf(s', OtherSource(source)) == StreamOf(s, OtherSource(source))
    && s'.legacyPending == s.legacyPending && s'.legacyDead == s.legacyDead
  }

  /** The first half of a delivery: scheduled, sent, and committed by the backend. */
  lemma CommitOne(s0: System, n: nat, s: System, source: Source, entry: Entry) returns (s': System)
    requires Reaches(s0, s, n) && Inv(s) && entry in EntriesOf(StreamOf(s, source))
    ensures Reaches(s0, s', n + 3) && Inv(s') && SameElsewhere(s, s', source) && StreamOf(s', source) == StreamOf(s, source)
    ensures Job(source, entry.rid, entry.batch, false) in s'.jobs && entry.batch in s'.sent && Committed(s', entry.batch)
  {
    hide Inv;
    hide Reaches;
    hide Committed;
    var job := Job(source, entry.rid, entry.batch, false);
    OneMore(s0, s, n, Schedule(source, entry));
    var scheduled := Taken(s, Schedule(source, entry));
    OneMore(s0, scheduled, n + 1, Send(job));
    var asked := Taken(scheduled, Send(job));
    OneMore(s0, asked, n + 2, Receive(entry.batch));
    s' := Taken(asked, Receive(entry.batch));
    CommittedAfter(asked, entry.batch);
  }

  /** One entry, delivered: it leaves its stream. */
  lemma DeliverOne(s0: System, n: nat, s: System, source: Source, entry: Entry) returns (s': System)
    requires Reaches(s0, s, n) && Inv(s) && entry in EntriesOf(StreamOf(s, source))
    ensures Reaches(s0, s', n + 5) && Inv(s') && SameElsewhere(s, s', source)
    ensures |EntriesOf(StreamOf(s', source))| < |EntriesOf(StreamOf(s, source))|
  {
    hide Inv;
    hide Reaches;
    hide Committed;
    hide Dropped;
    var job := Job(source, entry.rid, entry.batch, false);
    var done := job.(confirmed := true);
    var committed := CommitOne(s0, n, s, source, entry);
    OneMore(s0, committed, n + 3, Confirm(job));
    var confirmed := Taken(committed, Confirm(job));
    OneMore(s0, confirmed, n + 4, Acknowledge(done));
    s' := Taken(confirmed, Acknowledge(done));
    DroppedHas(EntriesOf(StreamOf(s, source)), entry.rid);
  }

  lemma CommittedAfter(s: System, request: Batch)
    requires Inv(s) && request in s.sent
    ensures Committed(Taken(s, Receive(request)), request)
  {
  }

  /** Recovery (or the replay of dead letters) empties its stream. */
  lemma {:induction false} Drain(s0: System, n: nat, s: System, source: Source) returns (s': System, m: nat)
    requires Reaches(s0, s, n) && Inv(s)
    ensures Reaches(s0, s', m) && Inv(s') && SameElsewhere(s, s', source) && EntriesOf(StreamOf(s', source)) == []
    decreases |EntriesOf(StreamOf(s, source))|
  {
    hide Reaches;
    hide Inv;
    if EntriesOf(StreamOf(s, source)) == [] {
      s', m := s, n;
    } else {
      var mid := DeliverOne(s0, n, s, source, EntriesOf(StreamOf(s, source))[0]);
      s', m := Drain(s0, n + 5, mid, source);
    }
  }

  lemma AdoptOne(s0: System, n: nat, s: System, source: Source) returns (s': System)
    requires Reaches(s0, s, n) && Inv(s) && EntriesOf(LegacyOf(s, source)) != []
    ensures Reaches(s0, s', n + 1) && Inv(s') && s'.added == s.added
    ensures LegacyOf(s', OtherSource(source)) == LegacyOf(s, OtherSource(source))
    ensures |EntriesOf(LegacyOf(s', source))| < |EntriesOf(LegacyOf(s, source))|
  {
    var entry := EntriesOf(LegacyOf(s, source))[0];
    MoveAllowed(s, source, entry);
    hide *;
    MoveShrinks(s, source, entry);
    OneMore(s0, s, n, AdoptMove(source, entry));
    s' := Taken(s, AdoptMove(source, entry));
  }

  lemma MoveShrinks(s: System, source: Source, entry: Entry)
    requires entry in EntriesOf(LegacyOf(s, source)) && Allowed(s, AdoptMove(source, entry))
    ensures var s' := Taken(s, AdoptMove(source, entry));
      && s'.added == s.added && LegacyOf(s', OtherSource(source)) == LegacyOf(s, OtherSource(source))
      && |EntriesOf(LegacyOf(s', source))| < |EntriesOf(LegacyOf(s, source))|
  {
    hide Allowed;
    hide Dropped;
    hide Appended;
    DroppedHas(EntriesOf(LegacyOf(s, source)), entry.rid);
  }

  lemma MoveAllowed(s: System, source: Source, entry: Entry)
    requires Inv(s) && entry in EntriesOf(LegacyOf(s, source))
    ensures Allowed(s, AdoptMove(source, entry))
  {
    assert In(LegacyOf(s, source), entry.batch);
    hide In;
  }

  /** Adoption moves every legacy entry over and deletes the stream. */
  lemma {:induction false} Adopt(s0: System, n: nat, s: System, source: Source) returns (s': System, m: nat)
    requires Reaches(s0, s, n) && Inv(s)
    ensures Reaches(s0, s', m) && Inv(s') && s'.added == s.added && LegacyOf(s', source).None?
    ensures LegacyOf(s', OtherSource(source)) == LegacyOf(s, OtherSource(source))
    decreases |EntriesOf(LegacyOf(s, source))|
  {
    hide Reaches;
    hide Inv;
    if LegacyOf(s, source).None? {
      s', m := s, n;
    } else if EntriesOf(LegacyOf(s, source)) == [] {
      OneMore(s0, s, n, AdoptDelete(source));
      s', m := Taken(s, AdoptDelete(source)), n + 1;
    } else {
      var mid := AdoptOne(s0, n, s, source);
      s', m := Adopt(s0, n + 1, mid, source);
    }
  }

  /** From any reachable state the system can still commit every batch ever added, once each. */
  lemma EverythingCanBeDelivered(run: seq<System>, i: nat) returns (s': System, m: nat)
    requires IsRun(run) && i < |run|
    ensures Reaches(run[i], s', m) && s'.added == run[i].added
    ensures forall b :: b in s'.added ==> Committed(s', b) && TimesCommitted(s'.rows, b) == 1 && !Stored(s', b)
  {
    hide Reaches;
    hide Inv;
    var s := run[i];
    InvariantHolds(run, i);
    assert Reaches(s, s, 0) by { NoSteps(s); }
    s', m := Adopt(s, 0, s, Pending);
    s', m := Adopt(s, m, s', DeadLetters);
    s', m := Drain(s, m, s', Pending);
    s', m := Drain(s, m, s', DeadLetters);
    AllDelivered(s');
  }

  lemma NoSteps(s: System)
    ensures Reaches(s, s, 0)
  {
  }

  lemma AllDelivered(s: System)
    requires Inv(s) && s.legacyPending.None? && s.legacyDead.None? && EntriesOf(s.pending) == [] && EntriesOf(s.dead) == []
    ensures forall b :: b in s.added ==> Committed(s, b) && TimesCommitted(s.rows, b) == 1 && !Stored(s, b)
  {
    forall b | b in s.added ensures Committed(s, b) && TimesCommitted(s.rows, b) == 1 && !Stored(s, b) {
      DistinctRowsOnce(s.rows, b);
    }
  }
}
