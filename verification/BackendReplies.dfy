/**
 The sender of stored batches against the backend it sends to: whatever is lost on the way and whoever else writes
 meanwhile, a batch is acknowledged only when the backend has committed it, and dead-lettered when it refuses it.
 */
module BackendReplies {
  import opened Texts
  import opened Json
  import B = BatchDelivery
  import I = Ingestion

  // ---- The backend's answers ----

  /** The status of the bulk endpoint's answers; a transaction that breaks is an internal error. */
  function CodeOf(status: I.Status): int {
    match status
    case Success(_, _) => 201
    case Skipped => 201
    case Duplicate => 201
    case Conflict => 409
    case Failed => 500
  }

  const UNPROCESSABLE := 422

  /** What the backend makes of a document; None when it is no valid payload. */
  type Reader = Json -> Option<I.Payload>

  /**
   What becomes of one request. `Handled`: the handler runs and its answer arrives. `AnswerLost`: it runs, and the sender
   gets something else. `Breaks`: its transaction breaks. `NotHandled`: it never runs.
   */
  datatype Attempt = Handled | AnswerLost(instead: B.Reply) | Breaks | NotHandled(instead: B.Reply)

  /** One attempt, and the requests of others that arrive before it. */
  datatype Round = Round(others: seq<I.Payload>, attempt: Attempt)

  /** Only the handler answers with success. */
  predicate NoSuccess(r: B.Reply) {
    r.Status? ==> r.code < 200 || r.code >= 300
  }

  predicate Honest(round: Round) {
    match round.attempt
    case AnswerLost(instead) => NoSuccess(instead)
    case NotHandled(instead) => NoSuccess(instead)
    case _ => true
  }

  function AfterAttempt(db: I.Database, p: Option<I.Payload>, a: Attempt): I.Database {
    if p.Some? && (a.Handled? || a.AnswerLost?) then I.Ingested(db, p.value).0 else db
  }

  function ReplyTo(db: I.Database, p: Option<I.Payload>, a: Attempt): B.Reply {
    match a
    case Handled => B.Status(if p.None? then UNPROCESSABLE else CodeOf(I.Ingested(db, p.value).1))
    case AnswerLost(instead) => instead
    case Breaks => B.Status(if p.None? then UNPROCESSABLE else CodeOf(I.Failed))
    case NotHandled(instead) => instead
  }

  /** The tables after some rounds. */
  function AfterRounds(db: I.Database, p: Option<I.Payload>, rounds: seq<Round>): I.Database {
    if rounds == [] then db
    else
      var before, last := AfterRounds(db, p, rounds[..|rounds| - 1]), rounds[|rounds| - 1];
      AfterAttempt(I.AfterAll(before, last.others), p, last.attempt)
  }

  /** The tables a request of the sender meets. */
  function MetBy(db: I.Database, p: Option<I.Payload>, rounds: seq<Round>, k: nat): I.Database
    requires k < |rounds|
  {
    I.AfterAll(AfterRounds(db, p, rounds[..k]), rounds[k].others)
  }

  /** The replies the sender gets. */
  function Script(db: I.Database, p: Option<I.Payload>, rounds: seq<Round>): (script: seq<B.Reply>)
    ensures |script| == |rounds|
    ensures forall k :: 0 <= k < |rounds| ==> script[k] == ReplyTo(MetBy(db, p, rounds, k), p, rounds[k].attempt)
  {
    seq(|rounds|, k requires 0 <= k < |rounds| => ReplyTo(MetBy(db, p, rounds, k), p, rounds[k].attempt))
  }

  // ---- Committed ----

  /** The ledger has the batch, with its own content, and the tables its rows. */
  ghost predicate Committed(db: I.Database, p: I.Payload) {
    && p.batchId.Some? && p.batchId.value in db.ledger && db.ledger[p.batchId.value] == p.Content()
    && exists ticksAt, eventsAt :: I.HoldsRows(db, p, ticksAt, eventsAt)
  }

  /** Every batch in the ledger has its rows in the tables. */
  ghost predicate LedgerStored(db: I.Database) {
    forall id :: id in db.ledger ==> exists ticksAt, eventsAt :: I.HoldsRows(db, db.ledger[id], ticksAt, eventsAt)
  }

  /** Rows stay, and no ID changes its content. */
  ghost predicate Keeps(db: I.Database, db': I.Database) {
    && I.Extends(db, db')
    && forall id :: id in db.ledger ==> id in db'.ledger && db'.ledger[id] == db.ledger[id]
  }

  lemma KeepsFurther(a: I.Database, b: I.Database, c: I.Database)
    requires Keeps(a, b) && Keeps(b, c)
    ensures Keeps(a, c)
  {
    I.ExtendsFurther(a, b, c);
  }

  lemma KeepsRows(db: I.Database, db': I.Database, p: I.Payload)
    requires Keeps(db, db') && exists ticksAt, eventsAt :: I.HoldsRows(db, p, ticksAt, eventsAt)
    ensures exists ticksAt, eventsAt :: I.HoldsRows(db', p, ticksAt, eventsAt)
  {
    hide I.HoldsRows;
    hide I.Extends;
    var ticksAt, eventsAt :| I.HoldsRows(db, p, ticksAt, eventsAt);
    I.StillHoldsRows(db, db', p, ticksAt, eventsAt);
  }

  /** Only what a batch brings makes its rows. */
  lemma ContentHasRows(db: I.Database, p: I.Payload, ticksAt: nat, eventsAt: nat)
    ensures I.HoldsRows(db, p, ticksAt, eventsAt) <==> I.HoldsRows(db, p.Content(), ticksAt, eventsAt)
  {
  }

  lemma InsertedKeeps(db: I.Database, p: I.Payload)
    requires LedgerStored(db) && (p.batchId.Some? ==> p.batchId.value !in db.ledger)
    ensures var db' := I.Inserted(db, p); Keeps(db, db') && LedgerStored(db') && (p.batchId.Some? ==> Committed(db', p))
  {
    var db' := I.Inserted(db, p);
    I.ArrivalInsertsRows(db, p);
    I.InsertedLedger(db, p);
    ContentHasRows(db', p, |db.ticks|, |db.feedEvents|);
    hide I.Inserted;
    hide I.HoldsRows;
    hide I.Extends;
    forall id | id in db'.ledger ensures exists ticksAt, eventsAt :: I.HoldsRows(db', db'.ledger[id], ticksAt, eventsAt) {
      if p.batchId != Some(id) {
        KeepsRows(db, db', db.ledger[id]);
      }
    }
  }

  /** A request answered with success is committed by then; none changes what was committed before. */
  lemma IngestedCommits(db: I.Database, p: I.Payload)
    requires LedgerStored(db)
    ensures var (db', status) := I.Ingested(db, p);
      && Keeps(db, db') && LedgerStored(db')
      && (p.batchId.Some? && CodeOf(status) == 201 ==> Committed(db', p))
      && (status.Conflict? <==> p.batchId.Some? && p.batchId.value in db.ledger && db.ledger[p.batchId.value] != p.Content())
  {
    if p.batchId.Some? && p.batchId.value in db.ledger {
      if db.ledger[p.batchId.value] == p.Content() {
        var ticksAt, eventsAt :| I.HoldsRows(db, db.ledger[p.batchId.value], ticksAt, eventsAt);
        ContentHasRows(db, p, ticksAt, eventsAt);
      }
      hide I.HoldsRows;
    } else {
      InsertedKeeps(db, p);
      hide I.Inserted;
      hide LedgerStored;
      hide Keeps;
      hide Committed;
    }
  }

  lemma {:induction false} OthersKeep(db: I.Database, requests: seq<I.Payload>)
    requires LedgerStored(db)
    ensures var db' := I.AfterAll(db, requests); Keeps(db, db') && LedgerStored(db')
  {
    hide LedgerStored;
    hide I.Ingested;
    if requests == [] {
      KeepsItself(db);
    } else {
      hide Keeps;
      var front, last := requests[..|requests| - 1], requests[|requests| - 1];
      OthersKeep(db, front);
      IngestedCommits(I.AfterAll(db, front), last);
      KeepsFurther(db, I.AfterAll(db, front), I.AfterAll(db, requests));
    }
  }

  lemma KeepsItself(db: I.Database)
    ensures Keeps(db, db)
  {
  }

  lemma AttemptKeeps(db: I.Database, p: Option<I.Payload>, a: Attempt)
    requires LedgerStored(db)
    ensures var db' := AfterAttempt(db, p, a); Keeps(db, db') && LedgerStored(db')
  {
    KeepsItself(db);
    hide Keeps;
    hide LedgerStored;
    hide Committed;
    hide I.Ingested;
    if p.Some? {
      IngestedCommits(db, p.value);
    }
  }

  /** From any round on, what the tables hold stays. */
  lemma {:induction false} RoundsKeep(db: I.Database, p: Option<I.Payload>, rounds: seq<Round>, k: nat)
    requires LedgerStored(db) && k <= |rounds|
    ensures LedgerStored(AfterRounds(db, p, rounds[..k]))
    ensures LedgerStored(AfterRounds(db, p, rounds)) && Keeps(AfterRounds(db, p, rounds[..k]), AfterRounds(db, p, rounds))
    decreases |rounds|, k
  {
    hide LedgerStored;
    hide AfterAttempt;
    if rounds == [] {
      KeepsItself(db);
    } else if k == |rounds| {
      assert rounds[..k] == rounds;
      KeepsItself(AfterRounds(db, p, rounds));
      RoundsKeep(db, p, rounds, k - 1);
    } else {
      hide Keeps;
      var front, last := rounds[..|rounds| - 1], rounds[|rounds| - 1];
      assert front[..k] == rounds[..k];
      RoundsKeep(db, p, front, k);
      var before := AfterRounds(db, p, front);
      OthersKeep(before, last.others);
      AttemptKeeps(I.AfterAll(before, last.others), p, last.attempt);
      KeepsFurther(before, I.AfterAll(before, last.others), AfterRounds(db, p, rounds));
      KeepsFurther(AfterRounds(db, p, rounds[..k]), before, AfterRounds(db, p, rounds));
    }
  }

  // ---- Acknowledged means committed ----

  /** An accepted reply is the handler's own answer to a request it did not refuse. */
  lemma AcceptedIsAnswer(db: I.Database, p: Option<I.Payload>, round: Round)
    requires Honest(round)
    ensures B.Accepted(ReplyTo(db, p, round.attempt)) <==>
      round.attempt.Handled? && p.Some? && !I.Ingested(db, p.value).1.Conflict? && !I.Ingested(db, p.value).1.Failed?
    ensures !I.Ingested(db, p.GetOr(NO_PAYLOAD)).1.Failed?
  {
    hide I.Inserted;
  }

  const NO_PAYLOAD := I.Payload(None, "", [], [])

  /**
   A batch is acknowledged only when it is committed: whatever the attempts and whoever writes in between, if its sending
   succeeds then afterwards the ledger has its ID with its own content, and the tables its rows.
   */
  lemma SentIsCommitted(db: I.Database, p: Option<I.Payload>, rounds: seq<Round>, maxAttempts: int)
    requires LedgerStored(db) && (forall round :: round in rounds ==> Honest(round)) && (p.Some? ==> p.value.batchId.Some?)
    requires B.AcceptedWithin(Script(db, p, rounds), maxAttempts)
    ensures p.Some? && Committed(AfterRounds(db, p, rounds), p.value)
  {
    var script := Script(db, p, rounds);
    var k: nat :| k < maxAttempts && B.Accepted(B.ReplyAt(script, k));
    hide B.AcceptedWithin;
    hide LedgerStored;
    hide Committed;
    hide I.Ingested;
    hide MetBy;
    AcceptedIsAnswer(MetBy(db, p, rounds, k), p, rounds[k]);
    HandledIsCommitted(db, p.value, rounds, k);
  }

  /** What the handler did not refuse is committed from then on, whether its answer arrived or not. */
  lemma HandledIsCommitted(db: I.Database, p: I.Payload, rounds: seq<Round>, k: nat)
    requires LedgerStored(db) && k < |rounds| && p.batchId.Some? && (rounds[k].attempt.Handled? || rounds[k].attempt.AnswerLost?)
    requires CodeOf(I.Ingested(MetBy(db, Some(p), rounds, k), p).1) == 201
    ensures Committed(AfterRounds(db, Some(p), rounds), p)
  {
    hide LedgerStored;
    hide Keeps;
    hide Committed;
    hide I.Ingested;
    hide I.AfterAll;
    hide CodeOf;
    var met := MetBy(db, Some(p), rounds, k);
    RoundsKeep(db, Some(p), rounds, k);
    OthersKeep(AfterRounds(db, Some(p), rounds[..k]), rounds[k].others);
    IngestedCommits(met, p);
    RoundsKeep(db, Some(p), rounds, k + 1);
    assert rounds[..k + 1][..k] == rounds[..k];
    CommittedStays(AfterRounds(db, Some(p), rounds[..k + 1]), AfterRounds(db, Some(p), rounds), p);
  }

  lemma CommittedStays(db: I.Database, db': I.Database, p: I.Payload)
    requires Keeps(db, db') && Committed(db, p)
    ensures Committed(db', p)
  {
    KeepsRows(db, db', p);
  }

  /** A batch whose ID the ledger has with another content, or that is no valid payload, is never acknowledged. */
  lemma RefusedIsNotSent(db: I.Database, p: Option<I.Payload>, rounds: seq<Round>, maxAttempts: int)
    requires LedgerStored(db) && (forall round :: round in rounds ==> Honest(round)) && (p.Some? ==> p.value.batchId.Some?)
    requires p.Some? ==> var id := p.value.batchId.value; id in db.ledger && db.ledger[id] != p.value.Content()
    ensures !B.AcceptedWithin(Script(db, p, rounds), maxAttempts)
  {
    RoundsKeep(db, p, rounds, 0);
    assert rounds[..0] == [];
    if B.AcceptedWithin(Script(db, p, rounds), maxAttempts) {
      SentIsCommitted(db, p, rounds, maxAttempts);
    }
  }

  // ---- What is tried again ----

  /** Which answers of the handler are success, which are tried again, and which end the sending: a refusal is never retried. */
  lemma AnswersMean(status: I.Status)
    ensures B.Accepted(B.Status(CodeOf(status))) <==> status.Success? || status.Skipped? || status.Duplicate?
    ensures B.Retryable(B.Status(CodeOf(status))) <==> status.Failed?
    ensures !B.Accepted(B.Status(UNPROCESSABLE)) && !B.Retryable(B.Status(UNPROCESSABLE))
    ensures B.Retryable(B.NoConnection) && !B.Accepted(B.NoConnection)
  {
  }

  /** A request that got no connection, or whose transaction broke. */
  predicate MayPass(a: Attempt) {
    a.Breaks? || (a.AnswerLost? && a.instead.NoConnection?) || (a.NotHandled? && a.instead.NoConnection?)
  }

  /** No one else gave the ID another content. */
  ghost predicate OwnId(db: I.Database, p: I.Payload) {
    p.batchId.Some? && (p.batchId.value in db.ledger ==> db.ledger[p.batchId.value] == p.Content())
  }

  /**
   Failures that may pass do not keep a valid batch from being sent: once the handler answers, within the attempts, after
   none but lost connections and broken transactions, it is, also when an earlier answer was lost.
   */
  lemma PassingFailuresAreOvercome(db: I.Database, p: I.Payload, rounds: seq<Round>, k: nat, maxAttempts: int)
    requires k < |rounds| && k < maxAttempts && rounds[k].attempt.Handled?
    requires forall j :: 0 <= j < k ==> MayPass(rounds[j].attempt)
    requires OwnId(MetBy(db, Some(p), rounds, k), p)
    ensures B.AcceptedWithin(Script(db, Some(p), rounds), maxAttempts)
  {
    var script := Script(db, Some(p), rounds);
    hide MetBy;
    hide I.Inserted;
    forall j | 0 <= j < k ensures B.Retryable(B.ReplyAt(script, j)) {
      assert MayPass(rounds[j].attempt);
    }
    assert B.Accepted(B.ReplyAt(script, k));
  }

  /**
   A batch that the handler ever worked on is committed, whether its answer arrived or was lost; so when the dead letter
   is replayed later, it is answered as a duplicate and nothing is written again.
   */
  lemma LaterReplayIsDuplicate(db: I.Database, p: I.Payload, rounds: seq<Round>, k: nat)
    requires LedgerStored(db) && k < |rounds| && (rounds[k].attempt.Handled? || rounds[k].attempt.AnswerLost?)
    requires OwnId(MetBy(db, Some(p), rounds, k), p)
    ensures var db' := AfterRounds(db, Some(p), rounds); Committed(db', p) && I.Ingested(db', p) == (db', I.Duplicate)
  {
    hide LedgerStored;
    hide I.Inserted;
    hide MetBy;
    hide AfterRounds;
    HandledIsCommitted(db, p, rounds, k);
  }

  /** The sender against the backend: acknowledged only when committed, else dead-lettered, and always so when refused. */
  method DeliverToBackend(store: B.RedisBatchStore, batch: B.StoredBatch, reader: Reader, db: I.Database, rounds: seq<Round>,
                          maxAttempts: int, baseDelay: real, maxDelay: real)
    returns (outcome: B.Sending)
    requires store.pendingKey != store.deadLetterKey
    requires LedgerStored(db) && forall round :: round in rounds ==> Honest(round)
    requires reader(B.PayloadOf(batch)).Some? ==> reader(B.PayloadOf(batch)).value.batchId == Some(batch.batchId)
    modifies store`streams
    ensures var p := reader(B.PayloadOf(batch));
      && (outcome == B.Sent ==> p.Some? && Committed(AfterRounds(db, p, rounds), p.value))
      && (p.None? || (batch.batchId in db.ledger && db.ledger[batch.batchId] != p.value.Content()) ==> outcome != B.Sent)
    ensures store.StreamAt(store.pendingKey) == B.Removed(old(store.StreamAt(store.pendingKey)), batch.recordId)
    ensures outcome == B.Sent ==> store.StreamAt(store.deadLetterKey) == old(store.StreamAt(store.deadLetterKey))
    ensures outcome != B.Sent ==>
      exists error ::
        store.StreamAt(store.deadLetterKey)
        == B.Added(old(store.StreamAt(store.deadLetterKey)), B.Fields(B.Parsed(B.PayloadOf(batch)), error))
  {
    hide B.AcceptedWithin;
    hide B.PayloadOf;
    hide LedgerStored;
    hide Committed;
    hide Script;
    var p := reader(B.PayloadOf(batch));
    outcome := store.DeliverStoredBatch(batch, Script(db, p, rounds), maxAttempts, baseDelay, maxDelay);
    if outcome == B.Sent {
      SentIsCommitted(db, p, rounds, maxAttempts);
      if batch.batchId in db.ledger && db.ledger[batch.batchId] != p.value.Content() {
        RefusedIsNotSent(db, p, rounds, maxAttempts);
      }
    }
  }
}
