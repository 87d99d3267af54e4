/**
 The records inside the batches: what the consumer buffers goes into one batch, once, in its own kind, unless the listener
 crashes before the flush; with the delivery protocol it is then committed once.
 */
module DeliveredRecords {
  import opened Texts
  import opened DeliveryProtocol

  /** A run with the steps that were taken. */
  ghost predicate IsRunBy(run: seq<System>, steps: seq<Step>) {
    && |run| == |steps| + 1 && IsStart(run[0])
    && forall k :: 0 <= k < |steps| ==> Allowed(run[k], steps[k]) && run[k + 1] == Taken(run[k], steps[k])
  }

  lemma RunByIsRun(run: seq<System>, steps: seq<Step>)
    requires IsRunBy(run, steps)
    ensures IsRun(run)
  {
    hide IsStart;
    hide Allowed;
    hide Taken;
    forall i | 0 <= i < |run| - 1 ensures Follows(run[i], run[i + 1]) {
      assert Allowed(run[i], steps[i]) && run[i + 1] == Taken(run[i], steps[i]);
    }
  }

  /** The records of one kind in a payload, and in the buffer. */
  function Of(p: Payload, isFeedEvent: bool): seq<Record> {
    if isFeedEvent then p.feedEvents else p.ticks
  }

  function Buffered(s: System): Payload {
    Payload(s.venue, s.ticks, s.feedEvents)
  }

  ghost predicate Carried(s: System, r: Record, isFeedEvent: bool) {
    r in Of(Buffered(s), isFeedEvent) || exists b :: b in s.added && r in Of(b.payload, isFeedEvent)
  }

  lemma StepCarries(s: System, step: Step, r: Record, isFeedEvent: bool)
    requires Allowed(s, step) && !step.ListenerCrash? && Carried(s, r, isFeedEvent)
    ensures Carried(Taken(s, step), r, isFeedEvent)
  {
    hide Appended;
    hide Deleted;
    if step.FlushStored? && r in Of(Buffered(s), isFeedEvent) {
      assert BufferBatch(s, s.bufferId.value) in Taken(s, step).added;
    }
  }

  lemma {:induction false} StaysCarried(run: seq<System>, steps: seq<Step>, i: nat, j: nat, r: Record, isFeedEvent: bool)
    requires IsRunBy(run, steps) && i <= j < |run| && Carried(run[i], r, isFeedEvent)
    requires forall k :: i <= k < j ==> !steps[k].ListenerCrash?
    ensures Carried(run[j], r, isFeedEvent)
    decreases j
  {
    hide Carried;
    hide Taken;
    hide Allowed;
    if i < j {
      StaysCarried(run, steps, i, j - 1, r, isFeedEvent);
      StepCarries(run[j - 1], steps[j - 1], r, isFeedEvent);
    }
  }

  /**
   Nothing buffered is lost but by a crash of the listener: in every later state a record is still in the buffer, or in a
   batch, among the records of its kind, and that batch is in a stream or committed.
   */
  lemma BufferedIsDelivered(run: seq<System>, steps: seq<Step>, i: nat, j: nat)
    requires IsRunBy(run, steps) && i < j < |run| && steps[i].Buffer?
    requires forall k :: i < k < j ==> !steps[k].ListenerCrash?
    ensures var s, r, isFeedEvent := run[j], steps[i].record, steps[i].isFeedEvent;
      || r in (if isFeedEvent then s.feedEvents else s.ticks)
      || exists b ::
           b in s.added && r in (if isFeedEvent then b.payload.feedEvents else b.payload.ticks) && (Stored(s, b) || Committed(s, b))
  {
    var r, isFeedEvent := steps[i].record, steps[i].isFeedEvent;
    assert run[i + 1] == Taken(run[i], steps[i]);
    assert Carried(run[i + 1], r, isFeedEvent);
    hide Taken;
    hide Allowed;
    hide Stored;
    StaysCarried(run, steps, i + 1, j, r, isFeedEvent);
    RunByIsRun(run, steps);
    hide IsRunBy;
    if r !in Of(Buffered(run[j]), isFeedEvent) {
      var b :| b in run[j].added && r in Of(b.payload, isFeedEvent);
      ExactlyOnce(run, j, b);
    }
  }

  // ---- Once ----

  /** How often a payload holds a record, of either kind. */
  function Times(p: Payload, r: Record): nat {
    multiset(p.ticks)[r] + multiset(p.feedEvents)[r]
  }

  /** A record that came once is in one batch or in the buffer, once; in both only while a flush does not know its result. */
  ghost predicate Once(s: System, r: Record) {
    && Times(Buffered(s), r) <= 1
    && (forall b :: b in s.added ==> Times(b.payload, r) <= 1)
    && (forall b, c :: b in s.added && c in s.added && Times(b.payload, r) > 0 && Times(c.payload, r) > 0 ==> b == c)
    && (forall b :: b in s.added && Times(b.payload, r) > 0 && Times(Buffered(s), r) > 0 ==> s.bufferId == Some(b.id))
  }

  /** The record has not come yet. */
  ghost predicate Unseen(s: System, r: Record) {
    Times(Buffered(s), r) == 0 && forall b :: b in s.added ==> Times(b.payload, r) == 0
  }

  lemma BufferOnce(s: System, r: Record, isFeedEvent: bool)
    requires Allowed(s, Buffer(r, isFeedEvent)) && Unseen(s, r)
    ensures Once(Taken(s, Buffer(r, isFeedEvent)), r)
  {
  }

  lemma StepOnce(s: System, step: Step, r: Record)
    requires Inv(s) && Allowed(s, step) && Once(s, r) && (step.Buffer? ==> step.record != r)
    ensures Once(Taken(s, step), r)
    ensures Unseen(s, r) ==> Unseen(Taken(s, step), r)
  {
    if step.FlushStored? || step.FlushLost? {
      FlushOnce(s, step, r);
    } else if step.Buffer? {
      hide Inv;
      OtherOnce(s, step, r);
    } else {
      LeavesBuffer(s, step);
      NothingTwice(Taken(s, step).venue, r);
      hide *;
      SameOnce(s, Taken(s, step), r);
    }
  }

  lemma LeavesBuffer(s: System, step: Step)
    requires Allowed(s, step) && !step.Buffer? && !step.FlushStored? && !step.FlushLost?
    ensures var s' := Taken(s, step);
      && s'.added == s.added
      && ((Buffered(s') == Buffered(s) && (s'.bufferId == s.bufferId || s.bufferId.None?)) || Buffered(s') == Payload(s'.venue, [], []))
  {
    hide Appended;
    hide Deleted;
    hide Stored;
  }

  lemma OtherOnce(s: System, step: Step, r: Record)
    requires step.Buffer? && step.record != r && Allowed(s, step) && Once(s, r)
    ensures Once(Taken(s, step), r)
    ensures Unseen(s, r) ==> Unseen(Taken(s, step), r)
  {
    assert Times(Buffered(Taken(s, step)), r) == Times(Buffered(s), r);
    hide Times;
  }

  /** A step that adds no batch and leaves the buffer as it was, or empties it. */
  lemma SameOnce(s: System, s': System, r: Record)
    requires Once(s, r) && s'.added == s.added
    requires (Buffered(s') == Buffered(s) && (s'.bufferId == s.bufferId || s.bufferId.None?)) || Times(Buffered(s'), r) == 0
    ensures Once(s', r)
    ensures Unseen(s, r) ==> Unseen(s', r)
  {
    hide Times;
  }

  lemma FlushOnce(s: System, step: Step, r: Record)
    requires BufferSound(s) && Allowed(s, step) && Once(s, r) && (step.FlushStored? || step.FlushLost?)
    ensures Once(Taken(s, step), r)
    ensures Unseen(s, r) ==> Unseen(Taken(s, step), r)
  {
    hide Appended;
    hide Times;
    var b := BufferBatch(s, s.bufferId.value);
    assert b.payload == Buffered(s);
    NothingTwice(s.venue, r);
  }

  lemma NothingTwice(venue: string, r: Record)
    ensures Times(Payload(venue, [], []), r) == 0
  {
  }

  lemma {:induction false} CameOnce(run: seq<System>, steps: seq<Step>, j: nat, r: Record, i: nat)
    requires IsRunBy(run, steps) && j < |run| && forall b :: b in run[0].added ==> Times(b.payload, r) == 0
    requires forall k :: 0 <= k < j && steps[k].Buffer? && steps[k].record == r ==> k == i
    ensures Once(run[j], r) && (j <= i ==> Unseen(run[j], r))
    decreases j
  {
    hide Taken;
    hide Allowed;
    hide Inv;
    if j == 0 {
      NothingCame(run[0], r);
    } else {
      CameOnce(run, steps, j - 1, r, i);
      RunByIsRun(run, steps);
      InvariantHolds(run, j - 1);
      hide Once;
      hide Unseen;
      if steps[j - 1].Buffer? && steps[j - 1].record == r {
        BufferOnce(run[j - 1], r, steps[j - 1].isFeedEvent);
      } else {
        StepOnce(run[j - 1], steps[j - 1], r);
      }
    }
  }

  lemma NothingCame(s: System, r: Record)
    requires IsStart(s) && forall b :: b in s.added ==> Times(b.payload, r) == 0
    ensures Once(s, r) && Unseen(s, r)
  {
  }

  /**
   Nothing is delivered twice: a record that no legacy batch held, and that the consumer buffered at most once, is in at most
   one batch, once, whatever is retried, replayed or adopted.
   */
  lemma RecordDeliveredOnce(run: seq<System>, steps: seq<Step>, j: nat, r: Record, i: nat)
    requires IsRunBy(run, steps) && j < |run| && forall b :: b in run[0].added ==> Times(b.payload, r) == 0
    requires forall k :: 0 <= k < j && steps[k].Buffer? && steps[k].record == r ==> k == i
    ensures var s := run[j];
      && (forall b :: b in s.added ==> multiset(b.payload.ticks)[r] + multiset(b.payload.feedEvents)[r] <= 1)
      && (forall b, c :: b in s.added && c in s.added && Times(b.payload, r) > 0 && Times(c.payload, r) > 0 ==> b == c)
  {
    CameOnce(run, steps, j, r, i);
  }

  // ---- The flush ----

  /** The batch of a flush, under its new ID or the one a flush before it was given. */
  function Flushing(s: System, id: string): System {
    if s.bufferId.None? then Taken(s, StartFlush(id)) else s
  }

  /**
   As long as the consumer lives its buffer can be stored: a flush, begun with a fresh ID or taken up again under the ID it
   had, puts exactly the buffered records into one batch, and leaves the buffer empty.
   */
  lemma BufferCanBeFlushed(s: System, id: string)
    requires Inv(s) && s.control != Dead && (s.bufferId.None? ==> id !in s.usedIds)
    ensures var flushing := Flushing(s, id);
      && (s.bufferId.None? ==> Allowed(s, StartFlush(id)))
      && Allowed(flushing, FlushStored)
      && var flushed := Taken(flushing, FlushStored);
      && flushed.ticks == [] && flushed.feedEvents == [] && flushed.bufferId.None?
      && var b := Batch(s.bufferId.GetOr(id), Payload(s.venue, s.ticks, s.feedEvents));
      b in flushed.added && In(flushed.pending, b)
  {
    var flushing := Flushing(s, id);
    AppendKeeps(flushing.pending, BufferBatch(flushing, flushing.bufferId.value));
    hide Appended;
    hide StreamSound;
    hide In;
  }

  /** A failed flush is tried once more, with nothing read in between; a second failure ends the consumer. */
  lemma SecondFailureEnds(s: System, record: Record, isFeedEvent: bool)
    requires s.control == Running && s.bufferId.Some?
    ensures var failed := Taken(s, FlushFailed);
      && Allowed(failed, FlushStored) && !Allowed(failed, Buffer(record, isFeedEvent))
      && var dead := Taken(failed, FlushFailed);
      !Allowed(dead, FlushStored) && !Allowed(dead, FlushLost) && !Allowed(dead, Buffer(record, isFeedEvent))
  {
  }

  /** A crash forgets the buffer and the deliveries from the pending stream, and a new consumer begins. */
  lemma CrashForgets(s: System)
    ensures var s' := Taken(s, ListenerCrash);
      && s'.control == Running && s'.ticks == [] && s'.feedEvents == [] && s'.bufferId.None?
      && (forall j :: j in s'.jobs <==> j in s.jobs && j.source == DeadLetters)
      && s'.pending == s.pending && s'.dead == s.dead && s'.ledger == s.ledger && s'.rows == s.rows && s'.added == s.added
  {
  }
}
