/**
 The stored resume point: `parse_resume_document` undoes `resume_document`, and what the poller recorded near the
 newest listing is not handed on again after a restart.

 A cursor is stored as the venue's own string; the codec says which position a string stands for.
 */
module PollerResume {
  import opened Texts
  import opened Ranks
  import opened OrderedDict
  import opened Json
  import opened DMarketPoller
  import opened PollerCoverage
  import opened PollerRepeats
  import CursorText

  const RESUME_VERSION := 1

  datatype Codec = Codec(encode: Cursor -> string, decode: string -> Cursor)

  /** The cursor reads back from its own text. */
  ghost predicate Keeps(codec: Codec, c: Cursor) {
    codec.decode(codec.encode(c)) == c
  }

  ghost predicate KeepsAll(codec: Codec, gaps: seq<Gap>) {
    forall i :: 0 <= i < |gaps| ==> Keeps(codec, gaps[i].cursor)
  }

  // ---- Gaps ----

  function SortedIds(ids: set<string>): seq<Json> {
    var q := SortedOf(set id | id in ids :: Rank(0, id));
    seq(|q|, i requires 0 <= i < |q| => Text(q[i].member))
  }

  /** `CatchUpGap.to_json`. */
  function GapToJson(g: Gap, codec: Codec): Json {
    Object(map["cursor" := Text(codec.encode(g.cursor)), "until_ms" := Int(g.untilMs), "skip_ids" := List(SortedIds(g.skipIds))])
  }

  function TextSet(items: seq<Json>): set<string> {
    set j | j in items :: TextOf(j)
  }

  /** `CatchUpGap.from_json`; None for anything that is not a gap. */
  function GapFromJson(j: Json, codec: Codec): Option<Gap> {
    var cursor := Field(j, "cursor", Null);
    var untilMs := AsInt(Field(j, "until_ms", Null));
    var skip := Field(j, "skip_ids", List([]));
    if !j.Object? || !cursor.Text? || untilMs.None? || !skip.List? then None
    else Some(Gap(codec.decode(cursor.s), untilMs.value, TextSet(skip.items)))
  }

  lemma SortedIdsAreIds(ids: set<string>)
    ensures TextSet(SortedIds(ids)) == ids
  {
    hide SortedOf;
    var ranks := set id | id in ids :: Rank(0, id);
    var q := SortedOf(ranks);
    SortedOfSpec(ranks);
    forall id ensures id in TextSet(SortedIds(ids)) <==> id in ids {
      if id in ids {
        assert Rank(0, id) in Elements(q);
        var i :| 0 <= i < |q| && q[i] == Rank(0, id);
        assert SortedIds(ids)[i] == Text(id) && TextOf(Text(id)) == id;
        assert Text(id) in SortedIds(ids);
      }
      if id in TextSet(SortedIds(ids)) {
        var j :| j in SortedIds(ids) && TextOf(j) == id;
        var i :| 0 <= i < |q| && SortedIds(ids)[i] == j;
        assert j == Text(q[i].member);
        assert q[i] in Elements(q);
        assert q[i].member in ids;
      }
    }
  }

  lemma GapRoundTrip(g: Gap, codec: Codec)
    requires Keeps(codec, g.cursor)
    ensures GapFromJson(GapToJson(g, codec), codec) == Some(g)
  {
    hide SortedIds;
    SortedIdsAreIds(g.skipIds);
  }

  function GapsToJson(gaps: seq<Gap>, codec: Codec): (items: seq<Json>)
    ensures |items| == |gaps|
    ensures forall i :: 0 <= i < |gaps| ==> items[i] == GapToJson(gaps[i], codec)
  {
    seq(|gaps|, i requires 0 <= i < |gaps| => GapToJson(gaps[i], codec))
  }

  /** Entries that are not gaps are left out, one by one. */
  function GapsFromJson(items: seq<Json>, codec: Codec): seq<Gap> {
    if items == [] then []
    else
      var rest, gap := GapsFromJson(items[..|items| - 1], codec), GapFromJson(items[|items| - 1], codec);
      if gap.None? then rest else rest + [gap.value]
  }

  lemma KeepsFront(codec: Codec, gaps: seq<Gap>)
    requires KeepsAll(codec, gaps) && gaps != []
    ensures KeepsAll(codec, gaps[..|gaps| - 1]) && Keeps(codec, gaps[|gaps| - 1].cursor)
  {
    hide Keeps;
  }

  lemma GapsToJsonSnoc(front: seq<Gap>, last: Gap, codec: Codec)
    ensures GapsToJson(front + [last], codec) == GapsToJson(front, codec) + [GapToJson(last, codec)]
  {
    hide GapToJson;
  }

  lemma {:induction false} GapsRoundTrip(gaps: seq<Gap>, codec: Codec)
    requires KeepsAll(codec, gaps)
    ensures GapsFromJson(GapsToJson(gaps, codec), codec) == gaps
  {
    hide GapToJson;
    hide GapFromJson;
    hide Keeps;
    if gaps != [] {
      var front, last := gaps[..|gaps| - 1], gaps[|gaps| - 1];
      KeepsFront(codec, gaps);
      hide KeepsAll;
      GapsRoundTrip(front, codec);
      GapRoundTrip(last, codec);
      GapsToJsonSnoc(front, last, codec);
      assert gaps == front + [last];
      hide GapsToJson;
    }
  }

  // ---- The document ----

  /** `resume_document`, of the poller after it dropped what is no longer near the newest listing. */
  function ResumeDocument(s: State, codec: Codec): Json {
    var p := Pruned(s);
    Object(map[
      "version" := Int(RESUME_VERSION),
      "newest_ms" := if p.newestMs.Some? then Int(p.newestMs.value) else Null,
      "recorded" := Object(map id | id in p.recorded :: Int(p.recorded[id])),
      "gaps" := List(GapsToJson(p.gaps, codec))])
  }

  /** `parse_resume_document`; `doc` is None when nothing is stored or it is not JSON. */
  function ParseResume(doc: Option<Json>, codec: Codec): Option<ResumePoint> {
    if doc.None? || !doc.value.Object? || AsInt(Field(doc.value, "version", Null)) != Some(RESUME_VERSION) then None
    else
      var newest := AsInt(Field(doc.value, "newest_ms", Null));
      var recorded := Field(doc.value, "recorded", Object(map[]));
      var gaps := Field(doc.value, "gaps", List([]));
      if newest.None? || !recorded.Object? || !gaps.List? then None
      else Some(ResumePoint(newest.value, recorded.fields.Keys, GapsFromJson(gaps.items, codec)))
  }

  /** The resume point of a poller that has read something. */
  function PointOf(s: State): Option<ResumePoint> {
    if s.newestMs.None? then None
    else Some(ResumePoint(s.newestMs.value, Pruned(s).recorded.Keys, s.gaps))
  }

  /** The document names exactly what was recorded at most RESUME_OVERLAP_MS before the newest time read. */
  lemma PointNamesRecent(s: State, id: string)
    requires s.newestMs.Some?
    ensures PointOf(s).Some? && PointOf(s).value.newestMs == s.newestMs.value && PointOf(s).value.gaps == s.gaps
    ensures id in PointOf(s).value.recordedIds <==> id in s.recorded && s.newestMs.value - s.recorded[id] <= RESUME_OVERLAP_MS
  {
  }

  /** Parsing the stored document gives back the newest time, the recorded ids and the gaps, and nothing else does. */
  lemma ResumeRoundTrip(s: State, codec: Codec)
    requires KeepsAll(codec, s.gaps)
    ensures ParseResume(Some(ResumeDocument(s, codec)), codec) == PointOf(s)
  {
    hide GapsFromJson;
    hide NearNewest;
    var p := Pruned(s);
    var doc := ResumeDocument(s, codec);
    GapsRoundTrip(p.gaps, codec);
    var recorded := map id | id in p.recorded :: Int(p.recorded[id]);
    assert recorded.Keys == p.recorded.Keys;
    assert Field(doc, "recorded", Object(map[])) == Object(recorded);
    assert Field(doc, "gaps", List([])) == List(GapsToJson(p.gaps, codec));
    assert Field(doc, "version", Null) == Int(RESUME_VERSION);
  }

  // ---- The venue's own cursors ----

  /** Base64 of JSON, as the venue writes a cursor; a text that is no such cursor stands for itself. */
  function CursorString(c: Cursor, json: CursorText.JsonCodec): string {
    if c.readable then CursorText.OffersCursor(c.createdMs, c.id, json) else c.id
  }

  /** The position a text stands for; it is readable when `cursor_created_at_ms` finds a time in it. */
  function CursorOf(s: string, json: CursorText.JsonCodec): Cursor {
    var createdMs, items := CursorText.CreatedAt(s, json), CursorText.Items(s, json);
    if createdMs.None? then Cursor(0, s, false)
    else Cursor(createdMs.value, if |items| == 2 && items[1].Text? then items[1].s else "", true)
  }

  function VenueCodec(json: CursorText.JsonCodec): Codec {
    Codec(c => CursorString(c, json), s => CursorOf(s, json))
  }

  /**
   The venue's cursors read back, and the time left in a gap is the one read from its cursor's text; so does any text in
   which no time is found.
   */
  lemma VenueCodecKeeps(c: Cursor, json: CursorText.JsonCodec)
    requires CursorText.Inverse(json)
    requires c.readable || (c.createdMs == 0 && CursorText.CreatedAt(c.id, json).None?)
    ensures Keeps(VenueCodec(json), c)
    ensures CursorText.CreatedAt(CursorString(c, json), json) == if c.readable then Some(c.createdMs) else None
  {
    hide CursorText.CreatedAt;
    hide CursorText.OffersCursor;
    hide CursorText.Items;
    if c.readable {
      CursorText.CursorRoundTrip(c.createdMs, c.id, json);
      CursorText.CursorItems(c.createdMs, c.id, json);
    }
  }

  /** From the poller to base64 text and back: in every reachable world the stored document gives the resume point. */
  lemma ResumeRoundTripAsText(run: seq<World>, i: nat, json: CursorText.JsonCodec)
    requires IsRun(run) && i < |run| && CursorText.Inverse(json)
    ensures ParseResume(Some(ResumeDocument(run[i].poller, VenueCodec(json))), VenueCodec(json)) == PointOf(run[i].poller)
  {
    hide ResumeDocument;
    hide ParseResume;
    hide PointOf;
    hide Covers;
    hide Bounded;
    InvariantHolds(run, i);
    hide IsRun;
    var gaps := run[i].poller.gaps;
    forall k | 0 <= k < |gaps| ensures Keeps(VenueCodec(json), gaps[k].cursor) {
      VenueCodecKeeps(gaps[k].cursor, json);
    }
    ResumeRoundTrip(run[i].poller, VenueCodec(json));
  }

  // ---- After a restart ----

  /**
   A listing recorded before a save, created at most RESUME_OVERLAP_MS before the newest one, is not handed on again by
   the process that resumes from it, by any live poll or page of catching up at any time, until `maxSeen` other ids have
   been remembered.
   */
  lemma {:induction false} RecordedIsNotRepeated(w: World, nowMs: int, maxCatchUpMs: int, order: seq<string>, id: string,
                                                 run: seq<World>, i: nat, script: seq<Fetch>, fetch: Fetch)
    requires Inv(w) && w.poller.newestMs.Some?
    requires id in w.poller.recorded && w.poller.recorded[id] >= w.poller.newestMs.value - RESUME_OVERLAP_MS
    requires SavedWorld(w).saved.Some? && IsOrder(order, SavedWorld(w).saved.value.point.recordedIds)
    requires IsStretch(run) && i < |run| && run[0] == RestartedFromSaved(SavedWorld(w), nowMs, maxCatchUpMs, order)
    ensures PointOf(w.poller) == Some(SavedWorld(w).saved.value.point)
    ensures id in PolledIds(run[i].poller, script) ==> |PutSince(run[i].history, id)| >= w.poller.maxSeen
    ensures var ids := CaughtIds(run[i].poller, fetch);
      forall k :: 0 <= k < |ids| && ids[k] == id ==> |PutSince(run[i].history + Puts(ids[..k]), id)| >= w.poller.maxSeen
  {
    hide Covers;
    hide Bounded;
    hide GapsSound;
    hide PolledIds;
    hide CaughtIds;
    hide IsStretch;
    var saved := SavedWorld(w);
    SavedKeeps(w);
    ResumeRemembersRecorded(saved, nowMs, maxCatchUpMs, order, id);
    assert run[0].poller.maxSeen == w.poller.maxSeen;
    hide Inv;
    if id in PolledIds(run[i].poller, script) {
      PollRepeatsForgotten(run, i, script, id);
    }
    var ids := CaughtIds(run[i].poller, fetch);
    forall k | 0 <= k < |ids| && ids[k] == id
      ensures |PutSince(run[i].history + Puts(ids[..k]), id)| >= w.poller.maxSeen
    {
      PageRepeatsForgotten(run, i, fetch, k);
    }
  }
}
