/** The in-memory task projection store: one bounded event log per task, compacted around snapshots, and what
    replay from it promises. */
module MemoryLog {
  import opened Common
  import opened TaskProjection

  // ----- Compaction -----

  function SnapshotCount(es: seq<Event>): (n: nat)
    ensures n <= |es|
  {
    if es == [] then 0
    else SnapshotCount(es[..|es| - 1]) + (if es[|es| - 1].payload.Snapshot? then 1 else 0)
  }

  /** The first event that is not a snapshot. */
  function FirstPlain(es: seq<Event>): (r: Option<nat>)
    ensures r.Some? ==> r.value < |es| && !es[r.value].payload.Snapshot? && forall i :: 0 <= i < r.value ==> es[i].payload.Snapshot?
    ensures r.None? ==> forall i :: 0 <= i < |es| ==> es[i].payload.Snapshot?
  {
    if es == [] then None
    else
      var r := FirstPlain(es[..|es| - 1]);
      if r.Some? then r else if es[|es| - 1].payload.Snapshot? then None else Some(|es| - 1)
  }

  /** Which event one round of compaction removes: the first that is not a snapshot, else the one before the
      newest snapshot. */
  function Victim(es: seq<Event>): (at: nat)
    requires es != []
    ensures at < |es|
  {
    match FirstPlain(es)
    case Some(i) => i
    case None => (match LastSnapshot(es)
                  case Some(i) => if i == 0 then 0 else i - 1
                  case None => 0)
  }

  function Compacted(es: seq<Event>, limit: nat): seq<Event>
    decreases |es|
  {
    if |es| <= limit then es else Compacted(Without(es, Victim(es)), limit)
  }

  /** `compact_event_log`: the loop searches the snapshot from the back and the plain event from the front. */
  method CompactEventLog(events: seq<Event>, limit: nat) returns (es: seq<Event>)
    ensures es == Compacted(events, limit)
  {
    hide FirstPlain, LastSnapshot;
    es := events;
    while |es| > limit
      invariant Compacted(es, limit) == Compacted(events, limit)
      decreases |es|
    {
      var latest := FindSnapshot(es);
      var plain := FindPlain(es);
      var removeAt := match plain
        case Some(i) => i
        case None => (match latest
                      case Some(i) => if i == 0 then 0 else i - 1
                      case None => 0);
      es := es[..removeAt] + es[removeAt + 1..];
    }
  }

  method FindSnapshot(es: seq<Event>) returns (r: Option<nat>)
    ensures r == LastSnapshot(es)
  {
    hide LastSnapshot;
    for i := |es| downto 0
      invariant forall k :: i <= k < |es| ==> !es[k].payload.Snapshot?
    {
      if es[i].payload.Snapshot? {
        return Some(i);
      }
    }
    return None;
  }

  method FindPlain(es: seq<Event>) returns (r: Option<nat>)
    ensures r == FirstPlain(es)
  {
    for i := 0 to |es|
      invariant FirstPlain(es[..i]) == None
    {
      assert es[..i + 1][..i] == es[..i];
      if !es[i].payload.Snapshot? {
        FirstPlainFixed(es, i);
        return Some(i);
      }
    }
    assert es[..|es|] == es;
    return None;
  }

  lemma FirstPlainFixed(es: seq<Event>, i: nat)
    requires i < |es| && FirstPlain(es[..i]).None? && !es[i].payload.Snapshot?
    ensures FirstPlain(es) == Some(i)
  {
    hide FirstPlain;
    forall k | 0 <= k < i ensures es[k].payload.Snapshot? {
      assert es[..i][k] == es[k];
    }
  }

  // ----- What compaction keeps -----

  /** Everything in `part` was in `whole`. */
  ghost predicate Keeps(part: seq<Event>, whole: seq<Event>) {
    forall e :: e in part ==> e in whole
  }

  ghost predicate Ascending(es: seq<Event>) {
    forall i, j :: 0 <= i < j < |es| ==> es[i].sequence < es[j].sequence
  }

  lemma RemovalKeeps(es: seq<Event>, at: nat)
    requires at < |es|
    ensures |Without(es, at)| == |es| - 1 && Keeps(Without(es, at), es)
    ensures Ascending(es) ==> Ascending(Without(es, at))
  {
  }

  lemma {:induction false} CompactedFits(es: seq<Event>, limit: nat)
    ensures |Compacted(es, limit)| == Min(|es|, limit)
    ensures Keeps(Compacted(es, limit), es)
    ensures Ascending(es) ==> Ascending(Compacted(es, limit))
    decreases |es|
  {
    if |es| > limit {
      hide Victim, Without;
      RemovalKeeps(es, Victim(es));
      CompactedFits(Without(es, Victim(es)), limit);
    }
  }

  lemma CountSnoc(es: seq<Event>, event: Event)
    ensures SnapshotCount(es + [event]) == SnapshotCount(es) + (if event.payload.Snapshot? then 1 else 0)
  {
    assert (es + [event])[..|es|] == es;
  }

  lemma {:induction false} CountWithout(es: seq<Event>, at: nat)
    requires at < |es|
    ensures SnapshotCount(Without(es, at)) == SnapshotCount(es) - (if es[at].payload.Snapshot? then 1 else 0)
  {
    hide SnapshotCount;
    var front, last := es[..|es| - 1], es[|es| - 1];
    assert es == front + [last];
    CountSnoc(front, last);
    if at == |es| - 1 {
      assert Without(es, at) == front;
    } else {
      CountWithout(front, at);
      assert Without(es, at) == Without(front, at) + [last];
      CountSnoc(Without(front, at), last);
    }
  }

  lemma {:induction false} CountAll(es: seq<Event>)
    ensures SnapshotCount(es) == |es| <==> FirstPlain(es).None?
    ensures SnapshotCount(es) == 0 <==> LastSnapshot(es).None?
  {
    if es != [] {
      CountAll(es[..|es| - 1]);
    }
  }

  /** With any retention at all, compaction keeps the newest snapshot. */
  lemma {:induction false} CompactedKeepsSnapshot(es: seq<Event>, limit: nat)
    requires 1 <= limit && LastSnapshot(es).Some?
    ensures var kept := Compacted(es, limit);
            LastSnapshot(kept).Some? && kept[LastSnapshot(kept).value] == es[LastSnapshot(es).value]
    decreases |es|
  {
    if |es| > limit {
      var rest := Without(es, Victim(es));
      VictimSparesSnapshot(es);
      CompactedKeepsSnapshot(rest, limit);
    }
  }

  lemma VictimSparesSnapshot(es: seq<Event>)
    requires |es| >= 2 && LastSnapshot(es).Some?
    ensures var rest := Without(es, Victim(es));
            LastSnapshot(rest).Some? && rest[LastSnapshot(rest).value] == es[LastSnapshot(es).value]
  {
    hide FirstPlain, LastSnapshot;
    var at, last := Victim(es), LastSnapshot(es).value;
    if FirstPlain(es).None? {
      assert es[|es| - 1].payload.Snapshot?;
    }
    assert at != last;
    hide Victim;
    RemovalKeepsLast(es, at, last);
  }

  lemma WithoutAt(es: seq<Event>, at: nat, i: nat)
    requires at < |es| && i < |es| - 1
    ensures |Without(es, at)| == |es| - 1
    ensures Without(es, at)[i] == if i < at then es[i] else es[i + 1]
  {
  }

  lemma LastIs(es: seq<Event>, last: nat)
    requires last < |es| && es[last].payload.Snapshot? && forall i :: last < i < |es| ==> !es[i].payload.Snapshot?
    ensures LastSnapshot(es) == Some(last)
  {
    hide LastSnapshot;
  }

  lemma RemovalKeepsLast(es: seq<Event>, at: nat, last: nat)
    requires at < |es| && LastSnapshot(es) == Some(last) && at != last
    ensures var rest := Without(es, at);
            LastSnapshot(rest).Some? && rest[LastSnapshot(rest).value] == es[last]
  {
    hide LastSnapshot, Without;
    var rest := Without(es, at);
    var shifted := if at < last then last - 1 else last;
    WithoutAt(es, at, shifted);
    forall i | shifted < i < |rest| ensures !rest[i].payload.Snapshot? {
      WithoutAt(es, at, i);
    }
    LastIs(rest, shifted);
  }

  /** Room is left for the newest event: it is a snapshot, or the retained snapshots do not fill the log. */
  predicate Room(es: seq<Event>, event: Event, limit: nat) {
    1 <= limit && (event.payload.Snapshot? || SnapshotCount(es) < limit)
  }

  predicate EndsWith(es: seq<Event>, event: Event) {
    es != [] && es[|es| - 1] == event
  }

  lemma VictimCases(es: seq<Event>, event: Event)
    requires es != []
    ensures var at := Victim(es + [event]);
            && (at == |es| <==> !event.payload.Snapshot? && SnapshotCount(es) == |es|)
            && (at < |es| && !event.payload.Snapshot? ==> !es[at].payload.Snapshot?)
  {
    hide FirstPlain, LastSnapshot;
    var all := es + [event];
    CountAll(es);
    assert all[|es|] == event;
    forall i | 0 <= i < |es| ensures all[i] == es[i] {
    }
    if SnapshotCount(es) != |es| {
      var i := FirstPlain(es).value;
      assert !all[i].payload.Snapshot?;
    }
  }

  /** Exactly when appending and compacting keeps the newest event.  Otherwise the newest event itself is the
      one dropped. */
  lemma {:induction false} NewestKeptExactly(es: seq<Event>, event: Event, limit: nat)
    requires Ascending(es + [event])
    ensures EndsWith(Compacted(es + [event], limit), event) <==> Room(es, event, limit)
    decreases |es|
  {
    hide Victim, SnapshotCount, Ascending;
    var all := es + [event];
    if limit == 0 {
      CompactedFits(all, limit);
    } else if |all| > limit {
      VictimCases(es, event);
      var at := Victim(all);
      if at < |es| {
        var rest := Without(es, at);
        assert Without(all, at) == rest + [event];
        RemovalKeeps(all, at);
        NewestKeptExactly(rest, event, limit);
        CountWithout(es, at);
      } else {
        assert Without(all, at) == es;
        CompactedFits(es, limit);
        NewestIsNew(es, event);
      }
    }
  }

  lemma NewestIsNew(es: seq<Event>, event: Event)
    requires Ascending(es + [event])
    ensures event !in es
  {
    forall i | 0 <= i < |es| ensures es[i] != event {
      assert (es + [event])[i].sequence < (es + [event])[|es|].sequence;
    }
  }

  // ----- Replay -----

  /** Retained events are in order, and each is its position of the full history. */
  ghost predicate Retained(es: seq<Event>, history: seq<Event>) {
    && Ascending(es)
    && forall i :: 0 <= i < |es| ==> 1 <= es[i].sequence <= |history| && es[i] == history[es[i].sequence - 1]
  }

  function After(es: seq<Event>, cursor: nat): seq<Event> {
    if es == [] then []
    else After(es[..|es| - 1], cursor) + (if es[|es| - 1].sequence > cursor then [es[|es| - 1]] else [])
  }

  ghost predicate Contiguous(es: seq<Event>, cursor: nat) {
    forall i :: 0 <= i < |es| ==> es[i].sequence == cursor + 1 + i
  }

  /** What replay answers from one task's projection revision and retained events. */
  ghost function Replayed(revision: nat, es: seq<Event>, cursor: nat): Result<seq<Event>, TaskError> {
    if cursor > 0 && cursor > revision then Err(InvalidReplayCursor)
    else if !Contiguous(After(es, cursor), cursor) then Err(ReplayWindowExpired)
    else Ok(After(es, cursor))
  }

  lemma AscendingLast(es: seq<Event>)
    requires Ascending(es) && es != []
    ensures Ascending(es[..|es| - 1])
  {
  }

  /** The first `k` events are at or before the cursor, the others after it. */
  ghost predicate CutAt(es: seq<Event>, cursor: nat, k: nat) {
    && k <= |es|
    && (forall i :: 0 <= i < k ==> es[i].sequence <= cursor)
    && (forall i :: k <= i < |es| ==> cursor < es[i].sequence)
  }

  lemma CutSnoc(es: seq<Event>, cursor: nat, k: nat)
    requires es != [] && Ascending(es) && CutAt(es[..|es| - 1], cursor, k)
    ensures cursor < es[|es| - 1].sequence ==> CutAt(es, cursor, k) && es[k..] == es[..|es| - 1][k..] + [es[|es| - 1]]
    ensures es[|es| - 1].sequence <= cursor ==> CutAt(es, cursor, |es|) && k == |es| - 1
  {
    assert k < |es| - 1 ==> es[k].sequence < es[|es| - 1].sequence && es[..|es| - 1][k] == es[k];
  }

  /** Past a cursor an ordered log is a suffix. */
  lemma {:induction false} AfterSuffix(es: seq<Event>, cursor: nat) returns (k: nat)
    requires Ascending(es)
    ensures CutAt(es, cursor, k) && After(es, cursor) == es[k..]
  {
    k := 0;
    if es != [] {
      AscendingLast(es);
      k := AfterSuffix(es[..|es| - 1], cursor);
      CutSnoc(es, cursor, k);
      hide CutAt, Ascending;
      if es[|es| - 1].sequence <= cursor {
        k := |es|;
      }
    }
  }

  /** A successful replay never skips an event in the middle: it is a run of the history starting right after
      the cursor. */
  lemma ReplayHasNoGap(es: seq<Event>, history: seq<Event>, cursor: nat)
    requires Retained(es, history) && Replayed(|history|, es, cursor).Ok?
    ensures var events := Replayed(|history|, es, cursor).value;
            cursor + |events| <= |history| && events == history[cursor..cursor + |events|]
  {
    var k := AfterSuffix(es, cursor);
    var events := After(es, cursor);
    assert Contiguous(events, cursor);
    if events != [] {
      assert events[|events| - 1] == es[|es| - 1];
    }
    forall i | 0 <= i < |events| ensures events[i] == history[cursor + i] {
      assert events[i] == es[k + i];
      assert events[i].sequence == cursor + 1 + i;
    }
  }

  /** The newest event of the history is retained. */
  ghost predicate NewestRetained(es: seq<Event>, history: seq<Event>) {
    history != [] ==> es != [] && es[|es| - 1].sequence == |history|
  }

  /** Every answered replay is the whole rest of the history. */
  ghost predicate ReplaysComplete(es: seq<Event>, history: seq<Event>) {
    forall cursor: nat :: Replayed(|history|, es, cursor).Ok? ==>
      cursor <= |history| && Replayed(|history|, es, cursor).value == history[cursor..]
  }

  /** Replay is complete or refused at every cursor exactly when the newest event is retained: without it, the
      cursor of the newest retained event is answered as if caught up. */
  lemma ReplayCompleteExactly(es: seq<Event>, history: seq<Event>)
    requires Retained(es, history)
    ensures ReplaysComplete(es, history) <==> NewestRetained(es, history)
  {
    hide Retained, Replayed;
    if NewestRetained(es, history) {
      forall cursor: nat | Replayed(|history|, es, cursor).Ok?
        ensures cursor <= |history| && Replayed(|history|, es, cursor).value == history[cursor..]
      {
        ReplayWhole(es, history, cursor);
      }
    } else {
      var newest := if es == [] then 0 else es[|es| - 1].sequence;
      NewestAnswered(es, history, newest);
    }
  }

  lemma ReplayWhole(es: seq<Event>, history: seq<Event>, cursor: nat)
    requires Retained(es, history) && NewestRetained(es, history) && Replayed(|history|, es, cursor).Ok?
    ensures cursor <= |history| && Replayed(|history|, es, cursor).value == history[cursor..]
  {
    ReplayHasNoGap(es, history, cursor);
    var k := AfterSuffix(es, cursor);
    var events := After(es, cursor);
    assert Contiguous(events, cursor);
    if events != [] {
      assert events[|events| - 1] == es[|es| - 1];
    } else if es != [] {
      assert es[|es| - 1].sequence <= cursor;
    }
  }

  lemma NewestAnswered(es: seq<Event>, history: seq<Event>, newest: nat)
    requires Retained(es, history) && newest == if es == [] then 0 else es[|es| - 1].sequence
    ensures newest <= |history| && Replayed(|history|, es, newest) == Ok([])
  {
    var k := AfterSuffix(es, newest);
    assert es != [] ==> !(newest < es[|es| - 1].sequence);
  }

  // ----- The store -----

  type TaskKey = (string, string)

  /** One task's projection, retained events and full history. */
  ghost predicate LogOk(limit: nat, projection: Projection, es: seq<Event>, history: seq<Event>) {
    && history != [] && Numbered(history) && Fold(history) == Some(projection)
    && Retained(es, history) && |es| <= limit
  }

  lemma AppendKeepsLog(limit: nat, es: seq<Event>, history: seq<Event>, event: Event)
    requires Retained(es, history) && event.sequence == |history| + 1
    ensures Ascending(es + [event])
    ensures Retained(Compacted(es + [event], limit), history + [event])
    ensures |Compacted(es + [event], limit)| <= limit
  {
    hide Compacted;
    var all, longer := es + [event], history + [event];
    assert Ascending(all);
    CompactedFits(all, limit);
    var kept := Compacted(all, limit);
    forall i | 0 <= i < |kept| ensures 1 <= kept[i].sequence <= |longer| && kept[i] == longer[kept[i].sequence - 1] {
      assert kept[i] in all;
      var k :| 0 <= k < |all| && all[k] == kept[i];
    }
  }

  /** After an append, every replay is complete or refused exactly when there was room for the new event: a plain
      event appended to a log already full of snapshots is lost, and replay from the snapshot before it then
      answers an empty list. */
  lemma AppendReplaysExactly(limit: nat, es: seq<Event>, history: seq<Event>, event: Event)
    requires Retained(es, history) && event.sequence == |history| + 1
    ensures ReplaysComplete(Compacted(es + [event], limit), history + [event]) <==> Room(es, event, limit)
  {
    hide ReplaysComplete, Compacted, Room;
    var kept, longer := Compacted(es + [event], limit), history + [event];
    AppendKeepsLog(limit, es, history, event);
    NewestKeptExactly(es, event, limit);
    ReplayCompleteExactly(kept, longer);
    if NewestRetained(kept, longer) {
      assert kept[|kept| - 1] == longer[kept[|kept| - 1].sequence - 1];
    }
  }

  class InMemoryTaskProjectionStore {
    const limit: nat
    var projections: map<TaskKey, Projection>
    var events: map<TaskKey, seq<Event>>
    /** Every event ever appended, per task. */
    ghost var histories: map<TaskKey, seq<Event>>

    constructor (limit: nat)
      ensures this.limit == limit && Valid() && histories == map[]
    {
      this.limit := limit;
      projections, events, histories := map[], map[], map[];
    }

    ghost predicate Valid()
      reads this
    {
      && projections.Keys == histories.Keys && events.Keys == histories.Keys
      && forall key :: key in histories ==> LogOk(limit, projections[key], events[key], histories[key])
    }

    ghost function HistoryOf(key: TaskKey): seq<Event>
      reads this
    {
      if key in histories then histories[key] else []
    }

    ghost function Logged(key: TaskKey): seq<Event>
      reads this
    {
      if key in events then events[key] else []
    }

    /** Stores the projection, pushes the event and compacts the log. */
    method Push(key: TaskKey, event: Event, projection: Projection)
      requires Valid() && event.sequence == |HistoryOf(key)| + 1
      requires Numbered(HistoryOf(key) + [event]) && Fold(HistoryOf(key) + [event]) == Some(projection)
      modifies this
      ensures Valid()
      ensures projections == old(projections)[key := projection]
      ensures events == old(events)[key := Compacted(old(Logged(key)) + [event], limit)]
      ensures histories == old(histories)[key := old(HistoryOf(key)) + [event]]
    {
      hide Retained, Compacted, Fold, Numbered;
      ghost var before := HistoryOf(key);
      var log := if key in events then events[key] else [];
      assert Retained(log, before) by { EmptyRetained(); }
      AppendKeepsLog(limit, log, before, event);
      var kept := CompactEventLog(log + [event], limit);
      projections := projections[key := projection];
      events := events[key := kept];
      histories := histories[key := before + [event]];
    }

    /** `append_event_payload`: an unknown task is bootstrapped only by a snapshot; anything else extends the
        history by exactly this event, stamped with the status its fold gives there. */
    method AppendEventPayload(tenant: string, taskId: string, contextId: string, occurredAt: Timestamp, payload: Payload)
      returns (r: Result<Event, TaskError>)
      requires Valid()
      modifies this
      ensures Valid()
      ensures r.Err? <==> (tenant, taskId) !in old(histories) && !payload.Snapshot?
      ensures r.Err? ==> r == Err(TaskNotFound)
      ensures r.Err? ==> projections == old(projections) && events == old(events) && histories == old(histories)
      ensures r.Ok? ==>
                var key := (tenant, taskId);
                var before := old(HistoryOf(key));
                && r.value.payload == payload && r.value.sequence == |before| + 1
                && histories == old(histories)[key := before + [r.value]]
                && Fold(before + [r.value]) == Some(projections[key]) && r.value.projectedState == projections[key].status
                && events == old(events)[key := Compacted(old(Logged(key)) + [r.value], limit)]
    {
      hide Retained, Compacted, Fold, ApplyEvent, Adopted;
      var key := (tenant, taskId);
      var sequence := if key in projections then projections[key].revision + 1 else 1;
      var event := Event(tenant, taskId, contextId, sequence, occurredAt, Unspecified, payload);
      ghost var before := HistoryOf(key);
      var projection;
      if key in projections {
        FoldOfNumbered(before);
        Applies(projections[key], event);
        projection := ApplyEvent(projections[key], event).value;
      } else if payload.Snapshot? {
        projection := Adopted(payload.projection, event);
      } else {
        return Err(TaskNotFound);
      }
      assert Extend(Fold(before), event) == Some(projection) by { FoldEmpty(); }
      StampIgnored(Fold(before), event, projection.status);
      event := event.(projectedState := projection.status);
      Extends(before, event, projection);
      Push(key, event, projection);
      return Ok(event);
    }

    /** `replay_events` past a numeric cursor. */
    method ReplayEvents(tenant: string, taskId: string, cursor: nat) returns (r: Result<seq<Event>, TaskError>)
      requires Valid()
      ensures var key := (tenant, taskId);
              r == if key in histories then Replayed(|histories[key]|, events[key], cursor)
                   else if cursor == 0 then Ok([]) else Err(InvalidReplayCursor)
    {
      hide Retained, After, Contiguous, Fold;
      var key := (tenant, taskId);
      if cursor > 0 && (key !in projections || cursor > projections[key].revision) {
        assert key in histories ==> projections[key].revision == |histories[key]| by {
          if key in histories {
            FoldOfNumbered(histories[key]);
          }
        }
        return Err(InvalidReplayCursor);
      }
      if key !in events {
        return Ok([]);
      }
      FoldOfNumbered(histories[key]);
      var es := events[key];
      r := Collect(es, cursor);
    }
  }

  lemma EmptyRetained()
    ensures Retained([], [])
  {
  }

  lemma Applies(p: Projection, event: Event)
    requires event.sequence == p.revision + 1
    ensures ApplyEvent(p, event).Ok?
  {
  }

  lemma FoldEmpty()
    ensures Fold([]) == None
  {
  }

  /** The stamped status takes no part in folding. */
  lemma StampIgnored(view: Option<Projection>, event: Event, state: TaskState)
    ensures Extend(view, event.(projectedState := state)) == Extend(view, event)
  {
  }

  lemma Extends(history: seq<Event>, event: Event, projection: Projection)
    requires Numbered(history) && event.sequence == |history| + 1
    requires history == [] ==> event.payload.Snapshot?
    requires Extend(Fold(history), event) == Some(projection)
    ensures Numbered(history + [event]) && Fold(history + [event]) == Some(projection)
  {
    FoldAppend(history, event);
  }

  /** The gap check over the retained tail, then the tail. */
  method Collect(es: seq<Event>, cursor: nat) returns (r: Result<seq<Event>, TaskError>)
    ensures r == if Contiguous(After(es, cursor), cursor) then Ok(After(es, cursor)) else Err(ReplayWindowExpired)
  {
    var expected := cursor + 1;
    var found: seq<Event> := [];
    for i := 0 to |es|
      invariant found == After(es[..i], cursor) && Contiguous(found, cursor) && expected == cursor + 1 + |found|
    {
      assert es[..i + 1][..i] == es[..i];
      if es[i].sequence > cursor {
        if es[i].sequence != expected {
          AfterGrows(es, i + 1, cursor);
          assert After(es, cursor)[|found|].sequence != cursor + 1 + |found|;
          return Err(ReplayWindowExpired);
        }
        expected := es[i].sequence + 1;
        found := found + [es[i]];
      }
    }
    assert es[..|es|] == es;
    return Ok(found);
  }

  lemma {:induction false} AfterGrows(es: seq<Event>, i: nat, cursor: nat)
    requires i <= |es|
    ensures After(es[..i], cursor) <= After(es, cursor)
    decreases |es| - i
  {
    if i < |es| {
      assert es[..i + 1][..i] == es[..i];
      AfterGrows(es, i + 1, cursor);
    } else {
      assert es[..i] == es;
    }
  }
}
