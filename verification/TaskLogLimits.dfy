/** Where the shared task log's guarantees end: what an uncontended append does, when claiming a
    sequence is safe, and the runs outside the premises that break the log. */
module TaskLogLimits {
  import opened Common
  import opened TaskProjection
  import opened TaskTail
  import opened TaskLog

  // ----- Retention -----

  lemma {:induction false} BoundedSetSize(s: set<nat>, lo: int, n: nat)
    requires forall k :: k in s ==> lo < k <= lo + n
    ensures |s| <= n
    decreases n
  {
    if n == 0 {
      SetMember(s);
    } else {
      BoundedSetSize(s - {lo + n}, lo, n - 1);
    }
  }

  /** Compaction leaves at most the bound and the newest snapshot. */
  lemma RetentionBound(events: map<nat, Event>, limit: nat)
    ensures |Retained(events, limit)| <= limit + 1
  {
    var kept := Retained(events, limit).Keys;
    var newest := MaxKey(SnapshotKeys(events));
    BoundedSetSize(kept - {newest}, MaxSequence(events) - limit, limit);
    assert |kept| <= |kept - {newest}| + 1;
  }

  // ----- When claiming a sequence is safe -----

  /** A writer about to insert keeps the log sequential if and only if its sequence is still occupied or
      is the very next one: a compacted sequence is free to be claimed a second time. */
  lemma InsertSafeExactly(exact: bool, s: State, id: ClientId, ask: Ask, attempt: nat, event: Event, p: Projection)
    requires Inv(exact, s) && id in s.clients && s.clients[id] == Writer(ask, Insert(attempt, event, p))
    ensures Inv(exact, Step(s, Advance(id))) <==> Claims(s, Advance(id))
  {
    hide LogOk, ClientOk, TableOk, PrefixView, Fold, AuthorsOk, ClientsOk;
    var s' := Step(s, Advance(id));
    if event.sequence in s.events {
      ConflictKeeps(exact, s, id, ask, attempt, event, p);
    } else if event.sequence == |s.history| + 1 {
      AppendKeeps(exact, s, id, ask, attempt, event, p);
    } else {
      MisplacedTail(s'.history);
    }
  }

  lemma MisplacedTail(history: seq<Event>)
    requires history != [] && history[|history| - 1].sequence != |history|
    ensures !LogOk(history)
  {
  }

  /** Only a sequence already `limit` events old can be missing from the table. */
  lemma CompactedIsOld(limit: nat, events: map<nat, Event>, history: seq<Event>, k: nat)
    requires TableOk(limit, events, history) && 1 <= k <= |history| && k !in events
    ensures k + limit <= |history|
  {
  }

  // ----- When an append can be prepared -----

  /** With anything retained, the tail a client reads ends at the newest event. */
  lemma WatermarkIsNewest(limit: nat, events: map<nat, Event>, history: seq<Event>, base: Option<Projection>)
    requires 1 <= limit && Numbered(history) && TableOk(limit, events, history) && Revision(base) <= |history|
    ensures Watermark(base, TailAfter(events, Revision(base))) == |history|
  {
    NewestHeld(limit, events, history);
    TailIsCollect(events, history, Revision(base));
    if Revision(base) < |history| {
      Positions(history, |history|);
    }
  }

  /** A writer that folds its tail is turned away with an ordering error if and only if something it needed, past its
      row or past the newest snapshot, has been compacted away. */
  lemma AppendRefusedExactly(s: State, id: ClientId, ask: Ask, attempt: nat, base: Option<Projection>)
    requires Inv(false, s) && 1 <= s.limit && id in s.clients && s.clients[id] == Writer(ask, ReadTail(attempt, base))
    ensures Step(s, Advance(id)).clients[id] == Writer(ask, Refused(EventOrder))
            <==> !Whole(s.events, Restart(s.history, base), |s.history|)
  {
    hide LogOk, TableOk, PrefixView, Fold, FoldOnto, TailAfter, Whole, Restart, Watermark;
    assert ClientOk(false, s.limit, s.history, s.authors, id, s.clients[id]);
    LogNumbered(s.history);
    assert Revision(base) <= |s.history| by { PrefixBound(s.history, base); }
    FoldedView(false, s.limit, s.events, s.history, base);
    WatermarkIsNewest(s.limit, s.events, s.history, base);
    PrepareRefusal(ask, FoldOnto(base, TailAfter(s.events, Revision(base))), |s.history|);
    EmptyIsWhole(s.events, s.history, base);
  }

  lemma PrefixBound(history: seq<Event>, view: Option<Projection>)
    requires PrefixView(false, history, view)
    ensures Revision(view) <= |history|
  {
  }

  lemma EmptyIsWhole(events: map<nat, Event>, history: seq<Event>, base: Option<Projection>)
    ensures history == [] ==> Whole(events, Restart(history, base), |history|)
  {
  }

  lemma PrepareRefusal(ask: Ask, view: Option<Projection>, watermark: nat)
    requires Revision(view) <= watermark
    ensures view.Some? ==> (Prepare(ask, view, watermark) == Err(EventOrder) <==> Revision(view) < watermark)
    ensures view.None? ==> Prepare(ask, view, watermark) != Err(EventOrder)
  {
    hide CapFront, StatusTransitionAllowed;
  }

  // ----- Replay -----

  ghost predicate ReplaysWhole(events: map<nat, Event>, history: seq<Event>, cursor: nat) {
    ReplayAnswer(events, cursor).Ok? ==> cursor <= |history| && ReplayAnswer(events, cursor).value == history[cursor..]
  }

  /** Replay is whole or refused at every cursor if and only if the newest event is retained: without it, the cursor
      just before the newest retained event is answered with that event alone. */
  lemma ReplayWholeExactly(limit: nat, events: map<nat, Event>, history: seq<Event>)
    requires Numbered(history) && TableOk(limit, events, history)
    ensures (forall cursor: nat :: ReplaysWhole(events, history, cursor)) <==> (history != [] ==> |history| in events)
  {
    hide ReplayAnswer;
    if history != [] ==> |history| in events {
      forall cursor: nat ensures ReplaysWhole(events, history, cursor) {
        ReplayCompleteOrRefused(events, history, cursor);
      }
    } else {
      NewestMissing(limit, events, history);
    }
  }

  lemma NewestMissing(limit: nat, events: map<nat, Event>, history: seq<Event>)
    requires Numbered(history) && TableOk(limit, events, history) && history != [] && |history| !in events
    ensures exists cursor: nat :: !ReplaysWhole(events, history, cursor)
  {
    var newest := MaxSequence(events);
    assert history[0].payload.Snapshot?;
    assert NewestSnapshot(history) in events;
    assert newest in events.Keys;
    var cursor := newest - 1;
    assert Collect(events, cursor, cursor) == [];
    assert TailAfter(events, cursor) == [events[newest]];
    Positions(history, newest);
    assert ReplayAnswer(events, cursor) == Ok([events[newest]]);
    assert !ReplaysWhole(events, history, cursor);
  }

  // ----- An uncontended append -----

  lemma {:induction false} RunConcat(s: State, a: seq<Action>, b: seq<Action>)
    ensures Run(s, a + b) == Run(Run(s, a), b)
    decreases |b|
  {
    hide Step;
    if b == [] {
      assert a + b == a;
    } else {
      assert (a + b)[..|a + b| - 1] == a + b[..|b| - 1];
      RunConcat(s, a, b[..|b| - 1]);
    }
  }

  lemma RunOne(s: State, a: Action)
    ensures Run(s, [a]) == Step(s, a)
  {
    assert [a][..0] == [];
  }

  lemma RunThen(s: State, a: seq<Action>, next: Action)
    ensures Run(s, a + [next]) == Step(Run(s, a), next)
  {
    assert (a + [next])[..|a|] == a;
  }

  /** The part of an append before its sequence is claimed. */
  function PrepareScript(id: ClientId, ask: Ask): seq<Action> {
    [StartWriter(id, ask)] + [Advance(id)] + [Advance(id)]
  }

  /** The statements of one append that meets no contention. */
  function AppendScript(id: ClientId, ask: Ask): seq<Action> {
    PrepareScript(id, ask) + [Advance(id)] + [Advance(id)] + [Advance(id)]
  }

  /** Nothing past the row has been compacted, so a fold from it is the whole log. */
  ghost predicate Foldable(s: State) {
    Inv(true, s) && Whole(s.events, Revision(s.row), |s.history|)
  }

  /** The row has caught up with the log. */
  ghost predicate Quiet(s: State) {
    Inv(true, s) && s.row == Fold(s.history)
  }

  lemma QuietIsFoldable(s: State)
    requires Quiet(s)
    ensures Foldable(s)
  {
    hide TableOk, PrefixView, AuthorsOk, ClientsOk, Fold;
    FoldOfNumbered(s.history);
  }

  lemma FoldableView(s: State)
    requires Foldable(s)
    ensures var tail := TailAfter(s.events, Revision(s.row));
            FoldOnto(s.row, tail) == Fold(s.history) && Watermark(s.row, tail) == |s.history|
  {
    hide Fold, FoldOnto, AuthorsOk, ClientsOk, Recovers;
    LogNumbered(s.history);
    FoldHealsExactly(s.limit, s.history, s.events, s.row);
    PrefixBound(s.history, s.row);
    var r := Revision(s.row);
    TailIsCollect(s.events, s.history, r);
    CollectHistory(s.events, s.history, r, |s.history|);
    if r < |s.history| {
      Positions(s.history, |s.history|);
    }
  }

  lemma FoldPrepares(ask: Ask, history: seq<Event>)
    requires Numbered(history) && (history != [] || ask.payload.Snapshot?)
    ensures var prepared := Prepare(ask, Fold(history), |history|);
            && prepared.Ok?
            && var (event, p) := prepared.value;
               && event.sequence == |history| + 1 && event.payload == ask.payload && event.occurredAt == ask.occurredAt
               && Fold(history + [event]) == Some(p) && p.revision == |history| + 1
  {
    FoldOfNumbered(history);
    hide Fold, Prepare, Extend;
    PreparedFrom(ask, Fold(history), |history|);
    PrepareSucceeds(ask, Fold(history), |history|);
    var prepared := Prepare(ask, Fold(history), |history|);
    FoldAppend(history, prepared.value.0);
  }

  lemma PrepareSucceeds(ask: Ask, view: Option<Projection>, watermark: nat)
    requires Revision(view) == watermark && (view.None? ==> ask.payload.Snapshot?)
    ensures var prepared := Prepare(ask, view, watermark);
            && prepared.Ok?
            && prepared.value.0.payload == ask.payload && prepared.value.0.occurredAt == ask.occurredAt
            && prepared.value.1.revision == watermark + 1
  {
    hide CapFront, StatusTransitionAllowed;
  }

  /** A writer that meets a foldable log prepares the next sequence. */
  lemma WriterPrepares(s: State, id: ClientId, ask: Ask) returns (event: Event, p: Projection)
    requires Foldable(s) && id !in s.clients && (s.history != [] || ask.payload.Snapshot?)
    ensures event.sequence == |s.history| + 1 && event.payload == ask.payload && event.occurredAt == ask.occurredAt
    ensures Fold(s.history + [event]) == Some(p) && p.revision == |s.history| + 1
    ensures Run(s, PrepareScript(id, ask)) == s.(clients := s.clients[id := Writer(ask, Insert(0, event, p))])
    ensures Inv(true, Run(s, PrepareScript(id, ask)))
  {
    hide Fold, LogOk, TableOk, AuthorsOk, ClientsOk, Run, FoldOnto, TailAfter, Watermark, PrefixView, Prepare, Whole, Steady;
    var s1 := Started(s, id, Writer(ask, ReadRow(0)));
    var s2 := s1.(clients := s1.clients[id := Writer(ask, ReadTail(0, s.row))]);
    RunOne(s, StartWriter(id, ask));
    RunThen(s, [StartWriter(id, ask)], Advance(id));
    RunThen(s, [StartWriter(id, ask)] + [Advance(id)], Advance(id));
    assert Step(s1, Advance(id)) == s2;
    LogNumbered(s.history);
    FoldableView(s);
    FoldPrepares(ask, s.history);
    var prepared := Prepare(ask, Fold(s.history), |s.history|);
    event, p := prepared.value.0, prepared.value.1;
    assert s1.clients[id := Writer(ask, ReadTail(0, s.row))][id := Writer(ask, Insert(0, event, p))]
        == s.clients[id := Writer(ask, Insert(0, event, p))];
    assert Step(s2, Advance(id)) == s.(clients := s.clients[id := Writer(ask, Insert(0, event, p))]);
    StartKeeps(true, s, id, Writer(ask, ReadRow(0)));
    StepKeeps(true, s1, Advance(id));
    assert Steady(s.history, s.events, Revision(s.row)) by { WholeIsSteady(s.history, s.events, Revision(s.row)); }
    StepKeeps(true, s2, Advance(id));
  }

  lemma WholeIsSteady(history: seq<Event>, events: map<nat, Event>, after: nat)
    requires Whole(events, after, |history|)
    ensures Steady(history, events, after)
  {
    hide Backdated;
    assert NewestSnapshot(history) <= |history|;
  }

  /** It then inserts it. */
  lemma WriterInserts(s: State, id: ClientId, ask: Ask) returns (event: Event, p: Projection)
    requires Foldable(s) && id !in s.clients && (s.history != [] || ask.payload.Snapshot?)
    ensures event.sequence == |s.history| + 1 && event.payload == ask.payload && event.occurredAt == ask.occurredAt
    ensures Fold(s.history + [event]) == Some(p) && p.revision == |s.history| + 1
    ensures Run(s, PrepareScript(id, ask) + [Advance(id)])
            == s.(history := s.history + [event], authors := s.authors + [id], events := s.events[event.sequence := event],
                  clients := s.clients[id := Writer(ask, Converge(event, p))])
    ensures Inv(true, Run(s, PrepareScript(id, ask) + [Advance(id)]))
  {
    hide Inv, Run, Fold, PrepareScript, Whole;
    event, p := WriterPrepares(s, id, ask);
    var script := PrepareScript(id, ask);
    var s3 := Run(s, script);
    RunThen(s, script, Advance(id));
    NextIsFree(s3, event.sequence);
    StepKeeps(true, s3, Advance(id));
    var s4 := Step(s3, Advance(id));
    assert s4.clients == s.clients[id := Writer(ask, Converge(event, p))];
  }

  /** An append that meets no contention is acknowledged at the next sequence and leaves the row caught up. */
  lemma QuietAppend(s: State, id: ClientId, ask: Ask) returns (event: Event)
    requires Quiet(s) && id !in s.clients && (s.history != [] || ask.payload.Snapshot?)
    ensures var s' := Run(s, AppendScript(id, ask));
            && Quiet(s') && s'.limit == s.limit
            && s'.history == s.history + [event] && s'.authors == s.authors + [id]
            && event.sequence == |s.history| + 1 && event.payload == ask.payload && event.occurredAt == ask.occurredAt
            && s'.events == Retained(s.events[event.sequence := event], s.limit)
            && s'.clients == s.clients[id := Writer(ask, Acked(event))]
  {
    hide Inv, Run, Fold, Retained, PrepareScript, Whole, Steady;
    QuietIsFoldable(s);
    var p;
    event, p := WriterInserts(s, id, ask);
    var script := PrepareScript(id, ask) + [Advance(id)];
    RunThen(s, script, Advance(id));
    RunThen(s, script + [Advance(id)], Advance(id));
    var s4 := Run(s, script);
    RowBehind(s);
    var s5 := Step(s4, Advance(id));
    StepKeeps(true, s4, Advance(id));
    var s6 := Step(s5, Advance(id));
    StepKeeps(true, s5, Advance(id));
    assert s5.row == Some(p);
    assert s6.clients == s.clients[id := Writer(ask, Acked(event))];
  }

  lemma NextIsFree(s: State, k: nat)
    requires Inv(true, s) && k == |s.history| + 1
    ensures k !in s.events
  {
    hide LogOk, PrefixView, AuthorsOk, ClientsOk;
  }

  lemma RowBehind(s: State)
    requires Inv(true, s)
    ensures s.row.Some? ==> s.row.value.revision <= |s.history|
  {
    hide LogOk, TableOk, AuthorsOk, ClientsOk;
  }

  // ----- Outside the premises -----

  function BlankTask(): Projection {
    Projection("task", "ctx", "tenant", "workflow", Submitted, 0, [], [], map[], 0)
  }

  function SnapshotAsk(): Ask {
    Ask("tenant", "task", "ctx", 1, Snapshot(BlankTask()))
  }

  function WorkAsk(): Ask {
    Ask("tenant", "task", "ctx", 2, StatusUpdate(Working))
  }

  lemma QuietStart(limit: nat)
    ensures Quiet(Init(limit))
  {
  }

  /** Writer 1 prepares sequence two and then stalls while two other appends finish; the bound is one
      event, so sequence two is compacted before writer 1 inserts. */
  function OvertakenRun(): seq<Action> {
    AppendScript(0, SnapshotAsk()) + PrepareScript(1, WorkAsk())
    + AppendScript(2, WorkAsk()) + AppendScript(3, WorkAsk()) + [Advance(1)]
  }

  lemma StalledWriter() returns (e1: Event, eW: Event, pW: Projection)
    ensures e1.payload.Snapshot? && e1.sequence == 1 && eW.sequence == 2
    ensures var s := Run(Init(1), AppendScript(0, SnapshotAsk()) + PrepareScript(1, WorkAsk()));
            && Quiet(s) && s.limit == 1 && s.history == [e1] && s.authors == [0] && s.events == map[1 := e1]
            && s.clients == map[0 := Writer(SnapshotAsk(), Acked(e1)), 1 := Writer(WorkAsk(), Insert(0, eW, pW))]
  {
    hide Run, AppendScript, PrepareScript, Inv, Fold, Retained, Whole;
    QuietStart(1);
    e1 := QuietAppend(Init(1), 0, SnapshotAsk());
    var sa := Run(Init(1), AppendScript(0, SnapshotAsk()));
    QuietIsFoldable(sa);
    eW, pW := WriterPrepares(sa, 1, WorkAsk());
    RunConcat(Init(1), AppendScript(0, SnapshotAsk()), PrepareScript(1, WorkAsk()));
    RetainedOne(e1);
    assert [] + [e1] == [e1];
  }

  lemma RetainedOne(e1: Event)
    requires e1.payload.Snapshot?
    ensures Retained(map[1 := e1], 1) == map[1 := e1]
  {
    var one := map[1 := e1];
    assert one.Keys == {1};
    assert SnapshotKeys(one) == {1};
    assert MaxKey({1}) == 1;
  }

  /** From the stalled state, two more appends compact sequence two away. */
  lemma TwoMoreAppends(s: State, e1: Event) returns (e2: Event, e3: Event)
    requires Quiet(s) && s.limit == 1 && s.history == [e1] && s.authors == [0] && s.events == map[1 := e1]
    requires e1.payload.Snapshot? && e1.sequence == 1 && 2 !in s.clients && 3 !in s.clients
    ensures var s' := Run(Run(s, AppendScript(2, WorkAsk())), AppendScript(3, WorkAsk()));
            && s'.history == [e1, e2, e3] && s'.authors == [0, 2, 3] && 2 !in s'.events && e2.sequence == 2
            && (forall id :: id in s.clients ==> id in s'.clients && s'.clients[id] == s.clients[id])
  {
    hide Run, AppendScript, Inv, Fold, Retained;
    e2 := QuietAppend(s, 2, WorkAsk());
    var s1 := Run(s, AppendScript(2, WorkAsk()));
    RetainedPair(e1, e2);
    e3 := QuietAppend(s1, 3, WorkAsk());
    RetainedTriple(e1, e2, e3);
  }

  /** Overtaken by more than the retention bound, a writer claims a sequence another writer already holds. */
  lemma OvertakenWriterReclaims()
    ensures var s := Exec(1, OvertakenRun());
            |s.history| == 4 && |s.authors| == 4
            && s.history[1].sequence == 2 && s.history[3].sequence == 2 && s.authors[1] == 2 && s.authors[3] == 1
  {
    hide Run, AppendScript, PrepareScript, Quiet, Fold;
    var e1, eW, pW := StalledWriter();
    var front := AppendScript(0, SnapshotAsk()) + PrepareScript(1, WorkAsk());
    var e2, e3 := TwoMoreAppends(Run(Init(1), front), e1);
    RunConcat(Init(1), front, AppendScript(2, WorkAsk()));
    RunConcat(Init(1), front + AppendScript(2, WorkAsk()), AppendScript(3, WorkAsk()));
    RunThen(Init(1), front + AppendScript(2, WorkAsk()) + AppendScript(3, WorkAsk()), Advance(1));
  }

  /** With a bound of one, two events are retained beside each other only because one is a snapshot. */
  lemma RetainedPair(e1: Event, e2: Event)
    requires e1.payload.Snapshot? && !e2.payload.Snapshot?
    ensures Retained(map[1 := e1][2 := e2], 1) == map[1 := e1, 2 := e2]
  {
    var two := map[1 := e1][2 := e2];
    assert two.Keys == {1, 2};
    assert 2 in two.Keys;
    assert SnapshotKeys(two) == {1};
    assert MaxKey({1}) == 1;
    assert MaxSequence(two) == 2;
  }

  lemma RetainedTriple(e1: Event, e2: Event, e3: Event)
    requires e1.payload.Snapshot? && !e2.payload.Snapshot? && !e3.payload.Snapshot?
    ensures 2 !in Retained(map[1 := e1, 2 := e2][3 := e3], 1)
  {
    var all := map[1 := e1, 2 := e2][3 := e3];
    assert 3 in all.Keys && 1 in all.Keys;
    assert SnapshotKeys(all) == {1};
    assert MaxKey({1}) == 1;
  }

  /** With no retention at all, a replay from the start succeeds and silently stops before the newest event. */
  lemma NoRetentionReplayGap()
    ensures var s := Exec(0, AppendScript(0, SnapshotAsk()) + AppendScript(1, WorkAsk()));
            |s.history| == 2 && ReplayAnswer(s.events, 0) == Ok(s.history[..1])
  {
    hide Run, AppendScript, PrepareScript, Inv, Fold, ReplayAnswer;
    var a, b := AppendScript(0, SnapshotAsk()), AppendScript(1, WorkAsk());
    QuietStart(0);
    var e1 := QuietAppend(Init(0), 0, SnapshotAsk());
    var sa := Run(Init(0), a);
    var e2 := QuietAppend(sa, 1, WorkAsk());
    RunConcat(Init(0), a, b);
    var s := Run(Init(0), a + b);
    RetainedNone(e1, e2);
    assert s.history[..1] == [e1];
  }

  lemma RetainedNone(e1: Event, e2: Event)
    requires e1.payload.Snapshot? && !e2.payload.Snapshot? && e1.sequence == 1
    ensures Retained(map[1 := e1], 0) == map[1 := e1]
    ensures Retained(map[1 := e1][2 := e2], 0) == map[1 := e1]
    ensures ReplayAnswer(map[1 := e1], 0) == Ok([e1])
  {
    var one, two := map[1 := e1], map[1 := e1][2 := e2];
    assert one.Keys == {1} && two.Keys == {1, 2};
    assert 2 in two.Keys;
    assert SnapshotKeys(one) == {1} && SnapshotKeys(two) == {1};
    assert MaxKey({1}) == 1;
    assert MaxSequence(two) == 2;
    assert Collect(one, 0, 1) == [e1];
  }

  // ----- A log that accepts no more -----

  /** A writer that will only read the row again, or has finished. */
  predicate Harmless(s: State, client: Client) {
    client.Writer? ==>
      match client.write
      case ReadRow(_) => true
      case ReadTail(_, base) => base == s.row
      case Acked(_) => true
      case Refused(_) => true
      case Errored(_) => true
      case _ => false
  }

  /** Something past the row and past the newest snapshot is gone, and nobody left running can move the row. */
  ghost predicate Stuck(s: State, stopped: set<ClientId>) {
    && Inv(false, s) && 1 <= s.limit && !Whole(s.events, Restart(s.history, s.row), |s.history|)
    && forall id :: id in s.clients && id !in stopped ==> Harmless(s, s.clients[id])
  }

  ghost predicate Avoids(actions: seq<Action>, stopped: set<ClientId>) {
    forall i :: 0 <= i < |actions| ==> actions[i].id !in stopped
  }

  lemma StuckStep(s: State, stopped: set<ClientId>, a: Action)
    requires Stuck(s, stopped) && a.id !in stopped
    ensures var after := Step(s, a);
            && Stuck(after, stopped)
            && after.row == s.row && after.events == s.events && after.history == s.history && after.limit == s.limit
  {
    hide Inv, Whole, Restart, FoldOnto, TailAfter, ReplayAnswer, Watermark, AfterTail, SteadyStep;
    assert Claims(s, a);
    StepKeeps(false, s, a);
    if a.Advance? && a.id in s.clients && s.clients[a.id].Writer? && s.clients[a.id].write.ReadTail? {
      var Writer(ask, ReadTail(attempt, base)) := s.clients[a.id];
      AppendRefusedExactly(s, a.id, ask, attempt, base);
    }
  }

  /** Then no append is ever accepted again: whatever new or unfinished clients do, the row, the table and the history
      stay as they are, for ever. */
  lemma {:induction false} StuckForEver(s: State, stopped: set<ClientId>, actions: seq<Action>)
    requires Stuck(s, stopped) && Avoids(actions, stopped)
    ensures var after := Run(s, actions);
            && Stuck(after, stopped)
            && after.row == s.row && after.events == s.events && after.history == s.history && after.limit == s.limit
    decreases |actions|
  {
    hide Stuck, Step;
    if actions != [] {
      StuckForEver(s, stopped, actions[..|actions| - 1]);
      StuckStep(Run(s, actions[..|actions| - 1]), stopped, actions[|actions| - 1]);
    }
  }

  /** Writer 1 converges the row at sequence two and pauses before compacting; writers 2 and 3 insert sequences three
      and four and stop. */
  function PausedRun(): seq<Action> {
    AppendScript(0, SnapshotAsk())
    + (PrepareScript(1, WorkAsk()) + [Advance(1)] + [Advance(1)])
    + (PrepareScript(2, WorkAsk()) + [Advance(2)])
    + (PrepareScript(3, WorkAsk()) + [Advance(3)])
  }

  /** Writer 1 then compacts. */
  function StallingRun(): seq<Action> {
    PausedRun() + [Advance(1)]
  }

  /** Four events, the first a snapshot, all retained under a bound of one, and the row at revision two. */
  ghost predicate Paused(s: State, e1: Event, e2: Event, e3: Event, e4: Event) {
    && Inv(true, s) && s.limit == 1 && s.history == [e1] + [e2] + [e3] + [e4] && Revision(s.row) == 2
    && s.events == map[1 := e1][2 := e2][3 := e3][4 := e4]
    && e1.payload.Snapshot? && !e2.payload.Snapshot? && !e3.payload.Snapshot? && !e4.payload.Snapshot?
    && s.clients.Keys == {0, 1, 2, 3} && s.clients[0].Writer? && s.clients[0].write.Acked?
    && s.clients[1] == Writer(WorkAsk(), Compact(e2))
  }

  lemma PausesBeforeCompaction() returns (e1: Event, e2: Event, e3: Event, e4: Event)
    ensures Paused(Exec(1, PausedRun()), e1, e2, e3, e4)
  {
    hide Run, AppendScript, PrepareScript, Inv, Fold, Retained, Whole;
    var a0 := AppendScript(0, SnapshotAsk());
    var a1 := PrepareScript(1, WorkAsk()) + [Advance(1)] + [Advance(1)];
    var a2, a3 := PrepareScript(2, WorkAsk()) + [Advance(2)], PrepareScript(3, WorkAsk()) + [Advance(3)];
    QuietStart(1);
    e1 := QuietAppend(Init(1), 0, SnapshotAsk());
    RetainedOne(e1);
    var s0 := Run(Init(1), a0);
    assert [] + [e1] == [e1];
    e2 := ConvergesUncompacted(s0, 1, WorkAsk());
    RunConcat(Init(1), a0, a1);
    var s1 := Run(Init(1), a0 + a1);
    QuietIsFoldable(s1);
    var p3, p4;
    e3, p3 := WriterInserts(s1, 2, WorkAsk());
    RunConcat(Init(1), a0 + a1, a2);
    var s2 := Run(Init(1), a0 + a1 + a2);
    StillFoldable(s1, s2, e3);
    e4, p4 := WriterInserts(s2, 3, WorkAsk());
    RunConcat(Init(1), a0 + a1 + a2, a3);
  }

  /** With a bound of one this leaves a row at revision two, events one and four, and a history of four.  No claim was
      unsafe and the log is still sequential, but with writers 2 and 3 gone it has accepted its last append. */
  lemma CompactionCanStrandTheRow()
    ensures var s := Exec(1, StallingRun());
            && |s.history| == 4 && Revision(s.row) == 2 && s.events.Keys == {1, 4}
            && Stuck(s, {2, 3})
  {
    hide Run, PausedRun, Inv, Whole, Retained;
    var e1, e2, e3, e4 := PausesBeforeCompaction();
    RunThen(Init(1), PausedRun(), Advance(1));
    Stranded(Exec(1, PausedRun()), e1, e2, e3, e4);
  }

  /** An append up to its converged row, before it compacts. */
  lemma ConvergesUncompacted(s: State, id: ClientId, ask: Ask) returns (event: Event)
    requires Quiet(s) && id !in s.clients && (s.history != [] || ask.payload.Snapshot?)
    ensures var s' := Run(s, PrepareScript(id, ask) + [Advance(id)] + [Advance(id)]);
            && Quiet(s') && s'.limit == s.limit && s'.history == s.history + [event] && Revision(s'.row) == |s.history| + 1
            && event.sequence == |s.history| + 1 && event.payload == ask.payload
            && s'.events == s.events[event.sequence := event]
            && s'.clients == s.clients[id := Writer(ask, Compact(event))]
  {
    hide Inv, Run, Fold, PrepareScript, Whole;
    QuietIsFoldable(s);
    var p;
    event, p := WriterInserts(s, id, ask);
    var script := PrepareScript(id, ask) + [Advance(id)];
    RunThen(s, script, Advance(id));
    var s4 := Run(s, script);
    RowBehind(s);
    StepKeeps(true, s4, Advance(id));
    assert Step(s4, Advance(id)).clients == s.clients[id := Writer(ask, Compact(event))];
  }

  lemma StillFoldable(s: State, after: State, event: Event)
    requires Foldable(s) && Inv(true, after) && after.row == s.row
    requires after.history == s.history + [event] && after.events == s.events[|s.history| + 1 := event]
    ensures Foldable(after)
  {
    hide Inv;
  }

  lemma Stranded(s: State, e1: Event, e2: Event, e3: Event, e4: Event)
    requires Paused(s, e1, e2, e3, e4)
    ensures var after := Step(s, Advance(1));
            && after.history == s.history && after.row == s.row && after.events.Keys == {1, 4} && Stuck(after, {2, 3})
  {
    hide Inv;
    var after := Step(s, Advance(1));
    StepKeeps(true, s, Advance(1));
    ExactIsMore(after);
    RetainedEnds(e1, e2, e3, e4);
    SnapshotGrows([], e1);
    SnapshotGrows([e1], e2);
    SnapshotGrows([e1] + [e2], e3);
    SnapshotGrows([e1] + [e2] + [e3], e4);
    assert [] + [e1] == [e1];
    hide NewestSnapshot;
    assert Restart(after.history, after.row) == 2;
    assert 3 !in after.events;
  }

  lemma ExactIsMore(s: State)
    requires Inv(true, s)
    ensures Inv(false, s)
  {
    hide LogOk, TableOk, Fold;
    forall id | id in s.clients ensures ClientOk(false, s.limit, s.history, s.authors, id, s.clients[id]) {
      assert ClientOk(true, s.limit, s.history, s.authors, id, s.clients[id]);
    }
  }

  lemma RetainedEnds(e1: Event, e2: Event, e3: Event, e4: Event)
    requires e1.payload.Snapshot? && !e2.payload.Snapshot? && !e3.payload.Snapshot? && !e4.payload.Snapshot?
    ensures Retained(map[1 := e1][2 := e2][3 := e3][4 := e4], 1).Keys == {1, 4}
  {
    var all := map[1 := e1][2 := e2][3 := e3][4 := e4];
    assert all.Keys == {1, 2, 3, 4};
    assert 4 in all.Keys;
    assert SnapshotKeys(all) == {1};
    assert MaxKey({1}) == 1;
  }

  // ----- A snapshot that is behind the times -----

  /** A reader reads the row, two appends finish, the second a snapshot older than the first, and the reader then reads
      the tail, of which only that snapshot is left. */
  function BackdatedRun(): seq<Action> {
    AppendScript(0, SnapshotAsk()) + [StartReader(9)] + [Advance(9)]
    + AppendScript(1, WorkAsk()) + AppendScript(2, SnapshotAsk()) + [Advance(9)]
  }

  /** The reader's status time then falls behind: its view has the newest revision but not the status time of the fold,
      which the row has. */
  lemma BackdatedSnapshotLosesTime()
    ensures var s := Exec(1, BackdatedRun());
            && |s.history| == 3 && s.row == Fold(s.history)
            && 9 in s.clients && s.clients[9].Reader? && s.clients[9].read.Viewed?
            && Revision(s.clients[9].read.view) == 3 && s.clients[9].read.view != Fold(s.history)
  {
    hide Run, AppendScript, Inv, Fold, Retained;
    var a0, a1, a2 := AppendScript(0, SnapshotAsk()), AppendScript(1, WorkAsk()), AppendScript(2, SnapshotAsk());
    QuietStart(1);
    var e1 := QuietAppend(Init(1), 0, SnapshotAsk());
    RetainedOne(e1);
    var s0 := Run(Init(1), a0);
    assert [] + [e1] == [e1];
    RunThen(Init(1), a0, StartReader(9));
    RunThen(Init(1), a0 + [StartReader(9)], Advance(9));
    var front := a0 + [StartReader(9)] + [Advance(9)];
    ReaderReadsRow(s0);
    var s1 := Run(Init(1), front);
    var e2 := QuietAppend(s1, 1, WorkAsk());
    RetainedPair(e1, e2);
    RunConcat(Init(1), front, a1);
    var s2 := Run(Init(1), front + a1);
    var e3 := QuietAppend(s2, 2, SnapshotAsk());
    RetainedSnapshot(e1, e2, e3);
    RunConcat(Init(1), front + a1, a2);
    var s3 := Run(Init(1), front + a1 + a2);
    RunThen(Init(1), front + a1 + a2, Advance(9));
    QuietRevision(s0);
    ReaderFallsBehind(s3, e1, e2, e3, s0.row);
  }

  lemma QuietRevision(s: State)
    requires Quiet(s)
    ensures Revision(s.row) == |s.history|
  {
    hide TableOk, PrefixView, AuthorsOk, ClientsOk, Fold;
    FoldOfNumbered(s.history);
  }

  lemma ReaderReadsRow(s: State)
    requires Quiet(s) && 9 !in s.clients
    ensures var after := Step(Step(s, StartReader(9)), Advance(9));
            Quiet(after) && after == s.(clients := s.clients[9 := Reader(ViewTail(s.row))])
  {
    hide Inv, Fold;
    StepKeeps(true, s, StartReader(9));
    StepKeeps(true, Step(s, StartReader(9)), Advance(9));
  }

  lemma RetainedSnapshot(e1: Event, e2: Event, e3: Event)
    requires e1.payload.Snapshot? && !e2.payload.Snapshot? && e3.payload.Snapshot?
    ensures Retained(map[1 := e1, 2 := e2][3 := e3], 1) == map[3 := e3]
  {
    var all := map[1 := e1, 2 := e2][3 := e3];
    assert all.Keys == {1, 2, 3};
    assert 3 in all.Keys && 3 in SnapshotKeys(all);
  }

  lemma ReaderFallsBehind(s: State, e1: Event, e2: Event, e3: Event, base: Option<Projection>)
    requires Inv(true, s) && s.limit == 1 && s.history == [e1] + [e2] + [e3] && s.events == map[3 := e3]
    requires e1.occurredAt < e2.occurredAt && e3.occurredAt < e2.occurredAt && !e2.payload.Snapshot? && e3.payload.Snapshot?
    requires 9 in s.clients && s.clients[9] == Reader(ViewTail(base)) && Revision(base) == 1
    ensures var after := Step(s, Advance(9));
            && after.history == s.history && after.row == s.row && 9 in after.clients
            && after.clients[9].Reader? && after.clients[9].read.Viewed?
            && Revision(after.clients[9].read.view) == 3 && after.clients[9].read.view != Fold(s.history)
  {
    hide Fold, FoldOnto, TailAfter, LogOk, PrefixView, AuthorsOk;
    assert |s.authors| == |s.history| by { SameLength(s); }
    assert ClientOk(true, s.limit, s.history, s.authors, 9, s.clients[9]);
    LogNumbered(s.history);
    hide Inv, TableOk;
    FoldHealsExactly(1, s.history, s.events, base);
    FoldedView(false, 1, s.events, s.history, base) by { ExactIsMoreView(s.history, base); }
    SnapshotGrows([e1] + [e2], e3);
    assert !Whole(s.events, 1, 3) by { assert 2 !in s.events; }
    forall j: nat ensures !(Anchors(s.history, s.events, 1, j, 3) && Recovers(s.history, j)) {
      OnlyLateAnchor(s.history, s.events, j);
    }
  }

  lemma SameLength(s: State)
    requires Inv(true, s)
    ensures |s.authors| == |s.history|
  {
  }

  lemma ExactIsMoreView(history: seq<Event>, view: Option<Projection>)
    requires PrefixView(true, history, view)
    ensures PrefixView(false, history, view)
  {
  }

  lemma OnlyLateAnchor(history: seq<Event>, events: map<nat, Event>, j: nat)
    requires |history| == 3 && !history[1].payload.Snapshot? && history[2].occurredAt < history[1].occurredAt
    ensures !(Anchors(history, events, 1, j, 3) && Recovers(history, j))
  {
    hide Whole;
    if Anchors(history, events, 1, j, 3) {
      assert j == 3;
      forall i | 3 <= i + 1 <= 3 ensures !NewestAt(history, i) {
        assert history[1].occurredAt > history[i].occurredAt;
      }
    }
  }
}
