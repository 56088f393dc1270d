/** Both task logs serve streams: what each answers a replay, and what each shows of the projection, is what a stream
    relies on. */
module StreamSources {
  import opened Common
  import opened TaskProjection
  import TaskTail
  import TaskLog
  import TaskLogLimits
  import MemoryLog
  import opened TaskStream

  // ----- The shared log -----

  /** Every safe run of the shared log that retains anything answers every cursor within the log with the whole
      rest of it, or refuses; it never answers a known task with nothing. */
  lemma SharedLogServesStreams(limit: nat, actions: seq<TaskLog.Action>, cursor: nat)
    requires 1 <= limit && TaskLog.SafeRun(limit, actions) && cursor <= |TaskLog.Exec(limit, actions).history|
    ensures var s := TaskLog.Exec(limit, actions);
            var replay := TaskLog.ReplayAnswer(s.events, cursor);
            && Numbered(s.history) && ReplayAnswers(replay, s.history, cursor)
            && (replay.Err? ==> Refused(replay.error)) && (s.history != [] ==> replay != Ok([]))
  {
    hide TaskLog.Exec, TaskLog.SafeRun, TaskLog.SteadyRun, TaskTail.TableOk, TaskTail.PrefixView, Numbered;
    var s := TaskLog.Exec(limit, actions);
    TaskLog.LogIsSequential(limit, actions);
    TaskLog.LogNumbered(s.history);
    assert s.limit == limit by { RunLimit(limit, actions); }
    TaskLog.NewestHeld(limit, s.events, s.history);
    TaskLog.ReplayCompleteOrRefused(s.events, s.history, cursor);
  }

  lemma {:induction false} RunLimit(limit: nat, actions: seq<TaskLog.Action>)
    ensures TaskLog.Exec(limit, actions).limit == limit
  {
    if actions != [] {
      RunLimit(limit, actions[..|actions| - 1]);
    }
  }

  /** The fold of a prefix, even one whose status time lags, is a read a stream can use. */
  lemma PrefixIsRead(history: seq<Event>, p: Projection)
    requires TaskTail.PrefixView(false, history, Some(p))
    ensures ReadOf(history, p)
  {
    hide Fold;
  }

  /** Every finished read of the shared log is such a read, from then on; it shows the whole log of its time exactly
      when nothing it needed was missing. */
  lemma SharedReadsServeStreams(limit: nat, actions: seq<TaskLog.Action>, id: TaskLog.ClientId)
    requires TaskLog.SafeRun(limit, actions) && id in TaskLog.Exec(limit, actions).clients
    ensures var s := TaskLog.Exec(limit, actions);
            match s.clients[id]
            case Reader(Viewed(Some(p), at, whole)) =>
              ReadOf(s.history, p) && p.revision <= at <= |s.history| && (whole <==> p.revision == at)
            case _ => true
  {
    hide TaskLog.Exec, TaskLog.SafeRun, TaskLog.SteadyRun, TaskTail.PrefixView, ReadOf;
    TaskLog.ReadsAreFolds(limit, actions, id);
    var s := TaskLog.Exec(limit, actions);
    match s.clients[id] {
      case Reader(Viewed(Some(p), _, _)) =>
        AnyExactness(s.history, Some(p), TaskLog.SteadyRun(limit, actions));
        PrefixIsRead(s.history, p);
      case _ =>
    }
  }

  lemma AnyExactness(history: seq<Event>, view: Option<Projection>, exact: bool)
    requires TaskTail.PrefixView(exact, history, view)
    ensures TaskTail.PrefixView(false, history, view)
  {
  }

  /** A stream at `last` that resynchronizes from a read of the shared log goes back if and only if something up to
      `last` that the read needed, past its row and past the newest snapshot, has been compacted away. */
  lemma ResyncFallsExactly(limit: nat, actions: seq<TaskLog.Action>, id: TaskLog.ClientId, base: Option<Projection>, last: nat)
    requires TaskLog.SafeRun(limit, actions)
    requires var s := TaskLog.Exec(limit, actions);
             id in s.clients && s.clients[id] == TaskLog.Reader(TaskLog.ViewTail(base)) && s.history != [] && last <= |s.history|
    ensures var s := TaskLog.Exec(limit, actions);
            var view := TaskLog.Step(s, TaskLog.Advance(id)).clients[id].read.view;
            && view.Some? && ReadOf(s.history, view.value)
            && (view.value.revision < last <==> !TaskTail.Whole(s.events, TaskTail.Restart(s.history, base), last))
  {
    var s := TaskLog.Exec(limit, actions);
    TaskLog.RunKeeps(false, limit, actions);
    hide TaskLog.Exec, TaskLog.SafeRun;
    ReadFallsExactly(s, id, base, last);
  }

  lemma ReadFallsExactly(s: TaskLog.State, id: TaskLog.ClientId, base: Option<Projection>, last: nat)
    requires TaskLog.Inv(false, s) && id in s.clients && s.clients[id] == TaskLog.Reader(TaskLog.ViewTail(base))
    requires s.history != [] && last <= |s.history|
    ensures var view := TaskLog.Step(s, TaskLog.Advance(id)).clients[id].read.view;
            && view == FoldOnto(base, TaskTail.TailAfter(s.events, Revision(base)))
            && view.Some? && ReadOf(s.history, view.value)
            && (view.value.revision < last <==> !TaskTail.Whole(s.events, TaskTail.Restart(s.history, base), last))
  {
    hide TaskLog.LogOk, TaskTail.TableOk, TaskTail.PrefixView, Fold, FoldOnto, TaskTail.TailAfter, TaskTail.Whole, TaskTail.Restart, ReadOf;
    assert TaskLog.ClientOk(false, s.limit, s.history, s.authors, id, s.clients[id]);
    TaskLog.LogNumbered(s.history);
    ViewFallsExactly(s.limit, s.events, s.history, base, last);
  }

  lemma ViewFallsExactly(limit: nat, events: map<nat, Event>, history: seq<Event>, base: Option<Projection>, last: nat)
    requires Numbered(history) && TaskTail.TableOk(limit, events, history) && TaskTail.PrefixView(false, history, base)
    requires history != [] && last <= |history|
    ensures var view := FoldOnto(base, TaskTail.TailAfter(events, Revision(base)));
            && view.Some? && ReadOf(history, view.value)
            && (view.value.revision < last <==> !TaskTail.Whole(events, TaskTail.Restart(history, base), last))
  {
    hide Fold, FoldOnto, Numbered, TaskTail.Whole, TaskTail.Restart, ReadOf;
    TaskLog.FoldedView(false, limit, events, history, base);
    TaskTail.TailIsCollect(events, history, Revision(base));
    TaskTail.ViewCoversExactly(limit, history, events, base, last);
    PrefixIsRead(history, FoldOnto(base, TaskTail.TailAfter(events, Revision(base))).value);
  }

  // ----- A cursor that goes back -----

  /** What a stream at two that drains three and four and is then sent back to two has queued. */
  function FallenTrace(e3: Event, e4: Event, p: Projection): seq<Item> {
    [Item(FromEvent, FrameOf(e3), 3), Item(FromEvent, FrameOf(e4), 4), Item(Resync, TaskFrame(Render(p)), p.revision)]
  }

  /** It happens: before writer 1 of the stalling run compacts, a stream at two is answered events three and four; after,
      its cursor at four is refused and the projection it resynchronizes from stands at two. */
  lemma CursorCanFall(initial: TaskState)
    ensures var paused, stalled := TaskLog.Exec(1, TaskLogLimits.PausedRun()), TaskLog.Exec(1, TaskLogLimits.StallingRun());
            && |paused.history| == 4 && stalled.history == paused.history
            && TaskLog.ReplayAnswer(paused.events, 2) == Ok(paused.history[2..])
            && TaskLog.ReplayAnswer(stalled.events, 4) == Err(ReplayWindowExpired)
            && var view := FoldOnto(stalled.row, TaskTail.TailAfter(stalled.events, Revision(stalled.row)));
               && view.Some? && view.value.revision == 2 && ReadOf(stalled.history, view.value)
               && TraceOk(stalled.history, 2, initial, FallenTrace(stalled.history[2], stalled.history[3], view.value))
  {
    hide TaskLog.Run, TaskLogLimits.PausedRun, TaskLog.Inv, TaskTail.Retained, TaskTail.Whole, TaskTail.Restart, FoldOnto, TaskTail.TailAfter,
         TaskLog.ReplayAnswer, TraceOk, ReadOf, Fold;
    var e1, e2, e3, e4 := TaskLogLimits.PausesBeforeCompaction();
    TaskLogLimits.RunThen(TaskLog.Init(1), TaskLogLimits.PausedRun(), TaskLog.Advance(1));
    var paused, stalled := TaskLog.Exec(1, TaskLogLimits.PausedRun()), TaskLog.Exec(1, TaskLogLimits.StallingRun());
    TaskLogLimits.Stranded(paused, e1, e2, e3, e4);
    TaskLogLimits.CompactionCanStrandTheRow();
    assert paused.history[2..] == [e3, e4];
    PausedReplays(paused, e1, e2, e3, e4);
    StalledRefuses(stalled.events);
    StalledRead(stalled);
    var view := FoldOnto(stalled.row, TaskTail.TailAfter(stalled.events, Revision(stalled.row)));
    FallenTraceOk(stalled.history, initial, view.value);
  }

  lemma PausedReplays(s: TaskLog.State, e1: Event, e2: Event, e3: Event, e4: Event)
    requires TaskLogLimits.Paused(s, e1, e2, e3, e4)
    ensures TaskLog.ReplayAnswer(s.events, 2) == Ok([e3, e4])
  {
    hide TaskTail.PrefixView, TaskLog.AuthorsOk, TaskLog.ClientsOk, TaskTail.TableOk, Fold;
    TaskLog.LogNumbered(s.history);
    hide TaskLog.Inv, TaskLog.LogOk;
    TaskTail.Positions(s.history, 3);
    TaskTail.Positions(s.history, 4);
    TailOfFour(s.events, e3, e4);
  }

  lemma TailOfFour(events: map<nat, Event>, e3: Event, e4: Event)
    requires events.Keys == {1, 2, 3, 4} && events[3] == e3 && events[4] == e4 && e3.sequence == 3 && e4.sequence == 4
    ensures TaskLog.ReplayAnswer(events, 2) == Ok([e3, e4])
  {
    assert 4 in events.Keys;
    assert TaskTail.MaxSequence(events) == 4;
    assert TaskTail.Collect(events, 2, 2) == [];
    assert TaskTail.Collect(events, 2, 3) == [e3];
    assert TaskTail.Collect(events, 2, 4) == [e3, e4];
  }

  lemma StalledRefuses(events: map<nat, Event>)
    requires events.Keys == {1, 4}
    ensures TaskLog.ReplayAnswer(events, 4) == Err(ReplayWindowExpired)
  {
    assert 4 in events.Keys;
    assert TaskTail.MaxSequence(events) == 4;
    assert TaskTail.Collect(events, 4, 4) == [];
  }

  lemma StalledRead(s: TaskLog.State)
    requires TaskLogLimits.Stuck(s, {2, 3}) && |s.history| == 4 && Revision(s.row) == 2 && s.events.Keys == {1, 4}
    ensures var view := FoldOnto(s.row, TaskTail.TailAfter(s.events, Revision(s.row)));
            view.Some? && view.value.revision == 2 && ReadOf(s.history, view.value)
  {
    hide TaskLog.AuthorsOk, TaskLog.ClientsOk, TaskTail.PrefixView, TaskTail.TableOk, TaskLog.LogOk, Fold, FoldOnto, TaskTail.TailAfter, ReadOf;
    TaskLog.LogNumbered(s.history);
    ViewFallsExactly(s.limit, s.events, s.history, s.row, 2);
    ViewFallsExactly(s.limit, s.events, s.history, s.row, 3);
    assert 3 !in s.events.Keys;
    RestartsAtTwo(s.limit, s.events, s.history, s.row);
  }

  lemma RestartsAtTwo(limit: nat, events: map<nat, Event>, history: seq<Event>, row: Option<Projection>)
    requires TaskTail.TableOk(limit, events, history) && events.Keys == {1, 4} && Revision(row) == 2 && |history| == 4
    requires !TaskTail.Whole(events, TaskTail.Restart(history, row), 4)
    ensures TaskTail.Restart(history, row) == 2
  {
    assert TaskTail.NewestSnapshot(history) != 0 ==> TaskTail.NewestSnapshot(history) in events.Keys;
  }

  lemma FallenTraceOk(history: seq<Event>, initial: TaskState, p: Projection)
    requires |history| == 4 && ReadOf(history, p) && p.revision == 2
    ensures TraceOk(history, 2, initial, FallenTrace(history[2], history[3], p))
  {
    hide Seen, FrameOf, LastStatus;
    var items := FallenTrace(history[2], history[3], p);
    forall i | 0 <= i < |items| ensures ItemOk(history, Position(2, items[..i]), LastStatus(initial, items[..i]), items[i]) {
      assert i == 0 || i == 1 || i == 2;
    }
  }

  // ----- The in-memory log -----

  /** A projection of the in-memory log shows the whole log. */
  lemma MemoryReadsServeStreams(limit: nat, projection: Projection, es: seq<Event>, history: seq<Event>)
    requires MemoryLog.LogOk(limit, projection, es, history)
    ensures ReadOf(history, projection) && projection.revision == |history|
  {
    hide Fold, Numbered, MemoryLog.Retained;
    FoldOfNumbered(history);
    assert history[..|history|] == history;
  }

  /** The in-memory log serves streams while its newest event is retained; a cursor handed out before a projection was
      read is answered with nothing only where that projection stood. */
  lemma MemoryLogServesStreams(es: seq<Event>, read: seq<Event>, history: seq<Event>, cursor: nat)
    requires MemoryLog.Retained(es, history) && MemoryLog.NewestRetained(es, history) && cursor <= |read| && read <= history
    ensures var replay := MemoryLog.Replayed(|history|, es, cursor);
            && ReplayAnswers(replay, history, cursor) && (replay.Err? ==> Refused(replay.error))
            && (replay == Ok([]) ==> |read| == cursor)
  {
    hide MemoryLog.Retained;
    MemoryLog.ReplayCompleteExactly(es, history);
  }
}
