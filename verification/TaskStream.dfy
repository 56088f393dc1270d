/** One client's stream over one growing task history: the frames it queues and emits, the cursor it keeps, and
    what a client that applies those frames sees. */
module TaskStream {
  import opened Common
  import opened TaskProjection

  const MAX_STREAM_POLL_FAILURES: nat := 3

  // ----- Frames and the client -----

  /** The public part of a task: what a task frame carries. */
  datatype View = View(status: TaskState, history: seq<Message>, artifacts: seq<Artifact>)

  /** `to_task` with the default history bound. */
  function Render(p: Projection): View {
    View(p.status, CapFront(p.history, DEFAULT_HISTORY_LIMIT), p.artifacts)
  }

  datatype Frame =
    | TaskFrame(view: View)
    | StatusFrame(state: TaskState, cursor: nat)
    | ArtifactFrame(artifact: Artifact, cursor: nat)
    | MessageFrame(message: Message, cursor: nat)
    | HeartbeatFrame(state: TaskState, cursor: nat)
    | ErrorFrame

  /** `stream_response_from_event`. */
  function FrameOf(event: Event): Frame {
    match event.payload
    case Snapshot(projection) => TaskFrame(Render(projection))
    case StatusUpdate(state) => StatusFrame(state, event.sequence)
    case Terminal(state) => StatusFrame(state, event.sequence)
    case ArtifactUpdate(artifact) => ArtifactFrame(artifact, event.sequence)
    case MessageUpdate(message) => MessageFrame(message, event.sequence)
  }

  /** A client that keeps a task view under the projection's own rules.  Heartbeats are labelled and carry no
      event, so they change nothing. */
  function ApplyFrame(view: Option<View>, frame: Frame): Option<View> {
    match frame
    case TaskFrame(task) => Some(task)
    case HeartbeatFrame(_, _) => view
    case ErrorFrame => view
    case _ =>
      if view.None? then None
      else
        var v := view.value;
        Some(match frame
             case StatusFrame(state, _) => if StatusTransitionAllowed(v.status, state) then v.(status := state) else v
             case ArtifactFrame(artifact, _) => v.(artifacts := CapFront(v.artifacts + [artifact], DEFAULT_ARTIFACT_LIMIT))
             case MessageFrame(message, _) => v.(history := CapFront(v.history + [message], DEFAULT_HISTORY_LIMIT))
             case _ => v)
  }

  function ApplyFrames(view: Option<View>, frames: seq<Frame>): Option<View> {
    if frames == [] then view else ApplyFrame(ApplyFrames(view, frames[..|frames| - 1]), frames[|frames| - 1])
  }

  /** What a client that has seen the first `n` events shows. */
  function Seen(history: seq<Event>, n: nat): Option<View>
    requires n <= |history|
  {
    match Fold(history[..n])
    case Some(p) => Some(Render(p))
    case None => None
  }

  /** A projection read shows some prefix of the log: the one up to its own revision. */
  ghost predicate ReadOf(log: seq<Event>, p: Projection) {
    1 <= p.revision <= |log| && Seen(log, p.revision) == Some(Render(p))
  }

  // ----- Traces -----

  /** Why a frame is on the stream: it renders the next event, resynchronizes from a projection, keeps the
      connection alive, or ends the stream in error. */
  datatype Kind = FromEvent | Resync | Beat | Failure

  /** A frame and the log position the client has reached once it has applied it. */
  datatype Item = Item(kind: Kind, frame: Frame, at: nat)

  function Position(start: nat, items: seq<Item>): nat {
    if items == [] then start else items[|items| - 1].at
  }

  function StatusOf(frame: Frame): Option<TaskState> {
    match frame
    case TaskFrame(view) => Some(view.status)
    case StatusFrame(state, _) => Some(state)
    case _ => None
  }

  /** The last status a frame carried, or the one the stream opened with. */
  function LastStatus(initial: TaskState, items: seq<Item>): TaskState {
    if items == [] then initial
    else
      match StatusOf(items[|items| - 1].frame)
      case Some(state) => state
      case None => LastStatus(initial, items[..|items| - 1])
  }

  /** The frame ends the stream once emitted. */
  predicate Ends(frame: Frame) {
    frame.ErrorFrame? || (StatusOf(frame).Some? && IsTerminal(StatusOf(frame).value))
  }

  ghost predicate ItemOk(history: seq<Event>, before: nat, status: TaskState, item: Item) {
    && before <= |history| && item.at <= |history|
    && match item.kind
       case FromEvent => item.at == before + 1 && item.frame == FrameOf(history[item.at - 1])
       case Resync => item.at >= 1 && item.frame.TaskFrame? && Seen(history, item.at) == Some(item.frame.view)
       case Beat => item.at == before && item.frame == HeartbeatFrame(status, before)
       case Failure => item.at == before && item.frame == ErrorFrame
  }

  /** Every item continues the one before it; only a resynchronization may go back. */
  ghost predicate TraceOk(history: seq<Event>, start: nat, initial: TaskState, items: seq<Item>) {
    && start <= |history|
    && forall i :: 0 <= i < |items| ==>
         ItemOk(history, Position(start, items[..i]), LastStatus(initial, items[..i]), items[i])
  }

  function Frames(items: seq<Item>): (frames: seq<Frame>)
    ensures |frames| == |items|
  {
    seq(|items|, i requires 0 <= i < |items| => items[i].frame)
  }

  lemma CapAgain<T>(s: seq<T>, x: T, n: nat)
    ensures CapFront(CapFront(s, n) + [x], n) == CapFront(s + [x], n)
    ensures CapFront(CapFront(s + [x], n), n) == CapFront(s + [x], n)
  {
  }

  /** A client that shows a projection shows the next one after the event's frame. */
  lemma FrameFollowsEvent(p: Projection, event: Event)
    requires event.sequence == p.revision + 1
    ensures ApplyFrame(Some(Render(p)), FrameOf(event)) == Some(Render(ApplyEvent(p, event).value))
  {
    if event.payload.MessageUpdate? {
      CapAgain(p.history, event.payload.message, DEFAULT_HISTORY_LIMIT);
    }
  }

  lemma SeenStep(history: seq<Event>, n: nat)
    requires Numbered(history) && n < |history|
    ensures Seen(history, n + 1) == ApplyFrame(Seen(history, n), FrameOf(history[n]))
  {
    FoldStep(history, n);
    FoldOfPrefix(history, n);
    var view := Fold(history[..n]);
    if view.Some? {
      FrameFollowsEvent(view.value, history[n]);
    }
  }

  lemma PositionBound(history: seq<Event>, start: nat, initial: TaskState, items: seq<Item>)
    requires TraceOk(history, start, initial, items)
    ensures Position(start, items) <= |history|
  {
  }

  lemma TracePrefix(history: seq<Event>, start: nat, initial: TaskState, items: seq<Item>, n: nat)
    requires TraceOk(history, start, initial, items) && n <= |items|
    ensures TraceOk(history, start, initial, items[..n])
  {
    forall i | 0 <= i < n ensures items[..n][..i] == items[..i] {
    }
  }

  lemma TraceExtends(history: seq<Event>, start: nat, initial: TaskState, items: seq<Item>, item: Item)
    requires TraceOk(history, start, initial, items)
    requires ItemOk(history, Position(start, items), LastStatus(initial, items), item)
    ensures TraceOk(history, start, initial, items + [item])
  {
    hide ItemOk, Position, LastStatus;
    var longer := items + [item];
    forall i | 0 <= i < |longer|
      ensures ItemOk(history, Position(start, longer[..i]), LastStatus(initial, longer[..i]), longer[i])
    {
      if i < |items| {
        assert longer[..i] == items[..i] && longer[i] == items[i];
      } else {
        assert longer[..i] == items;
      }
    }
  }

  /** The same log, later. */
  ghost predicate Grows(history: seq<Event>, later: seq<Event>) {
    history <= later && Numbered(later)
  }

  lemma TraceStays(history: seq<Event>, later: seq<Event>, start: nat, initial: TaskState, items: seq<Item>)
    requires TraceOk(history, start, initial, items) && Grows(history, later)
    ensures TraceOk(later, start, initial, items)
  {
    hide Position, LastStatus, Numbered;
    forall i | 0 <= i < |items|
      ensures ItemOk(later, Position(start, items[..i]), LastStatus(initial, items[..i]), items[i])
    {
      assert ItemOk(history, Position(start, items[..i]), LastStatus(initial, items[..i]), items[i]);
      assert later[..items[i].at] == history[..items[i].at];
    }
  }

  /** Stream continuity: a client that had seen the log up to where the stream starts, and applies the frames of
      any prefix of its trace, sees exactly the fold of the log up to the position that prefix reaches. */
  lemma {:induction false} ClientSeesFold(history: seq<Event>, start: nat, initial: TaskState, items: seq<Item>)
    requires Numbered(history) && TraceOk(history, start, initial, items)
    ensures Position(start, items) <= |history|
    ensures ApplyFrames(Seen(history, start), Frames(items)) == Seen(history, Position(start, items))
  {
    if items != [] {
      var front, last := items[..|items| - 1], items[|items| - 1];
      hide TraceOk, LastStatus, Numbered, Seen, ApplyFrame, ItemOk;
      TracePrefix(history, start, initial, items, |items| - 1);
      LastItemOk(history, start, initial, items);
      ClientSeesFold(history, start, initial, front);
      assert Frames(items)[..|items| - 1] == Frames(front);
      ItemSeen(history, Position(start, front), LastStatus(initial, front), last);
    }
  }

  lemma LastItemOk(history: seq<Event>, start: nat, initial: TaskState, items: seq<Item>)
    requires TraceOk(history, start, initial, items) && items != []
    ensures var front, last := items[..|items| - 1], items[|items| - 1];
            && ItemOk(history, Position(start, front), LastStatus(initial, front), last)
            && Position(start, front) <= |history| && last.at <= |history|
    ensures start <= |history|
  {
    hide LastStatus;
  }

  lemma ItemSeen(history: seq<Event>, before: nat, status: TaskState, item: Item)
    requires Numbered(history) && ItemOk(history, before, status, item)
    ensures ApplyFrame(Seen(history, before), item.frame) == Seen(history, item.at)
  {
    hide FrameOf;
    if item.kind.FromEvent? {
      SeenStep(history, before);
    }
  }

  predicate CarriesCursor(frame: Frame) {
    frame.StatusFrame? || frame.ArtifactFrame? || frame.MessageFrame? || frame.HeartbeatFrame?
  }

  /** Cursors are positions: a frame that carries a replay cursor carries the position the client has reached, two
      neighbouring event frames carry neighbouring sequences, and a position falls only where the stream
      resynchronizes. */
  lemma CursorsArePositions(history: seq<Event>, start: nat, initial: TaskState, items: seq<Item>, i: nat)
    requires Numbered(history) && TraceOk(history, start, initial, items) && i < |items|
    ensures var before := if i == 0 then start else items[i - 1].at;
            && (items[i].kind != Resync ==> before <= items[i].at)
            && (items[i].kind == FromEvent ==> items[i].at == before + 1)
            && (CarriesCursor(items[i].frame) ==> items[i].frame.cursor == items[i].at)
  {
    hide LastStatus;
    assert ItemOk(history, Position(start, items[..i]), LastStatus(initial, items[..i]), items[i]);
    if items[i].kind.FromEvent? {
      assert history[items[i].at - 1].sequence == items[i].at;
    }
  }

  lemma LastRises(history: seq<Event>, start: nat, initial: TaskState, items: seq<Item>)
    requires TraceOk(history, start, initial, items) && items != [] && items[|items| - 1].kind != Resync
    ensures TraceOk(history, start, initial, items[..|items| - 1])
    ensures Position(start, items[..|items| - 1]) <= Position(start, items)
  {
    LastItemOk(history, start, initial, items);
    TracePrefix(history, start, initial, items, |items| - 1);
    hide TraceOk, Seen, FrameOf, LastStatus;
  }

  /** Between two moments of a stream without a resynchronization, its position does not fall. */
  lemma {:induction false} FallsOnlyAtResync(history: seq<Event>, start: nat, initial: TaskState, items: seq<Item>, n: nat)
    requires Numbered(history) && TraceOk(history, start, initial, items) && n <= |items|
    requires forall i :: n <= i < |items| ==> items[i].kind != Resync
    ensures Position(start, items[..n]) <= Position(start, items)
    decreases |items|
  {
    if n == |items| {
      assert items[..n] == items;
    } else {
      var front := items[..|items| - 1];
      LastRises(history, start, initial, items);
      hide *;
      assert front[..n] == items[..n];
      FallsOnlyAtResync(history, start, initial, front, n);
    }
  }

  lemma {:induction false} LastStatusLive(initial: TaskState, items: seq<Item>)
    requires forall j :: 0 <= j < |items| ==> !Ends(items[j].frame)
    ensures IsTerminal(LastStatus(initial, items))
            <==> IsTerminal(initial) && forall j :: 0 <= j < |items| ==> StatusOf(items[j].frame).None?
  {
    if items != [] {
      LastStatusLive(initial, items[..|items| - 1]);
      assert items == items[..|items| - 1] + [items[|items| - 1]];
    }
  }

  /** A heartbeat shows a finished task exactly when the stream opened on one and has carried no status since:
      such a stream, resumed from a caught-up cursor, stays open.  Every other terminal status ends the stream. */
  lemma TerminalBeatExactly(history: seq<Event>, start: nat, initial: TaskState, items: seq<Item>, i: nat)
    requires TraceOk(history, start, initial, items) && i < |items| && items[i].kind == Beat
    requires forall j :: 0 <= j < i ==> !Ends(items[j].frame)
    ensures items[i].frame.HeartbeatFrame?
    ensures IsTerminal(items[i].frame.state)
            <==> IsTerminal(initial) && forall j :: 0 <= j < i ==> StatusOf(items[j].frame).None?
  {
    hide LastStatus, Position, Ends, IsTerminal, StatusOf;
    assert ItemOk(history, Position(start, items[..i]), LastStatus(initial, items[..i]), items[i]);
    LastStatusLive(initial, items[..i]);
    forall j | 0 <= j < i ensures items[..i][j] == items[j] {
    }
  }

  // ----- Heartbeats -----

  /** The public status after the first `n` events, once a task is known. */
  function StatusAt(history: seq<Event>, n: nat): Option<TaskState>
    requires n <= |history|
  {
    match Seen(history, n)
    case Some(view) => Some(view.status)
    case None => None
  }

  /** A status update a client would not act on: it repeats the status shown, or would make it regress. */
  predicate Settled(shown: Option<TaskState>, state: TaskState) {
    shown.Some? ==> shown.value == state || !StatusTransitionAllowed(shown.value, state)
  }

  ghost predicate CarriedStatus(items: seq<Item>) {
    exists j :: 0 <= j < |items| && StatusOf(items[j].frame).Some?
  }

  lemma CarriedSnoc(items: seq<Item>)
    requires items != []
    ensures CarriedStatus(items) <==> CarriedStatus(items[..|items| - 1]) || StatusOf(items[|items| - 1].frame).Some?
  {
    hide StatusOf;
    var front := items[..|items| - 1];
    if j :| 0 <= j < |front| && StatusOf(front[j].frame).Some? {
      assert items[j] == front[j];
    }
    if j :| 0 <= j < |items| && StatusOf(items[j].frame).Some? {
      assert j < |front| ==> front[j] == items[j];
    }
  }

  /** Since the stream's last status, if any, nothing has changed the status shown; otherwise it has not changed since
      the start. */
  ghost predicate StatusKept(history: seq<Event>, start: nat, initial: TaskState, items: seq<Item>)
    requires Position(start, items) <= |history|
  {
    if CarriedStatus(items)
    then Settled(StatusAt(history, Position(start, items)), LastStatus(initial, items))
    else start <= Position(start, items) && forall m :: start <= m <= Position(start, items) ==> StatusAt(history, m) == StatusAt(history, start)
  }

  /** What one item does to the status shown. */
  lemma ItemStatus(history: seq<Event>, before: nat, status: TaskState, item: Item)
    requires Numbered(history) && ItemOk(history, before, status, item)
    ensures StatusOf(item.frame).Some? ==> Settled(StatusAt(history, item.at), StatusOf(item.frame).value)
    ensures StatusOf(item.frame).None? ==> StatusAt(history, item.at) == StatusAt(history, before) && before <= item.at <= before + 1
  {
    ItemSeen(history, before, status, item);
    hide Seen, Numbered, CapFront, IsTerminal;
  }

  lemma {:induction false} StatusIsKept(history: seq<Event>, start: nat, initial: TaskState, items: seq<Item>)
    requires Numbered(history) && TraceOk(history, start, initial, items)
    ensures Position(start, items) <= |history|
    ensures StatusKept(history, start, initial, items)
  {
    hide TraceOk, ItemOk, Numbered, Settled, StatusAt, StatusOf, CarriedStatus;
    PositionBound(history, start, initial, items);
    if items == [] {
      assert !CarriedStatus(items) by { NothingCarried(); }
      assert Position(start, items) == start;
    } else {
      var front, last := items[..|items| - 1], items[|items| - 1];
      TracePrefix(history, start, initial, items, |items| - 1);
      StatusIsKept(history, start, initial, front);
      LastItemOk(history, start, initial, items);
      ItemStatus(history, Position(start, front), LastStatus(initial, front), last);
      CarriedSnoc(items);
    }
  }

  lemma NothingCarried()
    ensures !CarriedStatus([])
  {
  }

  /** A heartbeat taken as a status update leaves the client's view as it is, on any stream that has carried a status,
      or whose opening status was read between its start and the position it has reached. */
  lemma BeatsChangeNothing(history: seq<Event>, start: nat, initial: TaskState, items: seq<Item>, read: nat, i: nat)
    requires Numbered(history) && TraceOk(history, start, initial, items) && i < |items| && items[i].kind == Beat
    requires CarriedStatus(items[..i]) || (start <= read <= items[i].at && StatusAt(history, read) == Some(initial))
    ensures items[i].frame.HeartbeatFrame? && items[i].at <= |history|
    ensures var view := Seen(history, items[i].at);
            ApplyFrame(view, StatusFrame(items[i].frame.state, items[i].frame.cursor)) == view
  {
    var front := items[..i];
    TracePrefix(history, start, initial, items, i);
    StatusIsKept(history, start, initial, front);
    assert ItemOk(history, Position(start, front), LastStatus(initial, front), items[i]);
    hide TraceOk, Numbered, Seen, StatusTransitionAllowed, CapFront;
    if !CarriedStatus(front) {
      NoStatusYet(initial, front);
      assert StatusAt(history, read) == StatusAt(history, start);
      assert StatusAt(history, items[i].at) == StatusAt(history, start);
    }
  }

  lemma {:induction false} NoStatusYet(initial: TaskState, items: seq<Item>)
    requires forall j :: 0 <= j < |items| ==> StatusOf(items[j].frame).None?
    ensures LastStatus(initial, items) == initial
  {
    if items != [] {
      NoStatusYet(initial, items[..|items| - 1]);
    }
  }

  /** By its `n`-th item a stream has carried a status, or has come from its start past a position. */
  ghost predicate Informed(start: nat, read: nat, trace: seq<Item>, n: nat)
    requires n <= |trace|
  {
    CarriedStatus(trace[..n]) || start <= read <= Position(start, trace[..n])
  }

  /** Every heartbeat of a trace is sent by an informed stream. */
  ghost predicate BeatsInformed(start: nat, read: nat, trace: seq<Item>) {
    forall i :: 0 <= i < |trace| && trace[i].kind == Beat ==> Informed(start, read, trace, i)
  }

  lemma BeatsGrow(start: nat, read: nat, trace: seq<Item>, item: Item)
    requires item.kind == Beat ==> Informed(start, read, trace, |trace|)
    ensures BeatsInformed(start, read, trace) ==> BeatsInformed(start, read, trace + [item])
  {
    hide CarriedStatus, Position;
    var longer := trace + [item];
    forall i | 0 <= i <= |trace| ensures longer[..i] == trace[..i] {
    }
  }

  /** An informed stream stays informed: its position falls only with a frame that carries a status. */
  lemma InformedStays(history: seq<Event>, start: nat, initial: TaskState, read: nat, trace: seq<Item>, item: Item)
    requires ItemOk(history, Position(start, trace), LastStatus(initial, trace), item) && Informed(start, read, trace, |trace|)
    ensures Informed(start, read, trace + [item], |trace| + 1)
  {
    var longer := trace + [item];
    assert trace[..|trace|] == trace && longer[..|longer|] == longer && longer[..|longer| - 1] == trace;
    CarriedSnoc(longer);
  }

  // ----- The stream -----

  /** What the client asked to resume from. */
  datatype Resume = FromSnapshot | FromCursor(sequence: nat) | FromForeignCursor

  /** What a task's owner answers a poll past a cursor. */
  datatype PollOutcome = Unavailable | Polled(projection: Projection, events: seq<Event>, resync: bool)

  type Replay = Result<seq<Event>, TaskError>

  /** A replay is the rest of the log, or refused. */
  ghost predicate ReplayAnswers(replay: Replay, log: seq<Event>, cursor: nat) {
    cursor <= |log| && (replay.Ok? ==> replay.value == log[cursor..])
  }

  predicate Refused(error: TaskError) {
    error.ReplayWindowExpired? || error.InvalidReplayCursor?
  }

  /** What ends a wait.  Answers are given per cursor, since the stream asks with its own. */
  datatype Wake =
    | Notified(replay: nat -> Replay, projection: Result<Projection, TaskError>)
    | Lost
    | TimedOut(localOwner: bool, heartbeatDue: bool)

  /** One turn of the stream loop: the owner poll it may make, then what its wait ends with. */
  datatype Turn = Turn(poll: nat -> PollOutcome, wake: Wake)

  /** The log as each read of a turn saw it: the owner's projection, the owner's replay, the local replay, the
      local projection. */
  datatype Observed = Observed(polled: seq<Event>, replayed: seq<Event>, drained: seq<Event>, fetched: seq<Event>)

  ghost predicate PollOk(poll: nat -> PollOutcome, polled: seq<Event>, replayed: seq<Event>) {
    && Grows(polled, replayed)
    && forall cursor: nat :: cursor <= |polled| && poll(cursor).Polled? ==>
         && ReadOf(polled, poll(cursor).projection)
         && (!poll(cursor).resync ==> poll(cursor).events == replayed[cursor..])
  }

  ghost predicate WakeOk(wake: Wake, drained: seq<Event>, fetched: seq<Event>) {
    && Grows(drained, fetched)
    && (wake.Notified? ==>
          && (wake.projection.Ok? ==> ReadOf(fetched, wake.projection.value))
          && forall cursor: nat :: cursor <= |drained| ==> ReplayAnswers(wake.replay(cursor), drained, cursor))
  }

  ghost predicate TurnOk(before: seq<Event>, turn: Turn, log: Observed) {
    && Grows(before, log.polled)
    && PollOk(turn.poll, log.polled, log.replayed)
    && Grows(log.replayed, log.drained)
    && WakeOk(turn.wake, log.drained, log.fetched)
  }

  ghost function LogBefore(history: seq<Event>, logs: seq<Observed>, i: nat): seq<Event>
    requires i <= |logs|
  {
    if i == 0 then history else logs[i - 1].fetched
  }

  ghost predicate TurnsOk(history: seq<Event>, turns: seq<Turn>, logs: seq<Observed>) {
    && |logs| == |turns|
    && forall i :: 0 <= i < |turns| ==> TurnOk(LogBefore(history, logs, i), turns[i], logs[i])
  }

  datatype Next = Ended | Emitted(frame: Frame) | Waiting

  /** What a stream's fields say about its trace: `queued` is what is still to be emitted. */
  ghost predicate StreamOk(history: seq<Event>, start: nat, initial: TaskState, trace: seq<Item>, sent: nat,
                           queued: seq<Frame>, lastSequence: nat, status: TaskState, done: bool)
  {
    && Numbered(history) && TraceOk(history, start, initial, trace) && sent <= |trace|
    && queued == Frames(trace[sent..])
    && lastSequence == Position(start, trace)
    && status == LastStatus(initial, trace[..sent])
    && (forall i :: 0 <= i < sent - 1 ==> !Ends(trace[i].frame))
    && (done <==> sent > 0 && Ends(trace[sent - 1].frame))
  }

  lemma LogGrows(history: seq<Event>, later: seq<Event>, start: nat, initial: TaskState, trace: seq<Item>, sent: nat,
                 queued: seq<Frame>, lastSequence: nat, status: TaskState, done: bool)
    requires StreamOk(history, start, initial, trace, sent, queued, lastSequence, status, done) && Grows(history, later)
    ensures StreamOk(later, start, initial, trace, sent, queued, lastSequence, status, done)
  {
    hide TraceOk, LastStatus, Ends, Frames;
    TraceStays(history, later, start, initial, trace);
  }

  /** Queueing an item the trace allows. */
  lemma ItemQueued(history: seq<Event>, start: nat, initial: TaskState, trace: seq<Item>, sent: nat,
                   queued: seq<Frame>, lastSequence: nat, status: TaskState, done: bool, item: Item)
    requires StreamOk(history, start, initial, trace, sent, queued, lastSequence, status, done)
    requires ItemOk(history, lastSequence, LastStatus(initial, trace), item)
    ensures StreamOk(history, start, initial, trace + [item], sent, queued + [item.frame], item.at, status, done)
  {
    hide TraceOk, LastStatus, Ends, ItemOk, Numbered;
    TraceExtends(history, start, initial, trace, item);
    assert (trace + [item])[sent..] == trace[sent..] + [item];
    assert Frames(trace[sent..] + [item]) == Frames(trace[sent..]) + [item.frame];
    assert (trace + [item])[..sent] == trace[..sent];
  }

  lemma EventQueued(history: seq<Event>, start: nat, initial: TaskState, trace: seq<Item>, sent: nat,
                    queued: seq<Frame>, lastSequence: nat, status: TaskState, done: bool)
    requires StreamOk(history, start, initial, trace, sent, queued, lastSequence, status, done)
    requires lastSequence < |history|
    ensures var event := history[lastSequence];
            && event.sequence == lastSequence + 1
            && StreamOk(history, start, initial, trace + [Item(FromEvent, FrameOf(event), lastSequence + 1)], sent,
                        queued + [FrameOf(event)], lastSequence + 1, status, done)
  {
    hide TraceOk, LastStatus, Ends, Frames, FrameOf, Position, Seen;
    var item := Item(FromEvent, FrameOf(history[lastSequence]), lastSequence + 1);
    ItemQueued(history, start, initial, trace, sent, queued, lastSequence, status, done, item);
  }

  lemma ResyncQueued(history: seq<Event>, start: nat, initial: TaskState, trace: seq<Item>, sent: nat,
                     queued: seq<Frame>, lastSequence: nat, status: TaskState, done: bool, p: Projection)
    requires StreamOk(history, start, initial, trace, sent, queued, lastSequence, status, done) && ReadOf(history, p)
    ensures StreamOk(history, start, initial, trace + [Item(Resync, TaskFrame(Render(p)), p.revision)], sent,
                     queued + [TaskFrame(Render(p))], p.revision, status, done)
  {
    PositionBound(history, start, initial, trace);
    hide TraceOk, LastStatus, Ends, Frames, Seen, Position;
    var item := Item(Resync, TaskFrame(Render(p)), p.revision);
    ItemQueued(history, start, initial, trace, sent, queued, lastSequence, status, done, item);
  }

  /** A stream that has queued nothing stands where it starts. */
  lemma FreshStream(log: seq<Event>, start: nat, p: Projection)
    requires Numbered(log) && start <= |log| && ReadOf(log, p)
    ensures StatusAt(log, p.revision) == Some(p.status)
    ensures StreamOk(log, start, p.status, [], 0, [], start, p.status, false) && BeatsInformed(start, p.revision, [])
  {
  }

  /** What `apply_stream_response_state` makes of the status. */
  function StatusAfter(status: TaskState, frame: Frame): TaskState {
    match StatusOf(frame)
    case Some(state) => state
    case None => status
  }

  lemma FrameEmitted(history: seq<Event>, start: nat, initial: TaskState, trace: seq<Item>, sent: nat,
                     queued: seq<Frame>, lastSequence: nat, status: TaskState)
    requires StreamOk(history, start, initial, trace, sent, queued, lastSequence, status, false) && queued != []
    ensures sent < |trace| && trace[sent].frame == queued[0]
    ensures StreamOk(history, start, initial, trace, sent + 1, queued[1..], lastSequence,
                     StatusAfter(status, queued[0]), Ends(queued[0]))
  {
    hide TraceOk, Ends, Numbered, Position;
    assert trace[sent..][0] == trace[sent];
    assert trace[sent..][1..] == trace[sent + 1..];
    assert Frames(trace[sent..])[1..] == Frames(trace[sent + 1..]);
    assert trace[..sent + 1][..sent] == trace[..sent];
  }

  /** A frame produced on the spot, with nothing queued before it. */
  lemma FrameInterposed(history: seq<Event>, start: nat, initial: TaskState, trace: seq<Item>, sent: nat,
                        lastSequence: nat, status: TaskState, item: Item)
    requires StreamOk(history, start, initial, trace, sent, [], lastSequence, status, false)
    requires item == Item(Beat, HeartbeatFrame(status, lastSequence), lastSequence) || item == Item(Failure, ErrorFrame, lastSequence)
    ensures StreamOk(history, start, initial, trace + [item], sent + 1, [], lastSequence, status, item.kind.Failure?)
  {
    hide TraceOk, LastStatus, Ends, Numbered;
    assert sent == |trace| by { assert |Frames(trace[sent..])| == 0; }
    assert trace[..sent] == trace;
    PositionBound(history, start, initial, trace);
    ItemQueued(history, start, initial, trace, sent, [], lastSequence, status, false, item);
    assert [] + [item.frame] == [item.frame];
    FrameEmitted(history, start, initial, trace + [item], sent, [item.frame], lastSequence, status);
    assert [item.frame][1..] == [];
    BeatsNeverEnd(item.frame, status);
  }

  lemma BeatsNeverEnd(frame: Frame, status: TaskState)
    requires frame.HeartbeatFrame? || frame.ErrorFrame?
    ensures Ends(frame) <==> frame.ErrorFrame?
    ensures StatusAfter(status, frame) == status
  {
  }

  /** What holds of every stream between calls: the frames emitted and queued so far bring the client exactly to the
      fold of the log at the stream's cursor, the frames emitted alone to the fold at their own position, and only
      the last frame emitted can end the stream. */
  lemma StreamContinuity(history: seq<Event>, start: nat, initial: TaskState, trace: seq<Item>, sent: nat,
                         queued: seq<Frame>, lastSequence: nat, status: TaskState, done: bool)
    requires StreamOk(history, start, initial, trace, sent, queued, lastSequence, status, done)
    ensures lastSequence <= |history| && Position(start, trace[..sent]) <= |history|
    ensures ApplyFrames(Seen(history, start), Frames(trace[..sent]) + queued) == Seen(history, lastSequence)
    ensures ApplyFrames(Seen(history, start), Frames(trace[..sent])) == Seen(history, Position(start, trace[..sent]))
    ensures forall i :: 0 <= i < sent && Ends(trace[i].frame) ==> i == sent - 1 && done
  {
    hide TraceOk, LastStatus, Ends, Numbered, ApplyFrames, Seen;
    ClientSeesFold(history, start, initial, trace);
    TracePrefix(history, start, initial, trace, sent);
    ClientSeesFold(history, start, initial, trace[..sent]);
    assert Frames(trace[..sent]) + queued == Frames(trace);
  }

  class A2AStreamState {
    const routed: bool
    const sharedReplay: bool
    var hasSignal: bool
    var pending: seq<Frame>
    var lastSequence: nat
    var status: TaskState
    var pollOwnerNow: bool
    var pollFailures: nat
    var done: bool

    /** The log as last observed, and everything queued so far; the first `sent` items have been emitted. */
    ghost var history: seq<Event>
    ghost const start: nat
    ghost const initial: TaskState
    ghost const readAt: nat
    ghost var trace: seq<Item>
    ghost var sent: nat

    /** `taken` are frames taken off the queue and not yet applied. */
    ghost predicate ValidWith(taken: seq<Frame>)
      reads this
    {
      StreamOk(history, start, initial, trace, sent, taken + pending, lastSequence, status, done)
    }

    ghost predicate Valid()
      reads this
    {
      StreamOk(history, start, initial, trace, sent, pending, lastSequence, status, done)
    }

    /** The stream is informed, and so was every heartbeat it sent. */
    ghost predicate Settles()
      reads this
    {
      Informed(start, readAt, trace, |trace|) && BeatsInformed(start, readAt, trace)
    }

    /** `stream_task`: the projection is read after the watcher was opened, and the replay after that.  The cursor was
        handed out by this log, and an empty replay is answered only where the projection stands. */
    constructor (projection: Projection, resume: Resume, replay: Replay, snapshotFirst: bool,
                 routed: bool, sharedReplay: bool, hasSignal: bool, ghost log: seq<Event>)
      requires Numbered(log) && ReadOf(log, projection)
      requires resume.FromCursor? ==> resume.sequence <= |log|
      requires resume.FromCursor? && (!routed || sharedReplay) ==>
                 && ReplayAnswers(replay, log, resume.sequence) && (replay.Err? ==> Refused(replay.error))
                 && (replay == Ok([]) ==> projection.revision == resume.sequence)
      ensures Valid() && history == log && sent == 0 && !done && pollFailures == 0
      ensures start == if resume.FromCursor? then resume.sequence else 0
      ensures resume.FromSnapshot? || resume.FromForeignCursor? ==>
                pending == [TaskFrame(Render(projection))] && lastSequence == projection.revision
      ensures resume.FromCursor? && (!routed || sharedReplay) ==>
                lastSequence == if replay.Ok? && replay.value != [] then replay.value[|replay.value| - 1].sequence
                                else projection.revision
      ensures pollOwnerNow <==> resume.FromCursor? && routed && !sharedReplay
      ensures readAt == projection.revision && initial == projection.status && StatusAt(history, readAt) == Some(initial)
      ensures !(resume.FromCursor? && routed && !sharedReplay) && start <= readAt ==> Settles()
    {
      this.routed, this.sharedReplay, this.hasSignal := routed, sharedReplay, hasSignal;
      pending, status, pollOwnerNow, pollFailures, done := [], projection.status, false, 0, false;
      lastSequence := if resume.FromCursor? then resume.sequence else 0;
      history, initial, trace, sent, readAt := log, projection.status, [], 0, projection.revision;
      start := if resume.FromCursor? then resume.sequence else 0;
      FreshStream(log, if resume.FromCursor? then resume.sequence else 0, projection);
      hide Seen, StatusAt, Numbered, StreamOk, BeatsInformed, Informed, Position, CarriedStatus;
      new;
      match resume {
        case FromSnapshot =>
          Resynchronize(projection);
        case FromForeignCursor =>
          Resynchronize(projection);
        case FromCursor(_) =>
          if routed && !sharedReplay {
            pollOwnerNow := true;
          } else {
            ReplayFromCursor(projection, replay, snapshotFirst);
          }
      }
    }

    /** The opening replay: the log's rest past the cursor, or the projection when the cursor has left the window. */
    method ReplayFromCursor(projection: Projection, replay: Replay, snapshotFirst: bool)
      requires Valid() && pending == [] && trace == [] && lastSequence == start && readAt == projection.revision
      requires Numbered(history) && ReadOf(history, projection) && start <= |history|
      requires ReplayAnswers(replay, history, start) && (replay.Err? ==> Refused(replay.error))
      requires replay == Ok([]) ==> projection.revision == start
      requires BeatsInformed(start, readAt, trace)
      modifies this`pending, this`lastSequence, this`trace
      ensures Valid() && BeatsInformed(start, readAt, trace)
      ensures lastSequence == if replay.Ok? && replay.value != [] then replay.value[|replay.value| - 1].sequence
                              else projection.revision
      ensures start <= readAt ==> Informed(start, readAt, trace, |trace|)
    {
      hide Seen, StreamOk, BeatsInformed, Informed, Position, CarriedStatus;
      match replay {
        case Ok(events) =>
          if lastSequence < |history| {
            LastSequenceOf(history, lastSequence);
          }
          var queued := Queue(events);
          if start <= readAt {
            Reached();
          }
        case Err(_) =>
          Resynchronize(projection);
      }
      if snapshotFirst && pending == [] {
        Resynchronize(projection);
      }
    }

    /** The stream's cursor is the position its frames lead to. */
    lemma Standing()
      requires Valid()
      ensures lastSequence == Position(start, trace)
    {
    }

    /** The cursor is behind where it stood only if the stream has resynchronized since. */
    lemma FellAtResync(before: seq<Item>)
      requires Valid() && before <= trace && lastSequence < Position(start, before)
      ensures exists i :: |before| <= i < |trace| && trace[i].kind == Resync
    {
      hide TraceOk, Frames, LastStatus, Ends, Numbered, Position;
      assert trace[..|before|] == before;
      if forall i :: |before| <= i < |trace| ==> trace[i].kind != Resync {
        FallsOnlyAtResync(history, start, initial, trace, |before|);
        assert false;
      }
    }

    lemma Reached()
      requires Valid() && start <= readAt <= lastSequence
      ensures Informed(start, readAt, trace, |trace|)
    {
      assert trace[..|trace|] == trace;
    }

    /** Queues a projection's task as the next frame, at its revision: the stream goes to where the read stands, ahead
        or back. */
    method Resynchronize(projection: Projection)
      requires Valid() && ReadOf(history, projection)
      modifies this`pending, this`lastSequence, this`trace
      ensures Valid() && lastSequence == projection.revision && pending == old(pending) + [TaskFrame(Render(projection))]
      ensures trace == old(trace) + [Item(Resync, TaskFrame(Render(projection)), projection.revision)]
      ensures Informed(start, readAt, trace, |trace|)
      ensures BeatsInformed(start, readAt, old(trace)) ==> BeatsInformed(start, readAt, trace)
    {
      hide StreamOk, Seen, BeatsInformed;
      ghost var item := Item(Resync, TaskFrame(Render(projection)), projection.revision);
      BeatsGrow(start, readAt, trace, item);
      CarriedSnoc(trace + [item]);
      assert (trace + [item])[..|trace| + 1] == trace + [item];
      ResyncQueued(history, start, initial, trace, sent, pending, lastSequence, status, done, projection);
      lastSequence := projection.revision;
      pending := pending + [TaskFrame(Render(projection))];
      trace := trace + [item];
    }

    /** Queues the replayed rest of the log, skipping what the cursor has passed. */
    method Queue(events: seq<Event>) returns (queued: bool)
      requires Valid() && lastSequence <= |history| && events == history[lastSequence..]
      modifies this`pending, this`lastSequence, this`trace
      ensures Valid() && lastSequence == |history| && (queued <==> events != [])
      ensures |pending| == |old(pending)| + |events| && old(trace) <= trace
      ensures BeatsInformed(start, readAt, old(trace)) ==> BeatsInformed(start, readAt, trace)
      ensures Informed(start, readAt, old(trace), |old(trace)|) ==> Informed(start, readAt, trace, |trace|)
      ensures forall i :: |old(trace)| <= i < |trace| ==> trace[i].kind == FromEvent
      ensures old(pending) == [] && events != [] ==> pending[0] == FrameOf(events[0])
    {
      hide StreamOk, FrameOf, BeatsInformed, Informed;
      queued := false;
      for i := 0 to |events|
        invariant Valid() && lastSequence == old(lastSequence) + i
        invariant queued <==> i > 0
        invariant |pending| == |old(pending)| + i && old(trace) <= trace
        invariant BeatsInformed(start, readAt, old(trace)) ==> BeatsInformed(start, readAt, trace)
        invariant Informed(start, readAt, old(trace), |old(trace)|) ==> Informed(start, readAt, trace, |trace|)
        invariant forall k :: |old(trace)| <= k < |trace| ==> trace[k].kind == FromEvent
        invariant old(pending) == [] && i > 0 ==> pending[0] == FrameOf(events[0])
      {
        var event := events[i];
        assert event == history[lastSequence];
        EventQueued(history, start, initial, trace, sent, pending, lastSequence, status, done);
        if event.sequence <= lastSequence {
          continue;
        }
        BeatsGrow(start, readAt, trace, Item(FromEvent, FrameOf(event), lastSequence + 1));
        NextInformed(Item(FromEvent, FrameOf(event), lastSequence + 1));
        trace := trace + [Item(FromEvent, FrameOf(event), lastSequence + 1)];
        lastSequence := event.sequence;
        pending := pending + [FrameOf(event)];
        queued := true;
      }
    }

    lemma NextInformed(item: Item)
      requires Valid() && lastSequence < |history| && item == Item(FromEvent, FrameOf(history[lastSequence]), lastSequence + 1)
      ensures Informed(start, readAt, trace, |trace|) ==> Informed(start, readAt, trace + [item], |trace| + 1)
    {
      hide TraceOk, FrameOf, Numbered;
      if Informed(start, readAt, trace, |trace|) {
        InformedStays(history, start, initial, readAt, trace, item);
      }
    }

    /** `apply_stream_response_state` for a frame about to be emitted. */
    method Apply(frame: Frame)
      requires ValidWith([frame]) && !done
      modifies this`status, this`done, this`sent
      ensures Valid() && sent == old(sent) + 1 <= |trace| && trace[old(sent)].frame == frame && (done <==> Ends(frame))
    {
      hide StreamOk;
      FrameEmitted(history, start, initial, trace, sent, [frame] + pending, lastSequence, status);
      assert ([frame] + pending)[1..] == pending;
      match frame {
        case TaskFrame(view) => status := view.status; done := IsTerminal(view.status);
        case StatusFrame(state, _) => status := state; done := IsTerminal(state);
        case ErrorFrame => done := true;
        case _ =>
      }
      sent := sent + 1;
    }

    /** The observed log grows. */
    ghost method Observe(later: seq<Event>)
      requires Valid() && Grows(history, later)
      modifies this`history
      ensures Valid() && history == later
    {
      LogGrows(history, later, start, initial, trace, sent, pending, lastSequence, status, done);
      hide StreamOk;
      history := later;
    }

    /** Where the stream stands is a position of the log it has observed. */
    lemma Bounded()
      requires Valid()
      ensures lastSequence <= |history|
    {
      PositionBound(history, start, initial, trace);
    }

    /** `drain_durable_events`: replays past the cursor, or resynchronizes when the cursor has left the window. */
    method Drain(replay: Replay, projection: Result<Projection, TaskError>, ghost drained: seq<Event>, ghost fetched: seq<Event>)
      returns (r: Result<bool, TaskError>)
      requires Valid() && pending == [] && Grows(history, drained) && Grows(drained, fetched)
      requires ReplayAnswers(replay, drained, lastSequence) && (projection.Ok? ==> ReadOf(fetched, projection.value))
      modifies this`pending, this`lastSequence, this`trace, this`history
      ensures Valid() && history == fetched && old(trace) <= trace
      ensures old(Settles()) ==> Settles()
      ensures r.Ok? ==> (r.value <==> pending != [])
      ensures r.Err? ==> pending == [] && lastSequence == old(lastSequence)
      ensures r.Err? <==> replay.Err? && (!Refused(replay.error) || projection.Err?)
      ensures replay.Ok? ==> lastSequence == |drained|
      ensures r.Ok? && replay.Err? ==> r == Ok(true) && lastSequence == projection.value.revision
      ensures lastSequence < old(lastSequence)
              <==> replay.Err? && Refused(replay.error) && projection.Ok? && projection.value.revision < old(lastSequence)
    {
      hide StreamOk, Seen, Numbered, BeatsInformed, Informed;
      Observe(drained);
      Bounded();
      match replay {
        case Ok(events) =>
          var queued := Queue(events);
          Observe(fetched);
          return Ok(queued);
        case Err(error) =>
          Observe(fetched);
          if !Refused(error) {
            return Err(error);
          }
          if projection.Err? {
            return Err(projection.error);
          }
          Resynchronize(projection.value);
          return Ok(true);
      }
    }

    /** `poll_owner_events`: the owner's events past the cursor, its snapshot when it cannot resume there, or nothing;
        the third failure in a row is an error for the client. */
    method PollOwner(outcome: PollOutcome, ghost polled: seq<Event>, ghost replayed: seq<Event>) returns (first: Option<Frame>)
      requires Valid() && !done && pending == [] && Grows(history, polled) && Grows(polled, replayed)
      requires outcome.Polled? ==> ReadOf(polled, outcome.projection)
      requires outcome.Polled? && !outcome.resync ==> outcome.events == replayed[lastSequence..]
      modifies this`pending, this`lastSequence, this`trace, this`history, this`pollFailures
      ensures history == replayed && old(trace) <= trace
      ensures lastSequence < old(lastSequence)
              <==> outcome.Polled? && outcome.resync && outcome.projection.revision < old(lastSequence)
      ensures old(Settles()) ==> Settles()
      ensures first.None? ==> Valid() && pending == []
      ensures first.Some? && first.value != ErrorFrame ==> ValidWith([first.value])
      ensures first == Some(ErrorFrame) ==> Valid() && pending == []
      ensures first == Some(ErrorFrame) <==> outcome.Unavailable? && MAX_STREAM_POLL_FAILURES <= old(pollFailures) + 1
      ensures pollFailures == if outcome.Unavailable? then old(pollFailures) + 1 else 0
    {
      hide StreamOk, Seen, Numbered, BeatsInformed, Informed;
      Bounded();
      match outcome {
        case Polled(projection, events, resync) =>
          pollFailures := 0;
          if resync {
            Observe(polled);
            Resynchronize(projection);
            Observe(replayed);
            first := Some(pending[0]);
            assert [pending[0]] + pending[1..] == pending;
            pending := pending[1..];
          } else {
            Observe(polled);
            Observe(replayed);
            var queued := Queue(events);
            if queued {
              first := Some(pending[0]);
              assert [pending[0]] + pending[1..] == pending;
              EventFrames(events[0]);
              pending := pending[1..];
            } else {
              first := None;
            }
          }
        case Unavailable =>
          Observe(polled);
          Observe(replayed);
          pollFailures := pollFailures + 1;
          if pollFailures < MAX_STREAM_POLL_FAILURES {
            return None;
          }
          return Some(ErrorFrame);
      }
    }

    /** A frame produced on the spot goes out at the stream's own position. */
    method Interpose(frame: Frame)
      requires Valid() && !done && pending == []
      requires frame == HeartbeatFrame(status, lastSequence) || frame == ErrorFrame
      modifies this`done, this`trace, this`sent
      ensures Valid() && (done <==> frame.ErrorFrame?) && old(trace) <= trace
      ensures old(Settles()) ==> Settles()
      ensures sent == old(sent) + 1 <= |trace| && trace[old(sent)].frame == frame
    {
      hide StreamOk;
      ghost var item := Item(if frame.ErrorFrame? then Failure else Beat, frame, lastSequence);
      FrameInterposed(history, start, initial, trace, sent, lastSequence, status, item);
      AllSent(history, start, initial, trace, sent, lastSequence, status);
      Standing();
      if Settles() {
        BeatsGrow(start, readAt, trace, item);
        InterposedInformed(start, readAt, trace, item);
      }
      trace := trace + [item];
      sent := sent + 1;
      done := frame.ErrorFrame?;
    }

    predicate OwnerPollingActive()
      reads this
    {
      routed && (!sharedReplay || !hasSignal)
    }

    /** One turn of the loop: an owner poll when one is due, then a wait and what it ends with. */
    method TakeTurn(turn: Turn, ghost log: Observed) returns (item: Option<Frame>)
      requires Valid() && !done && pending == [] && TurnOk(history, turn, log)
      modifies this
      ensures Valid() && old(trace) <= trace && old(history) <= history
      ensures old(Settles()) ==> Settles()
      ensures item.None? ==> !done && pending == [] && sent == old(sent) && history == log.fetched
      ensures item.Some? ==> sent == old(sent) + 1 <= |trace| && trace[old(sent)].frame == item.value
    {
      hide StreamOk, Seen, Numbered, BeatsInformed, Informed;
      Bounded();
      if pollOwnerNow && OwnerPollingActive() {
        pollOwnerNow := false;
        item := PollOwner(turn.poll(lastSequence), log.polled, log.replayed);
        if item.Some? {
          if item.value.ErrorFrame? {
            Interpose(item.value);
          } else {
            Apply(item.value);
          }
          return;
        }
      } else {
        Observe(log.polled);
        Observe(log.replayed);
      }
      pollOwnerNow := false;
      item := Await(turn.wake, log.drained, log.fetched);
    }

    /** The wait: a signal drains the log, a lost watcher is dropped, a timeout polls or beats. */
    method Await(wake: Wake, ghost drained: seq<Event>, ghost fetched: seq<Event>) returns (item: Option<Frame>)
      requires Valid() && !done && pending == [] && Grows(history, drained) && WakeOk(wake, drained, fetched)
      modifies this
      ensures Valid() && old(trace) <= trace && history == fetched
      ensures old(Settles()) ==> Settles()
      ensures item.None? ==> !done && pending == [] && sent == old(sent)
      ensures item.Some? ==> sent == old(sent) + 1 <= |trace| && trace[old(sent)].frame == item.value
    {
      hide StreamOk, Seen, Numbered, BeatsInformed, Informed;
      Bounded();
      match wake {
        case Notified(replay, projection) =>
          var queued := Drain(replay(lastSequence), projection, drained, fetched);
          if queued.Err? {
            Interpose(ErrorFrame);
            return Some(ErrorFrame);
          }
          if queued.value {
            var frame := TakeFirst();
            return Some(frame);
          }
        case Lost =>
          hasSignal := false;
          Observe(drained);
          Observe(fetched);
        case TimedOut(localOwner, heartbeatDue) =>
          Observe(drained);
          Observe(fetched);
          if OwnerPollingActive() && !localOwner {
            pollOwnerNow := true;
          }
          if !OwnerPollingActive() || heartbeatDue {
            var frame := HeartbeatFrame(status, lastSequence);
            Interpose(frame);
            return Some(frame);
          }
      }
      return None;
    }

    /** `next_stream_item`: the next frame, the end of the stream, or still waiting when no more turns come. */
    method NextStreamItem(turns: seq<Turn>, ghost logs: seq<Observed>) returns (r: Next)
      requires Valid() && TurnsOk(history, turns, logs)
      modifies this
      ensures Valid() && old(trace) <= trace && old(history) <= history
      ensures old(Settles()) ==> Settles()
      ensures r.Ended? <==> old(done)
      ensures r.Emitted? ==> sent == old(sent) + 1 <= |trace| && trace[old(sent)].frame == r.frame
      ensures !r.Emitted? ==> sent == old(sent)
      ensures lastSequence < old(lastSequence) ==> exists i :: |old(trace)| <= i < |trace| && trace[i].kind == Resync
    {
      hide StreamOk, TurnOk, BeatsInformed, Informed, Position;
      Standing();
      if done {
        return Ended;
      }
      if pending != [] {
        var frame := TakeFirst();
        return Emitted(frame);
      }
      for i := 0 to |turns|
        invariant Valid() && !done && pending == [] && sent == old(sent)
        invariant old(trace) <= trace && old(history) <= history
        invariant old(Settles()) ==> Settles()
        invariant history == LogBefore(old(history), logs, i)
        invariant lastSequence < old(lastSequence) ==> exists i :: |old(trace)| <= i < |trace| && trace[i].kind == Resync
      {
        assert TurnOk(LogBefore(old(history), logs, i), turns[i], logs[i]);
        var item := TakeTurn(turns[i], logs[i]);
        if lastSequence < old(lastSequence) {
          FellAtResync(old(trace));
        }
        if item.Some? {
          return Emitted(item.value);
        }
      }
      return Waiting;
    }

    /** Pops the queue's first frame and applies it. */
    method TakeFirst() returns (frame: Frame)
      requires Valid() && !done && pending != []
      modifies this`pending, this`status, this`done, this`sent
      ensures Valid() && sent == old(sent) + 1 <= |trace| && trace[old(sent)].frame == frame
    {
      hide StreamOk;
      frame := pending[0];
      assert [pending[0]] + pending[1..] == pending;
      pending := pending[1..];
      Apply(frame);
    }
  }

  lemma InterposedInformed(start: nat, read: nat, trace: seq<Item>, item: Item)
    requires Informed(start, read, trace, |trace|) && item.at == Position(start, trace)
    ensures Informed(start, read, trace + [item], |trace| + 1)
  {
    var longer := trace + [item];
    assert trace[..|trace|] == trace && longer[..|longer|] == longer && longer[..|longer| - 1] == trace;
    CarriedSnoc(longer);
  }

  /** A replay that answers events ends at the log's length. */
  lemma LastSequenceOf(log: seq<Event>, cursor: nat)
    requires Numbered(log) && cursor < |log|
    ensures log[cursor..] != [] && log[cursor..][|log| - cursor - 1].sequence == |log|
  {
  }

  lemma EventFrames(event: Event)
    ensures FrameOf(event) != ErrorFrame
  {
  }

  lemma AllSent(history: seq<Event>, start: nat, initial: TaskState, trace: seq<Item>, sent: nat, lastSequence: nat, status: TaskState)
    requires StreamOk(history, start, initial, trace, sent, [], lastSequence, status, false)
    ensures sent == |trace|
  {
    assert |Frames(trace[sent..])| == 0;
  }
}
