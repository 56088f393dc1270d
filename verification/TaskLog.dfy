/** The shared PostgreSQL task log under concurrent optimistic writers, readers and replays.

    Every SQL statement is one step, and one that fails ends its append with an error.  A client that
    crashes is one that takes no further step, so a statement about all action sequences covers crashes
    between any two statements.  `history` lists the events in the order their inserts succeeded. */
module TaskLog {
  import opened Common
  import opened TaskProjection
  import opened TaskTail

  const MAX_APPEND_ATTEMPTS: nat := 5

  type ClientId = int

  /** One `append_event_payload` call. */
  datatype Ask = Ask(tenant: string, taskId: string, contextId: string, occurredAt: Timestamp, payload: Payload)

  /** An append whose statement failed is answered with an error; `placed` remembers the event it had inserted by then,
      which the answer does not carry. */
  datatype WritePhase =
    | ReadRow(attempt: nat)
    | ReadTail(attempt: nat, base: Option<Projection>)
    | Insert(attempt: nat, event: Event, projection: Projection)
    | Converge(event: Event, projection: Projection)
    | Compact(event: Event)
    | Acked(event: Event)
    | Refused(error: TaskError)
    | Errored(placed: Option<Event>)

  /** A finished read remembers how long the history was at its tail read, and whether the window it needed was whole. */
  datatype ViewPhase =
    | ViewRow
    | ViewTail(base: Option<Projection>)
    | Viewed(view: Option<Projection>, at: nat, whole: bool)

  datatype ReplayPhase = AskKnown | AskEvents | Replayed(answer: Result<seq<Event>, TaskError>, at: nat)

  datatype Client =
    | Writer(ask: Ask, write: WritePhase)
    | Reader(read: ViewPhase)
    | Replayer(cursor: nat, replay: ReplayPhase)

  datatype State = State(limit: nat, row: Option<Projection>, events: map<nat, Event>,
                         history: seq<Event>, authors: seq<ClientId>, clients: map<ClientId, Client>)

  datatype Action =
    | StartWriter(id: ClientId, ask: Ask)
    | StartReader(id: ClientId)
    | StartReplay(id: ClientId, cursor: nat)
    | Advance(id: ClientId)
    | Fail(id: ClientId)

  /** `converge_row` without equal revisions: the highest revision wins. */
  function Converged(row: Option<Projection>, p: Projection): Option<Projection> {
    if row.None? || row.value.revision < p.revision then Some(p) else row
  }

  // ----- The steps -----

  function NewEvent(ask: Ask, sequence: nat, projectedState: TaskState): Event {
    Event(ask.tenant, ask.taskId, ask.contextId, sequence, ask.occurredAt, projectedState, ask.payload)
  }

  /** What a writer prepares from the view it folded: the next event with its projected state. */
  function Prepare(ask: Ask, view: Option<Projection>, watermark: nat): Result<(Event, Projection), TaskError> {
    match view
    case Some(p) =>
      var event := NewEvent(ask, Max(watermark, p.revision) + 1, Unspecified);
      (match ApplyEvent(p, event)
       case Ok(next) => Ok((event.(projectedState := next.status), next))
       case Err(error) => Err(error))
    case None =>
      var event := NewEvent(ask, 1, Unspecified);
      if ask.payload.Snapshot? then
        var adopted := Adopted(ask.payload.projection, event);
        Ok((event.(projectedState := adopted.status), adopted))
      else Err(TaskNotFound)
  }

  ghost function Watermark(base: Option<Projection>, tail: seq<Event>): nat {
    if tail == [] then Revision(base) else tail[|tail| - 1].sequence
  }

  function AfterTail(ask: Ask, attempt: nat, view: Option<Projection>, watermark: nat): WritePhase {
    match Prepare(ask, view, watermark)
    case Ok(prepared) => Insert(attempt, prepared.0, prepared.1)
    case Err(error) => Refused(error)
  }

  /** A lost sequence is retried from the row, a bounded number of times. */
  function AfterConflict(attempt: nat): WritePhase {
    if attempt + 1 < MAX_APPEND_ATTEMPTS then ReadRow(attempt + 1) else Refused(Contention)
  }

  ghost function WriteStep(s: State, id: ClientId, ask: Ask, phase: WritePhase): State {
    match phase
    case ReadRow(attempt) => s.(clients := s.clients[id := Writer(ask, ReadTail(attempt, s.row))])
    case ReadTail(attempt, base) =>
      var tail := TailAfter(s.events, Revision(base));
      s.(clients := s.clients[id := Writer(ask, AfterTail(ask, attempt, FoldOnto(base, tail), Watermark(base, tail)))])
    case Insert(attempt, event, projection) =>
      if event.sequence in s.events then
        s.(clients := s.clients[id := Writer(ask, AfterConflict(attempt))])
      else
        s.(events := s.events[event.sequence := event], history := s.history + [event], authors := s.authors + [id],
           clients := s.clients[id := Writer(ask, Converge(event, projection))])
    case Converge(event, projection) =>
      s.(row := Converged(s.row, projection), clients := s.clients[id := Writer(ask, Compact(event))])
    case Compact(event) =>
      s.(events := Retained(s.events, s.limit), clients := s.clients[id := Writer(ask, Acked(event))])
    case Acked(_) => s
    case Refused(_) => s
    case Errored(_) => s
  }

  /** The statement an append is about to issue fails: the error is passed on as it is. */
  function AfterFailure(phase: WritePhase): WritePhase {
    match phase
    case ReadRow(_) => Errored(None)
    case ReadTail(_, _) => Errored(None)
    case Insert(_, _, _) => Errored(None)
    case Converge(event, _) => Errored(Some(event))
    case Compact(event) => Errored(Some(event))
    case Acked(_) => phase
    case Refused(_) => phase
    case Errored(_) => phase
  }

  ghost function ViewStep(s: State, id: ClientId, phase: ViewPhase): State {
    match phase
    case ViewRow => s.(clients := s.clients[id := Reader(ViewTail(s.row))])
    case ViewTail(base) =>
      var view := FoldOnto(base, TailAfter(s.events, Revision(base)));
      s.(clients := s.clients[id := Reader(Viewed(view, |s.history|, Whole(s.events, Restart(s.history, base), |s.history|)))])
    case Viewed(_, _, _) => s
  }

  /** The contiguity check of `replay_events`. */
  ghost function ReplayAnswer(events: map<nat, Event>, cursor: nat): Result<seq<Event>, TaskError> {
    var tail := TailAfter(events, cursor);
    if tail == [] then (if cursor == 0 then Ok([]) else Err(ReplayWindowExpired))
    else if exists i :: 0 <= i < |tail| && tail[i].sequence != cursor + 1 + i then Err(ReplayWindowExpired)
    else Ok(tail)
  }

  ghost function ReplayStep(s: State, id: ClientId, cursor: nat, phase: ReplayPhase): State {
    match phase
    case AskKnown =>
      if cursor > 0 && cursor > Max(MaxSequence(s.events), Revision(s.row)) then
        s.(clients := s.clients[id := Replayer(cursor, Replayed(Err(InvalidReplayCursor), |s.history|))])
      else s.(clients := s.clients[id := Replayer(cursor, AskEvents)])
    case AskEvents =>
      s.(clients := s.clients[id := Replayer(cursor, Replayed(ReplayAnswer(s.events, cursor), |s.history|))])
    case Replayed(_, _) => s
  }

  ghost function Started(s: State, id: ClientId, client: Client): State {
    if id in s.clients then s else s.(clients := s.clients[id := client])
  }

  ghost function Step(s: State, a: Action): State {
    match a
    case StartWriter(id, ask) => Started(s, id, Writer(ask, ReadRow(0)))
    case StartReader(id) => Started(s, id, Reader(ViewRow))
    case StartReplay(id, cursor) => Started(s, id, Replayer(cursor, AskKnown))
    case Fail(id) =>
      if id !in s.clients || !s.clients[id].Writer? then s
      else s.(clients := s.clients[id := s.clients[id].(write := AfterFailure(s.clients[id].write))])
    case Advance(id) =>
      if id !in s.clients then s
      else match s.clients[id]
        case Writer(ask, phase) => WriteStep(s, id, ask, phase)
        case Reader(phase) => ViewStep(s, id, phase)
        case Replayer(cursor, phase) => ReplayStep(s, id, cursor, phase)
  }

  ghost function Init(limit: nat): State {
    State(limit, None, map[], [], [], map[])
  }

  ghost function Run(s: State, actions: seq<Action>): State {
    if actions == [] then s else Step(Run(s, actions[..|actions| - 1]), actions[|actions| - 1])
  }

  ghost function Exec(limit: nat, actions: seq<Action>): State {
    Run(Init(limit), actions)
  }

  /** The premise on a step: a writer claims a sequence only if it is still held or is the very next one. */
  ghost predicate Claims(s: State, a: Action) {
    a.Advance? && a.id in s.clients ==>
      match s.clients[a.id]
      case Writer(_, Insert(_, event, _)) => event.sequence in s.events || event.sequence == |s.history| + 1
      case _ => true
  }

  ghost predicate SafeRun(limit: nat, actions: seq<Action>) {
    forall n :: 0 <= n < |actions| ==> Claims(Exec(limit, actions[..n]), actions[n])
  }

  /** What keeps status times exact on a step: a fold does not restart at a backdated snapshot. */
  ghost predicate SteadyStep(s: State, a: Action) {
    a.Advance? && a.id in s.clients ==>
      match s.clients[a.id]
      case Writer(_, ReadTail(_, base)) => Steady(s.history, s.events, Revision(base))
      case Reader(ViewTail(base)) => Steady(s.history, s.events, Revision(base))
      case _ => true
  }

  ghost predicate SteadyRun(limit: nat, actions: seq<Action>) {
    forall n :: 0 <= n < |actions| ==> SteadyStep(Exec(limit, actions[..n]), actions[n])
  }

  // ----- The invariant -----

  /** Every event carries the status its own prefix folds to. */
  ghost predicate LogOk(history: seq<Event>) {
    Numbered(history) && forall i :: 0 <= i < |history| ==> Stamped(history, i)
  }

  ghost predicate Stamped(history: seq<Event>, i: nat)
    requires i < |history|
  {
    Fold(history[..i + 1]).Some? && history[i].projectedState == Fold(history[..i + 1]).value.status
  }

  /** The event a writer has placed in the log, if any. */
  function Placed(client: Client): Option<Event> {
    match client
    case Writer(_, Converge(event, _)) => Some(event)
    case Writer(_, Compact(event)) => Some(event)
    case Writer(_, Acked(event)) => Some(event)
    case Writer(_, Errored(placed)) => placed
    case _ => None
  }

  /** An event is the one an append asked for, at some sequence and with some projected state. */
  predicate Asked(ask: Ask, event: Event) {
    event == NewEvent(ask, event.sequence, event.projectedState)
  }

  /** The projection a writer has prepared is the fold of the history with its event. */
  ghost predicate PreparedView(exact: bool, history: seq<Event>, event: Event, p: Projection) {
    && 1 <= event.sequence <= |history| + 1
    && Numbered(history[..event.sequence - 1] + [event])
    && PrefixView(exact, history[..event.sequence - 1] + [event], Some(p))
    && p.revision == event.sequence && event.projectedState == p.status
  }

  ghost predicate ClientOk(exact: bool, limit: nat, history: seq<Event>, authors: seq<ClientId>, id: ClientId, client: Client)
    requires |authors| == |history|
  {
    && (match Placed(client)
        case Some(event) =>
          && 1 <= event.sequence <= |history| && history[event.sequence - 1] == event && authors[event.sequence - 1] == id
          && Asked(client.ask, event)
        case None => id !in authors)
    && (match client
        case Writer(_, ReadTail(_, base)) => PrefixView(exact, history, base)
        case Writer(ask, Insert(_, event, p)) => PreparedView(exact, history, event, p) && Asked(ask, event)
        case Writer(_, Converge(event, p)) => PrefixView(exact, history, Some(p)) && p.revision == event.sequence
        case Reader(ViewTail(base)) => PrefixView(exact, history, base)
        case Reader(Viewed(view, at, whole)) =>
          && at <= |history| && PrefixView(exact, history, view) && Revision(view) <= at
          && (whole <==> Revision(view) == at)
        case Replayer(cursor, Replayed(Ok(events), at)) =>
          1 <= limit ==> cursor <= at <= |history| && events == history[cursor..at]
        case _ => true)
  }

  ghost predicate AuthorsOk(s: State) {
    && |s.authors| == |s.history|
    && forall i :: 0 <= i < |s.authors| ==>
         s.authors[i] in s.clients && Placed(s.clients[s.authors[i]]) == Some(s.history[i])
  }

  ghost predicate ClientsOk(exact: bool, s: State)
    requires |s.authors| == |s.history|
  {
    forall id :: id in s.clients ==> ClientOk(exact, s.limit, s.history, s.authors, id, s.clients[id])
  }

  /** With `exact`, every stored or held projection also has the status time its fold gives. */
  ghost predicate Inv(exact: bool, s: State) {
    && LogOk(s.history)
    && TableOk(s.limit, s.events, s.history)
    && PrefixView(exact, s.history, s.row)
    && AuthorsOk(s)
    && ClientsOk(exact, s)
  }

  // ----- Each step keeps the invariant -----

  lemma OneClientMoved(exact: bool, s: State, id: ClientId, client: Client)
    requires Inv(exact, s) && id in s.clients
    requires ClientOk(exact, s.limit, s.history, s.authors, id, client)
    requires Placed(client) == Placed(s.clients[id])
    ensures Inv(exact, s.(clients := s.clients[id := client]))
  {
    hide LogOk, TableOk, PrefixView, ClientOk;
  }

  lemma PreparedFrom(ask: Ask, view: Option<Projection>, watermark: nat)
    ensures var prepared := Prepare(ask, view, watermark);
            prepared.Ok? ==>
              var (event, p) := prepared.value;
              event.sequence == Revision(view) + 1 && (view.None? ==> event.payload.Snapshot?)
              && Extend(view, event) == Some(p) && event.projectedState == p.status && Asked(ask, event)
  {
  }

  lemma PrefixViewOf(exact: bool, history: seq<Event>, shorter: seq<Event>, view: Option<Projection>)
    requires PrefixView(exact, history, view) && shorter <= history && Revision(view) <= |shorter|
    ensures PrefixView(exact, shorter, view)
  {
    hide Fold;
    if view.Some? {
      assert shorter[..view.value.revision] == history[..view.value.revision];
    }
  }

  /** What a writer prepares from any prefix view, under any watermark. */
  lemma PreparedOk(exact: bool, ask: Ask, history: seq<Event>, view: Option<Projection>, watermark: nat)
    requires Numbered(history) && PrefixView(exact, history, view) && (view.None? ==> history == [])
    ensures var prepared := Prepare(ask, view, watermark);
            prepared.Ok? ==> PreparedView(exact, history, prepared.value.0, prepared.value.1) && Asked(ask, prepared.value.0)
  {
    hide Fold, Extend, Prepare;
    PreparedFrom(ask, view, watermark);
    var prepared := Prepare(ask, view, watermark);
    if prepared.Ok? {
      var event, p := prepared.value.0, prepared.value.1;
      var r := Revision(view);
      var front, longer := history[..r], history[..r] + [event];
      PrefixViewOf(exact, history, front, view);
      PrefixViewGrows(exact, front, event, view);
      assert Numbered(longer);
      FoldNextTrails(exact, longer, view, r + 1);
      FoldOneExtends(view, event);
    }
  }

  /** A client that folded a retained tail holds the fold of a prefix, of the whole log exactly when the window was whole. */
  lemma FoldedView(exact: bool, limit: nat, events: map<nat, Event>, history: seq<Event>, base: Option<Projection>)
    requires Numbered(history) && TableOk(limit, events, history) && PrefixView(exact, history, base)
    requires exact ==> Steady(history, events, Revision(base))
    ensures var view := FoldOnto(base, TailAfter(events, Revision(base)));
            && PrefixView(exact, history, view) && Revision(view) <= |history|
            && (Revision(view) == |history| <==> Whole(events, Restart(history, base), |history|))
            && (view.None? ==> history == [])
  {
    hide Fold, FoldOnto, Numbered, Whole, Steady, Restart;
    TailIsCollect(events, history, Revision(base));
    ViewTrails(history, events, base, |history|);
    ViewCoversExactly(limit, history, events, base, |history|);
    if exact {
      SteadyIsExact(limit, history, events, base);
    }
    ViewKnowsTask(limit, history, events, base);
  }

  /** A log that holds anything holds its newest snapshot, so a fold knows its task. */
  lemma ViewKnowsTask(limit: nat, history: seq<Event>, events: map<nat, Event>, base: Option<Projection>)
    requires Fits(history, events, base, |history|) && TableOk(limit, events, history)
    ensures ViewAt(events, base, |history|).None? ==> history == []
  {
    hide Fold, ViewAt, PrefixView;
    if history != [] {
      var newest := NewestSnapshot(history);
      assert history[0].payload.Snapshot?;
      if Revision(base) < newest {
        ViewTrails(history, events, base, newest - 1);
        ViewAtStep(events, base, newest);
        FoldSnapshotTrails(history, ViewAt(events, base, newest - 1), newest);
        ViewStaysKnown(events, base, newest, |history|);
      } else {
        ViewAtStart(events, base);
        ViewStaysKnown(events, base, Revision(base), |history|);
      }
    }
  }

  lemma {:induction false} ViewStaysKnown(events: map<nat, Event>, base: Option<Projection>, from: nat, upTo: nat)
    requires Revision(base) <= from <= upTo && ViewAt(events, base, from).Some?
    ensures ViewAt(events, base, upTo).Some?
    decreases upTo
  {
    hide ViewAt, ApplyEvent;
    if from < upTo {
      ViewStaysKnown(events, base, from, upTo - 1);
      ViewAtStep(events, base, upTo);
    }
  }

  lemma ReadTailKeeps(exact: bool, s: State, id: ClientId, ask: Ask, attempt: nat, base: Option<Projection>)
    requires Inv(exact, s) && id in s.clients && s.clients[id] == Writer(ask, ReadTail(attempt, base))
    requires exact ==> Steady(s.history, s.events, Revision(base))
    ensures Inv(exact, WriteStep(s, id, ask, ReadTail(attempt, base)))
  {
    hide FoldOnto, Fold, TailAfter, Watermark, Prepare, TableOk, Steady, PreparedView, Restart, Whole;
    assert ClientOk(exact, s.limit, s.history, s.authors, id, s.clients[id]);
    LogNumbered(s.history);
    FoldedView(exact, s.limit, s.events, s.history, base);
    var tail := TailAfter(s.events, Revision(base));
    var view, watermark := FoldOnto(base, tail), Watermark(base, tail);
    PreparedOk(exact, ask, s.history, view, watermark);
    hide LogOk, PrefixView;
    OneClientMoved(exact, s, id, Writer(ask, AfterTail(ask, attempt, view, watermark)));
  }

  lemma ConflictKeeps(exact: bool, s: State, id: ClientId, ask: Ask, attempt: nat, event: Event, p: Projection)
    requires Inv(exact, s) && id in s.clients && s.clients[id] == Writer(ask, Insert(attempt, event, p))
    requires event.sequence in s.events
    ensures Inv(exact, WriteStep(s, id, ask, Insert(attempt, event, p)))
  {
    hide Fold, Numbered, LogOk, TableOk, PrefixView, PreparedView;
    assert ClientOk(exact, s.limit, s.history, s.authors, id, s.clients[id]);
    OneClientMoved(exact, s, id, Writer(ask, AfterConflict(attempt)));
  }

  lemma LogGrows(history: seq<Event>, event: Event, p: Projection)
    requires LogOk(history) && PreparedView(false, history, event, p) && event.sequence == |history| + 1
    ensures LogOk(history + [event])
  {
    assert history[..event.sequence - 1] + [event] == history + [event];
    LogExtends(history, event, p);
  }

  lemma LogExtends(history: seq<Event>, event: Event, p: Projection)
    requires LogOk(history) && Numbered(history + [event])
    requires PrefixView(false, history + [event], Some(p)) && p.revision == |history| + 1 && event.projectedState == p.status
    ensures LogOk(history + [event])
  {
    hide Fold;
    var after := history + [event];
    forall i | 0 <= i < |after| ensures Stamped(after, i) {
      if i < |history| {
        assert Stamped(history, i);
        assert after[..i + 1] == history[..i + 1] && after[i] == history[i];
      } else {
        assert after[..i + 1] == after && after[..p.revision] == after;
      }
    }
  }

  lemma SnapshotGrows(history: seq<Event>, event: Event)
    ensures NewestSnapshot(history + [event]) == if event.payload.Snapshot? then |history| + 1 else NewestSnapshot(history)
  {
    assert (history + [event])[..|history|] == history;
  }

  lemma TableGrows(limit: nat, events: map<nat, Event>, history: seq<Event>, event: Event)
    requires TableOk(limit, events, history) && event.sequence == |history| + 1
    ensures TableOk(limit, events[event.sequence := event], history + [event])
  {
    hide NewestSnapshot;
    SnapshotGrows(history, event);
  }

  lemma PrefixViewGrows(exact: bool, history: seq<Event>, event: Event, view: Option<Projection>)
    requires PrefixView(exact, history, view)
    ensures PrefixView(exact, history + [event], view)
  {
    hide Fold;
    if view.Some? {
      assert (history + [event])[..view.value.revision] == history[..view.value.revision];
    }
  }

  lemma ClientGrows(exact: bool, limit: nat, history: seq<Event>, authors: seq<ClientId>, event: Event, author: ClientId,
                    id: ClientId, client: Client)
    requires |authors| == |history| && ClientOk(exact, limit, history, authors, id, client) && id != author
    ensures ClientOk(exact, limit, history + [event], authors + [author], id, client)
  {
    hide Fold, Numbered, PrefixView;
    var after := history + [event];
    match client {
      case Writer(_, ReadTail(_, base)) => PrefixViewGrows(exact, history, event, base);
      case Writer(_, Insert(_, e, _)) => assert after[..e.sequence - 1] == history[..e.sequence - 1];
      case Writer(_, Converge(_, p)) => PrefixViewGrows(exact, history, event, Some(p));
      case Reader(ViewTail(base)) => PrefixViewGrows(exact, history, event, base);
      case Reader(Viewed(view, _, _)) => PrefixViewGrows(exact, history, event, view);
      case Replayer(cursor, Replayed(Ok(_), at)) =>
        if 1 <= limit {
          assert after[cursor..at] == history[cursor..at];
        }
      case _ =>
    }
  }

  lemma AppendKeeps(exact: bool, s: State, id: ClientId, ask: Ask, attempt: nat, event: Event, p: Projection)
    requires Inv(exact, s) && id in s.clients && s.clients[id] == Writer(ask, Insert(attempt, event, p))
    requires event.sequence !in s.events && event.sequence == |s.history| + 1
    ensures Inv(exact, WriteStep(s, id, ask, Insert(attempt, event, p)))
  {
    hide Fold, LogOk, TableOk, PrefixView, ClientOk, Numbered;
    assert ClientOk(exact, s.limit, s.history, s.authors, id, s.clients[id]);
    InsertingClient(exact, s, id, ask, attempt, event, p);
    LogGrows(s.history, event, p);
    TableGrows(s.limit, s.events, s.history, event);
    PrefixViewGrows(exact, s.history, event, s.row);
    var s' := WriteStep(s, id, ask, Insert(attempt, event, p));
    forall other | other in s'.clients
      ensures ClientOk(exact, s'.limit, s'.history, s'.authors, other, s'.clients[other])
    {
      if other != id {
        ClientGrows(exact, s.limit, s.history, s.authors, event, id, other, s.clients[other]);
      }
    }
  }

  lemma InsertingClient(exact: bool, s: State, id: ClientId, ask: Ask, attempt: nat, event: Event, p: Projection)
    requires |s.authors| == |s.history| && event.sequence == |s.history| + 1
    requires ClientOk(exact, s.limit, s.history, s.authors, id, Writer(ask, Insert(attempt, event, p)))
    ensures id !in s.authors && PreparedView(false, s.history, event, p)
    ensures ClientOk(exact, s.limit, s.history + [event], s.authors + [id], id, Writer(ask, Converge(event, p)))
  {
    hide Fold, Numbered;
    assert s.history[..|s.history|] == s.history;
  }

  lemma ConvergeKeeps(exact: bool, s: State, id: ClientId, ask: Ask, event: Event, p: Projection)
    requires Inv(exact, s) && id in s.clients && s.clients[id] == Writer(ask, Converge(event, p))
    ensures Inv(exact, WriteStep(s, id, ask, Converge(event, p)))
  {
    hide Fold, LogOk, TableOk, PrefixView;
    assert ClientOk(exact, s.limit, s.history, s.authors, id, s.clients[id]);
    var s1 := s.(row := Converged(s.row, p));
    assert Inv(exact, s1);
    OneClientMoved(exact, s1, id, Writer(ask, Compact(event)));
  }

  lemma SnapshotKeyIsLast(limit: nat, events: map<nat, Event>, history: seq<Event>)
    requires TableOk(limit, events, history)
    ensures MaxKey(SnapshotKeys(events)) == NewestSnapshot(history)
  {
    var keys := SnapshotKeys(events);
    var last := NewestSnapshot(history);
    if last != 0 {
      assert last in keys;
    }
    if keys != {} {
      var newest := MaxKey(keys);
      assert newest in keys;
      assert history[newest - 1].payload.Snapshot?;
    }
  }

  lemma RetentionKeeps(limit: nat, events: map<nat, Event>, history: seq<Event>)
    requires TableOk(limit, events, history)
    ensures TableOk(limit, Retained(events, limit), history)
  {
    MaxSequenceBound(limit, events, history);
    SnapshotKeyIsLast(limit, events, history);
    hide NewestSnapshot;
  }

  lemma CompactKeeps(exact: bool, s: State, id: ClientId, ask: Ask, event: Event)
    requires Inv(exact, s) && id in s.clients && s.clients[id] == Writer(ask, Compact(event))
    ensures Inv(exact, WriteStep(s, id, ask, Compact(event)))
  {
    hide Fold, LogOk, TableOk, PrefixView;
    assert ClientOk(exact, s.limit, s.history, s.authors, id, s.clients[id]);
    RetentionKeeps(s.limit, s.events, s.history);
    var s1 := s.(events := Retained(s.events, s.limit));
    assert Inv(exact, s1);
    OneClientMoved(exact, s1, id, Writer(ask, Acked(event)));
  }

  lemma WriteKeeps(exact: bool, s: State, id: ClientId)
    requires Inv(exact, s) && id in s.clients && s.clients[id].Writer? && Claims(s, Advance(id))
    requires exact ==> SteadyStep(s, Advance(id))
    ensures Inv(exact, Step(s, Advance(id)))
  {
    hide Inv, WriteStep, Steady;
    var Writer(ask, phase) := s.clients[id];
    match phase {
      case ReadRow(attempt) => ReadRowKeeps(exact, s, id, ask, attempt);
      case ReadTail(attempt, base) => ReadTailKeeps(exact, s, id, ask, attempt, base);
      case Insert(attempt, event, p) =>
        if event.sequence in s.events {
          ConflictKeeps(exact, s, id, ask, attempt, event, p);
        } else {
          AppendKeeps(exact, s, id, ask, attempt, event, p);
        }
      case Converge(event, p) => ConvergeKeeps(exact, s, id, ask, event, p);
      case Compact(event) => CompactKeeps(exact, s, id, ask, event);
      case Acked(_) => IdleWriter(s, id, ask, phase);
      case Refused(_) => IdleWriter(s, id, ask, phase);
      case Errored(_) => IdleWriter(s, id, ask, phase);
    }
  }

  lemma IdleWriter(s: State, id: ClientId, ask: Ask, phase: WritePhase)
    requires phase.Acked? || phase.Refused? || phase.Errored?
    ensures WriteStep(s, id, ask, phase) == s
  {
  }

  lemma FailKeeps(exact: bool, s: State, id: ClientId)
    requires Inv(exact, s) && id in s.clients && s.clients[id].Writer?
    ensures Inv(exact, Step(s, Fail(id)))
  {
    hide LogOk, TableOk, PrefixView, PreparedView;
    assert ClientOk(exact, s.limit, s.history, s.authors, id, s.clients[id]);
    OneClientMoved(exact, s, id, s.clients[id].(write := AfterFailure(s.clients[id].write)));
  }

  lemma ReadRowKeeps(exact: bool, s: State, id: ClientId, ask: Ask, attempt: nat)
    requires Inv(exact, s) && id in s.clients && s.clients[id] == Writer(ask, ReadRow(attempt))
    ensures Inv(exact, WriteStep(s, id, ask, ReadRow(attempt)))
  {
    hide LogOk, TableOk, PrefixView;
    assert ClientOk(exact, s.limit, s.history, s.authors, id, s.clients[id]);
    OneClientMoved(exact, s, id, Writer(ask, ReadTail(attempt, s.row)));
  }

  lemma ViewKeeps(exact: bool, s: State, id: ClientId)
    requires Inv(exact, s) && id in s.clients && s.clients[id].Reader?
    requires exact ==> SteadyStep(s, Advance(id))
    ensures Inv(exact, Step(s, Advance(id)))
  {
    hide LogOk, TableOk, PrefixView, Fold, FoldOnto, TailAfter, Steady, Whole, Restart;
    assert ClientOk(exact, s.limit, s.history, s.authors, id, s.clients[id]);
    match s.clients[id].read {
      case ViewRow => OneClientMoved(exact, s, id, Reader(ViewTail(s.row)));
      case ViewTail(base) =>
        LogNumbered(s.history);
        FoldedView(exact, s.limit, s.events, s.history, base);
        var view := FoldOnto(base, TailAfter(s.events, Revision(base)));
        var whole := Whole(s.events, Restart(s.history, base), |s.history|);
        OneClientMoved(exact, s, id, Reader(Viewed(view, |s.history|, whole)));
      case Viewed(_, _, _) =>
    }
  }

  lemma LogNumbered(history: seq<Event>)
    requires LogOk(history)
    ensures Numbered(history)
  {
  }

  // ----- Replay -----

  lemma {:induction false} CollectMember(events: map<nat, Event>, history: seq<Event>, after: nat, upTo: nat, i: nat)
    requires Numbered(history) && Agrees(events, history)
    requires i < |Collect(events, after, upTo)|
    ensures var e := Collect(events, after, upTo)[i];
            after < e.sequence <= upTo && e.sequence <= |history| && e == history[e.sequence - 1]
    decreases upTo
  {
    if after < upTo && i < |Collect(events, after, upTo - 1)| {
      CollectMember(events, history, after, upTo - 1, i);
    }
  }

  /** While the newest event is retained, a successful replay is exactly the history past its cursor. */
  lemma ReplayCompleteOrRefused(events: map<nat, Event>, history: seq<Event>, cursor: nat)
    requires Numbered(history) && Agrees(events, history) && (history != [] ==> |history| in events)
    ensures ReplayAnswer(events, cursor).Ok? ==>
              cursor <= |history| && ReplayAnswer(events, cursor).value == history[cursor..]
  {
    var tail := TailAfter(events, cursor);
    TailIsCollect(events, history, cursor);
    if ReplayAnswer(events, cursor).Ok? && tail != [] {
      var n := |tail|;
      CollectMember(events, history, cursor, |history|, 0);
      assert tail[n - 1] == history[|history| - 1];
      assert tail[n - 1].sequence == cursor + 1 + (n - 1);
      forall i | 0 <= i < n ensures tail[i] == history[cursor..][i] {
        CollectMember(events, history, cursor, |history|, i);
        assert tail[i].sequence == cursor + 1 + i;
      }
    } else if ReplayAnswer(events, cursor).Ok? {
      EmptyCollect(events, history, cursor);
    }
  }

  lemma EmptyCollect(events: map<nat, Event>, history: seq<Event>, cursor: nat)
    requires cursor == 0 && Collect(events, cursor, |history|) == []
    requires history != [] ==> |history| in events
    ensures history == []
  {
  }

  lemma NewestHeld(limit: nat, events: map<nat, Event>, history: seq<Event>)
    requires 1 <= limit && TableOk(limit, events, history)
    ensures Agrees(events, history) && (history != [] ==> |history| in events)
  {
  }

  lemma ReplayedOk(exact: bool, s: State, id: ClientId, cursor: nat)
    requires Numbered(s.history) && TableOk(s.limit, s.events, s.history) && |s.authors| == |s.history| && id !in s.authors
    ensures ClientOk(exact, s.limit, s.history, s.authors, id, Replayer(cursor, Replayed(ReplayAnswer(s.events, cursor), |s.history|)))
  {
    hide ReplayAnswer, TableOk;
    if 1 <= s.limit {
      NewestHeld(s.limit, s.events, s.history);
      ReplayCompleteOrRefused(s.events, s.history, cursor);
      if cursor <= |s.history| {
        assert s.history[cursor..|s.history|] == s.history[cursor..];
      }
    }
  }

  lemma ReplayKeeps(exact: bool, s: State, id: ClientId)
    requires Inv(exact, s) && id in s.clients && s.clients[id].Replayer?
    ensures Inv(exact, Step(s, Advance(id)))
  {
    hide LogOk, PrefixView, Fold, ReplayAnswer, TableOk;
    assert ClientOk(exact, s.limit, s.history, s.authors, id, s.clients[id]);
    var Replayer(cursor, phase) := s.clients[id];
    match phase {
      case AskKnown =>
        OneClientMoved(exact, s, id, Replayer(cursor, Replayed(Err(InvalidReplayCursor), |s.history|)));
        OneClientMoved(exact, s, id, Replayer(cursor, AskEvents));
      case AskEvents =>
        LogNumbered(s.history);
        ReplayedOk(exact, s, id, cursor);
        hide ClientOk;
        OneClientMoved(exact, s, id, Replayer(cursor, Replayed(ReplayAnswer(s.events, cursor), |s.history|)));
      case Replayed(_, _) =>
    }
  }

  // ----- All runs -----

  lemma StartKeeps(exact: bool, s: State, id: ClientId, client: Client)
    requires Inv(exact, s)
    requires client.Writer? ==> client.write.ReadRow?
    requires client.Reader? ==> client.read.ViewRow?
    requires client.Replayer? ==> client.replay.AskKnown?
    ensures Inv(exact, Started(s, id, client))
  {
    hide LogOk, TableOk, PrefixView;
    if id !in s.clients {
      assert ClientOk(exact, s.limit, s.history, s.authors, id, client);
    }
  }

  lemma StepKeeps(exact: bool, s: State, a: Action)
    requires Inv(exact, s) && Claims(s, a) && (exact ==> SteadyStep(s, a))
    ensures Inv(exact, Step(s, a))
  {
    hide Inv, Started, WriteStep, ViewStep, ReplayStep, Claims, SteadyStep;
    match a {
      case StartWriter(id, ask) => StartKeeps(exact, s, id, Writer(ask, ReadRow(0)));
      case StartReader(id) => StartKeeps(exact, s, id, Reader(ViewRow));
      case StartReplay(id, cursor) => StartKeeps(exact, s, id, Replayer(cursor, AskKnown));
      case Advance(id) =>
        if id in s.clients {
          match s.clients[id] {
            case Writer(_, _) => WriteKeeps(exact, s, id);
            case Reader(_) => ViewKeeps(exact, s, id);
            case Replayer(_, _) => ReplayKeeps(exact, s, id);
          }
        }
      case Fail(id) =>
        if id in s.clients && s.clients[id].Writer? {
          FailKeeps(exact, s, id);
        }
    }
  }

  lemma InitOk(limit: nat)
    ensures Inv(true, Init(limit)) && Inv(false, Init(limit))
  {
  }

  lemma {:induction false} RunKeeps(exact: bool, limit: nat, actions: seq<Action>)
    requires SafeRun(limit, actions) && (exact ==> SteadyRun(limit, actions))
    ensures Inv(exact, Exec(limit, actions))
    decreases |actions|
  {
    hide Inv, Step, Claims, SteadyStep;
    if actions == [] {
      InitOk(limit);
    } else {
      var front := actions[..|actions| - 1];
      assert forall n :: 0 <= n < |front| ==> front[..n] == actions[..n] && front[n] == actions[n];
      RunKeeps(exact, limit, front);
      assert Claims(Exec(limit, actions[..|actions| - 1]), actions[|actions| - 1]);
      StepKeeps(exact, Exec(limit, front), actions[|actions| - 1]);
    }
  }

  /** Whatever the interleaving, wherever clients stop and however far they fall behind, as long as writers claim only
      held or next sequences: every event sits once, at its own sequence, with the status its prefix folds to; the
      row is the fold of the history up to its revision, in a run whose folds never restart at a backdated snapshot
      with the exact status time too; the table agrees with the history, holds its last `limit` events and its newest
      snapshot. */
  lemma LogIsSequential(limit: nat, actions: seq<Action>)
    requires SafeRun(limit, actions)
    ensures var s := Exec(limit, actions);
            LogOk(s.history) && PrefixView(SteadyRun(limit, actions), s.history, s.row) && TableOk(s.limit, s.events, s.history)
  {
    hide LogOk, PrefixView, TableOk, Exec, SafeRun, SteadyRun, AuthorsOk, ClientsOk;
    RunKeeps(SteadyRun(limit, actions), limit, actions);
  }

  /** An append's own event, with the payload and time it asked for, is at its sequence and nowhere else. */
  ghost predicate InsertedOnce(s: State, id: ClientId, ask: Ask, event: Event) {
    && |s.authors| == |s.history| && 1 <= event.sequence <= |s.history| && s.history[event.sequence - 1] == event
    && event.tenant == ask.tenant && event.taskId == ask.taskId && event.contextId == ask.contextId
    && event.occurredAt == ask.occurredAt && event.payload == ask.payload
    && forall i :: 0 <= i < |s.authors| ==> (s.authors[i] == id <==> i == event.sequence - 1)
  }

  /** An acknowledged append is in the history exactly once, where its sequence says, as it was asked for; an append that
      was refused, or gave up under contention, is nowhere in it; one answered with a failed statement's error is in it,
      exactly once, if it had inserted its event by then, and nowhere otherwise. */
  lemma AppendsExactlyOnce(limit: nat, actions: seq<Action>, id: ClientId)
    requires SafeRun(limit, actions)
    requires id in Exec(limit, actions).clients && Exec(limit, actions).clients[id].Writer?
    ensures var s := Exec(limit, actions);
            var Writer(ask, write) := s.clients[id];
            match write
            case Acked(event) => InsertedOnce(s, id, ask, event)
            case Refused(_) => id !in s.authors
            case Errored(Some(event)) => InsertedOnce(s, id, ask, event)
            case Errored(None) => id !in s.authors
            case _ => true
  {
    hide Fold, Exec, SafeRun, PrefixView, TableOk, LogOk, PreparedView;
    RunKeeps(false, limit, actions);
    var s := Exec(limit, actions);
    assert ClientOk(false, s.limit, s.history, s.authors, id, s.clients[id]);
    if Placed(s.clients[id]).Some? {
      LogNumbered(s.history);
      forall i | 0 <= i < |s.authors| && s.authors[i] == id ensures i == Placed(s.clients[id]).value.sequence - 1 {
        assert Placed(s.clients[s.authors[i]]) == Some(s.history[i]);
      }
    }
  }

  /** When the statement of an append under way fails, the error reports an append that is in the history if and only if
      what failed came after the insert: the row's update, or the compaction. */
  lemma ErrorLeavesEventExactly(limit: nat, actions: seq<Action>, id: ClientId)
    requires SafeRun(limit, actions)
    requires id in Exec(limit, actions).clients && Exec(limit, actions).clients[id].Writer?
    requires var write := Exec(limit, actions).clients[id].write; !write.Acked? && !write.Refused? && !write.Errored?
    ensures var before, after := Exec(limit, actions), Exec(limit, actions + [Fail(id)]);
            && SafeRun(limit, actions + [Fail(id)]) && after == before.(clients := after.clients)
            && id in after.clients && after.clients[id].Writer? && after.clients[id].write.Errored?
            && (id in after.authors <==> before.clients[id].write.Converge? || before.clients[id].write.Compact?)
  {
    hide Fold, PrefixView, TableOk, LogOk, PreparedView, Run;
    var longer := actions + [Fail(id)];
    assert longer[..|actions|] == actions;
    assert Exec(limit, longer) == Step(Exec(limit, actions), Fail(id)) by { RunLast(Init(limit), longer); }
    SafeThroughFailure(limit, actions, id);
    AppendsExactlyOnce(limit, longer, id);
    var after := Exec(limit, longer);
    if after.clients[id].write.placed.Some? {
      assert after.authors[after.clients[id].write.placed.value.sequence - 1] == id;
    }
  }

  lemma RunLast(s: State, actions: seq<Action>)
    requires actions != []
    ensures Run(s, actions) == Step(Run(s, actions[..|actions| - 1]), actions[|actions| - 1])
  {
  }

  lemma SafeThroughFailure(limit: nat, actions: seq<Action>, id: ClientId)
    requires SafeRun(limit, actions)
    ensures SafeRun(limit, actions + [Fail(id)])
  {
    hide Exec;
    var longer := actions + [Fail(id)];
    forall n | 0 <= n < |longer| ensures Claims(Exec(limit, longer[..n]), longer[n]) {
      if n < |actions| {
        assert longer[..n] == actions[..n];
        assert Claims(Exec(limit, actions[..n]), actions[n]);
      }
    }
  }

  /** A finished read is the fold of a prefix of the history, and of all of it as of its tail read exactly when nothing
      it needed was missing then; a finished replay, with at least one event retained, is the history past its cursor
      without a gap, or a refusal. */
  lemma ReadsAreFolds(limit: nat, actions: seq<Action>, id: ClientId)
    requires SafeRun(limit, actions) && id in Exec(limit, actions).clients
    ensures var s := Exec(limit, actions);
            match s.clients[id]
            case Reader(Viewed(view, at, whole)) =>
              && Revision(view) <= at <= |s.history| && (whole <==> Revision(view) == at)
              && PrefixView(SteadyRun(limit, actions), s.history, view)
            case Replayer(cursor, Replayed(Ok(events), at)) =>
              1 <= s.limit ==> cursor <= at <= |s.history| && events == s.history[cursor..at]
            case _ => true
  {
    hide Fold, Exec, SafeRun, SteadyRun, PrefixView;
    RunKeeps(SteadyRun(limit, actions), limit, actions);
    var s := Exec(limit, actions);
    assert ClientOk(SteadyRun(limit, actions), s.limit, s.history, s.authors, id, s.clients[id]);
  }

  /** The history only ever grows, so a prefix once read stays a prefix. */
  lemma HistoryGrows(s: State, a: Action)
    ensures s.history <= Step(s, a).history && |Step(s, a).history| <= |s.history| + 1
  {
    hide Whole, Restart;
  }

  // ----- A bound on lag that suffices -----

  /** A client folds a tail or claims a sequence only while the log is at most `limit` events past what it read. */
  ghost predicate Timely(s: State, a: Action) {
    a.Advance? && a.id in s.clients ==>
      match s.clients[a.id]
      case Writer(_, ReadTail(_, base)) => |s.history| <= Revision(base) + s.limit
      case Writer(_, Insert(_, event, _)) => |s.history| < event.sequence + s.limit
      case Reader(ViewTail(base)) => |s.history| <= Revision(base) + s.limit
      case _ => true
  }

  lemma WindowWithinBound(limit: nat, events: map<nat, Event>, history: seq<Event>, after: nat)
    requires TableOk(limit, events, history) && |history| <= after + limit
    ensures Whole(events, after, |history|) && Steady(history, events, after)
  {
    hide Backdated;
    assert NewestSnapshot(history) <= |history|;
  }

  /** A client within the retention bound is safe and steady, and its window is whole. */
  lemma TimelyIsSafe(s: State, a: Action)
    requires Inv(false, s) && Timely(s, a)
    ensures Claims(s, a) && SteadyStep(s, a)
    ensures a.Advance? && a.id in s.clients ==>
              match s.clients[a.id]
              case Reader(ViewTail(base)) => Whole(s.events, Revision(base), |s.history|)
              case _ => true
  {
    hide LogOk, PrefixView, Steady, Whole, NewestSnapshot;
    if a.Advance? && a.id in s.clients {
      assert ClientOk(false, s.limit, s.history, s.authors, a.id, s.clients[a.id]);
      match s.clients[a.id] {
        case Writer(_, ReadTail(_, base)) => WindowWithinBound(s.limit, s.events, s.history, Revision(base));
        case Reader(ViewTail(base)) => WindowWithinBound(s.limit, s.events, s.history, Revision(base));
        case _ =>
      }
    }
  }

  ghost predicate TimelyRun(limit: nat, actions: seq<Action>) {
    forall n :: 0 <= n < |actions| ==> Timely(Exec(limit, actions[..n]), actions[n])
  }

  /** Hence a run of clients that stay within the retention bound is safe and steady throughout. */
  lemma {:induction false} TimelyRunIsSafe(limit: nat, actions: seq<Action>)
    requires TimelyRun(limit, actions)
    ensures SafeRun(limit, actions) && SteadyRun(limit, actions)
    decreases |actions|
  {
    hide Exec, Timely, Claims, SteadyStep;
    if actions != [] {
      var front := actions[..|actions| - 1];
      assert forall n :: 0 <= n < |front| ==> front[..n] == actions[..n] && front[n] == actions[n];
      TimelyRunIsSafe(limit, front);
      RunKeeps(false, limit, front);
      TimelyIsSafe(Exec(limit, front), actions[|actions| - 1]);
      forall n | 0 <= n < |actions| ensures Claims(Exec(limit, actions[..n]), actions[n]) && SteadyStep(Exec(limit, actions[..n]), actions[n]) {
        if n < |front| {
          assert Claims(Exec(limit, front[..n]), front[n]) && SteadyStep(Exec(limit, front[..n]), front[n]);
        }
      }
    }
  }
}
