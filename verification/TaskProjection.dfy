/** The A2A task read model: projections, ordered task events, and the fold that relates them. */
module TaskProjection {
  import opened Common

  const DEFAULT_HISTORY_LIMIT: nat := 20
  const DEFAULT_ARTIFACT_LIMIT: nat := 20
  const META_PROJECTION_REVISION: string := "io.rakka.projection.revision"

  type Message = int
  type Artifact = int
  type Timestamp = nat

  datatype TaskState =
    | Unspecified | Submitted | Working | InputRequired | AuthRequired
    | Completed | Failed | Canceled | Rejected

  /** The protocol's terminal states. */
  predicate IsTerminal(state: TaskState) {
    state.Completed? || state.Failed? || state.Canceled? || state.Rejected?
  }

  datatype MetaValue = Number(n: nat) | Text(text: string)

  datatype Projection = Projection(
    taskId: string, contextId: string, tenant: string, workflowId: string,
    status: TaskState, statusTimestamp: Timestamp,
    history: seq<Message>, artifacts: seq<Artifact>, metadata: map<string, MetaValue>, revision: nat)

  datatype Payload =
    | Snapshot(projection: Projection)
    | StatusUpdate(state: TaskState)
    | ArtifactUpdate(artifact: Artifact)
    | MessageUpdate(message: Message)
    | Terminal(state: TaskState)

  datatype Event = Event(tenant: string, taskId: string, contextId: string, sequence: nat,
                         occurredAt: Timestamp, projectedState: TaskState, payload: Payload)

  datatype TaskError =
    | InvalidReplayCursor | ReplayWindowExpired | TaskNotFound | EventOrder | Contention

  /** `cap_front`: keeps the newest `limit` entries. */
  function CapFront<T>(values: seq<T>, limit: nat): seq<T> {
    if |values| > limit then values[|values| - limit..] else values
  }

  /** The public status never regresses. */
  predicate StatusTransitionAllowed(current: TaskState, next: TaskState) {
    next == current
    || ((next != Submitted || current == Submitted) && (!IsTerminal(current) || IsTerminal(next)))
  }

  /** `adopted_snapshot`: the event owns revision and timestamp. */
  function Adopted(snapshot: Projection, event: Event): Projection {
    snapshot.(statusTimestamp := event.occurredAt, revision := event.sequence,
              metadata := snapshot.metadata[META_PROJECTION_REVISION := Number(event.sequence)])
  }

  /** `A2ATaskProjection::apply_event`. */
  function ApplyEvent(p: Projection, event: Event): Result<Projection, TaskError> {
    if event.sequence != p.revision + 1 then Err(EventOrder)
    else
      var stamped := p.(statusTimestamp := Max(p.statusTimestamp, event.occurredAt), revision := event.sequence,
                        metadata := p.metadata[META_PROJECTION_REVISION := Number(event.sequence)]);
      Ok(match event.payload
         case Snapshot(task) =>
           var adopted := Adopted(task, event);
           adopted.(statusTimestamp := Max(adopted.statusTimestamp, stamped.statusTimestamp))
         case StatusUpdate(state) =>
           if StatusTransitionAllowed(p.status, state) then stamped.(status := state) else stamped
         case Terminal(state) =>
           if StatusTransitionAllowed(p.status, state) then stamped.(status := state) else stamped
         case ArtifactUpdate(artifact) =>
           stamped.(artifacts := CapFront(p.artifacts + [artifact], DEFAULT_ARTIFACT_LIMIT))
         case MessageUpdate(message) =>
           stamped.(history := CapFront(p.history + [message], DEFAULT_HISTORY_LIMIT)))
  }

  /** The index of the newest snapshot. */
  function LastSnapshot(es: seq<Event>): (r: Option<nat>)
    ensures r.Some? ==> r.value < |es| && es[r.value].payload.Snapshot? && forall i :: r.value < i < |es| ==> !es[i].payload.Snapshot?
    ensures r.None? ==> forall i :: 0 <= i < |es| ==> !es[i].payload.Snapshot?
  {
    if es == [] then None
    else if es[|es| - 1].payload.Snapshot? then Some(|es| - 1)
    else LastSnapshot(es[..|es| - 1])
  }

  /** What one event makes of the view before it: only a snapshot bootstraps an unknown task. */
  function Extend(view: Option<Projection>, event: Event): Option<Projection> {
    match view
    case Some(p) => (match ApplyEvent(p, event)
                     case Ok(next) => Some(next)
                     case Err(_) => view)
    case None => if event.payload.Snapshot? then Some(Adopted(event.payload.projection, event)) else None
  }

  /** The sequential meaning of an event history. */
  function Fold(history: seq<Event>): Option<Projection> {
    if history == [] then None else Extend(Fold(history[..|history| - 1]), history[|history| - 1])
  }

  function Revision(view: Option<Projection>): nat {
    match view
    case Some(p) => p.revision
    case None => 0
  }

  /** A history a single sequential writer could have produced: numbered from one, bootstrapped by a snapshot. */
  ghost predicate Numbered(history: seq<Event>) {
    && (forall i :: 0 <= i < |history| ==> history[i].sequence == i + 1)
    && (history != [] ==> history[0].payload.Snapshot?)
  }

  lemma {:induction false} FoldOfNumbered(history: seq<Event>)
    requires Numbered(history)
    ensures Fold(history).None? <==> history == []
    ensures Revision(Fold(history)) == |history|
  {
    if history != [] {
      FoldOfNumbered(history[..|history| - 1]);
    }
  }

  lemma NumberedPrefix(history: seq<Event>, n: nat)
    requires Numbered(history) && n <= |history|
    ensures Numbered(history[..n])
  {
  }

  lemma FoldOfPrefix(history: seq<Event>, n: nat)
    requires Numbered(history) && n <= |history|
    ensures Numbered(history[..n])
    ensures Fold(history[..n]).None? <==> n == 0
    ensures Revision(Fold(history[..n])) == n
  {
    NumberedPrefix(history, n);
    FoldOfNumbered(history[..n]);
  }

  lemma FoldStep(history: seq<Event>, n: nat)
    requires n < |history|
    ensures Fold(history[..n + 1]) == Extend(Fold(history[..n]), history[n])
  {
    assert history[..n + 1][..n] == history[..n];
  }

  lemma FoldAppend(history: seq<Event>, event: Event)
    ensures Fold(history + [event]) == Extend(Fold(history), event)
  {
    assert (history + [event])[..|history|] == history;
  }

  /** The status time of a projection never moves backward, re-snapshots included. */
  lemma ApplyKeepsTimeForward(p: Projection, event: Event)
    ensures ApplyEvent(p, event).Ok? ==>
              p.statusTimestamp <= ApplyEvent(p, event).value.statusTimestamp
              && event.occurredAt <= ApplyEvent(p, event).value.statusTimestamp
  {
  }

  /** A later status does not go back: not to `Submitted`, and not out of a terminal state. */
  predicate NoRegression(before: TaskState, after: TaskState) {
    (before != Submitted ==> after != Submitted) && (IsTerminal(before) ==> IsTerminal(after))
  }

  ghost predicate NoSnapshots(history: seq<Event>, from: nat, upTo: nat)
    requires upTo <= |history|
  {
    forall i :: from <= i < upTo ==> !history[i].payload.Snapshot?
  }

  lemma ApplyNeverRegresses(p: Projection, event: Event)
    requires event.sequence == p.revision + 1 && !event.payload.Snapshot?
    ensures ApplyEvent(p, event).Ok? && NoRegression(p.status, ApplyEvent(p, event).value.status)
  {
    hide CapFront;
  }

  /** The public status never regresses between snapshots, whatever status events the log holds. */
  lemma {:induction false} StatusNeverRegresses(history: seq<Event>, from: nat, upTo: nat)
    requires Numbered(history) && 1 <= from <= upTo <= |history| && NoSnapshots(history, from, upTo)
    ensures Fold(history[..from]).Some? && Fold(history[..upTo]).Some?
    ensures NoRegression(Fold(history[..from]).value.status, Fold(history[..upTo]).value.status)
    decreases upTo
  {
    hide Fold, ApplyEvent, IsTerminal;
    FoldOfPrefix(history, from);
    if from < upTo {
      StatusNeverRegresses(history, from, upTo - 1);
      FoldStep(history, upTo - 1);
      FoldOfPrefix(history, upTo - 1);
      ApplyNeverRegresses(Fold(history[..upTo - 1]).value, history[upTo - 1]);
    }
  }

  /** A new snapshot overrides: it may carry any status, whatever the projection showed. */
  lemma SnapshotOverrides(history: seq<Event>, event: Event)
    requires Numbered(history) && history != [] && event.sequence == |history| + 1 && event.payload.Snapshot?
    ensures Fold(history + [event]).Some? && Fold(history + [event]).value.status == event.payload.projection.status
  {
    FoldAppend(history, event);
    FoldOfNumbered(history);
  }

  // ----- Folding a tail onto a stored row -----

  /** One event of `fold_events`: ordered events apply, anything else only bootstraps through a snapshot. */
  function FoldOne(current: Option<Projection>, event: Event): Option<Projection> {
    if current.Some? && event.sequence == current.value.revision + 1 then Extend(current, event)
    else if event.payload.Snapshot? then Some(Adopted(event.payload.projection, event))
    else current
  }

  function FoldOnto(base: Option<Projection>, tail: seq<Event>): Option<Projection> {
    if tail == [] then base else FoldOne(FoldOnto(base, tail[..|tail| - 1]), tail[|tail| - 1])
  }

  /** `fold_events`. */
  method FoldEvents(base: Option<Projection>, tail: seq<Event>) returns (current: Option<Projection>)
    ensures current == FoldOnto(base, tail)
  {
    current := base;
    for i := 0 to |tail|
      invariant current == FoldOnto(base, tail[..i])
    {
      assert tail[..i + 1][..i] == tail[..i];
      var event := tail[i];
      match current {
        case Some(p) =>
          if event.sequence == p.revision + 1 {
            var applied := ApplyEvent(p, event);
            if applied.Ok? {
              current := Some(applied.value);
            }
          } else if event.payload.Snapshot? {
            current := Some(Adopted(event.payload.projection, event));
          }
        case None =>
          if event.payload.Snapshot? {
            current := Some(Adopted(event.payload.projection, event));
          }
      }
    }
    assert tail[..|tail|] == tail;
  }

  lemma FoldOneExtends(view: Option<Projection>, event: Event)
    requires event.sequence == Revision(view) + 1
    ensures FoldOne(view, event) == Extend(view, event)
  {
  }

  /** Folding the missing tail onto any stored prefix heals it to the whole history. */
  lemma {:induction false} FoldHeals(history: seq<Event>, stored: nat, n: nat)
    requires Numbered(history) && stored <= n <= |history|
    ensures FoldOnto(Fold(history[..stored]), history[stored..n]) == Fold(history[..n])
    decreases n
  {
    hide Fold, FoldOne, Extend;
    if stored < n {
      FoldHeals(history, stored, n - 1);
      FoldOfPrefix(history, n - 1);
      FoldOneExtends(Fold(history[..n - 1]), history[n - 1]);
      var tail := history[stored..n];
      assert tail[..|tail| - 1] == history[stored..n - 1];
      FoldStep(history, n - 1);
    } else {
      assert history[stored..n] == [];
    }
  }
}
