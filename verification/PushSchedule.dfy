/** Scheduling push notifications for one task: schedulers resume from a volatile watermark over its log,
    offer every new event to every active config, and advance the watermark; their steps, failures and retries
    interleave with appends, config changes and watermark resets. */
module PushSchedule {
  import opened CursorText

  const MAX_PUSH_SCHEDULE_REDRIVES: nat := 3

  type ConfigId = string

  /** The log's length and the active configs at one moment. */
  datatype Moment = Moment(length: nat, active: seq<ConfigId>)

  /** One notification: an event's sequence and the config it goes to. */
  datatype Effect = Effect(sequence: nat, config: ConfigId)

  /** Where a scheduler stands: the watermark it started from and the sequences it is to offer; `seen` is which read of
      the configs it made; `event` and `config` are the next pair of the batch. */
  datatype Scheduler =
    | ReadWatermark
    | ReplayLog(base: nat)
    | ReadConfigs(base: nat, events: seq<nat>)
    | OfferBatch(base: nat, events: seq<nat>, configs: seq<ConfigId>, seen: nat, event: nat, config: nat, attempts: nat)
    | RecordWatermark(base: nat, events: seq<nat>, seen: nat)
    | Returned

  /** The log and configs as they are, and as they were at each moment a scheduler read the configs. */
  datatype State = State(taskId: string, now: Moment, looks: seq<Moment>, watermark: nat,
                         outbox: map<string, Effect>, schedulers: map<nat, Scheduler>)

  function Start(taskId: string): State {
    State(taskId, Moment(0, []), [], 0, map[], map[])
  }

  datatype Action =
    | Append
    | SetConfigs(active: seq<ConfigId>)
    | ResetWatermark
    | Begin(id: nat)
    | Advance(id: nat)
    | RefuseReplay(id: nat, emitted: seq<nat>)
    | FailBatch(id: nat, conflict: bool)

  /** The outbox keeps the first effect offered under a key. */
  function Offered(taskId: string, outbox: map<string, Effect>, effect: Effect): map<string, Effect> {
    var key := PushKey(taskId, effect.sequence, effect.config);
    if key in outbox then outbox else outbox[key := effect]
  }

  /** The sequences past a cursor. */
  function Past(cursor: nat, length: nat): seq<nat>
    requires cursor <= length
  {
    seq(length - cursor, i => cursor + 1 + i)
  }

  function Last(events: seq<nat>): nat {
    if events == [] then 0 else events[|events| - 1]
  }

  /** Sequences of a log of some length, in the order one caller's appends got them. */
  predicate OfLog(events: seq<nat>, length: nat) {
    && (forall i :: 0 <= i < |events| ==> 1 <= events[i] <= length)
    && (forall i, j :: 0 <= i < j < |events| ==> events[i] < events[j])
  }

  function NextStep(s: State, scheduler: Scheduler): (State, Scheduler) {
    match scheduler
    case ReadWatermark => (s, ReplayLog(s.watermark))
    case ReplayLog(base) =>
      if base >= s.now.length then (s, Returned) else (s, ReadConfigs(base, Past(base, s.now.length)))
    case ReadConfigs(base, events) =>
      (s.(looks := s.looks + [s.now]), OfferBatch(base, events, s.now.active, |s.looks|, 0, 0, 0))
    case OfferBatch(base, events, configs, seen, event, config, attempts) =>
      if event >= |events| then (s, RecordWatermark(base, events, seen))
      else if config >= |configs| then (s, scheduler.(event := event + 1, config := 0))
      else (s.(outbox := Offered(s.taskId, s.outbox, Effect(events[event], configs[config]))), scheduler.(config := config + 1))
    case RecordWatermark(_, events, _) => (s.(watermark := Last(events)), Returned)
    case Returned => (s, Returned)
  }

  function Step(s: State, a: Action): State {
    match a
    case Append => s.(now := s.now.(length := s.now.length + 1))
    case SetConfigs(active) => s.(now := s.now.(active := active))
    case ResetWatermark => s.(watermark := 0)
    case Begin(id) => s.(schedulers := s.schedulers[id := ReadWatermark])
    case Advance(id) =>
      if id !in s.schedulers then s
      else
        var (after, scheduler) := NextStep(s, s.schedulers[id]);
        after.(schedulers := s.schedulers[id := scheduler])
    case RefuseReplay(id, emitted) =>
      // The log cannot resume from the watermark: the caller's newly emitted events are scheduled instead.
      if id !in s.schedulers || !s.schedulers[id].ReplayLog? || !OfLog(emitted, s.now.length) then s
      else s.(schedulers := s.schedulers[id := if emitted == [] then Returned else ReadConfigs(s.schedulers[id].base, emitted)])
    case FailBatch(id, conflict) =>
      if id !in s.schedulers || !s.schedulers[id].OfferBatch? then s
      else
        var batch := s.schedulers[id];
        s.(schedulers := s.schedulers[id :=
             if conflict && batch.attempts < MAX_PUSH_SCHEDULE_REDRIVES
             then batch.(event := 0, config := 0, attempts := batch.attempts + 1)
             else Returned])
  }

  /** A sequence between a watermark and the last of some events that is not one of them: other callers' appends
      may lie between one caller's. */
  predicate Skipped(base: nat, events: seq<nat>, k: nat) {
    base < k <= Last(events) && k !in events
  }

  /** Every sequence from the one after a watermark to the last of some events is among them. */
  ghost predicate Continues(base: nat, events: seq<nat>) {
    forall k: nat :: !Skipped(base, events, k)
  }

  /** Replay resumes from the watermark, or the newly emitted events continue from it. */
  ghost predicate Resumes(s: State, a: Action) {
    a.RefuseReplay? && a.id in s.schedulers && s.schedulers[a.id].ReplayLog? ==> Continues(s.schedulers[a.id].base, a.emitted)
  }

  function Exec(taskId: string, actions: seq<Action>): State {
    if actions == [] then Start(taskId) else Step(Exec(taskId, actions[..|actions| - 1]), actions[|actions| - 1])
  }

  ghost predicate ResumingRun(taskId: string, actions: seq<Action>) {
    actions == [] ||
    (ResumingRun(taskId, actions[..|actions| - 1])
     && Resumes(Exec(taskId, actions[..|actions| - 1]), actions[|actions| - 1]))
  }

  // ----- The invariant -----

  predicate InOutbox(s: State, sequence: nat, config: ConfigId) {
    var key := PushKey(s.taskId, sequence, config);
    key in s.outbox && s.outbox[key] == Effect(sequence, config)
  }

  /** The event existed at a moment, and every config active then has been offered it. */
  ghost predicate CoveredBy(s: State, sequence: nat, moment: Moment) {
    sequence <= moment.length && forall c :: c in moment.active ==> InOutbox(s, sequence, c)
  }

  /** The event was offered to every config that a scheduler found active at a moment at which the event existed. */
  ghost predicate Covered(s: State, sequence: nat) {
    exists t :: 0 <= t < |s.looks| && CoveredBy(s, sequence, s.looks[t])
  }

  ghost predicate CoveredUpTo(s: State, n: nat) {
    forall k :: 1 <= k <= n ==> Covered(s, k)
  }

  /** Every effect sits under its own key, so no pair is ever taken for another. */
  ghost predicate OutboxOk(s: State) {
    forall key :: key in s.outbox ==> key == PushKey(s.taskId, s.outbox[key].sequence, s.outbox[key].config)
  }

  /** The batch has offered its pairs up to the one it stands at. */
  ghost predicate BatchOk(s: State, events: seq<nat>, configs: seq<ConfigId>, seen: nat, event: nat, config: nat) {
    && seen < |s.looks| && s.looks[seen].active == configs && OfLog(events, s.looks[seen].length) && events != []
    && event <= |events| && config <= |configs|
    && (forall i, c :: 0 <= i < event && c in configs ==> InOutbox(s, events[i], c))
    && (event < |events| ==> forall i :: 0 <= i < config ==> InOutbox(s, events[event], configs[i]))
  }

  /** What a scheduler has done, apart from where it started. */
  ghost predicate WorkOk(s: State, scheduler: Scheduler) {
    match scheduler
    case ReadConfigs(_, events) => OfLog(events, s.now.length) && events != []
    case OfferBatch(_, events, configs, seen, event, config, _) => BatchOk(s, events, configs, seen, event, config)
    case RecordWatermark(_, events, seen) =>
      && seen < |s.looks| && OfLog(events, s.looks[seen].length) && events != []
      && forall i, c :: 0 <= i < |events| && c in s.looks[seen].active ==> InOutbox(s, events[i], c)
    case _ => true
  }

  /** Where a scheduler started from. */
  function Base(scheduler: Scheduler): nat {
    match scheduler
    case ReadWatermark => 0
    case Returned => 0
    case _ => scheduler.base
  }

  /** What a scheduler is to offer. */
  function Batch(scheduler: Scheduler): seq<nat> {
    match scheduler
    case ReadConfigs(_, events) => events
    case OfferBatch(_, events, _, _, _, _, _) => events
    case RecordWatermark(_, events, _) => events
    case _ => []
  }

  ghost predicate Working(s: State) {
    && OutboxOk(s)
    && forall id :: id in s.schedulers ==> WorkOk(s, s.schedulers[id])
  }

  /** A scheduler started where everything before is covered, and skips nothing from there. */
  ghost predicate StartOk(s: State, scheduler: Scheduler) {
    CoveredUpTo(s, Base(scheduler)) && Continues(Base(scheduler), Batch(scheduler))
  }

  ghost predicate Inv(s: State) {
    && Working(s) && CoveredUpTo(s, s.watermark)
    && forall id :: id in s.schedulers ==> StartOk(s, s.schedulers[id])
  }

  /** Later states keep moments and outbox entries. */
  ghost predicate Later(s: State, after: State) {
    && after.taskId == s.taskId && s.looks <= after.looks && s.now.length <= after.now.length
    && forall key :: key in s.outbox ==> key in after.outbox && after.outbox[key] == s.outbox[key]
  }

  lemma CoveredStays(s: State, after: State, n: nat)
    requires Later(s, after) && CoveredUpTo(s, n)
    ensures CoveredUpTo(after, n)
  {
    hide PushKey;
    forall k | 1 <= k <= n ensures Covered(after, k) {
      assert Covered(s, k);
      var t :| 0 <= t < |s.looks| && CoveredBy(s, k, s.looks[t]);
      assert after.looks[t] == s.looks[t];
      assert CoveredBy(after, k, after.looks[t]);
    }
  }

  lemma WorkStays(s: State, after: State, scheduler: Scheduler)
    requires Later(s, after) && WorkOk(s, scheduler)
    ensures WorkOk(after, scheduler)
  {
    hide PushKey;
    match scheduler {
      case OfferBatch(_, events, configs, seen, event, config, _) =>
        BatchStays(s, after, events, configs, seen, event, config);
      case RecordWatermark(_, events, seen) =>
        forall i, c | 0 <= i < |events| && c in s.looks[seen].active ensures InOutbox(after, events[i], c) {
          assert InOutbox(s, events[i], c);
        }
      case _ =>
    }
  }

  lemma BatchStays(s: State, after: State, events: seq<nat>, configs: seq<ConfigId>, seen: nat, event: nat, config: nat)
    requires Later(s, after) && BatchOk(s, events, configs, seen, event, config)
    ensures BatchOk(after, events, configs, seen, event, config)
  {
    hide PushKey, OfLog;
    assert after.looks[seen] == s.looks[seen];
    forall i, c | 0 <= i < event && c in configs ensures InOutbox(after, events[i], c) {
      assert InOutbox(s, events[i], c);
    }
    if event < |events| {
      forall i | 0 <= i < config ensures InOutbox(after, events[event], configs[i]) {
        assert InOutbox(s, events[event], configs[i]);
      }
    }
  }

  lemma StepIsLater(s: State, a: Action)
    ensures Later(s, Step(s, a))
  {
    hide PushKey;
  }

  lemma OfferKeeps(s: State, effect: Effect)
    requires OutboxOk(s)
    ensures var after := s.(outbox := Offered(s.taskId, s.outbox, effect));
            OutboxOk(after) && InOutbox(after, effect.sequence, effect.config)
  {
    hide PushKey;
    var key := PushKey(s.taskId, effect.sequence, effect.config);
    if key in s.outbox {
      PushKeyInjective(s.taskId, s.outbox[key].sequence, s.outbox[key].config, effect.sequence, effect.config);
    }
  }

  // ----- Steps -----

  /** The acting scheduler's own next state. */
  lemma NextStepOk(s: State, id: nat)
    requires Working(s) && id in s.schedulers
    ensures var (after, scheduler) := NextStep(s, s.schedulers[id]);
            OutboxOk(after) && WorkOk(after, scheduler)
  {
    hide PushKey, OfLog;
    var (after, scheduler) := NextStep(s, s.schedulers[id]);
    assert WorkOk(s, s.schedulers[id]);
    match s.schedulers[id] {
      case ReplayLog(base) =>
        if base < s.now.length {
          PastOfLog(base, s.now.length);
        }
      case OfferBatch(_, events, configs, seen, event, config, _) =>
        if event < |events| && config < |configs| {
          OfferKeeps(s, Effect(events[event], configs[config]));
          BatchStays(s, after, events, configs, seen, event, config);
          BatchNext(after, events, configs, seen, event, config);
        } else if event < |events| {
          BatchTurns(s, events, configs, seen, event);
        }
      case _ =>
    }
  }

  lemma PastOfLog(cursor: nat, length: nat)
    requires cursor < length
    ensures OfLog(Past(cursor, length), length) && Past(cursor, length) != [] && Last(Past(cursor, length)) == length
    ensures Continues(cursor, Past(cursor, length))
  {
    var events := Past(cursor, length);
    forall k: nat ensures !Skipped(cursor, events, k) {
      if cursor < k <= length {
        assert events[k - cursor - 1] == k;
      }
    }
  }

  lemma BatchNext(s: State, events: seq<nat>, configs: seq<ConfigId>, seen: nat, event: nat, config: nat)
    requires BatchOk(s, events, configs, seen, event, config) && event < |events| && config < |configs|
    requires InOutbox(s, events[event], configs[config])
    ensures BatchOk(s, events, configs, seen, event, config + 1)
  {
    hide PushKey, InOutbox, OfLog;
  }

  lemma BatchTurns(s: State, events: seq<nat>, configs: seq<ConfigId>, seen: nat, event: nat)
    requires BatchOk(s, events, configs, seen, event, |configs|) && event < |events|
    ensures BatchOk(s, events, configs, seen, event + 1, 0)
  {
    hide PushKey, InOutbox, OfLog;
    forall i, c | 0 <= i < event + 1 && c in configs ensures InOutbox(s, events[i], c) {
      if i == event {
        var j :| 0 <= j < |configs| && configs[j] == c;
      }
    }
  }

  lemma StepWorks(s: State, a: Action)
    requires Working(s)
    ensures Working(Step(s, a))
  {
    hide OutboxOk, WorkOk, NextStep, Later;
    var after := Step(s, a);
    StepIsLater(s, a);
    if a.Advance? && a.id in s.schedulers {
      NextStepOk(s, a.id);
      SameWork(NextStep(s, s.schedulers[a.id]).0, after, NextStep(s, s.schedulers[a.id]).1);
    } else {
      SameOutbox(s, after);
      StepFrames(s, a);
    }
    forall id | id in after.schedulers ensures WorkOk(after, after.schedulers[id]) {
      if id in s.schedulers && after.schedulers[id] == s.schedulers[id] {
        WorkStays(s, after, s.schedulers[id]);
      } else if !a.Advance? {
        MovedWorks(s, a, id);
      }
    }
  }

  /** Only the schedulers differ. */
  lemma SameWork(s: State, after: State, scheduler: Scheduler)
    requires after == s.(schedulers := after.schedulers) && OutboxOk(s) && WorkOk(s, scheduler)
    ensures OutboxOk(after) && WorkOk(after, scheduler)
  {
    WorkStays(s, after, scheduler);
  }

  lemma SameOutbox(s: State, after: State)
    requires after.outbox == s.outbox && after.taskId == s.taskId && OutboxOk(s)
    ensures OutboxOk(after)
  {
  }

  lemma StepFrames(s: State, a: Action)
    requires !(a.Advance? && a.id in s.schedulers)
    ensures Step(s, a).outbox == s.outbox && Step(s, a).taskId == s.taskId
  {
  }

  /** A scheduler moved by anything but its own step. */
  lemma MovedWorks(s: State, a: Action, id: nat)
    requires Working(s) && !a.Advance? && id in Step(s, a).schedulers
    requires !(id in s.schedulers && Step(s, a).schedulers[id] == s.schedulers[id])
    ensures WorkOk(Step(s, a), Step(s, a).schedulers[id])
  {
    hide PushKey, InOutbox;
    if a.FailBatch? {
      assert WorkOk(s, s.schedulers[id]);
    }
  }

  lemma StepKeeps(s: State, a: Action)
    requires Inv(s) && Resumes(s, a)
    ensures Inv(Step(s, a))
  {
    hide Working, CoveredUpTo, StartOk, Resumes, Step;
    StepWorks(s, a);
    WatermarkCovered(s, a);
    forall id | id in Step(s, a).schedulers ensures StartOk(Step(s, a), Step(s, a).schedulers[id]) {
      StartKept(s, a, id);
    }
  }

  lemma NothingToCover(s: State)
    ensures CoveredUpTo(s, 0)
  {
  }

  /** Recording a batch's end is right when everything before its start was covered and it skips nothing. */
  lemma RecordedCovers(s: State, base: nat, events: seq<nat>, seen: nat)
    requires WorkOk(s, RecordWatermark(base, events, seen)) && CoveredUpTo(s, base) && Continues(base, events)
    ensures CoveredUpTo(s, Last(events))
  {
    hide InOutbox, OfLog;
    forall k | 1 <= k <= Last(events) ensures Covered(s, k) {
      if base < k {
        assert !Skipped(base, events, k);
        BatchCovers(s, base, events, seen, k);
      }
    }
  }

  lemma BatchCovers(s: State, base: nat, events: seq<nat>, seen: nat, k: nat)
    requires WorkOk(s, RecordWatermark(base, events, seen)) && k in events
    ensures Covered(s, k)
  {
    hide InOutbox;
    assert CoveredBy(s, k, s.looks[seen]);
  }

  lemma WatermarkCovered(s: State, a: Action)
    requires Inv(s)
    ensures CoveredUpTo(Step(s, a), Step(s, a).watermark)
  {
    hide CoveredUpTo, Continues;
    var after := Step(s, a);
    StepIsLater(s, a);
    hide Later;
    if a.ResetWatermark? {
      NothingToCover(after);
    } else if a.Advance? && a.id in s.schedulers && s.schedulers[a.id].RecordWatermark? {
      var scheduler := s.schedulers[a.id];
      assert WorkOk(s, scheduler);
      assert StartOk(s, scheduler);
      RecordedCovers(s, scheduler.base, scheduler.events, scheduler.seen);
      CoveredStays(s, after, Last(scheduler.events));
    } else {
      CoveredStays(s, after, s.watermark);
    }
  }

  lemma NothingSkipped(base: nat)
    ensures Continues(base, [])
  {
  }

  lemma StartKept(s: State, a: Action, id: nat)
    requires Inv(s) && Resumes(s, a) && id in Step(s, a).schedulers
    ensures StartOk(Step(s, a), Step(s, a).schedulers[id])
  {
    hide CoveredUpTo, Working, Continues, OfLog, Past;
    var after := Step(s, a);
    StepIsLater(s, a);
    hide Later;
    NothingToCover(after);
    NothingSkipped(Base(after.schedulers[id]));
    CoveredStays(s, after, s.watermark);
    if id in s.schedulers {
      assert StartOk(s, s.schedulers[id]);
      CoveredStays(s, after, Base(s.schedulers[id]));
      if s.schedulers[id].ReplayLog? && s.schedulers[id].base < s.now.length {
        PastOfLog(s.schedulers[id].base, s.now.length);
      }
    }
  }

  lemma {:induction false} RunKeeps(taskId: string, actions: seq<Action>)
    requires ResumingRun(taskId, actions)
    ensures Inv(Exec(taskId, actions))
  {
    if actions == [] {
      NothingToCover(Start(taskId));
    } else {
      hide Inv, Step;
      RunKeeps(taskId, actions[..|actions| - 1]);
      StepKeeps(Exec(taskId, actions[..|actions| - 1]), actions[|actions| - 1]);
    }
  }

  // ----- The theorems -----

  /** Over every interleaving of schedulers, partial batches, retries, config changes and watermark resets, every
      event at or below the watermark was offered to all the configs that some scheduler found active, reading them
      after the event existed. */
  lemma WatermarkIsCovered(taskId: string, actions: seq<Action>, k: nat)
    requires ResumingRun(taskId, actions) && 1 <= k <= Exec(taskId, actions).watermark
    ensures var s := Exec(taskId, actions);
            exists t :: 0 <= t < |s.looks| && k <= s.looks[t].length
                        && forall c :: c in s.looks[t].active ==> InOutbox(s, k, c)
  {
    hide InOutbox, Working, Exec;
    RunKeeps(taskId, actions);
    var s := Exec(taskId, actions);
    assert Covered(s, k);
    var t :| 0 <= t < |s.looks| && CoveredBy(s, k, s.looks[t]);
  }

  /** Over every run, replay refusals included, the outbox holds each pair at most once, under its own key. */
  lemma {:induction false} OutboxHoldsPairsOnce(taskId: string, actions: seq<Action>)
    ensures Working(Exec(taskId, actions))
    ensures var outbox := Exec(taskId, actions).outbox;
            forall i, j :: i in outbox && j in outbox && outbox[i] == outbox[j] ==> i == j
  {
    if actions != [] {
      hide Step;
      OutboxHoldsPairsOnce(taskId, actions[..|actions| - 1]);
      StepWorks(Exec(taskId, actions[..|actions| - 1]), actions[|actions| - 1]);
      PairsOnce(Exec(taskId, actions));
    }
  }

  lemma PairsOnce(s: State)
    requires Working(s)
    ensures forall i, j :: i in s.outbox && j in s.outbox && s.outbox[i] == s.outbox[j] ==> i == j
  {
  }

  // ----- A refused replay, run to its end -----

  /** The state after one scheduler alone has taken `n` steps. */
  function Alone(s: State, id: nat, n: nat): State {
    if n == 0 then s else Step(Alone(s, id, n - 1), Advance(id))
  }

  ghost predicate FinishedAlone(s: State, id: nat, n: nat) {
    id in Alone(s, id, n).schedulers && Alone(s, id, n).schedulers[id].Returned?
  }

  /** The scheduler has only offered its own events, reads the configs once, and records the last of its events once all
      of them are covered. */
  ghost predicate OnlyOffers(s: State, after: State, id: nat, events: seq<nat>) {
    && Later(s, after) && after.now == s.now && id in after.schedulers
    && (forall key :: key in after.outbox ==>
          (key in s.outbox && after.outbox[key] == s.outbox[key]) || after.outbox[key].sequence in events)
    && after.looks == (if after.schedulers[id].ReadConfigs? then s.looks else s.looks + [s.now])
    && (!after.schedulers[id].Returned? ==> Batch(after.schedulers[id]) == events != [])
    && (after.schedulers[id].Returned? ==> after.watermark == Last(events) && forall k :: k in events ==> Covered(after, k))
  }

  lemma AdvanceOnlyOffers(s: State, after: State, id: nat, events: seq<nat>)
    requires OnlyOffers(s, after, id, events) && Working(after)
    ensures OnlyOffers(s, Step(after, Advance(id)), id, events)
  {
    hide PushKey, Covered, OfLog;
    var next := Step(after, Advance(id));
    StepIsLater(after, Advance(id));
    match after.schedulers[id] {
      case RecordWatermark(base, _, seen) =>
        assert WorkOk(after, after.schedulers[id]);
        WorkStays(after, next, after.schedulers[id]);
        forall k | k in events ensures Covered(next, k) {
          BatchCovers(next, base, events, seen, k);
        }
      case Returned => assert next == after;
      case _ =>
    }
  }

  lemma {:induction false} AloneOnlyOffers(s: State, start: State, id: nat, events: seq<nat>, n: nat)
    requires OnlyOffers(s, start, id, events) && Working(start)
    ensures OnlyOffers(s, Alone(start, id, n), id, events) && Working(Alone(start, id, n))
  {
    if n > 0 {
      hide OnlyOffers, Step, Working;
      AloneOnlyOffers(s, start, id, events, n - 1);
      AdvanceOnlyOffers(s, Alone(start, id, n - 1), id, events);
      StepWorks(Alone(start, id, n - 1), Advance(id));
    }
  }

  /** Some active config is still owed the event. */
  ghost predicate Owed(s: State, sequence: nat) {
    !Covered(s, sequence) && !CoveredBy(s, sequence, s.now)
  }

  /** An event the scheduler does not offer is covered afterwards exactly if it was not owed before. */
  lemma OwedStays(s: State, after: State, id: nat, events: seq<nat>, k: nat)
    requires OnlyOffers(s, after, id, events) && after.schedulers[id].Returned? && k !in events
    ensures Covered(after, k) <==> !Owed(s, k)
  {
    hide PushKey;
    SameOffers(s, after, id, events, k);
    if Covered(after, k) {
      var t :| 0 <= t < |after.looks| && CoveredBy(after, k, after.looks[t]);
      assert CoveredBy(s, k, after.looks[t]);
      assert after.looks[t] == s.now || (t < |s.looks| && after.looks[t] == s.looks[t]);
    }
    if Covered(s, k) {
      var t :| 0 <= t < |s.looks| && CoveredBy(s, k, s.looks[t]);
      assert CoveredBy(after, k, after.looks[t]);
    } else if CoveredBy(s, k, s.now) {
      assert CoveredBy(after, k, after.looks[|s.looks|]);
    }
  }

  lemma SameOffers(s: State, after: State, id: nat, events: seq<nat>, k: nat)
    requires OnlyOffers(s, after, id, events) && k !in events
    ensures forall c :: InOutbox(after, k, c) <==> InOutbox(s, k, c)
  {
    hide PushKey, Covered;
  }

  lemma RefusalOnlyOffers(s: State, id: nat, emitted: seq<nat>, n: nat)
    requires Working(s) && id in s.schedulers && s.schedulers[id].ReplayLog? && OfLog(emitted, s.now.length) && emitted != []
    ensures OnlyOffers(s, Alone(Step(s, RefuseReplay(id, emitted)), id, n), id, emitted)
  {
    hide Working, Covered;
    var start := Step(s, RefuseReplay(id, emitted));
    StepIsLater(s, RefuseReplay(id, emitted));
    StepWorks(s, RefuseReplay(id, emitted));
    AloneOnlyOffers(s, start, id, emitted, n);
  }

  /** Exactly when falling back to the newly emitted events is safe: let the log refuse to resume from the watermark,
      and the scheduler run to its end.  The recorded watermark, the last emitted sequence, keeps its promise if and
      only if no active config is still owed an event the emitted ones skip; where all of those are owed, if and only
      if every sequence from the one after the watermark to the last emitted is among the emitted. */
  lemma FallbackIsSafeExactly(s: State, id: nat, emitted: seq<nat>, n: nat)
    requires Inv(s) && id in s.schedulers && s.schedulers[id].ReplayLog?
    requires OfLog(emitted, s.now.length) && emitted != []
    requires FinishedAlone(Step(s, RefuseReplay(id, emitted)), id, n)
    ensures var after, base := Alone(Step(s, RefuseReplay(id, emitted)), id, n), s.schedulers[id].base;
            && after.watermark == Last(emitted)
            && (CoveredUpTo(after, after.watermark) <==> forall k: nat :: Skipped(base, emitted, k) ==> !Owed(s, k))
            && ((forall k: nat :: Skipped(base, emitted, k) ==> Owed(s, k))
                ==> (CoveredUpTo(after, after.watermark) <==> Continues(base, emitted)))
  {
    hide Alone, Working, Covered, CoveredBy, Step, OfLog;
    var after, base := Alone(Step(s, RefuseReplay(id, emitted)), id, n), s.schedulers[id].base;
    RefusalOnlyOffers(s, id, emitted, n);
    assert StartOk(s, s.schedulers[id]);
    CoveredStays(s, after, base);
    hide Later;
    forall k: nat | 1 <= k <= Last(emitted)
      ensures Covered(after, k) <==> !(Skipped(base, emitted, k) && Owed(s, k))
    {
      if k !in emitted {
        OwedStays(s, after, id, emitted, k);
      }
    }
  }

  /** Left alone, every scheduler gets there. */
  lemma SchedulerFinishesAlone(s: State, id: nat) returns (n: nat)
    requires id in s.schedulers
    ensures FinishedAlone(s, id, n)
    decreases Rank(s.schedulers[id]), EventsLeft(s.schedulers[id]), ConfigsLeft(s.schedulers[id])
  {
    n := 0;
    if !s.schedulers[id].Returned? {
      var m := SchedulerFinishesAlone(Step(s, Advance(id)), id);
      AloneShifts(s, id, m);
      n := m + 1;
    }
  }

  function Rank(scheduler: Scheduler): nat {
    match scheduler
    case ReadWatermark => 5
    case ReplayLog(_) => 4
    case ReadConfigs(_, _) => 3
    case OfferBatch(_, _, _, _, _, _, _) => 2
    case RecordWatermark(_, _, _) => 1
    case Returned => 0
  }

  function EventsLeft(scheduler: Scheduler): nat {
    match scheduler
    case OfferBatch(_, events, _, _, event, _, _) => if event < |events| then |events| - event else 0
    case _ => 0
  }

  function ConfigsLeft(scheduler: Scheduler): nat {
    match scheduler
    case OfferBatch(_, _, configs, _, _, config, _) => if config < |configs| then |configs| - config else 0
    case _ => 0
  }

  lemma {:induction false} AloneShifts(s: State, id: nat, n: nat)
    ensures Alone(s, id, n + 1) == Alone(Step(s, Advance(id)), id, n)
  {
    hide Step;
    if n > 0 {
      AloneShifts(s, id, n - 1);
    }
  }

  // ----- Refused replays that skip -----

  function Advances(id: nat, n: nat): seq<Action> {
    seq(n, _ => Advance(id))
  }

  lemma {:induction false} ExecAdvances(taskId: string, actions: seq<Action>, id: nat, n: nat)
    ensures Exec(taskId, actions + Advances(id, n)) == Alone(Exec(taskId, actions), id, n)
  {
    hide Step;
    var longer := actions + Advances(id, n);
    if n == 0 {
      assert longer == actions;
    } else {
      assert longer[..|longer| - 1] == actions + Advances(id, n - 1);
      ExecAdvances(taskId, actions, id, n - 1);
    }
  }

  lemma ExecAt(taskId: string, actions: seq<Action>, i: nat)
    requires i < |actions|
    ensures Exec(taskId, actions[..i + 1]) == Step(Exec(taskId, actions[..i]), actions[i])
  {
    hide Step;
    assert actions[..i + 1][..i] == actions[..i];
  }

  lemma ExecNone(taskId: string)
    ensures Exec(taskId, []) == Start(taskId)
  {
  }

  lemma ExecThen(taskId: string, actions: seq<Action>, a: Action)
    ensures Exec(taskId, actions + [a]) == Step(Exec(taskId, actions), a)
  {
    assert (actions + [a])[..|actions|] == actions;
  }

  /** Any run in which a scheduler's replay is refused while an event the emitted ones skip is owed ends, once that
      scheduler has finished, with a watermark above an event that was never offered. */
  lemma SkipsOwed(taskId: string, actions: seq<Action>, id: nat, emitted: seq<nat>, k: nat) returns (n: nat)
    requires var s := Exec(taskId, actions);
             && id in s.schedulers && s.schedulers[id].ReplayLog? && OfLog(emitted, s.now.length) && emitted != []
             && Skipped(s.schedulers[id].base, emitted, k) && Owed(s, k)
    ensures var s := Exec(taskId, actions + [RefuseReplay(id, emitted)] + Advances(id, n));
            s.watermark == Last(emitted) && k < s.watermark && !Covered(s, k)
  {
    hide Exec, Working, Covered, CoveredBy, OfLog;
    var s := Exec(taskId, actions);
    OutboxHoldsPairsOnce(taskId, actions);
    n := SchedulerFinishesAlone(Step(s, RefuseReplay(id, emitted)), id);
    RefusalOnlyOffers(s, id, emitted, n);
    var after := Alone(Step(s, RefuseReplay(id, emitted)), id, n);
    OwedStays(s, after, id, emitted, k);
    ExecThen(taskId, actions, RefuseReplay(id, emitted));
    ExecAdvances(taskId, actions + [RefuseReplay(id, emitted)], id, n);
    assert k != Last(emitted);
  }

  /** A config is active, two events are appended, and a scheduler has read the watermark. */
  function LateRun(config: ConfigId): seq<Action> {
    [SetConfigs([config]), Append, Append, Begin(0), Advance(0)]
  }

  /** If its replay is refused and only the second event was newly emitted, the watermark comes to cover the first, which
      no config was ever offered, although the config was active before the event was appended. */
  lemma RefusedReplaySkips(taskId: string, config: ConfigId) returns (n: nat)
    ensures var s := Exec(taskId, LateRun(config) + [RefuseReplay(0, [2])] + Advances(0, n));
            s.watermark == 2 && !Covered(s, 1)
  {
    hide PushKey, Exec;
    var acts, active := LateRun(config), [config];
    assert Exec(taskId, acts[..0]) == Start(taskId) by { ExecNone(taskId); }
    ExecAt(taskId, acts, 0);
    ExecAt(taskId, acts, 1);
    ExecAt(taskId, acts, 2);
    ExecAt(taskId, acts, 3);
    ExecAt(taskId, acts, 4);
    assert acts[..5] == acts;
    var s := Exec(taskId, acts);
    assert s == State(taskId, Moment(2, active), [], 0, map[], map[0 := ReplayLog(0)]);
    assert config in s.now.active && !InOutbox(s, 1, config);
    n := SkipsOwed(taskId, acts, 0, [2], 1);
  }

  /** Four events are appended while no config is active; a first scheduler is then left to itself. */
  function FourRun(): seq<Action> {
    [Append, Append, Append, Append, Begin(0), Advance(0)]
  }

  /** A config becomes active, one caller appends events five and seven and another event six between them, and a second
      scheduler reads the watermark. */
  function InterleavedRun(config: ConfigId): seq<Action> {
    [SetConfigs([config]), Append, Append, Append, Begin(1), Advance(1)]
  }

  /** The first scheduler records four.  The second's replay is refused: the events newly emitted, five and seven, start
      right after the watermark, which then comes to cover six, never offered. */
  lemma InterleavedEmissionSkips(taskId: string, config: ConfigId) returns (m: nat, n: nat)
    ensures var front := FourRun() + Advances(0, m) + InterleavedRun(config);
            && 1 in Exec(taskId, front).schedulers && Exec(taskId, front).schedulers[1] == ReplayLog(4)
            && var s := Exec(taskId, front + [RefuseReplay(1, [5, 7])] + Advances(1, n));
               s.watermark == 7 && !Covered(s, 6)
  {
    hide PushKey, Exec, Covered;
    m := FourScheduled(taskId);
    var front := FourRun() + Advances(0, m);
    var s4 := Exec(taskId, front);
    InterleavedState(taskId, front, config);
    var s := Exec(taskId, front + InterleavedRun(config));
    assert Owed(s, 6) by { SixIsOwed(s, config); }
    n := SkipsOwed(taskId, front + InterleavedRun(config), 1, [5, 7], 6);
  }

  lemma FourScheduled(taskId: string) returns (m: nat)
    ensures var s := Exec(taskId, FourRun() + Advances(0, m));
            && s.taskId == taskId && s.now == Moment(4, []) && s.watermark == 4 && s.looks == [Moment(4, [])]
            && forall key :: key in s.outbox ==> s.outbox[key].sequence in [1, 2, 3, 4]
  {
    hide PushKey, Exec, Covered, Working;
    var acts := FourRun();
    FourState(taskId);
    var s := Exec(taskId, acts);
    m := SchedulerFinishesAlone(s, 0);
    ExecAdvances(taskId, acts, 0, m);
    OutboxHoldsPairsOnce(taskId, acts);
    ReplayOnlyOffers(s, 0, m);
    assert Past(0, 4) == [1, 2, 3, 4];
  }

  lemma FourState(taskId: string)
    ensures Exec(taskId, FourRun()) == State(taskId, Moment(4, []), [], 0, map[], map[0 := ReplayLog(0)])
  {
    hide Exec;
    var acts := FourRun();
    assert Exec(taskId, acts[..0]) == Start(taskId) by { ExecNone(taskId); }
    ExecAt(taskId, acts, 0);
    ExecAt(taskId, acts, 1);
    ExecAt(taskId, acts, 2);
    ExecAt(taskId, acts, 3);
    ExecAt(taskId, acts, 4);
    ExecAt(taskId, acts, 5);
    assert acts[..6] == acts;
  }

  /** A scheduler whose replay is answered offers what lies past the watermark and nothing else. */
  lemma ReplayOnlyOffers(s: State, id: nat, m: nat)
    requires Working(s) && id in s.schedulers && s.schedulers[id].ReplayLog? && s.schedulers[id].base < s.now.length
    requires FinishedAlone(s, id, m)
    ensures OnlyOffers(s, Alone(s, id, m), id, Past(s.schedulers[id].base, s.now.length))
  {
    hide Working, Covered, Past;
    assert m > 0;
    AloneShifts(s, id, m - 1);
    PastOfLog(s.schedulers[id].base, s.now.length);
    StepWorks(s, Advance(id));
    StepIsLater(s, Advance(id));
    AloneOnlyOffers(s, Step(s, Advance(id)), id, Past(s.schedulers[id].base, s.now.length), m - 1);
  }

  lemma InterleavedState(taskId: string, front: seq<Action>, config: ConfigId)
    requires var s := Exec(taskId, front); s.now == Moment(4, []) && s.watermark == 4
    ensures var before, s := Exec(taskId, front), Exec(taskId, front + InterleavedRun(config));
            && s == before.(now := Moment(7, [config]), schedulers := s.schedulers)
            && 1 in s.schedulers && s.schedulers[1] == ReplayLog(4)
  {
    hide Exec;
    var acts := front + InterleavedRun(config);
    assert acts[..|front|] == front && acts[..|front| + 6] == acts;
    ExecAt(taskId, acts, |front|);
    ExecAt(taskId, acts, |front| + 1);
    ExecAt(taskId, acts, |front| + 2);
    ExecAt(taskId, acts, |front| + 3);
    ExecAt(taskId, acts, |front| + 4);
    ExecAt(taskId, acts, |front| + 5);
  }

  lemma SixIsOwed(s: State, config: ConfigId)
    requires s.now == Moment(7, [config]) && s.looks == [Moment(4, [])]
    requires forall key :: key in s.outbox ==> s.outbox[key].sequence in [1, 2, 3, 4]
    ensures Owed(s, 6)
  {
    hide PushKey;
    assert config in s.now.active && !InOutbox(s, 6, config);
  }
}
