/** The per-task push-config record: saves and soft deletes applied through compare-and-set, with bounded audit
    trails and a bounded number of entries. */
module PushConfigs {
  import opened Common
  import opened TaskProjection

  const MAX_PUSH_CONFIG_AUDIT_RECORDS: nat := 32
  const MAX_PUSH_CONFIGS_PER_TASK: nat := 64
  const MAX_PUSH_CONFIG_WRITE_ATTEMPTS: nat := 5

  type ConfigId = string

  datatype AuditKind = Created | Updated | Deleted

  datatype Audit = Audit(kind: AuditKind, occurredAt: nat, redaction: int)

  datatype Auth = Auth(redaction: int, binding: Option<int>)

  /** A stored config, redacted; a deleted one stays as a tombstone. */
  datatype Entry = Entry(id: ConfigId, config: int, auth: Auth, deleted: bool, createdAt: nat, updatedAt: nat, audit: seq<Audit>)

  // ----- Eviction -----

  /** What eviction looks for: tombstones by last update, or any entry by creation. */
  predicate Candidate(tombstones: bool, e: Entry) {
    tombstones ==> e.deleted
  }

  function Age(tombstones: bool, e: Entry): nat {
    if tombstones then e.updatedAt else e.createdAt
  }

  /** The first candidate of least age: `min_by_key` over the filtered entries. */
  function Oldest(es: seq<Entry>, tombstones: bool): (r: Option<nat>)
    ensures r.None? <==> forall i :: 0 <= i < |es| ==> !Candidate(tombstones, es[i])
    ensures r.Some? ==>
              && r.value < |es| && Candidate(tombstones, es[r.value])
              && (forall i :: 0 <= i < |es| && Candidate(tombstones, es[i]) ==> Age(tombstones, es[r.value]) <= Age(tombstones, es[i]))
              && (forall i :: 0 <= i < r.value && Candidate(tombstones, es[i]) ==> Age(tombstones, es[r.value]) < Age(tombstones, es[i]))
  {
    if es == [] then None
    else
      var front, last := es[..|es| - 1], es[|es| - 1];
      var r := Oldest(front, tombstones);
      if !Candidate(tombstones, last) then r
      else if r.None? || Age(tombstones, last) < Age(tombstones, es[r.value]) then Some(|es| - 1)
      else r
  }

  /** The entry evicted first: the oldest tombstone, otherwise the oldest entry. */
  function Victim(es: seq<Entry>): (at: nat)
    requires es != []
    ensures at < |es|
    ensures es[at].deleted || forall i :: 0 <= i < |es| ==> !es[i].deleted
  {
    assert Candidate(false, es[0]);
    if Oldest(es, true).Some? then Oldest(es, true).value else Oldest(es, false).value
  }

  function Capped(es: seq<Entry>): seq<Entry>
    decreases |es|
  {
    if |es| <= MAX_PUSH_CONFIGS_PER_TASK then es else Capped(Without(es, Victim(es)))
  }

  lemma OldestStep(es: seq<Entry>, tombstones: bool, i: nat)
    requires i < |es|
    ensures var r := Oldest(es[..i], tombstones);
            Oldest(es[..i + 1], tombstones)
            == if Candidate(tombstones, es[i]) && (r.None? || Age(tombstones, es[i]) < Age(tombstones, es[r.value])) then Some(i) else r
  {
    assert es[..i + 1][..i] == es[..i];
  }

  method FindOldest(es: seq<Entry>, tombstones: bool) returns (r: Option<nat>)
    ensures r == Oldest(es, tombstones)
  {
    assert Oldest(es[..0], tombstones) == None;
    hide Oldest;
    r := None;
    for i := 0 to |es|
      invariant r == Oldest(es[..i], tombstones)
    {
      OldestStep(es, tombstones, i);
      if Candidate(tombstones, es[i]) && (r.None? || Age(tombstones, es[i]) < Age(tombstones, es[r.value])) {
        r := Some(i);
      }
    }
    assert es[..|es|] == es;
  }

  /** `cap_configs`. */
  method CapConfigs(configs: seq<Entry>) returns (es: seq<Entry>)
    ensures es == Capped(configs)
  {
    hide Oldest;
    es := configs;
    while |es| > MAX_PUSH_CONFIGS_PER_TASK
      invariant Capped(es) == Capped(configs)
      decreases |es|
    {
      var victim := FindOldest(es, true);
      if victim.None? {
        victim := FindOldest(es, false);
      }
      assert victim == Some(Victim(es)) by { VictimFound(es); }
      es := es[..victim.value] + es[victim.value + 1..];
    }
  }

  lemma VictimFound(es: seq<Entry>)
    requires es != []
    ensures Oldest(es, true).Some? ==> Oldest(es, true) == Some(Victim(es))
    ensures Oldest(es, true).None? ==> Oldest(es, false) == Some(Victim(es))
  {
    hide Oldest;
    assert Candidate(false, es[0]);
  }

  // ----- Saves and deletes -----

  function Find(es: seq<Entry>, id: ConfigId): (r: Option<nat>)
    ensures r.Some? ==> r.value < |es| && es[r.value].id == id
    ensures r.None? ==> forall i :: 0 <= i < |es| ==> es[i].id != id
  {
    if es == [] then None
    else
      var r := Find(es[..|es| - 1], id);
      if r.Some? then r else if es[|es| - 1].id == id then Some(|es| - 1) else None
  }

  datatype Op = Save(id: ConfigId, config: int, auth: Auth) | Delete(id: ConfigId)

  /** What an operation makes of the record: nothing to write, or the record to write. */
  datatype Change = Unchanged | Write(configs: seq<Entry>)

  function Audited(e: Entry, kind: AuditKind, now: nat, redaction: int): Entry {
    e.(updatedAt := now, audit := CapFront(e.audit + [Audit(kind, now, redaction)], MAX_PUSH_CONFIG_AUDIT_RECORDS))
  }

  function NewEntry(op: Op, now: nat): Entry
    requires op.Save?
  {
    Entry(op.id, op.config, op.auth, false, now, now, [Audit(Created, now, op.auth.redaction)])
  }

  function Apply(es: seq<Entry>, op: Op, now: nat): Change {
    match op
    case Save(id, config, auth) =>
      (match Find(es, id)
       case Some(i) =>
         var e := es[i];
         if !e.deleted && e.config == config && e.auth == auth then Unchanged
         else Write(es[i := Audited(e.(config := config, auth := auth, deleted := false),
                                    if e.deleted then Created else Updated, now, auth.redaction)])
       case None => Write(Capped(es + [NewEntry(op, now)])))
    case Delete(id) =>
      match Find(es, id)
      case Some(i) =>
        if es[i].deleted then Unchanged
        else Write(es[i := Audited(es[i].(deleted := true), Deleted, now, es[i].auth.redaction)])
      case None => Unchanged
  }

  // ----- What every record keeps -----

  ghost predicate UniqueIds(es: seq<Entry>) {
    forall i, j :: 0 <= i < j < |es| ==> es[i].id != es[j].id
  }

  ghost predicate AuditsBounded(es: seq<Entry>) {
    forall i :: 0 <= i < |es| ==> 1 <= |es[i].audit| <= MAX_PUSH_CONFIG_AUDIT_RECORDS
  }

  ghost predicate RecordOk(es: seq<Entry>) {
    UniqueIds(es) && AuditsBounded(es) && |es| <= MAX_PUSH_CONFIGS_PER_TASK
  }

  lemma RemovalKeeps(es: seq<Entry>, at: nat)
    requires at < |es|
    ensures |Without(es, at)| == |es| - 1
    ensures UniqueIds(es) ==> UniqueIds(Without(es, at))
    ensures AuditsBounded(es) ==> AuditsBounded(Without(es, at))
  {
    hide CapFront;
    if UniqueIds(es) {
      var rest := Without(es, at);
      forall i, j | 0 <= i < j < |rest| ensures rest[i].id != rest[j].id {
        assert rest[i] == es[if i < at then i else i + 1] && rest[j] == es[if j < at then j else j + 1];
      }
    }
  }

  lemma {:induction false} CappedKeeps(es: seq<Entry>)
    ensures |Capped(es)| == Min(|es|, MAX_PUSH_CONFIGS_PER_TASK)
    ensures UniqueIds(es) ==> UniqueIds(Capped(es))
    ensures AuditsBounded(es) ==> AuditsBounded(Capped(es))
    decreases |es|
  {
    if |es| > MAX_PUSH_CONFIGS_PER_TASK {
      hide UniqueIds, AuditsBounded, Victim, Without;
      RemovalKeeps(es, Victim(es));
      CappedKeeps(Without(es, Victim(es)));
    }
  }

  /** Every write keeps ids unique, entries at most 64 and audit trails at most 32. */
  lemma ApplyKeeps(es: seq<Entry>, op: Op, now: nat)
    requires RecordOk(es)
    ensures Apply(es, op, now).Write? ==> RecordOk(Apply(es, op, now).configs)
  {
    hide Capped, Oldest, Victim;
    if op.Save? && Find(es, op.id).None? {
      var longer := es + [NewEntry(op, now)];
      assert UniqueIds(longer) && AuditsBounded(longer);
      CappedKeeps(longer);
    }
  }

  ghost predicate HasTombstone(es: seq<Entry>) {
    exists i :: 0 <= i < |es| && es[i].deleted
  }

  /** What adding an entry to a full record leaves. */
  lemma CappedByOne(es: seq<Entry>)
    requires |es| == MAX_PUSH_CONFIGS_PER_TASK + 1
    ensures Capped(es) == Without(es, Victim(es)) && |Without(es, Victim(es))| == MAX_PUSH_CONFIGS_PER_TASK
  {
    hide Victim;
    assert |Without(es, Victim(es))| == MAX_PUSH_CONFIGS_PER_TASK;
  }

  /** Adding an entry to a full record evicts one entry, and a live one only when there is no tombstone; adding to a
      record with room evicts nothing. */
  lemma SaveEvictsTombstonesFirst(es: seq<Entry>, op: Op, now: nat, k: nat)
    requires RecordOk(es) && op.Save? && Find(es, op.id).None? && k < |es|
    ensures var after := Apply(es, op, now).configs;
            || es[k] in after
            || (|es| == MAX_PUSH_CONFIGS_PER_TASK && |after| == |es| && (es[k].deleted || !HasTombstone(es)))
  {
    hide Capped, Find;
    var longer := es + [NewEntry(op, now)];
    if |longer| <= MAX_PUSH_CONFIGS_PER_TASK {
      assert Capped(longer) == longer by { NotCapped(longer); }
      assert longer[k] == es[k];
    } else {
      CappedByOne(longer);
      EvictsOne(es, NewEntry(op, now), k);
    }
  }

  lemma NotCapped(es: seq<Entry>)
    requires |es| <= MAX_PUSH_CONFIGS_PER_TASK
    ensures Capped(es) == es
  {
  }

  lemma EvictsOne(es: seq<Entry>, e: Entry, k: nat)
    requires k < |es|
    ensures var longer := es + [e];
            es[k] in Without(longer, Victim(longer)) || es[k].deleted || !HasTombstone(es)
  {
    var longer := es + [e];
    var at := Victim(longer);
    hide Victim;
    if k != at {
      var rest := Without(longer, at);
      assert rest[if k < at then k else k - 1] == es[k];
    } else if HasTombstone(es) {
      var i :| 0 <= i < |es| && es[i].deleted;
      assert longer[i].deleted && longer[k] == es[k];
    }
  }

  /** A just-saved config survives its own save exactly when the record has room, holds a tombstone, or holds an
      entry created no later. */
  lemma SaveSurvivesExactly(es: seq<Entry>, op: Op, now: nat)
    requires RecordOk(es) && op.Save? && Find(es, op.id).None?
    ensures Find(Apply(es, op, now).configs, op.id).Some?
            <==> |es| < MAX_PUSH_CONFIGS_PER_TASK || HasTombstone(es) || exists i :: 0 <= i < |es| && es[i].createdAt <= now
  {
    hide Capped, Find, HasTombstone;
    var e := NewEntry(op, now);
    var longer := es + [e];
    if |longer| <= MAX_PUSH_CONFIGS_PER_TASK {
      assert Capped(longer) == longer by { NotCapped(longer); }
      assert longer[|es|].id == op.id;
    } else {
      CappedByOne(longer);
      NewestIsVictim(es, op, now);
      SurvivesUnlessVictim(es, e);
    }
  }

  lemma SurvivesUnlessVictim(es: seq<Entry>, e: Entry)
    requires Find(es, e.id).None?
    ensures var longer := es + [e]; Find(Without(longer, Victim(longer)), e.id).Some? <==> Victim(longer) != |es|
  {
    hide Find, Victim;
    var longer := es + [e];
    var rest := Without(longer, Victim(longer));
    if Victim(longer) == |es| {
      assert rest == es;
    } else {
      assert rest[|rest| - 1] == e;
    }
  }

  lemma NewestIsVictim(es: seq<Entry>, op: Op, now: nat)
    requires op.Save? && es != []
    ensures Victim(es + [NewEntry(op, now)]) == |es|
            <==> !HasTombstone(es) && forall i :: 0 <= i < |es| ==> now < es[i].createdAt
  {
    hide Oldest;
    var longer := es + [NewEntry(op, now)];
    forall i | 0 <= i < |es| ensures longer[i] == es[i] {
    }
    assert longer[|es|] == NewEntry(op, now);
    VictimFound(longer);
    assert forall i :: 0 <= i < |longer| ==> Candidate(false, longer[i]);
    if !HasTombstone(es) {
      assert forall i :: 0 <= i < |longer| ==> !Candidate(true, longer[i]);
    } else {
      var i :| 0 <= i < |es| && es[i].deleted;
      assert Candidate(true, longer[i]);
    }
  }

  // ----- Compare-and-set -----

  /** A committed operation, the time it was stamped with, and how long the log was when its writer read the clock. */
  datatype Commit = Commit(op: Op, now: nat, ticked: nat)

  datatype Outcome = Applied | NothingToDo | GaveUp

  /** A writer about to read the clock, about to load the record, about to compare and set what it computed from it,
      or finished with the record at length `at` of the log. */
  datatype Client =
    | Starting(op: Op, attempts: nat)
    | Loading(op: Op, attempts: nat, now: nat, ticked: nat)
    | Writing(op: Op, attempts: nat, expected: nat, base: seq<Entry>, next: seq<Entry>, now: nat, ticked: nat)
    | Done(op: Op, outcome: Outcome, at: nat, now: nat)

  /** The record and its revision (zero when absent), and the operations committed so far. */
  datatype State = State(revision: nat, configs: seq<Entry>, log: seq<Commit>, clients: map<nat, Client>)

  const INITIAL: State := State(0, [], [], map[])

  datatype Action = Begin(id: nat, op: Op) | Tick(id: nat, now: nat) | Load(id: nat) | TryWrite(id: nat)

  function Step(s: State, a: Action): State {
    match a
    case Begin(id, op) => s.(clients := s.clients[id := Starting(op, 0)])
    case Tick(id, now) =>
      if id !in s.clients || !s.clients[id].Starting? then s
      else s.(clients := s.clients[id := Loading(s.clients[id].op, s.clients[id].attempts, now, |s.log|)])
    case Load(id) =>
      if id !in s.clients || !s.clients[id].Loading? then s
      else
        var c := s.clients[id];
        (match Apply(s.configs, c.op, c.now)
         case Unchanged => s.(clients := s.clients[id := Done(c.op, NothingToDo, |s.log|, c.now)])
         case Write(next) =>
           s.(clients := s.clients[id := Writing(c.op, c.attempts, s.revision, s.configs, next, c.now, c.ticked)]))
    case TryWrite(id) =>
      if id !in s.clients || !s.clients[id].Writing? then s
      else
        var c := s.clients[id];
        if s.revision == c.expected then
          State(s.revision + 1, c.next, s.log + [Commit(c.op, c.now, c.ticked)],
                s.clients[id := Done(c.op, Applied, |s.log|, c.now)])
        else if c.attempts + 1 < MAX_PUSH_CONFIG_WRITE_ATTEMPTS then
          s.(clients := s.clients[id := Starting(c.op, c.attempts + 1)])
        else s.(clients := s.clients[id := Done(c.op, GaveUp, |s.log|, c.now)])
  }

  function Exec(actions: seq<Action>): State {
    if actions == [] then INITIAL else Step(Exec(actions[..|actions| - 1]), actions[|actions| - 1])
  }

  /** The record a sequence of operations leads to, applied one after another. */
  function ConfigsAfter(log: seq<Commit>): seq<Entry> {
    if log == [] then []
    else
      var before, last := ConfigsAfter(log[..|log| - 1]), log[|log| - 1];
      match Apply(before, last.op, last.now)
      case Unchanged => before
      case Write(next) => next
  }

  ghost predicate ClientOk(log: seq<Commit>, c: Client) {
    match c
    case Starting(_, _) => true
    case Loading(_, _, _, _) => true
    case Writing(op, _, expected, base, next, now, _) =>
      expected <= |log| && base == ConfigsAfter(log[..expected]) && Apply(base, op, now) == Write(next)
    case Done(op, outcome, at, now) =>
      match outcome
      case Applied => at < |log| && log[at].op == op && log[at].now == now
      case NothingToDo => at <= |log| && Apply(ConfigsAfter(log[..at]), op, now) == Unchanged
      case GaveUp => at <= |log|
  }

  /** Every committed revision wrote what its operation makes of the revision before. */
  ghost predicate LogWrites(log: seq<Commit>) {
    forall i :: 0 <= i < |log| ==>
      Apply(ConfigsAfter(log[..i]), log[i].op, log[i].now) == Write(ConfigsAfter(log[..i + 1]))
  }

  ghost predicate Inv(s: State) {
    && s.revision == |s.log| && s.configs == ConfigsAfter(s.log) && RecordOk(s.configs) && LogWrites(s.log)
    && forall id :: id in s.clients ==> ClientOk(s.log, s.clients[id])
  }

  lemma ClientStays(log: seq<Commit>, commit: Commit, c: Client)
    requires ClientOk(log, c)
    ensures ClientOk(log + [commit], c)
  {
    hide ConfigsAfter, Apply;
    var longer := log + [commit];
    if c.Writing? {
      assert longer[..c.expected] == log[..c.expected];
    } else if c.Done? && c.outcome == NothingToDo {
      assert longer[..c.at] == log[..c.at];
    }
  }

  lemma LogWritesNext(log: seq<Commit>, commit: Commit, next: seq<Entry>)
    requires LogWrites(log) && Apply(ConfigsAfter(log), commit.op, commit.now) == Write(next)
    ensures LogWrites(log + [commit]) && ConfigsAfter(log + [commit]) == next
  {
    hide Apply;
    var longer := log + [commit];
    assert longer[..|log|] == log;
    assert ConfigsAfter(longer) == next;
    hide ConfigsAfter;
    forall i | 0 <= i < |longer|
      ensures Apply(ConfigsAfter(longer[..i]), longer[i].op, longer[i].now) == Write(ConfigsAfter(longer[..i + 1]))
    {
      if i < |log| {
        assert longer[..i] == log[..i] && longer[..i + 1] == log[..i + 1] && longer[i] == log[i];
      } else {
        assert longer[..i] == log && longer[..i + 1] == longer;
      }
    }
  }

  lemma CommitKeeps(s: State, id: nat)
    requires Inv(s) && id in s.clients && s.clients[id].Writing? && s.revision == s.clients[id].expected
    ensures Inv(Step(s, TryWrite(id)))
  {
    hide ConfigsAfter, Apply, RecordOk, LogWrites;
    var c := s.clients[id];
    var after := Step(s, TryWrite(id));
    assert ClientOk(s.log, c);
    assert s.log[..|s.log|] == s.log;
    ApplyKeeps(s.configs, c.op, c.now);
    LogWritesNext(s.log, Commit(c.op, c.now, c.ticked), c.next);
    forall other | other in after.clients ensures ClientOk(after.log, after.clients[other]) {
      if other != id {
        ClientStays(s.log, Commit(c.op, c.now, c.ticked), s.clients[other]);
      }
    }
  }

  lemma StepKeeps(s: State, a: Action)
    requires Inv(s)
    ensures Inv(Step(s, a))
  {
    hide ConfigsAfter, Apply, RecordOk, LogWrites;
    assert s.log[..|s.log|] == s.log;
    if a.TryWrite? && a.id in s.clients && s.clients[a.id].Writing? && s.revision == s.clients[a.id].expected {
      CommitKeeps(s, a.id);
    }
  }

  lemma {:induction false} RunKeeps(actions: seq<Action>)
    ensures Inv(Exec(actions))
  {
    if actions != [] {
      hide Inv, Step;
      RunKeeps(actions[..|actions| - 1]);
      StepKeeps(Exec(actions[..|actions| - 1]), actions[|actions| - 1]);
    }
  }

  /** Over every interleaving of saves and deletes: the record's ids are unique, it holds at most 64 entries with at
      most 32 audit records each, its revision counts the commits, and every revision is its operation applied to
      the revision before. */
  lemma RecordIsSequential(actions: seq<Action>)
    ensures var s := Exec(actions);
            && RecordOk(s.configs) && s.revision == |s.log| && s.configs == ConfigsAfter(s.log)
            && forall i :: 0 <= i < |s.log| ==>
                 Apply(ConfigsAfter(s.log[..i]), s.log[i].op, s.log[i].now) == Write(ConfigsAfter(s.log[..i + 1]))
  {
    hide ConfigsAfter, Apply, RecordOk, Exec, ClientOk;
    RunKeeps(actions);
  }

  /** A finished writer's operation was committed as one revision, or had nothing to change at the revision it read. */
  lemma WritersAreHonest(actions: seq<Action>, id: nat)
    requires id in Exec(actions).clients && Exec(actions).clients[id].Done?
    ensures var s := Exec(actions);
            var c := s.clients[id];
            && (c.outcome == Applied ==> c.at < |s.log| && s.log[c.at].op == c.op && s.log[c.at].now == c.now)
            && (c.outcome == NothingToDo ==> c.at <= |s.log| && Apply(ConfigsAfter(s.log[..c.at]), c.op, c.now) == Unchanged)
  {
    hide ConfigsAfter, Apply, RecordOk, Exec, LogWrites;
    RunKeeps(actions);
    assert ClientOk(Exec(actions).log, Exec(actions).clients[id]);
  }

  // ----- A steady clock -----

  /** The newest time any writer has read, in order. */
  function Clock(actions: seq<Action>): nat {
    if actions == [] then 0
    else
      var before, last := Clock(actions[..|actions| - 1]), actions[|actions| - 1];
      if last.Tick? && before < last.now then last.now else before
  }

  /** The clock never runs backward along the run. */
  ghost predicate SteadyClock(actions: seq<Action>) {
    actions == [] ||
    (SteadyClock(actions[..|actions| - 1])
     && (actions[|actions| - 1].Tick? ==> Clock(actions[..|actions| - 1]) <= actions[|actions| - 1].now))
  }

  ghost predicate CreatedBy(es: seq<Entry>, time: nat) {
    forall i :: 0 <= i < |es| ==> es[i].createdAt <= time
  }

  /** A writer that read the clock when the log was `ticked` long found nothing created later. */
  ghost predicate TickOk(log: seq<Commit>, ticked: nat, now: nat) {
    ticked <= |log| && CreatedBy(ConfigsAfter(log[..ticked]), now)
  }

  ghost predicate SteadyClient(log: seq<Commit>, clock: nat, c: Client) {
    match c
    case Loading(_, _, now, ticked) => now <= clock && TickOk(log, ticked, now)
    case Writing(_, _, expected, _, _, now, ticked) => now <= clock && TickOk(log, ticked, now) && ticked <= expected
    case _ => true
  }

  ghost predicate SteadyInv(clock: nat, s: State) {
    && Inv(s) && CreatedBy(s.configs, clock)
    && (forall i :: 0 <= i < |s.log| ==> s.log[i].ticked <= i && TickOk(s.log, s.log[i].ticked, s.log[i].now))
    && forall id :: id in s.clients ==> SteadyClient(s.log, clock, s.clients[id])
  }

  lemma {:induction false} CappedCreatedBy(es: seq<Entry>, time: nat)
    requires CreatedBy(es, time)
    ensures CreatedBy(Capped(es), time)
    decreases |es|
  {
    if |es| > MAX_PUSH_CONFIGS_PER_TASK {
      hide Victim;
      CappedCreatedBy(Without(es, Victim(es)), time);
    }
  }

  lemma ApplyCreatedBy(es: seq<Entry>, op: Op, now: nat, time: nat)
    requires CreatedBy(es, time) && now <= time
    ensures Apply(es, op, now).Write? ==> CreatedBy(Apply(es, op, now).configs, time)
  {
    hide Capped;
    if op.Save? && Find(es, op.id).None? {
      CappedCreatedBy(es + [NewEntry(op, now)], time);
    }
  }

  lemma TickStays(log: seq<Commit>, commit: Commit, ticked: nat, now: nat)
    requires TickOk(log, ticked, now)
    ensures TickOk(log + [commit], ticked, now)
  {
    hide ConfigsAfter, CreatedBy;
    assert (log + [commit])[..ticked] == log[..ticked];
  }

  lemma SteadyCommit(clock: nat, s: State, id: nat)
    requires SteadyInv(clock, s) && id in s.clients && s.clients[id].Writing? && s.revision == s.clients[id].expected
    ensures SteadyInv(clock, Step(s, TryWrite(id)))
  {
    hide ConfigsAfter, Apply, RecordOk, LogWrites, TickOk, CreatedBy;
    var c := s.clients[id];
    var commit := Commit(c.op, c.now, c.ticked);
    var after := Step(s, TryWrite(id));
    StepKeeps(s, TryWrite(id));
    assert ClientOk(s.log, c) && SteadyClient(s.log, clock, c);
    assert s.log[..|s.log|] == s.log;
    ApplyCreatedBy(s.configs, c.op, c.now, clock);
    forall i | 0 <= i < |after.log| ensures after.log[i].ticked <= i && TickOk(after.log, after.log[i].ticked, after.log[i].now) {
      if i < |s.log| {
        assert after.log[i] == s.log[i];
      }
      TickStays(s.log, commit, after.log[i].ticked, after.log[i].now);
    }
    forall other | other in after.clients ensures SteadyClient(after.log, clock, after.clients[other]) {
      if other != id && (s.clients[other].Loading? || s.clients[other].Writing?) {
        assert SteadyClient(s.log, clock, s.clients[other]);
        TickStays(s.log, commit, s.clients[other].ticked, s.clients[other].now);
      }
    }
  }

  lemma ClockAdvances(clock: nat, s: State, later: nat)
    requires SteadyInv(clock, s) && clock <= later
    ensures SteadyInv(later, s)
  {
    hide ConfigsAfter, Inv, TickOk;
    forall id | id in s.clients ensures SteadyClient(s.log, later, s.clients[id]) {
      assert SteadyClient(s.log, clock, s.clients[id]);
    }
  }

  /** A step that commits nothing changes one client. */
  lemma SteadyMove(clock: nat, s: State, id: nat, c: Client)
    requires SteadyInv(clock, s) && SteadyClient(s.log, clock, c) && Inv(s.(clients := s.clients[id := c]))
    ensures SteadyInv(clock, s.(clients := s.clients[id := c]))
  {
    hide ConfigsAfter, Inv, TickOk, CreatedBy, SteadyClient;
  }

  lemma SteadyStepKeeps(clock: nat, s: State, a: Action, later: nat)
    requires SteadyInv(clock, s) && clock <= later && (a.Tick? ==> clock <= a.now <= later)
    ensures SteadyInv(later, Step(s, a))
  {
    ClockAdvances(clock, s, later);
    StepKeeps(s, a);
    RevisionIsLength(s);
    assert s.log[..|s.log|] == s.log;
    if a.Tick? {
      assert CreatedBy(s.configs, a.now);
    }
    hide ConfigsAfter, Apply, CreatedBy, Inv, SteadyInv;
    if a.id in s.clients {
      assert SteadyClient(s.log, later, s.clients[a.id]) by { ClientSteady(later, s, a.id); }
    }
    if a.TryWrite? && a.id in s.clients && s.clients[a.id].Writing? && s.revision == s.clients[a.id].expected {
      SteadyCommit(later, s, a.id);
    } else {
      var after := Step(s, a);
      assert after == s || (a.id in after.clients && after == s.(clients := s.clients[a.id := after.clients[a.id]]));
      if after != s {
        SteadyMove(later, s, a.id, after.clients[a.id]);
      }
    }
  }

  lemma ClientSteady(clock: nat, s: State, id: nat)
    requires SteadyInv(clock, s) && id in s.clients
    ensures SteadyClient(s.log, clock, s.clients[id])
  {
  }

  lemma RevisionIsLength(s: State)
    requires Inv(s)
    ensures s.configs == ConfigsAfter(s.log) && s.revision == |s.log|
  {
  }

  lemma {:induction false} SteadyRunKeeps(actions: seq<Action>)
    requires SteadyClock(actions)
    ensures SteadyInv(Clock(actions), Exec(actions))
  {
    if actions != [] {
      hide SteadyInv, Step;
      var front, last := actions[..|actions| - 1], actions[|actions| - 1];
      SteadyRunKeeps(front);
      SteadyStepKeeps(Clock(front), Exec(front), last, Clock(actions));
    }
  }

  /** How many entries were created after a time. */
  function Young(es: seq<Entry>, time: nat): nat {
    if es == [] then 0
    else Young(es[..|es| - 1], time) + (if es[|es| - 1].createdAt > time then 1 else 0)
  }

  lemma YoungSnoc(es: seq<Entry>, e: Entry, time: nat)
    ensures Young(es + [e], time) == Young(es, time) + (if e.createdAt > time then 1 else 0)
  {
    assert (es + [e])[..|es|] == es;
  }

  lemma {:induction false} YoungWithout(es: seq<Entry>, at: nat, time: nat)
    requires at < |es|
    ensures Young(Without(es, at), time) <= Young(es, time)
  {
    hide Young;
    var front, last := es[..|es| - 1], es[|es| - 1];
    assert es == front + [last];
    YoungSnoc(front, last, time);
    if at == |es| - 1 {
      assert Without(es, at) == front;
    } else {
      YoungWithout(front, at, time);
      assert Without(es, at) == Without(front, at) + [last];
      YoungSnoc(Without(front, at), last, time);
    }
  }

  lemma {:induction false} YoungCapped(es: seq<Entry>, time: nat)
    ensures Young(Capped(es), time) <= Young(es, time)
    decreases |es|
  {
    if |es| > MAX_PUSH_CONFIGS_PER_TASK {
      hide Victim, Young, Without;
      YoungWithout(es, Victim(es), time);
      assert |Without(es, Victim(es))| < |es| by { RemovalKeeps(es, Victim(es)); }
      YoungCapped(Without(es, Victim(es)), time);
    }
  }

  lemma {:induction false} YoungUpdate(es: seq<Entry>, i: nat, e: Entry, time: nat)
    requires i < |es| && e.createdAt == es[i].createdAt
    ensures Young(es[i := e], time) == Young(es, time)
  {
    hide Young;
    var front, last := es[..|es| - 1], es[|es| - 1];
    assert es == front + [last];
    YoungSnoc(front, last, time);
    if i == |es| - 1 {
      assert es[i := e] == front + [e];
      YoungSnoc(front, e, time);
    } else {
      YoungUpdate(front, i, e, time);
      assert es[i := e] == front[i := e] + [last];
      YoungSnoc(front[i := e], last, time);
    }
  }

  /** An operation adds at most one young entry. */
  lemma YoungGrows(es: seq<Entry>, op: Op, now: nat, time: nat)
    ensures Apply(es, op, now).Write? ==> Young(Apply(es, op, now).configs, time) <= Young(es, time) + 1
  {
    hide Young, Capped, CapFront;
    match Find(es, op.id) {
      case Some(i) =>
        var change := Apply(es, op, now);
        if change.Write? {
          assert change.configs[i].createdAt == es[i].createdAt;
          assert change.configs == es[i := change.configs[i]];
          YoungUpdate(es, i, change.configs[i], time);
        }
      case None =>
        if op.Save? {
          YoungSnoc(es, NewEntry(op, now), time);
          YoungCapped(es + [NewEntry(op, now)], time);
        }
    }
  }

  lemma {:induction false} YoungSince(log: seq<Commit>, from: nat, upTo: nat, time: nat)
    requires from <= upTo <= |log| && LogWrites(log) && CreatedBy(ConfigsAfter(log[..from]), time)
    ensures Young(ConfigsAfter(log[..upTo]), time) <= upTo - from
    decreases upTo
  {
    hide ConfigsAfter, Apply, Young;
    if from == upTo {
      NoneYoung(ConfigsAfter(log[..from]), time);
    } else {
      YoungSince(log, from, upTo - 1, time);
      var i := upTo - 1;
      assert Apply(ConfigsAfter(log[..i]), log[i].op, log[i].now) == Write(ConfigsAfter(log[..i + 1]));
      YoungGrows(ConfigsAfter(log[..i]), log[i].op, log[i].now, time);
    }
  }

  lemma {:induction false} NoneYoung(es: seq<Entry>, time: nat)
    requires CreatedBy(es, time)
    ensures Young(es, time) == 0
  {
    if es != [] {
      NoneYoung(es[..|es| - 1], time);
    }
  }

  lemma {:induction false} SomeOld(es: seq<Entry>, time: nat)
    requires Young(es, time) < |es|
    ensures exists i :: 0 <= i < |es| && es[i].createdAt <= time
  {
    if es[|es| - 1].createdAt > time {
      SomeOld(es[..|es| - 1], time);
      var i :| 0 <= i < |es| - 1 && es[..|es| - 1][i].createdAt <= time;
      assert es[i].createdAt <= time;
    } else {
      assert es[|es| - 1].createdAt <= time;
    }
  }

  /** Over every run under a steady clock, a save of a new config survives its own commit, unless as many commits as
      the record holds entries came between its reading the clock and its loading the record. */
  lemma SaveSurvivesOnSteadyClock(actions: seq<Action>, i: nat)
    requires SteadyClock(actions) && i < |Exec(actions).log|
    requires var commit := Exec(actions).log[i];
             && commit.op.Save? && Find(ConfigsAfter(Exec(actions).log[..i]), commit.op.id).None?
             && i < commit.ticked + MAX_PUSH_CONFIGS_PER_TASK
    ensures var log := Exec(actions).log; Find(ConfigsAfter(log[..i + 1]), log[i].op.id).Some?
  {
    hide ConfigsAfter, Apply, Exec, Clock, SteadyClock, Find, Young, HasTombstone;
    SteadyRunKeeps(actions);
    var log := Exec(actions).log;
    var before, commit := ConfigsAfter(log[..i]), log[i];
    assert TickOk(log, commit.ticked, commit.now);
    assert RecordOk(before) by { PrefixRecordOk(log, i); }
    YoungSince(log, commit.ticked, i, commit.now);
    if |before| == MAX_PUSH_CONFIGS_PER_TASK {
      SomeOld(before, commit.now);
    }
    SaveSurvivesExactly(before, commit.op, commit.now);
    assert Apply(before, commit.op, commit.now) == Write(ConfigsAfter(log[..i + 1]));
  }

  lemma {:induction false} PrefixRecordOk(log: seq<Commit>, i: nat)
    requires LogWrites(log) && i <= |log|
    ensures RecordOk(ConfigsAfter(log[..i]))
  {
    hide Apply;
    if i > 0 {
      PrefixRecordOk(log, i - 1);
      hide ConfigsAfter, RecordOk;
      var k := i - 1;
      assert Apply(ConfigsAfter(log[..k]), log[k].op, log[k].now) == Write(ConfigsAfter(log[..k + 1]));
      ApplyKeeps(ConfigsAfter(log[..k]), log[k].op, log[k].now);
    }
  }
}
