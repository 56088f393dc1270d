/** A save that evicts itself: the clock is read before the record is loaded, so a full record of entries younger than
    that reading leaves no room for the new one. */
module PushConfigLimits {
  import opened Common
  import opened PushConfigs

  const AUTH: Auth := Auth(0, None)

  function Name(k: nat): string {
    seq(k, _ => 'a')
  }

  function NamedSave(k: nat): Op {
    Save(Name(k), 0, AUTH)
  }

  /** One uncontended save, stamped at time one. */
  function OneSave(k: nat): seq<Action> {
    [Begin(k, NamedSave(k))] + [Tick(k, 1)] + [Load(k)] + [TryWrite(k)]
  }

  /** Writer 0 reads the clock at time zero; others then save `n` configs at time one. */
  function FillRun(n: nat): seq<Action> {
    if n == 0 then [Begin(0, NamedSave(MAX_PUSH_CONFIGS_PER_TASK + 1))] + [Tick(0, 0)] else FillRun(n - 1) + OneSave(n)
  }

  function SelfEvictingRun(): seq<Action> {
    FillRun(MAX_PUSH_CONFIGS_PER_TASK) + [Load(0)] + [TryWrite(0)]
  }

  lemma ExecNext(actions: seq<Action>, a: Action)
    ensures Exec(actions + [a]) == Step(Exec(actions), a)
    ensures SteadyClock(actions + [a]) <==> SteadyClock(actions) && (a.Tick? ==> Clock(actions) <= a.now)
    ensures Clock(actions + [a]) == if a.Tick? && Clock(actions) < a.now then a.now else Clock(actions)
  {
    hide Step;
    assert (actions + [a])[..|actions|] == actions;
  }

  /** The record holds the first `n` named configs, live and created at time one. */
  ghost predicate Filled(s: State, n: nat) {
    && |s.configs| == n == s.revision
    && (forall i :: 0 <= i < n ==> |s.configs[i].id| == i + 1 && s.configs[i].createdAt == 1 && !s.configs[i].deleted)
    && 0 in s.clients && s.clients[0] == Loading(NamedSave(MAX_PUSH_CONFIGS_PER_TASK + 1), 0, 0, 0)
  }

  lemma NameIsNew(es: seq<Entry>, k: nat)
    requires |es| < k && forall i :: 0 <= i < |es| ==> |es[i].id| == i + 1
    ensures Find(es, Name(k)).None?
  {
    hide Find;
    assert |Name(k)| == k;
  }

  lemma OneSaveFills(s: State, k: nat)
    requires 1 <= k <= MAX_PUSH_CONFIGS_PER_TASK && Filled(s, k - 1)
    ensures var s2 := Step(Step(s, Begin(k, NamedSave(k))), Tick(k, 1));
            Filled(Step(Step(s2, Load(k)), TryWrite(k)), k)
  {
    hide Find, Capped;
    var longer := s.configs + [NewEntry(NamedSave(k), 1)];
    NameIsNew(s.configs, k);
    NotCapped(longer);
    assert Apply(s.configs, NamedSave(k), 1) == Write(longer);
    assert |Name(k)| == k;
  }

  lemma {:induction false} Fills(n: nat)
    requires n <= MAX_PUSH_CONFIGS_PER_TASK
    ensures Filled(Exec(FillRun(n)), n) && SteadyClock(FillRun(n)) && Clock(FillRun(n)) <= 1
  {
    hide Exec, SteadyClock, Clock, Apply;
    if n == 0 {
      assert Exec([]) == INITIAL && SteadyClock([]) && Clock([]) == 0 by { Nothing(); }
      ExecNext([], Begin(0, NamedSave(MAX_PUSH_CONFIGS_PER_TASK + 1)));
      assert [] + [Begin(0, NamedSave(MAX_PUSH_CONFIGS_PER_TASK + 1))] == [Begin(0, NamedSave(MAX_PUSH_CONFIGS_PER_TASK + 1))];
      ExecNext([Begin(0, NamedSave(MAX_PUSH_CONFIGS_PER_TASK + 1))], Tick(0, 0));
    } else {
      Fills(n - 1);
      var front := FillRun(n - 1);
      OneSaveFills(Exec(front), n);
      hide Filled, Step;
      ExecNext(front, Begin(n, NamedSave(n)));
      ExecNext(front + [Begin(n, NamedSave(n))], Tick(n, 1));
      ExecNext(front + [Begin(n, NamedSave(n))] + [Tick(n, 1)], Load(n));
      ExecNext(front + [Begin(n, NamedSave(n))] + [Tick(n, 1)] + [Load(n)], TryWrite(n));
      assert front + OneSave(n) == front + [Begin(n, NamedSave(n))] + [Tick(n, 1)] + [Load(n)] + [TryWrite(n)];
    }
  }

  lemma Nothing()
    ensures Exec([]) == INITIAL && SteadyClock([]) && Clock([]) == 0
  {
  }

  lemma EvictsItself(s: State)
    requires Filled(s, MAX_PUSH_CONFIGS_PER_TASK)
    ensures var after := Step(Step(s, Load(0)), TryWrite(0));
            && 0 in after.clients && after.clients[0].Done? && after.clients[0].outcome == Applied
            && after.clients[0].op == NamedSave(MAX_PUSH_CONFIGS_PER_TASK + 1)
            && Find(after.configs, Name(MAX_PUSH_CONFIGS_PER_TASK + 1)).None?
  {
    hide Find, Capped, Victim;
    var op := NamedSave(MAX_PUSH_CONFIGS_PER_TASK + 1);
    var longer := s.configs + [NewEntry(op, 0)];
    NameIsNew(s.configs, MAX_PUSH_CONFIGS_PER_TASK + 1);
    NewestIsVictim(s.configs, op, 0);
    CappedByOne(longer);
    assert Without(longer, |s.configs|) == s.configs;
  }

  /** Under a steady clock a save can be acknowledged and yet be gone: as many commits as the record holds came between
      its reading the clock and its loading the record. */
  lemma SaveCanEvictItself()
    ensures SteadyClock(SelfEvictingRun())
    ensures var s := Exec(SelfEvictingRun());
            && 0 in s.clients && s.clients[0].Done? && s.clients[0].outcome == Applied && s.clients[0].op.Save?
            && Find(s.configs, s.clients[0].op.id).None?
  {
    hide Exec, SteadyClock, Clock, Step, FillRun, Find;
    var fill := FillRun(MAX_PUSH_CONFIGS_PER_TASK);
    Fills(MAX_PUSH_CONFIGS_PER_TASK);
    EvictsItself(Exec(fill));
    ExecNext(fill, Load(0));
    ExecNext(fill + [Load(0)], TryWrite(0));
  }
}
