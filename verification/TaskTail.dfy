/** Folding the retained tail of a task's log onto a stored row: what the retained events are, and exactly when the
    fold gives the sequential meaning of the whole history. */
module TaskTail {
  import opened Common
  import opened TaskProjection

  // ----- The event table -----

  ghost function MaxKey(keys: set<nat>): (m: nat)
    ensures forall k :: k in keys ==> k <= m
    ensures keys == {} ==> m == 0
    ensures keys != {} ==> m in keys
    decreases |keys|
  {
    if keys == {} then 0
    else
      SetMember(keys);
      var k :| k in keys;
      var rest := MaxKey(keys - {k});
      assert keys == (keys - {k}) + {k};
      if rest < k then k else rest
  }

  /** `COALESCE(MAX(sequence), 0)`. */
  ghost function MaxSequence(events: map<nat, Event>): nat {
    MaxKey(events.Keys)
  }

  ghost function Collect(events: map<nat, Event>, after: nat, upTo: nat): seq<Event> {
    if upTo <= after then []
    else Collect(events, after, upTo - 1) + (if upTo in events then [events[upTo]] else [])
  }

  /** `SELECT ... WHERE sequence > after ORDER BY sequence`. */
  ghost function TailAfter(events: map<nat, Event>, after: nat): seq<Event> {
    Collect(events, after, MaxSequence(events))
  }

  ghost function SnapshotKeys(events: map<nat, Event>): set<nat> {
    set k | k in events && events[k].payload.Snapshot?
  }

  /** `apply_retention`: drops the tail past the bound, always keeping the newest snapshot. */
  ghost function Retained(events: map<nat, Event>, limit: nat): map<nat, Event> {
    map k | k in events && (k + limit > MaxSequence(events) || k == MaxKey(SnapshotKeys(events))) :: events[k]
  }

  /** The sequence of the newest snapshot in a history, zero when there is none. */
  ghost function NewestSnapshot(history: seq<Event>): nat {
    match LastSnapshot(history)
    case Some(i) => i + 1
    case None => 0
  }

  /** Every retained event is the history's event of that sequence. */
  ghost predicate Agrees(events: map<nat, Event>, history: seq<Event>) {
    forall k :: k in events ==> 1 <= k <= |history| && events[k] == history[k - 1]
  }

  /** The table agrees with the history and holds its last `limit` events and its newest snapshot. */
  ghost predicate TableOk(limit: nat, events: map<nat, Event>, history: seq<Event>) {
    && Agrees(events, history)
    && (forall k :: 1 <= k <= |history| && |history| < k + limit ==> k in events)
    && (NewestSnapshot(history) != 0 ==> NewestSnapshot(history) in events)
  }

  /** No sequence of a window has been compacted away. */
  ghost predicate Whole(events: map<nat, Event>, after: nat, upTo: nat) {
    forall k :: after < k <= upTo ==> k in events
  }

  lemma MaxSequenceBound(limit: nat, events: map<nat, Event>, history: seq<Event>)
    requires TableOk(limit, events, history)
    ensures MaxSequence(events) <= |history|
    ensures 1 <= limit ==> MaxSequence(events) == |history|
  {
    hide NewestSnapshot;
    if 1 <= limit && history != [] {
      assert |history| in events;
    }
  }

  lemma {:induction false} CollectNothing(events: map<nat, Event>, after: nat, most: nat, upTo: nat)
    requires most <= upTo && forall k :: k in events ==> k <= most
    ensures Collect(events, after, upTo) == Collect(events, after, most)
    decreases upTo
  {
    if most < upTo {
      CollectNothing(events, after, most, upTo - 1);
    }
  }

  lemma TailIsCollect(events: map<nat, Event>, history: seq<Event>, after: nat)
    requires Agrees(events, history)
    ensures TailAfter(events, after) == Collect(events, after, |history|)
  {
    CollectNothing(events, after, MaxSequence(events), |history|);
  }

  lemma {:induction false} CollectHistory(events: map<nat, Event>, history: seq<Event>, after: nat, upTo: nat)
    requires Agrees(events, history) && Whole(events, after, upTo) && after <= upTo <= |history|
    ensures Collect(events, after, upTo) == history[after..upTo]
    decreases upTo
  {
    if after < upTo {
      CollectHistory(events, history, after, upTo - 1);
      assert history[after..upTo] == history[after..upTo - 1] + [history[upTo - 1]];
    }
  }

  // ----- Views of a prefix -----

  /** The same projection, except that its status time may lag. */
  predicate Trails(p: Projection, q: Projection) {
    p.statusTimestamp <= q.statusTimestamp && p.(statusTimestamp := q.statusTimestamp) == q
  }

  /** A row or base is the fold of the history up to its own revision; unless `exact`, its status time may lag. */
  ghost predicate PrefixView(exact: bool, history: seq<Event>, view: Option<Projection>) {
    view.Some? ==>
      && 1 <= view.value.revision <= |history|
      && Fold(history[..view.value.revision]).Some?
      && Trails(view.value, Fold(history[..view.value.revision]).value)
      && (exact ==> view == Fold(history[..view.value.revision]))
  }

  /** A snapshot that carries an older time than the status it replaces. */
  ghost predicate Backdated(history: seq<Event>, k: nat)
    requires 1 <= k <= |history|
  {
    Fold(history[..k]).Some? && history[k - 1].occurredAt < Fold(history[..k]).value.statusTimestamp
  }

  lemma ApplyTrails(p: Projection, q: Projection, event: Event)
    requires Trails(p, q) && event.sequence == p.revision + 1
    ensures ApplyEvent(p, event).Ok? && ApplyEvent(q, event).Ok?
    ensures var after, ahead := ApplyEvent(p, event).value, ApplyEvent(q, event).value;
            && Trails(after, ahead) && after.revision == event.sequence
            && after.statusTimestamp == Max(p.statusTimestamp, event.occurredAt)
            && ahead.statusTimestamp == Max(q.statusTimestamp, event.occurredAt)
  {
    hide CapFront, StatusTransitionAllowed;
  }

  lemma AdoptTrails(q: Projection, event: Event)
    requires event.payload.Snapshot? && event.sequence == q.revision + 1
    ensures ApplyEvent(q, event).Ok?
    ensures var adopted := Adopted(event.payload.projection, event);
            && Trails(adopted, ApplyEvent(q, event).value) && adopted.revision == event.sequence
            && adopted.statusTimestamp == event.occurredAt
            && ApplyEvent(q, event).value.statusTimestamp == Max(q.statusTimestamp, event.occurredAt)
  {
  }

  /** A later snapshot replaces the view. */
  lemma FoldSnapshotTrails(history: seq<Event>, view: Option<Projection>, k: nat)
    requires Numbered(history) && PrefixView(false, history, view) && Revision(view) < k <= |history|
    requires history[k - 1].payload.Snapshot?
    ensures var after := FoldOne(view, history[k - 1]);
            && Revision(after) == k && PrefixView(false, history, after)
            && (!Backdated(history, k) ==> PrefixView(true, history, after))
  {
    FoldOfPrefix(history, k);
    FoldOfPrefix(history, k - 1);
    FoldStep(history, k - 1);
    hide Fold, ApplyEvent, Adopted, Numbered;
    assert history[k - 1].sequence == k by { Positions(history, k); }
    if k > 1 {
      AdoptTrails(Fold(history[..k - 1]).value, history[k - 1]);
      if view.Some? && k == view.value.revision + 1 {
        ApplyTrails(view.value, Fold(history[..k - 1]).value, history[k - 1]);
      }
    }
  }

  lemma Positions(history: seq<Event>, k: nat)
    requires Numbered(history) && 1 <= k <= |history|
    ensures history[k - 1].sequence == k && (k == 1 ==> history[0].payload.Snapshot?)
  {
  }

  /** The next event extends the view. */
  lemma FoldNextTrails(exact: bool, history: seq<Event>, view: Option<Projection>, k: nat)
    requires Numbered(history) && PrefixView(exact, history, view) && Revision(view) + 1 == k <= |history|
    ensures var after := FoldOne(view, history[k - 1]);
            Revision(after) == k && PrefixView(exact, history, after)
  {
    FoldOfPrefix(history, k);
    FoldOfPrefix(history, k - 1);
    FoldStep(history, k - 1);
    hide Fold, ApplyEvent, Adopted, Numbered;
    Positions(history, k);
    if view.Some? {
      ApplyTrails(view.value, Fold(history[..k - 1]).value, history[k - 1]);
    }
  }

  /** Anything else is ignored. */
  lemma FoldSkips(history: seq<Event>, view: Option<Projection>, k: nat)
    requires Numbered(history) && Revision(view) + 1 < k <= |history| && !history[k - 1].payload.Snapshot?
    ensures FoldOne(view, history[k - 1]) == view
  {
  }

  // ----- The fold of a retained tail -----

  /** The view after the retained events up to a sequence. */
  ghost function ViewAt(events: map<nat, Event>, base: Option<Projection>, upTo: nat): Option<Projection> {
    FoldOnto(base, Collect(events, Revision(base), upTo))
  }

  lemma ViewAtStart(events: map<nat, Event>, base: Option<Projection>)
    ensures ViewAt(events, base, Revision(base)) == base
  {
  }

  lemma ViewAtStep(events: map<nat, Event>, base: Option<Projection>, upTo: nat)
    requires Revision(base) < upTo
    ensures upTo in events ==> ViewAt(events, base, upTo) == FoldOne(ViewAt(events, base, upTo - 1), events[upTo])
    ensures upTo !in events ==> ViewAt(events, base, upTo) == ViewAt(events, base, upTo - 1)
  {
    hide FoldOne;
    var tail := Collect(events, Revision(base), upTo);
    if upTo in events {
      assert tail[..|tail| - 1] == Collect(events, Revision(base), upTo - 1);
    } else {
      assert tail == Collect(events, Revision(base), upTo - 1);
    }
  }

  /** A table and a base that belong to a history. */
  ghost predicate Fits(history: seq<Event>, events: map<nat, Event>, base: Option<Projection>, upTo: nat) {
    && Numbered(history) && Agrees(events, history) && PrefixView(false, history, base)
    && Revision(base) <= upTo <= |history|
  }

  /** A client that folds any retained tail sees the fold of a prefix, up to its status time. */
  lemma {:induction false} ViewTrails(history: seq<Event>, events: map<nat, Event>, base: Option<Projection>, upTo: nat)
    requires Fits(history, events, base, upTo)
    ensures PrefixView(false, history, ViewAt(events, base, upTo)) && Revision(ViewAt(events, base, upTo)) <= upTo
    decreases upTo
  {
    hide ViewAt, FoldOne, PrefixView, Numbered;
    if Revision(base) == upTo {
      ViewAtStart(events, base);
    } else {
      ViewTrails(history, events, base, upTo - 1);
      ViewAtStep(events, base, upTo);
      if upTo in events {
        var view := ViewAt(events, base, upTo - 1);
        if history[upTo - 1].payload.Snapshot? {
          FoldSnapshotTrails(history, view, upTo);
        } else if Revision(view) + 1 == upTo {
          FoldNextTrails(false, history, view, upTo);
        } else {
          FoldSkips(history, view, upTo);
        }
      }
    }
  }

  /** A retained snapshot past the row with everything after it retained. */
  ghost predicate Anchors(history: seq<Event>, events: map<nat, Event>, after: nat, j: nat, upTo: nat)
    requires upTo <= |history|
  {
    after < j <= upTo && history[j - 1].payload.Snapshot? && Whole(events, j - 1, upTo)
  }

  ghost predicate Anchored(history: seq<Event>, events: map<nat, Event>, after: nat, upTo: nat)
    requires upTo <= |history|
  {
    exists j: nat :: Anchors(history, events, after, j, upTo)
  }

  lemma AnchorStep(history: seq<Event>, events: map<nat, Event>, after: nat, upTo: nat, j: nat)
    requires after < upTo <= |history|
    ensures j < upTo && upTo in events ==>
              (Anchors(history, events, after, j, upTo) <==> Anchors(history, events, after, j, upTo - 1))
    ensures upTo in events ==>
              (Anchors(history, events, after, upTo, upTo) <==> history[upTo - 1].payload.Snapshot?)
    ensures upTo !in events ==> !Anchors(history, events, after, j, upTo)
    ensures Whole(events, after, upTo) <==> upTo in events && Whole(events, after, upTo - 1)
  {
    if Whole(events, after, upTo - 1) && upTo in events {
      assert Whole(events, after, upTo);
    }
    if 1 <= j < upTo && upTo in events && Whole(events, j - 1, upTo - 1) {
      assert Whole(events, j - 1, upTo);
    }
  }

  lemma AnchoredStep(history: seq<Event>, events: map<nat, Event>, after: nat, upTo: nat)
    requires after < upTo <= |history|
    ensures Anchored(history, events, after, upTo)
            <==> upTo in events && (history[upTo - 1].payload.Snapshot? || Anchored(history, events, after, upTo - 1))
  {
    hide Anchors, Whole;
    var before := upTo - 1;
    if j: nat :| Anchors(history, events, after, j, upTo) {
      AnchorStep(history, events, after, upTo, j);
      AnchorBound(history, events, after, j, upTo);
    }
    if upTo in events {
      AnchorStep(history, events, after, upTo, upTo);
      if j: nat :| Anchors(history, events, after, j, before) {
        AnchorBound(history, events, after, j, before);
        AnchorStep(history, events, after, upTo, j);
      }
    }
  }

  lemma AnchorBound(history: seq<Event>, events: map<nat, Event>, after: nat, j: nat, upTo: nat)
    requires upTo <= |history| && Anchors(history, events, after, j, upTo)
    ensures after < j <= upTo
  {
  }

  /** The fold reaches a sequence exactly when everything from the row, or from a retained snapshot, is retained. */
  lemma {:induction false} RevisionExactly(history: seq<Event>, events: map<nat, Event>, base: Option<Projection>, upTo: nat)
    requires Fits(history, events, base, upTo)
    ensures Revision(ViewAt(events, base, upTo)) == upTo
            <==> Whole(events, Revision(base), upTo) || Anchored(history, events, Revision(base), upTo)
    decreases upTo
  {
    hide ViewAt, FoldOne, PrefixView, Numbered, Anchored, Whole;
    var after := Revision(base);
    if after == upTo {
      ViewAtStart(events, base);
      EmptyWindow(events, after);
    } else {
      RevisionExactly(history, events, base, upTo - 1);
      ViewTrails(history, events, base, upTo - 1);
      ViewAtStep(events, base, upTo);
      AnchorStep(history, events, after, upTo, upTo);
      AnchoredStep(history, events, after, upTo);
      if upTo in events {
        var view := ViewAt(events, base, upTo - 1);
        if history[upTo - 1].payload.Snapshot? {
          FoldSnapshotTrails(history, view, upTo);
        } else if Revision(view) + 1 == upTo {
          FoldNextTrails(false, history, view, upTo);
        } else {
          FoldSkips(history, view, upTo);
        }
      }
    }
  }

  lemma EmptyWindow(events: map<nat, Event>, after: nat)
    ensures Whole(events, after, after)
  {
  }

  // ----- Exact status times -----

  /** Folding without crossing a gap is exact. */
  lemma {:induction false} WholeIsExact(history: seq<Event>, events: map<nat, Event>, base: Option<Projection>, upTo: nat)
    requires Fits(history, events, base, upTo) && PrefixView(true, history, base) && Whole(events, Revision(base), upTo)
    ensures PrefixView(true, history, ViewAt(events, base, upTo)) && Revision(ViewAt(events, base, upTo)) == upTo
    decreases upTo
  {
    hide ViewAt, FoldOne, PrefixView, Numbered;
    if Revision(base) == upTo {
      ViewAtStart(events, base);
    } else {
      WholeIsExact(history, events, base, upTo - 1);
      ViewAtStep(events, base, upTo);
      FoldNextTrails(true, history, ViewAt(events, base, upTo - 1), upTo);
    }
  }

  /** Past the newest snapshot an exact view stays exact. */
  lemma {:induction false} PlainStaysExact(history: seq<Event>, events: map<nat, Event>, base: Option<Projection>, from: nat, upTo: nat)
    requires Fits(history, events, base, upTo) && Revision(base) <= from <= upTo
    requires PrefixView(true, history, ViewAt(events, base, from))
    requires forall i :: from <= i < upTo ==> !history[i].payload.Snapshot?
    ensures PrefixView(true, history, ViewAt(events, base, upTo))
    decreases upTo
  {
    hide ViewAt, FoldOne, PrefixView, Numbered;
    if from < upTo {
      PlainStaysExact(history, events, base, from, upTo - 1);
      ViewTrails(history, events, base, upTo - 1);
      ViewAtStep(events, base, upTo);
      var view := ViewAt(events, base, upTo - 1);
      if upTo in events {
        if Revision(view) + 1 == upTo {
          FoldNextTrails(true, history, view, upTo);
        } else {
          FoldSkips(history, view, upTo);
        }
      }
    }
  }

  /** What keeps a client's status time exact: no snapshot lies past its row, or nothing is missing up to the newest
      one, or that one is not backdated. */
  ghost predicate Steady(history: seq<Event>, events: map<nat, Event>, after: nat) {
    var newest := NewestSnapshot(history);
    newest <= after || Whole(events, after, newest) || !Backdated(history, newest)
  }

  lemma SteadyIsExact(limit: nat, history: seq<Event>, events: map<nat, Event>, base: Option<Projection>)
    requires Fits(history, events, base, |history|) && PrefixView(true, history, base) && TableOk(limit, events, history)
    requires Steady(history, events, Revision(base))
    ensures PrefixView(true, history, ViewAt(events, base, |history|))
  {
    hide ViewAt, FoldOne, PrefixView, Numbered, Whole, Backdated;
    var newest, after := NewestSnapshot(history), Revision(base);
    if newest <= after {
      ViewAtStart(events, base);
      PlainStaysExact(history, events, base, after, |history|);
    } else {
      if Whole(events, after, newest) {
        WholeIsExact(history, events, base, newest);
      } else {
        ViewTrails(history, events, base, newest - 1);
        ViewAtStep(events, base, newest);
        FoldSnapshotTrails(history, ViewAt(events, base, newest - 1), newest);
      }
      PlainStaysExact(history, events, base, newest, |history|);
    }
  }

  /** Some event from an anchor on is at least this new. */
  ghost predicate Reaches(history: seq<Event>, events: map<nat, Event>, after: nat, upTo: nat, time: nat)
    requires upTo <= |history|
  {
    exists j: nat :: ReachesFrom(history, events, after, j, upTo, time)
  }

  ghost predicate ReachesFrom(history: seq<Event>, events: map<nat, Event>, after: nat, j: nat, upTo: nat, time: nat)
    requires upTo <= |history|
  {
    Anchors(history, events, after, j, upTo) && NewSince(history, j, upTo, time)
  }

  ghost predicate NewSince(history: seq<Event>, j: nat, upTo: nat, time: nat)
    requires upTo <= |history|
  {
    exists i :: j <= i + 1 <= upTo && 0 <= i && time <= history[i].occurredAt
  }

  lemma NewSinceStep(history: seq<Event>, j: nat, upTo: nat, time: nat)
    requires 1 <= j <= upTo <= |history|
    ensures NewSince(history, j, upTo, time)
            <==> time <= history[upTo - 1].occurredAt || (j < upTo && NewSince(history, j, upTo - 1, time))
  {
    if time <= history[upTo - 1].occurredAt {
      var i := upTo - 1;
      assert j <= i + 1 <= upTo && time <= history[i].occurredAt;
    }
  }

  /** With one more event retained, an anchored run reaches a time with that event or reached it before. */
  lemma ReachesStep(history: seq<Event>, events: map<nat, Event>, after: nat, upTo: nat, time: nat)
    requires after < upTo <= |history| && upTo in events
    ensures Reaches(history, events, after, upTo, time)
            <==> (Anchored(history, events, after, upTo) && time <= history[upTo - 1].occurredAt)
                 || Reaches(history, events, after, upTo - 1, time)
  {
    hide Anchors, Whole, NewSince;
    var before := upTo - 1;
    if j: nat :| ReachesFrom(history, events, after, j, upTo, time) {
      AnchorBound(history, events, after, j, upTo);
      NewSinceStep(history, j, upTo, time);
      if j < upTo {
        AnchorStep(history, events, after, upTo, j);
        assert NewSince(history, j, before, time) ==> ReachesFrom(history, events, after, j, before, time);
      }
    }
    if j: nat :| Anchors(history, events, after, j, upTo) {
      AnchorBound(history, events, after, j, upTo);
      NewSinceStep(history, j, upTo, time);
      assert time <= history[upTo - 1].occurredAt ==> ReachesFrom(history, events, after, j, upTo, time);
    }
    if j: nat :| ReachesFrom(history, events, after, j, before, time) {
      AnchorBound(history, events, after, j, before);
      AnchorStep(history, events, after, upTo, j);
      NewSinceStep(history, j, upTo, time);
      assert ReachesFrom(history, events, after, j, upTo, time);
    }
  }

  lemma ReachesIsAnchored(history: seq<Event>, events: map<nat, Event>, after: nat, upTo: nat, time: nat)
    requires upTo <= |history| && Reaches(history, events, after, upTo, time)
    ensures Anchored(history, events, after, upTo)
  {
  }

  ghost function TimeOf(view: Option<Projection>): nat {
    if view.Some? then view.value.statusTimestamp else 0
  }

  lemma TimeOfFold(history: seq<Event>, view: Option<Projection>, k: nat)
    requires Numbered(history) && PrefixView(false, history, view) && Revision(view) < k <= |history|
    ensures var after := FoldOne(view, history[k - 1]);
            && (Revision(view) + 1 == k ==> TimeOf(after) == Max(TimeOf(view), history[k - 1].occurredAt))
            && (Revision(view) + 1 != k && history[k - 1].payload.Snapshot? ==> TimeOf(after) == history[k - 1].occurredAt)
  {
    Positions(history, k);
    hide Fold, Numbered, CapFront, StatusTransitionAllowed;
  }

  /** Once the fold has crossed a gap, its status time is the newest time since the snapshot it restarted from. */
  lemma {:induction false} TimeSinceAnchor(history: seq<Event>, events: map<nat, Event>, base: Option<Projection>, upTo: nat, time: nat)
    requires Fits(history, events, base, upTo) && !Whole(events, Revision(base), upTo)
    requires Revision(ViewAt(events, base, upTo)) == upTo
    ensures time <= TimeOf(ViewAt(events, base, upTo)) <==> Reaches(history, events, Revision(base), upTo, time)
    decreases upTo
  {
    hide ViewAt, FoldOne, PrefixView, Numbered, Anchored, Whole, TimeOf, Reaches;
    var after := Revision(base);
    if after == upTo {
      EmptyWindow(events, after);
      assert false;
    } else {
      var view := ViewAt(events, base, upTo - 1);
      ViewTrails(history, events, base, upTo - 1);
      ViewAtStep(events, base, upTo);
      AnchorStep(history, events, after, upTo, upTo);
      AnchoredStep(history, events, after, upTo);
      RevisionExactly(history, events, base, upTo);
      RevisionExactly(history, events, base, upTo - 1);
      ReachesStep(history, events, after, upTo, time);
      TimeOfFold(history, view, upTo);
      if Revision(view) == upTo - 1 {
        TimeSinceAnchor(history, events, base, upTo - 1, time);
      } else if Reaches(history, events, after, upTo - 1, time) {
        ReachesIsAnchored(history, events, after, upTo - 1, time);
        assert false;
      }
    }
  }

  // ----- When a tail heals its row -----

  /** Some event from a sequence on is at least as new as every event. */
  ghost predicate Recovers(history: seq<Event>, j: nat) {
    exists i :: j <= i + 1 <= |history| && 0 <= i && NewestAt(history, i)
  }

  ghost predicate NewestAt(history: seq<Event>, i: nat)
    requires i < |history|
  {
    forall k :: 0 <= k < |history| ==> history[k].occurredAt <= history[i].occurredAt
  }

  lemma {:induction false} FoldTime(history: seq<Event>)
    requires Numbered(history) && history != []
    ensures forall k :: 0 <= k < |history| ==> history[k].occurredAt <= TimeOf(Fold(history))
    ensures exists k :: 0 <= k < |history| && history[k].occurredAt == TimeOf(Fold(history))
  {
    var n := |history|;
    var front := history[..n - 1];
    FoldOfNumbered(history);
    FoldOfPrefix(history, n - 1);
    Positions(history, n);
    if n > 1 {
      FoldTime(front);
      assert TimeOf(Fold(history)) == Max(TimeOf(Fold(front)), history[n - 1].occurredAt) by { FoldTimeStep(history); }
      var k :| 0 <= k < |front| && front[k].occurredAt == TimeOf(Fold(front));
      assert history[k] == front[k] && history[n - 1].sequence == n;
      hide Fold;
      forall i | 0 <= i < n ensures history[i].occurredAt <= TimeOf(Fold(history)) {
        assert i < n - 1 ==> history[i] == front[i];
      }
    }
  }

  lemma FoldTimeStep(history: seq<Event>)
    requires Numbered(history) && |history| > 1
    ensures var front := history[..|history| - 1];
            TimeOf(Fold(history)) == Max(TimeOf(Fold(front)), history[|history| - 1].occurredAt)
  {
    FoldOfPrefix(history, |history| - 1);
    hide CapFront, StatusTransitionAllowed;
  }

  lemma RecoversIsReaching(history: seq<Event>, j: nat)
    requires Numbered(history) && 1 <= j <= |history|
    ensures Recovers(history, j) <==> NewSince(history, j, |history|, TimeOf(Fold(history)))
  {
    hide Fold, TimeOf;
    FoldTime(history);
    var k :| 0 <= k < |history| && history[k].occurredAt == TimeOf(Fold(history));
    if i :| j <= i + 1 <= |history| && 0 <= i && NewestAt(history, i) {
      assert history[k].occurredAt <= history[i].occurredAt;
    }
    if i :| j <= i + 1 <= |history| && 0 <= i && TimeOf(Fold(history)) <= history[i].occurredAt {
      assert NewestAt(history, i);
    }
  }

  /** Exactly when folding the retained tail onto an exact row gives the whole history: nothing past the row is
      missing, or a retained snapshot past it has everything after it retained and no event before it is newer than
      all of those. */
  lemma FoldHealsExactly(limit: nat, history: seq<Event>, events: map<nat, Event>, base: Option<Projection>)
    requires Numbered(history) && TableOk(limit, events, history) && PrefixView(true, history, base)
    ensures FoldOnto(base, TailAfter(events, Revision(base))) == Fold(history)
            <==> || Whole(events, Revision(base), |history|)
                 || exists j: nat :: Anchors(history, events, Revision(base), j, |history|) && Recovers(history, j)
  {
    hide Fold, FoldOnto, Numbered, Recovers, Anchors, Whole, Reaches, TimeOf;
    var after, n := Revision(base), |history|;
    TailIsCollect(events, history, after);
    var view := ViewAt(events, base, n);
    ViewTrails(history, events, base, n);
    RevisionExactly(history, events, base, n);
    assert history[..n] == history;
    FoldOfNumbered(history);
    if Whole(events, after, n) {
      WholeIsExact(history, events, base, n);
      NothingFolded(history, view);
    } else if Revision(view) == n {
      TimeSinceAnchor(history, events, base, n, TimeOf(Fold(history)));
      EqualByTime(history, view);
      ReachesWhenRecovers(history, events, after);
    }
  }

  lemma NothingFolded(history: seq<Event>, view: Option<Projection>)
    requires Numbered(history) && PrefixView(true, history, view) && Revision(view) == |history|
    ensures view == Fold(history)
  {
    FoldOfNumbered(history);
    assert history[..|history|] == history;
  }

  lemma EqualByTime(history: seq<Event>, view: Option<Projection>)
    requires Numbered(history) && PrefixView(false, history, view) && Revision(view) == |history|
    ensures view == Fold(history) <==> TimeOf(Fold(history)) <= TimeOf(view)
  {
    FoldOfNumbered(history);
    hide Fold;
    assert history[..|history|] == history;
  }

  lemma ReachesWhenRecovers(history: seq<Event>, events: map<nat, Event>, after: nat)
    requires Numbered(history)
    ensures Reaches(history, events, after, |history|, TimeOf(Fold(history)))
            <==> exists j: nat :: Anchors(history, events, after, j, |history|) && Recovers(history, j)
  {
    hide Fold, TimeOf, Anchors, NewSince, Recovers, Numbered;
    var n, time := |history|, TimeOf(Fold(history));
    if j: nat :| ReachesFrom(history, events, after, j, n, time) {
      AnchorBound(history, events, after, j, n);
      RecoversIsReaching(history, j);
    }
    if j: nat :| Anchors(history, events, after, j, n) && Recovers(history, j) {
      AnchorBound(history, events, after, j, n);
      RecoversIsReaching(history, j);
      assert ReachesFrom(history, events, after, j, n, time);
    }
  }

  lemma NoAnchor(history: seq<Event>, events: map<nat, Event>, after: nat, j: nat)
    requires NewestSnapshot(history) <= after
    ensures !Anchors(history, events, after, j, |history|)
  {
    hide Whole;
  }

  /** With no snapshot past the row, the fold is the whole history exactly when the window past the row is whole. */
  lemma PlainTailHealsExactly(limit: nat, history: seq<Event>, events: map<nat, Event>, base: Option<Projection>)
    requires Numbered(history) && TableOk(limit, events, history) && PrefixView(true, history, base)
    requires NewestSnapshot(history) <= Revision(base)
    ensures FoldOnto(base, TailAfter(events, Revision(base))) == Fold(history)
            <==> Whole(events, Revision(base), |history|)
  {
    hide Fold, FoldOnto, Numbered, Recovers, Whole;
    FoldHealsExactly(limit, history, events, base);
    forall j: nat ensures !Anchors(history, events, Revision(base), j, |history|) {
      NoAnchor(history, events, Revision(base), j);
    }
  }

  /** The window that decides how far a fold gets, for the tables the log keeps. */
  ghost function Restart(history: seq<Event>, base: Option<Projection>): nat {
    Max(Revision(base), NewestSnapshot(history))
  }

  /** Where a fold restarts, it stands. */
  lemma ViewRestarts(limit: nat, history: seq<Event>, events: map<nat, Event>, base: Option<Projection>)
    requires Fits(history, events, base, |history|) && TableOk(limit, events, history)
    ensures Restart(history, base) <= |history|
    ensures Revision(ViewAt(events, base, Restart(history, base))) == Restart(history, base)
  {
    hide ViewAt, FoldOne, PrefixView, Numbered, Agrees;
    var newest := NewestSnapshot(history);
    if Revision(base) < newest {
      ViewTrails(history, events, base, newest - 1);
      ViewAtStep(events, base, newest);
      FoldSnapshotTrails(history, ViewAt(events, base, newest - 1), newest) by { assert history[newest - 1].payload.Snapshot?; }
      assert events[newest] == history[newest - 1] by { AgreesAt(events, history, newest); }
    } else {
      ViewAtStart(events, base);
    }
  }

  lemma AgreesAt(events: map<nat, Event>, history: seq<Event>, k: nat)
    requires Agrees(events, history) && k in events
    ensures 1 <= k <= |history| && events[k] == history[k - 1]
  {
  }

  /** From there it goes as far as nothing is missing, and no further. */
  lemma {:induction false} ViewCovers(limit: nat, history: seq<Event>, events: map<nat, Event>, base: Option<Projection>, upTo: nat)
    requires Fits(history, events, base, |history|) && TableOk(limit, events, history)
    requires Restart(history, base) <= upTo <= |history|
    ensures var r, reached := Restart(history, base), Revision(ViewAt(events, base, upTo));
            r <= reached <= upTo && Whole(events, r, reached) && (reached < upTo ==> reached + 1 !in events)
    decreases upTo
  {
    hide ViewAt, FoldOne, PrefixView, Numbered, TableOk, Agrees;
    if upTo == Restart(history, base) {
      ViewRestarts(limit, history, events, base);
    } else {
      ViewCovers(limit, history, events, base, upTo - 1);
      ViewAtStep(events, base, upTo);
      if upTo in events {
        var view := ViewAt(events, base, upTo - 1);
        ViewTrails(history, events, base, upTo - 1);
        AgreesAt(events, history, upTo);
        assert !history[upTo - 1].payload.Snapshot? by { PastNewest(history, upTo); }
        if Revision(view) + 1 == upTo {
          FoldNextTrails(false, history, view, upTo);
        } else {
          FoldSkips(history, view, upTo);
        }
      }
    }
  }

  lemma PastNewest(history: seq<Event>, k: nat)
    requires NewestSnapshot(history) < k <= |history|
    ensures !history[k - 1].payload.Snapshot?
  {
  }

  /** A fold covers a sequence exactly when nothing from its row, or from the newest snapshot, up to there is missing. */
  lemma ViewCoversExactly(limit: nat, history: seq<Event>, events: map<nat, Event>, base: Option<Projection>, upTo: nat)
    requires Fits(history, events, base, |history|) && TableOk(limit, events, history) && upTo <= |history|
    ensures upTo <= Revision(ViewAt(events, base, |history|)) <==> Whole(events, Restart(history, base), upTo)
  {
    hide ViewAt, PrefixView, Numbered, TableOk, Restart;
    ViewRestarts(limit, history, events, base);
    ViewCovers(limit, history, events, base, |history|);
  }
}
