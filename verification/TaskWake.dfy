/** How streams are woken: a watcher is opened before the projection is read, appends signal it, and the stream
    drains the log when a signal arrives.  A projection read may fall short of the log's end.  Two watchers exist: a broadcast channel that drops old hints, and a
    poll of the log's high watermark. */
module TaskWake {
  import opened Common

  const EVENT_WATCH_BUFFER: nat := 64
  const MAX_POLL_FAILURES: nat := 3

  type StreamId = nat

  /** A task's broadcast sender: how many hints it has sent, and who holds a receiver. */
  datatype Channel = Channel(id: nat, sent: nat, receivers: set<StreamId>)

  /** A receiver's place in its channel, or a poller's baseline and how many reads of its wait have failed in a row. */
  datatype Source = Receiver(channel: nat, next: nat) | Poller(baseline: nat, failures: nat)

  /** Where a stream stands: watcher opened; projection read, replay still to come; waiting; woken and about to
      drain; or told that its watcher is gone. */
  datatype Phase = Subscribed | Opening | Idle | Woken | Abandoned

  /** `last` is the stream's cursor, `fed` the log's length when it last set it. */
  datatype Stream = Stream(source: Source, last: nat, fed: nat, phase: Phase)

  /** The log's length, its task's sender if the watcher map holds one, and the streams. */
  datatype State = State(length: nat, sender: Option<Channel>, nextChannel: nat, streams: map<StreamId, Stream>)

  const INITIAL: State := State(0, None, 0, map[])

  datatype Action =
    | Append
    | Sweep
    | WatchBroadcast(id: StreamId)
    | WatchPoll(id: StreamId, readFailed: bool)
    | ReadProjection(id: StreamId, short: nat)
    | OpenReplay(id: StreamId, answered: bool)
    | Receive(id: StreamId)
    | PollOnce(id: StreamId)
    | PollFails(id: StreamId)
    | TimeOut(id: StreamId)
    | Drain(id: StreamId, short: nat)
    | Disconnect(id: StreamId)

  /** Removes a sender nobody listens to. */
  function Swept(sender: Option<Channel>): Option<Channel> {
    if sender.Some? && sender.value.receivers == {} then None else sender
  }

  /** `subscribe` on a task's sender, created when absent. */
  function Subscribe(s: State, id: StreamId): State {
    var kept := Swept(s.sender);
    var channel := if kept.Some? then kept.value else Channel(s.nextChannel, 0, {});
    s.(sender := Some(channel.(receivers := channel.receivers + {id})),
       nextChannel := if kept.Some? then s.nextChannel else s.nextChannel + 1,
       streams := s.streams[id := Stream(Receiver(channel.id, channel.sent), 0, 0, Subscribed)])
  }

  /** A receiver reads the oldest hint it has not seen; one that fell more than the buffer behind skips ahead. */
  function Received(source: Source, channel: Channel): Source
    requires source.Receiver? && source.next < channel.sent
  {
    if channel.sent - source.next > EVENT_WATCH_BUFFER then source.(next := channel.sent - EVENT_WATCH_BUFFER)
    else source.(next := source.next + 1)
  }

  predicate Listening(s: State, source: Source) {
    source.Receiver? && s.sender.Some? && s.sender.value.id == source.channel
  }

  predicate WaitingPoller(s: State, id: StreamId) {
    id in s.streams && s.streams[id].phase == Idle && s.streams[id].source.Poller?
  }

  /** A stream that replays the log stands at its end; one that takes a projection stands `short` of it. */
  function Fed(s: State, stream: Stream, short: nat): Stream {
    stream.(last := if short <= s.length then s.length - short else 0, fed := s.length)
  }

  function Step(s: State, a: Action): State {
    match a
    case Append =>
      var sender := Swept(s.sender);
      s.(length := s.length + 1,
         sender := if sender.Some? then Some(sender.value.(sent := sender.value.sent + 1)) else None)
    case Sweep => s.(sender := Swept(s.sender))
    case WatchBroadcast(id) => if id in s.streams then s else Subscribe(s, id)
    case WatchPoll(id, readFailed) =>
      if id in s.streams then s
      else s.(streams := s.streams[id := Stream(Poller(if readFailed then 0 else s.length, 0), 0, 0, Subscribed)])
    case ReadProjection(id, short) =>
      if id !in s.streams || s.streams[id].phase != Subscribed then s
      else s.(streams := s.streams[id := Fed(s, s.streams[id], short).(phase := Opening)])
    case OpenReplay(id, answered) =>
      // A stream whose replay is refused, or that asks for none, stays where its projection stands.
      if id !in s.streams || s.streams[id].phase != Opening then s
      else s.(streams := s.streams[id := (if answered then Fed(s, s.streams[id], 0) else s.streams[id]).(phase := Idle)])
    case Receive(id) =>
      if id !in s.streams || s.streams[id].phase != Idle || !s.streams[id].source.Receiver? then s
      else
        var stream := s.streams[id];
        if !Listening(s, stream.source) then s.(streams := s.streams[id := stream.(phase := Abandoned)])
        else if stream.source.next >= s.sender.value.sent then s
        else s.(streams := s.streams[id := stream.(source := Received(stream.source, s.sender.value), phase := Woken)])
    case PollOnce(id) =>
      if !WaitingPoller(s, id) then s
      else if s.length > s.streams[id].source.baseline
      then s.(streams := s.streams[id := s.streams[id].(source := Poller(s.length, 0), phase := Woken)])
      else s.(streams := s.streams[id := s.streams[id].(source := s.streams[id].source.(failures := 0))])
    case PollFails(id) =>
      if !WaitingPoller(s, id) then s
      else
        var source := s.streams[id].source.(failures := s.streams[id].source.failures + 1);
        s.(streams := s.streams[id := s.streams[id].(source := source,
                                                     phase := if source.failures >= MAX_POLL_FAILURES then Abandoned else Idle)])
    case TimeOut(id) =>
      // The stream's timer ends the wait; the next one counts its failures afresh.
      if !WaitingPoller(s, id) then s
      else s.(streams := s.streams[id := s.streams[id].(source := s.streams[id].source.(failures := 0))])
    case Drain(id, short) =>
      // Short of the end only when the replay is refused and the stream resynchronizes from a projection.
      if id !in s.streams || s.streams[id].phase != Woken then s
      else s.(streams := s.streams[id := Fed(s, s.streams[id], short).(phase := Idle)])
    case Disconnect(id) =>
      if id !in s.streams then s
      else s.(streams := s.streams - {id},
              sender := if s.sender.Some? then Some(s.sender.value.(receivers := s.sender.value.receivers - {id})) else None)
  }

  function Exec(actions: seq<Action>): State {
    if actions == [] then INITIAL else Step(Exec(actions[..|actions| - 1]), actions[|actions| - 1])
  }

  // ----- The invariant -----

  /** A receiver is subscribed to the sender appends will use, and is never ahead of it. */
  predicate Connected(s: State, id: StreamId, source: Source) {
    source.Receiver? ==>
      Listening(s, source) && id in s.sender.value.receivers && source.next <= s.sender.value.sent
  }

  /** What lets a waiting stream be woken. */
  predicate Wakes(s: State, stream: Stream) {
    match stream.source
    case Receiver(_, next) => Listening(s, stream.source) && next < s.sender.value.sent
    case Poller(baseline, _) => baseline < s.length
  }

  predicate StreamOk(s: State, id: StreamId, stream: Stream) {
    && Connected(s, id, stream.source) && stream.last <= stream.fed <= s.length
    && (stream.phase == Abandoned ==> stream.source.Poller?)
    && (stream.source.Poller? ==> stream.source.baseline <= s.length)
    && (stream.phase == Opening || stream.phase == Idle ==> stream.source.Poller? ==> stream.source.baseline <= stream.fed)
    && (stream.phase == Opening || stream.phase == Idle ==> stream.fed < s.length ==> Wakes(s, stream))
  }

  ghost predicate Inv(s: State) {
    forall id :: id in s.streams ==> StreamOk(s, id, s.streams[id])
  }

  lemma AppendKeeps(s: State)
    requires Inv(s)
    ensures Inv(Step(s, Append))
  {
    var after := Step(s, Append);
    forall id | id in after.streams ensures StreamOk(after, id, after.streams[id]) {
      assert StreamOk(s, id, s.streams[id]);
    }
  }

  lemma StepKeeps(s: State, a: Action)
    requires Inv(s)
    ensures Inv(Step(s, a))
  {
    if a.Append? {
      AppendKeeps(s);
    } else {
      var after := Step(s, a);
      forall id | id in after.streams ensures StreamOk(after, id, after.streams[id]) {
        if id in s.streams {
          assert StreamOk(s, id, s.streams[id]);
        }
      }
    }
  }

  lemma {:induction false} RunKeeps(actions: seq<Action>)
    ensures Inv(Exec(actions))
  {
    if actions != [] {
      hide Inv, Step;
      RunKeeps(actions[..|actions| - 1]);
      StepKeeps(Exec(actions[..|actions| - 1]), actions[|actions| - 1]);
    }
  }

  /** A waiting stream's next look at its signal ends the wait. */
  predicate NextLookWakes(s: State, id: StreamId)
    requires id in s.streams
  {
    match s.streams[id].source
    case Receiver(_, _) => id in Step(s, Receive(id)).streams && Step(s, Receive(id)).streams[id].phase == Woken
    case Poller(_, _) => id in Step(s, PollOnce(id)).streams && Step(s, PollOnce(id)).streams[id].phase == Woken
  }

  lemma WakesExactly(s: State, id: StreamId)
    requires Inv(s) && id in s.streams && s.streams[id].phase == Idle
    ensures NextLookWakes(s, id) <==> Wakes(s, s.streams[id])
  {
    assert StreamOk(s, id, s.streams[id]);
  }

  /** No lost wake-up: a stream that waits on its signal while the log is ahead of it is woken by its next look, if the
      log has grown since the stream last read it, if that read reached the log's end, or if the stream polls from a
      baseline it has itself passed. */
  lemma NoLostWakeup(actions: seq<Action>, id: StreamId)
    requires id in Exec(actions).streams && Exec(actions).streams[id].phase == Idle
    requires var s := Exec(actions);
             var stream := s.streams[id];
             && stream.last < s.length
             && (stream.fed < s.length || stream.last == stream.fed || (stream.source.Poller? && stream.source.baseline <= stream.last))
    ensures NextLookWakes(Exec(actions), id)
  {
    hide Exec, NextLookWakes;
    RunKeeps(actions);
    assert StreamOk(Exec(actions), id, Exec(actions).streams[id]);
    WakesExactly(Exec(actions), id);
  }

  /** The wake-up is lost exactly when no hint is unread, or the baseline is the log's length: then the stream's last
      read fell short of a log that has not grown since. */
  lemma WakeupLostExactly(actions: seq<Action>, id: StreamId)
    requires id in Exec(actions).streams && Exec(actions).streams[id].phase == Idle
    requires Exec(actions).streams[id].last < Exec(actions).length
    ensures var s := Exec(actions);
            var stream := s.streams[id];
            && (stream.source.Receiver? ==> Listening(s, stream.source))
            && (!NextLookWakes(s, id) <==> match stream.source
                                           case Receiver(_, next) => next == s.sender.value.sent
                                           case Poller(baseline, _) => baseline == s.length)
            && (!NextLookWakes(s, id) ==> stream.last < stream.fed == s.length)
  {
    hide Exec, NextLookWakes;
    RunKeeps(actions);
    assert StreamOk(Exec(actions), id, Exec(actions).streams[id]);
    WakesExactly(Exec(actions), id);
  }

  /** A lost wake-up lasts until the next append: that one is always heard. */
  lemma AppendIsHeard(actions: seq<Action>, id: StreamId)
    requires id in Exec(actions).streams && Exec(actions).streams[id].phase == Idle
    ensures var after := Exec(actions + [Append]);
            id in after.streams && after.streams[id].phase == Idle && NextLookWakes(after, id)
  {
    hide NextLookWakes;
    var longer := actions + [Append];
    assert longer[..|actions|] == actions;
    RunKeeps(longer);
    RunKeeps(actions);
    hide Exec;
    assert StreamOk(Exec(actions), id, Exec(actions).streams[id]);
    assert Exec(longer) == Step(Exec(actions), Append) by { ExecLast(longer); }
    NoLostWakeup(longer, id);
  }

  /** Every projection a stream takes reaches the log's end. */
  predicate ReadsWhole(actions: seq<Action>) {
    forall i :: 0 <= i < |actions| ==>
      match actions[i]
      case ReadProjection(_, short) => short == 0
      case Drain(_, short) => short == 0
      case _ => true
  }

  lemma {:induction false} WholeReadsKeepUp(actions: seq<Action>, id: StreamId)
    requires ReadsWhole(actions) && id in Exec(actions).streams
    ensures Exec(actions).streams[id].last == Exec(actions).streams[id].fed
    decreases |actions|
  {
    hide Exec;
    assert actions != [] by { NothingAtFirst(); }
    ExecLast(actions);
    var front := actions[..|actions| - 1];
    if id in Exec(front).streams {
      WholeReadsKeepUp(front, id);
    }
  }

  /** Then no wake-up is ever lost. */
  lemma WholeReadsLoseNothing(actions: seq<Action>, id: StreamId)
    requires ReadsWhole(actions) && id in Exec(actions).streams && Exec(actions).streams[id].phase == Idle
    requires Exec(actions).streams[id].last < Exec(actions).length
    ensures NextLookWakes(Exec(actions), id)
  {
    hide *;
    WholeReadsKeepUp(actions, id);
    NoLostWakeup(actions, id);
  }

  /** A stream that opens with a projection short of the log's end, and has its replay refused, loses the wake-up at
      once on either watcher, whatever ran before: it waits behind the log for a signal with nothing to tell. */
  lemma ShortReadLosesWakeup(actions: seq<Action>, id: StreamId, watch: Action, short: nat)
    requires id !in Exec(actions).streams && 0 < short <= Exec(actions).length
    requires watch == WatchBroadcast(id) || watch == WatchPoll(id, false)
    ensures var s := Exec(actions + [watch] + [ReadProjection(id, short)] + [OpenReplay(id, false)]);
            && s.length == Exec(actions).length && id in s.streams && s.streams[id].phase == Idle
            && s.streams[id].last == s.length - short && !NextLookWakes(s, id)
  {
    var watching := actions + [watch];
    var reading := watching + [ReadProjection(id, short)];
    var open := reading + [OpenReplay(id, false)];
    assert watching[..|actions|] == actions && reading[..|actions| + 1] == watching && open[..|actions| + 2] == reading;
    hide Exec;
    ExecLast(watching);
    ExecLast(reading);
    ExecLast(open);
  }

  /** A stream on the broadcast channel is never told that its watcher is gone. */
  lemma ReceiversNeverAbandoned(actions: seq<Action>, id: StreamId)
    requires id in Exec(actions).streams && Exec(actions).streams[id].source.Receiver?
    ensures Exec(actions).streams[id].phase != Abandoned
  {
    hide Exec;
    RunKeeps(actions);
    assert StreamOk(Exec(actions), id, Exec(actions).streams[id]);
  }

  // ----- When a poller gives up -----

  predicate Addresses(a: Action, id: StreamId) {
    !a.Append? && !a.Sweep? && a.id == id
  }

  /** How many reads of a stream's watcher have failed since anything else happened to the stream. */
  function FailedInARow(actions: seq<Action>, id: StreamId): nat {
    if actions == [] then 0
    else
      var front, last := actions[..|actions| - 1], actions[|actions| - 1];
      if !Addresses(last, id) || Step(Exec(front), last) == Exec(front) then FailedInARow(front, id)
      else if last.PollFails? then FailedInARow(front, id) + 1
      else 0
  }

  lemma {:induction false} FailuresCounted(actions: seq<Action>, id: StreamId)
    requires id in Exec(actions).streams && Exec(actions).streams[id].source.Poller?
    ensures var stream := Exec(actions).streams[id];
            && stream.source.failures == FailedInARow(actions, id)
            && (stream.phase == Abandoned <==> stream.source.failures >= MAX_POLL_FAILURES)
            && (stream.phase != Abandoned && stream.phase != Idle ==> stream.source.failures == 0)
  {
    hide Exec;
    assert actions != [] by { NothingAtFirst(); }
    var front, last := actions[..|actions| - 1], actions[|actions| - 1];
    var before := Exec(front);
    assert Exec(actions) == Step(before, last) by { ExecLast(actions); }
    if id in before.streams {
      SourcesStay(before, last, id);
      FailuresCounted(front, id);
      CountStep(before, last, id);
      if Addresses(last, id) && Step(before, last) == before {
        assert before.streams[id] == Step(before, last).streams[id];
      }
    } else {
      BornQuiet(before, last, id);
    }
  }

  lemma NothingAtFirst()
    ensures Exec([]) == INITIAL
  {
  }

  lemma ExecLast(actions: seq<Action>)
    requires actions != []
    ensures Exec(actions) == Step(Exec(actions[..|actions| - 1]), actions[|actions| - 1])
  {
  }

  lemma SourcesStay(s: State, a: Action, id: StreamId)
    requires id in s.streams && id in Step(s, a).streams
    ensures Step(s, a).streams[id].source.Poller? <==> s.streams[id].source.Poller?
  {
  }

  lemma BornQuiet(s: State, a: Action, id: StreamId)
    requires id !in s.streams && id in Step(s, a).streams && Step(s, a).streams[id].source.Poller?
    ensures Addresses(a, id) && !a.PollFails? && Step(s, a) != s
    ensures Step(s, a).streams[id].source.failures == 0 && Step(s, a).streams[id].phase == Subscribed
  {
  }

  /** What each action does to one poller's count. */
  lemma CountStep(s: State, a: Action, id: StreamId)
    requires id in s.streams && id in Step(s, a).streams && s.streams[id].source.Poller?
    requires s.streams[id].phase == Abandoned <==> s.streams[id].source.failures >= MAX_POLL_FAILURES
    requires s.streams[id].phase != Abandoned && s.streams[id].phase != Idle ==> s.streams[id].source.failures == 0
    ensures var before, after := s.streams[id], Step(s, a).streams[id];
            && (!Addresses(a, id) ==> after == before)
            && (Addresses(a, id) && Step(s, a) != s ==>
                  after.source.failures == if a.PollFails? then before.source.failures + 1 else 0)
            && (after.phase == Abandoned <==> after.source.failures >= MAX_POLL_FAILURES)
            && (after.phase != Abandoned && after.phase != Idle ==> after.source.failures == 0)
  {
  }

  /** A polling stream is told that its watcher is gone exactly when three reads of one wait have failed in a row. */
  lemma PollersAbandonedExactly(actions: seq<Action>, id: StreamId)
    requires id in Exec(actions).streams && Exec(actions).streams[id].source.Poller?
    ensures Exec(actions).streams[id].phase == Abandoned <==> FailedInARow(actions, id) >= MAX_POLL_FAILURES
  {
    hide Exec, FailedInARow;
    FailuresCounted(actions, id);
  }

  // ----- Why the order matters -----

  /** Reading the projection before opening the watcher loses the wake-up: an event appended in between leaves the
      stream idle and behind with nothing to wake it. */
  lemma SubscribingLateLosesWakeups(s: State, id: StreamId)
    requires Inv(s) && id !in s.streams
    ensures var read := s.length;
            var watched := Step(Step(s, Append), WatchBroadcast(id));
            var idle := watched.(streams := watched.streams[id := watched.streams[id].(last := read, fed := read, phase := Idle)]);
            && idle.streams[id].last < idle.length && !Wakes(idle, idle.streams[id])
            && Step(idle, Receive(id)) == idle
  {
  }
}
