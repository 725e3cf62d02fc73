/** events.py: the in-memory log of a review's progress events and the streams that follow it. */
module Events {
  import opened Text

  datatype Event = Event(runId: string, sequence: nat, eventType: string, payload: string)

  const REVIEW_COMPLETED := "review_completed"
  const REVIEW_FAILED := "review_failed"

  predicate IsTerminal(eventType: string) {
    eventType == REVIEW_COMPLETED || eventType == REVIEW_FAILED
  }

  lemma TerminalTypes(eventType: string)
    ensures IsTerminal(eventType) <==> eventType in {"review_completed", "review_failed"}
  {
  }

  // ---------------------------------------------------------------- the log of one run

  function Min(a: nat, b: nat): nat {
    if a <= b then a else b
  }

  /** The last events, at most as many as the cap. */
  function LastOf(events: seq<Event>, cap: nat): seq<Event> {
    if |events| > cap then events[|events| - cap..] else events
  }

  function NextEvent(log: seq<Event>, runId: string, eventType: string, payload: string): Event {
    Event(runId, |log| + 1, eventType, payload)
  }

  /** The events after a sequence number. */
  function After(log: seq<Event>, sequence: int): seq<Event> {
    if log == [] then []
    else (if log[0].sequence > sequence then [log[0]] else []) + After(log[1..], sequence)
  }

  /** The bus law for any cap: the k-th publish has number min(k, cap + 1) and the log is what was
      published last. */
  ghost predicate BusLaw(cap: nat, history: seq<Event>, log: seq<Event>) {
    && (forall k :: 0 <= k < |history| ==> history[k].sequence == Min(k + 1, cap + 1))
    && log == LastOf(history, cap)
  }

  lemma PublishKeepsLaw(
      cap: nat, history: seq<Event>, log: seq<Event>, runId: string, eventType: string, payload: string)
    requires BusLaw(cap, history, log)
    ensures var e := NextEvent(log, runId, eventType, payload);
            BusLaw(cap, history + [e], LastOf(log + [e], cap))
  {
  }

  /** The law for every run of a bus. */
  ghost predicate AllLaws(cap: nat, history: map<string, seq<Event>>, events: map<string, seq<Event>>) {
    && events.Keys == history.Keys
    && forall run :: run in events ==> BusLaw(cap, history[run], events[run])
  }

  lemma AllLawsNext(cap: nat, history: map<string, seq<Event>>, events: map<string, seq<Event>>,
                    run: string, newHistory: seq<Event>, newLog: seq<Event>)
    requires AllLaws(cap, history, events)
    ensures BusLaw(cap, newHistory, newLog) ==> AllLaws(cap, history[run := newHistory], events[run := newLog])
  {
  }

  lemma PublishKeepsAllLaws(
      cap: nat, history: map<string, seq<Event>>, events: map<string, seq<Event>>, run: string, past: seq<Event>,
      log: seq<Event>, e: Event)
    requires past == (if run in history then history[run] else []) && log == (if run in events then events[run] else [])
    requires e.sequence == |log| + 1
    ensures AllLaws(cap, history, events) ==>
              AllLaws(cap, history[run := past + [e]], events[run := LastOf(log + [e], cap)])
  {
    if AllLaws(cap, history, events) {
      PublishKeepsLaw(cap, past, log, e.runId, e.eventType, e.payload);
      AllLawsNext(cap, history, events, run, past + [e], LastOf(log + [e], cap));
    }
  }

  class InMemoryReviewEventBus {
    const maxEventsPerRun: nat
    var events: map<string, seq<Event>>
    /** Everything ever published, by run. */
    ghost var history: map<string, seq<Event>>

    ghost predicate Valid()
      reads this
    {
      AllLaws(maxEventsPerRun, history, events)
    }

    constructor (maxEventsPerRun: nat := 200)
      ensures Valid() && this.maxEventsPerRun == maxEventsPerRun && events == map[]
    {
      this.maxEventsPerRun := maxEventsPerRun;
      events, history := map[], map[];
    }

    function Log(run: string): seq<Event>
      reads this
    {
      if run in events then events[run] else []
    }

    ghost function History(run: string): seq<Event>
      reads this
    {
      if run in history then history[run] else []
    }

    method Publish(run: string, eventType: string, payload: string) returns (event: Event)
      requires Valid()
      modifies this
      ensures Valid()
      ensures event.runId == run && event.eventType == eventType && event.payload == payload
      ensures event.sequence == |old(Log(run))| + 1
      ensures history == old(history)[run := old(History(run)) + [event]]
      ensures events == old(events)[run := LastOf(old(Log(run)) + [event], maxEventsPerRun)]
    {
      var log := Log(run);
      event := Event(run, |log| + 1, eventType, payload);
      PublishKeepsAllLaws(maxEventsPerRun, history, events, run, History(run), log, event);
      log := Append(log, event);
      events, history := events[run := log], history[run := History(run) + [event]];
    }

    /** The log with a new event, cut to its length. */
    method Append(log: seq<Event>, event: Event) returns (kept: seq<Event>)
      ensures kept == LastOf(log + [event], maxEventsPerRun)
    {
      kept := log + [event];
      if |kept| > maxEventsPerRun {
        kept := kept[|kept| - maxEventsPerRun..];
      }
    }

    method Snapshot(run: string, afterSequence: int) returns (found: seq<Event>)
      ensures found == After(Log(run), afterSequence)
    {
      found := [];
      var log := Log(run);
      for i := 0 to |log|
        invariant found + After(log[i..], afterSequence) == After(log, afterSequence)
      {
        assert log[i..][1..] == log[i + 1..];
        if log[i].sequence > afterSequence {
          found := found + [log[i]];
        }
      }
    }
  }

  // ---------------------------------------------------------------- a stream

  /** A running `stream` together with its client: the next number it waits for, the rest of the snapshot
      it is yielding, what has arrived at the client over all its connections, and whether the generator
      is still open. An event counts as yielded when it arrives: those that the server has sent and that
      are still on their way, or get lost when the connection drops, are at the front of `pending`. */
  datatype Subscriber = Subscriber(next: int, pending: seq<Event>, received: seq<Event>, open: bool)

  function Polled(s: Subscriber, log: seq<Event>): Subscriber {
    if s.open && s.pending == [] then s.(pending := After(log, s.next - 1)) else s
  }

  /** The next event of the snapshot arrives at the client. */
  function Yielded(s: Subscriber): Subscriber {
    if !s.open || s.pending == [] then s
    else
      var event := s.pending[0];
      var closes := IsTerminal(event.eventType);
      Subscriber(event.sequence + 1, if closes then [] else s.pending[1..], s.received + [event], !closes)
  }

  /** The id of the last event the client received, or 0. */
  function LastId(received: seq<Event>): nat {
    if received == [] then 0 else received[|received| - 1].sequence
  }

  /** A new connection that sends the last id: what had not arrived is gone with the old one, and is
      waited for again. */
  function Reconnected(s: Subscriber): Subscriber {
    Subscriber(LastId(s.received) + 1, [], s.received, true)
  }

  const FRESH: Subscriber := Subscriber(1, [], [], true)

  /** The generator's own fields; its steps are the specification's. */
  class EventStream {
    const bus: InMemoryReviewEventBus
    const run: string
    var nextSequence: int
    var batch: seq<Event>
    var open: bool
    ghost var received: seq<Event>

    ghost function State(): Subscriber
      reads this
    {
      Subscriber(nextSequence, batch, received, open)
    }

    constructor (bus: InMemoryReviewEventBus, run: string, afterSequence: int, ghost received: seq<Event>)
      ensures this.bus == bus && this.run == run
      ensures State() == Subscriber(afterSequence + 1, [], received, true)
    {
      this.bus, this.run := bus, run;
      nextSequence, batch, open := afterSequence + 1, [], true;
      this.received := received;
    }

    /** The head of the loop: take a snapshot when the last one has been yielded. */
    method Poll()
      modifies this
      ensures State() == Polled(old(State()), bus.Log(run))
    {
      if open && batch == [] {
        batch := bus.Snapshot(run, nextSequence - 1);
      }
    }

    /** One yield of the inner loop, up to its arrival at the client. */
    method Yield() returns (event: Option<Event>)
      modifies this
      ensures State() == Yielded(old(State()))
      ensures event == if old(open) && old(batch) != [] then Some(old(batch)[0]) else None
    {
      event := None;
      if open && batch != [] {
        event := Some(batch[0]);
        nextSequence := batch[0].sequence + 1;
        received := received + [batch[0]];
        if IsTerminal(batch[0].eventType) {
          open, batch := false, [];
        } else {
          batch := batch[1..];
        }
      }
    }
  }

  // ---------------------------------------------------------------- interleavings

  /** One atomic step of a run's publishers and of one client. `Yield` is the arrival of an event at the
      client, so a connection that drops in the middle of what was sent is a `Reconnect` between two of
      them. A client whose connection drops reconnects; a client may also come back after its stream was
      closed by a terminal event. */
  datatype Step = Publish(eventType: string, payload: string) | Poll | Yield | Reconnect | Revisit

  datatype Session = Session(cap: nat, run: string, history: seq<Event>, log: seq<Event>, sub: Subscriber)

  function Apply(s: Session, step: Step): Session {
    match step
    case Publish(eventType, payload) =>
      var e := NextEvent(s.log, s.run, eventType, payload);
      s.(history := s.history + [e], log := LastOf(s.log + [e], s.cap))
    case Poll => s.(sub := Polled(s.sub, s.log))
    case Yield => s.(sub := Yielded(s.sub))
    case Reconnect => if s.sub.open then s.(sub := Reconnected(s.sub)) else s
    case Revisit => if !s.sub.open then s.(sub := Reconnected(s.sub)) else s
  }

  function Run(s: Session, steps: seq<Step>): Session
    decreases steps
  {
    if steps == [] then s else Run(Apply(s, steps[0]), steps[1..])
  }

  function Start(cap: nat, run: string): Session {
    Session(cap, run, [], [], FRESH)
  }

  function Publishes(steps: seq<Step>): nat {
    if steps == [] then 0 else (if steps[0].Publish? then 1 else 0) + Publishes(steps[1..])
  }

  lemma {:induction false} RunCounts(s: Session, steps: seq<Step>)
    ensures |Run(s, steps).history| == |s.history| + Publishes(steps) && Run(s, steps).cap == s.cap
    decreases steps
  {
    if steps != [] {
      RunCounts(Apply(s, steps[0]), steps[1..]);
    }
  }

  /** While at most cap events are published: the log is everything, the client's deliveries are a
      prefix of it, and what is about to be yielded comes next. */
  ghost predicate InOrder(s: Session) {
    && BusLaw(s.cap, s.history, s.log)
    && |s.sub.received| + |s.sub.pending| <= |s.history|
    && s.sub.received == s.history[..|s.sub.received|]
    && s.sub.next == |s.sub.received| + 1
    && s.sub.pending == s.history[|s.sub.received|..|s.sub.received| + |s.sub.pending|]
    && (!s.sub.open ==> s.sub.pending == [])
  }

  lemma {:induction false} AfterAll(log: seq<Event>, first: nat, sequence: nat)
    requires forall k :: 0 <= k < |log| ==> log[k].sequence == first + k
    requires sequence + 1 >= first
    ensures After(log, sequence) == if sequence + 1 - first <= |log| then log[sequence + 1 - first..] else []
  {
    if log != [] {
      if sequence + 1 == first {
        AfterAll(log[1..], first + 1, sequence + 1);
        AfterLower(log[1..], sequence, sequence + 1);
      } else {
        AfterAll(log[1..], first + 1, sequence);
      }
    }
  }

  /** Lowering the bound changes nothing when every number is above both. */
  lemma {:induction false} AfterLower(log: seq<Event>, low: int, high: int)
    requires low <= high && forall k :: 0 <= k < |log| ==> log[k].sequence > high || log[k].sequence <= low
    ensures After(log, low) == After(log, high)
  {
    if log != [] {
      AfterLower(log[1..], low, high);
    }
  }

  lemma PublishKeepsOrder(s: Session, eventType: string, payload: string)
    requires InOrder(s) && |s.history| < s.cap
    ensures InOrder(Apply(s, Publish(eventType, payload)))
  {
  }

  /** The events are numbered 1, 2, 3, ... */
  ghost predicate Numbered(events: seq<Event>) {
    forall k :: 0 <= k < |events| ==> events[k].sequence == k + 1
  }

  lemma AfterNumber(log: seq<Event>, n: nat)
    requires Numbered(log) && n <= |log|
    ensures After(log, n) == log[n..]
  {
    AfterAll(log, 1, n);
  }

  lemma PollKeepsOrder(s: Session)
    requires InOrder(s) && |s.history| <= s.cap
    ensures InOrder(Apply(s, Poll))
  {
    if s.sub.open && s.sub.pending == [] {
      var n := |s.sub.received|;
      AfterNumber(s.log, n);
      NewSnapshot(s, n);
    }
  }

  lemma NewSnapshot(s: Session, n: nat)
    requires InOrder(s) && s.sub.open && s.sub.pending == [] && n == |s.sub.received|
    ensures InOrder(s.(sub := s.sub.(pending := s.history[n..])))
  {
    assert s.history[n..n + |s.history[n..]|] == s.history[n..];
  }

  lemma YieldKeepsOrder(s: Session)
    requires InOrder(s) && |s.history| <= s.cap
    ensures InOrder(Apply(s, Yield))
  {
  }

  lemma ReconnectKeepsOrder(s: Session)
    requires InOrder(s) && |s.history| <= s.cap
    ensures InOrder(s.(sub := Reconnected(s.sub)))
  {
  }

  lemma StepKeepsOrder(s: Session, step: Step)
    requires InOrder(s) && |s.history| + (if step.Publish? then 1 else 0) <= s.cap
    ensures InOrder(Apply(s, step))
  {
    match step {
      case Publish(eventType, payload) => PublishKeepsOrder(s, eventType, payload);
      case Poll => PollKeepsOrder(s);
      case Yield => YieldKeepsOrder(s);
      case Reconnect => ReconnectKeepsOrder(s);
      case Revisit => ReconnectKeepsOrder(s);
    }
  }

  lemma {:induction false} RunKeepsOrder(s: Session, steps: seq<Step>)
    requires InOrder(s) && |s.history| + Publishes(steps) <= s.cap
    ensures InOrder(Run(s, steps))
    decreases steps
  {
    if steps != [] {
      StepKeepsOrder(s, steps[0]);
      RunKeepsOrder(Apply(s, steps[0]), steps[1..]);
    }
  }

  /** With at most cap publishes, every interleaving of publishes, polls, yields and reconnects
      delivers a prefix of what was published: each event at most once, in order, none skipped. */
  lemma DeliveredInOrder(cap: nat, run: string, steps: seq<Step>)
    requires Publishes(steps) <= cap
    ensures var s := Run(Start(cap, run), steps);
            s.sub.received <= s.history
            && forall k :: 0 <= k < |s.history| ==> s.history[k].sequence == k + 1
  {
    var start := Start(cap, run);
    assert InOrder(start);
    RunKeepsOrder(start, steps);
    RunCounts(start, steps);
  }

  // ---------------------------------------------------------------- what the events carry

  /** The types and payloads that the steps publish, in order. */
  function Told(steps: seq<Step>): seq<(string, string)> {
    if steps == [] then []
    else (if steps[0].Publish? then [(steps[0].eventType, steps[0].payload)] else []) + Told(steps[1..])
  }

  /** The events from the n-th on are those of the run that were told, with the numbers of the law. */
  ghost predicate Carries(events: seq<Event>, n: nat, run: string, cap: nat, told: seq<(string, string)>) {
    && |events| == n + |told|
    && forall k :: 0 <= k < |told| ==>
         events[n + k] == Event(run, if n + k < cap then n + k + 1 else cap + 1, told[k].0, told[k].1)
  }

  /** What one step tells. */
  function ToldBy(step: Step): seq<(string, string)> {
    if step.Publish? then [(step.eventType, step.payload)] else []
  }

  lemma ApplyKeepsLaw(s: Session, step: Step)
    requires BusLaw(s.cap, s.history, s.log)
    ensures BusLaw(s.cap, Apply(s, step).history, Apply(s, step).log)
    ensures Apply(s, step).cap == s.cap && Apply(s, step).run == s.run && s.history <= Apply(s, step).history
  {
    if step.Publish? {
      PublishKeepsLaw(s.cap, s.history, s.log, s.run, step.eventType, step.payload);
    }
  }

  lemma {:induction false} RunTells(s: Session, steps: seq<Step>, history: seq<Event>, told: seq<(string, string)>)
    requires BusLaw(s.cap, s.history, s.log)
    requires history == Run(s, steps).history && told == Told(steps)
    ensures s.history <= history && Carries(history, |s.history|, s.run, s.cap, told)
    decreases steps
  {
    if steps != [] {
      ApplyKeepsLaw(s, steps[0]);
      RunTells(Apply(s, steps[0]), steps[1..], history, Told(steps[1..]));
      TellsOne(s, steps[0], history, Told(steps[1..]), told);
    }
  }

  lemma TellsOne(
      s: Session, step: Step, history: seq<Event>, later: seq<(string, string)>, told: seq<(string, string)>)
    requires BusLaw(s.cap, s.history, s.log) && Apply(s, step).history <= history && told == ToldBy(step) + later
    ensures Carries(history, |Apply(s, step).history|, s.run, s.cap, later) ==>
              Carries(history, |s.history|, s.run, s.cap, told)
  {
    if step.Publish? {
      assert forall k :: 0 < k < |told| ==> told[k] == later[k - 1];
      assert history[|s.history|] == Apply(s, step).history[|s.history|];
      assert told[0] == (step.eventType, step.payload);
    } else {
      assert told == later;
    }
  }

  /** Over every run and for every cap: the k-th event of the history carries the run, the type and the
      payload of the k-th publish, and the log holds the last events of the history, unchanged. */
  lemma HistoryIsTold(cap: nat, run: string, steps: seq<Step>)
    ensures var s := Run(Start(cap, run), steps);
            && Carries(s.history, 0, run, cap, Told(steps))
            && |s.log| == (if |s.history| < cap then |s.history| else cap)
            && s.log == s.history[|s.history| - |s.log|..]
  {
    RunTells(Start(cap, run), steps, Run(Start(cap, run), steps).history, Told(steps));
    RunKeepsLaw(Start(cap, run), steps);
  }

  /** A client receives exactly what was published: the k-th event that arrives is the k-th that was told. */
  lemma ReceivedIsTold(cap: nat, run: string, steps: seq<Step>)
    requires Publishes(steps) <= cap
    ensures var received := Run(Start(cap, run), steps).sub.received;
            && |received| <= |Told(steps)|
            && Carries(received, 0, run, cap, Told(steps)[..|received|])
  {
    HistoryIsTold(cap, run, steps);
    DeliveredInOrder(cap, run, steps);
  }

  // ---------------------------------------------------------------- terminal events close the stream

  /** A stream that was never revisited has delivered a terminal event exactly when it is closed,
      and then as its last event. */
  ghost predicate StoppedAtTerminal(s: Subscriber) {
    && (forall k :: 0 <= k < |s.received| - 1 ==> !IsTerminal(s.received[k].eventType))
    && (s.received != [] ==> (IsTerminal(s.received[|s.received| - 1].eventType) <==> !s.open))
    && (s.received == [] ==> s.open)
  }

  lemma {:induction false} StopsAtTerminal(s: Session, steps: seq<Step>)
    requires StoppedAtTerminal(s.sub) && forall step :: step in steps ==> !step.Revisit?
    ensures StoppedAtTerminal(Run(s, steps).sub)
    decreases steps
  {
    if steps != [] {
      StopsAtTerminal(Apply(s, steps[0]), steps[1..]);
    }
  }

  /** The events up to and including the first terminal one. */
  function UpToTerminal(events: seq<Event>): seq<Event> {
    if events == [] then []
    else if IsTerminal(events[0].eventType) then [events[0]]
    else [events[0]] + UpToTerminal(events[1..])
  }

  lemma {:induction false} UpToTerminalIsFirst(events: seq<Event>)
    ensures UpToTerminal(events) <= events
  {
    if events != [] {
      UpToTerminalIsFirst(events[1..]);
    }
  }

  /** Yield until the snapshot is used up or the stream closes. */
  function Drained(s: Subscriber): Subscriber
    decreases |s.pending|
  {
    if !s.open || s.pending == [] then s else Drained(Yielded(s))
  }

  ghost predicate NoTerminal(events: seq<Event>) {
    forall k :: 0 <= k < |events| ==> !IsTerminal(events[k].eventType)
  }

  lemma NoTerminalStep(events: seq<Event>)
    requires events != []
    ensures NoTerminal(events) <==> !IsTerminal(events[0].eventType) && NoTerminal(events[1..])
  {
    assert events == [events[0]] + events[1..];
  }

  lemma DrainStep(s: Subscriber, next: Subscriber)
    requires s.open && s.pending != [] && next == Yielded(s)
    ensures Drained(s) == Drained(next)
    ensures IsTerminal(s.pending[0].eventType) ==> Drained(next) == next
  {
  }

  lemma YieldMoves(s: Subscriber, next: Subscriber)
    requires s.open && s.pending != [] && next == Yielded(s)
    ensures IsTerminal(s.pending[0].eventType) ==>
              var received := s.received + UpToTerminal(s.pending);
              next == s.(next := next.next, received := received, pending := [], open := false)
    ensures !IsTerminal(s.pending[0].eventType) ==>
              && next.open && next.pending == s.pending[1..]
              && next.received + UpToTerminal(next.pending) == s.received + UpToTerminal(s.pending)
  {
    if !IsTerminal(s.pending[0].eventType) {
      assert s.received + ([s.pending[0]] + UpToTerminal(s.pending[1..]))
          == (s.received + [s.pending[0]]) + UpToTerminal(s.pending[1..]);
    }
  }

  lemma {:induction false} DrainDelivers(s: Subscriber)
    requires s.open
    ensures Drained(s).received == s.received + UpToTerminal(s.pending)
    ensures Drained(s).open <==> NoTerminal(s.pending)
    ensures Drained(s).pending == []
    decreases |s.pending|
  {
    if s.pending == [] {
      assert s.received + [] == s.received;
    } else {
      var next := Yielded(s);
      DrainStep(s, next);
      YieldMoves(s, next);
      NoTerminalStep(s.pending);
      if !IsTerminal(s.pending[0].eventType) {
        DrainDelivers(next);
      }
    }
  }

  /** What a list followed by another delivers up to its first terminal event. */
  function UpToTerminalOfBoth(first: seq<Event>, rest: seq<Event>): seq<Event> {
    if forall k :: 0 <= k < |first| ==> !IsTerminal(first[k].eventType) then first + UpToTerminal(rest)
    else UpToTerminal(first)
  }

  lemma {:induction false} UpToTerminalConcat(first: seq<Event>, rest: seq<Event>)
    ensures UpToTerminal(first + rest) == UpToTerminalOfBoth(first, rest)
  {
    if first == [] {
      assert first + rest == rest;
      assert [] + UpToTerminal(rest) == UpToTerminal(rest);
    } else {
      UpToTerminalConcat(first[1..], rest);
      UpToTerminalCons(first[0], first[1..], rest);
      assert first == [first[0]] + first[1..];
    }
  }

  lemma UpToTerminalCons(e: Event, more: seq<Event>, rest: seq<Event>)
    ensures UpToTerminal(more + rest) == UpToTerminalOfBoth(more, rest) ==>
              UpToTerminal(([e] + more) + rest) == UpToTerminalOfBoth([e] + more, rest)
  {
    var all := [e] + more;
    NoTerminalStep(all);
    assert all[0] == e && all[1..] == more;
    assert (all + rest)[0] == e && (all + rest)[1..] == more + rest;
    assert all + UpToTerminal(rest) == [e] + (more + UpToTerminal(rest));
  }

  lemma UpToTerminalParts(seen: seq<Event>, pending: seq<Event>, rest: seq<Event>)
    requires NoTerminal(seen)
    ensures UpToTerminal(seen + (pending + rest))
         == seen + if NoTerminal(pending) then pending + UpToTerminal(rest) else UpToTerminal(pending)
  {
    UpToTerminalConcat(seen, pending + rest);
    UpToTerminalConcat(pending, rest);
  }

  /** What the client has and is about to get is the beginning of the history. */
  ghost predicate Follows(sub: Subscriber, history: seq<Event>) {
    sub.open && Numbered(history) && sub.next == |sub.received| + 1 && sub.received + sub.pending <= history
  }

  lemma InOrderFollows(s: Session)
    requires InOrder(s) && |s.history| <= s.cap && s.sub.open
    ensures Follows(s.sub, s.history)
  {
  }

  /** Yielding a snapshot without terminal events. */
  lemma DrainsQuietly(sub: Subscriber, history: seq<Event>)
    requires Follows(sub, history) && NoTerminal(sub.pending)
    ensures Drained(sub) == Subscriber(|sub.received| + |sub.pending| + 1, [], sub.received + sub.pending, true)
  {
    DrainDelivers(sub);
    NoTerminalAll(sub.pending);
    DrainedNext(sub);
    if sub.pending != [] {
      var k := |sub.received| + |sub.pending| - 1;
      assert (sub.received + sub.pending)[k] == history[k];
    }
  }

  /** What one more poll finds after the pending events have been yielded. */
  lemma PollsTheRest(sub: Subscriber, history: seq<Event>, m: nat)
    requires Follows(sub, history) && NoTerminal(sub.pending) && m == |sub.received| + |sub.pending|
    ensures Polled(Drained(sub), history) == Subscriber(m + 1, history[m..], sub.received + sub.pending, true)
  {
    DrainsQuietly(sub, history);
    AfterNumber(history, m);
  }

  lemma ClosedStays(s: Subscriber, log: seq<Event>)
    requires !s.open
    ensures Drained(Polled(s, log)) == s
  {
  }

  lemma SecondPoll(second: Subscriber, received: seq<Event>, pending: seq<Event>)
    requires second.open && second.received == received + pending
    ensures Drained(second).received == received + (pending + UpToTerminal(second.pending))
  {
    DrainDelivers(second);
  }

  lemma FirstPollEnds(sub: Subscriber, history: seq<Event>, first: Subscriber)
    requires sub.open && !NoTerminal(sub.pending) && first == Drained(sub)
    ensures Drained(Polled(first, history)).received == sub.received + UpToTerminal(sub.pending)
  {
    DrainDelivers(sub);
    ClosedStays(first, history);
  }

  /** Catching up: an open client that finishes its snapshot, polls once more and finishes that
      one has received everything published so far, up to the first terminal event. */
  lemma CatchesUp(sub: Subscriber, history: seq<Event>)
    requires Follows(sub, history) && NoTerminal(sub.received)
    ensures Drained(Polled(Drained(sub), history)).received == UpToTerminal(history)
  {
    var m := |sub.received| + |sub.pending|;
    assert history == sub.received + (sub.pending + history[m..]);
    UpToTerminalParts(sub.received, sub.pending, history[m..]);
    if NoTerminal(sub.pending) {
      PollsTheRest(sub, history, m);
      SecondPoll(Subscriber(m + 1, history[m..], sub.received + sub.pending, true), sub.received, sub.pending);
    } else {
      FirstPollEnds(sub, history, Drained(sub));
    }
  }

  lemma {:induction false} NoTerminalAll(events: seq<Event>)
    requires forall k :: 0 <= k < |events| ==> !IsTerminal(events[k].eventType)
    ensures UpToTerminal(events) == events
  {
    if events != [] {
      NoTerminalAll(events[1..]);
    }
  }

  lemma {:induction false} DrainedNext(s: Subscriber)
    requires s.open && Drained(s).open
    ensures Drained(s).next == if s.pending == [] then s.next else s.pending[|s.pending| - 1].sequence + 1
    decreases |s.pending|
  {
    if s.pending != [] {
      DrainedNext(Yielded(s));
    }
  }

  lemma {:induction false} ClosedAtFirstTerminal(received: seq<Event>, history: seq<Event>)
    requires received <= history && received != [] && NoTerminal(received[..|received| - 1])
    requires IsTerminal(received[|received| - 1].eventType)
    ensures UpToTerminal(history) == received
  {
    if |received| > 1 {
      assert !IsTerminal(received[..|received| - 1][0].eventType);
      assert received[1..][..|received[1..]| - 1] == received[..|received| - 1][1..];
      ClosedAtFirstTerminal(received[1..], history[1..]);
    }
  }

  lemma OpenHasNoTerminal(s: Subscriber)
    requires StoppedAtTerminal(s) && s.open
    ensures NoTerminal(s.received)
  {
  }

  lemma ClosedForGood(s: Subscriber, log: seq<Event>)
    requires !s.open
    ensures Drained(Polled(Drained(s), log)) == s
  {
    ClosedStays(s, log);
  }

  /** A client that has missed nothing so far and has stopped at terminal events only. */
  lemma GetsTheRest(sub: Subscriber, history: seq<Event>)
    requires StoppedAtTerminal(sub) && sub.received <= history && (sub.open ==> Follows(sub, history))
    ensures Drained(Polled(Drained(sub), history)).received == UpToTerminal(history)
  {
    if sub.open {
      OpenHasNoTerminal(sub);
      CatchesUp(sub, history);
    } else {
      ClosedAtFirstTerminal(sub.received, history);
      ClosedForGood(sub, history);
    }
  }

  lemma InOrderGetsTheRest(s: Session)
    requires InOrder(s) && |s.history| <= s.cap && StoppedAtTerminal(s.sub)
    ensures Drained(Polled(Drained(s.sub), s.log)).received == UpToTerminal(s.history)
  {
    if s.sub.open {
      InOrderFollows(s);
    }
    GetsTheRest(s.sub, s.history);
  }

  /** Exactly once: however publishes, polls, yields and reconnects interleave, a client that polls
      on until nothing is left has received each event up to the first terminal one once, in order. */
  lemma ExactlyOnce(cap: nat, run: string, steps: seq<Step>)
    requires Publishes(steps) <= cap && forall step :: step in steps ==> !step.Revisit?
    ensures var s := Run(Start(cap, run), steps);
            Drained(Polled(Drained(s.sub), s.log)).received == UpToTerminal(s.history)
  {
    var start := Start(cap, run);
    assert InOrder(start);
    RunKeepsOrder(start, steps);
    RunCounts(start, steps);
    StopsAtTerminal(start, steps);
    InOrderGetsTheRest(Run(start, steps));
  }

  // ---------------------------------------------------------------- beyond the cap

  lemma {:induction false} NothingAfter(log: seq<Event>, sequence: int)
    requires forall k :: 0 <= k < |log| ==> log[k].sequence <= sequence
    ensures After(log, sequence) == []
  {
    if log != [] {
      NothingAfter(log[1..], sequence);
    }
  }

  /** Numbers between two bounds that never fall. */
  ghost predicate Climbs(events: seq<Event>, low: int, high: int) {
    && (forall k :: 0 <= k < |events| ==> low <= events[k].sequence <= high)
    && (forall j, k :: 0 <= j < k < |events| ==> events[j].sequence <= events[k].sequence)
  }

  lemma {:induction false} AfterClimbs(log: seq<Event>, sequence: int, low: int, high: int)
    requires Climbs(log, low, high)
    ensures Climbs(After(log, sequence), if low > sequence then low else sequence + 1, high)
  {
    if log != [] {
      AfterClimbs(log[1..], sequence, log[0].sequence, high);
    }
  }

  /** What holds after any steps, truncated log or not: the next number waited for is the one after
      the last received, and what is still to be yielded climbs from there to at most cap + 1. */
  ghost predicate Consistent(s: Session) {
    && BusLaw(s.cap, s.history, s.log)
    && s.sub.next == LastId(s.sub.received) + 1
    && LastId(s.sub.received) <= s.cap + 1
    && Climbs(s.sub.pending, LastId(s.sub.received), s.cap + 1)
    && (!s.sub.open ==> s.sub.pending == [])
  }

  lemma LogClimbs(cap: nat, history: seq<Event>, log: seq<Event>)
    requires BusLaw(cap, history, log)
    ensures Climbs(log, 0, cap + 1)
  {
  }

  lemma PublishKeepsConsistent(s: Session, eventType: string, payload: string)
    requires Consistent(s)
    ensures Consistent(Apply(s, Publish(eventType, payload)))
  {
    PublishKeepsLaw(s.cap, s.history, s.log, s.run, eventType, payload);
  }

  lemma PollKeepsConsistent(s: Session)
    requires Consistent(s)
    ensures Consistent(Apply(s, Poll))
  {
    LogClimbs(s.cap, s.history, s.log);
    AfterClimbs(s.log, s.sub.next - 1, 0, s.cap + 1);
  }

  lemma YieldKeepsConsistent(s: Session)
    requires Consistent(s)
    ensures Consistent(Apply(s, Yield))
  {
  }

  lemma {:induction false} RunKeepsConsistent(s: Session, steps: seq<Step>)
    requires Consistent(s)
    ensures Consistent(Run(s, steps))
    decreases steps
  {
    if steps != [] {
      match steps[0] {
        case Publish(eventType, payload) => PublishKeepsConsistent(s, eventType, payload);
        case Poll => PollKeepsConsistent(s);
        case Yield => YieldKeepsConsistent(s);
        case Reconnect =>
        case Revisit =>
      }
      RunKeepsConsistent(Apply(s, steps[0]), steps[1..]);
    }
  }

  /** For every cap and all steps, a client waits for the number after the last one it received, and
      no number exceeds cap + 1. */
  lemma ReachedIsConsistent(cap: nat, run: string, steps: seq<Step>)
    ensures Consistent(Run(Start(cap, run), steps))
  {
    RunKeepsConsistent(Start(cap, run), steps);
  }

  /** The client has number cap + 1; of `all` it has received at least `base`, and can only get more
      of `all`. */
  ghost predicate Ending(s: Session, base: seq<Event>, all: seq<Event>) {
    && Consistent(s) && LastId(s.sub.received) == s.cap + 1
    && base <= s.sub.received && s.sub.received + s.sub.pending <= all
  }

  lemma EndingYield(s: Session, base: seq<Event>, all: seq<Event>)
    requires Ending(s, base, all)
    ensures Ending(Apply(s, Yield), base, all)
  {
    YieldKeepsConsistent(s);
    if s.sub.open && s.sub.pending != [] {
      var e, rest := s.sub.pending[0], s.sub.pending[1..];
      assert s.sub.received + s.sub.pending == (s.sub.received + [e]) + rest;
    }
  }

  lemma EndingPoll(s: Session, base: seq<Event>, all: seq<Event>)
    requires Ending(s, base, all)
    ensures Apply(s, Poll) == s
  {
    LogClimbs(s.cap, s.history, s.log);
    NothingAfter(s.log, s.cap + 1);
  }

  lemma EndingStep(s: Session, step: Step, base: seq<Event>, all: seq<Event>)
    requires Ending(s, base, all)
    ensures Ending(Apply(s, step), base, all)
  {
    match step
    case Publish(eventType, payload) => PublishKeepsConsistent(s, eventType, payload);
    case Poll => EndingPoll(s, base, all);
    case Yield => EndingYield(s, base, all);
    case Reconnect => assert s.sub.received + [] == s.sub.received;
    case Revisit => assert s.sub.received + [] == s.sub.received;
  }

  lemma {:induction false} EndingRun(s: Session, steps: seq<Step>, base: seq<Event>, all: seq<Event>)
    requires Ending(s, base, all)
    ensures Ending(Run(s, steps), base, all)
    decreases steps
  {
    if steps != [] {
      EndingStep(s, steps[0], base, all);
      EndingRun(Apply(s, steps[0]), steps[1..], base, all);
    }
  }

  /** Once a client has received number cap + 1, all it can ever receive is the rest of the snapshot it
      is in the middle of: no later event reaches it. */
  lemma SaturatedGetsItsSnapshot(cap: nat, run: string, before: seq<Step>, later: seq<Step>)
    requires LastId(Run(Start(cap, run), before).sub.received) == cap + 1
    ensures var sub := Run(Start(cap, run), before).sub;
            exists k :: 0 <= k <= |sub.pending|
              && Run(Run(Start(cap, run), before), later).sub.received == sub.received + sub.pending[..k]
  {
    var s := Run(Start(cap, run), before);
    var all := s.sub.received + s.sub.pending;
    ReachedIsConsistent(cap, run, before);
    RunCounts(Start(cap, run), before);
    EndingRun(s, later, s.sub.received, all);
    var got := Run(s, later).sub.received;
    assert got == all[..|got|] == s.sub.received + s.sub.pending[..|got| - |s.sub.received|];
  }

  /** It receives nothing more, whatever happens, if and only if its snapshot is used up. */
  lemma SaturatedReceivesNothing(cap: nat, run: string, before: seq<Step>)
    requires LastId(Run(Start(cap, run), before).sub.received) == cap + 1
    ensures var s := Run(Start(cap, run), before);
            (forall later :: Run(s, later).sub.received == s.sub.received) <==> s.sub.pending == []
  {
    var s := Run(Start(cap, run), before);
    ReachedIsConsistent(cap, run, before);
    if s.sub.pending == [] {
      forall later
        ensures Run(s, later).sub.received == s.sub.received
      {
        SaturatedGetsItsSnapshot(cap, run, before, later);
      }
    } else {
      OneYield(s);
      assert Run(s, [Yield]).sub.received != s.sub.received;
    }
  }

  lemma OneYield(s: Session)
    requires s.sub.open && s.sub.pending != []
    ensures Run(s, [Yield]).sub.received == s.sub.received + [s.sub.pending[0]]
  {
    assert Run(s, [Yield]) == Run(Apply(s, Yield), []);
  }

  /** A connection that drops in the middle of that snapshot loses the rest of it for good. */
  lemma ReconnectLosesSnapshot(cap: nat, run: string, before: seq<Step>, later: seq<Step>)
    requires LastId(Run(Start(cap, run), before).sub.received) == cap + 1
    requires Run(Start(cap, run), before).sub.open
    ensures var s := Run(Start(cap, run), before);
            Run(Apply(s, Reconnect), later).sub.received == s.sub.received
  {
    var s := Run(Start(cap, run), before);
    ReachedIsConsistent(cap, run, before);
    RunCounts(Start(cap, run), before);
    var dropped := Apply(s, Reconnect);
    RunKeepsConsistent(s, [Reconnect]);
    assert Run(s, [Reconnect]) == Run(dropped, []);
    assert dropped.sub.received + dropped.sub.pending == s.sub.received;
    EndingRun(dropped, later, s.sub.received, s.sub.received);
  }

  /** Four events on a log of two, and one of the two that are left delivered. */
  const FOUR_IN_TWO: seq<Step> := [Publish("", ""), Publish("", ""), Publish("", ""), Publish("", ""), Poll, Yield]

  /** So a client can receive two events with the number cap + 1. */
  lemma SaturatedCanReceive(run: string)
    ensures var s := Run(Start(2, run), FOUR_IN_TWO);
            && LastId(s.sub.received) == 3 && s.sub.pending == [Event(run, 3, "", "")]
            && Run(s, [Yield]).sub.received == s.sub.received + [Event(run, 3, "", "")]
  {
    var e := Event(run, 3, "", "");
    var s0 := Start(2, run);
    var s1 := Apply(s0, Publish("", ""));
    var s2 := Apply(s1, Publish("", ""));
    var s3 := Apply(s2, Publish("", ""));
    assert s2.log == [Event(run, 1, "", ""), Event(run, 2, "", "")];
    assert s3.log == [Event(run, 2, "", ""), e];
    var s4 := Apply(s3, Publish("", ""));
    assert s4.log == [e, e];
    AfterCount(s4.log, 0);
    var s5 := Apply(s4, Poll);
    assert s5.sub == Subscriber(1, [e, e], [], true);
    var s6 := Apply(s5, Yield);
    assert "" != REVIEW_COMPLETED && "" != REVIEW_FAILED;
    assert s6.sub == Subscriber(4, [e], [e], true);
    SixSteps(s0, FOUR_IN_TWO);
    OneYield(s6);
  }

  lemma SixSteps(s: Session, steps: seq<Step>)
    requires |steps| == 6
    ensures Run(s, steps)
         == Apply(Apply(Apply(Apply(Apply(Apply(s, steps[0]), steps[1]), steps[2]), steps[3]), steps[4]), steps[5])
  {
    ThreeSteps(s, steps);
    var t := Apply(Apply(Apply(s, steps[0]), steps[1]), steps[2]);
    ThreeSteps(t, steps[3..]);
    assert steps[3..][3..] == [];
  }

  lemma ThreeSteps(s: Session, steps: seq<Step>)
    requires |steps| >= 3
    ensures Run(s, steps) == Run(Apply(Apply(Apply(s, steps[0]), steps[1]), steps[2]), steps[3..])
  {
    var s1 := Apply(s, steps[0]);
    var s2 := Apply(s1, steps[1]);
    assert Run(s, steps) == Run(s1, steps[1..]);
    assert steps[1..][1..] == steps[2..] && Run(s1, steps[1..]) == Run(s2, steps[2..]);
    assert steps[2..][1..] == steps[3..];
  }

  lemma {:induction false} AfterCount(log: seq<Event>, sequence: int)
    ensures |After(log, sequence)| <= |log|
    ensures (forall k :: 0 <= k < |log| ==> log[k].sequence > sequence) ==> After(log, sequence) == log
  {
    if log != [] {
      AfterCount(log[1..], sequence);
    }
  }

  /** A client that connects late gets everything published so far if and only if the log was never
      truncated. */
  lemma LateClientGetsAll(cap: nat, history: seq<Event>, log: seq<Event>)
    requires BusLaw(cap, history, log)
    ensures Polled(FRESH, log).pending == history <==> |history| <= cap
  {
    AfterCount(log, 0);
  }

  /** For every cap and every interleaving the bus law holds. */
  lemma {:induction false} RunKeepsLaw(s: Session, steps: seq<Step>)
    requires BusLaw(s.cap, s.history, s.log)
    ensures BusLaw(s.cap, Run(s, steps).history, Run(s, steps).log)
    decreases steps
  {
    if steps != [] {
      var step := steps[0];
      if step.Publish? {
        PublishKeepsLaw(s.cap, s.history, s.log, s.run, step.eventType, step.payload);
      }
      RunKeepsLaw(Apply(s, step), steps[1..]);
    }
  }
}
