/** One JoinAndListen followed by Destroy (client.go): the goroutine that joins and destroys, the
    reader goroutine, the event channel between them and its consumer, step by step. */
module Events {
  import opened Wire
  import opened Packets
  import opened Framing
  import opened Session
  import opened Listening
  import opened Traces

  /** Where readLoop is. From Replying on it is busy with the outcome it carries. */
  datatype Reader =
    | NotStarted
    | Checking
    | Blocked
    | Replying(outcome: Outcome)
    | Offering(outcome: Outcome)
    | Sending(outcome: Outcome)
    | Cancelling
    | Done

  /** Where JoinAndListen is, after Join succeeded, and then Destroy. */
  datatype Owner = Joined | Spawning | Announcing | Returned | Waiting | Closing | Clearing | HangingUp | Destroyed

  /** The event channel: the client's reference to it, whether it is closed, its buffer, everything
      ever put in and everything ever taken out. */
  datatype Channel = Channel(made: bool, closed: bool, queue: seq<Event>, log: seq<Event>, received: seq<Event>)

  datatype System = System(
    owner: Owner,
    reader: Reader,
    cancelled: bool,
    channel: Channel,
    connected: bool,
    outcomes: seq<Outcome>,
    replies: seq<int64>,
    /** A send on a closed channel, a second close, or a use of the connection after it is gone. */
    broken: bool,
    /** A decoder panicked: the process is over. */
    crashed: bool)

  const NO_CHANNEL := Channel(false, false, [], [], [])

  predicate Starts(s: System) { s == System(Joined, NotStarted, false, NO_CHANNEL, true, [], [], false, false) }

  // ---------------------------------------------------------------- the atomic steps

  /** A value goes in: it fills a free buffer slot or meets a receiver. */
  predicate Puts(capacity: nat, c: Channel, e: Event, c1: Channel)
  {
    || (|c.queue| < capacity && c1 == c.(queue := c.queue + [e], log := c.log + [e]))
    || (c.queue == [] && c1 == c.(received := c.received + [e], log := c.log + [e]))
  }

  /** A channel send by whoever then goes on as `next`: it panics on a closed channel, and never
      proceeds on a nil one. */
  predicate Sends(capacity: nat, s: System, e: Event, next: System, s1: System)
  {
    && s.channel.made
    && if s.channel.closed then s1 == s.(broken := true)
       else Puts(capacity, s.channel, e, s1.channel) && s1 == next.(channel := s1.channel)
  }

  predicate OwnerMoves(s: System, s1: System)
  {
    match s.owner
    case Joined => s1 == s.(owner := Spawning, channel := s.channel.(made := true))
    case Spawning => s1 == s.(owner := Announcing, reader := Checking)
    case Announcing => false
    case Returned => s1 == s.(owner := Waiting, cancelled := true)
    case Waiting => s.reader == Done && s1 == s.(owner := Closing)
    case Closing =>
      s1 == if s.channel.made
            then s.(owner := Clearing, channel := s.channel.(closed := true), broken := s.broken || s.channel.closed)
            else s.(owner := HangingUp)
    case Clearing => s1 == s.(owner := HangingUp, channel := s.channel.(made := false))
    case HangingUp => s1 == s.(owner := Destroyed, connected := false)
    case Destroyed => false
  }

  predicate Announces(capacity: nat, s: System, s1: System)
  {
    s.owner == Announcing && Sends(capacity, s, ReadyEvent, s.(owner := Returned), s1)
  }

  /** Where the reader goes once it is done with an outcome. */
  function After(o: Outcome): Reader
  {
    if o.Failed? then Done else if o.Got? && o.packet.ClientboundDisconnect? then Cancelling else Checking
  }

  predicate ReaderMoves(s: System, s1: System)
  {
    match s.reader
    case NotStarted => false
    case Checking => s1 == s.(reader := if s.cancelled then Done else Blocked)
    case Blocked => false
    case Replying(o) =>
      s1 == s.(reader := Offering(o), broken := s.broken || !s.connected, replies := s.replies + Listed(IdRead(o)))
    case Offering(o) =>
      s1 == s.(reader := if s.channel.made && EventOf(o).Some? then Sending(o) else After(o))
    case Sending(_) => false
    case Cancelling => s1 == s.(reader := Checking, cancelled := true)
    case Done => false
  }

  /** ReadPacket returns o. */
  predicate Returns(s: System, o: Outcome, s1: System)
  {
    && s.reader == Blocked
    && s1 == s.(outcomes := s.outcomes + [o],
                broken := s.broken || !s.connected,
                crashed := o.Crashed?,
                reader := if IdRead(o).Some? then Replying(o) else Offering(o))
  }

  ghost predicate ReadReturns(s: System, s1: System) { exists o :: Returns(s, o, s1) }

  predicate ReaderSends(capacity: nat, s: System, s1: System)
  {
    && s.reader.Sending? && EventOf(s.reader.outcome).Some?
    && Sends(capacity, s, EventOf(s.reader.outcome).value, s.(reader := After(s.reader.outcome)), s1)
  }

  predicate ConsumerReceives(s: System, s1: System)
  {
    var c := s.channel;
    c.queue != [] && s1 == s.(channel := c.(queue := c.queue[1..], received := c.received + [c.queue[0]]))
  }

  ghost predicate Step(capacity: nat, s: System, s1: System)
  {
    && !s.crashed
    && (OwnerMoves(s, s1) || Announces(capacity, s, s1) || ReaderMoves(s, s1) || ReadReturns(s, s1)
        || ReaderSends(capacity, s, s1) || ConsumerReceives(s, s1))
  }

  ghost predicate IsRun(capacity: nat, run: seq<System>)
  {
    && run != [] && Starts(run[0])
    && forall i :: 0 < i < |run| ==> Step(capacity, run[i - 1], run[i])
  }

  // ---------------------------------------------------------------- nothing is used after it is gone

  predicate Active(s: System) { s.owner == Announcing || s.owner == Returned || s.owner == Waiting }

  /** Who may still be where: the reader only runs while channel and connection are there. */
  predicate Phased(s: System)
  {
    && !s.broken
    && (s.channel.made <==> Active(s) || s.owner == Spawning || s.owner == Closing || s.owner == Clearing)
    && (s.channel.closed <==> s.owner == Clearing || s.owner == HangingUp || s.owner == Destroyed)
    && (s.connected <==> s.owner != Destroyed)
    && (s.reader == NotStarted <==> s.owner == Joined || s.owner == Spawning)
    && (Active(s) || s.reader == NotStarted || s.reader == Done)
  }

  lemma {:induction false} StepKeepsPhased(capacity: nat, s: System, s1: System)
    requires Phased(s) && Step(capacity, s, s1)
    ensures Phased(s1)
  {
  }

  // ---------------------------------------------------------------- what is reported and answered

  /** The event of the outcome the reader is busy with. */
  function EventPending(r: Reader): seq<Event>
  {
    if r.Replying? || r.Offering? || r.Sending? then Listed(EventOf(r.outcome)) else []
  }

  function ReplyPending(r: Reader): seq<int64> { if r.Replying? then Listed(IdRead(r.outcome)) else [] }

  /** The events that are not the owner's. */
  function FromReader(e: Event): Option<Event> { if e.ReadyEvent? then None else Some(e) }

  predicate IsReady(e: Event) { e.ReadyEvent? }

  /** The reader's events are those of what it read, but for the one it is busy with; and likewise
      its replies. */
  ghost predicate Reported(s: System)
  {
    && Collect(FromReader, s.channel.log) + EventPending(s.reader) == Collect(EventOf, s.outcomes)
    && s.replies + ReplyPending(s.reader) == Collect(IdRead, s.outcomes)
  }

  /** Only the last outcome may end the loop, and then nothing more is read. */
  ghost predicate Ends(s: System)
  {
    && OnlyLastIsLast(s.outcomes)
    && (s.reader.Replying? || s.reader.Offering? || s.reader.Sending? ==>
          s.outcomes != [] && s.reader.outcome == s.outcomes[|s.outcomes| - 1])
    && (s.reader == Blocked ==> NoneIsLast(s.outcomes))
    && (s.reader == Checking ==> NoneIsLast(s.outcomes) || s.cancelled)
    && (s.reader == NotStarted ==> s.outcomes == [])
    && (s.outcomes != [] && s.outcomes[|s.outcomes| - 1].Crashed? ==> s.crashed)
  }

  predicate NoneIsLast(outcomes: seq<Outcome>) { outcomes == [] || (!IsLast(outcomes[|outcomes| - 1]) && OnlyLastIsLast(outcomes)) }

  /** The channel loses nothing and keeps the order, and the ready event is sent once. */
  ghost predicate Ordered(capacity: nat, s: System)
  {
    && InOrder(capacity, s.channel)
    && Count(IsReady, s.channel.log) == if s.owner == Joined || s.owner == Spawning || s.owner == Announcing then 0 else 1
  }

  predicate InOrder(capacity: nat, c: Channel) { c.received + c.queue == c.log && |c.queue| <= capacity }

  lemma {:induction false} ReadKeepsEnds(s: System, o: Outcome, s1: System)
    requires Ends(s) && Returns(s, o, s1)
    ensures Ends(s1)
  {
  }

  lemma {:induction false} MoveKeepsEnds(s: System, s1: System)
    requires Ends(s) && !s.crashed && ReaderMoves(s, s1)
    ensures Ends(s1)
  {
  }

  lemma {:induction false} SendKeepsEnds(capacity: nat, s: System, s1: System)
    requires Ends(s) && ReaderSends(capacity, s, s1) && !s1.broken
    ensures Ends(s1)
  {
  }

  lemma {:induction false} StepKeepsEnds(capacity: nat, s: System, s1: System)
    requires Ends(s) && Phased(s) && Phased(s1) && Step(capacity, s, s1)
    ensures Ends(s1)
  {
    if ReadReturns(s, s1) {
      var o :| Returns(s, o, s1);
      ReadKeepsEnds(s, o, s1);
    } else if ReaderMoves(s, s1) {
      MoveKeepsEnds(s, s1);
    } else if ReaderSends(capacity, s, s1) {
      SendKeepsEnds(capacity, s, s1);
    }
  }

  /** A reader step that neither reads nor sends. */
  lemma {:induction false} MoveKeepsReported(s: System, s1: System)
    requires Reported(s) && ReaderMoves(s, s1) && (s.reader.Offering? ==> s.channel.made)
    ensures Reported(s1)
  {
    assert EventPending(s1.reader) == EventPending(s.reader);
    NoMore(s1.replies);
  }

  lemma {:induction false} ReadKeepsReported(s: System, o: Outcome, s1: System)
    requires Reported(s) && Returns(s, o, s1)
    ensures Reported(s1)
  {
    CollectSnoc(EventOf, s.outcomes, o);
    CollectSnoc(IdRead, s.outcomes, o);
    NoMore(Collect(FromReader, s.channel.log));
    NoMore(s.replies);
    assert EventPending(s1.reader) == Listed(EventOf(o)) && ReplyPending(s1.reader) == Listed(IdRead(o));
  }

  lemma {:induction false} SendKeepsReported(capacity: nat, s: System, s1: System)
    requires Reported(s) && ReaderSends(capacity, s, s1) && !s.channel.closed
    requires !s1.broken
    ensures Reported(s1)
  {
    var e := EventOf(s.reader.outcome).value;
    assert s1.channel.log == s.channel.log + [e];
    CollectSnoc(FromReader, s.channel.log, e);
    NoMore(Collect(FromReader, s1.channel.log));
  }

  lemma {:induction false} AnnounceKeepsReported(capacity: nat, s: System, s1: System)
    requires Reported(s) && Announces(capacity, s, s1) && !s.channel.closed
    requires !s1.broken
    ensures Reported(s1)
  {
    assert s1.channel.log == s.channel.log + [ReadyEvent];
    CollectSnoc(FromReader, s.channel.log, ReadyEvent);
    NoMore(Collect(FromReader, s.channel.log));
  }

  lemma {:induction false} StepKeepsReported(capacity: nat, s: System, s1: System)
    requires Reported(s) && Phased(s) && Phased(s1) && Step(capacity, s, s1)
    ensures Reported(s1)
  {
    if ReaderMoves(s, s1) {
      MoveKeepsReported(s, s1);
    } else if ReadReturns(s, s1) {
      var o :| Returns(s, o, s1);
      ReadKeepsReported(s, o, s1);
    } else if ReaderSends(capacity, s, s1) {
      SendKeepsReported(capacity, s, s1);
    } else if Announces(capacity, s, s1) {
      AnnounceKeepsReported(capacity, s, s1);
    }
  }

  lemma {:induction false} PutKeepsOrder(capacity: nat, c: Channel, e: Event, c1: Channel)
    requires Puts(capacity, c, e, c1) && InOrder(capacity, c)
    ensures InOrder(capacity, c1)
    ensures Count(IsReady, c1.log) == Count(IsReady, c.log) + if e.ReadyEvent? then 1 else 0
  {
    CountSnoc(IsReady, c.log, e);
    assert c.received + (c.queue + [e]) == (c.received + c.queue) + [e];
  }

  lemma {:induction false} TakeKeepsOrder(capacity: nat, s: System, s1: System)
    requires ConsumerReceives(s, s1) && InOrder(capacity, s.channel)
    ensures InOrder(capacity, s1.channel) && s1.channel.log == s.channel.log
  {
    var c := s.channel;
    assert (c.received + [c.queue[0]]) + c.queue[1..] == c.received + c.queue;
  }

  lemma {:induction false} SendKeepsOrdered(capacity: nat, s: System, s1: System)
    requires Ordered(capacity, s) && ReaderSends(capacity, s, s1) && !s1.broken
    ensures Ordered(capacity, s1)
  {
    var e := EventOf(s.reader.outcome).value;
    assert !e.ReadyEvent?;
    PutKeepsOrder(capacity, s.channel, e, s1.channel);
  }

  lemma {:induction false} AnnounceKeepsOrdered(capacity: nat, s: System, s1: System)
    requires Ordered(capacity, s) && Announces(capacity, s, s1) && !s1.broken
    ensures Ordered(capacity, s1)
  {
    PutKeepsOrder(capacity, s.channel, ReadyEvent, s1.channel);
  }

  lemma {:induction false} StepKeepsOrdered(capacity: nat, s: System, s1: System)
    requires Ordered(capacity, s) && Phased(s) && Phased(s1) && Step(capacity, s, s1)
    ensures Ordered(capacity, s1)
  {
    if ReaderSends(capacity, s, s1) {
      SendKeepsOrdered(capacity, s, s1);
    } else if Announces(capacity, s, s1) {
      AnnounceKeepsOrdered(capacity, s, s1);
    } else if ConsumerReceives(s, s1) {
      TakeKeepsOrder(capacity, s, s1);
    }
  }

  ghost predicate Sound(capacity: nat, s: System)
  {
    Phased(s) && Ends(s) && Reported(s) && Ordered(capacity, s)
  }

  lemma {:induction false} StartSound(capacity: nat, s: System)
    requires Starts(s)
    ensures Sound(capacity, s)
  {
  }

  lemma {:induction false} RunSound(capacity: nat, run: seq<System>, i: nat)
    requires IsRun(capacity, run) && i < |run|
    ensures Sound(capacity, run[i])
  {
    if i == 0 {
      StartSound(capacity, run[0]);
    } else {
      RunSound(capacity, run, i - 1);
      StepKeepsPhased(capacity, run[i - 1], run[i]);
      StepKeepsEnds(capacity, run[i - 1], run[i]);
      StepKeepsReported(capacity, run[i - 1], run[i]);
      StepKeepsOrdered(capacity, run[i - 1], run[i]);
    }
  }

  // ---------------------------------------------------------------- every interleaving

  /** Nothing is used after it is gone: no send on a closed channel, no second close, no read or write
      on a connection that Destroy has dropped; and closing the channel finds no sender waiting. */
  lemma {:induction false} NothingUsedAfterEnd(capacity: nat, run: seq<System>, i: nat)
    requires IsRun(capacity, run) && i < |run|
    ensures !run[i].broken && (run[i].channel.closed ==> run[i].reader == Done)
  {
    RunSound(capacity, run, i);
  }

  lemma {:induction false} IdsSkipReady(log: seq<Event>)
    ensures Collect(IdReported, Collect(FromReader, log)) == Collect(IdReported, log)
  {
    if log != [] {
      var init := log[..|log| - 1];
      var e := log[|log| - 1];
      IdsSkipReady(init);
      CollectAppend(IdReported, Collect(FromReader, init), Listed(FromReader(e)));
      CollectShort(IdReported, e, e);
    }
  }

  lemma {:induction false} CollectPrefix<T, U>(f: T -> Option<U>, xs: seq<T>, ys: seq<T>)
    requires xs <= ys
    ensures Collect(f, xs) <= Collect(f, ys)
  {
    assert ys == xs + ys[|xs|..];
    CollectAppend(f, xs, ys[|xs|..]);
  }

  /** The reader emits at most one disconnect event, and nothing after it. */
  lemma {:induction false} OneDisconnect(capacity: nat, run: seq<System>, i: nat)
    requires IsRun(capacity, run) && i < |run|
    ensures LastIfAny(Collect(FromReader, run[i].channel.log))
  {
    RunSound(capacity, run, i);
    DisconnectIsLast(run[i].outcomes);
    LastOfPrefix(Collect(FromReader, run[i].channel.log), EventPending(run[i].reader), Collect(EventOf, run[i].outcomes));
  }

  lemma {:induction false} LastOfPrefix(events: seq<Event>, pending: seq<Event>, all: seq<Event>)
    requires all == events + pending
    requires LastIfAny(all)
    ensures LastIfAny(events)
  {
    forall k | 0 <= k < |events| && IsDisconnect(events[k])
      ensures k == |events| - 1
    {
      assert all[k] == events[k];
    }
  }

  /** The keep-alive IDs put on the channel, the IDs answered and the IDs the consumer has got are
      each the IDs read, in order, up to some point; all of them once the reader is done. */
  lemma {:induction false} KeepAlivesInOrder(capacity: nat, run: seq<System>, i: nat)
    requires IsRun(capacity, run) && i < |run|
    ensures var s := run[i];
            var ids := Collect(IdRead, s.outcomes);
            && Collect(IdReported, s.channel.log) <= ids && s.replies <= ids
            && Collect(IdReported, s.channel.received) <= ids
            && (s.reader == Done ==> Collect(IdReported, s.channel.log) == ids && s.replies == ids)
  {
    RunSound(capacity, run, i);
    var s := run[i];
    var events := Collect(FromReader, s.channel.log);
    IdsReported(s.outcomes);
    IdsSkipReady(s.channel.log);
    CollectPrefix(IdReported, events, Collect(EventOf, s.outcomes));
    assert s.channel.received <= s.channel.log;
    CollectPrefix(IdReported, s.channel.received, s.channel.log);
    NoMore(events);
    NoMore(s.replies);
  }

  /** The consumer gets what was put in, in order, and the ready event once JoinAndListen returns. */
  lemma {:induction false} ReadyOnce(capacity: nat, run: seq<System>, i: nat)
    requires IsRun(capacity, run) && i < |run|
    ensures run[i].channel.received <= run[i].channel.log
    ensures Count(IsReady, run[i].channel.log) == if run[i].owner in {Joined, Spawning, Announcing} then 0 else 1
  {
    RunSound(capacity, run, i);
  }

  /** But the ready event need not come first: the reader may already have reported the end, to a
      consumer that got the channel from Events before JoinAndListen returned. */
  lemma {:induction false} ReadyMayBeLast(capacity: nat) returns (run: seq<System>)
    ensures IsRun(capacity, run) && run[|run| - 1].channel.received == [DisconnectEvent(None), ReadyEvent]
  {
    var s0 := System(Joined, NotStarted, false, NO_CHANNEL, true, [], [], false, false);
    var s1 := s0.(owner := Spawning, channel := NO_CHANNEL.(made := true));
    var s2 := s1.(owner := Announcing, reader := Checking);
    var s3 := s2.(reader := Blocked);
    var s4 := s3.(reader := Offering(Failed), outcomes := [Failed]);
    var s5 := s4.(reader := Sending(Failed));
    var e := DisconnectEvent(None);
    var s6 := s5.(reader := Done, channel := Channel(true, false, [], [e], [e]));
    var s7 := s6.(owner := Returned, channel := Channel(true, false, [], [e, ReadyEvent], [e, ReadyEvent]));
    run := [s0, s1, s2, s3, s4, s5, s6, s7];
    assert Step(capacity, s0, s1) && Step(capacity, s1, s2) && Step(capacity, s2, s3);
    assert Returns(s3, Failed, s4) by { assert [] + [Failed] == [Failed]; }
    assert Step(capacity, s3, s4) && Step(capacity, s4, s5);
    assert Puts(capacity, s5.channel, e, s6.channel) by { assert [] + [e] == [e]; }
    assert ReaderSends(capacity, s5, s6);
    assert Puts(capacity, s6.channel, ReadyEvent, s7.channel) by { assert [e] + [ReadyEvent] == [e, ReadyEvent]; }
    assert Announces(capacity, s6, s7);
  }

  // ---------------------------------------------------------------- when the ready event comes first

  /** JoinAndListen has not returned. */
  predicate Early(s: System) { s.owner == Joined || s.owner == Spawning || s.owner == Announcing }

  predicate ReadyFirst(events: seq<Event>) { events != [] ==> events[0].ReadyEvent? }

  /** The reads of a run so far are the first of these outcomes. */
  predicate HasRead(s: System, outcomes: seq<Outcome>) { s.outcomes <= outcomes }

  /** No outcome is reported as an event. */
  predicate Silent(outcomes: seq<Outcome>) { forall i :: 0 <= i < |outcomes| ==> EventOf(outcomes[i]).None? }

  /** The consumer has the channel that JoinAndListen returns, and so receives nothing before. */
  ghost predicate Ordinary(run: seq<System>)
  {
    forall i :: 0 < i < |run| && Early(run[i - 1]) ==> run[i].channel.received == run[i - 1].channel.received
  }

  lemma {:induction false} SilentCollects(outcomes: seq<Outcome>)
    requires Silent(outcomes)
    ensures Collect(EventOf, outcomes) == []
  {
    if outcomes != [] {
      SilentCollects(outcomes[..|outcomes| - 1]);
    }
  }

  lemma {:induction false} OnlyReady(log: seq<Event>)
    requires Collect(FromReader, log) == []
    ensures ReadyFirst(log)
  {
    if |log| == 1 {
      CollectShort(FromReader, log[0], log[0]);
      assert log == [log[0]];
    } else if log != [] {
      var init := log[..|log| - 1];
      OnlyReady(init);
      assert init[0] == log[0];
    }
  }

  /** While nothing read is reported, only the ready event is on the channel. */
  lemma {:induction false} SilentReadyFirst(capacity: nat, run: seq<System>, i: nat, outcomes: seq<Outcome>)
    requires IsRun(capacity, run) && i < |run| && HasRead(run[i], outcomes) && Silent(outcomes)
    ensures ReadyFirst(run[i].channel.log) && ReadyFirst(run[i].channel.received)
  {
    RunSound(capacity, run, i);
    SilentCollects(run[i].outcomes);
    OnlyReady(run[i].channel.log);
    assert run[i].channel.received <= run[i].channel.log;
  }

  // ---------------------------------------------------------------- the runs in which it does not

  lemma {:induction false} RunOn(capacity: nat, run: seq<System>, s: System)
    requires IsRun(capacity, run) && Ordinary(run) && Step(capacity, run[|run| - 1], s)
    requires Early(run[|run| - 1]) ==> s.channel.received == run[|run| - 1].channel.received
    ensures IsRun(capacity, run + [s]) && Ordinary(run + [s])
  {
    var longer := run + [s];
    forall i | 0 < i < |longer|
      ensures Step(capacity, longer[i - 1], longer[i])
      ensures Early(longer[i - 1]) ==> longer[i].channel.received == longer[i - 1].channel.received
    {
      if i == |run| {
        assert longer[i - 1] == run[|run| - 1] && longer[i] == s;
      } else {
        assert longer[i - 1] == run[i - 1] && longer[i] == run[i];
      }
    }
  }

  /** The reader is about to check its context, the channel is made and empty, and the owner is about
      to announce. */
  function Listener(outcomes: seq<Outcome>): System
  {
    System(Announcing, Checking, false, NO_CHANNEL.(made := true), true, outcomes, [], false, false)
  }

  lemma {:induction false} Spawns(capacity: nat) returns (run: seq<System>)
    ensures IsRun(capacity, run) && Ordinary(run) && run[|run| - 1] == Listener([])
  {
    var s0 := System(Joined, NotStarted, false, NO_CHANNEL, true, [], [], false, false);
    var s1 := s0.(owner := Spawning, channel := NO_CHANNEL.(made := true));
    assert Step(capacity, s0, s1) && Step(capacity, s1, Listener([]));
    run := [s0];
    RunOn(capacity, run, s1);
    run := run + [s1];
    RunOn(capacity, run, Listener([]));
    run := run + [Listener([])];
  }

  /** Any outcomes that are not reported can be read before the owner announces. */
  lemma {:induction false} ReadsSilently(capacity: nat, outcomes: seq<Outcome>) returns (run: seq<System>)
    requires Silent(outcomes) && forall o :: o in outcomes ==> !IsLast(o)
    ensures IsRun(capacity, run) && Ordinary(run) && run[|run| - 1] == Listener(outcomes)
  {
    if outcomes == [] {
      run := Spawns(capacity);
    } else {
      var before := outcomes[..|outcomes| - 1];
      var o := outcomes[|outcomes| - 1];
      run := ReadsSilently(capacity, before);
      run := ReadsOne(capacity, run, before, o);
      assert before + [o] == outcomes;
    }
  }

  lemma {:induction false} ReadsOne(capacity: nat, run: seq<System>, before: seq<Outcome>, o: Outcome) returns (longer: seq<System>)
    requires IsRun(capacity, run) && Ordinary(run) && run[|run| - 1] == Listener(before)
    requires EventOf(o).None? && !IsLast(o)
    ensures IsRun(capacity, longer) && Ordinary(longer) && longer[|longer| - 1] == Listener(before + [o])
  {
    var s1 := Listener(before).(reader := Blocked);
    var s2 := Listener(before + [o]).(reader := Offering(o));
    RunOn(capacity, run, s1);
    longer := run + [s1];
    assert Returns(s1, o, s2);
    RunOn(capacity, longer, s2);
    longer := longer + [s2];
    RunOn(capacity, longer, Listener(before + [o]));
    longer := longer + [Listener(before + [o])];
  }

  /** The reader is about to put the event of o on the empty channel, before the owner announces. */
  function Reporter(before: seq<Outcome>, o: Outcome): System
  {
    Listener(before + [o]).(reader := Sending(o), replies := Listed(IdRead(o)))
  }

  lemma {:induction false} ReadsLoud(capacity: nat, run: seq<System>, before: seq<Outcome>, o: Outcome) returns (longer: seq<System>)
    requires IsRun(capacity, run) && Ordinary(run) && run[|run| - 1] == Listener(before) && EventOf(o).Some?
    ensures IsRun(capacity, longer) && Ordinary(longer) && longer[|longer| - 1] == Reporter(before, o)
  {
    var s1 := Listener(before).(reader := Blocked);
    RunOn(capacity, run, s1);
    longer := run + [s1];
    var s3 := Reporter(before, o).(reader := Offering(o));
    if IdRead(o).Some? {
      var s2 := Listener(before + [o]).(reader := Replying(o));
      assert Returns(s1, o, s2);
      RunOn(capacity, longer, s2);
      longer := longer + [s2];
      assert s2.replies + Listed(IdRead(o)) == Listed(IdRead(o));
    } else {
      assert Returns(s1, o, s3);
    }
    RunOn(capacity, longer, s3);
    longer := longer + [s3];
    RunOn(capacity, longer, Reporter(before, o));
    longer := longer + [Reporter(before, o)];
  }

  /** The first outcome that is reported, when one is, can be about to go on the channel first. */
  lemma {:induction false} Reports(capacity: nat, outcomes: seq<Outcome>) returns (run: seq<System>, k: nat)
    requires OnlyLastIsLast(outcomes) && !Silent(outcomes)
    ensures k < |outcomes| && EventOf(outcomes[k]).Some?
    ensures IsRun(capacity, run) && Ordinary(run) && run[|run| - 1] == Reporter(outcomes[..k], outcomes[k])
    ensures HasRead(run[|run| - 1], outcomes)
  {
    k := FirstLoud(outcomes);
    var before := outcomes[..k];
    forall o | o in before
      ensures !IsLast(o)
    {
      var i :| 0 <= i < k && before[i] == o;
      assert !IsLast(outcomes[i]);
    }
    run := ReadsSilently(capacity, before);
    run := ReadsLoud(capacity, run, before, outcomes[k]);
    assert before + [outcomes[k]] == outcomes[..k + 1];
  }

  lemma {:induction false} FirstLoud(outcomes: seq<Outcome>) returns (k: nat)
    requires !Silent(outcomes)
    ensures k < |outcomes| && EventOf(outcomes[k]).Some? && Silent(outcomes[..k])
  {
    if Silent(outcomes[..|outcomes| - 1]) {
      k := |outcomes| - 1;
      assert forall i :: 0 <= i < k ==> outcomes[i] == outcomes[..k][i];
    } else {
      k := FirstLoud(outcomes[..|outcomes| - 1]);
      assert outcomes[..|outcomes| - 1][..k] == outcomes[..k];
    }
  }

  /** Met by a receiver, or into a free slot, that event is then first on the channel. */
  lemma {:induction false} ReaderFirst(capacity: nat, outcomes: seq<Outcome>) returns (run: seq<System>)
    requires OnlyLastIsLast(outcomes) && !Silent(outcomes)
    ensures IsRun(capacity, run) && HasRead(run[|run| - 1], outcomes) && !ReadyFirst(run[|run| - 1].channel.log)
  {
    var k: nat;
    run, k := Reports(capacity, outcomes);
    var s := run[|run| - 1];
    var e := EventOf(outcomes[k]).value;
    var s1 := s.(reader := After(outcomes[k]), channel := Channel(true, false, [], [e], [e]));
    assert Puts(capacity, s.channel, e, s1.channel) by { assert [] + [e] == [e]; }
    assert ReaderSends(capacity, s, s1) && Step(capacity, s, s1);
    RunExtends(capacity, run, s1);
    run := run + [s1];
  }

  lemma {:induction false} RunExtends(capacity: nat, run: seq<System>, s: System)
    requires IsRun(capacity, run) && Step(capacity, run[|run| - 1], s)
    ensures IsRun(capacity, run + [s])
  {
    var longer := run + [s];
    forall i | 0 < i < |longer|
      ensures Step(capacity, longer[i - 1], longer[i])
    {
      if i < |run| {
        assert longer[i - 1] == run[i - 1] && longer[i] == run[i];
      }
    }
  }

  /** Whatever the consumer does: the ready event is sure to be first on the channel if and only if
      nothing the server sends is reported. */
  lemma {:induction false} ReadyFirstUnlessReported(capacity: nat, outcomes: seq<Outcome>)
    requires OnlyLastIsLast(outcomes)
    ensures (forall run: seq<System>, i: int :: IsRun(capacity, run) && 0 <= i < |run| && HasRead(run[i], outcomes) ==> ReadyFirst(run[i].channel.log))
       <==> Silent(outcomes)
  {
    if Silent(outcomes) {
      forall run: seq<System>, i: int | IsRun(capacity, run) && 0 <= i < |run| && HasRead(run[i], outcomes)
        ensures ReadyFirst(run[i].channel.log)
      {
        SilentReadyFirst(capacity, run, i, outcomes);
      }
    } else {
      var run := ReaderFirst(capacity, outcomes);
      var last: nat := |run| - 1;
      assert HasRead(run[last], outcomes) && !ReadyFirst(run[last].channel.log);
    }
  }

  // ---------------------------------------------------------------- a consumer that waits for the channel

  /** With two buffer slots the event goes in, the ready event behind it, JoinAndListen returns, and the
      consumer receives the event. */
  lemma {:induction false} ReceivesReaderFirst(capacity: nat, outcomes: seq<Outcome>) returns (run: seq<System>)
    requires OnlyLastIsLast(outcomes) && !Silent(outcomes) && capacity >= 2
    ensures IsRun(capacity, run) && Ordinary(run) && HasRead(run[|run| - 1], outcomes)
    ensures !ReadyFirst(run[|run| - 1].channel.received)
  {
    var k: nat;
    run, k := Reports(capacity, outcomes);
    var s := run[|run| - 1];
    var e := EventOf(outcomes[k]).value;
    var s1 := s.(reader := After(outcomes[k]), channel := Channel(true, false, [e], [e], []));
    assert Puts(capacity, s.channel, e, s1.channel) by { assert [] + [e] == [e]; }
    assert ReaderSends(capacity, s, s1);
    RunOn(capacity, run, s1);
    run := run + [s1];
    run := AnnounceAndReceive(capacity, run, e);
  }

  lemma {:induction false} AnnounceAndReceive(capacity: nat, run: seq<System>, e: Event) returns (longer: seq<System>)
    requires IsRun(capacity, run) && Ordinary(run) && capacity >= 2 && !e.ReadyEvent?
    requires var s := run[|run| - 1]; s.owner == Announcing && !s.crashed && s.channel == Channel(true, false, [e], [e], [])
    ensures IsRun(capacity, longer) && Ordinary(longer) && longer[|longer| - 1].outcomes == run[|run| - 1].outcomes
    ensures longer[|longer| - 1].channel.received == [e]
  {
    var s := run[|run| - 1];
    var s1 := s.(owner := Returned, channel := Channel(true, false, [e, ReadyEvent], [e, ReadyEvent], []));
    assert Puts(capacity, s.channel, ReadyEvent, s1.channel) by { assert [e] + [ReadyEvent] == [e, ReadyEvent]; }
    assert Announces(capacity, s, s1);
    RunOn(capacity, run, s1);
    longer := run + [s1];
    var s2 := s1.(channel := Channel(true, false, [ReadyEvent], [e, ReadyEvent], [e]));
    assert ConsumerReceives(s1, s2) by { assert [e, ReadyEvent][1..] == [ReadyEvent] && [] + [e] == [e]; }
    RunOn(capacity, longer, s2);
    longer := longer + [s2];
  }

  /** With fewer than two slots and such a consumer: before JoinAndListen returns nothing is received,
      and by then the ready event has gone in first. */
  ghost predicate Waits(capacity: nat, s: System)
  {
    && (Early(s) ==> s.channel.received == [])
    && (!Early(s) ==> capacity == 1 && s.channel.log != [] && s.channel.log[0].ReadyEvent?)
  }

  lemma {:induction false} PutsBehind(capacity: nat, c: Channel, e: Event, c1: Channel)
    requires Puts(capacity, c, e, c1)
    ensures c1.log == c.log + [e]
    ensures c1.received == c.received ==> |c.queue| < capacity
  {
    assert |c.received + [e]| == |c.received| + 1;
  }

  /** What goes in stays behind what is there. */
  lemma {:induction false} SendWaits(capacity: nat, s: System, s1: System)
    requires capacity < 2 && Waits(capacity, s) && Phased(s) && ReaderSends(capacity, s, s1)
    requires Early(s) ==> s1.channel.received == s.channel.received
    ensures Waits(capacity, s1)
  {
    PutsBehind(capacity, s.channel, EventOf(s.reader.outcome).value, s1.channel);
  }

  lemma {:induction false} AnnounceWaits(capacity: nat, s: System, s1: System)
    requires capacity < 2 && Waits(capacity, s) && Phased(s) && InOrder(capacity, s.channel) && Announces(capacity, s, s1)
    requires s1.channel.received == s.channel.received
    ensures Waits(capacity, s1)
  {
    PutsBehind(capacity, s.channel, ReadyEvent, s1.channel);
    assert s.channel.log == [] by {
      assert s.channel.received + s.channel.queue == s.channel.log;
    }
  }

  lemma {:induction false} TakeWaits(capacity: nat, s: System, s1: System)
    requires Waits(capacity, s) && ConsumerReceives(s, s1)
    requires Early(s) ==> s1.channel.received == s.channel.received
    ensures Waits(capacity, s1)
  {
    var c := s.channel;
    assert |c.received + [c.queue[0]]| == |c.received| + 1;
  }

  /** Neither puts in nor takes out, nor returns from JoinAndListen. */
  predicate Aside(s: System, s1: System)
  {
    s1.channel.log == s.channel.log && s1.channel.received == s.channel.received && (Early(s1) <==> Early(s))
  }

  lemma {:induction false} OwnerAside(s: System, s1: System)
    requires OwnerMoves(s, s1)
    ensures Aside(s, s1)
  {
  }

  lemma {:induction false} ReaderAside(s: System, s1: System)
    requires ReaderMoves(s, s1)
    ensures Aside(s, s1)
  {
  }

  lemma {:induction false} StepWaits(capacity: nat, s: System, s1: System)
    requires capacity < 2 && Waits(capacity, s) && Phased(s) && Ordered(capacity, s) && Step(capacity, s, s1)
    requires Early(s) ==> s1.channel.received == s.channel.received
    ensures Waits(capacity, s1)
  {
    if ReaderSends(capacity, s, s1) {
      SendWaits(capacity, s, s1);
    } else if Announces(capacity, s, s1) {
      AnnounceWaits(capacity, s, s1);
    } else if ConsumerReceives(s, s1) {
      TakeWaits(capacity, s, s1);
    } else if OwnerMoves(s, s1) {
      OwnerAside(s, s1);
    } else if ReaderMoves(s, s1) {
      ReaderAside(s, s1);
    }
  }

  lemma {:induction false} RunWaits(capacity: nat, run: seq<System>, i: nat)
    requires capacity < 2 && IsRun(capacity, run) && Ordinary(run) && i < |run|
    ensures Waits(capacity, run[i])
  {
    if i > 0 {
      var last: nat := i - 1;
      RunWaits(capacity, run, last);
      RunSound(capacity, run, last);
      StepWaits(capacity, run[last], run[i]);
    }
  }

  /** A consumer that waits for the channel JoinAndListen returns is sure to get the ready event first
      if and only if the channel has fewer than two slots or nothing the server sends is reported. */
  lemma {:induction false} ReadyReceivedFirst(capacity: nat, outcomes: seq<Outcome>)
    requires OnlyLastIsLast(outcomes)
    ensures (forall run: seq<System>, i: int :: IsRun(capacity, run) && Ordinary(run) && 0 <= i < |run| && HasRead(run[i], outcomes) ==>
               ReadyFirst(run[i].channel.received))
       <==> capacity < 2 || Silent(outcomes)
  {
    if capacity < 2 || Silent(outcomes) {
      forall run: seq<System>, i: int | IsRun(capacity, run) && Ordinary(run) && 0 <= i < |run| && HasRead(run[i], outcomes)
        ensures ReadyFirst(run[i].channel.received)
      {
        if capacity < 2 {
          RunWaits(capacity, run, i);
          ReadyOnce(capacity, run, i);
        } else {
          SilentReadyFirst(capacity, run, i, outcomes);
        }
      }
    } else {
      var run := ReceivesReaderFirst(capacity, outcomes);
      var last: nat := |run| - 1;
      assert HasRead(run[last], outcomes) && !ReadyFirst(run[last].channel.received);
    }
  }

  /** Without a buffer, such a consumer waits for ever: JoinAndListen never returns. */
  lemma {:induction false} UnbufferedNeverReturns(run: seq<System>, i: nat)
    requires IsRun(0, run) && Ordinary(run) && i < |run|
    ensures Early(run[i]) && run[i].channel.log == []
  {
    RunWaits(0, run, i);
    RunSound(0, run, i);
    assert run[i].channel.received + run[i].channel.queue == run[i].channel.log;
  }

  // ---------------------------------------------------------------- after cancellation

  function Reading(s: System): nat { if s.reader == Blocked then 1 else 0 }

  lemma {:induction false} StepReads(capacity: nat, s: System, s1: System)
    requires s.cancelled && Step(capacity, s, s1)
    ensures s1.cancelled && |s1.outcomes| + Reading(s1) <= |s.outcomes| + Reading(s)
  {
  }

  /** Once cancelled, by Destroy or by the loop itself, at most the read under way still completes. */
  lemma {:induction false} OneMoreReadAtMost(capacity: nat, run: seq<System>, i: nat, j: nat)
    requires IsRun(capacity, run) && i <= j < |run| && run[i].cancelled
    ensures run[j].cancelled && |run[j].outcomes| + Reading(run[j]) <= |run[i].outcomes| + Reading(run[i])
    decreases j
  {
    if i < j {
      var last: nat := j - 1;
      OneMoreReadAtMost(capacity, run, i, last);
      StepReads(capacity, run[last], run[j]);
    }
  }

  /** Destroy has begun. */
  predicate Destroying(s: System) { !Early(s) && s.owner != Returned }

  /** Destroy cancels the loop before it waits for the reader, and nothing takes that back. */
  lemma {:induction false} DestroyCancels(capacity: nat, run: seq<System>, i: nat)
    requires IsRun(capacity, run) && i < |run|
    ensures Destroying(run[i]) ==> run[i].cancelled
  {
    if i > 0 {
      var last: nat := i - 1;
      DestroyCancels(capacity, run, last);
      StepCancels(capacity, run[last], run[i]);
    }
  }

  lemma {:induction false} StepCancels(capacity: nat, s: System, s1: System)
    requires (Destroying(s) ==> s.cancelled) && Step(capacity, s, s1)
    ensures Destroying(s1) ==> s1.cancelled
  {
    if s.cancelled {
      StepReads(capacity, s, s1);
    }
  }

  // ---------------------------------------------------------------- a reader of a stream

  /** The inbound bytes, and the state and threshold they are read under. */
  datatype Source = Source(env: Env, version: int, state: State, threshold: int, input: bytes)

  /** The reader's reads are of this stream: each outcome so far is what the next ReadPacket gives. */
  ghost predicate Reads(source: Source, s: System)
  {
    s.outcomes == FirstReads(source.env, source.version, source.state, source.threshold, source.input, |s.outcomes|)
  }

  ghost predicate ReadsThroughout(source: Source, run: seq<System>)
  {
    forall i :: 0 <= i < |run| ==> Reads(source, run[i])
  }

  /** What the uncancelled loop reads of it. */
  function AllReads(source: Source): seq<Outcome>
  {
    StreamOutcomes(source.env, source.version, source.state, source.threshold, source.input)
  }

  /** The loop is cancelled, and the reader done, only because of what it read or of Destroy. */
  predicate Caused(s: System)
  {
    && (s.cancelled || s.reader == Done ==> EndsItself(s.outcomes) || Destroying(s))
    && (s.reader == Cancelling ==> EndsItself(s.outcomes))
  }

  lemma {:induction false} ReadKeepsCaused(s: System, o: Outcome, s1: System)
    requires Caused(s) && Ends(s) && Returns(s, o, s1)
    ensures Caused(s1)
  {
  }

  lemma {:induction false} MoveKeepsCaused(s: System, s1: System)
    requires Caused(s) && Ends(s) && ReaderMoves(s, s1)
    ensures Caused(s1)
  {
  }

  lemma {:induction false} SendKeepsCaused(capacity: nat, s: System, s1: System)
    requires Caused(s) && Ends(s) && ReaderSends(capacity, s, s1) && !s1.broken
    ensures Caused(s1)
  {
  }

  lemma {:induction false} OwnerKeepsCaused(s: System, s1: System)
    requires Caused(s) && OwnerMoves(s, s1)
    ensures Caused(s1)
  {
  }

  lemma {:induction false} AnnounceKeepsCaused(capacity: nat, s: System, s1: System)
    requires Caused(s) && !s1.broken && Announces(capacity, s, s1)
    ensures Caused(s1)
  {
  }

  lemma {:induction false} StepKeepsCaused(capacity: nat, s: System, s1: System)
    requires Caused(s) && Ends(s) && Phased(s1) && Step(capacity, s, s1)
    ensures Caused(s1)
  {
    if ReadReturns(s, s1) {
      var o :| Returns(s, o, s1);
      ReadKeepsCaused(s, o, s1);
    } else if ReaderMoves(s, s1) {
      MoveKeepsCaused(s, s1);
    } else if ReaderSends(capacity, s, s1) {
      SendKeepsCaused(capacity, s, s1);
    } else if OwnerMoves(s, s1) {
      OwnerKeepsCaused(s, s1);
    } else if Announces(capacity, s, s1) {
      AnnounceKeepsCaused(capacity, s, s1);
    }
  }

  lemma {:induction false} RunCaused(capacity: nat, run: seq<System>, i: nat)
    requires IsRun(capacity, run) && i < |run|
    ensures Caused(run[i])
  {
    if i > 0 {
      var last: nat := i - 1;
      RunCaused(capacity, run, last);
      RunSound(capacity, run, last);
      RunSound(capacity, run, i);
      StepKeepsCaused(capacity, run[last], run[i]);
    }
  }

  /** In every run over a stream, what the reader has read is the first of what the uncancelled loop
      reads, and all of it once the reader is done without Destroy. */
  lemma {:induction false} ReadsTheStream(capacity: nat, source: Source, run: seq<System>, i: nat)
    requires IsRun(capacity, run) && ReadsThroughout(source, run) && i < |run|
    ensures run[i].outcomes <= AllReads(source)
    ensures run[i].reader == Done && !Destroying(run[i]) ==> run[i].outcomes == AllReads(source)
  {
    RunSound(capacity, run, i);
    RunCaused(capacity, run, i);
    assert Reads(source, run[i]);
    ReadsOfStream(source.env, source.version, source.state, source.threshold, source.input, |run[i].outcomes|);
  }

  /** So what such a reader has reported is what the loop on that stream reports, as far as it got; and
      all of it, once it is done without Destroy. */
  lemma {:induction false} ReportsTheStream(capacity: nat, source: Source, run: seq<System>, i: nat, w: World)
    requires IsRun(capacity, run) && ReadsThroughout(source, run) && i < |run|
    requires w.state == source.state && w.threshold == source.threshold && w.input == source.input
    ensures var events := ReadLoop(source.env, source.version, w, None).1;
            && Collect(FromReader, run[i].channel.log) <= events
            && (run[i].reader == Done && !Destroying(run[i]) ==> Collect(FromReader, run[i].channel.log) == events)
  {
    RunSound(capacity, run, i);
    ReadsTheStream(capacity, source, run, i);
    StreamRun(source.env, source.version, w);
    CollectPrefix(EventOf, run[i].outcomes, AllReads(source));
    NoMore(Collect(FromReader, run[i].channel.log));
  }
}
