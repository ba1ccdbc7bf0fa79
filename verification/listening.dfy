/** The read loop of a client that has joined (client.go): what it reports as events and what it
    answers, up to the turn at which it finds its context cancelled. */
module Listening {
  import opened Wire
  import opened Packets
  import opened Registry
  import opened Framing
  import opened Session
  import opened Tables
  import opened Traces

  /** The reason of a DisconnectEvent is the server's, or none for the text of a read error. */
  datatype Event = ReadyEvent | KeepAliveEvent(id: int64) | DisconnectEvent(reason: Option<bytes>)

  // ---------------------------------------------------------------- the loop

  /** handlePacket: the world after it, the events it sends, and whether it cancels the loop. A reply
      that cannot be sent is only logged. */
  function Handle(env: Env, v: int, w: World, p: Packet): (t: (World, seq<Event>, bool))
    ensures t.0.input == w.input
  {
    match p
    case ClientboundKeepAlive(id) => (Send(env, v, w, ServerboundKeepAlive(id)).1, [KeepAliveEvent(id)], false)
    case ClientboundDisconnect(reason) => (w, [DisconnectEvent(Some(reason))], true)
    case _ => (w, [], false)
  }

  /** One turn: a read and what is made of it. A turn the loop goes on from has shortened the stream. */
  function ReadTurn(env: Env, v: int, w: World): (t: (World, seq<Event>, bool))
    ensures !t.2 ==> |t.0.input| < |w.input|
  {
    var (o, w1) := Hear(env, v, w);
    React(env, v, w1, o)
  }

  function React(env: Env, v: int, w: World, o: Outcome): (t: (World, seq<Event>, bool))
    ensures t.0.input == w.input
    ensures !t.2 ==> o != Failed
  {
    match o
    case Failed => (w, [DisconnectEvent(None)], true)
    case Unknown => (w, [], false)
    case Crashed => (w, [], true)
    case Got(p) => Handle(env, v, w, p)
  }

  /** How many turns the loop gets before it finds its context cancelled from outside; none when it
      never is. */
  type Patience = Option<nat>

  function Fewer(cancel: Patience): Patience
    requires cancel != Some(0)
  {
    match cancel
    case None => None
    case Some(turns) => Some(turns - 1)
  }

  /** readLoop. It ends on the shrinking stream, cancelled or not. */
  function ReadLoop(env: Env, v: int, w: World, cancel: Patience): (World, seq<Event>)
    decreases |w.input|
  {
    if cancel == Some(0) then (w, [])
    else
      var (w1, events, stop) := ReadTurn(env, v, w);
      if stop then (w1, events)
      else
        var (w2, more) := ReadLoop(env, v, w1, Fewer(cancel));
        (w2, events + more)
  }

  /** What is left of a run of the loop: the world it ends in and the events to come. */
  predicate Ahead(env: Env, v: int, w: World, cancel: Patience, end: World, events: seq<Event>)
  {
    ReadLoop(env, v, w, cancel) == (end, events)
  }

  lemma {:induction false} AheadTurn(env: Env, v: int, w: World, cancel: Patience, fewer: Patience, end: World, events: seq<Event>)
    requires Ahead(env, v, w, cancel, end, events) && cancel != Some(0) && fewer == Fewer(cancel)
    ensures var (w1, now, stop) := ReadTurn(env, v, w);
            && |now| <= |events| && events == now + events[|now|..]
            && if stop then w1 == end && events[|now|..] == [] else Ahead(env, v, w1, fewer, end, events[|now|..])
  {
    var t := ReadTurn(env, v, w);
    if t.2 {
      assert events == t.1;
    } else {
      AheadMore(env, v, w, cancel, fewer, t, end, events);
    }
  }

  lemma {:induction false} AheadMore(env: Env, v: int, w: World, cancel: Patience, fewer: Patience,
                                     t: (World, seq<Event>, bool), end: World, events: seq<Event>)
    requires Ahead(env, v, w, cancel, end, events) && cancel != Some(0) && fewer == Fewer(cancel)
    requires t == ReadTurn(env, v, w) && !t.2
    ensures |t.1| <= |events| && events == t.1 + events[|t.1|..] && Ahead(env, v, t.0, fewer, end, events[|t.1|..])
  {
    var (last, more) := ReadLoop(env, v, t.0, fewer);
    assert end == last && events == t.1 + more;
    DropFirst(t.1, more);
  }

  lemma {:induction false} DropFirst(now: seq<Event>, more: seq<Event>)
    ensures (now + more)[|now|..] == more
  {
  }

  // ---------------------------------------------------------------- the traces

  function EventOf(o: Outcome): Option<Event>
  {
    match o
    case Failed => Some(DisconnectEvent(None))
    case Unknown => None
    case Crashed => None
    case Got(p) =>
      if p.ClientboundKeepAlive? then Some(KeepAliveEvent(p.id))
      else if p.ClientboundDisconnect? then Some(DisconnectEvent(Some(p.reason)))
      else None
  }

  /** Nothing is read after such an outcome. */
  predicate IsLast(o: Outcome) { o.Failed? || o.Crashed? || (o.Got? && o.packet.ClientboundDisconnect?) }

  function IdRead(o: Outcome): Option<int64> { if o.Got? && o.packet.ClientboundKeepAlive? then Some(o.packet.id) else None }

  function IdReported(e: Event): Option<int64> { if e.KeepAliveEvent? then Some(e.id) else None }

  predicate IsDisconnect(e: Event) { e.DisconnectEvent? }

  /** Only the last read may be one that ends the loop. */
  predicate OnlyLastIsLast(outcomes: seq<Outcome>)
  {
    forall i :: 0 <= i < |outcomes| - 1 ==> !IsLast(outcomes[i])
  }

  /** The keep-alive IDs reported are exactly those read, in order. */
  lemma {:induction false} IdsReported(outcomes: seq<Outcome>)
    ensures Collect(IdReported, Collect(EventOf, outcomes)) == Collect(IdRead, outcomes)
  {
    if outcomes != [] {
      var init := outcomes[..|outcomes| - 1];
      var last := outcomes[|outcomes| - 1];
      IdsReported(init);
      CollectAppend(IdReported, Collect(EventOf, init), Listed(EventOf(last)));
      IdOfEvent(last);
    }
  }

  lemma {:induction false} NoDisconnectYet(outcomes: seq<Outcome>)
    requires forall o :: o in outcomes ==> !IsLast(o)
    ensures forall e :: e in Collect(EventOf, outcomes) ==> !IsDisconnect(e)
  {
    if outcomes != [] {
      var init := outcomes[..|outcomes| - 1];
      assert forall o :: o in init ==> o in outcomes;
      NoDisconnectYet(init);
      assert !IsLast(outcomes[|outcomes| - 1]);
    }
  }

  /** At most one disconnect, with nothing after it. */
  predicate LastIfAny(events: seq<Event>)
  {
    forall i :: 0 <= i < |events| && IsDisconnect(events[i]) ==> i == |events| - 1
  }

  /** Such reads report at most one disconnect, with nothing after it. */
  lemma {:induction false} DisconnectIsLast(outcomes: seq<Outcome>)
    requires OnlyLastIsLast(outcomes)
    ensures LastIfAny(Collect(EventOf, outcomes))
  {
    if outcomes != [] {
      var init := outcomes[..|outcomes| - 1];
      assert forall o :: o in init ==> !IsLast(o) by {
        assert forall i :: 0 <= i < |init| ==> init[i] == outcomes[i];
      }
      NoDisconnectYet(init);
      var before := Collect(EventOf, init);
      assert forall i :: 0 <= i < |before| ==> before[i] in before;
    }
  }

  lemma {:induction false} IdOfEvent(o: Outcome)
    ensures Collect(IdReported, Listed(EventOf(o))) == Listed(IdRead(o))
  {
    if EventOf(o).Some? {
      CollectShort(IdReported, EventOf(o).value, EventOf(o).value);
    }
  }

  /** Reads as they are recorded while state and threshold stand still. */
  function Reads(state: State, threshold: int, outcomes: seq<Outcome>): seq<Heard>
  {
    seq(|outcomes|, i requires 0 <= i < |outcomes| => Heard(state, threshold, outcomes[i]))
  }

  /** Keep-alive answers, likewise. */
  function Echoes(state: State, threshold: int, ids: seq<int64>): seq<Sent>
  {
    seq(|ids|, i requires 0 <= i < |ids| => Sent(state, threshold, ServerboundKeepAlive(ids[i])))
  }

  /** From w to w1 the given reads were made and reported in the given events, and each keep-alive
      was echoed. */
  ghost predicate Listened(w: World, outcomes: seq<Outcome>, w1: World, events: seq<Event>)
  {
    && w1.state == w.state && w1.threshold == w.threshold && w1.states == w.states
    && w1.heard == w.heard + Reads(w.state, w.threshold, outcomes)
    && w1.sent == w.sent + Echoes(w.state, w.threshold, Collect(IdRead, outcomes))
    && events == Collect(EventOf, outcomes)
  }

  /** One read, and what the loop makes of it. */
  lemma {:induction false} OneRead(w: World, o: Outcome, w1: World)
    requires w1.state == w.state && w1.threshold == w.threshold && w1.states == w.states
    requires w1.heard == w.heard + [Heard(w.state, w.threshold, o)]
    requires w1.sent == if IdRead(o).Some? then w.sent + [Sent(w.state, w.threshold, ServerboundKeepAlive(IdRead(o).value))] else w.sent
    ensures Listened(w, [o], w1, Listed(EventOf(o)))
  {
    CollectShort(IdRead, o, o);
    CollectShort(EventOf, o, o);
    assert Reads(w.state, w.threshold, [o]) == [Heard(w.state, w.threshold, o)];
    if IdRead(o).Some? {
      var id := IdRead(o).value;
      assert Echoes(w.state, w.threshold, [id]) == [Sent(w.state, w.threshold, ServerboundKeepAlive(id))];
    } else {
      assert w.sent + Echoes(w.state, w.threshold, []) == w.sent;
    }
  }

  lemma {:induction false} Reacts(env: Env, v: int, w: World, o: Outcome)
    ensures var (w1, events, stop) := React(env, v, w, o);
            && events == Listed(EventOf(o)) && stop == IsLast(o)
            && w1 == w.(sent := if IdRead(o).Some? then w.sent + [Sent(w.state, w.threshold, ServerboundKeepAlive(IdRead(o).value))]
                                else w.sent)
  {
  }

  lemma {:induction false} ReadTurnListens(env: Env, v: int, w: World)
    ensures var o := Hear(env, v, w).0;
            var (w1, events, stop) := ReadTurn(env, v, w);
            Listened(w, [o], w1, events) && stop == IsLast(o)
  {
    var (o, w1) := Hear(env, v, w);
    Reacts(env, v, w1, o);
    OneRead(w, o, React(env, v, w1, o).0);
  }

  lemma {:induction false} ReadsAppend(heard: seq<Heard>, state: State, threshold: int, a: seq<Outcome>, b: seq<Outcome>)
    ensures (heard + Reads(state, threshold, a)) + Reads(state, threshold, b) == heard + Reads(state, threshold, a + b)
  {
  }

  lemma {:induction false} EchoesAppend(sent: seq<Sent>, state: State, threshold: int, a: seq<int64>, b: seq<int64>)
    ensures (sent + Echoes(state, threshold, a)) + Echoes(state, threshold, b) == sent + Echoes(state, threshold, a + b)
  {
  }

  /** Two stretches of listening in a row. */
  lemma {:induction false} ListenOn(w: World, outcomes1: seq<Outcome>, w1: World, events1: seq<Event>,
                                    outcomes2: seq<Outcome>, w2: World, events2: seq<Event>)
    requires Listened(w, outcomes1, w1, events1) && Listened(w1, outcomes2, w2, events2)
    ensures Listened(w, outcomes1 + outcomes2, w2, events1 + events2)
  {
    CollectAppend(IdRead, outcomes1, outcomes2);
    CollectAppend(EventOf, outcomes1, outcomes2);
    ReadsAppend(w.heard, w.state, w.threshold, outcomes1, outcomes2);
    EchoesAppend(w.sent, w.state, w.threshold, Collect(IdRead, outcomes1), Collect(IdRead, outcomes2));
  }

  lemma {:induction false} NoListening(w: World)
    ensures Listened(w, [], w, [])
  {
    assert w.heard + Reads(w.state, w.threshold, []) == w.heard;
    assert w.sent + Echoes(w.state, w.threshold, []) == w.sent;
  }

  lemma {:induction false} OnlyLastCons(o: Outcome, later: seq<Outcome>)
    requires !IsLast(o) && OnlyLastIsLast(later)
    ensures OnlyLastIsLast([o] + later)
    ensures later != [] ==> ([o] + later)[|[o] + later| - 1] == later[|later| - 1]
  {
  }

  predicate EndsItself(outcomes: seq<Outcome>) { outcomes != [] && IsLast(outcomes[|outcomes| - 1]) }

  /** The loop has read what it gets to read: all its turns, or up to an outcome that ends it; and each
      read but that one has shortened the stream of the given length. */
  predicate Complete(cancel: Patience, length: nat, outcomes: seq<Outcome>)
  {
    && (cancel.Some? ==> |outcomes| <= cancel.value)
    && (EndsItself(outcomes) || (cancel.Some? && |outcomes| == cancel.value))
    && |outcomes| <= length + (if EndsItself(outcomes) then 1 else 0)
  }

  /** The reads of a whole run of the loop. */
  ghost predicate Run(env: Env, v: int, w: World, cancel: Patience, outcomes: seq<Outcome>)
  {
    && Listened(w, outcomes, ReadLoop(env, v, w, cancel).0, ReadLoop(env, v, w, cancel).1)
    && OnlyLastIsLast(outcomes)
    && Complete(cancel, |w.input|, outcomes)
  }

  lemma {:induction false} CompleteMore(cancel: Patience, length: nat, fewer: Patience, shorter: nat, o: Outcome, later: seq<Outcome>)
    requires cancel != Some(0) && fewer == Fewer(cancel) && shorter < length && Complete(fewer, shorter, later) && !IsLast(o)
    ensures Complete(cancel, length, [o] + later)
  {
    if later != [] {
      assert ([o] + later)[|[o] + later| - 1] == later[|later| - 1];
    }
  }

  lemma {:induction false} RunMore(env: Env, v: int, w: World, cancel: Patience, w1: World, fewer: Patience, later: seq<Outcome>)
    requires cancel != Some(0) && fewer == Fewer(cancel)
    requires !ReadTurn(env, v, w).2 && w1 == ReadTurn(env, v, w).0 && Run(env, v, w1, fewer, later)
    ensures Run(env, v, w, cancel, [Hear(env, v, w).0] + later)
  {
    var o := Hear(env, v, w).0;
    var events := ReadTurn(env, v, w).1;
    var (w2, more) := ReadLoop(env, v, w1, fewer);
    assert ReadLoop(env, v, w, cancel) == (w2, events + more);
    ReadTurnListens(env, v, w);
    ListenOn(w, [o], w1, events, later, w2, more);
    OnlyLastCons(o, later);
    CompleteMore(cancel, |w.input|, fewer, |w1.input|, o, later);
  }

  lemma {:induction false} RunNone(env: Env, v: int, w: World)
    ensures Run(env, v, w, Some(0), [])
  {
    NoListening(w);
  }

  lemma {:induction false} RunEnds(env: Env, v: int, w: World, cancel: Patience)
    requires cancel != Some(0) && ReadTurn(env, v, w).2
    ensures Run(env, v, w, cancel, [Hear(env, v, w).0])
  {
    ReadTurnListens(env, v, w);
  }

  lemma {:induction false} ReadLoopListens(env: Env, v: int, w: World, cancel: Patience) returns (outcomes: seq<Outcome>)
    ensures Run(env, v, w, cancel, outcomes)
    decreases |w.input|
  {
    if cancel == Some(0) {
      outcomes := [];
      RunNone(env, v, w);
    } else if ReadTurn(env, v, w).2 {
      outcomes := [Hear(env, v, w).0];
      RunEnds(env, v, w, cancel);
    } else {
      var w1 := ReadTurn(env, v, w).0;
      var fewer := Fewer(cancel);
      var later := ReadLoopListens(env, v, w1, fewer);
      outcomes := [Hear(env, v, w).0] + later;
      RunMore(env, v, w, cancel, w1, fewer, later);
    }
  }

  /** Whenever the loop is cancelled, or never, and whatever arrives: its events are those of its reads,
      the keep-alives are echoed and reported in the order they were read, and there is at most one
      disconnect, with nothing after it. */
  lemma {:induction false} ReadLoopReports(env: Env, v: int, w: World, cancel: Patience)
    ensures var (w1, events) := ReadLoop(env, v, w, cancel);
            && (exists outcomes :: Run(env, v, w, cancel, outcomes))
            && w1.sent == w.sent + Echoes(w.state, w.threshold, Collect(IdReported, events))
            && LastIfAny(events)
  {
    var (w1, events) := ReadLoop(env, v, w, cancel);
    var outcomes := ReadLoopListens(env, v, w, cancel);
    IdsReported(outcomes);
    DisconnectIsLast(outcomes);
  }

  // ---------------------------------------------------------------- what a stream gives

  /** The outcomes of reading a stream in one state and under one threshold, up to one that ends it. */
  function StreamOutcomes(env: Env, v: int, state: State, threshold: int, s: bytes): (outcomes: seq<Outcome>)
    ensures outcomes != []
    decreases |s|
  {
    var (o, rest) := Receive(env.z, env.defs, v, state, threshold, s);
    if IsLast(o) then [o] else [o] + StreamOutcomes(env, v, state, threshold, rest)
  }

  /** They are the reads of the uncancelled loop. */
  lemma {:induction false} StreamRun(env: Env, v: int, w: World)
    ensures Run(env, v, w, None, StreamOutcomes(env, v, w.state, w.threshold, w.input))
    decreases |w.input|
  {
    var t := ReadTurn(env, v, w);
    ReadTurnListens(env, v, w);
    if t.2 {
      RunEnds(env, v, w, None);
    } else {
      TurnMoves(env, v, w);
      StreamRun(env, v, t.0);
      RunMore(env, v, w, None, t.0, None, StreamOutcomes(env, v, w.state, w.threshold, t.0.input));
    }
  }

  lemma {:induction false} TurnMoves(env: Env, v: int, w: World)
    ensures var t := ReadTurn(env, v, w);
            && t.0.input == Receive(env.z, env.defs, v, w.state, w.threshold, w.input).1
            && t.0.state == w.state && t.0.threshold == w.threshold
  {
    var (o, w1) := Hear(env, v, w);
    Reacts(env, v, w1, o);
  }

  /** The outcomes of n reads in a row, whatever they are. */
  function FirstReads(env: Env, v: int, state: State, threshold: int, s: bytes, n: nat): (outcomes: seq<Outcome>)
    ensures |outcomes| == n
    decreases n
  {
    if n == 0 then []
    else
      var (o, rest) := Receive(env.z, env.defs, v, state, threshold, s);
      [o] + FirstReads(env, v, state, threshold, rest, n - 1)
  }

  /** Reads that stop where the loop stops are the first of the stream's, and all of them if they end. */
  lemma {:induction false} ReadsOfStream(env: Env, v: int, state: State, threshold: int, s: bytes, n: nat)
    requires OnlyLastIsLast(FirstReads(env, v, state, threshold, s, n))
    ensures FirstReads(env, v, state, threshold, s, n) <= StreamOutcomes(env, v, state, threshold, s)
    ensures EndsItself(FirstReads(env, v, state, threshold, s, n)) ==>
              FirstReads(env, v, state, threshold, s, n) == StreamOutcomes(env, v, state, threshold, s)
    decreases n
  {
    if n > 0 {
      var (o, rest) := Receive(env.z, env.defs, v, state, threshold, s);
      var fewer: nat := n - 1;
      var later := FirstReads(env, v, state, threshold, rest, fewer);
      assert FirstReads(env, v, state, threshold, s, n) == [o] + later;
      OnlyLastTail(o, later);
      if !IsLast(o) {
        ReadsOfStream(env, v, state, threshold, rest, fewer);
        FirstOfStream(o, later, StreamOutcomes(env, v, state, threshold, rest));
      }
    }
  }

  lemma {:induction false} OnlyLastTail(o: Outcome, later: seq<Outcome>)
    requires OnlyLastIsLast([o] + later)
    ensures OnlyLastIsLast(later) && (later != [] ==> !IsLast(o))
    ensures EndsItself([o] + later) && later != [] ==> EndsItself(later)
  {
    var all := [o] + later;
    assert later != [] ==> all[0] == o && all[|all| - 1] == later[|later| - 1];
    assert forall i :: 0 <= i < |later| ==> all[i + 1] == later[i];
  }

  lemma {:induction false} FirstOfStream(o: Outcome, later: seq<Outcome>, all: seq<Outcome>)
    requires later <= all && !IsLast(o) && (EndsItself(later) ==> later == all)
    requires EndsItself([o] + later) && later != [] ==> EndsItself(later)
    ensures [o] + later <= [o] + all
    ensures EndsItself([o] + later) ==> [o] + later == [o] + all
  {
  }

  /** Uncancelled, or with more turns than there are bytes to read, the loop ends by itself: on a read
      error, a disconnect or a panic, after at most one read per byte and one more. */
  lemma {:induction false} ReadLoopEnds(env: Env, v: int, w: World, cancel: Patience)
    requires cancel.Some? ==> cancel.value > |w.input|
    ensures exists outcomes :: Run(env, v, w, cancel, outcomes) && EndsItself(outcomes) && |outcomes| <= |w.input| + 1
    ensures ReadLoop(env, v, w, cancel) == ReadLoop(env, v, w, None)
  {
    var outcomes := ReadLoopListens(env, v, w, cancel);
    PatienceSuffices(env, v, w, cancel);
  }

  /** More turns than bytes are as good as any number. */
  lemma {:induction false} PatienceSuffices(env: Env, v: int, w: World, cancel: Patience)
    requires cancel.Some? ==> cancel.value > |w.input|
    ensures ReadLoop(env, v, w, cancel) == ReadLoop(env, v, w, None)
    decreases |w.input|
  {
    var t := ReadTurn(env, v, w);
    if !t.2 {
      var fewer := Fewer(cancel);
      PatienceSuffices(env, v, t.0, fewer);
    }
  }

  lemma {:induction false} EchoesMapped(env: Env, v: int, threshold: int, ids: seq<int64>)
    requires CanSend(env.defs, v, Play, SKeepAlive)
    ensures forall x :: x in Echoes(Play, threshold, ids) ==> CanSend(env.defs, v, x.state, KindOf(x.packet))
  {
    var echoes := Echoes(Play, threshold, ids);
    forall i | 0 <= i < |echoes|
      ensures CanSend(env.defs, v, echoes[i].state, KindOf(echoes[i].packet))
    {
      assert echoes[i] == Sent(Play, threshold, ServerboundKeepAlive(ids[i]));
    }
  }

  /** In the play state and with a well-formed registry, whatever the loop sends has an ID. */
  lemma {:induction false} PlaySendsMapped(env: Env, v: int, w: World, cancel: Patience)
    requires WellFormed(env.defs, v) && w.state == Play
    ensures var sent := ReadLoop(env, v, w, cancel).0.sent;
            && |w.sent| <= |sent| && w.sent == sent[..|w.sent|]
            && forall x :: x in sent[|w.sent|..] ==> CanSend(env.defs, v, x.state, KindOf(x.packet))
  {
    ReadLoopReports(env, v, w, cancel);
    var ids := Collect(IdReported, ReadLoop(env, v, w, cancel).1);
    EchoesMapped(env, v, w.threshold, ids);
    SentSplits(w.sent, Echoes(Play, w.threshold, ids));
  }

  lemma {:induction false} LaterSendsMapped(env: Env, v: int, w: World, cancel: Patience)
    requires WellFormed(env.defs, v) && w.state == Play
    ensures forall x :: x in ReadLoop(env, v, w, cancel).0.sent && x !in w.sent ==> CanSend(env.defs, v, x.state, KindOf(x.packet))
  {
    PlaySendsMapped(env, v, w, cancel);
    var sent := ReadLoop(env, v, w, cancel).0.sent;
    forall x | x in sent && x !in w.sent
      ensures CanSend(env.defs, v, x.state, KindOf(x.packet))
    {
      LaterIn(w.sent, sent, x);
    }
  }

  /** With the shipped registry, for every version from the first on: whatever the read loop sends in
      the play state has an ID, and so has a chat message (Chat sends in no other state). */
  lemma {:induction false} NoUnmappedPlaySend(env: Env, v: int, w: World, cancel: Patience)
    requires env.defs == GeneratedDefs() && v >= FIRST && w.state == Play
    ensures forall x :: x in ReadLoop(env, v, w, cancel).0.sent && x !in w.sent ==> CanSend(env.defs, v, x.state, KindOf(x.packet))
    ensures forall p: Packet :: p.ServerboundChatMessage? ==> CanSend(env.defs, v, Play, KindOf(p))
  {
    assert WellFormed(env.defs, v) by { GeneratedWellFormed(v); }
    assert CanSend(env.defs, v, Play, SChatMessage);
    LaterSendsMapped(env, v, w, cancel);
    ChatMapped(env.defs, v);
  }

  lemma {:induction false} ChatMapped(defs: Defs, v: int)
    requires CanSend(defs, v, Play, SChatMessage)
    ensures forall p: Packet :: p.ServerboundChatMessage? ==> CanSend(defs, v, Play, KindOf(p))
  {
  }

  lemma {:induction false} LaterIn(before: seq<Sent>, sent: seq<Sent>, x: Sent)
    requires |before| <= |sent| && before == sent[..|before|] && x in sent && x !in before
    ensures x in sent[|before|..]
  {
    assert sent == before + sent[|before|..];
  }

  lemma {:induction false} SentSplits(a: seq<Sent>, b: seq<Sent>)
    ensures (a + b)[..|a|] == a && (a + b)[|a|..] == b
  {
  }
}
