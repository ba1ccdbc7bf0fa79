/** Several goroutines calling WritePacket on one connection: the read loop answering keep-alives,
    the user chatting. The writer lock is all that keeps their bytes apart. */
module Writers {
  import opened Wire
  import opened Packets
  import opened Registry
  import opened Framing
  import opened Session
  import opened JoinLaws
  import opened Traces

  type Thread = nat

  /** What each thread is to write. */
  type Program = map<Thread, seq<Packet>>

  /** Where a thread is in WritePacket. In the critical section it looks up the packet's ID in the
      state of that moment, then reads the threshold to see whether frames have a data length, then
      reads it again to see whether this one is compressed, then writes the frame byte by byte. */
  datatype Place =
    | Outside
    | Looking(packet: Packet)
    | Building(packet: Packet, state: State)
    | Choosing(packet: Packet, state: State)
    | Writing(x: Sent, written: nat)

  datatype Local = Local(place: Place, todo: seq<Packet>)

  /** A call that is over. */
  datatype Call = Call(thread: Thread, x: Sent)

  /** The mutex remembers who took it; to take it, it only has to be free. */
  datatype Shared = Shared(
    state: State,
    threshold: int,
    mutex: Option<Thread>,
    threads: map<Thread, Local>,
    wire: bytes,
    log: seq<Call>)

  predicate Starts(s: Shared, program: Program)
  {
    && s.mutex == None && s.wire == [] && s.log == []
    && s.threads == map t | t in program :: Local(Outside, program[t])
  }

  // ---------------------------------------------------------------- the atomic steps

  /** SetState or SetCompression, called by whoever reads: neither takes the writer lock. */
  predicate ModeChanges(s: Shared, s1: Shared) { s1 == s.(state := s1.state, threshold := s1.threshold) }

  predicate Locks(s: Shared, t: Thread, s1: Shared)
    requires t in s.threads
  {
    var l := s.threads[t];
    && l.place.Outside? && l.todo != [] && s.mutex == None
    && s1 == s.(mutex := Some(t), threads := s.threads[t := Local(Looking(l.todo[0]), l.todo[1..])])
  }

  function Moved(s: Shared, t: Thread, place: Place): map<Thread, Local>
    requires t in s.threads
  {
    s.threads[t := s.threads[t].(place := place)]
  }

  /** The call is over, with or without a frame on the wire. */
  predicate Leaves(s: Shared, t: Thread, x: Sent, s1: Shared)
    requires t in s.threads
  {
    s1 == s.(mutex := None, threads := Moved(s, t, Outside), log := s.log + [Call(t, x)])
  }

  /** Without an ID the call returns its error. */
  predicate LooksUp(env: Env, v: int, s: Shared, t: Thread, s1: Shared)
    requires t in s.threads
  {
    var l := s.threads[t];
    && l.place.Looking?
    && if IdFor(env.defs, v, Slot(s.state, Serverbound), KindOf(l.place.packet)).Some?
       then s1 == s.(threads := Moved(s, t, Building(l.place.packet, s.state)))
       else Leaves(s, t, Sent(s.state, s.threshold, l.place.packet), s1)
  }

  /** The first look at the threshold: a negative one turns compression off. */
  predicate Builds(s: Shared, t: Thread, s1: Shared)
    requires t in s.threads
  {
    var l := s.threads[t];
    && l.place.Building?
    && s1 == s.(threads := Moved(s, t,
         if s.threshold < 0 then Writing(Sent(l.place.state, s.threshold, l.place.packet), 0)
         else Choosing(l.place.packet, l.place.state)))
  }

  /** The second look only compares it with the length of the payload, so if it has become negative in
      between, it compresses as 0 does. */
  predicate Chooses(s: Shared, t: Thread, s1: Shared)
    requires t in s.threads
  {
    var l := s.threads[t];
    && l.place.Choosing?
    && s1 == s.(threads := Moved(s, t,
         Writing(Sent(l.place.state, if s.threshold < 0 then 0 else s.threshold, l.place.packet), 0)))
  }

  predicate WritesByte(env: Env, v: int, s: Shared, t: Thread, s1: Shared)
    requires t in s.threads
  {
    var l := s.threads[t];
    && l.place.Writing?
    && var frame := SentBytes(env, v, l.place.x);
       && l.place.written < |frame|
       && s1 == s.(threads := Moved(s, t, l.place.(written := l.place.written + 1)), wire := s.wire + [frame[l.place.written]])
  }

  predicate Unlocks(env: Env, v: int, s: Shared, t: Thread, s1: Shared)
    requires t in s.threads
  {
    var l := s.threads[t];
    l.place.Writing? && l.place.written >= |SentBytes(env, v, l.place.x)| && Leaves(s, t, l.place.x, s1)
  }

  predicate ThreadSteps(env: Env, v: int, s: Shared, t: Thread, s1: Shared)
  {
    && t in s.threads
    && (|| Locks(s, t, s1) || LooksUp(env, v, s, t, s1) || Builds(s, t, s1) || Chooses(s, t, s1)
        || WritesByte(env, v, s, t, s1) || Unlocks(env, v, s, t, s1))
  }

  ghost predicate Step(env: Env, v: int, s: Shared, s1: Shared)
  {
    ModeChanges(s, s1) || exists t :: ThreadSteps(env, v, s, t, s1)
  }

  ghost predicate IsRun(env: Env, v: int, program: Program, run: seq<Shared>)
  {
    && run != [] && Starts(run[0], program)
    && forall i :: 0 < i < |run| ==> Step(env, v, run[i - 1], run[i])
  }

  // ---------------------------------------------------------------- mutual exclusion

  /** A thread is in the critical section exactly when it holds the mutex: so at most one is. */
  ghost predicate Exclusive(s: Shared)
  {
    && (forall t :: t in s.threads ==> (!s.threads[t].place.Outside? <==> s.mutex == Some(t)))
    && (s.mutex.Some? ==> s.mutex.value in s.threads)
  }

  /** A thread that has the mutex, or takes it free, moves. */
  lemma {:induction false} OneMoves(s: Shared, t: Thread, s1: Shared, l: Local)
    requires Exclusive(s) && t in s.threads && s1.threads == s.threads[t := l] && (s.mutex == None || s.mutex == Some(t))
    requires s1.mutex == if l.place.Outside? then None else Some(t)
    ensures Exclusive(s1)
  {
  }

  lemma {:induction false} StepKeepsExclusive(env: Env, v: int, s: Shared, s1: Shared)
    requires Exclusive(s) && Step(env, v, s, s1)
    ensures Exclusive(s1)
  {
    if !ModeChanges(s, s1) {
      var t :| ThreadSteps(env, v, s, t, s1);
      OneMoves(s, t, s1, s1.threads[t]);
    }
  }

  // ---------------------------------------------------------------- the wire

  /** The packets of the calls that are over, in the order of the lock. */
  function Sents(log: seq<Call>): (xs: seq<Sent>)
    ensures |xs| == |log|
  {
    if log == [] then [] else Sents(log[..|log| - 1]) + [log[|log| - 1].x]
  }

  lemma {:induction false} CallEnds(env: Env, v: int, log: seq<Call>, c: Call)
    ensures Sents(log + [c]) == Sents(log) + [c.x]
    ensures Output(env, v, Sents(log + [c])) == Output(env, v, Sents(log)) + SentBytes(env, v, c.x)
  {
    assert (log + [c])[..|log + [c]| - 1] == log;
    OutputSnoc(env, v, Sents(log), c.x);
  }

  /** What a thread has put on the wire of a frame it is not done with. */
  function Partial(env: Env, v: int, place: Place): bytes
  {
    if place.Writing? && place.written <= |SentBytes(env, v, place.x)| then SentBytes(env, v, place.x)[..place.written] else []
  }

  function HolderPlace(s: Shared): Place
  {
    if s.mutex.Some? && s.mutex.value in s.threads then s.threads[s.mutex.value].place else Outside
  }

  /** Whole frames, then a prefix of the lock holder's frame. */
  ghost predicate Separate(env: Env, v: int, s: Shared)
  {
    && s.wire == Output(env, v, Sents(s.log)) + Partial(env, v, HolderPlace(s))
    && (HolderPlace(s).Writing? ==> HolderPlace(s).written <= |SentBytes(env, v, HolderPlace(s).x)|)
  }

  lemma {:induction false} OneMoreByte(out: bytes, frame: bytes, k: nat)
    requires k < |frame|
    ensures (out + frame[..k]) + [frame[k]] == out + frame[..k + 1]
  {
  }

  lemma {:induction false} ByteKeepsSeparate(env: Env, v: int, s: Shared, t: Thread, s1: Shared)
    requires Exclusive(s) && Separate(env, v, s) && t in s.threads && WritesByte(env, v, s, t, s1)
    ensures Separate(env, v, s1)
  {
    assert s.mutex == Some(t);
    OneMoreByte(Output(env, v, Sents(s.log)), SentBytes(env, v, s.threads[t].place.x), s.threads[t].place.written);
  }

  /** A failed call leaves no bytes behind. */
  lemma {:induction false} UnmappedSilent(env: Env, v: int, x: Sent)
    requires IdFor(env.defs, v, Slot(x.state, Serverbound), KindOf(x.packet)).None?
    ensures SentBytes(env, v, x) == []
  {
  }

  lemma {:induction false} LookUpKeepsSeparate(env: Env, v: int, s: Shared, t: Thread, s1: Shared)
    requires Exclusive(s) && Separate(env, v, s) && t in s.threads && LooksUp(env, v, s, t, s1)
    ensures Separate(env, v, s1)
  {
    var x := Sent(s.state, s.threshold, s.threads[t].place.packet);
    assert s.mutex == Some(t) && Partial(env, v, HolderPlace(s)) == [];
    if Leaves(s, t, x, s1) {
      if IdFor(env.defs, v, Slot(x.state, Serverbound), KindOf(x.packet)).None? {
        UnmappedSilent(env, v, x);
        CallEnds(env, v, s.log, Call(t, x));
      }
    } else {
      assert s1.log == s.log && HolderPlace(s1).Building?;
    }
  }

  lemma {:induction false} WholeFrame(env: Env, v: int, log: seq<Call>, c: Call, partial: bytes)
    requires partial == SentBytes(env, v, c.x)
    ensures Output(env, v, Sents(log)) + partial == Output(env, v, Sents(log + [c])) + []
  {
    CallEnds(env, v, log, c);
    NoMore(Output(env, v, Sents(log + [c])));
  }

  lemma {:induction false} UnlockKeepsSeparate(env: Env, v: int, s: Shared, t: Thread, s1: Shared)
    requires Exclusive(s) && Separate(env, v, s) && t in s.threads && Unlocks(env, v, s, t, s1)
    ensures Separate(env, v, s1)
  {
    var x := s.threads[t].place.x;
    assert s.mutex == Some(t) && HolderPlace(s).written == |SentBytes(env, v, x)|;
    var partial := Partial(env, v, HolderPlace(s));
    assert partial == SentBytes(env, v, x);
    assert HolderPlace(s1) == Outside;
    WholeFrame(env, v, s.log, Call(t, x), partial);
  }

  lemma {:induction false} BuildKeepsSeparate(env: Env, v: int, s: Shared, t: Thread, s1: Shared)
    requires Exclusive(s) && Separate(env, v, s) && t in s.threads && (Builds(s, t, s1) || Chooses(s, t, s1))
    ensures Separate(env, v, s1)
  {
    assert s.mutex == Some(t) && Partial(env, v, HolderPlace(s)) == [];
    if s1.threads[t].place.Writing? {
      assert SentBytes(env, v, s1.threads[t].place.x)[..0] == [];
    }
  }

  lemma {:induction false} StepKeepsSeparate(env: Env, v: int, s: Shared, s1: Shared)
    requires Exclusive(s) && Separate(env, v, s) && Step(env, v, s, s1)
    ensures Separate(env, v, s1)
  {
    if !ModeChanges(s, s1) {
      var t :| ThreadSteps(env, v, s, t, s1);
      if WritesByte(env, v, s, t, s1) {
        ByteKeepsSeparate(env, v, s, t, s1);
      } else if LooksUp(env, v, s, t, s1) {
        LookUpKeepsSeparate(env, v, s, t, s1);
      } else if Unlocks(env, v, s, t, s1) {
        UnlockKeepsSeparate(env, v, s, t, s1);
      } else if Builds(s, t, s1) || Chooses(s, t, s1) {
        BuildKeepsSeparate(env, v, s, t, s1);
      }
    }
  }

  /** For any number of callers and any schedule, at most one is in the critical section, and the wire
      always holds what the calls would have put there one after the other, in the order they took the
      lock, and then a prefix of the frame of the caller that has it now. */
  lemma {:induction false} WritersNeverInterleave(env: Env, v: int, program: Program, run: seq<Shared>, i: nat)
    requires IsRun(env, v, program, run) && i < |run|
    ensures Exclusive(run[i]) && Separate(env, v, run[i])
    ensures run[i].mutex == None ==> run[i].wire == Output(env, v, Sents(run[i].log))
  {
    NoMore(Output(env, v, Sents(run[i].log)));
    if i > 0 {
      var last: nat := i - 1;
      WritersNeverInterleave(env, v, program, run, last);
      StepKeepsExclusive(env, v, run[last], run[i]);
      StepKeepsSeparate(env, v, run[last], run[i]);
    }
  }

  // ---------------------------------------------------------------- state and threshold of a call

  /** The call has seen this state, and this threshold if it has looked at it. */
  predicate SeenIn(state: State, threshold: int, place: Place)
  {
    match place
    case Outside => true
    case Looking(_) => true
    case Building(_, seen) => seen == state
    case Choosing(_, seen) => seen == state && threshold >= 0
    case Writing(x, _) => x.state == state && x.threshold == threshold
  }

  ghost predicate AllSeenIn(state: State, threshold: int, s: Shared)
  {
    && (forall t :: t in s.threads ==> SeenIn(state, threshold, s.threads[t].place))
    && (forall c :: c in s.log ==> c.x.state == state && c.x.threshold == threshold)
  }

  lemma {:induction false} StepKeepsSeen(env: Env, v: int, state: State, threshold: int, s: Shared, s1: Shared)
    requires AllSeenIn(state, threshold, s) && Step(env, v, s, s1) && s.state == state && s.threshold == threshold
    ensures AllSeenIn(state, threshold, s1)
  {
    if !ModeChanges(s, s1) {
      var t :| ThreadSteps(env, v, s, t, s1);
      OneSees(env, v, state, threshold, s, t, s1);
    }
  }

  /** One thread's step: the thread has seen the same, and a call that ends has. */
  lemma {:induction false} OneSees(env: Env, v: int, state: State, threshold: int, s: Shared, t: Thread, s1: Shared)
    requires t in s.threads && SeenIn(state, threshold, s.threads[t].place) && ThreadSteps(env, v, s, t, s1)
    requires s.state == state && s.threshold == threshold
    ensures t in s1.threads && SeenIn(state, threshold, s1.threads[t].place) && s1.threads == s.threads[t := s1.threads[t]]
    ensures s1.log == s.log || exists x :: s1.log == s.log + [Call(t, x)] && x.state == state && x.threshold == threshold
  {
    if LooksUp(env, v, s, t, s1) {
      if s1.log != s.log {
        var x := Sent(s.state, s.threshold, s.threads[t].place.packet);
        assert s1.log == s.log + [Call(t, x)];
      }
    } else if Unlocks(env, v, s, t, s1) {
      var x := s.threads[t].place.x;
      assert s1.log == s.log + [Call(t, x)];
    }
  }

  /** While nobody changes state or threshold, every call that ends has written its frame in exactly that
      state and under exactly that threshold. */
  lemma {:induction false} SteadyCalls(env: Env, v: int, program: Program, run: seq<Shared>, i: nat, state: State, threshold: int)
    requires IsRun(env, v, program, run) && i < |run|
    requires forall k :: 0 <= k < |run| ==> run[k].state == state && run[k].threshold == threshold
    ensures AllSeenIn(state, threshold, run[i])
    ensures forall c :: c in run[i].log ==> c.x == Sent(state, threshold, c.x.packet)
  {
    if i > 0 {
      var last: nat := i - 1;
      SteadyCalls(env, v, program, run, last, state, threshold);
      StepKeepsSeen(env, v, state, threshold, run[last], run[i]);
    }
  }

  // ---------------------------------------------------------------- the callers

  /** The packets of the finished calls of one thread. */
  function Finished(log: seq<Call>, t: Thread): seq<Packet>
  {
    if log == [] then []
    else
      var c := log[|log| - 1];
      Finished(log[..|log| - 1], t) + if c.thread == t then [c.x.packet] else []
  }

  /** The packet a thread is writing. */
  function Current(place: Place): seq<Packet>
  {
    match place
    case Outside => []
    case Looking(p) => [p]
    case Building(p, _) => [p]
    case Choosing(p, _) => [p]
    case Writing(x, _) => [x.packet]
  }

  /** What a thread has written, is writing and will write. */
  function History(s: Shared, t: Thread): seq<Packet>
    requires t in s.threads
  {
    Finished(s.log, t) + (Current(s.threads[t].place) + s.threads[t].todo)
  }

  lemma {:induction false} FinishedSnoc(log: seq<Call>, c: Call, t: Thread)
    ensures Finished(log + [c], t) == Finished(log, t) + if c.thread == t then [c.x.packet] else []
  {
    assert (log + [c])[..|log + [c]| - 1] == log;
  }

  lemma {:induction false} CallKeepsHistory(s: Shared, t: Thread, x: Sent, s1: Shared, u: Thread)
    requires t in s.threads && u in s.threads && Leaves(s, t, x, s1) && Current(s.threads[t].place) == [x.packet]
    ensures History(s1, u) == History(s, u)
  {
    FinishedSnoc(s.log, Call(t, x), u);
    if u == t {
      var todo := s.threads[t].todo;
      assert (Finished(s.log, t) + [x.packet]) + ([] + todo) == Finished(s.log, t) + ([x.packet] + todo);
    } else {
      assert Finished(s.log, u) + [] == Finished(s.log, u);
    }
  }

  /** One step moves at most one packet of one thread along. */
  lemma {:induction false} StepKeepsHistory(env: Env, v: int, s: Shared, s1: Shared, u: Thread)
    requires Step(env, v, s, s1) && u in s.threads
    ensures u in s1.threads && History(s1, u) == History(s, u)
  {
    if !ModeChanges(s, s1) {
      var t :| ThreadSteps(env, v, s, t, s1);
      var l := s.threads[t];
      if Locks(s, t, s1) {
        assert [l.todo[0]] + l.todo[1..] == [] + l.todo;
      } else if LooksUp(env, v, s, t, s1) && s1.log != s.log {
        CallKeepsHistory(s, t, Sent(s.state, s.threshold, l.place.packet), s1, u);
      } else if Unlocks(env, v, s, t, s1) {
        CallKeepsHistory(s, t, l.place.x, s1, u);
      }
    }
  }

  /** No call is lost, repeated or reordered within its thread. */
  lemma {:induction false} CallersKeepTheirOrder(env: Env, v: int, program: Program, run: seq<Shared>, i: nat, u: Thread)
    requires IsRun(env, v, program, run) && i < |run| && u in program
    ensures u in run[i].threads && History(run[i], u) == program[u]
  {
    if i == 0 {
      assert [] + ([] + program[u]) == program[u];
    } else {
      var last: nat := i - 1;
      CallersKeepTheirOrder(env, v, program, run, last, u);
      StepKeepsHistory(env, v, run[last], run[i], u);
    }
  }

  // ---------------------------------------------------------------- the other end

  /** A server that cuts what is on the wire into frames, at any moment, finds the bodies of the
      calls that are over, in lock order, whatever is behind them. */
  lemma {:induction false} ServerSeesWholeFrames(env: Env, v: int, program: Program, run: seq<Shared>, i: nat)
    requires IsRun(env, v, program, run) && i < |run|
    requires forall b :: b in BodiesOf(env, v, Sents(run[i].log)) ==> |b| < TWO31
    ensures StartsWith(run[i].wire, BodiesOf(env, v, Sents(run[i].log)))
  {
    WritersNeverInterleave(env, v, program, run, i);
    OutputIsFrames(env, v, Sents(run[i].log));
    JoinedCuts(BodiesOf(env, v, Sents(run[i].log)), Partial(env, v, HolderPlace(run[i])));
  }
}
