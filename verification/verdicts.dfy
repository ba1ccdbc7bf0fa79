/** What Join returns, read off the trace: which read ends it, and with which verdict. */
module Verdicts {
  import opened Wire
  import opened Packets
  import opened Registry
  import opened Framing
  import opened Session
  import opened Tables
  import opened Traces
  import opened JoinLaws

  /** The server's word that the client is in the game: login success before 1.20.2, the finish of
      configuration from then on. */
  predicate Admits(v: int, x: Heard)
  {
    && x.outcome.Got?
    && if v < V1_20_2 then x.state == Login && x.outcome.packet.ClientboundLoginSuccess?
       else x.state == Configuration && x.outcome.packet.ClientboundFinishConfiguration?
  }

  /** A read after which Join is over: it failed, it panicked, it was a disconnect, in login it was of an
      unknown packet, or it admits the client. */
  predicate Ends(v: int, x: Heard)
  {
    || x.outcome.Failed?
    || x.outcome.Crashed?
    || (x.outcome.Unknown? && x.state == Login)
    || (x.outcome.Got? && x.outcome.packet.ClientboundDisconnect?)
    || Admits(v, x)
  }

  function VerdictOf(v: int, x: Heard): Verdict
  {
    if Admits(v, x) then Nil else if x.outcome.Crashed? then Panicked else Error
  }

  /** The state the next read is in. */
  function NextState(x: Heard): State
  {
    if x.state == Login && x.outcome.Got? && x.outcome.packet.ClientboundLoginSuccess? then Configuration else x.state
  }

  /** Read i was in the state that the read before it leaves; the first one was in login. */
  predicate InTurn(heard: seq<Heard>, i: nat)
    requires i < |heard|
  {
    heard[i].state == if i == 0 then Login else NextState(heard[i - 1])
  }

  /** Reads from a state on, of which the last one and no other ends it all, with this verdict. */
  ghost predicate Concludes(v: int, state: State, heard: seq<Heard>, r: Verdict)
    decreases |heard|
  {
    && heard != [] && heard[0].state == state
    && if |heard| == 1 then Ends(v, heard[0]) && r == VerdictOf(v, heard[0])
       else !Ends(v, heard[0]) && Concludes(v, NextState(heard[0]), heard[1..], r)
  }

  lemma {:induction false} ConcludesNow(v: int, x: Heard)
    requires Ends(v, x)
    ensures Concludes(v, x.state, [x], VerdictOf(v, x))
  {
  }

  lemma {:induction false} ConcludesLater(v: int, x: Heard, later: seq<Heard>, r: Verdict)
    requires !Ends(v, x) && Concludes(v, NextState(x), later, r)
    ensures Concludes(v, x.state, [x] + later, r)
  {
    assert ([x] + later)[1..] == later;
  }

  // ---------------------------------------------------------------- configuration

  ghost predicate InConfiguration(env: Env, v: int, w: World)
  {
    WellFormed(env.defs, v) && v >= V1_20_2 && Good(env, v, w) && w.state == Configuration
  }

  /** A turn that read x returns if and only if x ends Join, with x's verdict. */
  ghost predicate Judged(env: Env, v: int, w: World, x: Heard, t: Turn)
  {
    && x.state == w.state
    && t.world.heard == w.heard + [x]
    && (t.Return? <==> Ends(v, x))
    && (t.Return? ==> t.verdict == VerdictOf(v, x))
    && (t.Again? ==> Good(env, v, t.world) && t.world.state == w.state)
  }

  lemma {:induction false} AnsweredJudged(env: Env, cfg: Config, w: World, p: Packet, w0: World, x: Heard)
    requires InConfiguration(env, cfg.version, w) && AllSendable(env, cfg.version, Configuration, Reply(cfg, p))
    requires w0.state == Configuration && x.state == Configuration && x.outcome == Got(p) && w.heard == w0.heard + [x]
    ensures Judged(env, cfg.version, w0, x, Answered(env, cfg, w, p))
  {
    var (ok, w1) := SendAll(env, cfg.version, w, Reply(cfg, p));
    SendAllGood(env, cfg.version, w, Reply(cfg, p));
    assert Answered(env, cfg, w, p) ==
      if p.ClientboundDisconnect? then Return(Error, w1)
      else if p.ClientboundFinishConfiguration? then Return(Nil, SetState(w1, Play)) else Again(w1);
  }

  lemma {:induction false} ConfigurationJudged(env: Env, cfg: Config, w: World)
    requires InConfiguration(env, cfg.version, w)
    ensures Judged(env, cfg.version, w, Heard(w.state, w.threshold, Hear(env, cfg.version, w).0), ConfigurationTurn(env, cfg, w))
  {
    var (o, w1) := Hear(env, cfg.version, w);
    var x := Heard(w.state, w.threshold, o);
    HearGood(env, cfg.version, w);
    if o.Got? {
      ReplySendable(env, cfg, w);
      AnsweredJudged(env, cfg, w1, o.packet, w, x);
      assert ConfigurationTurn(env, cfg, w) == Answered(env, cfg, w1, o.packet);
    }
  }

  lemma {:induction false} ConfigurationConcludes(env: Env, cfg: Config, w: World) returns (heard: seq<Heard>)
    requires InConfiguration(env, cfg.version, w)
    ensures var (r, w1) := ConfigurationLoop(env, cfg, w);
            w1.heard == w.heard + heard && Concludes(cfg.version, Configuration, heard, r)
    decreases |w.input|
  {
    var t := ConfigurationTurn(env, cfg, w);
    var x := Heard(w.state, w.threshold, Hear(env, cfg.version, w).0);
    ConfigurationJudged(env, cfg, w);
    heard := [x];
    if t.Again? {
      var later := ConfigurationConcludes(env, cfg, t.world);
      ConcludesLater(cfg.version, x, later, ConfigurationLoop(env, cfg, w).0);
      Assoc(w.heard, [x], later);
      heard := [x] + later;
    } else {
      ConcludesNow(cfg.version, x);
    }
  }

  // ---------------------------------------------------------------- login

  ghost predicate InLogin(env: Env, v: int, w: World) { WellFormed(env.defs, v) && Good(env, v, w) && w.state == Login }

  predicate Accepts(o: Outcome) { o.Got? && o.packet.ClientboundLoginSuccess? }

  lemma {:induction false} LoginJudged(env: Env, cfg: Config, w: World)
    requires InLogin(env, cfg.version, w) && !Accepts(Hear(env, cfg.version, w).0)
    ensures Judged(env, cfg.version, w, Heard(w.state, w.threshold, Hear(env, cfg.version, w).0), LoginTurn(env, cfg, w))
  {
    var (o, w1) := Hear(env, cfg.version, w);
    HearGood(env, cfg.version, w);
    if o.Got? {
      HearQuiet(env, cfg.version, w);
    }
    ReactionJudged(env, cfg, w, o, w1);
  }

  lemma {:induction false} ReactionJudged(env: Env, cfg: Config, w: World, o: Outcome, w1: World)
    requires w.state == Login && w1.state == Login && w1.heard == w.heard + [Heard(w.state, w.threshold, o)] && !Accepts(o)
    requires o.Got? ==> !o.packet.ClientboundJoinGame? && !o.packet.ClientboundKeepAlive?
    requires Good(env, cfg.version, w1.(threshold := NextThreshold(w, o))) && w1.threshold == w.threshold
    ensures Judged(env, cfg.version, w, Heard(w.state, w.threshold, o), LoginReaction(env, cfg, w1, o))
  {
    assert w1.(threshold := w.threshold) == w1;
    if o.Got? {
      assert LoginReaction(env, cfg, w1, o) ==
        if o.packet.ClientboundSetCompression? then Again(w1.(threshold := o.packet.threshold))
        else if o.packet.ClientboundDisconnect? then Return(Error, w1) else Again(w1);
    }
  }

  /** Before 1.20.2 the acceptance ends it. */
  lemma {:induction false} OldAcceptance(env: Env, cfg: Config, w: World)
    requires InLogin(env, cfg.version, w) && cfg.version < V1_20_2
    ensures LoggedIn(env, cfg, w).0 == Nil && LoggedIn(env, cfg, w).1.heard == w.heard
  {
    assert w.states == [Handshaking, Login];
    SetStateGood(env, cfg.version, w, Play);
    SendGood(env, cfg.version, SetState(w, Play), ServerboundClientSettings(cfg.settings));
  }

  lemma {:induction false} NewAcceptance(env: Env, cfg: Config, w: World) returns (heard: seq<Heard>)
    requires InLogin(env, cfg.version, w) && cfg.version >= V1_20_2
    ensures var (r, w1) := LoggedIn(env, cfg, w);
            w1.heard == w.heard + heard && Concludes(cfg.version, Configuration, heard, r)
  {
    AcknowledgedGood(env, cfg, w);
    var w2 := SetState(Send(env, cfg.version, w, ServerboundLoginAcknowledged).1, Configuration);
    SendGood(env, cfg.version, w2, ServerboundClientSettings(cfg.settings));
    heard := ConfigurationConcludes(env, cfg, Send(env, cfg.version, w2, ServerboundClientSettings(cfg.settings)).1);
  }

  lemma {:induction false} AcceptanceEnters(env: Env, cfg: Config, w: World)
    requires Accepts(Hear(env, cfg.version, w).0)
    ensures LoginLoop(env, cfg, w) == LoggedIn(env, cfg, Hear(env, cfg.version, w).1)
  {
    var (o, w1) := Hear(env, cfg.version, w);
    var (r, w2) := LoggedIn(env, cfg, w1);
    assert LoginReaction(env, cfg, w1, o) == Return(r, w2);
    assert LoginTurn(env, cfg, w) == Return(r, w2);
  }

  /** An acceptance, and what follows it. */
  lemma {:induction false} AcceptanceConcludes(env: Env, cfg: Config, w: World) returns (heard: seq<Heard>)
    requires InLogin(env, cfg.version, w) && Accepts(Hear(env, cfg.version, w).0)
    ensures var (r, w1) := LoginLoop(env, cfg, w);
            w1.heard == w.heard + heard && Concludes(cfg.version, Login, heard, r)
  {
    var (o, w1) := Hear(env, cfg.version, w);
    var x := Heard(w.state, w.threshold, o);
    HearGood(env, cfg.version, w);
    AcceptanceEnters(env, cfg, w);
    if cfg.version < V1_20_2 {
      OldAcceptance(env, cfg, w1);
      ConcludesNow(cfg.version, x);
      heard := [x];
    } else {
      var later := NewAcceptance(env, cfg, w1);
      ConcludesLater(cfg.version, x, later, LoggedIn(env, cfg, w1).0);
      Assoc(w.heard, [x], later);
      heard := [x] + later;
    }
  }

  lemma {:induction false} LoginConcludes(env: Env, cfg: Config, w: World) returns (heard: seq<Heard>)
    requires InLogin(env, cfg.version, w)
    ensures var (r, w1) := LoginLoop(env, cfg, w);
            w1.heard == w.heard + heard && Concludes(cfg.version, Login, heard, r)
    decreases |w.input|
  {
    var o := Hear(env, cfg.version, w).0;
    if Accepts(o) {
      heard := AcceptanceConcludes(env, cfg, w);
    } else {
      var t := LoginTurn(env, cfg, w);
      var x := Heard(w.state, w.threshold, o);
      LoginJudged(env, cfg, w);
      heard := [x];
      if t.Again? {
        var later := LoginConcludes(env, cfg, t.world);
        ConcludesLater(cfg.version, x, later, LoginLoop(env, cfg, w).0);
        Assoc(w.heard, [x], later);
        heard := [x] + later;
      } else {
        ConcludesNow(cfg.version, x);
      }
    }
  }

  // ---------------------------------------------------------------- Join

  lemma {:induction false} ConcludesAt(v: int, state: State, heard: seq<Heard>, r: Verdict, i: nat)
    requires Concludes(v, state, heard, r) && i < |heard|
    ensures Ends(v, heard[i]) <==> i == |heard| - 1
    ensures heard[i].state == if i == 0 then state else NextState(heard[i - 1])
    ensures r == VerdictOf(v, heard[|heard| - 1])
    decreases i
  {
    if i > 0 {
      var before: nat := i - 1;
      ConcludesAt(v, NextState(heard[0]), heard[1..], r, before);
    } else if |heard| > 1 {
      LastConcludes(v, state, heard, r);
    }
  }

  lemma {:induction false} LastConcludes(v: int, state: State, heard: seq<Heard>, r: Verdict)
    requires Concludes(v, state, heard, r)
    ensures r == VerdictOf(v, heard[|heard| - 1])
    decreases |heard|
  {
    if |heard| > 1 {
      LastConcludes(v, NextState(heard[0]), heard[1..], r);
    }
  }

  lemma {:induction false} JoinConcludes(env: Env, cfg: Config, input: bytes)
    requires WellFormed(env.defs, cfg.version)
    ensures var (r, w) := Join(env, cfg, input);
            if cfg.username == [] then r == Error && w.heard == [] else Concludes(cfg.version, Login, w.heard, r)
  {
    var w := HandshakeGood(env, cfg, input);
    if cfg.username != [] {
      var start := LoginStartSent(env, cfg).packet;
      SendGood(env, cfg.version, w, start);
      var heard := LoginConcludes(env, cfg, Send(env, cfg.version, w, start).1);
      assert [] + heard == heard;
    }
  }

  /** The verdict of Join, for every input: the last read ends it and no earlier one does; it is nil if
      and only if that read admits the client, a panic if and only if it crashed, and an error otherwise.
      The reads are in login up to the acceptance, and in configuration after it. */
  lemma {:induction false} JoinVerdict(env: Env, cfg: Config, input: bytes)
    requires WellFormed(env.defs, cfg.version) && cfg.username != []
    ensures var (r, w) := Join(env, cfg, input);
            && w.heard != []
            && r == VerdictOf(cfg.version, w.heard[|w.heard| - 1])
            && (forall i :: 0 <= i < |w.heard| ==> (Ends(cfg.version, w.heard[i]) <==> i == |w.heard| - 1))
            && (forall i :: 0 <= i < |w.heard| ==> InTurn(w.heard, i))
  {
    JoinConcludes(env, cfg, input);
    var (r, w) := Join(env, cfg, input);
    LastConcludes(cfg.version, Login, w.heard, r);
    forall i | 0 <= i < |w.heard|
      ensures Ends(cfg.version, w.heard[i]) <==> i == |w.heard| - 1
      ensures InTurn(w.heard, i)
    {
      ConcludesAt(cfg.version, Login, w.heard, r, i);
    }
  }

  /** A packet of an unknown type is an error in login and nothing at all in configuration: Join reads on. */
  lemma {:induction false} UnknownSkipped(env: Env, cfg: Config, input: bytes, r: Verdict, w: World, i: nat)
    requires WellFormed(env.defs, cfg.version) && cfg.username != []
    requires Join(env, cfg, input) == (r, w) && i < |w.heard| && w.heard[i].outcome.Unknown?
    ensures if w.heard[i].state == Login then i == |w.heard| - 1 && r == Error
            else i + 1 < |w.heard| && w.heard[i + 1].state == Configuration
  {
    JoinConcludes(env, cfg, input);
    SkipsUnknown(cfg.version, w.heard, r, i);
  }

  lemma {:induction false} SkipsUnknown(v: int, heard: seq<Heard>, r: Verdict, i: nat)
    requires Concludes(v, Login, heard, r) && i < |heard| && heard[i].outcome.Unknown?
    ensures if heard[i].state == Login then i == |heard| - 1 && r == Error
            else i + 1 < |heard| && heard[i + 1].state == Configuration
  {
    ConcludesAt(v, Login, heard, r, i);
    StatesReached(v, heard, r, i);
    var next := i + 1;
    if next < |heard| {
      ConcludesAt(v, Login, heard, r, next);
    }
  }

  lemma {:induction false} StatesReached(v: int, heard: seq<Heard>, r: Verdict, i: nat)
    requires Concludes(v, Login, heard, r) && i < |heard|
    ensures heard[i].state == Login || heard[i].state == Configuration
  {
    ConcludesAt(v, Login, heard, r, i);
    if i > 0 {
      var before: nat := i - 1;
      StatesReached(v, heard, r, before);
    }
  }
}
