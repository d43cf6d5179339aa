/** When the same packet is accepted a second time: exactly when, for every kind of packet, and two
    runs in which it happens, one through the wrap clause and one through a reset. */
module Replays {
  import opened Octets
  import opened ProtocolSpec
  import opened RemoteRuns
  import opened Timing

  lemma StepKeepsRsa(own: Local, to: Id, r: Remote, e: Event)
    ensures Step(own, to, r, e).0.rsa == r.rsa
  {
    hide ToUint32, CheckPacket, ProcessPing, ProcessConnData, NextAction, AdminCheck;
    match e
    case Admin(now, later, connectDue, pingID, others) =>
      CheckKeepsRsa(r, now, connectDue);
      ActionKeepsFlags(own, AdminCheck(r, now, connectDue), to, later, pingID, others);
    case Arrive(p, env) =>
      if p.body.Ping? {
        PingSummary(own, r, p, env);
      } else if p.body.ConnData? {
        ConnDataSummary(own, r, p, env);
      }
    case Outbound(_) =>
  }

  lemma CheckKeepsRsa(r: Remote, now: Timespec, connectDue: bool)
    ensures AdminCheck(r, now, connectDue).rsa == r.rsa
  {
    hide TimedOut, ManyBadIPs, TimeOffset;
  }

  lemma {:induction false} RunKeepsRsa(own: Local, to: Id, r: Remote, es: seq<Event>)
    ensures Run(own, to, r, es).rsa == r.rsa
  {
    if es != [] {
      hide Step;
      RunKeepsRsa(own, to, r, es[..|es| - 1]);
      StepKeepsRsa(own, to, Run(own, to, r, es[..|es| - 1]), es[|es| - 1]);
    }
  }

  /** The guards that are still open for a packet that was accepted before, read off the record and
      the packet just before it arrives again. */
  predicate Passes(s: Remote, p: Packet, env: Env) {
    var seqOk := s.inSeqNum < p.seqNum || (p.seqNum < 10 && s.inSeqNum > 65525);
    match p.body
    case Ping(_, _, _) => seqOk
    case Trust(_, _) => seqOk
    case ConnData(_, keys) => seqOk || keys.iv != s.keys.iv
    case Wrapped(_) => seqOk && s.connected && env.localOk && env.sourceOk && p.seal == ByMac(s.keys.symKey)
    case Unknown => false
  }

  lemma TakesIffPasses(own: Local, r: Remote, s: Remote, p: Packet, env: Env, env': Env)
    requires r.rsa == s.rsa && Takes(own, r, Arrive(p, env))
    ensures Takes(own, s, Arrive(p, env')) <==> Passes(s, p, env')
  {
    hide Opened;
  }

  /** A packet that was accepted is accepted again exactly when those guards are open: a ping or a
      trust packet when its number passes, connection data also when its IV is not the one on
      record, a wrapped packet only under the key, connection and addresses of the moment. */
  lemma ReplayIff(own: Local, to: Id, r: Remote, es: seq<Event>, i: nat, j: nat)
    requires i < j < |es| && es[i].Arrive? && es[j].Arrive? && es[i].p == es[j].p
    requires Takes(own, Run(own, to, r, es[..i]), es[i])
    ensures Takes(own, Run(own, to, r, es[..j]), es[j]) <==> Passes(Run(own, to, r, es[..j]), es[j].p, es[j].env)
  {
    hide Takes, Passes;
    RunKeepsRsa(own, to, r, es[..i]);
    RunKeepsRsa(own, to, r, es[..j]);
    TakesIffPasses(own, Run(own, to, r, es[..i]), Run(own, to, r, es[..j]), es[i].p, es[i].env, es[j].env);
  }

  // Runs in which it happens

  /** The ping of gate 1 with this number, to the gate with this record. */
  function PingOf(own: Local, seqNum: Uint32): Packet {
    Packet(1, own.id, seqNum, Ping(7, 0, 0), ByRsa(1), ForRsa(own.id))
  }

  function ConnDataOf(own: Local, seqNum: Uint32, keys: Keys): Packet {
    Packet(1, own.id, seqNum, ConnData(true, keys), ByRsa(1), ForRsa(own.id))
  }

  lemma RunOne(own: Local, to: Id, r: Remote, a: Event)
    ensures Run(own, to, r, [a]) == Step(own, to, r, a).0
  {
    assert [a][..0] == [];
  }

  lemma RunTwo(own: Local, to: Id, r: Remote, a: Event, b: Event)
    ensures Run(own, to, r, [a, b]) == Step(own, to, Step(own, to, r, a).0, b).0
  {
    assert [a, b][..1] == [a];
    RunOne(own, to, r, a);
  }

  lemma PingTaken(own: Local, r: Remote, seqNum: Uint32, env: Env)
    requires r.rsa == 1
    ensures Takes(own, r, Arrive(PingOf(own, seqNum), env)) <==> InOrder(seqNum, r.inSeqNum)
  {
    hide InOrder;
  }

  /** Far from 2^32, through the wrap clause: pings numbered 5, 65526 and the first one again are
      all accepted. */
  lemma ReplayAfterWrap(own: Local, env: Env)
    ensures var es := [Arrive(PingOf(own, 5), env), Arrive(PingOf(own, 65526), env), Arrive(PingOf(own, 5), env)];
      && es[0].p == es[2].p
      && Takes(own, Run(own, 1, NewRemote(1), es[..0]), es[0])
      && Takes(own, Run(own, 1, NewRemote(1), es[..1]), es[1])
      && Takes(own, Run(own, 1, NewRemote(1), es[..2]), es[2])
  {
    var a, b := Arrive(PingOf(own, 5), env), Arrive(PingOf(own, 65526), env);
    var es := [a, b, a];
    var r0 := NewRemote(1);
    assert es[..0] == [] && es[..1] == [a] && es[..2] == [a, b];
    PingTaken(own, r0, 5, env);
    var r1 := Step(own, 1, r0, a).0;
    StepKeepsRsa(own, 1, r0, a);
    SeqStep(own, 1, r0, a);
    RunOne(own, 1, r0, a);
    hide Step;
    PingTaken(own, r1, 65526, env);
    var r2 := Step(own, 1, r1, b).0;
    StepKeepsRsa(own, 1, r1, b);
    SeqStep(own, 1, r1, b);
    RunTwo(own, 1, r0, a, b);
    hide Takes;
    PingTaken(own, r2, 5, env);
  }

  /** Through a reset: a ping numbered 5, connection data numbered 3 with a new IV, and the ping is
      accepted again. */
  lemma ReplayAfterReset(own: Local, env: Env, keys: Keys)
    requires keys.iv != NO_KEYS.iv
    ensures var es := [Arrive(PingOf(own, 5), env), Arrive(ConnDataOf(own, 3, keys), env), Arrive(PingOf(own, 5), env)];
      && es[0].p == es[2].p
      && Takes(own, Run(own, 1, NewRemote(1), es[..0]), es[0])
      && Resets(own, Run(own, 1, NewRemote(1), es[..1]), es[1])
      && Takes(own, Run(own, 1, NewRemote(1), es[..2]), es[2])
  {
    var a, b := Arrive(PingOf(own, 5), env), Arrive(ConnDataOf(own, 3, keys), env);
    var es := [a, b, a];
    var r0 := NewRemote(1);
    assert es[..0] == [] && es[..1] == [a] && es[..2] == [a, b];
    PingTaken(own, r0, 5, env);
    var r1 := Step(own, 1, r0, a).0;
    StepKeepsRsa(own, 1, r0, a);
    SeqStep(own, 1, r0, a);
    PingKeepsKeys(own, r0, a);
    RunOne(own, 1, r0, a);
    hide Step;
    ResetTaken(own, r1, 3, keys, env);
    var r2 := Step(own, 1, r1, b).0;
    StepKeepsRsa(own, 1, r1, b);
    SeqStep(own, 1, r1, b);
    RunTwo(own, 1, r0, a, b);
    hide Takes, Resets;
    PingTaken(own, r2, 5, env);
  }

  lemma PingKeepsKeys(own: Local, r: Remote, e: Event)
    requires e.Arrive? && e.p.body.Ping?
    ensures Step(own, 1, r, e).0.keys == r.keys
  {
    hide ProcessPing, CheckPacket;
    PingSummary(own, r, e.p, e.env);
  }

  lemma ResetTaken(own: Local, r: Remote, seqNum: Uint32, keys: Keys, env: Env)
    requires r.rsa == 1 && !InOrder(seqNum, r.inSeqNum) && keys.iv != r.keys.iv
    ensures Resets(own, r, Arrive(ConnDataOf(own, seqNum, keys), env))
  {
    hide InOrder;
  }
}
