/** The vchan as its callers see it: the stream against the data of the calls themselves. */
module VchanEffects {
  import opened Common
  import opened VchanModel
  import opened VchanSafety

  /** What the callers asked for, in order. */
  datatype Send = Send(data: seq<byte>, stream: bool)
  datatype Recv = Recv(size: nat, stream: bool)

  function SendOf(e: Event): seq<Send> { if e.SendCall? then [Send(e.data, e.stream)] else [] }

  function RecvOf(e: Event): seq<Recv> { if e.RecvCall? then [Recv(e.size, e.stream)] else [] }

  function Sends(es: seq<Event>): seq<Send> { if es == [] then [] else SendOf(es[0]) + Sends(es[1..]) }

  function Recvs(es: seq<Event>): seq<Recv> { if es == [] then [] else RecvOf(es[0]) + Recvs(es[1..]) }

  function Part(q: seq<byte>, n: nat): seq<byte> { if n <= |q| then q[..n] else q }

  /** What the returned calls have put on the stream and taken from it. */
  function Written(rs: seq<SendReturn>): seq<byte> {
    if rs == [] then [] else Written(rs[..|rs| - 1]) + Part(rs[|rs| - 1].arg, rs[|rs| - 1].n)
  }

  function Read(rs: seq<RecvReturn>): seq<byte> {
    if rs == [] then [] else Read(rs[..|rs| - 1]) + rs[|rs| - 1].data
  }

  lemma {:induction false} WrittenMore(rs: seq<SendReturn>, r: SendReturn)
    ensures Written(rs + [r]) == Written(rs) + Part(r.arg, r.n)
  {
    assert (rs + [r])[..|rs|] == rs;
  }

  lemma {:induction false} ReadMore(rs: seq<RecvReturn>, r: RecvReturn)
    ensures Read(rs + [r]) == Read(rs) + r.data
  {
    assert (rs + [r])[..|rs|] == rs;
  }

  // ----- the sender

  /** One return for each call, the call in progress excepted. */
  predicate SendsMatch(s: State, calls: seq<Send>) {
    && |calls| == |s.sends| + (if s.sender.phase.Outside? then 0 else 1)
    && (forall i | 0 <= i < |s.sends| :: s.sends[i].arg == calls[i].data && s.sends[i].stream == calls[i].stream)
    && (!s.sender.phase.Outside? ==>
          s.outgoing == calls[|s.sends|].data && s.sender.stream == calls[|s.sends|].stream)
  }

  /** The stream is what the calls have written. */
  predicate SentMatches(s: State) {
    if s.sender.phase.Outside? then s.sent == Written(s.sends)
    else s.sent == Written(s.sends) + Part(s.outgoing, s.sender.moved)
  }

  lemma {:induction false} PublishCalls(s: State, calls: seq<Send>)
    requires Copied(s.sender.phase) && SendsMatch(s, calls)
    ensures SendsMatch(Publish(s), calls)
  {
    if !Finished(s.sender) {
      assert Publish(s).sends == s.sends;
    }
  }

  lemma {:induction false} PartGrows(done: seq<byte>, q: seq<byte>, from: nat, to: nat)
    requires from <= to <= |q|
    ensures done + Part(q, from) + q[from..to] == done + Part(q, to)
  {
    assert q[..to] == q[..from] + q[from..to];
  }

  lemma {:induction false} PublishWrites(s: State, to: nat)
    requires Copied(s.sender.phase) && SentMatches(s) && to == s.sender.moved + s.sender.phase.count <= |s.outgoing|
    ensures Publish(s).sent == Written(s.sends) + Part(s.outgoing, to)
  {
    PartGrows(Written(s.sends), s.outgoing, s.sender.moved, to);
  }

  /** The return of the sender's call, were it to end with this publication. */
  function Returning(s: State): SendReturn
    requires s.sender.phase.Copying?
  {
    SendReturn(s.outgoing, s.sender.base, s.sender.moved + s.sender.phase.count, s.sender.stream)
  }

  lemma {:induction false} PublishReturn(s: State)
    requires Copied(s.sender.phase)
    ensures var t, r := Publish(s), Returning(s);
            if Finished(s.sender) then t.sends == s.sends + [r] && t.sender.phase.Outside?
            else t.sends == s.sends && t.sender.phase.Ready? && t.outgoing == r.arg && t.sender.moved == r.n
  {
    if !Finished(s.sender) {
      assert Publish(s).sends == s.sends;
    }
  }

  lemma {:induction false} SentWith(t: State, was: seq<SendReturn>, r: SendReturn)
    requires t.sent == Written(was) + Part(r.arg, r.n)
    requires if t.sender.phase.Outside? then t.sends == was + [r] else t.sends == was && t.outgoing == r.arg && t.sender.moved == r.n
    ensures SentMatches(t)
  {
    WrittenMore(was, r);
  }

  lemma {:induction false} PublishMatches(s: State)
    requires Copied(s.sender.phase) && SentMatches(s) && s.sender.moved + s.sender.phase.count <= |s.outgoing|
    ensures SentMatches(Publish(s))
  {
    PublishWrites(s, s.sender.moved + s.sender.phase.count);
    PublishReturn(s);
    SentWith(Publish(s), s.sends, Returning(s));
  }

  lemma {:induction false} SendCallMatches(s: State, data: seq<byte>, stream: bool, calls: seq<Send>)
    requires s.sender.phase.Outside? && SendsMatch(s, calls) && SentMatches(s)
    ensures var t := Step(s, SendCall(data, stream));
            SendsMatch(t, calls + [Send(data, stream)]) && SentMatches(t)
  {
    WrittenMore(s.sends, SendReturn([], |s.sent|, 0, stream));
    if data != [] {
      assert Step(s, SendCall(data, stream)).sends == s.sends;
    }
  }

  /** The other events leave the sender's call alone. */
  lemma {:induction false} SenderStays(s: State, e: Event)
    requires CanHappen(s, e) && !e.SendCall? && !e.SendPublish?
    ensures var t := Step(s, e);
            && t.sends == s.sends && t.sent == s.sent && t.outgoing == s.outgoing
            && t.sender.moved == s.sender.moved && t.sender.stream == s.sender.stream
            && t.sender.phase.Outside? == s.sender.phase.Outside?
  {
  }

  lemma {:induction false} SendStepMatches(s: State, e: Event, calls: seq<Send>)
    requires CanHappen(s, e) && SendsMatch(s, calls) && SentMatches(s)
    requires e.SendPublish? ==> s.sender.moved + s.sender.phase.count <= |s.outgoing|
    ensures SendsMatch(Step(s, e), calls + SendOf(e)) && SentMatches(Step(s, e))
  {
    if e.SendCall? {
      SendCallMatches(s, e.data, e.stream, calls);
    } else {
      assert calls + SendOf(e) == calls;
      if e.SendPublish? {
        PublishCalls(s, calls);
        PublishMatches(s);
      } else {
        SenderStays(s, e);
      }
    }
  }

  // ----- the receiver

  predicate RecvsMatch(s: State, calls: seq<Recv>) {
    && |calls| == |s.recvs| + (if s.receiver.phase.Outside? then 0 else 1)
    && (forall i | 0 <= i < |s.recvs| :: s.recvs[i].size == calls[i].size && s.recvs[i].stream == calls[i].stream)
    && (!s.receiver.phase.Outside? ==>
          s.receiver.size == calls[|s.recvs|].size && s.receiver.stream == calls[|s.recvs|].stream)
  }

  predicate ReceivedMatches(s: State) {
    if s.receiver.phase.Outside? then s.received == Read(s.recvs) else s.received == Read(s.recvs) + s.taken
  }

  lemma {:induction false} ConsumeCalls(s: State, calls: seq<Recv>)
    requires Copied(s.receiver.phase) && RecvsMatch(s, calls)
    ensures RecvsMatch(Consume(s), calls)
  {
    if !Finished(s.receiver) {
      assert Consume(s).recvs == s.recvs;
    }
  }

  lemma {:induction false} ConsumeMatches(s: State)
    requires Copied(s.receiver.phase) && ReceivedMatches(s)
    ensures ReceivedMatches(Consume(s))
  {
    var d, taken := s.receiver, s.taken + s.incoming;
    assert Read(s.recvs) + s.taken + s.incoming == Read(s.recvs) + taken;
    if Finished(d) {
      ReadMore(s.recvs, RecvReturn(d.size, d.base, taken, d.stream));
    } else {
      assert Consume(s).recvs == s.recvs;
    }
  }

  lemma {:induction false} RecvCallMatches(s: State, size: nat, stream: bool, calls: seq<Recv>)
    requires s.receiver.phase.Outside? && RecvsMatch(s, calls) && ReceivedMatches(s)
    ensures var t := Step(s, RecvCall(size, stream));
            RecvsMatch(t, calls + [Recv(size, stream)]) && ReceivedMatches(t)
  {
    ReadMore(s.recvs, RecvReturn(0, |s.received|, [], stream));
    if size != 0 {
      assert Step(s, RecvCall(size, stream)).recvs == s.recvs;
    }
  }

  lemma {:induction false} ReceiverStays(s: State, e: Event)
    requires CanHappen(s, e) && !e.RecvCall? && !e.RecvPublish?
    ensures var t := Step(s, e);
            && t.recvs == s.recvs && t.received == s.received && t.taken == s.taken
            && t.receiver.size == s.receiver.size && t.receiver.stream == s.receiver.stream
            && t.receiver.phase.Outside? == s.receiver.phase.Outside?
  {
  }

  lemma {:induction false} RecvStepMatches(s: State, e: Event, calls: seq<Recv>)
    requires CanHappen(s, e) && RecvsMatch(s, calls) && ReceivedMatches(s)
    ensures RecvsMatch(Step(s, e), calls + RecvOf(e)) && ReceivedMatches(Step(s, e))
  {
    if e.RecvCall? {
      RecvCallMatches(s, e.size, e.stream, calls);
    } else {
      assert calls + RecvOf(e) == calls;
      if e.RecvPublish? {
        ConsumeCalls(s, calls);
        ConsumeMatches(s);
      } else {
        ReceiverStays(s, e);
      }
    }
  }

  // ----- how much a turn moves

  /** A side goes for as much as it still has to move and the other leaves it, at once, and waits only if that is
      nothing. */
  predicate GoesFor(d: Side, after: Side, available: nat) {
    var n := Min(available, Left(d));
    after == if n == 0 then d else d.(phase := Copying(n, {}))
  }

  lemma {:induction false} SnapshotSeen(s: State)
    requires Inv(s)
    ensures s.sender.phase.Ready? ==> GoesFor(s.sender, Step(s, SendSnapshot).sender, BUF_SIZE - (|s.sent| - |s.received|))
    ensures s.receiver.phase.Ready? ==> GoesFor(s.receiver, Step(s, RecvSnapshot).receiver, |s.sent| - |s.received|)
  {
  }

  // ----- whole runs

  predicate Matches(s: State, sends: seq<Send>, recvs: seq<Recv>) {
    SendsMatch(s, sends) && SentMatches(s) && RecvsMatch(s, recvs) && ReceivedMatches(s)
  }

  lemma {:induction false} StepMatches(s: State, e: Event, sends: seq<Send>, recvs: seq<Recv>)
    requires Inv(s) && CanHappen(s, e) && Matches(s, sends, recvs)
    ensures Matches(Step(s, e), sends + SendOf(e), recvs + RecvOf(e))
  {
    if e.SendPublish? {
      PublishSent(s);
    }
    SendStepMatches(s, e, sends);
    RecvStepMatches(s, e, recvs);
  }

  lemma {:induction false} CallsFrom(es: seq<Event>, sends: seq<Send>, recvs: seq<Recv>)
    requires es != []
    ensures sends + Sends(es) == sends + SendOf(es[0]) + Sends(es[1..])
    ensures recvs + Recvs(es) == recvs + RecvOf(es[0]) + Recvs(es[1..])
  {
  }

  lemma {:induction false} RunMatches(s: State, es: seq<Event>, sends: seq<Send>, recvs: seq<Recv>, allSends: seq<Send>, allRecvs: seq<Recv>)
    requires Inv(s) && CanRun(s, es) && Matches(s, sends, recvs) && allSends == sends + Sends(es) && allRecvs == recvs + Recvs(es)
    ensures Matches(Run(s, es), allSends, allRecvs)
    decreases |es|
  {
    if es == [] {
      assert allSends == sends && allRecvs == recvs;
    } else {
      CallsFrom(es, sends, recvs);
      StepKeeps(s, es[0]);
      StepMatches(s, es[0], sends, recvs);
      RunMatches(Step(s, es[0]), es[1..], sends + SendOf(es[0]), recvs + RecvOf(es[0]), allSends, allRecvs);
    }
  }

  /** Whatever the interleaving, each call returns for its own arguments, the stream is what the send calls were given,
      one after the other, and the bytes the receive calls hand to their callers are a prefix of it. */
  lemma {:induction false} CallsFifo(buf: seq<byte>, es: seq<Event>)
    requires |buf| == BUF_SIZE && CanRun(Init(buf), es)
    ensures var t := Run(Init(buf), es);
            Matches(t, Sends(es), Recvs(es)) && Read(t.recvs) <= t.received <= t.sent
  {
    Fifo(buf, es);
    InitInv(buf);
    RunMatches(Init(buf), es, [], [], Sends(es), Recvs(es));
  }

  function Together(calls: seq<Send>): seq<byte> {
    if calls == [] then [] else Together(calls[..|calls| - 1]) + calls[|calls| - 1].data
  }

  lemma {:induction false} WrittenIs(rs: seq<SendReturn>, calls: seq<Send>)
    requires |rs| == |calls| && forall i | 0 <= i < |rs| :: rs[i].arg == calls[i].data && rs[i].n == |rs[i].arg|
    ensures Written(rs) == Together(calls)
  {
    if rs != [] {
      WrittenIs(rs[..|rs| - 1], calls[..|rs| - 1]);
    }
  }

  lemma {:induction false} SentIsPrefix(t: State, calls: seq<Send>)
    requires SendsMatch(t, calls) && SentMatches(t) && forall i | 0 <= i < |t.sends| :: t.sends[i].n == |t.sends[i].arg|
    ensures t.sent <= Together(calls)
    ensures t.sender.phase.Outside? ==> t.sent == Together(calls)
  {
    var n := |t.sends|;
    WrittenIs(t.sends, calls[..n]);
    if t.sender.phase.Outside? {
      assert calls[..n] == calls;
    }
  }

  /** Without streaming the receive calls hand over a prefix of all the data given to the send calls, and the stream is
      all of it whenever no send is in progress. */
  lemma {:induction false} DataFifo(buf: seq<byte>, es: seq<Event>)
    requires |buf| == BUF_SIZE && CanRun(Init(buf), es) && forall c | c in Sends(es) :: !c.stream
    ensures var t := Run(Init(buf), es);
            && Read(t.recvs) <= Together(Sends(es))
            && (t.sender.phase.Outside? ==> t.sent == Together(Sends(es)))
  {
    CallsFifo(buf, es);
    Fifo(buf, es);
    NothingHeldBack(Run(Init(buf), es), Sends(es));
    SentIsPrefix(Run(Init(buf), es), Sends(es));
  }

  lemma {:induction false} NothingHeldBack(t: State, calls: seq<Send>)
    requires SendsMatch(t, calls) && (forall c | c in calls :: !c.stream) && forall r | r in t.sends :: SendOk(r, t.sent)
    ensures forall i | 0 <= i < |t.sends| :: t.sends[i].n == |t.sends[i].arg|
  {
    forall i | 0 <= i < |t.sends| ensures t.sends[i].n == |t.sends[i].arg| {
      assert calls[i] in calls && t.sends[i] in t.sends;
    }
  }
}
