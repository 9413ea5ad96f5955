/** The vchan ring is a FIFO under every interleaving of its sender and its receiver. */
module VchanSafety {
  import opened Common
  import opened VchanModel

  /** The ring: positions in bounds, history and positions agree, unread bytes in their slots. */
  predicate Stream(s: State) {
    && InBounds(s)
    && |s.sent| == s.writePos && s.received == s.sent[..s.readPos]
    && (forall i | s.readPos <= i < s.writePos :: s.buf[Slot(i)] == s.sent[i])
  }

  /** A call in progress has moved `moved` bytes so far, up to stream position `pos`. */
  predicate InCall(d: Side, pos: nat, room: nat) {
    && (!d.phase.Outside? ==> d.moved < d.size && d.base + d.moved == pos && (d.stream ==> d.moved == 0))
    && (d.phase.Copying? ==> 0 < d.phase.count <= d.size - d.moved && d.phase.count <= room)
  }

  predicate SenderOk(s: State)
    requires Stream(s)
  {
    && InCall(s.sender, s.writePos, BUF_SIZE - (s.writePos - s.readPos))
    && (!s.sender.phase.Outside? ==>
          |s.outgoing| == s.sender.size && s.sent[s.sender.base..] == s.outgoing[..s.sender.moved])
    && CopiesRight(s)
  }

  /** The bytes the sender has copied so far are in their slots. */
  predicate CopiesRight(s: State)
    requires |s.buf| == BUF_SIZE
  {
    s.sender.phase.Copying? ==> forall k | k in s.sender.phase.done && k < s.sender.phase.count ::
      s.sender.moved + k < |s.outgoing| && s.buf[Slot(s.writePos + k)] == s.outgoing[s.sender.moved + k]
  }

  predicate ReceiverOk(s: State)
    requires Stream(s)
  {
    && InCall(s.receiver, s.readPos, s.writePos - s.readPos)
    && (!s.receiver.phase.Outside? ==> s.taken == s.received[s.receiver.base..])
    && (s.receiver.phase.Copying? ==>
          |s.incoming| == s.receiver.phase.count && ReceivesRight(s))
  }

  /** The bytes the receiver has copied so far are those of the stream. */
  predicate ReceivesRight(s: State)
    requires s.receiver.phase.Copying? && |s.incoming| == s.receiver.phase.count
  {
    forall k | k in s.receiver.phase.done && k < |s.incoming| ::
      s.readPos + k < |s.sent| && s.incoming[k] == s.sent[s.readPos + k]
  }

  /** A send that returned put a prefix of its argument on the stream, and without streaming all of
      it. */
  predicate SendOk(r: SendReturn, sent: seq<byte>) {
    && r.base + r.n <= |sent| && r.n <= |r.arg| && sent[r.base..r.base + r.n] == r.arg[..r.n]
    && (!r.stream ==> r.n == |r.arg|) && (r.arg != [] ==> r.n > 0)
  }

  /** A receive that returned took the bytes at its position, and without streaming as many as it was
      asked for. */
  predicate RecvOk(r: RecvReturn, received: seq<byte>) {
    && r.base + |r.data| <= |received| && received[r.base..r.base + |r.data|] == r.data && |r.data| <= r.size
    && (!r.stream ==> |r.data| == r.size) && (r.size > 0 ==> r.data != [])
  }

  predicate ReturnsOk(s: State) {
    && (forall r | r in s.sends :: SendOk(r, s.sent))
    && (forall r | r in s.recvs :: RecvOk(r, s.received))
  }

  predicate Inv(s: State) {
    Stream(s) && SenderOk(s) && ReceiverOk(s) && ReturnsOk(s)
  }

  /** Positions less than the buffer size apart use different slots. */
  lemma {:induction false} SlotsDiffer(i: nat, j: nat)
    requires i < j < i + BUF_SIZE
    ensures Slot(i) != Slot(j)
    decreases i
  {
    if i >= BUF_SIZE {
      SlotsDiffer(i - BUF_SIZE, j - BUF_SIZE);
    }
  }

  lemma {:induction false} StoreElsewhere(buf: seq<byte>, pos: nat, other: nat, b: byte)
    requires |buf| == BUF_SIZE && pos != other && pos < other + BUF_SIZE && other < pos + BUF_SIZE
    ensures Store(buf, pos, b)[Slot(other)] == buf[Slot(other)]
  {
    if pos < other {
      SlotsDiffer(pos, other);
    } else {
      SlotsDiffer(other, pos);
    }
  }

  /** What a sender copies goes to slots nobody reads. */
  lemma {:induction false} SendByteStream(s: State, k: nat)
    requires Stream(s) && SenderOk(s) && CanHappen(s, SendByte(k))
    ensures Stream(Step(s, SendByte(k)))
  {
    var t := Step(s, SendByte(k));
    forall i | s.readPos <= i < s.writePos ensures t.buf[Slot(i)] == s.buf[Slot(i)] {
      StoreElsewhere(s.buf, s.writePos + k, i, s.outgoing[s.sender.moved + k]);
    }
  }

  lemma {:induction false} SendByteAt(s: State, k: nat, j: nat)
    requires Stream(s) && SenderOk(s) && CanHappen(s, SendByte(k))
    requires (j == k || j in s.sender.phase.done) && j < s.sender.phase.count
    ensures Store(s.buf, s.writePos + k, s.outgoing[s.sender.moved + k])[Slot(s.writePos + j)] == s.outgoing[s.sender.moved + j]
  {
    if j != k {
      StoreElsewhere(s.buf, s.writePos + k, s.writePos + j, s.outgoing[s.sender.moved + k]);
    }
  }

  lemma {:induction false} SendByteCopies(s: State, k: nat)
    requires Stream(s) && SenderOk(s) && CanHappen(s, SendByte(k))
    ensures CopiesRight(Step(s, SendByte(k)))
  {
    var t := Step(s, SendByte(k));
    forall j | j in t.sender.phase.done && j < t.sender.phase.count
      ensures t.buf[Slot(s.writePos + j)] == s.outgoing[s.sender.moved + j]
    {
      SendByteAt(s, k, j);
    }
  }

  lemma {:induction false} SendByteKeeps(s: State, k: nat)
    requires Inv(s) && CanHappen(s, SendByte(k))
    ensures Inv(Step(s, SendByte(k)))
  {
    SendByteStream(s, k);
    SendByteCopies(s, k);
  }

  lemma {:induction false} RecvByteRight(s: State, k: nat)
    requires Stream(s) && ReceiverOk(s) && CanHappen(s, RecvByte(k))
    ensures ReceivesRight(Step(s, RecvByte(k)))
  {
    assert s.buf[Slot(s.readPos + k)] == s.sent[s.readPos + k];
  }

  lemma {:induction false} RecvByteKeeps(s: State, k: nat)
    requires Inv(s) && CanHappen(s, RecvByte(k))
    ensures Inv(Step(s, RecvByte(k)))
  {
    RecvByteRight(s, k);
  }

  /** What publishing adds to the stream. */
  lemma {:induction false} PublishSent(s: State)
    requires Inv(s) && Copied(s.sender.phase)
    ensures var from, to := s.sender.moved, s.sender.moved + s.sender.phase.count;
            && to <= |s.outgoing| && Publish(s).sent == s.sent + s.outgoing[from..to]
  {
  }

  /** The copied bytes are the new part of the stream. */
  lemma {:induction false} PublishedAt(s: State, k: nat)
    requires Inv(s) && Copied(s.sender.phase) && k < s.sender.phase.count
    ensures s.sender.moved + k < |s.outgoing| && s.buf[Slot(s.writePos + k)] == s.outgoing[s.sender.moved + k]
  {
    assert k in s.sender.phase.done;
  }

  lemma {:induction false} PublishSlot(s: State, i: nat)
    requires Inv(s) && Copied(s.sender.phase) && s.readPos <= i < s.writePos + s.sender.phase.count
    ensures i < |Publish(s).sent| && s.buf[Slot(i)] == Publish(s).sent[i]
  {
    PublishSent(s);
    if i >= s.writePos {
      PublishedAt(s, i - s.writePos);
    }
  }

  lemma {:induction false} PublishCall(s: State)
    requires Inv(s) && Copied(s.sender.phase)
    ensures var n := s.sender.moved + s.sender.phase.count;
            n <= |s.outgoing| && s.sender.base <= |s.sent| && Publish(s).sent[s.sender.base..] == s.outgoing[..n]
  {
    var from, to := s.sender.moved, s.sender.moved + s.sender.phase.count;
    PublishSent(s);
    assert (s.sent + s.outgoing[from..to])[s.sender.base..] == s.sent[s.sender.base..] + s.outgoing[from..to];
    assert s.outgoing[..to] == s.outgoing[..from] + s.outgoing[from..to];
  }

  lemma {:induction false} PublishStream(s: State)
    requires Inv(s) && Copied(s.sender.phase)
    ensures Stream(Publish(s))
    ensures Publish(s).sent == s.sent + s.outgoing[s.sender.moved..s.sender.moved + s.sender.phase.count]
    ensures Publish(s).sent[s.sender.base..] == s.outgoing[..s.sender.moved + s.sender.phase.count]
  {
    var t := Publish(s);
    PublishSent(s);
    PublishCall(s);
    forall i | t.readPos <= i < t.writePos ensures t.buf[Slot(i)] == t.sent[i] { PublishSlot(s, i); }
  }

  lemma {:induction false} SendsGrow(s: State, more: seq<byte>)
    requires forall r | r in s.sends :: SendOk(r, s.sent)
    ensures forall r | r in s.sends :: SendOk(r, s.sent + more)
  {
    forall r | r in s.sends ensures SendOk(r, s.sent + more) {
      assert (s.sent + more)[r.base..r.base + r.n] == s.sent[r.base..r.base + r.n];
    }
  }

  lemma {:induction false} NewSendOk(s: State)
    requires Inv(s) && Copied(s.sender.phase)
    ensures var d := s.sender;
            Finished(d) ==> SendOk(SendReturn(s.outgoing, d.base, d.moved + d.phase.count, d.stream), Publish(s).sent)
  {
    PublishStream(s);
    var t, n := Publish(s), s.sender.moved + s.sender.phase.count;
    assert t.sent[s.sender.base..s.sender.base + n] == t.sent[s.sender.base..];
  }

  lemma {:induction false} PublishReturns(s: State)
    requires Inv(s) && Copied(s.sender.phase)
    ensures ReturnsOk(Publish(s))
  {
    PublishStream(s);
    SendsGrow(s, s.outgoing[s.sender.moved..s.sender.moved + s.sender.phase.count]);
    NewSendOk(s);
  }

  lemma {:induction false} SendPublishKeeps(s: State)
    requires Inv(s) && Copied(s.sender.phase)
    ensures Inv(Publish(s))
  {
    PublishStream(s);
    PublishReturns(s);
  }

  lemma {:induction false} ConsumeStream(s: State)
    requires Inv(s) && Copied(s.receiver.phase)
    ensures Stream(Consume(s)) && Consume(s).received == s.sent[..s.readPos + s.receiver.phase.count]
    ensures Consume(s).taken == Consume(s).received[s.receiver.base..]
  {
    var n := s.receiver.phase.count;
    assert s.incoming == s.sent[s.readPos..s.readPos + n];
    assert s.sent[..s.readPos] + s.sent[s.readPos..s.readPos + n] == s.sent[..s.readPos + n];
  }

  lemma {:induction false} StaysOk(r: RecvReturn, a: seq<byte>, b: seq<byte>)
    requires RecvOk(r, a) && a <= b
    ensures RecvOk(r, b)
  {
    assert b[r.base..r.base + |r.data|] == a[r.base..r.base + |r.data|];
  }

  lemma {:induction false} NewRecvOk(s: State)
    requires Inv(s) && Copied(s.receiver.phase)
    ensures var d := s.receiver;
            Finished(d) ==> RecvOk(RecvReturn(d.size, d.base, Consume(s).taken, d.stream), Consume(s).received)
  {
    ConsumeStream(s);
    var t := Consume(s);
    assert t.received[s.receiver.base..s.receiver.base + |t.taken|] == t.received[s.receiver.base..];
  }

  lemma {:induction false} ConsumeReturns(s: State)
    requires Inv(s) && Copied(s.receiver.phase)
    ensures ReturnsOk(Consume(s))
  {
    var t := Consume(s);
    NewRecvOk(s);
    forall r | r in t.recvs ensures RecvOk(r, t.received) {
      if r in s.recvs {
        StaysOk(r, s.received, t.received);
      }
    }
  }

  lemma {:induction false} RecvPublishKeeps(s: State)
    requires Inv(s) && Copied(s.receiver.phase)
    ensures Inv(Consume(s))
  {
    ConsumeStream(s);
    ConsumeReturns(s);
  }

  lemma {:induction false} SendStartKeeps(s: State, e: Event)
    requires Inv(s) && CanHappen(s, e) && (e.SendCall? || e.SendSnapshot?)
    ensures Inv(Step(s, e))
  {
  }

  lemma {:induction false} RecvStartKeeps(s: State, e: Event)
    requires Inv(s) && CanHappen(s, e) && (e.RecvCall? || e.RecvSnapshot?)
    ensures Inv(Step(s, e))
  {
  }

  lemma {:induction false} StepKeeps(s: State, e: Event)
    requires Inv(s) && CanHappen(s, e)
    ensures Inv(Step(s, e))
  {
    match e
    case SendByte(k) => SendByteKeeps(s, k);
    case RecvByte(k) => RecvByteKeeps(s, k);
    case SendPublish => SendPublishKeeps(s);
    case RecvPublish => RecvPublishKeeps(s);
    case SendCall(_, _) => SendStartKeeps(s, e);
    case SendSnapshot => SendStartKeeps(s, e);
    case _ => RecvStartKeeps(s, e);
  }

  // ----- whole runs

  predicate CanRun(s: State, es: seq<Event>)
    decreases |es|
  {
    es == [] || (CanHappen(s, es[0]) && CanRun(Step(s, es[0]), es[1..]))
  }

  function Run(s: State, es: seq<Event>): State
    requires CanRun(s, es)
    decreases |es|
  {
    if es == [] then s else Run(Step(s, es[0]), es[1..])
  }

  lemma {:induction false} RunKeeps(s: State, es: seq<Event>)
    requires Inv(s) && CanRun(s, es)
    ensures Inv(Run(s, es))
    decreases |es|
  {
    if es != [] {
      StepKeeps(s, es[0]);
      RunKeeps(Step(s, es[0]), es[1..]);
    }
  }

  lemma {:induction false} InitInv(buf: seq<byte>)
    requires |buf| == BUF_SIZE
    ensures Inv(Init(buf))
  {
  }

  /** Whatever the interleaving, the bytes received are a prefix of the bytes sent, at most a buffer
      behind, and every call that returned moved what it reports. */
  lemma {:induction false} Fifo(buf: seq<byte>, es: seq<Event>)
    requires |buf| == BUF_SIZE && CanRun(Init(buf), es)
    ensures var t := Run(Init(buf), es);
            && t.received <= t.sent && |t.sent| - |t.received| <= BUF_SIZE
            && (forall r | r in t.sends :: SendOk(r, t.sent)) && (forall r | r in t.recvs :: RecvOk(r, t.received))
  {
    InitInv(buf);
    RunKeeps(Init(buf), es);
  }

  /** The two sides never wait for each other: if both are at the top of their loops, one of them finds
      something to do. */
  lemma {:induction false} NeverBothWait(s: State)
    requires Inv(s) && s.sender.phase.Ready? && s.receiver.phase.Ready?
    ensures Step(s, SendSnapshot).sender.phase.Copying? || Step(s, RecvSnapshot).receiver.phase.Copying?
  {
  }

  /** Bytes handed to one non-stream send arrive in one non-stream receive of the same size, if both
      began at the same position. */
  lemma {:induction false} SendMeetsRecv(s: State, p: SendReturn, q: RecvReturn)
    requires Inv(s) && p in s.sends && q in s.recvs && p.base == q.base && |p.arg| == q.size && !p.stream && !q.stream
    ensures q.data == p.arg
  {
    assert s.received[q.base..q.base + |q.data|] == s.sent[q.base..q.base + |q.data|];
  }
}
