/** The vchan ring shared by one sender and one receiver, as interleaved steps: each side takes a
    snapshot of the positions, copies bytes one at a time in any order, and publishes its position. */
module VchanModel {
  import opened Common
  import opened Arith

  const BUF_SIZE: nat := 4096

  /** `moved`: bytes of the call already published.  In `Copying`, `count` is the size settled by the
      snapshot and `done` the indices already copied. */
  datatype Phase = Outside | Ready | Copying(count: nat, done: set<nat>)

  /** One side of the channel in a call of `size` bytes that began at stream position `base`. */
  datatype Side = Side(phase: Phase, size: nat, base: nat, moved: nat, stream: bool)

  /** A call that has returned |data|: `arg` is what the sender was given or the size the receiver asked
      for, `data` the bytes moved. */
  datatype SendReturn = SendReturn(arg: seq<byte>, base: nat, n: nat, stream: bool)
  datatype RecvReturn = RecvReturn(size: nat, base: nat, data: seq<byte>, stream: bool)

  /** `outgoing` is the sender's argument, `incoming` what the receiver has copied since its snapshot and
      `taken` what its caller's buffer held before that.  `sent`, `received` and the returns are
      history. */
  datatype State = State(buf: seq<byte>, writePos: nat, readPos: nat,
                         sender: Side, outgoing: seq<byte>,
                         receiver: Side, incoming: seq<byte>, taken: seq<byte>,
                         sent: seq<byte>, received: seq<byte>,
                         sends: seq<SendReturn>, recvs: seq<RecvReturn>)

  /** The distance of the positions, without regard to which is ahead. */
  function Filled(w: nat, r: nat): nat { if w >= r then w - r else r - w }

  /** get_actionsize after the clamp of the caller.  Its subtraction wraps when more than a buffer is
      filled, leaving the clamped size. */
  function SendSize(w: nat, r: nat, size: nat): nat {
    var clamped := Min(size, BUF_SIZE);
    if Filled(w, r) <= BUF_SIZE then Min(BUF_SIZE - Filled(w, r), clamped) else clamped
  }

  function RecvSize(w: nat, r: nat, size: nat): nat { Min(Filled(w, r), Min(size, BUF_SIZE)) }

  /** A position modulo the buffer size. */
  function Slot(pos: nat): (slot: nat)
    ensures slot < BUF_SIZE
  {
    if pos < BUF_SIZE then pos else Slot(pos - BUF_SIZE)
  }

  lemma {:induction false} SlotIsMod(pos: nat)
    ensures Slot(pos) == pos % BUF_SIZE
  {
    if pos >= BUF_SIZE {
      SlotIsMod(pos - BUF_SIZE);
      ModShift(pos - BUF_SIZE, BUF_SIZE);
    }
  }

  predicate InBounds(s: State) { s.readPos <= s.writePos <= s.readPos + BUF_SIZE && |s.buf| == BUF_SIZE }

  datatype Event =
    | SendCall(data: seq<byte>, stream: bool)
    | SendSnapshot
    | SendByte(k: nat)
    | SendPublish
    | RecvCall(size: nat, stream: bool)
    | RecvSnapshot
    | RecvByte(k: nat)
    | RecvPublish

  predicate Copied(p: Phase) { p.Copying? && forall k | 0 <= k < p.count :: k in p.done }

  predicate CanHappen(s: State, e: Event) {
    match e
    case SendCall(_, _) => s.sender.phase.Outside?
    case SendSnapshot => s.sender.phase.Ready?
    case SendByte(k) => s.sender.phase.Copying? && k < s.sender.phase.count && s.sender.moved + k < |s.outgoing|
    case SendPublish => Copied(s.sender.phase)
    case RecvCall(_, _) => s.receiver.phase.Outside?
    case RecvSnapshot => s.receiver.phase.Ready?
    case RecvByte(k) => s.receiver.phase.Copying? && k < s.receiver.phase.count && k < |s.incoming| && |s.buf| == BUF_SIZE
    case RecvPublish => Copied(s.receiver.phase)
  }

  function Enter(size: nat, base: nat, stream: bool): Side {
    Side(if size == 0 then Outside else Ready, size, base, 0, stream)
  }

  /** A snapshot that finds nothing to do leaves the side waiting. */
  function Snapshot(d: Side, count: nat): Side { if count == 0 then d else d.(phase := Copying(count, {})) }

  function CopyOne(d: Side, k: nat): Side
    requires d.phase.Copying?
  {
    d.(phase := d.phase.(done := d.phase.done + {k}))
  }

  predicate Finished(d: Side)
    requires d.phase.Copying?
  {
    d.stream || d.moved + d.phase.count == d.size
  }

  function Advance(d: Side): Side
    requires d.phase.Copying?
  {
    d.(moved := d.moved + d.phase.count, phase := if Finished(d) then Outside else Ready)
  }

  function Blank(n: nat): seq<byte> { seq(n, i => 0) }

  function Publish(s: State): State
    requires Copied(s.sender.phase)
  {
    var d, from := s.sender, s.sender.moved;
    var to := from + d.phase.count;
    s.(writePos := s.writePos + d.phase.count, sender := Advance(d),
       sends := s.sends + if Finished(d) then [SendReturn(s.outgoing, d.base, to, d.stream)] else [],
       sent := s.sent + if to <= |s.outgoing| then s.outgoing[from..to] else [])
  }

  function Consume(s: State): State
    requires Copied(s.receiver.phase)
  {
    var d, taken := s.receiver, s.taken + s.incoming;
    s.(readPos := s.readPos + d.phase.count, receiver := Advance(d), taken := taken,
       recvs := s.recvs + if Finished(d) then [RecvReturn(d.size, d.base, taken, d.stream)] else [],
       received := s.received + s.incoming)
  }

  function Step(s: State, e: Event): State
    requires CanHappen(s, e)
  {
    match e
    case SendCall(data, stream) =>
      s.(sender := Enter(|data|, |s.sent|, stream), outgoing := data,
         sends := s.sends + if data == [] then [SendReturn([], |s.sent|, 0, stream)] else [])
    case SendSnapshot =>
      s.(sender := Snapshot(s.sender, SendSize(s.writePos, s.readPos, Left(s.sender))))
    case SendByte(k) =>
      s.(buf := Store(s.buf, s.writePos + k, s.outgoing[s.sender.moved + k]), sender := CopyOne(s.sender, k))
    case SendPublish => Publish(s)
    case RecvCall(size, stream) =>
      s.(receiver := Enter(size, |s.received|, stream), incoming := [], taken := [],
         recvs := s.recvs + if size == 0 then [RecvReturn(0, |s.received|, [], stream)] else [])
    case RecvSnapshot =>
      var n := RecvSize(s.writePos, s.readPos, Left(s.receiver));
      s.(receiver := Snapshot(s.receiver, n), incoming := Blank(n))
    case RecvByte(k) =>
      s.(incoming := s.incoming[k := s.buf[Slot(s.readPos + k)]], receiver := CopyOne(s.receiver, k))
    case RecvPublish => Consume(s)
  }

  function Left(d: Side): nat { if d.moved <= d.size then d.size - d.moved else 0 }

  function Store(buf: seq<byte>, pos: nat, b: byte): seq<byte> {
    if |buf| == BUF_SIZE then buf[Slot(pos) := b] else buf
  }

  function Init(buf: seq<byte>): State {
    var idle := Side(Outside, 0, 0, 0, false);
    State(buf, 0, 0, idle, [], idle, [], [], [], [], [], [])
  }
}
