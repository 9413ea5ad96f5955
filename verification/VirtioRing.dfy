/** The virtio transmit queue: heads made available by the guest, taken in order and handed back through
    the used ring, with indices that wrap at 16 bits. */
module VirtioRing {
  import opened Arith

  const WRAP: nat := 65536

  datatype Used = Used(id: nat, len: nat)

  /** `lastIdx`: how far the device has looked.  `inFlight` are heads whose packet the backend still
      holds.  The sequences are history: heads posted by the guest, taken by the device, handed back,
      and given up because the backend refused the packet. */
  datatype State = State(avail: seq<nat>, availIdx: nat, used: seq<Used>, usedIdx: nat, lastIdx: nat,
                         inFlight: multiset<nat>,
                         posted: seq<nat>, taken: seq<nat>, returned: seq<nat>, dropped: seq<nat>)

  datatype Answer = Complete | Enqueued | Failed

  datatype Event = Post(head: nat) | Turn(answer: Answer) | Done(head: nat)

  function Inc(idx: nat): nat { (idx + 1) % WRAP }

  /** The slot of an index in a ring of `num` entries. */
  function Slot(idx: nat, num: nat): (k: nat)
    requires num > 0
    ensures k < num
  {
    idx % num
  }

  predicate Sized(s: State) { 0 < |s.avail| == |s.used| }

  /** How many entries the rings have. */
  function Num(s: State): nat { |s.avail| }

  /** ring_used_add */
  function UsedAdd(s: State, head: nat): State
    requires Sized(s)
  {
    s.(used := s.used[Slot(s.usedIdx, Num(s)) := Used(head, 0)], usedIdx := Inc(s.usedIdx), returned := s.returned + [head])
  }

  /** The head at the device's position. */
  function Next(s: State): nat
    requires Sized(s)
  {
    s.avail[Slot(s.lastIdx, Num(s))]
  }

  /** The guest posts only while the ring has room; the device looks only at what is new; the backend
      completes only what it holds. */
  predicate CanHappen(s: State, e: Event) {
    && Sized(s)
    && match e
       case Post(_) => |s.posted| - |s.taken| < Num(s)
       case Turn(_) => s.lastIdx != s.availIdx
       case Done(head) => head in s.inFlight
  }

  /** The device has moved on by one. */
  function Advanced(s: State): State
    requires Sized(s)
  {
    s.(lastIdx := Inc(s.lastIdx), taken := s.taken + [Next(s)])
  }

  /** One turn of the transmit loop: what the backend answered decides where the head goes. */
  function TakeOne(s: State, answer: Answer): State
    requires Sized(s)
  {
    var head, s1 := Next(s), Advanced(s);
    match answer
    case Complete => UsedAdd(s1, head)
    case Enqueued => s1.(inFlight := s.inFlight + multiset{head})
    case Failed => s1.(dropped := s.dropped + [head])
  }

  function Step(s: State, e: Event): State
    requires CanHappen(s, e)
  {
    match e
    case Post(head) =>
      s.(avail := s.avail[Slot(s.availIdx, Num(s)) := head], availIdx := Inc(s.availIdx), posted := s.posted + [head])
    case Turn(answer) => TakeOne(s, answer)
    case Done(head) => UsedAdd(s.(inFlight := s.inFlight - multiset{head}), head)
  }

  // ----- invariant

  /** Entries still to be taken are in their slots. */
  predicate AvailOk(s: State)
    requires Sized(s)
  {
    && s.taken <= s.posted && |s.posted| - |s.taken| <= Num(s)
    && s.availIdx == |s.posted| % WRAP && s.lastIdx == |s.taken| % WRAP
    && forall i | |s.taken| <= i < |s.posted| :: s.avail[Slot(i, Num(s))] == s.posted[i]
  }

  /** The last entries handed back are in their slots. */
  predicate UsedOk(s: State)
    requires Sized(s)
  {
    && s.usedIdx == |s.returned| % WRAP
    && forall i | 0 <= i < |s.returned| < i + Num(s) + 1 :: s.used[Slot(i, Num(s))] == Used(s.returned[i], 0)
  }

  /** Every head taken is handed back, with the backend, or given up: once each. */
  predicate Accounted(s: State) {
    multiset(s.taken) == multiset(s.returned) + s.inFlight + multiset(s.dropped)
  }

  /** The ring size divides the range of the indices. */
  predicate Divides(num: nat) { 0 < num < WRAP && WRAP % num == 0 }

  predicate Inv(s: State) {
    Sized(s) && Divides(Num(s)) && AvailOk(s) && UsedOk(s) && Accounted(s)
  }

  lemma {:induction false} IncWraps(n: nat)
    ensures Inc(n % WRAP) == (n + 1) % WRAP
  {
    var q, r := n / WRAP, n % WRAP;
    if r + 1 < WRAP {
      DivUnique(n + 1, q, r + 1, WRAP);
    } else {
      DivUnique(n + 1, q + 1, 0, WRAP);
    }
  }

  lemma {:induction false} SlotAgrees(n: nat, num: nat)
    requires num > 0 && WRAP % num == 0
    ensures Slot(n % WRAP, num) == Slot(n, num)
  {
    var q, r, m := n / WRAP, n % WRAP, WRAP / num;
    assert q * (m * num) == (q * m) * num;
    assert (q * m) * num + (r / num) * num == (q * m + r / num) * num;
    DivUnique(n, q * m + r / num, r % num, num);
  }

  /** Wrapped indices find the same slots exactly if the ring size divides the range of the indices. */
  lemma {:induction false} SlotsAgreeIff(num: nat)
    requires num > 0
    ensures (forall n: nat :: Slot(n % WRAP, num) == Slot(n, num)) <==> WRAP % num == 0
  {
    if WRAP % num == 0 {
      forall n: nat ensures Slot(n % WRAP, num) == Slot(n, num) { SlotAgrees(n, num); }
    } else {
      DivUnique(WRAP, 1, 0, WRAP);
      DivUnique(0, 0, 0, num);
      assert Slot(WRAP % WRAP, num) != Slot(WRAP, num);
    }
  }

  lemma {:induction false} SlotsDiffer(i: nat, j: nat, num: nat)
    requires num > 0 && i < j < i + num
    ensures Slot(i, num) != Slot(j, num)
  {
    var q, r := i / num, i % num;
    if r + (j - i) < num {
      DivUnique(j, q, r + (j - i), num);
    } else {
      assert (q + 1) * num == q * num + num;
      DivUnique(j, q + 1, r + (j - i) - num, num);
    }
  }

  /** There is something new exactly when the indices differ, and it is the oldest head not yet taken. */
  lemma {:induction false} NextIsOldest(s: State)
    requires Sized(s) && Divides(Num(s)) && AvailOk(s)
    ensures s.lastIdx != s.availIdx <==> |s.taken| < |s.posted|
    ensures |s.taken| < |s.posted| ==> Next(s) == s.posted[|s.taken|]
  {
    SlotAgrees(|s.taken|, Num(s));
    if |s.taken| < |s.posted| {
      SlotsDiffer(|s.taken|, |s.posted|, WRAP);
    }
  }

  lemma {:induction false} UsedAddKeeps(s: State, head: nat)
    requires Sized(s) && Divides(Num(s)) && UsedOk(s)
    ensures Sized(UsedAdd(s, head)) && UsedOk(UsedAdd(s, head))
  {
    var t, n := UsedAdd(s, head), |s.returned|;
    SlotAgrees(n, Num(s));
    IncWraps(n);
    forall i | 0 <= i < |t.returned| < i + Num(t) + 1 ensures t.used[Slot(i, Num(t))] == Used(t.returned[i], 0) {
      if i < n {
        SlotsDiffer(i, n, Num(s));
      }
    }
  }

  lemma {:induction false} PostKeeps(s: State, head: nat)
    requires Inv(s) && CanHappen(s, Post(head))
    ensures Inv(Step(s, Post(head)))
  {
    var t, n := Step(s, Post(head)), |s.posted|;
    SlotAgrees(n, Num(s));
    IncWraps(n);
    forall i | |t.taken| <= i < |t.posted| ensures t.avail[Slot(i, Num(t))] == t.posted[i] {
      if i < n {
        SlotsDiffer(i, n, Num(s));
      }
    }
  }

  lemma {:induction false} OneMore(xs: seq<nat>, x: nat)
    ensures multiset(xs + [x]) == multiset(xs) + multiset{x}
  {
  }

  lemma {:induction false} AdvancedOk(s: State)
    requires Inv(s) && s.lastIdx != s.availIdx
    ensures Sized(Advanced(s)) && AvailOk(Advanced(s)) && UsedOk(Advanced(s))
    ensures |s.taken| < |s.posted| && Next(s) == s.posted[|s.taken|]
  {
    NextIsOldest(s);
    IncWraps(|s.taken|);
  }

  lemma {:induction false} TakeKeeps(s: State, answer: Answer)
    requires Inv(s) && CanHappen(s, Turn(answer))
    ensures Inv(TakeOne(s, answer))
    ensures TakeOne(s, answer).taken == s.taken + [s.posted[|s.taken|]] && TakeOne(s, answer).posted == s.posted
  {
    AdvancedOk(s);
    var head := Next(s);
    OneMore(s.taken, head);
    if answer.Complete? {
      UsedAddKeeps(Advanced(s), head);
      OneMore(s.returned, head);
    } else if answer.Failed? {
      OneMore(s.dropped, head);
    }
  }

  lemma {:induction false} DoneKeeps(s: State, head: nat)
    requires Inv(s) && head in s.inFlight
    ensures Inv(Step(s, Done(head)))
  {
    var s1 := s.(inFlight := s.inFlight - multiset{head});
    UsedAddKeeps(s1, head);
    OneMore(s.returned, head);
    assert s.inFlight == s1.inFlight + multiset{head};
  }

  lemma {:induction false} StepKeeps(s: State, e: Event)
    requires Inv(s) && CanHappen(s, e)
    ensures Inv(Step(s, e))
  {
    match e
    case Post(head) => PostKeeps(s, head);
    case Turn(answer) => TakeKeeps(s, answer);
    case Done(head) => DoneKeeps(s, head);
  }

  // ----- whole runs

  predicate CanRun(s: State, es: seq<Event>)
    decreases |es|
  {
    es == [] || (CanHappen(s, es[0]) && CanRun(Step(s, es[0]), es[1..]))
  }

  function Run(s: State, es: seq<Event>): State
    requires CanRun(s, es)
    decreases |es|
  {
    if es == [] then s else Run(Step(s, es[0]), es[1..])
  }

  /** Over any run heads are taken in the order they were posted, and each is handed back once, still in
      flight, or given up. */
  lemma {:induction false} RunKeeps(s: State, es: seq<Event>)
    requires Inv(s) && CanRun(s, es)
    ensures Inv(Run(s, es))
    decreases |es|
  {
    if es != [] {
      StepKeeps(s, es[0]);
      RunKeeps(Step(s, es[0]), es[1..]);
    }
  }

  lemma {:induction false} StepDrops(s: State, e: Event)
    requires CanHappen(s, e)
    ensures Step(s, e).dropped == if e == Turn(Failed) then s.dropped + [Next(s)] else s.dropped
  {
  }

  /** None is given up exactly when the backend refused no packet. */
  lemma {:induction false} DropsIffRefused(s: State, es: seq<Event>)
    requires CanRun(s, es)
    ensures |Run(s, es).dropped| >= |s.dropped|
    ensures Run(s, es).dropped == s.dropped <==> Turn(Failed) !in es
    decreases |es|
  {
    if es != [] {
      StepDrops(s, es[0]);
      DropsIffRefused(Step(s, es[0]), es[1..]);
      assert es == [es[0]] + es[1..];
    }
  }

  function Init(avail: seq<nat>, used: seq<Used>): State {
    State(avail, 0, used, 0, 0, multiset{}, [], [], [], [])
  }

  lemma {:induction false} InitInv(avail: seq<nat>, used: seq<Used>)
    requires |avail| == |used| && Divides(|avail|)
    ensures Inv(Init(avail, used))
  {
  }

  // ----- a socket notification

  /** emul_vsock_notify_tx: every packet is handed on at once. */
  function NotifyVsock(s: State): State
    requires Inv(s)
    decreases |s.posted| - |s.taken|
  {
    if s.lastIdx == s.availIdx then s
    else
      NextIsOldest(s);
      TakeKeeps(s, Complete);
      NotifyVsock(TakeOne(s, Complete))
  }

  /** Everything posted has been taken, and what was new handed back in order. */
  predicate AllReturned(s: State, r: State) {
    && r.posted == s.posted && r.taken == s.posted && |s.taken| <= |s.posted|
    && r.returned == s.returned + s.posted[|s.taken|..]
    && r.inFlight == s.inFlight && r.dropped == s.dropped
  }

  lemma {:induction false} OneMoreReturned(s: State, t: State, r: State)
    requires |s.taken| < |s.posted| && t.posted == s.posted && |t.taken| == |s.taken| + 1
    requires t.returned == s.returned + [s.posted[|s.taken|]] && t.inFlight == s.inFlight && t.dropped == s.dropped
    requires AllReturned(t, r)
    ensures AllReturned(s, r)
  {
    assert s.posted[|s.taken|..] == [s.posted[|s.taken|]] + s.posted[|t.taken|..];
  }

  /** One notification takes every new head and hands each back once, in order. */
  lemma {:induction false} VsockReturnsAll(s: State)
    requires Inv(s)
    ensures Inv(NotifyVsock(s)) && AllReturned(s, NotifyVsock(s))
    decreases |s.posted| - |s.taken|
  {
    NextIsOldest(s);
    if s.lastIdx != s.availIdx {
      TakeKeeps(s, Complete);
      var t := TakeOne(s, Complete);
      VsockReturnsAll(t);
      OneMoreReturned(s, t, NotifyVsock(t));
    }
  }

  // ----- a network notification

  /** emul_notify_tx: `answers` are the backend's, one per packet; the loop also ends when there is no
      buffer left for the next packet. */
  function NotifyNet(s: State, answers: seq<Answer>): State
    requires Inv(s)
    decreases |answers|
  {
    if s.lastIdx == s.availIdx || answers == [] then s
    else
      TakeKeeps(s, answers[0]);
      NotifyNet(TakeOne(s, answers[0]), answers[1..])
  }

  /** One notification takes the oldest new heads, as many as there are buffers for, and accounts for
      each. */
  lemma {:induction false} NetTakesInOrder(s: State, answers: seq<Answer>)
    requires Inv(s)
    ensures var r := NotifyNet(s, answers);
            && Inv(r) && r.posted == s.posted && s.taken <= r.taken
            && |r.taken| - |s.taken| == if |answers| < |s.posted| - |s.taken| then |answers| else |s.posted| - |s.taken|
    decreases |answers|
  {
    NextIsOldest(s);
    if s.lastIdx != s.availIdx && answers != [] {
      TakeKeeps(s, answers[0]);
      NetTakesInOrder(TakeOne(s, answers[0]), answers[1..]);
    }
  }

  // ----- completions that come too early

  lemma {:induction false} NetKeepsAvail(s: State, answers: seq<Answer>)
    requires Inv(s)
    ensures NotifyNet(s, answers).avail == s.avail && NotifyNet(s, answers).availIdx == s.availIdx
    decreases |answers|
  {
    if s.lastIdx != s.availIdx && answers != [] {
      TakeKeeps(s, answers[0]);
      NetKeepsAvail(TakeOne(s, answers[0]), answers[1..]);
    }
  }

  /** What a notification finds that runs inside another one, after the backend's first answers `done`: the position
      is stored only when the loop is over. */
  function Nested(s: State, done: seq<Answer>): State
    requires Inv(s)
  {
    NotifyNet(s, done).(lastIdx := s.lastIdx)
  }

  /** A completion while the backend is being handed a packet starts a notification that takes the heads of the one
      it interrupts again, from the first on. */
  lemma {:induction false} NestedTakesAgain(s: State, done: seq<Answer>)
    requires Inv(s) && s.lastIdx != s.availIdx
    ensures |s.taken| < |s.posted| && Sized(Nested(s, done))
    ensures Nested(s, done).lastIdx != Nested(s, done).availIdx && Next(Nested(s, done)) == s.posted[|s.taken|]
    ensures done != [] ==> |s.taken| < |NotifyNet(s, done).taken| && NotifyNet(s, done).taken[|s.taken|] == s.posted[|s.taken|]
  {
    NextIsOldest(s);
    NetKeepsAvail(s, done);
    NetTakesInOrder(s, done);
  }

  /** One that comes between notifications finds the position where the last one left it, and takes only what is new. */
  lemma {:induction false} LaterTakesNew(s: State, done: seq<Answer>)
    requires Inv(s)
    ensures var r := NotifyNet(s, done);
            && Inv(r) && (r.lastIdx != r.availIdx <==> |r.taken| < |r.posted|)
            && (r.lastIdx != r.availIdx ==> Next(r) == r.posted[|r.taken|])
  {
    NetTakesInOrder(s, done);
    NextIsOldest(NotifyNet(s, done));
  }

  // ----- in place

  class VirtQueue {
    /** The rings in guest memory. */
    const avail: array<nat>
    const used: array<Used>
    var availIdx: nat
    var usedIdx: nat
    /** The device's own position. */
    var lastIdx: nat
    ghost var st: State

    /** The fields and the model agree, the device being at `idx`. */
    ghost predicate At(idx: nat)
      reads this, avail, used
    {
      && Inv(st)
      && st.avail == avail[..] && st.used == used[..] && st.availIdx == availIdx && st.usedIdx == usedIdx && st.lastIdx == idx
    }

    ghost predicate Valid()
      reads this, avail, used
    {
      At(lastIdx)
    }

    /** ring_used_add */
    method AddUsed(head: nat)
      requires st.used == used[..] && st.usedIdx == usedIdx && Sized(st)
      modifies this`usedIdx, used
      ensures used[..] == UsedAdd(st, head).used && usedIdx == UsedAdd(st, head).usedIdx
    {
      used[Slot(usedIdx, used.Length)] := Used(head, 0);
      usedIdx := (usedIdx + 1) % WRAP;
    }

    /** One turn of the transmit loops at `idx`, given what the backend answered. */
    method OneTurn(idx: nat, answer: Answer) returns (next: nat)
      requires At(idx) && idx != availIdx
      modifies this`usedIdx, this`st, used
      ensures At(next) && st == TakeOne(old(st), answer) && availIdx == old(availIdx)
    {
      TakeKeeps(st, answer);
      var head := avail[Slot(idx, avail.Length)];
      ghost var after := TakeOne(st, answer);
      if answer.Complete? {
        AddUsed(head);
      }
      st := after;
      next := (idx + 1) % WRAP;
    }

    /** emul_vsock_notify_tx */
    method NotifyVsockTx()
      requires Valid()
      modifies this`usedIdx, this`lastIdx, this`st, used
      ensures Valid() && st == NotifyVsock(old(st))
    {
      var guestIdx, idx := availIdx, lastIdx;
      while idx != guestIdx
        invariant At(idx) && guestIdx == availIdx && NotifyVsock(st) == NotifyVsock(old(st))
        decreases |st.posted| - |st.taken|
      {
        NextIsOldest(st);
        TakeKeeps(st, Complete);
        idx := OneTurn(idx, Complete);
      }
      lastIdx := idx;
    }

    /** emul_notify_tx */
    method NotifyNetTx(answers: seq<Answer>)
      requires Valid()
      modifies this`usedIdx, this`lastIdx, this`st, used
      ensures Valid() && st == NotifyNet(old(st), answers)
    {
      var guestIdx, idx, i := availIdx, lastIdx, 0;
      while idx != guestIdx && i < |answers|
        invariant i <= |answers| && At(idx) && guestIdx == availIdx
        invariant NotifyNet(st, answers[i..]) == NotifyNet(old(st), answers)
        decreases |answers| - i
      {
        assert answers[i..][1..] == answers[i + 1..];
        idx := OneTurn(idx, answers[i]);
        i := i + 1;
      }
      lastIdx := idx;
    }
  }
}
