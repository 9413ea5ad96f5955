/** The exact condition under which each event keeps the vGIC invariant, and the invariant over whole
    runs. */
module VgicRuns {
  import opened Common
  import opened VgicModel
  import opened VgicSafety

  /** The exact condition for one event, in terms of the state before it. */
  predicate Good(s: State, e: Event)
    requires CanHappen(s, e)
  {
    match e
    case Inject(v, irq) => !(Accepts(s, v, irq) && QueueFull(s, v))
    case SetLevel(v, irq, b) =>
      !(b && Accepts(s, v, irq) && !Level(s, v, irq) && QueueFull(s, v))
    case Enable(v, irq) =>
      !(Registered(s, v, irq) && !Pending(s, v, irq) && Level(s, v, irq) && !s.edge[irq] && s.on && QueueFull(s, v))
    case Maintain(v, idx) =>
      !(Reinjects(s, v, s.vcpus[v].lr[idx].value) && s.vcpus[v].queue != [])
    case ClearPending(v, irq) => !Pending(s, v, irq)
    case _ => true
  }

  lemma {:induction false} SetLevelKeepsIff(s: State, v: nat, irq: nat, b: bool)
    requires Inv(s) && OnVcpu(s, v, irq)
    ensures Inv(SetIrqLevel(s, v, irq, b).state) <==> Good(s, SetLevel(v, irq, b))
  {
    if Registered(s, v, irq) {
      var s1 := WithLevel(s, v, irq, b);
      WithLevelSame(s, v, irq, b);
      SameDeliveryKeeps(s, s1);
      InjectKeepsIff(s1, v, irq);
    }
  }

  lemma {:induction false} HandleLevelKeepsIff(s: State, v: nat, irq: nat)
    requires Inv(s) && OnVcpu(s, v, irq) && Registered(s, v, irq) && !Pending(s, v, irq)
    ensures Inv(HandleLevel(s, v, irq)) <==> !(Reinjects(s, v, irq) && QueueFull(s, v))
  {
    WithLevelSame(s, v, irq, false);
    SameDeliveryKeeps(s, WithLevel(s, v, irq, false));
    InjectKeepsIff(s, v, irq);
  }

  lemma {:induction false} EnableKeepsIff(s: State, v: nat, irq: nat)
    requires Inv(s) && OnVcpu(s, v, irq)
    ensures Inv(EnableIrq(s, v, irq)) <==> Good(s, Enable(v, irq))
  {
    var s1 := SetEnabled(s, v, irq, true);
    assert SameDelivery(s, s1);
    SameDeliveryKeeps(s, s1);
    if Registered(s, v, irq) && !Pending(s, v, irq) {
      HandleLevelKeepsIff(s1, v, irq);
    }
  }

  lemma {:induction false} ClearPendingKeepsIff(s: State, v: nat, irq: nat)
    requires Inv(s) && OnVcpu(s, v, irq)
    ensures Inv(SetPending(s, v, irq, false)) <==> !Pending(s, v, irq)
  {
    var r := SetPending(s, v, irq, false);
    assert Places(r, v, irq) == Places(s, v, irq) == Bit(Pending(s, v, irq));
    assert !Pending(r, v, irq);
    if !Pending(s, v, irq) {
      assert irq < NUM_LOCAL_VIRQS ==> s.pending0[v][irq := false] == s.pending0[v];
      assert r == s;
    }
  }

  /** Every event keeps the invariant exactly when its condition holds. */
  lemma {:induction false} StepKeepsIff(s: State, e: Event)
    requires Inv(s) && CanHappen(s, e)
    ensures Inv(Step(s, e)) <==> Good(s, e)
  {
    match e
    case Register(v, irq) =>
      RegisterSame(s, v, irq);
      SameDeliveryKeeps(s, Step(s, e));
    case Inject(v, irq) => InjectKeepsIff(s, v, irq);
    case SetLevel(v, irq, b) => SetLevelKeepsIff(s, v, irq, b);
    case Enable(v, irq) => EnableKeepsIff(s, v, irq);
    case Disable(v, irq) =>
      assert SameDelivery(s, Step(s, e));
      SameDeliveryKeeps(s, Step(s, e));
    case Maintain(v, idx) => MaintainKeepsIff(s, v, idx);
    case ClearPending(v, irq) => ClearPendingKeepsIff(s, v, irq);
    case Power(on) =>
      assert SameDelivery(s, Step(s, e));
      SameDeliveryKeeps(s, Step(s, e));
    case Configure(irq, edge) =>
      assert SameDelivery(s, Step(s, e));
      SameDeliveryKeeps(s, Step(s, e));
  }

  lemma {:induction false} TotalOfIdle(cs: seq<Vcpu>, irq: nat)
    requires forall w | 0 <= w < |cs| :: Count(cs[w], irq) == 0
    ensures Total(cs, irq) == 0
  {
    if cs != [] {
      TotalOfIdle(cs[1..], irq);
    }
  }

  lemma {:induction false} ResetInv(n: nat)
    ensures Inv(Reset(n))
  {
    var s := Reset(n);
    forall w, x: nat | 0 <= w < n ensures Count(s.vcpus[w], x) == 0 {
      assert Some(x) !in multiset(s.vcpus[w].lr);
    }
    forall w, x: nat | 0 <= w < n && x < NUM_IRQS ensures Places(s, w, x) == Bit(Pending(s, w, x)) {
      TotalOfIdle(s.vcpus, x);
    }
  }

  // ----- whole runs

  predicate GoodRun(s: State, es: seq<Event>)
    requires CanRun(s, es)
    decreases |es|
  {
    es == [] || (Good(s, es[0]) && GoodRun(Step(s, es[0]), es[1..]))
  }

  lemma {:induction false} RunKeeps(s: State, es: seq<Event>)
    requires Inv(s) && CanRun(s, es) && GoodRun(s, es)
    ensures Inv(Run(s, es))
    decreases |es|
  {
    if es != [] {
      StepKeepsIff(s, es[0]);
      RunKeeps(Step(s, es[0]), es[1..]);
    }
  }

  /** A place a handle can sit in. */
  datatype Place = InRegister(v: nat, i: nat) | InQueue(v: nat, k: nat)

  ghost predicate Sits(s: State, p: Place, irq: nat) {
    match p
    case InRegister(v, i) => v < |s.vcpus| && i < |s.vcpus[v].lr| && s.vcpus[v].lr[i] == Some(irq)
    case InQueue(v, k) => v < |s.vcpus| && k < |s.vcpus[v].queue| && s.vcpus[v].queue[k] == irq
  }

  /** In every state a good run reaches, an irq is pending exactly when its handle sits in one place
      (an SGI or PPI: on its own vCPU), and then in only one; and a vCPU's queue is used only while
      all of its list registers are. */
  lemma {:induction false} PendingIffExactlyOnePlace(n: nat, es: seq<Event>, v: nat, irq: nat)
    requires CanRun(Reset(n), es) && GoodRun(Reset(n), es)
    requires OnVcpu(Run(Reset(n), es), v, irq)
    ensures var s := Run(Reset(n), es);
            && (Pending(s, v, irq) <==> exists p :: Sits(s, p, irq) && (irq < NUM_LOCAL_VIRQS ==> p.v == v))
            && (forall p, q | Sits(s, p, irq) && Sits(s, q, irq) && (irq < NUM_LOCAL_VIRQS ==> p.v == q.v) :: p == q)
            && (s.vcpus[v].queue != [] ==> forall i | 0 <= i < NUM_LIST_REGS :: s.vcpus[v].lr[i].Some?)
  {
    ResetInv(n);
    RunKeeps(Reset(n), es);
    var s := Run(Reset(n), es);
    assert Places(s, v, irq) == Bit(Pending(s, v, irq));
    if Pending(s, v, irq) {
      var w := v;
      if irq >= NUM_LOCAL_VIRQS {
        w := WhereTotal(s.vcpus, irq);
      }
      var p := WhereCount(s, w, irq);
      assert Sits(s, p, irq) && p.v == w;
    }
    forall p | Sits(s, p, irq) ensures Count(s.vcpus[p.v], irq) == 1 && (irq < NUM_LOCAL_VIRQS && p.v == v ==> Pending(s, v, irq)) && (irq >= NUM_LOCAL_VIRQS ==> Pending(s, v, irq)) {
      SitsCounts(s, p, irq);
      HeldOnce(s, p.v, irq);
    }
    forall p, q | Sits(s, p, irq) && Sits(s, q, irq) && (irq < NUM_LOCAL_VIRQS ==> p.v == q.v) ensures p == q {
      if p.v == q.v {
        SitsUnique(s, p, q, irq);
      } else {
        TwoVcpus(s.vcpus, p.v, q.v, irq);
      }
    }
  }

  lemma {:induction false} WhereTotal(cs: seq<Vcpu>, irq: nat) returns (w: nat)
    requires Total(cs, irq) > 0
    ensures w < |cs| && Count(cs[w], irq) > 0
  {
    if Count(cs[0], irq) > 0 {
      w := 0;
    } else {
      w := WhereTotal(cs[1..], irq);
      w := w + 1;
    }
  }

  lemma {:induction false} WhereCount(s: State, w: nat, irq: nat) returns (p: Place)
    requires w < |s.vcpus| && Count(s.vcpus[w], irq) > 0
    ensures Sits(s, p, irq) && p.v == w
  {
    var c := s.vcpus[w];
    if Some(irq) in multiset(c.lr) {
      assert Some(irq) in c.lr;
      var i :| 0 <= i < |c.lr| && c.lr[i] == Some(irq);
      p := InRegister(w, i);
    } else {
      assert irq in multiset(c.queue);
      assert irq in c.queue;
      var k :| 0 <= k < |c.queue| && c.queue[k] == irq;
      p := InQueue(w, k);
    }
  }

  lemma {:induction false} SitsCounts(s: State, p: Place, irq: nat)
    requires Sits(s, p, irq)
    ensures Count(s.vcpus[p.v], irq) > 0
  {
    match p
    case InRegister(v, i) => assert Some(irq) in multiset(s.vcpus[v].lr);
    case InQueue(v, k) => assert irq in multiset(s.vcpus[v].queue);
  }

  /** An element at two positions of a sequence has multiplicity at least two. */
  lemma {:induction false} TwicePresent<T>(q: seq<T>, i: nat, j: nat)
    requires i < j < |q| && q[i] == q[j]
    ensures multiset(q)[q[i]] >= 2
  {
    assert q == q[..j] + q[j..];
    assert q[i] in multiset(q[..j]) by { assert q[..j][i] == q[i]; }
    assert q[j] in multiset(q[j..]) by { assert q[j..][0] == q[j]; }
  }

  lemma {:induction false} SitsUnique(s: State, p: Place, q: Place, irq: nat)
    requires Sits(s, p, irq) && Sits(s, q, irq) && p.v == q.v && Count(s.vcpus[p.v], irq) == 1
    ensures p == q
  {
    var c := s.vcpus[p.v];
    assert p.InRegister? || q.InRegister? ==> Some(irq) in multiset(c.lr);
    assert p.InQueue? || q.InQueue? ==> irq in multiset(c.queue);
    if p.InRegister? && q.InRegister? && p.i != q.i {
      TwicePresent(c.lr, if p.i < q.i then p.i else q.i, if p.i < q.i then q.i else p.i);
    } else if p.InQueue? && q.InQueue? && p.k != q.k {
      TwicePresent(c.queue, if p.k < q.k then p.k else q.k, if p.k < q.k then q.k else p.k);
    }
  }

  lemma {:induction false} TwoVcpus(cs: seq<Vcpu>, v: nat, w: nat, irq: nat)
    requires v < |cs| && w < |cs| && v != w && Count(cs[v], irq) > 0 && Count(cs[w], irq) > 0
    ensures Total(cs, irq) >= 2
  {
    if v == 0 {
      TotalBounds(cs[1..], w - 1, irq);
    } else if w == 0 {
      TotalBounds(cs[1..], v - 1, irq);
    } else {
      TwoVcpus(cs[1..], v - 1, w - 1, irq);
    }
  }
}
