/** The transmit queue without rings and indices: what becomes of each head, from the events alone. */
module VirtioEffects {
  import opened VirtioRing

  /** Heads waiting for the device, handed back in order, held by the backend, and given up in order. */
  datatype Flow = Flow(waiting: seq<nat>, returned: seq<nat>, held: multiset<nat>, lost: seq<nat>)

  /** The first waiting head goes where the backend's answer sends it. */
  function Answered(f: Flow, answer: Answer): Flow
    requires f.waiting != []
  {
    var head, rest := f.waiting[0], f.waiting[1..];
    match answer
    case Complete => Flow(rest, f.returned + [head], f.held, f.lost)
    case Enqueued => Flow(rest, f.returned, f.held + multiset{head}, f.lost)
    case Failed => Flow(rest, f.returned, f.held, f.lost + [head])
  }

  predicate CanFlow(f: Flow, e: Event) {
    match e
    case Post(_) => true
    case Turn(_) => f.waiting != []
    case Done(head) => head in f.held
  }

  function Flows(f: Flow, e: Event): Flow
    requires CanFlow(f, e)
  {
    match e
    case Post(head) => f.(waiting := f.waiting + [head])
    case Turn(answer) => Answered(f, answer)
    case Done(head) => f.(held := f.held - multiset{head}, returned := f.returned + [head])
  }

  function FlowOf(s: State): Flow
    requires |s.taken| <= |s.posted|
  {
    Flow(s.posted[|s.taken|..], s.returned, s.inFlight, s.dropped)
  }

  /** What the guest finds in the used ring: the heads handed back last, each in the slot of its number. */
  predicate GuestFinds(s: State, returned: seq<nat>)
    requires Sized(s)
  {
    && s.usedIdx == |returned| % WRAP
    && forall i | 0 <= i < |returned| < i + Num(s) + 1 :: s.used[Slot(i, Num(s))] == Used(returned[i], 0)
  }

  lemma {:induction false} TurnFlows(s: State, answer: Answer)
    requires Inv(s) && CanHappen(s, Turn(answer))
    ensures CanFlow(FlowOf(s), Turn(answer)) && |TakeOne(s, answer).taken| <= |s.posted|
    ensures FlowOf(TakeOne(s, answer)) == Answered(FlowOf(s), answer)
  {
    NextIsOldest(s);
    assert s.posted[|s.taken|..][1..] == s.posted[|s.taken| + 1..];
  }

  lemma {:induction false} StepFlows(s: State, e: Event)
    requires Inv(s) && CanHappen(s, e)
    ensures |Step(s, e).taken| <= |Step(s, e).posted|
    ensures CanFlow(FlowOf(s), e) && FlowOf(Step(s, e)) == Flows(FlowOf(s), e)
  {
    match e
    case Post(head) => assert (s.posted + [head])[|s.taken|..] == s.posted[|s.taken|..] + [head];
    case Turn(answer) => TurnFlows(s, answer);
    case Done(_) =>
  }

  predicate CanFlowAll(f: Flow, es: seq<Event>)
    decreases |es|
  {
    es == [] || (CanFlow(f, es[0]) && CanFlowAll(Flows(f, es[0]), es[1..]))
  }

  function FlowAll(f: Flow, es: seq<Event>): Flow
    requires CanFlowAll(f, es)
    decreases |es|
  {
    if es == [] then f else FlowAll(Flows(f, es[0]), es[1..])
  }

  /** Over any run the rings do what the plain queue does, and the guest finds what it has handed back. */
  lemma {:induction false} RunFlows(s: State, es: seq<Event>)
    requires Inv(s) && CanRun(s, es)
    ensures CanFlowAll(FlowOf(s), es)
    ensures var t := Run(s, es);
            && Inv(t) && FlowOf(t) == FlowAll(FlowOf(s), es) && GuestFinds(t, FlowAll(FlowOf(s), es).returned)
    decreases |es|
  {
    if es != [] {
      StepKeeps(s, es[0]);
      StepFlows(s, es[0]);
      RunFlows(Step(s, es[0]), es[1..]);
    }
  }

  /** A notification: each waiting head in turn, as long as there are answers. */
  function Notified(f: Flow, answers: seq<Answer>): Flow
    decreases |answers|
  {
    if f.waiting == [] || answers == [] then f else Notified(Answered(f, answers[0]), answers[1..])
  }

  lemma {:induction false} NotifyFlows(s: State, answers: seq<Answer>)
    requires Inv(s)
    ensures var r := NotifyNet(s, answers);
            Inv(r) && FlowOf(r) == Notified(FlowOf(s), answers) && GuestFinds(r, Notified(FlowOf(s), answers).returned)
    decreases |answers|
  {
    NextIsOldest(s);
    if s.lastIdx != s.availIdx && answers != [] {
      TakeKeeps(s, answers[0]);
      TurnFlows(s, answers[0]);
      NotifyFlows(TakeOne(s, answers[0]), answers[1..]);
    }
  }
}
