/** The delegation lock: a caller pushes its critical section as a tasklet; one thread at a
    time processes the queue, and hands the processing over after a while. */
module DelegationMutex {
  import opened Options
  import opened Sequences
  import opened TaskQueue

  datatype Done = PENDING | DONE | HANDOVER

  const HANDOVER_COUNT := 100

  /** Where a thread stands. `call` is its own call of `atomic`, `budget` the handover count,
      `ran` the sections that this run of `process` has finished, `msg` the tasklet in hand. */
  datatype Pc =
    | Idle
    | Waiting(call: nat)
    | Pulling(call: nat, budget: nat, ran: nat)
    | Pulled(call: nat, budget: nat, ran: nat, msg: nat)
    | InSection(call: nat, budget: nat, ran: nat, msg: nat, last: bool)
    | Storing(call: nat, budget: nat, ran: nat, msg: nat, last: bool)
    | Releasing(call: nat, budget: nat, ran: nat)
  {
    predicate IsProcessing() { !Idle? && !Waiting? }
  }

  /** A call of `atomic`: its thread, its done flag, the handover mark in its tasklet and how
      often its section was started. */
  datatype CallData = CallData(thread: nat, done: Done, mark: bool, runs: nat)

  /** Calls are named by their index. */
  datatype State = State(queue: Queue, calls: seq<CallData>, threads: map<nat, Pc>) {
    function Pc(p: nat): Pc { if p in threads then threads[p] else Idle }
    function Goto(p: nat, pc: Pc): State { this.(threads := threads[p := pc]) }
    function Set(c: nat, d: CallData): State
      requires c < |calls|
    {
      this.(calls := calls[c := d])
    }
  }

  const INIT := State(EMPTY_QUEUE, [], map[])

  /** Builds with assertions clear the mark when a tasklet starts to run; release builds,
      where `setUnused` is empty, do not. */
  datatype Variant = Release | Debug

  datatype Act = Call(p: nat) | Proceed(p: nat)

  /** The calls that a thread refers to exist. */
  predicate PcOk(s: State, pc: Pc) {
    && (!pc.Idle? ==> pc.call < |s.calls|)
    && (pc.Pulled? || pc.InSection? || pc.Storing? ==> pc.msg < |s.calls|)
  }

  predicate Enabled(s: State, a: Act) {
    match a
    case Call(p) => s.Pc(p).Idle?
    case Proceed(p) => !s.Pc(p).Idle? && PcOk(s, s.Pc(p))
  }

  function Do(v: Variant, s: State, a: Act): State
    requires Enabled(s, a)
  {
    match a
    case Call(p) =>
      var c := |s.calls|;
      s.(queue := s.queue.Push(c), calls := s.calls + [CallData(p, PENDING, false, 0)])
       .Goto(p, if s.queue.held then Waiting(c) else Pulling(c, HANDOVER_COUNT, 0))
    case Proceed(p) => Step(v, s, p)
  }

  function Step(v: Variant, s: State, p: nat): State
    requires Enabled(s, Proceed(p))
  {
    match s.Pc(p)
    case Waiting(c) =>
      (match s.calls[c].done
       case PENDING => s
       case DONE => s.Goto(p, Idle)
       case HANDOVER => s.Goto(p, Pulling(c, HANDOVER_COUNT, 0)))
    case Pulling(c, b, r) =>
      s.(queue := s.queue.Pull())
       .Goto(p, match s.queue.PullResult() case Some(m) => Pulled(c, b, r, m) case None => Releasing(c, b, r))
    case Pulled(c, b, r, m) =>
      s.Set(m, s.calls[m].(mark := b == 0 && v == Release, runs := s.calls[m].runs + 1))
       .Goto(p, if b == 0 then InSection(c, b, r, m, true) else InSection(c, b - 1, r, m, false))
    case InSection(c, b, r, m, last) => s.Goto(p, Storing(c, b, r, m, last))
    case Storing(c, b, r, m, last) =>
      s.Set(m, s.calls[m].(done := if s.calls[m].mark then HANDOVER else DONE))
       .Goto(p, if last then Idle else Pulling(c, b, r + 1))
    case Releasing(c, b, r) =>
      s.(queue := s.queue.TryRelease()).Goto(p, if s.queue.incoming == [] then Idle else Pulling(c, b, r))
  }

  predicate Legal(v: Variant, s: State, acts: seq<Act>)
    decreases |acts|
  {
    acts == [] || (Enabled(s, acts[0]) && Legal(v, Do(v, s, acts[0]), acts[1..]))
  }

  function After(v: Variant, s: State, acts: seq<Act>): State
    requires Legal(v, s, acts)
    decreases |acts|
  {
    if acts == [] then s else After(v, Do(v, s, acts[0]), acts[1..])
  }

  lemma {:induction false} RunThenStep(v: Variant, s: State, acts: seq<Act>, a: Act)
    requires Legal(v, s, acts) && Enabled(After(v, s, acts), a)
    ensures Legal(v, s, acts + [a]) && After(v, s, acts + [a]) == Do(v, After(v, s, acts), a)
    decreases |acts|
  {
    if acts == [] {
      assert (acts + [a])[1..] == [];
    } else {
      RunThenStep(v, Do(v, s, acts[0]), acts[1..], a);
      assert (acts + [a])[1..] == acts[1..] + [a];
    }
  }

  // ---------------------------------------------------------------- invariant

  /** The thread processes the queue, or waits and has been told to take over. */
  predicate Owns(s: State, p: nat) {
    s.Pc(p).IsProcessing()
    || (s.Pc(p).Waiting? && s.Pc(p).call < |s.calls| && s.calls[s.Pc(p).call].done == HANDOVER)
  }

  /** The tasklet that the owner has taken out of the queue and not finished. */
  function InHand(pc: Pc): Option<nat> {
    match pc
    case Pulled(c, b, r, m) => Some(m)
    case InSection(c, b, r, m, last) => Some(m)
    case Storing(c, b, r, m, last) => Some(m)
    case _ => None
  }

  /** The section was started. */
  predicate Started(pc: Pc) { pc.InSection? || pc.Storing? }

  function OwnerPc(s: State, owner: Option<nat>): Pc {
    if owner.Some? then s.Pc(owner.value) else Idle
  }

  ghost predicate QueueOk(s: State) {
    var q := s.queue.Items();
    && Distinct(q)
    && (forall c :: c in q ==> c < |s.calls|)
    && (!s.queue.held ==> q == [])
  }

  /** A thread is in a call that exists and is its own. */
  predicate ThreadOk(s: State, p: nat) {
    PcOk(s, s.Pc(p)) && (!s.Pc(p).Idle? ==> s.calls[s.Pc(p).call].thread == p)
  }

  /** A call is queued, in the owner's hand or finished; while it is pending its thread is
      still in it. */
  ghost predicate CallOk(s: State, pc: Pc, c: nat)
    requires c < |s.calls|
  {
    var d, hand := s.calls[c], InHand(pc) == Some(c);
    && (d.done == PENDING <==> c in s.queue.Items() || hand)
    && !(c in s.queue.Items() && hand)
    && d.runs == (if c in s.queue.Items() || (hand && !Started(pc)) then 0 else 1)
    && (d.done == PENDING ==> !s.Pc(d.thread).Idle? && s.Pc(d.thread).call == c)
  }

  /** The owner's budget, and that its own section comes first. */
  predicate BudgetOk(s: State, pc: Pc)
    requires PcOk(s, pc)
  {
    match pc
    case Pulling(c, b, r) =>
      && b + r == HANDOVER_COUNT
      && (s.calls[c].done == PENDING ==> r == 0 && s.queue.Items() != [] && s.queue.Items()[0] == c)
    case Pulled(c, b, r, m) => b + r == HANDOVER_COUNT && (s.calls[c].done == PENDING ==> r == 0 && m == c)
    case InSection(c, b, r, m, last) => SectionOk(s, pc)
    case Storing(c, b, r, m, last) => SectionOk(s, pc)
    case Releasing(c, b, r) => b + r == HANDOVER_COUNT && s.calls[c].done != PENDING && s.queue.local == []
    case _ => true
  }

  predicate SectionOk(s: State, pc: Pc)
    requires PcOk(s, pc) && Started(pc)
  {
    && s.calls[pc.msg].mark == pc.last
    && pc.budget + pc.ran == (if pc.last then HANDOVER_COUNT else HANDOVER_COUNT - 1)
    && (pc.last ==> pc.budget == 0)
    && (s.calls[pc.call].done == PENDING ==> pc.msg == pc.call && !pc.last)
  }

  ghost predicate Inv(s: State, owner: Option<nat>) {
    && QueueOk(s)
    && (s.queue.held <==> owner.Some?)
    && (forall p: nat :: ThreadOk(s, p))
    && (forall p: nat :: Owns(s, p) <==> owner == Some(p))
    && (forall c :: 0 <= c < |s.calls| ==> CallOk(s, OwnerPc(s, owner), c))
    && PcOk(s, OwnerPc(s, owner)) && BudgetOk(s, OwnerPc(s, owner))
  }

  /** Who owns the queue next. */
  function NextOwner(s: State, a: Act, owner: Option<nat>): Option<nat>
    requires Enabled(s, a)
  {
    match a
    case Call(p) => if s.queue.held then owner else Some(p)
    case Proceed(p) =>
      match s.Pc(p)
      case Storing(c, b, r, m, last) => if last then Some(s.calls[m].thread) else owner
      case Releasing(c, b, r) => if s.queue.incoming == [] then None else owner
      case _ => owner
  }

  lemma CallThreads(s: State, owner: Option<nat>, p: nat)
    requires Inv(s, owner) && Enabled(s, Call(p))
    ensures
      var s', owner' := Do(Release, s, Call(p)), NextOwner(s, Call(p), owner);
      forall q: nat :: ThreadOk(s', q) && (Owns(s', q) <==> owner' == Some(q))
  {
    var s', owner' := Do(Release, s, Call(p)), NextOwner(s, Call(p), owner);
    forall q: nat
      ensures ThreadOk(s', q) && (Owns(s', q) <==> owner' == Some(q))
    {
      assert ThreadOk(s, q) && (Owns(s, q) <==> owner == Some(q));
    }
  }

  lemma CallQueue(s: State, p: nat)
    requires QueueOk(s) && Enabled(s, Call(p))
    ensures
      var s' := Do(Release, s, Call(p));
      QueueOk(s') && forall c :: c in s'.queue.Items() <==> c in s.queue.Items() || c == |s.calls|
  {
    assert s.queue.Push(|s.calls|).Items() == s.queue.Items() + [|s.calls|];
    DistinctSnoc(s.queue.Items(), |s.calls|);
  }

  lemma CallCalls(s: State, owner: Option<nat>, p: nat)
    requires Inv(s, owner) && Enabled(s, Call(p))
    ensures
      var s', owner' := Do(Release, s, Call(p)), NextOwner(s, Call(p), owner);
      QueueOk(s') && forall c :: 0 <= c < |s'.calls| ==> CallOk(s', OwnerPc(s', owner'), c)
  {
    var s', owner' := Do(Release, s, Call(p)), NextOwner(s, Call(p), owner);
    assert Owns(s, p) <==> owner == Some(p);
    CallQueue(s, p);
    assert PcOk(s, OwnerPc(s, owner));
    forall c | 0 <= c < |s'.calls|
      ensures CallOk(s', OwnerPc(s', owner'), c)
    {
      assert c < |s.calls| ==> CallOk(s, OwnerPc(s, owner), c);
    }
  }

  lemma CallInv(s: State, owner: Option<nat>, p: nat)
    requires Inv(s, owner) && Enabled(s, Call(p))
    ensures Inv(Do(Release, s, Call(p)), NextOwner(s, Call(p), owner))
  {
    assert Owns(s, p) <==> owner == Some(p);
    CallThreads(s, owner, p);
    CallCalls(s, owner, p);
  }

  lemma WaitingInv(s: State, owner: Option<nat>, p: nat)
    requires Inv(s, owner) && Enabled(s, Proceed(p)) && s.Pc(p).Waiting?
    ensures Inv(Do(Release, s, Proceed(p)), NextOwner(s, Proceed(p), owner))
  {
    var s', owner' := Do(Release, s, Proceed(p)), NextOwner(s, Proceed(p), owner);
    assert ThreadOk(s, p) && (Owns(s, p) <==> owner == Some(p));
    forall q: nat
      ensures ThreadOk(s', q) && (Owns(s', q) <==> owner' == Some(q))
    {
      assert ThreadOk(s, q) && (Owns(s, q) <==> owner == Some(q));
    }
    forall c | 0 <= c < |s'.calls|
      ensures CallOk(s', OwnerPc(s', owner'), c)
    {
      assert c < |s.calls| ==> CallOk(s, OwnerPc(s, owner), c);
    }
  }

  lemma PullingThreads(s: State, owner: Option<nat>, p: nat)
    requires Inv(s, owner) && Enabled(s, Proceed(p)) && s.Pc(p).Pulling?
    ensures
      var s' := Do(Release, s, Proceed(p));
      forall q: nat :: ThreadOk(s', q) && (Owns(s', q) <==> owner == Some(q))
  {
    var s' := Do(Release, s, Proceed(p));
    PullTakesOldest(s.queue);
    assert s.queue.Items() != [] ==> s.queue.Items()[0] in s.queue.Items();
    forall q: nat
      ensures ThreadOk(s', q) && (Owns(s', q) <==> owner == Some(q))
    {
      assert ThreadOk(s, q) && (Owns(s, q) <==> owner == Some(q));
    }
  }

  lemma PullingCalls(s: State, owner: Option<nat>, p: nat)
    requires Inv(s, owner) && Enabled(s, Proceed(p)) && s.Pc(p).Pulling?
    ensures
      var s' := Do(Release, s, Proceed(p));
      QueueOk(s') && forall c :: 0 <= c < |s'.calls| ==> CallOk(s', OwnerPc(s', owner), c)
  {
    var s' := Do(Release, s, Proceed(p));
    assert Owns(s, p) <==> owner == Some(p);
    PullTakesOldest(s.queue);
    if s.queue.Items() != [] {
      DistinctTail(s.queue.Items());
      assert s'.queue.Items() == s.queue.Items()[1..];
    }
    forall c | 0 <= c < |s'.calls|
      ensures CallOk(s', OwnerPc(s', owner), c)
    {
      assert CallOk(s, OwnerPc(s, owner), c);
    }
  }

  lemma PullingInv(s: State, owner: Option<nat>, p: nat)
    requires Inv(s, owner) && Enabled(s, Proceed(p)) && s.Pc(p).Pulling?
    ensures Inv(Do(Release, s, Proceed(p)), NextOwner(s, Proceed(p), owner))
  {
    assert ThreadOk(s, p) && (Owns(s, p) <==> owner == Some(p));
    PullTakesOldest(s.queue);
    PullingThreads(s, owner, p);
    PullingCalls(s, owner, p);
  }

  lemma PulledInv(s: State, owner: Option<nat>, p: nat)
    requires Inv(s, owner) && Enabled(s, Proceed(p)) && s.Pc(p).Pulled?
    ensures Inv(Do(Release, s, Proceed(p)), NextOwner(s, Proceed(p), owner))
  {
    var s', owner' := Do(Release, s, Proceed(p)), NextOwner(s, Proceed(p), owner);
    assert ThreadOk(s, p) && (Owns(s, p) <==> owner == Some(p));
    forall q: nat
      ensures ThreadOk(s', q) && (Owns(s', q) <==> owner' == Some(q))
    {
      assert ThreadOk(s, q) && (Owns(s, q) <==> owner == Some(q));
    }
    forall c | 0 <= c < |s'.calls|
      ensures CallOk(s', OwnerPc(s', owner'), c)
    {
      assert c < |s.calls| ==> CallOk(s, OwnerPc(s, owner), c);
    }
  }

  lemma InSectionInv(s: State, owner: Option<nat>, p: nat)
    requires Inv(s, owner) && Enabled(s, Proceed(p)) && s.Pc(p).InSection?
    ensures Inv(Do(Release, s, Proceed(p)), NextOwner(s, Proceed(p), owner))
  {
    var s', owner' := Do(Release, s, Proceed(p)), NextOwner(s, Proceed(p), owner);
    assert ThreadOk(s, p) && (Owns(s, p) <==> owner == Some(p));
    forall q: nat
      ensures ThreadOk(s', q) && (Owns(s', q) <==> owner' == Some(q))
    {
      assert ThreadOk(s, q) && (Owns(s, q) <==> owner == Some(q));
    }
    forall c | 0 <= c < |s'.calls|
      ensures CallOk(s', OwnerPc(s', owner'), c)
    {
      assert c < |s.calls| ==> CallOk(s, OwnerPc(s, owner), c);
    }
  }

  lemma StoringInv(s: State, owner: Option<nat>, p: nat)
    requires Inv(s, owner) && Enabled(s, Proceed(p)) && s.Pc(p).Storing?
    ensures Inv(Do(Release, s, Proceed(p)), NextOwner(s, Proceed(p), owner))
  {
    var s', owner' := Do(Release, s, Proceed(p)), NextOwner(s, Proceed(p), owner);
    assert ThreadOk(s, p) && (Owns(s, p) <==> owner == Some(p));
    var heir := s.calls[s.Pc(p).msg].thread;
    assert CallOk(s, s.Pc(p), s.Pc(p).msg) && (Owns(s, heir) <==> owner == Some(heir));
    forall q: nat
      ensures ThreadOk(s', q) && (Owns(s', q) <==> owner' == Some(q))
    {
      assert ThreadOk(s, q) && (Owns(s, q) <==> owner == Some(q));
    }
    forall c | 0 <= c < |s'.calls|
      ensures CallOk(s', OwnerPc(s', owner'), c)
    {
      assert c < |s.calls| ==> CallOk(s, OwnerPc(s, owner), c);
    }
  }

  lemma ReleasingInv(s: State, owner: Option<nat>, p: nat)
    requires Inv(s, owner) && Enabled(s, Proceed(p)) && s.Pc(p).Releasing?
    ensures Inv(Do(Release, s, Proceed(p)), NextOwner(s, Proceed(p), owner))
  {
    var s', owner' := Do(Release, s, Proceed(p)), NextOwner(s, Proceed(p), owner);
    assert ThreadOk(s, p) && (Owns(s, p) <==> owner == Some(p));
    assert s'.queue.Items() == s.queue.Items();
    forall q: nat
      ensures ThreadOk(s', q) && (Owns(s', q) <==> owner' == Some(q))
    {
      assert ThreadOk(s, q) && (Owns(s, q) <==> owner == Some(q));
    }
    forall c | 0 <= c < |s'.calls|
      ensures CallOk(s', OwnerPc(s', owner'), c)
    {
      assert c < |s.calls| ==> CallOk(s, OwnerPc(s, owner), c);
    }
  }

  lemma StepInv(s: State, owner: Option<nat>, a: Act)
    requires Inv(s, owner) && Enabled(s, a)
    ensures Inv(Do(Release, s, a), NextOwner(s, a, owner))
  {
    match a
    case Call(p) => CallInv(s, owner, p);
    case Proceed(p) =>
      match s.Pc(p)
      case Waiting(c) => WaitingInv(s, owner, p);
      case Pulling(c, b, r) => PullingInv(s, owner, p);
      case Pulled(c, b, r, m) => PulledInv(s, owner, p);
      case InSection(c, b, r, m, last) => InSectionInv(s, owner, p);
      case Storing(c, b, r, m, last) => StoringInv(s, owner, p);
      case Releasing(c, b, r) => ReleasingInv(s, owner, p);
  }

  lemma {:induction false} RunInv(s: State, owner: Option<nat>, acts: seq<Act>) returns (owner': Option<nat>)
    requires Inv(s, owner) && Legal(Release, s, acts)
    ensures Inv(After(Release, s, acts), owner')
    decreases |acts|
  {
    owner' := owner;
    if acts != [] {
      StepInv(s, owner, acts[0]);
      owner' := RunInv(Do(Release, s, acts[0]), NextOwner(s, acts[0], owner), acts[1..]);
    }
  }

  // ------------------------------------------------------------------ theorems

  /** In every interleaving of any number of threads: no two threads are in a critical
      section; a section is started at most once, and exactly once when its call has
      returned; a run of `process` executes at most 101 sections. */
  lemma MutualExclusion(acts: seq<Act>, p: nat, q: nat, c: nat)
    requires Legal(Release, INIT, acts)
    ensures
      var s := After(Release, INIT, acts);
      && (s.Pc(p).InSection? && s.Pc(q).InSection? ==> p == q)
      && (c < |s.calls| ==> s.calls[c].runs <= 1)
      && (c < |s.calls| && (s.Pc(s.calls[c].thread).Idle? || s.Pc(s.calls[c].thread).call != c) ==>
            s.calls[c].runs == 1 && s.calls[c].done != PENDING)
      && (s.Pc(p).InSection? ==> s.Pc(p).ran + 1 <= 101)
  {
    var owner := RunInv(INIT, None, acts);
    var s := After(Release, INIT, acts);
    assert (Owns(s, p) <==> owner == Some(p)) && (Owns(s, q) <==> owner == Some(q));
    assert c < |s.calls| ==> CallOk(s, OwnerPc(s, owner), c);
  }

  lemma PendingHasOwner(s: State, owner: Option<nat>, c: nat)
    requires Inv(s, owner) && c < |s.calls| && s.calls[c].done == PENDING
    ensures owner.Some? && Enabled(s, Proceed(owner.value))
  {
    assert CallOk(s, OwnerPc(s, owner), c);
    assert Owns(s, owner.value) && ThreadOk(s, owner.value);
  }

  /** The queue is free, or exactly one thread owns it: it processes, or it waits and its call
      was marked for taking over. While a call is pending, somebody owns the queue. */
  lemma OwnershipIsUnique(acts: seq<Act>) returns (owner: Option<nat>)
    requires Legal(Release, INIT, acts)
    ensures
      var s := After(Release, INIT, acts);
      && (owner.None? <==> !s.queue.held)
      && (forall p: nat :: Owns(s, p) <==> owner == Some(p))
      && (forall c | 0 <= c < |s.calls| && s.calls[c].done == PENDING :: owner.Some?)
  {
    owner := RunInv(INIT, None, acts);
    var s := After(Release, INIT, acts);
    forall c | 0 <= c < |s.calls| && s.calls[c].done == PENDING
      ensures owner.Some?
    {
      PendingHasOwner(s, owner, c);
    }
  }

  // ---------------------------------------------------------- order of sections

  /** The callers of a run, in the order of their calls. */
  function Callers(acts: seq<Act>): seq<nat> {
    if acts == [] then [] else (if acts[0].Call? then [acts[0].p] else []) + Callers(acts[1..])
  }

  /** The threads of all calls. */
  function Threads(calls: seq<CallData>): seq<nat> { seq(|calls|, i requires 0 <= i < |calls| => calls[i].thread) }

  lemma StepCalls(v: Variant, s: State, a: Act)
    requires Enabled(s, a)
    ensures Threads(Do(v, s, a).calls) == Threads(s.calls) + if a.Call? then [a.p] else []
  {
  }

  lemma {:induction false} RunCalls(v: Variant, s: State, acts: seq<Act>)
    requires Legal(v, s, acts)
    ensures Threads(After(v, s, acts).calls) == Threads(s.calls) + Callers(acts)
    decreases |acts|
  {
    if acts != [] {
      StepCalls(v, s, acts[0]);
      RunCalls(v, Do(v, s, acts[0]), acts[1..]);
      Concat(Threads(s.calls), if acts[0].Call? then [acts[0].p] else [], Callers(acts[1..]));
    }
  }

  /** The queue holds the latest calls, and the owner has the one before them in hand. */
  ghost predicate InLine(s: State, pc: Pc) {
    var q := s.queue.Items();
    && (forall i :: 0 <= i < |q| ==> q[i] == |s.calls| - |q| + i)
    && (InHand(pc).Some? ==> InHand(pc).value == |s.calls| - |q| - 1)
  }

  lemma PullInLine(s: State, owner: Option<nat>, p: nat)
    requires Inv(s, owner) && InLine(s, OwnerPc(s, owner)) && Enabled(s, Proceed(p)) && s.Pc(p).Pulling?
    ensures InLine(Step(Release, s, p), OwnerPc(Step(Release, s, p), owner))
  {
    assert Owns(s, p) <==> owner == Some(p);
    PullTakesOldest(s.queue);
    if s.queue.Items() != [] {
      assert s.queue.Items()[0] == s.queue.PullResult().value;
      assert s.queue.Pull().Items() == s.queue.Items()[1..];
    }
  }

  lemma StepInLine(s: State, owner: Option<nat>, a: Act)
    requires Inv(s, owner) && InLine(s, OwnerPc(s, owner)) && Enabled(s, a)
    ensures InLine(Do(Release, s, a), OwnerPc(Do(Release, s, a), NextOwner(s, a, owner)))
  {
    var s' := Do(Release, s, a);
    assert Owns(s, a.p) <==> owner == Some(a.p);
    if a.Call? {
      assert s'.queue.Items() == s.queue.Items() + [|s.calls|];
    } else if s.Pc(a.p).Pulling? {
      PullInLine(s, owner, a.p);
    } else {
      assert s'.queue.Items() == s.queue.Items() && |s'.calls| == |s.calls|;
      if s.Pc(a.p).Storing? {
        assert CallOk(s, s.Pc(a.p), s.Pc(a.p).msg);
        var heir := s.calls[s.Pc(a.p).msg].thread;
        assert ThreadOk(s, heir) && (Owns(s, heir) <==> owner == Some(heir));
      }
    }
  }

  lemma {:induction false} RunInLine(s: State, owner: Option<nat>, acts: seq<Act>) returns (owner': Option<nat>)
    requires Inv(s, owner) && InLine(s, OwnerPc(s, owner)) && Legal(Release, s, acts)
    ensures Inv(After(Release, s, acts), owner')
    ensures InLine(After(Release, s, acts), OwnerPc(After(Release, s, acts), owner'))
    decreases |acts|
  {
    owner' := owner;
    if acts != [] {
      StepInv(s, owner, acts[0]);
      StepInLine(s, owner, acts[0]);
      owner' := RunInLine(Do(Release, s, acts[0]), NextOwner(s, acts[0], owner), acts[1..]);
    }
  }

  /** In every run the sections are started in the order of the calls, whoever executes them:
      if a section was started, then those of all earlier calls were. */
  lemma SectionsInOrder(acts: seq<Act>, c: nat, d: nat)
    requires Legal(Release, INIT, acts) && c < d < |Callers(acts)|
    ensures
      var s := After(Release, INIT, acts);
      && Threads(s.calls) == Callers(acts)
      && (s.calls[d].runs == 1 ==> s.calls[c].runs == 1)
  {
    RunCalls(Release, INIT, acts);
    var owner := RunInLine(INIT, None, acts);
    var s := After(Release, INIT, acts);
    assert Threads(INIT.calls) == [];
    assert |Threads(s.calls)| == |s.calls|;
    assert CallOk(s, OwnerPc(s, owner), c) && CallOk(s, OwnerPc(s, owner), d);
    var q := s.queue.Items();
    if d < |s.calls| - |q| {
      assert c !in q;
    } else {
      assert q[d - (|s.calls| - |q|)] == d;
    }
  }

  // ------------------------------------------------------------ at most 101 in a row

  /** How many sections a thread may still start in this run of `process`. */
  function Quota(pc: Pc): nat {
    match pc
    case Pulling(c, b, r) => b + 1
    case Pulled(c, b, r, m) => b + 1
    case InSection(c, b, r, m, last) => if last then 0 else b + 1
    case Storing(c, b, r, m, last) => if last then 0 else b + 1
    case Releasing(c, b, r) => b + 1
    case _ => 0
  }

  /** The sections that a thread starts in a run. */
  function Sections(v: Variant, s: State, acts: seq<Act>, p: nat): nat
    requires Legal(v, s, acts)
    decreases |acts|
  {
    if acts == [] then 0 else
      var s' := Do(v, s, acts[0]);
      (if s'.Pc(p).InSection? && !s.Pc(p).InSection? then 1 else 0) + Sections(v, s', acts[1..], p)
  }

  /** The thread is in `process` until the last step. */
  predicate Processes(v: Variant, s: State, acts: seq<Act>, p: nat)
    requires Legal(v, s, acts)
    decreases |acts|
  {
    acts == [] || (s.Pc(p).IsProcessing() && Processes(v, Do(v, s, acts[0]), acts[1..], p))
  }

  lemma {:induction false} SectionsUseQuota(v: Variant, s: State, acts: seq<Act>, p: nat)
    requires Legal(v, s, acts) && Processes(v, s, acts, p)
    ensures Sections(v, s, acts, p) <= Quota(s.Pc(p))
    decreases |acts|
  {
    if acts != [] { SectionsUseQuota(v, Do(v, s, acts[0]), acts[1..], p); }
  }

  lemma QuotaBound(s: State, owner: Option<nat>, p: nat)
    requires Inv(s, owner)
    ensures Quota(s.Pc(p)) <= 101
  {
    assert Owns(s, p) <==> owner == Some(p);
  }

  /** In every run: while a thread processes the queue without a break, it starts at most 101
      sections. */
  lemma ProcessorIsRelieved(acts: seq<Act>, more: seq<Act>, p: nat)
    requires Legal(Release, INIT, acts) && Legal(Release, After(Release, INIT, acts), more)
    requires Processes(Release, After(Release, INIT, acts), more, p)
    ensures Sections(Release, After(Release, INIT, acts), more, p) <= 101
  {
    var owner := RunInv(INIT, None, acts);
    QuotaBound(After(Release, INIT, acts), owner, p);
    SectionsUseQuota(Release, After(Release, INIT, acts), more, p);
  }

  // ----------------------------------------------------------------- progress

  /** How far the owner is from its next pull; a release succeeds if nothing was pushed. */
  function Stage(s: State, pc: Pc): nat {
    match pc
    case Idle => 0
    case Releasing(c, b, r) => if s.queue.Items() == [] then 1 else 3
    case Pulling(c, b, r) => 2
    case Waiting(c) => 3
    case Storing(c, b, r, m, last) => 4
    case InSection(c, b, r, m, last) => 5
    case Pulled(c, b, r, m) => 6
  }

  /** Bounds the steps that the owners take until the queue is free. */
  function Work(s: State, owner: Option<nat>): nat {
    5 * |s.queue.Items()| + Stage(s, OwnerPc(s, owner))
  }

  /** Every step of the owner reduces the work; a step of another thread leaves it alone. */
  lemma StepReducesWork(s: State, owner: Option<nat>, p: nat)
    requires Inv(s, owner) && Enabled(s, Proceed(p))
    ensures
      var s', owner' := Do(Release, s, Proceed(p)), NextOwner(s, Proceed(p), owner);
      if owner == Some(p) then Work(s', owner') < Work(s, owner)
      else Work(s', owner') == Work(s, owner) && owner' == owner
  {
    assert ThreadOk(s, p) && (Owns(s, p) <==> owner == Some(p));
    match s.Pc(p)
    case Pulling(c, b, r) => PullTakesOldest(s.queue);
    case Storing(c, b, r, m, last) =>
      assert CallOk(s, s.Pc(p), m) && (Owns(s, s.calls[m].thread) <==> owner == Some(s.calls[m].thread));
    case _ =>
  }

  /** The steps in a run that were the owner's at that time. */
  function OwnerSteps(s: State, owner: Option<nat>, acts: seq<Act>): nat
    requires Legal(Release, s, acts)
    decreases |acts|
  {
    if acts == [] then 0 else
      var later := OwnerSteps(Do(Release, s, acts[0]), NextOwner(s, acts[0], owner), acts[1..]);
      if acts[0].Proceed? && owner == Some(acts[0].p) then later + 1 else later
  }

  lemma {:induction false} RunReducesWork(s: State, owner: Option<nat>, acts: seq<Act>)
    returns (owner': Option<nat>)
    requires Inv(s, owner) && Legal(Release, s, acts) && forall a :: a in acts ==> a.Proceed?
    ensures Inv(After(Release, s, acts), owner')
    ensures OwnerSteps(s, owner, acts) + Work(After(Release, s, acts), owner') <= Work(s, owner)
    decreases |acts|
  {
    if acts == [] {
      owner' := owner;
    } else {
      assert acts[0] in acts;
      StepInv(s, owner, acts[0]);
      StepReducesWork(s, owner, acts[0].p);
      owner' := RunReducesWork(Do(Release, s, acts[0]), NextOwner(s, acts[0], owner), acts[1..]);
    }
  }

  /** `owner` is the one thread that owns the queue; while a call is pending there is such a
      thread, it can go on and has work to do. */
  ghost predicate Attended(s: State, owner: Option<nat>) {
    && (forall p: nat :: Owns(s, p) <==> owner == Some(p))
    && (forall c :: 0 <= c < |s.calls| && s.calls[c].done == PENDING ==>
          owner.Some? && Enabled(s, Proceed(owner.value)) && Work(s, owner) > 0)
  }

  lemma InvIsAttended(s: State, owner: Option<nat>)
    requires Inv(s, owner)
    ensures Attended(s, owner) && Work(s, owner) <= 5 * |s.queue.Items()| + 6
  {
    forall c | 0 <= c < |s.calls| && s.calls[c].done == PENDING
      ensures owner.Some? && Enabled(s, Proceed(owner.value)) && Work(s, owner) > 0
    {
      PendingHasOwner(s, owner, c);
    }
  }

  lemma Served(s: State, owner: Option<nat>, acts: seq<Act>) returns (owner': Option<nat>)
    requires Inv(s, owner) && Legal(Release, s, acts) && forall a :: a in acts ==> a.Proceed?
    ensures Attended(s, owner) && Attended(After(Release, s, acts), owner')
    ensures OwnerSteps(s, owner, acts) + Work(After(Release, s, acts), owner') <= 5 * |s.queue.Items()| + 6
  {
    owner' := RunReducesWork(s, owner, acts);
    InvIsAttended(s, owner);
    InvIsAttended(After(Release, s, acts), owner');
  }

  /** A call is pending only while somebody owns the queue and can go on. However the threads
      are scheduled, once no new call comes in, the owners together take at most five steps
      for each queued section and six more, and then nothing is pending. */
  lemma CallsAreServed(acts: seq<Act>, more: seq<Act>) returns (owner: Option<nat>, owner': Option<nat>)
    requires Legal(Release, INIT, acts) && Legal(Release, After(Release, INIT, acts), more)
    requires forall a :: a in more ==> a.Proceed?
    ensures
      var s := After(Release, INIT, acts);
      && Attended(s, owner) && Attended(After(Release, s, more), owner')
      && OwnerSteps(s, owner, more) + Work(After(Release, s, more), owner') <= 5 * |s.queue.Items()| + 6
  {
    owner := RunInv(INIT, None, acts);
    owner' := Served(After(Release, INIT, acts), owner, more);
  }

  // --------------------------------------------------- builds with assertions

  /** The handover works in release builds and only there: when the last section of a run is
      done, somebody owns the queue exactly if the mark survived the start of the tasklet. */
  lemma HandoverNeedsTheMark(v: Variant, s: State, owner: Option<nat>, p: nat)
    requires Inv(s, owner) && s.Pc(p).Pulled? && s.Pc(p).budget == 0
    ensures Enabled(s, Proceed(p))
    ensures
      var s1 := Step(v, s, p);
      Enabled(s1, Proceed(p)) &&
      var s2 := Step(v, s1, p);
      Enabled(s2, Proceed(p)) &&
      var s3 := Step(v, s2, p);
      s3.queue.held && ((exists q: nat :: Owns(s3, q)) <==> v == Release)
  {
    assert ThreadOk(s, p) && (Owns(s, p) <==> owner == Some(p));
    var m := s.Pc(p).msg;
    var heir := s.calls[m].thread;
    assert CallOk(s, s.Pc(p), m) && ThreadOk(s, heir) && (Owns(s, heir) <==> owner == Some(heir));
    var s1 := Step(v, s, p);
    var s2 := Step(v, s1, p);
    var s3 := Step(v, s2, p);
    if v == Release {
      assert Owns(s3, heir);
    } else {
      forall q: nat
        ensures !Owns(s3, q)
      {
        assert ThreadOk(s, q) && (Owns(s, q) <==> owner == Some(q));
      }
    }
  }

  /** The queue is owned by nobody. */
  ghost predicate Stranded(s: State) {
    s.queue.held && forall q: nat :: !Owns(s, q)
  }

  /** An owned queue without an owner stays that way, and no call is finished any more: every
      later caller waits for ever. */
  lemma {:induction false} StrandedForever(v: Variant, s: State, acts: seq<Act>)
    requires Stranded(s) && Legal(v, s, acts)
    ensures Stranded(After(v, s, acts)) && s.calls <= After(v, s, acts).calls
    decreases |acts|
  {
    if acts != [] {
      var s' := Do(v, s, acts[0]);
      assert !Owns(s, acts[0].p);
      forall q: nat
        ensures !Owns(s', q)
      {
        assert !Owns(s, q);
      }
      StrandedForever(v, s', acts[1..]);
    }
  }

  /** Threads 0 to n - 1 have called, the first k sections are done, thread 0 processes. */
  ghost predicate LinedUp(s: State, n: nat, k: nat) {
    && k <= HANDOVER_COUNT && k <= n && |s.calls| == n
    && s.Pc(0) == Pulling(0, HANDOVER_COUNT - k, k)
    && (forall p: nat :: p != 0 ==> if p < n then s.Pc(p).Waiting? else s.Pc(p).Idle?)
    && (forall c :: 0 <= c < n ==> s.calls[c].done != HANDOVER)
    && s.queue.held && s.queue.Items() == seq(n - k, i => k + i)
  }

  lemma OneMoreCall(v: Variant, s: State, n: nat)
    requires LinedUp(s, n, 0) && n > 0
    ensures Enabled(s, Call(n)) && LinedUp(Do(v, s, Call(n)), n + 1, 0)
  {
    var s' := Do(v, s, Call(n));
    assert s'.queue.Items() == s.queue.Items() + [n];
    forall p: nat | p != 0
      ensures if p < n + 1 then s'.Pc(p).Waiting? else s'.Pc(p).Idle?
    {
      assert if p < n then s.Pc(p).Waiting? else s.Pc(p).Idle?;
    }
  }

  lemma {:induction false} LineUp(v: Variant, n: nat) returns (acts: seq<Act>)
    requires n > 0
    ensures Legal(v, INIT, acts) && LinedUp(After(v, INIT, acts), n, 0)
  {
    if n == 1 {
      acts := [Call(0)];
      assert acts[1..] == [];
      assert After(v, INIT, acts) == Do(v, INIT, Call(0));
      assert [0] == seq(1, i => 0 + i);
    } else {
      acts := LineUp(v, n - 1);
      OneMoreCall(v, After(v, INIT, acts), n - 1);
      RunThenStep(v, INIT, acts, Call(n - 1));
      acts := acts + [Call(n - 1)];
    }
  }

  predicate CanServe(s: State) {
    && s.Pc(0).Pulling? && s.Pc(0).call < |s.calls|
    && s.queue.PullResult().Some? && s.queue.PullResult().value < |s.calls|
  }

  /** Thread 0 takes a tasklet, starts its section, ends it and sets the done flag. */
  function ServeOne(s: State): State
    requires CanServe(s)
  {
    var s1 := Step(Debug, s, 0);
    var s2 := Step(Debug, s1, 0);
    var s3 := Step(Debug, s2, 0);
    Step(Debug, s3, 0)
  }

  lemma ServeOneEffect(s: State)
    requires CanServe(s)
    ensures
      var s', pc, m := ServeOne(s), s.Pc(0), s.queue.PullResult().value;
      && s'.queue == s.queue.Pull()
      && s'.calls == s.calls[m := s.calls[m].(mark := false, runs := s.calls[m].runs + 1, done := DONE)]
      && s'.Pc(0) == (if pc.budget == 0 then Idle else Pulling(pc.call, pc.budget - 1, pc.ran + 1))
      && forall p: nat :: p != 0 ==> s'.Pc(p) == s.Pc(p)
  {
  }

  lemma ServeNext(s: State, n: nat, k: nat)
    requires LinedUp(s, n, k) && k < n
    ensures CanServe(s)
    ensures k < HANDOVER_COUNT ==> LinedUp(ServeOne(s), n, k + 1)
    ensures k == HANDOVER_COUNT ==> Stranded(ServeOne(s))
  {
    PullTakesOldest(s.queue);
    assert s.queue.Items()[0] == k;
    ServeOneEffect(s);
    assert ServeOne(s).queue.Items() == s.queue.Items()[1..];
    forall p: nat | p != 0
      ensures if p < n then ServeOne(s).Pc(p).Waiting? else ServeOne(s).Pc(p).Idle?
    {
      assert if p < n then s.Pc(p).Waiting? else s.Pc(p).Idle?;
    }
  }

  lemma OneMoreStep(acts: seq<Act>, s: State) returns (more: seq<Act>)
    requires Legal(Debug, INIT, acts) && After(Debug, INIT, acts) == s && Enabled(s, Proceed(0))
    ensures Legal(Debug, INIT, more) && After(Debug, INIT, more) == Step(Debug, s, 0)
  {
    RunThenStep(Debug, INIT, acts, Proceed(0));
    more := acts + [Proceed(0)];
  }

  lemma OneMoreSection(acts: seq<Act>, s: State) returns (more: seq<Act>)
    requires Legal(Debug, INIT, acts) && After(Debug, INIT, acts) == s && CanServe(s)
    ensures Legal(Debug, INIT, more) && After(Debug, INIT, more) == ServeOne(s)
  {
    var s1 := Step(Debug, s, 0);
    var s2 := Step(Debug, s1, 0);
    more := OneMoreStep(acts, s);
    more := OneMoreStep(more, s1);
    more := OneMoreStep(more, s2);
    more := OneMoreStep(more, Step(Debug, s2, 0));
  }

  lemma {:induction false} Serve(n: nat, k: nat) returns (acts: seq<Act>)
    requires 0 < n && k <= n && k <= HANDOVER_COUNT + 1
    ensures Legal(Debug, INIT, acts)
    ensures k <= HANDOVER_COUNT ==> LinedUp(After(Debug, INIT, acts), n, k)
    ensures k == HANDOVER_COUNT + 1 ==> Stranded(After(Debug, INIT, acts))
    decreases k
  {
    if k == 0 {
      acts := LineUp(Debug, n);
    } else {
      acts := Serve(n, k - 1);
      ServeNext(After(Debug, INIT, acts), n, k - 1);
      acts := OneMoreSection(acts, After(Debug, INIT, acts));
    }
  }

  /** In builds with assertions the lock gets stuck: there is a run after which, whatever
      happens next, the queue is owned by nobody and no call is finished any more. */
  lemma DebugBuildStrands() returns (acts: seq<Act>)
    ensures Legal(Debug, INIT, acts)
    ensures forall more :: Legal(Debug, After(Debug, INIT, acts), more) ==>
              Stranded(After(Debug, After(Debug, INIT, acts), more))
  {
    acts := Serve(HANDOVER_COUNT + 1, HANDOVER_COUNT + 1);
    forall more | Legal(Debug, After(Debug, INIT, acts), more)
      ensures Stranded(After(Debug, After(Debug, INIT, acts), more))
    {
      StrandedForever(Debug, After(Debug, INIT, acts), more);
    }
  }
}
