/** The scheduler of one hardware thread: two task queues, the wakeup interrupt and the order
    in which the queues are released. */
module Place {
  import opened Options
  import opened Sequences
  import opened TaskQueue

  /** Where the thread that owns the place stands. */
  datatype Pc =
    | Outside                                            // user mode or idle
    | EnterNormal | EnterSync | EnterFlag                // enterKernel
    | PullSync | RunSync(t: nat, number: nat)            // processSyncTasks
    | PullNormal | Run(t: nat)
    | ReleaseFirst | ReleaseSecond
    | Leave

  /** What a pusher that found a queue free still has to do. */
  datatype Duty = Wakeup | Preempt

  /** `active` is the nesting monitor flag, `ipi` the pending interrupt, `pushers` maps the
      threads that pushed and have not returned to what they still have to do. */
  datatype State = State(
    normal: Queue, sync: Queue, active: bool, ipi: bool, pc: Pc, pushers: map<nat, Duty>, log: Log)

  /** Which tasks were started and ended; synchronous tasks can be nested and are numbered in the
      order of their starts. Then how often pushers sent an interrupt or tried to take the normal
      queue for one, and how often the queues were released. */
  datatype Log = Log(
    syncStarts: seq<nat>, syncEnds: set<nat>, starts: seq<nat>, ends: seq<nat>,
    wakeups: nat, preempts: nat, releases: nat, syncReleases: nat)
  {
    function StartSync(t: nat): Log { this.(syncStarts := syncStarts + [t]) }
    function EndSync(number: nat): Log { this.(syncEnds := syncEnds + {number}) }
    function Start(t: nat): Log { this.(starts := starts + [t]) }
    function End(t: nat): Log { this.(ends := ends + [t]) }
    function Wakeup(): Log { this.(wakeups := wakeups + 1) }
    function Preempt(): Log { this.(preempts := preempts + 1) }
    function Release(q: Queue): Log { if q.incoming == [] then this.(releases := releases + 1) else this }
    function ReleaseSync(q: Queue): Log { if q.incoming == [] then this.(syncReleases := syncReleases + 1) else this }
  }

  const NEW_LOG := Log([], {}, [], [], 0, 0, 0, 0)

  /** In which order the queues are released; the code releases the normal queue first. */
  datatype ReleaseOrder = NormalFirst | SyncFirst

  datatype Act =
    | PushShared(p: nat, task: nat) | PushSync(p: nat, task: nat) | Discharge(p: nat)
    | Interrupt | SystemCall
    | Proceed                                            // the next access of the owner
    | RunLocal(task: nat)                                // a running task pushes privately
    | NestedSync                                         // a running task drains the sync queue

  predicate Enabled(s: State, a: Act) {
    match a
    case PushShared(p, t) => p !in s.pushers
    case PushSync(p, t) => p !in s.pushers
    case Discharge(p) => p in s.pushers
    case Interrupt => s.pc == Outside && s.ipi
    case SystemCall => s.pc == Outside
    case Proceed => s.pc != Outside
    case RunLocal(t) => s.pc.Run? || s.pc.RunSync?
    case NestedSync => s.pc.Run? || s.pc.RunSync?
  }

  function Do(order: ReleaseOrder, s: State, a: Act): State
    requires Enabled(s, a)
  {
    match a
    case PushShared(p, t) =>
      s.(normal := s.normal.Push(t), pushers := if s.normal.held then s.pushers else s.pushers[p := Wakeup])
    case PushSync(p, t) =>
      s.(sync := s.sync.Push(t), pushers := if s.sync.held then s.pushers else s.pushers[p := Preempt])
    case Discharge(p) =>
      if s.pushers[p] == Wakeup then s.(ipi := true, pushers := s.pushers - {p}, log := s.log.Wakeup())
      else if s.normal.held then s.(pushers := s.pushers - {p}, log := s.log.Preempt())
      else s.(normal := s.normal.TryAcquire(), pushers := s.pushers[p := Wakeup], log := s.log.Preempt())
    case Interrupt => s.(ipi := false, pc := EnterNormal)
    case SystemCall => s.(pc := EnterNormal)
    case RunLocal(t) => s.(normal := s.normal.PushPrivate(t))
    case NestedSync =>
      s.(sync := s.sync.Pull(),
         log := match s.sync.PullResult() case Some(t) => s.log.StartSync(t).EndSync(|s.log.syncStarts|) case None => s.log)
    case Proceed => Step(order, s)
  }

  function Step(order: ReleaseOrder, s: State): State
    requires s.pc != Outside
  {
    match s.pc
    case EnterNormal => s.(normal := s.normal.TryAcquire(), pc := EnterSync)
    case EnterSync => s.(sync := s.sync.TryAcquire(), pc := EnterFlag)
    case EnterFlag => s.(active := true, pc := PullSync)
    case PullSync =>
      (match s.sync.PullResult()
       case Some(t) => s.(sync := s.sync.Pull(), pc := RunSync(t, |s.log.syncStarts|), log := s.log.StartSync(t))
       case None => s.(sync := s.sync.Pull(), pc := PullNormal))
    case RunSync(t, number) => s.(pc := PullSync, log := s.log.EndSync(number))
    case PullNormal =>
      (match s.normal.PullResult()
       case Some(t) => s.(normal := s.normal.Pull(), pc := Run(t), log := s.log.Start(t))
       case None => s.(normal := s.normal.Pull(), pc := ReleaseFirst))
    case Run(t) => s.(pc := PullSync, log := s.log.End(t))
    case ReleaseFirst =>
      if order == NormalFirst
      then s.(normal := s.normal.TryRelease(), log := s.log.Release(s.normal),
              pc := if s.normal.incoming == [] then ReleaseSecond else PullSync)
      else s.(sync := s.sync.TryRelease(), log := s.log.ReleaseSync(s.sync),
              pc := if s.sync.incoming == [] then ReleaseSecond else PullSync)
    case ReleaseSecond =>
      if order == NormalFirst
      then s.(sync := s.sync.TryRelease(), log := s.log.ReleaseSync(s.sync),
              pc := if s.sync.incoming == [] then Leave else PullSync)
      else s.(normal := s.normal.TryRelease(), log := s.log.Release(s.normal),
              pc := if s.normal.incoming == [] then Leave else PullSync)
    case Leave => s.(active := false, pc := Outside)
  }

  /** The place after `init`: in the kernel, owning both queues. */
  const INIT := State(Queue([], [], true), Queue([], [], true), true, false, PullSync, map[], NEW_LOG)

  predicate Legal(order: ReleaseOrder, s: State, acts: seq<Act>)
    decreases |acts|
  {
    acts == [] || (Enabled(s, acts[0]) && Legal(order, Do(order, s, acts[0]), acts[1..]))
  }

  function After(order: ReleaseOrder, s: State, acts: seq<Act>): State
    requires Legal(order, s, acts)
    decreases |acts|
  {
    if acts == [] then s else After(order, Do(order, s, acts[0]), acts[1..])
  }

  /** The thread has given up the normal queue. */
  predicate NormalReleased(pc: Pc) { pc == Outside || pc == Leave || pc == ReleaseSecond }

  /** The thread has given up both queues. */
  predicate BothReleased(pc: Pc) { pc == Outside || pc == Leave }

  predicate Entering(pc: Pc) { pc == EnterNormal || pc == EnterSync || pc == EnterFlag }

  /** An interrupt is pending or a pusher will still send one. */
  ghost predicate WakeupComing(s: State) {
    s.ipi || exists p :: p in s.pushers && s.pushers[p] == Wakeup
  }

  ghost predicate PreemptComing(s: State) {
    exists p :: p in s.pushers && s.pushers[p] == Preempt
  }

  /** What the owner has taken and not given up; after a failed release of the sync queue it works
      on without owning the normal queue. */
  predicate OwnsQueues(s: State) {
    && (s.pc == EnterSync || s.pc == EnterFlag || s.pc == ReleaseFirst ==> s.normal.held)
    && (!BothReleased(s.pc) && s.pc != EnterNormal && s.pc != EnterSync ==> s.sync.held)
  }

  ghost predicate Inv(s: State) {
    && OwnsQueues(s)
    && (!s.normal.held ==> s.normal.incoming == [])
    && (!s.sync.held ==> s.sync.incoming == [])
    && (NormalReleased(s.pc) || Entering(s.pc) || s.pc == ReleaseFirst ==> s.normal.local == [])
    && (NormalReleased(s.pc) || Entering(s.pc) || s.pc == ReleaseFirst || s.pc == PullNormal ==> s.sync.local == [])
    && (NormalReleased(s.pc) && s.normal.held ==> WakeupComing(s))
    && (BothReleased(s.pc) && s.sync.held ==> s.normal.held || PreemptComing(s))
    && (s.active <==> s.pc != Outside && !Entering(s.pc))
  }

  /** The duties of the other pushers do not change. */
  lemma DutiesKept(s: State, s': State, p: nat)
    requires forall q :: q != p ==> (q in s.pushers <==> q in s'.pushers)
    requires forall q :: q != p && q in s.pushers ==> s'.pushers[q] == s.pushers[q]
    requires s.ipi ==> s'.ipi
    ensures WakeupComing(s) && !(p in s.pushers && s.pushers[p] == Wakeup) ==> WakeupComing(s')
    ensures PreemptComing(s) && !(p in s.pushers && s.pushers[p] == Preempt) ==> PreemptComing(s')
  {
  }

  lemma PushKeepsInv(s: State, a: Act)
    requires Inv(s) && Enabled(s, a) && (a.PushShared? || a.PushSync?)
    ensures Inv(Do(NormalFirst, s, a))
  {
    var s' := Do(NormalFirst, s, a);
    DutiesKept(s, s', a.p);
    if a.PushShared? && !s.normal.held { assert s'.pushers[a.p] == Wakeup; }
    if a.PushSync? && !s.sync.held { assert s'.pushers[a.p] == Preempt; }
  }

  lemma DischargeKeepsInv(s: State, p: nat)
    requires Inv(s) && Enabled(s, Discharge(p))
    ensures Inv(Do(NormalFirst, s, Discharge(p)))
  {
    var s' := Do(NormalFirst, s, Discharge(p));
    DutiesKept(s, s', p);
    if s.pushers[p] == Preempt && !s.normal.held { assert s'.pushers[p] == Wakeup; }
  }

  lemma SamePushers(s: State, s': State)
    requires s'.pushers == s.pushers && s'.ipi == s.ipi
    ensures WakeupComing(s) <==> WakeupComing(s')
    ensures PreemptComing(s) <==> PreemptComing(s')
  {
  }

  lemma ReleaseKeepsInv(s: State)
    requires Inv(s) && Enabled(s, Proceed) && (s.pc == ReleaseFirst || s.pc == ReleaseSecond || s.pc == Leave)
    ensures Inv(Do(NormalFirst, s, Proceed))
  {
    SamePushers(s, Do(NormalFirst, s, Proceed));
  }

  lemma OwnerKeepsInv(s: State)
    requires Inv(s) && Enabled(s, Proceed) && s.pc != ReleaseFirst && s.pc != ReleaseSecond && s.pc != Leave
    ensures Inv(Do(NormalFirst, s, Proceed))
  {
    SamePushers(s, Do(NormalFirst, s, Proceed));
  }

  lemma StepKeepsInv(s: State, a: Act)
    requires Inv(s) && Enabled(s, a)
    ensures Inv(Do(NormalFirst, s, a))
  {
    match a
    case PushShared(p, t) => PushKeepsInv(s, a);
    case PushSync(p, t) => PushKeepsInv(s, a);
    case Discharge(p) => DischargeKeepsInv(s, p);
    case Proceed =>
      if s.pc == ReleaseFirst || s.pc == ReleaseSecond || s.pc == Leave { ReleaseKeepsInv(s); }
      else { OwnerKeepsInv(s); }
    case _ =>
  }

  lemma {:induction false} RunKeepsInv(s: State, acts: seq<Act>)
    requires Inv(s) && Legal(NormalFirst, s, acts)
    ensures Inv(After(NormalFirst, s, acts))
    decreases |acts|
  {
    if acts != [] {
      StepKeepsInv(s, acts[0]);
      RunKeepsInv(Do(NormalFirst, s, acts[0]), acts[1..]);
    }
  }

  /** In every interleaving of pushers and owner: if the thread is outside the kernel and a
      queue holds a task, then an interrupt is pending or a pusher that saw a free queue is
      on its way to send one. If nobody is on the way, the queues are empty and free. */
  lemma NoLostWakeup(acts: seq<Act>)
    requires Legal(NormalFirst, INIT, acts)
    ensures
      var s := After(NormalFirst, INIT, acts);
      s.pc == Outside ==>
        && (s.normal.Items() != [] || s.sync.Items() != [] ==> s.ipi || s.pushers != map[])
        && (!s.ipi && s.pushers == map[] ==> s.normal == EMPTY_QUEUE && s.sync == EMPTY_QUEUE)
  {
    RunKeepsInv(INIT, acts);
  }

  // ----------------------------------------------- no interrupt without need

  /** The pushers that have this to do. */
  function With(s: State, d: Duty): set<nat> { set p | p in s.pushers && s.pushers[p] == d }

  /** Who takes a queue by pushing takes it from the owner, who released it. */
  predicate WakeupsReleased(s: State) {
    s.log.wakeups + |With(s, Wakeup)| + (if s.normal.held then 0 else 1) <= s.log.releases
  }

  predicate PreemptsReleased(s: State) {
    s.log.preempts + |With(s, Preempt)| + (if s.sync.held then 0 else 1) <= s.log.syncReleases
  }

  lemma DutyChanges(s: State, s': State, p: nat, d: Duty)
    requires forall q :: q != p ==> (q in s.pushers <==> q in s'.pushers)
    requires forall q :: q != p && q in s.pushers ==> s'.pushers[q] == s.pushers[q]
    ensures
      |With(s', d)| - (if p in With(s', d) then 1 else 0) == |With(s, d)| - (if p in With(s, d) then 1 else 0)
  {
    var others := With(s, d) - {p};
    assert With(s, d) == if p in With(s, d) then others + {p} else others;
    assert With(s', d) == if p in With(s', d) then others + {p} else others;
  }

  lemma StepWakeups(s: State, a: Act)
    requires Enabled(s, a) && WakeupsReleased(s)
    ensures WakeupsReleased(Do(NormalFirst, s, a))
  {
    var s' := Do(NormalFirst, s, a);
    if a.PushShared? || a.PushSync? || a.Discharge? { DutyChanges(s, s', a.p, Wakeup); }
    else { assert With(s', Wakeup) == With(s, Wakeup); }
  }

  lemma StepPreempts(s: State, a: Act)
    requires Enabled(s, a) && PreemptsReleased(s)
    ensures PreemptsReleased(Do(NormalFirst, s, a))
  {
    var s' := Do(NormalFirst, s, a);
    if a.PushShared? || a.PushSync? || a.Discharge? { DutyChanges(s, s', a.p, Preempt); }
    else { assert With(s', Preempt) == With(s, Preempt); }
  }

  lemma {:induction false} RunDutiesReleased(s: State, acts: seq<Act>)
    requires Legal(NormalFirst, s, acts) && WakeupsReleased(s) && PreemptsReleased(s)
    ensures WakeupsReleased(After(NormalFirst, s, acts)) && PreemptsReleased(After(NormalFirst, s, acts))
    decreases |acts|
  {
    if acts != [] {
      StepWakeups(s, acts[0]);
      StepPreempts(s, acts[0]);
      RunDutiesReleased(Do(NormalFirst, s, acts[0]), acts[1..]);
    }
  }

  /** How often a run takes an interrupt. */
  function Interrupts(acts: seq<Act>): nat {
    if acts == [] then 0 else (if acts[0].Interrupt? then 1 else 0) + Interrupts(acts[1..])
  }

  lemma {:induction false} RunInterrupts(s: State, acts: seq<Act>)
    requires Legal(NormalFirst, s, acts)
    ensures
      var s' := After(NormalFirst, s, acts);
      s.log.wakeups + Interrupts(acts) + (if s'.ipi then 1 else 0) <= s'.log.wakeups + (if s.ipi then 1 else 0)
    decreases |acts|
  {
    if acts != [] { RunInterrupts(Do(NormalFirst, s, acts[0]), acts[1..]); }
  }

  /** In every run: each interrupt that the place takes was sent; at most one is sent for each
      time that the owner has released the normal queue, and at most one attempt to do so
      is made for each time that it has released the sync queue. Pushing to a queue that
      the owner has taken causes neither. */
  lemma NoNeedlessWakeup(acts: seq<Act>)
    requires Legal(NormalFirst, INIT, acts)
    ensures
      var s := After(NormalFirst, INIT, acts);
      && Interrupts(acts) <= s.log.wakeups <= s.log.releases && s.log.preempts <= s.log.syncReleases
      && OwnsQueues(s)
      && (forall p, t | s.normal.held && Enabled(s, PushShared(p, t)) ::
            Do(NormalFirst, s, PushShared(p, t)).pushers == s.pushers)
      && (forall p, t | s.sync.held && Enabled(s, PushSync(p, t)) ::
            Do(NormalFirst, s, PushSync(p, t)).pushers == s.pushers)
  {
    RunDutiesReleased(INIT, acts);
    RunInterrupts(INIT, acts);
    RunKeepsInv(INIT, acts);
  }

  /** The flag is set exactly from the entry into the kernel until the queues are released, and
      so a place whose flag is not set runs no task. */
  lemma InactiveRunsNothing(acts: seq<Act>)
    requires Legal(NormalFirst, INIT, acts)
    ensures
      var s := After(NormalFirst, INIT, acts);
      && (s.active <==> s.pc !in {Outside, EnterNormal, EnterSync, EnterFlag})
      && (!s.active ==> !s.pc.Run? && !s.pc.RunSync?)
  {
    RunKeepsInv(INIT, acts);
  }

  // ------------------------------------------------------- every task is run

  /** The tasks that a run pushes to the sync queue, to the normal queue and to its front. */
  function SyncPushes(acts: seq<Act>): seq<nat> {
    if acts == [] then [] else (if acts[0].PushSync? then [acts[0].task] else []) + SyncPushes(acts[1..])
  }

  function SharedPushes(acts: seq<Act>): seq<nat> {
    if acts == [] then [] else (if acts[0].PushShared? then [acts[0].task] else []) + SharedPushes(acts[1..])
  }

  function LocalPushes(acts: seq<Act>): seq<nat> {
    if acts == [] then [] else (if acts[0].RunLocal? then [acts[0].task] else []) + LocalPushes(acts[1..])
  }

  /** Synchronous tasks that were started, then those that wait; and the same for normal ones. */
  function AllSync(s: State): seq<nat> { s.log.syncStarts + s.sync.Items() }

  function AllNormal(s: State): seq<nat> { s.log.starts + s.normal.Items() }

  lemma OwnerSync(order: ReleaseOrder, s: State)
    requires Enabled(s, Proceed)
    ensures AllSync(Step(order, s)) == AllSync(s)
  {
    if s.pc == PullSync {
      PullMovesBorder(s.log.syncStarts, s.sync);
    } else {
      assert Step(order, s).log.syncStarts == s.log.syncStarts && Step(order, s).sync.Items() == s.sync.Items();
    }
  }

  lemma StepSync(order: ReleaseOrder, s: State, a: Act)
    requires Enabled(s, a)
    ensures AllSync(Do(order, s, a)) == AllSync(s) + if a.PushSync? then [a.task] else []
  {
    match a
    case PushSync(p, t) => PushAppends(s.log.syncStarts, s.sync, t);
    case NestedSync => PullMovesBorder(s.log.syncStarts, s.sync);
    case Proceed => OwnerSync(order, s);
    case _ => assert Do(order, s, a).log.syncStarts == s.log.syncStarts && Do(order, s, a).sync == s.sync;
  }

  lemma OwnerNormal(order: ReleaseOrder, s: State)
    requires Enabled(s, Proceed)
    ensures AllNormal(Step(order, s)) == AllNormal(s)
  {
    if s.pc == PullNormal {
      PullMovesBorder(s.log.starts, s.normal);
    } else {
      assert Step(order, s).log.starts == s.log.starts && Step(order, s).normal.Items() == s.normal.Items();
    }
  }

  lemma StepNormal(order: ReleaseOrder, s: State, a: Act)
    requires Enabled(s, a)
    ensures !a.RunLocal? ==> AllNormal(Do(order, s, a)) == AllNormal(s) + if a.PushShared? then [a.task] else []
    ensures a.RunLocal? ==>
      Do(order, s, a).log.starts == s.log.starts && Do(order, s, a).normal.Items() == [a.task] + s.normal.Items()
  {
    match a
    case PushShared(p, t) => PushAppends(s.log.starts, s.normal, t);
    case RunLocal(t) => Concat([t], s.normal.local, s.normal.incoming);
    case Proceed => OwnerNormal(order, s);
    case _ => assert Do(order, s, a).log.starts == s.log.starts && Do(order, s, a).normal.Items() == s.normal.Items();
  }

  /** Each task that was started has ended, except for the one that runs. */
  ghost predicate EndedSync(s: State) {
    && (s.pc.RunSync? ==> s.pc.number < |s.log.syncStarts| && s.log.syncStarts[s.pc.number] == s.pc.t)
    && (forall k: nat :: k in s.log.syncEnds <==> k < |s.log.syncStarts| && !(s.pc.RunSync? && s.pc.number == k))
  }

  predicate Ended(s: State) {
    s.log.starts == s.log.ends + (if s.pc.Run? then [s.pc.t] else [])
  }

  lemma StepEndedSync(order: ReleaseOrder, s: State, a: Act)
    requires Enabled(s, a) && EndedSync(s)
    ensures EndedSync(Do(order, s, a))
  {
    var s' := Do(order, s, a);
    if !(a == NestedSync || (a == Proceed && (s.pc == PullSync || s.pc.RunSync?))) {
      assert s'.log.syncStarts == s.log.syncStarts && s'.log.syncEnds == s.log.syncEnds;
      assert if s.pc.RunSync? then s'.pc == s.pc else !s'.pc.RunSync?;
    }
  }

  lemma StepEnded(order: ReleaseOrder, s: State, a: Act)
    requires Enabled(s, a) && Ended(s)
    ensures Ended(Do(order, s, a))
  {
    var s' := Do(order, s, a);
    if !(a == Proceed && (s.pc == PullNormal || s.pc.Run?)) {
      assert s'.log.starts == s.log.starts && s'.log.ends == s.log.ends && (s'.pc.Run? <==> s.pc.Run?);
    }
  }

  lemma {:induction false} RunSyncTasks(order: ReleaseOrder, s: State, acts: seq<Act>)
    requires Legal(order, s, acts)
    ensures AllSync(After(order, s, acts)) == AllSync(s) + SyncPushes(acts)
    decreases |acts|
  {
    if acts != [] {
      StepSync(order, s, acts[0]);
      RunSyncTasks(order, Do(order, s, acts[0]), acts[1..]);
      Concat(AllSync(s), if acts[0].PushSync? then [acts[0].task] else [], SyncPushes(acts[1..]));
    }
  }

  lemma {:induction false} RunEnded(order: ReleaseOrder, s: State, acts: seq<Act>)
    requires Legal(order, s, acts) && EndedSync(s) && Ended(s)
    ensures EndedSync(After(order, s, acts)) && Ended(After(order, s, acts))
    decreases |acts|
  {
    if acts != [] {
      StepEndedSync(order, s, acts[0]);
      StepEnded(order, s, acts[0]);
      RunEnded(order, Do(order, s, acts[0]), acts[1..]);
    }
  }

  lemma {:induction false} RunNormalTasks(order: ReleaseOrder, s: State, acts: seq<Act>)
    requires Legal(order, s, acts) && LocalPushes(acts) == []
    ensures AllNormal(After(order, s, acts)) == AllNormal(s) + SharedPushes(acts)
    decreases |acts|
  {
    if acts != [] {
      StepNormal(order, s, acts[0]);
      RunNormalTasks(order, Do(order, s, acts[0]), acts[1..]);
      Concat(AllNormal(s), if acts[0].PushShared? then [acts[0].task] else [], SharedPushes(acts[1..]));
    }
  }

  lemma StepAllTasks(order: ReleaseOrder, s: State, a: Act)
    requires Enabled(s, a)
    ensures multiset(AllNormal(Do(order, s, a))) ==
      multiset(AllNormal(s)) + if a.PushShared? || a.RunLocal? then multiset{a.task} else multiset{}
  {
    StepNormal(order, s, a);
    if a.RunLocal? {
      assert AllNormal(Do(order, s, a)) == s.log.starts + ([a.task] + s.normal.Items());
    }
  }

  lemma {:induction false} RunAllTasks(order: ReleaseOrder, s: State, acts: seq<Act>)
    requires Legal(order, s, acts)
    ensures multiset(AllNormal(After(order, s, acts))) ==
      multiset(AllNormal(s)) + (multiset(SharedPushes(acts)) + multiset(LocalPushes(acts)))
    decreases |acts|
  {
    if acts != [] {
      StepAllTasks(order, s, acts[0]);
      RunAllTasks(order, Do(order, s, acts[0]), acts[1..]);
    }
  }

  lemma SyncTasksAreRun(acts: seq<Act>)
    requires Legal(NormalFirst, INIT, acts)
    ensures SyncPushes(acts) == AllSync(After(NormalFirst, INIT, acts))
  {
    assert AllSync(INIT) == [];
    RunSyncTasks(NormalFirst, INIT, acts);
  }

  lemma AllTasksAreRun(acts: seq<Act>)
    requires Legal(NormalFirst, INIT, acts)
    ensures multiset(AllNormal(After(NormalFirst, INIT, acts))) == multiset(SharedPushes(acts)) + multiset(LocalPushes(acts))
  {
    var pushed := multiset(SharedPushes(acts)) + multiset(LocalPushes(acts));
    assert multiset(AllNormal(INIT)) == multiset{};
    RunAllTasks(NormalFirst, INIT, acts);
    assert multiset{} + pushed == pushed;
  }

  lemma NormalTasksInOrder(acts: seq<Act>)
    requires Legal(NormalFirst, INIT, acts) && LocalPushes(acts) == []
    ensures SharedPushes(acts) == AllNormal(After(NormalFirst, INIT, acts))
  {
    assert AllNormal(INIT) == [];
    RunNormalTasks(NormalFirst, INIT, acts);
  }

  /** In every run each task that was pushed is started once or still in its queue, and each
      that was started has ended or runs now. Synchronous tasks are started in the order of
      their pushes, and so are normal tasks unless tasks push to the front. */
  lemma TasksAreRun(acts: seq<Act>)
    requires Legal(NormalFirst, INIT, acts)
    ensures
      var s := After(NormalFirst, INIT, acts);
      && SyncPushes(acts) == s.log.syncStarts + s.sync.Items()
      && multiset(SharedPushes(acts)) + multiset(LocalPushes(acts)) == multiset(s.log.starts + s.normal.Items())
      && (LocalPushes(acts) == [] ==> SharedPushes(acts) == s.log.starts + s.normal.Items())
      && EndedSync(s) && Ended(s)
  {
    RunEnded(NormalFirst, INIT, acts);
    SyncTasksAreRun(acts);
    AllTasksAreRun(acts);
    if LocalPushes(acts) == [] { NormalTasksInOrder(acts); }
  }

  /** A task that a running task pushes is the next normal task. */
  lemma LocalTaskIsNext(s: State, t: nat)
    requires Enabled(s, RunLocal(t))
    ensures Do(NormalFirst, s, RunLocal(t)).normal.PullResult() == Some(t)
  {
  }

  /** The state before the access with number `k`. */
  function StateAt(order: ReleaseOrder, s: State, acts: seq<Act>, k: nat): State
    requires Legal(order, s, acts) && k <= |acts|
    decreases |acts|
  {
    if k == 0 then s else StateAt(order, Do(order, s, acts[0]), acts[1..], k - 1)
  }

  /** The access `k` pulls from the sync queue and finds it empty, and it is the owner's last
      access in the run. */
  predicate FoundSyncEmpty(order: ReleaseOrder, s: State, acts: seq<Act>, k: nat)
    requires Legal(order, s, acts)
  {
    && k < |acts| && acts[k] == Proceed && Proceed !in acts[k + 1..]
    && StateAt(order, s, acts, k).pc == PullSync && StateAt(order, s, acts, k).sync.Items() == []
  }

  lemma TurnsToNormal(order: ReleaseOrder, s: State, a: Act)
    requires Enabled(s, a) && Do(order, s, a).pc == PullNormal
    ensures if a == Proceed then s.pc == PullSync && s.sync.Items() == [] else s.pc == PullNormal
  {
  }

  lemma {:induction false} SyncWasEmpty(order: ReleaseOrder, s: State, acts: seq<Act>)
    requires Legal(order, s, acts) && After(order, s, acts).pc == PullNormal
    ensures (s.pc == PullNormal && Proceed !in acts) || exists k: nat :: FoundSyncEmpty(order, s, acts, k)
    decreases |acts|
  {
    if acts != [] {
      var s' := Do(order, s, acts[0]);
      SyncWasEmpty(order, s', acts[1..]);
      if s'.pc == PullNormal && Proceed !in acts[1..] {
        TurnsToNormal(order, s, acts[0]);
        if acts[0] == Proceed { assert FoundSyncEmpty(order, s, acts, 0); }
      } else {
        var k: nat :| FoundSyncEmpty(order, s', acts[1..], k);
        assert acts[1..][k + 1..] == acts[k + 2..];
        assert FoundSyncEmpty(order, s, acts, k + 1);
      }
    }
  }

  /** In every run, a normal task is started only if the owner's access just before it was a
      pull that found the sync queue empty. */
  lemma NormalAfterSync(acts: seq<Act>, a: Act)
    requires Legal(NormalFirst, INIT, acts) && Enabled(After(NormalFirst, INIT, acts), a)
    requires
      var s := After(NormalFirst, INIT, acts);
      Do(NormalFirst, s, a).log.starts != s.log.starts
    ensures exists k: nat :: FoundSyncEmpty(NormalFirst, INIT, acts, k)
  {
    SyncWasEmpty(NormalFirst, INIT, acts);
  }

  // ------------------------------------------------ the owner comes to an end

  /** How far the owner is from leaving the kernel if nobody else pushes. */
  function Work(s: State): nat {
    5 * |s.sync.Items()| + 5 * |s.normal.Items()| +
    match s.pc
    case Outside => 0
    case EnterNormal => 8
    case EnterSync => 7
    case EnterFlag => 6
    case PullSync => 5
    case RunSync(_, _) => 6
    case Run(_) => 6
    case PullNormal => if s.sync.Items() != [] then 8 else 4
    case ReleaseFirst => if s.normal.Items() != [] then 6 else if s.sync.Items() != [] then 7 else 3
    case ReleaseSecond => if s.sync.Items() != [] then 6 else 2
    case Leave => 1
  }

  lemma PullWorks(s: State)
    requires s.pc == PullSync || s.pc == PullNormal
    ensures Work(Step(NormalFirst, s)) < Work(s)
  {
    if s.pc == PullSync { PullTakesOldest(s.sync); } else { PullTakesOldest(s.normal); }
  }

  lemma OwnerWorks(s: State)
    requires Inv(s) && Enabled(s, Proceed)
    ensures Work(Step(NormalFirst, s)) < Work(s)
  {
    if s.pc == PullSync || s.pc == PullNormal {
      PullWorks(s);
    } else {
      assert Step(NormalFirst, s).sync.Items() == s.sync.Items();
      assert Step(NormalFirst, s).normal.Items() == s.normal.Items();
    }
  }

  /** What the owner has released is empty and free. */
  predicate ReleasedEmpty(s: State) {
    && (NormalReleased(s.pc) ==> s.normal == EMPTY_QUEUE)
    && (BothReleased(s.pc) ==> s.sync == EMPTY_QUEUE)
  }

  lemma OwnerReleasesEmpty(s: State)
    requires Inv(s) && Enabled(s, Proceed) && ReleasedEmpty(s)
    ensures ReleasedEmpty(Step(NormalFirst, s))
  {
  }

  /** The place after `n` accesses of the owner, or when it left the kernel, with nobody pushing. */
  function Alone(s: State, n: nat): State
    decreases n
  {
    if n == 0 || s.pc == Outside then s else Alone(Step(NormalFirst, s), n - 1)
  }

  lemma {:induction false} OwnerLeaves(s: State, n: nat)
    requires Inv(s) && Work(s) <= n
    ensures Alone(s, n).pc == Outside
    ensures ReleasedEmpty(s) ==> ReleasedEmpty(Alone(s, n))
    decreases n
  {
    if n != 0 && s.pc != Outside {
      OwnerWorks(s);
      StepKeepsInv(s, Proceed);
      if ReleasedEmpty(s) { OwnerReleasesEmpty(s); }
      OwnerLeaves(Step(NormalFirst, s), n - 1);
    }
  }

  lemma {:induction false} OwnerKeepsTasks(s: State, n: nat)
    requires EndedSync(s) && Ended(s)
    ensures EndedSync(Alone(s, n)) && Ended(Alone(s, n))
    ensures AllSync(Alone(s, n)) == AllSync(s) && AllNormal(Alone(s, n)) == AllNormal(s)
    decreases n
  {
    if n != 0 && s.pc != Outside {
      OwnerSync(NormalFirst, s);
      OwnerNormal(NormalFirst, s);
      StepEndedSync(NormalFirst, s, Proceed);
      StepEnded(NormalFirst, s, Proceed);
      OwnerKeepsTasks(Step(NormalFirst, s), n - 1);
    }
  }

  /** From every reachable state the owner gets outside within `Work(s)` accesses if nobody
      pushes. If it had not begun to release the queues, then it has started every task that
      was in a queue, in order, and all have ended. */
  lemma QueuesAreDrained(acts: seq<Act>)
    requires Legal(NormalFirst, INIT, acts)
    ensures
      var s := After(NormalFirst, INIT, acts);
      var s' := Alone(s, Work(s));
      && s'.pc == Outside
      && (!NormalReleased(s.pc) ==>
            && s'.normal == EMPTY_QUEUE && s'.sync == EMPTY_QUEUE
            && s'.log.syncStarts == s.log.syncStarts + s.sync.Items()
            && s'.log.starts == s'.log.ends == s.log.starts + s.normal.Items())
  {
    var s := After(NormalFirst, INIT, acts);
    RunKeepsInv(INIT, acts);
    RunEnded(NormalFirst, INIT, acts);
    OwnerLeaves(s, Work(s));
    OwnerKeepsTasks(s, Work(s));
  }

  lemma Prepend(order: ReleaseOrder, s: State, a: Act, acts: seq<Act>) returns (more: seq<Act>)
    requires Enabled(s, a) && Legal(order, Do(order, s, a), acts)
    ensures Legal(order, s, more) && After(order, s, more) == After(order, Do(order, s, a), acts)
  {
    more := [a] + acts;
    assert more[1..] == acts;
  }

  /** The sync queue is released, the normal queue is not yet. */
  const HALF_RELEASED := State(Queue([], [], true), EMPTY_QUEUE, true, false, ReleaseSecond, map[], NEW_LOG.(syncReleases := 1))

  lemma ReleaseHalf(acts: seq<Act>) returns (more: seq<Act>)
    requires Legal(SyncFirst, HALF_RELEASED, acts)
    ensures Legal(SyncFirst, INIT, more) && After(SyncFirst, INIT, more) == After(SyncFirst, HALF_RELEASED, acts)
  {
    var s1 := Do(SyncFirst, INIT, Proceed);
    var s2 := Do(SyncFirst, s1, Proceed);
    assert Do(SyncFirst, s2, Proceed) == HALF_RELEASED;
    more := Prepend(SyncFirst, s2, Proceed, acts);
    more := Prepend(SyncFirst, s1, Proceed, more);
    more := Prepend(SyncFirst, INIT, Proceed, more);
  }

  /** With the other release order a synchronous task can be left behind: it is pushed after
      the sync queue was released, and the pusher finds the normal queue still owned. */
  lemma OtherOrderLosesWakeup()
    ensures exists acts :: Legal(SyncFirst, INIT, acts) &&
              var s := After(SyncFirst, INIT, acts);
              s.pc == Outside && s.sync.Items() != [] && !s.ipi && s.pushers == map[]
  {
    var s1 := Do(SyncFirst, HALF_RELEASED, PushSync(0, 7));
    var s2 := Do(SyncFirst, s1, Discharge(0));
    assert s2 == HALF_RELEASED.(sync := Queue([], [7], true), log := HALF_RELEASED.log.Preempt());
    var s3 := Do(SyncFirst, s2, Proceed);
    assert s3 == s2.(normal := EMPTY_QUEUE, pc := Leave, log := s2.log.Release(s2.normal));
    var acts := Prepend(SyncFirst, s3, Proceed, []);
    acts := Prepend(SyncFirst, s2, Proceed, acts);
    acts := Prepend(SyncFirst, s1, Discharge(0), acts);
    acts := Prepend(SyncFirst, HALF_RELEASED, PushSync(0, 7), acts);
    acts := ReleaseHalf(acts);
  }
}
