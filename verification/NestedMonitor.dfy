/** The nested monitor: requests are started one after the other, at the place that took the
    queue, and the object is referenced while they run. */
module NestedMonitor {
  import opened Options
  import opened Sequences
  import opened TaskQueue

  /** Where the code of a place stands in `request` or `requestDone`. A place runs one piece
      of kernel code at a time. */
  datatype Pc =
    | Idle
    | Acquired | RefTaken | HomeStored                      // request, after it took the queue
    | DonePull | DoneRelease | DoneRepull                   // requestDone, still the owner
    | DoneClear | DoneUnref                                 // requestDone, queue released
    | AssertionFailed

  datatype Job = Job(task: nat, place: nat)

  /** `scheduled` is the request that waits in the place's own queue, `running` the one that
      was started and is not finished; `answer` is the place to which the response was
      forwarded that will finish it. `others` counts the references that do not come from
      the monitor, `holders` are the places whose monitor reference is counted. `started` lists
      the requests as they were started. */
  datatype State = State(
    waitq: Queue, home: Option<nat>, refcount: int, places: map<nat, Pc>,
    scheduled: Option<Job>, running: Option<Job>, answer: Option<nat>,
    others: nat, holders: set<nat>, started: seq<nat>)
  {
    function Pc(p: nat): Pc { if p in places then places[p] else Idle }
    function Goto(p: nat, pc: Pc): State { this.(places := places[p := pc]) }
  }

  const INIT := State(EMPTY_QUEUE, None, 0, map[], None, None, None, 0, {}, [])

  datatype Act =
    | Request(p: nat, task: nat)
    | RequestDone(p: nat)              // called by the code of the running request
    | Response(p: nat)                 // somebody sends a response to the running request
    | Answer(p: nat)                   // the response that will finish the running request
    | RunAnswer(p: nat)                // its code calls requestDone
    | RunScheduled(p: nat)
    | Proceed(p: nat)
    | AddRef | DropRef                 // references from outside the monitor

  predicate Enabled(s: State, a: Act) {
    match a
    case Request(p, t) => s.Pc(p) == Idle
    case RequestDone(p) => s.Pc(p) == Idle && s.running.Some? && s.running.value.place == p && s.answer.None?
    case Response(p) => s.Pc(p) == Idle && s.running.Some?
    case Answer(p) => s.Pc(p) == Idle && s.running.Some? && s.answer.None?
    case RunAnswer(p) => s.Pc(p) == Idle && s.answer == Some(p)
    case RunScheduled(p) => s.Pc(p) == Idle && s.scheduled.Some? && s.scheduled.value.place == p
    case Proceed(p) => s.Pc(p) != Idle && s.Pc(p) != AssertionFailed
    case AddRef => true
    case DropRef => s.others > 0
  }

  function Do(s: State, a: Act): State
    requires Enabled(s, a)
  {
    match a
    case Request(p, t) =>
      s.(waitq := s.waitq.Push(t)).Goto(p, if s.waitq.held then Idle else Acquired)
    case RequestDone(p) =>
      s.(running := None).Goto(p, if s.home == Some(p) then DonePull else AssertionFailed)
    case Response(p) => if s.home.None? then s.Goto(p, AssertionFailed) else s
    case Answer(p) => if s.home.None? then s.Goto(p, AssertionFailed) else s.(answer := s.home)
    case RunAnswer(p) =>
      s.(running := None, answer := None).Goto(p, if s.home == Some(p) then DonePull else AssertionFailed)
    case RunScheduled(p) =>
      s.(running := s.scheduled, scheduled := None, started := s.started + [s.scheduled.value.task])
    case AddRef => s.(refcount := s.refcount + 1, others := s.others + 1)
    case DropRef => s.(refcount := s.refcount - 1, others := s.others - 1)
    case Proceed(p) => Step(s, p)
  }

  function Step(s: State, p: nat): State
    requires Enabled(s, Proceed(p))
  {
    match s.Pc(p)
    case Acquired => s.(refcount := s.refcount + 1, holders := s.holders + {p}).Goto(p, RefTaken)
    case RefTaken => s.(home := Some(p)).Goto(p, HomeStored)
    case HomeStored =>
      (match s.waitq.PullResult()
       case None => s.(waitq := s.waitq.Pull()).Goto(p, AssertionFailed)
       case Some(t) =>                                      // run inline
         s.(waitq := s.waitq.Pull(), running := Some(Job(t, p)), started := s.started + [t]).Goto(p, Idle))
    case DonePull =>
      (match s.waitq.PullResult()
       case None => s.(waitq := s.waitq.Pull()).Goto(p, DoneRelease)
       case Some(t) => s.(waitq := s.waitq.Pull(), scheduled := Some(Job(t, p))).Goto(p, Idle))
    case DoneRelease =>
      s.(waitq := s.waitq.TryRelease()).Goto(p, if s.waitq.incoming == [] then DoneClear else DoneRepull)
    case DoneRepull =>
      (match s.waitq.PullResult()
       case None => s.(waitq := s.waitq.Pull()).Goto(p, AssertionFailed)
       case Some(t) => s.(waitq := s.waitq.Pull(), scheduled := Some(Job(t, p))).Goto(p, Idle))
    case DoneClear => s.(home := if s.home == Some(p) then None else s.home).Goto(p, DoneUnref)
    case DoneUnref => s.(refcount := s.refcount - 1, holders := s.holders - {p}).Goto(p, Idle)
  }

  predicate Legal(s: State, acts: seq<Act>)
    decreases |acts|
  {
    acts == [] || (Enabled(s, acts[0]) && Legal(Do(s, acts[0]), acts[1..]))
  }

  function After(s: State, acts: seq<Act>): State
    requires Legal(s, acts)
    decreases |acts|
  {
    if acts == [] then s else After(Do(s, acts[0]), acts[1..])
  }

  // ---------------------------------------------------------------- invariant

  /** Code that runs while the place owns the queue. */
  predicate OwnerCode(pc: Pc) {
    pc.Acquired? || pc.RefTaken? || pc.HomeStored? || pc.DonePull? || pc.DoneRelease? || pc.DoneRepull?
  }

  /** The place owns the queue: by its code, or by a request that is scheduled or running. */
  predicate Owns(s: State, p: nat) {
    || OwnerCode(s.Pc(p))
    || (s.running.Some? && s.running.value.place == p)
    || (s.scheduled.Some? && s.scheduled.value.place == p)
  }

  /** The place has its monitor reference. */
  predicate HoldsRef(s: State, p: nat) {
    (Owns(s, p) && s.Pc(p) != Acquired) || s.Pc(p) == DoneClear || s.Pc(p) == DoneUnref
  }

  /** At most one stage at a time: code, scheduled or running. The answer goes where the request
      runs. */
  predicate OneStage(s: State, owner: Option<nat>) {
    && (s.answer.Some? ==> s.running.Some? && s.answer.value == s.running.value.place)
    && !(s.running.Some? && s.scheduled.Some?)
    && (s.running.Some? || s.scheduled.Some? ==> owner.Some? && !OwnerCode(s.Pc(owner.value)))
  }

  predicate OwnerStage(s: State, p: nat) {
    && (s.Pc(p) != Acquired && s.Pc(p) != RefTaken ==> s.home == Some(p))
    && (s.Pc(p).Acquired? || s.Pc(p).RefTaken? || s.Pc(p).HomeStored? ==> s.waitq.Items() != [])
    && (s.Pc(p).DoneRepull? ==> s.waitq.incoming != [])
    && (s.Pc(p).DoneRelease? ==> s.waitq.local == [])
    && (s.Pc(p).Idle? || OwnerCode(s.Pc(p)))
  }

  predicate PlaceOk(s: State, owner: Option<nat>, p: nat) {
    && (Owns(s, p) <==> owner == Some(p))
    && (p in s.holders <==> HoldsRef(s, p))
    && (s.home == Some(p) ==> p in s.holders && s.Pc(p) != RefTaken && s.Pc(p) != DoneUnref)
    && s.Pc(p) != AssertionFailed
  }

  ghost predicate Inv(s: State, owner: Option<nat>) {
    && (!s.waitq.held ==> s.waitq.Items() == []) && (s.waitq.held <==> owner.Some?) && OneStage(s, owner)
    && (owner.Some? ==> OwnerStage(s, owner.value))
    && s.refcount == s.others + |s.holders|
    && (forall p: nat :: PlaceOk(s, owner, p))
  }

  function NextOwner(s: State, a: Act, owner: Option<nat>): Option<nat>
    requires Enabled(s, a)
  {
    match a
    case Request(p, t) => if s.waitq.held then owner else Some(p)
    case Proceed(p) => if s.Pc(p) == DoneRelease && s.waitq.incoming == [] then None else owner
    case _ => owner
  }

  lemma RequestInv(s: State, owner: Option<nat>, p: nat, t: nat)
    requires Inv(s, owner) && Enabled(s, Request(p, t))
    ensures Inv(Do(s, Request(p, t)), NextOwner(s, Request(p, t), owner))
  {
    var s', owner' := Do(s, Request(p, t)), NextOwner(s, Request(p, t), owner);
    assert PlaceOk(s, owner, p);
    assert s'.waitq.Items() == s.waitq.Items() + [t];
    forall q: nat
      ensures PlaceOk(s', owner', q)
    {
      assert PlaceOk(s, owner, q);
    }
  }

  lemma RequestDoneInv(s: State, owner: Option<nat>, p: nat)
    requires Inv(s, owner) && Enabled(s, RequestDone(p))
    ensures Inv(Do(s, RequestDone(p)), NextOwner(s, RequestDone(p), owner))
  {
    var s', owner' := Do(s, RequestDone(p)), NextOwner(s, RequestDone(p), owner);
    assert PlaceOk(s, owner, p);
    forall q: nat
      ensures PlaceOk(s', owner', q)
    {
      assert PlaceOk(s, owner, q);
    }
  }

  lemma ResponseInv(s: State, owner: Option<nat>, p: nat)
    requires Inv(s, owner) && Enabled(s, Response(p))
    ensures Inv(Do(s, Response(p)), NextOwner(s, Response(p), owner))
  {
  }

  lemma AnswerInv(s: State, owner: Option<nat>, p: nat)
    requires Inv(s, owner) && Enabled(s, Answer(p))
    ensures Inv(Do(s, Answer(p)), NextOwner(s, Answer(p), owner))
  {
    var s', owner' := Do(s, Answer(p)), NextOwner(s, Answer(p), owner);
    assert PlaceOk(s, owner, s.running.value.place);
    forall q: nat
      ensures PlaceOk(s', owner', q)
    {
      assert PlaceOk(s, owner, q);
    }
  }

  lemma RunAnswerInv(s: State, owner: Option<nat>, p: nat)
    requires Inv(s, owner) && Enabled(s, RunAnswer(p))
    ensures Inv(Do(s, RunAnswer(p)), NextOwner(s, RunAnswer(p), owner))
  {
    var s', owner' := Do(s, RunAnswer(p)), NextOwner(s, RunAnswer(p), owner);
    assert PlaceOk(s, owner, p);
    forall q: nat
      ensures PlaceOk(s', owner', q)
    {
      assert PlaceOk(s, owner, q);
    }
  }

  lemma RunScheduledInv(s: State, owner: Option<nat>, p: nat)
    requires Inv(s, owner) && Enabled(s, RunScheduled(p))
    ensures Inv(Do(s, RunScheduled(p)), NextOwner(s, RunScheduled(p), owner))
  {
    var s', owner' := Do(s, RunScheduled(p)), NextOwner(s, RunScheduled(p), owner);
    assert PlaceOk(s, owner, p);
    forall q: nat
      ensures PlaceOk(s', owner', q)
    {
      assert PlaceOk(s, owner, q);
    }
  }

  lemma AddRefInv(s: State, owner: Option<nat>)
    requires Inv(s, owner) && Enabled(s, AddRef)
    ensures Inv(Do(s, AddRef), NextOwner(s, AddRef, owner))
  {
    var s', owner' := Do(s, AddRef), NextOwner(s, AddRef, owner);
    forall q: nat
      ensures PlaceOk(s', owner', q)
    {
      assert PlaceOk(s, owner, q);
    }
  }

  lemma DropRefInv(s: State, owner: Option<nat>)
    requires Inv(s, owner) && Enabled(s, DropRef)
    ensures Inv(Do(s, DropRef), NextOwner(s, DropRef, owner))
  {
    var s', owner' := Do(s, DropRef), NextOwner(s, DropRef, owner);
    forall q: nat
      ensures PlaceOk(s', owner', q)
    {
      assert PlaceOk(s, owner, q);
    }
  }

  lemma AcquiredInv(s: State, owner: Option<nat>, p: nat)
    requires Inv(s, owner) && Enabled(s, Proceed(p)) && s.Pc(p) == Acquired
    ensures Inv(Do(s, Proceed(p)), NextOwner(s, Proceed(p), owner))
  {
    var s', owner' := Do(s, Proceed(p)), NextOwner(s, Proceed(p), owner);
    assert PlaceOk(s, owner, p);
    forall q: nat
      ensures PlaceOk(s', owner', q)
    {
      assert PlaceOk(s, owner, q);
    }
  }

  lemma RefTakenInv(s: State, owner: Option<nat>, p: nat)
    requires Inv(s, owner) && Enabled(s, Proceed(p)) && s.Pc(p) == RefTaken
    ensures Inv(Do(s, Proceed(p)), NextOwner(s, Proceed(p), owner))
  {
    var s', owner' := Do(s, Proceed(p)), NextOwner(s, Proceed(p), owner);
    assert PlaceOk(s, owner, p);
    forall q: nat
      ensures PlaceOk(s', owner', q)
    {
      assert PlaceOk(s, owner, q);
    }
  }

  lemma HomeStoredInv(s: State, owner: Option<nat>, p: nat)
    requires Inv(s, owner) && Enabled(s, Proceed(p)) && s.Pc(p) == HomeStored
    ensures Inv(Do(s, Proceed(p)), NextOwner(s, Proceed(p), owner))
  {
    var s', owner' := Do(s, Proceed(p)), NextOwner(s, Proceed(p), owner);
    assert PlaceOk(s, owner, p);
    PullTakesOldest(s.waitq);
    forall q: nat
      ensures PlaceOk(s', owner', q)
    {
      assert PlaceOk(s, owner, q);
    }
  }

  lemma DonePullInv(s: State, owner: Option<nat>, p: nat)
    requires Inv(s, owner) && Enabled(s, Proceed(p)) && s.Pc(p) == DonePull
    ensures Inv(Do(s, Proceed(p)), NextOwner(s, Proceed(p), owner))
  {
    var s', owner' := Do(s, Proceed(p)), NextOwner(s, Proceed(p), owner);
    assert PlaceOk(s, owner, p);
    PullTakesOldest(s.waitq);
    forall q: nat
      ensures PlaceOk(s', owner', q)
    {
      assert PlaceOk(s, owner, q);
    }
  }

  lemma DoneReleaseInv(s: State, owner: Option<nat>, p: nat)
    requires Inv(s, owner) && Enabled(s, Proceed(p)) && s.Pc(p) == DoneRelease
    ensures Inv(Do(s, Proceed(p)), NextOwner(s, Proceed(p), owner))
  {
    var s', owner' := Do(s, Proceed(p)), NextOwner(s, Proceed(p), owner);
    assert PlaceOk(s, owner, p);
    assert s'.waitq.Items() == s.waitq.Items();
    forall q: nat
      ensures PlaceOk(s', owner', q)
    {
      assert PlaceOk(s, owner, q);
    }
  }

  lemma DoneRepullInv(s: State, owner: Option<nat>, p: nat)
    requires Inv(s, owner) && Enabled(s, Proceed(p)) && s.Pc(p) == DoneRepull
    ensures Inv(Do(s, Proceed(p)), NextOwner(s, Proceed(p), owner))
  {
    var s', owner' := Do(s, Proceed(p)), NextOwner(s, Proceed(p), owner);
    assert PlaceOk(s, owner, p);
    PullTakesOldest(s.waitq);
    forall q: nat
      ensures PlaceOk(s', owner', q)
    {
      assert PlaceOk(s, owner, q);
    }
  }

  lemma DoneClearInv(s: State, owner: Option<nat>, p: nat)
    requires Inv(s, owner) && Enabled(s, Proceed(p)) && s.Pc(p) == DoneClear
    ensures Inv(Do(s, Proceed(p)), NextOwner(s, Proceed(p), owner))
  {
    var s', owner' := Do(s, Proceed(p)), NextOwner(s, Proceed(p), owner);
    assert PlaceOk(s, owner, p);
    forall q: nat
      ensures PlaceOk(s', owner', q)
    {
      assert PlaceOk(s, owner, q);
    }
  }

  lemma DoneUnrefInv(s: State, owner: Option<nat>, p: nat)
    requires Inv(s, owner) && Enabled(s, Proceed(p)) && s.Pc(p) == DoneUnref
    ensures Inv(Do(s, Proceed(p)), NextOwner(s, Proceed(p), owner))
  {
    var s', owner' := Do(s, Proceed(p)), NextOwner(s, Proceed(p), owner);
    assert PlaceOk(s, owner, p);
    forall q: nat
      ensures PlaceOk(s', owner', q)
    {
      assert PlaceOk(s, owner, q);
    }
  }

  lemma StepInv(s: State, owner: Option<nat>, a: Act)
    requires Inv(s, owner) && Enabled(s, a)
    ensures Inv(Do(s, a), NextOwner(s, a, owner))
  {
    match a
    case Request(p, t) => RequestInv(s, owner, p, t);
    case RequestDone(p) => RequestDoneInv(s, owner, p);
    case Response(p) => ResponseInv(s, owner, p);
    case Answer(p) => AnswerInv(s, owner, p);
    case RunAnswer(p) => RunAnswerInv(s, owner, p);
    case RunScheduled(p) => RunScheduledInv(s, owner, p);
    case AddRef => AddRefInv(s, owner);
    case DropRef => DropRefInv(s, owner);
    case Proceed(p) =>
      match s.Pc(p)
      case Acquired => AcquiredInv(s, owner, p);
      case RefTaken => RefTakenInv(s, owner, p);
      case HomeStored => HomeStoredInv(s, owner, p);
      case DonePull => DonePullInv(s, owner, p);
      case DoneRelease => DoneReleaseInv(s, owner, p);
      case DoneRepull => DoneRepullInv(s, owner, p);
      case DoneClear => DoneClearInv(s, owner, p);
      case DoneUnref => DoneUnrefInv(s, owner, p);
  }

  lemma {:induction false} RunInv(s: State, owner: Option<nat>, acts: seq<Act>) returns (owner': Option<nat>)
    requires Inv(s, owner) && Legal(s, acts)
    ensures Inv(After(s, acts), owner')
    decreases |acts|
  {
    owner' := owner;
    if acts != [] {
      StepInv(s, owner, acts[0]);
      owner' := RunInv(Do(s, acts[0]), NextOwner(s, acts[0], owner), acts[1..]);
    }
  }

  // -------------------------------------------------------- requests of a run

  /** The requests of a run, in order. */
  function Requests(acts: seq<Act>): seq<nat> {
    if acts == [] then [] else (if acts[0].Request? then [acts[0].task] else []) + Requests(acts[1..])
  }

  /** How often a run finishes a request. */
  function Finishes(acts: seq<Act>): nat {
    if acts == [] then 0 else (if acts[0].RequestDone? || acts[0].RunAnswer? then 1 else 0) + Finishes(acts[1..])
  }

  /** The references that a run takes and gives back outside of the monitor. */
  function Refs(acts: seq<Act>): int {
    if acts == [] then 0 else (if acts[0].AddRef? then 1 else if acts[0].DropRef? then -1 else 0) + Refs(acts[1..])
  }

  /** The requests that were started, then the one that is scheduled, then those that wait. */
  function Line(s: State): seq<nat> {
    s.started + (if s.scheduled.Some? then [s.scheduled.value.task] else []) + s.waitq.Items()
  }

  lemma PullLine(s: State, owner: Option<nat>, p: nat)
    requires Inv(s, owner) && Enabled(s, Proceed(p))
    requires s.Pc(p) == HomeStored || s.Pc(p) == DonePull || s.Pc(p) == DoneRepull
    ensures Line(Step(s, p)) == Line(s)
  {
    assert PlaceOk(s, owner, p);
    PullMovesBorder(s.started, s.waitq);
  }

  lemma StepLine(s: State, owner: Option<nat>, a: Act)
    requires Inv(s, owner) && Enabled(s, a)
    ensures Line(Do(s, a)) == Line(s) + if a.Request? then [a.task] else []
  {
    match a
    case Request(p, t) => PushAppends(s.started + (if s.scheduled.Some? then [s.scheduled.value.task] else []), s.waitq, t);
    case Proceed(p) =>
      if s.Pc(p) == HomeStored || s.Pc(p) == DonePull || s.Pc(p) == DoneRepull { PullLine(s, owner, p); }
      else { assert Step(s, p).waitq.Items() == s.waitq.Items(); }
    case _ =>
  }

  /** The request that runs is the last one that was started; `n` were finished. */
  predicate Counted(s: State, n: nat) {
    && |s.started| == n + (if s.running.Some? then 1 else 0)
    && (s.running.Some? ==> s.started[n] == s.running.value.task)
  }

  lemma StepCounted(s: State, owner: Option<nat>, a: Act, n: nat)
    requires Inv(s, owner) && Enabled(s, a) && Counted(s, n)
    ensures Counted(Do(s, a), n + if a.RequestDone? || a.RunAnswer? then 1 else 0)
  {
    if a.Proceed? { assert PlaceOk(s, owner, a.p); }
  }

  lemma StepRefs(s: State, a: Act)
    requires Enabled(s, a)
    ensures Do(s, a).others == s.others + Refs([a])
  {
    assert Refs([a][1..]) == 0;
  }

  lemma {:induction false} RunRefs(s: State, acts: seq<Act>)
    requires Legal(s, acts)
    ensures After(s, acts).others == s.others + Refs(acts)
    decreases |acts|
  {
    if acts != [] {
      StepRefs(s, acts[0]);
      assert Refs([acts[0]][1..]) == 0;
      RunRefs(Do(s, acts[0]), acts[1..]);
    }
  }

  lemma {:induction false} RunLine(s: State, owner: Option<nat>, acts: seq<Act>)
    requires Inv(s, owner) && Legal(s, acts)
    ensures Line(After(s, acts)) == Line(s) + Requests(acts)
    decreases |acts|
  {
    if acts != [] {
      StepInv(s, owner, acts[0]);
      StepLine(s, owner, acts[0]);
      RunLine(Do(s, acts[0]), NextOwner(s, acts[0], owner), acts[1..]);
      Concat(Line(s), if acts[0].Request? then [acts[0].task] else [], Requests(acts[1..]));
    }
  }

  lemma {:induction false} RunCounted(s: State, owner: Option<nat>, acts: seq<Act>, n: nat)
    requires Inv(s, owner) && Legal(s, acts) && Counted(s, n)
    ensures Counted(After(s, acts), n + Finishes(acts))
    decreases |acts|
  {
    if acts != [] {
      StepInv(s, owner, acts[0]);
      StepCounted(s, owner, acts[0], n);
      var n' := n + if acts[0].RequestDone? || acts[0].RunAnswer? then 1 else 0;
      RunCounted(Do(s, acts[0]), NextOwner(s, acts[0], owner), acts[1..], n');
    }
  }

  lemma RunFromStart(acts: seq<Act>) returns (owner: Option<nat>)
    requires Legal(INIT, acts)
    ensures
      var s := After(INIT, acts);
      Inv(s, owner) && Counted(s, Finishes(acts)) && Line(s) == Requests(acts) && s.others == Refs(acts)
  {
    assert Line(INIT) == [];
    RunRefs(INIT, acts);
    RunLine(INIT, None, acts);
    RunCounted(INIT, None, acts, 0);
    owner := RunInv(INIT, None, acts);
  }

  // ------------------------------------------------------------------ theorems

  /** In every run, with any number of places: while a request is started and unfinished,
      `home` is the place that executes it, although the previous owner may clear `home` late,
      and the object is referenced. A response is forwarded to that place, and `home` is still
      the same when it runs there. No assertion of the monitor fails, so in particular the
      pull after a failed release finds a request. */
  lemma MonitorIsSafe(acts: seq<Act>, p: nat)
    requires Legal(INIT, acts)
    ensures
      var s := After(INIT, acts);
      && s.Pc(p) != AssertionFailed
      && (s.running.Some? ==> s.home == Some(s.running.value.place) && s.refcount > Refs(acts) && s.waitq.held)
      && !(s.running.Some? && s.scheduled.Some?)
      && (s.answer.Some? ==> s.running.Some? && s.home == s.answer)
  {
    var owner := RunFromStart(acts);
    var s := After(INIT, acts);
    assert PlaceOk(s, owner, p);
    if s.running.Some? {
      var r := s.running.value.place;
      assert PlaceOk(s, owner, r);
      assert r in s.holders;
      assert |s.holders| == |s.holders - {r}| + 1;
    }
  }

  /** Requests are started once each, in the order in which they were made, and each is finished
      before the next one is started; the others wait in this order. */
  lemma RequestsInOrder(acts: seq<Act>)
    requires Legal(INIT, acts)
    ensures
      var s := After(INIT, acts);
      && Requests(acts) == s.started + (if s.scheduled.Some? then [s.scheduled.value.task] else []) + s.waitq.Items()
      && |s.started| == Finishes(acts) + (if s.running.Some? then 1 else 0)
      && (s.running.Some? ==> s.running.value.task == Requests(acts)[Finishes(acts)])
  {
    var owner := RunFromStart(acts);
  }

  /** When the monitor is at rest, only the references from outside are left, and no home. */
  lemma NoReferenceLeaks(acts: seq<Act>)
    requires Legal(INIT, acts) && !After(INIT, acts).waitq.held
    requires forall p: nat :: After(INIT, acts).Pc(p) == Idle
    ensures After(INIT, acts).refcount == Refs(acts) && After(INIT, acts).home.None?
  {
    var owner := RunFromStart(acts);
    var s := After(INIT, acts);
    forall p: nat ensures p !in s.holders && s.home != Some(p) { assert PlaceOk(s, owner, p); }
    assert s.holders == {};
  }

  /** Only one place is in the part of the code that owns the queue, and while a request runs
      or is scheduled, no place is. */
  lemma OneRequestAtATime(acts: seq<Act>, p: nat, q: nat)
    requires Legal(INIT, acts)
    ensures
      var s := After(INIT, acts);
      && (Owns(s, p) && Owns(s, q) ==> p == q)
      && (s.running.Some? || s.scheduled.Some? ==> !OwnerCode(s.Pc(p)))
  {
    var owner := RunInv(INIT, None, acts);
    var s := After(INIT, acts);
    assert PlaceOk(s, owner, p) && PlaceOk(s, owner, q);
  }

  // ----------------------------------------------------------------- progress

  /** How far the owner is from its next pull. */
  function Stage(s: State, owner: Option<nat>): nat {
    if owner.None? then 0
    else if s.running.Some? then 3
    else if s.scheduled.Some? then 4
    else
      match s.Pc(owner.value)
      case Acquired => 6
      case RefTaken => 5
      case HomeStored => 4
      case DonePull => 2
      case DoneRelease => if s.waitq.Items() == [] then 1 else 4
      case _ => 3
  }

  /** Bounds the steps of the owners until the queue is free. */
  function Work(s: State, owner: Option<nat>): nat { 4 * |s.waitq.Items()| + Stage(s, owner) }

  /** A step of the place that owns the queue, with its request. */
  predicate IsOwnerStep(a: Act, owner: Option<nat>) {
    (a.Proceed? || a.RunScheduled? || a.RequestDone? || a.RunAnswer?) && owner == Some(a.p)
  }

  lemma PullReducesWork(s: State, owner: Option<nat>, p: nat)
    requires Inv(s, owner) && Enabled(s, Proceed(p))
    requires s.Pc(p) == HomeStored || s.Pc(p) == DonePull || s.Pc(p) == DoneRepull
    ensures owner == Some(p) && Work(Step(s, p), owner) < Work(s, owner)
  {
    assert PlaceOk(s, owner, p);
    PullTakesOldest(s.waitq);
  }

  lemma StepReducesWork(s: State, owner: Option<nat>, a: Act)
    requires Inv(s, owner) && Enabled(s, a) && !a.Request?
    ensures
      var work := Work(Do(s, a), NextOwner(s, a, owner));
      if IsOwnerStep(a, owner) then work < Work(s, owner) else work == Work(s, owner)
  {
    if a.Proceed? && (s.Pc(a.p) == HomeStored || s.Pc(a.p) == DonePull || s.Pc(a.p) == DoneRepull) {
      PullReducesWork(s, owner, a.p);
    } else {
      if !a.AddRef? && !a.DropRef? { assert PlaceOk(s, owner, a.p); }
      assert Do(s, a).waitq.Items() == s.waitq.Items();
    }
  }

  /** As long as a request is not finished, the place that owns the queue can go on. */
  lemma OwnerCanStep(s: State, owner: Option<nat>) returns (a: Act)
    requires Inv(s, owner) && owner.Some?
    ensures Enabled(s, a) && IsOwnerStep(a, owner)
  {
    var p := owner.value;
    assert PlaceOk(s, owner, p);
    if s.running.Some? {
      assert PlaceOk(s, owner, s.running.value.place);
      a := if s.answer.Some? then RunAnswer(p) else RequestDone(p);
    } else if s.scheduled.Some? {
      assert PlaceOk(s, owner, s.scheduled.value.place);
      a := RunScheduled(p);
    } else {
      a := Proceed(p);
    }
  }

  function OwnerSteps(s: State, owner: Option<nat>, acts: seq<Act>): nat
    requires Legal(s, acts)
    decreases |acts|
  {
    if acts == [] then 0 else
      (if IsOwnerStep(acts[0], owner) then 1 else 0) + OwnerSteps(Do(s, acts[0]), NextOwner(s, acts[0], owner), acts[1..])
  }

  lemma {:induction false} RunReducesWork(s: State, owner: Option<nat>, acts: seq<Act>) returns (owner': Option<nat>)
    requires Inv(s, owner) && Legal(s, acts) && Requests(acts) == []
    ensures Inv(After(s, acts), owner')
    ensures OwnerSteps(s, owner, acts) + Work(After(s, acts), owner') <= Work(s, owner)
    decreases |acts|
  {
    owner' := owner;
    if acts != [] {
      StepInv(s, owner, acts[0]);
      StepReducesWork(s, owner, acts[0]);
      owner' := RunReducesWork(Do(s, acts[0]), NextOwner(s, acts[0], owner), acts[1..]);
    }
  }

  /** From every reachable state, whatever is scheduled: once no new request comes in, the place
      that owns the queue takes at most four steps for each waiting request and six more; as
      long as a request is not finished it can take one. */
  lemma RequestsAreServed(acts: seq<Act>, more: seq<Act>) returns (owner: Option<nat>, owner': Option<nat>)
    requires Legal(INIT, acts) && Legal(After(INIT, acts), more) && Requests(more) == []
    ensures
      var s, n := After(INIT, acts), |After(INIT, acts).waitq.Items()|;
      var s' := After(s, more);
      && OwnerSteps(s, owner, more) <= 4 * n + 6
      && (owner'.None? ==> s'.scheduled.None? && s'.running.None? && s'.waitq == EMPTY_QUEUE)
      && (owner'.Some? ==> exists a :: Enabled(s', a) && IsOwnerStep(a, owner'))
  {
    owner := RunInv(INIT, None, acts);
    owner' := RunReducesWork(After(INIT, acts), owner, more);
    if owner'.Some? { var a := OwnerCanStep(After(After(INIT, acts), more), owner'); }
  }
}
