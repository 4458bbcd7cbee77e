/** Synchronous tasks between places: a sender waits until its task has run at the
    destination, and runs the tasks that are sent to itself while it waits. Tasks can send
    further tasks. */
module SynchronousTask {
  import opened Options

  datatype Status = Queued | Running | Done | Returned

  datatype Task = Task(sender: nat, dest: nat, status: Status) {
    predicate IsLocal() { sender == dest }
  }

  /** Which task was executed, and where. */
  datatype Run = Run(task: nat, place: nat)

  /** A place is in a call of `atomic` that waits for its task, or in the body of a task. */
  datatype Frame = Waiting(task: nat) | Busy(task: nat)

  /** `stacks` are the nested calls of the places, the innermost last; a place without any runs
      other code. `queues` are the sync queues of the places; `runs` lists the tasks as they
      were executed. */
  datatype State = State(stacks: map<nat, seq<Frame>>, queues: map<nat, seq<nat>>, tasks: seq<Task>, runs: seq<Run>) {
    function Stack(p: nat): seq<Frame> { if p in stacks then stacks[p] else [] }
    function Top(p: nat): Option<Frame> { if Stack(p) == [] then None else Some(Stack(p)[|Stack(p)| - 1]) }
    function Queue(p: nat): seq<nat> { if p in queues then queues[p] else [] }
    function Push(p: nat, f: Frame): State { this.(stacks := stacks[p := Stack(p) + [f]]) }
    function Pop(p: nat): State
      requires Stack(p) != []
    {
      this.(stacks := stacks[p := Stack(p)[..|Stack(p)| - 1]])
    }
    function SetStatus(t: nat, st: Status): State
      requires t < |tasks|
    {
      this.(tasks := tasks[t := tasks[t].(status := st)])
    }
  }

  const INIT := State(map[], map[], [], [])

  datatype Act =
    | Send(p: nat, dest: nat)    // run it here, or push it to another place and start to wait
    | Poll(p: nat)               // the done flag is set: return
    | Take(p: nat)               // pull a task from the own sync queue
    | Finish(p: nat)             // the task body ends and signals completion

  predicate IsWaiting(s: State, p: nat) { s.Top(p).Some? && s.Top(p).value.Waiting? && s.Top(p).value.task < |s.tasks| }

  predicate IsBusy(s: State, p: nat) { s.Top(p).Some? && s.Top(p).value.Busy? && s.Top(p).value.task < |s.tasks| }

  /** Other code and task bodies send; other code and waiting calls process the sync queue. */
  predicate Enabled(s: State, a: Act) {
    match a
    case Send(p, dest) => s.Stack(p) == [] || IsBusy(s, p)
    case Poll(p) => IsWaiting(s, p) && s.tasks[s.Top(p).value.task].status == Done
    case Take(p) => (s.Stack(p) == [] || IsWaiting(s, p)) && s.Queue(p) != [] && s.Queue(p)[0] < |s.tasks|
    case Finish(p) => IsBusy(s, p)
  }

  function Do(s: State, a: Act): State
    requires Enabled(s, a)
  {
    match a
    case Send(p, dest) =>
      var t := |s.tasks|;
      if dest == p then s.(tasks := s.tasks + [Task(p, p, Running)], runs := s.runs + [Run(t, p)]).Push(p, Busy(t))
      else s.(tasks := s.tasks + [Task(p, dest, Queued)], queues := s.queues[dest := s.Queue(dest) + [t]])
            .Push(p, Waiting(t))
    case Poll(p) => s.SetStatus(s.Top(p).value.task, Returned).Pop(p)
    case Take(p) =>
      var t := s.Queue(p)[0];
      s.(queues := s.queues[p := s.Queue(p)[1..]], runs := s.runs + [Run(t, p)]).SetStatus(t, Running).Push(p, Busy(t))
    case Finish(p) =>
      var t := s.Top(p).value.task;
      s.SetStatus(t, if s.tasks[t].IsLocal() then Returned else Done).Pop(p)
  }

  predicate Legal(s: State, acts: seq<Act>)
    decreases |acts|
  {
    acts == [] || (Enabled(s, acts[0]) && Legal(Do(s, acts[0]), acts[1..]))
  }

  function After(s: State, acts: seq<Act>): State
    requires Legal(s, acts)
    decreases |acts|
  {
    if acts == [] then s else After(Do(s, acts[0]), acts[1..])
  }

  // ---------------------------------------------------------------- invariant

  /** A frame belongs to an unfinished task: of this sender, or one that runs here. */
  predicate FrameOk(s: State, p: nat, f: Frame) {
    && f.task < |s.tasks|
    && match f
       case Waiting(t) => s.tasks[t].sender == p && !s.tasks[t].IsLocal() && s.tasks[t].status != Returned
       case Busy(t) => s.tasks[t].dest == p && s.tasks[t].status == Running
  }

  /** Frames do not repeat, and what a task waits for was sent after the task. */
  ghost predicate Nested(q: seq<Frame>) {
    forall i, j :: 0 <= i < j < |q| ==> q[i] != q[j] && (q[i].Busy? && q[j].Waiting? ==> q[i].task < q[j].task)
  }

  ghost predicate StackOk(s: State, p: nat) {
    Nested(s.Stack(p)) && forall f :: f in s.Stack(p) ==> FrameOk(s, p, f)
  }

  /** The queue holds tasks for this place in the order in which they were sent. */
  ghost predicate QueueOk(s: State, p: nat) {
    var q := s.Queue(p);
    && (forall i :: 0 <= i < |q| ==> q[i] < |s.tasks| && s.tasks[q[i]].status == Queued && s.tasks[q[i]].dest == p)
    && (forall i, j :: 0 <= i < j < |q| ==> q[i] < q[j])
  }

  /** How often a task was executed. */
  function Count(runs: seq<Run>, t: nat): nat {
    if runs == [] then 0 else Count(runs[..|runs| - 1], t) + if runs[|runs| - 1].task == t then 1 else 0
  }

  /** An unfinished task is in the queue of its destination or runs there, and its sender
      waits until it is finished. */
  predicate TaskOk(s: State, t: nat)
    requires t < |s.tasks|
  {
    var k := s.tasks[t];
    && (k.status == Queued ==> t in s.Queue(k.dest))
    && (k.status == Running ==> Busy(t) in s.Stack(k.dest))
    && (k.IsLocal() ==> k.status == Running || k.status == Returned)
    && (!k.IsLocal() && k.status != Returned ==> Waiting(t) in s.Stack(k.sender))
    && (!k.IsLocal() && k.status != Queued && s.Queue(k.dest) != [] ==> t < s.Queue(k.dest)[0])
    && Count(s.runs, t) == (if k.status == Queued then 0 else 1)
  }

  predicate RunOk(s: State, r: Run) { r.task < |s.tasks| && r.place == s.tasks[r.task].dest }

  ghost predicate Inv(s: State) {
    && (forall p: nat :: StackOk(s, p))
    && (forall p: nat :: QueueOk(s, p))
    && (forall t: nat :: t < |s.tasks| ==> TaskOk(s, t))
    && (forall i :: 0 <= i < |s.runs| ==> RunOk(s, s.runs[i]))
  }

  lemma NestedPush(q: seq<Frame>, f: Frame)
    requires Nested(q) && f !in q && (f.Waiting? ==> forall g :: g in q ==> g.task < f.task)
    ensures Nested(q + [f]) && forall g :: g in q + [f] <==> g in q || g == f
  {
  }

  lemma NestedPop(q: seq<Frame>)
    requires Nested(q) && q != []
    ensures Nested(q[..|q| - 1]) && forall g :: g in q[..|q| - 1] <==> g in q && g != q[|q| - 1]
  {
    var rest := q[..|q| - 1];
    forall g | g in q && g != q[|q| - 1] ensures g in rest {
      var i :| 0 <= i < |q| && q[i] == g;
      assert rest[i] == g;
    }
  }

  lemma {:induction false} CountAbsent(runs: seq<Run>, t: nat)
    requires forall i :: 0 <= i < |runs| ==> runs[i].task < t
    ensures Count(runs, t) == 0
  {
    if runs != [] { CountAbsent(runs[..|runs| - 1], t); }
  }

  lemma SendStack(s: State, p: nat, dest: nat)
    requires Inv(s) && Enabled(s, Send(p, dest))
    ensures
      var s', f := Do(s, Send(p, dest)), if dest == p then Busy(|s.tasks|) else Waiting(|s.tasks|);
      StackOk(s', p) && forall g :: g in s'.Stack(p) <==> g in s.Stack(p) || g == f
  {
    var s', f := Do(s, Send(p, dest)), if dest == p then Busy(|s.tasks|) else Waiting(|s.tasks|);
    assert StackOk(s, p);
    forall g | g in s.Stack(p) ensures g.task < |s.tasks| && FrameOk(s', p, g) { assert FrameOk(s, p, g); }
    NestedPush(s.Stack(p), f);
  }

  /** Places whose stack does not change do not notice that a task is added or started. */
  lemma StackFrame(s: State, s': State, q: nat)
    requires StackOk(s, q) && s'.Stack(q) == s.Stack(q) && |s.tasks| <= |s'.tasks|
    requires forall t: nat :: t < |s.tasks| ==>
      s'.tasks[t] == s.tasks[t] || (s.tasks[t].status == Queued && s'.tasks[t] == s.tasks[t].(status := Running))
    ensures StackOk(s', q)
  {
    forall f | f in s'.Stack(q) ensures FrameOk(s', q, f) { assert FrameOk(s, q, f); }
  }

  lemma SendQueue(s: State, p: nat, dest: nat, q: nat)
    requires Inv(s) && Enabled(s, Send(p, dest))
    ensures QueueOk(Do(s, Send(p, dest)), q)
  {
    var s' := Do(s, Send(p, dest));
    assert QueueOk(s, q);
    assert s'.Queue(q) == if q == dest && dest != p then s.Queue(q) + [|s.tasks|] else s.Queue(q);
  }

  lemma SendPlaces(s: State, p: nat, dest: nat, q: nat)
    requires Inv(s) && Enabled(s, Send(p, dest))
    ensures StackOk(Do(s, Send(p, dest)), q) && QueueOk(Do(s, Send(p, dest)), q)
  {
    SendQueue(s, p, dest, q);
    if q == p {
      SendStack(s, p, dest);
    } else {
      assert StackOk(s, q);
      StackFrame(s, Do(s, Send(p, dest)), q);
    }
  }

  lemma SendTasks(s: State, p: nat, dest: nat, t: nat)
    requires Inv(s) && Enabled(s, Send(p, dest)) && t <= |s.tasks|
    ensures TaskOk(Do(s, Send(p, dest)), t)
  {
    var s' := Do(s, Send(p, dest));
    SendStack(s, p, dest);
    assert dest == p ==> s'.runs[..|s'.runs| - 1] == s.runs;
    if t < |s.tasks| {
      assert TaskOk(s, t);
    } else {
      forall i | 0 <= i < |s.runs| ensures s.runs[i].task < t { assert RunOk(s, s.runs[i]); }
      CountAbsent(s.runs, t);
    }
  }

  lemma SendInv(s: State, p: nat, dest: nat)
    requires Inv(s) && Enabled(s, Send(p, dest))
    ensures Inv(Do(s, Send(p, dest)))
  {
    var s' := Do(s, Send(p, dest));
    forall q: nat ensures StackOk(s', q) && QueueOk(s', q) { SendPlaces(s, p, dest, q); }
    forall t: nat | t < |s'.tasks| ensures TaskOk(s', t) { SendTasks(s, p, dest, t); }
    forall i | 0 <= i < |s'.runs| ensures RunOk(s', s'.runs[i]) {
      if i < |s.runs| { assert RunOk(s, s.runs[i]); }
    }
  }

  /** The innermost call ends: nobody else has a frame of this kind for its task. */
  lemma EndStack(s: State, p: nat, st: Status)
    requires Inv(s) && s.Top(p).Some? && s.Top(p).value.task < |s.tasks|
    requires
      var f := s.Top(p).value;
      if f.Waiting? then s.tasks[f.task].status == Done && st == Returned
      else st == if s.tasks[f.task].IsLocal() then Returned else Done
    ensures
      var s', f := s.SetStatus(s.Top(p).value.task, st).Pop(p), s.Top(p).value;
      && (forall g :: g in s'.Stack(p) <==> g in s.Stack(p) && g != f)
      && (forall q: nat :: StackOk(s', q))
  {
    var s', f := s.SetStatus(s.Top(p).value.task, st).Pop(p), s.Top(p).value;
    assert StackOk(s, p) && f in s.Stack(p) && FrameOk(s, p, f);
    NestedPop(s.Stack(p));
    forall q: nat ensures StackOk(s', q) {
      assert StackOk(s, q);
      forall g | g in s'.Stack(q) ensures FrameOk(s', q, g) {
        assert g in s.Stack(q) && FrameOk(s, q, g);
      }
    }
  }

  lemma PollInv(s: State, p: nat)
    requires Inv(s) && Enabled(s, Poll(p))
    ensures Inv(Do(s, Poll(p)))
  {
    var s' := Do(s, Poll(p));
    assert StackOk(s, p) && s.Top(p).value in s.Stack(p) && FrameOk(s, p, s.Top(p).value);
    EndStack(s, p, Returned);
    forall q: nat ensures QueueOk(s', q) { assert QueueOk(s, q); }
    forall t: nat | t < |s'.tasks| ensures TaskOk(s', t) { assert TaskOk(s, t); }
    forall i | 0 <= i < |s'.runs| ensures RunOk(s', s'.runs[i]) { assert RunOk(s, s.runs[i]); }
  }

  lemma FinishInv(s: State, p: nat)
    requires Inv(s) && Enabled(s, Finish(p))
    ensures Inv(Do(s, Finish(p)))
  {
    var s', t0 := Do(s, Finish(p)), s.Top(p).value.task;
    assert StackOk(s, p) && s.Top(p).value in s.Stack(p) && FrameOk(s, p, s.Top(p).value);
    EndStack(s, p, if s.tasks[t0].IsLocal() then Returned else Done);
    forall q: nat ensures QueueOk(s', q) { assert QueueOk(s, q); }
    forall t: nat | t < |s'.tasks| ensures TaskOk(s', t) { assert TaskOk(s, t); }
    forall i | 0 <= i < |s'.runs| ensures RunOk(s', s'.runs[i]) { assert RunOk(s, s.runs[i]); }
  }

  lemma TakeStack(s: State, p: nat)
    requires Inv(s) && Enabled(s, Take(p))
    ensures
      var s', t0 := Do(s, Take(p)), s.Queue(p)[0];
      StackOk(s', p) && forall g :: g in s'.Stack(p) <==> g in s.Stack(p) || g == Busy(t0)
  {
    var s', t0 := Do(s, Take(p)), s.Queue(p)[0];
    assert StackOk(s, p) && QueueOk(s, p);
    forall g | g in s.Stack(p) ensures g != Busy(t0) && FrameOk(s', p, g) { assert FrameOk(s, p, g); }
    NestedPush(s.Stack(p), Busy(t0));
  }

  lemma TakeQueue(s: State, p: nat, q: nat)
    requires Inv(s) && Enabled(s, Take(p))
    ensures QueueOk(Do(s, Take(p)), q)
  {
    var s' := Do(s, Take(p));
    assert QueueOk(s, q) && QueueOk(s, p);
    if q == p {
      assert s'.Queue(p) == s.Queue(p)[1..];
      forall i | 0 <= i < |s'.Queue(p)| ensures s'.Queue(p)[i] == s.Queue(p)[i + 1] != s.Queue(p)[0] {}
    } else {
      assert s'.Queue(q) == s.Queue(q);
    }
  }

  lemma TakePlaces(s: State, p: nat, q: nat)
    requires Inv(s) && Enabled(s, Take(p))
    ensures StackOk(Do(s, Take(p)), q) && QueueOk(Do(s, Take(p)), q)
  {
    TakeQueue(s, p, q);
    if q == p {
      TakeStack(s, p);
    } else {
      assert StackOk(s, q) && QueueOk(s, p);
      StackFrame(s, Do(s, Take(p)), q);
    }
  }

  lemma TakeTasks(s: State, p: nat, t: nat)
    requires Inv(s) && Enabled(s, Take(p)) && t < |s.tasks|
    ensures TaskOk(Do(s, Take(p)), t)
  {
    var s' := Do(s, Take(p));
    TakeStack(s, p);
    assert QueueOk(s, p);
    assert TaskOk(s, s.Queue(p)[0]) && TaskOk(s, t);
    assert s'.runs[..|s'.runs| - 1] == s.runs;
    assert s.Queue(p) == [s.Queue(p)[0]] + s'.Queue(p);
  }

  lemma TakeInv(s: State, p: nat)
    requires Inv(s) && Enabled(s, Take(p))
    ensures Inv(Do(s, Take(p)))
  {
    var s' := Do(s, Take(p));
    forall q: nat ensures StackOk(s', q) && QueueOk(s', q) { TakePlaces(s, p, q); }
    forall t: nat | t < |s'.tasks| ensures TaskOk(s', t) { TakeTasks(s, p, t); }
    forall i | 0 <= i < |s'.runs| ensures RunOk(s', s'.runs[i]) {
      if i < |s.runs| { assert RunOk(s, s.runs[i]); } else { assert QueueOk(s, p); }
    }
  }

  lemma StepInv(s: State, a: Act)
    requires Inv(s) && Enabled(s, a)
    ensures Inv(Do(s, a))
  {
    match a
    case Send(p, dest) => SendInv(s, p, dest);
    case Poll(p) => PollInv(s, p);
    case Take(p) => TakeInv(s, p);
    case Finish(p) => FinishInv(s, p);
  }

  lemma {:induction false} RunInv(s: State, acts: seq<Act>)
    requires Inv(s) && Legal(s, acts)
    ensures Inv(After(s, acts))
    decreases |acts|
  {
    if acts != [] {
      StepInv(s, acts[0]);
      RunInv(Do(s, acts[0]), acts[1..]);
    }
  }

  // ------------------------------------------------------------------ theorems

  /** The sends of a run, in order. */
  function Sends(acts: seq<Act>): (sends: seq<Act>)
    ensures forall i :: 0 <= i < |sends| ==> sends[i].Send?
  {
    if acts == [] then [] else (if acts[0].Send? then [acts[0]] else []) + Sends(acts[1..])
  }

  /** From `n` on, the tasks are the given sends. */
  predicate AreSent(tasks: seq<Task>, n: nat, sends: seq<Act>) {
    && |tasks| == n + |sends|
    && forall i :: 0 <= i < |sends| ==> sends[i] == Send(tasks[n + i].sender, tasks[n + i].dest)
  }

  lemma StepSends(s: State, a: Act)
    requires Enabled(s, a)
    ensures AreSent(Do(s, a).tasks, |s.tasks|, if a.Send? then [a] else [])
    ensures forall i :: 0 <= i < |s.tasks| ==>
      Do(s, a).tasks[i].sender == s.tasks[i].sender && Do(s, a).tasks[i].dest == s.tasks[i].dest
  {
  }

  lemma {:induction false} RunSends(s: State, acts: seq<Act>)
    requires Legal(s, acts)
    ensures AreSent(After(s, acts).tasks, |s.tasks|, Sends(acts))
    ensures forall i :: 0 <= i < |s.tasks| ==>
      After(s, acts).tasks[i].sender == s.tasks[i].sender && After(s, acts).tasks[i].dest == s.tasks[i].dest
    decreases |acts|
  {
    if acts != [] {
      var rest, end := Sends(acts[1..]), After(s, acts);
      StepSends(s, acts[0]);
      RunSends(Do(s, acts[0]), acts[1..]);
      forall i | 0 <= i < |Sends(acts)|
        ensures Sends(acts)[i] == Send(end.tasks[|s.tasks| + i].sender, end.tasks[|s.tasks| + i].dest)
      {
        if !acts[0].Send? { assert Sends(acts) == rest; }
        else if i > 0 { assert Sends(acts)[i] == rest[i - 1]; }
      }
    }
  }

  /** In every run, the task of a send is executed at most once and nowhere but at the place it
      was sent to; exactly once before the sender returns, which is in its call until then. */
  lemma EachTaskRunsOnce(acts: seq<Act>, k: nat)
    requires Legal(INIT, acts) && k < |Sends(acts)|
    ensures
      var s, send := After(INIT, acts), Sends(acts)[k];
      && |s.tasks| == |Sends(acts)|
      && (forall i :: 0 <= i < |s.runs| && s.runs[i].task == k ==> s.runs[i].place == send.dest)
      && Count(s.runs, k) <= 1
      && (s.tasks[k].status == Done || s.tasks[k].status == Returned ==> Count(s.runs, k) == 1)
      && (s.tasks[k].status != Returned <==> (if send.dest == send.p then Busy(k) else Waiting(k)) in s.Stack(send.p))
  {
    var s, send := After(INIT, acts), Sends(acts)[k];
    RunInv(INIT, acts);
    RunSends(INIT, acts);
    assert TaskOk(s, k) && StackOk(s, send.p);
    forall f | f in s.Stack(send.p) ensures FrameOk(s, send.p, f) {}
    forall i | 0 <= i < |s.runs| && s.runs[i].task == k ensures s.runs[i].place == send.dest {
      assert RunOk(s, s.runs[i]);
    }
  }

  /** In every run, each place executes the tasks that other places sent to it in the order in
      which they were sent: at every point, what was executed includes all earlier ones. */
  lemma RunsInOrder(acts: seq<Act>, k: nat, l: nat)
    requires Legal(INIT, acts) && k < l < |Sends(acts)|
    requires
      var a, b := Sends(acts)[k], Sends(acts)[l];
      a.dest == b.dest && a.dest != a.p && b.dest != b.p
    ensures
      var s := After(INIT, acts);
      Count(s.runs, l) == 1 ==> Count(s.runs, k) == 1
  {
    RunInv(INIT, acts);
    RunSends(INIT, acts);
    var s := After(INIT, acts);
    assert TaskOk(s, k) && TaskOk(s, l) && QueueOk(s, s.tasks[k].dest);
  }

  /** A place that waits leads to one that can go on: along the chain of places that wait for
      each other the tasks become younger. */
  lemma {:induction false} Progress(s: State, p: nat) returns (a: Act)
    requires Inv(s) && IsWaiting(s, p)
    ensures Enabled(s, a) && !a.Send?
    decreases |s.tasks| - s.Top(p).value.task
  {
    var t := s.Top(p).value.task;
    var dest := s.tasks[t].dest;
    assert StackOk(s, p) && s.Top(p).value in s.Stack(p) && FrameOk(s, p, s.Top(p).value);
    assert TaskOk(s, t) && StackOk(s, dest) && QueueOk(s, dest);
    if s.Stack(dest) != [] { assert s.Top(dest).value in s.Stack(dest) && FrameOk(s, dest, s.Top(dest).value); }
    if s.tasks[t].status == Done { return Poll(p); }
    if IsBusy(s, dest) { return Finish(dest); }
    if s.tasks[t].status == Queued { return Take(dest); }
    a := Progress(s, dest);
  }

  /** No deadlock, also if tasks send tasks: as long as a place is in a call or in a task, some
      place can make progress. */
  lemma NoDeadlock(acts: seq<Act>, p: nat) returns (a: Act)
    requires Legal(INIT, acts) && After(INIT, acts).Stack(p) != []
    ensures Enabled(After(INIT, acts), a) && !a.Send?
  {
    var s := After(INIT, acts);
    RunInv(INIT, acts);
    assert StackOk(s, p) && s.Top(p).value in s.Stack(p) && FrameOk(s, p, s.Top(p).value);
    if IsBusy(s, p) { a := Finish(p); } else { a := Progress(s, p); }
  }

  /** The work that is left: a task has to be taken, finished and, at another place, noticed. */
  function Left(k: Task): nat {
    match k.status
    case Queued => 3
    case Running => if k.IsLocal() then 1 else 2
    case Done => 1
    case Returned => 0
  }

  function Work(tasks: seq<Task>): nat {
    if tasks == [] then 0 else Work(tasks[..|tasks| - 1]) + Left(tasks[|tasks| - 1])
  }

  lemma {:induction false} WorkUpdate(tasks: seq<Task>, t: nat, k: Task)
    requires t < |tasks|
    ensures Work(tasks[t := k]) == Work(tasks) - Left(tasks[t]) + Left(k)
  {
    var n := |tasks| - 1;
    if t == n {
      assert tasks[t := k][..n] == tasks[..n];
    } else {
      WorkUpdate(tasks[..n], t, k);
      assert tasks[t := k][..n] == tasks[..n][t := k];
    }
  }

  /** Each step that is not a new send does one unit of the work, so whatever the schedule,
      all senders return after exactly the work that is left. */
  lemma WorkShrinks(s: State, a: Act)
    requires Inv(s) && Enabled(s, a) && !a.Send?
    ensures Work(Do(s, a).tasks) == Work(s.tasks) - 1
  {
    assert StackOk(s, a.p) && QueueOk(s, a.p);
    var t := if a.Take? then s.Queue(a.p)[0] else s.Top(a.p).value.task;
    assert a.Take? || (s.Top(a.p).value in s.Stack(a.p) && FrameOk(s, a.p, s.Top(a.p).value));
    assert TaskOk(s, t);
    WorkUpdate(s.tasks, t, Do(s, a).tasks[t]);
  }

  lemma {:induction false} NoWorkLeft(tasks: seq<Task>, t: nat)
    requires t < |tasks| && Work(tasks) == 0
    ensures tasks[t].status == Returned
  {
    if t < |tasks| - 1 { NoWorkLeft(tasks[..|tasks| - 1], t); }
  }

  /** Without new sends every schedule ends: it makes as many steps as it takes off the work
      that is left, and when none is left nobody is in a call any more. */
  lemma {:induction false} EveryScheduleEnds(s: State, acts: seq<Act>, p: nat)
    requires Inv(s) && Legal(s, acts) && Sends(acts) == []
    ensures |acts| + Work(After(s, acts).tasks) == Work(s.tasks)
    ensures |acts| == Work(s.tasks) ==> After(s, acts).Stack(p) == []
    decreases |acts|
  {
    if acts == [] {
      assert StackOk(s, p);
      if Work(s.tasks) == 0 && s.Stack(p) != [] {
        assert s.Top(p).value in s.Stack(p) && FrameOk(s, p, s.Top(p).value);
        NoWorkLeft(s.tasks, s.Top(p).value.task);
      }
    } else {
      StepInv(s, acts[0]);
      WorkShrinks(s, acts[0]);
      EveryScheduleEnds(Do(s, acts[0]), acts[1..], p);
    }
  }
}
