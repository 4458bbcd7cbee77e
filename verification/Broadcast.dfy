/** The delete broadcast: a tasklet travels once around the ring of hardware threads and
    skips those that are outside the kernel. When it is back, no kernel task that was running
    at its start is still running. */
module Broadcast {

  /** A ring node; `home` is the place of its thread. */
  class Node {
    var next: Node?
    var home: nat

    constructor ()
      ensures next == null && home == 0
    {
      next, home := null, 0;
    }
  }

  function NextId(id: nat, n: nat): (r: nat)
    requires id < n
    ensures r < n
  {
    if id + 1 < n then id + 1 else 0
  }

  lemma NextIdIsModulo(id: nat, n: nat)
    requires id < n
    ensures NextId(id, n) == (id + 1) % n
  {
  }

  /** Links the nodes of the threads to a ring. */
  method InitRing(nodes: array<Node>)
    requires forall i, j :: 0 <= i < j < nodes.Length ==> nodes[i] != nodes[j]
    modifies nodes[..]
    ensures forall i :: 0 <= i < nodes.Length ==> nodes[i].home == i && nodes[i].next == nodes[NextId(i, nodes.Length)]
  {
    var id := 0;
    while id < nodes.Length
      invariant 0 <= id <= nodes.Length
      invariant forall i :: 0 <= i < id ==> nodes[i].home == i && nodes[i].next == nodes[NextId(i, nodes.Length)]
    {
      NextIdIsModulo(id, nodes.Length);
      nodes[id].next := nodes[(id + 1) % nodes.Length];
      nodes[id].home := id;
      id := id + 1;
    }
  }

  // ------------------------------------------------------------------ protocol

  /** A thread is outside the kernel, in the kernel between two tasks, or in a task; `before`
      tells whether the task was running when the broadcast started. */
  datatype Mode = Out | Between | Working(before: bool)

  /** The tasklet is executed by `at`, which looks at `candidate`; or it is on its way to a
      thread; or it has answered. */
  datatype Tasklet = Scanning(at: nat, candidate: nat) | Relayed(to: nat) | Answered

  /** `answers` counts the responses. */
  datatype State = State(modes: seq<Mode>, start: nat, tasklet: Tasklet, answers: nat) {
    predicate Sized() {
      && start < |modes|
      && (tasklet.Scanning? ==> tasklet.at < |modes| && tasklet.candidate < |modes|)
      && (tasklet.Relayed? ==> tasklet.to < |modes|)
    }
  }

  datatype Act =
    | Scan                     // read the activity flag of the candidate
    | Deliver                  // the thread gets to the tasklet in its queue
    | Enter(i: nat) | StartTask(i: nat) | EndTask(i: nat) | Exit(i: nat)

  /** The thread that executes the tasklet does nothing else. */
  predicate Engaged(s: State, i: nat) { s.tasklet.Scanning? && s.tasklet.at == i }

  predicate Enabled(s: State, a: Act) {
    && s.Sized()
    && match a
       case Scan => s.tasklet.Scanning?
       case Deliver => s.tasklet.Relayed? && s.modes[s.tasklet.to] == Between
       case Enter(i) => i < |s.modes| && s.modes[i] == Out
       case StartTask(i) => i < |s.modes| && s.modes[i] == Between
       case EndTask(i) => i < |s.modes| && s.modes[i].Working? && !Engaged(s, i)
       case Exit(i) => i < |s.modes| && s.modes[i] == Between
  }

  function Do(s: State, a: Act): State
    requires Enabled(s, a)
  {
    match a
    case Scan =>
      var c := s.tasklet.candidate;
      if c == s.start then                                      // all around: answer, and the task ends
        s.(tasklet := Answered, answers := s.answers + 1, modes := s.modes[s.tasklet.at := Between])
      else if s.modes[c] == Out then s.(tasklet := Scanning(s.tasklet.at, NextId(c, |s.modes|)))
      else s.(tasklet := Relayed(c), modes := s.modes[s.tasklet.at := Between])
    case Deliver =>
      var i := s.tasklet.to;
      s.(tasklet := Scanning(i, NextId(i, |s.modes|)), modes := s.modes[i := Working(false)])
    case Enter(i) => s.(modes := s.modes[i := Between])
    case StartTask(i) => s.(modes := s.modes[i := Working(false)])
    case EndTask(i) => s.(modes := s.modes[i := Between])
    case Exit(i) => s.(modes := s.modes[i := Out])
  }

  /** The broadcast is started by a task of thread `start`; the other threads do anything. */
  predicate IsInit(s: State) {
    && s.start < |s.modes| && s.tasklet == Scanning(s.start, NextId(s.start, |s.modes|))
    && s.modes[s.start].Working? && s.answers == 0
  }

  predicate Legal(s: State, acts: seq<Act>)
    decreases |acts|
  {
    acts == [] || (Enabled(s, acts[0]) && Legal(Do(s, acts[0]), acts[1..]))
  }

  function After(s: State, acts: seq<Act>): State
    requires Legal(s, acts)
    decreases |acts|
  {
    if acts == [] then s else After(Do(s, acts[0]), acts[1..])
  }

  // ---------------------------------------------------------------- invariant

  /** How far a thread is behind the start, along the ring. */
  function Distance(start: nat, i: nat, n: nat): (d: nat)
    requires start < n && i < n
    ensures d < n && (d == 0 <==> i == start)
  {
    if i >= start then i - start else i + n - start
  }

  /** The ring order is the order of distances; only the last thread's successor is the start. */
  lemma DistanceNext(start: nat, i: nat, n: nat)
    requires start < n && i < n
    ensures NextId(i, n) < n
    ensures Distance(start, NextId(i, n), n) == if Distance(start, i, n) == n - 1 then 0 else Distance(start, i, n) + 1
  {
  }

  lemma SameDistance(start: nat, i: nat, j: nat, n: nat)
    requires start < n && i < n && j < n
    ensures Distance(start, i, n) == Distance(start, j, n) ==> i == j
  {
  }

  /** All threads up to this distance are done: n when the tasklet is back. */
  function Reached(s: State): nat
    requires s.Sized()
  {
    var n := |s.modes|;
    match s.tasklet
    case Scanning(at, c) => if c == s.start then n else Distance(s.start, c, n)
    case Relayed(to) => Distance(s.start, to, n)
    case Answered => n
  }

  ghost predicate Inv(s: State) {
    var n := |s.modes|;
    && s.Sized()
    && s.answers == (if s.tasklet.Answered? then 1 else 0)
    && (s.tasklet.Scanning? ==>
          s.modes[s.tasklet.at].Working? && (s.tasklet.at == s.start || s.modes[s.tasklet.at] == Working(false)))
    && (s.tasklet.Relayed? ==> s.tasklet.to != s.start)
    && (forall i :: 0 <= i < n && i != s.start && Distance(s.start, i, n) < Reached(s) ==> s.modes[i] != Working(true))
  }

  /** Threads up to the one that the tasklet has now got to still hold nothing old. */
  lemma ScanModes(s: State, i: nat)
    requires Inv(s) && Enabled(s, Scan) && i < |s.modes| && i != s.start
    requires Distance(s.start, i, |s.modes|) < Reached(Do(s, Scan))
    ensures Do(s, Scan).modes[i] != Working(true)
  {
    DistanceNext(s.start, s.tasklet.candidate, |s.modes|);
    SameDistance(s.start, i, s.tasklet.candidate, |s.modes|);
  }

  lemma ScanInv(s: State)
    requires Inv(s) && Enabled(s, Scan)
    ensures Inv(Do(s, Scan))
  {
    var s', n := Do(s, Scan), |s.modes|;
    forall i | 0 <= i < n && i != s.start && Distance(s.start, i, n) < Reached(s')
      ensures s'.modes[i] != Working(true)
    {
      ScanModes(s, i);
    }
  }

  lemma DeliverInv(s: State)
    requires Inv(s) && Enabled(s, Deliver)
    ensures Inv(Do(s, Deliver))
  {
  }

  lemma EnvironmentInv(s: State, a: Act)
    requires Inv(s) && Enabled(s, a) && a != Scan && a != Deliver
    ensures Inv(Do(s, a))
  {
  }

  lemma StepInv(s: State, a: Act)
    requires Inv(s) && Enabled(s, a)
    ensures Inv(Do(s, a))
  {
    match a
    case Scan => ScanInv(s);
    case Deliver => DeliverInv(s);
    case _ => EnvironmentInv(s, a);
  }

  lemma {:induction false} RunInv(s: State, acts: seq<Act>)
    requires Inv(s) && Legal(s, acts)
    ensures Inv(After(s, acts)) && |After(s, acts).modes| == |s.modes| && After(s, acts).start == s.start
    decreases |acts|
  {
    if acts != [] {
      StepInv(s, acts[0]);
      RunInv(Do(s, acts[0]), acts[1..]);
    }
  }

  lemma InitInv(s: State)
    requires IsInit(s)
    ensures Inv(s)
  {
  }

  // ------------------------------------------------------- which threads it visits

  /** The threads that execute the tasklet in a run, in order. */
  function Visits(s: State, acts: seq<Act>): seq<nat>
    requires Legal(s, acts)
    decreases |acts|
  {
    if acts == [] then []
    else (if acts[0] == Deliver then [s.tasklet.to] else []) + Visits(Do(s, acts[0]), acts[1..])
  }

  /** The threads come in ring order, from this distance on. */
  predicate InRingOrder(visits: seq<nat>, start: nat, n: nat, from: nat)
    requires start < n
  {
    visits == [] || (
      && visits[0] < n && from <= Distance(start, visits[0], n)
      && InRingOrder(visits[1..], start, n, Distance(start, visits[0], n) + 1))
  }

  lemma {:induction false} InRingOrderLater(visits: seq<nat>, start: nat, n: nat, from: nat, from': nat)
    requires start < n && from' <= from && InRingOrder(visits, start, n, from)
    ensures InRingOrder(visits, start, n, from')
  {
  }

  lemma OneMoreVisit(later: seq<nat>, start: nat, n: nat, i: nat, from: nat)
    requires start < n && i < n && Distance(start, i, n) < from && InRingOrder(later, start, n, from)
    ensures InRingOrder([i] + later, start, n, Distance(start, i, n))
  {
    InRingOrderLater(later, start, n, from, Distance(start, i, n) + 1);
    assert ([i] + later)[1..] == later;
  }

  lemma StepReached(s: State, a: Act)
    requires Inv(s) && Enabled(s, a)
    ensures Do(s, a).Sized() && Reached(s) <= Reached(Do(s, a))
    ensures a == Deliver ==> Reached(s) == Distance(s.start, s.tasklet.to, |s.modes|) < Reached(Do(s, a))
  {
    if a == Scan { DistanceNext(s.start, s.tasklet.candidate, |s.modes|); }
    if a == Deliver { DistanceNext(s.start, s.tasklet.to, |s.modes|); }
  }

  lemma {:induction false} VisitsInOrder(s: State, acts: seq<Act>)
    requires Inv(s) && Legal(s, acts)
    ensures InRingOrder(Visits(s, acts), s.start, |s.modes|, Reached(s))
    decreases |acts|
  {
    if acts != [] {
      var s' := Do(s, acts[0]);
      var later := Visits(s', acts[1..]);
      StepInv(s, acts[0]);
      StepReached(s, acts[0]);
      VisitsInOrder(s', acts[1..]);
      if acts[0] == Deliver {
        OneMoreVisit(later, s.start, |s.modes|, s.tasklet.to, Reached(s'));
      } else {
        assert Visits(s, acts) == later;
        InRingOrderLater(later, s.start, |s.modes|, Reached(s'), Reached(s));
      }
    }
  }

  // ---------------------------------------------------- no thread is left out

  /** The state before the access with number `k`. */
  function StateAt(s: State, acts: seq<Act>, k: nat): State
    requires Legal(s, acts) && k <= |acts|
    decreases |acts|
  {
    if k == 0 then s else StateAt(Do(s, acts[0]), acts[1..], k - 1)
  }

  /** The access reads the activity flag of the thread and it is outside the kernel, or the
      thread executes the tasklet. */
  predicate Passes(s: State, a: Act, i: nat) {
    && Enabled(s, a) && i < |s.modes|
    && ((a == Scan && s.tasklet.candidate == i && s.modes[i] == Out) || (a == Deliver && s.tasklet.to == i))
  }

  predicate Passed(s: State, acts: seq<Act>, i: nat)
    requires Legal(s, acts)
  {
    exists k :: 0 <= k < |acts| && Passes(StateAt(s, acts, k), acts[k], i)
  }

  lemma StepPasses(s: State, a: Act, i: nat)
    requires Inv(s) && Enabled(s, a) && i < |s.modes| && Do(s, a).Sized()
    requires Reached(s) <= Distance(s.start, i, |s.modes|) < Reached(Do(s, a))
    ensures Passes(s, a, i)
  {
    if a == Scan {
      DistanceNext(s.start, s.tasklet.candidate, |s.modes|);
      SameDistance(s.start, i, s.tasklet.candidate, |s.modes|);
    }
    if a == Deliver {
      DistanceNext(s.start, s.tasklet.to, |s.modes|);
      SameDistance(s.start, i, s.tasklet.to, |s.modes|);
    }
  }

  lemma PassedLater(s: State, acts: seq<Act>, i: nat)
    requires Legal(s, acts) && acts != []
    ensures Passes(s, acts[0], i) || Passed(Do(s, acts[0]), acts[1..], i) ==> Passed(s, acts, i)
  {
    var s' := Do(s, acts[0]);
    if Passes(s, acts[0], i) {
      assert Passes(StateAt(s, acts, 0), acts[0], i);
    } else if k :| 0 <= k < |acts| - 1 && Passes(StateAt(s', acts[1..], k), acts[1..][k], i) {
      assert Passes(StateAt(s, acts, k + 1), acts[k + 1], i);
    }
  }

  lemma {:induction false} AllPassed(s: State, acts: seq<Act>, i: nat)
    requires Inv(s) && Legal(s, acts) && i < |s.modes| && After(s, acts).Sized()
    requires Reached(s) <= Distance(s.start, i, |s.modes|) < Reached(After(s, acts))
    ensures Passed(s, acts, i)
    decreases |acts|
  {
    if acts != [] {
      var s' := Do(s, acts[0]);
      StepInv(s, acts[0]);
      PassedLater(s, acts, i);
      if Distance(s.start, i, |s.modes|) < Reached(s') { StepPasses(s, acts[0], i); }
      else { AllPassed(s', acts[1..], i); }
    }
  }

  // ------------------------------------------------------------------ theorems

  /** For any number of threads and any activity: the tasklet visits threads in ring order,
      none twice and never the start, answers at most once, and when it has answered each
      other thread was seen outside the kernel or has executed the tasklet, and none is in a
      task that was running when the broadcast started. */
  lemma GracePeriod(s: State, acts: seq<Act>, i: nat)
    requires IsInit(s) && Legal(s, acts) && i < |s.modes|
    ensures
      var s' := After(s, acts);
      && s'.answers <= 1 && |s'.modes| == |s.modes|
      && InRingOrder(Visits(s, acts), s.start, |s.modes|, 1)
      && (s'.tasklet.Answered? ==>
            s'.answers == 1 && (i != s.start ==> Passed(s, acts, i) && s'.modes[i] != Working(true)))
  {
    InitInv(s);
    RunInv(s, acts);
    VisitsInOrder(s, acts);
    InRingOrderLater(Visits(s, acts), s.start, |s.modes|, Reached(s), 1);
    if After(s, acts).tasklet.Answered? && i != s.start { AllPassed(s, acts, i); }
  }

  /** Steps that the tasklet still needs: one look at each remaining thread and one delivery. */
  function Remaining(s: State): nat
    requires s.Sized()
  {
    match s.tasklet
    case Scanning(at, c) => 2 * (|s.modes| - Reached(s)) + 1
    case Relayed(to) => 2 * (|s.modes| - Reached(s))
    case Answered => 0
  }

  /** The tasklet answers after a bounded number of its own steps, whatever the others do. */
  lemma TaskletAdvances(s: State, a: Act)
    requires Inv(s) && Enabled(s, a)
    ensures Do(s, a).Sized()
    ensures Remaining(Do(s, a)) <= Remaining(s) - if a == Scan || a == Deliver then 1 else 0
  {
  }
}
