/** Reference counting with a deferred deletion task, one atomic access per step. */
module DeletionMonitor {

  /** What a release that found the count at zero still has to do. */
  datatype Releaser = ReadTask | PushTask

  datatype Deletion = NotStarted | Counted | Stored | Scheduling | Over

  /** `refs` are the references that were acquired and not released. The last two fields only
      record history: `late` counts the releases that were between their decrement and
      their read when the deletion task was stored, `revived` the references that were
      acquired after the deletion had let the count drop to zero. */
  datatype State = State(
    refcount: nat, deleteTask: bool, releasers: map<nat, Releaser>, deletion: Deletion,
    scheduled: nat, refs: nat, late: nat, revived: nat)

  const INIT := State(0, false, map[], NotStarted, 0, 0, 0, 0)

  datatype Act =
    | Acquire
    | Release(r: nat)       // the decrement of a release by thread `r`
    | Finish(r: nat)        // its read of the task, or its push
    | Delete                // the next access of doDelete

  predicate Enabled(s: State, a: Act) {
    match a
    case Acquire => true
    case Release(r) => s.refs > 0 && s.refcount > 0 && r !in s.releasers
    case Finish(r) => r in s.releasers
    case Delete => s.deletion != Over && (s.deletion == Stored ==> s.refcount > 0)
  }

  function Do(s: State, a: Act): State
    requires Enabled(s, a)
  {
    match a
    case Acquire =>
      s.(refcount := s.refcount + 1, refs := s.refs + 1,
         revived := if s.deleteTask && s.refcount == 0 then s.revived + 1 else s.revived)
    case Release(r) =>
      s.(refcount := s.refcount - 1, refs := s.refs - 1,
         releasers := if s.refcount == 1 then s.releasers[r := ReadTask] else s.releasers)
    case Finish(r) =>
      if s.releasers[r] == PushTask then s.(scheduled := s.scheduled + 1, releasers := s.releasers - {r})
      else if s.deleteTask then s.(releasers := s.releasers[r := PushTask])
      else s.(releasers := s.releasers - {r})
    case Delete =>
      match s.deletion
      case NotStarted => s.(refcount := s.refcount + 1, deletion := Counted)
      case Counted => s.(deleteTask := true, deletion := Stored, late := |s.releasers|)
      case Stored =>
        s.(refcount := s.refcount - 1, deletion := if s.refcount == 1 then Scheduling else Over)
      case Scheduling => s.(scheduled := s.scheduled + 1, deletion := Over)
  }

  predicate Legal(s: State, acts: seq<Act>)
    decreases |acts|
  {
    acts == [] || (Enabled(s, acts[0]) && Legal(Do(s, acts[0]), acts[1..]))
  }

  function After(s: State, acts: seq<Act>): State
    requires Legal(s, acts)
    decreases |acts|
  {
    if acts == [] then s else After(Do(s, acts[0]), acts[1..])
  }

  function OneIf(b: bool): nat { if b then 1 else 0 }

  /** Each way the count can reach zero after the store schedules the task once: the books
      balance between what was scheduled, what is on its way, and what is still to come. */
  predicate Inv(s: State) {
    && s.refcount == s.refs + OneIf(s.deletion == Counted || s.deletion == Stored)
    && (s.deleteTask <==> s.deletion != NotStarted && s.deletion != Counted)
    && (!s.deleteTask ==> s.scheduled == 0 && s.revived == 0 && forall r :: r in s.releasers ==> s.releasers[r] == ReadTask)
    && (s.deleteTask ==>
          s.scheduled + |s.releasers| + OneIf(s.deletion == Scheduling) + OneIf(s.refcount > 0) == 1 + s.late + s.revived)
  }

  lemma StepInv(s: State, a: Act)
    requires Inv(s) && Enabled(s, a)
    ensures Inv(Do(s, a))
  {
  }

  lemma {:induction false} RunInv(s: State, acts: seq<Act>)
    requires Inv(s) && Legal(s, acts)
    ensures Inv(After(s, acts))
    decreases |acts|
  {
    if acts != [] {
      StepInv(s, acts[0]);
      RunInv(Do(s, acts[0]), acts[1..]);
    }
  }

  /** The references that a run has acquired and not released. */
  function Held(acts: seq<Act>): int {
    if acts == [] then 0 else (if acts[0].Acquire? then 1 else if acts[0].Release? then -1 else 0) + Held(acts[1..])
  }

  lemma {:induction false} RunHeld(s: State, acts: seq<Act>)
    requires Legal(s, acts)
    ensures After(s, acts).refs == s.refs + Held(acts)
    decreases |acts|
  {
    if acts != [] { RunHeld(Do(s, acts[0]), acts[1..]); }
  }

  /** While a reference is held, the deletion task is neither scheduled nor about to be, unless a
      release was under way at the store or the object was revived. */
  lemma NotWhileReferenced(acts: seq<Act>)
    requires Legal(INIT, acts) && Held(acts) > 0
    ensures
      var s := After(INIT, acts);
      && s.refcount >= Held(acts)
      && (s.deleteTask ==> s.scheduled + |s.releasers| + OneIf(s.deletion == Scheduling) == s.late + s.revived)
      && (!s.deleteTask ==> s.scheduled == 0 && s.deletion != Scheduling)
  {
    RunInv(INIT, acts);
    RunHeld(INIT, acts);
  }

  /** Nothing is under way any more and nobody holds a reference. */
  predicate Quiet(s: State) {
    s.deletion == Over && s.refcount == 0 && s.releasers == map[]
  }

  /** In every interleaving of one deletion with any number of acquires and releases: once all
      is quiet, the deletion task was scheduled at least once, and exactly once if and only
      if no release was between its decrement and its read at the store, and nobody took
      a reference to the unreferenced object afterwards. */
  lemma DeletionIsNeverLost(acts: seq<Act>)
    requires Legal(INIT, acts)
    ensures
      var s := After(INIT, acts);
      Quiet(s) ==> s.scheduled == 1 + s.late + s.revived
  {
    RunInv(INIT, acts);
  }

  /** A reference can be given back as long as one is held, and the deletion is never stuck. */
  lemma NothingBlocks(acts: seq<Act>)
    requires Legal(INIT, acts)
    ensures
      var s := After(INIT, acts);
      && (forall r: nat :: s.refs > 0 && r !in s.releasers ==> Enabled(s, Release(r)))
      && (s.deletion != Over ==> Enabled(s, Delete))
  {
    RunInv(INIT, acts);
  }

  lemma Prepend(s: State, a: Act, acts: seq<Act>) returns (more: seq<Act>)
    requires Enabled(s, a) && Legal(Do(s, a), acts)
    ensures Legal(s, more) && After(s, more) == After(Do(s, a), acts)
  {
    more := [a] + acts;
    assert more[1..] == acts;
  }

  /** The task can be scheduled twice: a release drops the count to zero, then the deletion
      runs to its end, and then the release reads the task. */
  lemma DeletionCanBeDoubled()
    ensures exists acts :: Legal(INIT, acts) && Quiet(After(INIT, acts)) && After(INIT, acts).scheduled == 2
  {
    var s1 := Do(INIT, Acquire);
    var s2 := Do(s1, Release(0));
    var s3 := Do(s2, Delete);
    var s4 := Do(s3, Delete);
    var s5 := Do(s4, Delete);
    var s6 := Do(s5, Delete);
    var s7 := Do(s6, Finish(0));
    var acts := Prepend(s7, Finish(0), []);
    acts := Prepend(s6, Finish(0), acts);
    acts := Prepend(s5, Delete, acts);
    acts := Prepend(s4, Delete, acts);
    acts := Prepend(s3, Delete, acts);
    acts := Prepend(s2, Delete, acts);
    acts := Prepend(s1, Release(0), acts);
    acts := Prepend(INIT, Acquire, acts);
  }
}
