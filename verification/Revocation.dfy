/** Deleting and revoking: leaf by leaf removal of the children of a list entry, and the
    two phases of a delete or revoke request. */
module Revocation {
  import opened Caps
  import opened CapTree
  import opened CapList

  /** How one iteration of the deletion loop ends. */
  datatype Iteration =
    | NotStarted                 // the root entry is gone or changed, or alone in its list
    | NoMoreChildren             // a revoke keeps its root
    | RemovedChild
    | RemovedRoot
    | Failed(error: Error)

  // ------------------------------------------------- what a deletion removes

  /** The list after a deletion: without the children of `at`, and without `at` itself when
      it is deleted and is not the root of the tree. */
  function Deleted(nodes: seq<Node>, at: nat, zombie: bool): seq<Node>
    requires at < |nodes|
  {
    var rest := WithoutChildren(nodes, at);
    if zombie && at > 0 then RemoveAt(rest, at) else rest
  }

  /** The nodes that such a deletion removes. */
  predicate InScope(nodes: seq<Node>, at: nat, zombie: bool, k: nat)
    requires at < |nodes|
  {
    at < k < RunEnd(nodes, at) || (k == at > 0 && zombie)
  }

  /** One of them belongs to the guarded object. */
  ghost predicate Guards(nodes: seq<Node>, at: nat, zombie: bool, guarded: nat)
    requires at < |nodes|
  {
    exists k: nat :: k < |nodes| && InScope(nodes, at, zombie, k) && nodes[k].cap.ptr == guarded
  }

  /** What is left: exactly the rest after success, and after an error everything outside the
      run of children. */
  predicate Outcome(res: Error, before: seq<Node>, after: seq<Node>, at: nat, zombie: bool)
    requires at < |before|
  {
    if res == SUCCESS then after == Deleted(before, at, zombie)
    else at < |after| && WithoutChildren(after, at) == WithoutChildren(before, at)
  }

  /** After a successful deletion nothing that was made from the deleted capability is left
      in the list, and nothing outside its run has changed. */
  lemma DeleteLeavesNoDescendants(t: Tree, at: nat, zombie: bool, j: nat)
    requires Inv(t) && at < |t.nodes| && !t.nodes[at].cap.ref && j < |Deleted(t.nodes, at, zombie)|
    ensures !CreatedFrom(t.births, Deleted(t.nodes, at, zombie)[j].id, t.nodes[at].id)
  {
    RevokeRemovesDescendants(t, at, if zombie && at > 0 && j >= at then j + 1 else j);
  }

  // ------------------------------------------------------------ notifications

  /** The answer of an object that was told that a capability goes away: whether it agreed,
      and the objects it queued for the asynchronous phase. */
  datatype Notice = Notice(cap: Cap, ok: bool, objects: seq<nat>)

  /** All objects that were queued, in order. */
  function Objects(notices: seq<Notice>): seq<nat> {
    if notices == [] then [] else Objects(notices[..|notices| - 1]) + notices[|notices| - 1].objects
  }

  predicate AllAgreed(notices: seq<Notice>) {
    forall i :: 0 <= i < |notices| ==> notices[i].ok
  }

  /** Exactly one more object was told. */
  predicate Told(before: seq<Notice>, after: seq<Notice>, cap: Cap, ok: bool) {
    && |after| == |before| + 1 && after[..|before|] == before
    && after[|before|].cap == cap && after[|before|].ok == ok
  }

  /** The result of a deletion: an object refused, or the guarded object was met, or neither. */
  ghost function Verdict(told: seq<Notice>, nodes: seq<Node>, at: nat, zombie: bool, guarded: nat): Error
    requires at < |nodes|
  {
    if !AllAgreed(told) then DELETE_FAILED
    else if Guards(nodes, at, zombie, guarded) then CYCLIC_DEPENDENCY
    else SUCCESS
  }

  /** So many nodes were removed, and one object was told for each; if one refused, it was
      the last one told. */
  predicate ToldEach(res: Error, before: seq<Notice>, after: seq<Notice>, removed: int) {
    && |before| <= |after| && after[..|before|] == before
    && |after| - |before| == removed + (if res == DELETE_FAILED then 1 else 0)
    && (forall i :: |before| <= i < |before| + removed ==> after[i].ok)
    && (res == DELETE_FAILED && |after| > 0 ==> !after[|after| - 1].ok)
  }

  lemma ToldMore(res: Error, first: seq<Notice>, mid: seq<Notice>, last: seq<Notice>, a: nat, b: nat)
    requires ToldEach(SUCCESS, first, mid, a) && ToldEach(res, mid, last, b)
    ensures ToldEach(res, first, last, a + b)
  {
    assert last[..|first|] == last[..|mid|][..|first|];
    assert forall i :: 0 <= i < |mid| ==> last[i] == last[..|mid|][i];
  }

  /** The capabilities of a list, whether killed or not. */
  function CapsOf(nodes: seq<Node>): seq<Cap> {
    seq(|nodes|, i requires 0 <= i < |nodes| => nodes[i].cap.AsZombie())
  }

  /** The capabilities whose objects agreed. */
  function AgreedCaps(notices: seq<Notice>): multiset<Cap> {
    if notices == [] then multiset{}
    else
      var n := notices[|notices| - 1];
      AgreedCaps(notices[..|notices| - 1]) + if n.ok then multiset{n.cap.AsZombie()} else multiset{}
  }

  /** What was in the list is still there or was told to its object, exactly once. */
  ghost predicate Accounted(first: seq<Node>, nodes: seq<Node>, told: seq<Notice>, notices: seq<Notice>) {
    multiset(CapsOf(first)) + AgreedCaps(told) == multiset(CapsOf(nodes)) + AgreedCaps(notices)
  }

  lemma RemoveTakesCap(nodes: seq<Node>, k: nat)
    requires k < |nodes|
    ensures multiset(CapsOf(nodes)) == multiset(CapsOf(RemoveAt(nodes, k))) + multiset{nodes[k].cap.AsZombie()}
  {
    var caps := CapsOf(nodes);
    assert caps == caps[..k] + [caps[k]] + caps[k + 1..];
    assert CapsOf(RemoveAt(nodes, k)) == caps[..k] + caps[k + 1..];
  }

  /** Whom an iteration that reached a leaf told. */
  predicate IterationTold(it: Iteration, leafCap: Cap, guarded: nat, before: seq<Notice>, after: seq<Notice>) {
    match it
    case NotStarted => after == before
    case NoMoreChildren => after == before
    case RemovedChild => leafCap.ptr != guarded && Told(before, after, leafCap, true)
    case RemovedRoot => leafCap.ptr != guarded && Told(before, after, leafCap, true)
    case Failed(e) =>
      || (e == CYCLIC_DEPENDENCY && leafCap.ptr == guarded && after == before)
      || (e == DELETE_FAILED && leafCap.ptr != guarded && Told(before, after, leafCap, false))
  }

  // --------------------------------------------------- one iteration on the tree

  /** A node is killed when the search enters it. */
  function Killed(nodes: seq<Node>, k: nat): seq<Node>
    requires k < |nodes|
  {
    if nodes[k].cap.IsUsable() then nodes[k := nodes[k].(cap := nodes[k].cap.AsZombie())] else nodes
  }

  /** The nodes after the search has gone from `at` to `k`. */
  function KillPath(nodes: seq<Node>, at: nat, k: nat): (r: seq<Node>)
    requires k < |nodes|
    ensures |r| == |nodes|
  {
    if k <= at then nodes else Killed(KillPath(nodes, at, k - 1), k)
  }

  lemma {:induction false} PathMarks(nodes: seq<Node>, at: nat, k: nat)
    requires at <= k < |nodes| && Rooted(nodes)
    ensures OnlyMarked(nodes, KillPath(nodes, at, k), at, k)
    ensures k > at ==> KillPath(nodes, at, k)[k].cap.IsZombie()
  {
    if k > at { PathMarks(nodes, at, k - 1); }
  }

  /** The kill steps of the search. */
  ghost function WalkSteps(t: Tree, at: nat, k: nat): (steps: seq<Step>)
    requires at <= k && at < |t.nodes| && k < RunEnd(t.nodes, at)
    ensures Follows(t, steps, t.(nodes := KillPath(t.nodes, at, k)))
    decreases k
  {
    if k == at then []
    else
      var before := WalkSteps(t, at, k - 1);
      if KillPath(t.nodes, at, k - 1)[k].cap.IsUsable() then
        Extend(t, before, t.(nodes := KillPath(t.nodes, at, k - 1)), Kill(k));
        before + [Kill(k)]
      else before
  }

  /** If the search ends at its root, the root has no children and is not the tree's root. */
  lemma LeafRoot(nodes: seq<Node>, marked: seq<Node>, at: nat)
    requires Rooted(nodes) && |nodes| > 1 && at < |nodes|
    requires OnlyMarked(nodes, marked, at, at) && IsLeaf(marked, at)
    ensures marked == nodes && at > 0 && RunEnd(nodes, at) == at + 1
  {
  }

  /** What an iteration on the run of node `at`, which reached node `k`, did to the tree. */
  ghost predicate IterationDid(it: Iteration, t: Tree, steps: seq<Step>, nodes: seq<Node>, at: nat, k: nat, zombie: bool) {
    && Follows(t, steps, t.(nodes := nodes))
    && (it == NotStarted ==> nodes == t.nodes)
    && (it != NotStarted ==>
          && at <= k < |t.nodes| && k < RunEnd(t.nodes, at)
          && match it
             case NotStarted => true
             case NoMoreChildren => !zombie && nodes == t.nodes && RunEnd(nodes, at) == at + 1
             case RemovedChild =>
               && at < k && nodes == RemoveAt(KillPath(t.nodes, at, k), k) && nodes[at] == t.nodes[at] && Rooted(nodes)
               && WithoutChildren(nodes, at) == WithoutChildren(t.nodes, at)
             case RemovedRoot =>
               zombie && 0 < at == k && RunEnd(t.nodes, at) == at + 1 && nodes == RemoveAt(t.nodes, at)
             case Failed(e) =>
               && e != SUCCESS && |nodes| == |t.nodes| && nodes[at] == t.nodes[at] && InScope(t.nodes, at, zombie, k)
               && nodes == KillPath(t.nodes, at, k)
               && WithoutChildren(nodes, at) == WithoutChildren(t.nodes, at))
  }

  lemma RemoveRooted(before: seq<Node>, nodes: seq<Node>, at: nat, k: nat)
    requires Rooted(before) && OnlyMarked(before, nodes, at, k) && 0 <= at < k < |nodes|
    ensures Rooted(RemoveAt(nodes, k)) && RemoveAt(nodes, k)[at] == before[at]
  {
  }

  lemma NothingDone(t: Tree, at: nat, zombie: bool)
    ensures IterationDid(NotStarted, t, [], t.nodes, at, 0, zombie)
  {
    assert Follows(t, [], t);
  }

  lemma OneRemoved(t: Tree, steps: seq<Step>, marked: seq<Node>, at: nat, k: nat, zombie: bool)
    returns (steps': seq<Step>, nodes: seq<Node>)
    requires Rooted(t.nodes) && |t.nodes| > 1 && at <= k && at < |t.nodes| && k < RunEnd(t.nodes, at)
    requires Follows(t, steps, t.(nodes := marked))
    requires marked == KillPath(t.nodes, at, k) && (k == at ==> zombie)
    requires OnlyMarked(t.nodes, marked, at, k) && IsLeaf(marked, k) && marked[k].cap.IsZombie()
    ensures nodes == RemoveAt(marked, k)
    ensures IterationDid(if k == at then RemovedRoot else RemovedChild, t, steps', nodes, at, k, zombie)
  {
    nodes := RemoveAt(marked, k);
    steps' := steps + [RemoveLeaf(k)];
    if k == at {
      LeafRoot(t.nodes, marked, at);
      Extend(t, steps, t.(nodes := marked), RemoveLeaf(k));
    } else {
      Extend(t, steps, t.(nodes := marked), RemoveLeaf(k));
      MarkInRun(t.nodes, marked, at, k);
      RemoveFromRun(marked, at, k);
      RemoveRooted(t.nodes, marked, at, k);
    }
  }

  /** The traversal reached leaf `k`; then the iteration ended as `it`. */
  lemma IterationLemma(it: Iteration, t: Tree, at: nat, k: nat, zombie: bool) returns (steps: seq<Step>, nodes: seq<Node>)
    requires Rooted(t.nodes) && |t.nodes| > 1 && at <= k && at < |t.nodes| && k < RunEnd(t.nodes, at)
    requires IsLeaf(KillPath(t.nodes, at, k), k)
    requires it != NotStarted && (it.Failed? ==> it.error != SUCCESS)
    requires it == NoMoreChildren || it == RemovedRoot ==> k == at
    requires k == at ==> (it == NoMoreChildren <==> !zombie)
    requires k == at && zombie ==> t.nodes[at].cap.IsZombie()
    requires it == RemovedChild ==> k != at
    ensures nodes == if it == RemovedRoot || it == RemovedChild
                     then RemoveAt(KillPath(t.nodes, at, k), k) else KillPath(t.nodes, at, k)
    ensures IterationDid(it, t, steps, nodes, at, k, zombie)
  {
    steps, nodes := WalkSteps(t, at, k), KillPath(t.nodes, at, k);
    PathMarks(t.nodes, at, k);
    if it.Failed? {
      MarkInRun(t.nodes, nodes, at, k);
      if k == at { LeafRoot(t.nodes, nodes, at); }
    } else if it == NoMoreChildren {
      LeafRoot(t.nodes, nodes, at);
    } else {
      steps, nodes := OneRemoved(t, steps, nodes, at, k, zombie);
    }
  }

  /** Where a node is after child `k` was removed, and that it is still in the scope of the
      deletion if it was. */
  lemma ScopeAfterRemove(nodes: seq<Node>, nodes': seq<Node>, at: nat, k: nat, zombie: bool, j: nat, j': nat)
    requires Rooted(nodes) && at < |nodes| && at < k < RunEnd(nodes, at) && nodes' == RemoveAt(KillPath(nodes, at, k), k)
    requires j < |nodes| && j != k && j' == if j < k then j else j - 1
    ensures at < |nodes'| && nodes'[j'].cap.ptr == nodes[j].cap.ptr
    ensures InScope(nodes', at, zombie, j') <==> InScope(nodes, at, zombie, j)
  {
    var marked := KillPath(nodes, at, k);
    PathMarks(nodes, at, k);
    MarkInRun(nodes, marked, at, k);
    RemoveShortensRun(marked, at, k);
    assert nodes'[j'] == marked[j];
  }

  /** Removing a child that is not guarded changes nothing about the others. */
  lemma RemoveKeepsGuards(nodes: seq<Node>, nodes': seq<Node>, at: nat, k: nat, zombie: bool, guarded: nat)
    requires Rooted(nodes) && at < |nodes| && at < k < RunEnd(nodes, at) && nodes' == RemoveAt(KillPath(nodes, at, k), k)
    requires nodes[k].cap.ptr != guarded
    ensures at < |nodes'| && (Guards(nodes', at, zombie, guarded) <==> Guards(nodes, at, zombie, guarded))
  {
    if Guards(nodes, at, zombie, guarded) {
      var j: nat :| j < |nodes| && InScope(nodes, at, zombie, j) && nodes[j].cap.ptr == guarded;
      ScopeAfterRemove(nodes, nodes', at, k, zombie, j, if j < k then j else j - 1);
    }
    if Guards(nodes', at, zombie, guarded) {
      var j': nat :| j' < |nodes'| && InScope(nodes', at, zombie, j') && nodes'[j'].cap.ptr == guarded;
      ScopeAfterRemove(nodes, nodes', at, k, zombie, if j' < k then j' else j' + 1, j');
    }
  }

  // ------------------------------------------------------------ list entries

  /** The list at rest: a ring without locks that holds the nodes. */
  ghost predicate ListIs(order: seq<CapEntry>, nodes: seq<Node>)
    reads order`next, order`prev, order`locked, order`id, order`cap
  {
    Ring(order) && Unlocked(order) && Holds(order, nodes)
  }

  ghost function OrderAfter(it: Iteration, order: seq<CapEntry>, k: nat): seq<CapEntry> {
    if (it == RemovedRoot || it == RemovedChild) && k < |order| then RemoveAt(order, k) else order
  }

  /** The list while the search is at entry `k`: exactly that entry and its predecessor are
      locked, and the entries behind `at` up to `k` are killed. */
  ghost predicate WalkedTo(order: seq<CapEntry>, nodes: seq<Node>, at: nat, k: nat)
    requires k < |order| == |nodes|
    reads order`locked, order`id, order`cap
  {
    LockedAt(order, k) && Holds(order, KillPath(nodes, at, k))
  }

  /** A child of a node of the run is the next node of the list, and in the run as well. */
  lemma ChildIsNext(nodes: seq<Node>, at: nat, k: nat)
    requires Rooted(nodes) && |nodes| > 1 && at <= k < |nodes| && k < RunEnd(nodes, at)
    requires !IsLeaf(KillPath(nodes, at, k), k)
    ensures k + 1 < RunEnd(nodes, at)
    ensures KillPath(nodes, at, k)[k + 1].cap.ptr != 0
  {
    PathMarks(nodes, at, k);
    assert NextIndex(k, |nodes|) == k + 1;
    if k > at {
      ParentTransitive(nodes[at].cap, nodes[k].cap, nodes[k + 1].cap);
    }
  }

  lemma RemoveHolds(order: seq<CapEntry>, k: nat, nodes: seq<Node>)
    requires Holds(order, nodes) && k < |order| && Distinct(order)
    ensures Holds(RemoveAt(order, k), RemoveAt(nodes, k)) && order[k] !in RemoveAt(order, k)
  {
  }

  method UnlinkAndReset(leaf: CapEntry, ghost order: seq<CapEntry>, ghost k: nat, ghost nodes: seq<Node>)
    requires Ring(order) && |order| > 1 && k < |order| && order[k] == leaf && LockedAt(order, k)
    requires Holds(order, nodes)
    modifies order
    ensures Ring(RemoveAt(order, k)) && Unlocked(RemoveAt(order, k))
    ensures Holds(RemoveAt(order, k), RemoveAt(nodes, k))
    ensures leaf.IsVacant() && !old(leaf.next).revoking
    ensures forall i {:trigger order[i].revoking} :: 0 <= i < |order| && i != k && i != NextIndex(k, |order|) ==>
              order[i].revoking == old(order[i].revoking)
  {
    ghost var rest := RemoveAt(order, k);
    leaf.Unlink(order, k);
    RemoveHolds(order, k, nodes);
    assert leaf !in rest;
    leaf.Reset();
  }

  /** Releases an entry and its predecessor, right to left. */
  method UnlockBoth(entry: CapEntry, ghost order: seq<CapEntry>, ghost at: nat)
    requires Ring(order) && |order| > 1 && at < |order| && order[at] == entry && LockedAt(order, at)
    modifies order`locked
    ensures Unlocked(order)
  {
    entry.Unlock();
    entry.prev.Unlock();
  }

  /** One hand over hand move of the leaf search. */
  method Descend(cur: CapEntry, nextEntry: CapEntry,
                 ghost order: seq<CapEntry>, ghost at: nat, ghost k: nat, ghost nodes: seq<Node>)
    requires Ring(order) && at <= k && k + 1 < |order| == |nodes| && order[k] == cur && order[k + 1] == nextEntry
    requires WalkedTo(order, nodes, at, k) && nextEntry.cap.ptr != 0
    modifies order`locked, nextEntry`cap
    ensures WalkedTo(order, nodes, at, k + 1)
  {
    cur.prev.Unlock();
    var _ := nextEntry.Kill();
    nextEntry.Lock();
  }

  lemma KilledHolds(order: seq<CapEntry>, at: nat, nodes: seq<Node>)
    requires at < |order| == |nodes| && Rooted(nodes)
    requires forall i :: 0 <= i < |order| && i != at ==> nodes[i] == Node(order[i].id, order[i].cap)
    requires nodes[at].id == order[at].id
    requires order[at].cap == if nodes[at].cap.IsUsable() then nodes[at].cap.AsZombie() else nodes[at].cap
    ensures Holds(order, Killed(nodes, at)) && Rooted(Killed(nodes, at))
  {
  }

  ghost function KillStep(t: Tree, at: nat): (steps: seq<Step>)
    requires at < |t.nodes|
    ensures Follows(t, steps, t.(nodes := Killed(t.nodes, at)))
  {
    if t.nodes[at].cap.IsUsable() then
      assert Follows(Apply(t, Kill(at)), [], Apply(t, Kill(at)));
      [Kill(at)]
    else []
  }

  // ----------------------------------------------------- a sequence of iterations

  /** A point between two iterations: what a deletion leaves is as it was at the start, and so
      is the question whether it meets the guarded object. */
  ghost predicate TreePoint(t: Tree, steps: seq<Step>, nodes: seq<Node>, at: nat, zombie: bool, guarded: nat) {
    && at < |t.nodes| && at < |nodes| && Rooted(nodes) && Follows(t, steps, t.(nodes := nodes))
    && nodes[at].cap == t.nodes[at].cap
    && WithoutChildren(nodes, at) == WithoutChildren(t.nodes, at)
    && (Guards(nodes, at, zombie, guarded) <==> Guards(t.nodes, at, zombie, guarded))
  }

  /** How a deletion ends. */
  ghost predicate Finished(res: Error, t: Tree, steps: seq<Step>, nodes: seq<Node>, at: nat, zombie: bool, guarded: nat) {
    && at < |t.nodes| && Follows(t, steps, t.(nodes := nodes)) && Outcome(res, t.nodes, nodes, at, zombie)
    && (res == SUCCESS || res == CYCLIC_DEPENDENCY || res == DELETE_FAILED)
    && (res == CYCLIC_DEPENDENCY ==> Guards(t.nodes, at, zombie, guarded))
    && (res == SUCCESS ==> !Guards(t.nodes, at, zombie, guarded))
  }

  /** The result says what happened. */
  lemma VerdictLemma(res: Error, t: Tree, steps: seq<Step>, nodes: seq<Node>, at: nat, zombie: bool, guarded: nat,
                     before: seq<Notice>, after: seq<Notice>, removed: nat)
    requires Finished(res, t, steps, nodes, at, zombie, guarded) && ToldEach(res, before, after, removed)
    ensures res == Verdict(after[|before|..], t.nodes, at, zombie, guarded)
  {
    var told := after[|before|..];
    if res == DELETE_FAILED {
      assert !told[|told| - 1].ok;
    } else {
      assert forall i :: 0 <= i < |told| ==> told[i] == after[|before| + i];
    }
  }

  function ResultOf(it: Iteration): Error { if it.Failed? then it.error else SUCCESS }

  /** After a child was removed the deletion goes on. */
  lemma NextPoint(t: Tree, steps: seq<Step>, nodes: seq<Node>, more: seq<Step>, nodes': seq<Node>,
                  at: nat, k: nat, zombie: bool, guarded: nat)
    requires TreePoint(t, steps, nodes, at, zombie, guarded)
    requires IterationDid(RemovedChild, t.(nodes := nodes), more, nodes', at, k, zombie)
    requires KillPath(nodes, at, k)[k].cap.ptr != guarded
    ensures TreePoint(t, steps + more, nodes', at, zombie, guarded) && |nodes'| == |nodes| - 1
  {
    Append(t, steps, t.(nodes := nodes), more, t.(nodes := nodes'));
    PathMarks(nodes, at, k);
    RemoveKeepsGuards(nodes, nodes', at, k, zombie, guarded);
  }

  /** Any other iteration is the last one. */
  lemma LastPoint(it: Iteration, t: Tree, steps: seq<Step>, nodes: seq<Node>, more: seq<Step>, nodes': seq<Node>,
                  at: nat, k: nat, zombie: bool, guarded: nat)
    requires TreePoint(t, steps, nodes, at, zombie, guarded) && it != RemovedChild
    requires IterationDid(it, t.(nodes := nodes), more, nodes', at, k, zombie)
    requires it == NotStarted ==> |nodes| == 1
    ensures at < |t.nodes| && Follows(t, steps + more, t.(nodes := nodes'))
    ensures Outcome(ResultOf(it), t.nodes, nodes', at, zombie)
    ensures |nodes| - |nodes'| == if it == RemovedRoot then 1 else 0
  {
    Append(t, steps, t.(nodes := nodes), more, t.(nodes := nodes'));
    if !it.Failed? { NoChildren(nodes, at); }
  }

  lemma NoChildren(nodes: seq<Node>, at: nat)
    requires at < |nodes| && RunEnd(nodes, at) == at + 1
    ensures WithoutChildren(nodes, at) == nodes
  {
  }

  lemma LastGuard(it: Iteration, t: Tree, nodes': seq<Node>, more: seq<Step>, at: nat, k: nat, zombie: bool,
                  guarded: nat, before: seq<Notice>, after: seq<Notice>)
    requires Rooted(t.nodes) && at < |t.nodes| && IterationDid(it, t, more, nodes', at, k, zombie) && it != RemovedChild
    requires it == NotStarted ==> |t.nodes| == 1
    requires it != NotStarted ==> IterationTold(it, KillPath(t.nodes, at, k)[k].cap, guarded, before, after)
    ensures it.Failed? ==> it.error == CYCLIC_DEPENDENCY || it.error == DELETE_FAILED
    ensures it.Failed? && it.error == CYCLIC_DEPENDENCY ==> Guards(t.nodes, at, zombie, guarded)
    ensures !it.Failed? ==> !Guards(t.nodes, at, zombie, guarded)
  {
    if it != NotStarted { PathMarks(t.nodes, at, k); }
  }

  /** A point between two iterations, with the notices so far. */
  ghost predicate Underway(t: Tree, steps: seq<Step>, nodes: seq<Node>, at: nat, zombie: bool, guarded: nat,
                           told: seq<Notice>, notices: seq<Notice>) {
    && TreePoint(t, steps, nodes, at, zombie, guarded)
    && |nodes| <= |t.nodes| && ToldEach(SUCCESS, told, notices, |t.nodes| - |nodes|)
    && Accounted(t.nodes, nodes, told, notices)
  }

  /** The end of the deletion, with all its notices: they and the guarded object decide the
      result. */
  ghost predicate Ended(res: Error, t: Tree, steps: seq<Step>, nodes: seq<Node>, at: nat, zombie: bool, guarded: nat,
                        told: seq<Notice>, notices: seq<Notice>) {
    && Finished(res, t, steps, nodes, at, zombie, guarded)
    && ToldEach(res, told, notices, |t.nodes| - |nodes|) && Accounted(t.nodes, nodes, told, notices)
    && res == Verdict(notices[|told|..], t.nodes, at, zombie, guarded)
  }

  /** What a request that was accepted does: it marks its entry, which makes `marked` of the
      nodes, and then deletes. */
  ghost predicate Performed(res: Error, t: Tree, marked: seq<Node>, steps: seq<Step>, nodes: seq<Node>,
                            at: nat, zombie: bool, guarded: nat, notices: seq<Notice>) {
    && at < |marked| && Follows(t, steps, t.(nodes := nodes)) && Outcome(res, marked, nodes, at, zombie)
    && res == Verdict(notices, marked, at, zombie, guarded) && ToldEach(res, [], notices, |marked| - |nodes|)
    && Accounted(marked, nodes, [], notices)
  }

  lemma EndedPerformed(res: Error, t: Tree, marked: seq<Node>, first: seq<Step>, steps: seq<Step>, nodes: seq<Node>,
                       at: nat, zombie: bool, guarded: nat, notices: seq<Notice>)
    requires Follows(t, first, t.(nodes := marked))
    requires Ended(res, t.(nodes := marked), steps, nodes, at, zombie, guarded, [], notices)
    ensures Performed(res, t, marked, first + steps, nodes, at, zombie, guarded, notices)
  {
    Append(t, first, t.(nodes := marked), steps, t.(nodes := nodes));
    assert notices[0..] == notices;
  }

  lemma StartPoint(t: Tree, at: nat, zombie: bool, guarded: nat, notices: seq<Notice>)
    requires at < |t.nodes| && Rooted(t.nodes)
    ensures Underway(t, [], t.nodes, at, zombie, guarded, notices, notices)
  {
    assert notices[..|notices|] == notices;
  }

  lemma RemovedIsAccounted(first: seq<Node>, nodes: seq<Node>, nodes': seq<Node>, at: nat, k: nat,
                           told: seq<Notice>, before: seq<Notice>, after: seq<Notice>)
    requires Accounted(first, nodes, told, before) && Rooted(nodes) && at <= k < |nodes|
    requires nodes' == RemoveAt(KillPath(nodes, at, k), k) && Told(before, after, KillPath(nodes, at, k)[k].cap, true)
    ensures Accounted(first, nodes', told, after)
  {
    PathMarks(nodes, at, k);
    assert CapsOf(KillPath(nodes, at, k)) == CapsOf(nodes);
    RemoveTakesCap(KillPath(nodes, at, k), k);
  }

  lemma RestIsAccounted(it: Iteration, first: seq<Node>, nodes: seq<Node>, nodes': seq<Node>, at: nat, k: nat,
                        told: seq<Notice>, before: seq<Notice>, after: seq<Notice>)
    requires Accounted(first, nodes, told, before) && Rooted(nodes)
    requires if it.Failed? then at <= k < |nodes| && nodes' == KillPath(nodes, at, k) else nodes' == nodes
    requires after == before || exists cap :: Told(before, after, cap, false)
    ensures Accounted(first, nodes', told, after)
  {
    if it.Failed? {
      PathMarks(nodes, at, k);
      assert CapsOf(nodes') == CapsOf(nodes);
    }
  }

  lemma StepGoesOn(t: Tree, steps: seq<Step>, nodes: seq<Node>, more: seq<Step>, nodes': seq<Node>,
                   at: nat, k: nat, zombie: bool, guarded: nat, told: seq<Notice>, before: seq<Notice>, after: seq<Notice>)
    requires Underway(t, steps, nodes, at, zombie, guarded, told, before)
    requires IterationDid(RemovedChild, t.(nodes := nodes), more, nodes', at, k, zombie)
    requires IterationTold(RemovedChild, KillPath(nodes, at, k)[k].cap, guarded, before, after)
    ensures Underway(t, steps + more, nodes', at, zombie, guarded, told, after) && |nodes'| < |nodes|
  {
    NextPoint(t, steps, nodes, more, nodes', at, k, zombie, guarded);
    RemovedIsAccounted(t.nodes, nodes, nodes', at, k, told, before, after);
    ToldMore(SUCCESS, told, before, after, |t.nodes| - |nodes|, 1);
  }

  lemma StepFinishes(it: Iteration, t: Tree, steps: seq<Step>, nodes: seq<Node>, more: seq<Step>, nodes': seq<Node>,
                     at: nat, k: nat, zombie: bool, guarded: nat, before: seq<Notice>, after: seq<Notice>)
    requires TreePoint(t, steps, nodes, at, zombie, guarded) && it != RemovedChild
    requires IterationDid(it, t.(nodes := nodes), more, nodes', at, k, zombie) && (it == NotStarted ==> |nodes| == 1)
    requires it != NotStarted ==> IterationTold(it, KillPath(nodes, at, k)[k].cap, guarded, before, after)
    ensures Finished(ResultOf(it), t, steps + more, nodes', at, zombie, guarded)
    ensures |nodes| - |nodes'| == if it == RemovedRoot then 1 else 0
  {
    LastPoint(it, t, steps, nodes, more, nodes', at, k, zombie, guarded);
    LastGuard(it, t.(nodes := nodes), nodes', more, at, k, zombie, guarded, before, after);
  }

  lemma ToldLast(it: Iteration, leafCap: Cap, guarded: nat, before: seq<Notice>, after: seq<Notice>)
    requires IterationTold(it, leafCap, guarded, before, after) && it != RemovedChild
    ensures ToldEach(ResultOf(it), before, after, if it == RemovedRoot then 1 else 0)
  {
  }

  lemma StepEnds(it: Iteration, t: Tree, steps: seq<Step>, nodes: seq<Node>, more: seq<Step>, nodes': seq<Node>,
                 at: nat, k: nat, zombie: bool, guarded: nat, told: seq<Notice>, before: seq<Notice>, after: seq<Notice>)
    requires Underway(t, steps, nodes, at, zombie, guarded, told, before) && it != RemovedChild
    requires IterationDid(it, t.(nodes := nodes), more, nodes', at, k, zombie)
    requires it == NotStarted ==> |nodes| == 1 && after == before
    requires it != NotStarted ==> IterationTold(it, KillPath(nodes, at, k)[k].cap, guarded, before, after)
    ensures Ended(ResultOf(it), t, steps + more, nodes', at, zombie, guarded, told, after)
  {
    StepFinishes(it, t, steps, nodes, more, nodes', at, k, zombie, guarded, before, after);
    ToldLast(it, if it == NotStarted then EMPTY else KillPath(nodes, at, k)[k].cap, guarded, before, after);
    if it == RemovedRoot { RemovedIsAccounted(t.nodes, nodes, nodes', at, k, told, before, after); }
    else { RestIsAccounted(it, t.nodes, nodes, nodes', at, k, told, before, after); }
    ToldMore(ResultOf(it), told, before, after, |t.nodes| - |nodes|, |nodes| - |nodes'|);
    VerdictLemma(ResultOf(it), t, steps + more, nodes', at, zombie, guarded, told, after, |t.nodes| - |nodes'|);
  }

  /** The deletion after one more iteration. */
  ghost predicate WentOn(it: Iteration, t: Tree, steps: seq<Step>, nodes: seq<Node>, at: nat, zombie: bool, guarded: nat,
                         told: seq<Notice>, notices: seq<Notice>) {
    if it == RemovedChild then Underway(t, steps, nodes, at, zombie, guarded, told, notices)
    else Ended(ResultOf(it), t, steps, nodes, at, zombie, guarded, told, notices)
  }

  lemma StepWentOn(it: Iteration, t: Tree, steps: seq<Step>, nodes: seq<Node>, more: seq<Step>, nodes': seq<Node>,
                   at: nat, k: nat, zombie: bool, guarded: nat, told: seq<Notice>, before: seq<Notice>, after: seq<Notice>)
    requires Underway(t, steps, nodes, at, zombie, guarded, told, before)
    requires IterationDid(it, t.(nodes := nodes), more, nodes', at, k, zombie)
    requires it == NotStarted ==> |nodes| == 1 && after == before
    requires it != NotStarted ==> IterationTold(it, KillPath(nodes, at, k)[k].cap, guarded, before, after)
    ensures WentOn(it, t, steps + more, nodes', at, zombie, guarded, told, after)
    ensures it == RemovedChild ==> |nodes'| < |nodes|
  {
    if it == RemovedChild {
      StepGoesOn(t, steps, nodes, more, nodes', at, k, zombie, guarded, told, before, after);
    } else {
      StepEnds(it, t, steps, nodes, more, nodes', at, k, zombie, guarded, told, before, after);
    }
  }

  /** The entries of `order` that are in `keep`, in their order. */
  ghost function Kept(order: seq<CapEntry>, keep: seq<CapEntry>): seq<CapEntry> {
    if order == [] then []
    else Kept(order[..|order| - 1], keep) + (if order[|order| - 1] in keep then [order[|order| - 1]] else [])
  }

  lemma {:induction false} KeptAll(order: seq<CapEntry>, keep: seq<CapEntry>)
    requires forall e :: e in order ==> e in keep
    ensures Kept(order, keep) == order
  {
    if order != [] { KeptAll(order[..|order| - 1], keep); }
  }

  ghost function Dropped(order: seq<CapEntry>, e: CapEntry): seq<CapEntry> {
    if order == [] then []
    else Dropped(order[..|order| - 1], e) + (if order[|order| - 1] == e then [] else [order[|order| - 1]])
  }

  lemma {:induction false} DroppedAbsent(order: seq<CapEntry>, e: CapEntry)
    requires e !in order
    ensures Dropped(order, e) == order
  {
    if order != [] { DroppedAbsent(order[..|order| - 1], e); }
  }

  lemma {:induction false} DroppedIsRemoved(order: seq<CapEntry>, k: nat)
    requires Distinct(order) && k < |order|
    ensures Dropped(order, order[k]) == RemoveAt(order, k)
  {
    var n := |order| - 1;
    if k == n {
      DroppedAbsent(order[..n], order[k]);
    } else {
      DroppedIsRemoved(order[..n], k);
      assert RemoveAt(order, k) == RemoveAt(order[..n], k) + [order[n]];
    }
  }

  lemma {:induction false} KeptDropped(order: seq<CapEntry>, keep: seq<CapEntry>, keep': seq<CapEntry>, e: CapEntry)
    requires forall f :: f in keep' <==> f in keep && f != e
    ensures Kept(order, keep') == Dropped(Kept(order, keep), e)
  {
    if order != [] {
      var n := |order| - 1;
      KeptDropped(order[..n], keep, keep', e);
      if order[n] in keep {
        var kept := Kept(order, keep);
        assert kept[..|kept| - 1] == Kept(order[..n], keep);
      } else {
        assert Kept(order, keep) == Kept(order[..n], keep);
        assert Kept(order, keep') == Kept(order[..n], keep');
      }
    }
  }

  lemma KeptRemove(order: seq<CapEntry>, order': seq<CapEntry>, k: nat)
    requires Distinct(order') && k < |order'| && order' == Kept(order, order')
    ensures RemoveAt(order', k) == Kept(order, RemoveAt(order', k))
  {
    SpliceOutDistinct(order', k);
    forall f
      ensures f in RemoveAt(order', k) <==> f in order' && f != order'[k]
    {
      if f in order' && f != order'[k] {
        var j :| 0 <= j < |order'| && order'[j] == f;
        assert RemoveAt(order', k)[if j < k then j else j - 1] == f;
      }
    }
    KeptDropped(order, order', RemoveAt(order', k), order'[k]);
    DroppedIsRemoved(order', k);
  }

  /** `order'` is what is left of `order`: the other entries are empty and unlinked, so that they
      can be used again. */
  ghost predicate LeftOver(order: seq<CapEntry>, order': seq<CapEntry>)
    reads order
  {
    && order' == Kept(order, order')
    && forall i {:trigger order[i].IsVacant()} :: 0 <= i < |order| ==> order[i] in order' || order[i].IsVacant()
  }

  lemma NothingLeftOver(order: seq<CapEntry>)
    ensures LeftOver(order, order)
  {
    KeptAll(order, order);
  }

  lemma LeftOverRemove(order: seq<CapEntry>, order': seq<CapEntry>, k: nat)
    requires Distinct(order') && k < |order'| && LeftOver(order, order')
    requires order'[k].IsVacant()
    ensures LeftOver(order, RemoveAt(order', k))
  {
    KeptRemove(order, order', k);
    forall i | 0 <= i < |order|
      ensures order[i] in RemoveAt(order', k) || order[i].IsVacant()
    {
      assert order[i] in order' || order[i].IsVacant();
      if order[i] in order' && order[i] != order'[k] {
        var j :| 0 <= j < |order'| && order'[j] == order[i];
        assert RemoveAt(order', k)[if j < k then j else j - 1] == order[i];
      }
    }
  }

  /** The list entries at such a point. The pin of the root goes with its last neighbour. */
  ghost predicate ListPoint(order: seq<CapEntry>, root: CapEntry, at: nat, t: Tree, order': seq<CapEntry>, nodes: seq<Node>)
    reads order'`next, order'`prev, order'`locked, order'`id, order'`cap, root`revoking
  {
    && ListIs(order', nodes) && at < |order'| && order'[at] == root
    && (|nodes| == 1 < |t.nodes| ==> !root.revoking)
    && (forall i :: 0 <= i < |order'| ==> order'[i] in order)
  }

  lemma ListGoesOn(order: seq<CapEntry>, root: CapEntry, at: nat, order': seq<CapEntry>, k: nat)
    requires at < k < |order'| && order'[at] == root && (forall i :: 0 <= i < |order'| ==> order'[i] in order)
    ensures RemoveAt(order', k)[at] == root
    ensures forall i :: 0 <= i < |order'| - 1 ==> RemoveAt(order', k)[i] in order
  {
  }

  // ----------------------------------------------------------- request events

  /** What a request does to its surroundings. */
  datatype Event =
    | Respond(res: Error)        // the answer to the client
    | RequestDone                // the monitor may start the next request
    | Broadcast                  // wait until no thread can still use the deleted objects
    | DeleteObject(obj: nat)
    | ResponseDone

  /** Everything a request does that was not refused. */
  function RequestEvents(queue: seq<nat>, result: Error): seq<Event> {
    if queue == [] then [Respond(result), RequestDone] else [Broadcast] + AsyncEvents(queue, result)
  }

  function AsyncEvents(queue: seq<nat>, result: Error): seq<Event> {
    if queue == [] then [Respond(result), RequestDone, ResponseDone]
    else [DeleteObject(queue[0])] + ([ResponseDone] + AsyncEvents(queue[1..], result))
  }

  /** What has happened, and what will happen if everybody answers. */
  function AllEvents(events: seq<Event>, queue: seq<nat>, result: Error): seq<Event> {
    events + AsyncEvents(queue, result)
  }

  lemma AsyncStep(events: seq<Event>, queue: seq<nat>, result: Error)
    ensures AllEvents(events, queue, result) ==
      if queue == [] then events + [Respond(result), RequestDone, ResponseDone]
      else AllEvents(events + [DeleteObject(queue[0]), ResponseDone], queue[1..], result)
  {
  }

  /** The results that the client is told. */
  function Responses(events: seq<Event>): seq<Error> {
    if events == [] then []
    else (if events[0].Respond? then [events[0].res] else []) + Responses(events[1..])
  }

  function RequestsDone(events: seq<Event>): nat {
    if events == [] then 0 else (if events[0].RequestDone? then 1 else 0) + RequestsDone(events[1..])
  }

  /** The objects that are deleted, in order. */
  function DeletedObjects(events: seq<Event>): seq<nat> {
    if events == [] then []
    else (if events[0].DeleteObject? then [events[0].obj] else []) + DeletedObjects(events[1..])
  }

  lemma OneMoreEvent(e: Event, events: seq<Event>)
    ensures Responses([e] + events) == (if e.Respond? then [e.res] else []) + Responses(events)
    ensures RequestsDone([e] + events) == (if e.RequestDone? then 1 else 0) + RequestsDone(events)
    ensures DeletedObjects([e] + events) == (if e.DeleteObject? then [e.obj] else []) + DeletedObjects(events)
  {
    assert ([e] + events)[1..] == events;
  }

  lemma LastAnswer(result: Error)
    ensures
      var ev := [Respond(result), RequestDone, ResponseDone];
      Responses(ev) == [result] && RequestsDone(ev) == 1 && DeletedObjects(ev) == []
  {
    OneMoreEvent(ResponseDone, []);
    OneMoreEvent(RequestDone, [ResponseDone]);
    OneMoreEvent(Respond(result), [RequestDone, ResponseDone]);
    assert [RequestDone] + [ResponseDone] == [RequestDone, ResponseDone];
    assert [Respond(result)] + [RequestDone, ResponseDone] == [Respond(result), RequestDone, ResponseDone];
  }

  /** The asynchronous phase answers once, with the result of the synchronous phase, finishes
      the request once, and deletes exactly the queued objects in their order, all of them
      before the answer. */
  lemma {:induction false} AsyncPhase(queue: seq<nat>, result: Error)
    ensures Responses(AsyncEvents(queue, result)) == [result]
    ensures RequestsDone(AsyncEvents(queue, result)) == 1
    ensures DeletedObjects(AsyncEvents(queue, result)) == queue
    ensures
      var ev := AsyncEvents(queue, result);
      |ev| >= 3 && ev[|ev| - 3..] == [Respond(result), RequestDone, ResponseDone]
  {
    if queue == [] {
      LastAnswer(result);
    } else {
      var rest := AsyncEvents(queue[1..], result);
      AsyncPhase(queue[1..], result);
      OneMoreEvent(ResponseDone, rest);
      OneMoreEvent(DeleteObject(queue[0]), [ResponseDone] + rest);
    }
  }

  /** Every request answers once, with the result of its synchronous phase, and finishes
      once. The queued objects are deleted in their order, each once, after the broadcast. */
  lemma RequestIsAnsweredOnce(queue: seq<nat>, result: Error)
    ensures Responses(RequestEvents(queue, result)) == [result]
    ensures RequestsDone(RequestEvents(queue, result)) == 1
    ensures DeletedObjects(RequestEvents(queue, result)) == queue
    ensures queue != [] ==> RequestEvents(queue, result)[0] == Broadcast
  {
    var ev := RequestEvents(queue, result);
    AsyncPhase(queue, result);
    if queue == [] {
      assert ev[1..] == [RequestDone] && [RequestDone][1..] == [];
    } else {
      assert ev[1..] == AsyncEvents(queue, result);
    }
  }

  /** The events between `before` and `after` are a whole request: one answer, one end of the
      request, and each of these objects deleted once, in order. */
  predicate Answered(before: seq<Event>, after: seq<Event>, res: Error, objects: seq<nat>) {
    && |before| <= |after| && after[..|before|] == before
    && Responses(after[|before|..]) == [res] && RequestsDone(after[|before|..]) == 1
    && DeletedObjects(after[|before|..]) == objects
  }

  lemma RequestAnswers(before: seq<Event>, queue: seq<nat>, res: Error)
    ensures Answered(before, before + RequestEvents(queue, res), res, queue)
  {
    RequestIsAnsweredOnce(queue, res);
    assert (before + RequestEvents(queue, res))[|before|..] == RequestEvents(queue, res);
  }

  // ---------------------------------------------------------- the operation

  class RevokeOperation {
    var lock: bool
    var guarded: nat             // object that must not be deleted, 0 for none
    var deleteQueue: seq<nat>    // objects to be deleted in the asynchronous phase
    var result: Error
    var pending: bool            // a broadcast or an object deletion will answer
    ghost var events: seq<Event>
    ghost var notices: seq<Notice>   // of the current request

    /** Between requests nothing is queued and nobody is expected to answer. */
    predicate Valid()
      reads this
    {
      !lock ==> deleteQueue == [] && !pending
    }

    /** The queue holds exactly what the objects have queued. */
    ghost predicate Recorded()
      reads this
    {
      deleteQueue == Objects(notices)
    }

    /** Locks the root entry and its predecessor, unless there is nothing to traverse. */
    method StartTraversal(root: CapEntry, rootCap: Cap, ghost order: seq<CapEntry>, ghost at: nat)
      returns (ok: bool)
      requires Ring(order) && Unlocked(order)
      requires root.prev != null ==> at < |order| && order[at] == root
      modifies order`locked
      ensures ok <==> root.prev != null && |order| > 1 && root.cap.AsZombie() == rootCap.AsZombie()
      ensures ok ==> LockedAt(order, at)
      ensures !ok ==> Unlocked(order)
    {
      var linked := root.LockPrev();
      if !linked { return false; }
      if root.prev == root {
        root.prev.Unlock();
        return false;
      }
      root.Lock();
      if root.cap.AsZombie() != rootCap.AsZombie() {
        root.Unlock();
        root.prev.Unlock();
        return false;
      }
      return true;
    }

    /** Walks from the locked root to the leftmost leaf below it, hand over hand: at the head
        of the loop exactly the current entry and its predecessor are locked. Every entry
        that is entered is killed. */
    method FindLockedLeaf(root: CapEntry, ghost order: seq<CapEntry>, ghost at: nat, ghost nodes: seq<Node>)
      returns (leaf: CapEntry, ghost k: nat)
      requires Ring(order) && at < |order| && order[at] == root && |order| > 1
      requires LockedAt(order, at) && Holds(order, nodes) && Rooted(nodes)
      modifies order`locked, order`cap
      ensures at <= k < RunEnd(nodes, at) && leaf == order[k] && WalkedTo(order, nodes, at, k)
      ensures IsLeaf(KillPath(nodes, at, k), k)
    {
      leaf, k := root, at;
      while true
        invariant at <= k < RunEnd(nodes, at) && leaf == order[k] && WalkedTo(order, nodes, at, k)
        decreases |order| - k
      {
        var nextEntry := leaf.next;
        if !IsParentOf(leaf.cap, nextEntry.cap) { return; }
        ChildIsNext(nodes, at, k);
        Descend(leaf, nextEntry, order, at, k, nodes);
        leaf, k := nextEntry, k + 1;
      }
    }

    /** The object behind a capability is told that the capability goes away. It may refuse,
        and it may queue objects for the asynchronous phase. */
    method NotifyObject(leafCap: Cap) returns (ok: bool)
      requires Recorded()
      modifies `deleteQueue, `notices
      ensures Recorded() && Told(old(notices), notices, leafCap, ok)
    {
      ok := *;
      var queued: seq<nat> := *;
      deleteQueue := deleteQueue + queued;
      notices := notices + [Notice(leafCap, ok, queued)];
      assert notices[..|notices| - 1] == old(notices);
    }

    /** Unlinks the locked leaf, unless it guards the operation or its object refuses. */
    method DeleteLeaf(leaf: CapEntry, ghost order: seq<CapEntry>, ghost k: nat, ghost nodes: seq<Node>)
      returns (err: Error)
      requires Ring(order) && |order| > 1 && k < |order| && order[k] == leaf && LockedAt(order, k)
      requires Holds(order, nodes) && Recorded()
      modifies order, `deleteQueue, `notices
      ensures err != SUCCESS ==> ListIs(order, nodes)
      ensures err == SUCCESS ==> ListIs(RemoveAt(order, k), RemoveAt(nodes, k))
      ensures err == SUCCESS ==> leaf.IsVacant() && !old(leaf.next).revoking
      ensures forall i {:trigger order[i].revoking} ::
                0 <= i < |order| && (err == SUCCESS ==> i != k && i != NextIndex(k, |order|)) ==>
                  order[i].revoking == old(order[i].revoking)
      ensures Recorded()
      ensures err == SUCCESS || err == CYCLIC_DEPENDENCY || err == DELETE_FAILED
      ensures err == CYCLIC_DEPENDENCY <==> old(leaf.cap).ptr == guarded
      ensures if err == CYCLIC_DEPENDENCY then notices == old(notices)
              else Told(old(notices), notices, old(leaf.cap), err == SUCCESS)
    {
      if leaf.cap.ptr == guarded {
        UnlockBoth(leaf, order, k);
        return CYCLIC_DEPENDENCY;
      }
      var ok := NotifyObject(leaf.cap);
      if !ok {
        UnlockBoth(leaf, order, k);
        return DELETE_FAILED;
      }
      UnlinkAndReset(leaf, order, k, nodes);
      err := SUCCESS;
    }

    /** What an iteration does with the leaf it found and locked. */
    method FinishIteration(root: CapEntry, rootCap: Cap, leaf: CapEntry,
                           ghost order: seq<CapEntry>, ghost at: nat, ghost k: nat, ghost nodes: seq<Node>)
      returns (it: Iteration)
      requires Ring(order) && |order| > 1 && k < |order| && order[k] == leaf && at < |order| && order[at] == root
      requires LockedAt(order, k) && Holds(order, nodes) && Recorded()
      modifies order, `deleteQueue, `notices
      ensures it != NotStarted && (it.Failed? ==> it.error != SUCCESS)
      ensures it == NoMoreChildren <==> leaf == root && !rootCap.IsZombie()
      ensures it == NoMoreChildren ==> !root.revoking
      ensures it == RemovedRoot ==> leaf == root
      ensures it == RemovedChild ==> leaf != root && !old(leaf.next).revoking
      ensures if it == RemovedRoot || it == RemovedChild
              then ListIs(RemoveAt(order, k), RemoveAt(nodes, k)) && leaf.IsVacant()
              else ListIs(order, nodes)
      ensures it.Failed? || (it == RemovedChild && NextIndex(k, |order|) != at) ==> root.revoking == old(root.revoking)
      ensures Recorded() && IterationTold(it, old(leaf.cap), guarded, old(notices), notices)
    {
      if leaf == root && !rootCap.IsZombie() {
        root.revoking := false;
        UnlockBoth(root, order, k);
        return NoMoreChildren;
      }
      var err := DeleteLeaf(leaf, order, k, nodes);
      if err != SUCCESS {
        return Failed(err);
      }
      return if leaf == root then RemovedRoot else RemovedChild;
    }

    /** One iteration of the deletion loop, on any list. Since the request began, the root may
        have been killed, or unlinked, or filled with another capability. An entry that was
        to be deleted is a zombie as long as it holds its capability, which is asserted. */
    method DeleteOne(root: CapEntry, rootCap: Cap, ghost order: seq<CapEntry>, ghost at: nat, ghost t: Tree)
      returns (it: Iteration, ghost k: nat, ghost steps: seq<Step>, ghost nodes: seq<Node>)
      requires ListIs(order, t.nodes) && Rooted(t.nodes) && Recorded()
      requires root.prev != null ==> at < |order| && order[at] == root
      requires rootCap.IsZombie() && root.cap.AsZombie() == rootCap.AsZombie() ==> root.cap.IsZombie()
      modifies order, `deleteQueue, `notices
      ensures it == NotStarted <==> old(root.prev) == null || |order| == 1 || old(root.cap).AsZombie() != rootCap.AsZombie()
      ensures it == NotStarted ==> steps == [] && notices == old(notices) && root.revoking == old(root.revoking)
      ensures IterationDid(it, t, steps, nodes, at, k, rootCap.IsZombie())
      ensures ListIs(OrderAfter(it, order, k), nodes) && Recorded()
      ensures it == RemovedRoot || it == RemovedChild ==> order[k].IsVacant()
      ensures it.Failed? || (it == RemovedChild && at > 0) ==> root.revoking == old(root.revoking)
      ensures it != NotStarted ==> IterationTold(it, KillPath(t.nodes, at, k)[k].cap, guarded, old(notices), notices)
      ensures it == NoMoreChildren || (it == RemovedChild && |order| == 2) ==> !root.revoking
    {
      var started := StartTraversal(root, rootCap, order, at);
      if !started {
        NothingDone(t, at, rootCap.IsZombie());
        return NotStarted, 0, [], t.nodes;
      }
      it, k, steps, nodes := DeleteLocked(root, rootCap, order, at, t);
    }

    /** The part of an iteration that runs with locks held. */
    method DeleteLocked(root: CapEntry, rootCap: Cap, ghost order: seq<CapEntry>, ghost at: nat, ghost t: Tree)
      returns (it: Iteration, ghost k: nat, ghost steps: seq<Step>, ghost nodes: seq<Node>)
      requires Ring(order) && |order| > 1 && Holds(order, t.nodes) && Rooted(t.nodes) && Recorded()
      requires at < |order| && LockedAt(order, at) && order[at] == root && root.cap.AsZombie() == rootCap.AsZombie()
      requires rootCap.IsZombie() ==> root.cap.IsZombie()
      modifies order, `deleteQueue, `notices
      ensures it != NotStarted && IterationDid(it, t, steps, nodes, at, k, rootCap.IsZombie())
      ensures ListIs(OrderAfter(it, order, k), nodes) && Recorded()
      ensures it == RemovedRoot || it == RemovedChild ==> order[k].IsVacant()
      ensures it.Failed? || (it == RemovedChild && at > 0) ==> root.revoking == old(root.revoking)
      ensures IterationTold(it, KillPath(t.nodes, at, k)[k].cap, guarded, old(notices), notices)
      ensures it == NoMoreChildren || (it == RemovedChild && |order| == 2) ==> !root.revoking
    {
      var leaf;
      leaf, k := FindLockedLeaf(root, order, at, t.nodes);
      it := FinishIteration(root, rootCap, leaf, order, at, k, KillPath(t.nodes, at, k));
      steps, nodes := IterationLemma(it, t, at, k, rootCap.IsZombie());
    }

    /** Between two iterations of a deletion. `pin` is the revoking flag at the start. */
    ghost predicate AtPoint(root: CapEntry, rootCap: Cap, pin: bool, order: seq<CapEntry>, at: nat, t: Tree,
                            order': seq<CapEntry>, steps: seq<Step>, nodes: seq<Node>, told: seq<Notice>)
      reads this, root, order, order'
    {
      && Underway(t, steps, nodes, at, rootCap.IsZombie(), guarded, told, notices) && Recorded()
      && ListPoint(order, root, at, t, order', nodes) && root.cap == rootCap && LeftOver(order, order')
      && (at > 0 || |nodes| == |t.nodes| ==> root.revoking == pin)
    }

    /** At its end: the list is at rest and holds what is left, and entries that are gone are
        vacant. A revoke that succeeds drops the pin, unless the root was alone; one that fails
        keeps it, unless the root is the root of the tree. */
    ghost predicate AtEnd(res: Error, root: CapEntry, rootCap: Cap, pin: bool, order: seq<CapEntry>, at: nat, t: Tree,
                          order': seq<CapEntry>, steps: seq<Step>, nodes: seq<Node>, told: seq<Notice>)
      reads this, root, order, order'
    {
      && Ended(res, t, steps, nodes, at, rootCap.IsZombie(), guarded, told, notices) && Recorded()
      && ListIs(order', nodes) && LeftOver(order, order')
      && (res == SUCCESS && !rootCap.IsZombie() ==> (root.revoking <==> pin && |t.nodes| == 1))
      && (res != SUCCESS && at > 0 ==> root.revoking == pin)
    }

    lemma AtStart(root: CapEntry, rootCap: Cap, order: seq<CapEntry>, at: nat, t: Tree)
      requires ListIs(order, t.nodes) && Rooted(t.nodes) && Recorded()
      requires at < |order| && order[at] == root && root.cap == rootCap
      ensures AtPoint(root, rootCap, root.revoking, order, at, t, order, [], t.nodes, notices)
    {
      StartPoint(t, at, rootCap.IsZombie(), guarded, notices);
      NothingLeftOver(order);
    }

    /** An iteration on what is left of the list of the start. */
    method DeleteListed(root: CapEntry, rootCap: Cap, ghost order: seq<CapEntry>, ghost at: nat, ghost t: Tree,
                        ghost first: Tree, ghost order': seq<CapEntry>)
      returns (it: Iteration, ghost order'': seq<CapEntry>, ghost k: nat, ghost more: seq<Step>, ghost nodes': seq<Node>)
      requires ListPoint(order, root, at, first, order', t.nodes) && Rooted(t.nodes) && Recorded()
      requires root.cap == rootCap && LeftOver(order, order')
      modifies order', `deleteQueue, `notices
      ensures IterationDid(it, t, more, nodes', at, k, rootCap.IsZombie())
      ensures it == NotStarted <==> |t.nodes| == 1
      ensures it == NotStarted ==> notices == old(notices)
      ensures it != NotStarted ==> IterationTold(it, KillPath(t.nodes, at, k)[k].cap, guarded, old(notices), notices)
      ensures Recorded() && ListIs(order'', nodes') && LeftOver(order, order'')
      ensures it == RemovedChild ==> ListPoint(order, root, at, first, order'', nodes') && root.cap == rootCap
      ensures it == NoMoreChildren ==> !root.revoking
      ensures it == NotStarted || it.Failed? || (it == RemovedChild && at > 0) ==> root.revoking == old(root.revoking)
    {
      it, k, more, nodes' := DeleteOne(root, rootCap, order', at, t);
      order'' := OrderAfter(it, order', k);
      forall i | 0 <= i < |order|
        ensures order[i] in order' || order[i].IsVacant()
      {
        assert order[i] in order' || old(order[i].IsVacant());
      }
      if it == RemovedRoot || it == RemovedChild { LeftOverRemove(order, order', k); }
      if it == RemovedChild { ListGoesOn(order, root, at, order', k); }
    }

    /** An iteration seen from the start of the deletion. */
    method DeleteStep(root: CapEntry, rootCap: Cap, ghost pin: bool, ghost order: seq<CapEntry>, ghost at: nat, ghost t: Tree,
                      ghost order': seq<CapEntry>, ghost steps: seq<Step>, ghost nodes: seq<Node>, ghost told: seq<Notice>)
      returns (it: Iteration, ghost order'': seq<CapEntry>, ghost steps': seq<Step>, ghost nodes': seq<Node>)
      requires AtPoint(root, rootCap, pin, order, at, t, order', steps, nodes, told)
      modifies order, `deleteQueue, `notices
      ensures it == RemovedChild ==>
                AtPoint(root, rootCap, pin, order, at, t, order'', steps', nodes', told) && |nodes'| < |nodes|
      ensures it != RemovedChild ==>
                AtEnd(ResultOf(it), root, rootCap, pin, order, at, t, order'', steps', nodes', told)
    {
      ghost var k, more;
      it, order'', k, more, nodes' := DeleteListed(root, rootCap, order, at, t.(nodes := nodes), t, order');
      steps' := steps + more;
      StepWentOn(it, t, steps, nodes, more, nodes', at, k, rootCap.IsZombie(), guarded, told, old(notices), notices);
    }

    /** Removes the children of `root` leaf by leaf, and then `root` itself if it is a zombie
        and not the root of the tree. Without concurrent insertions the result is a failure
        exactly if an object refused or the guarded object was met. Success means that exactly
        these entries are gone, and after an error nothing else was touched. */
    method Delete(root: CapEntry, rootCap: Cap, ghost order: seq<CapEntry>, ghost at: nat, ghost t: Tree)
      returns (res: Error, ghost order': seq<CapEntry>, ghost steps: seq<Step>, ghost nodes: seq<Node>)
      requires ListIs(order, t.nodes) && Rooted(t.nodes) && Recorded()
      requires at < |order| && order[at] == root && root.cap == rootCap
      modifies order, `deleteQueue, `notices
      ensures AtEnd(res, root, rootCap, old(root.revoking), order, at, t, order', steps, nodes, old(notices))
    {
      order', steps, nodes := order, [], t.nodes;
      AtStart(root, rootCap, order, at, t);
      while true
        invariant AtPoint(root, rootCap, old(root.revoking), order, at, t, order', steps, nodes, old(notices))
        decreases |nodes|
      {
        var it;
        it, order', steps, nodes :=
          DeleteStep(root, rootCap, old(root.revoking), order, at, t, order', steps, nodes, old(notices));
        if it != RemovedChild {
          res := ResultOf(it);
          return;
        }
      }
    }

    method Acquire() returns (ok: bool)
      modifies `lock
      ensures ok == !old(lock) && lock
    {
      ok := !lock;
      lock := true;
    }

    method Emit(ghost e: Event)
      modifies `events
      ensures events == old(events) + [e]
    {
      events := events + [e];
    }

    /** The answer to a request that lost a race, with or without holding the operation. */
    method Refuse(held: bool)
      modifies `lock, `events
      ensures events == old(events) + [Respond(LOST_RACE), RequestDone]
      ensures lock == (old(lock) && !held)
    {
      Emit(Respond(LOST_RACE));
      if held { lock := false; }
      Emit(RequestDone);
    }

    /** After the synchronous phase either the request is answered, or the broadcast that
        starts the asynchronous phase is on its way and the operation stays locked. */
    ghost predicate SyncPhaseDone(before: seq<Event>)
      reads this
    {
      if deleteQueue == []
      then events == before + [Respond(result), RequestDone] && !lock && !pending
      else events == before + [Broadcast] && lock && pending
    }

    method StartAsyncDelete()
      requires lock && !pending
      modifies `lock, `pending, `events
      ensures SyncPhaseDone(old(events))
    {
      if deleteQueue == [] {
        lock := false;
        Emit(Respond(result));
        Emit(RequestDone);
      } else {
        Emit(Broadcast);
        pending := true;
      }
    }

    /** Marks a usable entry as being revoked, under its lock. */
    method Pin(entry: CapEntry) returns (rootCap: Cap)
      requires !entry.locked
      modifies entry`locked, entry`revoking
      ensures rootCap == entry.cap && !entry.locked
      ensures entry.revoking == (old(entry.revoking) || rootCap.IsUsable())
    {
      entry.Lock();
      rootCap := entry.cap;
      if rootCap.IsUsable() { entry.revoking := true; }
      entry.Unlock();
    }

    /** What a request has achieved that was accepted, when its synchronous phase is over. */
    ghost predicate PhaseDone(before: seq<Event>, entry: CapEntry, pin: bool, order: seq<CapEntry>, at: nat, t: Tree,
                              marked: seq<Node>, order': seq<CapEntry>, steps: seq<Step>, nodes: seq<Node>,
                              zombie: bool, guard: nat)
      reads this, entry, order, order'
    {
      && SyncPhaseDone(before) && Recorded() && ListIs(order', nodes) && LeftOver(order, order')
      && Performed(result, t, marked, steps, nodes, at, zombie, guard, notices)
      && (result == SUCCESS && !zombie ==> (entry.revoking <==> pin && |marked| == 1))
      && (result != SUCCESS && at > 0 ==> entry.revoking == pin)
    }

    /** Deletes on behalf of a request, and keeps the result. */
    method DeleteFor(entry: CapEntry, rootCap: Cap, ghost order: seq<CapEntry>, ghost at: nat, ghost t: Tree,
                     ghost marked: seq<Node>, ghost first: seq<Step>)
      returns (ghost order': seq<CapEntry>, ghost steps: seq<Step>, ghost nodes: seq<Node>)
      requires ListIs(order, marked) && Rooted(marked) && deleteQueue == []
      requires Follows(t, first, t.(nodes := marked))
      requires at < |order| && order[at] == entry && entry.cap == rootCap
      modifies order, `deleteQueue, `notices, `result
      ensures ListIs(order', nodes) && LeftOver(order, order') && Recorded()
      ensures Performed(result, t, marked, steps, nodes, at, rootCap.IsZombie(), guarded, notices)
      ensures result == SUCCESS && !rootCap.IsZombie() ==> (entry.revoking <==> old(entry.revoking) && |marked| == 1)
      ensures result != SUCCESS && at > 0 ==> entry.revoking == old(entry.revoking)
    {
      notices := [];
      result, order', steps, nodes := Delete(entry, rootCap, order, at, t.(nodes := marked));
      EndedPerformed(result, t, marked, first, steps, nodes, at, rootCap.IsZombie(), guarded, notices);
      steps := first + steps;
    }

    /** The synchronous phase of a request that holds the operation, on an entry that was killed
        or pinned. Whatever the objects queued, also before an error, is left for the
        asynchronous phase. */
    method SyncPhase(entry: CapEntry, rootCap: Cap, ghost order: seq<CapEntry>, ghost at: nat, ghost t: Tree,
                     ghost marked: seq<Node>, ghost first: seq<Step>)
      returns (ghost order': seq<CapEntry>, ghost steps: seq<Step>, ghost nodes: seq<Node>)
      requires ListIs(order, marked) && Rooted(marked) && lock && !pending && deleteQueue == []
      requires Follows(t, first, t.(nodes := marked))
      requires at < |order| && order[at] == entry && entry.cap == rootCap
      modifies order, `deleteQueue, `notices, `result, `lock, `pending, `events
      ensures PhaseDone(old(events), entry, old(entry.revoking), order, at, t, marked, order', steps, nodes,
                        rootCap.IsZombie(), guarded)
    {
      order', steps, nodes := DeleteFor(entry, rootCap, order, at, t, marked, first);
      StartAsyncDelete();
    }

    /** Deletes an entry with its children, then answers or starts the asynchronous phase. An
        entry that is not linked is empty or only allocated, and is refused. */
    method RequestDelete(entry: CapEntry, guard: nat, ghost order: seq<CapEntry>, ghost at: nat, ghost t: Tree)
      returns (ghost order': seq<CapEntry>, ghost steps: seq<Step>, ghost nodes: seq<Node>)
      requires ListIs(order, t.nodes) && Rooted(t.nodes) && Valid()
      requires if entry.cap.ptr == 0 then entry !in order else at < |order| && order[at] == entry
      modifies this, order, entry`cap
      ensures old(lock) || old(entry.cap).ptr == 0 ==>
                && ListIs(order, t.nodes) && nodes == t.nodes && order' == order && steps == []
                && entry.cap == old(entry.cap) && lock == old(lock) && pending == old(pending)
                && deleteQueue == old(deleteQueue) && events == old(events) + [Respond(LOST_RACE), RequestDone]
      ensures !old(lock) && old(entry.cap).ptr != 0 ==>
                at < |t.nodes| && PhaseDone(old(events), entry, old(entry.revoking), order, at, t, Killed(t.nodes, at),
                                            order', steps, nodes, true, guard)
    {
      order', steps, nodes := order, [], t.nodes;
      guarded := guard;
      var free := Acquire();
      if !free {
        Refuse(false);
        return;
      }
      var ok := entry.Kill();
      if !ok {
        Refuse(true);
        return;
      }
      KilledHolds(order, at, t.nodes);
      order', steps, nodes := SyncPhase(entry, entry.cap, order, at, t, Killed(t.nodes, at), KillStep(t, at));
    }

    /** Deletes the children of an entry and keeps the entry. The pin is gone after success,
        except on an entry that was alone from the start. */
    method RequestRevoke(entry: CapEntry, guard: nat, ghost order: seq<CapEntry>, ghost at: nat, ghost t: Tree)
      returns (ghost order': seq<CapEntry>, ghost steps: seq<Step>, ghost nodes: seq<Node>)
      requires ListIs(order, t.nodes) && Rooted(t.nodes) && Valid() && !entry.locked
      requires if entry.cap.ptr == 0 then entry !in order else at < |order| && order[at] == entry
      modifies this, order, entry`locked, entry`revoking
      ensures old(lock) || !old(entry.cap).IsUsable() ==>
                && ListIs(order, t.nodes) && nodes == t.nodes && order' == order && steps == []
                && entry.revoking == old(entry.revoking) && lock == old(lock) && pending == old(pending)
                && deleteQueue == old(deleteQueue) && events == old(events) + [Respond(LOST_RACE), RequestDone]
      ensures !old(lock) && old(entry.cap).IsUsable() ==>
                PhaseDone(old(events), entry, true, order, at, t, t.nodes, order', steps, nodes, false, guard)
    {
      order', steps, nodes := order, [], t.nodes;
      guarded := guard;
      var free := Acquire();
      if !free {
        Refuse(false);
        return;
      }
      var rootCap := Pin(entry);
      if !rootCap.IsUsable() {
        Refuse(true);
        return;
      }
      assert Follows(t, [], t.(nodes := t.nodes));
      order', steps, nodes := SyncPhase(entry, rootCap, order, at, t, t.nodes, []);
    }

    /** The answer of the broadcast, or of the object that was deleted last. */
    method OnResponse()
      requires lock && pending
      modifies `lock, `pending, `events, `deleteQueue
      ensures old(deleteQueue) == [] ==>
                && events == old(events) + [Respond(result), RequestDone, ResponseDone]
                && deleteQueue == [] && !lock && !pending
      ensures old(deleteQueue) != [] ==>
                && events == old(events) + [DeleteObject(old(deleteQueue)[0]), ResponseDone]
                && deleteQueue == old(deleteQueue)[1..] && lock && pending
    {
      if deleteQueue == [] {
        Emit(Respond(result));
        lock := false;
        pending := false;
        Emit(RequestDone);
      } else {
        var obj := deleteQueue[0];
        deleteQueue := deleteQueue[1..];
        Emit(DeleteObject(obj));
      }
      Emit(ResponseDone);
    }

    /** The rest of a request when the broadcast and each deleted object answer once. */
    method Complete(ghost before: seq<Event>)
      requires SyncPhaseDone(before)
      modifies `lock, `pending, `events, `deleteQueue
      ensures events == before + RequestEvents(old(deleteQueue), result)
      ensures deleteQueue == [] && !lock && !pending
    {
      while pending
        invariant pending ==>
          lock && before + RequestEvents(old(deleteQueue), result) == AllEvents(events, deleteQueue, result)
        invariant !pending ==> events == before + RequestEvents(old(deleteQueue), result) && deleteQueue == [] && !lock
        decreases pending, |deleteQueue|
      {
        AsyncStep(events, deleteQueue, result);
        OnResponse();
      }
    }

    /** What a request that was accepted has achieved when its last answer is there: the client
        was answered once, with the result, and exactly the queued objects were deleted. */
    ghost predicate RequestOver(before: seq<Event>, entry: CapEntry, pin: bool, order: seq<CapEntry>, at: nat, t: Tree,
                                marked: seq<Node>, order': seq<CapEntry>, steps: seq<Step>, nodes: seq<Node>,
                                zombie: bool, guard: nat)
      reads this, entry, order, order'
    {
      && Answered(before, events, result, Objects(notices)) && !lock && Valid()
      && ListIs(order', nodes) && LeftOver(order, order')
      && Performed(result, t, marked, steps, nodes, at, zombie, guard, notices)
      && (result == SUCCESS && !zombie ==> (entry.revoking <==> pin && |marked| == 1))
      && (result != SUCCESS && at > 0 ==> entry.revoking == pin)
    }

    method CompleteRequest(ghost before: seq<Event>, ghost entry: CapEntry, ghost pin: bool, ghost order: seq<CapEntry>,
                           ghost at: nat, ghost t: Tree, ghost marked: seq<Node>, ghost order': seq<CapEntry>,
                           ghost steps: seq<Step>, ghost nodes: seq<Node>, ghost zombie: bool, ghost guard: nat)
      requires PhaseDone(before, entry, pin, order, at, t, marked, order', steps, nodes, zombie, guard)
      modifies `lock, `pending, `events, `deleteQueue
      ensures RequestOver(before, entry, pin, order, at, t, marked, order', steps, nodes, zombie, guard)
    {
      RequestAnswers(before, deleteQueue, result);
      Complete(before);
    }

    /** A delete request from its start to its last answer. */
    method DeleteCap(entry: CapEntry, guard: nat, ghost order: seq<CapEntry>, ghost at: nat, ghost t: Tree)
      returns (ghost order': seq<CapEntry>, ghost steps: seq<Step>, ghost nodes: seq<Node>)
      requires ListIs(order, t.nodes) && Rooted(t.nodes) && Valid()
      requires if entry.cap.ptr == 0 then entry !in order else at < |order| && order[at] == entry
      modifies this, order, entry`cap
      ensures Valid() && lock == old(lock) && ListIs(order', nodes) && LeftOver(order, order')
      ensures old(lock) || old(entry.cap).ptr == 0 ==>
                Answered(old(events), events, LOST_RACE, []) && order' == order && nodes == t.nodes
      ensures !old(lock) && old(entry.cap).ptr != 0 ==>
                at < |t.nodes| && RequestOver(old(events), entry, old(entry.revoking), order, at, t, Killed(t.nodes, at),
                                              order', steps, nodes, true, guard)
    {
      ghost var pin := entry.revoking;
      var refused := lock || entry.cap.ptr == 0;
      order', steps, nodes := RequestDelete(entry, guard, order, at, t);
      if refused {
        NothingLeftOver(order);
        RequestAnswers(old(events), [], LOST_RACE);
      } else {
        CompleteRequest(old(events), entry, pin, order, at, t, Killed(t.nodes, at), order', steps, nodes, true, guard);
      }
    }

    /** A revoke request from its start to its last answer. */
    method RevokeCap(entry: CapEntry, guard: nat, ghost order: seq<CapEntry>, ghost at: nat, ghost t: Tree)
      returns (ghost order': seq<CapEntry>, ghost steps: seq<Step>, ghost nodes: seq<Node>)
      requires ListIs(order, t.nodes) && Rooted(t.nodes) && Valid() && !entry.locked
      requires if entry.cap.ptr == 0 then entry !in order else at < |order| && order[at] == entry
      modifies this, order, entry`locked, entry`revoking
      ensures Valid() && lock == old(lock) && ListIs(order', nodes) && LeftOver(order, order')
      ensures old(lock) || !old(entry.cap).IsUsable() ==>
                Answered(old(events), events, LOST_RACE, []) && order' == order && nodes == t.nodes
      ensures !old(lock) && old(entry.cap).IsUsable() ==>
                RequestOver(old(events), entry, true, order, at, t, t.nodes, order', steps, nodes, false, guard)
    {
      var refused := lock || !entry.cap.IsUsable();
      order', steps, nodes := RequestRevoke(entry, guard, order, at, t);
      if refused {
        NothingLeftOver(order);
        RequestAnswers(old(events), [], LOST_RACE);
      } else {
        CompleteRequest(old(events), entry, true, order, at, t, t.nodes, order', steps, nodes, false, guard);
      }
    }
  }
}
