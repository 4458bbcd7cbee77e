/** Capability entries as heap objects: the circular, doubly linked list that stores the
    resource tree, with its per-entry lock flags.

    Each method is one section between locking and unlocking. `order` is the list from the
    root of the tree onwards. */
module CapList {
  import opened Caps
  import opened CapTree

  datatype Error = SUCCESS | LOST_RACE | GENERIC_ERROR | INVALID_CAPABILITY | CAP_NONEMPTY
                 | CYCLIC_DEPENDENCY | DELETE_FAILED
                 | DEADLOCK      // the code would wait for a lock that it holds itself

  function PrevIndex(i: nat, n: nat): (j: nat)
    requires i < n
    ensures j < n && NextIndex(j, n) == i
  {
    if i > 0 then i - 1 else n - 1
  }

  ghost predicate Ring(order: seq<CapEntry>)
    reads order`next, order`prev
  {
    && |order| > 0
    && Distinct(order)
    && (forall i {:trigger order[i].next} :: 0 <= i < |order| ==> order[i].next == order[NextIndex(i, |order|)])
    && (forall i {:trigger order[i].prev} :: 0 <= i < |order| ==> order[i].prev == order[PrevIndex(i, |order|)])
  }

  ghost predicate Unlocked(order: seq<CapEntry>)
    reads order`locked
  {
    forall i {:trigger order[i].locked} :: 0 <= i < |order| ==> !order[i].locked
  }

  /** The list holds exactly the nodes of the tree, in order. */
  ghost predicate Holds(order: seq<CapEntry>, nodes: seq<Node>)
    reads order`id, order`cap
  {
    && |nodes| == |order|
    && forall i {:trigger nodes[i]} :: 0 <= i < |order| ==> nodes[i] == Node(order[i].id, order[i].cap)
  }

  /** Exactly the entry at `at` and its predecessor are locked. */
  ghost predicate LockedAt(order: seq<CapEntry>, at: nat)
    requires at < |order|
    reads order`locked
  {
    forall i {:trigger order[i].locked} :: 0 <= i < |order| ==> order[i].locked == (i == at || i == PrevIndex(at, |order|))
  }

  ghost predicate Distinct(order: seq<CapEntry>) {
    forall i, j :: 0 <= i < j < |order| ==> order[i] != order[j]
  }

  /** The list with `target` behind position `at`. */
  function SpliceIn(order: seq<CapEntry>, at: nat, target: CapEntry): (s: seq<CapEntry>)
    requires at < |order|
    ensures |s| == |order| + 1
    ensures forall i :: 0 <= i <= at ==> s[i] == order[i]
    ensures s[at + 1] == target
    ensures forall i :: at + 1 < i < |s| ==> s[i] == order[i - 1]
  {
    order[..at + 1] + [target] + order[at + 1..]
  }

  lemma SpliceInDistinct(order: seq<CapEntry>, at: nat, target: CapEntry)
    requires |order| > at && Distinct(order) && target !in order
    ensures Distinct(SpliceIn(order, at, target))
  {
  }

  /** The links of a ring in which the one from `at` to its successor was redirected through
      `target`. */
  ghost predicate SplicedIn(order: seq<CapEntry>, at: nat, target: CapEntry)
    requires at < |order|
    reads order`next, order`prev, target`next, target`prev
  {
    && (forall i {:trigger order[i].next} :: 0 <= i < |order| && i != at ==> order[i].next == order[NextIndex(i, |order|)])
    && (forall i {:trigger order[i].prev} ::
          0 <= i < |order| && i != NextIndex(at, |order|) ==> order[i].prev == order[PrevIndex(i, |order|)])
    && order[at].next == target && target.prev == order[at]
    && target.next == order[NextIndex(at, |order|)] && order[NextIndex(at, |order|)].prev == target
  }

  /** `s` is the longer list, without saying how it is put together. */
  ghost predicate IsSplice(order: seq<CapEntry>, at: nat, target: CapEntry, s: seq<CapEntry>)
    requires at < |order|
  {
    && |s| == |order| + 1 && s[at + 1] == target
    && forall i {:trigger s[i]} :: 0 <= i < |s| && i != at + 1 ==> s[i] == order[Before(at, i)]
  }

  lemma SpliceInNext(order: seq<CapEntry>, at: nat, target: CapEntry, s: seq<CapEntry>, i: nat)
    requires at < |order| && i < |order| + 1 && SplicedIn(order, at, target) && IsSplice(order, at, target, s)
    ensures s[i].next == s[NextIndex(i, |order| + 1)]
  {
  }

  lemma SpliceInPrev(order: seq<CapEntry>, at: nat, target: CapEntry, s: seq<CapEntry>, i: nat)
    requires at < |order| && i < |order| + 1 && SplicedIn(order, at, target) && IsSplice(order, at, target, s)
    ensures s[i].prev == s[PrevIndex(i, |order| + 1)]
  {
  }

  /** It is the ring of the longer list. */
  lemma SpliceInRing(order: seq<CapEntry>, at: nat, target: CapEntry)
    requires |order| > at && Distinct(order) && target !in order && SplicedIn(order, at, target)
    ensures Ring(SpliceIn(order, at, target))
  {
    SpliceInDistinct(order, at, target);
    var s := SpliceIn(order, at, target);
    assert IsSplice(order, at, target, s);
    forall i | 0 <= i < |s|
      ensures s[i].next == s[NextIndex(i, |s|)]
    {
      SpliceInNext(order, at, target, s, i);
    }
    forall i | 0 <= i < |s|
      ensures s[i].prev == s[PrevIndex(i, |s|)]
    {
      SpliceInPrev(order, at, target, s, i);
    }
  }

  lemma SpliceInHolds(order: seq<CapEntry>, at: nat, target: CapEntry, nodes: seq<Node>)
    requires |order| > at && Holds(order, nodes)
    ensures Holds(SpliceIn(order, at, target), InsertAt(nodes, at, Node(target.id, target.cap)))
  {
  }

  /** The links of a ring from which the entry at `at` was spliced out. */
  ghost predicate SplicedOut(order: seq<CapEntry>, at: nat)
    requires at < |order|
    reads order`next, order`prev
  {
    && (forall i {:trigger order[i].next} ::
          0 <= i < |order| && i != at && i != PrevIndex(at, |order|) ==> order[i].next == order[NextIndex(i, |order|)])
    && (forall i {:trigger order[i].prev} ::
          0 <= i < |order| && i != at && i != NextIndex(at, |order|) ==> order[i].prev == order[PrevIndex(i, |order|)])
    && order[PrevIndex(at, |order|)].next == order[NextIndex(at, |order|)]
    && order[NextIndex(at, |order|)].prev == order[PrevIndex(at, |order|)]
  }

  lemma SpliceOutNext(order: seq<CapEntry>, at: nat, i: nat)
    requires at < |order| && i < |order| - 1 && SplicedOut(order, at)
    ensures RemoveAt(order, at)[i].next == RemoveAt(order, at)[NextIndex(i, |order| - 1)]
  {
  }

  lemma SpliceOutPrev(order: seq<CapEntry>, at: nat, i: nat)
    requires at < |order| && i < |order| - 1 && SplicedOut(order, at)
    ensures RemoveAt(order, at)[i].prev == RemoveAt(order, at)[PrevIndex(i, |order| - 1)]
  {
  }

  lemma SpliceOutDistinct(order: seq<CapEntry>, at: nat)
    requires at < |order| && Distinct(order)
    ensures Distinct(RemoveAt(order, at)) && order[at] !in RemoveAt(order, at)
  {
  }

  lemma SpliceOutRing(order: seq<CapEntry>, at: nat)
    requires |order| > at && |order| > 1 && Distinct(order) && SplicedOut(order, at)
    ensures Ring(RemoveAt(order, at))
  {
    var s := RemoveAt(order, at);
    SpliceOutDistinct(order, at);
    forall i | 0 <= i < |s|
      ensures s[i].next == s[NextIndex(i, |s|)]
    {
      SpliceOutNext(order, at, i);
    }
    forall i | 0 <= i < |s|
      ensures s[i].prev == s[PrevIndex(i, |s|)]
    {
      SpliceOutPrev(order, at, i);
    }
  }

  lemma SpliceOutUnlocked(order: seq<CapEntry>, at: nat)
    requires at < |order|
    requires forall i {:trigger order[i].locked} :: 0 <= i < |order| && i != at ==> !order[i].locked
    ensures Unlocked(RemoveAt(order, at))
  {
  }

  lemma ReplaceHolds(order: seq<CapEntry>, at: nat, other: CapEntry, nodes: seq<Node>)
    requires |order| > at && Holds(order, nodes) && Distinct(order) && other !in order
    requires other.id == order[at].id && other.cap == order[at].cap
    ensures Holds(order[at := other], nodes) && order[at] !in order[at := other]
  {
  }

  lemma ReplaceRing(order: seq<CapEntry>, at: nat, other: CapEntry)
    requires |order| > at && |order| > 1 && Distinct(order) && other !in order
    requires forall i {:trigger order[i].next} ::
               0 <= i < |order| && i != at && i != PrevIndex(at, |order|) ==> order[i].next == order[NextIndex(i, |order|)]
    requires forall i {:trigger order[i].prev} ::
               0 <= i < |order| && i != at && i != NextIndex(at, |order|) ==> order[i].prev == order[PrevIndex(i, |order|)]
    requires order[PrevIndex(at, |order|)].next == other && other.prev == order[PrevIndex(at, |order|)]
    requires order[NextIndex(at, |order|)].prev == other && other.next == order[NextIndex(at, |order|)]
    ensures Ring(order[at := other])
  {
  }

  /** `next` and `prev` are the pointer parts of the two link words, `locked` is the flag of
      the next link, `revoking` and `deleted` are the flags of the prev link. */
  class CapEntry {
    var cap: Cap
    var next: CapEntry?
    var locked: bool
    var prev: CapEntry?
    var revoking: bool
    var deleted: bool
    ghost var id: nat   // the node of the tree that the entry holds

    constructor ()
      ensures IsVacant()
    {
      cap := EMPTY;
      next, prev, locked, revoking, deleted := null, null, false, false, false;
    }

    ghost predicate IsUnlinked()
      reads this
    {
      next == null && prev == null && !locked
    }

    /** The entry can be acquired for a new capability. */
    ghost predicate IsVacant()
      reads this
    {
      cap == EMPTY && IsUnlinked() && !revoking && !deleted
    }

    /** Makes this entry the only one of a new list. */
    method InitRoot(c: Cap)
      requires c.IsUsable() && cap == EMPTY
      modifies this
      ensures Ring([this]) && Unlocked([this]) && cap == c && id == 0 && !revoking && !deleted
    {
      next, locked := this, false;
      prev, revoking, deleted := this, false, false;
      cap := c;
      id := 0;
    }

    method TryAcquire() returns (ok: bool)
      modifies this`cap
      ensures ok == (old(cap) == EMPTY)
      ensures cap == if ok then ALLOCATED else old(cap)
    {
      ok := cap == EMPTY;
      if ok { cap := ALLOCATED; }
    }

    /** Brings a usable entry into the zombie state; true if it is a zombie afterwards. */
    method Kill() returns (ok: bool)
      modifies this`cap
      ensures cap == if old(cap).IsUsable() then old(cap).AsZombie() else old(cap)
      ensures ok == cap.IsZombie()
    {
      if cap.IsUsable() { cap := cap.AsZombie(); }
      ok := cap.IsZombie();
    }

    /** Gives the entry back as empty. */
    method Reset()
      modifies this
      ensures IsVacant() && id == old(id)
    {
      prev, revoking, deleted := null, false, false;
      next, locked := null, false;
      cap := EMPTY;
    }

    method Lock()
      requires !locked
      modifies this`locked
      ensures locked
    {
      locked := true;
    }

    method Unlock()
      requires locked
      modifies this`locked
      ensures !locked
    {
      locked := false;
    }

    /** Locks the predecessor; fails if the entry is not linked. */
    method LockPrev() returns (ok: bool)
      requires prev != null ==> !prev.locked
      modifies (if prev != null then {prev} else {})`locked
      ensures ok == (prev != null) && (ok ==> prev.locked)
    {
      ok := prev != null;
      if ok { prev.Lock(); }
    }

    /** The four stores that put `target` between this entry and its successor. The last one
        also releases the lock. */
    method LinkBehind(target: CapEntry, ghost order: seq<CapEntry>, ghost at: nat)
      requires Ring(order) && at < |order| && order[at] == this && target !in order
      modifies this`next, this`locked, next`prev
      modifies target`next, target`locked, target`prev, target`revoking, target`deleted
      ensures Ring(SpliceIn(order, at, target)) && !locked && !target.locked && !target.revoking && !target.deleted
    {
      var succ := next;
      succ.prev := target;                                        // keeps the flags
      target.next, target.locked := succ, false;
      target.prev, target.revoking, target.deleted := this, false, false;
      next, locked := target, false;
      SpliceInRing(order, at, target);
    }

    /** Links the target and fills it, with the lock of this entry held. */
    method CommitBehind(target: CapEntry, targetCap: Cap, ghost order: seq<CapEntry>, ghost at: nat, ghost t: Tree)
      requires Ring(order) && at < |order| && order[at] == this && target !in order && Holds(order, t.nodes)
      requires forall i {:trigger order[i].locked} :: 0 <= i < |order| ==> order[i].locked == (i == at)
      requires Enabled(t, Insert(at, targetCap))
      modifies order`next, order`prev, order`locked, target
      ensures Ring(SpliceIn(order, at, target)) && Unlocked(SpliceIn(order, at, target))
      ensures Holds(SpliceIn(order, at, target), Apply(t, Insert(at, targetCap)).nodes)
      ensures target.cap == targetCap && !target.revoking && !target.deleted
    {
      LinkBehind(target, order, at);
      target.cap := targetCap;                                    // commit
      target.id := |t.births|;
      SpliceInHolds(order, at, target, t.nodes);
    }

    /** Links the acquired `target` directly behind this entry, if this entry still holds
        `parentCap`. The requirements on the two capabilities are the assertions that are
        checked while the lock is held. */
    method InsertAfter(parentCap: Cap, target: CapEntry, targetCap: Cap,
                       ghost order: seq<CapEntry>, ghost at: nat, ghost t: Tree)
      returns (res: Error, ghost order': seq<CapEntry>)
      requires Ring(order) && Unlocked(order) && at < |order| && order[at] == this
      requires target !in order && target.cap.IsAllocated() && target.IsUnlinked()
      requires Holds(order, t.nodes)
      requires targetCap.IsUsable() && LegalChild(parentCap, targetCap)
      requires !IsParentOf(targetCap, order[0].cap)
      modifies order`next, order`prev, order`locked, target
      ensures Ring(order') && Unlocked(order')
      ensures res == SUCCESS <==> old(cap) == parentCap && old(cap).IsUsable()
      ensures res != SUCCESS ==> res == LOST_RACE && order' == order && Holds(order', t.nodes) && target.IsVacant()
      ensures res == SUCCESS ==> order' == SpliceIn(order, at, target) && Enabled(t, Insert(at, targetCap))
      ensures res == SUCCESS ==> Holds(order', Apply(t, Insert(at, targetCap)).nodes)
      ensures res == SUCCESS ==> target.cap == targetCap && !target.revoking && !target.deleted
    {
      Lock();
      if !cap.IsUsable() || cap != parentCap {
        Unlock();
        target.Reset();
        res, order' := LOST_RACE, order;
      } else {
        CommitBehind(target, targetCap, order, at, t);
        res, order' := SUCCESS, SpliceIn(order, at, target);
      }
    }

    /** The stores that make the neighbours of this entry the neighbours of `other`; the last
        one releases the lock of the predecessor. */
    method ReplaceBy(other: CapEntry, ghost order: seq<CapEntry>, ghost at: nat)
      requires Ring(order) && at < |order| && order[at] == this && other !in order && |order| > 1
      requires LockedAt(order, at)
      modifies order`next, order`prev, order`locked
      modifies other`next, other`locked, other`prev, other`revoking, other`deleted
      ensures Ring(order[at := other]) && Unlocked(order[at := other]) && !other.revoking && !other.deleted
    {
      var succ, pred := next, prev;
      succ.prev := other;                                         // keeps the flags
      other.next, other.locked := succ, false;
      other.prev, other.revoking, other.deleted := pred, false, false;
      pred.next, pred.locked := other, false;
      ReplaceRing(order, at, other);
    }

    method CommitInstead(other: CapEntry, ghost order: seq<CapEntry>, ghost at: nat, ghost nodes: seq<Node>)
      requires Ring(order) && Holds(order, nodes) && other !in order
      requires at < |order| && order[at] == this && |order| > 1
      requires LockedAt(order, at)
      modifies order`next, order`prev, order`locked, other
      ensures Ring(order[at := other]) && Unlocked(order[at := other]) && Holds(order[at := other], nodes)
      ensures other.cap == cap && !other.revoking && !other.deleted
    {
      ReplaceBy(other, order, at);
      other.cap, other.id := cap, id;                             // commit
      ReplaceHolds(order, at, other, nodes);
    }

    /** The part of `MoveTo` that runs with this entry and its predecessor locked. */
    method MoveLocked(other: CapEntry, ghost order: seq<CapEntry>, ghost at: nat, ghost nodes: seq<Node>)
      requires Ring(order) && Holds(order, nodes) && other !in order
      requires at < |order| && order[at] == this && |order| > 1
      requires LockedAt(order, at)
      modifies order`next, order`prev, order`locked, this, other
      ensures Ring(order[at := other]) && Unlocked(order[at := other]) && Holds(order[at := other], nodes)
      ensures IsVacant()
      ensures other.cap == old(cap) && !other.revoking && !other.deleted
    {
      ghost var order' := order[at := other];
      CommitInstead(other, order, at, nodes);
      assert this !in order';
      Reset();
    }

    /** Puts the capability of this entry into the acquired entry `other`, at the same place
        of the list. */
    method MoveTo(other: CapEntry, ghost order: seq<CapEntry>, ghost at: nat, ghost nodes: seq<Node>)
      returns (res: Error, ghost order': seq<CapEntry>)
      requires Ring(order) && Unlocked(order) && Holds(order, nodes)
      requires other !in order && other.cap.IsAllocated() && other.IsUnlinked()
      requires if prev == null then this !in order && this != other else at < |order| && order[at] == this
      modifies order`next, order`prev, order`locked, this, other
      ensures Ring(order') && Holds(order', nodes) && (res != DEADLOCK ==> Unlocked(order'))
      ensures res == GENERIC_ERROR <==> old(prev) == null
      ensures res == DEADLOCK <==> old(prev) != null && |order| == 1
      ensures res == INVALID_CAPABILITY <==> old(prev) != null && |order| > 1 && (old(revoking) || !old(cap).IsUsable())
      ensures res == SUCCESS || res == DEADLOCK || res == GENERIC_ERROR || res == INVALID_CAPABILITY
      ensures res != SUCCESS ==> order' == order && cap == old(cap) && revoking == old(revoking)
      ensures res == GENERIC_ERROR || res == INVALID_CAPABILITY ==> other.IsVacant()
      ensures res == SUCCESS ==> order' == order[at := other] && IsVacant()
      ensures res == SUCCESS ==> other.cap == old(cap) && !other.revoking && !other.deleted
    {
      order' := order;
      var linked := LockPrev();
      if !linked {
        other.Reset();
        return GENERIC_ERROR, order';
      }
      if locked { return DEADLOCK, order'; }
      Lock();
      var thisCap := cap;
      if revoking || !thisCap.IsUsable() {
        other.Reset();
        Unlock();
        prev.Unlock();
        return INVALID_CAPABILITY, order';
      }
      MoveLocked(other, order, at, nodes);
      res, order' := SUCCESS, order[at := other];
    }

    /** Takes this entry out of the list. The entry and its predecessor are locked; the
        stores drop both locks, and also the flags in the successor's prev link. */
    method Unlink(ghost order: seq<CapEntry>, ghost at: nat)
      requires Ring(order) && at < |order| && order[at] == this && |order| > 1
      requires LockedAt(order, at)
      modifies order`next, order`prev, order`locked
      modifies this`revoking, this`deleted, next`revoking, next`deleted
      ensures Ring(RemoveAt(order, at)) && Unlocked(RemoveAt(order, at)) && IsUnlinked()
      ensures !revoking && !deleted && !old(next).revoking && !old(next).deleted
    {
      var succ, pred := next, prev;
      succ.prev, succ.revoking, succ.deleted := pred, false, false;
      pred.next, pred.locked := succ, false;
      prev, revoking, deleted := null, false, false;
      next, locked := null, false;
      SpliceOutRing(order, at);
      SpliceOutUnlocked(order, at);
    }
  }
}
