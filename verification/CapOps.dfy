/** The operations that link and unlink capabilities: derive, reference and resetReference. */
module CapOps {
  import opened Caps
  import opened CapTree
  import opened CapList
  import opened Revocation

  /** What the object behind the parent answers to a mint request. */
  datatype Minted = Minted(cap: Cap) | Refused(error: Error)

  /** An entry that is not in the list is free exactly if it is empty. */
  ghost predicate FreeIfEmpty(target: CapEntry, order: seq<CapEntry>)
    reads target
  {
    target.cap == EMPTY ==> target !in order && target.IsUnlinked()
  }

  /** The list and tree after an operation that was to link `child` behind entry `at`. */
  ghost predicate LinkedOrNot(res: Error, t: Tree, at: nat, child: Cap,
                              order: seq<CapEntry>, target: CapEntry, order': seq<CapEntry>)
    reads order'`next, order'`prev, order'`locked, order'`id, order'`cap
  {
    && Ring(order') && Unlocked(order') && at < |order|
    && (res != SUCCESS ==> order' == order && Holds(order', t.nodes))
    && (res == SUCCESS ==>
          && Enabled(t, Insert(at, child)) && order' == SpliceIn(order, at, target)
          && Holds(order', Apply(t, Insert(at, child)).nodes))
  }

  /** Links a derived capability behind its parent. Only capabilities that are not derived
      can be derived from. */
  method Derive(parentEntry: CapEntry, target: CapEntry, parentCap: Cap, minted: Minted,
                ghost order: seq<CapEntry>, ghost at: nat, ghost t: Tree)
    returns (res: Error, ghost order': seq<CapEntry>)
    requires Ring(order) && Unlocked(order) && Holds(order, t.nodes) && at < |order| && order[at] == parentEntry
    requires FreeIfEmpty(target, order) && Rooted(t.nodes)
    requires minted.Minted? ==> IsMintOf(parentCap, minted.cap) && !IsParentOf(DerivedFrom(minted.cap), t.nodes[0].cap)
    requires minted.Refused? ==> minted.error != SUCCESS
    modifies order`next, order`prev, order`locked, target
    ensures LinkedOrNot(res, t, at, if minted.Minted? then DerivedFrom(minted.cap) else EMPTY, order, target, order')
    ensures res == if !parentCap.IsUsable() || parentCap.der then INVALID_CAPABILITY
                   else if minted.Refused? then minted.error
                   else if old(target.cap) != EMPTY || old(parentEntry.cap) != parentCap then LOST_RACE else SUCCESS
    ensures res != SUCCESS ==> target.cap == old(target.cap)
    ensures res == SUCCESS ==>
              && target.cap.ptr == minted.cap.ptr && target.cap.data == minted.cap.data
              && target.cap.range == minted.cap.range
              && target.cap.der && !target.cap.ref && target.cap.IsUsable()
  {
    order' := order;
    if !parentCap.IsUsable() || parentCap.der { return INVALID_CAPABILITY, order'; }
    if minted.Refused? { return minted.error, order'; }
    DeriveIsLegal(parentCap, minted.cap);
    var ok := target.TryAcquire();
    if !ok { return LOST_RACE, order'; }
    res, order' := parentEntry.InsertAfter(parentCap, target, DerivedFrom(minted.cap), order, at, t);
  }

  /** Links a reference behind the capability it refers to. */
  method Reference(parentEntry: CapEntry, target: CapEntry, parentCap: Cap, minted: Minted,
                   ghost order: seq<CapEntry>, ghost at: nat, ghost t: Tree)
    returns (res: Error, ghost order': seq<CapEntry>)
    requires Ring(order) && Unlocked(order) && Holds(order, t.nodes) && at < |order| && order[at] == parentEntry
    requires FreeIfEmpty(target, order) && Rooted(t.nodes)
    requires minted.Minted? ==> IsMintOf(parentCap, minted.cap) && !IsParentOf(ReferenceTo(minted.cap), t.nodes[0].cap)
    requires minted.Refused? ==> minted.error != SUCCESS
    modifies order`next, order`prev, order`locked, target
    ensures LinkedOrNot(res, t, at, if minted.Minted? then ReferenceTo(minted.cap) else EMPTY, order, target, order')
    ensures res == if !parentCap.IsUsable() then INVALID_CAPABILITY
                   else if minted.Refused? then minted.error
                   else if old(target.cap) != EMPTY || old(parentEntry.cap) != parentCap then LOST_RACE else SUCCESS
    ensures res != SUCCESS ==> target.cap == old(target.cap)
    ensures res == SUCCESS ==>
              && target.cap.ptr == minted.cap.ptr && target.cap.data == minted.cap.data
              && target.cap.range == minted.cap.range
              && target.cap.ref && target.cap.der == parentCap.der && target.cap.IsUsable()
  {
    order' := order;
    if !parentCap.IsUsable() { return INVALID_CAPABILITY, order'; }
    if minted.Refused? { return minted.error, order'; }
    ReferenceIsLegal(parentCap, minted.cap);
    var ok := target.TryAcquire();
    if !ok { return LOST_RACE, order'; }
    res, order' := parentEntry.InsertAfter(parentCap, target, ReferenceTo(minted.cap), order, at, t);
  }

  lemma KilledThenRemoved(nodes: seq<Node>, at: nat)
    requires at < |nodes|
    ensures RemoveAt(Killed(nodes, at), at) == RemoveAt(nodes, at)
  {
  }

  ghost function ResetSteps(t: Tree, at: nat): (steps: seq<Step>)
    requires at < |t.nodes| && t.nodes[at].cap.ref && t.nodes[at].cap.ptr != 0
    ensures Follows(t, steps, t.(nodes := RemoveAt(t.nodes, at)))
  {
    KilledThenRemoved(t.nodes, at);
    if t.nodes[at].cap.IsUsable() then
      var killed := Apply(t, Kill(at));
      assert Follows(killed, [RemoveReference(at)], Apply(killed, RemoveReference(at)));
      assert [Kill(at), RemoveReference(at)][1..] == [RemoveReference(at)];
      [Kill(at), RemoveReference(at)]
    else
      assert Follows(t, [RemoveReference(at)], Apply(t, RemoveReference(at)));
      [RemoveReference(at)]
  }

  /** Takes a killed entry out of its list; its predecessor is locked already. */
  method UnlinkKilled(dst: CapEntry, ghost order: seq<CapEntry>, ghost at: nat, ghost nodes: seq<Node>)
    requires Ring(order) && |order| > 1 && at < |order| && order[at] == dst && Holds(order, nodes) && dst.cap.IsZombie()
    requires forall i {:trigger order[i].locked} :: 0 <= i < |order| ==> order[i].locked == (i == PrevIndex(at, |order|))
    modifies order
    ensures ListIs(RemoveAt(order, at), RemoveAt(nodes, at))
    ensures dst.cap == EMPTY && dst.IsUnlinked()
  {
    dst.Lock();
    var _ := dst.Kill();
    UnlinkAndReset(dst, order, at, nodes);
  }

  /** Unlinks and empties an entry that holds a reference; false if there was nothing to
      kill. */
  method ResetReference(dst: CapEntry, ghost order: seq<CapEntry>, ghost at: nat, ghost t: Tree)
    returns (ok: bool, ghost order': seq<CapEntry>, ghost steps: seq<Step>)
    requires ListIs(order, t.nodes) && Rooted(t.nodes)
    requires if dst.prev == null then dst !in order else at < |order| && order[at] == dst && |order| > 1
    modifies order, dst
    ensures ok <==> old(dst.cap).ptr != 0
    ensures old(dst.prev) == null ==> order' == order && ListIs(order, t.nodes) && steps == []
    ensures old(dst.prev) != null ==>
              && at < |t.nodes| && order' == RemoveAt(order, at) && ListIs(order', RemoveAt(t.nodes, at))
              && (t.nodes[at].cap.ref ==> Follows(t, steps, t.(nodes := RemoveAt(t.nodes, at))))
              && dst.cap == EMPTY && dst.IsUnlinked()
  {
    order', steps := order, [];
    assert dst.prev != null ==> t.nodes[at].cap.ptr != 0;
    ok := dst.Kill();
    if !ok { return; }
    var linked := dst.LockPrev();
    if !linked { return; }
    KilledHolds(order, at, t.nodes);
    UnlinkKilled(dst, order, at, Killed(t.nodes, at));
    KilledThenRemoved(t.nodes, at);
    order', steps := RemoveAt(order, at), if t.nodes[at].cap.ref then ResetSteps(t, at) else [];
  }
}
