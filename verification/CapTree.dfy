/** The resource tree as the sequence of linked capabilities, and every way it can change.

    One step is one section between locking and unlocking list entries. A node keeps its
    identity when `moveTo` puts it into another entry, so moving is invisible here. */
module CapTree {
  import opened Caps

  /** A linked capability: `id` is its index in the birth record. */
  datatype Node = Node(id: nat, cap: Cap)

  /** How a capability came to be: the id of the one it was made from, and its value. */
  datatype Birth = Birth(parent: nat, cap: Cap)

  datatype Tree = Tree(nodes: seq<Node>, births: seq<Birth>)

  datatype Step =
    | Insert(at: nat, cap: Cap)        // inherit, derive, reference, setReference
    | Kill(at: nat)                    // usable -> zombie
    | RemoveLeaf(at: nat)              // one iteration of the deletion loop
    | RemoveReference(at: nat)         // resetReference

  /** The list is circular and starts at the root of the tree. */
  function NextIndex(i: nat, n: nat): (j: nat)
    requires i < n
    ensures j < n
  {
    if i + 1 < n then i + 1 else 0
  }

  predicate IsLeaf(nodes: seq<Node>, i: nat)
    requires i < |nodes|
  {
    !IsParentOf(nodes[i].cap, nodes[NextIndex(i, |nodes|)].cap)
  }

  predicate Enabled(t: Tree, s: Step) {
    match s
    case Insert(at, cap) =>
      && at < |t.nodes| && t.nodes[at].cap.IsUsable() && cap.IsUsable()
      && LegalChild(t.nodes[at].cap, cap)
      && !IsParentOf(cap, t.nodes[0].cap)
    case Kill(at) => at < |t.nodes| && t.nodes[at].cap.IsUsable()
    case RemoveLeaf(at) => 0 < at < |t.nodes| && t.nodes[at].cap.IsZombie() && IsLeaf(t.nodes, at)
    case RemoveReference(at) => at < |t.nodes| && t.nodes[at].cap.IsZombie() && t.nodes[at].cap.ref
  }

  function InsertAt(nodes: seq<Node>, at: nat, n: Node): seq<Node>
    requires at < |nodes|
  {
    nodes[..at + 1] + [n] + nodes[at + 1..]
  }

  function RemoveAt<T>(nodes: seq<T>, at: nat): (rest: seq<T>)
    requires at < |nodes|
    ensures |rest| == |nodes| - 1
    ensures forall i :: 0 <= i < at ==> rest[i] == nodes[i]
    ensures forall i :: at <= i < |rest| ==> rest[i] == nodes[i + 1]
  {
    nodes[..at] + nodes[at + 1..]
  }

  function Apply(t: Tree, s: Step): Tree
    requires Enabled(t, s)
  {
    match s
    case Insert(at, cap) =>
      Tree(InsertAt(t.nodes, at, Node(|t.births|, cap)),
           t.births + [Birth(t.nodes[at].id, cap)])
    case Kill(at) => t.(nodes := t.nodes[at := t.nodes[at].(cap := t.nodes[at].cap.AsZombie())])
    case RemoveLeaf(at) => t.(nodes := RemoveAt(t.nodes, at))
    case RemoveReference(at) => t.(nodes := RemoveAt(t.nodes, at))
  }

  predicate IsInit(t: Tree) {
    && |t.nodes| == 1 && |t.births| == 1
    && t.nodes[0] == Node(0, t.births[0].cap)
    && t.births[0].cap.IsUsable() && t.births[0].cap.IsOriginal()
  }

  /** The steps can be taken one after the other and lead from `t` to `t'`. */
  predicate Follows(t: Tree, steps: seq<Step>, t': Tree)
    decreases |steps|
  {
    if steps == [] then t' == t
    else Enabled(t, steps[0]) && Follows(Apply(t, steps[0]), steps[1..], t')
  }

  lemma {:induction false} Append(t: Tree, first: seq<Step>, mid: Tree, second: seq<Step>, t': Tree)
    requires Follows(t, first, mid) && Follows(mid, second, t')
    ensures Follows(t, first + second, t')
    decreases |first|
  {
    if first == [] {
      assert first + second == second;
    } else {
      Append(Apply(t, first[0]), first[1..], mid, second, t');
      assert (first + second)[1..] == first[1..] + second;
    }
  }

  /** One more step at the end of a history. */
  lemma Extend(t: Tree, steps: seq<Step>, mid: Tree, s: Step)
    requires Follows(t, steps, mid) && Enabled(mid, s)
    ensures Follows(t, steps + [s], Apply(mid, s))
  {
    assert Follows(mid, [s], Apply(mid, s));
    Append(t, steps, mid, [s], Apply(mid, s));
  }

  /** Births point backwards, so ancestry is a well-founded walk. */
  predicate BirthsOk(births: seq<Birth>) {
    forall k :: 0 < k < |births| ==> births[k].parent < k
  }

  /** `d` was made, directly or through any chain of capabilities, from `a`. */
  predicate CreatedFrom(births: seq<Birth>, d: nat, a: nat)
    requires d < |births| && BirthsOk(births)
  {
    d > 0 && (births[d].parent == a || CreatedFrom(births, births[d].parent, a))
  }

  /** Every node after `i` up to and including `j` is a child of `i`. */
  predicate InRun(nodes: seq<Node>, i: nat, j: nat)
    requires i < |nodes| && j < |nodes|
  {
    i < j && forall k :: i < k <= j ==> IsParentOf(nodes[i].cap, nodes[k].cap)
  }

  predicate Linked(t: Tree, id: nat) {
    exists i :: 0 <= i < |t.nodes| && t.nodes[i].id == id
  }

  predicate WellFormed(t: Tree) {
    && |t.nodes| > 0 && |t.births| > 0 && BirthsOk(t.births)
    && t.nodes[0].id == 0 && t.births[0].cap.IsOriginal()
    && (forall i :: 0 <= i < |t.nodes| ==> t.nodes[i].id < |t.births|)
    && (forall i :: 0 <= i < |t.nodes| ==> t.nodes[i].cap.AsZombie() == t.births[t.nodes[i].id].cap.AsZombie())
    && (forall i, j :: 0 <= i < j < |t.nodes| ==> t.nodes[i].id != t.nodes[j].id)
    && Rooted(t.nodes)
  }

  /** The part of well-formedness that the list traversal relies on. */
  predicate Rooted(nodes: seq<Node>) {
    && |nodes| > 0
    && (forall i :: 0 <= i < |nodes| ==> nodes[i].cap.ptr != 0)
    && (forall i :: 0 < i < |nodes| ==> !IsParentOf(nodes[i].cap, nodes[0].cap))
    && (forall i :: 0 < i < |nodes| ==> IsParentOf(nodes[0].cap, nodes[i].cap))
  }

  /** Revocation completeness: whatever was made from a linked capability that is not a
      reference lies in the contiguous run of its children. */
  predicate Complete(t: Tree)
    requires WellFormed(t)
  {
    forall i, j :: 0 <= i < |t.nodes| && 0 <= j < |t.nodes| && !t.nodes[i].cap.ref
                   && CreatedFrom(t.births, t.nodes[j].id, t.nodes[i].id)
      ==> InRun(t.nodes, i, j)
  }

  /** No orphans: everything that a linked capability was made from, except references,
      is linked as well. */
  predicate NoOrphans(t: Tree)
    requires WellFormed(t)
  {
    forall j, a :: 0 <= j < |t.nodes| && 0 <= a < |t.births| && !t.births[a].cap.ref
                   && CreatedFrom(t.births, t.nodes[j].id, a)
      ==> Linked(t, a)
  }

  predicate Inv(t: Tree) {
    WellFormed(t) && Complete(t) && NoOrphans(t)
  }

  lemma {:induction false} CreatedFromIsOlder(births: seq<Birth>, d: nat, a: nat)
    requires d < |births| && BirthsOk(births) && CreatedFrom(births, d, a)
    ensures a < d
  {
    if births[d].parent != a {
      CreatedFromIsOlder(births, births[d].parent, a);
    }
  }

  /** Later births do not change the ancestry of earlier ones. */
  lemma {:induction false} CreatedFromExtend(births: seq<Birth>, b: Birth, d: nat, a: nat)
    requires d < |births| && BirthsOk(births) && b.parent < |births|
    ensures BirthsOk(births + [b])
    ensures CreatedFrom(births + [b], d, a) == CreatedFrom(births, d, a)
  {
    if d > 0 {
      CreatedFromExtend(births, b, births[d].parent, a);
    }
  }

  /** The ancestors of a new capability are the one it is made from and that one's. */
  lemma CreatedFromNew(births: seq<Birth>, b: Birth, a: nat)
    requires |births| > 0 && BirthsOk(births) && b.parent < |births|
    ensures BirthsOk(births + [b])
    ensures CreatedFrom(births + [b], |births|, a) <==> b.parent == a || CreatedFrom(births, b.parent, a)
  {
    CreatedFromExtend(births, b, b.parent, a);
  }

  // ---------------------------------------------------------------- insertion

  /** Where a node of the extended list was before. */
  function Before(at: nat, i: nat): nat
    requires i != at + 1
  {
    if i <= at then i else i - 1
  }

  lemma InsertRooted(t: Tree, at: nat, cap: Cap)
    requires WellFormed(t) && Enabled(t, Insert(at, cap))
    ensures Rooted(Apply(t, Insert(at, cap)).nodes)
  {
    if at > 0 { ChildOfChild(t.nodes[0].cap, t.nodes[at].cap, cap); }
  }

  lemma InsertedNodes(t: Tree, at: nat, cap: Cap, i: nat)
    requires Enabled(t, Insert(at, cap)) && i < |t.nodes| + 1
    ensures Apply(t, Insert(at, cap)).nodes[i] ==
      if i == at + 1 then Node(|t.births|, cap) else t.nodes[Before(at, i)]
  {
  }

  lemma InsertWellFormed(t: Tree, at: nat, cap: Cap)
    requires WellFormed(t) && Enabled(t, Insert(at, cap))
    ensures WellFormed(Apply(t, Insert(at, cap)))
  {
    var t' := Apply(t, Insert(at, cap));
    InsertRooted(t, at, cap);
    forall i | 0 <= i < |t'.nodes|
      ensures t'.nodes[i].id < |t'.births| && t'.nodes[i].cap.AsZombie() == t'.births[t'.nodes[i].id].cap.AsZombie()
      ensures t'.nodes[i] == if i == at + 1 then Node(|t.births|, cap) else t.nodes[Before(at, i)]
    {
      InsertedNodes(t, at, cap, i);
    }
  }

  /** A run that reached `j` before the insertion reaches it afterwards. */
  lemma InsertKeepsRun(t: Tree, at: nat, cap: Cap, i: nat, j: nat)
    requires WellFormed(t) && Enabled(t, Insert(at, cap))
    requires i < |t.nodes| + 1 && j < |t.nodes| + 1 && i != at + 1 && j != at + 1
    requires !t.nodes[Before(at, i)].cap.ref && InRun(t.nodes, Before(at, i), Before(at, j))
    ensures InRun(Apply(t, Insert(at, cap)).nodes, i, j)
  {
    var t' := Apply(t, Insert(at, cap));
    var a := t.nodes[Before(at, i)].cap;
    InsertedNodes(t, at, cap, i);
    if i <= at < j && Before(at, i) != at { ChildOfChild(a, t.nodes[at].cap, cap); }
    forall k | i < k <= j
      ensures IsParentOf(t'.nodes[i].cap, t'.nodes[k].cap)
    {
      InsertedNodes(t, at, cap, k);
    }
  }

  /** The new node joins the run of each ancestor of the node it was made from. */
  lemma InsertJoinsRun(t: Tree, at: nat, cap: Cap, i: nat)
    requires Inv(t) && Enabled(t, Insert(at, cap))
    requires i < |t.nodes| + 1 && i != at + 1 && !t.nodes[Before(at, i)].cap.ref
    requires
      var a := t.nodes[Before(at, i)].id;
      t.nodes[at].id == a || CreatedFrom(t.births, t.nodes[at].id, a)
    ensures InRun(Apply(t, Insert(at, cap)).nodes, i, at + 1)
  {
    var t', p := Apply(t, Insert(at, cap)), Before(at, i);
    assert p == at || InRun(t.nodes, p, at);
    assert t'.nodes[at + 1].cap == cap;
    if p != at { ChildOfChild(t.nodes[p].cap, t.nodes[at].cap, cap); }
    forall k | i < k <= at + 1
      ensures IsParentOf(t'.nodes[i].cap, t'.nodes[k].cap)
    {
      assert k <= at ==> t'.nodes[k] == t.nodes[k];
    }
  }

  lemma InsertComplete(t: Tree, at: nat, cap: Cap)
    requires Inv(t) && Enabled(t, Insert(at, cap))
    ensures WellFormed(Apply(t, Insert(at, cap))) && Complete(Apply(t, Insert(at, cap)))
  {
    InsertWellFormed(t, at, cap);
    var t' := Apply(t, Insert(at, cap));
    var b := Birth(t.nodes[at].id, cap);
    forall i, j | 0 <= i < |t'.nodes| && 0 <= j < |t'.nodes| && !t'.nodes[i].cap.ref
                  && CreatedFrom(t'.births, t'.nodes[j].id, t'.nodes[i].id)
      ensures InRun(t'.nodes, i, j)
    {
      CreatedFromIsOlder(t'.births, t'.nodes[j].id, t'.nodes[i].id);
      assert i != at + 1;
      assert t'.nodes[i] == t.nodes[Before(at, i)];
      if j == at + 1 {
        CreatedFromNew(t.births, b, t'.nodes[i].id);
        InsertJoinsRun(t, at, cap, i);
      } else {
        assert t'.nodes[j] == t.nodes[Before(at, j)];
        CreatedFromExtend(t.births, b, t'.nodes[j].id, t'.nodes[i].id);
        InsertKeepsRun(t, at, cap, i, j);
      }
    }
  }

  lemma InsertStaysLinked(t: Tree, at: nat, cap: Cap, id: nat)
    requires Enabled(t, Insert(at, cap)) && Linked(t, id)
    ensures Linked(Apply(t, Insert(at, cap)), id)
  {
    var i :| 0 <= i < |t.nodes| && t.nodes[i].id == id;
    var nodes := Apply(t, Insert(at, cap)).nodes;
    assert nodes[if i <= at then i else i + 1] == t.nodes[i];
  }

  lemma InsertNoOrphans(t: Tree, at: nat, cap: Cap)
    requires Inv(t) && Enabled(t, Insert(at, cap))
    ensures WellFormed(Apply(t, Insert(at, cap))) && NoOrphans(Apply(t, Insert(at, cap)))
  {
    InsertWellFormed(t, at, cap);
    var t' := Apply(t, Insert(at, cap));
    var b := Birth(t.nodes[at].id, cap);
    forall j, a | 0 <= j < |t'.nodes| && 0 <= a < |t'.births| && !t'.births[a].cap.ref
                  && CreatedFrom(t'.births, t'.nodes[j].id, a)
      ensures Linked(t', a)
    {
      CreatedFromIsOlder(t'.births, t'.nodes[j].id, a);
      if j == at + 1 {
        CreatedFromNew(t.births, b, a);
        if b.parent == a { assert Linked(t, a); }
      } else {
        assert t'.nodes[j] == t.nodes[Before(at, j)];
        CreatedFromExtend(t.births, b, t'.nodes[j].id, a);
      }
      InsertStaysLinked(t, at, cap, a);
    }
  }

  /** A new node stands directly behind the one it is made from, and its ancestors are that one
      and that one's. Nothing else moves. */
  lemma InsertRecordsOrigin(t: Tree, at: nat, cap: Cap, a: nat)
    requires WellFormed(t) && Enabled(t, Insert(at, cap))
    ensures
      var t', d := Apply(t, Insert(at, cap)), |t.births|;
      && t'.nodes[..at + 1] == t.nodes[..at + 1] && t'.nodes[at + 1] == Node(d, cap) && t'.nodes[at + 2..] == t.nodes[at + 1..]
      && |t'.births| == d + 1 && BirthsOk(t'.births) && t'.births[d].cap == cap
      && (CreatedFrom(t'.births, d, a) <==> a == t.nodes[at].id || CreatedFrom(t.births, t.nodes[at].id, a))
  {
    CreatedFromNew(t.births, Birth(t.nodes[at].id, cap), a);
  }

  // ------------------------------------------------------------------ removal

  /** Nothing linked was made from a leaf. */
  lemma LeafHasNoDescendants(t: Tree, at: nat, j: nat)
    requires Inv(t) && at < |t.nodes| && j < |t.nodes| && 0 < at
    requires IsLeaf(t.nodes, at) && !t.nodes[at].cap.ref
    ensures !CreatedFrom(t.births, t.nodes[j].id, t.nodes[at].id)
  {
  }

  lemma RemoveWellFormed(t: Tree, at: nat)
    requires WellFormed(t) && 0 < at < |t.nodes|
    ensures WellFormed(t.(nodes := RemoveAt(t.nodes, at)))
    ensures forall i {:trigger RemoveAt(t.nodes, at)[i]} :: 0 <= i < |t.nodes| - 1 ==>
              RemoveAt(t.nodes, at)[i] == t.nodes[if i < at then i else i + 1]
  {
  }

  lemma RemoveComplete(t: Tree, at: nat)
    requires Inv(t) && 0 < at < |t.nodes|
    ensures WellFormed(t.(nodes := RemoveAt(t.nodes, at))) && Complete(t.(nodes := RemoveAt(t.nodes, at)))
  {
    RemoveWellFormed(t, at);
    var t' := t.(nodes := RemoveAt(t.nodes, at));
    forall i, j | 0 <= i < |t'.nodes| && 0 <= j < |t'.nodes| && !t'.nodes[i].cap.ref
                  && CreatedFrom(t'.births, t'.nodes[j].id, t'.nodes[i].id)
      ensures InRun(t'.nodes, i, j)
    {
      var oldI := if i < at then i else i + 1;
      var oldJ := if j < at then j else j + 1;
      assert InRun(t.nodes, oldI, oldJ);
      forall k | i < k <= j
        ensures IsParentOf(t'.nodes[i].cap, t'.nodes[k].cap)
      {
        var oldK := if k < at then k else k + 1;
        assert oldI < oldK <= oldJ;
      }
    }
  }

  /** What linked capabilities were made from is neither a leaf nor a reference. */
  lemma AncestorIsNotRemoved(t: Tree, at: nat, j: nat)
    requires Inv(t) && 0 < at < |t.nodes| && j < |t.nodes| && CreatedFrom(t.births, t.nodes[j].id, t.nodes[at].id)
    requires t.nodes[at].cap.ref || IsLeaf(t.nodes, at)
    ensures t.births[t.nodes[at].id].cap.ref
  {
    assert t.nodes[at].cap.AsZombie() == t.births[t.nodes[at].id].cap.AsZombie();
    if !t.nodes[at].cap.ref { LeafHasNoDescendants(t, at, j); }
  }

  lemma RemoveKeepsLinked(t: Tree, at: nat, j: nat, a: nat)
    requires Inv(t) && 0 < at < |t.nodes| && j < |t.nodes| && a < |t.births| && !t.births[a].cap.ref
    requires t.nodes[at].cap.ref || IsLeaf(t.nodes, at)
    requires CreatedFrom(t.births, t.nodes[j].id, a)
    ensures Linked(t.(nodes := RemoveAt(t.nodes, at)), a)
  {
    assert Linked(t, a);
    var i :| 0 <= i < |t.nodes| && t.nodes[i].id == a;
    if i == at { AncestorIsNotRemoved(t, at, j); }
    var t' := t.(nodes := RemoveAt(t.nodes, at));
    assert i < at ==> t'.nodes[i] == t.nodes[i];
    assert i > at ==> t'.nodes[i - 1] == t.nodes[i];
  }

  lemma RemoveNoOrphans(t: Tree, at: nat)
    requires Inv(t) && 0 < at < |t.nodes|
    requires t.nodes[at].cap.ref || IsLeaf(t.nodes, at)
    ensures WellFormed(t.(nodes := RemoveAt(t.nodes, at))) && NoOrphans(t.(nodes := RemoveAt(t.nodes, at)))
  {
    RemoveWellFormed(t, at);
    var t' := t.(nodes := RemoveAt(t.nodes, at));
    forall j, a | 0 <= j < |t'.nodes| && 0 <= a < |t'.births| && !t'.births[a].cap.ref
                  && CreatedFrom(t'.births, t'.nodes[j].id, a)
      ensures Linked(t', a)
    {
      RemoveKeepsLinked(t, at, if j < at then j else j + 1, a);
    }
  }

  lemma RemoveKeepsInv(t: Tree, at: nat)
    requires Inv(t) && 0 < at < |t.nodes|
    requires t.nodes[at].cap.ref || IsLeaf(t.nodes, at)
    ensures Inv(t.(nodes := RemoveAt(t.nodes, at)))
  {
    RemoveComplete(t, at);
    RemoveNoOrphans(t, at);
  }

  /** `after` differs from `before` only in zombie marks, and only at `lo < i <= hi`. */
  predicate OnlyMarked(before: seq<Node>, after: seq<Node>, lo: int, hi: int) {
    && |after| == |before|
    && (forall i :: 0 <= i < |before| ==> after[i].id == before[i].id)
    && (forall i :: 0 <= i < |before| ==> after[i].cap.AsZombie() == before[i].cap.AsZombie())
    && (forall i :: 0 <= i < |before| && !(lo < i <= hi) ==> after[i] == before[i])
  }

  /** Marking capabilities as zombies does not move anything in the tree. */
  lemma MarkKeepsInv(t: Tree, nodes: seq<Node>, lo: int, hi: int)
    requires Inv(t) && OnlyMarked(t.nodes, nodes, lo, hi)
    ensures Inv(t.(nodes := nodes))
  {
    var t' := t.(nodes := nodes);
    assert WellFormed(t');
    forall a | Linked(t, a)
      ensures Linked(t', a)
    {
      var i :| 0 <= i < |t.nodes| && t.nodes[i].id == a;
      assert t'.nodes[i].id == a;
    }
    forall i, j | 0 <= i < |nodes| && 0 <= j < |nodes| && InRun(t.nodes, i, j)
      ensures InRun(nodes, i, j)
    {
    }
  }

  /** Each step keeps the tree well formed, complete and free of orphans. */
  lemma StepKeepsInv(t: Tree, s: Step)
    requires Inv(t) && Enabled(t, s)
    ensures Inv(Apply(t, s))
  {
    match s
    case Insert(at, cap) =>
      InsertComplete(t, at, cap);
      InsertNoOrphans(t, at, cap);
    case Kill(at) => MarkKeepsInv(t, Apply(t, s).nodes, at - 1, at);
    case RemoveLeaf(at) => RemoveKeepsInv(t, at);
    case RemoveReference(at) => RemoveKeepsInv(t, at);
  }

  /** Every history from a tree that satisfies the invariant ends in one that does, for any
      interleaving of the operations. */
  lemma {:induction false} HistoryKeepsInv(t: Tree, steps: seq<Step>, t': Tree)
    requires Inv(t) && Follows(t, steps, t')
    ensures Inv(t')
    decreases |steps|
  {
    if steps != [] {
      StepKeepsInv(t, steps[0]);
      HistoryKeepsInv(Apply(t, steps[0]), steps[1..], t');
    }
  }

  /** No operation changes what a capability was made from. */
  lemma {:induction false} HistoryKeepsAncestry(t: Tree, steps: seq<Step>, t': Tree, d: nat, a: nat)
    requires Inv(t) && Follows(t, steps, t') && d < |t.births|
    ensures t.births <= t'.births && BirthsOk(t'.births)
    ensures CreatedFrom(t'.births, d, a) == CreatedFrom(t.births, d, a)
    decreases |steps|
  {
    if steps != [] {
      StepKeepsInv(t, steps[0]);
      if steps[0].Insert? { CreatedFromExtend(t.births, Birth(t.nodes[steps[0].at].id, steps[0].cap), d, a); }
      HistoryKeepsAncestry(Apply(t, steps[0]), steps[1..], t', d, a);
    }
  }

  /** In every tree that can be reached from a fresh root, revocation is complete and there
      are no orphans. */
  lemma ReachableInv(t: Tree, steps: seq<Step>, t': Tree)
    requires IsInit(t) && Follows(t, steps, t')
    ensures Inv(t')
  {
    HistoryKeepsInv(t, steps, t');
  }

  // ----------------------------------------------------------------- deletion

  /** Index one past the last child of `i`: the end of the run of children after `i`. */
  function RunEnd(nodes: seq<Node>, i: nat): (e: nat)
    requires i < |nodes|
    ensures i < e <= |nodes|
    ensures forall k :: i < k < e ==> IsParentOf(nodes[i].cap, nodes[k].cap)
    ensures e < |nodes| ==> !IsParentOf(nodes[i].cap, nodes[e].cap)
  {
    RunEndFrom(nodes, i, i + 1)
  }

  function RunEndFrom(nodes: seq<Node>, i: nat, from: nat): (e: nat)
    requires i < from <= |nodes|
    requires forall k :: i < k < from ==> IsParentOf(nodes[i].cap, nodes[k].cap)
    ensures from <= e <= |nodes|
    ensures forall k :: i < k < e ==> IsParentOf(nodes[i].cap, nodes[k].cap)
    ensures e < |nodes| ==> !IsParentOf(nodes[i].cap, nodes[e].cap)
    decreases |nodes| - from
  {
    if from < |nodes| && IsParentOf(nodes[i].cap, nodes[from].cap)
    then RunEndFrom(nodes, i, from + 1)
    else from
  }

  /** The list without the children of `i`. */
  function WithoutChildren(nodes: seq<Node>, i: nat): seq<Node>
    requires i < |nodes|
  {
    nodes[..i + 1] + nodes[RunEnd(nodes, i)..]
  }

  /** The end of the run is where it is described to be. */
  lemma RunEndIsUnique(nodes: seq<Node>, i: nat, e: nat)
    requires i < e <= |nodes|
    requires forall k :: i < k < e ==> IsParentOf(nodes[i].cap, nodes[k].cap)
    requires e < |nodes| ==> !IsParentOf(nodes[i].cap, nodes[e].cap)
    ensures RunEnd(nodes, i) == e
  {
  }

  lemma RemoveShortensRun(nodes: seq<Node>, i: nat, k: nat)
    requires i < |nodes| && i < k < RunEnd(nodes, i)
    ensures RunEnd(RemoveAt(nodes, k), i) == RunEnd(nodes, i) - 1
  {
    var e := RunEnd(nodes, i);
    var rest := RemoveAt(nodes, k);
    forall j | i < j < e - 1
      ensures IsParentOf(rest[i].cap, rest[j].cap)
    {
      assert rest[j] == nodes[if j < k then j else j + 1];
    }
    RunEndIsUnique(rest, i, e - 1);
  }

  /** Unlinking any node of the run leaves the rest of the list as it is and shortens the
      run by one. */
  lemma RemoveFromRun(nodes: seq<Node>, i: nat, k: nat)
    requires i < |nodes| && i < k < RunEnd(nodes, i)
    ensures RunEnd(RemoveAt(nodes, k), i) == RunEnd(nodes, i) - 1
    ensures WithoutChildren(RemoveAt(nodes, k), i) == WithoutChildren(nodes, i)
  {
    var e, rest := RunEnd(nodes, i), RemoveAt(nodes, k);
    RemoveShortensRun(nodes, i, k);
    assert rest[..i + 1] == nodes[..i + 1];
    assert rest[e - 1..] == nodes[e..];
  }

  /** Marking nodes of the run, or its root, does not change what lies outside. */
  lemma MarkInRun(before: seq<Node>, after: seq<Node>, i: nat, hi: nat)
    requires i < |before| && OnlyMarked(before, after, i, hi) && hi < RunEnd(before, i)
    ensures RunEnd(after, i) == RunEnd(before, i)
    ensures WithoutChildren(after, i) == WithoutChildren(before, i)
  {
  }

  /** Once the run of children after `i` is gone, nothing that was made from `i` is linked. */
  lemma RevokeRemovesDescendants(t: Tree, i: nat, j: nat)
    requires Inv(t) && i < |t.nodes| && !t.nodes[i].cap.ref
    requires j < |WithoutChildren(t.nodes, i)|
    ensures !CreatedFrom(t.births, WithoutChildren(t.nodes, i)[j].id, t.nodes[i].id)
  {
  }
}
