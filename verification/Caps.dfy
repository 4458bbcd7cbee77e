/** Capability values and the parent relation between them.

    A capability is modelled by the fields of its packed 64-bit word plus the address
    range that the object behind it reports for it. */
module Caps {

  /** The half-open interval [start, end). */
  datatype Range = Range(start: int, end: int) {
    predicate Contains(other: Range) {
      start <= other.start && other.end <= end
    }
  }

  /** `ptr == 0` stands for the null object pointer. */
  datatype Cap = Cap(ptr: nat, trans: bool, ref: bool, der: bool, data: bv32, range: Range) {
    predicate IsOriginal() { !der && !ref }
    predicate IsDerivedReference() { der && ref }
    predicate IsAllocated() { ptr == 0 && trans }
    predicate IsZombie() { ptr != 0 && trans }
    predicate IsUsable() { ptr != 0 && !trans }

    function AsZombie(): Cap { this.(trans := true) }
    function AsDerived(): Cap { this.(der := true) }
    function AsReference(): Cap { this.(ref := true) }
    function StripReference(): Cap { this.(ref := false) }
  }

  const EMPTY := Cap(0, false, false, false, 0, Range(0, 0))
  const ALLOCATED := Cap(0, true, false, false, 0, Range(0, 0))

  /** Reconstructs the resource tree from the list: is `other` a child of `parent`? */
  predicate IsParentOf(parent: Cap, other: Cap) {
    if !parent.range.Contains(other.range) then false
    else if !other.range.Contains(parent.range) then !parent.ref
    else if parent.ref then false
    else if parent.der then other.IsDerivedReference()
    else true
  }

  /** Everything inside the range of an original is its child, also with the same range. */
  lemma OriginalOwnsRange(parent: Cap, other: Cap)
    requires parent.IsOriginal()
    ensures IsParentOf(parent, other) <==>
      parent.range.start <= other.range.start && other.range.end <= parent.range.end
  {
  }

  /** A reference has no children. A derived capability has those in a smaller range and, of
      the same range, the derived references. */
  lemma OthersOwn(parent: Cap, other: Cap)
    requires !parent.IsOriginal()
    ensures parent.ref ==> !IsParentOf(parent, other)
    ensures !parent.ref ==>
      (IsParentOf(parent, other) <==>
         && parent.range.start <= other.range.start && other.range.end <= parent.range.end
         && (other.range == parent.range ==> other.der && other.ref))
  {
  }

  /** The tree assertions that `inherit` checks under the lock. */
  predicate IsAsserted(parent: Cap, child: Cap) {
    && (!parent.ref ==> IsParentOf(parent, child))
    && (parent.ref ==> !IsParentOf(parent, child) && !IsParentOf(child, parent))
  }

  /** What may be linked directly behind `parent`: it passes the assertions, and minting has
      kept its range inside the parent's range and, for the same range, its derived flag. */
  predicate LegalChild(parent: Cap, child: Cap) {
    && parent.range.Contains(child.range)
    && IsAsserted(parent, child)
    && (parent.IsDerivedReference() && child.range == parent.range ==> child.der)
  }

  /** A minted capability keeps its flags and its object may only shrink the range. */
  predicate IsMintOf(self: Cap, minted: Cap) {
    && minted.IsUsable() && minted.ref == self.ref && minted.der == self.der
    && self.range.Contains(minted.range)
  }

  /** The parent relation is transitive, which is what makes the list a preorder of a tree. */
  lemma ParentTransitive(a: Cap, b: Cap, c: Cap)
    requires IsParentOf(a, b) && IsParentOf(b, c)
    ensures IsParentOf(a, c)
  {
  }

  /** What passes the assertions behind a child of `a` is a child of `a`, also when the child is
      a reference and so is not a parent itself. There is one exception: behind a reference
      of a derived capability, a capability of the same range that is not derived. */
  lemma ChildOfChild(a: Cap, p: Cap, x: Cap)
    requires IsParentOf(a, p) && p.range.Contains(x.range) && IsAsserted(p, x)
    ensures IsParentOf(a, x) <==> (a.der && a.range == x.range ==> x.der)
  {
  }

  /** The capability that `derive` links: the minted object, rights and range, as derived
      capability and not as reference. */
  function DerivedFrom(minted: Cap): (c: Cap)
    ensures c.ptr == minted.ptr && c.data == minted.data && c.range == minted.range && c.trans == minted.trans
    ensures c.der && !c.ref
  {
    minted.StripReference().AsDerived()
  }

  /** The capability that `reference` links: the same as reference, derived if the minted one
      is. */
  function ReferenceTo(minted: Cap): (c: Cap)
    ensures c.ptr == minted.ptr && c.data == minted.data && c.range == minted.range && c.trans == minted.trans
    ensures c.ref && c.der == minted.der
  {
    minted.AsReference()
  }

  /** Deriving from a capability that is not itself derived passes the tree assertions. */
  lemma DeriveIsLegal(parent: Cap, minted: Cap)
    requires !parent.der && IsMintOf(parent, minted)
    ensures LegalChild(parent, DerivedFrom(minted))
  {
  }

  /** Referencing any capability passes the tree assertions. */
  lemma ReferenceIsLegal(parent: Cap, minted: Cap)
    requires IsMintOf(parent, minted)
    ensures LegalChild(parent, ReferenceTo(minted))
  {
  }

  /** The guard of `derive` is needed: deriving from a derived capability of the same range
      produces a capability that is not a child of the one it was made from. */
  lemma DeriveFromDerivedIsIllegal(parent: Cap, minted: Cap)
    requires parent.der && IsMintOf(parent, minted)
    ensures LegalChild(parent, DerivedFrom(minted)) <==> minted.range != parent.range
  {
  }
}
