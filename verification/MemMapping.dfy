/** The boot-time mapper that maps a range of a frame and creates missing page tables. */
module MemMapping {
  import opened Arithmetic
  import opened Options
  import opened PageTables

  const LARGE := 0x20_0000     // 2 MiB, the span of a lowest table

  // --------------------------------------------------- the view of the mapping

  /** What the page tables mean: where an address is mapped to, and of each region of 2 MiB
      whether the index has its lowest table and whether a large page maps it. */
  datatype View = View(walk: imap<nat, Option<Target>>, pml1: iset<nat>, big: iset<nat>) {
    ghost function Walk(x: nat): Option<Target> { if x in walk then walk[x] else None }
    ghost predicate Pml1(r: nat) { r in pml1 }
    ghost predicate Big(r: nat) { r in big }
  }

  /** Nothing is mapped where there is neither a lowest table nor a large page. */
  ghost predicate Sane(v: View) {
    forall x: nat :: InSpace(x) && !v.Pml1(Num(1, x)) && !v.Big(Num(1, x)) ==> v.Walk(x) == None
  }

  /** The lowest table of the region is in the index, but a large page has taken its place. */
  ghost predicate Stale(v: View, r: nat) { v.Pml1(r) && v.Big(r) }

  /** No large page has taken the place of a lowest table. */
  ghost predicate Clean(v: View) {
    forall r: nat :: !Stale(v, r)
  }

  ghost predicate IsView(s: Space, v: View)
    requires Shape(s)
  {
    && (forall x: nat {:trigger s.Walk(x)} :: v.Walk(x) == s.Walk(x))
    && (forall r: nat {:trigger Pml1(s, r)} :: v.Pml1(r) == Pml1(s, r))
    && (forall r: nat {:trigger Big(s, r)} :: v.Big(r) == Big(s, r))
  }

  lemma HasView(s: Space)
    requires Shape(s)
    ensures exists v :: IsView(s, v)
  {
    assert IsView(s, View(imap x: nat | true :: s.Walk(x), iset r: nat | Pml1(s, r), iset r: nat | Big(s, r)));
  }

  ghost function ViewOf(s: Space): View
    requires Shape(s)
  {
    HasView(s);
    var v :| IsView(s, v);
    v
  }

  lemma ViewIsSane(s: Space)
    requires Indexed(s)
    ensures Sane(ViewOf(s)) && (Sound(s) <==> Clean(ViewOf(s)))
  {
    SoundIffNoneReplaced(s);
    forall r: nat
      ensures Stale(ViewOf(s), r) <==> Pml1(s, r) && Big(s, r)
    {
      assert ViewOf(s).Pml1(r) == Pml1(s, r) && ViewOf(s).Big(r) == Big(s, r);
    }
    forall x: nat | InSpace(x) && !Pml1(s, Num(1, x)) && !Big(s, Num(1, x))
      ensures s.Walk(x) == None
    {
      RootCoversAll(s, x);
      Unmapped(s, 0, x);
    }
    forall x: nat
      ensures ViewOf(s).Walk(x) == s.Walk(x)
    {
    }
  }

  // ---------------------------------------------------- what a call is to do

  /** The bytes from `vaddr` go to the bytes from `start`. */
  datatype Call = Call(vaddr: nat, start: nat, writable: bool)

  /** The first `d` bytes of the call reach into region `r` of 2 MiB. */
  predicate Touched(c: Call, d: nat, r: nat) {
    d > 0 && Num(1, c.vaddr) <= r <= Num(1, c.vaddr + d - 1)
  }

  /** They contain all of the region. */
  predicate Full(c: Call, d: nat, r: nat) {
    c.vaddr <= r * LARGE && r * LARGE + LARGE <= c.vaddr + d
  }

  predicate Congruent(c: Call) { c.vaddr % LARGE == c.start % LARGE }

  /** The lowest table of region `g` is replaced by a large page: the region comes after one
      without a lowest table, and both can be mapped by large pages of the same table. */
  ghost predicate Overwritten(v0: View, c: Call, d: nat, g: nat) {
    && Congruent(c) && v0.Pml1(g) && Full(c, d, g)
    && exists h: nat :: h < g && h / TABLE_SIZE == g / TABLE_SIZE && Full(c, d, h) && !v0.Pml1(h)
  }

  /** The mapper enters pages for this region in a table that the hardware does not see. */
  ghost predicate InVain(v0: View, c: Call, d: nat, r: nat) {
    Touched(c, d, r) && Stale(v0, r) && !Overwritten(v0, c, d, r)
  }

  /** The mapping after the first `d` bytes: large pages that the range only meets are lost. */
  ghost function Expected(v0: View, c: Call, d: nat, x: nat): Option<Target> {
    if InVain(v0, c, d, Num(1, x)) then v0.Walk(x)
    else if c.vaddr <= x < c.vaddr + d then Some(Target(c.start + (x - c.vaddr), c.writable))
    else if Touched(c, d, Num(1, x)) && v0.Big(Num(1, x)) then None
    else v0.Walk(x)
  }

  // ----------------------------------------------------------- loop invariant

  ghost predicate WalkDone(v0: View, v: View, c: Call, d: nat) {
    forall x: nat {:trigger v.Walk(x)} :: InSpace(x) ==> v.Walk(x) == Expected(v0, c, d, x)
  }

  ghost predicate RegionsDone(v0: View, v: View, c: Call, d: nat) {
    forall r: nat ::
      if Touched(c, d, r) then (Stale(v, r) <==> Stale(v0, r) || Overwritten(v0, c, d, r))
      else (v.Pml1(r) <==> v0.Pml1(r)) && (v.Big(r) <==> v0.Big(r))
  }

  /** In what is left of a table, the mapper uses lowest tables only as long as there are some. */
  ghost predicate OrderDone(v0: View, c: Call, d: nat, length: nat) {
    Congruent(c) && length >= d + LARGE ==>
      forall h: nat :: Full(c, d, h) && h / TABLE_SIZE == Num(2, c.vaddr + d) ==> v0.Pml1(h)
  }

  ghost predicate Done(v0: View, v: View, c: Call, d: nat, length: nat) {
    && d <= length
    && (d == 0 || (c.vaddr + d) % LARGE == 0 || d == length)
    && WalkDone(v0, v, c, d) && RegionsDone(v0, v, c, d) && OrderDone(v0, c, d, length)
  }

  lemma RegionOf(x: nat)
    ensures Num(1, x) == x / LARGE && Num(1, x) * LARGE <= x < Num(1, x) * LARGE + LARGE
  {
  }

  lemma Begin(v0: View, c: Call, length: nat)
    ensures Done(v0, v0, c, 0, length)
  {
  }

  /** When everything is mapped, the index is right exactly if it was and no table was replaced. */
  lemma End(v0: View, v: View, c: Call, d: nat, length: nat)
    requires Done(v0, v, c, d, length)
    ensures forall g: nat :: Stale(v, g) <==> Stale(v0, g) || Overwritten(v0, c, d, g)
    ensures Clean(v) <==> Clean(v0) && forall g: nat :: !Overwritten(v0, c, d, g)
  {
    forall g: nat
      ensures Stale(v, g) <==> Stale(v0, g) || Overwritten(v0, c, d, g)
    {
      if Full(c, d, g) {
        RegionOf(c.vaddr);
        RegionOf(c.vaddr + d - 1);
        assert Touched(c, d, g);
      }
    }
  }

  // ------------------------------------------------------------ steps of a call

  /** The tables for an address are there and nothing else has changed. */
  ghost predicate Unchanged(v: View, v': View) {
    && (forall x: nat {:trigger v'.Walk(x)} :: InSpace(x) ==> v'.Walk(x) == v.Walk(x))
    && (forall r: nat {:trigger v'.Pml1(r)} {:trigger v'.Big(r)} ::
          (v'.Pml1(r) <==> v.Pml1(r)) && (v'.Big(r) <==> v.Big(r)))
  }

  /** A lowest table was added for region `r`. */
  ghost predicate Split(v: View, v': View, r: nat) {
    && (forall x: nat {:trigger v'.Walk(x)} :: InSpace(x) ==> v'.Walk(x) == if Num(1, x) == r then None else v.Walk(x))
    && (forall q: nat {:trigger v'.Pml1(q)} {:trigger v'.Big(q)} ::
          (v'.Pml1(q) <==> v.Pml1(q) || q == r) && (v'.Big(q) <==> v.Big(q) && q != r))
  }

  ghost predicate MappedWalk(v: View, v': View, x: nat, bytes: nat, start: nat, writable: bool) {
    forall y: nat {:trigger v'.Walk(y)} :: InSpace(y) ==>
      v'.Walk(y) == if x <= y < x + bytes then Some(Target(start + (y - x), writable)) else v.Walk(y)
  }

  ghost predicate MappedRegions(v: View, v': View, x: nat, bytes: nat, level: nat) {
    forall r: nat {:trigger v'.Pml1(r)} {:trigger v'.Big(r)} :: (v'.Pml1(r) <==> v.Pml1(r))
      && (v'.Big(r) <==> v.Big(r) || (level == 1 && x <= r * LARGE && r * LARGE < x + bytes))
  }

  /** `bytes` bytes from `x` on were mapped, with pages of the given level. */
  ghost predicate Mapped(v: View, v': View, x: nat, bytes: nat, start: nat, writable: bool, level: nat) {
    MappedWalk(v, v', x, bytes, start, writable) && MappedRegions(v, v', x, bytes, level)
  }

  /** The region that comes next has not been touched. */
  lemma NextRegion(v0: View, v: View, c: Call, d: nat, length: nat, r: nat)
    requires Sane(v0) && Done(v0, v, c, d, length) && d < length && r == Num(1, c.vaddr + d)
    ensures forall q: nat :: Touched(c, d, q) ==> q < r
    ensures !Touched(c, d, r) && (v.Pml1(r) <==> v0.Pml1(r)) && (v.Big(r) <==> v0.Big(r))
  {
    RegionOf(c.vaddr + d);
    if d > 0 { RegionOf(c.vaddr + d - 1); }
  }

  ghost predicate SmallStep(v: View, v1: View, v2: View, c: Call, d: nat, d': nat, length: nat, r: nat) {
    && d < d' <= length
    && r == Num(1, c.vaddr + d) == Num(1, c.vaddr + d' - 1)
    && (d' == length || (c.vaddr + d') % LARGE == 0)
    && (if v.Pml1(r) then Unchanged(v, v1)
        else Split(v, v1, r) && !(Congruent(c) && (c.vaddr + d) % LARGE == 0 && length - d >= LARGE))
    && (if Stale(v1, r) then Unchanged(v1, v2) else Mapped(v1, v2, c.vaddr + d, d' - d, c.start + d, c.writable, 0))
  }

  lemma SmallTouched(v0: View, v: View, c: Call, d: nat, d': nat, length: nat, r: nat)
    requires Sane(v0) && Done(v0, v, c, d, length) && d < d' <= length
    requires r == Num(1, c.vaddr + d) == Num(1, c.vaddr + d' - 1)
    ensures forall q: nat :: Touched(c, d', q) <==> Touched(c, d, q) || q == r
    ensures forall q: nat :: q != r ==> (Full(c, d', q) <==> Full(c, d, q))
  {
    NextRegion(v0, v, c, d, length, r);
    RegionOf(c.vaddr);
    RegionOf(c.vaddr + d);
    RegionOf(c.vaddr + d' - 1);
    if d > 0 { RegionOf(c.vaddr + d - 1); }
  }

  lemma GigaOf(x: nat)
    ensures Num(2, x) == Num(1, x) / TABLE_SIZE
  {
  }

  lemma SmallOverwritten(v0: View, v: View, v1: View, v2: View, c: Call, d: nat, d': nat, length: nat, r: nat)
    requires Sane(v0) && Done(v0, v, c, d, length) && SmallStep(v, v1, v2, c, d, d', length, r)
    ensures forall q: nat :: Touched(c, d, q) ==> (Overwritten(v0, c, d', q) <==> Overwritten(v0, c, d, q))
    ensures !Overwritten(v0, c, d', r)
  {
    NextRegion(v0, v, c, d, length, r);
    SmallTouched(v0, v, c, d, d', length, r);
    if Full(c, d', r) {
      RegionOf(c.vaddr + d);
      GigaOf(c.vaddr + d);
    }
  }

  lemma SmallWalkHere(v0: View, v: View, v1: View, v2: View, c: Call, d: nat, d': nat, length: nat, r: nat, x: nat)
    requires Sane(v0) && Done(v0, v, c, d, length) && SmallStep(v, v1, v2, c, d, d', length, r)
    requires !Touched(c, d, r) && Touched(c, d', r) && !Overwritten(v0, c, d', r)
    requires v.Pml1(r) == v0.Pml1(r) && v.Big(r) == v0.Big(r) && InSpace(x) && Num(1, x) == r
    ensures v2.Walk(x) == Expected(v0, c, d', x)
  {
    if d > 0 {
      RegionOf(c.vaddr);
      RegionOf(c.vaddr + d - 1);
    }
    RegionOf(x);
    assert v.Walk(x) == Expected(v0, c, d, x) == v0.Walk(x);
  }

  lemma OutsideRegion(first: nat, end: nat, r: nat, x: nat)
    requires first < end && r == Num(1, first) == Num(1, end - 1) && Num(1, x) != r
    ensures x < first || end <= x
  {
    RegionOf(first);
    RegionOf(end - 1);
    RegionOf(x);
  }

  lemma SmallWalkElsewhere(v0: View, v: View, v1: View, v2: View, c: Call, d: nat, d': nat, length: nat, r: nat, x: nat)
    requires Sane(v0) && Done(v0, v, c, d, length) && SmallStep(v, v1, v2, c, d, d', length, r)
    requires Touched(c, d', Num(1, x)) <==> Touched(c, d, Num(1, x))
    requires Touched(c, d, Num(1, x)) ==> (Overwritten(v0, c, d', Num(1, x)) <==> Overwritten(v0, c, d, Num(1, x)))
    requires InSpace(x) && Num(1, x) != r
    ensures v2.Walk(x) == Expected(v0, c, d', x)
  {
    assert v.Walk(x) == Expected(v0, c, d, x);
    OutsideRegion(c.vaddr + d, c.vaddr + d', r, x);
    assert v2.Walk(x) == v1.Walk(x) == v.Walk(x);
    assert InVain(v0, c, d', Num(1, x)) <==> InVain(v0, c, d, Num(1, x));
  }

  lemma SmallWalk(v0: View, v: View, v1: View, v2: View, c: Call, d: nat, d': nat, length: nat, r: nat)
    requires Sane(v0) && Done(v0, v, c, d, length) && SmallStep(v, v1, v2, c, d, d', length, r)
    ensures WalkDone(v0, v2, c, d')
  {
    NextRegion(v0, v, c, d, length, r);
    SmallTouched(v0, v, c, d, d', length, r);
    SmallOverwritten(v0, v, v1, v2, c, d, d', length, r);
    forall x: nat | InSpace(x)
      ensures v2.Walk(x) == Expected(v0, c, d', x)
    {
      if Num(1, x) == r { SmallWalkHere(v0, v, v1, v2, c, d, d', length, r, x); }
      else { SmallWalkElsewhere(v0, v, v1, v2, c, d, d', length, r, x); }
    }
  }

  lemma SmallRegions(v0: View, v: View, v1: View, v2: View, c: Call, d: nat, d': nat, length: nat, r: nat)
    requires Sane(v0) && Done(v0, v, c, d, length) && SmallStep(v, v1, v2, c, d, d', length, r)
    ensures RegionsDone(v0, v2, c, d')
  {
    NextRegion(v0, v, c, d, length, r);
    SmallTouched(v0, v, c, d, d', length, r);
    SmallOverwritten(v0, v, v1, v2, c, d, d', length, r);
  }

  /** The address after a chunk that ends with its region is in the next region. */
  lemma RegionAfter(x: nat, r: nat)
    requires x > 0 && r == Num(1, x - 1) && x % LARGE == 0
    ensures Num(1, x) == r + 1 && Num(2, x) == (r + 1) / TABLE_SIZE
  {
    RegionOf(x);
    RegionOf(x - 1);
    GigaOf(x);
  }

  lemma SmallOrder(v0: View, v: View, v1: View, v2: View, c: Call, d: nat, d': nat, length: nat, r: nat)
    requires Sane(v0) && Done(v0, v, c, d, length) && SmallStep(v, v1, v2, c, d, d', length, r)
    ensures OrderDone(v0, c, d', length)
  {
    NextRegion(v0, v, c, d, length, r);
    SmallTouched(v0, v, c, d, d', length, r);
    if Congruent(c) && length >= d' + LARGE {
      RegionAfter(c.vaddr + d', r);
      RegionOf(c.vaddr + d);
      GigaOf(c.vaddr + d);
      forall h: nat | Full(c, d', h) && h / TABLE_SIZE == (r + 1) / TABLE_SIZE
        ensures v0.Pml1(h)
      {
        if h != r { assert h < r && h / TABLE_SIZE == r / TABLE_SIZE; }
      }
    }
  }

  lemma SmallDone(v0: View, v: View, v1: View, v2: View, c: Call, d: nat, d': nat, length: nat, r: nat)
    requires Sane(v0) && Done(v0, v, c, d, length) && SmallStep(v, v1, v2, c, d, d', length, r)
    ensures Done(v0, v2, c, d', length)
  {
    SmallWalk(v0, v, v1, v2, c, d, d', length, r);
    SmallRegions(v0, v, v1, v2, c, d, d', length, r);
    SmallOrder(v0, v, v1, v2, c, d, d', length, r);
  }

  /** Large pages for `n` regions from `r` on. */
  ghost predicate LargeStep(v: View, v1: View, v2: View, c: Call, d: nat, d': nat, n: nat, length: nat, r: nat) {
    && n > 0 && d' == d + n * LARGE <= length
    && r * LARGE == c.vaddr + d && Congruent(c) && !v.Pml1(r)
    && r % TABLE_SIZE + n <= TABLE_SIZE && (length - d' < LARGE || r % TABLE_SIZE + n == TABLE_SIZE)
    && Unchanged(v, v1) && Mapped(v1, v2, c.vaddr + d, d' - d, c.start + d, c.writable, 1)
  }

  lemma LargeTouched(c: Call, d: nat, d': nat, n: nat, r: nat)
    requires n > 0 && r * LARGE == c.vaddr + d && d' == d + n * LARGE
    ensures r == Num(1, c.vaddr + d)
    ensures forall q: nat :: Touched(c, d', q) <==> Touched(c, d, q) || r <= q < r + n
    ensures forall q: nat :: Touched(c, d, q) ==> q < r
    ensures forall q: nat :: q < r ==> (Full(c, d', q) <==> Full(c, d, q))
    ensures forall q: nat :: Full(c, d', q) ==> q < r + n
    ensures forall q: nat :: r <= q < r + n ==> Full(c, d', q)
  {
    RegionOf(c.vaddr);
    RegionOf(c.vaddr + d);
    RegionOf(c.vaddr + d' - 1);
    if d > 0 { RegionOf(c.vaddr + d - 1); }
  }

  lemma LargeWalk(v0: View, v: View, v1: View, v2: View, c: Call, d: nat, d': nat, n: nat, length: nat, r: nat)
    requires Sane(v0) && Done(v0, v, c, d, length) && LargeStep(v, v1, v2, c, d, d', n, length, r)
    ensures WalkDone(v0, v2, c, d')
  {
    LargeTouched(c, d, d', n, r);
    forall x: nat | InSpace(x)
      ensures v2.Walk(x) == Expected(v0, c, d', x)
    {
      assert v.Walk(x) == Expected(v0, c, d, x);
      RegionOf(x);
    }
  }

  lemma LargeOverwritten(v0: View, c: Call, d: nat, d': nat, n: nat, r: nat, q: nat)
    requires n > 0 && r * LARGE == c.vaddr + d && d' == d + n * LARGE && r % TABLE_SIZE + n <= TABLE_SIZE
    requires Congruent(c) && !v0.Pml1(r)
    ensures q < r ==> (Overwritten(v0, c, d', q) <==> Overwritten(v0, c, d, q))
    ensures r <= q < r + n ==> (Overwritten(v0, c, d', q) <==> v0.Pml1(q))
  {
  }

  lemma LargeRegions(v0: View, v: View, v1: View, v2: View, c: Call, d: nat, d': nat, n: nat, length: nat, r: nat)
    requires Sane(v0) && Done(v0, v, c, d, length) && LargeStep(v, v1, v2, c, d, d', n, length, r)
    ensures RegionsDone(v0, v2, c, d')
  {
    LargeTouched(c, d, d', n, r);
    NextRegion(v0, v, c, d, length, r);
    forall q: nat
      ensures if Touched(c, d', q) then (Stale(v2, q) <==> Stale(v0, q) || Overwritten(v0, c, d', q))
        else (v2.Pml1(q) <==> v0.Pml1(q)) && (v2.Big(q) <==> v0.Big(q))
    {
      LargeOverwritten(v0, c, d, d', n, r, q);
      assert v2.Big(q) <==> v.Big(q) || r <= q < r + n;
    }
  }

  lemma LargeOrder(v0: View, v: View, v1: View, v2: View, c: Call, d: nat, d': nat, n: nat, length: nat, r: nat)
    requires Sane(v0) && Done(v0, v, c, d, length) && LargeStep(v, v1, v2, c, d, d', n, length, r)
    ensures OrderDone(v0, c, d', length)
  {
    LargeTouched(c, d, d', n, r);
    RegionOf(c.vaddr + d');
    GigaOf(c.vaddr + d');
    assert Num(1, c.vaddr + d') == r + n;
  }

  lemma WholeRegions(r: nat, n: nat, x: nat)
    requires x == r * LARGE + n * LARGE
    ensures x % LARGE == 0
  {
    assert x == LARGE * (r + n);
  }

  lemma LargeDone(v0: View, v: View, v1: View, v2: View, c: Call, d: nat, d': nat, n: nat, length: nat, r: nat)
    requires Sane(v0) && Done(v0, v, c, d, length) && LargeStep(v, v1, v2, c, d, d', n, length, r)
    ensures Done(v0, v2, c, d', length)
  {
    LargeWalk(v0, v, v1, v2, c, d, d', n, length, r);
    LargeRegions(v0, v, v1, v2, c, d, d', n, length, r);
    LargeOrder(v0, v, v1, v2, c, d, d', n, length, r);
    WholeRegions(r, n, c.vaddr + d');
  }

  // ------------------------------------------------------------ table effects

  /** Adding a table changes the view only if it is a lowest one. */
  lemma AddEffect(s: Space, j: nat, x: nat, vaddr: nat, cap: nat)
    requires Missing(s, j, x, vaddr, cap)
    ensures Indexed(s.Add(j, x, vaddr, cap))
    ensures s.maps[j].level == 1 ==> Split(ViewOf(s), ViewOf(s.Add(j, x, vaddr, cap)), Num(1, x))
    ensures s.maps[j].level != 1 ==> Unchanged(ViewOf(s), ViewOf(s.Add(j, x, vaddr, cap)))
  {
    AddSlots(s, j, x, vaddr, cap);
    var v, v' := ViewOf(s), ViewOf(s.Add(j, x, vaddr, cap));
    forall y: nat | InSpace(y)
      ensures v'.Walk(y) == if s.maps[j].level == 1 && Num(1, y) == Num(1, x) then None else v.Walk(y)
    {
      AddWalk(s, j, x, vaddr, cap, y);
    }
    forall r: nat
      ensures v'.Pml1(r) <==> v.Pml1(r) || (s.maps[j].level == 1 && r == Num(1, x))
      ensures v'.Big(r) <==> v.Big(r) && !(s.maps[j].level == 1 && r == Num(1, x))
    {
      AddRegions(s, j, x, vaddr, cap, r);
    }
  }

  lemma ExtraEffect(s: Space, cap: nat, m: PageMap)
    requires Indexed(s) && cap !in s.tables
    ensures Indexed(s.(tables := s.tables[cap := m]))
    ensures Unchanged(ViewOf(s), ViewOf(s.(tables := s.tables[cap := m])))
  {
    ExtraTable(s, cap, m);
    var s' := s.(tables := s.tables[cap := m]);
    forall x: nat | InSpace(x)
      ensures ViewOf(s').Walk(x) == ViewOf(s).Walk(x)
    {
      assert s'.Walk(x) == s.Walk(x);
    }
    forall r: nat
      ensures (ViewOf(s').Pml1(r) <==> ViewOf(s).Pml1(r)) && (ViewOf(s').Big(r) <==> ViewOf(s).Big(r))
    {
      assert Pml1(s', r) <==> Pml1(s, r);
      ExtraBig(s, cap, m, r);
    }
  }

  lemma PageOf(level: nat, x: nat, y: nat)
    requires AtPage(level, x)
    ensures Num(level, y) == Num(level, x) <==> x <= y < x + Size(level)
    ensures x <= y < x + Size(level) ==> y % Size(level) == y - x
  {
    AtPageIsAligned(level, x);
    NumIsQuotient(level, x);
    NumIsQuotient(level, y);
    Block(x, Size(level), y);
  }

  lemma PutWalks(s: Space, i: nat, x: nat, a: nat, w: bool)
    requires Indexed(s) && i < |s.maps| && s.maps[i].level <= 1 && (s.maps[i].level == 0 ==> Attached(s, i))
    requires s.maps[i].Covers(x) && AtPage(s.maps[i].level, x)
    ensures Shape(s.Put(i, x, Page(a, w)))
    ensures MappedWalk(ViewOf(s), ViewOf(s.Put(i, x, Page(a, w))), x, Size(s.maps[i].level), a, w)
  {
    PutShape(s, i, x, Page(a, w));
    var v, v' := ViewOf(s), ViewOf(s.Put(i, x, Page(a, w)));
    forall y: nat | InSpace(y)
      ensures v'.Walk(y) == if x <= y < x + Size(s.maps[i].level) then Some(Target(a + (y - x), w)) else v.Walk(y)
    {
      PutWalk(s, i, x, a, w, y);
      PageOf(s.maps[i].level, x, y);
    }
  }

  lemma PutRegions(s: Space, i: nat, x: nat, a: nat, w: bool)
    requires Indexed(s) && i < |s.maps| && s.maps[i].level <= 1
    requires s.maps[i].Covers(x) && AtPage(s.maps[i].level, x)
    ensures Shape(s.Put(i, x, Page(a, w)))
    ensures MappedRegions(ViewOf(s), ViewOf(s.Put(i, x, Page(a, w))), x, Size(s.maps[i].level), s.maps[i].level)
  {
    PutShape(s, i, x, Page(a, w));
    var v, v' := ViewOf(s), ViewOf(s.Put(i, x, Page(a, w)));
    RegionOf(x);
    assert Size(1) == LARGE;
    forall r: nat
      ensures v'.Big(r) <==> v.Big(r) || (s.maps[i].level == 1 && x <= r * LARGE && r * LARGE < x + LARGE)
      ensures v'.Pml1(r) <==> v.Pml1(r)
    {
      PutBig(s, i, x, a, w, r);
      PutKeepsPml1(s, i, x, a, w, r);
    }
  }

  /** Mapping one page, as a change of the view. */
  lemma PutEffect(s: Space, i: nat, x: nat, a: nat, w: bool)
    requires Indexed(s) && i < |s.maps| && s.maps[i].level <= 1 && (s.maps[i].level == 0 ==> Attached(s, i))
    requires s.maps[i].Covers(x) && AtPage(s.maps[i].level, x)
    ensures Indexed(s.Put(i, x, Page(a, w))) && Attached(s.Put(i, x, Page(a, w)), i)
    ensures Mapped(ViewOf(s), ViewOf(s.Put(i, x, Page(a, w))), x, Size(s.maps[i].level), a, w, s.maps[i].level)
  {
    PutAttached(s, i, x, a, w);
    PutWalks(s, i, x, a, w);
    PutRegions(s, i, x, a, w);
  }

  lemma PutKeepsPml1(s: Space, i: nat, x: nat, a: nat, w: bool, r: nat)
    requires Shape(s) && i < |s.maps|
    ensures Pml1(s.Put(i, x, Page(a, w)), r) <==> Pml1(s, r)
  {
  }

  /** Pages that are mapped one after the other. */
  lemma MappedMore(v: View, v1: View, v2: View, x: nat, bytes: nat, size: nat, start: nat, w: bool, level: nat)
    requires Mapped(v, v1, x, bytes, start, w, level) && Mapped(v1, v2, x + bytes, size, start + bytes, w, level)
    ensures Mapped(v, v2, x, bytes + size, start, w, level)
  {
  }
}
