/** The mapper object of the boot loader. `tables` stands for the page maps behind the
    capabilities; `memory` counts how many more the kernel memory can provide. */
module MemMapper {
  import opened Arithmetic
  import opened Options
  import opened PageTables
  import opened MemMapping

  const MAX_PAGE_MAPS := 20
  const ROOT_SLOTS := 256       // of the root table, the mapper uses the lower half
  const LOWER_HALF := 0x8000_0000_0000

  /** `OUT_OF_RANGE` is where the code would leave one of its fixed arrays. */
  datatype Error =
    | SUCCESS | INSUFFICIENT_RESOURCES | LOST_RACE | UNALIGNED | INVALID_CAPABILITY | PAGEMAP_MISSING | OUT_OF_RANGE

  /** A frame starts at a whole page. */
  datatype Frame = Frame(firstPage: nat, size: nat, writable: bool) {
    function Start(): nat { firstPage * MIN_SIZE }
  }

  /** The table of level `l` for address `x`, or a negative number if there is none. */
  predicate IsTableFor(maps: seq<MapInfo>, i: int, l: nat, x: nat) {
    if i >= 0 then i < |maps| && maps[i].level == l && maps[i].Covers(x)
    else forall k :: 0 <= k < |maps| && maps[k].level == l ==> !maps[k].Covers(x)
  }

  // ---------------------------------------------------------- page arithmetic

  lemma RoundDown(level: nat, x: nat)
    ensures AtPage(level, x - x % Size(level)) && Num(level, x - x % Size(level)) == Num(level, x)
  {
    var n := Size(level);
    NumIsQuotient(level, x);
    NumIsQuotient(level, x - x % n);
    assert x == n * (x / n) + x % n;
    Division(x - x % n, n, x / n, 0);
    AtPageIsAligned(level, x - x % n);
  }

  lemma SlotPlus(q: nat, n: nat)
    requires q % TABLE_SIZE + n < TABLE_SIZE
    ensures (q + n) % TABLE_SIZE == q % TABLE_SIZE + n && (q + n) / TABLE_SIZE == q / TABLE_SIZE
  {
  }

  lemma NumPlus(level: nat, x: nat, n: nat)
    requires AtPage(level, x)
    ensures AtPage(level, x + n * Size(level)) && Num(level, x + n * Size(level)) == Num(level, x) + n
  {
    AtPageIsAligned(level, x);
    AtPageIsAligned(level, x + n * Size(level));
    NumIsQuotient(level, x);
    NumIsQuotient(level, x + n * Size(level));
    MultiplePlus(x, Size(level), n);
  }

  /** The pages that follow an aligned address in the same table. */
  lemma PagesFrom(level: nat, x: nat, n: nat)
    requires AtPage(level, x) && Index(level, x) + n < TABLE_SIZE
    ensures AtPage(level, x + n * Size(level))
    ensures Index(level, x + n * Size(level)) == Index(level, x) + n
    ensures Num(level + 1, x + n * Size(level)) == Num(level + 1, x)
  {
    NumPlus(level, x, n);
    SlotPlus(Num(level, x), n);
  }

  /** The bytes of `n` pages. */
  function Span(level: nat, n: nat): nat {
    if n == 0 then 0 else Span(level, n - 1) + Size(level)
  }

  lemma {:induction false} SpanIsProduct(level: nat, n: nat)
    ensures Span(level, n) == n * Size(level)
  {
    if n > 0 {
      SpanIsProduct(level, n - 1);
      assert n * Size(level) == (n - 1) * Size(level) + Size(level);
    }
  }

  lemma NextPage(level: nat, x: nat, n: nat, bytes: nat, start: nat)
    requires AtPage(level, x) && AtPage(level, start) && Index(level, x) + n < TABLE_SIZE && bytes == Span(level, n)
    ensures AtPage(level, x + bytes) && AtPage(level, start + bytes)
    ensures Index(level, x + bytes) == Index(level, x) + n && Num(level + 1, x + bytes) == Num(level + 1, x)
  {
    SpanIsProduct(level, n);
    PagesFrom(level, x, n);
    NumPlus(level, start, n);
  }

  lemma {:induction false} NumAbove(level: nat, k: nat, x: nat, y: nat)
    requires Num(level, x) == Num(level, y)
    ensures Num(level + k, x) == Num(level + k, y)
  {
    if k > 0 { NumAbove(level, k - 1, x, y); }
  }

  lemma LastByte(level: nat, x: nat, n: nat)
    requires n > 0 && AtPage(level, x) && Index(level, x) + n <= TABLE_SIZE
    ensures Num(level + 1, x + n * Size(level) - 1) == Num(level + 1, x)
    ensures level <= 1 && InSpace(x) ==> InSpace(x + n * Size(level) - 1)
  {
    PagesFrom(level, x, n - 1);
    assert n * Size(level) == (n - 1) * Size(level) + Size(level);
    PageOf(level, x + (n - 1) * Size(level), x + n * Size(level) - 1);
    if level <= 1 {
      InSpaceIsRoot(x);
      InSpaceIsRoot(x + n * Size(level) - 1);
      NumAbove(level + 1, 3 - level, x + n * Size(level) - 1, x);
    }
  }

  lemma WholePages(bytes: nat, n: nat, level: nat)
    requires bytes == n * Size(level) && level <= 1
    ensures bytes % MIN_SIZE == 0
  {
  }

  lemma RootSlotBelow(x: nat)
    requires x < LOWER_HALF
    ensures Index(3, x) < ROOT_SLOTS && InSpace(x)
  {
    NumIsQuotient(3, x);
    assert Size(1) == LARGE;
    assert Size(3) == 0x80_0000_0000;
  }

  /** The index fits into its array, and no table is for the kernel half of the root table. */
  ghost predicate InArrays(maps: seq<MapInfo>) {
    && |maps| <= MAX_PAGE_MAPS
    && forall i :: 0 <= i < |maps| && maps[i].level < 3 ==> Num(3, maps[i].vaddr) < ROOT_SLOTS
  }

  /** A page that contains both addresses is in one slot of the root table. */
  lemma {:induction false} SameRootSlot(level: nat, x: nat, y: nat)
    requires level <= 3 && Num(level, x) == Num(level, y)
    ensures Num(3, x) == Num(3, y)
    decreases 3 - level
  {
    if level < 3 { SameRootSlot(level + 1, x, y); }
  }

  lemma AddInArrays(s: Space, parent: nat, l: nat, x: nat, cap: nat)
    requires Shape(s) && InArrays(s.maps) && |s.maps| < MAX_PAGE_MAPS && l < 3 && IsTableFor(s.maps, parent, l + 1, x)
    requires l == 2 ==> Index(3, x) < ROOT_SLOTS
    ensures InArrays(s.maps + [MapInfo(x - x % Size(l + 1), cap, l)])
  {
    RoundDown(l + 1, x);
    SameRootSlot(l + 1, x, x - x % Size(l + 1));
    if l < 2 { SameRootSlot(l + 2, x, s.maps[parent].vaddr); }
  }

  /** The regions of 2 MiB that a range meets. */
  function Regions(x: nat, length: nat): int {
    if length == 0 then 0 else Num(1, x + length - 1) - Num(1, x) + 1
  }

  lemma RegionsPositive(x: nat, length: nat)
    requires length > 0
    ensures Regions(x, length) > 0
  {
    RegionOf(x);
    RegionOf(x + length - 1);
  }

  lemma FewerRegions(x: nat, length: nat, bytes: nat)
    requires 0 < bytes <= length && (bytes == length || (x + bytes) % LARGE == 0)
    ensures 0 <= Regions(x + bytes, length - bytes) < Regions(x, length)
  {
    RegionOf(x);
    RegionOf(x + bytes);
    RegionOf(x + length - 1);
  }

  // ---------------------------------------------------- effects on the tables

  predicate LevelsOk(maps: seq<MapInfo>, levels: seq<int>, x: nat) {
    |levels| == 4 && forall l :: 0 <= l < 4 ==> IsTableFor(maps, levels[l], l, x)
  }

  /** The tables of `s` are still there, and those that were attached still are. */
  ghost predicate Extends(s: Space, s': Space)
    requires Indexed(s)
  {
    && Indexed(s') && |s.maps| <= |s'.maps| && s'.maps[..|s.maps|] == s.maps
    && forall c: nat {:trigger Attached(s', c)} :: c < |s.maps| && Attached(s, c) ==> Attached(s', c)
  }

  ghost predicate Same(s: Space, s': Space)
    requires Indexed(s)
  {
    Extends(s, s') && Unchanged(ViewOf(s), ViewOf(s'))
  }

  ghost predicate SplitAt(s: Space, s': Space, i: int, x: nat)
    requires Indexed(s)
  {
    Extends(s, s') && Split(ViewOf(s), ViewOf(s'), Num(1, x)) && 0 <= i < |s'.maps| && Attached(s', i)
  }

  ghost predicate Added(s: Space, s': Space, l: nat, x: nat)
    requires Indexed(s)
  {
    && |s'.maps| == |s.maps| + 1 && IsTableFor(s'.maps, |s.maps|, l, x)
    && if l == 0 then SplitAt(s, s', |s.maps|, x) else Same(s, s')
  }

  lemma SameRefl(s: Space)
    requires Indexed(s)
    ensures Same(s, s)
  {
  }

  lemma SameTrans(s: Space, s1: Space, s2: Space)
    requires Indexed(s) && Same(s, s1) && Same(s1, s2)
    ensures Same(s, s2)
  {
  }

  lemma AddedTrans(s: Space, s1: Space, s2: Space, l: nat, x: nat)
    requires Indexed(s) && Same(s, s1) && Added(s1, s2, l, x)
    ensures l == 0 ==> SplitAt(s, s2, |s1.maps|, x)
    ensures l > 0 ==> Same(s, s2)
  {
  }

  lemma AddLevel(maps: seq<MapInfo>, maps': seq<MapInfo>, levels: seq<int>, l: nat, x: nat)
    requires LevelsOk(maps, levels, x) && l < 4 && levels[l] < 0
    requires |maps'| == |maps| + 1 && maps'[..|maps|] == maps && IsTableFor(maps', |maps|, l, x)
    ensures LevelsOk(maps', levels[l := |maps|], x)
  {
  }

  lemma ExtraSame(s: Space, cap: nat)
    requires Indexed(s) && cap !in s.tables
    ensures Same(s, s.(tables := s.tables[cap := EmptyMap()]))
  {
    var s' := s.(tables := s.tables[cap := EmptyMap()]);
    ExtraEffect(s, cap, EmptyMap());
    forall c: nat | c < |s.maps| && Attached(s, c)
      ensures Attached(s', c)
    {
      var j := ParentOf(s, c);
      SlotDecides(s', j, c);
    }
  }

  lemma AddIsAdded(s: Space, parent: nat, l: nat, x: nat, cap: nat)
    requires Indexed(s) && l < 3 && IsTableFor(s.maps, parent, l + 1, x) && IsTableFor(s.maps, -1, l, x) && cap !in s.tables
    ensures Added(s, s.Add(parent, x, x - x % Size(l + 1), cap), l, x)
  {
    var vaddr := x - x % Size(l + 1);
    RoundDown(l + 1, x);
    assert Missing(s, parent, x, vaddr, cap);
    AddEffect(s, parent, x, vaddr, cap);
    AddParents(s, parent, x, vaddr, cap);
  }

  /** Of the missing tables for `x`, those above level `l` were created. */
  ghost predicate Built(s: Space, s': Space, found: seq<int>, levels: seq<int>, l: int, large: bool, x: nat)
    requires Indexed(s) && |found| == 4
  {
    && LevelsOk(s'.maps, levels, x) && (forall k :: 0 <= k < 4 && l < k ==> levels[k] >= 0)
    && if l < 0 && found[0] < 0 then !large && SplitAt(s, s', levels[0], x)
       else levels[0] == found[0] && Same(s, s')
  }

  lemma BuiltNext(s: Space, s': Space, found: seq<int>, levels: seq<int>, l: nat, large: bool, x: nat)
    requires Indexed(s) && |found| == 4 && Built(s, s', found, levels, l, large, x) && l < 3 && levels[l] >= 0
    ensures Built(s, s', found, levels, l - 1, large, x)
  {
  }

  /** `n` pages of table `i` from `x` on were entered: without effect if the table has lost its
      slot. */
  ghost predicate PagesDone(s: Space, s': Space, i: nat, x: nat, n: nat, bytes: nat, start: nat, w: bool)
    requires Indexed(s)
  {
    && Indexed(s') && s'.maps == s.maps && i < |s.maps| && s.maps[i].level <= 1
    && (s.maps[i].level == 0 ==> (Attached(s', i) <==> Attached(s, i))) && bytes == Span(s.maps[i].level, n)
    && if s.maps[i].level == 0 && !Attached(s, i) then Unchanged(ViewOf(s), ViewOf(s'))
       else Mapped(ViewOf(s), ViewOf(s'), x, bytes, start, w, s.maps[i].level)
  }

  lemma NoPages(s: Space, i: nat, x: nat, start: nat, w: bool)
    requires Indexed(s) && i < |s.maps| && s.maps[i].level <= 1
    ensures PagesDone(s, s, i, x, 0, 0, start, w)
  {
  }

  lemma DetachedEffect(s: Space, i: nat, x: nat, a: nat, w: bool)
    requires Indexed(s) && i < |s.maps| && s.maps[i].level == 0 && !Attached(s, i)
    requires s.maps[i].Covers(x) && x % MIN_SIZE == 0
    ensures Indexed(s.Put(i, x, Page(a, w))) && Unchanged(ViewOf(s), ViewOf(s.Put(i, x, Page(a, w))))
    ensures !Attached(s.Put(i, x, Page(a, w)), i)
  {
    PutSlots(s, i, x, a, w);
    PutRegions(s, i, x, a, w);
    StaysDetached(s, i, x, Page(a, w));
    var s' := s.Put(i, x, Page(a, w));
    forall y: nat | InSpace(y)
      ensures ViewOf(s').Walk(y) == ViewOf(s).Walk(y)
    {
      DetachedTable(s, i, x, Page(a, w), y);
      assert ViewOf(s').Walk(y) == s'.Walk(y) && ViewOf(s).Walk(y) == s.Walk(y);
    }
  }

  lemma UnchangedTrans(v: View, v1: View, v2: View)
    requires Unchanged(v, v1) && Unchanged(v1, v2)
    ensures Unchanged(v, v2)
  {
  }

  lemma OneMoreDetached(s: Space, s1: Space, s2: Space, i: nat, x: nat, n: nat, bytes: nat, start: nat, w: bool)
    requires Indexed(s) && PagesDone(s, s1, i, x, n, bytes, start, w) && s.maps[i].level == 0 && !Attached(s, i)
    requires s.maps[i].Covers(x + bytes) && (x + bytes) % MIN_SIZE == 0
    requires s2 == s1.Put(i, x + bytes, Page(start + bytes, w))
    ensures PagesDone(s, s2, i, x, n + 1, bytes + MIN_SIZE, start, w)
  {
    DetachedEffect(s1, i, x + bytes, start + bytes, w);
    UnchangedTrans(ViewOf(s), ViewOf(s1), ViewOf(s2));
  }

  lemma OneMoreAttached(s: Space, s1: Space, s2: Space, i: nat, x: nat, n: nat, bytes: nat, start: nat, w: bool)
    requires Indexed(s) && PagesDone(s, s1, i, x, n, bytes, start, w) && (s.maps[i].level == 0 ==> Attached(s, i))
    requires s.maps[i].Covers(x + bytes) && AtPage(s.maps[i].level, x + bytes)
    requires s2 == s1.Put(i, x + bytes, Page(start + bytes, w))
    ensures PagesDone(s, s2, i, x, n + 1, bytes + Size(s.maps[i].level), start, w)
  {
    var level := s.maps[i].level;
    PutEffect(s1, i, x + bytes, start + bytes, w);
    assert Mapped(ViewOf(s1), ViewOf(s2), x + bytes, Size(level), start + bytes, w, level);
    MappedMore(ViewOf(s), ViewOf(s1), ViewOf(s2), x, bytes, Size(level), start, w, level);
  }

  lemma OneMorePage(s: Space, s1: Space, s2: Space, i: nat, x: nat, n: nat, bytes: nat, start: nat, w: bool)
    requires Indexed(s) && PagesDone(s, s1, i, x, n, bytes, start, w)
    requires s.maps[i].Covers(x + bytes) && AtPage(s.maps[i].level, x + bytes)
    requires s2 == s1.Put(i, x + bytes, Page(start + bytes, w))
    ensures PagesDone(s, s2, i, x, n + 1, bytes + Size(s.maps[i].level), start, w)
  {
    if s.maps[i].level == 0 && !Attached(s, i) { OneMoreDetached(s, s1, s2, i, x, n, bytes, start, w); }
    else { OneMoreAttached(s, s1, s2, i, x, n, bytes, start, w); }
  }

  /** What entering the next page does. */
  lemma NextPut(s: Space, s1: Space, i: nat, x: nat, n: nat, bytes: nat, start: nat, w: bool)
    requires Indexed(s) && PagesDone(s, s1, i, x, n, bytes, start, w) && s.maps[i].Covers(x)
    requires AtPage(s.maps[i].level, x) && AtPage(s.maps[i].level, start) && Index(s.maps[i].level, x) + n < TABLE_SIZE
    ensures AtPage(s.maps[i].level, start + bytes) && Index(s.maps[i].level, x + bytes) == Index(s.maps[i].level, x) + n
    ensures PagesDone(s, s1.Put(i, x + bytes, Page(start + bytes, w)), i, x, n + 1, bytes + Size(s.maps[i].level), start, w)
  {
    NextPage(s.maps[i].level, x, n, bytes, start);
    OneMorePage(s, s1, s1.Put(i, x + bytes, Page(start + bytes, w)), i, x, n, bytes, start, w);
  }

  /** Pages can be entered in table `i` from `x` on. */
  ghost predicate CanFill(s: Space, i: nat, x: nat, length: nat, start: nat) {
    && Indexed(s) && i < |s.maps| && s.maps[i].level <= 1 && s.maps[i].Covers(x)
    && AtPage(s.maps[i].level, x) && AtPage(s.maps[i].level, start) && length >= Size(s.maps[i].level)
  }

  /** They were, until the end of the table or of the range. */
  ghost predicate Filled(s: Space, s': Space, i: nat, x: nat, n: nat, bytes: nat, length: nat, start: nat, w: bool)
    requires Indexed(s) && i < |s.maps|
  {
    && n > 0 && Index(s.maps[i].level, x) + n <= TABLE_SIZE && bytes <= length
    && (Index(s.maps[i].level, x) + n == TABLE_SIZE || length - bytes < Size(s.maps[i].level))
    && PagesDone(s, s', i, x, n, bytes, start, w)
  }

  // ------------------------------------------------------ what a call achieves

  lemma LargeIsAtPage(x: nat)
    requires x % LARGE == 0
    ensures AtPage(1, x)
  {
    AtPageIsAligned(1, x);
    assert Size(1) == LARGE;
  }

  predicate PageAligned(vaddr: nat, length: nat, offset: nat) {
    vaddr % MIN_SIZE == 0 && length % MIN_SIZE == 0 && offset % MIN_SIZE == 0
  }

  lemma WholePagesAdd(a: nat, b: nat)
    requires a % MIN_SIZE == 0 && b % MIN_SIZE == 0
    ensures (a + b) % MIN_SIZE == 0
  {
    assert a + b == MIN_SIZE * (a / MIN_SIZE + b / MIN_SIZE);
  }

  lemma WholePagesSubtract(a: nat, b: nat)
    requires a % MIN_SIZE == 0 && b % MIN_SIZE == 0 && b <= a
    ensures (a - b) % MIN_SIZE == 0
  {
    assert a - b == MIN_SIZE * (a / MIN_SIZE - b / MIN_SIZE);
  }

  lemma StillAligned(vaddr: nat, length: nat, offset: nat, bytes: nat)
    requires PageAligned(vaddr, length, offset) && bytes % MIN_SIZE == 0 && bytes <= length
    ensures PageAligned(vaddr + bytes, length - bytes, offset + bytes)
  {
    WholePagesAdd(vaddr, bytes);
    WholePagesSubtract(length, bytes);
    WholePagesAdd(offset, bytes);
  }

  /** The checks at the start of a call. */
  function CheckArguments(vaddr: nat, length: nat, target: Option<Frame>, offset: nat): (e: Error)
    ensures e == INVALID_CAPABILITY <==> target.None?
    ensures e == INSUFFICIENT_RESOURCES <==> target.Some? && offset + length > target.value.size
    ensures e == UNALIGNED <==>
      (target.Some? && offset + length <= target.value.size
       && (vaddr % 0x1000 != 0 || length % 0x1000 != 0 || offset % 0x1000 != 0))
    ensures e == SUCCESS || e == INVALID_CAPABILITY || e == INSUFFICIENT_RESOURCES || e == UNALIGNED
  {
    if target.None? then INVALID_CAPABILITY
    else if offset + length > target.value.size then INSUFFICIENT_RESOURCES
    else if !PageAligned(vaddr, length, offset) then UNALIGNED
    else SUCCESS
  }

  /** Which refusal a call gets for its arguments. */
  predicate RefusalIs(e: Error, vaddr: nat, length: nat, target: Option<Frame>, offset: nat) {
    && (e == INVALID_CAPABILITY <==> target.None?)
    && (target.Some? && offset + length > target.value.size ==> e == INSUFFICIENT_RESOURCES)
    && (e == UNALIGNED <==>
          (target.Some? && offset + length <= target.value.size
           && (vaddr % 0x1000 != 0 || length % 0x1000 != 0 || offset % 0x1000 != 0)))
  }

  lemma CheckedRefusal(e: Error, vaddr: nat, length: nat, target: Option<Frame>, offset: nat)
    requires
      var checked := CheckArguments(vaddr, length, target, offset);
      if checked != SUCCESS then e == checked else e != INVALID_CAPABILITY && e != UNALIGNED
    ensures RefusalIs(e, vaddr, length, target, offset)
  {
  }

  ghost predicate InProgress(s0: Space, s: Space, c: Call, d: nat, length: nat)
    requires Indexed(s0)
  {
    Indexed(s) && Done(ViewOf(s0), ViewOf(s), c, d, length)
  }

  /** The first `d` bytes are mapped as asked and nothing else has changed, except that large
      pages which the range only partly covers are gone, and that nothing happens in regions
      whose lowest table had been replaced before. The index is right if and only if it was
      and no lowest table was replaced by a large page. */
  ghost predicate Outcome(s0: Space, s: Space, c: Call, d: nat) {
    && Shape(s0) && Indexed(s)
    && (forall x: nat :: InSpace(x) ==> s.Walk(x) == Expected(ViewOf(s0), c, d, x))
    && (forall r: nat :: Stale(ViewOf(s), r) <==> Stale(ViewOf(s0), r) || Overwritten(ViewOf(s0), c, d, r))
    && (Sound(s) <==> Sound(s0) && forall g: nat :: !Overwritten(ViewOf(s0), c, d, g))
  }

  /** All other addresses keep their mapping exactly if the range covers the large pages that it
      meets, apart from those that it cannot change. */
  lemma OthersUnchanged(s0: Space, s: Space, c: Call, d: nat)
    requires Indexed(s0) && Outcome(s0, s, c, d)
    ensures (forall x: nat :: InSpace(x) && !(c.vaddr <= x < c.vaddr + d) ==> s.Walk(x) == s0.Walk(x)) <==>
      forall r: nat :: Touched(c, d, r) && Big(s0, r) && !InVain(ViewOf(s0), c, d, r) ==> Full(c, d, r)
  {
    var v0 := ViewOf(s0);
    forall r: nat | Touched(c, d, r) && Big(s0, r) && !InVain(v0, c, d, r) && !Full(c, d, r)
      ensures exists x: nat :: InSpace(x) && !(c.vaddr <= x < c.vaddr + d) && s.Walk(x) != s0.Walk(x)
    {
      var x := if c.vaddr > r * LARGE then r * LARGE else r * LARGE + LARGE - 1;
      RegionOf(x);
      BigIsMapped(s0, x);
      assert Big(s0, r) == v0.Big(r);
    }
    forall x: nat | InSpace(x) && !(c.vaddr <= x < c.vaddr + d) && s.Walk(x) != s0.Walk(x)
      ensures exists r: nat :: Touched(c, d, r) && Big(s0, r) && !InVain(v0, c, d, r) && !Full(c, d, r)
    {
      var r := Num(1, x);
      assert Big(s0, r) == v0.Big(r) && v0.Walk(x) == s0.Walk(x);
      RegionOf(x);
      assert Touched(c, d, r) && Big(s0, r) && !InVain(v0, c, d, r) && !Full(c, d, r);
    }
  }

  /** The lowest table of the region is in the index although a large page took its slot. */
  ghost predicate WasReplaced(s: Space, r: nat)
    requires Shape(s)
  {
    Pml1(s, r) && Big(s, r)
  }

  /** Every byte of the range is mapped as asked, or nothing has changed for it because the
      table of its region had been replaced. */
  ghost predicate AllMapped(s0: Space, s: Space, vaddr: nat, length: nat, start: nat, writable: bool)
    requires Shape(s0) && Shape(s)
  {
    forall x: nat {:trigger s.Walk(x)} :: vaddr <= x < vaddr + length ==>
      || s.Walk(x) == Some(Target(start + (x - vaddr), writable))
      || (WasReplaced(s0, Num(1, x)) && s.Walk(x) == s0.Walk(x))
  }

  /** That is, byte `k` of the range goes to byte `k` behind `start`. */
  lemma ByteIsMapped(s0: Space, s: Space, vaddr: nat, length: nat, start: nat, writable: bool, k: nat)
    requires Shape(s0) && Shape(s) && AllMapped(s0, s, vaddr, length, start, writable) && k < length
    requires !(Pml1(s0, Num(1, vaddr + k)) && Big(s0, Num(1, vaddr + k)))
    ensures s.Walk(vaddr + k) == Some(Target(start + k, writable))
  {
    assert vaddr <= vaddr + k < vaddr + length;
  }

  lemma OutcomeMapsAll(s0: Space, s: Space, c: Call, length: nat)
    requires Outcome(s0, s, c, length) && (length > 0 ==> InSpace(c.vaddr + length - 1))
    ensures AllMapped(s0, s, c.vaddr, length, c.start, c.writable)
  {
    var v0 := ViewOf(s0);
    forall x: nat | c.vaddr <= x < c.vaddr + length
      ensures s.Walk(x) == Some(Target(c.start + (x - c.vaddr), c.writable))
              || (WasReplaced(s0, Num(1, x)) && s.Walk(x) == s0.Walk(x))
    {
      var r := Num(1, x);
      assert s.Walk(x) == Expected(v0, c, length, x);
      assert v0.Walk(x) == s0.Walk(x) && v0.Pml1(r) == Pml1(s0, r) && v0.Big(r) == Big(s0, r);
    }
  }

  lemma DoneOutcome(s0: Space, s: Space, c: Call, d: nat, length: nat)
    requires Indexed(s0) && InProgress(s0, s, c, d, length)
    ensures Outcome(s0, s, c, d)
  {
    ViewIsSane(s0);
    ViewIsSane(s);
    End(ViewOf(s0), ViewOf(s), c, d, length);
  }

  lemma StartOfCall(s0: Space, c: Call, length: nat)
    requires Indexed(s0)
    ensures InProgress(s0, s0, c, 0, length)
  {
    ViewIsSane(s0);
    Begin(ViewOf(s0), c, length);
  }

  /** What a call that passed its checks does: `mapped` bytes of the range are mapped, all of
      them after success. */
  ghost predicate Served(e: Error, s0: Space, s: Space, vaddr: nat, length: nat, start: nat, writable: bool, mapped: nat)
    requires Shape(s0)
  {
    && mapped <= length && Outcome(s0, s, Call(vaddr, start, writable), mapped)
    && (e == SUCCESS ==>
          && mapped == length && (length > 0 ==> InSpace(vaddr + length - 1))
          && AllMapped(s0, s, vaddr, length, start, writable))
  }

  lemma RangeIsServed(e: Error, s0: Space, s: Space, vaddr: nat, length: nat, start: nat, w: bool, mapped: nat)
    requires Indexed(s0) && InProgress(s0, s, Call(vaddr, start, w), mapped, length) && mapped <= length
    requires e == SUCCESS ==> mapped == length && (length > 0 ==> InSpace(vaddr + length - 1))
    ensures Served(e, s0, s, vaddr, length, start, w, mapped)
  {
    DoneOutcome(s0, s, Call(vaddr, start, w), mapped, length);
    if e == SUCCESS { OutcomeMapsAll(s0, s, Call(vaddr, start, w), length); }
  }

  lemma CallIsServed(e: Error, s0: Space, s: Space, vaddr: nat, length: nat, frame: Frame, offset: nat, writable: bool,
                     mapped: nat)
    requires Indexed(s0) && mapped <= length
    requires InProgress(s0, s, Call(vaddr, frame.Start() + offset, writable && frame.writable), mapped, length)
    requires e == SUCCESS ==> mapped == length && (length > 0 ==> InSpace(vaddr + length - 1))
    ensures Served(e, s0, s, vaddr, length, frame.firstPage * 0x1000 + offset, writable && frame.writable, mapped)
  {
    assert frame.Start() == frame.firstPage * 0x1000;
    RangeIsServed(e, s0, s, vaddr, length, frame.firstPage * 0x1000 + offset, writable && frame.writable, mapped);
  }

  lemma SameInProgress(s0: Space, s: Space, s': Space, c: Call, d: nat, length: nat)
    requires Indexed(s0) && InProgress(s0, s, c, d, length) && Same(s, s')
    ensures InProgress(s0, s', c, d, length)
  {
  }

  /** A lowest table has its slot exactly if no large page maps its region. */
  lemma LowestTable(s: Space, i: int, x: nat)
    requires Indexed(s) && IsTableFor(s.maps, i, 0, x)
    ensures i >= 0 <==> ViewOf(s).Pml1(Num(1, x))
    ensures i >= 0 ==> (Attached(s, i) <==> !Stale(ViewOf(s), Num(1, x)))
  {
    var r := Num(1, x);
    assert Pml1(s, r) == ViewOf(s).Pml1(r);
    assert Big(s, r) == ViewOf(s).Big(r);
    if i >= 0 {
      assert Pml1(s, r);
      AttachedIffNotBig(s, i);
    }
  }

  lemma RootCovers(s: Space, i: int, x: nat)
    requires Shape(s) && i >= 0 && IsTableFor(s.maps, i, 3, x)
    ensures InSpace(x)
  {
    InSpaceIsRoot(x);
  }

  predicate FitsLarge(start: nat, remaining: nat, vaddr: nat) {
    start % LARGE == 0 && remaining >= LARGE && vaddr % LARGE == 0
  }

  /** The code maps a large page if the range allows it, unless there is a lowest table. */
  predicate IsLarge(c: Call, d: nat, length: nat)
    requires d <= length
  {
    FitsLarge(c.start + d, length - d, c.vaddr + d)
  }

  /** Table `i` of `s1` is the one for the next pages. */
  ghost predicate Ready(s: Space, s1: Space, c: Call, d: nat, length: nat, i: nat)
    requires Indexed(s) && d < length
  {
    && Indexed(s1) && i < |s1.maps| && s1.maps[i].level <= 1
    && s1.maps[i].Covers(c.vaddr + d) && InSpace(c.vaddr + d)
    && var r := Num(1, c.vaddr + d);
       if s1.maps[i].level == 1 then IsLarge(c, d, length) && !ViewOf(s).Pml1(r) && Unchanged(ViewOf(s), ViewOf(s1))
       else
         && (Attached(s1, i) <==> !Stale(ViewOf(s1), r))
         && if ViewOf(s).Pml1(r) then Unchanged(ViewOf(s), ViewOf(s1))
            else !IsLarge(c, d, length) && Split(ViewOf(s), ViewOf(s1), r)
  }

  lemma TablesReady(s0: Space, s: Space, s1: Space, c: Call, d: nat, length: nat,
                    found: seq<int>, levels: seq<int>, large: bool, i: nat)
    requires Indexed(s0) && InProgress(s0, s, c, d, length) && d < length && large == IsLarge(c, d, length)
    requires LevelsOk(s.maps, found, c.vaddr + d)
    requires LevelsOk(s1.maps, levels, c.vaddr + d) && (forall k :: 1 <= k < 4 ==> levels[k] >= 0)
    requires if found[0] < 0 && !large then levels[0] >= 0 && SplitAt(s, s1, levels[0], c.vaddr + d)
             else levels[0] == found[0] && Same(s, s1)
    requires i == if levels[0] >= 0 then levels[0] else levels[1]
    ensures Ready(s, s1, c, d, length, i)
  {
    LowestTable(s, found[0], c.vaddr + d);
    LowestTable(s1, levels[0], c.vaddr + d);
    RootCovers(s1, levels[3], c.vaddr + d);
  }

  /** A whole number of pages of the range. */
  predicate Chunk(x: nat, remaining: nat, bytes: nat) {
    0 < bytes <= remaining && InSpace(x + bytes - 1) && bytes % MIN_SIZE == 0
  }

  lemma StartsAtPage(frame: Frame, offset: nat)
    requires offset % MIN_SIZE == 0
    ensures AtPage(0, frame.Start() + offset)
  {
    assert frame.Start() + offset == MIN_SIZE * (frame.firstPage + offset / MIN_SIZE);
  }

  lemma ReadyToFill(s: Space, s1: Space, c: Call, d: nat, length: nat, i: nat,
                    x: nat, remaining: nat, frame: Frame, offset: nat)
    requires Indexed(s) && d < length && Ready(s, s1, c, d, length, i) && PageAligned(x, remaining, offset)
    requires x == c.vaddr + d && remaining == length - d && frame.Start() + offset == c.start + d
    ensures CanFill(s1, i, x, remaining, frame.Start() + offset)
  {
    assert Size(0) == MIN_SIZE && Size(1) == LARGE;
    if s1.maps[i].level == 1 {
      LargeIsAtPage(x);
      LargeIsAtPage(frame.Start() + offset);
    } else {
      StartsAtPage(frame, offset);
    }
  }

  /** After the last slot of a lowest table comes the next region. */
  lemma RegionEnd(x: nat, n: nat)
    requires x % MIN_SIZE == 0 && Index(0, x) + n == TABLE_SIZE
    ensures (x + n * MIN_SIZE) % LARGE == 0
  {
    var k := Num(0, x) / TABLE_SIZE + 1;
    assert Num(0, x) + n == TABLE_SIZE * k;
    assert x + n * MIN_SIZE == LARGE * k;
  }

  /** Small pages stay in one region and stop at its end or at the end of the range. */
  lemma SmallEnd(x: nat, remaining: nat, n: nat, bytes: nat)
    requires x % MIN_SIZE == 0 && remaining % MIN_SIZE == 0 && n > 0
    requires bytes == Span(0, n) <= remaining && Index(0, x) + n <= TABLE_SIZE
    requires Index(0, x) + n == TABLE_SIZE || remaining - bytes < MIN_SIZE
    ensures Num(1, x + bytes - 1) == Num(1, x)
    ensures bytes == remaining || (x + bytes) % LARGE == 0
  {
    SpanIsProduct(0, n);
    LastByte(0, x, n);
    if Index(0, x) + n == TABLE_SIZE { RegionEnd(x, n); }
  }

  lemma AlignedTogether(c: Call, d: nat)
    ensures (c.vaddr + d) % LARGE == 0 ==> ((c.start + d) % LARGE == 0 <==> Congruent(c))
  {
  }

  lemma ReadySmall(s: Space, s1: Space, s2: Space, c: Call, d: nat, length: nat, i: nat, n: nat, bytes: nat)
    requires Indexed(s) && d < length && Ready(s, s1, c, d, length, i) && s1.maps[i].level == 0
    requires Filled(s1, s2, i, c.vaddr + d, n, bytes, length - d, c.start + d, c.writable)
    requires (c.vaddr + d) % MIN_SIZE == 0 && (length - d) % MIN_SIZE == 0
    ensures SmallStep(ViewOf(s), ViewOf(s1), ViewOf(s2), c, d, d + bytes, length, Num(1, c.vaddr + d))
  {
    SmallEnd(c.vaddr + d, length - d, n, bytes);
    AlignedTogether(c, d);
  }

  lemma SmallProgress(s0: Space, s: Space, v1: View, s2: Space, c: Call, d: nat, d': nat, length: nat, r: nat)
    requires Indexed(s0) && InProgress(s0, s, c, d, length) && Indexed(s2)
    requires SmallStep(ViewOf(s), v1, ViewOf(s2), c, d, d', length, r)
    ensures InProgress(s0, s2, c, d', length)
  {
    ViewIsSane(s0);
    SmallDone(ViewOf(s0), ViewOf(s), v1, ViewOf(s2), c, d, d', length, r);
  }

  lemma SmallRound(s0: Space, s: Space, s1: Space, s2: Space, c: Call, d: nat, length: nat, i: nat, n: nat, bytes: nat)
    requires Indexed(s0) && InProgress(s0, s, c, d, length) && d < length && Ready(s, s1, c, d, length, i)
    requires s1.maps[i].level == 0 && Filled(s1, s2, i, c.vaddr + d, n, bytes, length - d, c.start + d, c.writable)
    requires (c.vaddr + d) % MIN_SIZE == 0 && (length - d) % MIN_SIZE == 0
    ensures InProgress(s0, s2, c, d + bytes, length)
  {
    ReadySmall(s, s1, s2, c, d, length, i, n, bytes);
    SmallProgress(s0, s, ViewOf(s1), s2, c, d, d + bytes, length, Num(1, c.vaddr + d));
  }

  lemma ReadyLarge(s: Space, s1: Space, s2: Space, c: Call, d: nat, length: nat, i: nat, n: nat, bytes: nat)
    requires Indexed(s) && d < length && Ready(s, s1, c, d, length, i) && s1.maps[i].level == 1
    requires PagesDone(s1, s2, i, c.vaddr + d, n, bytes, c.start + d, c.writable)
    requires n > 0 && bytes == n * LARGE <= length - d && Index(1, c.vaddr + d) + n <= TABLE_SIZE
    requires Index(1, c.vaddr + d) + n == TABLE_SIZE || length - d - bytes < LARGE
    ensures LargeStep(ViewOf(s), ViewOf(s1), ViewOf(s2), c, d, d + bytes, n, length, Num(1, c.vaddr + d))
  {
    RegionOf(c.vaddr + d);
    AlignedTogether(c, d);
  }

  lemma LargeProgress(s0: Space, s: Space, v1: View, s2: Space, c: Call, d: nat, d': nat, n: nat, length: nat, r: nat)
    requires Indexed(s0) && InProgress(s0, s, c, d, length) && Indexed(s2)
    requires LargeStep(ViewOf(s), v1, ViewOf(s2), c, d, d', n, length, r)
    ensures InProgress(s0, s2, c, d', length)
  {
    ViewIsSane(s0);
    LargeDone(ViewOf(s0), ViewOf(s), v1, ViewOf(s2), c, d, d', n, length, r);
  }

  lemma WholeChunk(level: nat, x: nat, n: nat, bytes: nat, remaining: nat)
    requires level <= 1 && n > 0 && bytes == Span(level, n) <= remaining && InSpace(x)
    requires AtPage(level, x) && Index(level, x) + n <= TABLE_SIZE
    ensures Chunk(x, remaining, bytes)
  {
    SpanIsProduct(level, n);
    LastByte(level, x, n);
    WholePages(bytes, n, level);
  }

  lemma LargeRound(s0: Space, s: Space, s1: Space, s2: Space, c: Call, d: nat, length: nat, i: nat, n: nat, bytes: nat)
    requires Indexed(s0) && InProgress(s0, s, c, d, length) && d < length && Ready(s, s1, c, d, length, i)
    requires s1.maps[i].level == 1 && Filled(s1, s2, i, c.vaddr + d, n, bytes, length - d, c.start + d, c.writable)
    ensures InProgress(s0, s2, c, d + bytes, length)
  {
    SpanIsProduct(1, n);
    assert Size(1) == LARGE;
    ReadyLarge(s, s1, s2, c, d, length, i, n, bytes);
    LargeProgress(s0, s, ViewOf(s1), s2, c, d, d + bytes, n, length, Num(1, c.vaddr + d));
  }

  lemma RoundDone(s0: Space, s: Space, s1: Space, s2: Space, c: Call, d: nat, length: nat, i: nat, n: nat, bytes: nat,
                  x: nat, remaining: nat, start: nat, w: bool)
    requires Indexed(s0) && InProgress(s0, s, c, d, length) && d < length && Ready(s, s1, c, d, length, i)
    requires x == c.vaddr + d && remaining == length - d && start == c.start + d && w == c.writable
    requires x % MIN_SIZE == 0 && remaining % MIN_SIZE == 0
    requires CanFill(s1, i, x, remaining, start) && Filled(s1, s2, i, x, n, bytes, remaining, start, w)
    ensures InProgress(s0, s2, c, d + bytes, length) && Chunk(x, remaining, bytes)
  {
    WholeChunk(s1.maps[i].level, x, n, bytes, remaining);
    if s1.maps[i].level == 0 {
      SmallRound(s0, s, s1, s2, c, d, length, i, n, bytes);
    } else {
      LargeRound(s0, s, s1, s2, c, d, length, i, n, bytes);
    }
  }

  // -------------------------------------------------------------- the mapper

  class Mapper {
    var pagemaps: seq<MapInfo>
    var tables: map<nat, PageMap>
    var nextCap: nat
    var capsLeft: nat
    var memory: nat

    function Tables(): Space
      reads this
    {
      Space(pagemaps, tables)
    }

    /** There are capability pointers that are not in use, memory and index entries for `k`
        more tables. */
    ghost predicate Room(k: int)
      reads this
    {
      && k <= capsLeft && k <= memory && |pagemaps| + k <= MAX_PAGE_MAPS
      && forall cap :: nextCap <= cap ==> cap !in tables
    }

    /** Why a call can stop at address `x`: no capability pointer or no memory is left, the next
        pointer is in use, the index is full, or the address is in the kernel half. */
    ghost predicate Starved(e: Error, x: nat)
      reads this
    {
      || (e == INSUFFICIENT_RESOURCES && (capsLeft == 0 || memory == 0))
      || (e == LOST_RACE && nextCap > 0 && nextCap - 1 in tables)
      || (e == OUT_OF_RANGE && (|pagemaps| == MAX_PAGE_MAPS || x >= LOWER_HALF))
    }

    /** What a call leaves besides the mapping: a failure has a cause, there is none if there was
        enough room, and if the index was in its array it still is. */
    ghost predicate Behaved(e: Error, vaddr: nat, length: nat, mapped: nat, enough: bool, fits: bool)
      reads this
    {
      && e != INVALID_CAPABILITY && e != UNALIGNED
      && (e != SUCCESS ==> Starved(e, vaddr + mapped))
      && (enough && vaddr + length <= LOWER_HALF ==> e == SUCCESS)
      && (fits ==> InArrays(pagemaps))
    }

    constructor (firstCap: nat, caps: nat, memory: nat)
      ensures pagemaps == [] && tables == map[] && nextCap == firstCap && capsLeft == caps && this.memory == memory
    {
      pagemaps, tables, nextCap, capsLeft, this.memory := [], map[], firstCap, caps, memory;
    }

    method Alloc() returns (cap: Option<nat>)
      modifies `nextCap, `capsLeft
      ensures cap == if old(capsLeft) == 0 then None else Some(old(nextCap))
      ensures cap.Some? ==> nextCap == old(nextCap) + 1 && capsLeft == old(capsLeft) - 1
      ensures cap.None? ==> nextCap == old(nextCap) && capsLeft == old(capsLeft)
    {
      if capsLeft == 0 { return None; }
      cap := Some(nextCap);
      nextCap, capsLeft := nextCap + 1, capsLeft - 1;
    }

    method CreatePageMap(cap: nat) returns (e: Error)
      modifies `tables, `memory
      ensures e == if cap in old(tables) then LOST_RACE else if old(memory) == 0 then INSUFFICIENT_RESOURCES else SUCCESS
      ensures tables == if e == SUCCESS then old(tables)[cap := EmptyMap()] else old(tables)
      ensures memory == if e == SUCCESS then old(memory) - 1 else old(memory)
    {
      if cap in tables { return LOST_RACE; }
      if memory == 0 { return INSUFFICIENT_RESOURCES; }
      tables, memory := tables[cap := EmptyMap()], memory - 1;
      e := SUCCESS;
    }

    method InstallPml4(cap: nat) returns (e: Error)
      requires pagemaps == []
      modifies `tables, `memory, `pagemaps
      ensures e == if cap in old(tables) then LOST_RACE else if old(memory) == 0 then INSUFFICIENT_RESOURCES else SUCCESS
      ensures e == SUCCESS ==> Tables() == RootSpace(old(tables), cap) && memory == old(memory) - 1
      ensures e == SUCCESS ==> Sound(Tables()) && InArrays(pagemaps) && forall x :: Tables().Walk(x) == None
      ensures e != SUCCESS ==> Tables() == old(Tables()) && memory == old(memory)
    {
      e := CreatePageMap(cap);
      if e != SUCCESS { return; }
      pagemaps := [MapInfo(0, cap, 3)];
      RootIsSound(old(tables), cap);
    }

    /** The search loop. */
    method FindTables(x: nat) returns (levels: seq<int>)
      requires Shape(Tables())
      ensures |levels| == 4 && forall l :: 0 <= l < 4 ==> IsTableFor(pagemaps, levels[l], l, x)
    {
      levels := [-1, -1, -1, -1];
      for i := 0 to |pagemaps|
        invariant |levels| == 4 && forall l :: 0 <= l < 4 ==> IsTableFor(pagemaps[..i], levels[l], l, x)
      {
        ContainsIsCovers(pagemaps[i], x);
        assert forall k :: 0 <= k <= i ==> pagemaps[..i + 1][k] == pagemaps[k];
        if pagemaps[i].Contains(x) {
          levels := levels[pagemaps[i].level := i];
        }
      }
      assert pagemaps[..|pagemaps|] == pagemaps;
    }

    /** A new page map for a table of level `l`; a page map that cannot be used stays behind. */
    method NewPageMap(l: nat, x: nat, ghost room: int) returns (e: Error, cap: nat)
      requires Indexed(Tables()) && l < 3
      modifies this
      ensures pagemaps == old(pagemaps) && (e != SUCCESS ==> Starved(e, x))
      ensures old(Room(room)) && room > 0 && x < LOWER_HALF ==>
        e == SUCCESS && Room(room - 1) && |pagemaps| + room <= MAX_PAGE_MAPS
      ensures e == SUCCESS ==> cap !in old(tables) && tables == old(tables)[cap := EmptyMap()]
      ensures e == SUCCESS ==> |pagemaps| != MAX_PAGE_MAPS && (l == 2 ==> Index(3, x) < ROOT_SLOTS)
      ensures e != SUCCESS ==> Same(old(Tables()), Tables())
    {
      ghost var s := Tables();
      SameRefl(s);
      var pointer := Alloc();
      if pointer.None? { return INSUFFICIENT_RESOURCES, 0; }
      cap := pointer.value;
      e := CreatePageMap(cap);
      if e != SUCCESS { return; }
      var index := (x / Size(l + 1)) % TABLE_SIZE;
      NumIsQuotient(l + 1, x);
      if x < LOWER_HALF { RootSlotBelow(x); }
      if (l == 2 && index >= ROOT_SLOTS) || |pagemaps| == MAX_PAGE_MAPS {
        ExtraSame(s, cap);
        e := OUT_OF_RANGE;
      }
    }

    /** A new table of level `l` for address `x`, installed in table `parent`. */
    method AddTable(l: nat, x: nat, parent: nat, ghost room: int) returns (e: Error)
      requires Indexed(Tables()) && l < 3 && IsTableFor(pagemaps, parent, l + 1, x) && IsTableFor(pagemaps, -1, l, x)
      modifies this
      ensures e != SUCCESS ==> Starved(e, x)
      ensures old(Room(room)) && room > 0 && x < LOWER_HALF ==> e == SUCCESS && Room(room - 1)
      ensures e == SUCCESS ==> Added(old(Tables()), Tables(), l, x)
      ensures old(InArrays(pagemaps)) ==> InArrays(pagemaps)
      ensures e != SUCCESS ==> Same(old(Tables()), Tables())
    {
      ghost var s := Tables();
      var cap;
      e, cap := NewPageMap(l, x, room);
      if e != SUCCESS { return; }
      var size := Size(l + 1);
      var index := (x / size) % TABLE_SIZE;
      NumIsQuotient(l + 1, x);
      var up := pagemaps[parent].cap;
      tables := tables[up := PageMap(tables[up].entries[index := Table(cap)])];
      pagemaps := pagemaps + [MapInfo(x - x % size, cap, l)];
      AddIsAdded(s, parent, l, x, cap);
      if InArrays(s.maps) { AddInArrays(s, parent, l, x, cap); }
    }

    /** Creates the missing table of level `l`; those above are there. */
    method AddLevelTable(found: seq<int>, l: nat, x: nat, ghost s: Space, ghost room: int) returns (e: Error, levels: seq<int>)
      requires Indexed(s) && Same(s, Tables()) && LevelsOk(pagemaps, found, x) && l < 3 && found[l] < 0 <= found[l + 1]
      modifies this
      ensures e != SUCCESS ==> Starved(e, x)
      ensures old(Room(room)) && room > 0 && x < LOWER_HALF ==> e == SUCCESS && Room(room - 1)
      ensures e == SUCCESS ==> LevelsOk(pagemaps, levels, x) && levels == found[l := levels[l]] && levels[l] >= 0
      ensures e == SUCCESS ==> if l == 0 then SplitAt(s, Tables(), levels[0], x) else Same(s, Tables())
      ensures old(InArrays(pagemaps)) ==> InArrays(pagemaps)
      ensures e != SUCCESS ==> Same(s, Tables())
    {
      ghost var s1 := Tables();
      levels := found;
      e := AddTable(l, x, levels[l + 1], room);
      if e != SUCCESS {
        SameTrans(s, s1, Tables());
        return;
      }
      AddLevel(s1.maps, pagemaps, levels, l, x);
      levels := levels[l := |pagemaps| - 1];
      AddedTrans(s, s1, Tables(), l, x);
    }

    /** Creates the tables that are missing for address `x`, top down. No lowest table is
        needed for a large page. */
    method AddMissing(found: seq<int>, x: nat, large: bool, ghost room: int) returns (e: Error, levels: seq<int>)
      requires Indexed(Tables()) && LevelsOk(pagemaps, found, x)
      modifies this
      ensures e != SUCCESS ==> Starved(e, x)
      ensures old(Room(room)) && room >= 3 && x < LOWER_HALF ==> e == SUCCESS && Room(room - 3)
      ensures e == SUCCESS ==> LevelsOk(pagemaps, levels, x) && (forall k :: 1 <= k < 4 ==> levels[k] >= 0)
      ensures e == SUCCESS ==>
        if found[0] < 0 && !large then levels[0] >= 0 && SplitAt(old(Tables()), Tables(), levels[0], x)
        else levels[0] == found[0] && Same(old(Tables()), Tables())
      ensures e != SUCCESS ==> Same(old(Tables()), Tables())
      ensures old(InArrays(pagemaps)) ==> InArrays(pagemaps)
    {
      e, levels := SUCCESS, found;
      SameRefl(Tables());
      ghost var enough, left := Room(room) && room >= 3 && x < LOWER_HALF, room;
      if levels[3] < 0 {
        RootCoversAll(Tables(), x);
        return OUT_OF_RANGE, levels;
      }
      var l := 2;
      while l >= 0
        invariant -1 <= l <= 2 && Built(old(Tables()), Tables(), found, levels, l, large, x)
        invariant e == SUCCESS && (enough ==> Room(left) && left >= room - 2 + l)
        invariant old(InArrays(pagemaps)) ==> InArrays(pagemaps)
        decreases l
      {
        if levels[l] < 0 {
          if l == 0 && large { break; }
          e, levels := AddLevelTable(levels, l, x, old(Tables()), left);
          if e != SUCCESS { return; }
          left := left - 1;
        } else {
          BuiltNext(old(Tables()), Tables(), found, levels, l, large, x);
        }
        l := l - 1;
      }
    }

    method MapFrame(i: nat, index: nat, frame: Frame, writable: bool, offset: nat, ghost x: nat) returns (e: Error)
      requires Shape(Tables()) && i < |pagemaps| && index == Index(pagemaps[i].level, x)
      modifies `tables
      ensures e == if !AtPage(pagemaps[i].level, frame.Start() + offset) then PAGEMAP_MISSING
        else if offset + Size(pagemaps[i].level) > frame.size then INSUFFICIENT_RESOURCES else SUCCESS
      ensures Tables() == if e == SUCCESS then
        old(Tables()).Put(i, x, Page(frame.Start() + offset, writable && frame.writable)) else old(Tables())
      ensures tables.Keys == old(tables.Keys)
    {
      var size := Size(pagemaps[i].level);
      var addr := frame.Start() + offset;
      AtPageIsAligned(pagemaps[i].level, addr);
      if addr % size != 0 { return PAGEMAP_MISSING; }
      if offset + size > frame.size { return INSUFFICIENT_RESOURCES; }
      var cap := pagemaps[i].cap;
      tables := tables[cap := PageMap(tables[cap].entries[index := Page(addr, writable && frame.writable)])];
      e := SUCCESS;
    }

    /** Maps the page after `n` pages of `bytes` bytes from `x` on. */
    method MapOne(i: nat, index: nat, x: nat, frame: Frame, writable: bool, offset: nat, bytes: nat,
                  ghost n: nat, ghost s: Space) returns (e: Error)
      requires Indexed(s) && i < |pagemaps| && pagemaps[i].Covers(x)
      requires PagesDone(s, Tables(), i, x, n, bytes, frame.Start() + offset, writable && frame.writable)
      requires AtPage(pagemaps[i].level, x) && AtPage(pagemaps[i].level, frame.Start() + offset)
      requires index == Index(pagemaps[i].level, x) + n < TABLE_SIZE && offset + bytes + Size(pagemaps[i].level) <= frame.size
      modifies `tables
      ensures e == SUCCESS && tables.Keys == old(tables.Keys)
      ensures PagesDone(s, Tables(), i, x, n + 1, bytes + Size(pagemaps[i].level), frame.Start() + offset,
                        writable && frame.writable)
    {
      ghost var s1, start, w := Tables(), frame.Start() + offset, writable && frame.writable;
      NextPut(s, s1, i, x, n, bytes, start, w);
      e := MapFrame(i, index, frame, writable, offset + bytes, x + bytes);
      assert Tables() == s1.Put(i, x + bytes, Page(start + bytes, w));
    }

    /** Maps pages from `x` on until the end of the table or of the range. */
    method MapPages(i: nat, x: nat, frame: Frame, writable: bool, offset: nat, length: nat)
      returns (e: Error, bytes: nat, ghost n: nat)
      requires CanFill(Tables(), i, x, length, frame.Start() + offset) && offset + length <= frame.size
      modifies `tables
      ensures e == SUCCESS && tables.Keys == old(tables.Keys)
      ensures Filled(old(Tables()), Tables(), i, x, n, bytes, length, frame.Start() + offset, writable && frame.writable)
    {
      var level := pagemaps[i].level;
      var size := Size(level);
      var index := (x / size) % TABLE_SIZE;
      NumIsQuotient(level, x);
      e, bytes, n := SUCCESS, 0, 0;
      NoPages(Tables(), i, x, frame.Start() + offset, writable && frame.writable);
      while index < TABLE_SIZE && length - bytes >= size
        invariant bytes <= length && index == Index(level, x) + n <= TABLE_SIZE && e == SUCCESS
        invariant tables.Keys == old(tables.Keys)
        invariant PagesDone(old(Tables()), Tables(), i, x, n, bytes, frame.Start() + offset, writable && frame.writable)
        decreases length - bytes
      {
        e := MapOne(i, index, x, frame, writable, offset, bytes, n, old(Tables()));
        index, bytes, n := index + 1, bytes + size, n + 1;
      }
    }

    /** Finds or creates the tables for the next address; `i` is the one to use. */
    method PrepareTables(ghost s0: Space, ghost c: Call, ghost d: nat, ghost length: nat, start: nat, remaining: nat, cur: nat,
                         ghost room: int) returns (e: Error, i: nat)
      requires Indexed(s0) && InProgress(s0, Tables(), c, d, length) && d < length && cur == c.vaddr + d
      requires start == c.start + d && remaining == length - d
      modifies this
      ensures e != SUCCESS ==> Starved(e, cur)
      ensures old(Room(room)) && room >= 3 && cur < LOWER_HALF ==> e == SUCCESS && Room(room - 3)
      ensures e != SUCCESS ==> InProgress(s0, Tables(), c, d, length)
      ensures e == SUCCESS ==> i < |pagemaps| && Ready(old(Tables()), Tables(), c, d, length, i)
      ensures old(InArrays(pagemaps)) ==> InArrays(pagemaps)
    {
      ghost var s := Tables();
      var large := FitsLarge(start, remaining, cur);
      i := 0;
      var found := FindTables(cur);
      var levels;
      e, levels := AddMissing(found, cur, large, room);
      if e != SUCCESS {
        SameInProgress(s0, s, Tables(), c, d, length);
        return;
      }
      i := if levels[0] >= 0 then levels[0] else levels[1];
      TablesReady(s0, s, Tables(), c, d, length, found, levels, large, i);
    }

    /** Maps pages of the table that was prepared. */
    method MapReady(ghost s0: Space, ghost s: Space, ghost c: Call, ghost d: nat, ghost length: nat, i: nat,
                    cur: nat, remaining: nat, frame: Frame, writable: bool, offset: nat) returns (e: Error, bytes: nat)
      requires Indexed(s0) && InProgress(s0, s, c, d, length) && d < length && Ready(s, Tables(), c, d, length, i)
      requires cur == c.vaddr + d && remaining == length - d && frame.Start() + offset == c.start + d
      requires c.writable == (writable && frame.writable) && offset + remaining <= frame.size
      requires PageAligned(cur, remaining, offset)
      modifies `tables
      ensures e == SUCCESS && tables.Keys == old(tables.Keys)
      ensures InProgress(s0, Tables(), c, d + bytes, length) && Chunk(cur, remaining, bytes)
    {
      ghost var n, s1 := 0, Tables();
      ReadyToFill(s, s1, c, d, length, i, cur, remaining, frame, offset);
      e, bytes, n := MapPages(i, cur, frame, writable, offset, remaining);
      RoundDone(s0, s, s1, Tables(), c, d, length, i, n, bytes, cur, remaining, frame.Start() + offset,
                writable && frame.writable);
    }

    /** One round of the outer loop: adds tables for `cur`, then maps pages until the end of the
        lowest table or of the range. */
    method MapNext(ghost s0: Space, ghost c: Call, ghost length: nat,
                   cur: nat, remaining: nat, frame: Frame, writable: bool, offset: nat, ghost room: int)
      returns (e: Error, bytes: nat)
      requires Indexed(s0) && 0 < remaining <= length && InProgress(s0, Tables(), c, length - remaining, length)
      requires cur == c.vaddr + (length - remaining) && frame.Start() + offset == c.start + (length - remaining)
      requires c.writable == (writable && frame.writable) && offset + remaining <= frame.size
      requires PageAligned(cur, remaining, offset)
      modifies this
      ensures bytes <= remaining && InProgress(s0, Tables(), c, (length - remaining) + bytes, length)
      ensures e != SUCCESS ==> bytes == 0 && Starved(e, cur)
      ensures old(Room(room)) && room >= 3 && cur < LOWER_HALF ==> e == SUCCESS && Room(room - 3)
      ensures e == SUCCESS ==> Chunk(cur, remaining, bytes)
      ensures old(InArrays(pagemaps)) ==> InArrays(pagemaps)
    {
      ghost var d := length - remaining;
      bytes := 0;
      ghost var s := Tables();
      var i;
      e, i := PrepareTables(s0, c, d, length, frame.Start() + offset, remaining, cur, room);
      if e != SUCCESS { return; }
      e, bytes := MapReady(s0, s, c, d, length, i, cur, remaining, frame, writable, offset);
    }

    /** The outer loop: goes on with the next page map until everything is mapped. */
    method MapAll(ghost s0: Space, ghost c: Call, vaddr: nat, length: nat, writable: bool, frame: Frame, offset: nat)
      returns (e: Error, ghost mapped: nat)
      requires Indexed(s0) && InProgress(s0, Tables(), c, 0, length)
      requires c == Call(vaddr, frame.Start() + offset, writable && frame.writable)
      requires PageAligned(vaddr, length, offset) && offset + length <= frame.size
      modifies this
      ensures mapped <= length && InProgress(s0, Tables(), c, mapped, length)
      ensures e == SUCCESS ==> mapped == length && (length > 0 ==> InSpace(vaddr + length - 1))
      ensures Behaved(e, vaddr, length, mapped, old(Room(3 * Regions(vaddr, length))), old(InArrays(pagemaps)))
    {
      ghost var enough := Room(3 * Regions(vaddr, length)) && vaddr + length <= LOWER_HALF;
      e := SUCCESS;
      var remaining, cur, off := length, vaddr, offset;
      while remaining > 0
        invariant 0 <= remaining <= length && cur == vaddr + (length - remaining) && off == offset + (length - remaining)
        invariant PageAligned(cur, remaining, off)
        invariant InProgress(s0, Tables(), c, length - remaining, length)
        invariant e == SUCCESS && (remaining < length ==> InSpace(cur - 1))
        invariant enough ==> Room(3 * Regions(cur, remaining))
        invariant old(InArrays(pagemaps)) ==> InArrays(pagemaps)
        decreases remaining
      {
        var bytes;
        RegionsPositive(cur, remaining);
        e, bytes := MapNext(s0, c, length, cur, remaining, frame, writable, off, 3 * Regions(cur, remaining));
        if e != SUCCESS { break; }
        FewerRegions(cur, remaining, bytes);
        StillAligned(cur, remaining, off, bytes);
        remaining, cur, off := remaining - bytes, cur + bytes, off + bytes;
      }
      mapped := length - remaining;
    }

    /** Maps the bytes of a frame from `offset` on, once the arguments were checked. */
    method MapFrameAt(vaddr: nat, length: nat, writable: bool, frame: Frame, offset: nat)
      returns (e: Error, ghost mapped: nat)
      requires Indexed(Tables()) && PageAligned(vaddr, length, offset) && offset + length <= frame.size
      modifies this
      ensures Served(e, old(Tables()), Tables(), vaddr, length,
                     frame.firstPage * 0x1000 + offset, writable && frame.writable, mapped)
      ensures Behaved(e, vaddr, length, mapped, old(Room(3 * Regions(vaddr, length))), old(InArrays(pagemaps)))
    {
      ghost var s0, c := Tables(), Call(vaddr, frame.Start() + offset, writable && frame.writable);
      StartOfCall(s0, c, length);
      e, mapped := MapAll(s0, c, vaddr, length, writable, frame, offset);
      CallIsServed(e, old(Tables()), Tables(), vaddr, length, frame, offset, writable, mapped);
    }

    /** Maps `length` bytes of a frame from `offset` on to the addresses from `vaddr` on.
        `mapped` is how far it got. */
    method Mmap(vaddr: nat, length: nat, writable: bool, target: Option<Frame>, offset: nat)
      returns (e: Error, ghost mapped: nat)
      requires Indexed(Tables())
      modifies this
      ensures RefusalIs(e, vaddr, length, target, offset)
      ensures CheckArguments(vaddr, length, target, offset) != SUCCESS ==> Tables() == old(Tables())
      ensures CheckArguments(vaddr, length, target, offset) == SUCCESS ==>
        && Served(e, old(Tables()), Tables(), vaddr, length,
                  target.value.firstPage * 0x1000 + offset, writable && target.value.writable, mapped)
        && Behaved(e, vaddr, length, mapped, old(Room(3 * Regions(vaddr, length))), old(InArrays(pagemaps)))
    {
      mapped := 0;
      e := CheckArguments(vaddr, length, target, offset);
      if e == SUCCESS { e, mapped := MapFrameAt(vaddr, length, writable, target.value, offset); }
      CheckedRefusal(e, vaddr, length, target, offset);
    }
  }

  // ------------------------------------------------------- calls that go wrong

  const ROOT := RootSpace(map[], 0)

  /** Table `i` of level `l` covers address 0 and is the last one. */
  ghost predicate IsLast(s: Space, i: nat, l: nat) {
    && Indexed(s) && |s.maps| == i + 1 && IsTableFor(s.maps, i, l, 0)
    && (forall k :: 0 <= k <= i ==> s.maps[k].level >= l && s.maps[k].cap == k)
    && (forall cap :: cap in s.tables ==> cap <= i)
  }

  lemma TableBelow(s: Space, i: nat, l: nat, x: nat)
    requires IsLast(s, i, l + 1) && l < 3 && Num(l + 2, x) == Num(l + 2, 0) && x % Size(l + 1) == 0
    ensures Added(s, s.Add(i, x, x, i + 1), l, x)
  {
    AddIsAdded(s, i, l, x, i + 1);
  }

  lemma LastBelow(s: Space, i: nat, l: nat)
    requires IsLast(s, i, l + 1) && 0 < l < 3
    ensures IsLast(s.Add(i, 0, 0, i + 1), i + 1, l)
    ensures Unchanged(ViewOf(s), ViewOf(s.Add(i, 0, 0, i + 1)))
  {
    TableBelow(s, i, l, 0);
  }

  /** Nothing is mapped, and there are tables for address 0 except for the lowest one. */
  lemma UpperTables() returns (s: Space)
    ensures IsLast(s, 2, 1) && Shape(ROOT) && Unchanged(ViewOf(ROOT), ViewOf(s))
  {
    RootIsSound(map[], 0);
    LastBelow(ROOT, 0, 2);
    var s1 := ROOT.Add(0, 0, 0, 1);
    LastBelow(s1, 1, 1);
    s := s1.Add(1, 0, 0, 2);
    UnchangedTrans(ViewOf(ROOT), ViewOf(s1), ViewOf(s));
  }

  /** What a call makes of the empty address space, when its range is one page. */
  lemma FirstCall(s: Space, c: Call, d: nat)
    requires Indexed(s) && Shape(ROOT) && d > 0 && Num(1, c.vaddr) == Num(1, c.vaddr + d - 1)
    requires forall x: nat :: InSpace(x) ==>
      ViewOf(s).Walk(x) == if c.vaddr <= x < c.vaddr + d then Some(Target(c.start + (x - c.vaddr), c.writable)) else None
    requires Clean(ViewOf(s))
    ensures Sound(s) && Outcome(ROOT, s, c, d)
  {
    RootIsSound(map[], 0);
    EmptyView();
    ViewIsSane(s);
    forall x: nat | InSpace(x)
      ensures s.Walk(x) == Expected(ViewOf(ROOT), c, d, x)
    {
      assert ViewOf(s).Walk(x) == s.Walk(x);
    }
  }

  lemma EmptyView()
    ensures Shape(ROOT)
    ensures forall x: nat :: ViewOf(ROOT).Walk(x) == None
    ensures forall r: nat :: !ViewOf(ROOT).Pml1(r) && !ViewOf(ROOT).Big(r)
  {
    RootIsSound(map[], 0);
    forall x: nat
      ensures ViewOf(ROOT).Walk(x) == None
    {
      assert ViewOf(ROOT).Walk(x) == ROOT.Walk(x);
    }
    forall r: nat
      ensures !ViewOf(ROOT).Pml1(r) && !ViewOf(ROOT).Big(r)
    {
      assert ViewOf(ROOT).Pml1(r) == Pml1(ROOT, r) && ViewOf(ROOT).Big(r) == Big(ROOT, r);
    }
  }

  /** A large page at address 0 in an empty address space. */
  lemma OneLargePage() returns (s: Space)
    ensures Sound(s) && Outcome(ROOT, s, Call(0, 0, true), LARGE) && ViewOf(s).Big(0) && !ViewOf(s).Pml1(0)
  {
    var u := UpperTables();
    EmptyView();
    assert AtPage(1, 0) && Size(1) == LARGE;
    PutEffect(u, 2, 0, 0, true);
    s := u.Put(2, 0, Page(0, true));
    RegionOf(LARGE - 1);
    FirstCall(s, Call(0, 0, true), LARGE);
  }

  /** After 2 MiB were mapped at address 0, a call for 4 KiB there unmaps all other addresses. */
  lemma LargePageIsLost(x: nat) returns (s0: Space)
    requires MIN_SIZE <= x < LARGE
    ensures Sound(s0) && Outcome(ROOT, s0, Call(0, 0, true), LARGE) && s0.Walk(x) == Some(Target(x, true))
    ensures forall s :: Outcome(s0, s, Call(0, 0, true), MIN_SIZE) ==> s.Walk(x) == None
  {
    s0 := OneLargePage();
    EmptyView();
    RegionOf(x);
    RegionOf(MIN_SIZE - 1);
    RegionOf(LARGE - 1);
  }

  /** A lowest table for the second region only, with one page in it. */
  lemma OneSmallPage() returns (s: Space)
    ensures Sound(s) && Outcome(ROOT, s, Call(LARGE, 0, true), MIN_SIZE)
    ensures forall r: nat :: !ViewOf(s).Big(r) && (ViewOf(s).Pml1(r) <==> r == 1)
  {
    var u := UpperTables();
    EmptyView();
    TableBelow(u, 2, 0, LARGE);
    var s1 := u.Add(2, LARGE, LARGE, 3);
    PutEffect(s1, 3, LARGE, 0, true);
    s := s1.Put(3, LARGE, Page(0, true));
    FirstCall(s, Call(LARGE, 0, true), MIN_SIZE);
  }

  /** After 4 KiB were mapped at 2 MiB, a call for 4 MiB at address 0 replaces the lowest table
      by a large page and leaves it in the index: later calls for the second half map nothing,
      and report success. */
  lemma LowestTableIsLost(start: nat, w: bool) returns (s0: Space)
    ensures Sound(s0) && Outcome(ROOT, s0, Call(LARGE, 0, true), MIN_SIZE)
    ensures forall s :: Outcome(s0, s, Call(0, 0, true), 2 * LARGE) ==>
      !Sound(s) && forall s' :: Outcome(s, s', Call(LARGE, start, w), MIN_SIZE) ==> s'.Walk(LARGE) == s.Walk(LARGE)
  {
    s0 := OneSmallPage();
    assert Full(Call(0, 0, true), 2 * LARGE, 0) && !ViewOf(s0).Pml1(0);
    assert Overwritten(ViewOf(s0), Call(0, 0, true), 2 * LARGE, 1);
    forall s, s' | Outcome(s0, s, Call(0, 0, true), 2 * LARGE) && Outcome(s, s', Call(LARGE, start, w), MIN_SIZE)
      ensures s'.Walk(LARGE) == s.Walk(LARGE)
    {
      var c := Call(LARGE, start, w);
      assert Stale(ViewOf(s), 1);
      RegionOf(LARGE);
      RegionOf(LARGE + MIN_SIZE - 1);
      assert !Full(c, MIN_SIZE, 1);
      assert InVain(ViewOf(s), c, MIN_SIZE, 1);
      assert ViewOf(s).Walk(LARGE) == s.Walk(LARGE);
    }
  }
}
