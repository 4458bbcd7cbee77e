/** Page tables of four levels together with the index of tables that the boot-time mapper
    keeps, and the 4-level walk that gives them their meaning (section 4.5 of the Intel SDM,
    Volume 3A). Levels are counted 0, 1, 2, 3 for PML1 to PML4. */
module PageTables {
  import opened Arithmetic
  import opened Options

  // -------------------------------------------------------------- page numbers

  const MIN_SIZE := 0x1000
  const TABLE_SIZE := 512

  /** Bytes that one entry of a table of this level spans. */
  function Size(level: nat): (n: nat)
    ensures n > 0
  {
    if level == 0 then MIN_SIZE else TABLE_SIZE * Size(level - 1)
  }

  /** The number of the page of this level that contains `x`. */
  function Num(level: nat, x: nat): nat {
    if level == 0 then x / MIN_SIZE else Num(level - 1, x) / TABLE_SIZE
  }

  function Index(level: nat, x: nat): (i: nat)
    ensures i < TABLE_SIZE
  {
    Num(level, x) % TABLE_SIZE
  }

  /** The code divides by the size. */
  lemma {:induction false} NumIsQuotient(level: nat, x: nat)
    ensures Num(level, x) == x / Size(level)
  {
    if level > 0 {
      NumIsQuotient(level - 1, x);
      Nested(x, Size(level - 1), TABLE_SIZE);
    }
  }

  /** A page of this level starts at `x`. */
  predicate AtPage(level: nat, x: nat) {
    if level == 0 then x % MIN_SIZE == 0 else AtPage(level - 1, x) && Num(level - 1, x) % TABLE_SIZE == 0
  }

  /** The code asks for a multiple of the size. */
  lemma {:induction false} AtPageIsAligned(level: nat, x: nat)
    ensures AtPage(level, x) <==> x % Size(level) == 0
  {
    if level > 0 {
      AtPageIsAligned(level - 1, x);
      NumIsQuotient(level - 1, x);
      NestedMultiple(x, Size(level - 1), TABLE_SIZE);
    }
  }

  /** Addresses have 48 bits. */
  predicate InSpace(x: nat) { x < 0x1_0000_0000_0000 }

  /** These are the addresses that one table of the highest level covers. */
  lemma InSpaceIsRoot(x: nat)
    ensures InSpace(x) <==> Num(4, x) == 0
  {
    NumIsQuotient(4, x);
    assert Size(2) == 0x4000_0000;
    assert Size(4) == 0x1_0000_0000_0000;
  }

  /** Two addresses are in the same page exactly if one table has them in the same slot. */
  lemma SameSlot(level: nat, x: nat, y: nat)
    ensures Num(level, x) == Num(level, y) <==> Num(level + 1, x) == Num(level + 1, y) && Index(level, x) == Index(level, y)
  {
  }

  // ------------------------------------------------------------------- tables

  datatype Entry = Empty | Table(cap: nat) | Page(addr: nat, writable: bool)

  datatype PageMap = PageMap(entries: seq<Entry>)

  function EmptyMap(): (m: PageMap)
    ensures |m.entries| == TABLE_SIZE && forall k :: 0 <= k < TABLE_SIZE ==> m.entries[k] == Empty
  {
    PageMap(seq(TABLE_SIZE, i => Empty))
  }

  datatype Target = Target(addr: nat, writable: bool)

  /** The hardware's walk, from a table of the given level. */
  function WalkFrom(tables: map<nat, PageMap>, cap: nat, level: nat, x: nat): Option<Target>
    decreases level
  {
    if cap !in tables || |tables[cap].entries| != TABLE_SIZE then None
    else
      match tables[cap].entries[Index(level, x)]
      case Empty => None
      case Page(a, w) => Some(Target(a + x % Size(level), w))
      case Table(c) => if level == 0 then None else WalkFrom(tables, c, level - 1, x)
  }

  /** An entry of the mapper's index: where the table begins, its capability and its level. */
  datatype MapInfo = MapInfo(vaddr: nat, cap: nat, level: nat) {
    function Bytes(): nat { Size(level + 1) }

    predicate Aligned() { AtPage(level + 1, vaddr) }

    predicate Contains(x: nat) { vaddr <= x && x < vaddr + Bytes() }

    /** The same as `Contains` for an aligned table, in terms of page numbers. */
    predicate Covers(x: nat) { Num(level + 1, x) == Num(level + 1, vaddr) }
  }

  lemma ContainsIsCovers(e: MapInfo, x: nat)
    requires e.Aligned()
    ensures e.Contains(x) <==> e.Covers(x)
  {
    AtPageIsAligned(e.level + 1, e.vaddr);
    NumIsQuotient(e.level + 1, x);
    NumIsQuotient(e.level + 1, e.vaddr);
    Block(e.vaddr, e.Bytes(), x);
  }

  datatype Space = Space(maps: seq<MapInfo>, tables: map<nat, PageMap>) {
    /** The mapping of addresses that the tables stand for. */
    function Walk(x: nat): Option<Target>
      requires maps != []
    {
      WalkFrom(tables, maps[0].cap, 3, x)
    }

    function Slot(i: nat, x: nat): Entry
      requires i < |maps| && maps[i].cap in tables && |tables[maps[i].cap].entries| == TABLE_SIZE
    {
      tables[maps[i].cap].entries[Index(maps[i].level, x)]
    }

    function Put(i: nat, x: nat, e: Entry): Space
      requires i < |maps| && maps[i].cap in tables && |tables[maps[i].cap].entries| == TABLE_SIZE
    {
      var t := tables[maps[i].cap];
      this.(tables := tables[maps[i].cap := PageMap(t.entries[Index(maps[i].level, x) := e])])
    }

    /** A new, empty table of the level below for the addresses around `x`. */
    function Add(i: nat, x: nat, vaddr: nat, cap: nat): Space
      requires i < |maps| && maps[i].cap in tables && |tables[maps[i].cap].entries| == TABLE_SIZE
      requires maps[i].level > 0 && cap !in tables
    {
      var s := this.(tables := tables[cap := EmptyMap()]).Put(i, x, Table(cap));
      s.(maps := maps + [MapInfo(vaddr, cap, maps[i].level - 1)])
    }
  }

  // ---------------------------------------------------------------- invariant

  /** Every table of the index is aligned and exists, the first is the root, no two are the same, and no two of the
      same level overlap. */
  ghost predicate Shape(s: Space) {
    && |s.maps| > 0 && s.maps[0].vaddr == 0
    && (forall i :: 0 <= i < |s.maps| ==>
          && (if i == 0 then s.maps[i].level == 3 else s.maps[i].level < 3)
          && s.maps[i].cap in s.tables && |s.tables[s.maps[i].cap].entries| == TABLE_SIZE)
    && (forall i {:trigger s.maps[i].Aligned()} :: 0 <= i < |s.maps| ==> s.maps[i].Aligned())
    && (forall i, j :: 0 <= i < j < |s.maps| ==> s.maps[i].cap != s.maps[j].cap)
    && (forall i, j {:trigger s.maps[i].Covers(s.maps[j].vaddr)} ::
          0 <= i < j < |s.maps| && s.maps[i].level == s.maps[j].level ==> !s.maps[i].Covers(s.maps[j].vaddr))
  }

  ghost predicate IsParent(s: Space, j: nat, i: nat) {
    i < |s.maps| && j < |s.maps| && s.maps[j].level == s.maps[i].level + 1 && s.maps[j].Covers(s.maps[i].vaddr)
  }

  /** The slot of a table in its parent. Only a lowest table can have lost its slot, to a large
      page. */
  ghost predicate Attached(s: Space, i: nat)
    requires Shape(s) && i < |s.maps|
  {
    exists j: nat :: IsParent(s, j, i) && s.Slot(j, s.maps[i].vaddr) == Table(s.maps[i].cap)
  }

  ghost predicate Replaced(s: Space, i: nat)
    requires Shape(s) && i < |s.maps|
  {
    s.maps[i].level == 0 && exists j: nat :: IsParent(s, j, i) && s.Slot(j, s.maps[i].vaddr).Page?
  }

  lemma SlotDecides(s: Space, j: nat, i: nat)
    requires Shape(s) && IsParent(s, j, i)
    ensures s.Slot(j, s.maps[i].vaddr) == Table(s.maps[i].cap) ==> Attached(s, i)
    ensures s.maps[i].level == 0 && s.Slot(j, s.maps[i].vaddr).Page? ==> Replaced(s, i)
  {
  }

  ghost predicate Parents(s: Space)
    requires Shape(s)
  {
    forall i: nat {:trigger Attached(s, i)} :: i < |s.maps| && s.maps[i].level < 3 ==> Attached(s, i) || Replaced(s, i)
  }

  lemma ParentOf(s: Space, i: nat) returns (j: nat)
    requires Shape(s) && i < |s.maps| && (Attached(s, i) || Replaced(s, i))
    ensures IsParent(s, j, i)
    ensures Attached(s, i) ==> s.Slot(j, s.maps[i].vaddr) == Table(s.maps[i].cap)
    ensures !Attached(s, i) ==> s.maps[i].level == 0 && s.Slot(j, s.maps[i].vaddr).Page?
  {
    if Attached(s, i) {
      j :| IsParent(s, j, i) && s.Slot(j, s.maps[i].vaddr) == Table(s.maps[i].cap);
    } else {
      j :| IsParent(s, j, i) && s.Slot(j, s.maps[i].vaddr).Page?;
    }
  }

  ghost predicate SlotOk(s: Space, j: nat, k: nat)
    requires Shape(s) && j < |s.maps| && k < TABLE_SIZE
  {
    match s.tables[s.maps[j].cap].entries[k]
    case Empty => true
    case Page(_, _) => s.maps[j].level <= 1
    case Table(c) =>
      exists i: nat :: IsParent(s, j, i) && s.maps[i].cap == c && Index(s.maps[j].level, s.maps[i].vaddr) == k
  }

  lemma ChildAt(s: Space, j: nat, k: nat) returns (i: nat)
    requires Shape(s) && j < |s.maps| && k < TABLE_SIZE && SlotOk(s, j, k) && s.tables[s.maps[j].cap].entries[k].Table?
    ensures IsParent(s, j, i) && s.tables[s.maps[j].cap].entries[k] == Table(s.maps[i].cap)
    ensures Index(s.maps[j].level, s.maps[i].vaddr) == k
  {
    i :| IsParent(s, j, i) && s.maps[i].cap == s.tables[s.maps[j].cap].entries[k].cap
      && Index(s.maps[j].level, s.maps[i].vaddr) == k;
  }

  ghost predicate Slots(s: Space)
    requires Shape(s)
  {
    forall j: nat, k: nat {:trigger SlotOk(s, j, k)} :: j < |s.maps| && k < TABLE_SIZE ==> SlotOk(s, j, k)
  }

  /** The index describes the tables, except that large pages may have replaced some of the
      lowest tables. */
  ghost predicate Indexed(s: Space) {
    Shape(s) && Parents(s) && Slots(s)
  }

  /** At most one table of each level covers an address. */
  lemma OnePerLevel(s: Space, i: nat, j: nat, x: nat)
    requires Shape(s) && i < |s.maps| && j < |s.maps| && s.maps[i].level == s.maps[j].level
    requires s.maps[i].Covers(x) && s.maps[j].Covers(x)
    ensures i == j
  {
    assert s.maps[i].Covers(s.maps[j].vaddr) && s.maps[j].Covers(s.maps[i].vaddr);
  }

  /** What a table covers, its parent covers in the table's slot. */
  lemma ParentCovers(s: Space, j: nat, i: nat, x: nat)
    requires IsParent(s, j, i)
    ensures s.maps[i].Covers(x) <==>
      s.maps[j].Covers(x) && Index(s.maps[j].level, x) == Index(s.maps[j].level, s.maps[i].vaddr)
  {
  }

  /** The root table covers the whole address space. */
  lemma RootCoversAll(s: Space, x: nat)
    requires Shape(s)
    ensures s.maps[0].Covers(x) <==> InSpace(x)
  {
    InSpaceIsRoot(x);
  }

  /** The walk goes through every attached table that covers the address. */
  lemma {:induction false} Reach(s: Space, i: nat, x: nat)
    requires Indexed(s) && i < |s.maps| && s.maps[i].Covers(x) && (s.maps[i].level < 3 ==> Attached(s, i))
    requires InSpace(x)
    ensures s.Walk(x) == WalkFrom(s.tables, s.maps[i].cap, s.maps[i].level, x)
    decreases 3 - s.maps[i].level
  {
    if s.maps[i].level == 3 {
      RootCoversAll(s, x);
      OnePerLevel(s, i, 0, x);
    } else {
      var j := ParentOf(s, i);
      ParentCovers(s, j, i, x);
      Reach(s, j, x);
    }
  }

  /** The walk depends only on the slots of the indexed tables that cover the address. */
  ghost predicate SameSlots(s: Space, tables: map<nat, PageMap>, x: nat)
    requires Shape(s)
  {
    forall j: nat :: j < |s.maps| && s.maps[j].Covers(x) ==>
      && s.maps[j].cap in tables && |tables[s.maps[j].cap].entries| == TABLE_SIZE
      && tables[s.maps[j].cap].entries[Index(s.maps[j].level, x)] == s.Slot(j, x)
  }

  lemma {:induction false} WalkFrame(s: Space, tables: map<nat, PageMap>, j: nat, x: nat)
    requires Indexed(s) && j < |s.maps| && s.maps[j].Covers(x) && SameSlots(s, tables, x)
    ensures WalkFrom(tables, s.maps[j].cap, s.maps[j].level, x) == WalkFrom(s.tables, s.maps[j].cap, s.maps[j].level, x)
    decreases s.maps[j].level
  {
    assert SlotOk(s, j, Index(s.maps[j].level, x));
    if s.Slot(j, x).Table? {
      var i := ChildAt(s, j, Index(s.maps[j].level, x));
      ParentCovers(s, j, i, x);
      WalkFrame(s, tables, i, x);
    }
  }

  // ------------------------------------------------------------- large regions

  /** The lowest table for a region of 2 MiB is in the index. */
  ghost predicate Pml1(s: Space, r: nat) {
    exists i: nat :: i < |s.maps| && s.maps[i].level == 0 && Num(1, s.maps[i].vaddr) == r
  }

  /** The slot of region `r` in a table of level 1 for it holds a page. */
  ghost predicate BigIn(s: Space, j: nat, r: nat)
    requires Shape(s)
  {
    && j < |s.maps| && s.maps[j].level == 1 && Num(2, s.maps[j].vaddr) == r / TABLE_SIZE
    && s.tables[s.maps[j].cap].entries[r % TABLE_SIZE].Page?
  }

  /** The region is mapped by a large page. */
  ghost predicate Big(s: Space, r: nat)
    requires Shape(s)
  {
    exists j: nat :: BigIn(s, j, r)
  }

  /** The index describes the tables and every table is attached. */
  ghost predicate Sound(s: Space) {
    Indexed(s) && forall i: nat {:trigger Attached(s, i)} :: i < |s.maps| && s.maps[i].level < 3 ==> Attached(s, i)
  }

  /** The index with the root table alone. */
  function RootSpace(tables: map<nat, PageMap>, cap: nat): Space {
    Space([MapInfo(0, cap, 3)], tables[cap := EmptyMap()])
  }

  lemma RootIsSound(tables: map<nat, PageMap>, cap: nat)
    ensures Sound(RootSpace(tables, cap)) && forall x :: RootSpace(tables, cap).Walk(x) == None
    ensures forall r: nat :: !Pml1(RootSpace(tables, cap), r) && !Big(RootSpace(tables, cap), r)
  {
    var s := RootSpace(tables, cap);
    AtPageIsAligned(4, 0);
    assert s.maps[0].Aligned();
    assert forall x :: s.tables[cap].entries[Index(3, x)] == Empty;
  }

  // -------------------------------------------------------------- map a page

  lemma PutShape(s: Space, i: nat, x: nat, e: Entry)
    requires Shape(s) && i < |s.maps|
    ensures Shape(s.Put(i, x, e))
    ensures forall j: nat, k: nat :: j < |s.maps| && k < TABLE_SIZE && !(j == i && k == Index(s.maps[i].level, x)) ==>
      s.Put(i, x, e).tables[s.maps[j].cap].entries[k] == s.tables[s.maps[j].cap].entries[k]
    ensures s.Put(i, x, e).tables[s.maps[i].cap].entries[Index(s.maps[i].level, x)] == e
  {
  }

  lemma PutParents(s: Space, i: nat, x: nat, a: nat, w: bool)
    requires Indexed(s) && i < |s.maps| && s.maps[i].level <= 1
    ensures Shape(s.Put(i, x, Page(a, w))) && Parents(s.Put(i, x, Page(a, w)))
  {
    var s' := s.Put(i, x, Page(a, w));
    PutShape(s, i, x, Page(a, w));
    forall c: nat | c < |s'.maps| && s'.maps[c].level < 3
      ensures Attached(s', c) || Replaced(s', c)
    {
      assert Attached(s, c) || Replaced(s, c);
      var j := ParentOf(s, c);
      assert s'.Slot(j, s'.maps[c].vaddr) == s.Slot(j, s.maps[c].vaddr) || (j == i && s'.Slot(j, s'.maps[c].vaddr).Page?);
      SlotDecides(s', j, c);
    }
  }

  lemma PutSlots(s: Space, i: nat, x: nat, a: nat, w: bool)
    requires Indexed(s) && i < |s.maps| && s.maps[i].level <= 1
    ensures Indexed(s.Put(i, x, Page(a, w)))
  {
    var s' := s.Put(i, x, Page(a, w));
    PutShape(s, i, x, Page(a, w));
    PutParents(s, i, x, a, w);
    forall j: nat, k: nat | j < |s'.maps| && k < TABLE_SIZE
      ensures SlotOk(s', j, k)
    {
      assert SlotOk(s, j, k);
      if s'.tables[s'.maps[j].cap].entries[k].Table? {
        var c := ChildAt(s, j, k);
        assert IsParent(s', j, c);
      }
    }
  }

  lemma PutAttached(s: Space, i: nat, x: nat, a: nat, w: bool)
    requires Indexed(s) && i < |s.maps| && s.maps[i].level <= 1 && (s.maps[i].level == 0 ==> Attached(s, i))
    ensures Indexed(s.Put(i, x, Page(a, w))) && Attached(s.Put(i, x, Page(a, w)), i)
  {
    var s' := s.Put(i, x, Page(a, w));
    PutShape(s, i, x, Page(a, w));
    PutSlots(s, i, x, a, w);
    var j := ParentOf(s, i);
    assert IsParent(s', j, i) && s'.Slot(j, s'.maps[i].vaddr) == Table(s'.maps[i].cap);
  }

  lemma PutHere(s: Space, i: nat, x: nat, a: nat, w: bool, y: nat)
    requires Indexed(s) && i < |s.maps| && s.maps[i].level <= 1 && (s.maps[i].level == 0 ==> Attached(s, i))
    requires s.maps[i].Covers(x) && InSpace(y) && Num(s.maps[i].level, y) == Num(s.maps[i].level, x)
    ensures s.Put(i, x, Page(a, w)).Walk(y) == Some(Target(a + y % Size(s.maps[i].level), w))
  {
    PutShape(s, i, x, Page(a, w));
    PutAttached(s, i, x, a, w);
    SameSlot(s.maps[i].level, y, x);
    WalkPage(s.Put(i, x, Page(a, w)).tables, s.maps[i].cap, s.maps[i].level, y, a, w);
    Reach(s.Put(i, x, Page(a, w)), i, y);
  }

  lemma WalkPage(tables: map<nat, PageMap>, cap: nat, level: nat, x: nat, a: nat, w: bool)
    requires cap in tables && |tables[cap].entries| == TABLE_SIZE && tables[cap].entries[Index(level, x)] == Page(a, w)
    ensures WalkFrom(tables, cap, level, x) == Some(Target(a + x % Size(level), w))
  {
  }

  lemma PutElsewhere(s: Space, i: nat, x: nat, a: nat, w: bool, y: nat)
    requires Indexed(s) && i < |s.maps|
    requires s.maps[i].Covers(x) && InSpace(y) && Num(s.maps[i].level, y) != Num(s.maps[i].level, x)
    ensures s.Put(i, x, Page(a, w)).Walk(y) == s.Walk(y)
  {
    var tables := s.Put(i, x, Page(a, w)).tables;
    PutShape(s, i, x, Page(a, w));
    RootCoversAll(s, y);
    forall j: nat | j < |s.maps| && s.maps[j].Covers(y)
      ensures s.maps[j].cap in tables && |tables[s.maps[j].cap].entries| == TABLE_SIZE
      ensures tables[s.maps[j].cap].entries[Index(s.maps[j].level, y)] == s.Slot(j, y)
    {
      if j == i { SameSlot(s.maps[i].level, y, x); }
    }
    WalkFrame(s, tables, 0, y);
  }

  /** Mapping a page changes the addresses of that page and no others. */
  lemma PutWalk(s: Space, i: nat, x: nat, a: nat, w: bool, y: nat)
    requires Indexed(s) && i < |s.maps| && s.maps[i].level <= 1 && (s.maps[i].level == 0 ==> Attached(s, i))
    requires s.maps[i].Covers(x) && InSpace(y)
    ensures s.Put(i, x, Page(a, w)).Walk(y) ==
      if Num(s.maps[i].level, y) == Num(s.maps[i].level, x) then Some(Target(a + y % Size(s.maps[i].level), w)) else s.Walk(y)
  {
    if Num(s.maps[i].level, y) == Num(s.maps[i].level, x) { PutHere(s, i, x, a, w, y); }
    else { PutElsewhere(s, i, x, a, w, y); }
  }

  lemma PutBig(s: Space, i: nat, x: nat, a: nat, w: bool, r: nat)
    requires Indexed(s) && i < |s.maps| && s.maps[i].level <= 1 && s.maps[i].Covers(x)
    ensures Shape(s.Put(i, x, Page(a, w)))
    ensures Big(s.Put(i, x, Page(a, w)), r) <==> Big(s, r) || (s.maps[i].level == 1 && r == Num(1, x))
  {
    var s' := s.Put(i, x, Page(a, w));
    PutShape(s, i, x, Page(a, w));
    if Big(s, r) {
      var j: nat :| BigIn(s, j, r);
      assert BigIn(s', j, r);
    }
    if s.maps[i].level == 1 && r == Num(1, x) {
      assert BigIn(s', i, r);
    }
    if Big(s', r) {
      var j: nat :| BigIn(s', j, r);
      assert BigIn(s, j, r) || (j == i && s.maps[i].level == 1 && r == Num(1, x));
    }
  }

  // ------------------------------------------------------------- add a table

  /** A table for the addresses around `x` is missing below table `j`. */
  ghost predicate Missing(s: Space, j: nat, x: nat, vaddr: nat, cap: nat) {
    && Indexed(s) && j < |s.maps| && s.maps[j].level > 0 && s.maps[j].Covers(x) && cap !in s.tables
    && AtPage(s.maps[j].level, vaddr) && Num(s.maps[j].level, vaddr) == Num(s.maps[j].level, x)
    && forall i: nat :: i < |s.maps| && s.maps[i].level == s.maps[j].level - 1 ==> !s.maps[i].Covers(x)
  }

  lemma FreeSlot(s: Space, j: nat, x: nat, vaddr: nat, cap: nat)
    requires Missing(s, j, x, vaddr, cap)
    ensures !s.Slot(j, x).Table? && (s.maps[j].level > 1 ==> s.Slot(j, x) == Empty)
  {
    assert SlotOk(s, j, Index(s.maps[j].level, x));
    if s.Slot(j, x).Table? {
      var i := ChildAt(s, j, Index(s.maps[j].level, x));
      ParentCovers(s, j, i, x);
    }
  }

  lemma AddShape(s: Space, j: nat, x: nat, vaddr: nat, cap: nat)
    requires Missing(s, j, x, vaddr, cap)
    ensures Shape(s.Add(j, x, vaddr, cap))
    ensures IsParent(s.Add(j, x, vaddr, cap), j, |s.maps|)
    ensures s.Add(j, x, vaddr, cap).Slot(j, vaddr) == Table(cap)
    ensures forall c: nat, k: nat :: c < |s.maps| && k < TABLE_SIZE && !(c == j && k == Index(s.maps[j].level, x)) ==>
      s.Add(j, x, vaddr, cap).tables[s.maps[c].cap].entries[k] == s.tables[s.maps[c].cap].entries[k]
  {
  }

  lemma AddParents(s: Space, j: nat, x: nat, vaddr: nat, cap: nat)
    requires Missing(s, j, x, vaddr, cap)
    ensures Shape(s.Add(j, x, vaddr, cap)) && Parents(s.Add(j, x, vaddr, cap))
    ensures Attached(s.Add(j, x, vaddr, cap), |s.maps|)
    ensures forall c: nat :: c < |s.maps| && Attached(s, c) ==> Attached(s.Add(j, x, vaddr, cap), c)
  {
    var s' := s.Add(j, x, vaddr, cap);
    AddShape(s, j, x, vaddr, cap);
    FreeSlot(s, j, x, vaddr, cap);
    forall c: nat | c < |s.maps| && s.maps[c].level < 3
      ensures Attached(s, c) ==> Attached(s', c)
      ensures Attached(s', c) || Replaced(s', c)
    {
      assert Attached(s, c) || Replaced(s, c);
      var p := ParentOf(s, c);
      ParentCovers(s, p, c, x);
      assert s'.Slot(p, s'.maps[c].vaddr) == s.Slot(p, s.maps[c].vaddr);
      SlotDecides(s', p, c);
    }
  }

  lemma AddSlots(s: Space, j: nat, x: nat, vaddr: nat, cap: nat)
    requires Missing(s, j, x, vaddr, cap)
    ensures Indexed(s.Add(j, x, vaddr, cap))
  {
    var s' := s.Add(j, x, vaddr, cap);
    AddShape(s, j, x, vaddr, cap);
    AddParents(s, j, x, vaddr, cap);
    SameSlot(s.maps[j].level, x, vaddr);
    forall c: nat, k: nat | c < |s'.maps| && k < TABLE_SIZE
      ensures SlotOk(s', c, k)
    {
      if c < |s.maps| && !(c == j && k == Index(s.maps[j].level, x)) {
        assert SlotOk(s, c, k);
        if s'.tables[s'.maps[c].cap].entries[k].Table? {
          var i := ChildAt(s, c, k);
          assert IsParent(s', c, i);
        }
      }
    }
  }

  /** A new table hides the large page that was in its slot; it changes nothing else. */
  lemma AddWalk(s: Space, j: nat, x: nat, vaddr: nat, cap: nat, y: nat)
    requires Missing(s, j, x, vaddr, cap) && InSpace(y)
    ensures s.Add(j, x, vaddr, cap).Walk(y) ==
      if s.maps[j].level == 1 && Num(1, y) == Num(1, x) then None else s.Walk(y)
  {
    var s' := s.Add(j, x, vaddr, cap);
    AddShape(s, j, x, vaddr, cap);
    SameSlot(s.maps[j].level, y, x);
    SameSlot(s.maps[j].level, y, vaddr);
    if Num(s.maps[j].level, y) == Num(s.maps[j].level, x) {
      AddParents(s, j, x, vaddr, cap);
      AddSlots(s, j, x, vaddr, cap);
      Reach(s', |s.maps|, y);
      if s.maps[j].level > 1 {
        FreeSlot(s, j, x, vaddr, cap);
        assert s.maps[j].level < 3 ==> Attached(s, j);
        Reach(s, j, y);
      }
    } else {
      RootCoversAll(s, y);
      assert SameSlots(s, s'.tables, y);
      WalkFrame(s, s'.tables, 0, y);
    }
  }

  lemma AddPml1(s: Space, j: nat, x: nat, vaddr: nat, cap: nat, r: nat)
    requires Missing(s, j, x, vaddr, cap)
    ensures Pml1(s.Add(j, x, vaddr, cap), r) <==> Pml1(s, r) || (s.maps[j].level == 1 && r == Num(1, x))
  {
    var s' := s.Add(j, x, vaddr, cap);
    assert s'.maps[|s.maps|] == MapInfo(vaddr, cap, s.maps[j].level - 1);
    if Pml1(s, r) {
      var i: nat :| i < |s.maps| && s.maps[i].level == 0 && Num(1, s.maps[i].vaddr) == r;
      assert s'.maps[i] == s.maps[i];
    }
  }

  lemma AddBigIn(s: Space, j: nat, x: nat, vaddr: nat, cap: nat, i: nat, r: nat)
    requires Missing(s, j, x, vaddr, cap)
    ensures Shape(s.Add(j, x, vaddr, cap))
    ensures BigIn(s.Add(j, x, vaddr, cap), i, r) <==> BigIn(s, i, r) && !(s.maps[j].level == 1 && r == Num(1, x))
  {
    var s' := s.Add(j, x, vaddr, cap);
    AddShape(s, j, x, vaddr, cap);
    if i < |s.maps| && s.maps[i].level == 1 && Num(2, s.maps[i].vaddr) == r / TABLE_SIZE {
      if s.maps[j].level == 1 && r == Num(1, x) { OnePerLevel(s, i, j, x); }
      assert i == j && r % TABLE_SIZE == Index(1, x) ==> r == Num(1, x);
    }
  }

  lemma AddRegions(s: Space, j: nat, x: nat, vaddr: nat, cap: nat, r: nat)
    requires Missing(s, j, x, vaddr, cap)
    ensures Shape(s.Add(j, x, vaddr, cap))
    ensures Pml1(s.Add(j, x, vaddr, cap), r) <==> Pml1(s, r) || (s.maps[j].level == 1 && r == Num(1, x))
    ensures Big(s.Add(j, x, vaddr, cap), r) <==> Big(s, r) && !(s.maps[j].level == 1 && r == Num(1, x))
  {
    AddShape(s, j, x, vaddr, cap);
    AddPml1(s, j, x, vaddr, cap, r);
    forall i: nat
      ensures BigIn(s.Add(j, x, vaddr, cap), i, r) <==> BigIn(s, i, r) && !(s.maps[j].level == 1 && r == Num(1, x))
    {
      AddBigIn(s, j, x, vaddr, cap, i, r);
    }
  }

  // ------------------------------------------------------- facts for the mapper

  /** A lowest table lost its slot exactly where a large page is. */
  lemma SoundIffNoneReplaced(s: Space)
    requires Indexed(s)
    ensures Sound(s) <==> forall r: nat :: !(Pml1(s, r) && Big(s, r))
  {
    if Sound(s) {
      forall r: nat | Pml1(s, r)
        ensures !Big(s, r)
      {
        var i: nat :| i < |s.maps| && s.maps[i].level == 0 && Num(1, s.maps[i].vaddr) == r;
        AttachedNotBig(s, i);
      }
    } else {
      var i: nat :| i < |s.maps| && s.maps[i].level < 3 && !Attached(s, i);
      ReplacedIsBig(s, i);
      assert Pml1(s, Num(1, s.maps[i].vaddr));
    }
  }

  lemma ReplacedIsBig(s: Space, i: nat)
    requires Indexed(s) && i < |s.maps| && s.maps[i].level < 3 && !Attached(s, i)
    ensures s.maps[i].level == 0 && Big(s, Num(1, s.maps[i].vaddr))
  {
    assert Replaced(s, i);
    var j := ParentOf(s, i);
    assert BigIn(s, j, Num(1, s.maps[i].vaddr));
  }

  lemma AttachedNotBig(s: Space, i: nat)
    requires Indexed(s) && i < |s.maps| && s.maps[i].level == 0 && Attached(s, i)
    ensures !Big(s, Num(1, s.maps[i].vaddr))
  {
    var x := s.maps[i].vaddr;
    var r := Num(1, x);
    var j := ParentOf(s, i);
    if Big(s, r) {
      var k: nat :| BigIn(s, k, r);
      OnePerLevel(s, j, k, x);
    }
  }

  lemma AttachedIffNotBig(s: Space, i: nat)
    requires Indexed(s) && i < |s.maps| && s.maps[i].level == 0
    ensures Attached(s, i) <==> !Big(s, Num(1, s.maps[i].vaddr))
  {
    if Attached(s, i) { AttachedNotBig(s, i); } else { ReplacedIsBig(s, i); }
  }

  /** Nothing is mapped where there is neither a lowest table nor a large page. */
  lemma {:induction false} Unmapped(s: Space, j: nat, x: nat)
    requires Indexed(s) && j < |s.maps| && s.maps[j].level > 0 && s.maps[j].Covers(x)
    requires !Pml1(s, Num(1, x)) && !Big(s, Num(1, x))
    ensures WalkFrom(s.tables, s.maps[j].cap, s.maps[j].level, x) == None
    decreases s.maps[j].level
  {
    assert SlotOk(s, j, Index(s.maps[j].level, x));
    assert !BigIn(s, j, Num(1, x));
    if s.Slot(j, x).Table? {
      var i := ChildAt(s, j, Index(s.maps[j].level, x));
      ParentCovers(s, j, i, x);
      Unmapped(s, i, x);
    }
  }

  /** A table that nobody refers to does not matter. */
  lemma ExtraTable(s: Space, cap: nat, m: PageMap)
    requires Indexed(s) && cap !in s.tables
    ensures Indexed(s.(tables := s.tables[cap := m]))
    ensures forall x: nat :: InSpace(x) ==> s.(tables := s.tables[cap := m]).Walk(x) == s.Walk(x)
  {
    var s' := s.(tables := s.tables[cap := m]);
    assert Shape(s');
    forall i: nat | i < |s'.maps| && s'.maps[i].level < 3
      ensures Attached(s', i) || Replaced(s', i)
    {
      assert Attached(s, i) || Replaced(s, i);
      var j := ParentOf(s, i);
      assert s'.Slot(j, s'.maps[i].vaddr) == s.Slot(j, s.maps[i].vaddr);
      SlotDecides(s', j, i);
    }
    forall j: nat, k: nat | j < |s'.maps| && k < TABLE_SIZE
      ensures SlotOk(s', j, k)
    {
      assert SlotOk(s, j, k);
      if s.tables[s.maps[j].cap].entries[k].Table? {
        var i := ChildAt(s, j, k);
        assert IsParent(s', j, i);
      }
    }
    forall x: nat | InSpace(x)
      ensures s'.Walk(x) == s.Walk(x)
    {
      RootCoversAll(s, x);
      assert SameSlots(s, s'.tables, x);
      WalkFrame(s, s'.tables, 0, x);
    }
  }

  lemma ExtraBig(s: Space, cap: nat, m: PageMap, r: nat)
    requires Shape(s) && cap !in s.tables
    ensures Shape(s.(tables := s.tables[cap := m]))
    ensures Big(s.(tables := s.tables[cap := m]), r) <==> Big(s, r)
  {
    var s' := s.(tables := s.tables[cap := m]);
    if Big(s, r) {
      var j: nat :| BigIn(s, j, r);
      assert BigIn(s', j, r);
    }
    if Big(s', r) {
      var j: nat :| BigIn(s', j, r);
      assert BigIn(s, j, r);
    }
  }

  lemma {:induction false} DetachedFrom(s: Space, i: nat, x: nat, e: Entry, j: nat, y: nat)
    requires Indexed(s) && i < |s.maps| && !Attached(s, i) && j < |s.maps| && j != i && s.maps[j].Covers(y)
    ensures WalkFrom(s.Put(i, x, e).tables, s.maps[j].cap, s.maps[j].level, y) ==
      WalkFrom(s.tables, s.maps[j].cap, s.maps[j].level, y)
    decreases s.maps[j].level
  {
    PutShape(s, i, x, e);
    assert SlotOk(s, j, Index(s.maps[j].level, y));
    if s.Slot(j, y).Table? {
      var k := ChildAt(s, j, Index(s.maps[j].level, y));
      ParentCovers(s, j, k, y);
      SlotDecides(s, j, k);
      DetachedFrom(s, i, x, e, k, y);
    }
  }

  /** What is entered in a table that lost its slot has no effect at all. */
  lemma DetachedTable(s: Space, i: nat, x: nat, e: Entry, y: nat)
    requires Indexed(s) && i < |s.maps| && s.maps[i].level < 3 && !Attached(s, i) && InSpace(y)
    ensures s.Put(i, x, e).Walk(y) == s.Walk(y)
  {
    RootCoversAll(s, y);
    DetachedFrom(s, i, x, e, 0, y);
  }

  lemma StaysDetached(s: Space, i: nat, x: nat, e: Entry)
    requires Shape(s) && i < |s.maps| && !Attached(s, i)
    ensures Shape(s.Put(i, x, e)) && !Attached(s.Put(i, x, e), i)
  {
    var s' := s.Put(i, x, e);
    PutShape(s, i, x, e);
    if Attached(s', i) {
      var j: nat :| IsParent(s', j, i) && s'.Slot(j, s'.maps[i].vaddr) == Table(s'.maps[i].cap);
      SlotDecides(s, j, i);
      assert false;
    }
  }

  lemma {:induction false} CoveredIsInSpace(s: Space, i: nat, x: nat)
    requires Indexed(s) && i < |s.maps| && s.maps[i].Covers(x) && (s.maps[i].level < 3 ==> Attached(s, i))
    ensures InSpace(x)
    decreases 3 - s.maps[i].level
  {
    if s.maps[i].level == 3 {
      RootCoversAll(s, x);
    } else {
      var j := ParentOf(s, i);
      ParentCovers(s, j, i, x);
      assert s.maps[j].level < 3 ==> Attached(s, j);
      CoveredIsInSpace(s, j, x);
    }
  }

  /** A large page maps all addresses of its region. */
  lemma BigIsMapped(s: Space, x: nat)
    requires Indexed(s) && Big(s, Num(1, x))
    ensures InSpace(x) && s.Walk(x).Some?
  {
    var r := Num(1, x);
    var j: nat :| BigIn(s, j, r);
    assert Attached(s, j);
    CoveredIsInSpace(s, j, x);
    Reach(s, j, x);
    var e := s.tables[s.maps[j].cap].entries[r % TABLE_SIZE];
    WalkPage(s.tables, s.maps[j].cap, 1, x, e.addr, e.writable);
  }
}
