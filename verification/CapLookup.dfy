/** Lookup of capability pointers in a graph of capability maps. A map strips its guard and
    then an index from the top of the pointer; the graph may have cycles. */
module CapLookup {
  import opened Arithmetic

  const PTR_BITS := 32
  const PTR_SPACE := 0x1_0000_0000

  /** The entry holds a map capability with its data word, or anything else. */
  datatype Entry = MapCap(id: nat, data: bv32) | OtherCap

  datatype CapMap = CapMap(indexbits: nat, guardbits: nat, guard: nat, entries: seq<Entry>) {
    function Width(): nat { guardbits + indexbits }
  }

  type Maps = map<nat, CapMap>

  /** `UNDEFINED` is a shift by the whole width of a pointer, for which C++ gives no result. */
  datatype Error = NO_LOOKUP | INVALID_CAPABILITY | TYPE_MISMATCH | UNDEFINED

  datatype Result = Found(id: nat, index: nat) | Failed(error: Error)

  // --------------------------------------------------------------- bit strings

  /** `x` times two to the `k`. */
  function Up(x: nat, k: nat): nat
    decreases k
  {
    if k == 0 then x else Up(2 * x, k - 1)
  }

  function ShiftRight(x: nat, k: nat): nat { if k == 0 then x else ShiftRight(x / 2, k - 1) }

  function ShiftLeft(x: nat, k: nat): nat { Up(x, k) % PTR_SPACE }

  predicate IsPtr(x: nat) { x < PTR_SPACE }

  /** The top `depth` bits of a pointer, with zeros after its last bit. */
  function Top(ptr: nat, depth: nat): nat {
    if depth <= PTR_BITS then ShiftRight(ptr, PTR_BITS - depth) else Up(ptr, depth - PTR_BITS)
  }

  lemma {:induction false} UpIs(x: nat, k: nat)
    ensures Up(x, k) == Pow2(k) * x
    decreases k
  {
    if k > 0 {
      UpIs(2 * x, k - 1);
      Assoc(Pow2(k - 1), 2, x);
    }
  }

  lemma PtrSpaceIs()
    ensures Pow2(PTR_BITS) == PTR_SPACE
  {
    assert Pow2(8) == 256;
    Pow2Add(8, 8);
    Pow2Add(16, 16);
  }

  lemma {:induction false} ShiftRightIs(x: nat, k: nat)
    ensures ShiftRight(x, k) == x / Pow2(k)
  {
    if k > 0 {
      ShiftRightIs(x / 2, k - 1);
      Nested(x, 2, Pow2(k - 1));
    }
  }

  lemma TopIs(ptr: nat, depth: nat)
    requires depth <= PTR_BITS
    ensures Top(ptr, depth) == ptr / Pow2(PTR_BITS - depth)
  {
    ShiftRightIs(ptr, PTR_BITS - depth);
  }

  /** Shifting left drops the top bits and moves up what is left. */
  lemma ShiftLeftIs(x: nat, k: nat)
    requires k <= PTR_BITS
    ensures ShiftLeft(x, k) == (x % Pow2(PTR_BITS - k)) * Pow2(k)
  {
    UpIs(x, k);
    PtrSpaceIs();
    Pow2Add(PTR_BITS - k, k);
    ScaledRemainder(x, Pow2(PTR_BITS - k), Pow2(k), Up(x, k), PTR_SPACE);
  }

  /** The index is the digit below the guard. */
  lemma StripIndex(ptr: nat, guardbits: nat, indexbits: nat)
    requires guardbits + indexbits <= PTR_BITS
    ensures ShiftRight(ShiftLeft(ptr, guardbits), PTR_BITS - indexbits) == Top(ptr, guardbits + indexbits) % Pow2(indexbits)
  {
    var w := guardbits + indexbits;
    var a, b, g := Pow2(PTR_BITS - w), Pow2(indexbits), Pow2(guardbits);
    Pow2Add(PTR_BITS - w, indexbits);
    Pow2Add(PTR_BITS - w, guardbits);
    ShiftLeftIs(ptr, guardbits);
    ShiftRightIs(ShiftLeft(ptr, guardbits), PTR_BITS - indexbits);
    TopIs(ptr, w);
    ScaleDown(ptr % (a * b), a, g);
    Nested(ptr, a, b);
  }

  /** Two shifts are one. */
  lemma StripRest(ptr: nat, guardbits: nat, indexbits: nat)
    requires guardbits + indexbits <= PTR_BITS
    ensures ShiftLeft(ShiftLeft(ptr, guardbits), indexbits) == ShiftLeft(ptr, guardbits + indexbits)
  {
    var w := guardbits + indexbits;
    var a, b, g := Pow2(PTR_BITS - w), Pow2(indexbits), Pow2(guardbits);
    Pow2Add(PTR_BITS - w, indexbits);
    Pow2Add(PTR_BITS - w, guardbits);
    Pow2Add(guardbits, indexbits);
    ShiftLeftIs(ptr, guardbits);
    var x := ptr % (a * b);
    ShiftLeftIs(x * g, indexbits);
    ShiftLeftIs(ptr, w);
    ScaleDown(x, a, g);
    Nested(ptr, a, b);
    Assoc(x % a, g, b);
  }

  lemma StripTop(ptr: nat, guardbits: nat, indexbits: nat)
    requires guardbits + indexbits <= PTR_BITS
    ensures Top(ptr, guardbits) == Top(ptr, guardbits + indexbits) / Pow2(indexbits)
  {
    var w := guardbits + indexbits;
    Pow2Add(PTR_BITS - w, indexbits);
    TopIs(ptr, guardbits);
    TopIs(ptr, w);
    Nested(ptr, Pow2(PTR_BITS - w), Pow2(indexbits));
  }

  /** What a map strips, in terms of the digits of the pointer. */
  lemma Strip(ptr: nat, guardbits: nat, indexbits: nat)
    requires IsPtr(ptr) && guardbits + indexbits <= PTR_BITS
    ensures
      var index := ShiftRight(ShiftLeft(ptr, guardbits), PTR_BITS - indexbits);
      && index < Pow2(indexbits)
      && Top(ptr, guardbits + indexbits) == Up(Top(ptr, guardbits), indexbits) + index
      && ShiftLeft(ShiftLeft(ptr, guardbits), indexbits) == ShiftLeft(ptr, guardbits + indexbits)
  {
    StripIndex(ptr, guardbits, indexbits);
    StripRest(ptr, guardbits, indexbits);
    StripTop(ptr, guardbits, indexbits);
    UpIs(Top(ptr, guardbits), indexbits);
    var q, r := Digits(Top(ptr, guardbits + indexbits), Pow2(indexbits));
  }

  lemma TopInside(ptr: nat, w: nat, depth: nat)
    requires IsPtr(ptr) && w <= depth <= PTR_BITS
    ensures
      var rest := ShiftLeft(ptr, w);
      && Top(rest, depth - w) < Pow2(depth - w)
      && Top(ptr, depth) == Up(Top(ptr, w), depth - w) + Top(rest, depth - w)
  {
    Pow2Add(PTR_BITS - depth, depth - w);
    Pow2Add(PTR_BITS - depth, w);
    ShiftLeftIs(ptr, w);
    TopIs(ptr, w);
    TopIs(ptr, depth);
    TopIs(ShiftLeft(ptr, w), depth - w);
    UpIs(Top(ptr, w), depth - w);
    MiddleDigit(ptr, Pow2(PTR_BITS - depth), Pow2(depth - w), Pow2(w));
  }

  /** Beyond the last bit of the pointer, the rest is followed by the same zeros. */
  lemma RestBeyond(low: nat, w: nat, more: nat)
    requires w <= PTR_BITS
    ensures Top(low * Pow2(w), PTR_BITS + more - w) == low * Pow2(more)
  {
    if more > w {
      assert Top(low * Pow2(w), PTR_BITS + more - w) == Pow2(more - w) * (low * Pow2(w)) by { UpIs(low * Pow2(w), more - w); }
      assert Pow2(more) == Pow2(w) * Pow2(more - w) by { Pow2Add(w, more - w); }
      Rotate(low, Pow2(w), Pow2(more - w));
    } else {
      assert Top(low * Pow2(w), PTR_BITS + more - w) == (low * Pow2(w)) / Pow2(w - more) by {
        TopIs(low * Pow2(w), PTR_BITS + more - w);
      }
      assert Pow2(w) == Pow2(more) * Pow2(w - more) by { Pow2Add(more, w - more); }
      ExactQuotient(low, Pow2(more), Pow2(w - more));
    }
  }

  lemma TopBeyond(ptr: nat, w: nat, more: nat)
    requires IsPtr(ptr) && w <= PTR_BITS && more > 0
    ensures
      var rest, n := ShiftLeft(ptr, w), PTR_BITS + more - w;
      Top(rest, n) < Pow2(n) && Top(ptr, PTR_BITS + more) == Up(Top(ptr, w), n) + Top(rest, n)
  {
    var p, q, n := Pow2(PTR_BITS - w), Pow2(more), PTR_BITS + more - w;
    var high, low := Digits(ptr, p);
    assert Top(ShiftLeft(ptr, w), n) == low * q by {
      ShiftLeftIs(ptr, w);
      RestBeyond(low, w, more);
    }
    assert Pow2(n) == p * q by { Pow2Add(PTR_BITS - w, more); }
    assert Top(ptr, w) == high by { TopIs(ptr, w); }
    assert Up(high, n) == (p * q) * high by { UpIs(high, n); }
    assert Top(ptr, PTR_BITS + more) == q * ptr by { UpIs(ptr, more); }
    Below(low, p, q);
    ScaleDigits(p, high, low, q);
  }

  /** The top bits of a pointer are those that are stripped followed by the top bits of the rest. */
  lemma TopOfRest(ptr: nat, w: nat, depth: nat)
    requires IsPtr(ptr) && w <= depth && w <= PTR_BITS
    ensures
      var rest := ShiftLeft(ptr, w);
      && Top(rest, depth - w) < Pow2(depth - w)
      && Top(ptr, depth) == Up(Top(ptr, w), depth - w) + Top(rest, depth - w)
  {
    if depth <= PTR_BITS { TopInside(ptr, w, depth); } else { TopBeyond(ptr, w, depth - PTR_BITS); }
  }

  lemma TopFits(ptr: nat, k: nat)
    requires IsPtr(ptr) && k <= PTR_BITS
    ensures Top(ptr, k) < Pow2(k)
  {
    PtrSpaceIs();
    Pow2Add(PTR_BITS - k, k);
    TopIs(ptr, k);
    QuotientBelow(ptr, Pow2(PTR_BITS - k), Pow2(k));
  }

  /** Numbers below two to the `k` are the last digit. */
  lemma SameDigits(k: nat, q: nat, r: nat, q': nat, r': nat)
    requires r < Pow2(k) && r' < Pow2(k) && Up(q, k) + r == Up(q', k) + r'
    ensures q == q' && r == r'
  {
    UpIs(q, k);
    UpIs(q', k);
    UniqueDigits(Pow2(k), q, r, q', r');
  }

  lemma FirstFits(high: nat, low: nat, a: nat, b: nat)
    requires high < Pow2(a) && low < Pow2(b)
    ensures Up(high, b) + low < Pow2(a + b)
  {
    UpIs(high, b);
    Pow2Add(a, b);
    Below(high, Pow2(a), Pow2(b));
  }

  /** What the constructor makes: as many entries as the index can address, and together with
      the guard not wider than a pointer. */
  ghost predicate WellFormed(maps: Maps) {
    forall m :: m in maps ==>
      && maps[m].Width() <= PTR_BITS && |maps[m].entries| == Pow2(maps[m].indexbits)
  }

  // ------------------------------------------------------------------- lookup

  /** The index that a map strips from a pointer, and the pointer that is left. */
  function IndexOf(m: CapMap, ptr: nat): nat
    requires m.Width() <= PTR_BITS
  {
    ShiftRight(ShiftLeft(ptr, m.guardbits), PTR_BITS - m.indexbits)
  }

  function RestOf(m: CapMap, ptr: nat): nat { ShiftLeft(ShiftLeft(ptr, m.guardbits), m.indexbits) }

  predicate Writable(data: bv32) { data & 1 == 1 }

  /** The recursion ends on every graph because each map consumes some of the depth, and the
      index is always one of an existing entry. */
  function Lookup(maps: Maps, id: nat, data: bv32, ptr: nat, depth: nat, writable: bool): (r: Result)
    requires WellFormed(maps) && id in maps && IsPtr(ptr)
    ensures r.Found? ==> r.id in maps && r.index < |maps[r.id].entries|
    decreases depth
  {
    var m := maps[id];
    if writable && !Writable(data) then Failed(NO_LOOKUP)
    else if depth < m.Width() then Failed(INVALID_CAPABILITY)
    else if m.guardbits == 0 || m.indexbits == 0 then Failed(UNDEFINED)
    else if ShiftRight(ptr, PTR_BITS - m.guardbits) != m.guard then Failed(INVALID_CAPABILITY)
    else
      var index := IndexOf(m, ptr);
      var depth' := depth - m.Width();
      Strip(ptr, m.guardbits, m.indexbits);
      if depth' == 0 then Found(id, index)
      else
        match m.entries[index]
        case OtherCap => Failed(TYPE_MISMATCH)
        case MapCap(sub, subData) =>
          if sub !in maps then Failed(TYPE_MISMATCH) else Lookup(maps, sub, subData, RestOf(m, ptr), depth', writable)
  }

  // ------------------------------------------------------- what lookup depends on

  lemma SameTop(m: CapMap, ptr: nat, ptr': nat, depth: nat)
    requires IsPtr(ptr) && IsPtr(ptr') && m.Width() <= depth && m.Width() <= PTR_BITS && Top(ptr, depth) == Top(ptr', depth)
    ensures Top(ptr, m.guardbits) == Top(ptr', m.guardbits) && IndexOf(m, ptr) == IndexOf(m, ptr')
    ensures Top(RestOf(m, ptr), depth - m.Width()) == Top(RestOf(m, ptr'), depth - m.Width())
  {
    var w := m.Width();
    TopOfRest(ptr, w, depth);
    TopOfRest(ptr', w, depth);
    Strip(ptr, m.guardbits, m.indexbits);
    Strip(ptr', m.guardbits, m.indexbits);
    SameDigits(depth - w, Top(ptr, w), Top(RestOf(m, ptr), depth - w), Top(ptr', w), Top(RestOf(m, ptr'), depth - w));
    SameDigits(m.indexbits, Top(ptr, m.guardbits), IndexOf(m, ptr), Top(ptr', m.guardbits), IndexOf(m, ptr'));
  }

  /** Lookup looks at no more than the top `depth` bits. */
  lemma {:induction false} DependsOnTop(maps: Maps, id: nat, data: bv32, ptr: nat, ptr': nat, depth: nat, writable: bool)
    requires WellFormed(maps) && id in maps && IsPtr(ptr) && IsPtr(ptr')
    requires Top(ptr, depth) == Top(ptr', depth)
    ensures Lookup(maps, id, data, ptr, depth, writable) == Lookup(maps, id, data, ptr', depth, writable)
    decreases depth
  {
    var m := maps[id];
    if m.Width() <= depth && m.guardbits > 0 && m.indexbits > 0 {
      SameTop(m, ptr, ptr', depth);
      Strip(ptr, m.guardbits, m.indexbits);
      Strip(ptr', m.guardbits, m.indexbits);
      var e := m.entries[IndexOf(m, ptr)];
      if e.MapCap? && e.id in maps {
        DependsOnTop(maps, e.id, e.data, RestOf(m, ptr), RestOf(m, ptr'), depth - m.Width(), writable);
      }
    }
  }

  // --------------------------------------------------------------------- paths

  /** The indices `path` lead from map `id` to entry `index` of map `target`. */
  ghost predicate IsPath(maps: Maps, id: nat, path: seq<nat>, target: nat, index: nat)
    decreases |path|
  {
    && id in maps && path != [] && path[0] < |maps[id].entries|
    && maps[id].guardbits > 0 && maps[id].indexbits > 0 && maps[id].guard < Pow2(maps[id].guardbits)
    && if |path| == 1 then target == id && index == path[0]
       else maps[id].entries[path[0]].MapCap? && IsPath(maps, maps[id].entries[path[0]].id, path[1..], target, index)
  }

  /** Every map capability on the way has the writable bit. */
  ghost predicate AllWritable(maps: Maps, id: nat, data: bv32, path: seq<nat>, target: nat, index: nat)
    requires IsPath(maps, id, path, target, index)
    decreases |path|
  {
    && Writable(data)
    && (|path| > 1 ==>
          var e := maps[id].entries[path[0]];
          AllWritable(maps, e.id, e.data, path[1..], target, index))
  }

  /** The number of bits that address the path. */
  ghost function Depth(maps: Maps, id: nat, path: seq<nat>, target: nat, index: nat): nat
    requires IsPath(maps, id, path, target, index)
    decreases |path|
  {
    maps[id].Width() + if |path| == 1 then 0 else Depth(maps, maps[id].entries[path[0]].id, path[1..], target, index)
  }

  /** These bits: the guard and the index of each map, one after the other. */
  ghost function Bits(maps: Maps, id: nat, path: seq<nat>, target: nat, index: nat): nat
    requires IsPath(maps, id, path, target, index)
    decreases |path|
  {
    var first := Up(maps[id].guard, maps[id].indexbits) + path[0];
    if |path| == 1 then first
    else
      var sub := maps[id].entries[path[0]].id;
      Up(first, Depth(maps, sub, path[1..], target, index)) + Bits(maps, sub, path[1..], target, index)
  }

  lemma {:induction false} BitsFit(maps: Maps, id: nat, path: seq<nat>, target: nat, index: nat)
    requires WellFormed(maps) && IsPath(maps, id, path, target, index)
    ensures Bits(maps, id, path, target, index) < Pow2(Depth(maps, id, path, target, index))
    decreases |path|
  {
    var m := maps[id];
    FirstFits(m.guard, path[0], m.guardbits, m.indexbits);
    if |path| > 1 {
      var sub, first := m.entries[path[0]].id, Up(m.guard, m.indexbits) + path[0];
      BitsFit(maps, sub, path[1..], target, index);
      var bits, d := Bits(maps, sub, path[1..], target, index), Depth(maps, sub, path[1..], target, index);
      FirstFits(first, bits, m.Width(), d);
      assert Bits(maps, id, path, target, index) == Up(first, d) + bits;
    }
  }

  lemma RestTop(m: CapMap, ptr: nat, depth: nat)
    requires IsPtr(ptr) && m.Width() <= depth && m.Width() <= PTR_BITS
    ensures IsPtr(RestOf(m, ptr)) && Top(RestOf(m, ptr), depth - m.Width()) < Pow2(depth - m.Width())
    ensures Top(ptr, depth) == Up(Top(ptr, m.Width()), depth - m.Width()) + Top(RestOf(m, ptr), depth - m.Width())
  {
    Strip(ptr, m.guardbits, m.indexbits);
    TopOfRest(ptr, m.Width(), depth);
  }

  /** The first map strips the first index of the path. */
  lemma FirstIndex(m: CapMap, ptr: nat, i: nat)
    requires IsPtr(ptr) && m.Width() <= PTR_BITS && i < Pow2(m.indexbits)
    requires Top(ptr, m.Width()) == Up(m.guard, m.indexbits) + i
    ensures Top(ptr, m.guardbits) == m.guard && IndexOf(m, ptr) == i
  {
    Strip(ptr, m.guardbits, m.indexbits);
    SameDigits(m.indexbits, Top(ptr, m.guardbits), IndexOf(m, ptr), m.guard, i);
  }

  lemma FirstAndRest(m: CapMap, ptr: nat, depth: nat, i: nat, first: nat, bits: nat)
    requires IsPtr(ptr) && m.Width() <= depth && m.Width() <= PTR_BITS
    requires i < Pow2(m.indexbits) && bits < Pow2(depth - m.Width())
    requires first == Up(m.guard, m.indexbits) + i && Top(ptr, depth) == Up(first, depth - m.Width()) + bits
    ensures Top(ptr, m.guardbits) == m.guard && IndexOf(m, ptr) == i
    ensures IsPtr(RestOf(m, ptr)) && Top(RestOf(m, ptr), depth - m.Width()) == bits
  {
    RestTop(m, ptr, depth);
    SameDigits(depth - m.Width(), Top(ptr, m.Width()), Top(RestOf(m, ptr), depth - m.Width()), first, bits);
    FirstIndex(m, ptr, i);
  }

  lemma DepthPositive(maps: Maps, id: nat, path: seq<nat>, target: nat, index: nat)
    requires IsPath(maps, id, path, target, index)
    ensures Depth(maps, id, path, target, index) > 0
  {
  }

  /** A pointer with these bits on top is resolved along the path, unless a map capability on
      the way does not allow writing, ... */
  lemma {:induction false} FollowPath(maps: Maps, id: nat, data: bv32, ptr: nat, depth: nat, writable: bool,
                                      path: seq<nat>, target: nat, index: nat)
    requires WellFormed(maps) && IsPtr(ptr) && IsPath(maps, id, path, target, index)
    requires depth == Depth(maps, id, path, target, index) && Top(ptr, depth) == Bits(maps, id, path, target, index)
    ensures Lookup(maps, id, data, ptr, depth, writable) ==
      if writable && !AllWritable(maps, id, data, path, target, index) then Failed(NO_LOOKUP) else Found(target, index)
    decreases |path|
  {
    var m := maps[id];
    if |path| == 1 {
      FirstIndex(m, ptr, path[0]);
    } else {
      var e := m.entries[path[0]];
      BitsFit(maps, e.id, path[1..], target, index);
      FirstAndRest(m, ptr, depth, path[0], Up(m.guard, m.indexbits) + path[0], Bits(maps, e.id, path[1..], target, index));
      FollowPath(maps, e.id, e.data, RestOf(m, ptr), depth - m.Width(), writable, path[1..], target, index);
      DepthPositive(maps, e.id, path[1..], target, index);
    }
  }

  /** The pointer spells out the path. */
  ghost predicate Addresses(maps: Maps, id: nat, data: bv32, ptr: nat, depth: nat, writable: bool,
                            path: seq<nat>, target: nat, index: nat)
  {
    && IsPath(maps, id, path, target, index) && depth == Depth(maps, id, path, target, index)
    && Top(ptr, depth) == Bits(maps, id, path, target, index)
    && (writable ==> AllWritable(maps, id, data, path, target, index))
  }

  lemma AddressesHere(maps: Maps, id: nat, data: bv32, ptr: nat, writable: bool)
    requires WellFormed(maps) && id in maps && IsPtr(ptr) && maps[id].guardbits > 0 && maps[id].indexbits > 0
    requires Top(ptr, maps[id].guardbits) == maps[id].guard && (writable ==> Writable(data))
    ensures Addresses(maps, id, data, ptr, maps[id].Width(), writable, [IndexOf(maps[id], ptr)], id, IndexOf(maps[id], ptr))
  {
    Strip(ptr, maps[id].guardbits, maps[id].indexbits);
    TopFits(ptr, maps[id].guardbits);
  }

  lemma AddressesBelow(maps: Maps, id: nat, data: bv32, ptr: nat, depth: nat, writable: bool,
                       path: seq<nat>, target: nat, index: nat)
    requires WellFormed(maps) && id in maps && IsPtr(ptr) && maps[id].guardbits > 0 && maps[id].indexbits > 0
    requires Top(ptr, maps[id].guardbits) == maps[id].guard && (writable ==> Writable(data))
    requires maps[id].Width() < depth && IndexOf(maps[id], ptr) < |maps[id].entries|
    requires
      var m := maps[id];
      var e := m.entries[IndexOf(m, ptr)];
      e.MapCap? && Addresses(maps, e.id, e.data, RestOf(m, ptr), depth - m.Width(), writable, path, target, index)
    ensures Addresses(maps, id, data, ptr, depth, writable, [IndexOf(maps[id], ptr)] + path, target, index)
  {
    var m := maps[id];
    Strip(ptr, m.guardbits, m.indexbits);
    TopFits(ptr, m.guardbits);
    RestTop(m, ptr, depth);
    assert ([IndexOf(m, ptr)] + path)[1..] == path;
  }

  /** ... and whatever is found was found along such a path. */
  lemma {:induction false} TracePath(maps: Maps, id: nat, data: bv32, ptr: nat, depth: nat, writable: bool)
    returns (path: seq<nat>)
    requires WellFormed(maps) && id in maps && IsPtr(ptr)
    requires Lookup(maps, id, data, ptr, depth, writable).Found?
    ensures
      var r := Lookup(maps, id, data, ptr, depth, writable);
      Addresses(maps, id, data, ptr, depth, writable, path, r.id, r.index)
    decreases depth
  {
    var m := maps[id];
    Strip(ptr, m.guardbits, m.indexbits);
    if depth == m.Width() {
      path := [IndexOf(m, ptr)];
      AddressesHere(maps, id, data, ptr, writable);
    } else {
      var e := m.entries[IndexOf(m, ptr)];
      var rest := TracePath(maps, e.id, e.data, RestOf(m, ptr), depth - m.Width(), writable);
      path := [IndexOf(m, ptr)] + rest;
      var r := Lookup(maps, id, data, ptr, depth, writable);
      AddressesBelow(maps, id, data, ptr, depth, writable, rest, r.id, r.index);
    }
  }

  /** Lookup finds an entry exactly if some path of maps leads there, the pointer spells out the
      guards and indices of that path, and, for writing, each map capability allows it. */
  lemma LookupIsPath(maps: Maps, id: nat, data: bv32, ptr: nat, depth: nat, writable: bool, target: nat, index: nat)
    requires WellFormed(maps) && id in maps && IsPtr(ptr)
    ensures Lookup(maps, id, data, ptr, depth, writable) == Found(target, index) <==>
      exists path :: Addresses(maps, id, data, ptr, depth, writable, path, target, index)
  {
    if Lookup(maps, id, data, ptr, depth, writable) == Found(target, index) {
      var path := TracePath(maps, id, data, ptr, depth, writable);
    }
    if path :| Addresses(maps, id, data, ptr, depth, writable, path, target, index) {
      FollowPath(maps, id, data, ptr, depth, writable, path, target, index);
    }
  }

  // ------------------------------------------------------------------ refusals

  /** From map capability `id`, `data` the pointer spells out the maps of `path`, all of which are
      left before the depth is used up, up to the capability `stop`, `stopData`; there the
      pointer `rest` with `left` bits remains. */
  ghost predicate Arrives(maps: Maps, id: nat, data: bv32, ptr: nat, depth: nat, writable: bool,
                          path: seq<nat>, stop: nat, stopData: bv32, rest: nat, left: nat)
    requires WellFormed(maps)
    decreases |path|
  {
    && id in maps
    && if path == [] then (stop, stopData, rest, left) == (id, data, ptr, depth)
       else
         var m := maps[id];
         && m.guardbits > 0 && m.indexbits > 0 && m.Width() < depth && (writable ==> Writable(data))
         && path[0] < |m.entries| && Top(ptr, m.Width()) == Up(m.guard, m.indexbits) + path[0]
         && m.entries[path[0]].MapCap?
         && Arrives(maps, m.entries[path[0]].id, m.entries[path[0]].data, ShiftLeft(ptr, m.Width()), depth - m.Width(),
                    writable, path[1..], stop, stopData, rest, left)
  }

  /** What a map refuses: writing through a capability that does not allow it; else a pointer that
      is too short or does not begin with the guard; else an entry that has to be, and is not,
      a map. Without guard or index bits the shifts have no result. */
  ghost predicate Refuses(maps: Maps, id: nat, data: bv32, ptr: nat, depth: nat, writable: bool, e: Error)
    requires WellFormed(maps) && id in maps
  {
    var m := maps[id];
    match e
    case NO_LOOKUP => writable && !Writable(data)
    case INVALID_CAPABILITY =>
      && (writable ==> Writable(data))
      && (depth < m.Width() || (m.guardbits > 0 && m.indexbits > 0 && Top(ptr, m.guardbits) != m.guard))
    case UNDEFINED => (writable ==> Writable(data)) && m.Width() <= depth && (m.guardbits == 0 || m.indexbits == 0)
    case TYPE_MISMATCH =>
      && (writable ==> Writable(data)) && m.guardbits > 0 && m.indexbits > 0 && m.Width() < depth
      && exists i :: 0 <= i < |m.entries| && Top(ptr, m.Width()) == Up(m.guard, m.indexbits) + i &&
           !(m.entries[i].MapCap? && m.entries[i].id in maps)
  }

  ghost predicate RefusesAt(maps: Maps, id: nat, data: bv32, ptr: nat, depth: nat, writable: bool,
                            path: seq<nat>, stop: nat, stopData: bv32, rest: nat, left: nat, e: Error)
    requires WellFormed(maps)
  {
    && Arrives(maps, id, data, ptr, depth, writable, path, stop, stopData, rest, left)
    && stop in maps && Refuses(maps, stop, stopData, rest, left, writable, e)
  }

  lemma RefusedHere(maps: Maps, id: nat, data: bv32, ptr: nat, depth: nat, writable: bool, e: Error)
    requires WellFormed(maps) && id in maps && IsPtr(ptr) && Refuses(maps, id, data, ptr, depth, writable, e)
    ensures Lookup(maps, id, data, ptr, depth, writable) == Failed(e)
  {
    var m := maps[id];
    if e == TYPE_MISMATCH {
      var i :| 0 <= i < |m.entries| && Top(ptr, m.Width()) == Up(m.guard, m.indexbits) + i &&
        !(m.entries[i].MapCap? && m.entries[i].id in maps);
      FirstIndex(m, ptr, i);
    }
  }

  lemma {:induction false} FollowRefusal(maps: Maps, id: nat, data: bv32, ptr: nat, depth: nat, writable: bool,
                                         path: seq<nat>, stop: nat, stopData: bv32, rest: nat, left: nat, e: Error)
    requires WellFormed(maps) && IsPtr(ptr)
    requires RefusesAt(maps, id, data, ptr, depth, writable, path, stop, stopData, rest, left, e)
    ensures Lookup(maps, id, data, ptr, depth, writable) == Failed(e)
    decreases |path|
  {
    if path == [] {
      RefusedHere(maps, id, data, ptr, depth, writable, e);
    } else {
      var m := maps[id];
      FirstIndex(m, ptr, path[0]);
      Strip(ptr, m.guardbits, m.indexbits);
      var sub := m.entries[path[0]];
      assert Arrives(maps, sub.id, sub.data, RestOf(m, ptr), depth - m.Width(), writable, path[1..],
                     stop, stopData, rest, left);
      FollowRefusal(maps, sub.id, sub.data, RestOf(m, ptr), depth - m.Width(), writable, path[1..],
                    stop, stopData, rest, left, e);
    }
  }

  lemma RefusesHere(maps: Maps, id: nat, data: bv32, ptr: nat, depth: nat, writable: bool)
    requires WellFormed(maps) && id in maps && IsPtr(ptr) && Lookup(maps, id, data, ptr, depth, writable).Failed?
    ensures
      var m := maps[id];
      var e := Lookup(maps, id, data, ptr, depth, writable).error;
      || Refuses(maps, id, data, ptr, depth, writable, e)
      || (&& m.guardbits > 0 && m.indexbits > 0 && m.Width() < depth && (writable ==> Writable(data))
          && Top(ptr, m.guardbits) == m.guard && IndexOf(m, ptr) < |m.entries|
          && m.entries[IndexOf(m, ptr)].MapCap? && m.entries[IndexOf(m, ptr)].id in maps)
  {
    Strip(ptr, maps[id].guardbits, maps[id].indexbits);
  }

  lemma {:induction false} TraceRefusal(maps: Maps, id: nat, data: bv32, ptr: nat, depth: nat, writable: bool, e: Error)
    returns (path: seq<nat>, stop: nat, stopData: bv32, rest: nat, left: nat)
    requires WellFormed(maps) && id in maps && IsPtr(ptr) && Lookup(maps, id, data, ptr, depth, writable) == Failed(e)
    ensures RefusesAt(maps, id, data, ptr, depth, writable, path, stop, stopData, rest, left, e)
    decreases depth
  {
    var m := maps[id];
    if Refuses(maps, id, data, ptr, depth, writable, e) {
      path, stop, stopData, rest, left := [], id, data, ptr, depth;
    } else {
      RefusesHere(maps, id, data, ptr, depth, writable);
      Strip(ptr, m.guardbits, m.indexbits);
      var i := IndexOf(m, ptr);
      var sub := m.entries[i];
      path, stop, stopData, rest, left :=
        TraceRefusal(maps, sub.id, sub.data, RestOf(m, ptr), depth - m.Width(), writable, e);
      assert ([i] + path)[1..] == path;
      path := [i] + path;
    }
  }

  /** Lookup fails with an error exactly if the pointer leads to a map that refuses it with this
      error. */
  lemma LookupIsRefused(maps: Maps, id: nat, data: bv32, ptr: nat, depth: nat, writable: bool, e: Error)
    requires WellFormed(maps) && id in maps && IsPtr(ptr)
    ensures Lookup(maps, id, data, ptr, depth, writable) == Failed(e) <==>
      exists path, stop: nat, stopData, rest: nat, left: nat ::
        RefusesAt(maps, id, data, ptr, depth, writable, path, stop, stopData, rest, left, e)
  {
    if Lookup(maps, id, data, ptr, depth, writable) == Failed(e) {
      var path, stop, stopData, rest, left := TraceRefusal(maps, id, data, ptr, depth, writable, e);
    }
    if path, stop: nat, stopData, rest: nat, left: nat :|
      RefusesAt(maps, id, data, ptr, depth, writable, path, stop, stopData, rest, left, e) {
      FollowRefusal(maps, id, data, ptr, depth, writable, path, stop, stopData, rest, left, e);
    }
  }

  /** The pointer for a path. */
  ghost function Encode(maps: Maps, id: nat, path: seq<nat>, target: nat, index: nat): nat
    requires IsPath(maps, id, path, target, index) && Depth(maps, id, path, target, index) <= PTR_BITS
  {
    Up(Bits(maps, id, path, target, index), PTR_BITS - Depth(maps, id, path, target, index))
  }

  lemma EncodeIsPtr(bits: nat, d: nat)
    requires d <= PTR_BITS && bits < Pow2(d)
    ensures IsPtr(Up(bits, PTR_BITS - d)) && Top(Up(bits, PTR_BITS - d), d) == bits
  {
    PtrSpaceIs();
    var n := Pow2(PTR_BITS - d);
    UpIs(bits, PTR_BITS - d);
    Pow2Add(d, PTR_BITS - d);
    Below(bits, Pow2(d), n);
    Division(bits * n, n, bits, 0);
    TopIs(bits * n, d);
  }

  /** Looking up the pointer of a path leads to its end, for writing exactly if every map
      capability on the way allows it. */
  lemma LookupInvertsEncode(maps: Maps, id: nat, data: bv32, writable: bool, path: seq<nat>, target: nat, index: nat)
    requires WellFormed(maps) && IsPath(maps, id, path, target, index) && Depth(maps, id, path, target, index) <= PTR_BITS
    ensures
      var ptr, depth := Encode(maps, id, path, target, index), Depth(maps, id, path, target, index);
      && IsPtr(ptr)
      && Lookup(maps, id, data, ptr, depth, writable) ==
         if writable ==> AllWritable(maps, id, data, path, target, index) then Found(target, index) else Failed(NO_LOOKUP)
  {
    var depth := Depth(maps, id, path, target, index);
    BitsFit(maps, id, path, target, index);
    EncodeIsPtr(Bits(maps, id, path, target, index), depth);
    FollowPath(maps, id, data, Encode(maps, id, path, target, index), depth, writable, path, target, index);
  }

  // ---------------------------------------------------------------------- mint

  /** A capability that was minted again and again. */
  function MintAll(data: bv32, requests: seq<bv32>): bv32
  {
    if requests == [] then data else MintAll(data & requests[0], requests[1..])
  }

  lemma BitOfAnd(a: bv32, b: bv32)
    ensures Writable(a & b) <==> Writable(a) && Writable(b)
  {
  }

  /** The writable bit survives exactly if it was there and every request kept it. */
  lemma {:induction false} MintKeepsOrDrops(data: bv32, requests: seq<bv32>)
    ensures Writable(MintAll(data, requests)) <==> Writable(data) && forall r :: r in requests ==> Writable(r)
    decreases |requests|
  {
    if requests != [] {
      BitOfAnd(data, requests[0]);
      MintKeepsOrDrops(data & requests[0], requests[1..]);
      assert requests == [requests[0]] + requests[1..];
    }
  }
}
