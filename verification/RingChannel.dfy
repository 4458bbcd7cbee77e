/** The ring of message slots between many producers and one consumer. Handles and sequence
    numbers are 16 bits wide and wrap around.

    The steps are the accesses of `acquireSend`/`finishSend` and `acquireRecv`/`finishRecv`.
    `n` is the number of slots and `limit` the number of producers that can be active at the
    same time. `RingIsCorrect` says for which of them the ring works. */
module RingChannel {
  import opened Arithmetic
  import opened Sequences

  const WORD := 0x1_0000      // 2^16
  const HALF := 0x8000        // 2^15

  datatype Slot = Slot(seqNo: nat, data: nat)

  /** `handle` is what the code knows; `ticket` is the same position without wrapping. */
  datatype Producer =
    | Waiting(handle: nat, message: nat, ticket: nat)
    | Writing(handle: nat, message: nat, ticket: nat)
    | Written(handle: nat, message: nat, ticket: nat)

  datatype Consumer = Idle | Polling(handle: nat) | Reading(handle: nat) | Read(handle: nat)

  /** `messages` lists what was sent in the order of the handles, `received` what was read.
      `sent` and `finished` count without wrapping: tickets whose message is in a slot, and
      the number of messages whose slot was given back. */
  datatype State = State(
    slots: seq<Slot>, writePos: nat, readPos: nat, producers: map<nat, Producer>, consumer: Consumer,
    messages: seq<nat>, received: seq<nat>, sent: set<nat>, finished: nat)

  predicate IsInit(s: State, n: nat) {
    && |s.slots| == n && s.writePos == 0 && s.readPos == 0 && s.producers == map[] && s.consumer == Idle
    && s.messages == [] && s.received == [] && s.sent == {} && s.finished == 0
    && (forall i :: 0 <= i < n ==> s.slots[i].seqNo == (2 * i) % WORD)
  }

  predicate IsWriteable(s: State, h: nat)
    requires |s.slots| > 0
  {
    s.slots[h % |s.slots|].seqNo == (2 * h) % WORD
  }

  predicate IsReadable(s: State, h: nat)
    requires |s.slots| > 0
  {
    s.slots[h % |s.slots|].seqNo == (2 * h + 1) % WORD
  }

  function SetSeq(s: State, h: nat, v: nat): State
    requires |s.slots| > 0
  {
    s.(slots := s.slots[h % |s.slots| := s.slots[h % |s.slots|].(seqNo := v % WORD)])
  }

  datatype Act =
    | AcquireSend(p: nat, message: nat) | Send(p: nat)      // the next access of a producer
    | AcquireRecv | Recv                                    // the next access of the consumer

  predicate Enabled(limit: nat, s: State, a: Act) {
    && |s.slots| > 0
    && match a
       case AcquireSend(p, m) => p !in s.producers && |s.producers| < limit
       case Send(p) => p in s.producers
       case AcquireRecv => s.consumer == Idle
       case Recv => s.consumer != Idle
  }

  function Do(s: State, a: Act): State
    requires |s.slots| > 0 && (a.Send? ==> a.p in s.producers) && (a.Recv? ==> s.consumer != Idle)
  {
    match a
    case AcquireSend(p, m) =>
      s.(writePos := (s.writePos + 1) % WORD, messages := s.messages + [m],
         producers := s.producers[p := Waiting(s.writePos, m, |s.messages|)])
    case Send(p) => SendStep(s, p)
    case AcquireRecv => s.(readPos := (s.readPos + 1) % WORD, consumer := Polling(s.readPos))
    case Recv => RecvStep(s)
  }

  function SendStep(s: State, p: nat): State
    requires |s.slots| > 0 && p in s.producers
  {
    match s.producers[p]
    case Waiting(h, m, w) => if IsWriteable(s, h) then s.(producers := s.producers[p := Writing(h, m, w)]) else s
    case Writing(h, m, w) =>
      s.(slots := s.slots[h % |s.slots| := s.slots[h % |s.slots|].(data := m)],
         producers := s.producers[p := Written(h, m, w)])
    case Written(h, m, w) => SetSeq(s, h, 2 * h + 1).(producers := s.producers - {p}, sent := s.sent + {w})
  }

  function RecvStep(s: State): State
    requires |s.slots| > 0 && s.consumer != Idle
  {
    match s.consumer
    case Polling(h) => if IsReadable(s, h) then s.(consumer := Reading(h)) else s
    case Reading(h) => s.(consumer := Read(h), received := s.received + [s.slots[h % |s.slots|].data])
    case Read(h) =>
      SetSeq(s, h, 2 * (h + |s.slots|)).(consumer := Idle, finished := s.finished + 1, sent := s.sent - {s.finished})
  }

  predicate Legal(limit: nat, s: State, acts: seq<Act>)
    decreases |acts|
  {
    acts == [] || (Enabled(limit, s, acts[0]) && Legal(limit, Do(s, acts[0]), acts[1..]))
  }

  function After(limit: nat, s: State, acts: seq<Act>): State
    requires Legal(limit, s, acts)
    decreases |acts|
  {
    if acts == [] then s else After(limit, Do(s, acts[0]), acts[1..])
  }

  // --------------------------------------------------------------- arithmetic

  /** The slots divide the range of the handles evenly. */
  predicate GoodSize(n: nat) { 0 < n && WORD % n == 0 }

  /** Truncating a handle does not change its slot. */
  lemma HandleSlot(w: nat, n: nat)
    requires GoodSize(n)
    ensures (w % WORD) % n == w % n
  {
    var k := WORD / n;
    assert WORD == n * k;
    Nested(w, n, k);
  }

  lemma AddOne(x: nat, n: nat)
    requires n > 0
    ensures (n + x) % n == x % n
  {
    var q, r := x / n, x % n;
    assert x == n * q + r;
    assert n + x == n * (q + 1) + r;
    Division(n + x, n, q + 1, r);
  }

  /** Positions less than a round apart are in different slots. */
  lemma SlotsDiffer(a: nat, b: nat, n: nat)
    requires n > 0 && a < b < a + n
    ensures a % n != b % n
  {
    var d := b / n - a / n;
    assert b - a == n * d + (b % n - a % n);
    Scale(n, d);
  }

  /** The sequence number 2w is that of position q, possibly plus one, only if w and q agree
      modulo 2^15 and nothing is added. */
  lemma CodesAgree(w: nat, q: nat, sent: bool)
    requires (2 * w) % WORD == (2 * q + if sent then 1 else 0) % WORD
    ensures !sent && (w - q) % HALF == 0
  {
  }

  /** The position of the current round that uses the same slot. */
  function Current(w: nat, from: nat, n: nat): (q: nat)
    requires n > 0 && from <= w
    ensures from <= q < from + n && q <= w && q % n == w % n
    decreases w
  {
    if w < from + n then w
    else
      AddOne(w - n, n);
      Current(w - n, from, n)
  }

  // ---------------------------------------------------------------- invariant

  predicate InSlot(s: State, w: nat) { s.finished <= w < s.finished + |s.slots| }

  /** The slot of a position of the current round shows that position's state. */
  predicate SlotOk(s: State, h: nat)
    requires |s.slots| > 0
  {
    && s.slots[h % |s.slots|].seqNo == (2 * h + if h in s.sent then 1 else 0) % WORD
    && (h in s.sent ==> h < |s.messages| && s.slots[h % |s.slots|].data == s.messages[h])
  }

  predicate ProducerOk(s: State, p: Producer)
    requires |s.slots| > 0
  {
    && s.finished <= p.ticket < |s.messages| && p.ticket !in s.sent
    && p.handle == p.ticket % WORD && p.message == s.messages[p.ticket]
    && (!p.Waiting? ==> InSlot(s, p.ticket))
    && (p.Written? ==> s.slots[p.ticket % |s.slots|].data == p.message)
  }

  predicate ConsumerOk(s: State) {
    && (match s.consumer
        case Idle => s.readPos == s.finished % WORD
        case Polling(h) => h == s.finished % WORD && s.readPos == (s.finished + 1) % WORD
        case Reading(h) => h == s.finished % WORD && s.readPos == (s.finished + 1) % WORD && s.finished in s.sent
        case Read(h) => h == s.finished % WORD && s.readPos == (s.finished + 1) % WORD && s.finished in s.sent)
    && |s.received| == s.finished + (if s.consumer.Read? then 1 else 0)
    && |s.received| <= |s.messages| && s.received == s.messages[..|s.received|]
  }

  ghost predicate SlotsOk(s: State)
    requires |s.slots| > 0
  {
    forall h: nat :: InSlot(s, h) ==> SlotOk(s, h)
  }

  ghost predicate SentOk(s: State) {
    forall h: nat :: h in s.sent ==> InSlot(s, h) && h < |s.messages|
  }

  ghost predicate ProducersOk(s: State)
    requires |s.slots| > 0
  {
    && (forall p :: p in s.producers ==> ProducerOk(s, s.producers[p]))
    && (forall p, q :: p in s.producers && q in s.producers && p != q ==>
          s.producers[p].ticket != s.producers[q].ticket)
  }

  /** Each position that was handed out and not given back is sent or has a producer. */
  predicate Balanced(s: State) {
    |s.messages| - s.finished == |s.sent| + |s.producers|
  }

  ghost predicate Inv(s: State) {
    && GoodSize(|s.slots|) && s.writePos == |s.messages| % WORD
    && SlotsOk(s) && SentOk(s) && ProducersOk(s) && Balanced(s) && ConsumerOk(s)
  }

  /** At most as many producers as this can be active at the same time. */
  predicate Fits(limit: nat, n: nat) { limit + n <= HALF + 1 }

  /** Cardinality of sets of positions in an interval. */
  lemma {:induction false} IntervalSize(s: set<nat>, from: nat, n: nat)
    requires forall h :: h in s ==> from <= h < from + n
    ensures |s| <= n
    decreases n
  {
    if n > 0 {
      var rest := s - {from + n - 1};
      IntervalSize(rest, from, n - 1);
      if from + n - 1 in s { assert s == rest + {from + n - 1}; } else { assert s == rest; }
    } else {
      assert s == {};
    }
  }

  /** If position `q` of the current round is not sent and `w` was handed out, then so many
      producers are active. */
  lemma ActiveProducers(s: State, q: nat, w: nat)
    requires SentOk(s) && Balanced(s)
    requires InSlot(s, q) && q !in s.sent && w < |s.messages|
    ensures |s.producers| + |s.slots| >= w - s.finished + 2
  {
    IntervalSize(s.sent + {q}, s.finished, |s.slots|);
    assert |s.sent + {q}| == |s.sent| + 1;
  }

  /** What passing the check means in terms of positions. */
  lemma EntryCode(s: State, w: nat) returns (q: nat)
    requires |s.slots| > 0 && GoodSize(|s.slots|) && s.finished <= w
    requires SlotsOk(s)
    requires IsWriteable(s, w % WORD)
    ensures InSlot(s, q) && q <= w && q !in s.sent && (w - q) % HALF == 0
  {
    HandleSlot(w, |s.slots|);
    q := Current(w, s.finished, |s.slots|);
    assert InSlot(s, q);
    TruncatedCode(w);
    CodesAgree(w, q, q in s.sent);
  }

  lemma TruncatedCode(w: nat)
    ensures (2 * (w % WORD)) % WORD == (2 * w) % WORD
    ensures (2 * (w % WORD) + 1) % WORD == (2 * w + 1) % WORD
  {
  }

  lemma Wrap(x: nat, n: nat)
    ensures (x % WORD + 1) % WORD == (x + 1) % WORD
    ensures (2 * (x % WORD + n)) % WORD == (2 * (x + n)) % WORD
  {
  }

  /** A waiting producer is let in only when its own position is the slot's current one. This
      is where the number of producers matters: the sequence number alone cannot tell
      positions apart that differ by 2^15. */
  lemma NoEarlyEntry(limit: nat, s: State, p: nat)
    requires Inv(s) && |s.producers| <= limit && Fits(limit, |s.slots|)
    requires p in s.producers && s.producers[p].Waiting? && IsWriteable(s, s.producers[p].handle)
    ensures InSlot(s, s.producers[p].ticket)
  {
    var w := s.producers[p].ticket;
    assert ProducerOk(s, s.producers[p]);
    var q := EntryCode(s, w);
    ActiveProducers(s, q, w);
    NearMultiple(w - q);
  }

  lemma NearMultiple(d: nat)
    requires d % HALF == 0
    ensures d == 0 || d >= HALF
  {
  }

  // -------------------------------------------------------------------- steps

  /** Two positions of the current round share a slot only if they are the same. */
  lemma SameSlot(s: State, a: nat, b: nat)
    requires |s.slots| > 0 && InSlot(s, a) && InSlot(s, b) && a % |s.slots| == b % |s.slots|
    ensures a == b
  {
    if a < b { SlotsDiffer(a, b, |s.slots|); }
    if b < a { SlotsDiffer(b, a, |s.slots|); }
  }

  /** Slots whose words and position do not change stay right. */
  lemma SlotsFrame(s: State, s': State)
    requires |s.slots| > 0 && SlotsOk(s)
    requires s'.slots == s.slots && s'.finished == s.finished && s'.sent == s.sent && s.messages <= s'.messages
    ensures SlotsOk(s')
  {
    forall h: nat | InSlot(s', h)
      ensures SlotOk(s', h)
    {
      assert InSlot(s, h) && SlotOk(s, h);
    }
  }

  lemma AcquireSendProducers(s: State, p: nat, m: nat)
    requires |s.slots| > 0 && ProducersOk(s) && SentOk(s) && p !in s.producers
    requires s.writePos == |s.messages| % WORD && s.finished <= |s.messages|
    ensures ProducersOk(Do(s, AcquireSend(p, m)))
  {
  }

  lemma AcquireSendCounts(s: State, s': State, p: nat, m: nat)
    requires SentOk(s) && Balanced(s) && ConsumerOk(s) && p !in s.producers
    requires p in s'.producers
    requires s' == s.(writePos := s'.writePos, messages := s.messages + [m], producers := s.producers[p := s'.producers[p]])
    ensures SentOk(s') && Balanced(s') && ConsumerOk(s')
  {
    assert s'.producers.Keys == s.producers.Keys + {p};
    assert |s'.producers| == |s'.producers.Keys| == |s.producers| + 1;
    assert s'.messages[..|s.received|] == s.messages[..|s.received|];
  }

  lemma AcquireSendInv(s: State, p: nat, m: nat)
    requires Inv(s) && p !in s.producers
    ensures Inv(Do(s, AcquireSend(p, m)))
  {
    var s' := Do(s, AcquireSend(p, m));
    Wrap(|s.messages|, 0);
    SlotsFrame(s, s');
    AcquireSendProducers(s, p, m);
    AcquireSendCounts(s, s', p, m);
  }

  /** Another producer that has written keeps its data: it has another slot. */
  lemma OthersKeepData(s: State, s': State, p: nat, q: nat)
    requires |s.slots| > 0 && |s'.slots| == |s.slots| && p in s.producers && q in s.producers && p != q
    requires ProducersOk(s) && s.producers[q].Written?
    requires forall i :: 0 <= i < |s.slots| && i != s.producers[p].ticket % |s.slots| ==> s'.slots[i] == s.slots[i]
    requires s'.slots == s.slots || InSlot(s, s.producers[p].ticket)
    ensures s'.slots[s.producers[q].ticket % |s.slots|] == s.slots[s.producers[q].ticket % |s.slots|]
  {
    var w, u := s.producers[p].ticket, s.producers[q].ticket;
    assert ProducerOk(s, s.producers[q]);
    if s'.slots != s.slots && u % |s.slots| == w % |s.slots| { SameSlot(s, u, w); }
  }

  lemma OthersStayOk(s: State, s': State, p: nat, q: nat)
    requires |s.slots| > 0 && ProducersOk(s) && p in s.producers && p in s'.producers && q in s.producers && p != q
    requires s' == s.(slots := s'.slots, producers := s.producers[p := s'.producers[p]]) && |s'.slots| == |s.slots|
    requires forall i :: 0 <= i < |s.slots| && i != s.producers[p].ticket % |s.slots| ==> s'.slots[i] == s.slots[i]
    requires s'.slots == s.slots || InSlot(s, s.producers[p].ticket)
    ensures ProducerOk(s', s'.producers[q])
  {
    assert ProducerOk(s, s.producers[q]);
    if s.producers[q].Written? { OthersKeepData(s, s', p, q); }
  }

  lemma TicketsStay(s: State, s': State, p: nat)
    requires |s.slots| > 0 && ProducersOk(s) && p in s.producers && p in s'.producers
    requires s'.producers == s.producers[p := s'.producers[p]] && s'.producers[p].ticket == s.producers[p].ticket
    ensures |s'.producers| == |s.producers|
    ensures forall q, r :: q in s'.producers && r in s'.producers && q != r ==>
              s'.producers[q].ticket != s'.producers[r].ticket
  {
    assert s'.producers.Keys == s.producers.Keys;
    assert |s'.producers| == |s'.producers.Keys|;
  }

  /** A producer moves on; its position and its message stay. */
  lemma ProducerMoves(s: State, s': State, p: nat)
    requires |s.slots| > 0 && ProducersOk(s) && p in s.producers && p in s'.producers
    requires s' == s.(slots := s'.slots, producers := s.producers[p := s'.producers[p]]) && |s'.slots| == |s.slots|
    requires s'.producers[p].ticket == s.producers[p].ticket && ProducerOk(s', s'.producers[p])
    requires forall i :: 0 <= i < |s.slots| && i != s.producers[p].ticket % |s.slots| ==> s'.slots[i] == s.slots[i]
    requires s'.slots == s.slots || InSlot(s, s.producers[p].ticket)
    ensures ProducersOk(s') && |s'.producers| == |s.producers|
  {
    TicketsStay(s, s', p);
    forall q | q in s'.producers && q != p
      ensures ProducerOk(s', s'.producers[q])
    {
      OthersStayOk(s, s', p, q);
    }
  }

  lemma EnterInv(limit: nat, s: State, p: nat)
    requires Inv(s) && |s.producers| <= limit && Fits(limit, |s.slots|)
    requires p in s.producers && s.producers[p].Waiting?
    ensures Inv(Do(s, Send(p)))
  {
    var s' := Do(s, Send(p));
    if IsWriteable(s, s.producers[p].handle) {
      NoEarlyEntry(limit, s, p);
      ProducerMoves(s, s', p);
      SlotsFrame(s, s');
    }
  }

  lemma WriteSlots(s: State, w: nat, m: nat)
    requires |s.slots| > 0 && SlotsOk(s) && InSlot(s, w) && w !in s.sent
    ensures SlotsOk(s.(slots := s.slots[w % |s.slots| := s.slots[w % |s.slots|].(data := m)]))
  {
    var s' := s.(slots := s.slots[w % |s.slots| := s.slots[w % |s.slots|].(data := m)]);
    forall h: nat | InSlot(s', h)
      ensures SlotOk(s', h)
    {
      assert InSlot(s, h) && SlotOk(s, h);
      if h % |s.slots| == w % |s.slots| { SameSlot(s, h, w); }
    }
  }

  lemma WriteInv(s: State, p: nat)
    requires Inv(s) && p in s.producers && s.producers[p].Writing?
    ensures Inv(Do(s, Send(p)))
  {
    var s', w := Do(s, Send(p)), s.producers[p].ticket;
    assert ProducerOk(s, s.producers[p]);
    HandleSlot(w, |s.slots|);
    WriteSlots(s, w, s.producers[p].message);
    SlotsFrame(s.(slots := s'.slots), s');
    ProducerMoves(s, s', p);
  }

  lemma PublishSlots(s: State, s': State, w: nat)
    requires |s.slots| > 0 && SlotsOk(s) && InSlot(s, w) && w < |s.messages|
    requires s.slots[w % |s.slots|].data == s.messages[w]
    requires s'.slots == SetSeq(s, w, 2 * w + 1).slots && s'.sent == s.sent + {w}
    requires s'.finished == s.finished && s'.messages == s.messages
    ensures SlotsOk(s')
  {
    forall h: nat | InSlot(s', h)
      ensures SlotOk(s', h)
    {
      assert InSlot(s, h) && SlotOk(s, h);
      if h % |s.slots| == w % |s.slots| { SameSlot(s, h, w); }
    }
  }

  lemma PublishProducers(s: State, s': State, p: nat)
    requires |s.slots| > 0 && ProducersOk(s) && p in s.producers
    requires s'.producers == s.producers - {p} && s'.finished == s.finished && s'.messages == s.messages
    requires s'.sent == s.sent + {s.producers[p].ticket} && |s'.slots| == |s.slots|
    requires forall i :: 0 <= i < |s.slots| ==> s'.slots[i].data == s.slots[i].data
    ensures ProducersOk(s') && |s'.producers| == |s.producers| - 1
  {
    assert s'.producers.Keys == s.producers.Keys - {p};
    assert |s'.producers| == |s'.producers.Keys|;
    forall q | q in s'.producers
      ensures ProducerOk(s', s'.producers[q])
    {
      assert ProducerOk(s, s.producers[q]);
    }
  }

  lemma PublishCounts(s: State, s': State, w: nat)
    requires SentOk(s) && Balanced(s) && ConsumerOk(s) && InSlot(s, w) && w < |s.messages| && w !in s.sent
    requires s' == s.(slots := s'.slots, producers := s'.producers, sent := s.sent + {w})
    requires |s'.slots| == |s.slots| && |s'.producers| == |s.producers| - 1
    ensures SentOk(s') && Balanced(s') && ConsumerOk(s')
  {
  }

  /** Publishing, in terms of the position instead of the handle. */
  lemma PublishState(s: State, p: nat, w: nat)
    requires GoodSize(|s.slots|) && p in s.producers && s.producers[p].Written?
    requires s.producers[p].ticket == w && s.producers[p].handle == w % WORD
    ensures Do(s, Send(p)) == SetSeq(s, w, 2 * w + 1).(producers := s.producers - {p}, sent := s.sent + {w})
  {
    HandleSlot(w, |s.slots|);
    TruncatedCode(w);
  }

  lemma PublishInv(s: State, p: nat)
    requires Inv(s) && p in s.producers && s.producers[p].Written?
    ensures Inv(Do(s, Send(p)))
  {
    var w := s.producers[p].ticket;
    assert ProducerOk(s, s.producers[p]);
    PublishState(s, p, w);
    var s' := SetSeq(s, w, 2 * w + 1).(producers := s.producers - {p}, sent := s.sent + {w});
    PublishSlots(s, s', w);
    PublishProducers(s, s', p);
    PublishCounts(s, s', w);
  }

  /** Steps that change neither the slots nor the producers. */
  lemma ConsumerMoveInv(s: State, s': State)
    requires Inv(s) && ConsumerOk(s')
    requires s' == s.(consumer := s'.consumer, readPos := s'.readPos, received := s'.received)
    ensures Inv(s')
  {
    SlotsFrame(s, s');
    forall q | q in s'.producers
      ensures ProducerOk(s', s'.producers[q])
    {
      assert ProducerOk(s, s.producers[q]);
    }
  }

  lemma AcquireRecvInv(s: State)
    requires Inv(s) && s.consumer == Idle
    ensures Inv(Do(s, AcquireRecv))
  {
    Wrap(s.finished, 0);
    ConsumerMoveInv(s, Do(s, AcquireRecv));
  }

  /** The consumer is let in only when its message is there. */
  lemma ReadableIsSent(s: State)
    requires Inv(s) && s.consumer.Polling? && IsReadable(s, s.consumer.handle)
    ensures s.finished in s.sent
  {
    HandleSlot(s.finished, |s.slots|);
    TruncatedCode(s.finished);
    assert InSlot(s, s.finished) && SlotOk(s, s.finished);
  }

  lemma PollInv(s: State)
    requires Inv(s) && s.consumer.Polling?
    ensures Inv(Do(s, Recv))
  {
    if IsReadable(s, s.consumer.handle) { ReadableIsSent(s); }
    ConsumerMoveInv(s, Do(s, Recv));
  }

  lemma ReadInv(s: State)
    requires Inv(s) && s.consumer.Reading?
    ensures Inv(Do(s, Recv))
  {
    var f := s.finished;
    HandleSlot(f, |s.slots|);
    assert InSlot(s, f) && SlotOk(s, f);
    assert s.messages[..f + 1] == s.messages[..f] + [s.messages[f]];
    ConsumerMoveInv(s, Do(s, Recv));
  }

  lemma GiveBackSlots(s: State, s': State)
    requires |s.slots| > 0 && SlotsOk(s) && SentOk(s)
    requires s'.slots == SetSeq(s, s.finished, 2 * (s.finished + |s.slots|)).slots
    requires s'.sent == s.sent - {s.finished} && s'.finished == s.finished + 1 && s'.messages == s.messages
    ensures SlotsOk(s')
  {
    var f, n := s.finished, |s.slots|;
    AddOne(f, n);
    forall h: nat | InSlot(s', h)
      ensures SlotOk(s', h)
    {
      if h == f + n {
        assert !InSlot(s, h);
      } else {
        assert InSlot(s, h) && SlotOk(s, h);
        SlotsDiffer(f, h, n);
      }
    }
  }

  lemma GiveBackProducers(s: State, s': State)
    requires |s.slots| > 0 && ProducersOk(s) && s.finished in s.sent && |s'.slots| == |s.slots|
    requires s'.producers == s.producers && s'.finished == s.finished + 1 && s'.messages == s.messages
    requires s'.sent == s.sent - {s.finished}
    requires forall i :: 0 <= i < |s.slots| ==> s'.slots[i].data == s.slots[i].data
    ensures ProducersOk(s')
  {
  }

  lemma GiveBackCounts(s: State, s': State)
    requires |s.slots| > 0 && SentOk(s) && Balanced(s) && ConsumerOk(s) && s.consumer.Read?
    requires |s'.slots| == |s.slots|
    requires s' == s.(slots := s'.slots, consumer := Idle, finished := s.finished + 1, sent := s.sent - {s.finished})
    ensures SentOk(s') && Balanced(s') && ConsumerOk(s')
  {
  }

  lemma GiveBackInv(s: State)
    requires Inv(s) && s.consumer.Read?
    ensures Inv(Do(s, Recv))
  {
    var s', f, n := Do(s, Recv), s.finished, |s.slots|;
    HandleSlot(f, n);
    Wrap(f, n);
    assert s'.slots == SetSeq(s, f, 2 * (f + n)).slots;
    GiveBackSlots(s, s');
    GiveBackProducers(s, s');
    GiveBackCounts(s, s');
  }

  lemma SendInv(limit: nat, s: State, p: nat)
    requires Inv(s) && |s.producers| <= limit && Fits(limit, |s.slots|) && p in s.producers
    ensures Inv(Do(s, Send(p)))
  {
    if s.producers[p].Waiting? { EnterInv(limit, s, p); }
    else if s.producers[p].Writing? { WriteInv(s, p); }
    else { PublishInv(s, p); }
  }

  lemma RecvInv(s: State)
    requires Inv(s) && s.consumer != Idle
    ensures Inv(Do(s, Recv))
  {
    if s.consumer.Polling? { PollInv(s); }
    else if s.consumer.Reading? { ReadInv(s); }
    else { GiveBackInv(s); }
  }

  lemma StepInv(limit: nat, s: State, a: Act)
    requires Inv(s) && |s.producers| <= limit && Fits(limit, |s.slots|) && Enabled(limit, s, a)
    ensures Inv(Do(s, a))
  {
    match a
    case AcquireSend(p, m) => AcquireSendInv(s, p, m);
    case Send(p) => SendInv(limit, s, p);
    case AcquireRecv => AcquireRecvInv(s);
    case Recv => RecvInv(s);
  }

  lemma StepSizes(limit: nat, s: State, a: Act)
    requires |s.producers| <= limit && Enabled(limit, s, a)
    ensures |Do(s, a).producers| <= limit && |Do(s, a).slots| == |s.slots|
  {
  }

  lemma {:induction false} RunInv(limit: nat, s: State, acts: seq<Act>)
    requires Inv(s) && |s.producers| <= limit && Fits(limit, |s.slots|) && Legal(limit, s, acts)
    ensures Inv(After(limit, s, acts))
    decreases |acts|
  {
    if acts != [] {
      StepInv(limit, s, acts[0]);
      StepSizes(limit, s, acts[0]);
      RunInv(limit, Do(s, acts[0]), acts[1..]);
    }
  }

  lemma InitInv(s: State, n: nat)
    requires IsInit(s, n) && GoodSize(n)
    ensures Inv(s)
  {
    forall h: nat | InSlot(s, h)
      ensures SlotOk(s, h)
    {
      Division(h, n, 0, h);
    }
  }

  // -------------------------------------------------------------- correctness

  /** Nobody else uses the slot that a producer writes. */
  predicate Exclusive(s: State)
    requires |s.slots| > 0
  {
    && (forall p, q ::
          p in s.producers && q in s.producers && p != q && !s.producers[p].Waiting? && !s.producers[q].Waiting? ==>
            s.producers[p].handle % |s.slots| != s.producers[q].handle % |s.slots|)
    && (forall p :: p in s.producers && !s.producers[p].Waiting? && (s.consumer.Reading? || s.consumer.Read?) ==>
          s.producers[p].handle % |s.slots| != s.consumer.handle % |s.slots|)
  }

  /** The consumer waits for one of the first `sent` messages, and everybody waits. */
  predicate Stuck(s: State, sent: nat)
    requires |s.slots| > 0
  {
    && s.consumer != Idle && |s.received| < sent
    && Do(s, Recv) == s && (forall p :: p in s.producers ==> Do(s, Send(p)) == s)
  }

  /** The messages of a run in the order in which their senders asked for a handle. */
  function Sends(acts: seq<Act>): seq<nat> {
    if acts == [] then [] else (if acts[0].AcquireSend? then [acts[0].message] else []) + Sends(acts[1..])
  }

  /** How often the consumer has asked for a message. */
  function Receives(acts: seq<Act>): nat {
    if acts == [] then 0 else (if acts[0] == AcquireRecv then 1 else 0) + Receives(acts[1..])
  }

  /** The consumer has asked for a message and not read it yet. */
  function Unread(c: Consumer): nat { if c.Polling? || c.Reading? then 1 else 0 }

  /** What was received is what was sent, each message once and in the order of the handles; each
      receive that is over gave a message. */
  predicate Correct(limit: nat, s: State, acts: seq<Act>)
    requires Legal(limit, s, acts)
  {
    var s' := After(limit, s, acts);
    && |s'.slots| > 0 && s'.received <= Sends(acts) && |s'.received| + Unread(s'.consumer) == Receives(acts)
    && Exclusive(s') && !Stuck(s', |Sends(acts)|)
  }

  lemma {:induction false} HandlesInOrder(limit: nat, s: State, acts: seq<Act>)
    requires Legal(limit, s, acts)
    ensures After(limit, s, acts).messages == s.messages + Sends(acts)
    decreases |acts|
  {
    if acts != [] {
      HandlesInOrder(limit, Do(s, acts[0]), acts[1..]);
      Concat(s.messages, if acts[0].AcquireSend? then [acts[0].message] else [], Sends(acts[1..]));
    }
  }

  lemma {:induction false} ReceivesCounted(limit: nat, s: State, acts: seq<Act>)
    requires Legal(limit, s, acts)
    ensures
      var s' := After(limit, s, acts);
      |s'.received| + Unread(s'.consumer) == |s.received| + Unread(s.consumer) + Receives(acts)
    decreases |acts|
  {
    if acts != [] { ReceivesCounted(limit, Do(s, acts[0]), acts[1..]); }
  }

  lemma WritersExclusive(s: State)
    requires Inv(s)
    ensures Exclusive(s)
  {
    forall p | p in s.producers && !s.producers[p].Waiting?
      ensures forall q :: q in s.producers && p != q && !s.producers[q].Waiting? ==>
        s.producers[p].handle % |s.slots| != s.producers[q].handle % |s.slots|
      ensures s.consumer.Reading? || s.consumer.Read? ==> s.producers[p].handle % |s.slots| != s.consumer.handle % |s.slots|
    {
      var n, w := |s.slots|, s.producers[p].ticket;
      assert ProducerOk(s, s.producers[p]);
      HandleSlot(w, n);
      forall q | q in s.producers && p != q && !s.producers[q].Waiting?
        ensures s.producers[p].handle % n != s.producers[q].handle % n
      {
        var u := s.producers[q].ticket;
        assert ProducerOk(s, s.producers[q]);
        HandleSlot(u, n);
        if u % n == w % n { SameSlot(s, u, w); }
      }
      HandleSlot(s.finished, n);
      if s.finished % n == w % n { SameSlot(s, s.finished, w); }
    }
  }

  function Tickets(producers: map<nat, Producer>): set<nat> {
    set p | p in producers :: producers[p].ticket
  }

  lemma {:induction false} TicketCount(producers: map<nat, Producer>)
    requires forall p, q :: p in producers && q in producers && p != q ==> producers[p].ticket != producers[q].ticket
    ensures |Tickets(producers)| == |producers|
    decreases |producers|
  {
    if producers != map[] {
      var p :| p in producers;
      var rest := producers - {p};
      assert rest.Keys == producers.Keys - {p};
      TicketCount(rest);
      forall q | q in rest ensures rest[q].ticket in Tickets(producers) { assert q in producers; }
      forall x | x in Tickets(producers) ensures x == producers[p].ticket || x in Tickets(rest) {
        var q :| q in producers && producers[q].ticket == x;
        assert q == p || q in rest;
      }
      assert Tickets(producers) == Tickets(rest) + {producers[p].ticket};
    }
  }

  /** A set of so many positions of an interval leaves none out. */
  lemma FullInterval(s: set<nat>, from: nat, n: nat, h: nat)
    requires forall x :: x in s ==> from <= x < from + n
    requires |s| == n && from <= h < from + n
    ensures h in s
  {
    if h !in s { IntervalSize(s + {h}, from, n); }
  }

  /** A position that was handed out is sent or some producer has it. */
  lemma HasProducer(s: State, h: nat)
    requires Inv(s) && s.finished <= h < |s.messages| && h !in s.sent
    ensures exists p :: p in s.producers && s.producers[p].ticket == h
  {
    var tickets := Tickets(s.producers);
    TicketCount(s.producers);
    assert tickets !! s.sent by {
      forall p | p in s.producers ensures s.producers[p].ticket !in s.sent { assert ProducerOk(s, s.producers[p]); }
    }
    assert |tickets + s.sent| == |s.messages| - s.finished;
    forall x | x in tickets + s.sent
      ensures s.finished <= x < |s.messages|
    {
      if x in tickets {
        var p :| p in s.producers && s.producers[p].ticket == x;
        assert ProducerOk(s, s.producers[p]);
      }
    }
    FullInterval(tickets + s.sent, s.finished, |s.messages| - s.finished, h);
  }

  lemma Moves(s: State, p: nat)
    requires |s.slots| > 0 && p in s.producers
    requires s.producers[p].Waiting? ==> IsWriteable(s, s.producers[p].handle)
    ensures Do(s, Send(p)) != s
  {
  }

  /** Who has the message that the consumer waits for can go on. */
  lemma SenderMoves(s: State) returns (p: nat)
    requires Inv(s) && s.consumer.Polling? && !IsReadable(s, s.consumer.handle) && |s.received| < |s.messages|
    ensures p in s.producers && Do(s, Send(p)) != s
  {
    var f, n := s.finished, |s.slots|;
    HandleSlot(f, n);
    TruncatedCode(f);
    assert InSlot(s, f) && SlotOk(s, f);
    assert f !in s.sent;
    HasProducer(s, f);
    p :| p in s.producers && s.producers[p].ticket == f;
    assert ProducerOk(s, s.producers[p]);
    Moves(s, p);
  }

  lemma NeverStuck(s: State)
    requires Inv(s)
    ensures !Stuck(s, |s.messages|)
  {
    if s.consumer.Polling? && !IsReadable(s, s.consumer.handle) && |s.received| < |s.messages| {
      var p := SenderMoves(s);
    }
  }

  lemma RunCorrect(limit: nat, n: nat, s: State, acts: seq<Act>)
    requires IsInit(s, n) && GoodSize(n) && Fits(limit, n) && Legal(limit, s, acts)
    ensures Correct(limit, s, acts)
  {
    InitInv(s, n);
    RunInv(limit, s, acts);
    HandlesInOrder(limit, s, acts);
    assert s.messages + Sends(acts) == Sends(acts);
    ReceivesCounted(limit, s, acts);
    WritersExclusive(After(limit, s, acts));
    NeverStuck(After(limit, s, acts));
  }

  // ------------------------------------------------------- runs that go wrong

  ghost predicate Reaches(limit: nat, s: State, s': State) {
    exists acts :: Legal(limit, s, acts) && After(limit, s, acts) == s'
  }

  lemma {:induction false} Snoc(limit: nat, s: State, acts: seq<Act>, a: Act)
    requires Legal(limit, s, acts) && Enabled(limit, After(limit, s, acts), a)
    ensures Legal(limit, s, acts + [a])
    ensures After(limit, s, acts + [a]) == Do(After(limit, s, acts), a)
    decreases |acts|
  {
    if acts == [] {
      assert (acts + [a])[1..] == [];
    } else {
      Snoc(limit, Do(s, acts[0]), acts[1..], a);
      assert (acts + [a])[1..] == acts[1..] + [a];
    }
  }

  /** A property that no step destroys. */
  ghost predicate Closed(limit: nat, P: State -> bool) {
    forall s, a {:trigger Do(s, a)} :: P(s) && Enabled(limit, s, a) ==> P(Do(s, a))
  }

  lemma ReachesIsClosed(limit: nat, s0: State)
    ensures Closed(limit, s => Reaches(limit, s0, s)) && Reaches(limit, s0, s0)
  {
    var P := s => Reaches(limit, s0, s);
    forall s, a | P(s) && Enabled(limit, s, a)
      ensures P(Do(s, a))
    {
      var acts :| Legal(limit, s0, acts) && After(limit, s0, acts) == s;
      Snoc(limit, s0, acts, a);
    }
    assert Legal(limit, s0, []) && After(limit, s0, []) == s0;
  }

  lemma OneMore(limit: nat, P: State -> bool, s: State, a: Act)
    requires Closed(limit, P) && P(s) && Enabled(limit, s, a)
    ensures P(Do(s, a))
  {
  }

  function Initial(n: nat): (s: State)
    ensures IsInit(s, n)
  {
    State(seq(n, i => Slot((2 * i) % WORD, 0)), 0, 0, map[], Idle, [], [], {}, 0)
  }

  /** `k` messages went through, one after the other, and the handle has not wrapped yet. */
  ghost predicate Passed(s: State, n: nat, k: nat) {
    && |s.slots| == n > 0 && s.writePos == k % WORD && s.readPos == k % WORD && s.producers == map[] && s.consumer == Idle
    && |s.messages| == k && |s.received| == k
    && (forall h: nat :: k <= h < k + n ==> s.slots[h % n].seqNo == (2 * h) % WORD)
  }

  /** A producer gets into its slot without waiting. */
  lemma EnterNow(limit: nat, P: State -> bool, s: State, p: nat) returns (s': State)
    requires Closed(limit, P) && P(s) && |s.slots| > 0 && p !in s.producers && |s.producers| < limit
    requires IsWriteable(s, s.writePos)
    ensures P(s')
    ensures s' == s.(writePos := (s.writePos + 1) % WORD, messages := s.messages + [0],
      producers := s.producers[p := Writing(s.writePos, 0, |s.messages|)])
  {
    var s1 := Do(s, AcquireSend(p, 0));
    OneMore(limit, P, s, AcquireSend(p, 0));
    s' := Do(s1, Send(p));
    OneMore(limit, P, s1, Send(p));
  }

  lemma FinishNow(limit: nat, P: State -> bool, s: State, p: nat) returns (s': State)
    requires Closed(limit, P) && P(s) && |s.slots| > 0 && p in s.producers && s.producers[p].Writing?
    ensures P(s') && s' == s.(slots := s'.slots, producers := s.producers - {p}, sent := s'.sent)
    ensures
      var h := s.producers[p].handle;
      s'.slots == s.slots[h % |s.slots| := Slot((2 * h + 1) % WORD, s.producers[p].message)]
  {
    var s1 := Do(s, Send(p));
    OneMore(limit, P, s, Send(p));
    s' := Do(s1, Send(p));
    OneMore(limit, P, s1, Send(p));
    assert s1.producers - {p} == s.producers - {p};
  }

  /** A producer sends a message without waiting. */
  lemma SendNow(limit: nat, P: State -> bool, s: State, p: nat) returns (s': State)
    requires Closed(limit, P) && P(s) && |s.slots| > 0 && p !in s.producers && |s.producers| < limit
    requires IsWriteable(s, s.writePos)
    ensures P(s')
    ensures s' == s.(slots := s'.slots, writePos := (s.writePos + 1) % WORD, messages := s.messages + [0], sent := s'.sent)
    ensures s'.slots == s.slots[s.writePos % |s.slots| := Slot((2 * s.writePos + 1) % WORD, 0)]
  {
    var s1 := EnterNow(limit, P, s, p);
    s' := FinishNow(limit, P, s1, p);
    assert s'.producers == s.producers;
  }

  /** The consumer receives a message without waiting. */
  lemma RecvNow(limit: nat, P: State -> bool, s: State) returns (s': State)
    requires Closed(limit, P) && P(s) && |s.slots| > 0 && s.consumer == Idle && IsReadable(s, s.readPos)
    ensures P(s') && |s'.received| == |s.received| + 1
    ensures s' == SetSeq(s, s.readPos, 2 * (s.readPos + |s.slots|)).(readPos := (s.readPos + 1) % WORD,
      received := s'.received, sent := s'.sent, finished := s'.finished)
  {
    var s1 := Do(s, AcquireRecv);
    OneMore(limit, P, s, AcquireRecv);
    var s2 := Do(s1, Recv);
    OneMore(limit, P, s1, Recv);
    var s3 := Do(s2, Recv);
    OneMore(limit, P, s2, Recv);
    s' := Do(s3, Recv);
    OneMore(limit, P, s3, Recv);
  }

  lemma PassOne(limit: nat, P: State -> bool, n: nat, s: State, k: nat) returns (s': State)
    requires Passed(s, n, k) && k < WORD && limit >= 1 && Closed(limit, P) && P(s)
    ensures Passed(s', n, k + 1) && P(s')
  {
    var sent := SendNow(limit, P, s, 0);
    s' := RecvNow(limit, P, sent);
    PassedSlots(s, s', n, k);
  }

  lemma PassedSlots(s: State, s': State, n: nat, k: nat)
    requires Passed(s, n, k) && |s'.slots| == n
    requires s'.slots[k % n].seqNo == (2 * (k + n)) % WORD
    requires forall i :: 0 <= i < n && i != k % n ==> s'.slots[i].seqNo == s.slots[i].seqNo
    ensures forall h: nat :: k + 1 <= h < k + 1 + n ==> s'.slots[h % n].seqNo == (2 * h) % WORD
  {
    AddOne(k, n);
    forall h: nat | k + 1 <= h < k + 1 + n
      ensures s'.slots[h % n].seqNo == (2 * h) % WORD
    {
      if h < k + n { SlotsDiffer(k, h, n); }
    }
  }

  lemma {:induction false} PassAll(limit: nat, P: State -> bool, n: nat, k: nat) returns (s: State)
    requires Closed(limit, P) && P(Initial(n)) && 0 < n && k <= WORD && limit >= 1
    ensures Passed(s, n, k) && P(s)
  {
    if k == 0 {
      s := Initial(n);
      forall h: nat | h < n ensures h % n == h { Division(h, n, 0, h); }
    } else {
      var before := PassAll(limit, P, n, k - 1);
      s := PassOne(limit, P, n, before, k - 1);
    }
  }

  lemma MultipleOf(x: nat, n: nat)
    requires 0 < n
    ensures (x + n - x % n) % n == 0
  {
    Division(x + n - x % n, n, x / n + 1, 0);
  }

  /** A producer and the consumer both wait for a slot that is in neither state. */
  lemma BothWait(limit: nat, P: State -> bool, s: State) returns (s': State)
    requires Closed(limit, P) && P(s) && limit >= 1 && |s.slots| > 0 && s.producers == map[] && s.consumer == Idle
    requires s.writePos == s.readPos && |s.received| == |s.messages|
    requires !IsWriteable(s, s.writePos) && !IsReadable(s, s.readPos)
    ensures P(s') && |s'.slots| == |s.slots| && Stuck(s', |s'.messages|)
  {
    var s1 := Do(s, AcquireSend(0, 0));
    OneMore(limit, P, s, AcquireSend(0, 0));
    s' := Do(s1, AcquireRecv);
    OneMore(limit, P, s1, AcquireRecv);
  }

  const QUARTER := 0x4000

  /** In a ring of three quarters of the handle range the first handles after the wrap still
      find their slots, ... */
  ghost predicate PassedAgain(s: State, j: nat) {
    && |s.slots| == 3 * QUARTER && s.writePos == j && s.readPos == j && s.producers == map[] && s.consumer == Idle
    && |s.received| == |s.messages| && j <= QUARTER && s.slots[QUARTER].seqNo == 0
    && (forall i :: j <= i < QUARTER ==> s.slots[i].seqNo == 2 * i)
  }

  lemma Wrapped(s: State)
    requires Passed(s, 3 * QUARTER, WORD)
    ensures PassedAgain(s, 0)
  {
    assert (WORD % (3 * QUARTER)) == QUARTER;
    assert s.slots[WORD % (3 * QUARTER)].seqNo == (2 * WORD) % WORD;
    forall i | 0 <= i < QUARTER
      ensures s.slots[i].seqNo == 2 * i
    {
      var h := 6 * QUARTER + i;
      assert h % (3 * QUARTER) == i && (2 * h) % WORD == 2 * i;
      assert s.slots[h % (3 * QUARTER)].seqNo == (2 * h) % WORD;
    }
  }

  lemma {:induction false} PassAgain(limit: nat, P: State -> bool, j: nat) returns (s: State)
    requires Closed(limit, P) && P(Initial(3 * QUARTER)) && limit >= 1 && j <= QUARTER
    ensures P(s) && PassedAgain(s, j)
  {
    if j == 0 {
      s := PassAll(limit, P, 3 * QUARTER, WORD);
      Wrapped(s);
    } else {
      var s1 := PassAgain(limit, P, j - 1);
      var s2 := SendNow(limit, P, s1, 0);
      s := RecvNow(limit, P, s2);
    }
  }

  /** If the slots do not divide the handle range, some message after the handle wrapped waits
      for the wrong slot: the first one, or in a ring of three quarters of the range the first
      one of the second quarter. */
  lemma WrongSizeStalls(limit: nat, P: State -> bool, n: nat) returns (s: State)
    requires Closed(limit, P) && P(Initial(n)) && 0 < n < WORD && WORD % n != 0 && limit >= 1
    ensures P(s) && |s.slots| == n && Stuck(s, |s.messages|)
  {
    if n == 3 * QUARTER {
      s := PassAgain(limit, P, QUARTER);
    } else {
      s := PassAll(limit, P, n, WORD);
      FirstAfterWrap(s, n);
    }
    s := BothWait(limit, P, s);
  }

  lemma FirstAfterWrap(s: State, n: nat)
    requires Passed(s, n, WORD) && n < WORD && WORD % n != 0 && n != 3 * QUARTER
    ensures !IsWriteable(s, 0) && !IsReadable(s, 0)
  {
    var r := WORD % n;
    var h := WORD + n - r;
    MultipleOf(WORD, n);
    Division(0, n, 0, 0);
    assert s.slots[h % n].seqNo == (2 * h) % WORD;
    if n <= HALF {
      assert (2 * h) % WORD == 2 * (n - r);
    } else {
      Division(WORD, n, 1, WORD - n);
      assert 2 * h == 4 * n;
    }
  }

  /** Producer 0 is in slot 0, and the next `k - 1` messages are sent. */
  ghost predicate Filled(s: State, n: nat, k: nat) {
    && |s.slots| == n && 1 <= k <= n && s.writePos == k && s.producers == map[0 := Writing(0, 0, 0)]
    && |s.messages| == k && s.slots[0].seqNo == 0 && (forall i :: k <= i < n ==> s.slots[i].seqNo == 2 * i)
  }

  lemma FillOne(limit: nat, P: State -> bool, n: nat, s: State, k: nat) returns (s': State)
    requires Filled(s, n, k) && k < n <= HALF && limit >= 2 && Closed(limit, P) && P(s)
    ensures Filled(s', n, k + 1) && P(s')
  {
    Division(k, n, 0, k);
    s' := SendNow(limit, P, s, 1);
  }

  lemma {:induction false} FillUpTo(limit: nat, P: State -> bool, n: nat, k: nat) returns (s: State)
    requires Closed(limit, P) && P(Initial(n)) && 1 <= k <= n <= HALF && limit >= 2
    ensures Filled(s, n, k) && P(s)
  {
    if k == 1 {
      s := EnterNow(limit, P, Initial(n), 0);
    } else {
      var before := FillUpTo(limit, P, n, k - 1);
      s := FillOne(limit, P, n, before, k - 1);
    }
  }

  /** The positions from `n` up to `k - 1` belong to producers of their own that wait. */
  ghost predicate Crowded(s: State, n: nat, k: nat) {
    && |s.slots| == n && 1 <= n <= k <= HALF + 1 && s.writePos == k && s.slots[0].seqNo == 0
    && |s.producers| == 1 + k - n && (forall p :: p in s.producers ==> p <= k)
    && 0 in s.producers && s.producers[0] == Writing(0, 0, 0)
    && (k > n ==> k in s.producers && s.producers[k].Waiting? && s.producers[k].handle == k - 1)
  }

  lemma CrowdOne(limit: nat, n: nat, s: State, k: nat)
    requires Crowded(s, n, k) && k <= HALF && limit >= 2 + k - n
    ensures Enabled(limit, s, AcquireSend(k + 1, 0)) && Crowded(Do(s, AcquireSend(k + 1, 0)), n, k + 1)
  {
  }

  lemma {:induction false} CrowdUpTo(limit: nat, P: State -> bool, n: nat, k: nat) returns (s: State)
    requires Closed(limit, P) && P(Initial(n)) && 1 <= n <= HALF && n <= k <= HALF + 1 && limit >= 1 + k - n && limit >= 2
    ensures Crowded(s, n, k) && P(s)
    decreases k
  {
    if k == n {
      s := FillUpTo(limit, P, n, n);
    } else {
      var before := CrowdUpTo(limit, P, n, k - 1);
      CrowdOne(limit, n, before, k - 1);
      s := Do(before, AcquireSend(k, 0));
      OneMore(limit, P, before, AcquireSend(k, 0));
    }
  }

  /** With one producer more than fits, position 2^15 is taken for position 0. */
  lemma TooManyProducers(limit: nat, P: State -> bool, n: nat) returns (s: State)
    requires Closed(limit, P) && P(Initial(n)) && GoodSize(n) && n <= HALF && !Fits(limit, n)
    ensures P(s) && |s.slots| == n && !Exclusive(s)
  {
    var s1 := CrowdUpTo(limit, P, n, HALF + 1);
    HalfDivides(n);
    assert IsWriteable(s1, HALF);
    s := Do(s1, Send(HALF + 1));
    OneMore(limit, P, s1, Send(HALF + 1));
    assert s.producers[0].handle % n == s.producers[HALF + 1].handle % n by { Division(0, n, 0, 0); }
  }

  lemma {:induction false} OddDivisor(e: nat, n: nat, k: nat)
    requires n * k == Pow2(e) && k % 2 == 1
    ensures k == 1
  {
    if e == 0 {
      FactorOfOne(n, k);
    } else {
      if n % 2 == 1 { OddProduct(n / 2, k / 2); }
      assert n == 2 * (n / 2);
      assert (n / 2) * k == Pow2(e - 1);
      OddDivisor(e - 1, n / 2, k);
    }
  }

  lemma FactorOfOne(n: nat, k: nat)
    requires n * k == 1
    ensures k == 1
  {
  }

  lemma OddProduct(a: nat, b: nat)
    ensures ((2 * a + 1) * (2 * b + 1)) % 2 == 1
  {
    assert (2 * a + 1) * (2 * b + 1) == 2 * (2 * a * b + a + b) + 1;
  }

  lemma WordIsPower()
    ensures Pow2(16) == WORD
  {
    assert Pow2(4) == 16;
    assert Pow2(8) == 256;
    assert Pow2(12) == 4096;
  }

  lemma HalfDivides(n: nat)
    requires GoodSize(n) && n <= HALF
    ensures HALF % n == 0
  {
    var k := WORD / n;
    assert n * k == WORD;
    WordIsPower();
    if k % 2 == 1 {
      OddDivisor(16, n, k);
    }
    assert HALF == n * (k / 2);
    Division(HALF, n, k / 2, 0);
  }

  lemma GoesWrong(limit: nat, n: nat) returns (s: State)
    requires 0 < n < WORD && limit >= 1 && !(GoodSize(n) && Fits(limit, n))
    ensures Reaches(limit, Initial(n), s) && |s.slots| == n && (!Exclusive(s) || Stuck(s, |s.messages|))
  {
    ReachesIsClosed(limit, Initial(n));
    if GoodSize(n) {
      if n > HALF { Division(WORD, n, 1, WORD - n); }
      s := TooManyProducers(limit, x => Reaches(limit, Initial(n), x), n);
    } else {
      s := WrongSizeStalls(limit, x => Reaches(limit, Initial(n), x), n);
    }
  }

  /** The ring works, whatever producers and the consumer do and however often the handles
      wrap, exactly if the number of slots divides the handle range and the producers that are
      active at the same time fit. */
  lemma RingIsCorrect(limit: nat, n: nat)
    requires 0 < n < WORD && limit >= 1
    ensures (forall s, acts :: IsInit(s, n) && Legal(limit, s, acts) ==> Correct(limit, s, acts)) <==>
            GoodSize(n) && Fits(limit, n)
  {
    if GoodSize(n) && Fits(limit, n) {
      forall s, acts | IsInit(s, n) && Legal(limit, s, acts)
        ensures Correct(limit, s, acts)
      {
        RunCorrect(limit, n, s, acts);
      }
    } else {
      var s := GoesWrong(limit, n);
      var acts :| Legal(limit, Initial(n), acts) && After(limit, Initial(n), acts) == s;
      HandlesInOrder(limit, Initial(n), acts);
      assert Initial(n).messages + Sends(acts) == Sends(acts);
      assert !Correct(limit, Initial(n), acts);
    }
  }
}
