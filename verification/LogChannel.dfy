/** Debug log messages that are cut into packets on the device and put together again on the
    host. Packets of several hardware threads may arrive interleaved. */
module LogChannel {
  import opened Sequences
  import Ring = RingChannel

  const WORD := Ring.WORD     // the length field is 16 bits wide, too
  const SLOTS := 8
  const PAYLOAD := 108        // 128 bytes of a slot without its counter, two words and the length

  /** `bytes` is the truncated number of bytes that were left; `data` has room for a full
      payload, and what the message does not fill is whatever the slot held before. */
  datatype Packet = Packet(channel: nat, bytes: nat, data: string)

  // ------------------------------------------------------------------ sender

  function Min(a: nat, b: nat): nat { if a <= b then a else b }

  predicate IsPacket(p: Packet, channel: nat, msg: string) {
    && p.channel == channel && p.bytes == |msg| % WORD && |p.data| == PAYLOAD
    && p.data[..Min(|msg|, PAYLOAD)] == msg[..Min(|msg|, PAYLOAD)]
  }

  /** The packets of one message. */
  predicate Fragments(ps: seq<Packet>, channel: nat, msg: string)
    decreases |msg|
  {
    && ps != [] && IsPacket(ps[0], channel, msg)
    && if |msg| > PAYLOAD then Fragments(ps[1..], channel, msg[PAYLOAD..]) else |ps| == 1
  }

  /** The packets `ps` carry all of the message but `rest`. */
  predicate Begins(ps: seq<Packet>, channel: nat, msg: string, rest: string)
    decreases |ps|
  {
    if ps == [] then rest == msg
    else |msg| > PAYLOAD && IsPacket(ps[0], channel, msg) && Begins(ps[1..], channel, msg[PAYLOAD..], rest)
  }

  lemma {:induction false} MoreFragments(ps: seq<Packet>, p: Packet, channel: nat, msg: string, rest: string)
    requires Begins(ps, channel, msg, rest) && |rest| > PAYLOAD && IsPacket(p, channel, rest)
    ensures Begins(ps + [p], channel, msg, rest[PAYLOAD..])
    decreases |ps|
  {
    if ps != [] {
      MoreFragments(ps[1..], p, channel, msg[PAYLOAD..], rest);
      assert (ps + [p])[1..] == ps[1..] + [p];
    }
  }

  lemma {:induction false} LastFragment(ps: seq<Packet>, p: Packet, channel: nat, msg: string, rest: string)
    requires Begins(ps, channel, msg, rest) && |rest| <= PAYLOAD && IsPacket(p, channel, rest)
    ensures Fragments(ps + [p], channel, msg)
    decreases |ps|
  {
    if ps != [] {
      LastFragment(ps[1..], p, channel, msg[PAYLOAD..], rest);
      assert (ps + [p])[1..] == ps[1..] + [p];
    }
  }

  class Sink {
    var slots: seq<string>
    var writePos: nat
    var sent: seq<Packet>

    predicate Valid()
      reads this
    {
      |slots| == SLOTS && forall i :: 0 <= i < SLOTS ==> |slots[i]| == PAYLOAD
    }

    constructor (initial: seq<string>)
      requires |initial| == SLOTS && forall i :: 0 <= i < SLOTS ==> |initial[i]| == PAYLOAD
      ensures Valid() && sent == []
    {
      slots, writePos, sent := initial, 0, [];
    }

    /** Only the bytes of the message are written to the slot. */
    method SendPkg(msg: string, channel: nat)
      requires Valid()
      modifies this
      ensures Valid() && |sent| == |old(sent)| + 1 && sent[..|old(sent)|] == old(sent)
      ensures IsPacket(sent[|old(sent)|], channel, msg)
      ensures writePos == old(writePos) + 1
      ensures slots == old(slots)[old(writePos) % SLOTS := sent[|old(sent)|].data]
    {
      var i, n := writePos % SLOTS, Min(|msg|, PAYLOAD);
      slots := slots[i := msg[..n] + slots[i][n..]];
      sent := sent + [Packet(channel, |msg| % WORD, slots[i])];
      writePos := writePos + 1;
    }

    method Write(message: string, channel: nat)
      requires Valid()
      modifies this
      ensures Valid() && |sent| > |old(sent)| && sent[..|old(sent)|] == old(sent)
      ensures Fragments(sent[|old(sent)|..], channel, message)
      ensures writePos == old(writePos) + |sent| - |old(sent)|
    {
      var msg := message;
      ghost var done: seq<Packet> := [];
      while |msg| > PAYLOAD
        invariant Valid() && sent == old(sent) + done && Begins(done, channel, message, msg)
        invariant writePos == old(writePos) + |done|
        decreases |msg|
      {
        SendPkg(msg, channel);
        MoreFragments(done, sent[|sent| - 1], channel, message, msg);
        done := done + [sent[|sent| - 1]];
        msg := msg[PAYLOAD..];
      }
      SendPkg(msg, channel);
      LastFragment(done, sent[|sent| - 1], channel, message, msg);
      assert sent[|old(sent)|..] == done + [sent[|sent| - 1]];
    }
  }

  // ---------------------------------------------------------------- receiver

  datatype Entry = Entry(channel: nat, text: string)

  /** The messages under construction and the entries that were logged. */
  datatype Streams = Streams(open: map<nat, string>, logged: seq<Entry>) {
    function Stream(c: nat): string { if c in open then open[c] else "" }

    function Take(p: Packet): Streams
      requires |p.data| == PAYLOAD
    {
      if p.bytes <= PAYLOAD then
        Streams(open[p.channel := ""], logged + [Entry(p.channel, Stream(p.channel) + p.data[..p.bytes])])
      else
        Streams(open[p.channel := Stream(p.channel) + p.data], logged)
    }
  }

  predicate Sized(ps: seq<Packet>) { forall p :: p in ps ==> |p.data| == PAYLOAD }

  function TakeAll(h: Streams, ps: seq<Packet>): Streams
    requires Sized(ps)
    decreases |ps|
  {
    if ps == [] then h else TakeAll(h.Take(ps[0]), ps[1..])
  }

  /** What was logged for one channel. */
  function Logged(log: seq<Entry>, c: nat): seq<string> {
    if log == [] then []
    else Logged(log[..|log| - 1], c) + (if log[|log| - 1].channel == c then [log[|log| - 1].text] else [])
  }

  function Project(ps: seq<Packet>, c: nat): seq<Packet> {
    if ps == [] then [] else (if ps[0].channel == c then [ps[0]] else []) + Project(ps[1..], c)
  }

  class Collector {
    var messages: map<nat, string>
    var logged: seq<Entry>

    function View(): Streams
      reads this
    {
      Streams(messages, logged)
    }

    constructor ()
      ensures View() == Streams(map[], [])
    {
      messages, logged := map[], [];
    }

    method Receive(msg: Packet)
      requires |msg.data| == PAYLOAD
      modifies this
      ensures View() == old(View()).Take(msg)
    {
      if msg.channel !in messages {
        messages := messages[msg.channel := ""];
      }
      if msg.bytes <= PAYLOAD {
        logged := logged + [Entry(msg.channel, messages[msg.channel] + msg.data[..msg.bytes])];
        messages := messages[msg.channel := ""];
      } else {
        assert msg.data[..PAYLOAD] == msg.data;
        messages := messages[msg.channel := messages[msg.channel] + msg.data[..PAYLOAD]];
      }
    }

    /** The receive loop, for as many packets as arrive. */
    method Collect(arriving: seq<Packet>)
      requires Sized(arriving)
      modifies this
      ensures View() == TakeAll(old(View()), arriving)
    {
      var i := 0;
      while i < |arriving|
        invariant 0 <= i <= |arriving|
        invariant TakeAll(View(), arriving[i..]) == TakeAll(old(View()), arriving)
      {
        Receive(arriving[i]);
        assert arriving[i..][1..] == arriving[i + 1..];
        i := i + 1;
      }
    }
  }

  // ------------------------------------------------------- what one message becomes

  /** The entries that the host logs for a message, given what its stream already holds. */
  function Pieces(held: string, msg: string): seq<string>
    decreases |msg|
  {
    if |msg| <= PAYLOAD then [held + msg]
    else if |msg| % WORD <= PAYLOAD then [held + msg[..|msg| % WORD]] + Pieces("", msg[PAYLOAD..])
    else Pieces(held + msg[..PAYLOAD], msg[PAYLOAD..])
  }

  lemma {:induction false} ShortStaysWhole(held: string, msg: string)
    requires |msg| < WORD
    ensures Pieces(held, msg) == [held + msg]
    decreases |msg|
  {
    if |msg| > PAYLOAD {
      ShortStaysWhole(held + msg[..PAYLOAD], msg[PAYLOAD..]);
      assert held + msg[..PAYLOAD] + msg[PAYLOAD..] == held + msg;
    }
  }

  lemma {:induction false} AtLeastOne(held: string, msg: string)
    ensures |Pieces(held, msg)| >= 1
    decreases |msg|
  {
    if |msg| > PAYLOAD && |msg| % WORD > PAYLOAD { AtLeastOne(held + msg[..PAYLOAD], msg[PAYLOAD..]); }
  }

  /** The steps of a payload cannot jump over the lengths that look short once truncated. */
  lemma {:induction false} LongIsTornApart(held: string, msg: string)
    requires |msg| >= WORD
    ensures |Pieces(held, msg)| >= 2
    decreases |msg|
  {
    if |msg| % WORD <= PAYLOAD {
      AtLeastOne("", msg[PAYLOAD..]);
    } else {
      LongIsTornApart(held + msg[..PAYLOAD], msg[PAYLOAD..]);
    }
  }

  // ---------------------------------------------------------- whole channels

  /** The packets of several messages, one message after the other. */
  ghost predicate Sequence(ps: seq<Packet>, c: nat, messages: seq<string>)
    decreases |messages|
  {
    if messages == [] then ps == []
    else exists k :: 0 <= k <= |ps| && Fragments(ps[..k], c, messages[0]) && Sequence(ps[k..], c, messages[1..])
  }

  function Delivered(messages: seq<string>): seq<string> {
    if messages == [] then [] else Pieces("", messages[0]) + Delivered(messages[1..])
  }

  lemma {:induction false} TakeAllAppend(h: Streams, ps: seq<Packet>, qs: seq<Packet>)
    requires Sized(ps) && Sized(qs)
    ensures Sized(ps + qs) && TakeAll(h, ps + qs) == TakeAll(TakeAll(h, ps), qs)
    decreases |ps|
  {
    if ps == [] {
      assert ps + qs == qs;
    } else {
      assert (ps + qs)[1..] == ps[1..] + qs;
      TakeAllAppend(h.Take(ps[0]), ps[1..], qs);
    }
  }

  /** What a channel sees does not depend on the packets of the others. */
  predicate SameFor(g: Streams, h: Streams, c: nat) {
    g.Stream(c) == h.Stream(c) && Logged(g.logged, c) == Logged(h.logged, c)
  }

  lemma TakeSame(g: Streams, h: Streams, p: Packet, c: nat)
    requires SameFor(g, h, c) && |p.data| == PAYLOAD
    ensures p.channel == c ==> SameFor(g.Take(p), h.Take(p), c)
    ensures p.channel != c ==> SameFor(g.Take(p), h, c)
  {
  }

  lemma {:induction false} OthersDoNotMatter(g: Streams, h: Streams, ps: seq<Packet>, c: nat)
    requires Sized(ps) && SameFor(g, h, c)
    ensures Sized(Project(ps, c)) && SameFor(TakeAll(g, ps), TakeAll(h, Project(ps, c)), c)
    decreases |ps|
  {
    if ps != [] {
      TakeSame(g, h, ps[0], c);
      if ps[0].channel == c {
        OthersDoNotMatter(g.Take(ps[0]), h.Take(ps[0]), ps[1..], c);
        assert Project(ps, c)[1..] == Project(ps[1..], c);
      } else {
        OthersDoNotMatter(g.Take(ps[0]), h, ps[1..], c);
        assert Project(ps, c) == Project(ps[1..], c);
      }
    }
  }

  /** The bytes that the host takes from a packet. */
  lemma PacketText(p: Packet, c: nat, msg: string)
    requires IsPacket(p, c, msg)
    ensures |msg| <= PAYLOAD ==> p.bytes == |msg| && p.data[..p.bytes] == msg
    ensures |msg| > PAYLOAD ==> p.data == msg[..PAYLOAD]
    ensures |msg| > PAYLOAD && p.bytes <= PAYLOAD ==> p.data[..p.bytes] == msg[..p.bytes]
  {
  }

  lemma TakePacket(h: Streams, p: Packet, c: nat)
    requires p.channel == c && |p.data| == PAYLOAD
    ensures p.bytes <= PAYLOAD ==>
      h.Take(p).Stream(c) == "" && Logged(h.Take(p).logged, c) == Logged(h.logged, c) + [h.Stream(c) + p.data[..p.bytes]]
    ensures p.bytes > PAYLOAD ==> h.Take(p).Stream(c) == h.Stream(c) + p.data && h.Take(p).logged == h.logged
  {
  }

  lemma {:induction false} OneMessage(h: Streams, ps: seq<Packet>, c: nat, msg: string)
    requires Fragments(ps, c, msg) && Sized(ps)
    ensures TakeAll(h, ps).Stream(c) == ""
    ensures Logged(TakeAll(h, ps).logged, c) == Logged(h.logged, c) + Pieces(h.Stream(c), msg)
    decreases |msg|
  {
    PacketText(ps[0], c, msg);
    TakePacket(h, ps[0], c);
    if |msg| > PAYLOAD {
      OneMessage(h.Take(ps[0]), ps[1..], c, msg[PAYLOAD..]);
      if ps[0].bytes <= PAYLOAD {
        Concat(Logged(h.logged, c), [h.Stream(c) + ps[0].data[..ps[0].bytes]], Pieces("", msg[PAYLOAD..]));
      }
    } else {
      assert ps[1..] == [];
    }
  }

  lemma {:induction false} AllMessages(h: Streams, ps: seq<Packet>, c: nat, messages: seq<string>)
    requires Sequence(ps, c, messages) && Sized(ps) && h.Stream(c) == ""
    ensures TakeAll(h, ps).Stream(c) == ""
    ensures Logged(TakeAll(h, ps).logged, c) == Logged(h.logged, c) + Delivered(messages)
    decreases |messages|
  {
    if messages != [] {
      var k :| 0 <= k <= |ps| && Fragments(ps[..k], c, messages[0]) && Sequence(ps[k..], c, messages[1..]);
      var first, rest := ps[..k], ps[k..];
      assert ps == first + rest;
      TakeAllAppend(h, first, rest);
      OneMessage(h, first, c, messages[0]);
      AllMessages(TakeAll(h, first), rest, c, messages[1..]);
      Concat(Logged(h.logged, c), Pieces("", messages[0]), Delivered(messages[1..]));
    }
  }

  lemma {:induction false} ProjectAppend(ps: seq<Packet>, qs: seq<Packet>, c: nat)
    ensures Project(ps + qs, c) == Project(ps, c) + Project(qs, c)
  {
    if ps == [] {
      assert ps + qs == qs;
    } else {
      CutFirst(ps, qs, 1);
      ProjectAppend(ps[1..], qs, c);
      Concat(if ps[0].channel == c then [ps[0]] else [], Project(ps[1..], c), Project(qs, c));
    }
  }

  lemma {:induction false} ProjectFragments(ps: seq<Packet>, channel: nat, msg: string, c: nat)
    requires Fragments(ps, channel, msg)
    ensures Project(ps, c) == if c == channel then ps else []
    decreases |msg|
  {
    if |msg| > PAYLOAD { ProjectFragments(ps[1..], channel, msg[PAYLOAD..], c); } else { assert ps[1..] == []; }
  }

  lemma OneSequence(qs: seq<Packet>, c: nat, msg: string)
    requires Fragments(qs, c, msg)
    ensures Sequence(qs, c, [msg])
  {
    assert qs[..|qs|] == qs && qs[|qs|..] == [];
    assert Sequence([], c, [msg][1..]);
  }

  lemma {:induction false} SequenceSnoc(ps: seq<Packet>, qs: seq<Packet>, c: nat, messages: seq<string>, msg: string)
    requires Sequence(ps, c, messages) && Fragments(qs, c, msg)
    ensures Sequence(ps + qs, c, messages + [msg])
    decreases |messages|
  {
    if messages == [] {
      assert ps + qs == qs && messages + [msg] == [msg];
      OneSequence(qs, c, msg);
    } else {
      var k :| 0 <= k <= |ps| && Fragments(ps[..k], c, messages[0]) && Sequence(ps[k..], c, messages[1..]);
      SequenceSnoc(ps[k..], qs, c, messages[1..], msg);
      CutFirst(ps, qs, k);
      CutFirst(messages, [msg], 1);
      assert Fragments((ps + qs)[..k], c, messages[0]) && Sequence((ps + qs)[k..], c, messages[1..] + [msg]);
    }
  }

  /** Writing one more message to a channel, as `Sink.Write` does, adds it to the messages of
      this channel and does nothing to the other channels. */
  lemma OneMoreWrite(sent: seq<Packet>, more: seq<Packet>, channel: nat, msg: string, c: nat, messages: seq<string>)
    requires Sequence(Project(sent, c), c, messages) && Fragments(more, channel, msg)
    ensures Sequence(Project(sent + more, c), c, if c == channel then messages + [msg] else messages)
  {
    ProjectAppend(sent, more, c);
    ProjectFragments(more, channel, msg, c);
    if c == channel { SequenceSnoc(Project(sent, c), more, c, messages, msg); }
    else { assert Project(sent, c) + [] == Project(sent, c); }
  }

  predicate AllShort(messages: seq<string>) { forall m :: m in messages ==> |m| < WORD }

  lemma {:induction false} DeliveredCount(messages: seq<string>)
    ensures |Delivered(messages)| >= |messages|
    ensures !AllShort(messages) ==> |Delivered(messages)| > |messages|
    ensures AllShort(messages) ==> Delivered(messages) == messages
  {
    if messages != [] {
      var m := messages[0];
      DeliveredCount(messages[1..]);
      AtLeastOne("", m);
      if |m| >= WORD {
        LongIsTornApart("", m);
      } else {
        ShortStaysWhole("", m);
        assert "" + m == m;
      }
      assert messages == [m] + messages[1..];
    }
  }

  /** Whatever else arrives in between, the host logs for a channel exactly the messages that
      were written to it, in order, if and only if none is as long as the length field can
      count; and nothing stays behind in the channel's stream. */
  lemma LogIsDelivered(arriving: seq<Packet>, c: nat, messages: seq<string>)
    requires Sized(arriving) && Sequence(Project(arriving, c), c, messages)
    ensures TakeAll(Streams(map[], []), arriving).Stream(c) == ""
    ensures Logged(TakeAll(Streams(map[], []), arriving).logged, c) == messages <==> AllShort(messages)
  {
    var h := Streams(map[], []);
    OthersDoNotMatter(h, h, arriving, c);
    AllMessages(h, Project(arriving, c), c, messages);
    DeliveredCount(messages);
  }

  // ----------------------------------------------------------- through the ring

  /** Messages of the ring stand for packets by their number. */
  predicate AreNumbers(packets: seq<Packet>, ms: seq<nat>) { forall i :: 0 <= i < |ms| ==> ms[i] < |packets| }

  function Decode(packets: seq<Packet>, ms: seq<nat>): seq<Packet>
    requires AreNumbers(packets, ms)
  {
    seq(|ms|, i requires 0 <= i < |ms| => packets[ms[i]])
  }

  lemma DecodeSized(packets: seq<Packet>, ms: seq<nat>)
    requires AreNumbers(packets, ms) && Sized(packets)
    ensures Sized(Decode(packets, ms))
  {
    var ps := Decode(packets, ms);
    forall p | p in ps
      ensures |p.data| == PAYLOAD
    {
      var i :| 0 <= i < |ps| && ps[i] == p;
      assert packets[ms[i]] in packets;
    }
  }

  /** What is logged stays logged. */
  lemma {:induction false} LogGrows(h: Streams, ps: seq<Packet>, c: nat)
    requires Sized(ps)
    ensures Logged(h.logged, c) <= Logged(TakeAll(h, ps).logged, c)
    decreases |ps|
  {
    if ps != [] {
      var h' := h.Take(ps[0]);
      assert h'.logged == h.logged || h'.logged[..|h'.logged| - 1] == h.logged;
      LogGrows(h', ps[1..], c);
    }
  }

  lemma LogOfPrefix(all: seq<Packet>, now: seq<Packet>, c: nat, messages: seq<string>)
    requires Sized(all) && now <= all && Sequence(Project(all, c), c, messages)
    ensures Sized(now) && Logged(TakeAll(Streams(map[], []), now).logged, c) <= Delivered(messages)
  {
    var h, rest := Streams(map[], []), all[|now|..];
    assert all == now + rest;
    TakeAllAppend(h, now, rest);
    LogGrows(TakeAll(h, now), rest, c);
    OthersDoNotMatter(h, h, all, c);
    AllMessages(h, Project(all, c), c, messages);
  }

  /** The threads of several channels send their packets through the ring, those of channel `c`
      the packets of `messages` in order. Whatever the schedule, the log of the channel is at
      any time a prefix of what the messages become, and when the host has received
      everything it is exactly the messages if and only if all of them are short. */
  lemma LogThroughRing(limit: nat, n: nat, s: Ring.State, acts: seq<Ring.Act>,
                       packets: seq<Packet>, c: nat, messages: seq<string>)
    requires Ring.IsInit(s, n) && Ring.GoodSize(n) && Ring.Fits(limit, n) && Ring.Legal(limit, s, acts)
    requires Sized(packets) && AreNumbers(packets, Ring.Sends(acts))
    requires Sequence(Project(Decode(packets, Ring.Sends(acts)), c), c, messages)
    ensures
      var s' := Ring.After(limit, s, acts);
      && s'.received <= Ring.Sends(acts) && Sized(Decode(packets, s'.received))
      && var log := Logged(TakeAll(Streams(map[], []), Decode(packets, s'.received)).logged, c);
         && log <= Delivered(messages)
         && (s'.received == Ring.Sends(acts) ==> (log == messages <==> AllShort(messages)))
  {
    var s' := Ring.After(limit, s, acts);
    Ring.RunCorrect(limit, n, s, acts);
    var all, now := Decode(packets, Ring.Sends(acts)), Decode(packets, s'.received);
    DecodeSized(packets, Ring.Sends(acts));
    assert now <= all;
    LogOfPrefix(all, now, c, messages);
    LogIsDelivered(all, c, messages);
  }
}
