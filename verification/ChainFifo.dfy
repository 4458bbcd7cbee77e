/** The multi-producer queue at the granularity of its atomic memory accesses, and the proof
    that it behaves like `TaskQueue`.

    A push marks its tasklet, exchanges the shared tail and then stores the old tail into the
    tasklet. Any number of pushes can be between these steps while the puller pulls. */
module ChainFifo {
  import opened Options
  import opened Sequences
  import opened TaskQueue

  /** The values of the atomic words: tails and next links. */
  datatype Word = Free | Incomplete | Locked | Unused | Init | Ptr(t: nat)

  /** Where the push of a tasklet stands. */
  datatype Producer = Marked | Exchanged(seen: Word)

  /** Where the thread stands that pulls, releases and pushes privately. One thread at a time
      does so, but not always the one that took the token: a place that enters the kernel
      pulls although the push that took the token is not complete yet, and it pulls again
      after it has released the queue. */
  datatype Puller =
    | Idle
    | TakenPrivate(t: nat)                   // pull: detached the private tail
    | StorePrivate(t: nat, n: Word)
    | PrivateEmpty
    | Walk(t: nat)                           // pull: at the newest tasklet that is not moved yet
    | WalkPush(t: nat, u: nat)
    | WalkLink(t: nat, u: nat, p: Word)
    | Return(t: nat)
    | LinkPrivate(t: nat, below: Word)         // pushPrivate: exchanged the private tail

  /** `busy` are the tasklets that were given to the queue and not returned yet. */
  datatype State = State(
    sharedTail: Word, privateTail: Word, links: map<nat, Word>,
    producers: map<nat, Producer>, puller: Puller, busy: set<nat>)
  {
    function Next(t: nat): Word { if t in links then links[t] else Unused }
    function SetNext(t: nat, w: Word): State { this.(links := links[t := w]) }
  }

  const INIT := State(Free, Free, map[], map[], Idle, {})

  datatype Act =
    | Mark(t: nat) | Exchange(t: nat) | Complete(t: nat)                   // push
    | Acquire | Release                                                    // tryAcquire, tryRelease
    | PullPrivate | PullNext | PullStore | PullShared                      // pull
    | PullWalk | PullPush | PullLink | PullReturn
    | PrivateExchange(t: nat) | PrivateLink                                // pushPrivate

  predicate Enabled(c: State, a: Act) {
    match a
    case Mark(t) => t !in c.busy
    case Exchange(t) => t in c.producers && c.producers[t] == Marked
    case Complete(t) => t in c.producers && c.producers[t].Exchanged?
    case Acquire => true
    case Release => c.puller.Idle?
    case PullPrivate => c.puller.Idle?
    case PullNext => c.puller.TakenPrivate?
    case PullStore => c.puller.StorePrivate?
    case PullShared => c.puller.PrivateEmpty?
    case PullWalk => c.puller.Walk?
    case PullPush => c.puller.WalkPush?
    case PullLink => c.puller.WalkLink?
    case PullReturn => c.puller.Return?
    case PrivateExchange(t) => c.puller.Idle? && t !in c.busy
    case PrivateLink => c.puller.LinkPrivate?
  }

  function Do(c: State, a: Act): State
    requires Enabled(c, a)
  {
    match a
    case Mark(t) =>
      c.SetNext(t, Incomplete).(producers := c.producers[t := Marked], busy := c.busy + {t})
    case Exchange(t) =>
      c.(sharedTail := Ptr(t), producers := c.producers[t := Exchanged(c.sharedTail)])
    case Complete(t) => c.SetNext(t, c.producers[t].seen).(producers := c.producers - {t})
    case Acquire => if c.sharedTail == Free then c.(sharedTail := Locked) else c
    case Release => if c.sharedTail == Locked then c.(sharedTail := Free) else c
    case PullPrivate =>
      c.(privateTail := Free,
         puller := if c.privateTail.Ptr? then TakenPrivate(c.privateTail.t) else PrivateEmpty)
    case PullNext =>
      var t := c.puller.t;
      c.SetNext(t, Init).(puller := StorePrivate(t, c.Next(t)))
    case PullStore =>
      c.(privateTail := c.puller.n, puller := Idle, busy := c.busy - {c.puller.t})
    case PullShared =>
      c.(sharedTail := Locked, puller := if c.sharedTail.Ptr? then Walk(c.sharedTail.t) else Idle)
    case PullWalk =>
      var t := c.puller.t;
      var n := c.Next(t);
      c.SetNext(t, Incomplete).(puller :=
        match n
        case Ptr(u) => WalkPush(t, u)
        case Free => Return(t)
        case Locked => Return(t)
        case _ => c.puller)                    // the push is incomplete: try again
    case PullPush =>
      c.(privateTail := Ptr(c.puller.t), puller := WalkLink(c.puller.t, c.puller.u, c.privateTail))
    case PullLink =>
      c.SetNext(c.puller.t, c.puller.p).(puller := Walk(c.puller.u))
    case PullReturn =>
      c.(puller := Idle, busy := c.busy - {c.puller.t})
    case PrivateExchange(t) =>
      c.(privateTail := Ptr(t), puller := LinkPrivate(t, c.privateTail), busy := c.busy + {t})
    case PrivateLink =>
      c.SetNext(c.puller.t, c.puller.below).(puller := Idle)
  }

  /** What the abstract queue does at a step: the exchanges of the tails are where pushes and
      pulls take effect. */
  datatype Spec = Spec(queue: Queue, pulling: Option<nat>, pushed: seq<nat>, returned: seq<nat>)

  const SPEC_INIT := Spec(EMPTY_QUEUE, None, [], [])

  function Follow(c: State, a: Act, s: Spec): Spec
    requires Enabled(c, a)
  {
    match a
    case Exchange(t) => s.(queue := s.queue.Push(t), pushed := s.pushed + [t])
    case Acquire => s.(queue := s.queue.TryAcquire())
    case Release => s.(queue := s.queue.TryRelease())
    case PullPrivate =>
      if s.queue.local == [] then s     // takes effect at the shared tail
      else s.(queue := s.queue.Pull(), pulling := s.queue.PullResult())
    case PullShared => s.(queue := s.queue.Pull(), pulling := s.queue.PullResult())
    case PullStore => s.(pulling := None, returned := s.returned + [c.puller.t])
    case PullReturn => s.(pulling := None, returned := s.returned + [c.puller.t])
    case PrivateExchange(t) => s.(queue := s.queue.PushPrivate(t), pushed := s.pushed + [t])
    case _ => s
  }

  // --------------------------------------------------------------- refinement

  /** The link that a tasklet has once its push is complete. */
  function LogicalNext(c: State, t: nat): Word {
    if t in c.producers && c.producers[t].Exchanged? then c.producers[t].seen else c.Next(t)
  }

  /** `w` starts the private chain of `s`, oldest first. */
  ghost predicate PrivateChain(c: State, w: Word, s: seq<nat>) {
    && w == (if s == [] then Free else Ptr(s[0]))
    && forall i {:trigger c.Next(s[i])} :: 0 <= i < |s| ==> c.Next(s[i]) == if i + 1 < |s| then Ptr(s[i + 1]) else Free
  }

  ghost predicate IsBase(w: Word) { w == Free || w == Locked }

  /** The tasklets `s` are chained from the newest back to the oldest. */
  ghost predicate SharedChain(c: State, s: seq<nat>) {
    forall i {:trigger LogicalNext(c, s[i])} :: 0 <= i < |s| ==>
      if i > 0 then LogicalNext(c, s[i]) == Ptr(s[i - 1]) else IsBase(LogicalNext(c, s[i]))
  }

  /** The chains behind the words: the private one, the detached one, the shared one. */
  datatype Chains = Chains(priv: seq<nat>, detached: seq<nat>, shared: seq<nat>)

  /** The tasklet in the puller's hands. */
  function Hand(o: Puller): seq<nat> {
    match o
    case TakenPrivate(t) => [t]
    case StorePrivate(t, n) => [t]
    case WalkPush(t, u) => [t]
    case WalkLink(t, u, p) => [t]
    case Return(t) => [t]
    case LinkPrivate(t, below) => [t]
    case _ => []
  }

  ghost predicate Disjoint(s: seq<nat>, r: seq<nat>) {
    forall t :: t in s ==> t !in r
  }

  /** No tasklet is in two places. */
  ghost predicate Apart(c: State, w: Chains) {
    && Distinct(w.priv) && Distinct(w.detached) && Distinct(w.shared)
    && Disjoint(w.priv, w.detached) && Disjoint(w.priv, w.shared) && Disjoint(w.detached, w.shared)
    && Disjoint(Hand(c.puller), w.priv) && Disjoint(Hand(c.puller), w.detached) && Disjoint(Hand(c.puller), w.shared)
  }

  /** The tasklet is queued or in the puller's hands. */
  ghost predicate Present(c: State, w: Chains, t: nat) {
    t in w.priv || t in w.detached || t in w.shared || t in Hand(c.puller)
  }

  ghost predicate PullerOk(c: State, w: Chains) {
    match c.puller
    case Idle => w.detached == [] && PrivateChain(c, c.privateTail, w.priv)
    case TakenPrivate(t) => w.detached == [] && c.privateTail == Free && PrivateChain(c, c.Next(t), w.priv)
    case StorePrivate(t, n) => w.detached == [] && c.privateTail == Free && PrivateChain(c, n, w.priv)
    case PrivateEmpty => w.detached == [] && w.priv == [] && c.privateTail == Free
    case Walk(t) =>
      w.detached != [] && w.detached[|w.detached| - 1] == t && PrivateChain(c, c.privateTail, w.priv)
    case WalkPush(t, u) =>
      w.detached != [] && w.detached[|w.detached| - 1] == u && PrivateChain(c, c.privateTail, w.priv)
    case WalkLink(t, u, p) =>
      && w.detached != [] && w.detached[|w.detached| - 1] == u
      && c.privateTail == Ptr(t) && PrivateChain(c, p, w.priv)
    case Return(t) => w.detached == [] && PrivateChain(c, c.privateTail, w.priv)
    case LinkPrivate(t, below) => w.detached == [] && c.privateTail == Ptr(t) && PrivateChain(c, below, w.priv)
  }

  ghost predicate ProducersOk(c: State, w: Chains) {
    && (forall t :: t in c.producers ==>
          && c.Next(t) == Incomplete && t in c.busy
          && (c.producers[t] == Marked ==> !Present(c, w, t))
          && (c.producers[t].Exchanged? ==> t in w.shared || t in w.detached))
    && (forall t :: t in w.priv || t in Hand(c.puller) ==> t !in c.producers)
  }

  ghost predicate TailOk(c: State, w: Chains) {
    && (if w.shared == [] then IsBase(c.sharedTail) else c.sharedTail == Ptr(w.shared[|w.shared| - 1]))
    && (w.detached != [] ==> c.sharedTail != Free && (w.shared != [] ==> LogicalNext(c, w.shared[0]) == Locked))
  }

  /** The words in memory represent the chains. */
  ghost predicate Rep(c: State, w: Chains) {
    && Apart(c, w) && (forall t :: Present(c, w, t) ==> t in c.busy)
    && TailOk(c, w) && PullerOk(c, w) && ProducersOk(c, w)
    && SharedChain(c, w.shared) && SharedChain(c, w.detached)
  }

  /** The pull that is under way will return the oldest tasklet it detached. */
  function PullTarget(c: State, w: Chains): Option<nat> {
    match c.puller
    case TakenPrivate(t) => Some(t)
    case StorePrivate(t, n) => Some(t)
    case Walk(t) => if w.detached == [] then None else Some(w.detached[0])
    case WalkPush(t, u) => if w.detached == [] then None else Some(w.detached[0])
    case WalkLink(t, u, p) => if w.detached == [] then None else Some(w.detached[0])
    case Return(t) => Some(t)
    case _ => None
  }

  /** The detached part of the abstract queue. */
  function LocalItems(c: State, w: Chains): seq<nat> {
    match c.puller
    case Walk(t) => if w.detached == [] then w.priv else w.detached[1..] + w.priv
    case WalkPush(t, u) => if w.detached == [] then w.priv else w.detached[1..] + [t] + w.priv
    case WalkLink(t, u, p) => if w.detached == [] then w.priv else w.detached[1..] + [t] + w.priv
    case LinkPrivate(t, below) => [t] + w.priv
    case _ => w.priv
  }

  /** The abstract state that the chains show. */
  ghost predicate View(c: State, w: Chains, s: Spec) {
    && s.queue == Queue(LocalItems(c, w), w.shared, c.sharedTail != Free)
    && s.pulling == PullTarget(c, w)
  }

  ghost predicate Refines(c: State, w: Chains, s: Spec) {
    Rep(c, w) && View(c, w, s)
  }

  /** How the chains change. */
  ghost function NextChains(c: State, a: Act, w: Chains): Chains
    requires Enabled(c, a)
  {
    match a
    case Exchange(t) => w.(shared := w.shared + [t])
    case PullPrivate => if w.priv == [] then w else w.(priv := w.priv[1..])
    case PullShared => w.(detached := w.shared, shared := [])
    case PullWalk =>
      if w.detached == [] || (!IsBase(c.Next(c.puller.t)) && !c.Next(c.puller.t).Ptr?) then w
      else w.(detached := w.detached[..|w.detached| - 1])
    case PullLink => w.(priv := [c.puller.t] + w.priv)
    case PrivateLink => w.(priv := [c.puller.t] + w.priv)
    case _ => w
  }

  // -------------------------------------------------------------------- steps

  lemma PrivateFrame(c: State, c': State, w: Word, s: seq<nat>)
    requires PrivateChain(c, w, s)
    requires forall t :: t in s ==> c'.Next(t) == c.Next(t)
    ensures PrivateChain(c', w, s)
  {
  }

  lemma PrivateCons(c: State, t: nat, w: Word, s: seq<nat>)
    requires PrivateChain(c, w, s) && c.Next(t) == w
    ensures PrivateChain(c, Ptr(t), [t] + s)
  {
  }

  lemma PrivateTail(c: State, w: Word, s: seq<nat>)
    requires PrivateChain(c, w, s) && s != []
    ensures PrivateChain(c, c.Next(s[0]), s[1..])
  {
  }

  lemma SharedFrame(c: State, c': State, s: seq<nat>)
    requires SharedChain(c, s)
    requires forall t :: t in s ==> LogicalNext(c', t) == LogicalNext(c, t)
    ensures SharedChain(c', s)
  {
  }

  lemma SharedSnoc(c: State, s: seq<nat>, t: nat)
    requires SharedChain(c, s)
    requires if s == [] then IsBase(LogicalNext(c, t)) else LogicalNext(c, t) == Ptr(s[|s| - 1])
    ensures SharedChain(c, s + [t])
  {
  }

  lemma SharedInit(c: State, s: seq<nat>)
    requires SharedChain(c, s) && s != []
    ensures SharedChain(c, s[..|s| - 1])
    ensures if |s| > 1 then LogicalNext(c, s[|s| - 1]) == Ptr(s[|s| - 2]) else IsBase(LogicalNext(c, s[|s| - 1]))
  {
  }

  /** The private chain does not change when the links of its tasklets do not. */
  lemma PullerFrame(c: State, c': State, w: Chains)
    requires PullerOk(c, w) && c'.puller == c.puller && c'.privateTail == c.privateTail
    requires forall t :: t in w.priv || t in Hand(c.puller) ==> c'.Next(t) == c.Next(t)
    ensures PullerOk(c', w)
  {
  }

  lemma MarkRep(c: State, w: Chains, t: nat)
    requires Rep(c, w) && Enabled(c, Mark(t))
    ensures Rep(Do(c, Mark(t)), NextChains(c, Mark(t), w))
  {
    var c' := Do(c, Mark(t));
    PullerFrame(c, c', w);
    SharedFrame(c, c', w.shared);
    SharedFrame(c, c', w.detached);
  }

  lemma ExchangeRep(c: State, w: Chains, t: nat)
    requires Rep(c, w) && Enabled(c, Exchange(t))
    ensures Rep(Do(c, Exchange(t)), NextChains(c, Exchange(t), w))
  {
    var c' := Do(c, Exchange(t));
    PullerFrame(c, c', w);
    SharedFrame(c, c', w.shared);
    SharedFrame(c, c', w.detached);
    SharedSnoc(c', w.shared, t);
  }

  lemma CompleteRep(c: State, w: Chains, t: nat)
    requires Rep(c, w) && Enabled(c, Complete(t))
    ensures Rep(Do(c, Complete(t)), NextChains(c, Complete(t), w))
  {
    var c' := Do(c, Complete(t));
    PullerFrame(c, c', w);
    SharedFrame(c, c', w.shared);
    SharedFrame(c, c', w.detached);
  }

  lemma AcquireRep(c: State, w: Chains)
    requires Rep(c, w) && Enabled(c, Acquire)
    ensures Rep(Do(c, Acquire), NextChains(c, Acquire, w))
  {
    var c' := Do(c, Acquire);
    if c.sharedTail == Free {
      PullerFrame(c, c', w);
      SharedFrame(c, c', w.shared);
      SharedFrame(c, c', w.detached);
    }
  }

  lemma ReleaseRep(c: State, w: Chains)
    requires Rep(c, w) && Enabled(c, Release)
    ensures Rep(Do(c, Release), NextChains(c, Release, w))
  {
    var c' := Do(c, Release);
    if c.sharedTail == Locked {
      PullerFrame(c, c', w);
      SharedFrame(c, c', w.shared);
      SharedFrame(c, c', w.detached);
    }
  }

  lemma PullPrivateRep(c: State, w: Chains)
    requires Rep(c, w) && Enabled(c, PullPrivate)
    ensures Rep(Do(c, PullPrivate), NextChains(c, PullPrivate, w))
  {
    var c' := Do(c, PullPrivate);
    if w.priv != [] {
      PrivateTail(c, c.privateTail, w.priv);
      PrivateFrame(c, c', c.Next(w.priv[0]), w.priv[1..]);
    }
    SharedFrame(c, c', w.shared);
    SharedFrame(c, c', w.detached);
  }

  lemma PullNextRep(c: State, w: Chains)
    requires Rep(c, w) && Enabled(c, PullNext)
    ensures Rep(Do(c, PullNext), NextChains(c, PullNext, w))
  {
    var c' := Do(c, PullNext);
    PrivateFrame(c, c', c.Next(c.puller.t), w.priv);
    SharedFrame(c, c', w.shared);
    SharedFrame(c, c', w.detached);
  }

  lemma PullStoreRep(c: State, w: Chains)
    requires Rep(c, w) && Enabled(c, PullStore)
    ensures Rep(Do(c, PullStore), NextChains(c, PullStore, w))
  {
    var c' := Do(c, PullStore);
    PrivateFrame(c, c', c.puller.n, w.priv);
    SharedFrame(c, c', w.shared);
    SharedFrame(c, c', w.detached);
  }

  lemma PullSharedRep(c: State, w: Chains)
    requires Rep(c, w) && Enabled(c, PullShared)
    ensures Rep(Do(c, PullShared), NextChains(c, PullShared, w))
  {
    var c' := Do(c, PullShared);
    SharedFrame(c, c', w.shared);
  }

  lemma PullWalkWaitRep(c: State, w: Chains)
    requires Rep(c, w) && Enabled(c, PullWalk) && !IsBase(c.Next(c.puller.t)) && !c.Next(c.puller.t).Ptr?
    ensures Rep(Do(c, PullWalk), w)
  {
    var c' := Do(c, PullWalk);
    SharedInit(c, w.detached);
    PullerFrame(c, c', w);
    SharedFrame(c, c', w.shared);
    SharedFrame(c, c', w.detached);
  }

  lemma PullWalkMoveRep(c: State, w: Chains)
    requires Rep(c, w) && Enabled(c, PullWalk) && (IsBase(c.Next(c.puller.t)) || c.Next(c.puller.t).Ptr?)
    ensures w.detached != [] && Rep(Do(c, PullWalk), w.(detached := w.detached[..|w.detached| - 1]))
  {
    var c' := Do(c, PullWalk);
    SharedInit(c, w.detached);
    PrivateFrame(c, c', c.privateTail, w.priv);
    SharedFrame(c, c', w.shared);
    SharedFrame(c, c', w.detached[..|w.detached| - 1]);
  }

  lemma PullWalkRep(c: State, w: Chains)
    requires Rep(c, w) && Enabled(c, PullWalk)
    ensures Rep(Do(c, PullWalk), NextChains(c, PullWalk, w))
  {
    if IsBase(c.Next(c.puller.t)) || c.Next(c.puller.t).Ptr? {
      PullWalkMoveRep(c, w);
    } else {
      PullWalkWaitRep(c, w);
    }
  }

  lemma PullPushRep(c: State, w: Chains)
    requires Rep(c, w) && Enabled(c, PullPush)
    ensures Rep(Do(c, PullPush), NextChains(c, PullPush, w))
  {
    var c' := Do(c, PullPush);
    PrivateFrame(c, c', c.privateTail, w.priv);
    SharedFrame(c, c', w.shared);
    SharedFrame(c, c', w.detached);
  }

  lemma PullLinkRep(c: State, w: Chains)
    requires Rep(c, w) && Enabled(c, PullLink)
    ensures Rep(Do(c, PullLink), NextChains(c, PullLink, w))
  {
    var c' := Do(c, PullLink);
    PrivateFrame(c, c', c.puller.p, w.priv);
    PrivateCons(c', c.puller.t, c.puller.p, w.priv);
    SharedFrame(c, c', w.shared);
    SharedFrame(c, c', w.detached);
  }

  lemma PullReturnRep(c: State, w: Chains)
    requires Rep(c, w) && Enabled(c, PullReturn)
    ensures Rep(Do(c, PullReturn), NextChains(c, PullReturn, w))
  {
    var c' := Do(c, PullReturn);
    PrivateFrame(c, c', c.privateTail, w.priv);
    SharedFrame(c, c', w.shared);
    SharedFrame(c, c', w.detached);
  }

  lemma PrivateExchangeRep(c: State, w: Chains, t: nat)
    requires Rep(c, w) && Enabled(c, PrivateExchange(t))
    ensures Rep(Do(c, PrivateExchange(t)), NextChains(c, PrivateExchange(t), w))
  {
    var c' := Do(c, PrivateExchange(t));
    PrivateFrame(c, c', c.privateTail, w.priv);
    SharedFrame(c, c', w.shared);
    SharedFrame(c, c', w.detached);
  }

  lemma PrivateLinkRep(c: State, w: Chains)
    requires Rep(c, w) && Enabled(c, PrivateLink)
    ensures Rep(Do(c, PrivateLink), NextChains(c, PrivateLink, w))
  {
    var c' := Do(c, PrivateLink);
    PrivateFrame(c, c', c.puller.below, w.priv);
    PrivateCons(c', c.puller.t, c.puller.below, w.priv);
    SharedFrame(c, c', w.shared);
    SharedFrame(c, c', w.detached);
  }

  lemma StepRep(c: State, a: Act, w: Chains)
    requires Rep(c, w) && Enabled(c, a)
    ensures Rep(Do(c, a), NextChains(c, a, w))
  {
    match a
    case Mark(t) => MarkRep(c, w, t);
    case Exchange(t) => ExchangeRep(c, w, t);
    case Complete(t) => CompleteRep(c, w, t);
    case Acquire => AcquireRep(c, w);
    case Release => ReleaseRep(c, w);
    case PullPrivate => PullPrivateRep(c, w);
    case PullNext => PullNextRep(c, w);
    case PullStore => PullStoreRep(c, w);
    case PullShared => PullSharedRep(c, w);
    case PullWalk => PullWalkRep(c, w);
    case PullPush => PullPushRep(c, w);
    case PullLink => PullLinkRep(c, w);
    case PullReturn => PullReturnRep(c, w);
    case PrivateExchange(t) => PrivateExchangeRep(c, w, t);
    case PrivateLink => PrivateLinkRep(c, w);
  }

  // -------------------------------------------------------------- refinement

  lemma PullPrivateView(c: State, w: Chains, s: Spec)
    requires Refines(c, w, s) && Enabled(c, PullPrivate)
    ensures View(Do(c, PullPrivate), NextChains(c, PullPrivate, w), Follow(c, PullPrivate, s))
  {
  }

  lemma PullSharedView(c: State, w: Chains, s: Spec)
    requires Refines(c, w, s) && Enabled(c, PullShared)
    ensures View(Do(c, PullShared), NextChains(c, PullShared, w), Follow(c, PullShared, s))
  {
  }

  lemma WalkItems(c: State, w: Chains, s: Spec)
    requires View(c, w, s) && Enabled(c, PullWalk) && w.detached != [] && w.detached[|w.detached| - 1] == c.puller.t
    requires if c.Next(c.puller.t).Ptr? then |w.detached| > 1 else IsBase(c.Next(c.puller.t)) ==> |w.detached| == 1
    ensures View(Do(c, PullWalk), NextChains(c, PullWalk, w), s)
  {
    if |w.detached| > 1 { DropFirst(w.detached); }
  }

  lemma PullWalkView(c: State, w: Chains, s: Spec)
    requires Refines(c, w, s) && Enabled(c, PullWalk)
    ensures View(Do(c, PullWalk), NextChains(c, PullWalk, w), Follow(c, PullWalk, s))
  {
    SharedInit(c, w.detached);
    WalkItems(c, w, s);
  }

  lemma PullLinkView(c: State, w: Chains, s: Spec)
    requires Refines(c, w, s) && Enabled(c, PullLink)
    ensures View(Do(c, PullLink), NextChains(c, PullLink, w), Follow(c, PullLink, s))
  {
  }

  /** Each memory access is a step of the abstract queue or leaves it unchanged. */
  lemma StepRefines(c: State, a: Act, w: Chains, s: Spec)
    requires Refines(c, w, s) && Enabled(c, a)
    ensures Refines(Do(c, a), NextChains(c, a, w), Follow(c, a, s))
  {
    StepRep(c, a, w);
    match a
    case PullPrivate => PullPrivateView(c, w, s);
    case PullShared => PullSharedView(c, w, s);
    case PullWalk => PullWalkView(c, w, s);
    case PullLink => PullLinkView(c, w, s);
    case _ =>
  }

  // --------------------------------------------------------------------- runs

  /** The accesses can be made one after the other, in any interleaving. */
  predicate Legal(c: State, acts: seq<Act>)
    decreases |acts|
  {
    acts == [] || (Enabled(c, acts[0]) && Legal(Do(c, acts[0]), acts[1..]))
  }

  function After(c: State, acts: seq<Act>): State
    requires Legal(c, acts)
    decreases |acts|
  {
    if acts == [] then c else After(Do(c, acts[0]), acts[1..])
  }

  /** The tasklets in the order in which their pushes exchanged a tail. */
  function Pushed(acts: seq<Act>): seq<nat> {
    if acts == [] then [] else PushedBy(acts[0]) + Pushed(acts[1..])
  }

  function PushedBy(a: Act): seq<nat> {
    match a
    case Exchange(t) => [t]
    case PrivateExchange(t) => [t]
    case _ => []
  }

  /** The tasklets that pulls returned, in order. */
  function Returned(c: State, acts: seq<Act>): seq<nat>
    requires Legal(c, acts)
    decreases |acts|
  {
    if acts == [] then [] else ReturnedBy(c, acts[0]) + Returned(Do(c, acts[0]), acts[1..])
  }

  function ReturnedBy(c: State, a: Act): seq<nat>
    requires Enabled(c, a)
  {
    match a
    case PullStore => [c.puller.t]
    case PullReturn => [c.puller.t]
    case _ => []
  }

  /** No private push among the accesses. */
  predicate Public(acts: seq<Act>) {
    acts == [] || (!acts[0].PrivateExchange? && Public(acts[1..]))
  }

  /** Every run of the concrete queue is a run of the abstract one. */
  lemma {:induction false} RunRefines(c: State, acts: seq<Act>, w: Chains, s: Spec) returns (w': Chains, s': Spec)
    requires Refines(c, w, s) && Legal(c, acts)
    ensures Refines(After(c, acts), w', s')
    ensures s'.pushed == s.pushed + Pushed(acts) && s'.returned == s.returned + Returned(c, acts)
    ensures Conserved(s) ==> Conserved(s')
    ensures InOrder(s) && Public(acts) ==> InOrder(s')
    decreases |acts|
  {
    if acts == [] {
      return w, s;
    }
    var a := acts[0];
    w', s' := RunStep(c, a, w, s);
    var mid := s';
    w', s' := RunRefines(Do(c, a), acts[1..], w', s');
    Concat(s.pushed, PushedBy(a), Pushed(acts[1..]));
    Concat(s.returned, ReturnedBy(c, a), Returned(Do(c, a), acts[1..]));
  }

  lemma RunStep(c: State, a: Act, w: Chains, s: Spec) returns (w': Chains, s': Spec)
    requires Refines(c, w, s) && Enabled(c, a)
    ensures Refines(Do(c, a), w', s')
    ensures s'.pushed == s.pushed + PushedBy(a) && s'.returned == s.returned + ReturnedBy(c, a)
    ensures Conserved(s) ==> Conserved(s')
    ensures InOrder(s) && !a.PrivateExchange? ==> InOrder(s')
  {
    w', s' := NextChains(c, a, w), Follow(c, a, s);
    StepRefines(c, a, w, s);
    StepInFlight(c, a, w, s);
    KeepsHistory(s, s', PushedBy(a), ReturnedBy(c, a), a.PrivateExchange?);
  }

  /** What was pushed and not returned: the pull under way, then the queue. */
  function InFlight(s: Spec): seq<nat> {
    (if s.pulling.Some? then [s.pulling.value] else []) + s.queue.Items()
  }

  /** Nothing is lost and nothing is duplicated. */
  ghost predicate Conserved(s: Spec) {
    multiset(s.pushed) == multiset(s.returned) + multiset(InFlight(s))
  }

  /** Pulls return in the order of the pushes. */
  ghost predicate InOrder(s: Spec) {
    s.pushed == s.returned + InFlight(s)
  }

  /** A step moves tasklets from the pushers into the queue and from the queue to the pullers. */
  ghost predicate Moves(s: Spec, s': Spec, pushed: seq<nat>, returned: seq<nat>, atFront: bool) {
    && s'.pushed == s.pushed + pushed && s'.returned == s.returned + returned
    && (pushed == [] || returned == [])
    && (if atFront then returned == [] && InFlight(s') == pushed + InFlight(s)
        else InFlight(s) + pushed == returned + InFlight(s'))
  }

  lemma KeepsHistory(s: Spec, s': Spec, pushed: seq<nat>, returned: seq<nat>, atFront: bool)
    requires Moves(s, s', pushed, returned, atFront)
    ensures Conserved(s) ==> Conserved(s')
    ensures InOrder(s) && !atFront ==> InOrder(s')
  {
    if atFront {
      assert multiset(InFlight(s')) == multiset(pushed) + multiset(InFlight(s));
    } else {
      assert multiset(InFlight(s)) + multiset(pushed) == multiset(returned) + multiset(InFlight(s')) by {
        assert multiset(InFlight(s) + pushed) == multiset(returned + InFlight(s'));
      }
      if Conserved(s) {
        Balance(multiset(s.returned), multiset(InFlight(s)), multiset(pushed), multiset(returned), multiset(InFlight(s')));
      }
      if InOrder(s) {
        Concat(s.returned, InFlight(s), pushed);
        Concat(s.returned, returned, InFlight(s'));
      }
    }
  }

  lemma Balance(r: multiset<nat>, f: multiset<nat>, dp: multiset<nat>, dr: multiset<nat>, f': multiset<nat>)
    requires f + dp == dr + f'
    ensures (r + f) + dp == (r + dr) + f'
  {
    assert (r + f) + dp == r + (f + dp);
    assert (r + dr) + f' == r + (dr + f');
  }

  lemma PushMoves(s: Spec, t: nat)
    ensures Moves(s, s.(queue := s.queue.Push(t), pushed := s.pushed + [t]), [t], [], false)
  {
  }

  lemma PushPrivateMoves(s: Spec, t: nat)
    requires s.pulling.None?
    ensures Moves(s, s.(queue := s.queue.PushPrivate(t), pushed := s.pushed + [t]), [t], [], true)
  {
  }

  lemma PullMoves(s: Spec)
    requires s.pulling.None?
    ensures Moves(s, s.(queue := s.queue.Pull(), pulling := s.queue.PullResult()), [], [], false)
  {
  }

  lemma ReturnMoves(s: Spec, t: nat)
    requires s.pulling == Some(t)
    ensures Moves(s, s.(pulling := None, returned := s.returned + [t]), [], [t], false)
  {
  }

  lemma SameItemsMove(s: Spec, q: Queue)
    requires q.Items() == s.queue.Items()
    ensures Moves(s, s.(queue := q), [], [], false)
  {
  }

  lemma StepInFlight(c: State, a: Act, w: Chains, s: Spec)
    requires View(c, w, s) && Enabled(c, a)
    ensures Moves(s, Follow(c, a, s), PushedBy(a), ReturnedBy(c, a), a.PrivateExchange?)
  {
    match a
    case Exchange(t) => PushMoves(s, t);
    case PrivateExchange(t) => PushPrivateMoves(s, t);
    case PullPrivate =>
      if s.queue.local == [] { SameItemsMove(s, s.queue); } else { PullMoves(s); }
    case PullShared => PullMoves(s);
    case PullStore => ReturnMoves(s, c.puller.t);
    case PullReturn => ReturnMoves(s, c.puller.t);
    case Acquire => SameItemsMove(s, s.queue.TryAcquire());
    case Release => SameItemsMove(s, s.queue.TryRelease());
    case _ => SameItemsMove(s, s.queue);
  }

  /** From the empty queue, for any number of producers in any phase of their push: what was
      pushed is what was returned plus what is still represented in memory, each tasklet as
      often. Without private pushes the order is that of the tail exchanges. */
  lemma QueueIsFifo(acts: seq<Act>) returns (w: Chains, s: Spec)
    requires Legal(INIT, acts)
    ensures Refines(After(INIT, acts), w, s)
    ensures multiset(Pushed(acts)) == multiset(Returned(INIT, acts)) + multiset(InFlight(s))
    ensures Public(acts) ==>
              Pushed(acts) == Returned(INIT, acts) + InFlight(s)
  {
    assert Refines(INIT, Chains([], [], []), SPEC_INIT);
    w, s := RunRefines(INIT, acts, Chains([], [], []), SPEC_INIT);
    assert s.pushed == Pushed(acts) && s.returned == Returned(INIT, acts);
  }

  /** A pull returns nothing exactly if all that was pushed before it looked at the shared tail
      had been returned. */
  lemma NothingMeansEmpty(acts: seq<Act>)
    requires Legal(INIT, acts) && Enabled(After(INIT, acts), PullShared)
    ensures Do(After(INIT, acts), PullShared).puller.Idle? <==> multiset(Pushed(acts)) == multiset(Returned(INIT, acts))
  {
    var w, s := QueueIsFifo(acts);
    assert InFlight(s) == w.shared;
    if multiset(Pushed(acts)) == multiset(Returned(INIT, acts)) {
      assert |multiset(w.shared)| == |w.shared|;
    }
  }

  /** Who is busy is being pushed or in the queue. */
  ghost predicate BusyOk(c: State, w: Chains) {
    forall t :: t in c.busy ==> t in c.producers || Present(c, w, t)
  }

  lemma StepBusy(c: State, a: Act, w: Chains)
    requires Rep(c, w) && BusyOk(c, w) && Enabled(c, a)
    ensures BusyOk(Do(c, a), NextChains(c, a, w))
  {
    var c', w' := Do(c, a), NextChains(c, a, w);
    forall t | t in c'.busy ensures t in c'.producers || Present(c', w', t) {
      if t in c.busy { assert t in c.producers || Present(c, w, t); }
      if a == PullWalk { SharedInit(c, w.detached); }
    }
  }

  lemma {:induction false} RunBusy(c: State, acts: seq<Act>, w: Chains, s: Spec) returns (w': Chains, s': Spec)
    requires Refines(c, w, s) && BusyOk(c, w) && Legal(c, acts)
    ensures Refines(After(c, acts), w', s') && BusyOk(After(c, acts), w')
    decreases |acts|
  {
    w', s' := w, s;
    if acts != [] {
      StepRefines(c, acts[0], w, s);
      StepBusy(c, acts[0], w);
      w', s' := RunBusy(Do(c, acts[0]), acts[1..], NextChains(c, acts[0], w), Follow(c, acts[0], s));
    }
  }

  lemma PresentInFlight(c: State, w: Chains, s: Spec, t: nat)
    requires Refines(c, w, s)
    ensures Present(c, w, t) <==> t in InFlight(s)
  {
    if w.detached != [] { assert w.detached == [w.detached[0]] + w.detached[1..]; }
  }

  /** A tasklet that was returned can be pushed again: one is busy exactly while its push is not
      complete or it is in flight. */
  lemma WhoIsBusy(acts: seq<Act>, t: nat) returns (w: Chains, s: Spec)
    requires Legal(INIT, acts)
    ensures Refines(After(INIT, acts), w, s)
    ensures t in After(INIT, acts).busy <==> t in After(INIT, acts).producers || t in InFlight(s)
  {
    assert Refines(INIT, Chains([], [], []), SPEC_INIT);
    w, s := RunBusy(INIT, acts, Chains([], [], []), SPEC_INIT);
    PresentInFlight(After(INIT, acts), w, s, t);
  }

  /** What the puller has in hand has lost its link. */
  predicate Detached(c: State) {
    match c.puller
    case StorePrivate(t, n) => c.Next(t) == Init
    case WalkPush(t, u) => c.Next(t) == Incomplete
    case WalkLink(t, u, p) => c.Next(t) == Incomplete
    case Return(t) => c.Next(t) == Incomplete
    case _ => true
  }

  lemma StepDetached(c: State, a: Act, w: Chains)
    requires Rep(c, w) && Detached(c) && Enabled(c, a)
    ensures Detached(Do(c, a))
  {
    if c.puller.StorePrivate? || c.puller.WalkPush? || c.puller.WalkLink? || c.puller.Return? {
      assert c.puller.t in Hand(c.puller) && Present(c, w, c.puller.t);
    }
  }

  lemma {:induction false} RunDetached(c: State, acts: seq<Act>, w: Chains)
    requires Rep(c, w) && Detached(c) && Legal(c, acts)
    ensures Detached(After(c, acts))
    decreases |acts|
  {
    if acts != [] {
      StepRep(c, acts[0], w);
      StepDetached(c, acts[0], w);
      RunDetached(Do(c, acts[0]), acts[1..], NextChains(c, acts[0], w));
    }
  }

  /** What a pull returns has no link into the queue any more. */
  lemma ReturnedIsDetached(acts: seq<Act>, a: Act)
    requires Legal(INIT, acts) && Enabled(After(INIT, acts), a) && (a == PullStore || a == PullReturn)
    ensures
      var c := After(INIT, acts);
      Do(c, a).Next(c.puller.t) == if a == PullStore then Init else Incomplete
  {
    RunDetached(INIT, acts, Chains([], [], []));
  }

  // ----------------------------------------------------------------- progress

  /** How many accesses the puller needs for the operation that is under way. */
  function PullWork(c: State, w: Chains): nat {
    match c.puller
    case Idle => 0
    case TakenPrivate(t) => 2
    case StorePrivate(t, n) => 1
    case PrivateEmpty => 3 * |w.shared| + 1
    case Walk(t) => 3 * |w.detached|
    case WalkPush(t, u) => 3 * |w.detached| + 2
    case WalkLink(t, u, p) => 3 * |w.detached| + 1
    case Return(t) => 1
    case LinkPrivate(t, below) => 1
  }

  /** The puller goes on with its operation. */
  predicate IsPullerStep(c: State, a: Act) {
    Enabled(c, a) && !c.puller.Idle? && !a.Mark? && !a.Exchange? && !a.Complete? && !a.Acquire?
  }

  /** Each access of the puller brings its operation forward, except that it waits at a tasklet
      while the push of just this tasklet is not complete. */
  lemma PullAdvances(c: State, w: Chains, a: Act)
    requires Rep(c, w) && IsPullerStep(c, a)
    ensures
      var c' := Do(c, a);
      if a == PullWalk && c.puller.t in c.producers then c'.puller == c.puller
      else PullWork(c', NextChains(c, a, w)) < PullWork(c, w)
  {
    if a == PullWalk { SharedInit(c, w.detached); }
  }

  /** A step of somebody else makes the operation longer only by a push before the puller has
      looked at the shared tail. */
  lemma OthersDoNotDelay(c: State, w: Chains, a: Act)
    requires Rep(c, w) && Enabled(c, a) && (a.Mark? || a.Exchange? || a.Complete? || a.Acquire?)
    ensures
      PullWork(Do(c, a), NextChains(c, a, w)) == PullWork(c, w) + if c.puller == PrivateEmpty && a.Exchange? then 3 else 0
  {
  }

  /** A push that is about to report that it took the token is the only such push, and the
      token is still taken. */
  lemma OneTaker(c: State, w: Chains, t: nat, u: nat)
    requires Rep(c, w) && t in c.producers && c.producers[t] == Exchanged(Free)
    ensures c.sharedTail != Free
    ensures u in c.producers && c.producers[u] == Exchanged(Free) ==> u == t
  {
    assert LogicalNext(c, t) == Free;
    assert u in c.producers && c.producers[u] == Exchanged(Free) ==> LogicalNext(c, u) == Free;
  }

  /** How often an access takes the token, and how often it gives it back. */
  function TakenBy(c: State, a: Act): nat {
    if c.sharedTail == Free && (a.Exchange? || a == Acquire || a == PullShared) then 1 else 0
  }

  function GivenBy(c: State, a: Act): nat { if c.sharedTail == Locked && a == Release then 1 else 0 }

  function Taken(c: State, acts: seq<Act>): nat
    requires Legal(c, acts)
    decreases |acts|
  {
    if acts == [] then 0 else TakenBy(c, acts[0]) + Taken(Do(c, acts[0]), acts[1..])
  }

  function Given(c: State, acts: seq<Act>): nat
    requires Legal(c, acts)
    decreases |acts|
  {
    if acts == [] then 0 else GivenBy(c, acts[0]) + Given(Do(c, acts[0]), acts[1..])
  }

  function Held(c: State): nat { if c.sharedTail == Free then 0 else 1 }

  /** In every run the token is taken at most once more than it is given back, and it is
      out exactly while the queue is not free. */
  lemma {:induction false} OneToken(c: State, acts: seq<Act>)
    requires Legal(c, acts)
    ensures Held(c) + Taken(c, acts) == Given(c, acts) + Held(After(c, acts))
    decreases |acts|
  {
    if acts != [] { OneToken(Do(c, acts[0]), acts[1..]); }
  }
}
