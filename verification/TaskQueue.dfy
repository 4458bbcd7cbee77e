/** The tasklet queue as its users see it: first in, first out, with an ownership token.

    `local` is the part that the owner has already detached, `incoming` the part that was
    pushed since; `held` tells whether somebody owns the queue. */
module TaskQueue {
  import opened Options
  import opened Sequences

  datatype Queue = Queue(local: seq<nat>, incoming: seq<nat>, held: bool) {
    function Items(): seq<nat> { local + incoming }

    /** A push takes the token if it was free: then `!held` is the pusher's return value. */
    function Push(t: nat): Queue { Queue(local, incoming + [t], true) }

    function TryAcquire(): Queue { this.(held := true) }

    /** Releasing fails while something was pushed. */
    function TryRelease(): Queue { if incoming == [] then this.(held := false) else this }

    function PushPrivate(t: nat): Queue { this.(local := [t] + local) }

    function PullResult(): Option<nat> {
      if local != [] then Some(local[0]) else if incoming != [] then Some(incoming[0]) else None
    }

    function Pull(): Queue {
      if local != [] then this.(local := local[1..])
      else if incoming != [] then Queue(incoming[1..], [], true)
      else this.(held := true)
    }
  }

  const EMPTY_QUEUE := Queue([], [], false)

  /** Pulling takes the oldest item, and finds nothing only if there is nothing. */
  lemma PullTakesOldest(q: Queue)
    ensures q.PullResult().Some? ==> q.Items() == [q.PullResult().value] + q.Pull().Items()
    ensures q.PullResult().None? ==> q.Items() == [] && q.Pull().Items() == []
  {
  }

  /** What was taken out, then what is in the queue: pulling moves the border, pushing appends. */
  lemma PullMovesBorder(taken: seq<nat>, q: Queue)
    ensures q.PullResult().Some? ==> (taken + [q.PullResult().value]) + q.Pull().Items() == taken + q.Items()
    ensures q.PullResult().None? ==> q.Pull().Items() == q.Items()
  {
    PullTakesOldest(q);
    if q.PullResult().Some? { Concat(taken, [q.PullResult().value], q.Pull().Items()); }
  }

  lemma PushAppends(taken: seq<nat>, q: Queue, t: nat)
    ensures taken + q.Push(t).Items() == (taken + q.Items()) + [t]
  {
    Concat(q.local, q.incoming, [t]);
    Concat(taken, q.Items(), [t]);
  }

  predicate Distinct(q: seq<nat>) {
    forall i, j :: 0 <= i < j < |q| ==> q[i] != q[j]
  }

  lemma DistinctSnoc(q: seq<nat>, t: nat)
    requires Distinct(q) && t !in q
    ensures Distinct(q + [t])
    ensures forall u :: u in q + [t] <==> u in q || u == t
  {
  }

  lemma DistinctTail(q: seq<nat>)
    requires Distinct(q) && q != []
    ensures Distinct(q[1..]) && q[0] !in q[1..]
    ensures forall u :: u in q <==> u in q[1..] || u == q[0]
  {
  }
}
