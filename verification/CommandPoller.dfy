/**
 * The box's poll of its queued commands: at most twenty per tick, oldest first, each one delivered,
 * failed for good, left pending, or given up after a day.
 */
module CommandPoller {
  import opened Wrappers

  const MAX_COMMANDS_PER_TICK := 20
  const MAX_COMMAND_AGE_BEFORE_GIVING_UP_MS := 24 * 60 * 60 * 1000

  datatype Status = Pending | Delivered | Failed

  datatype Command = Command(createdAt: int, status: Status)

  /** This box's commands, oldest first. */
  type Queue = seq<Command>

  /** What the node answered, or nothing for a transport failure, and the time right after. */
  datatype Reply = Reply(status: Option<int>, now: int)

  predicate Accepts(reply: Reply) {
    reply.status.Some? && 200 <= reply.status.value < 300
  }

  predicate IsTerminallyRejected(reply: Reply) {
    reply.status.Some? && reply.status.value in [422, 400, 413]
  }

  predicate TooOld(c: Command, reply: Reply) {
    reply.now - c.createdAt > MAX_COMMAND_AGE_BEFORE_GIVING_UP_MS
  }

  function Settled(c: Command, reply: Reply): Status {
    if Accepts(reply) then Delivered
    else if IsTerminallyRejected(reply) || TooOld(c, reply) then Failed
    else Pending
  }

  /** How many of the first `j` commands are pending. */
  function Ahead(q: Queue, j: nat): nat
    requires j <= |q|
  {
    if j == 0 then 0 else Ahead(q, j - 1) + if q[j - 1].status.Pending? then 1 else 0
  }

  function Fetched(q: Queue): nat {
    if Ahead(q, |q|) <= MAX_COMMANDS_PER_TICK then Ahead(q, |q|) else MAX_COMMANDS_PER_TICK
  }

  predicate InTick(q: Queue, j: nat)
    requires j < |q|
  {
    q[j].status.Pending? && Ahead(q, j) < MAX_COMMANDS_PER_TICK
  }

  /** A completed tick: the pending commands with fewer than twenty pending ones ahead are attempted. */
  function Tick(q: Queue, replies: seq<Reply>): (r: Queue)
    requires |replies| >= Fetched(q)
    ensures |r| == |q|
  {
    seq(|q|, j requires 0 <= j < |q| =>
      if InTick(q, j) then AheadFetched(q, j); q[j].(status := Settled(q[j], replies[Ahead(q, j)])) else q[j])
  }

  lemma {:induction false} AheadGrows(q: Queue, i: nat, j: nat)
    requires i <= j <= |q|
    ensures Ahead(q, i) <= Ahead(q, j)
    ensures i < j && q[i].status.Pending? ==> Ahead(q, i) < Ahead(q, j)
    decreases j
  {
    if i < j {
      AheadGrows(q, i, j - 1);
    }
  }

  lemma NoneAhead(q: Queue)
    ensures Ahead(q, 0) == 0
  {
  }

  lemma OneAhead(q: Queue, j: nat)
    requires j < |q|
    ensures Ahead(q, j + 1) == Ahead(q, j) + if q[j].status.Pending? then 1 else 0
  {
  }

  lemma AheadFetched(q: Queue, j: nat)
    requires j < |q| && InTick(q, j)
    ensures Ahead(q, j) < Fetched(q)
  {
    AheadGrows(q, j, |q|);
  }

  // ---------------------------------------------------------------- the loop

  datatype Summary = Summary(delivered: nat, failed: nat, deferred: nat)

  /** How many of the first `j` commands were pending in `q` and now have this status. */
  function Became(q: Queue, now: Queue, s: Status, j: nat): nat
    requires j <= |q| == |now|
  {
    if j == 0 then 0
    else Became(q, now, s, j - 1) + if q[j - 1].status.Pending? && now[j - 1].status == s then 1 else 0
  }

  lemma {:induction false} NothingBecame(q: Queue, s: Status, j: nat)
    requires j <= |q| && !s.Pending?
    ensures Became(q, q, s, j) == 0
  {
    if j > 0 {
      NothingBecame(q, s, j - 1);
    }
  }

  lemma {:induction false} OneBecame(q: Queue, now: Queue, s: Status, j: nat, id: nat, c: Command)
    requires j <= |q| == |now| && id < |q| && q[id].status.Pending? && now[id].status.Pending? && !s.Pending?
    ensures Became(q, now[id := c], s, j) == Became(q, now, s, j) + if id < j && c.status == s then 1 else 0
  {
    if j > 0 {
      OneBecame(q, now, s, j - 1, id, c);
    }
  }

  /** The queue when the first `k` commands of a tick have been attempted. */
  ghost predicate Attempted(q: Queue, now: Queue, replies: seq<Reply>, k: nat)
    requires k <= |replies|
  {
    && |now| == |q|
    && forall j :: 0 <= j < |q| ==>
         now[j] == if InTick(q, j) && Ahead(q, j) < k then q[j].(status := Settled(q[j], replies[Ahead(q, j)]))
                   else q[j]
  }

  lemma OneAttempted(q: Queue, now: Queue, ids: seq<nat>, replies: seq<Reply>, k: nat)
    requires k < |ids| <= |replies| && Attempts(q, ids) && Attempted(q, now, replies, k)
    ensures ids[k] < |q| && now[ids[k]] == q[ids[k]] && q[ids[k]].status.Pending?
    ensures Attempted(q, now[ids[k] := q[ids[k]].(status := Settled(q[ids[k]], replies[k]))], replies, k + 1)
  {
    hide Settled;
    assert Ahead(q, ids[k]) == k;
  }

  lemma AllAttempted(q: Queue, now: Queue, replies: seq<Reply>)
    requires |replies| >= Fetched(q) && Attempted(q, now, replies, Fetched(q))
    ensures now == Tick(q, replies)
  {
    hide Settled;
    forall j | 0 <= j < |q|
      ensures now[j] == Tick(q, replies)[j]
    {
      if InTick(q, j) {
        AheadFetched(q, j);
      }
    }
  }

  /** `ids` are the commands of the next tick, in order. */
  ghost predicate Attempts(q: Queue, ids: seq<nat>) {
    && |ids| == Fetched(q)
    && (forall k :: 0 <= k < |ids| ==> ids[k] < |q| && q[ids[k]].status.Pending? && Ahead(q, ids[k]) == k)
    && (forall j :: 0 <= j < |q| && InTick(q, j) ==> Ahead(q, j) < |ids| && ids[Ahead(q, j)] == j)
  }

  class Poller {
    var queue: Queue

    /** `fetchPendingCommands`: the oldest pending commands, at most twenty. */
    method FetchPendingCommands() returns (ids: seq<nat>)
      ensures Attempts(queue, ids)
    {
      hide Ahead;
      NoneAhead(queue);
      ids := [];
      var i := 0;
      while i < |queue| && |ids| < MAX_COMMANDS_PER_TICK
        invariant i <= |queue| && |ids| == Ahead(queue, i) <= MAX_COMMANDS_PER_TICK
        invariant forall k :: 0 <= k < |ids| ==>
                    ids[k] < i && queue[ids[k]].status.Pending? && Ahead(queue, ids[k]) == k
        invariant forall j :: 0 <= j < i && queue[j].status.Pending? ==>
                    Ahead(queue, j) < |ids| && ids[Ahead(queue, j)] == j
      {
        OneAhead(queue, i);
        if queue[i].status.Pending? { ids := ids + [i]; }
        i := i + 1;
      }
      AheadGrows(queue, i, |queue|);
      forall j | i <= j < |queue| && InTick(queue, j)
        ensures false
      {
        AheadGrows(queue, i, j);
      }
    }

    /** One tick. Without a network password it does nothing at all. */
    method PollAndDeliverCommands(hasPassword: bool, replies: seq<Reply>) returns (summary: Summary)
      requires hasPassword ==> |replies| >= Fetched(queue)
      modifies this
      ensures queue == if hasPassword then Tick(old(queue), replies) else old(queue)
      ensures summary.delivered + summary.failed + summary.deferred == if hasPassword then Fetched(old(queue)) else 0
      ensures summary.delivered == Became(old(queue), queue, Delivered, |queue|)
      ensures summary.failed == Became(old(queue), queue, Failed, |queue|)
    {
      hide Attempts, Attempted, Became, Tick;
      summary := Summary(0, 0, 0);
      NothingBecame(queue, Delivered, |queue|);
      NothingBecame(queue, Failed, |queue|);
      if !hasPassword { return; }
      ghost var q := queue;
      var pending := FetchPendingCommands();
      assert Attempted(q, queue, replies, 0) && |pending| == Fetched(q) by {
        NoneAttempted(q, pending, replies);
      }
      for k := 0 to |pending|
        invariant |queue| == |q| && Attempts(q, pending) && Attempted(q, queue, replies, k)
        invariant summary.delivered + summary.failed + summary.deferred == k
        invariant summary.delivered == Became(q, queue, Delivered, |q|)
        invariant summary.failed == Became(q, queue, Failed, |q|)
      {
        OneAttempted(q, queue, pending, replies, k);
        var id := pending[k];
        var command := queue[id];
        var result := replies[k].status;
        var age := replies[k].now - command.createdAt;
        ghost var after := command.(status := Settled(command, replies[k]));
        OneBecame(q, queue, Delivered, |q|, id, after);
        OneBecame(q, queue, Failed, |q|, id, after);
        if result.Some? && result.value >= 200 && result.value < 300 {
          queue := queue[id := command.(status := Delivered)];
          summary := summary.(delivered := summary.delivered + 1);
          continue;
        }
        if result.Some? && (result.value == 422 || result.value == 400 || result.value == 413) {
          queue := queue[id := command.(status := Failed)];
          summary := summary.(failed := summary.failed + 1);
          continue;
        }
        if age > MAX_COMMAND_AGE_BEFORE_GIVING_UP_MS {
          queue := queue[id := command.(status := Failed)];
          summary := summary.(failed := summary.failed + 1);
        } else {
          assert queue == queue[id := after];
          summary := summary.(deferred := summary.deferred + 1);
        }
      }
      AllAttempted(q, queue, replies);
    }
  }

  lemma NoneAttempted(q: Queue, ids: seq<nat>, replies: seq<Reply>)
    requires Attempts(q, ids)
    ensures Attempted(q, q, replies, 0) && |ids| == Fetched(q)
  {
  }

  // ---------------------------------------------------------------- runs

  datatype Event = Enqueue(now: int) | Poll(replies: seq<Reply>)

  ghost predicate InOrder(q: Queue) {
    forall i, j :: 0 <= i < j < |q| ==> q[i].createdAt <= q[j].createdAt
  }

  ghost predicate CanHappen(q: Queue, e: Event) {
    match e
    case Enqueue(now) => forall j :: 0 <= j < |q| ==> q[j].createdAt <= now
    case Poll(replies) => |replies| >= Fetched(q)
  }

  function Next(q: Queue, e: Event): Queue
    requires CanHappen(q, e)
  {
    match e
    case Enqueue(now) => q + [Command(now, Pending)]
    case Poll(replies) => Tick(q, replies)
  }

  ghost predicate Possible(q: Queue, events: seq<Event>)
    decreases |events|
  {
    events == [] || (CanHappen(q, events[0]) && Possible(Next(q, events[0]), events[1..]))
  }

  function After(q: Queue, events: seq<Event>): Queue
    requires Possible(q, events)
    decreases |events|
  {
    if events == [] then q else After(Next(q, events[0]), events[1..])
  }

  function Polls(events: seq<Event>): nat {
    if events == [] then 0 else Polls(events[1..]) + if events[0].Poll? then 1 else 0
  }

  lemma NextKeepsOrder(q: Queue, e: Event)
    requires InOrder(q) && CanHappen(q, e)
    ensures InOrder(Next(q, e)) && |Next(q, e)| >= |q|
    ensures forall j :: 0 <= j < |q| ==> Next(q, e)[j].createdAt == q[j].createdAt
  {
  }

  // Delivered and failed are final, whatever comes after.
  lemma {:induction false} TerminalNeverReverts(q: Queue, events: seq<Event>, j: nat)
    requires InOrder(q) && Possible(q, events) && j < |q| && !q[j].status.Pending?
    ensures j < |After(q, events)| && After(q, events)[j] == q[j]
    decreases |events|
  {
    if events != [] {
      NextKeepsOrder(q, events[0]);
      TerminalNeverReverts(Next(q, events[0]), events[1..], j);
    }
  }

  // A command fails only because the node refused its bytes for good or because it is too old, and is
  // delivered exactly when the node accepts it.
  lemma OutcomeHasAReason(q: Queue, replies: seq<Reply>, j: nat)
    requires |replies| >= Fetched(q) && j < |q| && q[j].status.Pending?
    ensures var s := Tick(q, replies)[j].status;
            && (!InTick(q, j) ==> s == Pending)
            && (InTick(q, j) ==>
                  Ahead(q, j) < |replies| &&
                  var r := replies[Ahead(q, j)];
                  var age := r.now - q[j].createdAt;
                  var accepted := r.status.Some? && 200 <= r.status.value <= 299;
                  var rejected := r.status in [Some(400), Some(413), Some(422)];
                  && (s == Delivered <==> accepted)
                  && (s == Failed <==> !accepted && (rejected || age > 86_400_000))
                  && (s == Pending <==> !accepted && !rejected && age <= 86_400_000))
  {
    if InTick(q, j) {
      AheadFetched(q, j);
    }
  }

  ghost predicate AllPast(replies: seq<Reply>, deadline: int) {
    forall k :: 0 <= k < |replies| ==> replies[k].now > deadline
  }

  ghost predicate PollsPast(events: seq<Event>, deadline: int) {
    forall i :: 0 <= i < |events| && events[i].Poll? ==> AllPast(events[i].replies, deadline)
  }

  // One tick clears twenty of the commands ahead of an expired one.
  lemma {:induction false} TickClears(q: Queue, replies: seq<Reply>, i: nat, j: nat)
    requires InOrder(q) && |replies| >= Fetched(q) && i < |q| && j <= i
    requires AllPast(replies, q[i].createdAt + 86_400_000)
    ensures var a := Ahead(q, j);
            Ahead(Tick(q, replies), j) == if a <= 20 then 0 else a - 20
    decreases j
  {
    if j > 0 {
      TickClears(q, replies, i, j - 1);
      if InTick(q, j - 1) {
        AheadFetched(q, j - 1);
      }
    }
  }

  // A command older than a day is terminal after floor(r / 20) + 1 completed ticks, r being the pending
  // commands ahead of it, whatever the node answers and whatever else is queued meanwhile.
  lemma {:induction false} ExpiredCommandsEnd(q: Queue, events: seq<Event>, i: nat)
    requires InOrder(q) && Possible(q, events) && i < |q|
    requires PollsPast(events, q[i].createdAt + 86_400_000)
    requires Polls(events) > Ahead(q, i) / 20
    ensures i < |After(q, events)| && !After(q, events)[i].status.Pending?
    decreases |events|
  {
    var e, rest := events[0], events[1..];
    var n := Next(q, e);
    NextKeepsOrder(q, e);
    assert PollsPast(rest, q[i].createdAt + MAX_COMMAND_AGE_BEFORE_GIVING_UP_MS) by {
      assert forall k :: 0 <= k < |rest| ==> rest[k] == events[k + 1];
    }
    if !q[i].status.Pending? {
      TerminalNeverReverts(q, events, i);
    } else if e.Enqueue? {
      AheadOfPrefix(q, n, i);
      ExpiredCommandsEnd(n, rest, i);
    } else if Ahead(q, i) < MAX_COMMANDS_PER_TICK {
      AheadFetched(q, i);
      assert AllPast(e.replies, q[i].createdAt + MAX_COMMAND_AGE_BEFORE_GIVING_UP_MS);
      TerminalNeverReverts(n, rest, i);
    } else {
      assert AllPast(e.replies, q[i].createdAt + MAX_COMMAND_AGE_BEFORE_GIVING_UP_MS);
      TickClears(q, e.replies, i, i);
      ExpiredCommandsEnd(n, rest, i);
    }
  }

  lemma {:induction false} AheadOfPrefix(q: Queue, longer: Queue, i: nat)
    requires i <= |q| <= |longer| && forall j :: 0 <= j < i ==> longer[j] == q[j]
    ensures Ahead(longer, i) == Ahead(q, i)
  {
    if i > 0 {
      AheadOfPrefix(q, longer, i - 1);
    }
  }
}
