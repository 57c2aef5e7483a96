/** The `EthGetLogs` calls of one sync round: which blocks they cover, how many there are, and how shrinking converges. */
module SyncQueries {
  import opened SyncRound

  // ----- Coverage -----

  /** How many successful queries include block `b`. */
  function TimesFetched(qs: seq<Query>, b: nat): nat {
    if qs == [] then 0
    else (if qs[0].ok && qs[0].from <= b <= qs[0].to then 1 else 0) + TimesFetched(qs[1..], b)
  }

  ghost predicate FetchesOnce(qs: seq<Query>, first: nat, end: nat) {
    forall b: nat :: TimesFetched(qs, b) == if first <= b < end then 1 else 0
  }

  lemma FetchesOnceMore(q: Query, rest: seq<Query>, end: nat)
    requires q.ok && q.from <= q.to + 1 <= end && FetchesOnce(rest, q.to + 1, end)
    ensures FetchesOnce([q] + rest, q.from, end)
  {
    forall b: nat ensures TimesFetched([q] + rest, b) == if q.from <= b < end then 1 else 0 {
      assert TimesFetched(rest, b) == if q.to + 1 <= b < end then 1 else 0;
      assert ([q] + rest)[1..] == rest;
    }
  }

  lemma FetchesOnceAfterFailure(q: Query, rest: seq<Query>, first: nat, end: nat)
    requires !q.ok && FetchesOnce(rest, first, end)
    ensures FetchesOnce([q] + rest, first, end)
  {
    forall b: nat ensures TimesFetched([q] + rest, b) == if first <= b < end then 1 else 0 {
      assert TimesFetched(rest, b) == if first <= b < end then 1 else 0;
      assert ([q] + rest)[1..] == rest;
    }
  }

  lemma NoQueriesFetchNothing(first: nat)
    ensures FetchesOnce([], first, first)
  {
  }

  /**
   The successful queries of a round cover a stretch of blocks from its start, each exactly once and no other block:
   all blocks up to the head when the round catches up, and otherwise at most those.
   */
  lemma {:induction false} QueriesTile(cfg: Config, oracle: Oracle, s: State, head: nat, start: nat, n: nat) returns (end: nat)
    requires s.batchSize >= 1 && start <= head + 1
    ensures var r := Rounds(cfg, oracle, s, head, start, n);
            && start <= end <= head + 1
            && FetchesOnce(r.queries, start, end)
            && (r.status == CaughtUp ==> end == head + 1)
    decreases BlocksLeft(start, head), s.batchSize
  {
    end := start;
    NoQueriesFetchNothing(start);
    if start <= head {
      var last := BatchEnd(start, s.batchSize, head);
      var o := oracle(n, start, last);
      StepAdvances(cfg, s, head, start, o);
      StepShape(cfg, s, head, start, o);
      var q := QueriesOf(o, start, last);
      match Step(cfg, s, head, start, o)
      case Stop(_, _) =>
        assert q + [] == q;
        if !o.Cancelled? {
          if q[0].ok {
            end := last + 1;
            NoQueriesFetchNothing(last + 1);
            FetchesOnceMore(q[0], [], last + 1);
          } else {
            FetchesOnceAfterFailure(q[0], [], start, start);
          }
        }
      case Continue(start', t) =>
        var rest := Rounds(cfg, oracle, t, head, start', n + 1).queries;
        end := QueriesTile(cfg, oracle, t, head, start', n + 1);
        if q[0].ok {
          FetchesOnceMore(q[0], rest, end);
        } else {
          FetchesOnceAfterFailure(q[0], rest, start, end);
        }
    }
  }

  /** Only an error ends an iteration's round, and only a cancellation keeps it from querying. */
  lemma StepShape(cfg: Config, s: State, head: nat, start: nat, o: Outcome)
    requires s.batchSize >= 1
    ensures var r := Step(cfg, s, head, start, o);
            && (r.Stop? ==> r.status != CaughtUp)
            && (o.Cancelled? || o.RpcError? ==> r.Stop?)
            && (o.RangeError? ==> (r.Stop? <==> s.batchSize == 1))
            && (o.Fine? ==> r.Continue?)
  {
  }

  // ----- The checkpoint -----

  ghost predicate EndsAt(qs: seq<Query>, b: nat) {
    exists i :: 0 <= i < |qs| && qs[i].ok && qs[i].to == b
  }

  /** From `s` to `t` over the queries `qs`: either nothing was delivered, or the checkpoint is the end of a query. */
  ghost predicate FollowsDelivery(s: State, t: State, qs: seq<Query>) {
    && s.handouts <= t.handouts
    && (forall i :: |s.handouts| <= i < |t.handouts| ==> t.handouts[i].logs != multiset{})
    && if t.handouts == s.handouts then t.checkpoint == s.checkpoint && t.saved == s.saved
       else t.checkpoint == t.saved && EndsAt(qs, t.checkpoint)
  }

  lemma FollowsFurther(s: State, t: State, u: State, q: seq<Query>, qs: seq<Query>)
    requires FollowsDelivery(s, t, q) && FollowsDelivery(t, u, qs)
    ensures FollowsDelivery(s, u, q + qs)
  {
    forall i | |s.handouts| <= i < |u.handouts| ensures u.handouts[i].logs != multiset{} {
      if i < |t.handouts| { assert u.handouts[i] == t.handouts[i]; }
    }
    if u.handouts != t.handouts {
      var i :| 0 <= i < |qs| && qs[i].ok && qs[i].to == u.checkpoint;
      assert (q + qs)[|q| + i] == qs[i];
    } else if t.handouts != s.handouts {
      var i :| 0 <= i < |q| && q[i].ok && q[i].to == t.checkpoint;
      assert (q + qs)[i] == q[i];
    }
  }

  lemma StepFollowsDelivery(cfg: Config, s: State, head: nat, start: nat, o: Outcome)
    requires s.batchSize >= 1
    ensures var r := Step(cfg, s, head, start, o);
            r.Continue? ==> FollowsDelivery(s, r.s, QueriesOf(o, start, BatchEnd(start, s.batchSize, head)))
  {
    var q := QueriesOf(o, start, BatchEnd(start, s.batchSize, head));
    assert !o.Cancelled? ==> q[0].to == BatchEnd(start, s.batchSize, head);
  }

  /**
   A round that catches up leaves the checkpoint alone unless it delivers something. The checkpoint, running and
   saved, is then the last block of one of its successful queries.
   */
  lemma {:induction false} CheckpointFollowsDelivery(cfg: Config, oracle: Oracle, s: State, head: nat, start: nat, n: nat)
    requires s.batchSize >= 1
    ensures var r := Rounds(cfg, oracle, s, head, start, n);
            r.status == CaughtUp ==> FollowsDelivery(s, r.s, r.queries)
    decreases BlocksLeft(start, head), s.batchSize
  {
    if start <= head {
      var last := BatchEnd(start, s.batchSize, head);
      var o := oracle(n, start, last);
      StepAdvances(cfg, s, head, start, o);
      StepShape(cfg, s, head, start, o);
      StepFollowsDelivery(cfg, s, head, start, o);
      match Step(cfg, s, head, start, o)
      case Stop(_, _) =>
      case Continue(start', t) =>
        var rest := Rounds(cfg, oracle, t, head, start', n + 1);
        CheckpointFollowsDelivery(cfg, oracle, t, head, start', n + 1);
        if rest.status == CaughtUp { FollowsFurther(s, t, rest.s, QueriesOf(o, start, last), rest.queries); }
    }
  }

  // ----- Length of the queries -----

  function Smaller(a: int, b: int): int { if a < b then a else b }

  /** A batch covers the smaller of the batch size and the blocks left. */
  lemma BatchLength(start: nat, batchSize: nat, head: nat)
    requires batchSize >= 1 && start <= head
    ensures BatchEnd(start, batchSize, head) + 1 - start == Smaller(batchSize, head + 1 - start)
  {
  }

  /** The query covers at least `few` blocks and at most `many`, as far as there are so many left. */
  predicate Covers(q: Query, head: nat, few: nat, many: nat) {
    && q.from <= q.to <= head
    && Smaller(few, head + 1 - q.from) <= q.to + 1 - q.from <= Smaller(many, head + 1 - q.from)
  }

  /**
   Each query of a round covers the smaller of the blocks left and a batch size between the round's last and its first;
   so exactly the smaller of the blocks left and the batch size, when that has not shrunk.
   */
  lemma {:induction false} QueriesAreFull(cfg: Config, oracle: Oracle, s: State, head: nat, start: nat, n: nat)
    requires s.batchSize >= 1
    ensures var r := Rounds(cfg, oracle, s, head, start, n);
            && r.s.batchSize <= s.batchSize
            && forall i :: 0 <= i < |r.queries| ==> Covers(r.queries[i], head, r.s.batchSize, s.batchSize)
    decreases BlocksLeft(start, head), s.batchSize
  {
    if start <= head {
      var end := BatchEnd(start, s.batchSize, head);
      var o := oracle(n, start, end);
      StepAdvances(cfg, s, head, start, o);
      StopsWithLess(cfg, s, head, start, o);
      BatchLength(start, s.batchSize, head);
      match Step(cfg, s, head, start, o)
      case Stop(_, _) =>
      case Continue(start', t) =>
        QueriesAreFull(cfg, oracle, t, head, start', n + 1);
        var rest := Rounds(cfg, oracle, t, head, start', n + 1);
        forall i | 0 <= i < |rest.queries| ensures Covers(rest.queries[i], head, rest.s.batchSize, s.batchSize) {
          CoversMore(rest.queries[i], head, rest.s.batchSize, t.batchSize, s.batchSize);
        }
    }
  }

  lemma StopsWithLess(cfg: Config, s: State, head: nat, start: nat, o: Outcome)
    requires s.batchSize >= 1
    ensures Step(cfg, s, head, start, o).s.batchSize <= s.batchSize
  {
  }

  lemma CoversMore(q: Query, head: nat, few: nat, many: nat, more: nat)
    requires Covers(q, head, few, many) && many <= more
    ensures Covers(q, head, few, more)
  {
  }

  // ----- Number of calls -----

  /** Rounded-down binary logarithm. */
  function Log2(n: nat): nat
    requires n >= 1
  {
    if n == 1 then 0 else 1 + Log2(n / 2)
  }

  /** A round makes at most one call per block, one per halving of the batch size, and one more. */
  lemma {:induction false} CallsAreBounded(cfg: Config, oracle: Oracle, s: State, head: nat, start: nat, n: nat)
    requires s.batchSize >= 1
    ensures |Rounds(cfg, oracle, s, head, start, n).queries| <= BlocksLeft(start, head) + Log2(s.batchSize) + 1
    decreases BlocksLeft(start, head), s.batchSize
  {
    if start <= head {
      var last := BatchEnd(start, s.batchSize, head);
      var o := oracle(n, start, last);
      StepAdvances(cfg, s, head, start, o);
      match Step(cfg, s, head, start, o)
      case Stop(_, _) =>
      case Continue(start', t) =>
        CallsAreBounded(cfg, oracle, t, head, start', n + 1);
    }
  }

  /** The bounds for a whole round. */
  lemma RoundQueries(cfg: Config, oracle: Oracle, s: State, head: nat) returns (end: nat)
    requires s.batchSize >= 1 && s.checkpoint <= head
    ensures var r := RunOnce(cfg, oracle, s, Latest(head));
            && s.checkpoint <= end <= head + 1
            && FetchesOnce(r.queries, s.checkpoint, end)
            && (r.status == CaughtUp ==> end == head + 1)
            && |r.queries| <= (head - s.checkpoint + 1) + Log2(s.batchSize) + 1
  {
    end := QueriesTile(cfg, oracle, s, head, s.checkpoint, 0);
    CallsAreBounded(cfg, oracle, s, head, s.checkpoint, 0);
  }

  // ----- Shrinking -----

  /** A node that refuses exactly the ranges of more than `limit` blocks, with nothing else going wrong. */
  ghost predicate OnlyLimitsRange(oracle: Oracle, limit: nat) {
    forall n: nat, first: nat, last: nat ::
      oracle(n, first, last) == if last - first + 1 > limit then RangeError else Fine
  }

  ghost predicate ShrunkEnough(before: nat, after: nat, limit: nat) {
    after == before || (limit + 1) / 2 <= after < before
  }

  lemma LimitedStep(cfg: Config, s: State, head: nat, start: nat, o: Outcome, limit: nat)
    requires s.batchSize >= 1 && limit >= 1 && start <= head
    requires o == if BatchEnd(start, s.batchSize, head) - start + 1 > limit then RangeError else Fine
    ensures Step(cfg, s, head, start, o).Continue?
    ensures ShrunkEnough(s.batchSize, Step(cfg, s, head, start, o).s.batchSize, limit)
  {
    StepShape(cfg, s, head, start, o);
    StepAdvances(cfg, s, head, start, o);
  }

  /**
   Against such a node a round never gives up, from whatever batch size, and any shrink leaves at least half the
   limit, rounded up.
   */
  lemma {:induction false} ShrinkConverges(cfg: Config, oracle: Oracle, s: State, head: nat, start: nat, n: nat, limit: nat)
    requires s.batchSize >= 1 && limit >= 1 && OnlyLimitsRange(oracle, limit)
    ensures var r := Rounds(cfg, oracle, s, head, start, n);
            r.status == CaughtUp && ShrunkEnough(s.batchSize, r.s.batchSize, limit)
    decreases BlocksLeft(start, head), s.batchSize
  {
    if start <= head {
      var o := oracle(n, start, BatchEnd(start, s.batchSize, head));
      LimitedStep(cfg, s, head, start, o, limit);
      StepAdvances(cfg, s, head, start, o);
      var r := Step(cfg, s, head, start, o);
      ShrinkConverges(cfg, oracle, r.s, head, r.start, n + 1, limit);
    }
  }
}
