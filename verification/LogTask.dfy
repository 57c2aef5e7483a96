/** The log-filter task (go/logfilter/logfilter.go): its loop over a mutable task, proved against `SyncRound`. */
module LogTaskProgram {
  import opened LogResults
  import opened PendingPools
  import opened SyncRound

  /** Slots of an RPC semaphore that this task holds. */
  class RPCSemaphore {
    var held: nat

    constructor ()
      ensures held == 0
    {
      held := 0;
    }

    /** Waits for a slot, or gives up when the context is cancelled. */
    method Acquire(cancelled: bool) returns (err: bool)
      modifies this
      ensures err == cancelled && held == if cancelled then old(held) else old(held) + 1
    {
      err := cancelled;
      if !cancelled {
        held := held + 1;
      }
    }

    method Release()
      requires held > 0
      modifies this
      ensures held == old(held) - 1
    {
      held := held - 1;
    }
  }

  /** The node behind `RPCQuerier`: a fixed chain and the calls made so far. */
  class Node {
    const chain: Chain
    var calls: seq<Query>

    constructor (chain: Chain)
      ensures this.chain == chain && calls == []
    {
      this.chain, calls := chain, [];
    }

    /** Answers with exactly the logs of the range, or with an error. */
    method EthGetLogs(first: nat, last: nat, o: Outcome) returns (logs: seq<LogResult>, err: bool)
      modifies this
      ensures err == (o.RangeError? || o.RpcError?)
      ensures logs == if err then [] else LogsInRange(chain, first, last)
      ensures calls == old(calls) + [Query(first, last, !err)]
    {
      err := o.RangeError? || o.RpcError?;
      logs := if err then [] else LogsInRange(chain, first, last);
      calls := calls + [Query(first, last, !err)];
    }
  }

  /** A checkpoint store as a register. */
  class CheckpointStore {
    var value: nat

    constructor (initial: nat)
      ensures value == initial
    {
      value := initial;
    }

    method Save(block: nat, answer: Answer) returns (err: bool)
      modifies this
      ensures err == answer.Failing?
      ensures value == if answer == Failing(false) then old(value) else block
    {
      err := answer.Failing?;
      if answer != Failing(false) {
        value := block;
      }
    }
  }

  /** The `PendingPool` interface. */
  datatype Pool = InMemory(mem: BlockPendingPool) | InRedis(redis: RedisPendingPool) {

    function Target(): object {
      match this
      case InMemory(mem) => mem
      case InRedis(redis) => redis
    }

    ghost predicate Valid()
      reads Target()
    {
      InRedis? ==> redis.Valid()
    }

    ghost function Pending(): Heights
      reads Target()
    {
      match this
      case InMemory(mem) => View(mem.data)
      case InRedis(redis) => View(redis.blocks)
    }

    method Add(blockHeight: nat, logs: seq<LogResult>, answer: Answer) returns (err: bool)
      requires Valid() && (InMemory? ==> answer == Served)
      modifies Target()
      ensures Valid() && err == answer.Failing?
      ensures Pending() == if answer == Failing(false) then old(Pending())
                           else ViewAfterAdd(old(Pending()), blockHeight, logs)
    {
      match this
      case InMemory(mem) =>
        mem.Add(blockHeight, logs);
        err := false;
      case InRedis(redis) =>
        err := redis.Add(blockHeight, logs, answer);
    }

    method PopConfirmed(latest: nat, confirm: nat, answer: Answer) returns (pop: Pop)
      requires Valid() && (InMemory? ==> answer == Served)
      modifies Target()
      ensures Valid() && pop.err == answer.Failing?
      ensures answer != Failing(false) ==> Pending() == ViewAfterPop(old(Pending()), latest, confirm)
      ensures answer == Failing(false) ==> Pending() == old(Pending())
      ensures !pop.err ==> multiset(pop.logs) == Popped(old(Pending()), latest, confirm)
    {
      match this
      case InMemory(mem) =>
        var out := mem.PopConfirmed(latest, confirm);
        pop := Pop(out, false);
      case InRedis(redis) =>
        pop := redis.PopConfirmed(latest, confirm, answer);
    }
  }

  function AddAnswer(o: Outcome): Answer { if o.AddError? then Failing(o.applied) else Served }
  function PopAnswer(o: Outcome): Answer { if o.PopError? then Failing(o.applied) else Served }
  function SaveAnswer(o: Outcome): Answer { if o.SaveError? then Failing(o.stored) else Served }

  class LogTask {
    const cfg: Config
    const node: Node
    const pool: Pool
    const store: CheckpointStore
    const rpcSem: RPCSemaphore
    const taskLocalSem: RPCSemaphore
    var checkpoint: nat
    var batchSize: nat
    ghost var handouts: seq<Handout>

    ghost predicate Valid()
      reads this, pool.Target()
    {
      && pool.Valid()
      && node.chain == cfg.chain
      && rpcSem != taskLocalSem
      && pool.Target() !in {this, node, store, rpcSem, taskLocalSem}
    }

    ghost function State(): SyncRound.State
      reads this, pool.Target(), store
    {
      SyncRound.State(checkpoint, batchSize, pool.Pending(), store.value, handouts)
    }

    constructor (cfg: Config, node: Node, pool: Pool, store: CheckpointStore, rpcSem: RPCSemaphore, taskLocalSem: RPCSemaphore,
                 checkpoint: nat, batchSize: nat)
      requires pool.Valid() && node.chain == cfg.chain && rpcSem != taskLocalSem
      requires pool.Target() !in {node, store, rpcSem, taskLocalSem}
      ensures Valid() && State() == SyncRound.State(checkpoint, batchSize, pool.Pending(), store.value, [])
    {
      this.cfg, this.node, this.pool, this.store := cfg, node, pool, store;
      this.rpcSem, this.taskLocalSem := rpcSem, taskLocalSem;
      this.checkpoint, this.batchSize := checkpoint, batchSize;
      handouts := [];
    }

    /** Pops what is confirmed, hands it out and moves the checkpoint to the end of the current batch. */
    method EmitReady(end: nat, latest: nat, o: Outcome) returns (err: Status)
      requires Valid() && !o.Cancelled? && !o.RangeError? && !o.RpcError? && !o.AddError?
      requires pool.InMemory? ==> !o.PopError?
      modifies this, pool.Target(), store
      ensures Valid()
      ensures var r := Emit(cfg, old(State()), latest, end, o);
              State() == r.s && err == if r.Stop? then r.status else CaughtUp
    {
      ghost var ready := Ready(cfg, State(), latest);
      var pop := pool.PopConfirmed(latest, cfg.confirm, PopAnswer(o));
      if pop.err {
        if o.applied { handouts := handouts + [Handout(ready, latest, Dropped)]; }
        return Failed(PendingPopError);
      }
      assert ready == multiset(pop.logs);
      if |pop.logs| > 0 {
        assert ready != multiset{} by { assert pop.logs[0] in multiset(pop.logs); }
        if o.HandlerError? {
          handouts := handouts + [Handout(multiset(pop.logs), latest, Rejected)];
          return Failed(BatchHandlerError);
        }
        handouts := handouts + [Handout(multiset(pop.logs), latest, Delivered)];
        var failed := store.Save(end, SaveAnswer(o));
        if failed {
          return Failed(CheckpointSaveError);
        }
        checkpoint := end;
      } else {
        assert pop.logs == [];
      }
      err := CaughtUp;
    }

    /** What follows a successful query of the blocks `currentStart` to `end`. */
    method HandleBatchOf(logs: seq<LogResult>, currentStart: nat, end: nat, latest: nat, o: Outcome) returns (err: Status)
      requires Valid() && batchSize >= 1
      requires end == BatchEnd(currentStart, batchSize, latest) && logs == LogsInRange(cfg.chain, currentStart, end)
      requires !o.Cancelled? && !o.RangeError? && !o.RpcError?
      requires pool.InMemory? ==> !o.AddError? && !o.PopError?
      modifies this, pool.Target(), store
      ensures Valid()
      ensures var r := Step(cfg, old(State()), latest, currentStart, o);
              State() == r.s && err == if r.Stop? then r.status else CaughtUp
    {
      var batch := DedupBatch(logs);
      var failed := pool.Add(currentStart, batch, AddAnswer(o));
      if failed {
        return Failed(PendingAddError);
      }
      assert State() == WithBatch(cfg, old(State()), currentStart, end);
      err := EmitReady(end, latest, o);
    }

    /** Takes both slots, makes the query and gives the slots back. */
    method Fetch(currentStart: nat, end: nat, o: Outcome) returns (logs: seq<LogResult>, cancelled: bool, err: bool)
      requires node.chain == cfg.chain && rpcSem != taskLocalSem
      modifies node, rpcSem, taskLocalSem
      ensures rpcSem.held == old(rpcSem.held) && taskLocalSem.held == old(taskLocalSem.held)
      ensures cancelled == o.Cancelled? && err == (o.RangeError? || o.RpcError?)
      ensures !cancelled && !err ==> logs == LogsInRange(cfg.chain, currentStart, end)
      ensures node.calls == old(node.calls) + QueriesOf(o, currentStart, end)
    {
      logs, cancelled, err := [], o == Cancelled(AtHead), false;
      if cancelled {
        return;
      }
      cancelled := taskLocalSem.Acquire(o == Cancelled(AtTaskSlot));
      if cancelled {
        return;
      }
      cancelled := rpcSem.Acquire(o.Cancelled?);
      if cancelled {
        taskLocalSem.Release();
        return;
      }
      logs, err := node.EthGetLogs(currentStart, end, o);
      rpcSem.Release();
      taskLocalSem.Release();
    }

    /** The loop's body: `err` is `CaughtUp` when the loop goes on, from block `next`. */
    method Iterate(currentStart: nat, latestBlock: nat, o: Outcome) returns (err: Status, next: nat)
      requires Valid() && batchSize >= 1
      requires pool.InMemory? ==> !o.AddError? && !o.PopError?
      modifies this, pool.Target(), store, node, rpcSem, taskLocalSem
      ensures Valid()
      ensures rpcSem.held == old(rpcSem.held) && taskLocalSem.held == old(taskLocalSem.held)
      ensures node.calls == old(node.calls) + QueriesOf(o, currentStart, BatchEnd(currentStart, old(batchSize), latestBlock))
      ensures var r := Step(cfg, old(State()), latestBlock, currentStart, o);
              State() == r.s && (if r.Stop? then err == r.status else err == CaughtUp && next == r.start)
    {
      next := currentStart;
      var end := currentStart + batchSize - 1;
      if end > latestBlock {
        end := latestBlock;
      }
      ghost var before := State();
      var logs, cancelled, failed := Fetch(currentStart, end, o);
      assert State() == before;
      if cancelled {
        return Failed(CtxError), next;
      }
      if failed {
        if o.RangeError? {
          batchSize := batchSize / 2;
          return if batchSize < 1 then Failed(BatchExhausted) else CaughtUp, next;
        }
        return Failed(QueryError), next;
      }
      err := HandleBatchOf(logs, currentStart, end, latestBlock, o);
      next := end + 1;
    }

    /** One sync round. In-memory pools have no errors; everything else may fail at any call, as the oracle says. */
    method RunOnce(head: Head, oracle: Oracle) returns (status: Status)
      requires Valid() && batchSize >= 1
      requires pool.InMemory? ==> forall n, a, b :: !oracle(n, a, b).AddError? && !oracle(n, a, b).PopError?
      modifies this, pool.Target(), store, node, rpcSem, taskLocalSem
      ensures Valid()
      ensures var r := SyncRound.RunOnce(cfg, oracle, old(State()), head);
              status == r.status && State() == r.s && node.calls == old(node.calls) + r.queries
      ensures rpcSem.held == old(rpcSem.held) && taskLocalSem.held == old(taskLocalSem.held)
    {
      if head.Unavailable? {
        return Failed(LatestBlockError);
      }
      var latestBlock := head.block;
      if checkpoint > latestBlock {
        return CaughtUp;
      }
      var currentStart := checkpoint;
      var n: nat := 0;
      ghost var all := Prefixed(node.calls, Rounds(cfg, oracle, State(), latestBlock, currentStart, 0));
      while currentStart <= latestBlock
        invariant Valid() && batchSize >= 1
        invariant rpcSem.held == old(rpcSem.held) && taskLocalSem.held == old(taskLocalSem.held)
        invariant all == Prefixed(node.calls, Rounds(cfg, oracle, State(), latestBlock, currentStart, n))
        decreases BlocksLeft(currentStart, latestBlock), batchSize
      {
        var o := oracle(n, currentStart, BatchEnd(currentStart, batchSize, latestBlock));
        RoundsUnfold(cfg, oracle, State(), latestBlock, currentStart, n, node.calls);
        StepAdvances(cfg, State(), latestBlock, currentStart, o);
        StopIsNotCaughtUp(cfg, State(), latestBlock, currentStart, o);
        status, currentStart := Iterate(currentStart, latestBlock, o);
        n := n + 1;
        if status != CaughtUp {
          return;
        }
      }
      status := CaughtUp;
    }
  }

  ghost function Prefixed(queries: seq<Query>, r: Result): Result {
    r.(queries := queries + r.queries)
  }

  /** The loop unrolled once. */
  lemma RoundsUnfold(cfg: Config, oracle: Oracle, s: State, head: nat, start: nat, n: nat, queries: seq<Query>)
    requires s.batchSize >= 1 && start <= head
    ensures var end := BatchEnd(start, s.batchSize, head);
            var o := oracle(n, start, end);
            var made := queries + QueriesOf(o, start, end);
            var r := Step(cfg, s, head, start, o);
            && (r.Continue? ==> r.s.batchSize >= 1)
            && Prefixed(queries, Rounds(cfg, oracle, s, head, start, n))
               == if r.Stop? then Result(r.status, r.s, made)
                  else Prefixed(made, Rounds(cfg, oracle, r.s, head, r.start, n + 1))
  {
    var o := oracle(n, start, BatchEnd(start, s.batchSize, head));
    StepAdvances(cfg, s, head, start, o);
    var r := Step(cfg, s, head, start, o);
    if r.Continue? {
      var made := QueriesOf(o, start, BatchEnd(start, s.batchSize, head));
      var rest := Rounds(cfg, oracle, r.s, head, r.start, n + 1);
      assert queries + (made + rest.queries) == (queries + made) + rest.queries;
    }
  }
}
