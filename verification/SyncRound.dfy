/**
 One sync round of the log filter (`LogTask.RunOnce`, go/logfilter/logfilter.go) as a function of the chain and of
 what goes wrong. The chain is fixed; an oracle decides, per call and range, how the call and what follows it end.
 */
module SyncRound {
  import opened LogResults
  import opened PendingPools

  type Chain = nat -> seq<LogResult>

  /** Logs are filed under their own block. */
  ghost predicate WellFormed(chain: Chain) {
    forall b: nat, l :: l in chain(b) ==> l.block == b
  }

  /** What the node answers for a block range. */
  function LogsInRange(chain: Chain, first: nat, last: int): seq<LogResult>
    decreases last - first
  {
    if last < first then [] else LogsInRange(chain, first, last - 1) + chain(last)
  }

  /** How one iteration ends, in the order in which the program can fail. */
  datatype Outcome =
    | Cancelled(at: CancelPoint)
    | RangeError
    | RpcError
    | AddError(applied: bool)
    | PopError(applied: bool)
    | HandlerError
    | SaveError(stored: bool)
    | Fine

  /** Before any slot is taken, while waiting for the task's slot, or while waiting for the global slot. */
  datatype CancelPoint = AtHead | AtTaskSlot | AtGlobalSlot

  /** Outcome of the iteration that makes call number `n` for the blocks `from` to `to`. */
  type Oracle = (nat, nat, nat) -> Outcome

  datatype Error = CtxError | LatestBlockError | BatchExhausted | QueryError | PendingAddError | PendingPopError | BatchHandlerError | CheckpointSaveError

  datatype Status = CaughtUp | Failed(err: Error)

  /** What became of logs taken out of the pool. `Dropped`: the pool reported an error although it removed them. */
  datatype Fate = Delivered | Rejected | Dropped

  datatype Handout = Handout(logs: multiset<LogResult>, head: nat, fate: Fate)

  /** `pending` is the view of the pool, `saved` the checkpoint store, `handouts` the history of what left the pool. */
  datatype State = State(checkpoint: nat, batchSize: nat, pending: Heights, saved: nat, handouts: seq<Handout>)

  /** An `EthGetLogs` call. */
  datatype Query = Query(from: nat, to: nat, ok: bool)

  datatype Config = Config(chain: Chain, confirm: nat)

  function BatchEnd(start: nat, batchSize: nat, head: nat): nat
    requires batchSize >= 1
  {
    if start + batchSize - 1 > head then head else start + batchSize - 1
  }

  function Batch(cfg: Config, start: nat, end: nat): seq<LogResult> {
    Dedup(LogsInRange(cfg.chain, start, end))
  }

  datatype StepResult = Continue(start: nat, s: State) | Stop(status: Status, s: State)

  function WithBatch(cfg: Config, s: State, start: nat, end: nat): State {
    s.(pending := ViewAfterAdd(s.pending, start, Batch(cfg, start, end)))
  }

  function WithoutConfirmed(cfg: Config, s: State, head: nat): State {
    s.(pending := ViewAfterPop(s.pending, head, cfg.confirm))
  }

  ghost function Ready(cfg: Config, s: State, head: nat): multiset<LogResult> {
    Popped(s.pending, head, cfg.confirm)
  }

  function Handed(s: State, logs: multiset<LogResult>, head: nat, fate: Fate): State {
    s.(handouts := s.handouts + [Handout(logs, head, fate)])
  }

  /** The iteration after the batch is in the pool. */
  ghost function Emit(cfg: Config, s: State, head: nat, end: nat, o: Outcome): StepResult {
    var ready := Ready(cfg, s, head);
    var popped := WithoutConfirmed(cfg, s, head);
    if o.PopError? then
      Stop(Failed(PendingPopError), if o.applied then Handed(popped, ready, head, Dropped) else s)
    else if ready == multiset{} then Continue(end + 1, popped)
    else if o.HandlerError? then Stop(Failed(BatchHandlerError), Handed(popped, ready, head, Rejected))
    else
      var delivered := Handed(popped, ready, head, Delivered);
      if o.SaveError? then
        Stop(Failed(CheckpointSaveError), if o.stored then delivered.(saved := end) else delivered)
      else Continue(end + 1, delivered.(saved := end, checkpoint := end))
  }

  /** One iteration of the loop, for the blocks from `start` on. */
  ghost function Step(cfg: Config, s: State, head: nat, start: nat, o: Outcome): StepResult
    requires s.batchSize >= 1
  {
    var end := BatchEnd(start, s.batchSize, head);
    match o
    case Cancelled(_) => Stop(Failed(CtxError), s)
    case RangeError =>
      var half := s.(batchSize := s.batchSize / 2);
      if half.batchSize < 1 then Stop(Failed(BatchExhausted), half) else Continue(start, half)
    case RpcError => Stop(Failed(QueryError), s)
    case AddError(applied) => Stop(Failed(PendingAddError), if applied then WithBatch(cfg, s, start, end) else s)
    case _ => Emit(cfg, WithBatch(cfg, s, start, end), head, end, o)
  }

  function QueriesOf(o: Outcome, start: nat, end: nat): seq<Query> {
    if o.Cancelled? then [] else [Query(start, end, !o.RangeError? && !o.RpcError?)]
  }

  datatype Result = Result(status: Status, s: State, queries: seq<Query>)

  function BlocksLeft(start: nat, head: nat): nat {
    if start <= head then head + 1 - start else 0
  }

  lemma StepAdvances(cfg: Config, s: State, head: nat, start: nat, o: Outcome)
    requires s.batchSize >= 1 && start <= head
    ensures var r := Step(cfg, s, head, start, o);
            r.Continue? ==>
              && 1 <= r.s.batchSize <= s.batchSize
              && (if o.RangeError? then r.start == start && r.s.batchSize == s.batchSize / 2 < s.batchSize
                  else r.start == BatchEnd(start, s.batchSize, head) + 1 > start && r.s.batchSize == s.batchSize)
  {
  }

  lemma StopIsNotCaughtUp(cfg: Config, s: State, head: nat, start: nat, o: Outcome)
    requires s.batchSize >= 1
    ensures var r := Step(cfg, s, head, start, o); r.Stop? ==> r.status != CaughtUp
  {
  }

  /** Which iterations end the round, and with which error: each failure as itself, and some only when they come to matter. */
  lemma StepReports(cfg: Config, s: State, head: nat, start: nat, o: Outcome)
    requires s.batchSize >= 1
    ensures var r := Step(cfg, s, head, start, o);
            var emits := Ready(cfg, WithBatch(cfg, s, start, BatchEnd(start, s.batchSize, head)), head) != multiset{};
            && (r.Stop? <==>
                  || o.Cancelled? || o.RpcError? || o.AddError? || o.PopError?
                  || (o.RangeError? && s.batchSize == 1)
                  || ((o.HandlerError? || o.SaveError?) && emits))
            && (r.Stop? ==>
                  r.status == Failed(
                    match o
                    case Cancelled(_) => CtxError
                    case RangeError => BatchExhausted
                    case RpcError => QueryError
                    case AddError(_) => PendingAddError
                    case PopError(_) => PendingPopError
                    case HandlerError => BatchHandlerError
                    case SaveError(_) => CheckpointSaveError
                    case Fine => CtxError))
  {
  }

  /** The loop from block `start`, with call numbers counted from `n`. */
  ghost function Rounds(cfg: Config, oracle: Oracle, s: State, head: nat, start: nat, n: nat): Result
    requires s.batchSize >= 1
    decreases BlocksLeft(start, head), s.batchSize
  {
    if start > head then Result(CaughtUp, s, [])
    else
      var end := BatchEnd(start, s.batchSize, head);
      var o := oracle(n, start, end);
      StepAdvances(cfg, s, head, start, o);
      match Step(cfg, s, head, start, o)
      case Stop(status, s') => Result(status, s', QueriesOf(o, start, end))
      case Continue(start', s') =>
        var rest := Rounds(cfg, oracle, s', head, start', n + 1);
        Result(rest.status, rest.s, QueriesOf(o, start, end) + rest.queries)
  }

  datatype Head = Latest(block: nat) | Unavailable

  /** A whole round: nothing happens when the head is unknown or behind the checkpoint. */
  ghost function RunOnce(cfg: Config, oracle: Oracle, s: State, head: Head): Result
    requires s.batchSize >= 1
  {
    if head.Unavailable? then Result(Failed(LatestBlockError), s, [])
    else if s.checkpoint > head.block then Result(CaughtUp, s, [])
    else Rounds(cfg, oracle, s, head.block, s.checkpoint, 0)
  }
}
