/** Whole histories of sync rounds and process restarts (go/logfilter/main.go): when nothing is lost, exactly where something is. */
module SyncHistories {
  import opened LogResults
  import opened PendingPools
  import opened SyncRound
  import opened SyncSafety

  /** The daemon's settings: the filter, START_BLOCK (0 when unset) and the configured batch size. */
  datatype Deployment = Deployment(cfg: Config, startBlock: nat, batchSize: nat)

  /** A sync round, or a restart of the process while the chain head is `head`; the pool is durable. */
  datatype Event = Sync(head: Head, oracle: Oracle) | Restart(block: nat)

  /** Where a starting process begins: START_BLOCK, else a saved checkpoint, else the chain head. */
  function ResumeAt(d: Deployment, saved: nat, head: nat): nat {
    if d.startBlock != 0 then d.startBlock else if saved > 0 then saved else head
  }

  function Started(d: Deployment, s: State, head: nat): State {
    s.(checkpoint := ResumeAt(d, s.saved, head), batchSize := d.batchSize)
  }

  /** A batch size of 0, left by an exhausted batch, ends the run until the process restarts. */
  ghost function After(d: Deployment, s: State, e: Event): State {
    match e
    case Sync(head, oracle) => if s.batchSize == 0 then s else RunOnce(d.cfg, oracle, s, head).s
    case Restart(block) => Started(d, s, block)
  }

  ghost function History(d: Deployment, s: State, events: seq<Event>): State {
    if events == [] then s else After(d, History(d, s, events[..|events| - 1]), events[|events| - 1])
  }

  /** A first start at block `c0`, with an empty pool and possibly a checkpoint saved by an earlier deployment. */
  ghost predicate Initial(d: Deployment, s: State, c0: nat) {
    && d.batchSize >= 1
    && s == State(c0, d.batchSize, map[], s.saved, [])
    && exists head :: c0 == ResumeAt(d, s.saved, head)
  }

  // ----- Exactly what a history holds -----

  /** The event is a round that enters its loop. */
  predicate Runs(s: State, e: Event) {
    e.Sync? && s.batchSize >= 1 && e.head.Latest? && s.checkpoint <= e.head.block
  }

  /**
   Every log of block `b` is held at the end of the history, iteration by iteration: nothing is held at first; a batch
   makes its blocks held; a block held stays so while the heights that are overwritten spare it, and while pops that are
   refused or dropped spare it. Each condition is on the state before its iteration.
   */
  ghost predicate HistoryHolds(d: Deployment, s: State, b: nat, c: Counting, events: seq<Event>) {
    if events == [] then d.cfg.chain(b) == []
    else
      var before, e := events[..|events| - 1], events[|events| - 1];
      var t, was := History(d, s, before), HistoryHolds(d, s, b, c, before);
      if Runs(t, e) then RoundHolds(d.cfg, e.oracle, t, e.head.block, t.checkpoint, 0, b, c, was) else was
  }

  /** Over every history, restarts of any kind included, for every block and both ways of counting. */
  lemma {:induction false} HistoryHoldsExactly(d: Deployment, s: State, c0: nat, b: nat, c: Counting, events: seq<Event>)
    requires WellFormed(d.cfg.chain) && Initial(d, s, c0)
    ensures var t := History(d, s, events);
            && Bounded(d.cfg, t, d.batchSize)
            && (BlockHeld(d.cfg.chain, t, b, c) <==> HistoryHolds(d, s, b, c, events))
  {
    if events == [] {
      NothingHeldAtFirst(d, s, c0, b, c);
    } else {
      var before, e := events[..|events| - 1], events[|events| - 1];
      var t := History(d, s, before);
      HistoryHoldsExactly(d, s, c0, b, c, before);
      if Runs(t, e) {
        RoundHoldsExactly(d.cfg, e.oracle, t, e.head.block, t.checkpoint, 0, d.batchSize, b, c);
      } else {
        HeldAlike(d.cfg.chain, t, After(d, t, e), b, c);
      }
    }
  }

  lemma NothingHeldAtFirst(d: Deployment, s: State, c0: nat, b: nat, c: Counting)
    requires Initial(d, s, c0)
    ensures BlockHeld(d.cfg.chain, s, b, c) <==> d.cfg.chain(b) == []
  {
    forall k: LogKey ensures !Held(s, k, c) {
    }
    if d.cfg.chain(b) != [] { assert d.cfg.chain(b)[0] in d.cfg.chain(b); }
  }

  ghost predicate AllHold(d: Deployment, s: State, from: nat, upTo: nat, c: Counting, events: seq<Event>) {
    forall b: nat :: from <= b < upTo ==> HistoryHolds(d, s, b, c, events)
  }

  lemma AllHoldExactly(d: Deployment, s: State, c0: nat, from: nat, upTo: nat, c: Counting, events: seq<Event>)
    requires WellFormed(d.cfg.chain) && Initial(d, s, c0)
    ensures AllHeld(d.cfg.chain, History(d, s, events), from, upTo, c) <==> AllHold(d, s, from, upTo, c, events)
  {
    forall b: nat ensures BlockHeld(d.cfg.chain, History(d, s, events), b, c) <==> HistoryHolds(d, s, b, c, events) {
      HistoryHoldsExactly(d, s, c0, b, c, events);
    }
  }

  // ----- In the fields of the logs -----

  /** A log of this block and transaction is pending. */
  ghost predicate PendingLog(p: Heights, block: nat, tx: string) {
    exists h, m :: h in p && m in p[h] && m.block == block && m.tx == tx
  }

  /** A log of this block and transaction was handed out in a way that counts. */
  ghost predicate HandedOutLog(handouts: seq<Handout>, block: nat, tx: string, c: Counting) {
    exists i, m :: 0 <= i < |handouts| && CountsAs(c, handouts[i].fate) && m in handouts[i].logs && m.block == block && m.tx == tx
  }

  lemma PendingKeys(p: Heights, l: LogResult)
    ensures InPool(p, l.Key()) <==> PendingLog(p, l.block, l.tx)
  {
    if h :| h in p && HasKey(p[h], l.Key()) {
      var m :| m in p[h] && m.Key() == l.Key();
      assert m.block == l.block && m.tx == l.tx;
    }
    if h, m :| h in p && m in p[h] && m.block == l.block && m.tx == l.tx {
      assert m.Key() == l.Key() && HasKey(p[h], l.Key());
    }
  }

  lemma HandedOutKeys(handouts: seq<Handout>, l: LogResult, c: Counting)
    ensures HandedOut(handouts, l.Key(), c) <==> HandedOutLog(handouts, l.block, l.tx, c)
  {
    if i :| 0 <= i < |handouts| && CountsAs(c, handouts[i].fate) && Among(handouts[i].logs, l.Key()) {
      var m :| m in handouts[i].logs && m.Key() == l.Key();
      assert m.block == l.block && m.tx == l.tx;
    }
    if i, m :| 0 <= i < |handouts| && CountsAs(c, handouts[i].fate) && m in handouts[i].logs && m.block == l.block && m.tx == l.tx {
      assert m.Key() == l.Key() && Among(handouts[i].logs, l.Key());
    }
  }

  // ----- Main results -----

  /**
   No loss, exactly: after any history each log from the first block up to the checkpoint is pending or was taken from
   the pool if and only if the history holds each of those blocks. And no log was ever taken before its block was
   within a full batch of the confirmation depth.
   */
  lemma NoLogIsLost(d: Deployment, s: State, c0: nat, events: seq<Event>)
    requires WellFormed(d.cfg.chain) && Initial(d, s, c0)
    ensures var t := History(d, s, events);
            && ((forall b: nat, l :: c0 <= b < t.checkpoint && l in d.cfg.chain(b) ==>
                   PendingLog(t.pending, l.block, l.tx) || HandedOutLog(t.handouts, l.block, l.tx, AnyHandout))
                <==> AllHold(d, s, c0, t.checkpoint, AnyHandout, events))
            && (forall i, l :: 0 <= i < |t.handouts| && l in t.handouts[i].logs ==>
                  l.block + d.cfg.confirm <= t.handouts[i].head + d.batchSize - 1)
  {
    var t := History(d, s, events);
    AllHoldExactly(d, s, c0, c0, t.checkpoint, AnyHandout, events);
    HistoryHoldsExactly(d, s, c0, 0, AnyHandout, events);
    LogsOfBlocks(d.cfg.chain, t, c0, t.checkpoint, AnyHandout);
  }

  lemma LogsOfBlocks(chain: Chain, s: State, from: nat, upTo: nat, c: Counting)
    ensures AllHeld(chain, s, from, upTo, c)
            <==> forall b: nat, l :: from <= b < upTo && l in chain(b) ==>
                   PendingLog(s.pending, l.block, l.tx) || HandedOutLog(s.handouts, l.block, l.tx, c)
  {
    forall l: LogResult
      ensures Held(s, l.Key(), c) <==> PendingLog(s.pending, l.block, l.tx) || HandedOutLog(s.handouts, l.block, l.tx, c)
    {
      PendingKeys(s.pending, l);
      HandedOutKeys(s.handouts, l, c);
    }
    if forall b: nat, l :: from <= b < upTo && l in chain(b) ==>
         PendingLog(s.pending, l.block, l.tx) || HandedOutLog(s.handouts, l.block, l.tx, c)
    {
      forall b: nat, l | from <= b < upTo && l in chain(b) ensures Held(s, l.Key(), c) {
      }
    }
    if AllHeld(chain, s, from, upTo, c) {
      forall b: nat, l | from <= b < upTo && l in chain(b) ensures Held(s, l.Key(), c) {
        assert BlockHeld(chain, s, b, c);
      }
    }
  }

  /** The same with refusals and dropped pops: each such log is pending or delivered. */
  lemma NoLogGoesMissing(d: Deployment, s: State, c0: nat, events: seq<Event>)
    requires WellFormed(d.cfg.chain) && Initial(d, s, c0)
    ensures var t := History(d, s, events);
            (forall b: nat, l :: c0 <= b < t.checkpoint && l in d.cfg.chain(b) ==>
               PendingLog(t.pending, l.block, l.tx) || HandedOutLog(t.handouts, l.block, l.tx, DeliveriesOnly))
            <==> AllHold(d, s, c0, t.checkpoint, DeliveriesOnly, events)
  {
    var t := History(d, s, events);
    AllHoldExactly(d, s, c0, c0, t.checkpoint, DeliveriesOnly, events);
    LogsOfBlocks(d.cfg.chain, t, c0, t.checkpoint, DeliveriesOnly);
  }

  /**
   Delivery, exactly: after any history, a round that reaches its head `head` without an error leaves every log of a
   confirmed block handed out, or delivered when only deliveries count, if and only if the round fetched the block
   again or the history held it.
   */
  lemma CaughtUpRunHandsOut(d: Deployment, s: State, c0: nat, c: Counting, events: seq<Event>, head: nat, oracle: Oracle, b: nat)
    requires WellFormed(d.cfg.chain) && Initial(d, s, c0)
    requires var t := History(d, s, events);
             t.batchSize >= 1 && t.checkpoint <= head && RunOnce(d.cfg, oracle, t, Latest(head)).status == CaughtUp
    requires b + d.cfg.confirm <= head
    ensures var t := History(d, s, events);
            (forall l :: l in d.cfg.chain(b) ==>
               HandedOutLog(RunOnce(d.cfg, oracle, t, Latest(head)).s.handouts, l.block, l.tx, c))
            <==> t.checkpoint <= b || HistoryHolds(d, s, b, c, events)
  {
    var t := History(d, s, events);
    HistoryHoldsExactly(d, s, c0, b, c, events);
    CaughtUpHoldsExactly(d.cfg, oracle, t, head, t.checkpoint, 0, d.batchSize, b, c);
    CaughtUpIsDrained(d.cfg, oracle, t, head, t.checkpoint, 0, d.batchSize);
    var u := RunOnce(d.cfg, oracle, t, Latest(head)).s;
    DrainedMeansHandedOut(d.cfg, u, head, d.batchSize, b, c);
    forall l | l in d.cfg.chain(b) ensures HandedOut(u.handouts, l.Key(), c) <==> HandedOutLog(u.handouts, l.block, l.tx, c) {
      HandedOutKeys(u.handouts, l, c);
    }
  }

  ghost predicate NothingLost(handouts: seq<Handout>) {
    forall i :: 0 <= i < |handouts| ==> handouts[i].fate.Delivered?
  }

  /** When nothing was ever refused or dropped, what was handed out was delivered. */
  lemma CaughtUpRunDelivers(d: Deployment, s: State, c0: nat, events: seq<Event>, head: nat, oracle: Oracle, b: nat)
    requires WellFormed(d.cfg.chain) && Initial(d, s, c0)
    requires var t := History(d, s, events);
             && t.batchSize >= 1 && t.checkpoint <= head
             && RunOnce(d.cfg, oracle, t, Latest(head)).status == CaughtUp
             && NothingLost(RunOnce(d.cfg, oracle, t, Latest(head)).s.handouts)
    requires b + d.cfg.confirm <= head
    ensures var t := History(d, s, events);
            (forall l :: l in d.cfg.chain(b) ==>
               HandedOutLog(RunOnce(d.cfg, oracle, t, Latest(head)).s.handouts, l.block, l.tx, DeliveriesOnly))
            <==> t.checkpoint <= b || HistoryHolds(d, s, b, AnyHandout, events)
  {
    CaughtUpRunHandsOut(d, s, c0, AnyHandout, events, head, oracle, b);
    var handouts := RunOnce(d.cfg, oracle, History(d, s, events), Latest(head)).s.handouts;
    forall block: nat, tx: string
      ensures HandedOutLog(handouts, block, tx, AnyHandout) <==> HandedOutLog(handouts, block, tx, DeliveriesOnly)
    {
    }
  }

  /**
   Restarts, exactly: a restart after any history, from START_BLOCK, from what is saved or at the chain head, leaves every
   block up to its new checkpoint held if and only if the history held them.
   */
  lemma RestartIsSafeExactly(d: Deployment, s: State, c0: nat, c: Counting, events: seq<Event>, block: nat)
    requires WellFormed(d.cfg.chain) && Initial(d, s, c0)
    ensures var t := History(d, s, events);
            var u := Started(d, t, block);
            AllHeld(d.cfg.chain, u, c0, u.checkpoint, c) <==> AllHold(d, s, c0, ResumeAt(d, t.saved, block), c, events)
  {
    var t := History(d, s, events);
    var resume := ResumeAt(d, t.saved, block);
    AllHoldExactly(d, s, c0, c0, resume, c, events);
    forall b: nat ensures BlockHeld(d.cfg.chain, Started(d, t, block), b, c) <==> BlockHeld(d.cfg.chain, t, b, c) {
      HeldAlike(d.cfg.chain, Started(d, t, block), t, b, c);
    }
  }

  lemma {:induction false} HistoryIsReal(d: Deployment, s: State, c0: nat, events: seq<Event>)
    requires WellFormed(d.cfg.chain) && Initial(d, s, c0)
    ensures Real(d.cfg.chain, History(d, s, events))
  {
    if events != [] {
      var before, e := events[..|events| - 1], events[|events| - 1];
      var t := History(d, s, before);
      HistoryIsReal(d, s, c0, before);
      if Runs(t, e) { RoundsKeepReal(d.cfg, e.oracle, t, e.head.block, t.checkpoint, 0); }
    }
  }

  /** Nothing is invented: after any history, what is pending and what was handed out are logs of the chain, unchanged. */
  lemma NothingIsInvented(d: Deployment, s: State, c0: nat, events: seq<Event>, l: LogResult)
    requires WellFormed(d.cfg.chain) && Initial(d, s, c0)
    ensures var t := History(d, s, events);
            (exists h :: h in t.pending && l in t.pending[h]) || (exists i :: 0 <= i < |t.handouts| && l in t.handouts[i].logs) ==>
              l in d.cfg.chain(l.block)
  {
    HistoryIsReal(d, s, c0, events);
  }

  // ----- Histories that lose nothing -----

  /** Every restart resumes no earlier than the first block, and with every block up to there held. */
  ghost predicate RestartsResume(d: Deployment, s: State, c0: nat, events: seq<Event>) {
    forall k :: 0 <= k < |events| && events[k].Restart? ==>
      var resume := ResumeAt(d, History(d, s, events[..k]).saved, events[k].block);
      c0 <= resume && AllHold(d, s, c0, resume, AnyHandout, events[..k])
  }

  lemma SyncKeepsHeld(d: Deployment, t: State, c0: nat, e: Event)
    requires WellFormed(d.cfg.chain) && Bounded(d.cfg, t, d.batchSize) && e.Sync?
    requires c0 <= t.checkpoint && AllHeld(d.cfg.chain, t, c0, t.checkpoint, AnyHandout)
    ensures var u := After(d, t, e);
            && c0 <= u.checkpoint && AllHeld(d.cfg.chain, u, c0, u.checkpoint, AnyHandout)
            && (u.saved == t.saved || c0 <= u.saved)
    ensures t.saved <= t.checkpoint && AllHeld(d.cfg.chain, t, c0, t.saved, AnyHandout) ==>
              var u := After(d, t, e);
              AllHeld(d.cfg.chain, u, c0, u.saved, AnyHandout) && (!Fails(d, t, e) ==> u.saved <= u.checkpoint)
  {
    if Runs(t, e) {
      RoundsAreSafe(d.cfg, e.oracle, t, e.head.block, t.checkpoint, 0, d.batchSize, c0);
    }
  }

  lemma RestartKeepsHeld(d: Deployment, t: State, block: nat)
    ensures forall b: nat, c :: BlockHeld(d.cfg.chain, Started(d, t, block), b, c) <==> BlockHeld(d.cfg.chain, t, b, c)
  {
    forall b: nat, c ensures BlockHeld(d.cfg.chain, Started(d, t, block), b, c) <==> BlockHeld(d.cfg.chain, t, b, c) {
      HeldAlike(d.cfg.chain, Started(d, t, block), t, b, c);
    }
  }

  /** Rounds lose nothing below the checkpoint, whatever fails in them and however they overlap: only restarts can. */
  lemma {:induction false} OnlyRestartsLose(d: Deployment, s: State, c0: nat, events: seq<Event>)
    requires WellFormed(d.cfg.chain) && Initial(d, s, c0) && RestartsResume(d, s, c0, events)
    ensures c0 <= History(d, s, events).checkpoint && AllHold(d, s, c0, History(d, s, events).checkpoint, AnyHandout, events)
  {
    if events != [] {
      var n := |events| - 1;
      var before, e := events[..n], events[n];
      forall k | 0 <= k < n ensures before[..k] == events[..k] && before[k] == events[k] {
      }
      OnlyRestartsLose(d, s, c0, before);
      var t := History(d, s, before);
      AllHoldExactly(d, s, c0, c0, t.checkpoint, AnyHandout, before);
      AllHoldExactly(d, s, c0, c0, After(d, t, e).checkpoint, AnyHandout, before);
      AllHoldExactly(d, s, c0, c0, After(d, t, e).checkpoint, AnyHandout, events);
      if e.Sync? {
        HistoryHoldsExactly(d, s, c0, 0, AnyHandout, before);
        SyncKeepsHeld(d, t, c0, e);
      } else {
        RestartKeepsHeld(d, t, e.block);
      }
    }
  }

  ghost predicate SomethingSaved(d: Deployment, s: State, events: seq<Event>) {
    d.startBlock != 0
    || forall k :: 0 <= k < |events| && events[k].Restart? ==> History(d, s, events[..k]).saved > 0
  }

  ghost predicate Fails(d: Deployment, s: State, e: Event) {
    e.Sync? && (s.batchSize == 0 || RunOnce(d.cfg, e.oracle, s, e.head).status != CaughtUp)
  }

  /** The process exits when a round fails, as the daemon does. */
  ghost predicate ExitsOnError(d: Deployment, s: State, events: seq<Event>) {
    forall k :: 0 <= k < |events| - 1 && Fails(d, History(d, s, events[..k]), events[k]) ==> events[k + 1].Restart?
  }

  ghost predicate EndsInFailure(d: Deployment, s: State, events: seq<Event>) {
    events != [] && Fails(d, History(d, s, events[..|events| - 1]), events[|events| - 1])
  }

  /** The prefix of a history, and what its last event then tells. */
  lemma ExitsBefore(d: Deployment, s: State, events: seq<Event>)
    requires events != [] && ExitsOnError(d, s, events)
    ensures var before := events[..|events| - 1];
            && ExitsOnError(d, s, before)
            && (EndsInFailure(d, s, before) ==> events[|events| - 1].Restart?)
            && (SomethingSaved(d, s, events) ==> SomethingSaved(d, s, before))
  {
    var n := |events| - 1;
    var before := events[..n];
    forall k | 0 <= k < n ensures before[..k] == events[..k] && before[k] == events[k] {
    }
  }

  ghost predicate SavedIsHeld(d: Deployment, t: State, c0: nat) {
    d.startBlock == 0 ==> AllHeld(d.cfg.chain, t, c0, t.saved, AnyHandout) && (t.saved > 0 ==> c0 <= t.saved)
  }

  lemma {:induction false} DaemonIsSafe(d: Deployment, s: State, c0: nat, events: seq<Event>)
    requires WellFormed(d.cfg.chain) && Initial(d, s, c0) && ExitsOnError(d, s, events) && SomethingSaved(d, s, events)
    ensures var t := History(d, s, events);
            && c0 <= t.checkpoint && AllHeld(d.cfg.chain, t, c0, t.checkpoint, AnyHandout)
            && SavedIsHeld(d, t, c0)
            && (d.startBlock == 0 && !EndsInFailure(d, s, events) ==> t.saved <= t.checkpoint)
  {
    if events != [] {
      var before, e := events[..|events| - 1], events[|events| - 1];
      var t := History(d, s, before);
      ExitsBefore(d, s, events);
      DaemonIsSafe(d, s, c0, before);
      if e.Sync? {
        HistoryHoldsExactly(d, s, c0, 0, AnyHandout, before);
        SyncKeepsHeld(d, t, c0, e);
      } else {
        RestartKeepsHeld(d, t, e.block);
      }
    }
  }

  /**
   The daemon: when every failing round is followed by a restart, and restarts have START_BLOCK or something saved to
   resume from, no log below the checkpoint is lost, a restart after a save that took effect although it failed included.
   */
  lemma DaemonLosesNothing(d: Deployment, s: State, c0: nat, events: seq<Event>)
    requires WellFormed(d.cfg.chain) && Initial(d, s, c0) && ExitsOnError(d, s, events) && SomethingSaved(d, s, events)
    ensures AllHold(d, s, c0, History(d, s, events).checkpoint, AnyHandout, events)
  {
    DaemonIsSafe(d, s, c0, events);
    AllHoldExactly(d, s, c0, c0, History(d, s, events).checkpoint, AnyHandout, events);
  }

  lemma {:induction false} BatchesOfOneAreSafe(d: Deployment, s: State, c0: nat, events: seq<Event>)
    requires WellFormed(d.cfg.chain) && Initial(d, s, c0) && d.batchSize == 1 && SomethingSaved(d, s, events)
    ensures var t := History(d, s, events);
            c0 <= t.checkpoint && AllHeld(d.cfg.chain, t, c0, t.checkpoint, AnyHandout) && SavedIsHeld(d, t, c0)
  {
    if events != [] {
      var before, e := events[..|events| - 1], events[|events| - 1];
      var t := History(d, s, before);
      forall k | 0 <= k < |before| ensures before[..k] == events[..k] && before[k] == events[k] {
      }
      BatchesOfOneAreSafe(d, s, c0, before);
      HistoryHoldsExactly(d, s, c0, 0, AnyHandout, before);
      if e.Restart? {
        RestartKeepsHeld(d, t, e.block);
      } else {
        SyncKeepsHeld(d, t, c0, e);
        if Runs(t, e) && d.startBlock == 0 {
          BatchesOfOneKeepSaved(d.cfg, e.oracle, t, e.head.block, t.checkpoint, 0, c0);
        }
      }
    }
  }

  /** With batches of one block no log is lost either, whatever failed and however long the process ran on. */
  lemma BatchesOfOneLoseNothing(d: Deployment, s: State, c0: nat, events: seq<Event>)
    requires WellFormed(d.cfg.chain) && Initial(d, s, c0) && d.batchSize == 1 && SomethingSaved(d, s, events)
    ensures AllHold(d, s, c0, History(d, s, events).checkpoint, AnyHandout, events)
  {
    BatchesOfOneAreSafe(d, s, c0, events);
    AllHoldExactly(d, s, c0, c0, History(d, s, events).checkpoint, AnyHandout, events);
  }

  lemma {:induction false} StartBlockHolds(d: Deployment, s: State, c0: nat, c: Counting, events: seq<Event>)
    requires WellFormed(d.cfg.chain) && Initial(d, s, c0) && d.startBlock != 0 && ExitsOnError(d, s, events)
    requires !EndsInFailure(d, s, events)
    ensures var t := History(d, s, events);
            t.batchSize >= 1 && c0 <= t.checkpoint && AllHeld(d.cfg.chain, t, c0, t.checkpoint, c)
  {
    if events != [] && events[|events| - 1].Sync? {
      var before, e := events[..|events| - 1], events[|events| - 1];
      var t := History(d, s, before);
      ExitsBefore(d, s, events);
      StartBlockHolds(d, s, c0, c, before);
      HistoryHoldsExactly(d, s, c0, 0, c, before);
      if Runs(t, e) {
        var u := After(d, t, e);
        CaughtUpIsDrained(d.cfg, e.oracle, t, e.head.block, t.checkpoint, 0, d.batchSize);
        CaughtUpKeepsBatchSize(d.cfg, e.oracle, t, e.head.block, t.checkpoint, 0);
        forall b: nat | c0 <= b < u.checkpoint ensures BlockHeld(d.cfg.chain, u, b, c) {
          CaughtUpHoldsExactly(d.cfg, e.oracle, t, e.head.block, t.checkpoint, 0, d.batchSize, b, c);
        }
      }
    }
  }

  lemma {:induction false} CaughtUpKeepsBatchSize(cfg: Config, oracle: Oracle, s: State, head: nat, start: nat, n: nat)
    requires s.batchSize >= 1
    ensures var r := Rounds(cfg, oracle, s, head, start, n); r.status == CaughtUp ==> r.s.batchSize >= 1
    decreases BlocksLeft(start, head), s.batchSize
  {
    if start <= head {
      var o := oracle(n, start, BatchEnd(start, s.batchSize, head));
      StepAdvances(cfg, s, head, start, o);
      StopIsNotCaughtUp(cfg, s, head, start, o);
      match Step(cfg, s, head, start, o)
      case Stop(_, _) =>
      case Continue(start', t) => CaughtUpKeepsBatchSize(cfg, oracle, t, head, start', n + 1);
    }
  }

  /**
   The daemon with START_BLOCK set fetches everything again at each restart. So every round that catches up leaves all
   logs from the first block to `head - confirm` delivered, whatever was refused, dropped or misreported before.
   */
  lemma StartBlockDaemonDelivers(d: Deployment, s: State, c0: nat, events: seq<Event>, head: nat, oracle: Oracle, b: nat, l: LogResult)
    requires WellFormed(d.cfg.chain) && Initial(d, s, c0) && d.startBlock != 0
    requires ExitsOnError(d, s, events + [Sync(Latest(head), oracle)])
    requires History(d, s, events).checkpoint <= head
    requires History(d, s, events).batchSize >= 1
    requires RunOnce(d.cfg, oracle, History(d, s, events), Latest(head)).status == CaughtUp
    requires c0 <= b && b + d.cfg.confirm <= head && l in d.cfg.chain(b)
    ensures HandedOutLog(RunOnce(d.cfg, oracle, History(d, s, events), Latest(head)).s.handouts, l.block, l.tx, DeliveriesOnly)
  {
    var all := events + [Sync(Latest(head), oracle)];
    assert all[..|all| - 1] == events;
    ExitsBefore(d, s, all);
    StartBlockHolds(d, s, c0, DeliveriesOnly, events);
    HistoryHoldsExactly(d, s, c0, b, DeliveriesOnly, events);
    CaughtUpRunHandsOut(d, s, c0, DeliveriesOnly, events, head, oracle, b);
    HandedOutKeys(RunOnce(d.cfg, oracle, History(d, s, events), Latest(head)).s.handouts, l, DeliveriesOnly);
  }

  // ----- A restart that loses -----

  /** Nothing saved: a first start at block 5 and a restart at head 10 skip a log of block 7. */
  lemma RestartAtHeadSkipsBlocks() returns (d: Deployment, s: State, events: seq<Event>, l: LogResult)
    ensures WellFormed(d.cfg.chain) && Initial(d, s, 5) && l in d.cfg.chain(7)
    ensures var t := History(d, s, events); t.checkpoint == 10 && !Held(t, l.Key(), AnyHandout)
  {
    l := LogResult(7, "tx", "", [], "");
    var log := l;
    d := Deployment(Config((b: nat) => if b == 7 then [log] else [], 0), 0, 1);
    s := State(5, 1, map[], 0, []);
    events := [Restart(10)];
    assert 5 == ResumeAt(d, s.saved, 5);
    assert events[..0] == [];
  }

  // ----- A checkpoint past pending logs -----

  ghost predicate PendingBelow(p: Heights, b: nat) {
    exists h, l :: h in p && l in p[h] && l.block < b
  }

  ghost predicate UnconfirmedBelow(p: Heights, head: nat, confirm: nat, except: nat, b: nat) {
    exists h, l :: h in p && h != except && !IsConfirmed(h, head, confirm) && l in p[h] && l.block < b
  }

  /**
   An iteration that stores its checkpoint leaves a pending log below it if and only if its own batch is unconfirmed
   and holds one, or another unconfirmed height does.
   */
  lemma CheckpointPassesPendingExactly(cfg: Config, s: State, head: nat, start: nat)
    requires s.batchSize >= 1 && Stores(cfg, s, head, start, Fine)
    ensures var end := BatchEnd(start, s.batchSize, head);
            var t := Step(cfg, s, head, start, Fine).s;
            && t.checkpoint == end
            && (PendingBelow(t.pending, end)
                <==> || (!IsConfirmed(start, head, cfg.confirm) && exists l :: l in Batch(cfg, start, end) && l.block < end)
                     || UnconfirmedBelow(s.pending, head, cfg.confirm, start, end))
  {
    var end := BatchEnd(start, s.batchSize, head);
    var u := WithBatch(cfg, s, start, end);
    var t := Step(cfg, s, head, start, Fine).s;
    assert t.pending == WithoutConfirmed(cfg, u, head).pending;
    if h, l :| h in s.pending && h != start && !IsConfirmed(h, head, cfg.confirm) && l in s.pending[h] && l.block < end {
      assert h in t.pending && t.pending[h] == s.pending[h];
    }
    if l :| !IsConfirmed(start, head, cfg.confirm) && l in Batch(cfg, start, end) && l.block < end {
      assert start in t.pending && t.pending[start] == Batch(cfg, start, end);
    }
    if h, l :| h in t.pending && l in t.pending[h] && l.block < end {
      assert h in u.pending && u.pending[h] == t.pending[h] && !IsConfirmed(h, head, cfg.confirm);
    }
  }
}
