/**
 Two whole histories of the log filter in which a log below the checkpoint goes missing: the handler refuses it, or a
 save that reported an error took effect and the process restarts. Both begin with a checkpoint that passes a batch
 still pending.
 */
module SyncExamples {
  import opened LogResults
  import opened PendingPools
  import opened SyncRound
  import opened SyncSafety
  import opened SyncHistories

  function LogOf(b: nat): LogResult { LogResult(b, "tx", "", [], "") }

  /** Logs in the blocks 3, 4 and 6; a confirmation depth of 3; batches of 3 blocks. */
  function Cfg(): Config { Config((b: nat) => if b == 3 || b == 4 || b == 6 then [LogOf(b)] else [], 3) }

  function Daemon(): Deployment { Deployment(Cfg(), 0, 3) }

  function Fresh(): State { State(1, 3, map[], 1, []) }

  // ----- One iteration -----

  lemma PopsOne(p: Heights, latest: nat, confirm: nat, h: nat)
    requires Confirmed(p, latest, confirm) == {h}
    ensures Popped(p, latest, confirm) == multiset(p[h])
    ensures ViewAfterPop(p, latest, confirm) == p - {h}
  {
    GatherWithout(p, {h}, h);
    assert {h} - {h} == {};
  }

  /** Height `h` alone is confirmed, and it holds logs. */
  ghost predicate OnlyReady(p: Heights, h: nat, head: nat, confirm: nat) {
    Confirmed(p, head, confirm) == {h} && p[h] != []
  }

  /** The pool `p` once the batch of the blocks from `start` on, which is `batch`, is in it. */
  ghost predicate Adds(cfg: Config, s: State, head: nat, start: nat, batch: seq<LogResult>, p: Heights) {
    && s.batchSize >= 1 && start <= head
    && Batch(cfg, start, BatchEnd(start, s.batchSize, head)) == batch
    && p == ViewAfterAdd(s.pending, start, batch)
  }

  function HandedOne(s: State, p: Heights, h: nat, head: nat, fate: Fate): State
    requires h in p
  {
    s.(pending := p - {h}, handouts := s.handouts + [Handout(multiset(p[h]), head, fate)])
  }

  /** An iteration that hands out height `h`. */
  lemma HandsOut(cfg: Config, s: State, head: nat, start: nat, end: nat, o: Outcome, h: nat, batch: seq<LogResult>, p: Heights)
    requires Adds(cfg, s, head, start, batch, p) && OnlyReady(p, h, head, cfg.confirm)
    requires end == BatchEnd(start, s.batchSize, head)
    ensures match o
            case Fine =>
              Step(cfg, s, head, start, o) == Continue(end + 1, HandedOne(s, p, h, head, Delivered).(saved := end, checkpoint := end))
            case HandlerError =>
              Step(cfg, s, head, start, o) == Stop(Failed(BatchHandlerError), HandedOne(s, p, h, head, Rejected))
            case SaveError(true) =>
              Step(cfg, s, head, start, o) == Stop(Failed(CheckpointSaveError), HandedOne(s, p, h, head, Delivered).(saved := end))
            case _ => true
  {
    PopsOne(p, head, cfg.confirm, h);
    assert p[h][0] in multiset(p[h]);
  }

  /** An iteration that leaves everything pending. */
  lemma HandsOutNothing(cfg: Config, s: State, head: nat, start: nat, end: nat, batch: seq<LogResult>, p: Heights)
    requires Adds(cfg, s, head, start, batch, p) && Confirmed(p, head, cfg.confirm) == {}
    requires end == BatchEnd(start, s.batchSize, head)
    ensures Step(cfg, s, head, start, Fine) == Continue(end + 1, s.(pending := p))
  {
    assert ViewAfterPop(p, head, cfg.confirm) == p;
  }

  // ----- The loop -----

  lemma GoesOn(cfg: Config, oracle: Oracle, s: State, head: nat, start: nat, n: nat, o: Outcome, next: nat, t: State)
    requires s.batchSize >= 1 && start <= head && oracle(n, start, BatchEnd(start, s.batchSize, head)) == o
    requires Step(cfg, s, head, start, o) == Continue(next, t)
    ensures t.batchSize >= 1 && Rounds(cfg, oracle, s, head, start, n).s == Rounds(cfg, oracle, t, head, next, n + 1).s
  {
    StepAdvances(cfg, s, head, start, o);
  }

  lemma Ends(cfg: Config, oracle: Oracle, s: State, head: nat, start: nat, n: nat, o: Outcome, status: Status, t: State)
    requires s.batchSize >= 1 && start <= head && oracle(n, start, BatchEnd(start, s.batchSize, head)) == o
    requires Step(cfg, s, head, start, o) == Stop(status, t)
    ensures Rounds(cfg, oracle, s, head, start, n).s == t
  {
  }

  // ----- Fetched batches -----

  lemma Fetched(b: nat)
    ensures LogsInRange(Cfg().chain, b, b) == Cfg().chain(b)
    ensures LogsInRange(Cfg().chain, b, b + 1) == Cfg().chain(b) + Cfg().chain(b + 1)
    ensures LogsInRange(Cfg().chain, b, b + 2) == Cfg().chain(b) + Cfg().chain(b + 1) + Cfg().chain(b + 2)
  {
    assert LogsInRange(Cfg().chain, b, b - 1) == [];
  }

  lemma DedupOneMore(before: seq<LogResult>, last: LogResult)
    requires !HasKey(before, last.Key())
    ensures Dedup(before + [last]) == Dedup(before) + [last]
  {
    assert (before + [last])[..|before|] == before;
  }

  lemma DedupOne(l: LogResult)
    ensures Dedup([l]) == [l]
  {
    DedupOneMore([], l);
    assert [] + [l] == [l];
  }

  lemma DedupTwo(l: LogResult, m: LogResult)
    requires l.Key() != m.Key()
    ensures Dedup([l, m]) == [l, m]
  {
    DedupOne(l);
    DedupOneMore([l], m);
    assert [l] + [m] == [l, m];
  }

  lemma BatchTo3()
    ensures Batch(Cfg(), 1, 3) == [LogOf(3)]
  {
    Fetched(1);
    DedupOne(LogOf(3));
  }

  lemma BatchTo4()
    ensures Batch(Cfg(), 4, 4) == [LogOf(4)]
  {
    Fetched(4);
    DedupOne(LogOf(4));
  }

  lemma BatchTo5()
    ensures Batch(Cfg(), 3, 5) == [LogOf(3), LogOf(4)] && Batch(Cfg(), 5, 5) == []
  {
    Fetched(3);
    Fetched(5);
    DedupTwo(LogOf(3), LogOf(4));
  }

  lemma BatchTo7()
    ensures Batch(Cfg(), 5, 7) == [LogOf(6)]
  {
    Fetched(5);
    DedupOne(LogOf(6));
  }

  lemma BatchTo8()
    ensures Batch(Cfg(), 7, 8) == []
  {
    Fetched(7);
  }

  // ----- Rounds -----

  function First(first: Outcome, rest: Outcome): Oracle {
    (n: nat, a: nat, b: nat) => if n == 0 then first else rest
  }

  function ShrinkThenCancel(): Oracle {
    (n: nat, a: nat, b: nat) => if n == 0 then RangeError else if n == 1 then Fine else Cancelled(AtHead)
  }

  /** The state, except for what was handed out: of that, only that it has not been the log of block 6. */
  ghost predicate At(s: State, checkpoint: nat, batchSize: nat, pending: Heights, saved: nat) {
    && s.checkpoint == checkpoint && s.batchSize == batchSize && s.pending == pending && s.saved == saved
    && !HandedOut(s.handouts, LogOf(6).Key(), AnyHandout)
  }

  function Pending4(): Heights { map[4 := [LogOf(4)]] }
  function Pending6(): Heights { map[5 := [LogOf(6)]] }

  lemma HandsOutOthers(s: State, p: Heights, h: nat, head: nat, q: Heights)
    requires h in p && !HasKey(p[h], LogOf(6).Key()) && !HandedOut(s.handouts, LogOf(6).Key(), AnyHandout)
    requires p - {h} == q
    ensures var t := HandedOne(s, p, h, head, Delivered); At(t, s.checkpoint, s.batchSize, q, s.saved)
  {
    assert !Among(multiset(p[h]), LogOf(6).Key());
  }

  lemma DeliversTo3(s: State) returns (t: State)
    requires At(s, 1, 3, map[], 1)
    ensures Step(Cfg(), s, 4, 1, Fine) == Continue(4, t) && At(t, 3, 3, map[], 3)
  {
    var p: Heights := map[1 := [LogOf(3)]];
    assert p - {1} == map[] && OnlyReady(p, 1, 4, 3);
    assert Adds(Cfg(), s, 4, 1, [LogOf(3)], p) by { BatchTo3(); }
    HandsOut(Cfg(), s, 4, 1, 3, Fine, 1, [LogOf(3)], p);
    HandsOutOthers(s, p, 1, 4, map[]);
    t := HandedOne(s, p, 1, 4, Delivered).(saved := 3, checkpoint := 3);
  }

  lemma LeavesBlock4(s: State) returns (t: State)
    requires At(s, 3, 3, map[], 3)
    ensures Step(Cfg(), s, 4, 4, Fine) == Continue(5, t) && At(t, 3, 3, Pending4(), 3)
  {
    BatchTo4();
    HandsOutNothing(Cfg(), s, 4, 4, 4, [LogOf(4)], Pending4());
    t := s.(pending := Pending4());
  }

  lemma DeliversTo5(s: State) returns (t: State)
    requires At(s, 3, 3, Pending4(), 3)
    ensures Step(Cfg(), s, 6, 3, Fine) == Continue(6, t) && At(t, 5, 3, Pending4(), 5)
  {
    var batch := [LogOf(3), LogOf(4)];
    var p: Heights := Pending4()[3 := batch];
    assert p - {3} == Pending4() && OnlyReady(p, 3, 6, 3);
    assert Adds(Cfg(), s, 6, 3, batch, p) by { BatchTo5(); }
    HandsOut(Cfg(), s, 6, 3, 5, Fine, 3, batch, p);
    HandsOutOthers(s, p, 3, 6, Pending4());
    t := HandedOne(s, p, 3, 6, Delivered).(saved := 5, checkpoint := 5);
  }

  lemma Delivers4(s: State, o: Outcome) returns (t: State)
    requires At(s, 5, 3, Pending4(), 5) && (o == Fine || o == SaveError(true))
    ensures Step(Cfg(), s, 7, 5, o) == if o == Fine then Continue(8, t) else Stop(Failed(CheckpointSaveError), t)
    ensures At(t, if o == Fine then 7 else 5, 3, Pending6(), 7)
  {
    var p: Heights := Pending4()[5 := [LogOf(6)]];
    assert p - {4} == Pending6() && OnlyReady(p, 4, 7, 3);
    assert Adds(Cfg(), s, 7, 5, [LogOf(6)], p) by { BatchTo7(); }
    HandsOut(Cfg(), s, 7, 5, 7, o, 4, [LogOf(6)], p);
    HandsOutOthers(s, p, 4, 7, Pending6());
    t := HandedOne(s, p, 4, 7, Delivered).(saved := 7, checkpoint := if o == Fine then 7 else 5);
  }

  lemma Refuses6(s: State) returns (t: State)
    requires At(s, 7, 3, Pending6(), 7)
    ensures Step(Cfg(), s, 8, 7, HandlerError) == Stop(Failed(BatchHandlerError), t)
    ensures t.checkpoint == t.saved == 7 && !Held(t, LogOf(6).Key(), DeliveriesOnly)
  {
    assert Pending6() - {5} == map[];
    BatchTo8();
    HandsOut(Cfg(), s, 8, 7, 8, HandlerError, 5, [], Pending6());
    t := HandedOne(s, Pending6(), 5, 8, Rejected);
  }

  lemma Empties5(s: State) returns (t: State)
    requires At(s, 5, 1, Pending6(), 7)
    ensures Step(Cfg(), s, 7, 5, Fine) == Continue(6, t) && At(t, 5, 1, map[], 7)
  {
    BatchTo5();
    assert Pending6() - {5} == map[];
    HandsOutNothing(Cfg(), s, 7, 5, 5, [], map[]);
    t := s.(pending := map[]);
  }

  /** To head 4: the blocks 1 to 3 are delivered, block 4 stays pending. */
  lemma Round1(oracle: Oracle, s: State) returns (t: State)
    requires oracle == First(Fine, Fine) && At(s, 1, 3, map[], 1)
    ensures t == RunOnce(Cfg(), oracle, s, Latest(4)).s && At(t, 3, 3, Pending4(), 3)
  {
    var u := DeliversTo3(s);
    GoesOn(Cfg(), oracle, s, 4, 1, 0, Fine, 4, u);
    t := EndOfRound1(oracle, u);
  }

  lemma EndOfRound1(oracle: Oracle, s: State) returns (t: State)
    requires oracle == First(Fine, Fine) && At(s, 3, 3, map[], 3)
    ensures t == Rounds(Cfg(), oracle, s, 4, 4, 1).s && At(t, 3, 3, Pending4(), 3)
  {
    t := LeavesBlock4(s);
    GoesOn(Cfg(), oracle, s, 4, 4, 1, Fine, 5, t);
  }

  /** To head 6: the blocks 3 to 5 are delivered and height 4 is left behind; then the round is cancelled. */
  lemma Round2(oracle: Oracle, s: State) returns (t: State)
    requires oracle == First(Fine, Cancelled(AtHead)) && At(s, 3, 3, Pending4(), 3)
    ensures t == RunOnce(Cfg(), oracle, s, Latest(6)).s && At(t, 5, 3, Pending4(), 5)
  {
    t := DeliversTo5(s);
    GoesOn(Cfg(), oracle, s, 6, 3, 0, Fine, 6, t);
    Ends(Cfg(), oracle, t, 6, 6, 1, Cancelled(AtHead), Failed(CtxError), t);
  }

  /** To head 7: height 4 is confirmed and moves the checkpoint past the pending blocks 5 to 7. */
  lemma Round3(oracle: Oracle, s: State) returns (t: State)
    requires oracle == First(Fine, Fine) && At(s, 5, 3, Pending4(), 5)
    ensures t == RunOnce(Cfg(), oracle, s, Latest(7)).s && At(t, 7, 3, Pending6(), 7)
  {
    t := Delivers4(s, Fine);
    GoesOn(Cfg(), oracle, s, 7, 5, 0, Fine, 8, t);
  }

  /** The same round, with a save that takes effect but fails. */
  lemma Round3WithFailedSave(oracle: Oracle, s: State) returns (t: State)
    requires oracle == First(SaveError(true), Fine) && At(s, 5, 3, Pending4(), 5)
    ensures t == RunOnce(Cfg(), oracle, s, Latest(7)).s && At(t, 5, 3, Pending6(), 7)
  {
    t := Delivers4(s, SaveError(true));
    Ends(Cfg(), oracle, s, 7, 5, 0, SaveError(true), Failed(CheckpointSaveError), t);
  }

  /** To head 8: the handler refuses height 5. */
  lemma Round4(oracle: Oracle, s: State) returns (t: State)
    requires oracle == First(HandlerError, Fine) && At(s, 7, 3, Pending6(), 7)
    ensures t == RunOnce(Cfg(), oracle, s, Latest(8)).s && t.checkpoint == t.saved == 7 && !Held(t, LogOf(6).Key(), DeliveriesOnly)
  {
    t := Refuses6(s);
    Ends(Cfg(), oracle, s, 8, 7, 0, HandlerError, Failed(BatchHandlerError), t);
  }

  /** Again to head 7 after the failed save: the batch size shrinks to 1, so that height 5 becomes empty. */
  lemma Round4AfterFailedSave(oracle: Oracle, s: State) returns (t: State)
    requires oracle == ShrinkThenCancel() && At(s, 5, 3, Pending6(), 7)
    ensures t == RunOnce(Cfg(), oracle, s, Latest(7)).s && At(t, 5, 1, map[], 7)
  {
    var u := s.(batchSize := 1);
    GoesOn(Cfg(), oracle, s, 7, 5, 0, RangeError, 5, u);
    t := Empties5(u);
    GoesOn(Cfg(), oracle, u, 7, 5, 1, Fine, 6, t);
    Ends(Cfg(), oracle, t, 7, 6, 2, Cancelled(AtHead), Failed(CtxError), t);
  }

  // ----- Histories -----

  lemma HistoryOneMore(d: Deployment, s: State, events: seq<Event>, e: Event)
    ensures History(d, s, events + [e]) == After(d, History(d, s, events), e)
  {
    assert (events + [e])[..|events|] == events;
  }

  lemma TwoRounds() returns (events: seq<Event>)
    ensures |events| == 2 && events[0].Sync? && events[1].Sync?
    ensures At(History(Daemon(), Fresh(), events), 5, 3, Pending4(), 5)
  {
    var o1, o2 := First(Fine, Fine), First(Fine, Cancelled(AtHead));
    events := [Sync(Latest(4), o1)];
    HistoryOneMore(Daemon(), Fresh(), [], events[0]);
    var s := Round1(o1, Fresh());
    s := Round2(o2, s);
    HistoryOneMore(Daemon(), Fresh(), events, Sync(Latest(6), o2));
    events := events + [Sync(Latest(6), o2)];
  }

  /** A log below the checkpoint that the handler refused is neither pending nor delivered, and no round fetches it again. */
  lemma RefusedLogBelowCheckpoint() returns (events: seq<Event>)
    ensures WellFormed(Cfg().chain) && Initial(Daemon(), Fresh(), 1) && LogOf(6) in Cfg().chain(6)
    ensures var t := History(Daemon(), Fresh(), events);
            6 < t.checkpoint && t.checkpoint == t.saved && !Held(t, LogOf(6).Key(), DeliveriesOnly)
    ensures !HistoryHolds(Daemon(), Fresh(), 6, DeliveriesOnly, events)
  {
    var two := TwoRounds();
    var o3, o4 := First(Fine, Fine), First(HandlerError, Fine);
    events := two + [Sync(Latest(7), o3)];
    HistoryOneMore(Daemon(), Fresh(), two, Sync(Latest(7), o3));
    var s := Round3(o3, History(Daemon(), Fresh(), two));
    HistoryOneMore(Daemon(), Fresh(), events, Sync(Latest(8), o4));
    s := Round4(o4, s);
    events := events + [Sync(Latest(8), o4)];
    assert 1 == ResumeAt(Daemon(), 1, 0);
    HistoryHoldsExactly(Daemon(), Fresh(), 1, 6, DeliveriesOnly, events);
  }

  /**
   A save that took effect although it failed: after a shorter round and a restart, a log below the checkpoint is
   unaccounted for. The shorter round overwrote height 5.
   */
  lemma RestartAheadOfCheckpoint() returns (events: seq<Event>)
    ensures WellFormed(Cfg().chain) && Initial(Daemon(), Fresh(), 1) && LogOf(6) in Cfg().chain(6)
    ensures var t := History(Daemon(), Fresh(), events);
            6 < t.checkpoint && t.checkpoint == t.saved && !Held(t, LogOf(6).Key(), AnyHandout)
    ensures !HistoryHolds(Daemon(), Fresh(), 6, AnyHandout, events)
  {
    var two := TwoRounds();
    var o3, o4 := First(SaveError(true), Fine), ShrinkThenCancel();
    events := two + [Sync(Latest(7), o3)];
    HistoryOneMore(Daemon(), Fresh(), two, Sync(Latest(7), o3));
    var s := Round3WithFailedSave(o3, History(Daemon(), Fresh(), two));
    HistoryOneMore(Daemon(), Fresh(), events, Sync(Latest(7), o4));
    s := Round4AfterFailedSave(o4, s);
    events := events + [Sync(Latest(7), o4)];
    HistoryOneMore(Daemon(), Fresh(), events, Restart(7));
    events := events + [Restart(7)];
    assert 1 == ResumeAt(Daemon(), 1, 0);
    HistoryHoldsExactly(Daemon(), Fresh(), 1, 6, AnyHandout, events);
  }
}
