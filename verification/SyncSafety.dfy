/** What sync rounds keep: no log is lost, none is handed out much too early, and a finished round has drained the pool. */
module SyncSafety {
  import opened LogResults
  import opened PendingPools
  import opened SyncRound

  // ----- Where a key is -----

  ghost predicate Among(logs: multiset<LogResult>, k: LogKey) {
    exists l :: l in logs && l.Key() == k
  }

  ghost predicate InPool(p: Heights, k: LogKey) {
    exists h :: h in p && HasKey(p[h], k)
  }

  /** Which handouts count: refused and dropped ones too, or deliveries alone. */
  datatype Counting = AnyHandout | DeliveriesOnly

  predicate CountsAs(c: Counting, fate: Fate) {
    c.AnyHandout? || fate.Delivered?
  }

  ghost predicate HandedOut(handouts: seq<Handout>, k: LogKey, c: Counting) {
    exists i :: 0 <= i < |handouts| && CountsAs(c, handouts[i].fate) && Among(handouts[i].logs, k)
  }

  /** Still pending, or taken out of the pool in a way that counts. */
  ghost predicate Held(s: State, k: LogKey, c: Counting) {
    InPool(s.pending, k) || HandedOut(s.handouts, k, c)
  }

  /** Every log of block `b` is held. */
  ghost predicate BlockHeld(chain: Chain, s: State, b: nat, c: Counting) {
    forall l :: l in chain(b) ==> Held(s, l.Key(), c)
  }

  /** Every log of the blocks `from` up to but not including `upTo` is held. */
  ghost predicate AllHeld(chain: Chain, s: State, from: nat, upTo: nat, c: Counting) {
    forall b: nat :: from <= b < upTo ==> BlockHeld(chain, s, b, c)
  }

  // ----- Bounds on the pool and on what left it -----

  /** Heights hold logs, of blocks no earlier than the height and less than a full batch after it. */
  ghost predicate PoolBounded(p: Heights, full: nat) {
    && (forall h :: h in p ==> p[h] != [])
    && (forall h, l :: h in p && l in p[h] ==> h <= l.block < h + full)
  }

  /** A log left the pool at a head that its block had reached the confirmation depth at, short of a full batch. */
  ghost predicate HandoutsBounded(handouts: seq<Handout>, confirm: nat, full: nat) {
    forall i, l :: 0 <= i < |handouts| && l in handouts[i].logs ==> l.block + confirm < handouts[i].head + full
  }

  ghost predicate Bounded(cfg: Config, s: State, full: nat) {
    s.batchSize <= full && PoolBounded(s.pending, full) && HandoutsBounded(s.handouts, cfg.confirm, full)
  }

  /** Nothing in the pool has reached the confirmation depth. */
  ghost predicate Drained(cfg: Config, s: State, head: nat) {
    forall h :: h in s.pending ==> !IsConfirmed(h, head, cfg.confirm)
  }

  // ----- Fetching -----

  lemma {:induction false} RangeMembers(chain: Chain, first: nat, last: int, l: LogResult)
    ensures l in LogsInRange(chain, first, last) <==> (exists b: nat :: first <= b <= last && l in chain(b))
    decreases last - first
  {
    if first <= last {
      RangeMembers(chain, first, last - 1, l);
      assert l in LogsInRange(chain, first, last) <==> l in LogsInRange(chain, first, last - 1) || l in chain(last);
    }
  }

  lemma BatchBounds(cfg: Config, start: nat, end: nat)
    requires WellFormed(cfg.chain)
    ensures forall l :: l in Batch(cfg, start, end) ==> start <= l.block <= end
  {
    forall l | l in Batch(cfg, start, end) ensures start <= l.block <= end {
      DedupKeepsKeys(LogsInRange(cfg.chain, start, end));
      RangeMembers(cfg.chain, start, end, l);
    }
  }

  lemma BatchCovers(cfg: Config, start: nat, end: nat, b: nat, l: LogResult)
    requires start <= b <= end && l in cfg.chain(b)
    ensures HasKey(Batch(cfg, start, end), l.Key())
  {
    RangeMembers(cfg.chain, start, end, l);
    DedupKeepsKeys(LogsInRange(cfg.chain, start, end));
    assert HasKey(LogsInRange(cfg.chain, start, end), l.Key());
  }

  // ----- Adding a batch -----

  ghost predicate Elsewhere(p: Heights, h: nat, k: LogKey) {
    exists g :: g in p && g != h && HasKey(p[g], k)
  }

  lemma AddSplits(cfg: Config, s: State, start: nat, end: nat, k: LogKey, c: Counting)
    ensures Held(WithBatch(cfg, s, start, end), k, c)
            <==> HasKey(Batch(cfg, start, end), k) || Elsewhere(s.pending, start, k) || HandedOut(s.handouts, k, c)
  {
    var t := WithBatch(cfg, s, start, end);
    if HasKey(Batch(cfg, start, end), k) {
      assert start in t.pending && HasKey(t.pending[start], k);
    }
    if g :| g in s.pending && g != start && HasKey(s.pending[g], k) {
      assert g in t.pending && t.pending[g] == s.pending[g];
    }
    if h :| h in t.pending && HasKey(t.pending[h], k) {
      assert h != start ==> h in s.pending && t.pending[h] == s.pending[h];
    }
  }

  /** Overwriting height `start` drops no log of block `b`: each one there was handed out or is pending at another height. */
  ghost predicate HeightSpares(cfg: Config, s: State, start: nat, b: nat, c: Counting) {
    start in s.pending ==>
      forall l :: l in cfg.chain(b) && HasKey(s.pending[start], l.Key()) ==>
        Elsewhere(s.pending, start, l.Key()) || HandedOut(s.handouts, l.Key(), c)
  }

  /**
   After the batch of the blocks `start` to `end` is added, a block is held if and only if it is in the batch, or it was
   held and the overwritten height spares it.
   */
  lemma AddHoldsExactly(cfg: Config, s: State, start: nat, end: nat, b: nat, c: Counting)
    requires WellFormed(cfg.chain)
    ensures BlockHeld(cfg.chain, WithBatch(cfg, s, start, end), b, c)
            <==> start <= b <= end || (BlockHeld(cfg.chain, s, b, c) && HeightSpares(cfg, s, start, b, c))
  {
    BatchBounds(cfg, start, end);
    forall l | l in cfg.chain(b)
      ensures start <= b <= end ==> HasKey(Batch(cfg, start, end), l.Key())
      ensures !(start <= b <= end) ==> !HasKey(Batch(cfg, start, end), l.Key())
      ensures Held(WithBatch(cfg, s, start, end), l.Key(), c)
              <==> HasKey(Batch(cfg, start, end), l.Key()) || Elsewhere(s.pending, start, l.Key()) || HandedOut(s.handouts, l.Key(), c)
    {
      AddSplits(cfg, s, start, end, l.Key(), c);
      if start <= b <= end { BatchCovers(cfg, start, end, b, l); }
    }
    assert forall k :: Elsewhere(s.pending, start, k) ==> InPool(s.pending, k);
    assert forall k :: InPool(s.pending, k) ==> Elsewhere(s.pending, start, k) || (start in s.pending && HasKey(s.pending[start], k));
  }

  /** A height holds only blocks from it on, and short of a full batch. */
  lemma HeightSparesOthers(cfg: Config, s: State, start: nat, full: nat, b: nat, c: Counting)
    requires WellFormed(cfg.chain) && PoolBounded(s.pending, full) && !(start <= b < start + full)
    ensures HeightSpares(cfg, s, start, b, c)
  {
  }

  // ----- Popping -----

  lemma PopSplits(cfg: Config, s: State, head: nat, k: LogKey)
    ensures InPool(s.pending, k)
            <==> InPool(WithoutConfirmed(cfg, s, head).pending, k) || Among(Ready(cfg, s, head), k)
  {
    var hs := Confirmed(s.pending, head, cfg.confirm);
    if h :| h in s.pending && HasKey(s.pending[h], k) {
      var l :| l in s.pending[h] && l.Key() == k;
      GatherMembers(s.pending, hs, l);
      if h !in hs { assert h in WithoutConfirmed(cfg, s, head).pending; }
    }
    if l :| l in Ready(cfg, s, head) && l.Key() == k {
      GatherMembers(s.pending, hs, l);
    }
    if h :| h in WithoutConfirmed(cfg, s, head).pending && HasKey(WithoutConfirmed(cfg, s, head).pending[h], k) {
      assert h in s.pending;
    }
  }

  /** The confirmed heights, taken out of the pool with the given fate. */
  ghost function Taken(cfg: Config, s: State, head: nat, fate: Fate): State {
    Handed(WithoutConfirmed(cfg, s, head), Ready(cfg, s, head), head, fate)
  }

  lemma TakenHandouts(handouts: seq<Handout>, last: Handout, k: LogKey, c: Counting)
    ensures HandedOut(handouts + [last], k, c)
            <==> HandedOut(handouts, k, c) || (CountsAs(c, last.fate) && Among(last.logs, k))
  {
    var more := handouts + [last];
    if i :| 0 <= i < |handouts| && CountsAs(c, handouts[i].fate) && Among(handouts[i].logs, k) {
      assert more[i] == handouts[i];
    }
    assert more[|handouts|] == last;
  }

  lemma TakenKey(cfg: Config, s: State, head: nat, fate: Fate, k: LogKey, c: Counting)
    ensures CountsAs(c, fate) ==> (Held(Taken(cfg, s, head, fate), k, c) <==> Held(s, k, c))
    ensures !CountsAs(c, fate) ==>
              (Held(Taken(cfg, s, head, fate), k, c)
               <==> InPool(WithoutConfirmed(cfg, s, head).pending, k) || HandedOut(s.handouts, k, c))
  {
    PopSplits(cfg, s, head, k);
    TakenHandouts(s.handouts, Handout(Ready(cfg, s, head), head, fate), k, c);
  }

  ghost predicate Unconfirmed(p: Heights, head: nat, confirm: nat, k: LogKey) {
    exists h :: h in p && !IsConfirmed(h, head, confirm) && HasKey(p[h], k)
  }

  /**
   Taking the confirmed heights out of the pool without delivering them drops no log of block `b`: each one at a
   confirmed height was delivered before or is also pending at an unconfirmed one.
   */
  ghost predicate PopSpares(cfg: Config, s: State, head: nat, b: nat, c: Counting) {
    c.DeliveriesOnly? ==>
      forall l, h ::
        l in cfg.chain(b) && h in s.pending && IsConfirmed(h, head, cfg.confirm) && HasKey(s.pending[h], l.Key()) ==>
          Unconfirmed(s.pending, head, cfg.confirm, l.Key()) || HandedOut(s.handouts, l.Key(), c)
  }

  lemma RemainingAreUnconfirmed(cfg: Config, s: State, head: nat, k: LogKey)
    ensures InPool(WithoutConfirmed(cfg, s, head).pending, k) <==> Unconfirmed(s.pending, head, cfg.confirm, k)
  {
    var t := WithoutConfirmed(cfg, s, head);
    if h :| h in t.pending && HasKey(t.pending[h], k) {
      assert h in s.pending && !IsConfirmed(h, head, cfg.confirm) && s.pending[h] == t.pending[h];
    }
    if h :| h in s.pending && !IsConfirmed(h, head, cfg.confirm) && HasKey(s.pending[h], k) {
      assert h in t.pending && t.pending[h] == s.pending[h];
    }
  }

  /** A pop that delivers, or that counts anyway, keeps exactly what was held. */
  lemma DeliveryHolds(cfg: Config, s: State, head: nat, fate: Fate, b: nat, c: Counting)
    requires CountsAs(c, fate)
    ensures BlockHeld(cfg.chain, Taken(cfg, s, head, fate), b, c) <==> BlockHeld(cfg.chain, s, b, c)
  {
    forall l | l in cfg.chain(b) ensures Held(Taken(cfg, s, head, fate), l.Key(), c) <==> Held(s, l.Key(), c) {
      TakenKey(cfg, s, head, fate, l.Key(), c);
    }
  }

  /** After a pop that the handler refuses, or that the pool drops, a block is held if and only if it was and is spared. */
  lemma FailedPopHoldsExactly(cfg: Config, s: State, head: nat, fate: Fate, b: nat, c: Counting)
    requires !fate.Delivered?
    ensures BlockHeld(cfg.chain, Taken(cfg, s, head, fate), b, c)
            <==> BlockHeld(cfg.chain, s, b, c) && PopSpares(cfg, s, head, b, c)
  {
    if c.AnyHandout? {
      DeliveryHolds(cfg, s, head, fate, b, c);
      return;
    }
    forall l | l in cfg.chain(b)
      ensures Held(Taken(cfg, s, head, fate), l.Key(), c)
              <==> Unconfirmed(s.pending, head, cfg.confirm, l.Key()) || HandedOut(s.handouts, l.Key(), c)
    {
      TakenKey(cfg, s, head, fate, l.Key(), c);
      RemainingAreUnconfirmed(cfg, s, head, l.Key());
    }
    assert forall k :: Unconfirmed(s.pending, head, cfg.confirm, k) ==> InPool(s.pending, k);
    assert forall k, h :: h in s.pending && HasKey(s.pending[h], k) && !IsConfirmed(h, head, cfg.confirm) ==>
             Unconfirmed(s.pending, head, cfg.confirm, k);
  }

  lemma PopBounds(cfg: Config, s: State, head: nat, fate: Fate, full: nat)
    requires Bounded(cfg, s, full)
    ensures Bounded(cfg, Taken(cfg, s, head, fate), full) && Drained(cfg, Taken(cfg, s, head, fate), head)
  {
    forall l | l in Ready(cfg, s, head) ensures l.block + cfg.confirm < head + full {
      GatherMembers(s.pending, Confirmed(s.pending, head, cfg.confirm), l);
    }
  }

  // ----- One iteration, exactly -----

  predicate Adds(o: Outcome) {
    !o.Cancelled? && !o.RangeError? && !o.RpcError? && o != AddError(false)
  }

  /** What is popped is not delivered. */
  predicate Undelivered(o: Outcome) {
    o == PopError(true) || o.HandlerError?
  }

  /** Block `b` is held after the iteration, given whether it was before: a condition on the state before. */
  ghost predicate StepHolds(cfg: Config, s: State, head: nat, start: nat, o: Outcome, b: nat, c: Counting, was: bool)
    requires s.batchSize >= 1
  {
    var end := BatchEnd(start, s.batchSize, head);
    if !Adds(o) then was
    else
      && (start <= b <= end || (was && HeightSpares(cfg, s, start, b, c)))
      && (Undelivered(o) ==> PopSpares(cfg, WithBatch(cfg, s, start, end), head, b, c))
  }

  /** What is held depends on the pool and the handouts alone. */
  lemma HeldAlike(chain: Chain, s: State, t: State, b: nat, c: Counting)
    requires s.pending == t.pending && s.handouts == t.handouts
    ensures BlockHeld(chain, s, b, c) <==> BlockHeld(chain, t, b, c)
  {
    forall k: LogKey ensures Held(s, k, c) <==> Held(t, k, c) {
    }
  }

  lemma NothingReadied(cfg: Config, s: State, head: nat, b: nat, c: Counting)
    requires (forall h :: h in s.pending ==> s.pending[h] != []) && Ready(cfg, s, head) == multiset{}
    ensures WithoutConfirmed(cfg, s, head) == s && PopSpares(cfg, s, head, b, c)
  {
    NothingPopped(s.pending, head, cfg.confirm);
    forall h | h in s.pending ensures !IsConfirmed(h, head, cfg.confirm) {
      assert h !in Confirmed(s.pending, head, cfg.confirm);
    }
  }

  lemma EmitHoldsExactly(cfg: Config, s: State, head: nat, end: nat, o: Outcome, b: nat, c: Counting)
    requires forall h :: h in s.pending ==> s.pending[h] != []
    ensures BlockHeld(cfg.chain, Emit(cfg, s, head, end, o).s, b, c)
            <==> BlockHeld(cfg.chain, s, b, c) && (Undelivered(o) ==> PopSpares(cfg, s, head, b, c))
  {
    var t := Emit(cfg, s, head, end, o).s;
    if Ready(cfg, s, head) == multiset{} { NothingReadied(cfg, s, head, b, c); }
    if o == PopError(true) || (o.HandlerError? && Ready(cfg, s, head) != multiset{}) {
      var fate := if o.HandlerError? then Rejected else Dropped;
      HeldAlike(cfg.chain, t, Taken(cfg, s, head, fate), b, c);
      FailedPopHoldsExactly(cfg, s, head, fate, b, c);
    } else if !o.PopError? && Ready(cfg, s, head) != multiset{} {
      HeldAlike(cfg.chain, t, Taken(cfg, s, head, Delivered), b, c);
      DeliveryHolds(cfg, s, head, Delivered, b, c);
    } else {
      HeldAlike(cfg.chain, s, t, b, c);
    }
  }

  /**
   Every iteration, whatever fails in it, and every block: the block is held afterwards if and only if it is in the
   batch that was added, or it was held and the overwritten height spares it, and an undelivered pop spares it.
   */
  lemma StepHoldsExactly(cfg: Config, s: State, head: nat, start: nat, o: Outcome, full: nat, b: nat, c: Counting)
    requires WellFormed(cfg.chain) && s.batchSize >= 1 && PoolBounded(s.pending, full)
    ensures BlockHeld(cfg.chain, Step(cfg, s, head, start, o).s, b, c)
            <==> StepHolds(cfg, s, head, start, o, b, c, BlockHeld(cfg.chain, s, b, c))
  {
    var end := BatchEnd(start, s.batchSize, head);
    var t := WithBatch(cfg, s, start, end);
    if Adds(o) {
      AddHoldsExactly(cfg, s, start, end, b, c);
      if !o.AddError? { EmitHoldsExactly(cfg, t, head, end, o, b, c); }
    } else {
      HeldAlike(cfg.chain, s, Step(cfg, s, head, start, o).s, b, c);
    }
  }

  // ----- One iteration, forwards -----

  /** The iteration stores a checkpoint, whether or not it reports so. */
  ghost predicate Stores(cfg: Config, s: State, head: nat, start: nat, o: Outcome)
    requires s.batchSize >= 1
  {
    (o.Fine? || o == SaveError(true)) && Ready(cfg, WithBatch(cfg, s, start, BatchEnd(start, s.batchSize, head)), head) != multiset{}
  }

  /** What an iteration does to the two checkpoints. */
  lemma StepCheckpoints(cfg: Config, s: State, head: nat, start: nat, o: Outcome)
    requires s.batchSize >= 1 && s.checkpoint <= start <= head
    ensures var r := Step(cfg, s, head, start, o);
            && (if Stores(cfg, s, head, start, o) then r.s.saved == BatchEnd(start, s.batchSize, head) else r.s.saved == s.saved)
            && (r.Stop? ==> r.s.checkpoint == s.checkpoint)
            && (r.Continue? ==> r.s.checkpoint == if Stores(cfg, s, head, start, o) then r.s.saved else s.checkpoint)
            && (r.Continue? ==> start <= r.start <= head + 1 && r.s.checkpoint <= r.start)
  {
  }

  lemma StepKeepsBounds(cfg: Config, s: State, head: nat, start: nat, o: Outcome, full: nat)
    requires WellFormed(cfg.chain) && s.batchSize >= 1 && start <= head && Bounded(cfg, s, full)
    ensures var r := Step(cfg, s, head, start, o);
            && Bounded(cfg, r.s, full)
            && (r.Continue? && (!o.RangeError? || Drained(cfg, s, head)) ==> Drained(cfg, r.s, head))
  {
    var end := BatchEnd(start, s.batchSize, head);
    var t := WithBatch(cfg, s, start, end);
    BatchBounds(cfg, start, end);
    if Adds(o) && !o.AddError? {
      if Ready(cfg, t, head) == multiset{} { NothingPopped(t.pending, head, cfg.confirm); }
      PopBounds(cfg, t, head, if o.PopError? then Dropped else if o.HandlerError? then Rejected else Delivered, full);
    }
  }

  /** A failing iteration whose pop is not delivered stops the round, unless there is nothing to pop. */
  lemma GoingOnSpares(cfg: Config, s: State, head: nat, start: nat, o: Outcome, b: nat, c: Counting)
    requires s.batchSize >= 1 && (forall h :: h in s.pending ==> s.pending[h] != [])
    requires Step(cfg, s, head, start, o).Continue? && Undelivered(o)
    ensures PopSpares(cfg, WithBatch(cfg, s, start, BatchEnd(start, s.batchSize, head)), head, b, c)
  {
    NothingReadied(cfg, WithBatch(cfg, s, start, BatchEnd(start, s.batchSize, head)), head, b, c);
  }

  /** An iteration that goes on holds what it held of the blocks before its own, and the blocks it has passed. */
  lemma GoingOnHolds(cfg: Config, s: State, head: nat, start: nat, o: Outcome, full: nat, b: nat, c: Counting)
    requires WellFormed(cfg.chain) && s.batchSize >= 1 && start <= head && PoolBounded(s.pending, full)
    requires Step(cfg, s, head, start, o).Continue?
    ensures var r := Step(cfg, s, head, start, o);
            b < r.start ==> (BlockHeld(cfg.chain, r.s, b, c) <==> start <= b || BlockHeld(cfg.chain, s, b, c))
  {
    StepHoldsExactly(cfg, s, head, start, o, full, b, c);
    StepAdvances(cfg, s, head, start, o);
    if b < start { HeightSparesOthers(cfg, s, start, full, b, c); }
    if Undelivered(o) { GoingOnSpares(cfg, s, head, start, o, b, c); }
  }

  /** While every handout counts, no iteration drops a block before its own, and one that stores holds its own. */
  lemma StepKeepsEarlier(cfg: Config, s: State, head: nat, start: nat, o: Outcome, full: nat, b: nat)
    requires WellFormed(cfg.chain) && s.batchSize >= 1 && start <= head && PoolBounded(s.pending, full)
    ensures var r := Step(cfg, s, head, start, o);
            && (b < start && BlockHeld(cfg.chain, s, b, AnyHandout) ==> BlockHeld(cfg.chain, r.s, b, AnyHandout))
            && (Stores(cfg, s, head, start, o) && start <= b <= r.s.saved ==> BlockHeld(cfg.chain, r.s, b, AnyHandout))
  {
    StepHoldsExactly(cfg, s, head, start, o, full, b, AnyHandout);
    if b < start { HeightSparesOthers(cfg, s, start, full, b, AnyHandout); }
  }

  // ----- What is pending or was handed out comes from the chain -----

  ghost predicate Real(chain: Chain, s: State) {
    && (forall h, l :: h in s.pending && l in s.pending[h] ==> l in chain(l.block))
    && (forall i, l :: 0 <= i < |s.handouts| && l in s.handouts[i].logs ==> l in chain(l.block))
  }

  lemma BatchIsReal(cfg: Config, s: State, start: nat, end: nat)
    requires WellFormed(cfg.chain) && Real(cfg.chain, s)
    ensures Real(cfg.chain, WithBatch(cfg, s, start, end))
  {
    DedupKeepsKeys(LogsInRange(cfg.chain, start, end));
    forall l | l in Batch(cfg, start, end) ensures l in cfg.chain(l.block) {
      RangeMembers(cfg.chain, start, end, l);
    }
  }

  lemma TakenIsReal(cfg: Config, s: State, head: nat, fate: Fate)
    requires Real(cfg.chain, s)
    ensures Real(cfg.chain, WithoutConfirmed(cfg, s, head)) && Real(cfg.chain, Taken(cfg, s, head, fate))
  {
    forall l | l in Ready(cfg, s, head) ensures l in cfg.chain(l.block) {
      GatherMembers(s.pending, Confirmed(s.pending, head, cfg.confirm), l);
    }
  }

  lemma EmitIsReal(cfg: Config, s: State, head: nat, end: nat, o: Outcome)
    requires Real(cfg.chain, s)
    ensures Real(cfg.chain, Emit(cfg, s, head, end, o).s)
  {
    TakenIsReal(cfg, s, head, if o.PopError? then Dropped else if o.HandlerError? then Rejected else Delivered);
  }

  lemma {:induction false} RoundsKeepReal(cfg: Config, oracle: Oracle, s: State, head: nat, start: nat, n: nat)
    requires WellFormed(cfg.chain) && s.batchSize >= 1 && Real(cfg.chain, s)
    ensures Real(cfg.chain, Rounds(cfg, oracle, s, head, start, n).s)
    decreases BlocksLeft(start, head), s.batchSize
  {
    if start <= head {
      var end := BatchEnd(start, s.batchSize, head);
      var o := oracle(n, start, end);
      StepAdvances(cfg, s, head, start, o);
      BatchIsReal(cfg, s, start, end);
      if Adds(o) && !o.AddError? { EmitIsReal(cfg, WithBatch(cfg, s, start, end), head, end, o); }
      match Step(cfg, s, head, start, o)
      case Stop(_, _) =>
      case Continue(start', t) => RoundsKeepReal(cfg, oracle, t, head, start', n + 1);
    }
  }

  // ----- One round -----

  /** Block `b` is held after the round, given whether it was before: iteration by iteration, on the state before each. */
  ghost predicate RoundHolds(cfg: Config, oracle: Oracle, s: State, head: nat, start: nat, n: nat, b: nat, c: Counting, was: bool)
    requires s.batchSize >= 1
    decreases BlocksLeft(start, head), s.batchSize
  {
    if start > head then was
    else
      var o := oracle(n, start, BatchEnd(start, s.batchSize, head));
      StepAdvances(cfg, s, head, start, o);
      var still := StepHolds(cfg, s, head, start, o, b, c, was);
      match Step(cfg, s, head, start, o)
      case Stop(_, _) => still
      case Continue(start', t) => RoundHolds(cfg, oracle, t, head, start', n + 1, b, c, still)
  }

  lemma {:induction false} RoundHoldsExactly(
      cfg: Config, oracle: Oracle, s: State, head: nat, start: nat, n: nat, full: nat, b: nat, c: Counting)
    requires WellFormed(cfg.chain) && s.batchSize >= 1 && Bounded(cfg, s, full)
    ensures var t := Rounds(cfg, oracle, s, head, start, n).s;
            && Bounded(cfg, t, full)
            && (BlockHeld(cfg.chain, t, b, c)
                <==> RoundHolds(cfg, oracle, s, head, start, n, b, c, BlockHeld(cfg.chain, s, b, c)))
    decreases BlocksLeft(start, head), s.batchSize
  {
    if start <= head {
      var o := oracle(n, start, BatchEnd(start, s.batchSize, head));
      StepAdvances(cfg, s, head, start, o);
      StepKeepsBounds(cfg, s, head, start, o, full);
      StepHoldsExactly(cfg, s, head, start, o, full, b, c);
      match Step(cfg, s, head, start, o)
      case Stop(_, t) =>
      case Continue(start', t) => RoundHoldsExactly(cfg, oracle, t, head, start', n + 1, full, b, c);
    }
  }

  /** A round without an error holds, of the blocks up to its head, what it held before and all blocks from its start. */
  lemma {:induction false} CaughtUpHoldsExactly(
      cfg: Config, oracle: Oracle, s: State, head: nat, start: nat, n: nat, full: nat, b: nat, c: Counting)
    requires WellFormed(cfg.chain) && s.batchSize >= 1 && Bounded(cfg, s, full) && b <= head && start <= head + 1
    requires Rounds(cfg, oracle, s, head, start, n).status == CaughtUp
    ensures BlockHeld(cfg.chain, Rounds(cfg, oracle, s, head, start, n).s, b, c)
            <==> start <= b || BlockHeld(cfg.chain, s, b, c)
    decreases BlocksLeft(start, head), s.batchSize
  {
    if start <= head {
      var o := oracle(n, start, BatchEnd(start, s.batchSize, head));
      StepAdvances(cfg, s, head, start, o);
      StepKeepsBounds(cfg, s, head, start, o, full);
      StopIsNotCaughtUp(cfg, s, head, start, o);
      var r := Step(cfg, s, head, start, o);
      GoingOnHolds(cfg, s, head, start, o, full, b, c);
      CaughtUpHoldsExactly(cfg, oracle, r.s, head, r.start, n + 1, full, b, c);
    }
  }

  /** It leaves nothing confirmed in the pool. */
  lemma {:induction false} CaughtUpIsDrained(
      cfg: Config, oracle: Oracle, s: State, head: nat, start: nat, n: nat, full: nat)
    requires WellFormed(cfg.chain) && s.batchSize >= 1 && Bounded(cfg, s, full) && s.checkpoint <= start
    requires start <= head || (start == head + 1 && Drained(cfg, s, head))
    ensures var r := Rounds(cfg, oracle, s, head, start, n);
            r.status == CaughtUp ==> Bounded(cfg, r.s, full) && Drained(cfg, r.s, head) && s.checkpoint <= r.s.checkpoint <= head + 1
    decreases BlocksLeft(start, head), s.batchSize
  {
    if start <= head {
      var o := oracle(n, start, BatchEnd(start, s.batchSize, head));
      StepAdvances(cfg, s, head, start, o);
      StepCheckpoints(cfg, s, head, start, o);
      StepKeepsBounds(cfg, s, head, start, o, full);
      StopIsNotCaughtUp(cfg, s, head, start, o);
      match Step(cfg, s, head, start, o)
      case Stop(_, _) =>
      case Continue(start', t) => CaughtUpIsDrained(cfg, oracle, t, head, start', n + 1, full);
    }
  }

  /** In a drained pool no log of a confirmed block is pending, so a block that is held was handed out. */
  lemma DrainedMeansHandedOut(cfg: Config, s: State, head: nat, full: nat, b: nat, c: Counting)
    requires WellFormed(cfg.chain) && PoolBounded(s.pending, full) && Drained(cfg, s, head) && b + cfg.confirm <= head
    ensures BlockHeld(cfg.chain, s, b, c) <==> forall l :: l in cfg.chain(b) ==> HandedOut(s.handouts, l.Key(), c)
  {
    forall l | l in cfg.chain(b) ensures !InPool(s.pending, l.Key()) {
      forall h | h in s.pending ensures !HasKey(s.pending[h], l.Key()) {
        assert !IsConfirmed(h, head, cfg.confirm);
        forall m | m in s.pending[h] ensures m.Key() != l.Key() {
          assert h <= m.block;
        }
      }
    }
  }

  /**
   While every handout counts, a round that begins with every block up to its start held keeps those below its running
   checkpoint. One that begins with nothing saved ahead of the checkpoint also keeps those below the saved one, failed
   saves that took effect included.
   */
  lemma {:induction false} RoundsAreSafe(
      cfg: Config, oracle: Oracle, s: State, head: nat, start: nat, n: nat, full: nat, from: nat)
    requires WellFormed(cfg.chain) && s.batchSize >= 1 && Bounded(cfg, s, full)
    requires from <= s.checkpoint <= start && AllHeld(cfg.chain, s, from, start, AnyHandout)
    ensures var r := Rounds(cfg, oracle, s, head, start, n);
            && from <= r.s.checkpoint
            && AllHeld(cfg.chain, r.s, from, r.s.checkpoint, AnyHandout)
            && (r.s.saved == s.saved || r.s.saved >= start)
            && (s.saved <= s.checkpoint ==>
                  AllHeld(cfg.chain, r.s, from, r.s.saved, AnyHandout) && (r.status == CaughtUp ==> r.s.saved <= r.s.checkpoint))
    decreases BlocksLeft(start, head), s.batchSize
  {
    if start <= head {
      var o := oracle(n, start, BatchEnd(start, s.batchSize, head));
      var r := Step(cfg, s, head, start, o);
      StepAdvances(cfg, s, head, start, o);
      StepCheckpoints(cfg, s, head, start, o);
      StepKeepsBounds(cfg, s, head, start, o, full);
      StopIsNotCaughtUp(cfg, s, head, start, o);
      forall b: nat
        ensures b < start && BlockHeld(cfg.chain, s, b, AnyHandout) ==> BlockHeld(cfg.chain, r.s, b, AnyHandout)
        ensures Stores(cfg, s, head, start, o) && start <= b <= r.s.saved ==> BlockHeld(cfg.chain, r.s, b, AnyHandout)
        ensures r.Continue? && from <= b < r.start ==> BlockHeld(cfg.chain, r.s, b, AnyHandout)
      {
        StepKeepsEarlier(cfg, s, head, start, o, full, b);
        if r.Continue? { GoingOnHolds(cfg, s, head, start, o, full, b, AnyHandout); }
      }
      if r.Continue? { RoundsAreSafe(cfg, oracle, r.s, head, r.start, n + 1, full, from); }
    }
  }

  /** With batches of one block a round keeps those below the saved checkpoint in any case. */
  lemma {:induction false} BatchesOfOneKeepSaved(cfg: Config, oracle: Oracle, s: State, head: nat, start: nat, n: nat, from: nat)
    requires WellFormed(cfg.chain) && s.batchSize == 1 && Bounded(cfg, s, 1)
    requires from <= s.checkpoint <= start && AllHeld(cfg.chain, s, from, start, AnyHandout)
    requires AllHeld(cfg.chain, s, from, s.saved, AnyHandout)
    ensures var t := Rounds(cfg, oracle, s, head, start, n).s; AllHeld(cfg.chain, t, from, t.saved, AnyHandout)
    decreases BlocksLeft(start, head), s.batchSize
  {
    if start <= head {
      var o := oracle(n, start, BatchEnd(start, s.batchSize, head));
      var r := Step(cfg, s, head, start, o);
      StepAdvances(cfg, s, head, start, o);
      StepCheckpoints(cfg, s, head, start, o);
      StepKeepsBounds(cfg, s, head, start, o, 1);
      forall b: nat
        ensures BlockHeld(cfg.chain, s, b, AnyHandout) ==> BlockHeld(cfg.chain, r.s, b, AnyHandout)
        ensures Stores(cfg, s, head, start, o) && start <= b <= r.s.saved ==> BlockHeld(cfg.chain, r.s, b, AnyHandout)
        ensures r.Continue? && from <= b < r.start ==> BlockHeld(cfg.chain, r.s, b, AnyHandout)
      {
        StepHoldsExactly(cfg, s, head, start, o, 1, b, AnyHandout);
        if b != start { HeightSparesOthers(cfg, s, start, 1, b, AnyHandout); }
        StepKeepsEarlier(cfg, s, head, start, o, 1, b);
        if r.Continue? { GoingOnHolds(cfg, s, head, start, o, 1, b, AnyHandout); }
      }
      if r.Continue? && r.s.batchSize == 1 { BatchesOfOneKeepSaved(cfg, oracle, r.s, head, r.start, n + 1, from); }
    }
  }
}
