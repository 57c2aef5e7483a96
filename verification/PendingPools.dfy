/**
 The two pending pools (go/logfilter/logfilter.go): the in-memory map and the Redis index with its block keys, and
 the simulation between them.
 */
module PendingPools {
  import opened LogResults

  /** Pending logs by block height. */
  type Heights = map<nat, seq<LogResult>>

  predicate IsConfirmed(h: nat, latest: nat, confirm: nat) {
    h + confirm <= latest
  }

  function Confirmed(p: Heights, latest: nat, confirm: nat): set<nat> {
    set h | h in p && IsConfirmed(h, latest, confirm)
  }

  /** All logs at the given heights. Pools hand them out in no particular order. */
  ghost function Gather(p: Heights, hs: set<nat>): multiset<LogResult>
    requires hs <= p.Keys
    decreases |hs|
  {
    if hs == {} then multiset{}
    else
      var h :| h in hs;
      multiset(p[h]) + Gather(p, hs - {h})
  }

  lemma {:induction false} GatherWithout(p: Heights, hs: set<nat>, h: nat)
    requires hs <= p.Keys && h in hs
    ensures Gather(p, hs) == multiset(p[h]) + Gather(p, hs - {h})
    decreases |hs|
  {
    var j :| j in hs && Gather(p, hs) == multiset(p[j]) + Gather(p, hs - {j});
    if j != h {
      GatherWithout(p, hs - {j}, h);
      GatherWithout(p, hs - {h}, j);
      assert hs - {j} - {h} == hs - {h} - {j};
    }
  }

  lemma GatherOneMore(p: Heights, hs: set<nat>, h: nat)
    requires hs <= p.Keys && h in p && h !in hs
    ensures Gather(p, hs + {h}) == Gather(p, hs) + multiset(p[h])
  {
    GatherWithout(p, hs + {h}, h);
    assert hs + {h} - {h} == hs;
  }

  lemma {:induction false} GatherMembers(p: Heights, hs: set<nat>, l: LogResult)
    requires hs <= p.Keys
    ensures l in Gather(p, hs) <==> exists h :: h in hs && l in p[h]
    decreases |hs|
  {
    if hs != {} {
      var j :| j in hs && Gather(p, hs) == multiset(p[j]) + Gather(p, hs - {j});
      GatherMembers(p, hs - {j}, l);
      assert l in multiset(p[j]) <==> l in p[j];
    }
  }

  // ----- What both pools mean -----

  /** The heights that hold logs. Empty heights make no difference to what a pool hands out. */
  function View(p: Heights): Heights {
    map h | h in p && p[h] != [] :: p[h]
  }

  function ViewAfterAdd(v: Heights, h: nat, logs: seq<LogResult>): Heights {
    if logs == [] then v - {h} else v[h := logs]
  }

  function ViewAfterPop(v: Heights, latest: nat, confirm: nat): Heights {
    v - Confirmed(v, latest, confirm)
  }

  ghost function Popped(v: Heights, latest: nat, confirm: nat): multiset<LogResult> {
    Gather(v, Confirmed(v, latest, confirm))
  }

  lemma AddShows(p: Heights, h: nat, logs: seq<LogResult>)
    ensures View(p[h := logs]) == ViewAfterAdd(View(p), h, logs)
  {
  }

  /** Two pools that agree wherever either holds logs hand out the same logs. */
  lemma {:induction false} GatherIgnoresEmpty(p: Heights, hs: set<nat>, q: Heights, gs: set<nat>)
    requires hs <= p.Keys && gs <= q.Keys && gs <= hs
    requires forall h :: h in gs ==> p[h] == q[h]
    requires forall h :: h in hs && h !in gs ==> p[h] == []
    ensures Gather(p, hs) == Gather(q, gs)
    decreases |hs|
  {
    if hs != {} {
      var h :| h in hs;
      GatherWithout(p, hs, h);
      if h in gs {
        GatherWithout(q, gs, h);
        GatherIgnoresEmpty(p, hs - {h}, q, gs - {h});
      } else {
        GatherIgnoresEmpty(p, hs - {h}, q, gs);
      }
    }
  }

  lemma RestShows(p: Heights, latest: nat, confirm: nat)
    ensures View(p - Confirmed(p, latest, confirm)) == ViewAfterPop(View(p), latest, confirm)
  {
  }

  lemma PopShows(p: Heights, latest: nat, confirm: nat)
    ensures Gather(p, Confirmed(p, latest, confirm)) == Popped(View(p), latest, confirm)
    ensures View(p - Confirmed(p, latest, confirm)) == ViewAfterPop(View(p), latest, confirm)
  {
    RestShows(p, latest, confirm);
    GatherIgnoresEmpty(p, Confirmed(p, latest, confirm), View(p), Confirmed(View(p), latest, confirm));
  }

  /** When nothing is handed out, no height with logs was confirmed. */
  lemma NothingPopped(v: Heights, latest: nat, confirm: nat)
    requires (forall h :: h in v ==> v[h] != []) && Popped(v, latest, confirm) == multiset{}
    ensures Confirmed(v, latest, confirm) == {} && ViewAfterPop(v, latest, confirm) == v
  {
    var hs := Confirmed(v, latest, confirm);
    if h :| h in hs {
      GatherMembers(v, hs, v[h][0]);
      assert false;
    }
  }

  // ----- In memory -----

  class BlockPendingPool {
    var data: Heights

    constructor ()
      ensures data == map[]
    {
      data := map[];
    }

    method Add(blockHeight: nat, logs: seq<LogResult>)
      modifies this
      ensures data == old(data)[blockHeight := logs]
      ensures View(data) == ViewAfterAdd(View(old(data)), blockHeight, logs)
    {
      AddShows(data, blockHeight, logs);
      data := data[blockHeight := logs];
    }

    method PopConfirmed(latest: nat, confirm: nat) returns (out: seq<LogResult>)
      modifies this
      ensures data == old(data) - Confirmed(old(data), latest, confirm)
      ensures multiset(out) == Gather(old(data), Confirmed(old(data), latest, confirm))
      ensures View(data) == ViewAfterPop(View(old(data)), latest, confirm)
      ensures multiset(out) == Popped(View(old(data)), latest, confirm)
    {
      PopShows(data, latest, confirm);
      ghost var was := data;
      ghost var taken: set<nat> := {};
      var rest := data.Keys;
      out := [];
      while rest != {}
        invariant rest <= was.Keys && taken <= was.Keys
        invariant forall h :: h in taken <==> h in was && h !in rest && IsConfirmed(h, latest, confirm)
        invariant data == was - taken
        invariant multiset(out) == Gather(was, taken)
        decreases rest
      {
        var h :| h in rest;
        rest := rest - {h};
        if IsConfirmed(h, latest, confirm) {
          GatherOneMore(was, taken, h);
          out := out + data[h];
          data := data - {h};
          taken := taken + {h};
        }
      }
      assert taken == Confirmed(was, latest, confirm);
    }

    method Count() returns (n: nat)
      ensures n == |data|
    {
      n := |data|;
    }
  }

  // ----- Redis -----

  /** How the server answers: as asked, or with an error, in which case the queued commands may or may not have run. */
  datatype Answer = Served | Failing(applied: bool)

  datatype Pop = Pop(logs: seq<LogResult>, err: bool)

  class RedisPendingPool {
    var index: set<nat>
    var blocks: Heights

    /** Every block is indexed. */
    ghost predicate Valid()
      reads this
    {
      blocks.Keys <= index
    }

    /** Index and block keys agree; they change together in one transaction. */
    ghost predicate Agrees()
      reads this
    {
      blocks.Keys == index
    }

    constructor ()
      ensures Valid() && Agrees() && blocks == map[]
    {
      index, blocks := {}, map[];
    }

    /** SET and SADD in one transaction. */
    method Add(blockHeight: nat, logs: seq<LogResult>, answer: Answer) returns (err: bool)
      requires Valid()
      modifies this
      ensures Valid() && (old(Agrees()) ==> Agrees()) && err == answer.Failing?
      ensures blocks == if answer == Failing(false) then old(blocks) else old(blocks)[blockHeight := logs]
      ensures View(blocks) == if answer == Failing(false) then View(old(blocks))
                              else ViewAfterAdd(View(old(blocks)), blockHeight, logs)
    {
      AddShows(blocks, blockHeight, logs);
      err := answer.Failing?;
      if answer != Failing(false) {
        blocks := blocks[blockHeight := logs];
        index := index + {blockHeight};
      }
    }

    /**
     Reads the confirmed heights and queues their deletion; the queue is executed only when there is something to
     hand out, so confirmed heights without logs stay.
     */
    method PopConfirmed(latest: nat, confirm: nat, answer: Answer) returns (pop: Pop)
      requires Valid()
      modifies this
      ensures Valid() && (old(Agrees()) ==> Agrees()) && pop.err == answer.Failing?
      ensures !pop.err ==> multiset(pop.logs) == Gather(old(blocks), Confirmed(old(blocks), latest, confirm))
      ensures !pop.err ==> blocks == if pop.logs == [] then old(blocks)
                                     else old(blocks) - Confirmed(old(blocks), latest, confirm)
      ensures answer == Failing(false) ==> blocks == old(blocks)
      ensures answer == Failing(true) ==> View(blocks) == ViewAfterPop(View(old(blocks)), latest, confirm)
      ensures !pop.err ==> View(blocks) == ViewAfterPop(View(old(blocks)), latest, confirm)
      ensures !pop.err ==> multiset(pop.logs) == Popped(View(old(blocks)), latest, confirm)
      ensures pop.err ==> pop.logs == []
    {
      PopShows(blocks, latest, confirm);
      var heights := index;
      var out: seq<LogResult> := [];
      var toDel: set<nat> := {};
      var toRem: set<nat> := {};
      while heights != {}
        invariant blocks == old(blocks) && index == old(index)
        invariant heights <= index && toDel <= blocks.Keys
        invariant forall h :: h in toDel <==> h in blocks && h !in heights && IsConfirmed(h, latest, confirm)
        invariant forall h :: h in toRem <==> h in index && h !in heights && IsConfirmed(h, latest, confirm)
        invariant multiset(out) == Gather(blocks, toDel)
        decreases heights
      {
        var h :| h in heights;
        heights := heights - {h};
        if IsConfirmed(h, latest, confirm) {
          if h !in blocks {
            toRem := toRem + {h};
          } else {
            GatherOneMore(blocks, toDel, h);
            out := out + blocks[h];
            toDel := toDel + {h};
            toRem := toRem + {h};
          }
        }
      }
      assert toDel == Confirmed(blocks, latest, confirm);
      if out == [] {
        NothingPopped(View(blocks), latest, confirm);
      }
      if out != [] && answer != Failing(false) {
        blocks := blocks - toDel;
        index := index - toRem;
      }
      pop := if answer.Failing? then Pop([], true) else Pop(out, false);
    }

    method Count() returns (n: nat)
      ensures n == |index|
    {
      n := |index|;
    }
  }

  // ----- Simulation -----

  datatype Operation = AddLogs(h: nat, logs: seq<LogResult>) | PopLogs(latest: nat, confirm: nat)

  function MemoryAfter(p: Heights, op: Operation): Heights {
    match op
    case AddLogs(h, logs) => p[h := logs]
    case PopLogs(latest, confirm) => p - Confirmed(p, latest, confirm)
  }

  ghost function RedisAfter(p: Heights, op: Operation): Heights {
    match op
    case AddLogs(h, logs) => p[h := logs]
    case PopLogs(latest, confirm) =>
      if Gather(p, Confirmed(p, latest, confirm)) == multiset{} then p else p - Confirmed(p, latest, confirm)
  }

  ghost function Output(p: Heights, op: Operation): multiset<LogResult> {
    match op
    case AddLogs(_, _) => multiset{}
    case PopLogs(latest, confirm) => Gather(p, Confirmed(p, latest, confirm))
  }

  function MemoryRun(p: Heights, ops: seq<Operation>): Heights {
    if ops == [] then p else MemoryAfter(MemoryRun(p, ops[..|ops| - 1]), ops[|ops| - 1])
  }

  ghost function RedisRun(p: Heights, ops: seq<Operation>): Heights {
    if ops == [] then p else RedisAfter(RedisRun(p, ops[..|ops| - 1]), ops[|ops| - 1])
  }

  ghost function MemoryOutputs(p: Heights, ops: seq<Operation>): seq<multiset<LogResult>> {
    if ops == [] then []
    else
      var before := ops[..|ops| - 1];
      MemoryOutputs(p, before) + [Output(MemoryRun(p, before), ops[|ops| - 1])]
  }

  ghost function RedisOutputs(p: Heights, ops: seq<Operation>): seq<multiset<LogResult>> {
    if ops == [] then []
    else
      var before := ops[..|ops| - 1];
      RedisOutputs(p, before) + [Output(RedisRun(p, before), ops[|ops| - 1])]
  }

  /** Redis holds what memory holds, and otherwise only heights without logs. */
  ghost predicate Simulates(redis: Heights, memory: Heights) {
    && memory.Keys <= redis.Keys
    && (forall h :: h in memory ==> redis[h] == memory[h])
    && (forall h :: h in redis && h !in memory ==> redis[h] == [])
  }

  lemma OperationSimulates(redis: Heights, memory: Heights, op: Operation)
    requires Simulates(redis, memory)
    ensures Output(redis, op) == Output(memory, op)
    ensures Simulates(RedisAfter(redis, op), MemoryAfter(memory, op))
  {
    if op.PopLogs? {
      var hs, gs := Confirmed(redis, op.latest, op.confirm), Confirmed(memory, op.latest, op.confirm);
      GatherIgnoresEmpty(redis, hs, memory, gs);
      if Gather(redis, hs) == multiset{} {
        forall h | h in gs ensures memory[h] == [] {
          if memory[h] != [] {
            GatherMembers(memory, gs, memory[h][0]);
            assert false;
          }
        }
      }
    }
  }

  lemma SimulationShows(redis: Heights, memory: Heights)
    requires Simulates(redis, memory)
    ensures View(redis) == View(memory) && |memory| <= |redis|
  {
    KeysCount(memory, redis);
  }

  /**
   Over every sequence of operations the Redis pool hands out the same logs as the in-memory pool, agrees with it on
   all heights that hold logs, and differs only in confirmed heights without logs that it has kept.
   */
  lemma {:induction false} RedisSimulatesMemory(redis: Heights, memory: Heights, ops: seq<Operation>)
    requires Simulates(redis, memory)
    ensures RedisOutputs(redis, ops) == MemoryOutputs(memory, ops)
    ensures Simulates(RedisRun(redis, ops), MemoryRun(memory, ops))
    ensures View(RedisRun(redis, ops)) == View(MemoryRun(memory, ops))
  {
    if ops != [] {
      var before := ops[..|ops| - 1];
      RedisSimulatesMemory(redis, memory, before);
      OperationSimulates(RedisRun(redis, before), MemoryRun(memory, before), ops[|ops| - 1]);
    }
    SimulationShows(RedisRun(redis, ops), MemoryRun(memory, ops));
  }

  lemma KeysCount(small: Heights, large: Heights)
    requires small.Keys <= large.Keys
    ensures |small| <= |large|
  {
    assert large.Keys == small.Keys + (large.Keys - small.Keys);
  }

  /** The counts do differ: after an empty batch is added and confirmed, Redis still counts it. */
  lemma CountsDiffer()
    ensures var ops := [AddLogs(5, []), PopLogs(9, 1)];
            |MemoryRun(map[], ops)| == 0 && |RedisRun(map[], ops)| == 1
  {
    var ops := [AddLogs(5, []), PopLogs(9, 1)];
    assert ops[..1] == [AddLogs(5, [])] && ops[..1][..0] == [];
    var p: Heights := map[5 := []];
    assert MemoryRun(map[], ops[..1]) == p && RedisRun(map[], ops[..1]) == p;
    assert Confirmed(p, 9, 1) == {5};
    GatherWithout(p, {5}, 5);
    assert Gather(p, {5}) == multiset{};
    assert MemoryRun(map[], ops) == map[];
  }
}
