/** Log records and the deduplication of one fetched batch (go/logfilter/logfilter.go). */
module LogResults {

  datatype LogResult = LogResult(block: nat, tx: string, address: string, topics: seq<string>, data: string) {
    /** What identifies a log across retries; the program uses a digest of this pair. */
    function Key(): LogKey { (block, tx) }
  }

  type LogKey = (nat, string)

  predicate HasKey(logs: seq<LogResult>, k: LogKey) {
    exists l :: l in logs && l.Key() == k
  }

  /** Every log whose key no earlier log has. */
  function Dedup(logs: seq<LogResult>): seq<LogResult> {
    if logs == [] then []
    else
      var before, last := logs[..|logs| - 1], logs[|logs| - 1];
      if HasKey(before, last.Key()) then Dedup(before) else Dedup(before) + [last]
  }

  lemma OneMoreLog(before: seq<LogResult>, l: LogResult)
    ensures Dedup(before + [l]) == if HasKey(before, l.Key()) then Dedup(before) else Dedup(before) + [l]
    ensures forall k :: HasKey(before + [l], k) <==> HasKey(before, k) || k == l.Key()
  {
    assert (before + [l])[..|before|] == before;
    forall k ensures HasKey(before + [l], k) <==> HasKey(before, k) || k == l.Key() {
      assert l in before + [l];
      if m :| m in before && m.Key() == k { assert m in before + [l]; }
    }
  }

  method DedupBatch(logs: seq<LogResult>) returns (batch: seq<LogResult>)
    ensures batch == Dedup(logs)
  {
    var seen: set<LogKey> := {};
    batch := [];
    for n := 0 to |logs|
      invariant forall k :: k in seen <==> HasKey(logs[..n], k)
      invariant batch == Dedup(logs[..n])
    {
      var l := logs[n];
      assert logs[..n + 1] == logs[..n] + [l];
      OneMoreLog(logs[..n], l);
      if l.Key() !in seen {
        seen := seen + {l.Key()};
        batch := batch + [l];
      }
    }
    assert logs[..|logs|] == logs;
  }

  ghost predicate KeysDiffer(logs: seq<LogResult>) {
    forall i, j :: 0 <= i < j < |logs| ==> logs[i].Key() != logs[j].Key()
  }

  /** Nothing is invented, no key is lost and no key is left twice. */
  lemma {:induction false} DedupKeepsKeys(logs: seq<LogResult>)
    ensures forall l :: l in Dedup(logs) ==> l in logs
    ensures forall k :: HasKey(Dedup(logs), k) <==> HasKey(logs, k)
    ensures KeysDiffer(Dedup(logs))
  {
    if logs != [] {
      var before, last := logs[..|logs| - 1], logs[|logs| - 1];
      assert logs == before + [last];
      DedupKeepsKeys(before);
      forall k ensures HasKey(Dedup(logs), k) <==> HasKey(logs, k) {
        assert HasKey(logs, k) <==> HasKey(before, k) || last.Key() == k;
        if !HasKey(before, last.Key()) {
          assert Dedup(logs) == Dedup(before) + [last];
          assert last in Dedup(logs);
          assert HasKey(Dedup(logs), k) <==> HasKey(Dedup(before), k) || last.Key() == k;
        }
      }
      if !HasKey(before, last.Key()) {
        assert !HasKey(Dedup(before), last.Key());
        assert forall i :: 0 <= i < |Dedup(before)| ==> Dedup(before)[i] in Dedup(before);
      }
    }
  }

  /** Two logs of one transaction in one block. */
  predicate SameTransaction(l: LogResult, m: LogResult) {
    l.block == m.block && l.tx == m.tx
  }

  /** In the fields of the logs: every transaction of the batch keeps a log, and none keeps two. */
  lemma DedupKeepsTransactions(logs: seq<LogResult>)
    ensures forall l :: l in logs ==> exists m :: m in Dedup(logs) && SameTransaction(l, m)
    ensures forall i, j :: 0 <= i < j < |Dedup(logs)| ==> !SameTransaction(Dedup(logs)[i], Dedup(logs)[j])
  {
    DedupKeepsKeys(logs);
    forall l | l in logs ensures exists m :: m in Dedup(logs) && SameTransaction(l, m) {
      assert HasKey(logs, l.Key());
      var m :| m in Dedup(logs) && m.Key() == l.Key();
      assert SameTransaction(l, m);
    }
    forall i, j | 0 <= i < j < |Dedup(logs)| ensures !SameTransaction(Dedup(logs)[i], Dedup(logs)[j]) {
      assert Dedup(logs)[i].Key() != Dedup(logs)[j].Key();
    }
  }

  /** What it keeps is the first log of the transaction. */
  lemma {:induction false} FirstIsKept(logs: seq<LogResult>, i: nat)
    requires i < |logs| && forall j :: 0 <= j < i ==> !SameTransaction(logs[j], logs[i])
    ensures logs[i] in Dedup(logs)
  {
    var before, last := logs[..|logs| - 1], logs[|logs| - 1];
    if i < |before| {
      FirstIsKept(before, i);
    } else {
      assert forall l :: l in before ==> !SameTransaction(l, last);
      assert !HasKey(before, last.Key());
    }
  }

  /** A batch keeps all its logs if and only if no two different logs, such as two events of one transaction, share a key. */
  lemma DedupKeepsEveryLogExactly(logs: seq<LogResult>)
    ensures (forall l :: l in logs ==> l in Dedup(logs))
            <==> (forall l, m :: l in logs && m in logs && l.Key() == m.Key() ==> l == m)
  {
    DedupKeepsKeys(logs);
    var out := Dedup(logs);
    if forall l :: l in logs ==> l in out {
      forall l, m | l in logs && m in logs && l.Key() == m.Key() ensures l == m {
        var i :| 0 <= i < |out| && out[i] == l;
        var j :| 0 <= j < |out| && out[j] == m;
      }
    }
    if forall l, m :: l in logs && m in logs && l.Key() == m.Key() ==> l == m {
      forall l | l in logs ensures l in out {
        assert HasKey(logs, l.Key());
        assert HasKey(out, l.Key());
        var m :| m in out && m.Key() == l.Key();
      }
    }
  }

  /** Two events of one transaction: the second is dropped. */
  lemma SecondEventIsDropped()
    ensures var first, second := LogResult(1, "tx", "token", [], "a"), LogResult(1, "tx", "token", [], "b");
            Dedup([first, second]) == [first]
  {
    var first, second := LogResult(1, "tx", "token", [], "a"), LogResult(1, "tx", "token", [], "b");
    OneMoreLog([], first);
    OneMoreLog([first], second);
    assert [] + [first] == [first] && [first] + [second] == [first, second];
    assert first in [first] && first.Key() == second.Key();
  }
}
