/**
 The direct-invocation log of the host (apps/epicenter/src/host.ts, `runInvocation`): a list
 that grows on push, whose settled records are trimmed to a cap, oldest first.
 */
module InvocationLog {
  import opened Prelude

  datatype Status = Running | Succeeded | Failed

  datatype Invocation = Invocation(id: nat, tool: string, status: Status, content: Option<string>)

  const INVOCATION_LIMIT := 20

  /** `findIndex` of a record that is not running; |log| when there is none. */
  function FindSettled(log: seq<Invocation>): (i: nat)
    ensures i <= |log|
    ensures i < |log| ==> !log[i].status.Running?
    ensures forall j :: 0 <= j < i ==> log[j].status.Running?
  {
    if log == [] then 0
    else if !log[0].status.Running? then 0
    else 1 + FindSettled(log[1..])
  }

  function Remove(log: seq<Invocation>, i: nat): seq<Invocation>
    requires i < |log|
  {
    log[..i] + log[i + 1..]
  }

  /** The eviction loop: splice the first settled record while the log is over the cap. */
  function Evict(log: seq<Invocation>): seq<Invocation>
    decreases |log|
  {
    if |log| <= INVOCATION_LIMIT then log
    else
      var i := FindSettled(log);
      if i == |log| then log else Evict(Remove(log, i))
  }

  function Push(log: seq<Invocation>, record: Invocation): seq<Invocation> {
    Evict(log + [record])
  }

  function Outcome(record: Invocation, content: string, isError: bool): Invocation {
    record.(status := if isError then Failed else Succeeded, content := Some(content))
  }

  /** The in-place status update when the call's promise settles. */
  function Settle(log: seq<Invocation>, id: nat, content: string, isError: bool): seq<Invocation> {
    if log == [] then []
    else if log[0].id == id then
      [Outcome(log[0], content, isError)] + log[1..]
    else [log[0]] + Settle(log[1..], id, content, isError)
  }

  // ---------------------------------------------------------------- what eviction means

  function SettledCount(log: seq<Invocation>): (n: nat)
    ensures n <= |log|
  {
    if log == [] then 0 else (if log[0].status.Running? then 0 else 1) + SettledCount(log[1..])
  }

  /** The log without its k oldest settled records. */
  function DropSettled(log: seq<Invocation>, k: nat): seq<Invocation> {
    if log == [] || k == 0 then log
    else if log[0].status.Running? then [log[0]] + DropSettled(log[1..], k)
    else DropSettled(log[1..], k - 1)
  }

  /** How many records the cap asks to give up, and settled history can. */
  function Excess(log: seq<Invocation>): nat {
    if |log| <= INVOCATION_LIMIT then 0
    else if SettledCount(log) < |log| - INVOCATION_LIMIT then SettledCount(log)
    else |log| - INVOCATION_LIMIT
  }

  lemma {:induction false} DropFirstSettled(log: seq<Invocation>, k: nat)
    requires FindSettled(log) < |log|
    ensures DropSettled(Remove(log, FindSettled(log)), k) == DropSettled(log, k + 1)
    ensures SettledCount(Remove(log, FindSettled(log))) == SettledCount(log) - 1
  {
    var i := FindSettled(log);
    if i == 0 {
      assert Remove(log, 0) == log[1..];
    } else {
      var rest := Remove(log[1..], i - 1);
      assert Remove(log, i) == [log[0]] + rest;
      DropFirstSettled(log[1..], k);
      if k == 0 {
        assert DropSettled(rest, 0) == rest;
      }
    }
  }

  lemma {:induction false} NoneSettled(log: seq<Invocation>)
    ensures SettledCount(log) == 0 <==> forall j :: 0 <= j < |log| ==> log[j].status.Running?
  {
    if log != [] {
      NoneSettled(log[1..]);
      assert forall j :: 0 <= j < |log[1..]| ==> log[1..][j] == log[j + 1];
      if log[0].status.Running? && SettledCount(log) != 0 {
        var j :| 0 <= j < |log[1..]| && !log[1..][j].status.Running?;
        assert !log[j + 1].status.Running?;
      }
    }
  }

  /** Eviction takes exactly the oldest settled records, as many as the cap asks and no running one. */
  lemma {:induction false} EvictIsDropSettled(log: seq<Invocation>)
    ensures Evict(log) == DropSettled(log, Excess(log))
    decreases |log|
  {
    if |log| > INVOCATION_LIMIT {
      NoneSettled(log);
      var i := FindSettled(log);
      if i < |log| {
        var less := Remove(log, i);
        DropFirstSettled(log, Excess(less));
        assert SettledCount(log) > 0;
        EvictIsDropSettled(less);
        assert Excess(log) == Excess(less) + 1;
      }
    }
  }

  lemma {:induction false} DropSettledCounts(log: seq<Invocation>, k: nat)
    requires k <= SettledCount(log)
    ensures |DropSettled(log, k)| == |log| - k
    ensures SettledCount(DropSettled(log, k)) == SettledCount(log) - k
  {
    if log != [] && k > 0 {
      if log[0].status.Running? {
        DropSettledCounts(log[1..], k);
        var tail := DropSettled(log[1..], k);
        assert ([log[0]] + tail)[1..] == tail;
      } else {
        DropSettledCounts(log[1..], k - 1);
      }
    }
  }

  /** After a push the log has at most twenty records, or holds running records only; and nothing is given up
      below twenty. */
  lemma PushBound(log: seq<Invocation>, record: Invocation)
    ensures
      var after := Push(log, record);
      && (|after| <= 20 || forall j :: 0 <= j < |after| ==> after[j].status.Running?)
      && (|after| >= 20 || after == log + [record])
  {
    var grown := log + [record];
    EvictIsDropSettled(grown);
    DropSettledCounts(grown, Excess(grown));
    NoneSettled(Push(log, record));
  }

  // ---------------------------------------------------------------- lookups

  ghost predicate IncreasingIds(log: seq<Invocation>) {
    forall i, j :: 0 <= i < j < |log| ==> log[i].id < log[j].id
  }

  lemma IncreasingCons(head: Invocation, tail: seq<Invocation>)
    ensures IncreasingIds([head] + tail) <==> IncreasingIds(tail) && forall r :: r in tail ==> head.id < r.id
  {
    var log := [head] + tail;
    assert forall i :: 0 <= i < |tail| ==> log[i + 1] == tail[i];
    if IncreasingIds(log) {
      forall i, j | 0 <= i < j < |tail| ensures tail[i].id < tail[j].id {
        assert log[i + 1].id < log[j + 1].id;
      }
      forall r | r in tail ensures head.id < r.id {
        var i :| 0 <= i < |tail| && tail[i] == r;
        assert log[0].id < log[i + 1].id;
      }
    }
  }

  /** Eviction neither adds nor edits a record and keeps every running one. */
  lemma {:induction false} DropSettledHolds(log: seq<Invocation>, k: nat)
    ensures forall r :: r in DropSettled(log, k) ==> r in log
    ensures forall r :: r in log && r.status.Running? ==> r in DropSettled(log, k)
  {
    if log != [] && k > 0 {
      assert log == [log[0]] + log[1..];
      DropSettledHolds(log[1..], if log[0].status.Running? then k else k - 1);
    }
  }

  /** And it keeps push order. */
  lemma {:induction false} DropSettledKeeps(log: seq<Invocation>, k: nat)
    requires IncreasingIds(log)
    ensures IncreasingIds(DropSettled(log, k))
  {
    if log != [] && k > 0 {
      assert log == [log[0]] + log[1..];
      IncreasingCons(log[0], log[1..]);
      if log[0].status.Running? {
        DropSettledKeeps(log[1..], k);
        DropSettledHolds(log[1..], k);
        IncreasingCons(log[0], DropSettled(log[1..], k));
      } else {
        DropSettledKeeps(log[1..], k - 1);
      }
    }
  }

  lemma PushKeeps(log: seq<Invocation>, record: Invocation)
    requires IncreasingIds(log) && record.status.Running?
    requires forall r :: r in log ==> r.id < record.id
    ensures IncreasingIds(Push(log, record))
    ensures forall r :: r in Push(log, record) ==> r in log || r == record
    ensures forall r :: r in log && r.status.Running? ==> r in Push(log, record)
    ensures record in Push(log, record)
  {
    var grown := log + [record];
    assert grown[|log|] == record;
    assert forall r :: r in grown <==> r in log || r == record;
    EvictIsDropSettled(grown);
    DropSettledKeeps(grown, Excess(grown));
    DropSettledHolds(grown, Excess(grown));
  }

  /** Settling rewrites the status and content of the one record with this id, in place. */
  lemma {:induction false} SettleAt(log: seq<Invocation>, id: nat, content: string, isError: bool, i: nat)
    requires IncreasingIds(log) && i < |log|
    ensures |Settle(log, id, content, isError)| == |log|
    ensures Settle(log, id, content, isError)[i] ==
            if log[i].id == id then Outcome(log[i], content, isError) else log[i]
  {
    assert log == [log[0]] + log[1..];
    IncreasingCons(log[0], log[1..]);
    if log[0].id == id {
      assert i > 0 ==> log[0].id < log[i].id;
    } else if i > 0 {
      SettleAt(log[1..], id, content, isError, i - 1);
    } else if log[1..] != [] {
      SettleAt(log[1..], id, content, isError, 0);
    }
  }

  /** Records before the one with the id are passed over. */
  lemma {:induction false} SettleSkips(prefix: seq<Invocation>, rest: seq<Invocation>, id: nat, content: string,
                                       isError: bool)
    requires forall j :: 0 <= j < |prefix| ==> prefix[j].id != id
    ensures Settle(prefix + rest, id, content, isError) == prefix + Settle(rest, id, content, isError)
  {
    if prefix == [] {
      assert prefix + rest == rest;
    } else {
      assert prefix[0].id != id;
      assert (prefix + rest)[1..] == prefix[1..] + rest;
      SettleSkips(prefix[1..], rest, id, content, isError);
    }
  }

  lemma SettleIsUpdate(log: seq<Invocation>, id: nat, content: string, isError: bool, i: nat)
    requires i <= |log| && forall j :: 0 <= j < i ==> log[j].id != id
    requires i < |log| ==> log[i].id == id
    ensures Settle(log, id, content, isError) == if i < |log| then log[i := Outcome(log[i], content, isError)] else log
  {
    SettleSkips(log[..i], log[i..], id, content, isError);
    assert log == log[..i] + log[i..];
    if i < |log| {
      var settled := Outcome(log[i], content, isError);
      assert log[i := settled] == log[..i] + ([settled] + log[i..][1..]);
    }
  }

  lemma SettleKeepsIds(log: seq<Invocation>, id: nat, content: string, isError: bool)
    requires IncreasingIds(log)
    ensures IncreasingIds(Settle(log, id, content, isError))
    ensures |Settle(log, id, content, isError)| == |log|
    ensures forall i :: 0 <= i < |log| ==> Settle(log, id, content, isError)[i].id == log[i].id
  {
    var after := Settle(log, id, content, isError);
    if log != [] {
      SettleAt(log, id, content, isError, 0);
    }
    forall i | 0 <= i < |log| ensures after[i].id == log[i].id {
      SettleAt(log, id, content, isError, i);
    }
  }
}
