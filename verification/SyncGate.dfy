/**
 The sync gate of the local-books app (apps/local-books/src/app.ts, `createSyncGate`), modelled over
 promise jobs (section 27.2 of ECMA-262): a call chains its function on the tail whichever way the tail
 settles, and the new tail swallows that call's rejection. Calling the gate the i-th time creates the
 promise its caller holds (`result`) and the tail the next call chains on. Once the previous tail is
 settled a `StartJob` calls the function, whose own promise is adopted by `result` through a
 `LinkJob` (the resolve-thenable job) and, when both have happened, an `AdoptJob`; the `CatchJob`
 then fulfils the tail whichever way `result` went.
 */
module SyncGate {
  import opened Prelude

  datatype Verdict = Fulfilled(value: int) | Rejected(error: string)

  /** The function's own promise; `linked` once the adopting reactions are registered on it. */
  datatype Pass = Unstarted | InProgress(linked: bool) | Done(verdict: Verdict, linked: bool)

  datatype Call = Call(pass: Pass, result: Option<Verdict>, tailFulfilled: bool)

  datatype Job = StartJob(i: nat) | LinkJob(i: nat) | AdoptJob(i: nat) | CatchJob(i: nat)

  datatype State = State(calls: seq<Call>, jobs: seq<Job>, started: seq<nat>)

  const IDLE := State([], [], [])

  const NEW_CALL := Call(Unstarted, None, false)

  datatype Event =
    | Enqueue                              // the gate is called
    | Tick(throws: Option<string>)         // one job runs; a started function may throw at once
    | Complete(i: nat, verdict: Verdict)   // a started function's promise settles

  function SetCall(s: State, i: nat, call: Call): State {
    if i < |s.calls| then s.(calls := s.calls[i := call]) else s
  }

  function Chain(s: State): State {
    var i := |s.calls|;
    s.(calls := s.calls + [NEW_CALL],
       jobs := if i == 0 || s.calls[i - 1].tailFulfilled then s.jobs + [StartJob(i)] else s.jobs)
  }

  function RunJob(s: State, job: Job, throws: Option<string>): State {
    var i := job.i;
    if i >= |s.calls| then s
    else
      var call := s.calls[i];
      match job
      case StartJob(_) =>
        var begun := s.(started := s.started + [i]);
        if throws.Some? then
          var verdict := Rejected(throws.value);
          SetCall(begun, i, call.(pass := Done(verdict, true), result := Some(verdict)))
          .(jobs := s.jobs + [CatchJob(i)])
        else SetCall(begun, i, call.(pass := InProgress(false))).(jobs := s.jobs + [LinkJob(i)])
      case LinkJob(_) =>
        if call.pass.Done? then
          SetCall(s, i, call.(pass := call.pass.(linked := true))).(jobs := s.jobs + [AdoptJob(i)])
        else if call.pass.InProgress? then SetCall(s, i, call.(pass := InProgress(true)))
        else s
      case AdoptJob(_) =>
        if call.pass.Done? then SetCall(s, i, call.(result := Some(call.pass.verdict))).(jobs := s.jobs + [CatchJob(i)])
        else s
      case CatchJob(_) =>
        SetCall(s, i, call.(tailFulfilled := true))
        .(jobs := if i + 1 < |s.calls| then s.jobs + [StartJob(i + 1)] else s.jobs)
  }

  function Step(s: State, e: Event): State {
    match e
    case Enqueue => Chain(s)
    case Tick(throws) => if s.jobs == [] then s else RunJob(s.(jobs := s.jobs[1..]), s.jobs[0], throws)
    case Complete(i, verdict) =>
      if i < |s.calls| && s.calls[i].pass.InProgress? then
        var linked := s.calls[i].pass.linked;
        SetCall(s, i, s.calls[i].(pass := Done(verdict, linked)))
        .(jobs := if linked then s.jobs + [AdoptJob(i)] else s.jobs)
      else s
  }

  function Run(s: State, events: seq<Event>): State {
    if events == [] then s else Step(Run(s, events[..|events| - 1]), events[|events| - 1])
  }

  // ---------------------------------------------------------------- the one token

  /** Settled through: its caller was told its own verdict and its tail is fulfilled. */
  predicate Through(call: Call) {
    call.pass.Done? && call.pass.linked && call.result == Some(call.pass.verdict) && call.tailFulfilled
  }

  /** The only call that is neither through nor untouched, and the one job that moves it on. */
  predicate Moving(call: Call, jobs: seq<Job>, i: nat) {
    !call.tailFulfilled &&
    match call.pass
    case Unstarted => call == NEW_CALL && jobs == [StartJob(i)]
    case InProgress(linked) => call.result == None && jobs == if linked then [] else [LinkJob(i)]
    case Done(verdict, linked) =>
      if !linked then call.result == None && jobs == [LinkJob(i)]
      else if call.result.None? then jobs == [AdoptJob(i)]
      else call.result == Some(verdict) && jobs == [CatchJob(i)]
  }

  ghost predicate Numbered(xs: seq<nat>) {
    forall i :: 0 <= i < |xs| ==> xs[i] == i
  }

  ghost predicate TokenAt(s: State, k: nat) {
    && k <= |s.calls|
    && (forall i :: 0 <= i < k ==> Through(s.calls[i]))
    && (forall i :: k < i < |s.calls| ==> s.calls[i] == NEW_CALL)
    && Numbered(s.started)
    && if k == |s.calls| then s.jobs == [] && |s.started| == k
       else Moving(s.calls[k], s.jobs, k) && |s.started| == if s.calls[k].pass.Unstarted? then k else k + 1
  }

  ghost predicate GateInv(s: State) {
    exists k :: TokenAt(s, k)
  }

  /** Where the token is after a step. */
  function NextToken(s: State, k: nat): nat {
    if k < |s.calls| && s.jobs == [CatchJob(k)] then k + 1 else k
  }

  lemma TickMovesToken(s: State, throws: Option<string>, k: nat)
    requires TokenAt(s, k)
    ensures TokenAt(Step(s, Tick(throws)), NextToken(s, k))
  {
  }

  lemma CompletionKeepsToken(s: State, i: nat, verdict: Verdict, k: nat)
    requires TokenAt(s, k)
    ensures TokenAt(Step(s, Complete(i, verdict)), k)
  {
  }

  lemma ChainKeepsToken(s: State, k: nat)
    requires TokenAt(s, k)
    ensures TokenAt(Chain(s), k)
  {
  }

  lemma StepMovesToken(s: State, e: Event, k: nat)
    requires TokenAt(s, k)
    ensures TokenAt(Step(s, e), if e.Tick? then NextToken(s, k) else k)
  {
    match e
    case Enqueue => ChainKeepsToken(s, k);
    case Tick(throws) => TickMovesToken(s, throws, k);
    case Complete(i, verdict) => CompletionKeepsToken(s, i, verdict, k);
  }

  lemma {:induction false} RunKeepsToken(events: seq<Event>)
    ensures GateInv(Run(IDLE, events))
  {
    if events == [] {
      assert TokenAt(IDLE, 0);
    } else {
      var before := Run(IDLE, events[..|events| - 1]);
      RunKeepsToken(events[..|events| - 1]);
      var k :| TokenAt(before, k);
      var e := events[|events| - 1];
      StepMovesToken(before, e, k);
      assert TokenAt(Step(before, e), if e.Tick? then NextToken(before, k) else k);
    }
  }

  /** Over every interleaving of calls, jobs and completions: at most one gated function is in progress,
      functions start in call order, and a caller is told exactly its own function's verdict. */
  lemma OneAtATimeInOrder(events: seq<Event>)
    ensures
      var s := Run(IDLE, events);
      && (forall i, j :: 0 <= i < j < |s.calls| ==> !s.calls[i].pass.InProgress? || !s.calls[j].pass.InProgress?)
      && Numbered(s.started)
      && (forall i :: 0 <= i < |s.calls| ==> (s.calls[i].pass.Unstarted? <==> i !in s.started))
      && (forall i :: 0 <= i < |s.calls| && s.calls[i].result.Some? ==>
            s.calls[i].pass.Done? && s.calls[i].result.value == s.calls[i].pass.verdict)
      && (forall i, j :: 0 <= i < j < |s.calls| && !s.calls[j].pass.Unstarted? ==> s.calls[i].result.Some?)
  {
    RunKeepsToken(events);
    var k :| TokenAt(Run(IDLE, events), k);
    TokenOrders(Run(IDLE, events), k);
    TokenTells(Run(IDLE, events), k);
  }

  lemma TokenOrders(s: State, k: nat)
    requires TokenAt(s, k)
    ensures forall i, j :: 0 <= i < j < |s.calls| ==> !s.calls[i].pass.InProgress? || !s.calls[j].pass.InProgress?
    ensures Numbered(s.started)
    ensures forall i :: 0 <= i < |s.calls| ==> (s.calls[i].pass.Unstarted? <==> i !in s.started)
  {
    forall i | 0 <= i < |s.calls| ensures s.calls[i].pass.Unstarted? <==> i !in s.started {
      if i < |s.started| {
        assert s.started[i] == i;
      }
    }
  }

  lemma TokenTells(s: State, k: nat)
    requires TokenAt(s, k)
    ensures forall i :: 0 <= i < |s.calls| && s.calls[i].result.Some? ==>
              s.calls[i].pass.Done? && s.calls[i].result.value == s.calls[i].pass.verdict
    ensures forall i, j :: 0 <= i < j < |s.calls| && !s.calls[j].pass.Unstarted? ==> s.calls[i].result.Some?
  {
  }

  // ---------------------------------------------------------------- nothing blocks

  function Ticks(s: State, n: nat): State
    decreases n
  {
    if n == 0 then s else Ticks(Step(s, Tick(None)), n - 1)
  }

  /** Jobs still to run, one after the other, before the queue is empty. */
  function Distance(s: State, k: nat): nat
    requires k <= |s.calls|
  {
    if k == |s.calls| then 0
    else
      var successor := if k + 1 < |s.calls| then 2 else 0;
      match s.calls[k].pass
      case Unstarted => 2
      case InProgress(linked) => if linked then 0 else 1
      case Done(_, linked) =>
        (if !linked then 3 else if s.calls[k].result.None? then 2 else 1) + successor
  }

  /** No job is left: every call before the k-th is through, the k-th (if there is one) is in progress
      with its outcome awaited, and all after it wait. */
  ghost predicate Quiescent(s: State, k: nat) {
    && s.jobs == [] && k <= |s.calls|
    && (forall i :: 0 <= i < k ==> Through(s.calls[i]))
    && (k < |s.calls| ==> s.calls[k].pass == InProgress(true))
    && (forall i :: k < i < |s.calls| ==> s.calls[i] == NEW_CALL)
  }

  lemma TickAdvances(s: State, k: nat)
    requires TokenAt(s, k)
    ensures TokenAt(Step(s, Tick(None)), NextToken(s, k))
    ensures Distance(Step(s, Tick(None)), NextToken(s, k)) == if Distance(s, k) == 0 then 0 else Distance(s, k) - 1
    ensures Distance(s, k) == 0 ==> Step(s, Tick(None)) == s
    ensures |Step(s, Tick(None)).calls| == |s.calls|
  {
    StepMovesToken(s, Tick(None), k);
  }

  /** Where the token rests once the queue has drained. */
  function RestingToken(s: State, k: nat): nat
    requires k <= |s.calls|
  {
    if k < |s.calls| && s.calls[k].pass.Done? then k + 1 else k
  }

  lemma DrainedIsQuiescent(s: State, k: nat)
    requires TokenAt(s, k) && Distance(s, k) == 0
    ensures Quiescent(s, k) && RestingToken(s, k) == k
  {
  }

  lemma SameRest(s: State, k: nat)
    requires TokenAt(s, k)
    ensures
      var r := Step(s, Tick(None));
      NextToken(s, k) <= |r.calls| && RestingToken(r, NextToken(s, k)) == RestingToken(s, k)
  {
    StepMovesToken(s, Tick(None), k);
  }

  lemma {:induction false} TicksSettle(s: State, k: nat, n: nat)
    requires TokenAt(s, k) && Distance(s, k) <= n
    ensures TokenAt(Ticks(s, n), RestingToken(s, k)) && Quiescent(Ticks(s, n), RestingToken(s, k))
    ensures |Ticks(s, n).calls| == |s.calls|
    decreases n
  {
    if n == 0 {
      DrainedIsQuiescent(s, k);
    } else {
      TickAdvances(s, k);
      SameRest(s, k);
      TicksSettle(Step(s, Tick(None)), NextToken(s, k), n - 1);
    }
  }

  /** If no function throws at once, as async ones do not, five jobs drain the queue from any reachable
      state: what remains is at most one function in progress, the first that is not through. */
  lemma FiveTicksSettle(events: seq<Event>)
    ensures exists k :: Quiescent(Ticks(Run(IDLE, events), 5), k)
  {
    RunKeepsToken(events);
    var s := Run(IDLE, events);
    var k :| TokenAt(s, k);
    TicksSettle(s, k, 5);
  }

  // ---------------------------------------------------------------- functions that throw at once

  /** Run one job for each entry; a function started by it throws the entry, if there is one. */
  function Drain(s: State, throws: seq<Option<string>>): State
    decreases |throws|
  {
    if throws == [] then s else Drain(Step(s, Tick(throws[0])), throws[1..])
  }

  /** No more jobs than this are left, whatever throws. */
  function JobsLeft(s: State, k: nat): nat
    requires k <= |s.calls|
  {
    if k == |s.calls| then 0
    else
      var behind := 4 * (|s.calls| - k - 1);
      match s.calls[k].pass
      case Unstarted => 4 + behind
      case InProgress(linked) => if linked then 0 else 1
      case Done(_, linked) => (if !linked then 3 else if s.calls[k].result.None? then 2 else 1) + behind
  }

  lemma TickUsesUp(s: State, k: nat, throws: Option<string>)
    requires TokenAt(s, k)
    ensures
      var r, l := Step(s, Tick(throws)), NextToken(s, k);
      && TokenAt(r, l) && k <= l && |r.calls| == |s.calls|
      && (if s.jobs == [] then r == s else JobsLeft(r, l) < JobsLeft(s, k))
  {
    StepMovesToken(s, Tick(throws), k);
  }

  lemma {:induction false} DrainSettles(s: State, k: nat, throws: seq<Option<string>>) returns (l: nat)
    requires TokenAt(s, k) && JobsLeft(s, k) <= |throws|
    ensures TokenAt(Drain(s, throws), l) && Quiescent(Drain(s, throws), l) && k <= l
    ensures |Drain(s, throws).calls| == |s.calls|
    decreases |throws|
  {
    l := k;
    if throws != [] {
      TickUsesUp(s, k, throws[0]);
      l := DrainSettles(Step(s, Tick(throws[0])), NextToken(s, k), throws[1..]);
    }
  }

  /** Whatever the functions throw when they are called, four jobs a call drain the queue. */
  lemma FourJobsACallSettle(events: seq<Event>, throws: seq<Option<string>>)
    requires 4 * |Run(IDLE, events).calls| <= |throws|
    ensures exists k :: Quiescent(Drain(Run(IDLE, events), throws), k)
  {
    RunKeepsToken(events);
    var s := Run(IDLE, events);
    var k :| TokenAt(s, k);
    var l := DrainSettles(s, k, throws);
  }

  // ---------------------------------------------------------------- one pass lets in the next

  /** A pass that settles, fulfilled or rejected alike, tells its own caller and lets the next one start
      within four jobs, and a next one that throws when it is called has told its caller so. */
  lemma SettledPassLetsNextIn(events: seq<Event>, i: nat, verdict: Verdict, throws: seq<Option<string>>)
    requires i < |Run(IDLE, events).calls| && Run(IDLE, events).calls[i].pass.InProgress?
    requires |throws| == 4
    ensures
      var r := Drain(Step(Run(IDLE, events), Complete(i, verdict)), throws);
      && |r.calls| == |Run(IDLE, events).calls|
      && r.calls[i].result == Some(verdict)
      && (i + 1 < |r.calls| ==>
            var next := r.calls[i + 1];
            && !next.pass.Unstarted?
            && (next.pass.Done? ==> next.pass.verdict.Rejected? && next.result == Some(next.pass.verdict)))
  {
    RunKeepsToken(events);
    var s := Run(IDLE, events);
    var k :| TokenAt(s, k);
    assert k == i;
    var settled := Step(s, Complete(i, verdict));
    StepMovesToken(s, Complete(i, verdict), k);
    FourJobs(settled, throws);
    NextStarts(settled, i, throws[0], throws[1], throws[2], throws[3]);
  }

  lemma FourJobs(s: State, throws: seq<Option<string>>)
    requires |throws| == 4
    ensures Drain(s, throws) ==
            Step(Step(Step(Step(s, Tick(throws[0])), Tick(throws[1])), Tick(throws[2])), Tick(throws[3]))
  {
    assert throws[1..][1..] == throws[2..] && throws[2..][1..] == throws[3..] && throws[3..][1..] == [];
    assert Drain(s, throws) == Drain(Step(s, Tick(throws[0])), throws[1..]);
    var s1 := Step(s, Tick(throws[0]));
    var s2 := Step(s1, Tick(throws[1]));
    var s3 := Step(s2, Tick(throws[2]));
    assert Drain(s1, throws[1..]) == Drain(s2, throws[2..]);
    assert Drain(s2, throws[2..]) == Drain(s3, throws[3..]);
    assert Drain(s3, throws[3..]) == Drain(Step(s3, Tick(throws[3])), []);
  }

  /** A settled pass or, past it, its successor under way. */
  ghost predicate Passing(s: State, i: nat, verdict: Verdict, n: nat) {
    && i < |s.calls|
    && if n > 0 then TokenAt(s, i) && s.calls[i].pass.Done? && s.calls[i].pass.verdict == verdict
                     && (if !s.calls[i].pass.linked then 3 else if s.calls[i].result.None? then 2 else 1) == n
       else Through(s.calls[i]) && s.calls[i].pass.verdict == verdict && TokenAt(s, i + 1)
  }

  lemma PassMoves(s: State, i: nat, verdict: Verdict, n: nat, throws: Option<string>)
    requires Passing(s, i, verdict, n) && n > 0
    ensures Passing(Step(s, Tick(throws)), i, verdict, n - 1)
    ensures n == 1 && i + 1 < |s.calls| ==> Step(s, Tick(throws)).jobs == [StartJob(i + 1)]
    ensures |Step(s, Tick(throws)).calls| == |s.calls|
  {
    StepMovesToken(s, Tick(throws), i);
  }

  /** The successor has been called, and has told its caller if it threw. */
  ghost predicate Begun(s: State, i: nat, verdict: Verdict) {
    && i + 1 < |s.calls| && s.calls[i].result == Some(verdict) && (exists k :: i < k && TokenAt(s, k))
    && var next := s.calls[i + 1];
       || (next.pass.InProgress? && TokenAt(s, i + 1))
       || (next.pass.Done? && next.pass.verdict.Rejected? && next.result == Some(next.pass.verdict))
  }

  lemma SuccessorBegins(s: State, i: nat, verdict: Verdict, throws: Option<string>)
    requires Passing(s, i, verdict, 0) && i + 1 < |s.calls| && s.jobs == [StartJob(i + 1)]
    ensures Begun(Step(s, Tick(throws)), i, verdict) && |Step(s, Tick(throws)).calls| == |s.calls|
  {
    StepMovesToken(s, Tick(throws), i + 1);
    assert TokenAt(Step(s, Tick(throws)), i + 1);
  }

  lemma BegunStays(s: State, i: nat, verdict: Verdict, throws: Option<string>)
    requires Begun(s, i, verdict)
    ensures Begun(Step(s, Tick(throws)), i, verdict) && |Step(s, Tick(throws)).calls| == |s.calls|
  {
    var k :| i < k && TokenAt(s, k) && (s.calls[i + 1].pass.InProgress? ==> k == i + 1);
    StepMovesToken(s, Tick(throws), k);
    assert TokenAt(Step(s, Tick(throws)), NextToken(s, k)) && i < NextToken(s, k);
  }

  /** Where the run is after at least as many jobs as the pass needed: past it. */
  ghost predicate LetIn(s: State, i: nat, verdict: Verdict, n: nat) {
    || (n > 0 && Passing(s, i, verdict, n - 1) && (n == 1 && i + 1 < |s.calls| ==> s.jobs == [StartJob(i + 1)]))
    || (n == 0 && (Begun(s, i, verdict) || (Passing(s, i, verdict, 0) && i + 1 == |s.calls|)))
  }

  lemma LetInMoves(s: State, i: nat, verdict: Verdict, n: nat, throws: Option<string>)
    requires LetIn(s, i, verdict, n)
    ensures LetIn(Step(s, Tick(throws)), i, verdict, if n == 0 then 0 else n - 1)
    ensures |Step(s, Tick(throws)).calls| == |s.calls|
  {
    if n > 1 {
      PassMoves(s, i, verdict, n - 1, throws);
    } else if n == 1 && i + 1 < |s.calls| {
      SuccessorBegins(s, i, verdict, throws);
    } else if n == 0 && Begun(s, i, verdict) {
      BegunStays(s, i, verdict, throws);
    }
  }

  lemma NextStarts(s: State, i: nat, a: Option<string>, b: Option<string>, c: Option<string>, d: Option<string>)
    requires TokenAt(s, i) && i < |s.calls| && s.calls[i].pass.Done?
    ensures
      var r := Step(Step(Step(Step(s, Tick(a)), Tick(b)), Tick(c)), Tick(d));
      |r.calls| == |s.calls| && LetIn(r, i, s.calls[i].pass.verdict, 0)
  {
    var call := s.calls[i];
    var n := if !call.pass.linked then 4 else if call.result.None? then 3 else 2;
    assert Passing(s, i, call.pass.verdict, n - 1);
    LetInMoves(s, i, call.pass.verdict, n, a);
    var s1 := Step(s, Tick(a));
    LetInMoves(s1, i, call.pass.verdict, n - 1, b);
    var s2 := Step(s1, Tick(b));
    LetInMoves(s2, i, call.pass.verdict, n - 2, c);
    var s3 := Step(s2, Tick(c));
    LetInMoves(s3, i, call.pass.verdict, if n > 3 then 1 else 0, d);
  }

  /** The closure over `tail`, as an object. The chain's promises are numbered by call. */
  class Gate {
    var calls: seq<Call>
    var jobs: seq<Job>
    var started: seq<nat>
    var tail: int

    function Now(): State
      reads this
    {
      State(calls, jobs, started)
    }

    ghost predicate Valid()
      reads this
    {
      tail == |calls| - 1
    }

    constructor ()
      ensures Valid() && Now() == IDLE
    {
      calls, jobs, started, tail := [], [], [], -1;
    }

    /** `run(fn)`: chain on the current tail and become the new one. */
    method Enter() returns (ticket: nat)
      requires Valid()
      modifies this
      ensures Valid() && Now() == Chain(old(Now())) && ticket == |old(calls)|
    {
      ticket := |calls|;
      if tail == -1 || calls[tail].tailFulfilled {
        jobs := jobs + [StartJob(ticket)];
      }
      calls := calls + [NEW_CALL];
      tail := ticket;
    }
  }
}
