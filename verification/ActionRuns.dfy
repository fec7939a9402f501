/** What the invariant of the action queues means for the commands of a whole run: mutual exclusion,
    order, fate of cancelled commands, and progress. */
module ActionRuns {
  import opened ActionQueue
  import opened ActionSafety

  // ---------------------------------------------------------------- safety

  // What every run keeps, also one in which heads are cancelled.

  ghost predicate OneEach(s: System) {
    forall c, d :: c in s.futures && d in s.futures && Active(s, c) && Active(s, d) && c.instance == d.instance
                   ==> c == d
  }

  ghost predicate Placed(s: System) {
    && (forall c :: c in s.launching ==> c in s.futures && c !in s.pool && c !in s.running)
    && (forall c :: c in s.pool ==> c in s.futures && s.futures[c] == Ran && c !in s.running)
    && (forall c :: c in s.running ==> c in s.futures && s.futures[c] == Ran)
    && NoDup(s.pool)
    && forall c :: c in s.futures && Active(s, c) ==> c.instance in s.queues
  }

  ghost predicate Sorted(s: System) {
    && (forall i, k :: i in s.queues && 0 <= k < |s.queues[i]| ==> s.queues[i][k].instance == i)
    && forall i :: i in s.queues ==> DistinctTypes(s.queues[i])
  }

  lemma {:induction false} WithoutKeepsTypes(q: seq<Cmd>, gone: set<Cmd>)
    requires DistinctTypes(q)
    ensures DistinctTypes(Without(q, gone))
  {
    if q != [] {
      var init, last := q[..|q| - 1], q[|q| - 1];
      WithoutKeepsTypes(init, gone);
      WithoutMembers(init, gone);
      forall d | d in init ensures d.actionType != last.actionType {
        var k :| 0 <= k < |init| && init[k] == d;
        assert q[k] == d;
      }
    }
  }

  ghost predicate Exclusive(s: System) {
    OneEach(s) && Placed(s) && Sorted(s)
  }

  lemma EnqueueKeepsExclusive(s: System, c: Cmd)
    requires Exclusive(s) && c !in s.futures
    ensures Exclusive(Enqueue(s, c))
  {
  }

  lemma LaunchKeepsExclusive(s: System, c: Cmd)
    requires Exclusive(s) && c in s.launching
    ensures Exclusive(Launch(s, c))
  {
    assert forall d :: Active(Launch(s, c), d) ==> Active(s, d);
  }

  /** What a cancel touches, as far as order and workers go. */
  lemma CancelTouches(s: System, c: Cmd, copy: bool) returns (gone: set<Cmd>)
    ensures var s' := Cancel(s, c, copy);
            && s'.launching == s.launching && s'.pool == s.pool && s'.running == s.running
            && s'.futures.Keys == s.futures.Keys
            && (forall d :: d in s.futures && s.futures[d] == Ran ==> s'.futures[d] == Ran)
            && s'.queues == if c.instance in s.queues then s.queues[c.instance := Without(s.queues[c.instance], gone)]
                            else s.queues
  {
    var s1 := if copy then s.(db := s.db[c := Cancelled]) else Save(s, c, Cancelled);
    var q := s1.QueueOf(c.instance);
    if AnyMatch(s1, c, copy, q) {
      gone := MatchSet(s1, c, copy, q);
    } else {
      gone := {};
      WithoutNone(q, gone);
    }
  }

  lemma WithoutKeepsSorted(s: System, s': System, i: Instance, gone: set<Cmd>)
    requires Sorted(s)
    requires s'.queues == if i in s.queues then s.queues[i := Without(s.queues[i], gone)] else s.queues
    ensures Sorted(s')
  {
    if i in s.queues {
      var q := Without(s.queues[i], gone);
      WithoutMembers(s.queues[i], gone);
      WithoutKeepsTypes(s.queues[i], gone);
      forall k | 0 <= k < |q| ensures q[k].instance == i {
        assert q[k] in q;
      }
    }
  }

  lemma CancelKeepsExclusive(s: System, c: Cmd, copy: bool)
    requires Exclusive(s)
    ensures Exclusive(Cancel(s, c, copy))
  {
    var gone := CancelTouches(s, c, copy);
    WithoutKeepsSorted(s, Cancel(s, c, copy), c.instance, gone);
  }

  lemma BeginKeepsExclusive(s: System)
    requires Exclusive(s) && s.pool != []
    ensures Exclusive(Begin(s))
  {
    assert forall d :: Active(Begin(s), d) ==> Active(s, d);
  }

  /** After a finish nothing of the instance is active until the next future is run. */
  lemma FinishKeepsExclusive(s: System, c: Cmd, ok: bool)
    requires Exclusive(s) && c in s.running && c in s.mem
    ensures Exclusive(Finish(s, c, ok))
  {
    var s1 := Settle(s, c, ok).(running := s.running - {c}, finished := s.finished + [c]);
    assert Active(s, c);
    assert forall d :: Active(s1, d) ==> Active(s, d) && d.instance != c.instance;
    assert Exclusive(s1);
    NextKeepsExclusive(s1, c.instance);
  }

  lemma NextKeepsExclusive(s: System, i: Instance)
    requires Exclusive(s) && forall d :: Active(s, d) ==> d.instance != i
    ensures Exclusive(HandleNext(s, i))
  {
    if i in s.queues && |s.queues[i]| > 1 {
      var q := s.queues[i][1..];
      assert q[0].instance == i;
      RunKeepsExclusive(s.(queues := s.queues[i := q]), q[0]);
    }
  }

  lemma RunKeepsExclusive(s: System, c: Cmd)
    requires Exclusive(s) && c.instance in s.queues && forall d :: Active(s, d) ==> d.instance != c.instance
    ensures Exclusive(RunFuture(s, c))
  {
    assert !Active(s, c);
  }

  lemma StepKeepsExclusive(s: System, step: Step)
    requires Exclusive(s) && Enabled(s, step)
    ensures Exclusive(Apply(s, step))
  {
    match step
    case DoQueue(c) => EnqueueKeepsExclusive(s, c);
    case DoLaunch(c) => LaunchKeepsExclusive(s, c);
    case DoExecute(c) =>
      EnqueueKeepsExclusive(s, c);
      if c in Enqueue(s, c).launching {
        LaunchKeepsExclusive(Enqueue(s, c), c);
      }
    case DoCancel(c, copy) => CancelKeepsExclusive(s, c, copy);
    case DoBegin => BeginKeepsExclusive(s);
    case DoFinish(c, ok) => FinishKeepsExclusive(s, c, ok);
  }

  lemma {:induction false} RunKeepsExclusiveAll(states: seq<System>, steps: seq<Step>, n: nat)
    requires IsRun(states, steps) && states[0] == Init(states[0].threads) && n < |states|
    ensures Exclusive(states[n])
  {
    if n > 0 {
      RunKeepsExclusiveAll(states, steps, n - 1);
      StepKeepsExclusive(states[n - 1], steps[n - 1]);
    }
  }

  /** In no run, cancels of heads included, do two actions of one instance run at the same time. */
  lemma MutualExclusion(states: seq<System>, steps: seq<Step>, n: nat, c: Cmd, d: Cmd)
    requires IsRun(states, steps) && states[0] == Init(states[0].threads) && n < |states|
    requires c in states[n].running && d in states[n].running && c.instance == d.instance
    ensures c == d
  {
    RunKeepsExclusiveAll(states, steps, n);
    assert Active(states[n], c) && Active(states[n], d);
  }

  lemma {:induction false} WithoutNoDup(q: seq<Cmd>, gone: set<Cmd>)
    requires NoDup(q)
    ensures NoDup(Without(q, gone))
  {
    if q != [] {
      WithoutNoDup(q[..|q| - 1], gone);
      WithoutMembers(q[..|q| - 1], gone);
    }
  }

  lemma {:induction false} OfNoDup(i: Instance, q: seq<Cmd>)
    requires NoDup(q)
    ensures NoDup(Of(i, q))
  {
    if q != [] {
      OfNoDup(i, q[..|q| - 1]);
      OfMembers(i, q[..|q| - 1]);
    }
  }

  lemma HeadFirst(done: seq<Cmd>, head: seq<Cmd>, q: seq<Cmd>)
    requires head == [] || (q != [] && head == [q[0]])
    ensures done + head <= done + q
    ensures NoDup(done + q) ==> NoDup(done + head)
    ensures q == [] ==> done + q == done
  {
  }

  /** Per instance, actions start in the order of their acceptance with the cancelled ones left out,
      none of them twice; once the instance has no queue, every one of them has run. */
  lemma StartOrder(s: System, i: Instance)
    requires Inv(s)
    ensures Of(i, s.started) <= Of(i, Without(s.accepted, s.dropped))
    ensures NoDup(Of(i, s.started))
    ensures i !in s.queues ==> Of(i, s.finished) == Of(i, Without(s.accepted, s.dropped))
  {
    assert KeptOk(s, i) && StartedOk(s, i);
    WithoutNoDup(s.accepted, s.dropped);
    OfNoDup(i, Without(s.accepted, s.dropped));
    HeadFirst(Of(i, s.finished), RunningHead(s, i), s.QueueOf(i));
  }

  /** All of it at every point of a run in which no head is cancelled. */
  lemma RunSafety(states: seq<System>, steps: seq<Step>, n: nat, i: Instance)
    requires IsRun(states, steps) && IsGuarded(states, steps)
    requires states[0] == Init(states[0].threads)
    requires n < |states|
    ensures i in states[n].queues ==> states[n].queues[i] != [] && Active(states[n], states[n].queues[i][0])
    ensures forall c :: c in states[n].running && c.instance == i ==> states[n].IsHead(c)
    ensures Of(i, Without(states[n].accepted, states[n].dropped)) == Of(i, states[n].finished) + states[n].QueueOf(i)
    ensures Of(i, states[n].started) <= Of(i, Without(states[n].accepted, states[n].dropped))
    ensures forall c :: c in states[n].coalesced + states[n].dropped ==> c !in states[n].started
  {
    var s := states[n];
    RunKeepsInv(states, steps, n);
    assert i in s.queues ==> QueueOk(s, i, s.queues[i]);
    assert forall c :: c in s.running ==> ActiveOk(s, c);
    assert KeptOk(s, i);
    StartOrder(s, i);
    assert forall c :: c in s.dropped ==> DroppedOk(s, c);
    assert forall c :: c in s.coalesced ==> CoalescedOk(s, c);
  }

  // ---------------------------------------------------------------- cancelled commands

  /** Cancelled, and past the point where a start could overwrite it. */
  ghost predicate CancelledForGood(s: System, c: Cmd) {
    && c in s.mem
    && s.Stored(c) == Cancelled
    && c in s.futures
    && s.futures[c] != Fresh
    && c !in s.pool
  }

  ghost predicate DbOk(s: System) {
    forall d :: d in s.db ==> d.Persisted()
  }

  lemma EnqueueStaysCancelled(s: System, d: Cmd, c: Cmd)
    requires CancelledForGood(s, c) && DbOk(s) && d !in s.futures
    ensures CancelledForGood(Enqueue(s, d), c) && DbOk(Enqueue(s, d))
  {
  }

  lemma LaunchStaysCancelled(s: System, d: Cmd, c: Cmd)
    requires CancelledForGood(s, c) && DbOk(s)
    ensures CancelledForGood(Launch(s, d), c) && DbOk(Launch(s, d))
  {
  }

  lemma CancelStaysCancelled(s: System, d: Cmd, copy: bool, c: Cmd)
    requires CancelledForGood(s, c) && DbOk(s) && (copy ==> d.Persisted())
    ensures CancelledForGood(Cancel(s, d, copy), c) && DbOk(Cancel(s, d, copy))
  {
  }

  lemma BeginStaysCancelled(s: System, c: Cmd)
    requires CancelledForGood(s, c) && DbOk(s) && s.pool != []
    ensures CancelledForGood(Begin(s), c) && DbOk(Begin(s)) && s.pool[0] != c
  {
  }

  /** No step whatever, a cancel of a head included, takes such a command out of Cancelled. */
  lemma StaysCancelled(s: System, step: Step, c: Cmd)
    requires CancelledForGood(s, c) && DbOk(s) && Enabled(s, step)
    ensures CancelledForGood(Apply(s, step), c) && DbOk(Apply(s, step))
    ensures step.DoBegin? ==> s.pool[0] != c
  {
    match step
    case DoQueue(d) => EnqueueStaysCancelled(s, d, c);
    case DoLaunch(d) => LaunchStaysCancelled(s, d, c);
    case DoExecute(d) =>
      EnqueueStaysCancelled(s, d, c);
      LaunchStaysCancelled(Enqueue(s, d), d, c);
    case DoCancel(d, copy) => CancelStaysCancelled(s, d, copy, c);
    case DoBegin => BeginStaysCancelled(s, c);
    case DoFinish(d, ok) => FinishStaysCancelled(s, d, ok, c);
  }

  lemma FinishStaysCancelled(s: System, d: Cmd, ok: bool, c: Cmd)
    requires CancelledForGood(s, c) && DbOk(s) && d in s.mem
    ensures CancelledForGood(Finish(s, d, ok), c) && DbOk(Finish(s, d, ok))
  {
    var s1 := Settle(s, d, ok).(running := s.running - {d}, finished := s.finished + [d]);
    assert CancelledForGood(s1, c) && DbOk(s1);
    var s2 := HandleNext(s1, d.instance);
    assert s2.mem == s1.mem && s2.db == s1.db && s2.launching == s1.launching;
  }

  lemma {:induction false} CancelledForever(states: seq<System>, steps: seq<Step>, k: nat, n: nat, c: Cmd)
    requires IsRun(states, steps) && k <= n < |states|
    requires CancelledForGood(states[k], c) && DbOk(states[k])
    ensures CancelledForGood(states[n], c) && DbOk(states[n])
  {
    if k < n {
      CancelledForever(states, steps, k, n - 1, c);
      StaysCancelled(states[n - 1], steps[n - 1], c);
    }
  }

  /** A queued command is cancelled for good exactly when it is running, or when cancel is given the queued
      object itself before the runner has reached the pool; then it was not started and its future is dead. */
  lemma CancelIsForGoodIff(s: System, c: Cmd, copy: bool)
    requires Inv(s) && c in s.QueueOf(c.instance) && (copy ==> c.Persisted())
    ensures CancelledForGood(Cancel(s, c, copy), c) <==> c in s.running || (!copy && c !in s.pool)
    ensures !copy && c !in s.running && c !in s.pool ==> c !in s.started && Cancel(s, c, copy).futures[c] == Dead
  {
    CancelEffect(s, c, copy);
    QueuedFuture(s, c);
  }

  lemma QueuedFuture(s: System, c: Cmd)
    requires Inv(s) && c in s.QueueOf(c.instance)
    ensures c in s.futures && c in s.mem && c in s.accepted && c !in s.dropped
    ensures if c in s.running || c in s.pool then s.futures[c] == Ran else s.futures[c] == Fresh && c !in s.started
    ensures c in s.running ==> c !in s.pool
  {
    var q := s.queues[c.instance];
    assert QueueOk(s, c.instance, q);
    var k :| 0 <= k < |q| && q[k] == c;
    assert EntryOk(s, c.instance, c);
    assert c in s.dropped ==> DroppedOk(s, c);
    if k == 0 {
      assert ActiveOk(s, c);
    } else {
      assert WaitingOk(s, c);
    }
  }

  lemma PoolGrows(s: System, step: Step, c: Cmd)
    requires c in s.pool && Enabled(s, step) && !step.DoBegin?
    ensures c in Apply(s, step).pool
  {
    if step.DoFinish? {
      var s1 := Settle(s, step.c, step.ok);
      assert s1.pool == s.pool;
    }
  }

  lemma StartStoresRunning(s: System)
    requires s.pool != [] && DbOk(s)
    ensures var c := s.pool[0];
            c in Begin(s).running && c in Begin(s).mem && Begin(s).Stored(c) == Running
  {
  }

  /** A runner in the pool stays there until it starts, and the start stores RUNNING, whatever was cancelled. */
  lemma PooledIsStarted(s: System, step: Step, c: Cmd)
    requires c in s.pool && DbOk(s) && Enabled(s, step)
    ensures c in Apply(s, step).pool
            || (step.DoBegin? && c in Apply(s, step).running && c in Apply(s, step).mem
                && Apply(s, step).Stored(c) == Running)
  {
    if step.DoBegin? {
      assert s.pool == [s.pool[0]] + s.pool[1..];
      StartStoresRunning(s);
    } else {
      PoolGrows(s, step, c);
    }
  }

  // Cancelled in the database, and not started.
  ghost predicate Unstarted(s: System, c: Cmd) {
    c !in s.started && c !in s.running && c in s.mem && s.Stored(c) == Cancelled
  }

  predicate Starts(s: System, step: Step, c: Cmd) {
    step.DoBegin? && s.pool != [] && s.pool[0] == c
  }

  lemma FinishKeepsUnstarted(s: System, d: Cmd, ok: bool, c: Cmd)
    requires Unstarted(s, c) && DbOk(s) && d in s.running && d in s.mem
    ensures Unstarted(Finish(s, d, ok), c) && DbOk(Finish(s, d, ok))
  {
    var s1 := Settle(s, d, ok).(running := s.running - {d}, finished := s.finished + [d]);
    assert Unstarted(s1, c) && DbOk(s1);
    var s2 := HandleNext(s1, d.instance);
    assert s2.mem == s1.mem && s2.db == s1.db && s2.running == s1.running && s2.started == s1.started;
  }

  lemma StaysUnstarted(s: System, step: Step, c: Cmd)
    requires Unstarted(s, c) && DbOk(s) && Internal(step) && Enabled(s, step) && !Starts(s, step, c)
    ensures Unstarted(Apply(s, step), c) && DbOk(Apply(s, step))
  {
    match step
    case DoLaunch(_) =>
    case DoBegin =>
    case DoFinish(d, ok) => FinishKeepsUnstarted(s, d, ok, c);
  }

  lemma {:induction false} FirstStart(states: seq<System>, steps: seq<Step>, j: nat, n: nat, c: Cmd) returns (k: nat)
    requires IsInternalRun(states, steps) && j <= n <= |steps|
    requires Unstarted(states[j], c) && DbOk(states[j]) && c in states[n].started
    ensures k < n && Starts(states[k], steps[k], c) && Unstarted(states[k], c) && DbOk(states[k])
    decreases n - j
  {
    if Starts(states[j], steps[j], c) {
      k := j;
    } else {
      StaysUnstarted(states[j], steps[j], c);
      k := FirstStart(states, steps, j + 1, n, c);
    }
  }

  lemma {:induction false} InternalRunKeepsLog(states: seq<System>, steps: seq<Step>, n: nat)
    requires IsInternalRun(states, steps) && Inv(states[0]) && n <= |steps|
    ensures Inv(states[n]) && states[n].accepted == states[0].accepted && states[n].dropped == states[0].dropped
    ensures states[n].threads == states[0].threads
  {
    if n > 0 {
      InternalRunKeepsLog(states, steps, n - 1);
      InternalStepKeeps(states[n - 1], steps[n - 1]);
    }
  }

  /** Once an instance has no queue, all of its accepted commands that were not dropped have started. */
  lemma AllStarted(s: System, c: Cmd)
    requires Inv(s) && c in s.accepted && c !in s.dropped && c.instance !in s.queues
    ensures c in s.started
  {
    StartOrder(s, c.instance);
    WithoutMembers(s.accepted, s.dropped);
    OfMembers(c.instance, Without(s.accepted, s.dropped));
    assert StartedOk(s, c.instance);
    OfMembers(c.instance, s.started);
  }

  lemma QueuedIsUnstarted(s: System, c: Cmd)
    requires Inv(s) && c in s.QueueOf(c.instance) && c !in s.running
    ensures c !in s.started
  {
    var i := c.instance;
    QueuedFuture(s, c);
    if c in s.pool {
      assert ActiveOk(s, c) && KeptOk(s, i) && StartedOk(s, i);
      WithoutNoDup(s.accepted, s.dropped);
      OfNoDup(i, Without(s.accepted, s.dropped));
      OfMembers(i, s.started);
      NotTwice(Of(i, s.finished), s.QueueOf(i), c);
    }
  }

  lemma NotTwice(a: seq<Cmd>, q: seq<Cmd>, c: Cmd)
    requires NoDup(a + q) && c in q
    ensures c !in a
  {
    var k :| 0 <= k < |q| && q[k] == c;
    assert (a + q)[|a| + k] == c;
    forall j | 0 <= j < |a| ensures a[j] != c {
      assert (a + q)[j] == a[j];
    }
  }

  lemma CopyCancelled(s: System, c: Cmd)
    requires Inv(s) && c in s.QueueOf(c.instance) && c !in s.running && c.Persisted()
    ensures var s' := Cancel(s, c, true);
            && Inv(s') && DbOk(s') && Unstarted(s', c) && c in s'.accepted && c !in s'.dropped && s'.threads == s.threads
  {
    StepKeepsInv(s, DoCancel(c, true));
    QueuedFuture(s, c);
    QueuedIsUnstarted(s, c);
    CancelEffect(s, c, true);
  }

  /** Cancelling a copy of a queued command that is not running does not hold it back: in every way on
      without new commands in which the queue empties, the command starts, and the start overwrites the
      stored Cancelled. */
  lemma CopyCancelIsOverwritten(s: System, c: Cmd, states: seq<System>, steps: seq<Step>) returns (k: nat)
    requires Inv(s) && c in s.QueueOf(c.instance) && c !in s.running && c.Persisted()
    requires IsInternalRun(states, steps) && states[0] == Cancel(s, c, true)
    requires c.instance !in states[|steps|].queues
    ensures k < |steps| && Starts(states[k], steps[k], c)
    ensures c in states[k].mem && states[k].Stored(c) == Cancelled
    ensures c in states[k + 1].running && c in states[k + 1].mem && states[k + 1].Stored(c) == Running
  {
    CopyCancelled(s, c);
    k := CancelledStarts(states, steps, c);
  }

  lemma CancelledStarts(states: seq<System>, steps: seq<Step>, c: Cmd) returns (k: nat)
    requires IsInternalRun(states, steps) && c.instance !in states[|steps|].queues
    requires Inv(states[0]) && DbOk(states[0]) && Unstarted(states[0], c)
    requires c in states[0].accepted && c !in states[0].dropped
    ensures k < |steps| && Starts(states[k], steps[k], c)
    ensures c in states[k].mem && states[k].Stored(c) == Cancelled
    ensures c in states[k + 1].running && c in states[k + 1].mem && states[k + 1].Stored(c) == Running
  {
    InternalRunKeepsLog(states, steps, |steps|);
    AllStarted(states[|steps|], c);
    k := StartOverwrites(states, steps, c);
  }

  lemma StartOverwrites(states: seq<System>, steps: seq<Step>, c: Cmd) returns (k: nat)
    requires IsInternalRun(states, steps) && DbOk(states[0]) && Unstarted(states[0], c)
    requires c in states[|steps|].started
    ensures k < |steps| && Starts(states[k], steps[k], c)
    ensures c in states[k].mem && states[k].Stored(c) == Cancelled
    ensures c in states[k + 1].running && c in states[k + 1].mem && states[k + 1].Stored(c) == Running
  {
    k := FirstStart(states, steps, 0, |steps|, c);
    assert states[k + 1] == Begin(states[k]);
    StartStoresRunning(states[k]);
  }

  /** And there is always such a way. */
  lemma CopyCancelledStarts(s: System, c: Cmd) returns (states: seq<System>, steps: seq<Step>, k: nat)
    requires Inv(s) && c in s.QueueOf(c.instance) && c !in s.running && c.Persisted() && s.threads > 0
    ensures IsInternalRun(states, steps) && states[0] == Cancel(s, c, true) && k < |steps|
    ensures c in states[k + 1].running && c in states[k + 1].mem && states[k + 1].Stored(c) == Running
  {
    CopyCancelled(s, c);
    states, steps := Drain(Cancel(s, c, true));
    k := CancelledStarts(states, steps, c);
  }

  /** A state with a started head and a waiting action behind it, reached from the start without a cancel. */
  lemma StartedHeadIsReached(c: Cmd, d: Cmd, threads: nat) returns (s: System)
    requires c != d && c.instance == d.instance && c.actionType != d.actionType && threads > 0
    ensures Inv(s) && c in s.running && s.QueueOf(c.instance) == [c, d]
  {
    s := FirstIsQueued(c, d, threads);
    StepKeepsInv(s, DoQueue(d));
    s := Enqueue(s, d);
    StepKeepsInv(s, DoLaunch(c));
    s := Launch(s, c);
    StepKeepsInv(s, DoBegin);
    s := Begin(s);
  }

  lemma FirstIsQueued(c: Cmd, d: Cmd, threads: nat) returns (s: System)
    requires c != d && c.instance == d.instance && c.actionType != d.actionType
    ensures Inv(s) && s.queues == map[c.instance := [c]] && s.futures == map[c := Fresh] && s.launching == {c}
    ensures s.pool == [] && s.running == {} && s.threads == threads && s.coalesced == {}
    ensures !HasType(s.QueueOf(d.instance), d.actionType)
  {
    s := Init(threads);
    RunKeepsInv([s], [], 0);
    StepKeepsInv(s, DoQueue(c));
    EnqueueFirst(c, threads);
    s := Enqueue(s, c);
  }

  lemma EnqueueFirst(c: Cmd, threads: nat)
    ensures var s := Enqueue(Init(threads), c);
            && s.queues == map[c.instance := [c]] && s.futures == map[c := Fresh] && s.launching == {c}
            && s.pool == [] && s.running == {} && s.threads == threads && s.coalesced == {}
            && forall t :: t != c.actionType ==> !HasType(s.QueueOf(c.instance), t)
  {
    assert [] + [c] == [c];
  }

  lemma StartedHeadCancelled(s: System, c: Cmd)
    requires Inv(s) && c in s.running && |s.QueueOf(c.instance)| > 1
    ensures var q, s' := s.QueueOf(c.instance), Cancel(s, c, false);
            && q[0] == c && c in s.mem
            && s'.queues == s.queues[c.instance := q[1..]] && s'.mem.Keys == s.mem.Keys
            && s'.accepted == s.accepted && s'.dropped == s.dropped + {c} && s'.started == s.started
            && s'.launching == s.launching && s'.pool == s.pool && s'.running == s.running
            && c in s'.futures && s'.futures[c] == Ran
  {
    assert ActiveOk(s, c);
    CancelEffect(s, c, false);
    WithoutHead(s.queues[c.instance]);
  }

  lemma NextWaits(s: System, c: Cmd)
    requires Inv(s) && c in s.running && |s.QueueOf(c.instance)| > 1
    ensures var next := s.QueueOf(c.instance)[1];
            && next in s.accepted && next !in s.dropped && next != c && next.instance == c.instance
            && !Active(s, next) && next !in s.started && NoDup(s.QueueOf(c.instance))
  {
    var q := s.queues[c.instance];
    assert ActiveOk(s, c) && QueueOk(s, c.instance, q) && EntryOk(s, c.instance, q[1]) && WaitingOk(s, q[1]);
    assert q[1] in s.dropped ==> DroppedOk(s, q[1]);
  }

  /** Cancelling a head that has started makes its finish pop the next action, which is then in no queue and
      with no worker, although it was accepted, not cancelled, and not started. */
  lemma CancelStartedHeadLosesNext(s: System, c: Cmd, ok: bool)
    requires Inv(s) && c in s.running && |s.QueueOf(c.instance)| > 1
    ensures var next := s.QueueOf(c.instance)[1];
            var s' := Finish(Cancel(s, c, false), c, ok);
            && next in s'.accepted && next !in s'.dropped
            && next !in s'.QueueOf(c.instance) && !Active(s', next) && next !in s'.started
  {
    StartedHeadCancelled(s, c);
    NextWaits(s, c);
    FinishPops(Cancel(s, c, false), c, ok, s.QueueOf(c.instance)[1]);
  }

  /** A finish takes the head of the queue, whichever it is, and gives the one after it to the pool. */
  lemma FinishPops(s: System, c: Cmd, ok: bool, next: Cmd)
    requires c in s.mem && c.instance in s.queues && s.queues[c.instance] != [] && s.queues[c.instance][0] == next
    requires NoDup(s.queues[c.instance]) && !Active(s, next) && next.instance == c.instance
    ensures var s' := Finish(s, c, ok);
            && s'.accepted == s.accepted && s'.dropped == s.dropped && s'.started == s.started
            && next !in s'.QueueOf(c.instance) && !Active(s', next)
  {
    var s1 := Settle(s, c, ok).(running := s.running - {c}, finished := s.finished + [c]);
    assert s1.queues == s.queues && !Active(s1, next);
    NextPops(s1, c.instance, next);
  }

  lemma NextPops(s: System, i: Instance, next: Cmd)
    requires i in s.queues && s.queues[i] != [] && s.queues[i][0] == next && NoDup(s.queues[i]) && !Active(s, next)
    ensures var s' := HandleNext(s, i);
            && s'.accepted == s.accepted && s'.dropped == s.dropped && s'.started == s.started
            && next !in s'.QueueOf(i) && !Active(s', next)
  {
    var q := s.queues[i];
    assert next !in q[1..];
    assert |q| > 1 ==> q[1..][0] != next;
  }

  // A head that is cancelled before its future was run: nothing of the instance starts any more.

  ghost predicate Blocked(s: System, i: Instance) {
    && i in s.queues
    && (forall c :: c in s.launching && c.instance == i ==> c in s.futures && s.futures[c] == Dead)
    && (forall c :: c in s.pool ==> c.instance != i)
    && (forall c :: c in s.running ==> c.instance != i)
  }

  lemma LaunchingHeadCancelled(s: System, c: Cmd)
    requires Inv(s) && c in s.launching
    ensures Blocked(Cancel(s, c, false), c.instance)
  {
    assert ActiveOk(s, c);
    CancelEffect(s, c, false);
    forall d | Active(s, d) && d.instance == c.instance ensures d == c {
      assert ActiveOk(s, d);
    }
  }

  lemma EnqueueKeepsBlocked(s: System, c: Cmd, i: Instance)
    requires Blocked(s, i) && c !in s.futures
    ensures Blocked(Enqueue(s, c), i) && Enqueue(s, c).started == s.started
  {
  }

  lemma LaunchKeepsBlocked(s: System, c: Cmd, i: Instance)
    requires Blocked(s, i)
    ensures c in s.launching ==> Blocked(Launch(s, c), i) && Launch(s, c).started == s.started
  {
  }

  lemma CancelKeepsBlocked(s: System, c: Cmd, copy: bool, i: Instance)
    requires Blocked(s, i)
    ensures Blocked(Cancel(s, c, copy), i) && Cancel(s, c, copy).started == s.started
  {
  }

  lemma FinishKeepsBlocked(s: System, c: Cmd, ok: bool, i: Instance)
    requires Blocked(s, i) && Exclusive(s) && c in s.running && c in s.mem
    ensures Blocked(Finish(s, c, ok), i) && Finish(s, c, ok).started == s.started
  {
    var s1 := Settle(s, c, ok).(running := s.running - {c}, finished := s.finished + [c]);
    assert c.instance != i && Blocked(s1, i);
    assert c.instance in s.queues && |s.queues[c.instance]| > 1 ==> s.queues[c.instance][1].instance == c.instance;
  }

  /** Whatever happens, the instance stays blocked, and none of its commands starts. */
  lemma StepKeepsBlocked(s: System, step: Step, i: Instance)
    requires Blocked(s, i) && Exclusive(s) && Enabled(s, step)
    ensures Blocked(Apply(s, step), i)
    ensures Of(i, Apply(s, step).started) == Of(i, s.started)
  {
    match step
    case DoQueue(c) => EnqueueKeepsBlocked(s, c, i);
    case DoLaunch(c) => LaunchKeepsBlocked(s, c, i);
    case DoExecute(c) =>
      EnqueueKeepsBlocked(s, c, i);
      LaunchKeepsBlocked(Enqueue(s, c), c, i);
    case DoCancel(c, copy) => CancelKeepsBlocked(s, c, copy, i);
    case DoBegin => OfAppend(i, s.started, s.pool[0]);
    case DoFinish(c, ok) => FinishKeepsBlocked(s, c, ok, i);
  }

  lemma RunStepKeepsBlocked(states: seq<System>, steps: seq<Step>, n: nat, i: Instance)
    requires IsRun(states, steps) && states[0] == Init(states[0].threads) && n < |steps| && Blocked(states[n], i)
    ensures Blocked(states[n + 1], i) && Of(i, states[n + 1].started) == Of(i, states[n].started)
  {
    RunKeepsExclusiveAll(states, steps, n);
    StepKeepsBlocked(states[n], steps[n], i);
  }

  /** In every run a blocked instance is blocked for good: no command of it is ever started again. */
  lemma {:induction false} BlockedForever(states: seq<System>, steps: seq<Step>, k: nat, n: nat, i: Instance)
    requires IsRun(states, steps) && states[0] == Init(states[0].threads) && k <= n < |states|
    requires Blocked(states[k], i)
    ensures Blocked(states[n], i) && Of(i, states[n].started) == Of(i, states[k].started)
  {
    if k < n {
      BlockedForever(states, steps, k, n - 1, i);
      RunStepKeepsBlocked(states, steps, n - 1, i);
    }
  }

  /** A head cancelled once it is submitted leaves the queue to the others, and keeps its worker. */
  lemma SubmittedHeadCancelled(s: System, c: Cmd)
    requires Inv(s) && (c in s.pool || c in s.running)
    ensures var q, s' := s.QueueOf(c.instance), Cancel(s, c, false);
            && q != [] && q[0] == c && s'.QueueOf(c.instance) == q[1..] && c !in s'.QueueOf(c.instance)
            && s'.pool == s.pool && s'.running == s.running
  {
    assert ActiveOk(s, c);
    CancelEffect(s, c, false);
    var q := s.queues[c.instance];
    assert QueueOk(s, c.instance, q);
    WithoutHead(q);
    assert c !in q[1..];
  }

  /** An entry goes out of the queue without a worker, and without having been finished. */
  predicate Loses(s: System, s': System, c: Cmd, d: Cmd) {
    d != c && d in s.QueueOf(c.instance) && d !in s'.QueueOf(c.instance) && !Active(s', d)
  }

  /** In every run the finish of a command that was cancelled out of its queue loses another action exactly when
      one is in the queue by then: the one at its head. */
  lemma FinishLosesIff(s: System, c: Cmd, ok: bool)
    requires Exclusive(s) && c in s.running && c in s.mem && c !in s.QueueOf(c.instance)
    ensures (exists d :: d in s.QueueOf(c.instance) && Loses(s, Finish(s, c, ok), c, d)) <==> s.QueueOf(c.instance) != []
    ensures s.QueueOf(c.instance) != [] ==> Loses(s, Finish(s, c, ok), c, s.QueueOf(c.instance)[0])
  {
    if s.QueueOf(c.instance) != [] {
      var q := s.queues[c.instance];
      assert q[0] in q && q[0] != c && Active(s, c);
      FinishPops(s, c, ok, q[0]);
    }
  }

  // ---------------------------------------------------------------- progress

  /** The steps left to a command: launch, begin and finish, and for one that waits its turn. */
  function Weight(s: System, c: Cmd): nat {
    if c in s.running then 1
    else if c in s.pool then 2
    else if c in s.launching then 3
    else if c in s.QueueOf(c.instance) then 4
    else 0
  }

  function Load(s: System, log: seq<Cmd>): nat {
    if log == [] then 0 else Load(s, log[..|log| - 1]) + Weight(s, log[|log| - 1])
  }

  /** The actions of a log that are still in a queue. */
  function Outstanding(s: System, log: seq<Cmd>): nat {
    if log == [] then 0
    else
      var c := log[|log| - 1];
      Outstanding(s, log[..|log| - 1]) + (if c in s.QueueOf(c.instance) then 1 else 0)
  }

  lemma {:induction false} LoadDecreases(s: System, s': System, log: seq<Cmd>, c: Cmd)
    requires forall d :: d in log ==> Weight(s', d) <= Weight(s, d)
    ensures Load(s', log) <= Load(s, log)
    ensures c in log && Weight(s', c) < Weight(s, c) ==> Load(s', log) < Load(s, log)
  {
    if log != [] {
      var init := log[..|log| - 1];
      assert log == init + [log[|log| - 1]];
      LoadDecreases(s, s', init, c);
    }
  }

  lemma {:induction false} OutstandingSame(s: System, s': System, log: seq<Cmd>)
    requires forall d :: d in log ==> (d in s'.QueueOf(d.instance) <==> d in s.QueueOf(d.instance))
    ensures Outstanding(s', log) == Outstanding(s, log)
  {
    if log != [] {
      OutstandingSame(s, s', log[..|log| - 1]);
    }
  }

  lemma {:induction false} OutstandingDrops(s: System, s': System, log: seq<Cmd>, c: Cmd)
    requires NoDup(log) && c in log && c in s.QueueOf(c.instance) && c !in s'.QueueOf(c.instance)
    requires forall d :: d in log && d != c ==> (d in s'.QueueOf(d.instance) <==> d in s.QueueOf(d.instance))
    ensures Outstanding(s', log) == Outstanding(s, log) - 1
  {
    var init, last := log[..|log| - 1], log[|log| - 1];
    assert log == init + [last];
    if last == c {
      OutstandingSame(s, s', init);
    } else {
      OutstandingDrops(s, s', init, c);
    }
  }

  /** Success or failure alike: the finish takes exactly one action off, and the next one is submitted. */
  lemma FinishTakesOneOff(s: System, c: Cmd, ok: bool)
    requires Inv(s) && c in s.running
    ensures var s' := Finish(s, c, ok);
            && s'.accepted == s.accepted
            && Outstanding(s', s.accepted) == Outstanding(s, s.accepted) - 1
            && (|s.QueueOf(c.instance)| > 1 ==> s'.pool == s.pool + [s.QueueOf(c.instance)[1]])
            && (|s.QueueOf(c.instance)| == 1 ==> s'.pool == s.pool && c.instance !in s'.queues)
  {
    var s' := Finish(s, c, ok);
    var q := FinishEffect(s, c, ok);
    forall d ensures d != c ==> (d in s'.QueueOf(d.instance) <==> d in s.QueueOf(d.instance)) {
      if d.instance == c.instance {
        assert q == [c] + q[1..];
      }
    }
    assert EntryOk(s, c.instance, q[0]);
    OutstandingDrops(s, s', s.accepted, c);
  }

  predicate Internal(step: Step) {
    step.DoLaunch? || step.DoBegin? || step.DoFinish?
  }

  /** A run without arrivals and cancellations. */
  ghost predicate IsInternalRun(states: seq<System>, steps: seq<Step>) {
    IsRun(states, steps) && forall k :: 0 <= k < |steps| ==> Internal(steps[k])
  }

  lemma LaunchWeights(s: System, c: Cmd, d: Cmd)
    requires Shape(s) && c in s.launching
    ensures Weight(Launch(s, c), d) <= Weight(s, d)
    ensures d == c ==> Weight(Launch(s, c), d) < Weight(s, d)
  {
    assert ActiveOk(s, c);
  }

  lemma BeginWeights(s: System, d: Cmd)
    requires Shape(s) && s.pool != []
    ensures Weight(Begin(s), d) <= Weight(s, d)
    ensures d == s.pool[0] ==> Weight(Begin(s), d) < Weight(s, d)
  {
    assert ActiveOk(s, s.pool[0]);
    assert s.pool == [s.pool[0]] + s.pool[1..];
  }

  lemma FinishWeights(s: System, c: Cmd, ok: bool, d: Cmd)
    requires Shape(s) && c in s.running
    ensures Weight(Finish(s, c, ok), d) <= Weight(s, d)
    ensures d == c ==> Weight(Finish(s, c, ok), d) < Weight(s, d)
  {
    var q := FinishEffect(s, c, ok);
    assert q == [c] + q[1..];
    assert |q| > 1 ==> WaitingOk(s, q[1]) && EntryOk(s, c.instance, q[1]);
  }

  /** Without arrivals and cancellations, every step brings the load down. */
  lemma InternalStepProgress(s: System, step: Step)
    requires Inv(s) && Internal(step) && Enabled(s, step)
    ensures Load(Apply(s, step), s.accepted) < Load(s, s.accepted)
  {
    var s', c := Apply(s, step), if step.DoBegin? then s.pool[0] else step.c;
    assert ActiveOk(s, c);
    forall d ensures Weight(s', d) <= Weight(s, d) && (d == c ==> Weight(s', d) < Weight(s, d)) {
      match step
      case DoLaunch(_) => LaunchWeights(s, c, d);
      case DoBegin => BeginWeights(s, d);
      case DoFinish(_, ok) => FinishWeights(s, c, ok, d);
    }
    LoadDecreases(s, s', s.accepted, c);
  }

  lemma InternalStepKeepsLog(s: System, step: Step)
    requires Shape(s) && Internal(step) && Enabled(s, step)
    ensures var s' := Apply(s, step);
            s'.accepted == s.accepted && s'.dropped == s.dropped && s'.threads == s.threads
  {
    if step.DoFinish? {
      var q := FinishEffect(s, step.c, step.ok);
    }
  }

  lemma InternalStepKeeps(s: System, step: Step)
    requires Inv(s) && Internal(step) && Enabled(s, step)
    ensures var s' := Apply(s, step);
            && Inv(s') && s'.accepted == s.accepted && s'.dropped == s.dropped && s'.threads == s.threads
            && Load(s', s'.accepted) < Load(s, s.accepted)
  {
    StepKeepsInv(s, step);
    InternalStepProgress(s, step);
    InternalStepKeepsLog(s, step);
  }

  /** While some instance has a queue, some internal step can be taken. */
  lemma NotStuck(s: System, i: Instance) returns (step: Step)
    requires Inv(s) && i in s.queues && s.threads > 0
    ensures Internal(step) && Enabled(s, step)
  {
    assert QueueOk(s, i, s.queues[i]);
    var c := s.queues[i][0];
    if s.running != {} {
      var r :| r in s.running;
      assert ActiveOk(s, r);
      step := DoFinish(r, true);
    } else if c in s.launching {
      step := DoLaunch(c);
    } else {
      step := DoBegin;
    }
  }

  lemma {:induction false} DrainQueues(s: System) returns (states: seq<System>, steps: seq<Step>)
    requires Inv(s) && s.threads > 0
    ensures IsInternalRun(states, steps) && states[0] == s
    ensures var last := states[|steps|];
            Inv(last) && (forall i :: i !in last.queues) && last.accepted == s.accepted && last.dropped == s.dropped
    decreases Load(s, s.accepted)
  {
    if i :| i in s.queues {
      var step := NotStuck(s, i);
      InternalStepKeeps(s, step);
      states, steps := DrainQueues(Apply(s, step));
      states, steps := Prepend(s, step, states, steps);
    } else {
      states, steps := [s], [];
    }
  }

  /** From every good state internal steps alone lead to the empty map, where every accepted action
      that was not cancelled has run to its finish, in order. */
  lemma Drain(s: System) returns (states: seq<System>, steps: seq<Step>)
    requires Inv(s) && s.threads > 0
    ensures IsInternalRun(states, steps) && states[0] == s
    ensures forall i :: i !in states[|steps|].queues
    ensures forall i :: Of(i, states[|steps|].finished) == Of(i, Without(s.accepted, s.dropped))
  {
    states, steps := DrainQueues(s);
    forall i ensures Of(i, states[|steps|].finished) == Of(i, Without(s.accepted, s.dropped)) {
      StartOrder(states[|steps|], i);
    }
  }

  lemma Prepend(s: System, step: Step, states: seq<System>, steps: seq<Step>)
    returns (states': seq<System>, steps': seq<Step>)
    requires Internal(step) && Enabled(s, step) && IsInternalRun(states, steps) && states[0] == Apply(s, step)
    ensures IsInternalRun(states', steps') && states' == [s] + states && steps' == [step] + steps
    ensures states'[|steps'|] == states[|steps|]
  {
    states', steps' := [s] + states, [step] + steps;
  }

  lemma {:induction false} InternalRunSpendsLoad(states: seq<System>, steps: seq<Step>, n: nat)
    requires IsInternalRun(states, steps) && Inv(states[0]) && n <= |steps|
    ensures Inv(states[n])
    ensures n + Load(states[n], states[n].accepted) <= Load(states[0], states[0].accepted)
  {
    if n > 0 {
      InternalRunSpendsLoad(states, steps, n - 1);
      InternalStepKeeps(states[n - 1], steps[n - 1]);
    }
  }

  /** A run that can go on with no internal step has emptied the map: every accepted action that was not
      cancelled has run to its finish, in order. */
  lemma MaximalRunDrains(states: seq<System>, steps: seq<Step>)
    requires IsInternalRun(states, steps) && Inv(states[0]) && states[0].threads > 0
    requires forall step :: Internal(step) ==> !Enabled(states[|steps|], step)
    ensures forall i :: i !in states[|steps|].queues
    ensures forall i :: Of(i, states[|steps|].finished) == Of(i, Without(states[0].accepted, states[0].dropped))
  {
    InternalRunKeepsLog(states, steps, |steps|);
    forall i ensures i !in states[|steps|].queues {
      if i in states[|steps|].queues {
        var step := NotStuck(states[|steps|], i);
      }
    }
    forall i ensures Of(i, states[|steps|].finished) == Of(i, Without(states[0].accepted, states[0].dropped)) {
      StartOrder(states[|steps|], i);
    }
  }

  /** No sequence of internal steps is longer than the load, so every way of going on gets there. */
  lemma InternalRunsAreShort(states: seq<System>, steps: seq<Step>)
    requires IsInternalRun(states, steps) && Inv(states[0])
    ensures |steps| <= Load(states[0], states[0].accepted)
  {
    InternalRunSpendsLoad(states, steps, |steps|);
  }
}
