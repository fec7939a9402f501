/** The states of the commands: what each step stores, and what the stored state says about a command in every run. */
module ActionStates {
  import opened ActionQueue
  import opened ActionSafety
  import opened ActionRuns

  // ---------------------------------------------------------------- single steps

  /** The object and its row, if it has one, are in this state. */
  predicate IsIn(s: System, c: Cmd, state: CommandState) {
    c in s.mem && s.mem[c] == state && s.Stored(c) == state
  }

  /** No other command changes its state. */
  predicate OnlyOf(c: Cmd, s: System, s': System) {
    s'.mem - {c} == s.mem - {c} && s'.db - {c} == s.db - {c}
  }

  /** Queued if no action of its type waits or runs for the instance, and else done at once. */
  lemma EnqueueStores(s: System, c: Cmd)
    requires DbOk(s) && c !in s.futures && c !in s.coalesced
    ensures var s' := Enqueue(s, c);
            var again := exists d :: d in s.QueueOf(c.instance) && d.actionType == c.actionType;
            && IsIn(s', c, if again then Terminated else Queued)
            && (c in s'.coalesced <==> again) && (c in s'.futures <==> !again)
            && OnlyOf(c, s, s') && DbOk(s')
  {
    var q := s.QueueOf(c.instance);
    if d :| d in q && d.actionType == c.actionType {
      var k :| 0 <= k < |q| && q[k] == d;
      assert q[k].actionType == c.actionType;
    }
  }

  lemma BeginStores(s: System)
    requires DbOk(s) && s.pool != []
    ensures var c, s' := s.pool[0], Begin(s);
            IsIn(s', c, Running) && OnlyOf(c, s, s') && DbOk(s')
  {
  }

  /** Cancelling a copy changes the row only. */
  lemma CancelStores(s: System, c: Cmd, copy: bool)
    requires DbOk(s) && (copy ==> c.Persisted())
    ensures var s' := Cancel(s, c, copy);
            && (if copy then s'.mem == s.mem && c in s'.db && s'.db[c] == Cancelled else IsIn(s', c, Cancelled))
            && OnlyOf(c, s, s') && DbOk(s')
  {
  }

  /** The next action changes no state until it starts. */
  lemma NextStores(s: System, i: Instance)
    ensures HandleNext(s, i).mem == s.mem && HandleNext(s, i).db == s.db
  {
  }

  /** A finish stores TERMINATED for an action that ran through and FAILED for one that did not, unless the command
      was cancelled: then it is CANCELLED, and stays so. */
  lemma FinishStores(s: System, c: Cmd, ok: bool)
    requires DbOk(s) && c in s.running && c in s.mem
    ensures var s' := Finish(s, c, ok);
            && IsIn(s', c, if s.Stored(c) == Cancelled then Cancelled else if ok then Terminated else Failed)
            && OnlyOf(c, s, s') && DbOk(s')
  {
    var s1 := Settle(s, c, ok).(running := s.running - {c}, finished := s.finished + [c]);
    NextStores(s1, c.instance);
    assert OnlyOf(c, s, s1);
  }

  // ---------------------------------------------------------------- whole runs

  /** What a reader of the table, or of the object where there is no row, sees. */
  function Seen(s: System, c: Cmd): CommandState {
    if c in s.db then s.db[c] else if c in s.mem then s.mem[c] else Pending
  }

  /** The life of one command as its own steps tell it. */
  ghost function Told(states: seq<System>, steps: seq<Step>, n: nat, c: Cmd): CommandState
    requires n <= |steps| < |states|
  {
    if n == 0 then Pending
    else
      var before, s := Told(states, steps, n - 1, c), states[n - 1];
      match steps[n - 1]
      case DoQueue(d) => if d == c then Answer(s, c) else before
      case DoExecute(d) => if d == c then Answer(s, c) else before
      case DoLaunch(_) => before
      case DoCancel(d, _) => if d == c then Cancelled else before
      case DoBegin => if s.pool != [] && s.pool[0] == c then Running else before
      case DoFinish(d, ok) =>
        if d != c || before == Cancelled then before else if ok then Terminated else Failed
  }

  ghost function Answer(s: System, c: Cmd): CommandState {
    if exists d :: d in s.QueueOf(c.instance) && d.actionType == c.actionType then Terminated else Queued
  }

  lemma OthersSeen(c: Cmd, s: System, s': System, d: Cmd)
    requires OnlyOf(c, s, s') && d != c
    ensures Seen(s', d) == Seen(s, d)
  {
    assert d in s.mem <==> d in s.mem - {c};
    assert d in s'.mem <==> d in s'.mem - {c};
    assert d in s.db <==> d in s.db - {c};
    assert d in s'.db <==> d in s'.db - {c};
    assert d in s.mem ==> (s.mem - {c})[d] == s.mem[d];
    assert d in s'.mem ==> (s'.mem - {c})[d] == s'.mem[d];
    assert d in s.db ==> (s.db - {c})[d] == s.db[d];
    assert d in s'.db ==> (s'.db - {c})[d] == s'.db[d];
  }

  lemma LaunchStores(s: System, c: Cmd)
    ensures Launch(s, c).mem == s.mem && Launch(s, c).db == s.db
  {
  }

  /** The stored state of a command after a step, from the one before. */
  lemma StepTells(s: System, step: Step, c: Cmd)
    requires DbOk(s) && Enabled(s, step)
    ensures DbOk(Apply(s, step))
    ensures Seen(Apply(s, step), c) ==
              match step
              case DoQueue(d) => if d == c then Answer(s, c) else Seen(s, c)
              case DoExecute(d) => if d == c then Answer(s, c) else Seen(s, c)
              case DoLaunch(_) => Seen(s, c)
              case DoCancel(d, _) => if d == c then Cancelled else Seen(s, c)
              case DoBegin => if s.pool[0] == c then Running else Seen(s, c)
              case DoFinish(d, ok) =>
                if d != c || Seen(s, c) == Cancelled then Seen(s, c) else if ok then Terminated else Failed
  {
    var s' := Apply(s, step);
    match step
    case DoQueue(d) =>
      EnqueueStores(s, d);
      if d != c { OthersSeen(d, s, s', c); }
    case DoExecute(d) =>
      EnqueueStores(s, d);
      LaunchStores(Enqueue(s, d), d);
      if d != c { OthersSeen(d, s, s', c); }
    case DoLaunch(d) => LaunchStores(s, d);
    case DoCancel(d, copy) =>
      CancelStores(s, d, copy);
      if d != c { OthersSeen(d, s, s', c); }
    case DoBegin =>
      BeginStores(s);
      if s.pool[0] != c { OthersSeen(s.pool[0], s, s', c); }
    case DoFinish(d, ok) =>
      FinishStores(s, d, ok);
      if d != c { OthersSeen(d, s, s', c); }
  }

  /** In every run, cancels of heads and of copies included, the stored state of each command is the one that the
      steps of this command tell: no step of another command changes it. */
  lemma {:induction false} StoredIsTold(states: seq<System>, steps: seq<Step>, n: nat, c: Cmd)
    requires IsRun(states, steps) && states[0] == Init(states[0].threads) && n <= |steps|
    ensures DbOk(states[n]) && Seen(states[n], c) == Told(states, steps, n, c)
  {
    if n > 0 {
      StoredIsTold(states, steps, n - 1, c);
      StepTells(states[n - 1], steps[n - 1], c);
    }
  }

  /** A command has a row once it has a state, if it has a user, and else never. */
  predicate RowOfUser(s: System, c: Cmd) {
    && (c in s.db ==> c.user != Nobody)
    && (c in s.mem && c.user != Nobody ==> c in s.db)
  }

  lemma FinishKeepsRow(s: System, d: Cmd, ok: bool, c: Cmd)
    requires RowOfUser(s, c) && d in s.running && d in s.mem
    ensures RowOfUser(Finish(s, d, ok), c)
  {
    NextStores(Settle(s, d, ok).(running := s.running - {d}, finished := s.finished + [d]), d.instance);
  }

  lemma EnqueueKeepsRow(s: System, d: Cmd, c: Cmd)
    requires RowOfUser(s, c)
    ensures RowOfUser(Enqueue(s, d), c)
  {
  }

  lemma CancelKeepsRow(s: System, d: Cmd, copy: bool, c: Cmd)
    requires RowOfUser(s, c) && (copy ==> d.Persisted())
    ensures RowOfUser(Cancel(s, d, copy), c)
  {
  }

  lemma StepKeepsRow(s: System, step: Step, c: Cmd)
    requires RowOfUser(s, c) && Enabled(s, step)
    ensures RowOfUser(Apply(s, step), c)
  {
    match step
    case DoQueue(d) => EnqueueKeepsRow(s, d, c);
    case DoLaunch(d) => LaunchStores(s, d);
    case DoExecute(d) =>
      EnqueueKeepsRow(s, d, c);
      LaunchStores(Enqueue(s, d), d);
    case DoCancel(d, copy) => CancelKeepsRow(s, d, copy, c);
    case DoBegin =>
    case DoFinish(d, ok) => FinishKeepsRow(s, d, ok, c);
  }

  /** In every run exactly the commands that have a user have a row, as soon as the manager has set their state. */
  lemma {:induction false} OnlyUsersHaveRows(states: seq<System>, steps: seq<Step>, n: nat, c: Cmd)
    requires IsRun(states, steps) && states[0] == Init(states[0].threads) && n <= |steps|
    ensures RowOfUser(states[n], c)
  {
    if n > 0 {
      OnlyUsersHaveRows(states, steps, n - 1, c);
      StepKeepsRow(states[n - 1], steps[n - 1], c);
    }
  }

  // ---------------------------------------------------------------- what the state says

  /** The way of a command through the pool, once. */
  ghost predicate OneWay(s: System, c: Cmd) {
    && (c in s.pool || c in s.started ==> c in s.futures && s.futures[c] == Ran)
    && (c in s.started ==> c !in s.pool)
    && (c in s.running <==> c in s.started && c !in s.finished)
    && (c in s.finished ==> c in s.started)
    && (c in s.coalesced ==> c !in s.futures)
  }

  lemma FinishKeepsOneWay(s: System, c: Cmd, ok: bool, d: Cmd)
    requires OneWay(s, d) && c in s.running && c in s.mem
    ensures OneWay(Finish(s, c, ok), d)
  {
    var s1 := Settle(s, c, ok).(running := s.running - {c}, finished := s.finished + [c]);
    assert OneWay(s1, d) by {
      assert d in s.finished + [c] <==> d in s.finished || d == c;
    }
    NextKeepsOneWay(s1, c.instance, d);
  }

  lemma NextKeepsOneWay(s: System, i: Instance, d: Cmd)
    requires OneWay(s, d)
    ensures OneWay(HandleNext(s, i), d)
  {
  }

  lemma EnqueueKeepsOneWay(s: System, c: Cmd, d: Cmd)
    requires OneWay(s, d) && c !in s.futures && c !in s.coalesced
    ensures OneWay(Enqueue(s, c), d)
  {
  }

  lemma LaunchKeepsOneWay(s: System, c: Cmd, d: Cmd)
    requires OneWay(s, d)
    ensures OneWay(Launch(s, c), d)
  {
  }

  lemma CancelKeepsOneWay(s: System, c: Cmd, copy: bool, d: Cmd)
    requires OneWay(s, d)
    ensures OneWay(Cancel(s, c, copy), d)
  {
  }

  lemma BeginKeepsOneWay(s: System, d: Cmd)
    requires Exclusive(s) && OneWay(s, d) && s.pool != []
    ensures OneWay(Begin(s), d)
  {
    assert s.pool == [s.pool[0]] + s.pool[1..];
    assert d in s.started + [s.pool[0]] <==> d in s.started || d == s.pool[0];
  }

  lemma StepKeepsOneWay(s: System, step: Step, d: Cmd)
    requires Exclusive(s) && OneWay(s, d) && Enabled(s, step)
    ensures OneWay(Apply(s, step), d)
  {
    match step
    case DoQueue(c) => EnqueueKeepsOneWay(s, c, d);
    case DoLaunch(c) => LaunchKeepsOneWay(s, c, d);
    case DoExecute(c) =>
      EnqueueKeepsOneWay(s, c, d);
      LaunchKeepsOneWay(Enqueue(s, c), c, d);
    case DoCancel(c, copy) => CancelKeepsOneWay(s, c, copy, d);
    case DoBegin => BeginKeepsOneWay(s, d);
    case DoFinish(c, ok) => FinishKeepsOneWay(s, c, ok, d);
  }

  lemma {:induction false} RunKeepsOneWay(states: seq<System>, steps: seq<Step>, n: nat, d: Cmd)
    requires IsRun(states, steps) && states[0] == Init(states[0].threads) && n <= |steps|
    ensures OneWay(states[n], d)
  {
    if n > 0 {
      RunKeepsOneWay(states, steps, n - 1, d);
      RunKeepsExclusiveAll(states, steps, n - 1);
      StepKeepsOneWay(states[n - 1], steps[n - 1], d);
    }
  }

  predicate Cancels(step: Step, c: Cmd) {
    step.DoCancel? && step.c == c
  }

  ghost predicate Uncancelled(steps: seq<Step>, k: nat, n: nat, c: Cmd)
    requires n <= |steps|
  {
    forall j :: k <= j < n ==> !Cancels(steps[j], c)
  }

  /** What the stored state of a command says that has not been cancelled. */
  ghost predicate TellsPlace(s: System, c: Cmd) {
    && (Seen(s, c) == Pending <==> c !in s.futures && c !in s.coalesced)
    && (Seen(s, c) == Queued <==> c in s.futures && c !in s.started)
    && (Seen(s, c) == Running <==> c in s.running)
    && (Seen(s, c) == Terminated || Seen(s, c) == Failed <==> c in s.finished || c in s.coalesced)
    && (c in s.coalesced ==> Seen(s, c) == Terminated)
    && Seen(s, c) != Cancelled
  }

  /** Who steps where: the logs and futures of a command that takes no part in the step. */
  ghost predicate SamePlace(s: System, s': System, c: Cmd) {
    && (c in s'.futures <==> c in s.futures) && (c in s'.coalesced <==> c in s.coalesced)
    && (c in s'.started <==> c in s.started) && (c in s'.finished <==> c in s.finished)
    && (c in s'.running <==> c in s.running)
  }

  lemma FinishPlaces(s: System, d: Cmd, ok: bool, c: Cmd)
    requires d in s.running && d in s.mem
    ensures d != c ==> SamePlace(s, Finish(s, d, ok), c)
    ensures d in Finish(s, d, ok).finished && d !in Finish(s, d, ok).running
    ensures var s' := Finish(s, d, ok);
            s'.futures.Keys == s.futures.Keys && s'.coalesced == s.coalesced && s'.started == s.started
  {
    var s1 := Settle(s, d, ok).(running := s.running - {d}, finished := s.finished + [d]);
    NextPlaces(s1, d.instance);
  }

  lemma NextPlaces(s: System, i: Instance)
    ensures var s' := HandleNext(s, i);
            && s'.futures.Keys == s.futures.Keys && s'.coalesced == s.coalesced && s'.started == s.started
            && s'.finished == s.finished && s'.running == s.running
  {
  }

  lemma CancelPlaces(s: System, d: Cmd, copy: bool)
    ensures var s' := Cancel(s, d, copy);
            && s'.futures.Keys == s.futures.Keys && s'.coalesced == s.coalesced && s'.started == s.started
            && s'.finished == s.finished && s'.running == s.running
  {
  }

  lemma EnqueuePlaces(s: System, d: Cmd)
    requires DbOk(s) && d !in s.futures && d !in s.coalesced
    ensures var s' := Enqueue(s, d);
            && s'.started == s.started && s'.finished == s.finished && s'.running == s.running
            && (forall c :: c != d && c in s.futures ==> c in s'.futures)
            && (forall c :: c != d && c in s'.futures ==> c in s.futures)
            && s.coalesced <= s'.coalesced <= s.coalesced + {d}
            && (d in s'.futures <==> Answer(s, d) == Queued) && (d in s'.coalesced <==> Answer(s, d) == Terminated)
  {
    EnqueueStores(s, d);
  }

  lemma LaunchPlaces(s: System, d: Cmd)
    ensures var s' := Launch(s, d);
            && s'.futures.Keys == s.futures.Keys && s'.coalesced == s.coalesced && s'.started == s.started
            && s'.finished == s.finished && s'.running == s.running
  {
  }

  lemma EnqueueTellsPlace(s: System, d: Cmd, c: Cmd)
    requires TellsPlace(s, c) && OneWay(s, c) && DbOk(s) && d !in s.futures && d !in s.coalesced
    ensures TellsPlace(Enqueue(s, d), c)
  {
    EnqueuePlaces(s, d);
    StepTells(s, DoQueue(d), c);
  }

  lemma StepTellsPlace(s: System, step: Step, c: Cmd)
    requires TellsPlace(s, c) && OneWay(s, c) && DbOk(s) && Enabled(s, step) && !Cancels(step, c)
    ensures TellsPlace(Apply(s, step), c)
  {
    StepTells(s, step, c);
    match step
    case DoQueue(d) => EnqueueTellsPlace(s, d, c);
    case DoExecute(d) =>
      EnqueueTellsPlace(s, d, c);
      LaunchPlaces(Enqueue(s, d), d);
      LaunchStores(Enqueue(s, d), d);
    case DoLaunch(d) => LaunchPlaces(s, d);
    case DoCancel(d, copy) => CancelPlaces(s, d, copy);
    case DoBegin => assert c in s.started + [s.pool[0]] <==> c in s.started || c == s.pool[0];
    case DoFinish(d, ok) => FinishPlaces(s, d, ok, c);
  }

  /** In every run the stored state of a command that was not cancelled tells where it is: not queued yet, waiting,
      running, or done; and a command answered with the future of another one is TERMINATED. */
  lemma {:induction false} StateTellsPlace(states: seq<System>, steps: seq<Step>, n: nat, c: Cmd)
    requires IsRun(states, steps) && states[0] == Init(states[0].threads) && n <= |steps|
    requires Uncancelled(steps, 0, n, c)
    ensures TellsPlace(states[n], c)
  {
    if n > 0 {
      StateTellsPlace(states, steps, n - 1, c);
      StoredIsTold(states, steps, n - 1, c);
      RunKeepsOneWay(states, steps, n - 1, c);
      StepTellsPlace(states[n - 1], steps[n - 1], c);
    }
  }

  // ---------------------------------------------------------------- end states

  lemma StaysIn(c: Cmd, s: System, s': System, d: Cmd, state: CommandState)
    requires OnlyOf(c, s, s') && d != c && IsIn(s, d, state)
    ensures IsIn(s', d, state)
  {
    assert d in s.mem - {c} && (s.mem - {c})[d] == s.mem[d];
    assert d in s'.mem - {c} && (s'.mem - {c})[d] == s'.mem[d];
    assert d in s.db <==> d in s.db - {c};
    assert d in s'.db <==> d in s'.db - {c};
    assert d in s.db ==> (s.db - {c})[d] == s.db[d];
    assert d in s'.db ==> (s'.db - {c})[d] == s'.db[d];
  }

  ghost predicate IsDone(s: System, c: Cmd) {
    OneWay(s, c) && (c in s.finished || c in s.coalesced)
  }

  /** A command that is done keeps its state until it is cancelled. */
  lemma StepKeepsEnd(s: System, step: Step, c: Cmd, state: CommandState)
    requires IsIn(s, c, state) && IsDone(s, c) && DbOk(s) && Enabled(s, step) && !Cancels(step, c)
    ensures IsIn(Apply(s, step), c, state)
    ensures c in s.finished ==> c in Apply(s, step).finished
    ensures c in s.coalesced ==> c in Apply(s, step).coalesced
  {
    var s' := Apply(s, step);
    match step
    case DoQueue(d) =>
      EnqueueStores(s, d);
      StaysIn(d, s, s', c, state);
    case DoExecute(d) =>
      EnqueueStores(s, d);
      LaunchStores(Enqueue(s, d), d);
      StaysIn(d, s, Enqueue(s, d), c, state);
    case DoLaunch(d) => LaunchStores(s, d);
    case DoCancel(d, copy) =>
      CancelPlaces(s, d, copy);
      CancelStores(s, d, copy);
      StaysIn(d, s, s', c, state);
    case DoBegin =>
      BeginStores(s);
      assert s.pool[0] in s.pool;
      StaysIn(s.pool[0], s, s', c, state);
    case DoFinish(d, ok) =>
      FinishPlaces(s, d, ok, c);
      FinishStores(s, d, ok);
      StaysIn(d, s, s', c, state);
  }

  lemma {:induction false} RunKeepsEnd(states: seq<System>, steps: seq<Step>, k: nat, n: nat, c: Cmd, state: CommandState)
    requires IsRun(states, steps) && states[0] == Init(states[0].threads) && k <= n <= |steps|
    requires IsIn(states[k], c, state) && IsDone(states[k], c) && Uncancelled(steps, k, n, c)
    ensures IsIn(states[n], c, state) && IsDone(states[n], c)
  {
    if k < n {
      RunKeepsEnd(states, steps, k, n - 1, c, state);
      StoredIsTold(states, steps, n - 1, c);
      RunKeepsOneWay(states, steps, n, c);
      StepKeepsEnd(states[n - 1], steps[n - 1], c, state);
    }
  }

  /** In every run a command whose action has come to its end is TERMINATED from then on if the action ran through and
      FAILED if not, as long as nobody cancels it; one that was cancelled before stays CANCELLED. */
  lemma EndState(states: seq<System>, steps: seq<Step>, k: nat, n: nat, c: Cmd, ok: bool)
    requires IsRun(states, steps) && states[0] == Init(states[0].threads) && k < n <= |steps|
    requires steps[k] == DoFinish(c, ok) && Uncancelled(steps, k, n, c)
    ensures c in states[k].mem
    ensures IsIn(states[n], c, if states[k].Stored(c) == Cancelled then Cancelled else if ok then Terminated else Failed)
  {
    StoredIsTold(states, steps, k, c);
    FinishStores(states[k], c, ok);
    FinishPlaces(states[k], c, ok, c);
    RunKeepsOneWay(states, steps, k + 1, c);
    RunKeepsEnd(states, steps, k + 1, n, c,
                if states[k].Stored(c) == Cancelled then Cancelled else if ok then Terminated else Failed);
  }

  /** One that is never cancelled is TERMINATED exactly when its action ran through. */
  lemma EndOfUncancelled(states: seq<System>, steps: seq<Step>, k: nat, n: nat, c: Cmd, ok: bool)
    requires IsRun(states, steps) && states[0] == Init(states[0].threads) && k < n <= |steps|
    requires steps[k] == DoFinish(c, ok) && Uncancelled(steps, 0, n, c)
    ensures IsIn(states[n], c, Terminated) <==> ok
    ensures IsIn(states[n], c, Failed) <==> !ok
  {
    StateTellsPlace(states, steps, k, c);
    EndState(states, steps, k, n, c, ok);
  }

  /** One that was answered with the future of another one is TERMINATED from then on until somebody cancels it. */
  lemma CoalescedState(states: seq<System>, steps: seq<Step>, k: nat, n: nat, c: Cmd)
    requires IsRun(states, steps) && states[0] == Init(states[0].threads) && k < n <= |steps|
    requires (steps[k] == DoQueue(c) || steps[k] == DoExecute(c)) && Uncancelled(steps, k + 1, n, c)
    requires exists d :: d in states[k].QueueOf(c.instance) && d.actionType == c.actionType
    ensures IsIn(states[n], c, Terminated)
  {
    var s := states[k];
    StoredIsTold(states, steps, k, c);
    EnqueueStores(s, c);
    LaunchStores(Enqueue(s, c), c);
    LaunchPlaces(Enqueue(s, c), c);
    RunKeepsOneWay(states, steps, k + 1, c);
    RunKeepsEnd(states, steps, k + 1, n, c, Terminated);
  }
}
