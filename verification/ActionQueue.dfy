/** The per-instance action queues as a transition system.

    One state is everything that the manager, the futures and the thread pool share. One step is one
    section run under the manager's lock, or one of the two things that happen outside it: the
    `run()` of a first future after the lock is released, and a worker taking the next runner.
    Commands are references: two commands are the same exactly when they are the same object. */
module ActionQueue {

  datatype CommandState = Pending | Queued | Running | Terminated | Failed | Cancelled

  datatype CommandType = Create | Start | Reboot | Shutdown | Delete | State | UpdateSecurityGroups

  datatype User = Nobody | Somebody(id: int)

  type Instance = int

  class InstanceCommand {
    const user: User
    const instance: Instance
    const actionType: CommandType
    var state: CommandState

    constructor (user: User, instance: Instance, actionType: CommandType)
      ensures this.user == user && this.instance == instance && this.actionType == actionType
      ensures state == Pending
    {
      this.user, this.instance, this.actionType := user, instance, actionType;
      state := Pending;
    }

    /** Only commands that have a user are ever written to the database. */
    predicate Persisted() {
      user.Somebody?
    }

    /** The part of `equals` that never changes. */
    predicate SameKey(that: InstanceCommand) {
      user == that.user && instance == that.instance && actionType == that.actionType
    }

    predicate Equals(that: InstanceCommand)
      reads this, that
    {
      this == that || (SameKey(that) && state == that.state)
    }
  }

  type Cmd = InstanceCommand

  // The life of a one-shot future: running it submits its runner to the pool, once.
  datatype FutureStatus = Fresh | Ran | Dead

  datatype System = System(
    queues: map<Instance, seq<Cmd>>,  // the deque of every instance that has one
    futures: map<Cmd, FutureStatus>,  // the future of every accepted command
    launching: set<Cmd>,              // accepted as first, lock released, future not run yet
    pool: seq<Cmd>,                   // submitted runners that wait for a thread
    running: set<Cmd>,                // runners that a thread is executing
    threads: nat,                     // size of the pool
    mem: map<Cmd, CommandState>,      // the state field of every command the manager has set
    db: map<Cmd, CommandState>,       // the stored state of every persisted command
    accepted: seq<Cmd>,               // history: commands put into a queue, in order
    coalesced: set<Cmd>,              // history: commands answered with the future of another one
    dropped: set<Cmd>,                // history: commands that cancel took out of a queue
    started: seq<Cmd>,                // history: onActionStart calls, in order
    finished: seq<Cmd>)               // history: onActionTerminated and onActionFailed calls, in order
  {
    function QueueOf(i: Instance): seq<Cmd> {
      if i in queues then queues[i] else []
    }

    /** What a finish handler reads before it decides whether the command was cancelled. */
    function Stored(c: Cmd): CommandState
      requires c in mem
    {
      if c in db then db[c] else mem[c]
    }

    predicate IsHead(c: Cmd) {
      QueueOf(c.instance) != [] && QueueOf(c.instance)[0] == c
    }
  }

  function Init(threads: nat): System {
    System(map[], map[], {}, [], {}, threads, map[], map[], [], {}, {}, [], [])
  }

  // ---------------------------------------------------------------- the steps

  function Save(s: System, c: Cmd, state: CommandState): System {
    s.(mem := s.mem[c := state], db := if c.Persisted() then s.db[c := state] else s.db)
  }

  predicate HasType(q: seq<Cmd>, t: CommandType) {
    exists k :: 0 <= k < |q| && q[k].actionType == t
  }

  /** The synchronized block of `queue`. */
  function Enqueue(s: System, c: Cmd): System {
    if HasType(s.QueueOf(c.instance), c.actionType) then
      Save(s, c, Terminated).(coalesced := s.coalesced + {c})
    else
      Save(s, c, Queued).(
        queues := s.queues[c.instance := s.QueueOf(c.instance) + [c]],
        futures := s.futures[c := Fresh],
        launching := if c.instance in s.queues then s.launching else s.launching + {c},
        accepted := s.accepted + [c])
  }

  /** `FutureTask.run`: a fresh future submits its runner, any other is left alone. */
  function RunFuture(s: System, c: Cmd): System {
    if c in s.futures && s.futures[c] == Fresh then
      s.(futures := s.futures[c := Ran], pool := s.pool + [c])
    else s
  }

  function Launch(s: System, c: Cmd): System {
    RunFuture(s.(launching := s.launching - {c}), c)
  }

  /** Whether the command given to `cancel` equals the command of entry `d`. `copy` says that it is
      not the queued object but a second one loaded from the database. Its state is Cancelled. */
  predicate Matches(s: System, c: Cmd, copy: bool, d: Cmd) {
    || (!copy && d == c)
    || (c.SameKey(d) && d in s.mem && s.mem[d] == Cancelled)
  }

  function Without(q: seq<Cmd>, gone: set<Cmd>): seq<Cmd> {
    if q == [] then []
    else Without(q[..|q| - 1], gone) + (if q[|q| - 1] in gone then [] else [q[|q| - 1]])
  }

  function MatchSet(s: System, c: Cmd, copy: bool, q: seq<Cmd>): set<Cmd> {
    set d | d in q && Matches(s, c, copy, d)
  }

  predicate AnyMatch(s: System, c: Cmd, copy: bool, q: seq<Cmd>) {
    exists k :: 0 <= k < |q| && Matches(s, c, copy, q[k])
  }

  /** The first entry that matches. */
  function FirstMatch(s: System, c: Cmd, copy: bool, q: seq<Cmd>): Cmd
    requires AnyMatch(s, c, copy, q)
  {
    if Matches(s, c, copy, q[0]) then q[0] else FirstMatch(s, c, copy, q[1..])
  }

  function KillFuture(s: System, c: Cmd): System {
    if c in s.futures && s.futures[c] == Fresh then s.(futures := s.futures[c := Dead]) else s
  }

  function Cancel(s: System, c: Cmd, copy: bool): System {
    var s1 := if copy then s.(db := s.db[c := Cancelled]) else Save(s, c, Cancelled);
    var q := s1.QueueOf(c.instance);
    if AnyMatch(s1, c, copy, q) then
      var gone := MatchSet(s1, c, copy, q);
      KillFuture(s1.(queues := s1.queues[c.instance := Without(q, gone)], dropped := s1.dropped + gone),
                 FirstMatch(s1, c, copy, q))
    else s1
  }

  /** `onActionStart` of the runner that has waited longest. */
  function Begin(s: System): System
    requires s.pool != []
  {
    Save(s.(pool := s.pool[1..], running := s.running + {s.pool[0]}, started := s.started + [s.pool[0]]),
         s.pool[0], Running)
  }

  function HandleNext(s: System, i: Instance): System {
    if i !in s.queues then s
    else
      var q := if s.queues[i] == [] then [] else s.queues[i][1..];
      if q == [] then s.(queues := s.queues - {i})
      else RunFuture(s.(queues := s.queues[i := q]), q[0])
  }

  /** `onActionTerminated` (ok) and `onActionFailed` (not ok), up to the call of the next action. */
  function Settle(s: System, c: Cmd, ok: bool): System
    requires c in s.mem
  {
    var s1 := s.(mem := s.mem[c := s.Stored(c)]);
    if s.Stored(c) == Cancelled then s1 else Save(s1, c, if ok then Terminated else Failed)
  }

  function Finish(s: System, c: Cmd, ok: bool): System
    requires c in s.mem
  {
    HandleNext(Settle(s, c, ok).(running := s.running - {c}, finished := s.finished + [c]), c.instance)
  }

  datatype Step =
    | DoQueue(c: Cmd)               // queue(InstanceAction): the synchronized block
    | DoLaunch(c: Cmd)              //   ... and the run() after it
    | DoExecute(c: Cmd)             // queue(InstanceCommand): both under one lock
    | DoCancel(c: Cmd, copy: bool)
    | DoBegin
    | DoFinish(c: Cmd, ok: bool)

  predicate Enabled(s: System, step: Step) {
    match step
    case DoQueue(c) => c !in s.futures && c !in s.coalesced
    case DoLaunch(c) => c in s.launching
    case DoExecute(c) => c !in s.futures && c !in s.coalesced
    case DoCancel(c, copy) => copy ==> c.Persisted()
    case DoBegin => s.pool != [] && |s.running| < s.threads
    case DoFinish(c, _) => c in s.running && c in s.mem
  }

  function Apply(s: System, step: Step): System
    requires Enabled(s, step)
  {
    match step
    case DoQueue(c) => Enqueue(s, c)
    case DoLaunch(c) => Launch(s, c)
    case DoExecute(c) =>
      var s1 := Enqueue(s, c);
      if c in s1.launching then Launch(s1, c) else s1
    case DoCancel(c, copy) => Cancel(s, c, copy)
    case DoBegin => Begin(s)
    case DoFinish(c, ok) => Finish(s, c, ok)
  }

  /** Cancel is called on no command that heads its queue; on a second copy it may be. */
  predicate Guarded(s: System, step: Step) {
    step.DoCancel? && !step.copy ==> !s.IsHead(step.c)
  }

  // ---------------------------------------------------------------- runs

  ghost predicate IsRun(states: seq<System>, steps: seq<Step>) {
    && |states| == |steps| + 1
    && forall k :: 0 <= k < |steps| ==> Enabled(states[k], steps[k]) && states[k + 1] == Apply(states[k], steps[k])
  }

  ghost predicate IsGuarded(states: seq<System>, steps: seq<Step>)
    requires IsRun(states, steps)
  {
    forall k :: 0 <= k < |steps| ==> Guarded(states[k], steps[k])
  }
}
