/** The manager, the futures and the dispatcher as objects, each method proved against the step of the
    transition system that it performs. */
module ActionManager {
  import opened ActionQueue
  import ActionSafety

  /** A one-shot future: running it hands its runner to the dispatcher unless it ran or was cancelled. */
  class InstanceActionFuture {
    const command: InstanceCommand
    var status: FutureStatus

    constructor (command: InstanceCommand)
      ensures this.command == command && status == Fresh
    {
      this.command := command;
      status := Fresh;
    }

    method Run(dispatcher: InstanceActionDispatcher)
      modifies this, dispatcher
      ensures status == if old(status) == Fresh then Ran else old(status)
      ensures dispatcher.pool == old(dispatcher.pool) + (if old(status) == Fresh then [command] else [])
    {
      if status == Fresh {
        status := Ran;
        dispatcher.Execute(command);
      }
    }

    method Cancel()
      modifies this
      ensures status == if old(status) == Fresh then Dead else old(status)
    {
      if status == Fresh {
        status := Dead;
      }
    }
  }

  /** The thread pool: runners leave its queue in the order they came. */
  class InstanceActionDispatcher {
    var pool: seq<InstanceCommand>

    constructor ()
      ensures pool == []
    {
      pool := [];
    }

    method Execute(runner: InstanceCommand)
      modifies this
      ensures pool == old(pool) + [runner]
    {
      pool := pool + [runner];
    }

    method Take() returns (runner: InstanceCommand)
      requires pool != []
      modifies this
      ensures runner == old(pool)[0] && pool == old(pool)[1..]
    {
      runner, pool := pool[0], pool[1..];
    }
  }

  class InstanceActionManager {
    const dispatcher: InstanceActionDispatcher
    var actions: map<Instance, seq<InstanceActionFuture>>
    var stored: map<InstanceCommand, CommandState>             // the command table
    ghost var sys: System                                      // the abstract state
    ghost var futureOf: map<InstanceCommand, InstanceActionFuture>

    /** The objects hold what the abstract state says. */
    ghost predicate Valid()
      reads this, dispatcher, futureOf.Values, sys.mem.Keys
    {
      DequesValid() && FuturesValid() && StatesValid() && dispatcher.pool == sys.pool
    }

    ghost predicate DequesValid()
      reads this
    {
      && MirrorsAll(futureOf, actions, sys.queues)
      && (forall c :: c in sys.pool ==> c in sys.futures)
      && (forall c :: c in sys.launching ==> c in sys.futures)
    }

    ghost predicate FuturesValid()
      reads this, futureOf.Values
    {
      && futureOf.Keys == sys.futures.Keys
      && sys.futures.Keys <= sys.mem.Keys
      && (forall c :: c in futureOf ==> futureOf[c].command == c && futureOf[c].status == sys.futures[c])
    }

    ghost predicate StatesValid()
      reads this, sys.mem.Keys
    {
      && stored == sys.db
      && (forall c :: c in sys.mem ==> c.state == sys.mem[c] && (c.Persisted() ==> c in stored))
      && (forall c :: c in stored ==> c.Persisted())
    }

    /** The object is in this state, and so is its row if it has one. */
    ghost predicate IsIn(command: InstanceCommand, state: CommandState)
      reads this`stored, command
    {
      && command.state == state
      && (if command.Persisted() then command in stored && stored[command] == state else command !in stored)
    }

    /** The deque holds, in order, the futures of the commands in `q`. */
    static ghost predicate Mirrors(futureOf: map<InstanceCommand, InstanceActionFuture>,
                                   futures: seq<InstanceActionFuture>, q: seq<InstanceCommand>) {
      && |futures| == |q|
      && forall k :: 0 <= k < |q| ==> q[k] in futureOf && futures[k] == futureOf[q[k]] && futures[k].command == q[k]
    }

    static ghost predicate MirrorsAll(futureOf: map<InstanceCommand, InstanceActionFuture>,
                                      actions: map<Instance, seq<InstanceActionFuture>>,
                                      queues: map<Instance, seq<InstanceCommand>>) {
      actions.Keys == queues.Keys && forall i :: i in actions ==> Mirrors(futureOf, actions[i], queues[i])
    }

    static lemma MirrorsAppend(futureOf: map<InstanceCommand, InstanceActionFuture>,
                               actions: map<Instance, seq<InstanceActionFuture>>,
                               queues: map<Instance, seq<InstanceCommand>>,
                               c: InstanceCommand, future: InstanceActionFuture)
      requires MirrorsAll(futureOf, actions, queues)
      requires c !in futureOf && future.command == c && c.instance in actions
      ensures MirrorsAll(futureOf[c := future],
                         actions[c.instance := actions[c.instance] + [future]],
                         queues[c.instance := queues[c.instance] + [c]])
    {
      forall i | i in actions ensures Mirrors(futureOf[c := future], actions[i], queues[i]) {
        assert Mirrors(futureOf, actions[i], queues[i]);
      }
    }

    constructor (threads: nat)
      ensures Valid() && fresh(dispatcher) && sys == Init(threads)
    {
      dispatcher := new InstanceActionDispatcher();
      actions, stored := map[], map[];
      sys, futureOf := Init(threads), map[];
    }

    /** `command.setState(state)` and `instanceCommandService.save(command)`. */
    method Save(command: InstanceCommand, state: CommandState)
      requires Valid()
      modifies this`stored, this`sys, command`state
      ensures Valid() && IsIn(command, state)
      ensures sys == ActionQueue.Save(old(sys), command, state)
    {
      command.state := state;
      if command.Persisted() {
        stored := stored[command := state];
      }
      sys := ActionQueue.Save(sys, command, state);
    }

    /** The place of the first future whose command has the given type, or the length of the deque. */
    method FindType(futures: seq<InstanceActionFuture>, t: CommandType, ghost q: seq<InstanceCommand>)
      returns (k: nat)
      requires Mirrors(futureOf, futures, q)
      ensures k <= |q| && (k < |q| <==> HasType(q, t))
      ensures k < |q| ==> q[k].actionType == t
    {
      k := 0;
      while k < |futures| && futures[k].command.actionType != t
        invariant k <= |futures|
        invariant forall j :: 0 <= j < k ==> q[j].actionType != t
      {
        k := k + 1;
      }
    }

    /** Makes sure that the instance has a deque; true when it had none. */
    method OpenDeque(instance: Instance) returns (isNew: bool)
      requires Valid()
      modifies this`actions, this`sys
      ensures Valid() && isNew == (instance !in old(actions)) && instance in actions
      ensures sys == old(sys).(queues := old(sys).queues[instance := old(sys).QueueOf(instance)])
    {
      isNew := instance !in actions;
      if isNew {
        actions := actions[instance := []];
        sys := sys.(queues := sys.queues[instance := []]);
      }
    }

    /** Marks a command whose type is already queued as done. */
    method Coalesce(command: InstanceCommand)
      requires Valid()
      modifies this`stored, this`sys, command`state
      ensures Valid() && IsIn(command, Terminated)
      ensures sys == ActionQueue.Save(old(sys), command, Terminated).(coalesced := old(sys).coalesced + {command})
    {
      Save(command, Terminated);
      sys := sys.(coalesced := sys.coalesced + {command});
    }

    /** A new future for the command at the end of an existing deque. */
    method Append(command: InstanceCommand, ghost first: bool) returns (future: InstanceActionFuture)
      requires Valid() && command !in sys.futures && command in sys.mem && command.instance in actions
      modifies this`actions, this`futureOf, this`sys
      ensures Valid() && fresh(future) && future.command == command
      ensures futureOf == old(futureOf)[command := future]
      ensures sys == old(sys).(
                queues := old(sys).queues[command.instance := old(sys).queues[command.instance] + [command]],
                futures := old(sys).futures[command := Fresh],
                launching := if first then old(sys).launching + {command} else old(sys).launching,
                accepted := old(sys).accepted + [command])
    {
      future := new InstanceActionFuture(command);
      MirrorsAppend(futureOf, actions, sys.queues, command, future);
      actions := actions[command.instance := actions[command.instance] + [future]];
      futureOf := futureOf[command := future];
      sys := sys.(queues := sys.queues[command.instance := sys.queues[command.instance] + [command]],
                  futures := sys.futures[command := Fresh],
                  launching := if first then sys.launching + {command} else sys.launching,
                  accepted := sys.accepted + [command]);
    }

    /** Opening the deque first makes no difference to what the block does. */
    static lemma EnqueueInSteps(s: System, c: InstanceCommand)
      ensures var s1 := s.(queues := s.queues[c.instance := s.QueueOf(c.instance)]);
              if HasType(s.QueueOf(c.instance), c.actionType) then
                Enqueue(s, c) == ActionQueue.Save(s1, c, Terminated).(coalesced := s.coalesced + {c})
              else
                Enqueue(s, c) == ActionQueue.Save(s1, c, Queued).(
                  queues := s1.queues[c.instance := s1.queues[c.instance] + [c]],
                  futures := s.futures[c := Fresh],
                  launching := if c.instance !in s.queues then s.launching + {c} else s.launching,
                  accepted := s.accepted + [c])
    {
      if HasType(s.QueueOf(c.instance), c.actionType) {
        assert s.queues[c.instance := s.QueueOf(c.instance)] == s.queues;
      } else {
        var q := s.QueueOf(c.instance);
        assert s.queues[c.instance := q][c.instance := q + [c]] == s.queues[c.instance := q + [c]];
      }
    }

    /** The synchronized block of `queue(InstanceAction)`: a command of a type that is already queued is
        answered with the future of the queued one, any other is put at the end of its deque. */
    method Accept(command: InstanceCommand) returns (future: InstanceActionFuture, doExecute: bool)
      requires Valid() && command !in sys.futures && command !in sys.coalesced
      modifies this`actions, this`stored, this`futureOf, this`sys, command`state
      ensures Valid() && sys == Enqueue(old(sys), command)
      ensures doExecute == (command.instance !in old(actions))
      ensures future.command.actionType == command.actionType
      ensures future.command in futureOf && futureOf[future.command] == future
      ensures (future.command == command && fresh(future)) || future.command in old(sys).QueueOf(command.instance)
      ensures IsIn(command, if fresh(future) then Queued else Terminated)
    {
      EnqueueInSteps(sys, command);
      doExecute := OpenDeque(command.instance);
      var actionQueue := actions[command.instance];
      ghost var q := sys.queues[command.instance];
      assert Mirrors(futureOf, actionQueue, q);
      var k := FindType(actionQueue, command.actionType, q);
      if k < |actionQueue| {
        future := actionQueue[k];
        assert q[k] in q;
        Coalesce(command);
      } else {
        Save(command, Queued);
        future := Append(command, doExecute);
      }
    }

    method RunFuture(future: InstanceActionFuture)
      requires Valid() && future.command in futureOf && futureOf[future.command] == future
      modifies this`sys, dispatcher, future
      ensures Valid() && sys == ActionQueue.RunFuture(old(sys), future.command)
    {
      future.Run(dispatcher);
      sys := ActionQueue.RunFuture(sys, future.command);
    }

    /** `run()` on a first future, after the lock was released. */
    method Launch(future: InstanceActionFuture)
      requires Valid() && future.command in futureOf && futureOf[future.command] == future
      modifies this`sys, dispatcher, future
      ensures Valid() && sys == ActionQueue.Launch(old(sys), future.command)
    {
      sys := sys.(launching := sys.launching - {future.command});
      RunFuture(future);
    }

    /** `queue(InstanceCommand)`: the lock is held throughout. */
    method Execute(command: InstanceCommand) returns (future: InstanceActionFuture)
      requires Valid() && Enabled(sys, DoExecute(command))
      modifies this, dispatcher, command`state
      ensures Valid() && sys == Apply(old(sys), DoExecute(command))
      ensures future.command.actionType == command.actionType
    {
      var doExecute: bool;
      future, doExecute := Accept(command);
      if doExecute {
        Launch(future);
      }
    }

    /** The place of the first entry whose command equals the given one, or the length of the deque. */
    method FindEqual(futures: seq<InstanceActionFuture>, command: InstanceCommand) returns (k: nat)
      ensures k <= |futures|
      ensures forall j :: 0 <= j < k ==> !futures[j].command.Equals(command)
      ensures k < |futures| ==> futures[k].command.Equals(command)
    {
      k := 0;
      while k < |futures| && !futures[k].command.Equals(command)
        invariant k <= |futures|
        invariant forall j :: 0 <= j < k ==> !futures[j].command.Equals(command)
      {
        k := k + 1;
      }
    }

    /** `removeIf`: the entries whose command does not equal the given one, in order. */
    method RemoveEqual(futures: seq<InstanceActionFuture>, command: InstanceCommand, ghost q: seq<InstanceCommand>,
                       ghost gone: set<InstanceCommand>)
      returns (kept: seq<InstanceActionFuture>)
      requires Mirrors(futureOf, futures, q)
      requires forall k :: 0 <= k < |q| ==> (q[k] in gone <==> q[k].Equals(command))
      ensures Mirrors(futureOf, kept, Without(q, gone))
    {
      kept := [];
      for k := 0 to |futures|
        invariant Mirrors(futureOf, kept, Without(q[..k], gone))
      {
        assert q[..k + 1] == q[..k] + [q[k]];
        ActionSafety.WithoutAppend(q[..k], q[k], gone);
        if !futures[k].command.Equals(command) {
          kept := kept + [futures[k]];
        }
      }
      assert q[..|q|] == q;
    }

    static lemma {:induction false} FirstMatchAt(s: System, c: InstanceCommand, copy: bool, q: seq<InstanceCommand>, k: nat)
      requires k < |q| && Matches(s, c, copy, q[k])
      requires forall j :: 0 <= j < k ==> !Matches(s, c, copy, q[j])
      ensures AnyMatch(s, c, copy, q) && FirstMatch(s, c, copy, q) == q[k]
    {
      if k > 0 {
        assert q[1..][k - 1] == q[k];
        FirstMatchAt(s, c, copy, q[1..], k - 1);
      }
    }

    /** The state set first by `cancel`, on the object it was given and in the row of that object. */
    method SetCancelled(command: InstanceCommand, row: InstanceCommand)
      requires Valid() && IsObjectOf(command, row)
      modifies this`stored, this`sys, command`state
      ensures Valid() && command.state == Cancelled
      ensures sys == if command != row then old(sys).(db := old(sys).db[row := Cancelled])
                     else ActionQueue.Save(old(sys), row, Cancelled)
    {
      command.state := Cancelled;
      if row.Persisted() {
        stored := stored[row := Cancelled];
      }
      sys := if command != row then sys.(db := sys.db[row := Cancelled])
             else ActionQueue.Save(sys, row, Cancelled);
    }

    /** `command` is the object handed to `queue`, or a second object loaded from its row. */
    ghost predicate IsObjectOf(command: InstanceCommand, row: InstanceCommand)
      reads this`sys
    {
      command == row || (command !in sys.mem && command.SameKey(row) && row.Persisted())
    }

    /** For an entry, `equals` on the objects is the match of the abstract state. */
    lemma EqualsIsMatch(command: InstanceCommand, row: InstanceCommand, d: InstanceCommand)
      requires Valid() && IsObjectOf(command, row) && command.state == Cancelled
      requires d in sys.mem
      ensures d.Equals(command) <==> Matches(sys, row, command != row, d)
      ensures d.Equals(command)
              <==> d == command || (d.user == command.user && d.instance == command.instance
                                    && d.actionType == command.actionType && d.state == command.state)
    {
    }

    lemma EntriesMatch(command: InstanceCommand, row: InstanceCommand)
      requires Valid() && IsObjectOf(command, row) && command.state == Cancelled
      requires command.instance in actions
      ensures forall d :: d in sys.queues[command.instance] ==>
                (d.Equals(command) <==> Matches(sys, row, command != row, d))
    {
      var q := sys.queues[command.instance];
      assert Mirrors(futureOf, actions[command.instance], q);
      forall d | d in q ensures d.Equals(command) <==> Matches(sys, row, command != row, d) {
        EqualsIsMatch(command, row, d);
      }
    }

    /** The entries that equal the command leave its deque; the future of the first one is cancelled. */
    method TakeOut(command: InstanceCommand, ghost row: InstanceCommand, k: nat)
      requires Valid() && IsObjectOf(command, row) && command.state == Cancelled
      requires command.instance in actions && k < |actions[command.instance]|
      requires actions[command.instance][k].command.Equals(command)
      requires forall j :: 0 <= j < k ==> !actions[command.instance][j].command.Equals(command)
      modifies this`actions, this`sys, futureOf.Values
      ensures Valid()
      ensures var s, q := old(sys), old(sys).queues[command.instance];
              var gone := MatchSet(s, row, command != row, q);
              && AnyMatch(s, row, command != row, q)
              && sys == KillFuture(s.(queues := s.queues[command.instance := Without(q, gone)],
                                      dropped := s.dropped + gone),
                                   FirstMatch(s, row, command != row, q))
    {
      ghost var q := sys.queues[command.instance];
      var future := actions[command.instance][k];
      assert Mirrors(futureOf, actions[command.instance], q);
      EntriesMatch(command, row);
      FirstMatchAt(sys, row, command != row, q, k);
      DropEqual(command, row);
      Kill(future);
    }

    /** `removeIf` */
    method DropEqual(command: InstanceCommand, ghost row: InstanceCommand)
      requires Valid() && IsObjectOf(command, row) && command.state == Cancelled && command.instance in actions
      modifies this`actions, this`sys
      ensures Valid() && actions.Keys == old(actions.Keys)
      ensures var s, q := old(sys), old(sys).queues[command.instance];
              var gone := MatchSet(s, row, command != row, q);
              sys == s.(queues := s.queues[command.instance := Without(q, gone)], dropped := s.dropped + gone)
    {
      ghost var q := sys.queues[command.instance];
      ghost var gone := MatchSet(sys, row, command != row, q);
      assert Mirrors(futureOf, actions[command.instance], q);
      EntriesMatch(command, row);
      var kept := RemoveEqual(actions[command.instance], command, q, gone);
      actions := actions[command.instance := kept];
      sys := sys.(queues := sys.queues[command.instance := Without(q, gone)], dropped := sys.dropped + gone);
    }

    method Kill(future: InstanceActionFuture)
      requires Valid() && future.command in futureOf && futureOf[future.command] == future
      modifies this`sys, future
      ensures Valid() && sys == KillFuture(old(sys), future.command)
    {
      future.Cancel();
      sys := KillFuture(sys, future.command);
    }

    /** `cancel` on the queued object itself (`command == row`) or on a copy of it. */
    method Cancel(command: InstanceCommand, row: InstanceCommand)
      requires Valid() && IsObjectOf(command, row)
      modifies this`actions, this`stored, this`sys, command`state, futureOf.Values
      ensures Valid() && sys == ActionQueue.Cancel(old(sys), row, command != row)
      ensures command.state == Cancelled && (row.Persisted() ==> row in stored && stored[row] == Cancelled)
    {
      SetCancelled(command, row);
      CancelQueued(command, row);
    }

    /** The search for the command in its deque, and what follows when it is there. */
    method CancelQueued(command: InstanceCommand, ghost row: InstanceCommand)
      requires Valid() && IsObjectOf(command, row) && command.state == Cancelled
      modifies this`actions, this`sys, futureOf.Values
      ensures Valid()
      ensures var s, copy, q := old(sys), command != row, old(sys).QueueOf(row.instance);
              sys == if AnyMatch(s, row, copy, q) then
                       KillFuture(s.(queues := s.queues[row.instance := Without(q, MatchSet(s, row, copy, q))],
                                     dropped := s.dropped + MatchSet(s, row, copy, q)),
                                  FirstMatch(s, row, copy, q))
                     else s
    {
      if command.instance in actions {
        assert Mirrors(futureOf, actions[command.instance], sys.queues[command.instance]);
        EntriesMatch(command, row);
        var k := FindEqual(actions[command.instance], command);
        if k < |actions[command.instance]| {
          TakeOut(command, row, k);
        }
      }
    }

    /** The first action of the instance is done: the next one is submitted, or the deque goes. */
    method HandleNext(instance: Instance)
      requires Valid()
      modifies this`actions, this`sys, dispatcher, futureOf.Values
      ensures Valid() && sys == ActionQueue.HandleNext(old(sys), instance)
    {
      if instance in actions {
        var actionQueue := actions[instance];
        assert Mirrors(futureOf, actionQueue, sys.queues[instance]);
        if |actionQueue| > 0 {
          actionQueue := actionQueue[1..];
        }
        if |actionQueue| > 0 {
          actions := actions[instance := actionQueue];
          sys := sys.(queues := sys.queues[instance := sys.queues[instance][1..]]);
          RunFuture(actionQueue[0]);
        } else {
          actions := actions - {instance};
          sys := sys.(queues := sys.queues - {instance});
        }
      }
    }

    /** A worker takes the runner that has waited longest; its `call` begins with `onActionStart`. */
    method Begin() returns (command: InstanceCommand)
      requires Valid() && sys.pool != []
      modifies this`stored, this`sys, dispatcher, sys.mem.Keys
      ensures Valid() && sys == ActionQueue.Begin(old(sys))
      ensures command == old(sys.pool)[0] && IsIn(command, Running)
    {
      command := dispatcher.Take();
      sys := sys.(pool := sys.pool[1..], running := sys.running + {command}, started := sys.started + [command]);
      Save(command, Running);
    }

    /** The end of `call`: `onActionTerminated` when the action ran through, else `onActionFailed`. */
    method Finish(command: InstanceCommand, ok: bool)
      requires Valid() && Enabled(sys, DoFinish(command, ok))
      modifies this`actions, this`stored, this`sys, dispatcher, sys.mem.Keys, futureOf.Values
      ensures Valid() && sys == ActionQueue.Finish(old(sys), command, ok)
      ensures var cancelled := old(if command in stored then stored[command] else command.state) == Cancelled;
              IsIn(command, if cancelled then Cancelled else if ok then Terminated else Failed)
    {
      End(command, ok);
      HandleNext(command.instance);
    }

    /** Up to the call of the next action. */
    method End(command: InstanceCommand, ok: bool)
      requires Valid() && command in sys.mem
      modifies this`stored, this`sys, command`state
      ensures Valid()
      ensures sys == ActionQueue.Settle(old(sys), command, ok).(running := old(sys).running - {command},
                                                                finished := old(sys).finished + [command])
      ensures var cancelled := old(if command in stored then stored[command] else command.state) == Cancelled;
              IsIn(command, if cancelled then Cancelled else if ok then Terminated else Failed)
    {
      Settle(command, ok);
      sys := sys.(running := sys.running - {command}, finished := sys.finished + [command]);
    }

    method Settle(command: InstanceCommand, ok: bool)
      requires Valid() && command in sys.mem
      modifies this`stored, this`sys, command`state
      ensures Valid() && sys == ActionQueue.Settle(old(sys), command, ok)
      ensures var cancelled := old(if command in stored then stored[command] else command.state) == Cancelled;
              IsIn(command, if cancelled then Cancelled else if ok then Terminated else Failed)
    {
      if command in stored {
        command.state := stored[command];
      }
      sys := sys.(mem := sys.mem[command := sys.Stored(command)]);
      if command.state != Cancelled {
        Save(command, if ok then Terminated else Failed);
      }
    }
  }
}
