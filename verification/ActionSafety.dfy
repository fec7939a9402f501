/** What every step of the action queues keeps, and what follows for whole runs. */
module ActionSafety {
  import opened Basics
  import opened ActionQueue

  // ---------------------------------------------------------------- the invariant

  predicate NoDup(q: seq<Cmd>) {
    forall j, k :: 0 <= j < k < |q| ==> q[j] != q[k]
  }

  predicate DistinctTypes(q: seq<Cmd>) {
    forall j, k :: 0 <= j < k < |q| ==> q[j].actionType != q[k].actionType
  }

  /** The runner was handed to the pool, or is about to be, and its finish handler has not run. */
  predicate Active(s: System, c: Cmd) {
    c in s.launching || c in s.pool || c in s.running
  }

  ghost predicate EntryOk(s: System, i: Instance, c: Cmd) {
    c.instance == i && c in s.futures && c in s.mem && s.mem[c] != Cancelled
  }

  ghost predicate WaitingOk(s: System, c: Cmd) {
    c in s.futures && s.futures[c] == Fresh && !Active(s, c)
  }

  /** A queue has a head, holds one entry per type, and only its head has left the waiting state. */
  ghost predicate QueueOk(s: System, i: Instance, q: seq<Cmd>) {
    && q != []
    && DistinctTypes(q)
    && (forall k :: 0 <= k < |q| ==> EntryOk(s, i, q[k]))
    && Active(s, q[0])
    && (forall k :: 1 <= k < |q| ==> WaitingOk(s, q[k]))
  }

  /** An active command heads its queue and is in one place only, which its future agrees with. */
  ghost predicate ActiveOk(s: System, c: Cmd) {
    && s.IsHead(c)
    && c in s.futures
    && c in s.mem
    && (c in s.launching ==> s.futures[c] == Fresh && c !in s.pool && c !in s.running)
    && (c in s.pool ==> s.futures[c] == Ran && c !in s.running)
    && (c in s.running ==> s.futures[c] == Ran)
  }

  ghost predicate Queues(s: System) {
    forall i :: i in s.queues ==> QueueOk(s, i, s.queues[i])
  }

  ghost predicate Actives(s: System) {
    && (forall c :: c in s.launching ==> ActiveOk(s, c))
    && (forall c :: c in s.pool ==> ActiveOk(s, c))
    && (forall c :: c in s.running ==> ActiveOk(s, c))
    && NoDup(s.pool)
    && |s.running| <= s.threads
  }

  ghost predicate Shape(s: System) {
    Queues(s) && Actives(s)
  }

  /** The commands of one instance, in log order. */
  function Of(i: Instance, log: seq<Cmd>): seq<Cmd> {
    if log == [] then []
    else Of(i, log[..|log| - 1]) + (if log[|log| - 1].instance == i then [log[|log| - 1]] else [])
  }

  function RunningHead(s: System, i: Instance): seq<Cmd> {
    var q := s.QueueOf(i);
    if q != [] && q[0] in s.running then [q[0]] else []
  }

  /** Accepted minus cancelled is finished ++ queue. */
  ghost predicate KeptOk(s: System, i: Instance) {
    Of(i, Without(s.accepted, s.dropped)) == Of(i, s.finished) + s.QueueOf(i)
  }

  /** Started is finished ++ the running head. */
  ghost predicate StartedOk(s: System, i: Instance) {
    Of(i, s.started) == Of(i, s.finished) + RunningHead(s, i)
  }

  ghost predicate Conservation(s: System) {
    forall i :: KeptOk(s, i) && StartedOk(s, i)
  }

  /** The accepted commands are those with a future, each accepted once; the logs hold no others. */
  ghost predicate Logs(s: System) {
    && NoDup(s.accepted)
    && (forall c :: c in s.accepted ==> c in s.futures)
    && (forall c :: c in s.futures ==> c in s.accepted)
    && (forall c :: c in s.started ==> c in s.futures && s.futures[c] == Ran)
    && (forall c :: c in s.finished ==> c in s.futures && s.futures[c] == Ran)
    && (forall c :: c in s.db ==> c.Persisted())
  }

  /** A command cancelled while it waited is out of its queue, never started, and stays cancelled. */
  ghost predicate DroppedOk(s: System, c: Cmd) {
    && c in s.futures
    && c !in s.started
    && c !in s.QueueOf(c.instance)
    && c in s.mem
    && s.mem[c] == Cancelled
    && s.Stored(c) == Cancelled
  }

  /** A coalesced command never gets a future, hence is never started, and is done. */
  ghost predicate CoalescedOk(s: System, c: Cmd) {
    c !in s.futures && c in s.mem && s.Stored(c) in {Terminated, Cancelled}
  }

  ghost predicate Fates(s: System) {
    && (forall c :: c in s.dropped ==> DroppedOk(s, c))
    && (forall c :: c in s.coalesced ==> CoalescedOk(s, c))
  }

  ghost predicate History(s: System) {
    Logs(s) && Fates(s)
  }

  ghost predicate Inv(s: System) {
    Shape(s) && Conservation(s) && History(s)
  }

  // ---------------------------------------------------------------- logs

  lemma OfAppend(i: Instance, log: seq<Cmd>, c: Cmd)
    ensures Of(i, log + [c]) == Of(i, log) + (if c.instance == i then [c] else [])
  {
    assert (log + [c])[..|log|] == log;
  }

  lemma WithoutAppend(log: seq<Cmd>, c: Cmd, gone: set<Cmd>)
    ensures Without(log + [c], gone) == Without(log, gone) + (if c in gone then [] else [c])
  {
    assert (log + [c])[..|log|] == log;
  }

  lemma {:induction false} OfMembers(i: Instance, log: seq<Cmd>)
    ensures forall c :: c in Of(i, log) ==> c in log && c.instance == i
    ensures forall c :: c in log && c.instance == i ==> c in Of(i, log)
  {
    if log != [] {
      OfMembers(i, log[..|log| - 1]);
      assert log == log[..|log| - 1] + [log[|log| - 1]];
    }
  }

  lemma {:induction false} WithoutMembers(log: seq<Cmd>, gone: set<Cmd>)
    ensures forall c :: c in Without(log, gone) ==> c in log && c !in gone
    ensures forall c :: c in log && c !in gone ==> c in Without(log, gone)
  {
    if log != [] {
      WithoutMembers(log[..|log| - 1], gone);
      assert log == log[..|log| - 1] + [log[|log| - 1]];
    }
  }

  lemma {:induction false} WithoutMore(log: seq<Cmd>, gone: set<Cmd>, more: set<Cmd>)
    ensures Without(log, gone + more) == Without(Without(log, gone), more)
  {
    if log != [] {
      var init, last := log[..|log| - 1], log[|log| - 1];
      WithoutMore(init, gone, more);
      if last !in gone {
        WithoutAppend(Without(init, gone), last, more);
      } else {
        assert Without(log, gone) == Without(init, gone);
      }
    }
  }

  lemma {:induction false} OfWithout(i: Instance, log: seq<Cmd>, gone: set<Cmd>)
    ensures Of(i, Without(log, gone)) == Without(Of(i, log), gone)
  {
    if log != [] {
      var init, last := log[..|log| - 1], log[|log| - 1];
      OfWithout(i, init, gone);
      if last !in gone {
        OfAppend(i, Without(init, gone), last);
      } else {
        assert Without(log, gone) == Without(init, gone);
      }
      if last.instance == i {
        WithoutAppend(Of(i, init), last, gone);
      } else {
        assert Of(i, log) == Of(i, init);
      }
    }
  }

  lemma {:induction false} WithoutConcat(a: seq<Cmd>, b: seq<Cmd>, gone: set<Cmd>)
    ensures Without(a + b, gone) == Without(a, gone) + Without(b, gone)
  {
    if b == [] {
      assert a + b == a;
    } else {
      var init, last := b[..|b| - 1], b[|b| - 1];
      WithoutConcat(a, init, gone);
      assert a + b == (a + init) + [last];
      WithoutAppend(a + init, last, gone);
    }
  }

  lemma {:induction false} WithoutNone(log: seq<Cmd>, gone: set<Cmd>)
    requires forall c :: c in log ==> c !in gone
    ensures Without(log, gone) == log
  {
    if log != [] {
      WithoutNone(log[..|log| - 1], gone);
      assert log == log[..|log| - 1] + [log[|log| - 1]];
    }
  }

  // ---------------------------------------------------------------- one step at a time

  lemma EnqueueQueues(s: System, c: Cmd)
    requires Shape(s) && c !in s.futures
    ensures Queues(Enqueue(s, c))
  {
    var s' := Enqueue(s, c);
    forall i | i in s'.queues ensures QueueOk(s', i, s'.queues[i]) {
      if i in s.queues {
        assert QueueOk(s, i, s.queues[i]);
      }
    }
  }

  lemma EnqueueActives(s: System, c: Cmd)
    requires Shape(s) && c !in s.futures
    ensures Actives(Enqueue(s, c))
  {
    var s' := Enqueue(s, c);
    forall d | Active(s', d) ensures ActiveOk(s', d) {
      if d != c {
        assert ActiveOk(s, d);
      }
    }
  }

  lemma KeptAppend(i: Instance, accepted: seq<Cmd>, dropped: set<Cmd>, c: Cmd)
    requires c !in dropped
    ensures Of(i, Without(accepted + [c], dropped))
         == Of(i, Without(accepted, dropped)) + (if c.instance == i then [c] else [])
  {
    WithoutAppend(accepted, c, dropped);
    OfAppend(i, Without(accepted, dropped), c);
  }

  lemma EnqueueKept(s: System, c: Cmd, i: Instance)
    requires KeptOk(s, i) && c !in s.dropped
    ensures KeptOk(Enqueue(s, c), i)
  {
    var own := if c.instance == i then [c] else [];
    if !HasType(s.QueueOf(c.instance), c.actionType) {
      KeptAppend(i, s.accepted, s.dropped, c);
      assert Enqueue(s, c).QueueOf(i) == s.QueueOf(i) + own;
      Assoc(Of(i, s.finished), s.QueueOf(i), own);
    }
  }

  lemma EnqueueConservation(s: System, c: Cmd)
    requires Conservation(s) && c !in s.dropped && c !in s.running
    ensures Conservation(Enqueue(s, c))
  {
    var s' := Enqueue(s, c);
    forall i ensures KeptOk(s', i) && StartedOk(s', i) {
      assert KeptOk(s, i) && StartedOk(s, i);
      EnqueueKept(s, c, i);
      assert RunningHead(s', i) == RunningHead(s, i);
    }
  }

  lemma EnqueueLogs(s: System, c: Cmd)
    requires Logs(s) && c !in s.futures
    ensures Logs(Enqueue(s, c))
  {
    assert c !in s.accepted;
  }

  lemma EnqueueFates(s: System, c: Cmd)
    requires History(s) && c !in s.futures && c !in s.coalesced
    ensures Fates(Enqueue(s, c))
  {
    var s' := Enqueue(s, c);
    forall d | d in s'.dropped ensures DroppedOk(s', d) {
      assert DroppedOk(s, d);
    }
    forall d | d in s'.coalesced ensures CoalescedOk(s', d) {
      assert d != c ==> CoalescedOk(s, d);
    }
  }

  lemma LaunchShape(s: System, c: Cmd)
    requires Shape(s) && c in s.launching
    ensures Shape(Launch(s, c))
  {
    var s' := Launch(s, c);
    assert ActiveOk(s, c);
    forall i | i in s'.queues ensures QueueOk(s', i, s'.queues[i]) {
      assert QueueOk(s, i, s.queues[i]);
    }
    forall d | Active(s', d) ensures ActiveOk(s', d) {
      assert ActiveOk(s, d);
    }
  }

  lemma SameLogs(s: System, s': System)
    requires Conservation(s)
    requires s'.accepted == s.accepted && s'.dropped == s.dropped && s'.started == s.started
    requires s'.finished == s.finished && s'.queues == s.queues && s'.running == s.running
    ensures Conservation(s')
  {
    forall i ensures KeptOk(s', i) && StartedOk(s', i) {
      assert KeptOk(s, i) && StartedOk(s, i);
    }
  }

  lemma LaunchHistory(s: System, c: Cmd)
    requires History(s)
    ensures History(Launch(s, c))
  {
  }

  lemma BeginQueue(s: System, i: Instance)
    requires Shape(s) && s.pool != [] && i in s.queues
    ensures QueueOk(Begin(s), i, s.queues[i])
  {
    assert ActiveOk(s, s.pool[0]);
    assert QueueOk(s, i, s.queues[i]);
  }

  lemma BeginActive(s: System, d: Cmd)
    requires Shape(s) && s.pool != [] && Active(Begin(s), d)
    ensures ActiveOk(Begin(s), d)
  {
    assert ActiveOk(s, s.pool[0]);
    assert ActiveOk(s, d);
  }

  lemma BeginPool(s: System)
    requires Actives(s) && s.pool != [] && |s.running| < s.threads
    ensures NoDup(Begin(s).pool) && |Begin(s).running| <= s.threads
  {
  }

  lemma BeginQueues(s: System)
    requires Shape(s) && s.pool != []
    ensures Queues(Begin(s))
  {
    forall i | i in s.queues ensures QueueOk(Begin(s), i, s.queues[i]) {
      BeginQueue(s, i);
    }
  }

  lemma BeginActives(s: System)
    requires Shape(s) && s.pool != [] && |s.running| < s.threads
    ensures Actives(Begin(s))
  {
    BeginPool(s);
    forall d | Active(Begin(s), d) ensures ActiveOk(Begin(s), d) {
      BeginActive(s, d);
    }
  }

  lemma BeginShape(s: System)
    requires Shape(s) && s.pool != [] && |s.running| < s.threads
    ensures Shape(Begin(s))
  {
    BeginQueues(s);
    BeginActives(s);
  }

  lemma BeginConservation(s: System)
    requires Shape(s) && Conservation(s) && s.pool != []
    ensures Conservation(Begin(s))
  {
    var s', c := Begin(s), s.pool[0];
    assert ActiveOk(s, c);
    forall i ensures KeptOk(s', i) && StartedOk(s', i) {
      assert KeptOk(s, i) && StartedOk(s, i);
      OfAppend(i, s.started, c);
      var q := s.QueueOf(i);
      if q != [] {
        assert QueueOk(s, i, q);
      }
    }
  }

  lemma BeginHistory(s: System)
    requires Shape(s) && History(s) && s.pool != []
    ensures History(Begin(s))
  {
    var s', c := Begin(s), s.pool[0];
    assert ActiveOk(s, c);
    forall d | d in s'.dropped ensures DroppedOk(s', d) {
      assert DroppedOk(s, d);
      assert c in s.QueueOf(c.instance);
    }
    forall d | d in s'.coalesced ensures CoalescedOk(s', d) {
      assert CoalescedOk(s, d);
    }
  }

  /** What cancel does in a good state: a queued command itself is the one entry that matches. */
  lemma CancelEffect(s: System, c: Cmd, copy: bool)
    requires Queues(s)
    ensures var s1 := if copy then s.(db := s.db[c := Cancelled]) else Save(s, c, Cancelled);
            var q := s.QueueOf(c.instance);
            Cancel(s, c, copy) ==
              if !copy && c in q then
                KillFuture(s1.(queues := s.queues[c.instance := Without(q, {c})], dropped := s.dropped + {c}), c)
              else s1
  {
    var s1 := if copy then s.(db := s.db[c := Cancelled]) else Save(s, c, Cancelled);
    var q := s.QueueOf(c.instance);
    assert s1.QueueOf(c.instance) == q;
    assert q != [] ==> QueueOk(s, c.instance, q);
    assert forall k :: 0 <= k < |q| ==> EntryOk(s, c.instance, q[k]);
    assert forall k :: 0 <= k < |q| ==> (Matches(s1, c, copy, q[k]) <==> !copy && q[k] == c);
    if !copy && c in q {
      FirstMatchIs(s1, c, q);
      assert MatchSet(s1, c, copy, q) == {c};
    }
  }

  lemma {:induction false} FirstMatchIs(s: System, c: Cmd, q: seq<Cmd>)
    requires c in q
    requires forall k :: 0 <= k < |q| ==> (Matches(s, c, false, q[k]) <==> q[k] == c)
    ensures AnyMatch(s, c, false, q)
    ensures FirstMatch(s, c, false, q) == c
  {
    var k :| 0 <= k < |q| && q[k] == c;
    assert Matches(s, c, false, q[k]);
    if q[0] != c {
      assert c in q[1..];
      FirstMatchIs(s, c, q[1..]);
    }
  }

  lemma Pieces<T>(q: seq<T>, k: nat)
    requires k < |q|
    ensures q == q[..k] + [q[k]] + q[k + 1..]
  {
  }

  /** Taking a waiting entry out leaves the head and the order of the rest. */
  lemma {:induction false} WithoutOne(q: seq<Cmd>, k: nat)
    requires 0 < k < |q| && DistinctTypes(q)
    ensures Without(q, {q[k]}) == q[..k] + q[k + 1..]
  {
    var a, x, b := q[..k], q[k], q[k + 1..];
    Pieces(q, k);
    WithoutConcat(a + [x], b, {x});
    WithoutAppend(a, x, {x});
    WithoutNone(a, {x});
    WithoutNone(b, {x});
  }

  lemma WithoutHead(q: seq<Cmd>)
    requires q != [] && DistinctTypes(q)
    ensures Without(q, {q[0]}) == q[1..]
  {
    assert q == [q[0]] + q[1..];
    WithoutConcat([q[0]], q[1..], {q[0]});
    WithoutNone(q[1..], {q[0]});
  }

  /** The state after cancel took the waiting entry `c` out. */
  lemma CancelWaiting(s: System, c: Cmd) returns (q: seq<Cmd>, k: nat)
    requires Queues(s) && c in s.QueueOf(c.instance) && !s.IsHead(c)
    ensures c.instance in s.queues && q == s.queues[c.instance] && 0 < k < |q| && q[k] == c
    ensures QueueOk(s, c.instance, q) && WaitingOk(s, c) && EntryOk(s, c.instance, c)
    ensures Cancel(s, c, false) == Save(s, c, Cancelled).(
              queues := s.queues[c.instance := q[..k] + q[k + 1..]],
              dropped := s.dropped + {c},
              futures := s.futures[c := Dead])
  {
    CancelEffect(s, c, false);
    q := s.queues[c.instance];
    k :| 0 <= k < |q| && q[k] == c;
    assert QueueOk(s, c.instance, q);
    WithoutOne(q, k);
  }

  lemma CancelOwnQueue(s: System, c: Cmd)
    requires Queues(s) && c in s.QueueOf(c.instance) && !s.IsHead(c)
    ensures var s' := Cancel(s, c, false);
            c.instance in s'.queues && QueueOk(s', c.instance, s'.queues[c.instance])
  {
    var q, k := CancelWaiting(s, c);
    var r := q[..k] + q[k + 1..];
    assert c !in r;
    assert forall j :: 0 <= j < |r| ==> r[j] == q[if j < k then j else j + 1];
  }

  lemma CancelOtherQueue(s: System, c: Cmd, i: Instance)
    requires Queues(s) && c in s.QueueOf(c.instance) && !s.IsHead(c) && i in s.queues && i != c.instance
    ensures var s' := Cancel(s, c, false);
            i in s'.queues && QueueOk(s', i, s'.queues[i])
  {
    var q, k := CancelWaiting(s, c);
    assert QueueOk(s, i, s.queues[i]);
  }

  lemma CancelQueues(s: System, c: Cmd)
    requires Queues(s) && c in s.QueueOf(c.instance) && !s.IsHead(c)
    ensures Queues(Cancel(s, c, false))
  {
    var s' := Cancel(s, c, false);
    CancelEffect(s, c, false);
    forall i | i in s'.queues ensures QueueOk(s', i, s'.queues[i]) {
      if i == c.instance {
        CancelOwnQueue(s, c);
      } else {
        CancelOtherQueue(s, c, i);
      }
    }
  }

  lemma CancelActives(s: System, c: Cmd)
    requires Shape(s) && c in s.QueueOf(c.instance) && !s.IsHead(c)
    ensures Actives(Cancel(s, c, false))
  {
    var s' := Cancel(s, c, false);
    var q, k := CancelWaiting(s, c);
    forall d | Active(s', d) ensures ActiveOk(s', d) {
      assert ActiveOk(s, d);
    }
  }

  lemma KeptRemove(i: Instance, accepted: seq<Cmd>, dropped: set<Cmd>, c: Cmd)
    ensures Of(i, Without(accepted, dropped + {c})) == Without(Of(i, Without(accepted, dropped)), {c})
  {
    WithoutMore(accepted, dropped, {c});
    OfWithout(i, Without(accepted, dropped), {c});
  }

  lemma CancelKept(s: System, c: Cmd, i: Instance)
    requires Queues(s) && Logs(s) && c in s.QueueOf(c.instance) && !s.IsHead(c)
    requires KeptOk(s, i)
    ensures KeptOk(Cancel(s, c, false), i)
  {
    CancelledQueue(s, c, i);
    CancelledLogs(s, c);
    KeptRemove(i, s.accepted, s.dropped, c);
    OfMembers(i, s.finished);
    WithoutNone(Of(i, s.finished), {c});
    WithoutConcat(Of(i, s.finished), s.QueueOf(i), {c});
  }

  lemma CancelledLogs(s: System, c: Cmd)
    requires Queues(s) && Logs(s) && c in s.QueueOf(c.instance) && !s.IsHead(c)
    ensures var s' := Cancel(s, c, false);
            s'.accepted == s.accepted && s'.finished == s.finished && s'.dropped == s.dropped + {c} && c !in s.finished
  {
    var q, k := CancelWaiting(s, c);
  }

  lemma CancelledQueue(s: System, c: Cmd, i: Instance)
    requires Queues(s) && c in s.QueueOf(c.instance) && !s.IsHead(c)
    ensures Cancel(s, c, false).QueueOf(i) == Without(s.QueueOf(i), {c})
  {
    var q, k := CancelWaiting(s, c);
    if i == c.instance {
      WithoutOne(q, k);
    } else {
      assert s.QueueOf(i) != [] ==> QueueOk(s, i, s.QueueOf(i));
      WithoutNone(s.QueueOf(i), {c});
    }
  }

  lemma CancelConservation(s: System, c: Cmd)
    requires Queues(s) && Logs(s) && Conservation(s) && c in s.QueueOf(c.instance) && !s.IsHead(c)
    ensures Conservation(Cancel(s, c, false))
  {
    var s' := Cancel(s, c, false);
    var q, k := CancelWaiting(s, c);
    forall i ensures KeptOk(s', i) && StartedOk(s', i) {
      assert KeptOk(s, i) && StartedOk(s, i);
      CancelKept(s, c, i);
      assert RunningHead(s', i) == RunningHead(s, i);
    }
  }

  lemma CancelLogs(s: System, c: Cmd)
    requires Queues(s) && Logs(s) && c in s.QueueOf(c.instance) && !s.IsHead(c)
    ensures Logs(Cancel(s, c, false))
  {
    var q, k := CancelWaiting(s, c);
  }

  lemma CancelDropped(s: System, c: Cmd, d: Cmd)
    requires Queues(s) && History(s) && c in s.QueueOf(c.instance) && !s.IsHead(c)
    requires d == c || d in s.dropped
    ensures DroppedOk(Cancel(s, c, false), d)
  {
    var q, k := CancelWaiting(s, c);
    if d == c {
      assert c !in q[..k] + q[k + 1..];
    } else {
      assert DroppedOk(s, d);
      assert forall e :: e in q[..k] + q[k + 1..] ==> e in q;
    }
  }

  lemma CancelCoalesced(s: System, c: Cmd, d: Cmd)
    requires Queues(s) && History(s) && c in s.QueueOf(c.instance) && !s.IsHead(c) && d in s.coalesced
    ensures CoalescedOk(Cancel(s, c, false), d)
  {
    CancelEffect(s, c, false);
    assert CoalescedOk(s, d);
    QueuedHasFuture(s, c);
  }

  lemma CancelHistory(s: System, c: Cmd)
    requires Queues(s) && History(s) && c in s.QueueOf(c.instance) && !s.IsHead(c)
    ensures History(Cancel(s, c, false))
  {
    var s' := Cancel(s, c, false);
    CancelLogs(s, c);
    CancelledFates(s, c);
    forall d | d in s'.dropped ensures DroppedOk(s', d) {
      CancelDropped(s, c, d);
    }
    forall d | d in s'.coalesced ensures CoalescedOk(s', d) {
      CancelCoalesced(s, c, d);
    }
  }

  lemma CancelledFates(s: System, c: Cmd)
    requires Queues(s) && c in s.QueueOf(c.instance) && !s.IsHead(c)
    ensures Cancel(s, c, false).dropped == s.dropped + {c} && Cancel(s, c, false).coalesced == s.coalesced
  {
    var q, k := CancelWaiting(s, c);
  }

  lemma QueuedHasFuture(s: System, c: Cmd)
    requires Queues(s) && c in s.QueueOf(c.instance)
    ensures c in s.futures
  {
    assert QueueOk(s, c.instance, s.queues[c.instance]);
    var k :| 0 <= k < |s.queues[c.instance]| && s.queues[c.instance][k] == c;
    assert EntryOk(s, c.instance, c);
  }

  /** A cancel that finds no entry changes nothing but the state of the command. */
  lemma CancelElsewhere(s: System, c: Cmd, copy: bool)
    requires Inv(s) && (copy || c !in s.QueueOf(c.instance)) && (copy ==> c.Persisted())
    ensures Inv(Cancel(s, c, copy))
  {
    CancelEffect(s, c, copy);
    var s' := Cancel(s, c, copy);
    SameLogs(s, s');
    SetStateShape(s, s', c);
    SetStateHistory(s, s', c);
  }

  ghost predicate OnlyStateOf(s: System, s': System, c: Cmd) {
    && s' == s.(mem := s'.mem, db := s'.db)
    && (s'.mem == s.mem || s'.mem == s.mem[c := Cancelled])
    && (s'.db == s.db || s'.db == s.db[c := Cancelled])
    && (c in s'.db ==> s'.db[c] == Cancelled)
  }

  lemma SetStateShape(s: System, s': System, c: Cmd)
    requires Shape(s) && OnlyStateOf(s, s', c)
    requires s'.mem == s.mem || c !in s.QueueOf(c.instance)
    ensures Shape(s')
  {
    forall i | i in s'.queues ensures QueueOk(s', i, s'.queues[i]) {
      assert QueueOk(s, i, s.queues[i]);
    }
    forall d | Active(s', d) ensures ActiveOk(s', d) {
      assert ActiveOk(s, d);
    }
  }

  lemma SetStateHistory(s: System, s': System, c: Cmd)
    requires History(s) && OnlyStateOf(s, s', c) && (c in s'.db ==> c in s.db || c.Persisted())
    ensures History(s')
  {
    forall d | d in s'.dropped ensures DroppedOk(s', d) {
      assert DroppedOk(s, d);
    }
    forall d | d in s'.coalesced ensures CoalescedOk(s', d) {
      assert CoalescedOk(s, d);
    }
  }

  /** The running command is the head; its finish pops it and submits the next one, if any. */
  lemma FinishEffect(s: System, c: Cmd, ok: bool) returns (q: seq<Cmd>)
    requires Shape(s) && c in s.running
    ensures c.instance in s.queues && q == s.queues[c.instance] && QueueOk(s, c.instance, q) && q[0] == c
    ensures ActiveOk(s, c)
    ensures var s1 := Settle(s, c, ok).(running := s.running - {c}, finished := s.finished + [c]);
            Finish(s, c, ok) ==
              if |q| == 1 then s1.(queues := s.queues - {c.instance})
              else s1.(queues := s.queues[c.instance := q[1..]],
                       futures := s.futures[q[1] := Ran],
                       pool := s.pool + [q[1]])
  {
    assert ActiveOk(s, c);
    q := s.queues[c.instance];
    assert |q| > 1 ==> WaitingOk(s, q[1]);
  }

  /** What a finish of the running head of q makes of queues, workers and states. */
  ghost predicate PoppedHead(s: System, s': System, c: Cmd, q: seq<Cmd>) {
    && q != [] && s'.launching == s.launching && s'.running == s.running - {c}
    && s'.futures == (if |q| == 1 then s.futures else s.futures[q[1] := Ran])
    && s'.pool == (if |q| == 1 then s.pool else s.pool + [q[1]])
    && s'.queues == (if |q| == 1 then s.queues - {c.instance} else s.queues[c.instance := q[1..]])
    && forall d :: d in s.mem && d != c ==> d in s'.mem && s'.mem[d] == s.mem[d]
  }

  lemma FinishPopsHead(s: System, c: Cmd, ok: bool) returns (q: seq<Cmd>)
    requires Shape(s) && c in s.running
    ensures c.instance in s.queues && q == s.queues[c.instance] && QueueOk(s, c.instance, q) && q[0] == c
    ensures ActiveOk(s, c) && PoppedHead(s, Finish(s, c, ok), c, q)
  {
    q := FinishEffect(s, c, ok);
  }

  lemma OwnQueueStaysOk(s: System, s': System, c: Cmd, q: seq<Cmd>)
    requires PoppedHead(s, s', c, q) && QueueOk(s, c.instance, q) && q[0] == c && |q| > 1
    ensures QueueOk(s', c.instance, q[1..])
  {
    assert forall k :: 1 <= k < |q| ==> EntryOk(s, c.instance, q[k]) && WaitingOk(s, q[k]);
  }

  lemma OtherQueueStaysOk(s: System, s': System, c: Cmd, q: seq<Cmd>, i: Instance)
    requires PoppedHead(s, s', c, q) && QueueOk(s, c.instance, q) && q[0] == c
    requires i in s.queues && i != c.instance && QueueOk(s, i, s.queues[i])
    ensures QueueOk(s', i, s.queues[i])
  {
    assert EntryOk(s, c.instance, q[0]);
    assert |q| > 1 ==> EntryOk(s, c.instance, q[1]);
    assert forall k :: 0 <= k < |s.queues[i]| ==> EntryOk(s, i, s.queues[i][k]);
  }

  lemma FinishQueue(s: System, c: Cmd, ok: bool, i: Instance)
    requires Shape(s) && c in s.running && i in Finish(s, c, ok).queues
    ensures QueueOk(Finish(s, c, ok), i, Finish(s, c, ok).queues[i])
  {
    var q := FinishPopsHead(s, c, ok);
    if i == c.instance {
      OwnQueueStaysOk(s, Finish(s, c, ok), c, q);
    } else {
      OtherQueueStaysOk(s, Finish(s, c, ok), c, q, i);
    }
  }

  lemma FinishQueues(s: System, c: Cmd, ok: bool)
    requires Shape(s) && c in s.running
    ensures Queues(Finish(s, c, ok))
  {
    forall i | i in Finish(s, c, ok).queues ensures QueueOk(Finish(s, c, ok), i, Finish(s, c, ok).queues[i]) {
      FinishQueue(s, c, ok, i);
    }
  }

  lemma FinishActive(s: System, c: Cmd, ok: bool, d: Cmd)
    requires Shape(s) && c in s.running && Active(Finish(s, c, ok), d)
    ensures ActiveOk(Finish(s, c, ok), d)
  {
    var q := FinishEffect(s, c, ok);
    if Active(s, d) {
      assert ActiveOk(s, d);
    } else {
      assert d == q[1];
    }
  }

  lemma FinishPool(s: System, c: Cmd, ok: bool)
    requires Shape(s) && c in s.running
    ensures NoDup(Finish(s, c, ok).pool) && |Finish(s, c, ok).running| <= Finish(s, c, ok).threads
  {
    var q := FinishEffect(s, c, ok);
    assert |q| > 1 ==> WaitingOk(s, q[1]);
  }

  lemma FinishActives(s: System, c: Cmd, ok: bool)
    requires Shape(s) && c in s.running
    ensures Actives(Finish(s, c, ok))
  {
    FinishPool(s, c, ok);
    forall d | Active(Finish(s, c, ok), d) ensures ActiveOk(Finish(s, c, ok), d) {
      FinishActive(s, c, ok, d);
    }
  }

  /** The finished command moves from the front of its own queue to the log; no other queue changes. */
  ghost predicate Moved(s: System, s': System, c: Cmd, i: Instance) {
    && s'.accepted == s.accepted && s'.dropped == s.dropped
    && s'.started == s.started && s'.finished == s.finished + [c]
    && if i == c.instance then
         s.QueueOf(i) == [c] + s'.QueueOf(i) && RunningHead(s, i) == [c] && RunningHead(s', i) == []
       else
         s.QueueOf(i) == s'.QueueOf(i) && RunningHead(s, i) == RunningHead(s', i)
  }

  lemma FinishMoves(s: System, c: Cmd, ok: bool, i: Instance)
    requires Shape(s) && c in s.running
    ensures Moved(s, Finish(s, c, ok), c, i)
  {
    var q := FinishEffect(s, c, ok);
    if i == c.instance {
      assert |q| > 1 ==> WaitingOk(s, q[1]);
    } else if s.QueueOf(i) != [] {
      assert QueueOk(s, i, s.QueueOf(i));
      assert EntryOk(s, i, s.QueueOf(i)[0]);
    }
  }

  lemma MovedKept(s: System, s': System, c: Cmd, i: Instance)
    requires Moved(s, s', c, i) && KeptOk(s, i)
    ensures KeptOk(s', i)
  {
    OfAppend(i, s.finished, c);
    if i == c.instance {
      Assoc(Of(i, s.finished), [c], s'.QueueOf(i));
    }
  }

  lemma MovedStarted(s: System, s': System, c: Cmd, i: Instance)
    requires Moved(s, s', c, i) && StartedOk(s, i)
    ensures StartedOk(s', i)
  {
    OfAppend(i, s.finished, c);
  }

  lemma FinishLogs(s: System, c: Cmd, ok: bool)
    requires Shape(s) && Logs(s) && c in s.running
    ensures Logs(Finish(s, c, ok))
  {
    var q := FinishEffect(s, c, ok);
    assert |q| > 1 ==> EntryOk(s, c.instance, q[1]);
  }

  lemma FinishFates(s: System, c: Cmd, ok: bool)
    requires Shape(s) && Fates(s) && c in s.running
    ensures Fates(Finish(s, c, ok))
  {
    var s' := Finish(s, c, ok);
    var q := FinishEffect(s, c, ok);
    assert |q| > 1 ==> EntryOk(s, c.instance, q[1]);
    forall d | d in s'.dropped ensures DroppedOk(s', d) {
      assert DroppedOk(s, d);
    }
    forall d | d in s'.coalesced ensures CoalescedOk(s', d) {
      assert CoalescedOk(s, d);
    }
  }

  // ---------------------------------------------------------------- whole runs

  /** Every step that does not cancel a head keeps the invariant. */
  lemma StepKeepsInv(s: System, step: Step)
    requires Inv(s) && Enabled(s, step) && Guarded(s, step)
    ensures Inv(Apply(s, step))
  {
    match step
    case DoQueue(c) => EnqueueKeeps(s, c);
    case DoLaunch(c) => LaunchKeeps(s, c);
    case DoExecute(c) =>
      EnqueueKeeps(s, c);
      if c in Enqueue(s, c).launching {
        LaunchKeeps(Enqueue(s, c), c);
      }
    case DoCancel(c, copy) =>
      if copy || c !in s.QueueOf(c.instance) {
        CancelElsewhere(s, c, copy);
      } else {
        CancelQueues(s, c);
        CancelActives(s, c);
        CancelConservation(s, c);
        CancelHistory(s, c);
      }
    case DoBegin =>
      BeginShape(s);
      BeginConservation(s);
      BeginHistory(s);
    case DoFinish(c, ok) =>
      FinishQueues(s, c, ok);
      FinishActives(s, c, ok);
      FinishLogs(s, c, ok);
      FinishFates(s, c, ok);
      forall i ensures KeptOk(Finish(s, c, ok), i) && StartedOk(Finish(s, c, ok), i) {
        assert KeptOk(s, i) && StartedOk(s, i);
        FinishMoves(s, c, ok, i);
        MovedKept(s, Finish(s, c, ok), c, i);
        MovedStarted(s, Finish(s, c, ok), c, i);
      }
  }

  lemma EnqueueKeeps(s: System, c: Cmd)
    requires Inv(s) && c !in s.futures && c !in s.coalesced
    ensures Inv(Enqueue(s, c))
  {
    assert c in s.dropped ==> DroppedOk(s, c);
    assert c in s.running ==> ActiveOk(s, c);
    EnqueueQueues(s, c);
    EnqueueActives(s, c);
    EnqueueConservation(s, c);
    EnqueueLogs(s, c);
    EnqueueFates(s, c);
  }

  lemma LaunchKeeps(s: System, c: Cmd)
    requires Inv(s) && c in s.launching
    ensures Inv(Launch(s, c))
  {
    LaunchShape(s, c);
    SameLogs(s, Launch(s, c));
    LaunchHistory(s, c);
  }

  /** The states of every run from the start in which no head is cancelled are good. */
  lemma {:induction false} RunKeepsInv(states: seq<System>, steps: seq<Step>, n: nat)
    requires IsRun(states, steps) && IsGuarded(states, steps)
    requires states[0] == Init(states[0].threads)
    requires n < |states|
    ensures Inv(states[n])
  {
    if n == 0 {
      assert Inv(Init(states[0].threads));
    } else {
      RunKeepsInv(states, steps, n - 1);
      StepKeepsInv(states[n - 1], steps[n - 1]);
    }
  }

  /** Cancelling an entry is harmless exactly when the entry is not the head of its queue. */
  lemma CancelSafeIffNotHead(s: System, c: Cmd)
    requires Inv(s)
    ensures Inv(Cancel(s, c, false)) <==> !s.IsHead(c)
  {
    if !s.IsHead(c) {
      StepKeepsInv(s, DoCancel(c, false));
    } else {
      CancelEffect(s, c, false);
      var i, q, s' := c.instance, s.queues[c.instance], Cancel(s, c, false);
      assert QueueOk(s, i, q);
      WithoutHead(q);
      assert |q| > 1 ==> WaitingOk(s, q[1]) && !Active(s', q[1]);
      assert !QueueOk(s', i, s'.queues[i]);
    }
  }
}
