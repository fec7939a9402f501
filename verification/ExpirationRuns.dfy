/** Whole runs of the expiration service: other requests are served at any time, also while a delete sweep waits
    for a deletion. What is kept, when a sweep takes an instance that may stay, and runs in which it does. */
module ExpirationRuns {
  import opened Basics
  import opened Expiration

  // ---------------------------------------------------------------- events

  // The records. `clean` holds from a remove sweep for as long as no activity is recorded, and during a delete
  // sweep for as long as no extension, activation or remove sweep touches the records either.
  datatype Situation = Situation(w: World, clock: int, clean: bool)

  // The row whose deletion is waited for, and the state its instance had.
  datatype Wait = Wait(row: Row, previous: InstanceState)

  // With the rows that the delete sweep has still to go through; its list is fixed when it begins.
  datatype Moment = Moment(s: Situation, pending: seq<Row>, waiting: Option<Wait>) {
    predicate Sweeping() {
      pending != [] || waiting.Some?
    }
  }

  datatype Event =
    | NewInstance(i: Id, staff: bool)
    | Activity(i: Id)
    | Extension(i: Id, date: Option<int>, notify: bool)
    | Activation(i: Id)
    | Vanishing(i: Id)                // deleted in another way, for instance by its owner
    | RemoveSweep
    | InactiveSweep(ids: seq<Id>)
    | TerminatingSweep(ids: seq<Id>)
    | SweepBegins                     // deleteAllExpired fixes its list
    | RoundBegins                     // its next row, up to the wait
    | RoundEnds(outcome: Outcome)     // and from the wait on

  ghost predicate Enabled(config: Config, m: Moment, now: int, e: Event) {
    && m.s.clock <= now
    && match e
       case NewInstance(i, _) => i !in m.s.w.instances
       case Activity(i) => i in m.s.w.instances
       case Extension(i, _, _) => i in m.s.w.instances
       case Activation(i) => i in m.s.w.instances
       case Vanishing(i) => i in m.s.w.instances
       case RemoveSweep => true
       case InactiveSweep(ids) => FoundInactive(m.s.w, config, ids, now)
       case TerminatingSweep(ids) => FoundTerminating(m.s.w, ids, now)
       case SweepBegins => !m.Sweeping()
       case RoundBegins => m.pending != [] && m.waiting.None? && m.pending[0].instance in m.s.w.instances
       case RoundEnds(_) => m.waiting.Some? && m.waiting.value.row.instance in m.s.w.instances
  }

  function Fresh(config: Config, now: int, staff: bool): Instance {
    Instance(staff, now, Some(now + Hours(Lifetime(config, staff))), false, Live("BUILDING"))
  }

  /** What an event makes of the records. */
  function Records(config: Config, m: Moment, now: int, e: Event): World
    requires Enabled(config, m, now, e)
  {
    var w := m.s.w;
    match e
    case NewInstance(i, staff) => w.(instances := w.instances[i := Fresh(config, now, staff)])
    case Activity(i) => w.(instances := w.instances[i := w.instances[i].(lastSeenAt := now)])
    case Extension(i, date, notify) => Grant(w, i, date, notify)
    case Activation(i) => Activate(w, i)
    case Vanishing(i) => w.(instances := w.instances[i := w.instances[i].(deleted := true, state := Deleted)])
    case RemoveSweep => RemoveActive(w)
    case InactiveSweep(ids) => CreateInactive(w, config, ids, now)
    case TerminatingSweep(ids) => CreateTerminating(w, ids, now)
    case SweepBegins => w
    case RoundBegins => BeginDeletion(w, m.pending[0])
    case RoundEnds(outcome) => EndDeletion(w, m.waiting.value.row, m.waiting.value.previous, outcome)
  }

  function Clean(m: Moment, e: Event): bool {
    match e
    case Activity(_) => false
    case RemoveSweep => m.pending == []
    case Extension(_, _, _) => m.s.clean && m.pending == []
    case Activation(_) => m.s.clean && m.pending == []
    case _ => m.s.clean
  }

  function Apply(config: Config, m: Moment, now: int, e: Event): Moment
    requires Enabled(config, m, now, e)
  {
    var s := Situation(Records(config, m, now, e), now, Clean(m, e));
    match e
    case SweepBegins => Moment(s, Expired(m.s.w, now), None)
    case RoundBegins =>
      var x := m.pending[0];
      var i := m.s.w.instances[x.instance];
      Moment(s, m.pending[1..], if i.deleted then None else Some(Wait(x, i.state)))
    case RoundEnds(_) => Moment(s, m.pending, None)
    case _ => m.(s := s)
  }

  /** A round begins only if nothing has touched the records since a remove sweep, and activity on an instance
      that has an expiration is stamped later than the expiration. */
  predicate Disciplined(m: Moment, now: int, e: Event) {
    match e
    case RoundBegins => m.s.clean
    case Activity(i) => forall x :: x in m.s.w.table && x.instance == i ==> x.createdAt < now
    case _ => true
  }

  // ---------------------------------------------------------------- what is kept of the records

  /** Why a row may be there: the lifetime ends then, or the instance was last seen that long before, or
      it has been active since and the row is out of date. `strict` tells activity in the very millisecond of the
      row's creation from later activity. */
  predicate Justified(config: Config, w: World, x: Row, strict: bool) {
    && x.instance in w.instances
    && var i := w.instances[x.instance];
       && i.terminationDate.Some?
       && (x.date == i.terminationDate.value
           || x.date == i.lastSeenAt + Hours(MaxInactivity(config, i))
           || (if strict then x.createdAt < i.lastSeenAt else x.createdAt <= i.lastSeenAt))
  }

  predicate Sound(config: Config, s: Situation, strict: bool) {
    && TableOk(s.w)
    && (forall i :: i in s.w.instances ==> s.w.instances[i].lastSeenAt <= s.clock)
    && (forall x :: x in s.w.table ==> x.createdAt <= s.clock && Justified(config, s.w, x, strict))
    && (s.clean ==> forall x :: x in s.w.table ==> StillDue(s.w.instances, x))
  }

  lemma {:induction false} CreatedInactive(w: World, config: Config, ids: seq<Id>, now: int)
    requires forall i :: i in ids ==> i in w.instances
    ensures forall x :: x in CreateInactive(w, config, ids, now).table ==>
              x in w.table || (x.instance in ids && x.createdAt == now && x.date == InactiveDate(w, config, x.instance))
  {
    if ids != [] {
      CreatedInactive(w, config, ids[..|ids| - 1], now);
    }
  }

  lemma {:induction false} CreatedTerminating(w: World, ids: seq<Id>, now: int)
    requires forall i :: i in ids ==> i in w.instances
    ensures forall x :: x in CreateTerminating(w, ids, now).table ==>
              x in w.table || (x.instance in ids && x.createdAt == now
                               && Some(x.date) == w.instances[x.instance].terminationDate)
  {
    if ids != [] {
      CreatedTerminating(w, ids[..|ids| - 1], now);
    }
  }

  lemma {:induction false} CreateInactiveKeepsRows(w: World, config: Config, ids: seq<Id>, now: int)
    requires forall i :: i in ids ==> i in w.instances
    ensures forall x :: x in w.table ==> x in CreateInactive(w, config, ids, now).table
  {
    if ids != [] {
      CreateInactiveKeepsRows(w, config, ids[..|ids| - 1], now);
    }
  }

  lemma {:induction false} CreateTerminatingKeepsRows(w: World, ids: seq<Id>, now: int)
    requires forall i :: i in ids ==> i in w.instances
    ensures forall x :: x in w.table ==> x in CreateTerminating(w, ids, now).table
  {
    if ids != [] {
      CreateTerminatingKeepsRows(w, ids[..|ids| - 1], now);
    }
  }

  /** A sweep that only takes rows out keeps what holds of each row. */
  lemma FilterKeepsSound(config: Config, s: Situation, now: int, p: Row -> bool, strict: bool)
    requires Sound(config, s, strict) && s.clock <= now
    ensures Sound(config, Situation(s.w.(table := Filter(s.w.table, p)), now, s.clean), strict)
  {
    FilterKeepsTable(s.w, p);
    FilterMembers(s.w.table, p);
    var w' := s.w.(table := Filter(s.w.table, p));
    forall x | x in w'.table ensures Justified(config, w', x, strict) {
      assert Justified(config, s.w, x, strict);
    }
  }

  lemma RemoveKeepsSound(config: Config, s: Situation, now: int, strict: bool)
    requires Sound(config, s, strict) && s.clock <= now
    ensures Sound(config, Situation(RemoveActive(s.w), now, true), strict)
  {
    FilterKeepsSound(config, s, now, DueIn(s.w.instances), strict);
    FilterMembers(s.w.table, DueIn(s.w.instances));
  }

  lemma ExtensionKeepsSound(config: Config, s: Situation, now: int, i: Id, date: Option<int>,
                            notify: bool, strict: bool)
    requires Sound(config, s, strict) && s.clock <= now && i in s.w.instances
    ensures Sound(config, Situation(Grant(s.w, i, date, notify), now, s.clean), strict)
  {
    var w' := Grant(s.w, i, date, notify);
    FilterKeepsTable(s.w, NotOf(i));
    FilterMembers(s.w.table, NotOf(i));
    forall x | x in w'.table ensures Justified(config, w', x, strict) && (s.clean ==> StillDue(w'.instances, x)) {
      assert Justified(config, s.w, x, strict);
      assert w'.instances[x.instance] == s.w.instances[x.instance];
    }
  }

  /** Changes of an instance that leave its dates alone keep what holds of the rows. */
  lemma SameDatesKeepSound(config: Config, s: Situation, now: int, i: Id, instance: Instance, strict: bool)
    requires Sound(config, s, strict) && s.clock <= now && i in s.w.instances
    requires instance.lastSeenAt == s.w.instances[i].lastSeenAt
    requires instance.terminationDate == s.w.instances[i].terminationDate
    requires instance.staffOwner == s.w.instances[i].staffOwner
    ensures Sound(config, Situation(s.w.(instances := s.w.instances[i := instance]), now, s.clean), strict)
  {
    var w' := s.w.(instances := s.w.instances[i := instance]);
    forall x | x in w'.table ensures Justified(config, w', x, strict) && (s.clean ==> StillDue(w'.instances, x)) {
      assert Justified(config, s.w, x, strict);
    }
  }

  lemma MailsKeepSound(config: Config, s: Situation, mails: seq<Mail>, strict: bool)
    requires Sound(config, s, strict)
    ensures Sound(config, s.(w := s.w.(mails := mails)), strict)
  {
    var w' := s.w.(mails := mails);
    forall x | x in w'.table ensures Justified(config, w', x, strict) {
      assert Justified(config, s.w, x, strict);
    }
  }

  lemma LessCleanIsSound(config: Config, s: Situation, strict: bool)
    requires Sound(config, s, strict)
    ensures Sound(config, s.(clean := false), strict)
  {
  }

  lemma NewKeepsSound(config: Config, s: Situation, now: int, i: Id, staff: bool, strict: bool)
    requires Sound(config, s, strict) && s.clock <= now && i !in s.w.instances
    ensures Sound(config, Situation(s.w.(instances := s.w.instances[i := Fresh(config, now, staff)]), now, s.clean), strict)
  {
    var w' := s.w.(instances := s.w.instances[i := Fresh(config, now, staff)]);
    forall x | x in w'.table ensures Justified(config, w', x, strict) && (s.clean ==> StillDue(w'.instances, x)) {
      assert Justified(config, s.w, x, strict);
    }
  }

  lemma ActivityKeepsSound(config: Config, s: Situation, now: int, i: Id, strict: bool)
    requires Sound(config, s, strict) && s.clock <= now && i in s.w.instances
    requires strict ==> forall x :: x in s.w.table && x.instance == i ==> x.createdAt < now
    ensures Sound(config, Situation(s.w.(instances := s.w.instances[i := s.w.instances[i].(lastSeenAt := now)]), now, false),
                  strict)
  {
    var w' := s.w.(instances := s.w.instances[i := s.w.instances[i].(lastSeenAt := now)]);
    forall x | x in w'.table ensures Justified(config, w', x, strict) {
      assert Justified(config, s.w, x, strict);
    }
  }

  lemma InactiveKeepsSound(config: Config, s: Situation, now: int, ids: seq<Id>, strict: bool)
    requires Sound(config, s, strict) && s.clock <= now && FoundInactive(s.w, config, ids, now)
    ensures Sound(config, Situation(CreateInactive(s.w, config, ids, now), now, s.clean), strict)
  {
    var w' := CreateInactive(s.w, config, ids, now);
    CreateInactiveKeepsTable(s.w, config, ids, now);
    CreatedInactive(s.w, config, ids, now);
    forall x | x in w'.table ensures Justified(config, w', x, strict) && (s.clean ==> StillDue(w'.instances, x)) {
      assert x in s.w.table ==> Justified(config, s.w, x, strict);
    }
  }

  lemma TerminatingKeepsSound(config: Config, s: Situation, now: int, ids: seq<Id>, strict: bool)
    requires Sound(config, s, strict) && s.clock <= now && FoundTerminating(s.w, ids, now)
    ensures Sound(config, Situation(CreateTerminating(s.w, ids, now), now, s.clean), strict)
  {
    var w' := CreateTerminating(s.w, ids, now);
    CreateTerminatingKeepsTable(s.w, ids, now);
    CreatedTerminating(s.w, ids, now);
    forall x | x in w'.table ensures Justified(config, w', x, strict) && (s.clean ==> StillDue(w'.instances, x)) {
      assert x in s.w.table ==> Justified(config, s.w, x, strict);
    }
  }

  lemma BeginKeepsSound(config: Config, s: Situation, now: int, x: Row, strict: bool)
    requires Sound(config, s, strict) && s.clock <= now && x.instance in s.w.instances
    ensures Sound(config, Situation(BeginDeletion(s.w, x), now, s.clean), strict)
  {
    var i := s.w.instances[x.instance];
    if i.deleted {
      FilterKeepsSound(config, s, now, OtherThan(x), strict);
    } else {
      SameDatesKeepSound(config, s, now, x.instance, i.(state := Deleting), strict);
    }
  }

  lemma EndKeepsSound(config: Config, s: Situation, now: int, x: Row, previous: InstanceState, outcome: Outcome,
                      strict: bool)
    requires Sound(config, s, strict) && s.clock <= now && x.instance in s.w.instances
    ensures Sound(config, Situation(EndDeletion(s.w, x, previous, outcome), now, s.clean), strict)
  {
    var i := s.w.instances[x.instance];
    match outcome
    case Gone =>
      SameDatesKeepSound(config, s, now, x.instance, i.(deleted := true, state := Deleted), strict);
      var gone := s.w.instances[x.instance := i.(deleted := true, state := Deleted)];
      var s1 := Situation(s.w.(instances := gone), now, s.clean);
      FilterKeepsSound(config, s1, now, OtherThan(x), strict);
      var s2 := s1.(w := s1.w.(table := DeleteRow(s1.w.table, x)));
      MailsKeepSound(config, s2, s.w.mails + [InstanceDeleted(x.instance)], strict);
    case StillThere =>
      SameDatesKeepSound(config, s, now, x.instance, i, strict);
      assert s.w.instances[x.instance := i] == s.w.instances;
    case Failed => SameDatesKeepSound(config, s, now, x.instance, i.(state := previous), strict);
  }

  /** Every event keeps the records sound, strictly so where it is disciplined. */
  lemma EventKeepsSound(config: Config, m: Moment, now: int, e: Event, strict: bool)
    requires Sound(config, m.s, strict) && Enabled(config, m, now, e)
    requires strict ==> Disciplined(m, now, e)
    ensures Sound(config, Apply(config, m, now, e).s, strict)
  {
    var s := m.s;
    match e
    case NewInstance(i, staff) => NewKeepsSound(config, s, now, i, staff, strict);
    case Activity(i) => ActivityKeepsSound(config, s, now, i, strict);
    case Extension(i, date, notify) =>
      ExtensionKeepsSound(config, s, now, i, date, notify, strict);
      LessCleanIsSound(config, Situation(Grant(s.w, i, date, notify), now, s.clean), strict);
    case Activation(i) =>
      FilterKeepsSound(config, s, now, SurvivesActivation(i, s.w.instances[i]), strict);
      LessCleanIsSound(config, Situation(Activate(s.w, i), now, s.clean), strict);
    case Vanishing(i) =>
      SameDatesKeepSound(config, s, now, i, s.w.instances[i].(deleted := true, state := Deleted), strict);
    case RemoveSweep =>
      RemoveKeepsSound(config, s, now, strict);
      LessCleanIsSound(config, Situation(RemoveActive(s.w), now, true), strict);
    case InactiveSweep(ids) => InactiveKeepsSound(config, s, now, ids, strict);
    case TerminatingSweep(ids) => TerminatingKeepsSound(config, s, now, ids, strict);
    case SweepBegins => LaterIsSound(config, s, now, strict);
    case RoundBegins => BeginKeepsSound(config, s, now, m.pending[0], strict);
    case RoundEnds(outcome) =>
      EndKeepsSound(config, s, now, m.waiting.value.row, m.waiting.value.previous, outcome, strict);
  }

  lemma LaterIsSound(config: Config, s: Situation, now: int, strict: bool)
    requires Sound(config, s, strict) && s.clock <= now
    ensures Sound(config, Situation(s.w, now, s.clean), strict)
  {
  }

  // ---------------------------------------------------------------- what is kept of the sweep

  /** The row that is waited for and the rows to come. */
  function Open(m: Moment): seq<Row> {
    (if m.waiting.Some? then [m.waiting.value.row] else []) + m.pending
  }

  /** The sweep has each of its rows once, all of them due; as long as all is clean, those to come are stored. */
  predicate SweepOk(m: Moment) {
    && RowsDistinct(Open(m))
    && (forall x :: x in Open(m) ==> x.instance in m.s.w.instances && x.date <= m.s.clock)
    && (m.s.clean ==> forall x :: x in m.pending ==> x in m.s.w.table)
  }

  lemma OtherEventsKeepSweep(m: Moment, s': Situation)
    requires SweepOk(m) && m.s.clock <= s'.clock
    requires forall i :: i in m.s.w.instances ==> i in s'.w.instances
    requires s'.clean && m.pending != [] ==> m.s.clean && forall x :: x in m.s.w.table ==> x in s'.w.table
    ensures SweepOk(m.(s := s'))
  {
  }

  lemma SweepStarts(config: Config, m: Moment, now: int)
    requires TableOk(m.s.w) && Enabled(config, m, now, SweepBegins)
    ensures SweepOk(Apply(config, m, now, SweepBegins))
  {
    FilterMembers(m.s.w.table, DueBy(now));
    FilterDistinct(m.s.w.table, DueBy(now));
    assert [] + Expired(m.s.w, now) == Expired(m.s.w, now);
  }

  lemma TailRows(rows: seq<Row>)
    requires rows != [] && RowsDistinct(rows)
    ensures rows == [rows[0]] + rows[1..] && RowsDistinct(rows[1..])
    ensures forall y :: y in rows[1..] ==> y in rows && y.id != rows[0].id
  {
  }

  /** A row fewer in the table, and it is none of those to come. */
  lemma DeleteKeepsOthers(table: seq<Row>, x: Row, rest: seq<Row>)
    requires forall y :: y in rest ==> y.id != x.id && y in table
    ensures forall y :: y in rest ==> y in DeleteRow(table, x)
  {
    FilterMembers(table, OtherThan(x));
  }

  lemma BeginKeepsSweep(config: Config, m: Moment, now: int)
    requires SweepOk(m) && Enabled(config, m, now, RoundBegins)
    ensures SweepOk(Apply(config, m, now, RoundBegins))
  {
    var x, rest := m.pending[0], m.pending[1..];
    assert Open(m) == m.pending;
    TailRows(m.pending);
    if m.s.clean {
      DeleteKeepsOthers(m.s.w.table, x, rest);
    }
    OpenAfterBegin(config, m, now);
  }

  lemma OpenAfterBegin(config: Config, m: Moment, now: int)
    requires Enabled(config, m, now, RoundBegins)
    ensures Open(Apply(config, m, now, RoundBegins)) ==
            if m.s.w.instances[m.pending[0].instance].deleted then m.pending[1..] else m.pending
  {
    assert [] + m.pending[1..] == m.pending[1..];
  }

  lemma EndKeepsSweep(config: Config, m: Moment, now: int, outcome: Outcome)
    requires SweepOk(m) && Enabled(config, m, now, RoundEnds(outcome))
    ensures SweepOk(Apply(config, m, now, RoundEnds(outcome)))
  {
    OpenAtEnd(m);
    OpenAfterEnd(config, m, now, outcome);
    if m.s.clean {
      DeleteKeepsOthers(m.s.w.table, m.waiting.value.row, m.pending);
    }
  }

  lemma OpenAtEnd(m: Moment)
    requires SweepOk(m) && m.waiting.Some?
    ensures RowsDistinct(m.pending)
    ensures forall y :: y in m.pending ==>
              y.id != m.waiting.value.row.id && y.instance in m.s.w.instances && y.date <= m.s.clock
  {
    TailRows(Open(m));
    assert Open(m)[1..] == m.pending;
  }

  lemma OpenAfterEnd(config: Config, m: Moment, now: int, outcome: Outcome)
    requires Enabled(config, m, now, RoundEnds(outcome))
    ensures Open(Apply(config, m, now, RoundEnds(outcome))) == m.pending
  {
    Nothing(m.pending, []);
  }

  lemma EventKeepsSweep(config: Config, m: Moment, now: int, e: Event)
    requires TableOk(m.s.w) && SweepOk(m) && Enabled(config, m, now, e)
    ensures SweepOk(Apply(config, m, now, e))
  {
    match e
    case SweepBegins => SweepStarts(config, m, now);
    case RoundBegins => BeginKeepsSweep(config, m, now);
    case RoundEnds(outcome) => EndKeepsSweep(config, m, now, outcome);
    case InactiveSweep(ids) =>
      CreateInactiveKeepsRows(m.s.w, config, ids, now);
      OtherEventsKeepSweep(m, Apply(config, m, now, e).s);
    case TerminatingSweep(ids) =>
      CreateTerminatingKeepsRows(m.s.w, ids, now);
      OtherEventsKeepSweep(m, Apply(config, m, now, e).s);
    case _ => OtherEventsKeepSweep(m, Apply(config, m, now, e).s);
  }

  // ---------------------------------------------------------------- runs

  ghost predicate Leads(config: Config, m: Moment, now: int, e: Event, m': Moment) {
    Enabled(config, m, now, e) && m' == Apply(config, m, now, e)
  }

  ghost predicate IsRun(config: Config, states: seq<Moment>, times: seq<int>, events: seq<Event>) {
    && |states| == |events| + 1 && |times| == |events|
    && states[0].s.w.table == [] && states[0].s.w.instances == map[] && !states[0].Sweeping()
    && forall k {:trigger events[k]} :: 0 <= k < |events| ==> Leads(config, states[k], times[k], events[k], states[k + 1])
  }

  ghost predicate IsDisciplined(states: seq<Moment>, times: seq<int>, events: seq<Event>)
    requires |states| == |events| + 1 && |times| == |events|
  {
    forall k :: 0 <= k < |events| ==> Disciplined(states[k], times[k], events[k])
  }

  lemma {:induction false} RunIsSound(config: Config, states: seq<Moment>, times: seq<int>, events: seq<Event>,
                                      n: nat, strict: bool)
    requires IsRun(config, states, times, events) && n < |states|
    requires strict ==> IsDisciplined(states, times, events)
    ensures Sound(config, states[n].s, strict) && SweepOk(states[n])
  {
    if n > 0 {
      RunIsSound(config, states, times, events, n - 1, strict);
      assert Leads(config, states[n - 1], times[n - 1], events[n - 1], states[n]);
      EventKeepsSound(config, states[n - 1], times[n - 1], events[n - 1], strict);
      EventKeepsSweep(config, states[n - 1], times[n - 1], events[n - 1]);
    }
  }

  /** In every run no instance ever has two expirations, and every expiration belongs to an instance with a
      termination date. */
  lemma RunKeepsOneEach(config: Config, states: seq<Moment>, times: seq<int>, events: seq<Event>, n: nat)
    requires IsRun(config, states, times, events) && n < |states|
    ensures RowsDistinct(states[n].s.w.table)
    ensures forall x :: x in states[n].s.w.table ==>
              x.instance in states[n].s.w.instances && states[n].s.w.instances[x.instance].terminationDate.Some?
  {
    RunIsSound(config, states, times, events, n, false);
    forall x | x in states[n].s.w.table ensures Justified(config, states[n].s.w, x, false) {
    }
  }

  // ---------------------------------------------------------------- what a delete sweep does

  /** The row whose round begins with event k, if one does. */
  ghost function BegunAt(states: seq<Moment>, events: seq<Event>, k: nat): seq<Row>
    requires k < |events| < |states|
  {
    if events[k].RoundBegins? && states[k].pending != [] then [states[k].pending[0]] else []
  }

  /** The rows whose rounds begin from event k up to event n. */
  ghost function Begun(states: seq<Moment>, events: seq<Event>, k: nat, n: nat): seq<Row>
    requires k <= n <= |events| < |states|
  {
    if n == k then [] else Begun(states, events, k, n - 1) + BegunAt(states, events, n - 1)
  }

  lemma PendingStep(config: Config, states: seq<Moment>, times: seq<int>, events: seq<Event>, n: nat)
    requires IsRun(config, states, times, events) && n < |events| && !events[n].SweepBegins?
    ensures BegunAt(states, events, n) + states[n + 1].pending == states[n].pending
  {
    assert Leads(config, states[n], times[n], events[n], states[n + 1]);
  }

  lemma ListIsFixed(config: Config, states: seq<Moment>, times: seq<int>, events: seq<Event>, k: nat)
    requires IsRun(config, states, times, events) && k < |events| && events[k].SweepBegins?
    ensures states[k + 1].pending == Expired(states[k].s.w, times[k])
  {
    assert Leads(config, states[k], times[k], events[k], states[k + 1]);
  }

  ghost predicate GoesDown(states: seq<Moment>, events: seq<Event>, k: nat, n: nat)
    requires k <= n <= |events| < |states|
  {
    forall j :: k <= j < n ==> BegunAt(states, events, j) + states[j + 1].pending == states[j].pending
  }

  lemma {:induction false} ListGoesDown(states: seq<Moment>, events: seq<Event>, k: nat, n: nat)
    requires k <= n <= |events| < |states| && GoesDown(states, events, k, n)
    ensures Begun(states, events, k, n) + states[n].pending == states[k].pending
  {
    if n == k {
      Nothing(states[n].pending, []);
    } else {
      assert BegunAt(states, events, n - 1) + states[n].pending == states[n - 1].pending;
      ListGoesDown(states, events, k, n - 1);
      Assoc(Begun(states, events, k, n - 1), BegunAt(states, events, n - 1), states[n].pending);
    }
  }

  lemma RunGoesDown(config: Config, states: seq<Moment>, times: seq<int>, events: seq<Event>, k: nat, n: nat)
    requires IsRun(config, states, times, events) && k <= n <= |events|
    requires forall j :: k <= j < n ==> !events[j].SweepBegins?
    ensures GoesDown(states, events, k, n)
  {
    forall j | k <= j < n ensures BegunAt(states, events, j) + states[j + 1].pending == states[j].pending {
      PendingStep(config, states, times, events, j);
    }
  }

  /** Whatever comes between, a sweep goes through the rows of its list one after the other, each once. */
  lemma SweepTakesEach(config: Config, states: seq<Moment>, times: seq<int>, events: seq<Event>, k: nat, n: nat)
    requires IsRun(config, states, times, events) && k < n <= |events| && events[k].SweepBegins?
    requires forall j :: k < j < n ==> !events[j].SweepBegins?
    ensures Begun(states, events, k + 1, n) + states[n].pending == Expired(states[k].s.w, times[k])
  {
    RunGoesDown(config, states, times, events, k + 1, n);
    ListGoesDown(states, events, k + 1, n);
    ListIsFixed(config, states, times, events, k);
  }

  /** Only the begin of a round puts an instance into DELETING, the one of its row and not a deleted one; the
      failed end of a round may bring DELETING back. Only the end of a round, or something else than the
      service, deletes an instance. */
  lemma OnlyRoundsChange(config: Config, m: Moment, now: int, e: Event, i: Id)
    requires Enabled(config, m, now, e) && i in m.s.w.instances
    ensures var before := m.s.w.instances[i];
            && i in Records(config, m, now, e).instances
            && var after := Records(config, m, now, e).instances[i];
            && (after.state == Deleting && before.state != Deleting ==>
                  || (e.RoundBegins? && m.pending[0].instance == i && !before.deleted)
                  || (e == RoundEnds(Failed) && m.waiting.value == Wait(m.waiting.value.row, Deleting)
                      && m.waiting.value.row.instance == i))
            && (after.deleted && !before.deleted ==>
                  e == Vanishing(i) || (e == RoundEnds(Gone) && m.waiting.value.row.instance == i))
  {
  }

  /** The instances that deletion mails were sent for, in order. */
  function Mailed(mails: seq<Mail>): seq<Id> {
    if mails == [] then []
    else
      var last := mails[|mails| - 1];
      Mailed(mails[..|mails| - 1]) + (if last.InstanceDeleted? then [last.instance] else [])
  }

  lemma MailedMore(mails: seq<Mail>, m: Mail)
    ensures Mailed(mails + [m]) == Mailed(mails) + (if m.InstanceDeleted? then [m.instance] else [])
  {
    assert (mails + [m])[..|mails|] == mails;
  }

  lemma {:induction false} InactiveSendsNone(w: World, config: Config, ids: seq<Id>, now: int)
    requires forall i :: i in ids ==> i in w.instances
    ensures Mailed(CreateInactive(w, config, ids, now).mails) == Mailed(w.mails)
  {
    if ids != [] {
      var i, w1 := ids[|ids| - 1], CreateInactive(w, config, ids[..|ids| - 1], now);
      InactiveSendsNone(w, config, ids[..|ids| - 1], now);
      MailedMore(w1.mails, Expiring(i, InactiveDate(w1, config, i)));
    }
  }

  lemma {:induction false} TerminatingSendsNone(w: World, ids: seq<Id>, now: int)
    requires forall i :: i in ids ==> i in w.instances
    ensures Mailed(CreateTerminating(w, ids, now).mails) == Mailed(w.mails)
  {
    if ids != [] {
      var i, w1 := ids[|ids| - 1], CreateTerminating(w, ids[..|ids| - 1], now);
      TerminatingSendsNone(w, ids[..|ids| - 1], now);
      MailedMore(w1.mails, LifetimeReached(i));
    }
  }

  /** A deletion mail goes out exactly at the end of a round that deleted the instance. */
  lemma OnlyDeletionsAreMailed(config: Config, m: Moment, now: int, e: Event)
    requires Enabled(config, m, now, e)
    ensures Mailed(Records(config, m, now, e).mails)
         == Mailed(m.s.w.mails) + if e == RoundEnds(Gone) then [m.waiting.value.row.instance] else []
  {
    match e
    case Extension(i, _, notify) => MailedMore(m.s.w.mails, ExtensionGranted(i));
    case InactiveSweep(ids) => InactiveSendsNone(m.s.w, config, ids, now);
    case TerminatingSweep(ids) => TerminatingSendsNone(m.s.w, ids, now);
    case RoundEnds(_) => MailedMore(m.s.w.mails, InstanceDeleted(m.waiting.value.row.instance));
    case _ =>
  }

  // ---------------------------------------------------------------- safety

  /** The instance may go: its termination date has come, or it has been idle for as long as it may be. */
  predicate MayGo(config: Config, i: Instance, now: int) {
    && i.terminationDate.Some?
    && (i.terminationDate.value <= now || i.lastSeenAt + Hours(MaxInactivity(config, i)) <= now)
  }

  /** Neither limit has come. */
  predicate MayStay(config: Config, i: Instance, now: int) {
    i.terminationDate.None?
    || (now < i.terminationDate.value && now < i.lastSeenAt + Hours(MaxInactivity(config, i)))
  }

  /** The row has lost its reason: it is not stored any more, or there was activity since it was created; when
      nothing has touched the records since a remove sweep, only activity in the millisecond of its creation. */
  predicate Outdated(m: Moment, x: Row)
    requires x.instance in m.s.w.instances
  {
    var i := m.s.w.instances[x.instance];
    if m.s.clean then x.createdAt == i.lastSeenAt else x !in m.s.w.table || x.createdAt <= i.lastSeenAt
  }

  /** A due row of the list takes an instance that may not go exactly when neither limit has come, and that only
      happens to a row that is outdated. */
  lemma DueRowIsWrongIff(config: Config, m: Moment, now: int, x: Row)
    requires Sound(config, m.s, false) && SweepOk(m) && m.s.clock <= now && x in m.pending
    ensures x.instance in m.s.w.instances
    ensures var i := m.s.w.instances[x.instance];
            !MayGo(config, i, now) <==> MayStay(config, i, now) && Outdated(m, x)
  {
    assert x in Open(m);
    if x in m.s.w.table {
      assert Justified(config, m.s.w, x, false);
    }
  }

  /** In every run, whatever is recorded before and during a delete sweep: the round of a row takes an instance
      that may not go exactly when neither limit has come and the row is outdated. */
  lemma RoundIsWrongIff(config: Config, states: seq<Moment>, times: seq<int>, events: seq<Event>, n: nat)
    requires IsRun(config, states, times, events) && n < |events| && events[n].RoundBegins?
    ensures var m, now := states[n], times[n];
            && m.pending != [] && m.pending[0].instance in m.s.w.instances
            && var i := m.s.w.instances[m.pending[0].instance];
               !MayGo(config, i, now) <==> MayStay(config, i, now) && Outdated(m, m.pending[0])
  {
    RunIsSound(config, states, times, events, n, false);
    assert Leads(config, states[n], times[n], events[n], states[n + 1]);
    DueRowIsWrongIff(config, states[n], times[n], states[n].pending[0]);
  }

  /** Over a whole disciplined run a round takes only an instance that may go; one without a termination date is
      never taken. */
  lemma RunIsSafe(config: Config, states: seq<Moment>, times: seq<int>, events: seq<Event>, n: nat)
    requires IsRun(config, states, times, events) && IsDisciplined(states, times, events)
    requires n < |events| && events[n].RoundBegins?
    ensures var m, now := states[n], times[n];
            && m.pending != [] && m.pending[0].instance in m.s.w.instances
            && MayGo(config, m.s.w.instances[m.pending[0].instance], now)
  {
    RunIsSound(config, states, times, events, n, true);
    assert Leads(config, states[n], times[n], events[n], states[n + 1]);
    assert Disciplined(states[n], times[n], events[n]);
    var x := states[n].pending[0];
    assert x in Open(states[n]);
    assert Justified(config, states[n].s.w, x, true) && StillDue(states[n].s.w.instances, x);
  }

}
