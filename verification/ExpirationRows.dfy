/** When a row of the expiration table comes and when it goes, in terms of the stored dates alone, and what an
    activation means for the run after it. */
module ExpirationRows {
  import opened Basics
  import opened Expiration
  import opened ExpirationRuns

  const MILLISECONDS_IN_AN_HOUR := 3_600_000

  // ---------------------------------------------------------------- rows that go

  /** A row goes with an extension of its instance; with an activation or a remove sweep that finds the lifetime
      unlimited or longer than the row says, the sweep only after activity; and with the deletion of its instance. */
  predicate Goes(m: Moment, e: Event, x: Row)
    requires x.instance in m.s.w.instances
  {
    var i := m.s.w.instances[x.instance];
    var early := i.terminationDate.None? || x.date < i.terminationDate.value;
    match e
    case Extension(id, _, _) => x.instance == id
    case Activation(id) => x.instance == id && early
    case RemoveSweep => early && (i.terminationDate.Some? ==> x.createdAt < i.lastSeenAt)
    case RoundBegins => m.pending != [] && x.id == m.pending[0].id && IsDeleted(m.s.w, m.pending[0].instance)
    case RoundEnds(outcome) => m.waiting.Some? && x.id == m.waiting.value.row.id && outcome == Gone
    case _ => false
  }

  predicate IsDeleted(w: World, i: Id) {
    i in w.instances && w.instances[i].deleted
  }

  lemma RowsGoIff(config: Config, m: Moment, now: int, e: Event)
    requires TableOk(m.s.w) && Enabled(config, m, now, e)
    ensures forall x :: x in m.s.w.table ==> (x !in Records(config, m, now, e).table <==> Goes(m, e, x))
  {
    var w := m.s.w;
    match e
    case Extension(i, _, _) => FilterMembers(w.table, NotOf(i));
    case Activation(i) => FilterMembers(w.table, SurvivesActivation(i, w.instances[i]));
    case RemoveSweep => FilterMembers(w.table, DueIn(w.instances));
    case InactiveSweep(ids) => CreateInactiveKeepsRows(w, config, ids, now);
    case TerminatingSweep(ids) => CreateTerminatingKeepsRows(w, ids, now);
    case RoundBegins => FilterMembers(w.table, OtherThan(m.pending[0]));
    case RoundEnds(_) => FilterMembers(w.table, OtherThan(m.waiting.value.row));
    case _ =>
  }

  // ---------------------------------------------------------------- rows that come

  function Limit(config: Config, i: Instance): int {
    if i.staffOwner then config.staffMaxInactivity else config.userMaxInactivity
  }

  /** A row comes with a sweep, for an instance that is not deleted, has a termination date and no row yet: dated
      when its idle time reaches the limit of its owner, if that is less than 24 hours away, or on the termination
      date, if that is less than 48 hours away. */
  predicate Comes(config: Config, w: World, now: int, e: Event, x: Row) {
    && x.instance in w.instances
    && x.createdAt == now
    && var i := w.instances[x.instance];
       && !i.deleted && i.terminationDate.Some?
       && (forall y :: y in w.table ==> y.instance != x.instance)
       && match e
          case InactiveSweep(_) =>
            && x.date == i.lastSeenAt + Limit(config, i) * MILLISECONDS_IN_AN_HOUR
            && x.date < now + 24 * MILLISECONDS_IN_AN_HOUR
          case TerminatingSweep(_) =>
            && x.date == i.terminationDate.value
            && x.date < now + 48 * MILLISECONDS_IN_AN_HOUR
          case _ => false
  }

  lemma NoRowIff(table: seq<Row>, i: Id)
    ensures HasRow(table, i) <==> exists y :: y in table && y.instance == i
  {
    if y :| y in table && y.instance == i {
      var k :| 0 <= k < |table| && table[k] == y;
      assert table[k].instance == i;
    }
  }

  lemma NewInactiveIff(config: Config, w: World, now: int, ids: seq<Id>, i: Id)
    requires FoundInactive(w, config, ids, now) && i in w.instances
    ensures i in ids <==> Comes(config, w, now, InactiveSweep(ids), Row(0, i, InactiveDate(w, config, i), now))
  {
    NoRowIff(w.table, i);
  }

  lemma NewTerminationIff(config: Config, w: World, now: int, ids: seq<Id>, i: Id, date: int)
    requires FoundTerminating(w, ids, now) && i in w.instances && w.instances[i].terminationDate == Some(date)
    ensures i in ids <==> Comes(config, w, now, TerminatingSweep(ids), Row(0, i, date, now))
  {
    NoRowIff(w.table, i);
  }

  lemma {:induction false} InactiveHaveRows(w: World, config: Config, ids: seq<Id>, now: int, i: Id)
    requires (forall j :: j in ids ==> j in w.instances) && i in ids
    ensures HasRow(CreateInactive(w, config, ids, now).table, i)
  {
    var init, last := ids[..|ids| - 1], ids[|ids| - 1];
    var w1 := CreateInactive(w, config, init, now);
    CreatedHasRow(w1, last, InactiveDate(w1, config, last), now);
    if i != last {
      InactiveHaveRows(w, config, init, now, i);
      CreatedKeepsRow(w1, last, InactiveDate(w1, config, last), now, i);
    }
  }

  lemma {:induction false} TerminatingHaveRows(w: World, ids: seq<Id>, now: int, i: Id)
    requires (forall j :: j in ids ==> j in w.instances && w.instances[j].terminationDate.Some?) && i in ids
    ensures HasRow(CreateTerminating(w, ids, now).table, i)
  {
    var init, last := ids[..|ids| - 1], ids[|ids| - 1];
    var w1 := CreateTerminating(w, init, now);
    assert last in ids;
    CreatedHasRow(w1, last, w1.instances[last].terminationDate.value, now);
    if i != last {
      TerminatingHaveRows(w, init, now, i);
      CreatedKeepsRow(w1, last, w1.instances[last].terminationDate.value, now, i);
    }
  }

  lemma CreatedHasRow(w: World, i: Id, date: int, now: int)
    ensures HasRow(Create(w, i, date, now).table, i)
  {
    if !HasRow(w.table, i) {
      assert (w.table + [Row(w.nextId, i, date, now)])[|w.table|].instance == i;
    }
  }

  lemma CreatedKeepsRow(w: World, i: Id, date: int, now: int, j: Id)
    requires HasRow(w.table, j)
    ensures HasRow(Create(w, i, date, now).table, j)
  {
    var k :| 0 <= k < |w.table| && w.table[k].instance == j;
    assert Create(w, i, date, now).table[k].instance == j;
  }

  /** The rows that come are those, and each of those comes, under an id of its own. */
  ghost predicate RowsCome(config: Config, w: World, w': World, now: int, e: Event) {
    && (forall x :: x in w'.table && x !in w.table ==> Comes(config, w, now, e, x))
    && (forall x :: Comes(config, w, now, e, x) ==> exists y :: y in w'.table && y !in w.table && y == x.(id := y.id))
  }

  lemma InactiveRowsCome(config: Config, w: World, now: int, ids: seq<Id>)
    requires FoundInactive(w, config, ids, now)
    ensures RowsCome(config, w, CreateInactive(w, config, ids, now), now, InactiveSweep(ids))
  {
    var e, w' := InactiveSweep(ids), CreateInactive(w, config, ids, now);
    CreatedInactive(w, config, ids, now);
    forall x | x in w'.table && x !in w.table ensures Comes(config, w, now, e, x) {
      NewInactiveIff(config, w, now, ids, x.instance);
    }
    forall x | Comes(config, w, now, e, x) ensures exists y :: y in w'.table && y !in w.table && y == x.(id := y.id) {
      NewInactiveIff(config, w, now, ids, x.instance);
      InactiveHaveRows(w, config, ids, now, x.instance);
      var k :| 0 <= k < |w'.table| && w'.table[k].instance == x.instance;
      assert w'.table[k] in w'.table;
    }
  }

  lemma TerminatingRowsCome(config: Config, w: World, now: int, ids: seq<Id>)
    requires FoundTerminating(w, ids, now)
    ensures RowsCome(config, w, CreateTerminating(w, ids, now), now, TerminatingSweep(ids))
  {
    var e, w' := TerminatingSweep(ids), CreateTerminating(w, ids, now);
    CreatedTerminating(w, ids, now);
    forall x | x in w'.table && x !in w.table ensures Comes(config, w, now, e, x) {
      NewTerminationIff(config, w, now, ids, x.instance, x.date);
    }
    forall x | Comes(config, w, now, e, x) ensures exists y :: y in w'.table && y !in w.table && y == x.(id := y.id) {
      NewTerminationIff(config, w, now, ids, x.instance, x.date);
      TerminatingHaveRows(w, ids, now, x.instance);
      var k :| 0 <= k < |w'.table| && w'.table[k].instance == x.instance;
      assert w'.table[k] in w'.table;
    }
  }

  lemma RowsComeIff(config: Config, m: Moment, now: int, e: Event)
    requires Enabled(config, m, now, e)
    ensures RowsCome(config, m.s.w, Records(config, m, now, e), now, e)
  {
    var w := m.s.w;
    match e
    case Extension(i, _, _) => FilterMembers(w.table, NotOf(i));
    case Activation(i) => FilterMembers(w.table, SurvivesActivation(i, w.instances[i]));
    case RemoveSweep => FilterMembers(w.table, DueIn(w.instances));
    case InactiveSweep(ids) => InactiveRowsCome(config, w, now, ids);
    case TerminatingSweep(ids) => TerminatingRowsCome(config, w, now, ids);
    case RoundBegins => FilterMembers(w.table, OtherThan(m.pending[0]));
    case RoundEnds(_) => FilterMembers(w.table, OtherThan(m.waiting.value.row));
    case _ =>
  }

  // ---------------------------------------------------------------- after an activation

  /** The instance has no row dated before its termination date. */
  ghost predicate RunsItsLifetime(w: World, i: Id) {
    && i in w.instances
    && forall x :: x in w.table && x.instance == i ==>
         w.instances[i].terminationDate.Some? && w.instances[i].terminationDate.value <= x.date
  }

  lemma ActivationGivesLifetime(config: Config, m: Moment, now: int, i: Id)
    requires Enabled(config, m, now, Activation(i))
    ensures RunsItsLifetime(Records(config, m, now, Activation(i)), i)
  {
    FilterMembers(m.s.w.table, SurvivesActivation(i, m.s.w.instances[i]));
  }

  lemma EventKeepsLifetime(config: Config, m: Moment, now: int, e: Event, i: Id)
    requires RunsItsLifetime(m.s.w, i) && Enabled(config, m, now, e) && (e.InactiveSweep? ==> i !in e.ids)
    ensures RunsItsLifetime(Records(config, m, now, e), i)
  {
    var w, w' := m.s.w, Records(config, m, now, e);
    match e
    case InactiveSweep(ids) => CreatedInactive(w, config, ids, now);
    case TerminatingSweep(ids) => CreatedTerminating(w, ids, now);
    case Extension(j, _, _) => FilterMembers(w.table, NotOf(j));
    case Activation(j) => FilterMembers(w.table, SurvivesActivation(j, w.instances[j]));
    case RemoveSweep => FilterMembers(w.table, DueIn(w.instances));
    case RoundBegins => FilterMembers(w.table, OtherThan(m.pending[0]));
    case RoundEnds(_) => FilterMembers(w.table, OtherThan(m.waiting.value.row));
    case _ =>
  }

  /** In every run: from an activation until an inactivity sweep finds the instance again, it has no row dated
      before its termination date. */
  lemma {:induction false} ActivationHolds(config: Config, states: seq<Moment>, times: seq<int>, events: seq<Event>,
                                           k: nat, n: nat, i: Id)
    requires IsRun(config, states, times, events) && k < n <= |events| && events[k] == Activation(i)
    requires forall j :: k < j < n && events[j].InactiveSweep? ==> i !in events[j].ids
    ensures RunsItsLifetime(states[n].s.w, i)
  {
    assert Leads(config, states[n - 1], times[n - 1], events[n - 1], states[n]);
    if n == k + 1 {
      ActivationGivesLifetime(config, states[k], times[k], i);
    } else {
      ActivationHolds(config, states, times, events, k, n - 1, i);
      EventKeepsLifetime(config, states[n - 1], times[n - 1], events[n - 1], i);
    }
  }

  /** So a delete sweep that begins meanwhile has the instance on its list only when its termination date has come. */
  lemma ActivatedIsNotDue(config: Config, states: seq<Moment>, times: seq<int>, events: seq<Event>,
                          k: nat, n: nat, i: Id)
    requires IsRun(config, states, times, events) && k < n < |events| && events[k] == Activation(i)
    requires forall j :: k < j < n && events[j].InactiveSweep? ==> i !in events[j].ids
    requires events[n] == SweepBegins
    ensures i in states[n].s.w.instances
    ensures forall x :: x in states[n + 1].pending && x.instance == i ==>
              && states[n].s.w.instances[i].terminationDate.Some?
              && states[n].s.w.instances[i].terminationDate.value <= times[n]
  {
    ActivationHolds(config, states, times, events, k, n, i);
    ListIsFixed(config, states, times, events, n);
  }
}
