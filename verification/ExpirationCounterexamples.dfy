/** Runs of the expiration service, from the empty state, in which a delete sweep takes an instance that may stay. */
module ExpirationCounterexamples {
  import opened Basics
  import opened Expiration
  import opened ExpirationRuns

  /** Event n puts an instance into DELETING that may not go. */
  predicate TakesBusy(config: Config, states: seq<Moment>, times: seq<int>, events: seq<Event>, n: nat, i: Id)
    requires n < |events| && n < |times| && n + 1 < |states|
  {
    && events[n].RoundBegins? && states[n].pending != [] && states[n].pending[0].instance == i
    && i in states[n].s.w.instances && i in states[n + 1].s.w.instances
    && !states[n].s.w.instances[i].deleted && states[n + 1].s.w.instances[i].state == Deleting
    && !MayGo(config, states[n].s.w.instances[i], times[n])
  }

  datatype Run = Run(states: seq<Moment>, times: seq<int>, events: seq<Event>) {
    ghost predicate Of(config: Config) {
      IsRun(config, states, times, events)
    }

    function Last(): Moment
      requires states != []
    {
      states[|states| - 1]
    }

    function And(now: int, e: Event, m: Moment): Run {
      Run(states + [m], times + [now], events + [e])
    }
  }

  /** A run with one more event. */
  lemma Longer(config: Config, run: Run, now: int, e: Event, m: Moment)
    requires run.Of(config) && Leads(config, run.Last(), now, e, m)
    ensures run.And(now, e, m).Of(config)
  {
  }

  function Quiet(w: World, clock: int, clean: bool): Moment {
    Moment(Situation(w, clock, clean), [], None)
  }

  lemma OneRow(x: Row, p: Row -> bool)
    ensures Filter([x], p) == if p(x) then [x] else []
  {
    assert [x][..0] == [];
  }

  lemma TwoRows(x: Row, y: Row, p: Row -> bool)
    ensures Filter([x, y], p) == (if p(x) then [x] else []) + (if p(y) then [y] else [])
  {
    assert [x, y][..1] == [x];
    OneRow(x, p);
  }

  // ---------------------------------------------------------------- an idle instance that becomes active

  const IDLE := Config(48, 48, 1000, 1000)

  function Seen(at: int): Instance {
    Instance(false, at, Some(Hours(1000)), false, Live("BUILDING"))
  }

  const ROW := Row(0, 7, Hours(48), Hours(25))

  function One(instance: Instance, rows: seq<Row>): World {
    World(map[7 := instance], rows, if rows == [] then 0 else 1, if rows == [] then [] else [Expiring(7, Hours(48))])
  }

  lemma FirstEvent()
    ensures Leads(IDLE, Quiet(World(map[], [], 0, []), 0, true), 0, NewInstance(7, false), Quiet(One(Seen(0), []), 0, true))
  {
  }

  lemma IdleFound()
    ensures Leads(IDLE, Quiet(One(Seen(0), []), 0, true), Hours(25), InactiveSweep([7]),
                  Quiet(One(Seen(0), [ROW]), Hours(25), true))
  {
    var w := One(Seen(0), []);
    assert IsNewInactive(w, 7, Hours(25), Threshold(IDLE, w.instances[7]));
    assert [7][..0] == [];
  }

  /** An instance created at 0 and not used gets an expiration after 25 hours. */
  lemma IdleRun() returns (run: Run)
    ensures run.Of(IDLE) && |run.events| == 2 && |run.states| == 3
    ensures run.Last() == Quiet(One(Seen(0), [ROW]), Hours(25), true)
  {
    run := Run([Quiet(World(map[], [], 0, []), 0, true)], [], []);
    FirstEvent();
    Longer(IDLE, run, 0, NewInstance(7, false), Quiet(One(Seen(0), []), 0, true));
    run := run.And(0, NewInstance(7, false), Quiet(One(Seen(0), []), 0, true));
    IdleFound();
    Longer(IDLE, run, Hours(25), InactiveSweep([7]), Quiet(One(Seen(0), [ROW]), Hours(25), true));
    run := run.And(Hours(25), InactiveSweep([7]), Quiet(One(Seen(0), [ROW]), Hours(25), true));
  }

  lemma BecomesActive(clock: int, now: int, clean: bool)
    requires clock <= now
    ensures Leads(IDLE, Quiet(One(Seen(0), [ROW]), clock, clean), now, Activity(7), Quiet(One(Seen(now), [ROW]), now, false))
  {
    assert map[7 := Seen(0)][7 := Seen(now)] == map[7 := Seen(now)];
  }

  lemma RowStays(at: int, clock: int, now: int, clean: bool)
    requires clock <= now && at <= Hours(25)
    ensures Leads(IDLE, Quiet(One(Seen(at), [ROW]), clock, clean), now, RemoveSweep, Quiet(One(Seen(at), [ROW]), now, true))
  {
    OneRow(ROW, DueIn(map[7 := Seen(at)]));
  }

  lemma SweepOfOne(at: int, clock: int, clean: bool)
    requires clock <= Hours(48)
    ensures Leads(IDLE, Quiet(One(Seen(at), [ROW]), clock, clean), Hours(48), SweepBegins,
                  Moment(Situation(One(Seen(at), [ROW]), Hours(48), clean), [ROW], None))
  {
    OneRow(ROW, DueBy(Hours(48)));
  }

  lemma RoundOfOne(at: int, clean: bool)
    ensures Leads(IDLE, Moment(Situation(One(Seen(at), [ROW]), Hours(48), clean), [ROW], None), Hours(48), RoundBegins,
                  Moment(Situation(One(Seen(at).(state := Deleting), [ROW]), Hours(48), clean), [],
                         Some(Wait(ROW, Live("BUILDING")))))
  {
    assert map[7 := Seen(at)][7 := Seen(at).(state := Deleting)] == map[7 := Seen(at).(state := Deleting)];
  }

  /** The delete sweep after 48 hours. */
  lemma SweepAtEnd(run0: Run, at: int, clock: int, clean: bool) returns (run: Run)
    requires run0.Of(IDLE) && run0.Last() == Quiet(One(Seen(at), [ROW]), clock, clean)
    requires clock <= Hours(48) && Hours(25) <= at
    ensures run.Of(IDLE) && run.events == run0.events + [SweepBegins, RoundBegins]
    ensures run.times == run0.times + [Hours(48), Hours(48)] && |run.states| == |run0.states| + 2
    ensures run.states[..|run0.states|] == run0.states && run.states[|run0.states|].s.clean == clean
    ensures TakesBusy(IDLE, run.states, run.times, run.events, |run0.events| + 1, 7)
  {
    var m1 := Moment(Situation(One(Seen(at), [ROW]), Hours(48), clean), [ROW], None);
    var m2 := Moment(Situation(One(Seen(at).(state := Deleting), [ROW]), Hours(48), clean), [],
                     Some(Wait(ROW, Live("BUILDING"))));
    SweepOfOne(at, clock, clean);
    Longer(IDLE, run0, Hours(48), SweepBegins, m1);
    var run1 := run0.And(Hours(48), SweepBegins, m1);
    RoundOfOne(at, clean);
    Longer(IDLE, run1, Hours(48), RoundBegins, m2);
    run := run1.And(Hours(48), RoundBegins, m2);
  }

  /** Activity in the millisecond of the creation of an expiration: the remove sweep right before the delete
      sweep does not notice it, and the delete sweep takes a busy instance. */
  lemma SameInstantIsReached() returns (run: Run)
    ensures run.Of(IDLE) && |run.events| == 6 && |run.times| == 6 && |run.states| == 7
    ensures run.events[2..] == [Activity(7), RemoveSweep, SweepBegins, RoundBegins]
    ensures run.times[3] == run.times[4] == run.times[5] && run.states[5].s.clean
    ensures TakesBusy(IDLE, run.states, run.times, run.events, 5, 7)
  {
    var run0 := IdleRun();
    BecomesActive(Hours(25), Hours(25), true);
    Longer(IDLE, run0, Hours(25), Activity(7), Quiet(One(Seen(Hours(25)), [ROW]), Hours(25), false));
    var run1 := run0.And(Hours(25), Activity(7), Quiet(One(Seen(Hours(25)), [ROW]), Hours(25), false));
    RowStays(Hours(25), Hours(25), Hours(48), false);
    Longer(IDLE, run1, Hours(48), RemoveSweep, Quiet(One(Seen(Hours(25)), [ROW]), Hours(48), true));
    var run2 := run1.And(Hours(48), RemoveSweep, Quiet(One(Seen(Hours(25)), [ROW]), Hours(48), true));
    run := SweepAtEnd(run2, Hours(25), Hours(48), true);
  }

  lemma ActiveAfterRemoval() returns (run: Run)
    ensures run.Of(IDLE) && |run.events| == 4 && |run.times| == 4 && |run.states| == 5
    ensures run.Last() == Quiet(One(Seen(Hours(47)), [ROW]), Hours(47), false)
    ensures run.events[2..] == [RemoveSweep, Activity(7)] && run.times[3] == Hours(47)
  {
    var run0 := IdleRun();
    RowStays(0, Hours(25), Hours(47), true);
    Longer(IDLE, run0, Hours(47), RemoveSweep, Quiet(One(Seen(0), [ROW]), Hours(47), true));
    var run1 := run0.And(Hours(47), RemoveSweep, Quiet(One(Seen(0), [ROW]), Hours(47), true));
    BecomesActive(Hours(47), Hours(47), true);
    Longer(IDLE, run1, Hours(47), Activity(7), Quiet(One(Seen(Hours(47)), [ROW]), Hours(47), false));
    run := run1.And(Hours(47), Activity(7), Quiet(One(Seen(Hours(47)), [ROW]), Hours(47), false));
  }

  /** Activity between the remove sweep and the delete sweep, later than the expiration was created: the
      delete sweep takes a busy instance. */
  lemma ActivityBetweenSweepsIsReached() returns (run: Run)
    ensures run.Of(IDLE) && |run.events| == 6 && |run.times| == 6 && |run.states| == 7
    ensures run.events[2..] == [RemoveSweep, Activity(7), SweepBegins, RoundBegins]
    ensures ROW.createdAt < run.times[3] && TakesBusy(IDLE, run.states, run.times, run.events, 5, 7)
  {
    var run0 := ActiveAfterRemoval();
    run := SweepAtEnd(run0, Hours(47), Hours(47), false);
  }

  // ---------------------------------------------------------------- an extension during the sweep

  const OLD := Config(1000, 1000, 48, 48)

  function Born(date: int): Instance {
    Instance(false, 0, Some(date), false, Live("BUILDING"))
  }

  const FIRST := Row(0, 7, Hours(48), Hours(25))

  const SECOND := Row(1, 8, Hours(48), Hours(25))

  const TOLD: seq<Mail> := [LifetimeReached(7), LifetimeReached(8)]

  function Two(a: Instance, b: Instance, rows: seq<Row>, nextId: nat, mails: seq<Mail>): World {
    World(map[7 := a, 8 := b], rows, nextId, mails)
  }

  function Due(a: Instance, b: Instance, rows: seq<Row>): World {
    Two(a, b, rows, 2, TOLD)
  }

  lemma TwoAreBorn()
    ensures Leads(OLD, Quiet(World(map[], [], 0, []), 0, true), 0, NewInstance(7, false),
                  Quiet(World(map[7 := Born(Hours(48))], [], 0, []), 0, true))
    ensures Leads(OLD, Quiet(World(map[7 := Born(Hours(48))], [], 0, []), 0, true), 0, NewInstance(8, false),
                  Quiet(Two(Born(Hours(48)), Born(Hours(48)), [], 0, []), 0, true))
  {
  }

  lemma TwoAreFound()
    ensures Leads(OLD, Quiet(Two(Born(Hours(48)), Born(Hours(48)), [], 0, []), 0, true), Hours(25), TerminatingSweep([7, 8]),
                  Quiet(Due(Born(Hours(48)), Born(Hours(48)), [FIRST, SECOND]), Hours(25), true))
  {
    var w := Two(Born(Hours(48)), Born(Hours(48)), [], 0, []);
    assert [7, 8][..1] == [7] && [7][..0] == [];
    assert IsNewTermination(w, 7, Hours(25), HOURS_BEFORE_EXPIRATION_LIFETIME);
    assert IsNewTermination(w, 8, Hours(25), HOURS_BEFORE_EXPIRATION_LIFETIME);
    FirstIsCreated(w);
  }

  lemma FirstIsCreated(w: World)
    requires w == Two(Born(Hours(48)), Born(Hours(48)), [], 0, [])
    ensures CreateTerminating(w, [7], Hours(25)) == w.(table := [FIRST], nextId := 1, mails := [LifetimeReached(7)])
  {
    assert [7][..0] == [];
    assert !HasRow(w.table, 7);
  }

  lemma BothStay()
    ensures Leads(OLD, Quiet(Due(Born(Hours(48)), Born(Hours(48)), [FIRST, SECOND]), Hours(25), true), Hours(48), RemoveSweep,
                  Quiet(Due(Born(Hours(48)), Born(Hours(48)), [FIRST, SECOND]), Hours(48), true))
  {
    TwoRows(FIRST, SECOND, DueIn(map[7 := Born(Hours(48)), 8 := Born(Hours(48))]));
  }

  function Waiting(clean: bool, a: Instance, b: Instance, rows: seq<Row>): Moment {
    Moment(Situation(Due(a, b, rows), Hours(48), clean), [SECOND], Some(Wait(FIRST, Live("BUILDING"))))
  }

  lemma SweepOfTwo()
    ensures Leads(OLD, Quiet(Due(Born(Hours(48)), Born(Hours(48)), [FIRST, SECOND]), Hours(48), true), Hours(48), SweepBegins,
                  Moment(Situation(Due(Born(Hours(48)), Born(Hours(48)), [FIRST, SECOND]), Hours(48), true),
                         [FIRST, SECOND], None))
  {
    TwoRows(FIRST, SECOND, DueBy(Hours(48)));
  }

  lemma FirstRound()
    ensures Leads(OLD, Moment(Situation(Due(Born(Hours(48)), Born(Hours(48)), [FIRST, SECOND]), Hours(48), true),
                              [FIRST, SECOND], None), Hours(48), RoundBegins,
                  Waiting(true, Born(Hours(48)).(state := Deleting), Born(Hours(48)), [FIRST, SECOND]))
  {
    var a, b := Born(Hours(48)), Born(Hours(48));
    assert map[7 := a, 8 := b][7 := a.(state := Deleting)] == map[7 := a.(state := Deleting), 8 := b];
    assert [FIRST, SECOND][1..] == [SECOND];
  }

  lemma SecondIsExtended()
    ensures Leads(OLD, Waiting(true, Born(Hours(48)).(state := Deleting), Born(Hours(48)), [FIRST, SECOND]), Hours(48),
                  Extension(8, Some(Hours(1000)), false),
                  Waiting(false, Born(Hours(48)).(state := Deleting), Born(Hours(1000)), [FIRST]))
  {
    var a, b := Born(Hours(48)).(state := Deleting), Born(Hours(48));
    assert map[7 := a, 8 := b][8 := Born(Hours(1000))] == map[7 := a, 8 := Born(Hours(1000))];
    TwoRows(FIRST, SECOND, NotOf(8));
  }

  function Done(): Instance {
    Instance(false, 0, Some(Hours(48)), true, Deleted)
  }

  function Between(b: Instance, pending: seq<Row>, waiting: Option<Wait>): Moment {
    Moment(Situation(Two(Done(), b, [], 2, TOLD + [InstanceDeleted(7)]), Hours(48), false), pending, waiting)
  }

  lemma FirstIsGone()
    ensures Leads(OLD, Waiting(false, Born(Hours(48)).(state := Deleting), Born(Hours(1000)), [FIRST]), Hours(48),
                  RoundEnds(Gone), Between(Born(Hours(1000)), [SECOND], None))
  {
    var a, b := Born(Hours(48)).(state := Deleting), Born(Hours(1000));
    assert map[7 := a, 8 := b][7 := Done()] == map[7 := Done(), 8 := b];
    OneRow(FIRST, OtherThan(FIRST));
  }

  lemma SecondRound()
    ensures Leads(OLD, Between(Born(Hours(1000)), [SECOND], None), Hours(48), RoundBegins,
                  Between(Born(Hours(1000)).(state := Deleting), [], Some(Wait(SECOND, Live("BUILDING")))))
  {
    var a, b := Done(), Born(Hours(1000));
    assert map[7 := a, 8 := b][8 := b.(state := Deleting)] == map[7 := a, 8 := b.(state := Deleting)];
  }

  /** Two instances whose lifetime has ended, up to the wait for the deletion of the first. */
  lemma OldRun() returns (run: Run)
    ensures run.Of(OLD) && |run.events| == 6 && |run.times| == 6 && |run.states| == 7
    ensures run.events[3..] == [RemoveSweep, SweepBegins, RoundBegins]
    ensures run.Last() == Waiting(true, Born(Hours(48)).(state := Deleting), Born(Hours(48)), [FIRST, SECOND])
  {
    var b := Born(Hours(48));
    var m1 := Quiet(World(map[7 := b], [], 0, []), 0, true);
    var m2 := Quiet(Two(b, b, [], 0, []), 0, true);
    var run1 := Run([Quiet(World(map[], [], 0, []), 0, true)], [], []);
    TwoAreBorn();
    Longer(OLD, run1, 0, NewInstance(7, false), m1);
    var run2 := run1.And(0, NewInstance(7, false), m1);
    Longer(OLD, run2, 0, NewInstance(8, false), m2);
    var run3 := run2.And(0, NewInstance(8, false), m2);
    run := OldSweep(run3);
  }

  lemma OldFound(run0: Run) returns (run: Run)
    requires run0.Of(OLD) && |run0.events| == 2
    requires run0.Last() == Quiet(Two(Born(Hours(48)), Born(Hours(48)), [], 0, []), 0, true)
    ensures run.Of(OLD) && |run.events| == 4 && run.events[3] == RemoveSweep
    ensures run.Last() == Quiet(Due(Born(Hours(48)), Born(Hours(48)), [FIRST, SECOND]), Hours(48), true)
  {
    var w := Due(Born(Hours(48)), Born(Hours(48)), [FIRST, SECOND]);
    TwoAreFound();
    Longer(OLD, run0, Hours(25), TerminatingSweep([7, 8]), Quiet(w, Hours(25), true));
    var run1 := run0.And(Hours(25), TerminatingSweep([7, 8]), Quiet(w, Hours(25), true));
    BothStay();
    Longer(OLD, run1, Hours(48), RemoveSweep, Quiet(w, Hours(48), true));
    run := run1.And(Hours(48), RemoveSweep, Quiet(w, Hours(48), true));
  }

  lemma OldSweep(run0: Run) returns (run: Run)
    requires run0.Of(OLD) && |run0.events| == 2
    requires run0.Last() == Quiet(Two(Born(Hours(48)), Born(Hours(48)), [], 0, []), 0, true)
    ensures run.Of(OLD) && |run.events| == 6 && |run.times| == 6 && |run.states| == 7
    ensures run.events[3..] == [RemoveSweep, SweepBegins, RoundBegins]
    ensures run.Last() == Waiting(true, Born(Hours(48)).(state := Deleting), Born(Hours(48)), [FIRST, SECOND])
  {
    var run1 := OldFound(run0);
    var w := Due(Born(Hours(48)), Born(Hours(48)), [FIRST, SECOND]);
    var m5 := Moment(Situation(w, Hours(48), true), [FIRST, SECOND], None);
    var m6 := Waiting(true, Born(Hours(48)).(state := Deleting), Born(Hours(48)), [FIRST, SECOND]);
    SweepOfTwo();
    Longer(OLD, run1, Hours(48), SweepBegins, m5);
    var run2 := run1.And(Hours(48), SweepBegins, m5);
    FirstRound();
    Longer(OLD, run2, Hours(48), RoundBegins, m6);
    run := run2.And(Hours(48), RoundBegins, m6);
  }

  /** While the deletion of the first instance is waited for, the second is granted an extension: its row is gone,
      but still on the list, and the instance is put into DELETING. */
  lemma ExtensionDuringSweepIsReached() returns (run: Run)
    ensures run.Of(OLD) && |run.events| == 9 && |run.times| == 9 && |run.states| == 10
    ensures run.events[3..] == [RemoveSweep, SweepBegins, RoundBegins, Extension(8, Some(Hours(1000)), false),
                                RoundEnds(Gone), RoundBegins]
    ensures SECOND !in run.states[8].s.w.table && TakesBusy(OLD, run.states, run.times, run.events, 8, 8)
  {
    var run0 := OldRun();
    var e := Extension(8, Some(Hours(1000)), false);
    var m7 := Waiting(false, Born(Hours(48)).(state := Deleting), Born(Hours(1000)), [FIRST]);
    var m8 := Between(Born(Hours(1000)), [SECOND], None);
    var m9 := Between(Born(Hours(1000)).(state := Deleting), [], Some(Wait(SECOND, Live("BUILDING"))));
    SecondIsExtended();
    Longer(OLD, run0, Hours(48), e, m7);
    var run1 := run0.And(Hours(48), e, m7);
    FirstIsGone();
    Longer(OLD, run1, Hours(48), RoundEnds(Gone), m8);
    var run2 := run1.And(Hours(48), RoundEnds(Gone), m8);
    SecondRound();
    Longer(OLD, run2, Hours(48), RoundBegins, m9);
    run := run2.And(Hours(48), RoundBegins, m9);
  }
}
