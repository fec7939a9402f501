/** Expirations of instances: what each sweep does to the stored records, and the safety of whole runs.
    Dates are milliseconds. */
module Expiration {
  import opened Basics

  type Id = int

  datatype InstanceState = Deleting | Deleted | Live(name: string)

  datatype Instance = Instance(staffOwner: bool, lastSeenAt: int, terminationDate: Option<int>, deleted: bool,
                               state: InstanceState)

  // A row of the expiration table.
  datatype Row = Row(id: nat, instance: Id, date: int, createdAt: int)

  datatype Mail = Expiring(instance: Id, date: int) | LifetimeReached(instance: Id) | InstanceDeleted(instance: Id)
                | ExtensionGranted(instance: Id)

  // Hours that an instance of an ordinary and of a staff owner may be idle, and that it may live.
  datatype Config = Config(userMaxInactivity: int, staffMaxInactivity: int, userMaxLifetime: int, staffMaxLifetime: int)

  datatype World = World(instances: map<Id, Instance>, table: seq<Row>, nextId: nat, mails: seq<Mail>)

  const HOURS_BEFORE_EXPIRATION_INACTIVITY := 24
  const HOURS_BEFORE_EXPIRATION_LIFETIME := 48

  function Hours(h: int): int {
    h * 3600 * 1000
  }

  function MaxInactivity(config: Config, i: Instance): int {
    if i.staffOwner then config.staffMaxInactivity else config.userMaxInactivity
  }

  function Lifetime(config: Config, staff: bool): int {
    if staff then config.staffMaxLifetime else config.userMaxLifetime
  }

  // ---------------------------------------------------------------- the repository

  /** The rows that satisfy p, in order. */
  function Filter(rows: seq<Row>, p: Row -> bool): seq<Row> {
    if rows == [] then []
    else Filter(rows[..|rows| - 1], p) + (if p(rows[|rows| - 1]) then [rows[|rows| - 1]] else [])
  }

  predicate HasRow(table: seq<Row>, i: Id) {
    exists k :: 0 <= k < |table| && table[k].instance == i
  }

  function OtherThan(x: Row): Row -> bool {
    (y: Row) => y.id != x.id
  }

  function DeleteRow(table: seq<Row>, x: Row): seq<Row> {
    Filter(table, OtherThan(x))
  }

  /** The instances that have been idle for `hours`, may expire, and have no expiration yet. */
  predicate IsNewInactive(w: World, i: Id, now: int, hours: int) {
    && i in w.instances
    && !w.instances[i].deleted
    && w.instances[i].terminationDate.Some?
    && w.instances[i].lastSeenAt < now - Hours(hours)
    && !HasRow(w.table, i)
  }

  predicate IsNewTermination(w: World, i: Id, now: int, hours: int) {
    && i in w.instances
    && !w.instances[i].deleted
    && w.instances[i].terminationDate.Some?
    && w.instances[i].terminationDate.value < now + Hours(hours)
    && !HasRow(w.table, i)
  }

  predicate Distinct(ids: seq<Id>) {
    forall j, k :: 0 <= j < k < |ids| ==> ids[j] != ids[k]
  }

  // ---------------------------------------------------------------- the sweeps

  /** `create`: a second expiration of the same instance is not stored. */
  function Create(w: World, i: Id, date: int, now: int): World {
    if HasRow(w.table, i) then w
    else w.(table := w.table + [Row(w.nextId, i, date, now)], nextId := w.nextId + 1)
  }

  function InactiveDate(w: World, config: Config, i: Id): int
    requires i in w.instances
  {
    w.instances[i].lastSeenAt + Hours(MaxInactivity(config, w.instances[i]))
  }

  /** `createExpirationForAllInactiveInstances` over the instances it found. */
  function CreateInactive(w: World, config: Config, ids: seq<Id>, now: int): (w': World)
    requires forall i :: i in ids ==> i in w.instances
    ensures w'.instances == w.instances
  {
    if ids == [] then w
    else
      var i := ids[|ids| - 1];
      var w1 := CreateInactive(w, config, ids[..|ids| - 1], now);
      var date := InactiveDate(w1, config, i);
      var w2 := Create(w1, i, date, now);
      w2.(mails := w2.mails + [Expiring(i, date)])
  }

  /** The two queries of the sweep, each kept to the owners it is meant for, one after the other. */
  predicate FoundInactive(w: World, config: Config, ids: seq<Id>, now: int) {
    && Distinct(ids)
    && (forall i :: i in ids ==> i in w.instances && IsNewInactive(w, i, now, Threshold(config, w.instances[i])))
    && (forall i :: i in w.instances && IsNewInactive(w, i, now, Threshold(config, w.instances[i])) ==> i in ids)
  }

  function Threshold(config: Config, i: Instance): int {
    MaxInactivity(config, i) - HOURS_BEFORE_EXPIRATION_INACTIVITY
  }

  /** `createExpirationForAllTerminatingInstances` over the instances it found. */
  function CreateTerminating(w: World, ids: seq<Id>, now: int): (w': World)
    requires forall i :: i in ids ==> i in w.instances
    ensures w'.instances == w.instances
  {
    if ids == [] then w
    else
      var i := ids[|ids| - 1];
      var w1 := CreateTerminating(w, ids[..|ids| - 1], now);
      var date := w1.instances[i].terminationDate;
      if date.None? then w1
      else
        var w2 := Create(w1, i, date.value, now);
        w2.(mails := w2.mails + [LifetimeReached(i)])
  }

  predicate FoundTerminating(w: World, ids: seq<Id>, now: int) {
    && Distinct(ids)
    && (forall i :: i in ids ==> IsNewTermination(w, i, now, HOURS_BEFORE_EXPIRATION_LIFETIME))
    && (forall i :: i in w.instances && IsNewTermination(w, i, now, HOURS_BEFORE_EXPIRATION_LIFETIME) ==> i in ids)
  }

  /** The rows that the remove sweep keeps: the instance can still expire, and the row is not an
      inactivity row from before the last activity. */
  predicate StillDue(instances: map<Id, Instance>, x: Row) {
    x.instance in instances ==>
      var i := instances[x.instance];
      i.terminationDate.Some? && !(i.terminationDate.value > x.date && i.lastSeenAt > x.createdAt)
  }

  function DueIn(instances: map<Id, Instance>): Row -> bool {
    (x: Row) => StillDue(instances, x)
  }

  function RemoveActive(w: World): World {
    w.(table := Filter(w.table, DueIn(w.instances)))
  }

  /** `onInstanceActivated` */
  predicate EndsOnActivation(i: Instance, x: Row) {
    i.terminationDate.None? || i.terminationDate.value > x.date
  }

  function SurvivesActivation(i: Id, instance: Instance): Row -> bool {
    (x: Row) => !(x.instance == i && EndsOnActivation(instance, x))
  }

  function Activate(w: World, i: Id): World
    requires i in w.instances
  {
    w.(table := Filter(w.table, SurvivesActivation(i, w.instances[i])))
  }

  function NotOf(i: Id): Row -> bool {
    (x: Row) => x.instance != i
  }

  /** `grantExtension` */
  function Grant(w: World, i: Id, date: Option<int>, notify: bool): World
    requires i in w.instances
  {
    w.(instances := w.instances[i := w.instances[i].(terminationDate := date)],
       table := Filter(w.table, NotOf(i)),
       mails := if notify then w.mails + [ExtensionGranted(i)] else w.mails)
  }

  // What the wait for the delete command comes to: no instance any more, still one, or an exception.
  datatype Outcome = Gone | StillThere | Failed

  /** One round of `deleteAllExpired`. */
  function DeleteOne(w: World, x: Row, outcome: Outcome): World
    requires x.instance in w.instances
  {
    var i := w.instances[x.instance];
    if i.deleted then w.(table := DeleteRow(w.table, x))
    else
      match outcome
      case Gone =>
        w.(instances := w.instances[x.instance := i.(deleted := true, state := Deleted)],
           table := DeleteRow(w.table, x),
           mails := w.mails + [InstanceDeleted(x.instance)])
      case StillThere => w.(instances := w.instances[x.instance := i.(state := Deleting)])
      case Failed => w.(instances := w.instances[x.instance := i])
  }

  function DeleteAll(w: World, rows: seq<Row>, outcome: Row -> Outcome): (w': World)
    requires forall x :: x in rows ==> x.instance in w.instances
    ensures w'.instances.Keys == w.instances.Keys
  {
    if rows == [] then w
    else
      var x := rows[|rows| - 1];
      DeleteOne(DeleteAll(w, rows[..|rows| - 1], outcome), x, outcome(x))
  }

  function DueBy(now: int): Row -> bool {
    (x: Row) => x.date <= now
  }

  function Expired(w: World, now: int): (rows: seq<Row>)
    ensures forall x :: x in rows <==> x in w.table && x.date <= now
  {
    FilterMembers(w.table, DueBy(now));
    Filter(w.table, DueBy(now))
  }

  // ---------------------------------------------------------------- one expiration per instance

  predicate RowsDistinct(rows: seq<Row>) {
    forall j, k :: 0 <= j < k < |rows| ==> rows[j].instance != rows[k].instance && rows[j].id != rows[k].id
  }

  /** No instance has two expirations, and every expiration belongs to an instance. */
  predicate TableOk(w: World) {
    && RowsDistinct(w.table)
    && forall x :: x in w.table ==> x.id < w.nextId && x.instance in w.instances
  }

  lemma {:induction false} FilterMembers(rows: seq<Row>, p: Row -> bool)
    ensures forall x :: x in Filter(rows, p) <==> x in rows && p(x)
  {
    if rows != [] {
      FilterMembers(rows[..|rows| - 1], p);
      assert rows == rows[..|rows| - 1] + [rows[|rows| - 1]];
    }
  }

  lemma {:induction false} FilterDistinct(rows: seq<Row>, p: Row -> bool)
    requires RowsDistinct(rows)
    ensures RowsDistinct(Filter(rows, p))
  {
    if rows != [] {
      var init := rows[..|rows| - 1];
      FilterDistinct(init, p);
      FilterMembers(init, p);
      assert forall x :: x in init ==> x.instance != rows[|rows| - 1].instance && x.id != rows[|rows| - 1].id;
    }
  }

  lemma FilterKeepsTable(w: World, p: Row -> bool)
    requires TableOk(w)
    ensures TableOk(w.(table := Filter(w.table, p)))
  {
    FilterMembers(w.table, p);
    FilterDistinct(w.table, p);
  }

  lemma CreateKeepsTable(w: World, i: Id, date: int, now: int)
    requires TableOk(w) && i in w.instances
    ensures TableOk(Create(w, i, date, now))
  {
  }

  lemma {:induction false} CreateInactiveKeepsTable(w: World, config: Config, ids: seq<Id>, now: int)
    requires TableOk(w) && forall i :: i in ids ==> i in w.instances
    ensures TableOk(CreateInactive(w, config, ids, now))
  {
    if ids != [] {
      var i, w1 := ids[|ids| - 1], CreateInactive(w, config, ids[..|ids| - 1], now);
      CreateInactiveKeepsTable(w, config, ids[..|ids| - 1], now);
      CreateKeepsTable(w1, i, InactiveDate(w1, config, i), now);
    }
  }

  lemma {:induction false} CreateTerminatingKeepsTable(w: World, ids: seq<Id>, now: int)
    requires TableOk(w) && forall i :: i in ids ==> i in w.instances
    ensures TableOk(CreateTerminating(w, ids, now))
  {
    if ids != [] {
      var i, w1 := ids[|ids| - 1], CreateTerminating(w, ids[..|ids| - 1], now);
      CreateTerminatingKeepsTable(w, ids[..|ids| - 1], now);
      if w1.instances[i].terminationDate.Some? {
        CreateKeepsTable(w1, i, w1.instances[i].terminationDate.value, now);
      }
    }
  }

  lemma {:induction false} DeleteAllKeepsTable(w: World, rows: seq<Row>, outcome: Row -> Outcome)
    requires TableOk(w) && forall x :: x in rows ==> x.instance in w.instances
    ensures TableOk(DeleteAll(w, rows, outcome))
  {
    if rows != [] {
      var x, w1 := rows[|rows| - 1], DeleteAll(w, rows[..|rows| - 1], outcome);
      DeleteAllKeepsTable(w, rows[..|rows| - 1], outcome);
      FilterKeepsTable(w1, OtherThan(x));
    }
  }

  // ---------------------------------------------------------------- what a delete sweep does

  /** Whether the row of an instance goes. */
  predicate Leaves(w: World, x: Row, outcome: Outcome)
    requires x.instance in w.instances
  {
    w.instances[x.instance].deleted || outcome == Gone
  }

  /** What becomes of the instance of an expired row. */
  function Treated(i: Instance, outcome: Outcome): Instance {
    if i.deleted || outcome == Failed then i
    else if outcome == Gone then i.(deleted := true, state := Deleted)
    else i.(state := Deleting)
  }

  /** The deletion mails: one for each instance that this sweep deleted, in order. */
  function DeletionMails(w: World, rows: seq<Row>, outcome: Row -> Outcome): seq<Mail>
    requires forall x :: x in rows ==> x.instance in w.instances
  {
    if rows == [] then []
    else
      var x := rows[|rows| - 1];
      DeletionMails(w, rows[..|rows| - 1], outcome) +
      (if !w.instances[x.instance].deleted && outcome(x) == Gone then [InstanceDeleted(x.instance)] else [])
  }

  lemma LastRow(rows: seq<Row>)
    requires rows != [] && RowsDistinct(rows)
    ensures var init, x := rows[..|rows| - 1], rows[|rows| - 1];
            && RowsDistinct(init) && !HasRow(init, x.instance)
            && (forall y :: y in rows <==> y in init || y == x)
            && (forall i :: HasRow(rows, i) <==> HasRow(init, i) || i == x.instance)
  {
    var init, x := rows[..|rows| - 1], rows[|rows| - 1];
    assert rows == init + [x];
    assert HasRow(rows, x.instance);
    assert forall k :: 0 <= k < |init| ==> rows[k] == init[k];
  }

  lemma DeleteOneInstances(w: World, x: Row, outcome: Outcome)
    requires x.instance in w.instances
    ensures DeleteOne(w, x, outcome).instances == w.instances[x.instance := Treated(w.instances[x.instance], outcome)]
  {
  }

  lemma {:induction false} DeleteAllInstances(w: World, rows: seq<Row>, outcome: Row -> Outcome)
    requires RowsDistinct(rows) && forall x :: x in rows ==> x.instance in w.instances
    ensures var w' := DeleteAll(w, rows, outcome);
            && (forall x :: x in rows ==> w'.instances[x.instance] == Treated(w.instances[x.instance], outcome(x)))
            && (forall i :: i in w.instances && !HasRow(rows, i) ==> w'.instances[i] == w.instances[i])
  {
    if rows != [] {
      var init, x := rows[..|rows| - 1], rows[|rows| - 1];
      LastRow(rows);
      DeleteAllInstances(w, init, outcome);
      DeleteOneInstances(DeleteAll(w, init, outcome), x, outcome(x));
      assert forall y :: y in init ==> HasRow(init, y.instance);
    }
  }

  /** No earlier round has touched the instance of the last row. */
  lemma LastInstance(w: World, rows: seq<Row>, outcome: Row -> Outcome)
    requires rows != [] && RowsDistinct(rows) && forall x :: x in rows ==> x.instance in w.instances
    ensures var init, x := rows[..|rows| - 1], rows[|rows| - 1];
            DeleteAll(w, init, outcome).instances[x.instance] == w.instances[x.instance]
  {
    LastRow(rows);
    DeleteAllInstances(w, rows[..|rows| - 1], outcome);
  }

  /** The last round takes its row out or leaves the table alone. */
  lemma LastRound(w: World, w1: World, x: Row, outcome: Outcome)
    requires TableOk(w) && x in w.table && x.instance in w1.instances && forall y :: y in w1.table ==> y in w.table
    ensures forall y :: y in DeleteOne(w1, x, outcome).table <==>
              y in w1.table && !(y == x && Leaves(w1, x, outcome))
  {
    DeleteRowMembers(w, w1.table, x);
  }

  lemma {:induction false} DeleteAllTable(w: World, rows: seq<Row>, outcome: Row -> Outcome)
    requires TableOk(w) && RowsDistinct(rows) && forall x :: x in rows ==> x in w.table
    ensures var w' := DeleteAll(w, rows, outcome);
            forall x :: x in w'.table <==> x in w.table && !(x in rows && Leaves(w, x, outcome(x)))
  {
    if rows != [] {
      var init, x := rows[..|rows| - 1], rows[|rows| - 1];
      LastRow(rows);
      DeleteAllTable(w, init, outcome);
      LastInstance(w, rows, outcome);
      LastRound(w, DeleteAll(w, init, outcome), x, outcome(x));
    }
  }

  lemma {:induction false} DeleteAllMails(w: World, rows: seq<Row>, outcome: Row -> Outcome)
    requires RowsDistinct(rows) && forall x :: x in rows ==> x.instance in w.instances
    ensures DeleteAll(w, rows, outcome).mails == w.mails + DeletionMails(w, rows, outcome)
  {
    if rows != [] {
      var init, x := rows[..|rows| - 1], rows[|rows| - 1];
      LastRow(rows);
      DeleteAllMails(w, init, outcome);
      LastInstance(w, rows, outcome);
    }
  }

  /** Every expired row has exactly one outcome, nothing else changes, and the mails are for the
      instances that this sweep deleted. */
  lemma DeleteOutcomes(w: World, now: int, outcome: Row -> Outcome)
    requires TableOk(w)
    ensures var rows := Expired(w, now);
            && (forall x :: x in rows <==> x in w.table && x.date <= now)
            && var w' := DeleteAll(w, rows, outcome);
            && (forall x :: x in w'.table <==> x in w.table && !(x.date <= now && Leaves(w, x, outcome(x))))
            && (forall x :: x in rows ==> w'.instances[x.instance] == Treated(w.instances[x.instance], outcome(x)))
            && (forall i :: i in w.instances && !HasRow(rows, i) ==> w'.instances[i] == w.instances[i])
            && w'.mails == w.mails + DeletionMails(w, rows, outcome)
  {
    var rows := Expired(w, now);
    FilterMembers(w.table, DueBy(now));
    FilterDistinct(w.table, DueBy(now));
    DeleteAllInstances(w, rows, outcome);
    DeleteAllTable(w, rows, outcome);
    DeleteAllMails(w, rows, outcome);
  }

  /** Ids tell the rows of the table apart. */
  lemma DeleteRowMembers(w: World, table: seq<Row>, x: Row)
    requires TableOk(w) && x in w.table && forall y :: y in table ==> y in w.table
    ensures forall y :: y in DeleteRow(table, x) <==> y in table && y != x
  {
    FilterMembers(table, OtherThan(x));
  }

  // ---------------------------------------------------------------- the two halves of a round

  /** The first half of a round: a deleted instance loses its row, another one is put into DELETING. */
  function BeginDeletion(w: World, x: Row): World
    requires x.instance in w.instances
  {
    var i := w.instances[x.instance];
    if i.deleted then w.(table := DeleteRow(w.table, x))
    else w.(instances := w.instances[x.instance := i.(state := Deleting)])
  }

  /** The second half, when the deletion that was waited for has come to an end. */
  function EndDeletion(w: World, x: Row, previous: InstanceState, outcome: Outcome): World
    requires x.instance in w.instances
  {
    var i := w.instances[x.instance];
    match outcome
    case Gone =>
      w.(instances := w.instances[x.instance := i.(deleted := true, state := Deleted)],
         table := DeleteRow(w.table, x),
         mails := w.mails + [InstanceDeleted(x.instance)])
    case StillThere => w
    case Failed => w.(instances := w.instances[x.instance := i.(state := previous)])
  }

  /** A round during which nothing else is recorded. */
  lemma DeleteOneIsRound(w: World, x: Row, outcome: Outcome)
    requires x.instance in w.instances
    ensures var i := w.instances[x.instance];
            DeleteOne(w, x, outcome) ==
              if i.deleted then BeginDeletion(w, x) else EndDeletion(BeginDeletion(w, x), x, i.state, outcome)
  {
    var i := w.instances[x.instance];
    if !i.deleted {
      var w1 := BeginDeletion(w, x);
      assert w.instances[x.instance := i.(state := Deleting)][x.instance := i.(deleted := true, state := Deleted)]
          == w.instances[x.instance := i.(deleted := true, state := Deleted)];
      assert w.instances[x.instance := i.(state := Deleting)][x.instance := i] == w.instances[x.instance := i];
    }
  }

  // What other requests make of the records while the deletion of the k-th row is waited for.
  type Meanwhile = (nat, World) -> World

  /** Other requests create no instance and lose none, and keep the table in order. */
  ghost predicate IsFair(meanwhile: Meanwhile) {
    forall k: nat, w: World {:trigger meanwhile(k, w)} ::
      meanwhile(k, w).instances.Keys == w.instances.Keys && (TableOk(w) ==> TableOk(meanwhile(k, w)))
  }

  /** `deleteAllExpired` over its list, with other requests served during each wait. */
  ghost function DeleteAllWith(w: World, rows: seq<Row>, outcome: Row -> Outcome, meanwhile: Meanwhile): (w': World)
    requires IsFair(meanwhile) && forall x :: x in rows ==> x.instance in w.instances
    ensures w'.instances.Keys == w.instances.Keys
  {
    if rows == [] then w
    else
      var k := |rows| - 1;
      var x, w1 := rows[k], DeleteAllWith(w, rows[..k], outcome, meanwhile);
      DeleteOneWith(w1, x, outcome(x), k, meanwhile)
  }

  ghost function DeleteOneWith(w: World, x: Row, outcome: Outcome, k: nat, meanwhile: Meanwhile): (w': World)
    requires IsFair(meanwhile) && x.instance in w.instances
    ensures w'.instances.Keys == w.instances.Keys
  {
    var i := w.instances[x.instance];
    if i.deleted then BeginDeletion(w, x)
    else EndDeletion(meanwhile(k, BeginDeletion(w, x)), x, i.state, outcome)
  }

  ghost function Undisturbed(): Meanwhile {
    (k: nat, w: World) => w
  }

  /** With nothing recorded during the waits this is the plain sweep. */
  lemma {:induction false} QuietSweep(w: World, rows: seq<Row>, outcome: Row -> Outcome)
    requires forall x :: x in rows ==> x.instance in w.instances
    ensures IsFair(Undisturbed()) && DeleteAllWith(w, rows, outcome, Undisturbed()) == DeleteAll(w, rows, outcome)
  {
    if rows != [] {
      var k := |rows| - 1;
      QuietSweep(w, rows[..k], outcome);
      DeleteOneIsRound(DeleteAll(w, rows[..k], outcome), rows[k], outcome(rows[k]));
    }
  }

  lemma {:induction false} DeleteAllWithKeepsTable(w: World, rows: seq<Row>, outcome: Row -> Outcome, meanwhile: Meanwhile)
    requires TableOk(w) && IsFair(meanwhile) && forall x :: x in rows ==> x.instance in w.instances
    ensures TableOk(DeleteAllWith(w, rows, outcome, meanwhile))
  {
    if rows != [] {
      var k := |rows| - 1;
      DeleteAllWithKeepsTable(w, rows[..k], outcome, meanwhile);
      RoundKeepsTable(DeleteAllWith(w, rows[..k], outcome, meanwhile), rows[k], outcome(rows[k]), k, meanwhile);
    }
  }

  lemma BeginKeepsTable(w: World, x: Row)
    requires TableOk(w) && x.instance in w.instances
    ensures TableOk(BeginDeletion(w, x))
  {
    FilterKeepsTable(w, OtherThan(x));
  }

  lemma EndKeepsTable(w: World, x: Row, previous: InstanceState, outcome: Outcome)
    requires TableOk(w) && x.instance in w.instances
    ensures TableOk(EndDeletion(w, x, previous, outcome))
  {
    FilterKeepsTable(w, OtherThan(x));
  }

  lemma RoundKeepsTable(w: World, x: Row, outcome: Outcome, k: nat, meanwhile: Meanwhile)
    requires TableOk(w) && IsFair(meanwhile) && x.instance in w.instances
    ensures TableOk(DeleteOneWith(w, x, outcome, k, meanwhile))
  {
    BeginKeepsTable(w, x);
    if !w.instances[x.instance].deleted {
      EndKeepsTable(meanwhile(k, BeginDeletion(w, x)), x, w.instances[x.instance].state, outcome);
    }
  }

  // ---------------------------------------------------------------- the inactivity sweep

  /** The rows that the sweep adds: one for each instance found, in order. */
  function NewRows(w: World, config: Config, ids: seq<Id>, now: int): (rows: seq<Row>)
    requires forall i :: i in ids ==> i in w.instances
    ensures |rows| == |ids|
  {
    seq(|ids|, k requires 0 <= k < |ids| => Row(w.nextId + k, ids[k], InactiveDate(w, config, ids[k]), now))
  }

  /** None of the rows so far is of the next instance. */
  lemma NotYet(w: World, config: Config, ids: seq<Id>, now: int, i: Id, k: nat)
    requires (forall j :: j in ids ==> j in w.instances && j != i) && !HasRow(w.table, i)
    requires k < |w.table| + |ids|
    ensures (w.table + NewRows(w, config, ids, now))[k].instance != i
  {
    if k < |w.table| {
      assert (w.table + NewRows(w, config, ids, now))[k] == w.table[k];
    } else {
      assert (w.table + NewRows(w, config, ids, now))[k] == NewRows(w, config, ids, now)[k - |w.table|];
      assert ids[k - |w.table|] in ids;
    }
  }

  /** Each instance is handled once: one row and one mail for each, in order. */
  lemma {:induction false} InactiveSweepIsExact(w: World, config: Config, ids: seq<Id>, now: int)
    requires Distinct(ids) && forall i :: i in ids ==> i in w.instances && !HasRow(w.table, i)
    ensures var w' := CreateInactive(w, config, ids, now);
            && w'.table == w.table + NewRows(w, config, ids, now)
            && w'.nextId == w.nextId + |ids|
            && w'.mails == w.mails + NewMails(w, config, ids)
  {
    if ids != [] {
      var init, i := ids[..|ids| - 1], ids[|ids| - 1];
      InactiveSweepIsExact(w, config, init, now);
      assert forall j :: j in init ==> j in ids && j != i;
      assert i in ids;
      NextRow(w, config, ids, now);
      NextMail(w, config, ids);
      NoRowYet(w, config, init, now, i);
    }
  }

  lemma NoRowYet(w: World, config: Config, ids: seq<Id>, now: int, i: Id)
    requires (forall j :: j in ids ==> j in w.instances && j != i) && !HasRow(w.table, i)
    ensures !HasRow(w.table + NewRows(w, config, ids, now), i)
  {
    forall k | 0 <= k < |w.table| + |ids| ensures (w.table + NewRows(w, config, ids, now))[k].instance != i {
      NotYet(w, config, ids, now, i, k);
    }
  }

  lemma NextRow(w: World, config: Config, ids: seq<Id>, now: int)
    requires ids != [] && forall i :: i in ids ==> i in w.instances
    ensures var init, i := ids[..|ids| - 1], ids[|ids| - 1];
            (forall j :: j in init ==> j in w.instances) && i in w.instances
            && w.table + NewRows(w, config, ids, now)
               == w.table + NewRows(w, config, init, now) + [Row(w.nextId + |init|, i, InactiveDate(w, config, i), now)]
  {
    var init, i := ids[..|ids| - 1], ids[|ids| - 1];
    assert forall j :: j in init ==> j in ids;
    assert i in ids;
    assert NewRows(w, config, ids, now) == NewRows(w, config, init, now)
           + [Row(w.nextId + |init|, i, InactiveDate(w, config, i), now)];
  }

  /** The mails that the sweep sends. */
  function NewMails(w: World, config: Config, ids: seq<Id>): (mails: seq<Mail>)
    requires forall i :: i in ids ==> i in w.instances
    ensures |mails| == |ids|
  {
    seq(|ids|, k requires 0 <= k < |ids| => Expiring(ids[k], InactiveDate(w, config, ids[k])))
  }

  lemma NextMail(w: World, config: Config, ids: seq<Id>)
    requires ids != [] && forall i :: i in ids ==> i in w.instances
    ensures var init, i := ids[..|ids| - 1], ids[|ids| - 1];
            (forall j :: j in init ==> j in w.instances) && i in w.instances
            && w.mails + NewMails(w, config, ids)
               == w.mails + NewMails(w, config, init) + [Expiring(i, InactiveDate(w, config, i))]
  {
    var init, i := ids[..|ids| - 1], ids[|ids| - 1];
    assert forall j :: j in init ==> j in ids;
    assert i in ids;
    assert NewMails(w, config, ids) == NewMails(w, config, init) + [Expiring(i, InactiveDate(w, config, i))];
  }

  /** The expirations of the sweep lie less than 24 hours ahead. */
  lemma InactiveDateIsNear(w: World, config: Config, ids: seq<Id>, now: int, i: Id)
    requires FoundInactive(w, config, ids, now) && i in ids
    ensures InactiveDate(w, config, i) < now + Hours(HOURS_BEFORE_EXPIRATION_INACTIVITY)
  {
  }
}
