/** The expiration service and the granting of extensions as methods that update the stored records, each
    proved against the function that says what it does to them. */
module ExpirationService {
  import opened Basics
  import opened Expiration

  class InstanceExpirationService {
    const config: Config
    var instances: map<Id, Instance>
    var keys: seq<Id>                  // the keys of the instance table, in order
    var table: seq<Row>
    var nextId: nat
    var mails: seq<Mail>

    constructor (config: Config)
      ensures Valid() && this.config == config && Stored() == World(map[], [], 0, [])
    {
      this.config := config;
      instances, keys, table, nextId, mails := map[], [], [], 0, [];
    }

    ghost predicate Valid()
      reads this
    {
      TableOk(Stored()) && Distinct(keys) && forall i :: i in keys <==> i in instances
    }

    function Stored(): World
      reads this
    {
      World(instances, table, nextId, mails)
    }

    /** `getByInstance`; the table never holds two rows of one instance. */
    method GetByInstance(i: Id) returns (r: Option<Row>)
      requires Valid()
      ensures r.None? <==> !HasRow(table, i)
      ensures r.Some? ==> r.value in table && r.value.instance == i
    {
      for k := 0 to |table|
        invariant forall j :: 0 <= j < k ==> table[j].instance != i
      {
        if table[k].instance == i {
          return Some(table[k]);
        }
      }
      return None;
    }

    method Delete(x: Row)
      modifies this`table
      ensures table == DeleteRow(old(table), x)
    {
      table := DeleteRow(table, x);
    }

    method Create(i: Id, date: int, now: int)
      requires Valid() && i in instances
      modifies this`table, this`nextId
      ensures Stored() == Expiration.Create(old(Stored()), i, date, now)
    {
      var existing := GetByInstance(i);
      if existing.None? {
        table := table + [Row(nextId, i, date, now)];
        nextId := nextId + 1;
      }
    }

    /** `InstanceService.create`, as far as expirations go. */
    method CreateInstance(i: Id, staff: bool, now: int)
      requires Valid() && i !in instances
      modifies this`instances, this`keys
      ensures Valid()
      ensures instances == old(instances)[i :=
                Instance(staff, now, Some(now + Hours(Lifetime(config, staff))), false, Live("BUILDING"))]
      ensures var lifetime := if staff then config.staffMaxLifetime else config.userMaxLifetime;
              instances[i].terminationDate == Some(now + lifetime * 3600_000)
    {
      var hours := if staff then config.staffMaxLifetime else config.userMaxLifetime;
      instances := instances[i := Instance(staff, now, Some(now + hours * 60 * 60 * 1000), false, Live("BUILDING"))];
      keys := keys + [i];
    }

    /** The query for new inactive instances, kept to the owners of one kind. */
    method NewInactive(now: int, hours: int, staff: bool) returns (ids: seq<Id>)
      requires Valid()
      ensures Distinct(ids)
      ensures forall i :: i in ids <==>
                i in instances && IsNewInactive(Stored(), i, now, hours) && instances[i].staffOwner == staff
    {
      ids := [];
      for k := 0 to |keys|
        invariant Distinct(ids)
        invariant forall i :: i in ids <==>
                    i in keys[..k] && IsNewInactive(Stored(), i, now, hours) && instances[i].staffOwner == staff
      {
        var i := keys[k];
        assert i !in keys[..k];
        if IsNewInactive(Stored(), i, now, hours) && instances[i].staffOwner == staff {
          ids := ids + [i];
        }
        assert keys[..k + 1] == keys[..k] + [i];
      }
      assert keys[..|keys|] == keys;
    }

    method NewTerminations(now: int, hours: int) returns (ids: seq<Id>)
      requires Valid()
      ensures Distinct(ids)
      ensures forall i :: i in ids <==> i in instances && IsNewTermination(Stored(), i, now, hours)
    {
      ids := [];
      for k := 0 to |keys|
        invariant Distinct(ids)
        invariant forall i :: i in ids <==> i in keys[..k] && IsNewTermination(Stored(), i, now, hours)
      {
        var i := keys[k];
        assert i !in keys[..k];
        if IsNewTermination(Stored(), i, now, hours) {
          ids := ids + [i];
        }
        assert keys[..k + 1] == keys[..k] + [i];
      }
      assert keys[..|keys|] == keys;
    }

    /** Both queries, the one for ordinary owners first. */
    method FindInactive(now: int) returns (found: seq<Id>)
      requires Valid()
      ensures FoundInactive(Stored(), config, found, now)
    {
      var userHours := config.userMaxInactivity - HOURS_BEFORE_EXPIRATION_INACTIVITY;
      var staffHours := config.staffMaxInactivity - HOURS_BEFORE_EXPIRATION_INACTIVITY;
      var users := NewInactive(now, userHours, false);
      var staff := NewInactive(now, staffHours, true);
      found := users + staff;
      forall j, k | 0 <= j < k < |found| ensures found[j] != found[k] {
        if j < |users| <= k {
          assert users[j] in users && staff[k - |users|] in staff;
        }
      }
    }

    method CreateExpirationForAllInactiveInstances(now: int) returns (ghost ids: seq<Id>)
      requires Valid()
      modifies this`table, this`nextId, this`mails
      ensures FoundInactive(old(Stored()), config, ids, now)
      ensures Stored() == CreateInactive(old(Stored()), config, ids, now) && Valid()
    {
      var found := FindInactive(now);
      ids := found;
      for k := 0 to |found|
        invariant Stored() == CreateInactive(old(Stored()), config, found[..k], now) && Valid()
      {
        assert found[..k + 1] == found[..k] + [found[k]];
        ScheduleInactive(found[k], now);
      }
      assert found[..|found|] == found;
    }

    method ScheduleInactive(i: Id, now: int)
      requires Valid() && i in instances
      modifies this`table, this`nextId, this`mails
      ensures Valid()
      ensures var date := InactiveDate(old(Stored()), config, i);
              var w := Expiration.Create(old(Stored()), i, date, now);
              Stored() == w.(mails := w.mails + [Expiring(i, date)])
    {
      var max := if instances[i].staffOwner then config.staffMaxInactivity else config.userMaxInactivity;
      var date := instances[i].lastSeenAt + Hours(max);
      CreateKeepsTable(Stored(), i, date, now);
      Create(i, date, now);
      mails := mails + [Expiring(i, date)];
    }

    method CreateExpirationForAllTerminatingInstances(now: int) returns (ghost ids: seq<Id>)
      requires Valid()
      modifies this`table, this`nextId, this`mails
      ensures FoundTerminating(old(Stored()), ids, now)
      ensures Stored() == CreateTerminating(old(Stored()), ids, now) && Valid()
    {
      var found := NewTerminations(now, HOURS_BEFORE_EXPIRATION_LIFETIME);
      for k := 0 to |found|
        invariant Stored() == CreateTerminating(old(Stored()), found[..k], now) && Valid()
      {
        var i := found[k];
        assert found[..k + 1] == found[..k] + [i];
        if instances[i].terminationDate.Some? {
          CreateKeepsTable(Stored(), i, instances[i].terminationDate.value, now);
          Create(i, instances[i].terminationDate.value, now);
          mails := mails + [LifetimeReached(i)];
        }
      }
      assert found[..|found|] == found;
      ids := found;
    }

    /** The rows are visited from the newest to the oldest; each that is not due any more is deleted: the instance
        has no termination date now, or it has one later than the row and was active after the row was created. */
    method RemoveExpirationForAllActiveInstances()
      requires Valid()
      modifies this`table
      ensures Valid() && Stored() == RemoveActive(old(Stored()))
      ensures forall x :: x in table <==>
                x in old(table) && x.instance in instances && instances[x.instance].terminationDate.Some?
                && (instances[x.instance].terminationDate.value <= x.date || instances[x.instance].lastSeenAt <= x.createdAt)
    {
      FilterKeepsTable(Stored(), DueIn(instances));
      FilterMembers(table, DueIn(instances));
      var rows := table;
      var k := |rows|;
      SweptEnds(rows, DueIn(instances));
      while k > 0
        invariant 0 <= k <= |rows|
        invariant table == Swept(rows, k, DueIn(instances))
      {
        k := k - 1;
        SweptStep(rows, k, DueIn(instances));
        RemoveIfActive(rows[k]);
      }
    }

    method RemoveIfActive(x: Row)
      requires x.instance in instances
      modifies this`table
      ensures table == if StillDue(instances, x) then old(table) else DeleteRow(old(table), x)
    {
      var i := instances[x.instance];
      if i.terminationDate.Some? && i.terminationDate.value > x.date {
        if i.lastSeenAt > x.createdAt {
          Delete(x);
        }
      } else if i.terminationDate.None? {
        Delete(x);
      }
    }

    /** The row of the instance stays exactly when it is a lifetime row, dated no earlier than the termination. */
    method OnInstanceActivated(i: Id)
      requires Valid() && i in instances
      modifies this`table
      ensures Valid() && Stored() == Activate(old(Stored()), i)
      ensures forall x :: x in table <==>
                x in old(table)
                && (x.instance != i || (instances[i].terminationDate.Some? && instances[i].terminationDate.value <= x.date))
    {
      FilterKeepsTable(Stored(), SurvivesActivation(i, instances[i]));
      FilterMembers(table, SurvivesActivation(i, instances[i]));
      var survives := SurvivesActivation(i, instances[i]);
      var expiration := GetByInstance(i);
      var t := instances[i].terminationDate;
      if expiration.Some? && (t.None? || t.value > expiration.value.date) {
        DeleteIsFilter(table, expiration.value, survives);
        Delete(expiration.value);
      } else {
        FilterAll(table, survives);
      }
    }

    /** `InstanceExtensionRequestService.grantExtension` */
    method GrantExtension(i: Id, date: Option<int>, notify: bool)
      requires Valid() && i in instances
      modifies this`instances, this`table, this`mails
      ensures Stored() == Grant(old(Stored()), i, date, notify)
      ensures instances == old(instances)[i := old(instances)[i].(terminationDate := date)]
      ensures forall x :: x in table <==> x in old(table) && x.instance != i
      ensures mails == old(mails) + if notify then [ExtensionGranted(i)] else []
    {
      FilterMembers(table, NotOf(i));
      instances := instances[i := instances[i].(terminationDate := date)];
      var expiration := GetByInstance(i);
      if expiration.Some? {
        DeleteIsFilter(table, expiration.value, NotOf(i));
        Delete(expiration.value);
      } else {
        FilterAll(table, NotOf(i));
      }
      if notify {
        mails := mails + [ExtensionGranted(i)];
      }
    }

    /** How each deletion ends, and what other requests make of the records during each wait, are arguments. */
    method DeleteAllExpired(now: int, outcome: Row -> Outcome, meanwhile: Meanwhile)
      requires Valid() && IsFair(meanwhile)
      modifies this`instances, this`table, this`nextId, this`mails
      ensures Valid()
      ensures Stored() == DeleteAllWith(old(Stored()), Expired(old(Stored()), now), outcome, meanwhile)
    {
      DeleteAllWithKeepsTable(Stored(), Expired(Stored(), now), outcome, meanwhile);
      DeleteRows(Expired(Stored(), now), outcome, meanwhile);
    }

    /** The loop of the sweep; its list was fixed before. */
    method DeleteRows(rows: seq<Row>, outcome: Row -> Outcome, meanwhile: Meanwhile)
      requires IsFair(meanwhile) && forall x :: x in rows ==> x.instance in instances
      modifies this`instances, this`table, this`nextId, this`mails
      ensures Stored() == DeleteAllWith(old(Stored()), rows, outcome, meanwhile)
    {
      for k := 0 to |rows|
        invariant forall x :: x in rows ==> x.instance in old(instances)
        invariant Stored() == DeleteAllWith(old(Stored()), rows[..k], outcome, meanwhile)
      {
        assert rows[..k + 1][..k] == rows[..k] && rows[k] in rows;
        DeleteExpired(rows[k], outcome(rows[k]), k, meanwhile);
      }
      assert rows[..|rows|] == rows;
    }

    /** One round of the sweep. */
    method DeleteExpired(x: Row, outcome: Outcome, k: nat, meanwhile: Meanwhile)
      requires IsFair(meanwhile) && x.instance in instances
      modifies this`instances, this`table, this`nextId, this`mails
      ensures Stored() == DeleteOneWith(old(Stored()), x, outcome, k, meanwhile)
    {
      var previous := BeginRound(x);
      if previous.Some? {
        Serve(k, meanwhile);
        EndRound(x, previous.value, outcome);
      }
    }

    /** Up to the wait. The instance is stored as DELETING before its deletion is waited for. */
    method BeginRound(x: Row) returns (previous: Option<InstanceState>)
      requires x.instance in instances
      modifies this`instances, this`table
      ensures Stored() == BeginDeletion(old(Stored()), x)
      ensures old(instances)[x.instance].deleted ==>
                instances == old(instances) && forall y :: y in table <==> y in old(table) && y.id != x.id
      ensures !old(instances)[x.instance].deleted ==>
                && instances == old(instances)[x.instance := old(instances)[x.instance].(state := Deleting)]
                && table == old(table)
      ensures previous == if old(instances)[x.instance].deleted then None else Some(old(instances)[x.instance].state)
    {
      FilterMembers(table, OtherThan(x));
      var i := instances[x.instance];
      if !i.deleted {
        SetState(x.instance, Deleting);
        previous := Some(i.state);
      } else {
        Delete(x);
        previous := None;
      }
    }

    /** From the wait on. */
    method EndRound(x: Row, previous: InstanceState, outcome: Outcome)
      requires x.instance in instances
      modifies this`instances, this`table, this`mails
      ensures Stored() == EndDeletion(old(Stored()), x, previous, outcome)
      ensures outcome == Gone ==>
                && instances == old(instances)[x.instance := old(instances)[x.instance].(deleted := true, state := Deleted)]
                && (forall y :: y in table <==> y in old(table) && y.id != x.id)
                && mails == old(mails) + [InstanceDeleted(x.instance)]
      ensures outcome == StillThere ==> Stored() == old(Stored())
      ensures outcome == Failed ==>
                && instances == old(instances)[x.instance := old(instances)[x.instance].(state := previous)]
                && table == old(table) && mails == old(mails)
    {
      FilterMembers(table, OtherThan(x));
      match outcome
      case Gone =>
        instances := instances[x.instance := instances[x.instance].(deleted := true, state := Deleted)];
        Delete(x);
        mails := mails + [InstanceDeleted(x.instance)];
      case StillThere =>
      case Failed =>
        SetState(x.instance, previous);
    }

    /** Other requests. */
    method Serve(k: nat, meanwhile: Meanwhile)
      modifies this`instances, this`table, this`nextId, this`mails
      ensures Stored() == meanwhile(k, old(Stored()))
    {
      var w := meanwhile(k, Stored());
      instances, table, nextId, mails := w.instances, w.table, w.nextId, w.mails;
    }

    method SetState(i: Id, state: InstanceState)
      requires i in instances
      modifies this`instances
      ensures instances == old(instances)[i := old(instances)[i].(state := state)]
    {
      instances := instances[i := instances[i].(state := state)];
    }

    /** Deleting the one row that a filter refuses. */
    static lemma DeleteIsFilter(table: seq<Row>, x: Row, p: Row -> bool)
      requires RowsDistinct(table) && x in table
      requires forall y :: y in table ==> (p(y) <==> y.instance != x.instance)
      ensures DeleteRow(table, x) == Filter(table, p)
    {
      var k :| 0 <= k < |table| && table[k] == x;
      var a, b := table[..k], table[k + 1..];
      assert table == a + [x] + b;
      forall y | y in a || y in b ensures y.id != x.id && p(y) {
        assert y in table;
      }
      DeleteBetween(a, x, b);
      FilterBetween(a, x, b, p);
    }

    static lemma {:induction false} FilterConcat(a: seq<Row>, b: seq<Row>, p: Row -> bool)
      ensures Filter(a + b, p) == Filter(a, p) + Filter(b, p)
    {
      if b == [] {
        assert a + b == a;
      } else {
        var init := b[..|b| - 1];
        FilterConcat(a, init, p);
        assert (a + b)[..|a + b| - 1] == a + init;
      }
    }

    static lemma {:induction false} FilterAll(a: seq<Row>, p: Row -> bool)
      requires forall x :: x in a ==> p(x)
      ensures Filter(a, p) == a
    {
      if a != [] {
        FilterAll(a[..|a| - 1], p);
      }
    }

    /** The table when row k and those after it have been visited. */
    static ghost function Swept(rows: seq<Row>, k: nat, p: Row -> bool): seq<Row>
      requires k <= |rows|
    {
      rows[..k] + Filter(rows[k..], p)
    }

    static lemma SweptEnds(rows: seq<Row>, p: Row -> bool)
      ensures Swept(rows, |rows|, p) == rows && Swept(rows, 0, p) == Filter(rows, p)
    {
      assert rows[0..] == rows;
    }

    /** Row k is deleted between rows not visited yet and rows that were filtered already. */
    static lemma SweptStep(rows: seq<Row>, k: nat, p: Row -> bool)
      requires k < |rows| && RowsDistinct(rows)
      ensures Swept(rows, k, p) ==
              if p(rows[k]) then Swept(rows, k + 1, p) else DeleteRow(Swept(rows, k + 1, p), rows[k])
    {
      var a, x, b := rows[..k], rows[k], rows[k + 1..];
      FilterFirst(rows, k, p);
      assert rows[..k + 1] == a + [x];
      if p(x) {
        assert a + ([x] + Filter(b, p)) == a + [x] + Filter(b, p);
      } else {
        OthersDiffer(rows, k, p);
        DeleteBetween(a, x, Filter(b, p));
      }
    }

    static lemma FilterFirst(rows: seq<Row>, k: nat, p: Row -> bool)
      requires k < |rows|
      ensures Filter(rows[k..], p) == (if p(rows[k]) then [rows[k]] else []) + Filter(rows[k + 1..], p)
    {
      assert rows[k..] == [rows[k]] + rows[k + 1..] && [rows[k]][..0] == [];
      FilterConcat([rows[k]], rows[k + 1..], p);
    }

    static lemma OthersDiffer(rows: seq<Row>, k: nat, p: Row -> bool)
      requires k < |rows| && RowsDistinct(rows)
      ensures forall y :: y in rows[..k] || y in Filter(rows[k + 1..], p) ==> y.id != rows[k].id
    {
      FilterMembers(rows[k + 1..], p);
    }

    static lemma DeleteBetween(a: seq<Row>, x: Row, b: seq<Row>)
      requires forall y :: y in a ==> y.id != x.id
      requires forall y :: y in b ==> y.id != x.id
      ensures DeleteRow(a + [x] + b, x) == a + b
    {
      FilterBetween(a, x, b, OtherThan(x));
    }

    static lemma FilterBetween(a: seq<Row>, x: Row, b: seq<Row>, p: Row -> bool)
      requires !p(x) && (forall y :: y in a ==> p(y)) && (forall y :: y in b ==> p(y))
      ensures Filter(a + [x] + b, p) == a + b
    {
      calc {
        Filter(a + [x] + b, p);
        { FilterConcat(a + [x], b, p); }
        Filter(a + [x], p) + Filter(b, p);
        { FilterAll(b, p); }
        Filter(a + [x], p) + b;
        { assert (a + [x])[..|a|] == a; }
        Filter(a, p) + b;
        { FilterAll(a, p); }
        a + b;
      }
    }
  }
}
