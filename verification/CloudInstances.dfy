/** Instances grouped by the cloud that they run on. */
module CloudInstances {
  import opened Basics
  import opened CloudGateway
  import opened CloudService

  datatype Instance = Instance(id: nat, cloudId: Option<Id>)

  // The part of a client that makes two clients equal as keys of a map.
  datatype ClientKey = ClientKey(id: Id, name: string, prefix: string)

  type Groups = map<ClientKey, seq<Instance>>

  function KeyOf(c: CloudClient): ClientKey {
    ClientKey(c.id, c.name, c.prefix)
  }

  ghost function Keys(s: State): set<ClientKey> {
    set i | i in s.clients :: KeyOf(s.clients[i])
  }

  /** The ids of the index, each once. */
  ghost predicate Lists(s: State, ids: seq<Id>) {
    && (forall i :: i in ids <==> i in s.clients)
    && forall j, k :: 0 <= j < k < |ids| ==> ids[j] != ids[k]
  }

  /** The instances of one client, in their order. */
  function Bucket(s: State, instances: seq<Instance>, key: ClientKey): seq<Instance> {
    if instances == [] then []
    else
      var last := instances[|instances| - 1];
      var c := ClientFor(s, last.cloudId);
      Bucket(s, instances[..|instances| - 1], key) + (if c.Some? && KeyOf(c.value) == key then [last] else [])
  }

  /** The instances of no client. */
  function Unresolved(s: State, instances: seq<Instance>): seq<Instance> {
    if instances == [] then []
    else
      var last := instances[|instances| - 1];
      Unresolved(s, instances[..|instances| - 1]) + (if ClientFor(s, last.cloudId).None? then [last] else [])
  }

  /** An instance whose client has no bucket: looking it up fails on null. */
  ghost predicate Missing(s: State, i: Instance) {
    ClientFor(s, i.cloudId).Some? && KeyOf(ClientFor(s, i.cloudId).value) !in Keys(s)
  }

  /** None stands for the null that is met where a client has no bucket. */
  method GetAllByCloud(gateway: CloudClientGateway, ids: seq<Id>, instances: seq<Instance>, ghost s: State)
    returns (r: Option<Groups>)
    requires gateway.Stores(s) && Lists(s, ids)
    ensures r.None? <==> exists i :: i in instances && Missing(s, i)
    ensures r.Some? ==> r.value.Keys == Keys(s)
                        && forall key :: key in r.value ==> r.value[key] == Bucket(s, instances, key)
  {
    var groups := EmptyGroups(gateway, ids, s);
    for k := 0 to |instances|
      invariant groups.Keys == Keys(s)
      invariant forall key :: key in groups ==> groups[key] == Bucket(s, instances[..k], key)
      invariant forall i :: i in instances[..k] ==> !Missing(s, i)
    {
      var i := instances[k];
      assert instances[..k + 1] == instances[..k] + [i] && instances[..k + 1][..k] == instances[..k];
      var c := gateway.GetCloudClient(i.cloudId, s);
      if c.Some? {
        if KeyOf(c.value) !in groups {
          assert i in instances && Missing(s, i);
          return None;
        }
        groups := groups[KeyOf(c.value) := groups[KeyOf(c.value)] + [i]];
      }
    }
    assert instances[..|instances|] == instances;
    r := Some(groups);
  }

  method EmptyGroups(gateway: CloudClientGateway, ids: seq<Id>, ghost s: State) returns (groups: Groups)
    requires gateway.Stores(s) && Lists(s, ids)
    ensures groups.Keys == Keys(s)
    ensures forall key :: key in groups ==> groups[key] == []
  {
    groups := map[];
    for k := 0 to |ids|
      invariant forall key :: key in groups <==> exists j :: 0 <= j < k && key == KeyFor(s, ids[j])
      invariant forall key :: key in groups ==> groups[key] == []
    {
      var i := ids[k];
      assert i in ids;
      groups := groups[KeyOf(gateway.secondaryCloudClients[i]) := []];
    }
    forall key | key in Keys(s) ensures key in groups {
      var i :| i in s.clients && key == KeyOf(s.clients[i]);
      assert i in ids;
      var j :| 0 <= j < |ids| && ids[j] == i;
      assert key == KeyFor(s, ids[j]);
    }
    forall key | key in groups ensures key in Keys(s) {
      var j :| 0 <= j < |ids| && key == KeyFor(s, ids[j]);
      var i := ids[j];
      assert i in ids;
    }
  }

  ghost function KeyFor(s: State, i: Id): ClientKey {
    if i in s.clients then KeyOf(s.clients[i]) else ClientKey(i, "", "")
  }

  /** A lookup fails exactly for an instance without a cloud id when the default client has no bucket. */
  lemma MissingIff(s: State, i: Instance)
    ensures Missing(s, i) <==> i.cloudId.None? && s.default.Some? && KeyOf(s.default.value) !in Keys(s)
  {
    if i.cloudId.Some? {
      var c := i.cloudId.value;
      assert c in s.clients ==> KeyOf(s.clients[c]) in Keys(s);
    }
  }

  /** No lookup fails while the index agrees with the table. */
  lemma NeverMissing(s: State, i: Instance)
    requires Agrees(s)
    ensures !Missing(s, i)
  {
    MissingIff(s, i);
    if s.default.Some? {
      assert Found(s.clients, DEFAULT_ID) == Entry(s.table, s.default, DEFAULT_ID);
      assert KeyOf(s.clients[DEFAULT_ID]) in Keys(s);
    }
  }

  /** An instance belongs in the bucket of its own client and in no other. */
  lemma OwnKey(s: State, i: Instance, c: Id)
    requires Agrees(s) && c in s.clients
    ensures ClientFor(s, i.cloudId).Some? && KeyOf(ClientFor(s, i.cloudId).value) == KeyOf(s.clients[c])
            <==> HomeOf(i.cloudId) == c
  {
    NoIdIsDefault(s, i.cloudId);
    KeysAreIds(s, c);
    if HomeOf(i.cloudId) in s.clients {
      KeysAreIds(s, HomeOf(i.cloudId));
    }
  }

  function Homed(instances: seq<Instance>, c: Id): seq<Instance> {
    if instances == [] then []
    else Homed(instances[..|instances| - 1], c)
         + (if HomeOf(instances[|instances| - 1].cloudId) == c then [instances[|instances| - 1]] else [])
  }

  /** The bucket of a client holds the instances that name it, in their order; that of the default client
      also those that name none. */
  lemma {:induction false} BucketIsHomed(s: State, instances: seq<Instance>, c: Id)
    requires Agrees(s) && c in s.clients
    ensures Bucket(s, instances, KeyOf(s.clients[c])) == Homed(instances, c)
  {
    if instances != [] {
      BucketIsHomed(s, instances[..|instances| - 1], c);
      OwnKey(s, instances[|instances| - 1], c);
    }
  }

  function Total(instances: seq<Instance>, ids: seq<Id>): nat {
    if ids == [] then 0
    else Total(instances, ids[..|ids| - 1]) + |Homed(instances, ids[|ids| - 1])|
  }

  lemma HomedOfLast(instances: seq<Instance>, c: Id)
    requires instances != []
    ensures |Homed(instances, c)| == |Homed(instances[..|instances| - 1], c)|
                                     + if HomeOf(instances[|instances| - 1].cloudId) == c then 1 else 0
  {
  }

  lemma {:induction false} TotalOfLast(instances: seq<Instance>, ids: seq<Id>)
    requires instances != [] && forall j, k :: 0 <= j < k < |ids| ==> ids[j] != ids[k]
    ensures Total(instances, ids) == Total(instances[..|instances| - 1], ids)
                                     + if HomeOf(instances[|instances| - 1].cloudId) in ids then 1 else 0
  {
    if ids != [] {
      var init, c := ids[..|ids| - 1], ids[|ids| - 1];
      TotalOfLast(instances, init);
      HomedOfLast(instances, c);
      assert ids == init + [c] && c !in init;
    }
  }

  /** The buckets and the instances without a client add up to all instances. */
  lemma {:induction false} BucketsAddUp(s: State, ids: seq<Id>, instances: seq<Instance>)
    requires Agrees(s) && Lists(s, ids)
    ensures Total(instances, ids) + |Unresolved(s, instances)| == |instances|
  {
    if instances == [] {
      NothingAddsUp(ids);
    } else {
      var init, last := instances[..|instances| - 1], instances[|instances| - 1];
      BucketsAddUp(s, ids, init);
      TotalOfLast(instances, ids);
      NoIdIsDefault(s, last.cloudId);
    }
  }

  lemma {:induction false} NothingAddsUp(ids: seq<Id>)
    ensures Total([], ids) == 0
  {
    if ids != [] {
      NothingAddsUp(ids[..|ids| - 1]);
    }
  }

  /** After any run of requests, grouping succeeds and is a partition by the client that each instance names. */
  lemma GroupsArePartition(states: seq<State>, requests: seq<Request>, ids: seq<Id>, instances: seq<Instance>)
    requires IsRun(states, requests) && Lists(states[|requests|], ids)
    ensures var s := states[|requests|];
            && (forall i :: i in instances ==> !Missing(s, i))
            && (forall c :: c in ids ==> Bucket(s, instances, KeyOf(s.clients[c])) == Homed(instances, c))
            && Total(instances, ids) + |Unresolved(s, instances)| == |instances|
  {
    var s := states[|requests|];
    RunIsFaithful(states, requests);
    forall i | i in instances ensures !Missing(s, i) {
      NeverMissing(s, i);
    }
    forall c | c in ids ensures Bucket(s, instances, KeyOf(s.clients[c])) == Homed(instances, c) {
      BucketIsHomed(s, instances, c);
    }
    BucketsAddUp(s, ids, instances);
  }
}
