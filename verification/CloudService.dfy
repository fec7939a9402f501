/** The gateway, the provider service and the requests on cloud clients as objects that update their fields,
    each method proved against the function that says what it does to the table and the index. */
module CloudService {
  import opened Basics
  import opened CloudGateway

  // The default provider, as configured.
  datatype CloudConfiguration = CloudConfiguration(kind: Kind, name: string, values: Values, prefix: string)

  class CloudClientGateway {
    var defaultCloudClient: Option<CloudClient>
    var secondaryCloudClients: map<Id, CloudClient>

    /** The checked exception leaves a gateway without a client. */
    constructor (configuration: CloudConfiguration)
      requires !DefaultClient(configuration).Incomplete?
      ensures defaultCloudClient == ClientIn(DefaultClient(configuration))
      ensures secondaryCloudClients == First(defaultCloudClient)
      ensures defaultCloudClient.Some? ==> defaultCloudClient.value.id == DEFAULT_ID
    {
      var c := configuration;
      var made := GetClient(DEFAULT_ID, c.name, c.kind, c.values, c.prefix, true);
      if made.Made? {
        defaultCloudClient := Some(made.client);
        secondaryCloudClients := map[made.client.id := made.client];
      } else {
        defaultCloudClient, secondaryCloudClients := None, map[];
      }
    }

    /** The gateway is that of a state. */
    ghost predicate Stores(s: State)
      reads this
    {
      s.default == defaultCloudClient && s.clients == secondaryCloudClients
    }

    static function DefaultClient(c: CloudConfiguration): Made {
      GetClient(DEFAULT_ID, c.name, c.kind, c.values, c.prefix, true)
    }

    method GetCloudClient(id: Option<Id>, ghost s: State) returns (r: Option<CloudClient>)
      requires Stores(s)
      ensures r == ClientFor(s, id)
    {
      if id.None? {
        return defaultCloudClient;
      }
      r := if id.value in secondaryCloudClients then Some(secondaryCloudClients[id.value]) else None;
    }

    method AddCloudClient(id: Id, name: string, kind: Kind, values: Values, prefix: string, visible: bool)
      returns (made: Made)
      modifies this`secondaryCloudClients
      ensures made == GetClient(id, name, kind, values, prefix, visible)
      ensures secondaryCloudClients ==
              if made.Made? then old(secondaryCloudClients)[id := made.client] else old(secondaryCloudClients)
    {
      made := GetClient(id, name, kind, values, prefix, visible);
      if made.Made? {
        secondaryCloudClients := secondaryCloudClients[id := made.client];
      }
    }

    /** Unlike adding, an update that makes no client leaves none. */
    method UpdateCloudClient(id: Id, name: string, kind: Kind, values: Values, prefix: string, visible: bool)
      returns (made: Made)
      modifies this`secondaryCloudClients
      ensures made == GetClient(id, name, kind, values, prefix, visible)
      ensures Found(secondaryCloudClients, id) == ClientIn(made)
      ensures forall i :: i != id ==> Found(secondaryCloudClients, i) == Found(old(secondaryCloudClients), i)
    {
      secondaryCloudClients := secondaryCloudClients - {id};
      made := AddCloudClient(id, name, kind, values, prefix, visible);
    }

    method RemoveCloudClient(id: Id)
      modifies this`secondaryCloudClients
      ensures secondaryCloudClients == old(secondaryCloudClients) - {id}
    {
      secondaryCloudClients := secondaryCloudClients - {id};
    }
  }

  class CloudProviderService {
    const gateway: CloudClientGateway
    var table: map<Id, Configuration>
    var keys: seq<Id>                  // the ids of the table, in order

    constructor (table: map<Id, Configuration>, keys: seq<Id>, gateway: CloudClientGateway)
      ensures this.table == table && this.keys == keys && this.gateway == gateway
    {
      this.table, this.keys, this.gateway := table, keys, gateway;
    }

    ghost predicate Valid()
      reads this
    {
      forall i :: i in keys <==> i in table
    }

    function Stored(): State
      reads this, gateway
    {
      State(table, gateway.defaultCloudClient, gateway.secondaryCloudClients)
    }

    /** `getAll`: the ids of the live rows. */
    method GetAll() returns (ids: seq<Id>)
      requires Valid()
      ensures LiveIds(table, ids)
    {
      ids := [];
      for k := 0 to |keys|
        invariant Valid()
        invariant forall i :: i in ids <==> i in keys[..k] && i in table && !table[i].deleted
      {
        assert keys[..k + 1] == keys[..k] + [keys[k]];
        var i := keys[k];
        assert i in keys;
        if !table[i].deleted {
          ids := ids + [i];
        }
      }
      assert keys[..|keys|] == keys;
    }

    /** Stops where a parameter is missing. */
    method Init() returns (started: bool, ghost ids: seq<Id>)
      requires Valid() && TableOk(Stored())
      modifies gateway`secondaryCloudClients
      ensures LiveIds(table, ids)
      ensures started <==> forall i :: i in ids ==> !Build(table[i]).Incomplete?
      ensures started ==> gateway.secondaryCloudClients == CloudGateway.Init(table, ids, old(gateway.secondaryCloudClients))
    {
      var live := GetAll();
      ids := live;
      for k := 0 to |live|
        invariant LiveIds(table, live)
        invariant forall i :: i in live[..k] ==> i in table && !Build(table[i]).Incomplete?
        invariant gateway.secondaryCloudClients == CloudGateway.Init(table, live[..k], old(gateway.secondaryCloudClients))
      {
        var i := live[k];
        assert i in live && live[..k + 1] == live[..k] + [i];
        var made := AddCloudClient(table[i]);
        if made.Incomplete? {
          return false, live;
        }
      }
      assert live[..|live|] == live;
      started := true;
    }

    method GetById(id: Id) returns (r: Option<Configuration>)
      ensures r == if Live(Stored(), id) then Some(table[id]) else None
    {
      r := if id in table && !table[id].deleted then Some(table[id]) else None;
    }

    method Delete(c: Configuration)
      requires Valid() && c.id in table
      modifies this`table, gateway`secondaryCloudClients
      ensures Valid() && Stored() == CloudGateway.Delete(old(Stored()), c)
    {
      var deleted := c.(deleted := true);
      table := table[c.id := deleted];
      gateway.RemoveCloudClient(c.id);
    }

    /** `save` of a row, and `createCloudClient` for a row that is new. */
    method Save(c: Configuration) returns (made: Made)
      requires Valid()
      modifies this`table, this`keys, gateway`secondaryCloudClients
      ensures Valid() && made == Build(c) && Stored() == CloudGateway.Save(old(Stored()), c)
    {
      var table0, keys0 := table, keys;
      if c.id !in table {
        keys := keys + [c.id];
      }
      table := table[c.id := c];
      made := AddCloudClient(c);
      if made.Incomplete? {
        table, keys := table0, keys0;
      }
    }

    static method Convert(parameters: seq<Parameter>) returns (values: Values)
      ensures values == ValuesOf(parameters)
    {
      values := map[];
      for k := 0 to |parameters|
        invariant values == ValuesOf(parameters[..k])
      {
        assert parameters[..k + 1][..k] == parameters[..k];
        values := values[parameters[k].key := parameters[k].value];
      }
      assert parameters[..|parameters|] == parameters;
    }

    method AddCloudClient(c: Configuration) returns (made: Made)
      modifies gateway`secondaryCloudClients
      ensures made == Build(c)
      ensures gateway.secondaryCloudClients == Add(old(gateway.secondaryCloudClients), c)
    {
      var values := Convert(c.parameters);
      made := gateway.AddCloudClient(c.id, c.name, c.kind, values, c.prefix, c.visible);
    }
  }

  datatype Reply = Reply(made: Made) | Done | InvalidInput | NotFound

  class MutationResolver {
    const service: CloudProviderService

    constructor (service: CloudProviderService)
      ensures this.service == service
    {
      this.service := service;
    }

    method CreateCloudClient(generated: Id, input: Input) returns (r: Reply)
      requires service.Valid() && generated !in service.table && generated != DEFAULT_ID
      modifies service, service.gateway
      ensures service.Valid() && service.Stored() == Handle(old(service.Stored()), CreateClient(generated, input))
      ensures r.InvalidInput? <==> !((input.kind == OpenStackKind && input.openStack.Some?)
                                     || (input.kind == WebKind && input.web.Some?))
      ensures r.Reply? ==> r.made == MadeOf(Wanted(generated, input))
    {
      var c := Configuration(generated, input.kind, input.name, input.prefix, [], input.visible, false);
      var parameters := SetCloudConfigurationParameters([], input);
      if parameters.None? {
        return InvalidInput;
      }
      SetParametersConvert([], Fields(input));
      RowBuilds(NewRow(generated, input), input);
      var made := service.Save(c.(parameters := parameters.value));
      r := Reply(made);
    }

    method UpdateCloudClient(id: Id, input: Input) returns (r: Reply)
      requires service.Valid() && TableOk(service.Stored())
      modifies service, service.gateway
      ensures service.Valid() && service.Stored() == Handle(old(service.Stored()), UpdateClient(id, input))
      ensures r.NotFound? <==> id != DEFAULT_ID && !Live(old(service.Stored()), id)
      ensures r.InvalidInput? <==> id == DEFAULT_ID || (Live(old(service.Stored()), id)
                                                         && !((input.kind == OpenStackKind && input.openStack.Some?)
                                                              || (input.kind == WebKind && input.web.Some?)))
    {
      if id == DEFAULT_ID {
        return InvalidInput;
      }
      var found := service.GetById(id);
      if found.None? {
        return NotFound;
      }
      var c := found.value;
      if c.kind != input.kind {
        c := c.(parameters := []);
      }
      c := c.(name := input.name, prefix := input.prefix, kind := input.kind, visible := input.visible);
      var parameters := SetCloudConfigurationParameters(c.parameters, input);
      if parameters.None? {
        return InvalidInput;
      }
      var made := service.Save(c.(parameters := parameters.value));
      r := Reply(made);
    }

    static method SetCloudConfigurationParameters(parameters: seq<Parameter>, input: Input)
      returns (r: Option<seq<Parameter>>)
      ensures r == if Accepted(input) then Some(CloudGateway.SetParameters(parameters, Fields(input))) else None
    {
      if input.kind.OpenStackKind? {
        if input.openStack.None? {
          return None;
        }
      } else if input.kind.WebKind? {
        if input.web.None? {
          return None;
        }
      } else {
        return None;
      }
      var ps, fs := parameters, Fields(input);
      for k := 0 to |fs|
        invariant ps == CloudGateway.SetParameters(parameters, fs[..k])
      {
        assert fs[..k + 1][..k] == fs[..k];
        ps := CloudGateway.SetParameter(ps, fs[k]);
      }
      assert fs[..|fs|] == fs;
      r := Some(ps);
    }

    /** `inUse`: the instance count of the client is above zero. */
    method DeleteCloudClient(id: Id, inUse: bool) returns (r: Reply)
      requires service.Valid() && TableOk(service.Stored())
      modifies service, service.gateway
      ensures service.Valid() && service.Stored() == Handle(old(service.Stored()), DeleteClient(id, inUse))
      ensures r.Done? <==> id != DEFAULT_ID && Live(old(service.Stored()), id) && !inUse
    {
      if id == DEFAULT_ID {
        return InvalidInput;
      }
      var found := service.GetById(id);
      if found.None? {
        return NotFound;
      }
      if inUse {
        return InvalidInput;
      }
      service.Delete(found.value);
      r := Done;
    }
  }
}
