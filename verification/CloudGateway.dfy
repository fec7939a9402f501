/** The index of cloud clients and the table of provider configurations it is made from. */
module CloudGateway {
  import opened Basics

  type Id = int

  datatype Kind = NullKind | OpenStackKind | WebKind | OtherKind(name: string)

  datatype Key = IdentityEndpoint | ComputeEndpoint | ImageEndpoint | NetworkEndpoint | ApplicationId
               | ApplicationSecret | AddressProvider | AddressProviderUUID | Url | AuthToken | OtherKey(name: string)

  datatype Parameter = Parameter(key: Key, value: Option<string>)

  // A row of the provider table.
  datatype Configuration = Configuration(id: Id, kind: Kind, name: string, prefix: string, parameters: seq<Parameter>,
                                         visible: bool, deleted: bool)

  datatype OpenStackSettings = OpenStackSettings(applicationId: string, applicationSecret: string,
    computeEndpoint: string, imageEndpoint: string, identityEndpoint: string, networkEndpoint: string,
    addressProvider: string, addressProviderUUID: string)

  datatype Provider = NullProvider | OpenStackProvider(settings: OpenStackSettings)
                    | WebProvider(url: string, authToken: string)

  datatype CloudClient = CloudClient(id: Id, name: string, kind: Kind, provider: Provider, prefix: string, visible: bool)

  // A client, the checked exception for an unknown provider type, or the null check that fails on a
  // parameter that is not there.
  datatype Made = Made(client: CloudClient) | Unsupported | Incomplete

  type Values = map<Key, Option<string>>

  const DEFAULT_ID: Id := -1

  // ---------------------------------------------------------------- the factory

  function Value(values: Values, key: Key): Option<string> {
    if key in values then values[key] else None
  }

  function OpenStack(values: Values): Option<OpenStackSettings> {
    var identity, compute := Value(values, IdentityEndpoint), Value(values, ComputeEndpoint);
    var image, network := Value(values, ImageEndpoint), Value(values, NetworkEndpoint);
    var id, secret := Value(values, ApplicationId), Value(values, ApplicationSecret);
    var address, uuid := Value(values, AddressProvider), Value(values, AddressProviderUUID);
    if identity.None? || compute.None? || image.None? || network.None? || id.None? || secret.None?
       || address.None? || uuid.None?
    then None
    else Some(OpenStackSettings(id.value, secret.value, compute.value, image.value, identity.value, network.value,
                                address.value, uuid.value))
  }

  function GetClient(id: Id, name: string, kind: Kind, values: Values, prefix: string, visible: bool): Made {
    match kind
    case NullKind => Made(CloudClient(id, name, kind, NullProvider, prefix, visible))
    case OpenStackKind =>
      var settings := OpenStack(values);
      if settings.None? then Incomplete
      else Made(CloudClient(id, name, kind, OpenStackProvider(settings.value), prefix, visible))
    case WebKind =>
      var url, token := Value(values, Url), Value(values, AuthToken);
      if url.None? || token.None? then Incomplete
      else Made(CloudClient(id, name, kind, WebProvider(url.value, token.value), prefix, visible))
    case OtherKind(_) => Unsupported
  }

  // ---------------------------------------------------------------- parameters

  /** `convert`: a later parameter replaces an earlier one of the same key. */
  function ValuesOf(parameters: seq<Parameter>): Values {
    if parameters == [] then map[]
    else
      var last := parameters[|parameters| - 1];
      ValuesOf(parameters[..|parameters| - 1])[last.key := last.value]
  }

  predicate DistinctKeys(parameters: seq<Parameter>) {
    forall j, k :: 0 <= j < k < |parameters| ==> parameters[j].key != parameters[k].key
  }

  /** `setParameter`: the first parameter of that key gets the value, or a new one is added at the end. */
  function SetParameter(parameters: seq<Parameter>, p: Parameter): seq<Parameter> {
    if parameters == [] then [p]
    else if parameters[0].key == p.key then [p] + parameters[1..]
    else [parameters[0]] + SetParameter(parameters[1..], p)
  }

  function SetParameters(parameters: seq<Parameter>, ps: seq<Parameter>): seq<Parameter> {
    if ps == [] then parameters
    else SetParameter(SetParameters(parameters, ps[..|ps| - 1]), ps[|ps| - 1])
  }

  /** Without duplicates the conversion holds each parameter. */
  lemma {:induction false} ValuesHold(parameters: seq<Parameter>)
    requires DistinctKeys(parameters)
    ensures forall p :: p in parameters ==> p.key in ValuesOf(parameters) && ValuesOf(parameters)[p.key] == p.value
    ensures forall k :: k in ValuesOf(parameters) ==> Parameter(k, ValuesOf(parameters)[k]) in parameters
  {
    if parameters != [] {
      var init := parameters[..|parameters| - 1];
      ValuesHold(init);
      assert parameters == init + [parameters[|parameters| - 1]];
    }
  }

  lemma {:induction false} SetParameterMembers(parameters: seq<Parameter>, p: Parameter)
    requires DistinctKeys(parameters)
    ensures var ps := SetParameter(parameters, p);
            DistinctKeys(ps) && forall q :: q in ps <==> q == p || (q in parameters && q.key != p.key)
  {
    if parameters != [] {
      var rest := parameters[1..];
      assert parameters == [parameters[0]] + rest;
      forall q | q in rest ensures q.key != parameters[0].key {
      }
      SetParameterMembers(rest, p);
    }
  }

  /** Setting a parameter is updating the converted map. */
  lemma SetParameterConverts(parameters: seq<Parameter>, p: Parameter)
    requires DistinctKeys(parameters)
    ensures DistinctKeys(SetParameter(parameters, p))
    ensures ValuesOf(SetParameter(parameters, p)) == ValuesOf(parameters)[p.key := p.value]
  {
    var ps := SetParameter(parameters, p);
    SetParameterMembers(parameters, p);
    ValuesHold(parameters);
    ValuesHold(ps);
    var expected := ValuesOf(parameters)[p.key := p.value];
    forall k | k in expected ensures k in ValuesOf(ps) && ValuesOf(ps)[k] == expected[k] {
      assert Parameter(k, expected[k]) in ps;
    }
    forall k | k in ValuesOf(ps) ensures k in expected {
      assert Parameter(k, ValuesOf(ps)[k]) in ps;
    }
  }

  lemma {:induction false} SetParametersConvert(parameters: seq<Parameter>, ps: seq<Parameter>)
    requires DistinctKeys(parameters)
    ensures DistinctKeys(SetParameters(parameters, ps))
    ensures ValuesOf(SetParameters(parameters, ps)) == ValuesOf(parameters) + ValuesOf(ps)
  {
    if ps != [] {
      SetParametersConvert(parameters, ps[..|ps| - 1]);
      SetParameterConverts(SetParameters(parameters, ps[..|ps| - 1]), ps[|ps| - 1]);
    }
  }

  // ---------------------------------------------------------------- the gateway and the table

  datatype State = State(table: map<Id, Configuration>, default: Option<CloudClient>, clients: map<Id, CloudClient>)

  function Build(c: Configuration): Made {
    GetClient(c.id, c.name, c.kind, ValuesOf(c.parameters), c.prefix, c.visible)
  }

  function First(default: Option<CloudClient>): map<Id, CloudClient> {
    if default.None? then map[] else map[DEFAULT_ID := default.value]
  }

  function Found(clients: map<Id, CloudClient>, i: Id): Option<CloudClient> {
    if i in clients then Some(clients[i]) else None
  }

  function ClientIn(made: Made): Option<CloudClient> {
    if made.Made? then Some(made.client) else None
  }

  /** The client that belongs to an id: the default one, or the one made from the live configuration. */
  function Entry(table: map<Id, Configuration>, default: Option<CloudClient>, i: Id): Option<CloudClient> {
    if i == DEFAULT_ID then default
    else if i in table && !table[i].deleted then ClientIn(Build(table[i]))
    else None
  }

  predicate TableOk(s: State) {
    && (forall i :: i in s.table ==> s.table[i].id == i)
    && DEFAULT_ID !in s.table
    && (s.default.Some? ==> s.default.value.id == DEFAULT_ID)
  }

  /** The index holds exactly the clients that belong to the table. */
  ghost predicate Agrees(s: State) {
    TableOk(s) && forall i :: Found(s.clients, i) == Entry(s.table, s.default, i)
  }

  lemma KeysAreIds(s: State, i: Id)
    requires Agrees(s) && i in s.clients
    ensures s.clients[i].id == i
  {
    assert Found(s.clients, i) == Entry(s.table, s.default, i);
  }

  function Add(clients: map<Id, CloudClient>, c: Configuration): map<Id, CloudClient> {
    match Build(c)
    case Made(client) => clients[c.id := client]
    case _ => clients
  }

  /** `save`, and `create` for a new row. The transaction is undone when a parameter is missing. */
  function Save(s: State, c: Configuration): State {
    if Build(c).Incomplete? then s
    else s.(table := s.table[c.id := c], clients := Add(s.clients, c))
  }

  function Delete(s: State, c: Configuration): State {
    s.(table := s.table[c.id := c.(deleted := true)], clients := s.clients - {c.id})
  }

  /** Saving keeps the index right exactly when the row is refused, or when a client is made for a live
      row, or when no client is made and there was none: an unknown type leaves the earlier client in place. */
  lemma SaveAgreesIff(s: State, c: Configuration)
    requires Agrees(s) && c.id != DEFAULT_ID
    ensures Agrees(Save(s, c)) <==>
            Build(c).Incomplete? || (if Build(c).Made? then !c.deleted else c.id !in s.clients)
  {
    var s' := Save(s, c);
    if !Build(c).Incomplete? {
      forall i ensures i != c.id ==> Found(s'.clients, i) == Entry(s'.table, s'.default, i) {
        assert Found(s.clients, i) == Entry(s.table, s.default, i);
      }
      assert Found(s'.clients, c.id) == if Build(c).Made? then Some(Build(c).client) else Found(s.clients, c.id);
      assert Entry(s'.table, s'.default, c.id) == if c.deleted then None else ClientIn(Build(c));
    }
  }

  lemma DeleteAgrees(s: State, c: Configuration)
    requires Agrees(s) && c.id in s.table
    ensures Agrees(Delete(s, c)) && c.id !in Delete(s, c).clients
  {
    var s' := Delete(s, c);
    forall i ensures Found(s'.clients, i) == Entry(s'.table, s'.default, i) {
      assert Found(s.clients, i) == Entry(s.table, s.default, i);
    }
  }

  // ---------------------------------------------------------------- starting

  /** `init` over the rows of the query for live configurations. */
  function Init(table: map<Id, Configuration>, ids: seq<Id>, clients: map<Id, CloudClient>): map<Id, CloudClient>
    requires forall i :: i in ids ==> i in table
  {
    if ids == [] then clients
    else
      var last := ids[|ids| - 1];
      assert last in ids;
      Add(Init(table, ids[..|ids| - 1], clients), table[last])
  }

  ghost predicate LiveIds(table: map<Id, Configuration>, ids: seq<Id>) {
    forall i :: i in ids <==> i in table && !table[i].deleted
  }

  lemma {:induction false} InitHolds(s: State, ids: seq<Id>, clients: map<Id, CloudClient>, i: Id)
    requires TableOk(s) && forall i :: i in ids ==> i in s.table
    ensures Found(Init(s.table, ids, clients), i) ==
            if i in ids && Build(s.table[i]).Made? then Some(Build(s.table[i]).client) else Found(clients, i)
  {
    if ids != [] {
      var last, init := ids[|ids| - 1], ids[..|ids| - 1];
      assert ids == init + [last];
      InitHolds(s, init, clients, i);
      AddHolds(Init(s.table, init, clients), s.table[last], i);
    }
  }

  lemma AddHolds(clients: map<Id, CloudClient>, c: Configuration, i: Id)
    ensures Found(Add(clients, c), i) ==
            if i == c.id && Build(c).Made? then Some(Build(c).client) else Found(clients, i)
  {
  }

  /** A start gives the index of the table, whatever the order of the rows. */
  lemma InitAgrees(s: State, ids: seq<Id>)
    requires TableOk(s) && LiveIds(s.table, ids)
    ensures Agrees(s.(clients := Init(s.table, ids, First(s.default))))
  {
    var clients := Init(s.table, ids, First(s.default));
    forall i ensures Found(clients, i) == Entry(s.table, s.default, i) {
      InitHolds(s, ids, First(s.default), i);
    }
  }

  lemma AgreementIsUnique(s: State, s': State)
    requires Agrees(s) && Agrees(s') && s.table == s'.table && s.default == s'.default
    ensures s == s'
  {
    forall i ensures Found(s.clients, i) == Found(s'.clients, i) {
      assert Found(s.clients, i) == Entry(s.table, s.default, i);
    }
    SameFound(s.clients, s'.clients);
  }

  lemma SameFound(a: map<Id, CloudClient>, b: map<Id, CloudClient>)
    requires forall i :: Found(a, i) == Found(b, i)
    ensures a == b
  {
    forall i ensures i in a <==> i in b {
      assert Found(a, i) == Found(b, i);
    }
    forall i | i in a ensures a[i] == b[i] {
      assert Found(a, i) == Found(b, i);
    }
  }

  // ---------------------------------------------------------------- requests

  datatype OpenStackInput = OpenStackInput(applicationId: Option<string>, applicationSecret: Option<string>,
    computeEndpoint: Option<string>, imageEndpoint: Option<string>, networkEndpoint: Option<string>,
    identityEndpoint: Option<string>, addressProvider: Option<string>, addressProviderUUID: Option<string>)

  datatype WebInput = WebInput(url: Option<string>, authToken: Option<string>)

  datatype Input = Input(kind: Kind, name: string, prefix: string, visible: bool, openStack: Option<OpenStackInput>,
                         web: Option<WebInput>)

  predicate Accepted(input: Input) {
    (input.kind.OpenStackKind? && input.openStack.Some?) || (input.kind.WebKind? && input.web.Some?)
  }

  /** The parameters in the order in which they are set. */
  function Fields(input: Input): seq<Parameter>
    requires Accepted(input)
  {
    if input.kind.OpenStackKind? then
      var o := input.openStack.value;
      [Parameter(ApplicationId, o.applicationId), Parameter(ApplicationSecret, o.applicationSecret),
       Parameter(ComputeEndpoint, o.computeEndpoint), Parameter(ImageEndpoint, o.imageEndpoint),
       Parameter(NetworkEndpoint, o.networkEndpoint), Parameter(IdentityEndpoint, o.identityEndpoint),
       Parameter(AddressProvider, o.addressProvider), Parameter(AddressProviderUUID, o.addressProviderUUID)]
    else
      [Parameter(Url, input.web.value.url), Parameter(AuthToken, input.web.value.authToken)]
  }

  datatype Request = CreateClient(id: Id, input: Input) | UpdateClient(id: Id, input: Input)
                   | DeleteClient(id: Id, inUse: bool) | Restart(live: seq<Id>)

  function NewRow(id: Id, input: Input): Configuration
    requires Accepted(input)
  {
    Configuration(id, input.kind, input.name, input.prefix, SetParameters([], Fields(input)), input.visible, false)
  }

  function UpdatedRow(c: Configuration, input: Input): Configuration
    requires Accepted(input)
  {
    var kept := if c.kind != input.kind then [] else c.parameters;
    Configuration(c.id, input.kind, input.name, input.prefix, SetParameters(kept, Fields(input)), input.visible, c.deleted)
  }

  predicate Live(s: State, id: Id) {
    id in s.table && !s.table[id].deleted
  }

  /** The database gives a new row an id that no row has had, and lists the live rows at a start. */
  ghost predicate Enabled(s: State, r: Request) {
    match r
    case CreateClient(id, _) => id !in s.table && id != DEFAULT_ID
    case Restart(live) => LiveIds(s.table, live)
    case _ => true
  }

  function Handle(s: State, r: Request): State
    requires Enabled(s, r)
  {
    match r
    case CreateClient(id, input) => if Accepted(input) then Save(s, NewRow(id, input)) else s
    case UpdateClient(id, input) =>
      if id == DEFAULT_ID || !Live(s, id) || !Accepted(input) then s
      else Save(s, UpdatedRow(s.table[id], input))
    case DeleteClient(id, inUse) =>
      if id == DEFAULT_ID || !Live(s, id) || inUse then s
      else Delete(s, s.table[id])
    case Restart(live) => s.(clients := Init(s.table, live, First(s.default)))
  }

  // ---------------------------------------------------------------- what the requests are for

  function Settings(o: OpenStackInput): Option<OpenStackSettings> {
    match o
    case OpenStackInput(Some(application), Some(secret), Some(compute), Some(image), Some(network), Some(identity),
                        Some(address), Some(uuid)) =>
      Some(OpenStackSettings(application, secret, compute, image, identity, network, address, uuid))
    case _ => None
  }

  /** The client that an accepted input asks for; none when a value is missing. */
  function Wanted(id: Id, input: Input): Option<CloudClient>
    requires Accepted(input)
  {
    if input.kind.OpenStackKind? then
      var settings := Settings(input.openStack.value);
      if settings.None? then None
      else Some(CloudClient(id, input.name, input.kind, OpenStackProvider(settings.value), input.prefix, input.visible))
    else
      match input.web.value
      case WebInput(Some(url), Some(token)) =>
        Some(CloudClient(id, input.name, input.kind, WebProvider(url, token), input.prefix, input.visible))
      case _ => None
  }

  predicate Complete(input: Input) {
    Accepted(input) && Wanted(0, input).Some?
  }

  predicate AllGiven(values: seq<Option<string>>) {
    forall k :: 0 <= k < |values| ==> values[k].Some?
  }

  /** An input is complete exactly when it is of one of two kinds and has all the values of that kind; the client
      carries each of them in its own place. */
  lemma CompleteIff(id: Id, input: Input)
    ensures Complete(input) <==>
              || (input.kind == OpenStackKind && input.openStack.Some?
                  && var o := input.openStack.value;
                     AllGiven([o.applicationId, o.applicationSecret, o.computeEndpoint, o.imageEndpoint, o.networkEndpoint,
                               o.identityEndpoint, o.addressProvider, o.addressProviderUUID]))
              || (input.kind == WebKind && input.web.Some?
                  && AllGiven([input.web.value.url, input.web.value.authToken]))
    ensures Complete(input) ==>
              && Wanted(id, input).Some?
              && var c := Wanted(id, input).value;
                 && c.id == id && c.name == input.name && c.kind == input.kind && c.prefix == input.prefix
                 && c.visible == input.visible
                 && match c.provider
                    case NullProvider => false
                    case OpenStackProvider(v) =>
                      input.openStack == Some(OpenStackInput(
                        applicationId := Some(v.applicationId), applicationSecret := Some(v.applicationSecret),
                        computeEndpoint := Some(v.computeEndpoint), imageEndpoint := Some(v.imageEndpoint),
                        networkEndpoint := Some(v.networkEndpoint), identityEndpoint := Some(v.identityEndpoint),
                        addressProvider := Some(v.addressProvider), addressProviderUUID := Some(v.addressProviderUUID)))
                    case WebProvider(url, token) => input.web == Some(WebInput(url := Some(url), authToken := Some(token)))
  {
    if input.kind == OpenStackKind && input.openStack.Some? {
      var o := input.openStack.value;
      var values := [o.applicationId, o.applicationSecret, o.computeEndpoint, o.imageEndpoint, o.networkEndpoint,
                     o.identityEndpoint, o.addressProvider, o.addressProviderUUID];
      assert AllGiven(values) ==> values[0].Some? && values[1].Some? && values[2].Some? && values[3].Some?
                                  && values[4].Some? && values[5].Some? && values[6].Some? && values[7].Some?;
    } else if input.kind == WebKind && input.web.Some? {
      var values := [input.web.value.url, input.web.value.authToken];
      assert AllGiven(values) ==> values[0].Some? && values[1].Some?;
    }
  }

  /** What the requests have asked for: the last complete input of each client that was not deleted. */
  function Remember(saved: map<Id, Input>, r: Request): map<Id, Input> {
    match r
    case CreateClient(id, input) => if Complete(input) then saved[id := input] else saved
    case UpdateClient(id, input) => if id in saved && Complete(input) then saved[id := input] else saved
    case DeleteClient(id, inUse) => if inUse then saved else saved - {id}
    case Restart(_) => saved
  }

  /** The client asked for under an id. */
  function Asked(saved: map<Id, Input>, default: Option<CloudClient>, i: Id): Option<CloudClient> {
    if i == DEFAULT_ID then default
    else if i in saved && Accepted(saved[i]) then Wanted(i, saved[i])
    else None
  }

  /** A row holds the input it was last saved from. */
  predicate Holds(c: Configuration, input: Input) {
    Complete(input) && MadeFrom(c, input)
  }

  predicate MadeFrom(c: Configuration, input: Input)
    requires Accepted(input)
  {
    && c.kind == input.kind && c.name == input.name && c.prefix == input.prefix && c.visible == input.visible
    && DistinctKeys(c.parameters) && ValuesOf(c.parameters) == ValuesOf(Fields(input))
  }

  ghost predicate Faithful(s: State, saved: map<Id, Input>) {
    && Agrees(s)
    && (forall i :: i in saved <==> Live(s, i))
    && (forall i :: i in saved ==> Holds(s.table[i], saved[i]))
  }

  lemma FieldValues(input: Input)
    requires Accepted(input)
    ensures DistinctKeys(Fields(input))
    ensures forall p :: p in Fields(input) ==> Value(ValuesOf(Fields(input)), p.key) == p.value
  {
    ValuesHold(Fields(input));
  }

  function MadeOf(client: Option<CloudClient>): Made {
    if client.Some? then Made(client.value) else Incomplete
  }

  lemma OpenStackFields(id: Id, input: Input)
    requires Accepted(input) && input.kind.OpenStackKind?
    ensures GetClient(id, input.name, input.kind, ValuesOf(Fields(input)), input.prefix, input.visible)
            == MadeOf(Wanted(id, input))
  {
    FieldValues(input);
    var fs, o := Fields(input), input.openStack.value;
    var vs := ValuesOf(fs);
    assert fs[0] in fs && fs[1] in fs && fs[2] in fs && fs[3] in fs;
    assert fs[4] in fs && fs[5] in fs && fs[6] in fs && fs[7] in fs;
    OpenStackReads(vs, o);
  }

  lemma OpenStackReads(vs: Values, o: OpenStackInput)
    requires Value(vs, ApplicationId) == o.applicationId && Value(vs, ApplicationSecret) == o.applicationSecret
    requires Value(vs, ComputeEndpoint) == o.computeEndpoint && Value(vs, ImageEndpoint) == o.imageEndpoint
    requires Value(vs, NetworkEndpoint) == o.networkEndpoint && Value(vs, IdentityEndpoint) == o.identityEndpoint
    requires Value(vs, AddressProvider) == o.addressProvider && Value(vs, AddressProviderUUID) == o.addressProviderUUID
    ensures OpenStack(vs) == Settings(o)
  {
  }

  lemma WebFields(id: Id, input: Input)
    requires Accepted(input) && input.kind.WebKind?
    ensures GetClient(id, input.name, input.kind, ValuesOf(Fields(input)), input.prefix, input.visible)
            == MadeOf(Wanted(id, input))
  {
    FieldValues(input);
    var fs := Fields(input);
    assert fs[0] in fs && fs[1] in fs;
  }

  /** The parameters of an input give the client it asks for. */
  lemma FieldsGiveWanted(id: Id, input: Input)
    requires Accepted(input)
    ensures GetClient(id, input.name, input.kind, ValuesOf(Fields(input)), input.prefix, input.visible)
            == MadeOf(Wanted(id, input))
  {
    if input.kind.OpenStackKind? {
      OpenStackFields(id, input);
    } else {
      WebFields(id, input);
    }
  }

  /** The keys of the parameters depend on the kind alone. */
  lemma SameKindSameKeys(input: Input, other: Input)
    requires Accepted(input) && Accepted(other) && input.kind == other.kind
    ensures ValuesOf(Fields(input)).Keys == ValuesOf(Fields(other)).Keys
  {
    KeysFollowFields(Fields(input), Fields(other));
  }

  lemma {:induction false} KeysFollowFields(ps: seq<Parameter>, qs: seq<Parameter>)
    requires |ps| == |qs| && forall k :: 0 <= k < |ps| ==> ps[k].key == qs[k].key
    ensures ValuesOf(ps).Keys == ValuesOf(qs).Keys
  {
    if ps != [] {
      KeysFollowFields(ps[..|ps| - 1], qs[..|qs| - 1]);
    }
  }

  /** No value of the earlier input is left in an updated row. */
  lemma UpdatedRowIsInput(c: Configuration, earlier: Input, input: Input)
    requires Holds(c, earlier) && Accepted(input)
    ensures MadeFrom(UpdatedRow(c, input), input)
  {
    var kept := if c.kind != input.kind then [] else c.parameters;
    SetParametersConvert(kept, Fields(input));
    if c.kind == input.kind {
      SameKindSameKeys(earlier, input);
    }
  }

  lemma RowBuilds(row: Configuration, input: Input)
    requires Accepted(input) && MadeFrom(row, input)
    ensures Build(row) == MadeOf(Wanted(row.id, input))
  {
    FieldsGiveWanted(row.id, input);
  }

  /** Saving a row made from an input. */
  lemma SaveIsFaithful(s: State, saved: map<Id, Input>, row: Configuration, input: Input)
    requires Faithful(s, saved) && Accepted(input) && MadeFrom(row, input) && !row.deleted && row.id != DEFAULT_ID
    ensures Faithful(Save(s, row), if Complete(input) then saved[row.id := input] else saved)
  {
    RowBuilds(row, input);
    SaveAgreesIff(s, row);
    if Complete(input) {
      SavedRow(s, row);
    }
  }

  lemma SavedRow(s: State, row: Configuration)
    requires Build(row).Made?
    ensures Save(s, row).table == s.table[row.id := row]
  {
  }

  /** Every request keeps the table and the index faithful to what has been asked for. */
  lemma HandleIsFaithful(s: State, saved: map<Id, Input>, r: Request)
    requires Faithful(s, saved) && Enabled(s, r)
    ensures Faithful(Handle(s, r), Remember(saved, r))
  {
    match r
    case CreateClient(id, input) =>
      if Accepted(input) {
        SetParametersConvert([], Fields(input));
        SaveIsFaithful(s, saved, NewRow(id, input), input);
      }
    case UpdateClient(id, input) =>
      if id != DEFAULT_ID && Live(s, id) && Accepted(input) {
        UpdatedRowIsInput(s.table[id], saved[id], input);
        SaveIsFaithful(s, saved, UpdatedRow(s.table[id], input), input);
      }
    case DeleteClient(id, inUse) =>
      if id != DEFAULT_ID && Live(s, id) && !inUse {
        DeleteAgrees(s, s.table[id]);
      }
    case Restart(live) => InitAgrees(s, live);
  }

  /** A faithful index is the index asked for. */
  lemma FaithfulIsAsked(s: State, saved: map<Id, Input>, i: Id)
    requires Faithful(s, saved)
    ensures Found(s.clients, i) == Asked(saved, s.default, i)
  {
    assert Found(s.clients, i) == Entry(s.table, s.default, i);
    if i in saved {
      RowBuilds(s.table[i], saved[i]);
    }
  }

  // ---------------------------------------------------------------- whole runs

  ghost predicate IsRun(states: seq<State>, requests: seq<Request>) {
    && |states| == |requests| + 1
    && states[0].table == map[] && TableOk(states[0]) && states[0].clients == First(states[0].default)
    && forall k :: 0 <= k < |requests| ==>
         Enabled(states[k], requests[k]) && states[k + 1] == Handle(states[k], requests[k])
  }

  function Memory(requests: seq<Request>): map<Id, Input> {
    if requests == [] then map[]
    else Remember(Memory(requests[..|requests| - 1]), requests[|requests| - 1])
  }

  lemma {:induction false} RunIsFaithful(states: seq<State>, requests: seq<Request>)
    requires IsRun(states, requests)
    ensures Faithful(states[|requests|], Memory(requests)) && states[|requests|].default == states[0].default
  {
    if requests != [] {
      var n := |requests| - 1;
      RunIsFaithful(states[..n + 1], requests[..n]);
      HandleIsFaithful(states[n], Memory(requests[..n]), requests[n]);
    }
  }

  /** After any run of requests and restarts the gateway holds the default client, and for each client
      not deleted the one that its last complete input asks for; each under its own id. */
  lemma GatewayFollowsRequests(states: seq<State>, requests: seq<Request>, i: Id)
    requires IsRun(states, requests)
    ensures Found(states[|requests|].clients, i) == Asked(Memory(requests), states[0].default, i)
    ensures i in states[|requests|].clients ==> states[|requests|].clients[i].id == i
  {
    RunIsFaithful(states, requests);
    var s := states[|requests|];
    FaithfulIsAsked(s, Memory(requests), i);
    if i in s.clients {
      KeysAreIds(s, i);
    }
  }

  /** `getCloudClient` */
  function ClientFor(s: State, id: Option<Id>): Option<CloudClient> {
    if id.None? then s.default else Found(s.clients, id.value)
  }

  function HomeOf(id: Option<Id>): Id {
    if id.None? then DEFAULT_ID else id.value
  }

  /** With index and table in agreement, asking without an id is asking for the default id. */
  lemma NoIdIsDefault(s: State, id: Option<Id>)
    requires Agrees(s)
    ensures ClientFor(s, id) == Found(s.clients, HomeOf(id))
  {
    assert Found(s.clients, HomeOf(id)) == Entry(s.table, s.default, HomeOf(id));
  }

  /** After any run of requests and restarts a caller gets, for an id or for none, the client that the last complete
      input asks for, or the default client; whatever it gets carries the id. */
  lemma LookupFollowsRequests(states: seq<State>, requests: seq<Request>, id: Option<Id>)
    requires IsRun(states, requests)
    ensures var r := ClientFor(states[|requests|], id);
            && r == Asked(Memory(requests), states[0].default, HomeOf(id))
            && (id.None? || id.value == -1 ==> r == states[0].default)
            && (r.Some? ==> r.value.id == HomeOf(id))
  {
    RunIsFaithful(states, requests);
    NoIdIsDefault(states[|requests|], id);
    GatewayFollowsRequests(states, requests, HomeOf(id));
  }

  /** A restart after any run changes nothing. */
  lemma RestartChangesNothing(states: seq<State>, requests: seq<Request>, live: seq<Id>)
    requires IsRun(states, requests) && LiveIds(states[|requests|].table, live)
    ensures Handle(states[|requests|], Restart(live)) == states[|requests|]
  {
    RunIsFaithful(states, requests);
    InitAgrees(states[|requests|], live);
    AgreementIsUnique(states[|requests|], Handle(states[|requests|], Restart(live)));
  }
}
