/** The drbdsetup events tracker (EventsTracker): interprets the lines of
    'drbdsetup events2 all' and keeps the StateTracker's tree of DRBD
    resources, connections and volumes up to date.

    A line is an action, an object type and then key:value tokens. Each
    handler is specified by a pure effect function on the resource map; the
    imperative handler is proved to perform exactly that effect, and the
    properties of the event stream are proved about the effect functions. */
module DrbdEvents {
  import opened Wrappers
  import opened JavaText
  import opened DrbdStateTracker
  import VolumeNumberAlloc

  const ACTION_CREATE: string := "create"
  const ACTION_CHANGE: string := "change"
  const ACTION_DESTROY: string := "destroy"
  const ACTION_EXISTS: string := "exists"

  const OBJ_RESOURCE: string := "resource"
  const OBJ_VOLUME: string := "device"
  const OBJ_PEER_VOLUME: string := "peer-device"
  const OBJ_CONNECTION: string := "connection"
  const OBJ_END_OF_INIT: string := "-"

  /** DrbdResource.PROP_KEY_RES_NAME, DrbdConnection.PROP_KEY_CONN_NAME and
      DrbdVolume.PROP_KEY_VOL_NR. */
  const PROP_KEY_RES_NAME: string := "name"
  const PROP_KEY_CONN_NAME: string := "conn-name"
  const PROP_KEY_VOL_NR: string := "volume"

  /** The exceptions receiveEvent raises, by the arguments of their
      messages. NullEventString is the ImplementationError for a null line;
      IllegalFormatConversion is the unchecked exception String.format
      raises for a '%d' conversion of an argument that is not a number; all
      others are EventsSourceExceptions. */
  datatype EventError =
    | NullEventString
    | NoAction
    | NoObjectType
    | MissingArgument(action: string, objType: string, key: string)
    | InvalidVolumeNumber(action: string, objType: string)
    | NonExistentResource(action: string, objType: string, resName: string)
    | NonExistentConnection(action: string, objType: string, connName: string, resName: string)
    | NonExistentVolume(action: string, objType: string, volNr: int, resName: string)
    | NonExistentPeerVolume(action: string, objType: string, volNr: int, peerName: string, resName: string)
    | IllegalFormatConversion(conversion: char, argumentClass: string)

  type Props = map<string, string>

  /** A multiplexer callback the tracker triggers (resourceCreated,
      connectionCreated, volumeCreated). */
  datatype Callback = Callback(kind: EventKind, subject: Subject)

  /** An update(props) call on a tracked object. */
  datatype Update = Update(subject: Subject, props: Props)

  /** What handling one line does: the new resource map, the callbacks and
      update calls in order, and the new value of the availability latch
      when the line sets it. */
  datatype Effect = Effect(
    resList: map<string, DrbdResource>,
    callbacks: seq<Callback>,
    updates: seq<Update>,
    available: Option<bool>)

  function NoChange(resList: map<string, DrbdResource>): Effect {
    Effect(resList, [], [], None)
  }

  /** The tree is keyed by the objects' own names, as putResource keys it. */
  predicate WellKeyed(resList: map<string, DrbdResource>) {
    forall name :: name in resList ==> resList[name].resName == name
  }

  predicate IsTrackedObject(objType: string) {
    objType == OBJ_RESOURCE || objType == OBJ_CONNECTION || objType == OBJ_VOLUME || objType == OBJ_PEER_VOLUME
  }

  predicate IsKnownAction(action: string) {
    action == ACTION_EXISTS || action == ACTION_CREATE || action == ACTION_CHANGE || action == ACTION_DESTROY
  }

  /** The action the handlers name in their errors: exists is handled, and
      reported, as create. */
  function Reported(action: string): string {
    if action == ACTION_EXISTS then ACTION_CREATE else action
  }

  // ---------------------------------------------------------------------
  // Property tokens

  /** A property token split at its first ':', or None when it has none. */
  function SplitProp(kvPair: string): (r: Option<(string, string)>)
    ensures r.Some? <==> ':' in kvPair
    ensures r.Some? ==> ':' !in r.value.0 && kvPair == r.value.0 + [':'] + r.value.1
  {
    match IndexOf(kvPair, ':')
    case None => None
    case Some(i) =>
      assert kvPair == kvPair[..i] + [':'] + kvPair[i + 1..];
      Some((kvPair[..i], kvPair[i + 1..]))
  }

  predicate HasKey(kvPair: string, key: string) {
    SplitProp(kvPair).Some? && SplitProp(kvPair).value.0 == key
  }

  /** The TreeMap the property tokens fill, token by token. */
  function PropsOf(kvPairs: seq<string>): Props {
    if kvPairs == [] then map[]
    else
      var props := PropsOf(kvPairs[..|kvPairs| - 1]);
      match SplitProp(kvPairs[|kvPairs| - 1])
      case None => props
      case Some(kv) => props[kv.0 := kv.1]
  }

  /** The property loop of receiveEvent. */
  method ParseProps(kvPairs: seq<string>) returns (props: Props)
    ensures props == PropsOf(kvPairs)
  {
    props := map[];
    var k := 0;
    while k < |kvPairs|
      invariant 0 <= k <= |kvPairs|
      invariant props == PropsOf(kvPairs[..k])
    {
      var kvPair := kvPairs[k];
      var splitIdx := IndexOf(kvPair, ':');
      if splitIdx.Some? {
        props := props[kvPair[..splitIdx.value] := kvPair[splitIdx.value + 1..]];
      }
      assert kvPairs[..k + 1][..k] == kvPairs[..k];
      k := k + 1;
    }
    assert kvPairs[..k] == kvPairs;
  }

  /** A key is defined exactly when some token carries it; tokens without
      ':' contribute nothing. */
  lemma {:induction false} PropsOfKeys(kvPairs: seq<string>, key: string)
    ensures key in PropsOf(kvPairs) <==> exists i :: 0 <= i < |kvPairs| && HasKey(kvPairs[i], key)
  {
    if kvPairs != [] {
      var init := kvPairs[..|kvPairs| - 1];
      PropsOfKeys(init, key);
      PropsOfKeyStep(kvPairs, key);
      SomeKeyStep(kvPairs, init, key);
    }
  }

  lemma PropsOfKeyStep(kvPairs: seq<string>, key: string)
    requires kvPairs != []
    ensures key in PropsOf(kvPairs) <==>
      key in PropsOf(kvPairs[..|kvPairs| - 1]) || HasKey(kvPairs[|kvPairs| - 1], key)
  {
  }

  lemma SomeKeyStep(kvPairs: seq<string>, init: seq<string>, key: string)
    requires kvPairs != [] && init == kvPairs[..|kvPairs| - 1]
    ensures (exists i :: 0 <= i < |kvPairs| && HasKey(kvPairs[i], key)) <==>
      (exists i :: 0 <= i < |init| && HasKey(init[i], key)) || HasKey(kvPairs[|kvPairs| - 1], key)
  {
    if exists i :: 0 <= i < |init| && HasKey(init[i], key) {
      var i :| 0 <= i < |init| && HasKey(init[i], key);
      assert kvPairs[i] == init[i];
    }
  }

  /** A repeated key keeps the value of its last token. */
  lemma {:induction false} PropsOfLastWins(kvPairs: seq<string>, i: nat)
    requires i < |kvPairs| && SplitProp(kvPairs[i]).Some?
    requires forall j :: i < j < |kvPairs| ==> !HasKey(kvPairs[j], SplitProp(kvPairs[i]).value.0)
    ensures SplitProp(kvPairs[i]).value.0 in PropsOf(kvPairs)
    ensures PropsOf(kvPairs)[SplitProp(kvPairs[i]).value.0] == SplitProp(kvPairs[i]).value.1
  {
    var last := |kvPairs| - 1;
    if i < last {
      var init := kvPairs[..last];
      assert init[i] == kvPairs[i];
      forall j | i < j < |init|
        ensures !HasKey(init[j], SplitProp(init[i]).value.0)
      {
        assert init[j] == kvPairs[j];
      }
      PropsOfLastWins(init, i);
      assert !HasKey(kvPairs[last], SplitProp(kvPairs[i]).value.0);
    }
  }

  // ---------------------------------------------------------------------
  // Lookups

  /** getProp: the value of a property, or the missing-argument error. */
  function GetProp(props: Props, propKey: string, action: string, objType: string): (r: Result<string, EventError>)
    ensures r.Success? <==> propKey in props
    ensures r.Success? ==> r.value == props[propKey]
    ensures r.Failure? ==> r.error == MissingArgument(action, objType, propKey)
  {
    if propKey in props then Success(props[propKey])
    else Failure(MissingArgument(action, objType, propKey))
  }

  /** A value the VolumeNumber constructor accepts. */
  predicate IsVolumeNumber(n: int) {
    VolumeNumberAlloc.VOLUME_NR_MIN <= n <= VolumeNumberAlloc.VOLUME_NR_MAX
  }

  /** getVolumeNr: the volume property read by Integer.parseInt and checked
      by the VolumeNumber range. */
  function GetVolumeNr(props: Props, action: string, objType: string): (r: Result<int, EventError>)
    ensures r.Success? <==> PROP_KEY_VOL_NR in props && ParseInt(props[PROP_KEY_VOL_NR]).Some? &&
                            IsVolumeNumber(ParseInt(props[PROP_KEY_VOL_NR]).value)
    ensures r.Success? ==> r.value == ParseInt(props[PROP_KEY_VOL_NR]).value
    ensures PROP_KEY_VOL_NR !in props ==> r == Failure(MissingArgument(action, objType, PROP_KEY_VOL_NR))
    ensures r.Failure? && PROP_KEY_VOL_NR in props ==> r == Failure(InvalidVolumeNumber(action, objType))
  {
    var volNrText :- GetProp(props, PROP_KEY_VOL_NR, action, objType);
    match ParseInt(volNrText)
    case None => Failure(InvalidVolumeNumber(action, objType))
    case Some(n) => if IsVolumeNumber(n) then Success(n) else Failure(InvalidVolumeNumber(action, objType))
  }

  /** getResource as written: whatever the operation, a missing resource is
      reported as one of 'destroy peer-device'. */
  function GetResourceAsWritten(resList: map<string, DrbdResource>, props: Props, action: string, objType: string): (r: Result<DrbdResource, EventError>)
    ensures r.Failure? && PROP_KEY_RES_NAME in props ==>
      r.error == NonExistentResource(ACTION_DESTROY, OBJ_PEER_VOLUME, props[PROP_KEY_RES_NAME])
  {
    var resName :- GetProp(props, PROP_KEY_RES_NAME, action, objType);
    if resName in resList then Success(resList[resName])
    else Failure(NonExistentResource(ACTION_DESTROY, OBJ_PEER_VOLUME, resName))
  }

  /** getResource, reporting the caller's operation: the tracked resource
      the name property names. */
  function GetResource(resList: map<string, DrbdResource>, props: Props, action: string, objType: string): (r: Result<DrbdResource, EventError>)
    ensures r.Success? <==> PROP_KEY_RES_NAME in props && props[PROP_KEY_RES_NAME] in resList
    ensures r.Success? ==> r.value == resList[props[PROP_KEY_RES_NAME]]
    ensures r.Failure? ==> r.error == if PROP_KEY_RES_NAME in props
      then NonExistentResource(action, objType, props[PROP_KEY_RES_NAME])
      else MissingArgument(action, objType, PROP_KEY_RES_NAME)
  {
    var resName :- GetProp(props, PROP_KEY_RES_NAME, action, objType);
    if resName in resList then Success(resList[resName])
    else Failure(NonExistentResource(action, objType, resName))
  }

  /** getConnection as written: a missing connection is reported as one of
      'destroy connection' whatever the operation. */
  function GetConnectionAsWritten(resource: DrbdResource, props: Props, action: string, objType: string): (r: Result<DrbdConnection, EventError>)
    ensures r.Failure? && PROP_KEY_CONN_NAME in props ==>
      r.error == NonExistentConnection(ACTION_DESTROY, OBJ_CONNECTION, props[PROP_KEY_CONN_NAME], resource.resName)
  {
    var connName :- GetProp(props, PROP_KEY_CONN_NAME, action, objType);
    if connName in resource.connections then Success(resource.connections[connName])
    else Failure(NonExistentConnection(ACTION_DESTROY, OBJ_CONNECTION, connName, resource.resName))
  }

  /** getConnection, reporting the caller's operation: the resource's
      connection the conn-name property names. */
  function GetConnection(resource: DrbdResource, props: Props, action: string, objType: string): (r: Result<DrbdConnection, EventError>)
    ensures r.Success? <==> PROP_KEY_CONN_NAME in props && props[PROP_KEY_CONN_NAME] in resource.connections
    ensures r.Success? ==> r.value == resource.connections[props[PROP_KEY_CONN_NAME]]
    ensures r.Failure? ==> r.error == if PROP_KEY_CONN_NAME in props
      then NonExistentConnection(action, objType, props[PROP_KEY_CONN_NAME], resource.resName)
      else MissingArgument(action, objType, PROP_KEY_CONN_NAME)
  {
    var connName :- GetProp(props, PROP_KEY_CONN_NAME, action, objType);
    if connName in resource.connections then Success(resource.connections[connName])
    else Failure(NonExistentConnection(action, objType, connName, resource.resName))
  }

  /** getVolume: the resource's volume, or with a connection the peer
      volume of that connection, the volume property names. A missing one is
      reported with the volume number's int value in the message. */
  function GetVolume(resource: DrbdResource, connection: Option<DrbdConnection>, props: Props, action: string, objType: string): (r: Result<DrbdVolume, EventError>)
    ensures r.Success? <==> (GetVolumeNr(props, action, objType).Success? &&
      GetVolumeNr(props, action, objType).value in (if connection.None? then resource.volumes else connection.value.volumes))
    ensures r.Failure? && GetVolumeNr(props, action, objType).Success? ==>
      var volNr := GetVolumeNr(props, action, objType).value;
      r.error == if connection.None?
        then NonExistentVolume(action, objType, volNr, resource.resName)
        else NonExistentPeerVolume(action, objType, volNr, connection.value.peerName, resource.resName)
  {
    var volNr :- GetVolumeNr(props, action, objType);
    match connection
    case None =>
      if volNr in resource.volumes then Success(resource.volumes[volNr])
      else Failure(NonExistentVolume(action, objType, volNr, resource.resName))
    case Some(conn) =>
      if volNr in conn.volumes then Success(conn.volumes[volNr])
      else Failure(NonExistentPeerVolume(action, objType, volNr, conn.peerName, resource.resName))
  }

  /** getVolume as written: nonExistentVolume hands the VolumeNumber object
      itself to a '%d' conversion. VolumeNumber keeps its number in a field
      and is no java.lang.Number, so String.format throws before the
      EventsSourceException is built; everything else is as getVolume. */
  function GetVolumeAsWritten(resource: DrbdResource, connection: Option<DrbdConnection>, props: Props, action: string, objType: string): (r: Result<DrbdVolume, EventError>)
    ensures r.Success? <==> GetVolume(resource, connection, props, action, objType).Success?
    ensures r.Success? ==> r == GetVolume(resource, connection, props, action, objType)
    ensures GetVolumeNr(props, action, objType).Failure? ==> r == GetVolume(resource, connection, props, action, objType)
    ensures r.Failure? && GetVolumeNr(props, action, objType).Success? ==>
      r.error == IllegalFormatConversion('d', "VolumeNumber")
  {
    var volNr :- GetVolumeNr(props, action, objType);
    var volumes := if connection.None? then resource.volumes else connection.value.volumes;
    if volNr in volumes then Success(volumes[volNr])
    else Failure(IllegalFormatConversion('d', "VolumeNumber"))
  }

  /** A change of device 5 of a tracked resource without that device: as
      written the line ends in IllegalFormatConversionException, not in the
      non-existent-volume EventsSourceException the corrected lookup gives. */
  lemma MissingVolumeMisformatted()
    ensures GetVolumeAsWritten(DrbdResource("r0", map[], map[]), None, map[PROP_KEY_VOL_NR := "5"], ACTION_CHANGE, OBJ_VOLUME)
      == Failure(IllegalFormatConversion('d', "VolumeNumber"))
    ensures GetVolume(DrbdResource("r0", map[], map[]), None, map[PROP_KEY_VOL_NR := "5"], ACTION_CHANGE, OBJ_VOLUME)
      == Failure(NonExistentVolume(ACTION_CHANGE, OBJ_VOLUME, 5, "r0"))
  {
    assert Digits(5) == "5";
    ParseIntOfDigits(5);
  }

  // ---------------------------------------------------------------------
  // Effects of the handlers

  /** createResource: DrbdResource.newFromProps reads the name; the new,
      empty resource replaces any tracked one of that name. */
  function CreateResourceEffect(resList: map<string, DrbdResource>, props: Props): Result<Effect, EventError> {
    var resName :- GetProp(props, PROP_KEY_RES_NAME, ACTION_CREATE, OBJ_RESOURCE);
    var subject := Subject(resName, None, None);
    Success(Effect(resList[resName := DrbdResource(resName, map[], map[])],
      [Callback(ResCreated, subject)], [Update(subject, props)], None))
  }

  function CreateConnectionEffect(resList: map<string, DrbdResource>, props: Props): Result<Effect, EventError> {
    var res :- GetResource(resList, props, ACTION_CREATE, OBJ_CONNECTION);
    var connName :- GetProp(props, PROP_KEY_CONN_NAME, ACTION_CREATE, OBJ_CONNECTION);
    var subject := Subject(res.resName, Some(connName), None);
    var res' := res.(connections := res.connections[connName := DrbdConnection(connName, map[])]);
    Success(Effect(resList[res.resName := res'], [Callback(ConnCreated, subject)], [Update(subject, props)], None))
  }

  function CreateVolumeEffect(resList: map<string, DrbdResource>, props: Props): Result<Effect, EventError> {
    var res :- GetResource(resList, props, ACTION_CREATE, OBJ_VOLUME);
    var volNr :- GetVolumeNr(props, ACTION_CREATE, OBJ_VOLUME);
    var subject := Subject(res.resName, None, Some(volNr));
    var res' := res.(volumes := res.volumes[volNr := DrbdVolume(volNr)]);
    Success(Effect(resList[res.resName := res'], [Callback(VolCreated, subject)], [Update(subject, props)], None))
  }

  function CreatePeerVolumeEffect(resList: map<string, DrbdResource>, props: Props): Result<Effect, EventError> {
    var res :- GetResource(resList, props, ACTION_CREATE, OBJ_PEER_VOLUME);
    var conn :- GetConnection(res, props, ACTION_CREATE, OBJ_PEER_VOLUME);
    var volNr :- GetVolumeNr(props, ACTION_CREATE, OBJ_PEER_VOLUME);
    var subject := Subject(res.resName, Some(conn.peerName), Some(volNr));
    var conn' := conn.(volumes := conn.volumes[volNr := DrbdVolume(volNr)]);
    var res' := res.(connections := res.connections[conn.peerName := conn']);
    Success(Effect(resList[res.resName := res'], [Callback(VolCreated, subject)], [Update(subject, props)], None))
  }

  /** create: the handler of the object type; the end-of-initial-state
      marker sets the availability latch; other types are ignored. */
  function CreateEffect(resList: map<string, DrbdResource>, objType: string, props: Props): Result<Effect, EventError> {
    if objType == OBJ_RESOURCE then CreateResourceEffect(resList, props)
    else if objType == OBJ_CONNECTION then CreateConnectionEffect(resList, props)
    else if objType == OBJ_VOLUME then CreateVolumeEffect(resList, props)
    else if objType == OBJ_PEER_VOLUME then CreatePeerVolumeEffect(resList, props)
    else if objType == OBJ_END_OF_INIT then Success(Effect(resList, [], [], Some(true)))
    else Success(NoChange(resList))
  }

  /** change: the addressed object is looked up and updated; the tree
      keeps its shape. */
  function ChangeEffect(resList: map<string, DrbdResource>, objType: string, props: Props): Result<Effect, EventError> {
    if objType == OBJ_RESOURCE then
      var res :- GetResource(resList, props, ACTION_CHANGE, OBJ_RESOURCE);
      Success(Effect(resList, [], [Update(Subject(res.resName, None, None), props)], None))
    else if objType == OBJ_CONNECTION then
      var res :- GetResource(resList, props, ACTION_CHANGE, OBJ_CONNECTION);
      var conn :- GetConnection(res, props, ACTION_CHANGE, OBJ_CONNECTION);
      Success(Effect(resList, [], [Update(Subject(res.resName, Some(conn.peerName), None), props)], None))
    else if objType == OBJ_VOLUME then
      var res :- GetResource(resList, props, ACTION_CHANGE, OBJ_VOLUME);
      var vol :- GetVolume(res, None, props, ACTION_CHANGE, OBJ_VOLUME);
      Success(Effect(resList, [], [Update(Subject(res.resName, None, Some(vol.volNr)), props)], None))
    else if objType == OBJ_PEER_VOLUME then
      var res :- GetResource(resList, props, ACTION_CHANGE, OBJ_PEER_VOLUME);
      var conn :- GetConnection(res, props, ACTION_CHANGE, OBJ_PEER_VOLUME);
      var vol :- GetVolume(res, Some(conn), props, ACTION_CHANGE, OBJ_PEER_VOLUME);
      Success(Effect(resList, [], [Update(Subject(res.resName, Some(conn.peerName), Some(vol.volNr)), props)], None))
    else Success(NoChange(resList))
  }

  function DestroyResourceEffect(resList: map<string, DrbdResource>, props: Props): Result<Effect, EventError> {
    var resName :- GetProp(props, PROP_KEY_RES_NAME, ACTION_DESTROY, OBJ_RESOURCE);
    if resName !in resList then Failure(NonExistentResource(ACTION_DESTROY, OBJ_RESOURCE, resName))
    else Success(NoChange(resList - {resName}))
  }

  function DestroyConnectionEffect(resList: map<string, DrbdResource>, props: Props): Result<Effect, EventError> {
    var res :- GetResource(resList, props, ACTION_DESTROY, OBJ_CONNECTION);
    var connName :- GetProp(props, PROP_KEY_CONN_NAME, ACTION_DESTROY, OBJ_CONNECTION);
    if connName !in res.connections then Failure(NonExistentConnection(ACTION_DESTROY, OBJ_CONNECTION, connName, res.resName))
    else Success(NoChange(resList[res.resName := res.(connections := res.connections - {connName})]))
  }

  function DestroyVolumeEffect(resList: map<string, DrbdResource>, props: Props): Result<Effect, EventError> {
    var res :- GetResource(resList, props, ACTION_DESTROY, OBJ_VOLUME);
    var volNr :- GetVolumeNr(props, ACTION_DESTROY, OBJ_VOLUME);
    if volNr !in res.volumes then Failure(NonExistentVolume(ACTION_DESTROY, OBJ_VOLUME, volNr, res.resName))
    else Success(NoChange(resList[res.resName := res.(volumes := res.volumes - {volNr})]))
  }

  function DestroyPeerVolumeEffect(resList: map<string, DrbdResource>, props: Props): Result<Effect, EventError> {
    var res :- GetResource(resList, props, ACTION_DESTROY, OBJ_PEER_VOLUME);
    var conn :- GetConnection(res, props, ACTION_DESTROY, OBJ_PEER_VOLUME);
    var volNr :- GetVolumeNr(props, ACTION_DESTROY, OBJ_PEER_VOLUME);
    if volNr !in conn.volumes then
      Failure(NonExistentPeerVolume(ACTION_DESTROY, OBJ_PEER_VOLUME, volNr, conn.peerName, res.resName))
    else
      var conn' := conn.(volumes := conn.volumes - {volNr});
      Success(NoChange(resList[res.resName := res.(connections := res.connections[conn.peerName := conn'])]))
  }

  /** destroy: the addressed object is removed; no callback is triggered. */
  function DestroyEffect(resList: map<string, DrbdResource>, objType: string, props: Props): Result<Effect, EventError> {
    if objType == OBJ_RESOURCE then DestroyResourceEffect(resList, props)
    else if objType == OBJ_CONNECTION then DestroyConnectionEffect(resList, props)
    else if objType == OBJ_VOLUME then DestroyVolumeEffect(resList, props)
    else if objType == OBJ_PEER_VOLUME then DestroyPeerVolumeEffect(resList, props)
    else Success(NoChange(resList))
  }

  /** The action switch of receiveEvent. */
  function Dispatch(resList: map<string, DrbdResource>, action: string, objType: string, props: Props): (r: Result<Effect, EventError>)
    ensures !IsKnownAction(action) ==> r == Success(NoChange(resList))
    ensures !IsTrackedObject(objType) && objType != OBJ_END_OF_INIT ==> r == Success(NoChange(resList))
    ensures r.Failure? ==> IsKnownAction(action) && IsTrackedObject(objType)
    ensures r.Success? ==> (r.value.available.Some? <==> Reported(action) == ACTION_CREATE && objType == OBJ_END_OF_INIT)
    ensures r.Success? && r.value.available.Some? ==> r.value == Effect(resList, [], [], Some(true))
  {
    if action == ACTION_EXISTS || action == ACTION_CREATE then CreateEffect(resList, objType, props)
    else if action == ACTION_CHANGE then ChangeEffect(resList, objType, props)
    else if action == ACTION_DESTROY then DestroyEffect(resList, objType, props)
    else Success(NoChange(resList))
  }

  /** receiveEvent: a null line is an implementation error, an empty line
      is skipped, and a line needs an action and an object type token. */
  function Interpret(resList: map<string, DrbdResource>, eventString: Option<string>): (r: Result<Effect, EventError>)
    ensures eventString.None? ==> r == Failure(NullEventString)
    ensures eventString == Some([]) ==> r == Success(NoChange(resList))
    ensures eventString.Some? && eventString.value != [] && AllSpaces(eventString.value) ==> r == Failure(NoAction)
  {
    match eventString
    case None => Failure(NullEventString)
    case Some(line) =>
      if line == [] then Success(NoChange(resList))
      else
        NoTokensIffBlank(line);
        var tokens := Tokens(line);
        if |tokens| == 0 then Failure(NoAction)
        else if |tokens| == 1 then Failure(NoObjectType)
        else Dispatch(resList, tokens[0], tokens[1], PropsOf(tokens[2..]))
  }

  // ---------------------------------------------------------------------
  // Properties of the event stream

  /** A line of an action, an object type and property tokens, joined by
      spaces, is dispatched with exactly the properties its tokens give. */
  lemma InterpretJoinedLine(resList: map<string, DrbdResource>, action: string, objType: string, kvPairs: seq<string>)
    requires IsToken(action) && IsToken(objType)
    requires forall i :: 0 <= i < |kvPairs| ==> IsToken(kvPairs[i])
    ensures Interpret(resList, Some(JoinSpaced([action, objType] + kvPairs))) == Dispatch(resList, action, objType, PropsOf(kvPairs))
  {
    var ts := [action, objType] + kvPairs;
    AllTokens(action, objType, kvPairs);
    TokensOfJoin(ts);
    var line := JoinSpaced(ts);
    assert line != [] by {
      assert Tokens(line) != [];
    }
    InterpretTokens(resList, line);
  }

  lemma AllTokens(action: string, objType: string, kvPairs: seq<string>)
    requires IsToken(action) && IsToken(objType)
    requires forall i :: 0 <= i < |kvPairs| ==> IsToken(kvPairs[i])
    ensures forall i :: 0 <= i < |[action, objType] + kvPairs| ==> IsToken(([action, objType] + kvPairs)[i])
  {
    var ts := [action, objType] + kvPairs;
    forall i | 2 <= i < |ts| ensures IsToken(ts[i]) {
      assert ts[i] == kvPairs[i - 2];
    }
  }

  /** A line of at least two tokens is dispatched on its first two. */
  lemma InterpretTokens(resList: map<string, DrbdResource>, line: string)
    requires line != [] && |Tokens(line)| >= 2
    ensures Interpret(resList, Some(line)) == Dispatch(resList, Tokens(line)[0], Tokens(line)[1], PropsOf(Tokens(line)[2..]))
  {
  }

  /** exists and create lines are handled identically. */
  lemma ExistsActsAsCreate(resList: map<string, DrbdResource>, rest: string)
    requires rest == [] || rest[0] == ' '
    ensures Interpret(resList, Some(ACTION_EXISTS + rest)) == Interpret(resList, Some(ACTION_CREATE + rest))
  {
    InterpretActionThen(resList, ACTION_EXISTS, rest);
    InterpretActionThen(resList, ACTION_CREATE, rest);
    var ts := Tokens(rest);
    if ts != [] {
      DispatchExistsAsCreate(resList, ts[0], PropsOf(ts[1..]));
    }
  }

  /** A line that starts with an action token is read as that action
      followed by the tokens of the rest of the line. */
  lemma InterpretActionThen(resList: map<string, DrbdResource>, action: string, rest: string)
    requires IsToken(action) && (rest == [] || rest[0] == ' ')
    ensures Tokens(rest) == [] ==> Interpret(resList, Some(action + rest)) == Failure(NoObjectType)
    ensures Tokens(rest) != [] ==>
      Interpret(resList, Some(action + rest)) == Dispatch(resList, action, Tokens(rest)[0], PropsOf(Tokens(rest)[1..]))
  {
    TokensOfTokenThen(action, rest);
    var ts := Tokens(rest);
    var line := action + rest;
    assert line[0] == action[0];
    var tokens := [action] + ts;
    if ts != [] {
      assert tokens[1] == ts[0] && tokens[2..] == ts[1..];
    }
  }

  lemma DispatchExistsAsCreate(resList: map<string, DrbdResource>, objType: string, props: Props)
    ensures Dispatch(resList, ACTION_EXISTS, objType, props) == Dispatch(resList, ACTION_CREATE, objType, props)
  {
  }

  /** A line that names a resource the tree does not hold fails with the
      non-existent-resource error of its own operation, for change, destroy
      and the create of a child object. */
  lemma MissingResourceFails(resList: map<string, DrbdResource>, action: string, objType: string, props: Props)
    requires IsTrackedObject(objType) && IsKnownAction(action)
    requires Reported(action) == ACTION_CREATE ==> objType != OBJ_RESOURCE
    requires PROP_KEY_RES_NAME in props && props[PROP_KEY_RES_NAME] !in resList
    ensures Dispatch(resList, action, objType, props) == Failure(NonExistentResource(Reported(action), objType, props[PROP_KEY_RES_NAME]))
  {
  }

  /** A line without the name property fails for every tracked object. */
  lemma MissingNameFails(resList: map<string, DrbdResource>, action: string, objType: string, props: Props)
    requires IsTrackedObject(objType) && IsKnownAction(action)
    requires PROP_KEY_RES_NAME !in props
    ensures Dispatch(resList, action, objType, props) == Failure(MissingArgument(Reported(action), objType, PROP_KEY_RES_NAME))
  {
  }

  /** A connection or peer-device line naming a connection the resource does
      not have fails with the non-existent-connection error (a created
      connection excepted). */
  lemma MissingConnectionFails(resList: map<string, DrbdResource>, action: string, objType: string, props: Props)
    requires IsKnownAction(action)
    requires objType == OBJ_PEER_VOLUME || (objType == OBJ_CONNECTION && Reported(action) != ACTION_CREATE)
    requires PROP_KEY_RES_NAME in props && props[PROP_KEY_RES_NAME] in resList
    requires PROP_KEY_CONN_NAME in props && props[PROP_KEY_CONN_NAME] !in resList[props[PROP_KEY_RES_NAME]].connections
    ensures Dispatch(resList, action, objType, props) ==
      Failure(NonExistentConnection(Reported(action), objType, props[PROP_KEY_CONN_NAME], resList[props[PROP_KEY_RES_NAME]].resName))
  {
  }

  /** A change or destroy of a device the resource does not have fails with
      the non-existent-volume error. */
  lemma MissingVolumeFails(resList: map<string, DrbdResource>, action: string, props: Props)
    requires action == ACTION_CHANGE || action == ACTION_DESTROY
    requires PROP_KEY_RES_NAME in props && props[PROP_KEY_RES_NAME] in resList
    requires GetVolumeNr(props, action, OBJ_VOLUME).Success?
    requires GetVolumeNr(props, action, OBJ_VOLUME).value !in resList[props[PROP_KEY_RES_NAME]].volumes
    ensures Dispatch(resList, action, OBJ_VOLUME, props) ==
      Failure(NonExistentVolume(action, OBJ_VOLUME, GetVolumeNr(props, action, OBJ_VOLUME).value, resList[props[PROP_KEY_RES_NAME]].resName))
  {
  }

  /** A change or destroy of a peer device the connection does not have
      fails with the non-existent-peer-volume error. */
  lemma MissingPeerVolumeFails(resList: map<string, DrbdResource>, action: string, props: Props)
    requires action == ACTION_CHANGE || action == ACTION_DESTROY
    requires PROP_KEY_RES_NAME in props && props[PROP_KEY_RES_NAME] in resList
    requires PROP_KEY_CONN_NAME in props && props[PROP_KEY_CONN_NAME] in resList[props[PROP_KEY_RES_NAME]].connections
    requires GetVolumeNr(props, action, OBJ_PEER_VOLUME).Success?
    requires GetVolumeNr(props, action, OBJ_PEER_VOLUME).value !in
      resList[props[PROP_KEY_RES_NAME]].connections[props[PROP_KEY_CONN_NAME]].volumes
    ensures Dispatch(resList, action, OBJ_PEER_VOLUME, props) ==
      Failure(NonExistentPeerVolume(action, OBJ_PEER_VOLUME, GetVolumeNr(props, action, OBJ_PEER_VOLUME).value,
        resList[props[PROP_KEY_RES_NAME]].connections[props[PROP_KEY_CONN_NAME]].peerName,
        resList[props[PROP_KEY_RES_NAME]].resName))
  {
  }

  /** A device or peer-device line of an existing resource (and connection)
      whose volume property is not a number in the volume range fails. */
  lemma InvalidVolumeFails(resList: map<string, DrbdResource>, action: string, objType: string, props: Props)
    requires IsKnownAction(action) && (objType == OBJ_VOLUME || objType == OBJ_PEER_VOLUME)
    requires PROP_KEY_RES_NAME in props && props[PROP_KEY_RES_NAME] in resList
    requires objType == OBJ_PEER_VOLUME ==>
      PROP_KEY_CONN_NAME in props && props[PROP_KEY_CONN_NAME] in resList[props[PROP_KEY_RES_NAME]].connections
    requires PROP_KEY_VOL_NR in props
    requires ParseInt(props[PROP_KEY_VOL_NR]).None? || !IsVolumeNumber(ParseInt(props[PROP_KEY_VOL_NR]).value)
    ensures Dispatch(resList, action, objType, props) == Failure(InvalidVolumeNumber(Reported(action), objType))
  {
  }

  /** Every effect keeps the tree keyed by the objects' names. */
  lemma DispatchKeepsWellKeyed(resList: map<string, DrbdResource>, action: string, objType: string, props: Props)
    requires WellKeyed(resList)
    ensures Dispatch(resList, action, objType, props).Success? ==> WellKeyed(Dispatch(resList, action, objType, props).value.resList)
  {
  }

  /** Destroying a resource just created restores the tree. */
  lemma CreateDestroyResource(resList: map<string, DrbdResource>, props: Props)
    requires PROP_KEY_RES_NAME in props && props[PROP_KEY_RES_NAME] !in resList
    ensures Dispatch(resList, ACTION_CREATE, OBJ_RESOURCE, props).Success?
    ensures Dispatch(Dispatch(resList, ACTION_CREATE, OBJ_RESOURCE, props).value.resList, ACTION_DESTROY, OBJ_RESOURCE, props)
      == Success(NoChange(resList))
  {
    var resName := props[PROP_KEY_RES_NAME];
    assert resList[resName := DrbdResource(resName, map[], map[])] - {resName} == resList;
  }

  /** Destroying a connection just created restores the tree. */
  lemma CreateDestroyConnection(resList: map<string, DrbdResource>, props: Props)
    requires WellKeyed(resList)
    requires PROP_KEY_RES_NAME in props && props[PROP_KEY_RES_NAME] in resList
    requires PROP_KEY_CONN_NAME in props && props[PROP_KEY_CONN_NAME] !in resList[props[PROP_KEY_RES_NAME]].connections
    ensures Dispatch(resList, ACTION_CREATE, OBJ_CONNECTION, props).Success?
    ensures Dispatch(Dispatch(resList, ACTION_CREATE, OBJ_CONNECTION, props).value.resList, ACTION_DESTROY, OBJ_CONNECTION, props)
      == Success(NoChange(resList))
  {
    var resName := props[PROP_KEY_RES_NAME];
    var connName := props[PROP_KEY_CONN_NAME];
    var res := resList[resName];
    var res' := res.(connections := res.connections[connName := DrbdConnection(connName, map[])]);
    assert res'.(connections := res'.connections - {connName}) == res by {
      assert res'.connections - {connName} == res.connections;
    }
    assert resList[resName := res'][resName := res] == resList;
  }

  /** Destroying a device just created restores the tree. */
  lemma CreateDestroyVolume(resList: map<string, DrbdResource>, props: Props)
    requires WellKeyed(resList)
    requires PROP_KEY_RES_NAME in props && props[PROP_KEY_RES_NAME] in resList
    requires GetVolumeNr(props, ACTION_CREATE, OBJ_VOLUME).Success?
    requires GetVolumeNr(props, ACTION_CREATE, OBJ_VOLUME).value !in resList[props[PROP_KEY_RES_NAME]].volumes
    ensures Dispatch(resList, ACTION_CREATE, OBJ_VOLUME, props).Success?
    ensures Dispatch(Dispatch(resList, ACTION_CREATE, OBJ_VOLUME, props).value.resList, ACTION_DESTROY, OBJ_VOLUME, props)
      == Success(NoChange(resList))
  {
    var resName := props[PROP_KEY_RES_NAME];
    var volNr := GetVolumeNr(props, ACTION_CREATE, OBJ_VOLUME).value;
    assert GetVolumeNr(props, ACTION_DESTROY, OBJ_VOLUME) == Success(volNr);
    var res := resList[resName];
    var res' := res.(volumes := res.volumes[volNr := DrbdVolume(volNr)]);
    assert res'.(volumes := res'.volumes - {volNr}) == res by {
      assert res'.volumes - {volNr} == res.volumes;
    }
    assert resList[resName := res'][resName := res] == resList;
  }

  /** A change never alters the shape of the tree. */
  lemma ChangeKeepsTree(resList: map<string, DrbdResource>, objType: string, props: Props)
    ensures Dispatch(resList, ACTION_CHANGE, objType, props).Success? ==>
      Dispatch(resList, ACTION_CHANGE, objType, props).value.resList == resList &&
      Dispatch(resList, ACTION_CHANGE, objType, props).value.callbacks == []
  {
  }

  /** getResource and getConnection as written name 'destroy peer-device'
      and 'destroy connection' in the errors of a change of a resource or
      connection; the corrected lookups name the operation itself. */
  lemma LookupsMisreportOperation()
    ensures GetResourceAsWritten(map[], map[PROP_KEY_RES_NAME := "r0"], ACTION_CHANGE, OBJ_RESOURCE)
      == Failure(NonExistentResource(ACTION_DESTROY, OBJ_PEER_VOLUME, "r0"))
    ensures GetResource(map[], map[PROP_KEY_RES_NAME := "r0"], ACTION_CHANGE, OBJ_RESOURCE)
      == Failure(NonExistentResource(ACTION_CHANGE, OBJ_RESOURCE, "r0"))
    ensures GetConnectionAsWritten(DrbdResource("r0", map[], map[]), map[PROP_KEY_CONN_NAME := "peer"], ACTION_CHANGE, OBJ_CONNECTION)
      == Failure(NonExistentConnection(ACTION_DESTROY, OBJ_CONNECTION, "peer", "r0"))
    ensures GetConnection(DrbdResource("r0", map[], map[]), map[PROP_KEY_CONN_NAME := "peer"], ACTION_CHANGE, OBJ_CONNECTION)
      == Failure(NonExistentConnection(ACTION_CHANGE, OBJ_CONNECTION, "peer", "r0"))
  {
  }

  // ---------------------------------------------------------------------
  // The tracker

  /** A drbdStateAvailable (true) or drbdStateUnavailable (false) call on a
      state-change observer. */
  datatype Notice = Notice(observer: nat, available: bool)

  /** One notice per state-change observer, in registration order. */
  function Notices(observers: seq<nat>, available: bool): (ns: seq<Notice>)
    ensures |ns| == |observers|
    ensures forall i :: 0 <= i < |observers| ==> ns[i] == Notice(observers[i], available)
  {
    seq(|observers|, i requires 0 <= i < |observers| => Notice(observers[i], available))
  }

  class EventsTracker {
    const tracker: StateTracker
    var stateAvailable: bool
    /** The availability calls made on state-change observers, in order. */
    var notices: seq<Notice>
    /** The update(props) calls made on tracked objects, in order. */
    var updates: seq<Update>

    ghost predicate Valid()
      reads tracker`obsMaskMap, tracker.observers
    {
      tracker.Valid()
    }

    constructor (trackerRef: StateTracker)
      ensures tracker == trackerRef && !stateAvailable && notices == [] && updates == []
    {
      tracker := trackerRef;
      stateAvailable := false;
      notices := [];
      updates := [];
    }

    /** The deliveries the multiplexer makes for the callbacks, in order. */
    function Delivered(callbacks: seq<Callback>): seq<Delivery>
      requires tracker.observers.Length == 13
      reads tracker.observers
    {
      if callbacks == [] then []
      else
        var last := callbacks[|callbacks| - 1];
        Delivered(callbacks[..|callbacks| - 1]) + [Delivery(last.kind, last.subject, tracker.observers[ObsBit(last.kind)])]
    }

    /** The handler with outcome r performed the effect e: on an error
        nothing changed; otherwise the tree is e's, its callbacks were
        delivered, its updates made and the latch set with its notices. */
    twostate predicate Applied(new e: Result<Effect, EventError>, new r: Outcome<EventError>)
      requires tracker.observers.Length == 13
      reads this, tracker, tracker.observers
    {
      match e
      case Failure(err) =>
        r == Fail(err) && tracker.resList == old(tracker.resList) && tracker.deliveries == old(tracker.deliveries) &&
        updates == old(updates) && stateAvailable == old(stateAvailable) && notices == old(notices)
      case Success(c) =>
        r == Pass && tracker.resList == c.resList && tracker.deliveries == old(tracker.deliveries) + Delivered(c.callbacks) &&
        updates == old(updates) + c.updates &&
        stateAvailable == (if c.available.Some? then c.available.value else old(stateAvailable)) &&
        notices == old(notices) + (if c.available.Some? then Notices(tracker.drbdStateChangeObservers, c.available.value) else [])
    }

    /** receiveEvent. */
    method ReceiveEvent(eventString: Option<string>) returns (r: Outcome<EventError>)
      requires Valid()
      modifies this, tracker`resList, tracker`deliveries
      ensures Applied(Interpret(old(tracker.resList), eventString), r)
    {
      if eventString.None? {
        return Fail(NullEventString);
      }
      var line := eventString.value;
      if line == [] {
        return Pass;
      }
      var tokens := Tokens(line);
      if |tokens| == 0 {
        return Fail(NoAction);
      }
      if |tokens| == 1 {
        return Fail(NoObjectType);
      }
      var action := tokens[0];
      var objType := tokens[1];
      var props := ParseProps(tokens[2..]);
      if action == ACTION_EXISTS || action == ACTION_CREATE {
        r := Create(props, objType);
      } else if action == ACTION_CHANGE {
        r := Change(props, objType);
      } else if action == ACTION_DESTROY {
        r := Destroy(props, objType);
      } else {
        r := Pass;
      }
    }

    method Create(props: Props, objType: string) returns (r: Outcome<EventError>)
      requires Valid()
      modifies this, tracker`resList, tracker`deliveries
      ensures Applied(CreateEffect(old(tracker.resList), objType, props), r)
    {
      if objType == OBJ_RESOURCE {
        r := CreateResource(props);
      } else if objType == OBJ_CONNECTION {
        r := CreateConnection(props);
      } else if objType == OBJ_VOLUME {
        r := CreateVolume(props);
      } else if objType == OBJ_PEER_VOLUME {
        r := CreatePeerVolume(props);
      } else if objType == OBJ_END_OF_INIT {
        DrbdStateAvailable();
        r := Pass;
      } else {
        r := Pass;
      }
    }

    /** reinitializing: the latch is cleared and every state-change observer
        is told the state is unavailable. */
    method Reinitializing()
      modifies this`stateAvailable, this`notices
      ensures !stateAvailable
      ensures notices == old(notices) + Notices(tracker.drbdStateChangeObservers, false)
    {
      stateAvailable := false;
      NotifyStateChangeObservers(false);
    }

    /** drbdStateAvailable: the latch is set and every state-change observer
        is told the state is available. */
    method DrbdStateAvailable()
      modifies this`stateAvailable, this`notices
      ensures stateAvailable
      ensures notices == old(notices) + Notices(tracker.drbdStateChangeObservers, true)
    {
      stateAvailable := true;
      NotifyStateChangeObservers(true);
    }

    /** The loop over the tracker's state-change observers. */
    method NotifyStateChangeObservers(available: bool)
      modifies this`notices
      ensures notices == old(notices) + Notices(tracker.drbdStateChangeObservers, available)
    {
      var observers := tracker.drbdStateChangeObservers;
      var i := 0;
      while i < |observers|
        invariant 0 <= i <= |observers|
        invariant notices == old(notices) + Notices(observers[..i], available)
      {
        notices := notices + [Notice(observers[i], available)];
        assert Notices(observers[..i + 1], available) == Notices(observers[..i], available) + [Notice(observers[i], available)];
        i := i + 1;
      }
      assert observers[..i] == observers;
    }

    method Change(props: Props, objType: string) returns (r: Outcome<EventError>)
      requires Valid()
      modifies this, tracker`resList, tracker`deliveries
      ensures Applied(ChangeEffect(old(tracker.resList), objType, props), r)
    {
      if objType == OBJ_RESOURCE {
        r := ChangeResource(props);
      } else if objType == OBJ_CONNECTION {
        r := ChangeConnection(props);
      } else if objType == OBJ_VOLUME {
        r := ChangeVolume(props);
      } else if objType == OBJ_PEER_VOLUME {
        r := ChangePeerVolume(props);
      } else {
        r := Pass;
      }
    }

    method Destroy(props: Props, objType: string) returns (r: Outcome<EventError>)
      requires Valid()
      modifies this, tracker`resList, tracker`deliveries
      ensures Applied(DestroyEffect(old(tracker.resList), objType, props), r)
    {
      if objType == OBJ_RESOURCE {
        r := DestroyResource(props);
      } else if objType == OBJ_CONNECTION {
        r := DestroyConnection(props);
      } else if objType == OBJ_VOLUME {
        r := DestroyVolume(props);
      } else if objType == OBJ_PEER_VOLUME {
        r := DestroyPeerVolume(props);
      } else {
        r := Pass;
      }
    }

    method CreateResource(props: Props) returns (r: Outcome<EventError>)
      requires Valid()
      modifies this, tracker`resList, tracker`deliveries
      ensures Applied(CreateResourceEffect(old(tracker.resList), props), r)
    {
      var resName := GetProp(props, PROP_KEY_RES_NAME, ACTION_CREATE, OBJ_RESOURCE);
      if resName.Failure? {
        return Fail(resName.error);
      }
      var resource := DrbdResource(resName.value, map[], map[]);
      tracker.PutResource(resource);
      var subject := Subject(resource.resName, None, None);
      tracker.Deliver(ResCreated, subject);
      updates := updates + [Update(subject, props)];
      r := Pass;
    }

    method CreateConnection(props: Props) returns (r: Outcome<EventError>)
      requires Valid()
      modifies this, tracker`resList, tracker`deliveries
      ensures Applied(CreateConnectionEffect(old(tracker.resList), props), r)
    {
      var resource := GetResource(tracker.resList, props, ACTION_CREATE, OBJ_CONNECTION);
      if resource.Failure? {
        return Fail(resource.error);
      }
      var connName := GetProp(props, PROP_KEY_CONN_NAME, ACTION_CREATE, OBJ_CONNECTION);
      if connName.Failure? {
        return Fail(connName.error);
      }
      var res := resource.value;
      var connection := DrbdConnection(connName.value, map[]);
      tracker.PutResource(res.(connections := res.connections[connection.peerName := connection]));
      var subject := Subject(res.resName, Some(connection.peerName), None);
      tracker.Deliver(ConnCreated, subject);
      updates := updates + [Update(subject, props)];
      r := Pass;
    }

    method CreateVolume(props: Props) returns (r: Outcome<EventError>)
      requires Valid()
      modifies this, tracker`resList, tracker`deliveries
      ensures Applied(CreateVolumeEffect(old(tracker.resList), props), r)
    {
      var resource := GetResource(tracker.resList, props, ACTION_CREATE, OBJ_VOLUME);
      if resource.Failure? {
        return Fail(resource.error);
      }
      var volNr := GetVolumeNr(props, ACTION_CREATE, OBJ_VOLUME);
      if volNr.Failure? {
        return Fail(volNr.error);
      }
      var res := resource.value;
      var volume := DrbdVolume(volNr.value);
      tracker.PutResource(res.(volumes := res.volumes[volume.volNr := volume]));
      var subject := Subject(res.resName, None, Some(volume.volNr));
      tracker.Deliver(VolCreated, subject);
      updates := updates + [Update(subject, props)];
      r := Pass;
    }

    method CreatePeerVolume(props: Props) returns (r: Outcome<EventError>)
      requires Valid()
      modifies this, tracker`resList, tracker`deliveries
      ensures Applied(CreatePeerVolumeEffect(old(tracker.resList), props), r)
    {
      var resource := GetResource(tracker.resList, props, ACTION_CREATE, OBJ_PEER_VOLUME);
      if resource.Failure? {
        return Fail(resource.error);
      }
      var res := resource.value;
      var connection := GetConnection(res, props, ACTION_CREATE, OBJ_PEER_VOLUME);
      if connection.Failure? {
        return Fail(connection.error);
      }
      var volNr := GetVolumeNr(props, ACTION_CREATE, OBJ_PEER_VOLUME);
      if volNr.Failure? {
        return Fail(volNr.error);
      }
      var conn := connection.value;
      var volume := DrbdVolume(volNr.value);
      conn := conn.(volumes := conn.volumes[volume.volNr := volume]);
      tracker.PutResource(res.(connections := res.connections[conn.peerName := conn]));
      var subject := Subject(res.resName, Some(conn.peerName), Some(volume.volNr));
      tracker.Deliver(VolCreated, subject);
      updates := updates + [Update(subject, props)];
      r := Pass;
    }

    method ChangeResource(props: Props) returns (r: Outcome<EventError>)
      requires Valid()
      modifies this, tracker`resList, tracker`deliveries
      ensures Applied(ChangeEffect(old(tracker.resList), OBJ_RESOURCE, props), r)
    {
      var resource := GetResource(tracker.resList, props, ACTION_CHANGE, OBJ_RESOURCE);
      if resource.Failure? {
        return Fail(resource.error);
      }
      updates := updates + [Update(Subject(resource.value.resName, None, None), props)];
      r := Pass;
    }

    method ChangeConnection(props: Props) returns (r: Outcome<EventError>)
      requires Valid()
      modifies this, tracker`resList, tracker`deliveries
      ensures Applied(ChangeEffect(old(tracker.resList), OBJ_CONNECTION, props), r)
    {
      var resource := GetResource(tracker.resList, props, ACTION_CHANGE, OBJ_CONNECTION);
      if resource.Failure? {
        return Fail(resource.error);
      }
      var connection := GetConnection(resource.value, props, ACTION_CHANGE, OBJ_CONNECTION);
      if connection.Failure? {
        return Fail(connection.error);
      }
      updates := updates + [Update(Subject(resource.value.resName, Some(connection.value.peerName), None), props)];
      r := Pass;
    }

    method ChangeVolume(props: Props) returns (r: Outcome<EventError>)
      requires Valid()
      modifies this, tracker`resList, tracker`deliveries
      ensures Applied(ChangeEffect(old(tracker.resList), OBJ_VOLUME, props), r)
    {
      var resource := GetResource(tracker.resList, props, ACTION_CHANGE, OBJ_VOLUME);
      if resource.Failure? {
        return Fail(resource.error);
      }
      var volume := GetVolume(resource.value, None, props, ACTION_CHANGE, OBJ_VOLUME);
      if volume.Failure? {
        return Fail(volume.error);
      }
      updates := updates + [Update(Subject(resource.value.resName, None, Some(volume.value.volNr)), props)];
      r := Pass;
    }

    method ChangePeerVolume(props: Props) returns (r: Outcome<EventError>)
      requires Valid()
      modifies this, tracker`resList, tracker`deliveries
      ensures Applied(ChangeEffect(old(tracker.resList), OBJ_PEER_VOLUME, props), r)
    {
      var resource := GetResource(tracker.resList, props, ACTION_CHANGE, OBJ_PEER_VOLUME);
      if resource.Failure? {
        return Fail(resource.error);
      }
      var connection := GetConnection(resource.value, props, ACTION_CHANGE, OBJ_PEER_VOLUME);
      if connection.Failure? {
        return Fail(connection.error);
      }
      var volume := GetVolume(resource.value, Some(connection.value), props, ACTION_CHANGE, OBJ_PEER_VOLUME);
      if volume.Failure? {
        return Fail(volume.error);
      }
      var subject := Subject(resource.value.resName, Some(connection.value.peerName), Some(volume.value.volNr));
      updates := updates + [Update(subject, props)];
      r := Pass;
    }

    method DestroyResource(props: Props) returns (r: Outcome<EventError>)
      requires Valid()
      modifies this, tracker`resList, tracker`deliveries
      ensures Applied(DestroyEffect(old(tracker.resList), OBJ_RESOURCE, props), r)
    {
      var resName := GetProp(props, PROP_KEY_RES_NAME, ACTION_DESTROY, OBJ_RESOURCE);
      if resName.Failure? {
        return Fail(resName.error);
      }
      var removed := tracker.RemoveResource(Some(resName.value));
      if removed.value.None? {
        assert tracker.resList == old(tracker.resList);
        return Fail(NonExistentResource(ACTION_DESTROY, OBJ_RESOURCE, resName.value));
      }
      r := Pass;
    }

    method DestroyConnection(props: Props) returns (r: Outcome<EventError>)
      requires Valid()
      modifies this, tracker`resList, tracker`deliveries
      ensures Applied(DestroyEffect(old(tracker.resList), OBJ_CONNECTION, props), r)
    {
      var resource := GetResource(tracker.resList, props, ACTION_DESTROY, OBJ_CONNECTION);
      if resource.Failure? {
        return Fail(resource.error);
      }
      var connName := GetProp(props, PROP_KEY_CONN_NAME, ACTION_DESTROY, OBJ_CONNECTION);
      if connName.Failure? {
        return Fail(connName.error);
      }
      var res := resource.value;
      if connName.value !in res.connections {
        return Fail(NonExistentConnection(ACTION_DESTROY, OBJ_CONNECTION, connName.value, res.resName));
      }
      tracker.PutResource(res.(connections := res.connections - {connName.value}));
      r := Pass;
    }

    method DestroyVolume(props: Props) returns (r: Outcome<EventError>)
      requires Valid()
      modifies this, tracker`resList, tracker`deliveries
      ensures Applied(DestroyEffect(old(tracker.resList), OBJ_VOLUME, props), r)
    {
      var resource := GetResource(tracker.resList, props, ACTION_DESTROY, OBJ_VOLUME);
      if resource.Failure? {
        return Fail(resource.error);
      }
      var volNr := GetVolumeNr(props, ACTION_DESTROY, OBJ_VOLUME);
      if volNr.Failure? {
        return Fail(volNr.error);
      }
      var res := resource.value;
      if volNr.value !in res.volumes {
        return Fail(NonExistentVolume(ACTION_DESTROY, OBJ_VOLUME, volNr.value, res.resName));
      }
      tracker.PutResource(res.(volumes := res.volumes - {volNr.value}));
      r := Pass;
    }

    method DestroyPeerVolume(props: Props) returns (r: Outcome<EventError>)
      requires Valid()
      modifies this, tracker`resList, tracker`deliveries
      ensures Applied(DestroyEffect(old(tracker.resList), OBJ_PEER_VOLUME, props), r)
    {
      var resource := GetResource(tracker.resList, props, ACTION_DESTROY, OBJ_PEER_VOLUME);
      if resource.Failure? {
        return Fail(resource.error);
      }
      var res := resource.value;
      var connection := GetConnection(res, props, ACTION_DESTROY, OBJ_PEER_VOLUME);
      if connection.Failure? {
        return Fail(connection.error);
      }
      var volNr := GetVolumeNr(props, ACTION_DESTROY, OBJ_PEER_VOLUME);
      if volNr.Failure? {
        return Fail(volNr.error);
      }
      var conn := connection.value;
      if volNr.value !in conn.volumes {
        return Fail(NonExistentPeerVolume(ACTION_DESTROY, OBJ_PEER_VOLUME, volNr.value, conn.peerName, res.resName));
      }
      conn := conn.(volumes := conn.volumes - {volNr.value});
      tracker.PutResource(res.(connections := res.connections[conn.peerName := conn]));
      r := Pass;
    }
  }
}
