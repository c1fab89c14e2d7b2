/**
 * The request handlers of the machine driver (driver.go) with the database and the
 * hypervisor calls as inputs: the state-to-status mapping, the argument guards and
 * lookups of `CreateMachine`, the event dispatch of `TriggerMachine` and the list
 * converters.
 */
module Driver {
  import opened Ints
  import opened Wrappers
  import opened Models
  import ApiData
  import opened NetAlloc

  /**
   * The machine statuses the driver hands out. The driver also names a CRASHED status,
   * which the wire enum in data.pb.go does not declare, so the statuses are kept abstract
   * here and `WireNumber` maps the declared ones to their numbers.
   */
  datatype ApiStatus = StatusUnspecified | StatusCreated | StatusRunning | StatusCrashed | StatusStopped

  /** The suffix of the `api.Machine_…` constant the driver writes for a status. */
  function ApiStatusName(s: ApiStatus): string {
    match s
    case StatusUnspecified => "STATUS_UNSPECIFIED"
    case StatusCreated => "CREATED"
    case StatusRunning => "RUNNING"
    case StatusCrashed => "CRASHED"
    case StatusStopped => "STOPPED"
  }

  /** The number `ApiData` declares for a status under the same name; CRASHED has none there. */
  function WireNumber(s: ApiStatus): (r: Option<ApiData.MachineStatus>)
    ensures r.Some? ==> r.value in ApiData.MachineStatusName
    ensures r.Some? ==> ApiData.MachineStatusName[r.value] == ApiStatusName(s)
    ensures r.None? <==> ApiStatusName(s) !in ApiData.MachineStatusValue
    ensures r.None? <==> s == StatusCrashed
  {
    match s
    case StatusUnspecified => Some(ApiData.STATUS_UNSPECIFIED)
    case StatusCreated => Some(ApiData.CREATED)
    case StatusRunning => Some(ApiData.RUNNING)
    case StatusStopped => Some(ApiData.STOPPED)
    case StatusCrashed => None
  }

  /** Distinct statuses go out as distinct numbers. */
  lemma WireNumberInjective(a: ApiStatus, b: ApiStatus)
    requires WireNumber(a).Some? && WireNumber(a) == WireNumber(b)
    ensures a == b
  {
  }

  /** `machineStateToApiStatus`. */
  function MachineStateToApiStatus(state: MachineState): (r: ApiStatus)
    ensures state == StateCreated <==> r == StatusCreated
    ensures state == StateRunning <==> r == StatusRunning
    ensures state == StateCrashed <==> r == StatusCrashed
    ensures state == StateStopped <==> r == StatusStopped
    ensures state == StateUnknown <==> r == StatusUnspecified
  {
    match state
    case StateCreated => StatusCreated
    case StateRunning => StatusRunning
    case StateCrashed => StatusCrashed
    case StateStopped => StatusStopped
    case _ => StatusUnspecified
  }

  /** No two machine states are reported as the same status. */
  lemma {:induction false} MachineStateToApiStatusInjective(a: MachineState, b: MachineState)
    requires MachineStateToApiStatus(a) == MachineStateToApiStatus(b)
    ensures a == b
  {
  }

  /** The gRPC status codes the handlers use. */
  datatype Code = InvalidArgument | NotFound | Internal

  datatype Status = Status(code: Code, message: string)

  /**
   * The rows the handlers read. Each lookup by primary key yields the row, or the error the
   * database reports: "record not found" for a missing key, or any other failure.
   */
  datatype Db = Db(sshKeys: string -> Result<SSHKey, string>,
                   images: string -> Result<Image, string>,
                   networks: string -> Result<Network, string>)

  /** `ConfigureNetworkInterface` as the `i`-th call of one request sees it (each call draws its own MAC bytes). */
  type Configure = (nat, Network) -> Result<NetworkInterface, string>

  datatype CreateMachineRequest = CreateMachineRequest(
    name: string, user: string, imageId: string, sshKeyIds: seq<string>,
    networkIds: seq<string>, specs: ApiData.MachineSpecs)

  /** The first `k` ids are all found. */
  predicate FoundUpTo<V>(ids: seq<string>, lookup: string -> Result<V, string>, k: nat)
    requires k <= |ids|
  {
    forall i :: 0 <= i < k ==> lookup(ids[i]).Success?
  }

  /** The first `k` requested networks are found and each gets an interface configured on it. */
  predicate ReadyUpTo(db: Db, configure: Configure, ids: seq<string>, k: nat)
    requires k <= |ids|
  {
    forall i :: 0 <= i < k ==> db.networks(ids[i]).Success? && configure(i, db.networks(ids[i]).value).Success?
  }

  /** There are keys, all of them are found, and so is the image. */
  predicate KeysAndImageFound(request: CreateMachineRequest, db: Db) {
    && |request.sshKeyIds| >= 1
    && FoundUpTo(request.sshKeyIds, db.sshKeys, |request.sshKeyIds|)
    && db.images(request.imageId).Success?
  }

  /** Every guard and lookup before the database insert passes. */
  predicate InterfacesReady(request: CreateMachineRequest, db: Db, configure: Configure) {
    && KeysAndImageFound(request, db)
    && |request.networkIds| >= 1
    && ReadyUpTo(db, configure, request.networkIds, |request.networkIds|)
  }

  /**
   * `CreateMachine`. `configure` stands for `ConfigureNetworkInterface` on each requested
   * network, `newId` for the generated UUID, and `createRecord` and `createInstance` for
   * the outcomes of the database insert and of the hypervisor call. On success the new
   * machine's id is returned; `record` is the machine written to the database, if any.
   */
  method CreateMachine(request: CreateMachineRequest, db: Db, configure: Configure, newId: string,
                       createRecord: Outcome<string>, createInstance: Outcome<string>)
    returns (r: Result<string, Status>, record: Option<Machine>)
    ensures |request.sshKeyIds| == 0 ==>
      r == Failure(Status(InvalidArgument, "must contain at least one ssh key ID"))
    ensures forall k :: 0 <= k < |request.sshKeyIds| && FoundUpTo(request.sshKeyIds, db.sshKeys, k) &&
                        db.sshKeys(request.sshKeyIds[k]).Failure? ==>
      r == Failure(Status(NotFound, "retrieve ssh key: " + db.sshKeys(request.sshKeyIds[k]).error))
    ensures |request.sshKeyIds| >= 1 && FoundUpTo(request.sshKeyIds, db.sshKeys, |request.sshKeyIds|) &&
            db.images(request.imageId).Failure? ==>
      r == Failure(Status(NotFound, "retrieve image: " + db.images(request.imageId).error))
    ensures KeysAndImageFound(request, db) && |request.networkIds| == 0 ==>
      r == Failure(Status(InvalidArgument, "must contain at least one network ID"))
    ensures KeysAndImageFound(request, db) ==>
      forall k :: 0 <= k < |request.networkIds| && ReadyUpTo(db, configure, request.networkIds, k) &&
                  db.networks(request.networkIds[k]).Failure? ==>
        r == Failure(Status(NotFound, "retrieve network: " + db.networks(request.networkIds[k]).error))
    ensures KeysAndImageFound(request, db) ==>
      forall k :: 0 <= k < |request.networkIds| && ReadyUpTo(db, configure, request.networkIds, k) &&
                  db.networks(request.networkIds[k]).Success? &&
                  configure(k, db.networks(request.networkIds[k]).value).Failure? ==>
        r == Failure(Status(Internal, "configure interface: " +
                                      configure(k, db.networks(request.networkIds[k]).value).error))
    ensures InterfacesReady(request, db, configure) && createRecord.Fail? ==>
      r == Failure(Status(Internal, "create machine record: " + createRecord.error))
    ensures InterfacesReady(request, db, configure) && createRecord.Pass? && createInstance.Fail? ==>
      r == Failure(Status(Internal, "create machine instance: " + createInstance.error))
    ensures r.Failure? && r.error.code == InvalidArgument ==>
      |request.sshKeyIds| == 0 || |request.networkIds| == 0
    ensures r.Success? <==>
      InterfacesReady(request, db, configure) && createRecord.Pass? && createInstance.Pass?
    ensures r.Success? ==> r.value == newId
    ensures record.Some? <==> InterfacesReady(request, db, configure) && createRecord.Pass?
    ensures record.Some? ==>
      var m := record.value;
      && InterfacesReady(request, db, configure)
      && m.id == newId && m.name == request.name && m.user == request.user
      && m.image == db.images(request.imageId).value
      && m.specs == Specs(request.specs.cpus, request.specs.memory, request.specs.disk)
      && |m.sshKeys| == |request.sshKeyIds|
      && (forall i :: 0 <= i < |m.sshKeys| ==> m.sshKeys[i] == db.sshKeys(request.sshKeyIds[i]).value)
      && |m.networkInterfaces| == |request.networkIds|
      && (forall i :: 0 <= i < |m.networkInterfaces| ==>
            && db.networks(request.networkIds[i]).Success?
            && Success(m.networkInterfaces[i]) == configure(i, db.networks(request.networkIds[i]).value))
  {
    record := None;
    var keyIds := request.sshKeyIds;
    if |keyIds| < 1 {
      return Failure(Status(InvalidArgument, "must contain at least one ssh key ID")), record;
    }
    var sshKeys := new SSHKey[|keyIds|];
    for i := 0 to |keyIds|
      invariant FoundUpTo(keyIds, db.sshKeys, i)
      invariant forall j :: 0 <= j < i ==> sshKeys[j] == db.sshKeys(keyIds[j]).value
    {
      var key := db.sshKeys(keyIds[i]);
      if key.Failure? {
        return Failure(Status(NotFound, "retrieve ssh key: " + key.error)), record;
      }
      sshKeys[i] := key.value;
    }
    var keys := sshKeys[..];
    var image := db.images(request.imageId);
    if image.Failure? {
      return Failure(Status(NotFound, "retrieve image: " + image.error)), record;
    }
    var netIds := request.networkIds;
    if |netIds| < 1 {
      return Failure(Status(InvalidArgument, "must contain at least one network ID")), record;
    }
    var ifaces := new NetworkInterface[|netIds|];
    for i := 0 to |netIds|
      invariant ReadyUpTo(db, configure, netIds, i)
      invariant forall j :: 0 <= j < i ==>
        db.networks(netIds[j]).Success? && Success(ifaces[j]) == configure(j, db.networks(netIds[j]).value)
    {
      var network := db.networks(netIds[i]);
      if network.Failure? {
        return Failure(Status(NotFound, "retrieve network: " + network.error)), record;
      }
      var iface := configure(i, network.value);
      if iface.Failure? {
        return Failure(Status(Internal, "configure interface: " + iface.error)), record;
      }
      ifaces[i] := iface.value;
    }
    var specs := Specs(request.specs.cpus, request.specs.memory, request.specs.disk);
    var machine := Machine(newId, request.name, request.user, image.value, keys, specs, ifaces[..]);
    if createRecord.Fail? {
      return Failure(Status(Internal, "create machine record: " + createRecord.error)), record;
    }
    record := Some(machine);
    if createInstance.Fail? {
      return Failure(Status(Internal, "create machine instance: " + createInstance.error)), record;
    }
    return Success(machine.id), record;
  }

  /** The events a trigger request can carry; `OtherEvent` is any number the enum does not name. */
  datatype TriggerEvent = EventUnknown | PowerOn | PowerOff | Reboot | OtherEvent

  /** The activity types the driver records. */
  datatype ActivityType = ActivityUnknown | MachineCreated | MachinePowerOn | MachinePowerOff | MachineReboot

  /** The activity a handled event is recorded as; unknown and unnamed events are not handled. */
  function EventActivity(e: TriggerEvent): (r: Option<ActivityType>)
    ensures r.Some? <==> e in {PowerOn, PowerOff, Reboot}
    ensures e == PowerOn <==> r == Some(MachinePowerOn)
    ensures e == PowerOff <==> r == Some(MachinePowerOff)
    ensures e == Reboot <==> r == Some(MachineReboot)
  {
    match e
    case PowerOn => Some(MachinePowerOn)
    case PowerOff => Some(MachinePowerOff)
    case Reboot => Some(MachineReboot)
    case _ => None
  }

  /** The prefix of the error a failed hypervisor call of a handled event carries. */
  function ActionFailure(e: TriggerEvent): string
    requires EventActivity(e).Some?
  {
    match e
    case PowerOn => "start machine: "
    case PowerOff => "stop machine: "
    case Reboot => "reboot machine: "
  }

  datatype TriggerResponse = TriggerResponse(status: ApiStatus, recorded: ActivityType)

  /**
   * `TriggerMachine`. `lookup` is the machine row, `action` the outcome of the hypervisor
   * call the event selects and `state` the state read afterwards. On success the response
   * carries the machine's status and the activity type that gets recorded.
   */
  function TriggerMachine(lookup: Result<Machine, string>, event: TriggerEvent,
                          action: Outcome<string>, state: Result<MachineState, string>)
    : (r: Result<TriggerResponse, Status>)
    ensures lookup.Failure? ==> r == Failure(Status(Internal, "retrieve machine: " + lookup.error))
    ensures lookup.Success? && event == EventUnknown ==>
      r == Failure(Status(InvalidArgument, "unknown machine trigger event"))
    ensures lookup.Success? && event.OtherEvent? ==>
      r == Failure(Status(InvalidArgument, "machine trigger event can not be handled"))
    ensures lookup.Success? && EventActivity(event).Some? && action.Fail? ==>
      r == Failure(Status(Internal, ActionFailure(event) + action.error))
    ensures lookup.Success? && EventActivity(event).Some? && action.Pass? && state.Failure? ==>
      r == Failure(Status(Internal, "get machine state after trigger: " + state.error))
    ensures r.Success? <==>
      lookup.Success? && EventActivity(event).Some? && action.Pass? && state.Success?
    ensures r.Success? ==>
      Some(r.value.recorded) == EventActivity(event) &&
      r.value.status == MachineStateToApiStatus(state.value)
  {
    if lookup.Failure? then Failure(Status(Internal, "retrieve machine: " + lookup.error))
    else
      match event
      case EventUnknown => Failure(Status(InvalidArgument, "unknown machine trigger event"))
      case OtherEvent => Failure(Status(InvalidArgument, "machine trigger event can not be handled"))
      case _ =>
        var activity := EventActivity(event).value;
        if action.Fail? then Failure(Status(Internal, ActionFailure(event) + action.error))
        else if state.Failure? then
          Failure(Status(Internal, "get machine state after trigger: " + state.error))
        else Success(TriggerResponse(MachineStateToApiStatus(state.value), activity))
  }

  /** Different handled events record different activities. */
  lemma {:induction false} EventActivityInjective(a: TriggerEvent, b: TriggerEvent)
    requires EventActivity(a).Some? && EventActivity(a) == EventActivity(b)
    ensures a == b
  {
  }

  /** `ListSSHKeys`: every row copied, in order, field by field. */
  method ListSSHKeys(rows: Result<seq<SSHKey>, string>) returns (r: Result<seq<ApiData.SSHKey>, Status>)
    ensures rows.Failure? ==> r == Failure(Status(Internal, "retrieve ssh keys: " + rows.error))
    ensures rows.Success? ==> r.Success? && |r.value| == |rows.value|
    ensures rows.Success? ==> forall i :: 0 <= i < |rows.value| ==>
      && ApiData.SSHKeyGetId(Some(r.value[i])) == rows.value[i].id
      && ApiData.SSHKeyGetName(Some(r.value[i])) == rows.value[i].name
      && ApiData.SSHKeyGetPubkey(Some(r.value[i])) == rows.value[i].pubkey
  {
    if rows.Failure? {
      return Failure(Status(Internal, "retrieve ssh keys: " + rows.error));
    }
    var keys := rows.value;
    var apiKeys := new ApiData.SSHKey[|keys|];
    for i := 0 to |keys|
      invariant forall j :: 0 <= j < i ==>
        apiKeys[j] == ApiData.SSHKey(keys[j].id, keys[j].name, keys[j].pubkey)
    {
      apiKeys[i] := ApiData.SSHKey(keys[i].id, keys[i].name, keys[i].pubkey);
    }
    return Success(apiKeys[..]);
  }

  /** The wire value of an image's OS name; a name the enum does not know becomes 0. */
  function ImageSystem(os: string): (v: ApiData.ImageOS)
    ensures os in ApiData.ImageOSValue ==> v == ApiData.ImageOSValue[os]
    ensures os !in ApiData.ImageOSValue ==> v == ApiData.OS_UNSPECIFIEED
  {
    ApiData.MapGet(ApiData.ImageOSValue, os, 0)
  }

  /**
   * Reading the listed OS number back as a name gives the stored name when the enum knows
   * it, and OS_UNSPECIFIEED otherwise.
   */
  lemma {:induction false} ImageSystemRoundTrip(os: string)
    ensures ApiData.EnumString(ApiData.ImageOSName, ImageSystem(os)) ==
      if os in ApiData.ImageOSValue then os else "OS_UNSPECIFIEED"
  {
    ApiData.ImageOSTablesInverse();
    ApiData.EnumStringOfKnown(ImageSystem(os));
  }

  /** `ListImages`: every row copied, in order, with the OS name turned into its enum number. */
  method ListImages(rows: Result<seq<Image>, string>) returns (r: Result<seq<ApiData.Image>, Status>)
    ensures rows.Failure? ==> r == Failure(Status(Internal, "retrieve images: " + rows.error))
    ensures rows.Success? ==> r.Success? && |r.value| == |rows.value|
    ensures rows.Success? ==> forall i :: 0 <= i < |rows.value| ==>
      && ApiData.ImageGetId(Some(r.value[i])) == rows.value[i].id
      && ApiData.ImageGetName(Some(r.value[i])) == rows.value[i].name
      && ApiData.ImageGetSystem(Some(r.value[i])) == ImageSystem(rows.value[i].os)
  {
    if rows.Failure? {
      return Failure(Status(Internal, "retrieve images: " + rows.error));
    }
    var images := rows.value;
    var apiImages := new ApiData.Image[|images|];
    for i := 0 to |images|
      invariant forall j :: 0 <= j < i ==>
        apiImages[j] == ApiData.Image(images[j].id, images[j].name, ImageSystem(images[j].os))
    {
      apiImages[i] := ApiData.Image(images[i].id, images[i].name,
                                    ApiData.MapGet(ApiData.ImageOSValue, images[i].os, 0));
    }
    return Success(apiImages[..]);
  }

  /** An activity as the API lists it: type number, creation time and subject. */
  datatype ApiActivity = ApiActivity(activityType: int32, timestamp: int, subject: string)

  /**
   * `ListActivities`. `typeValues` is the activity type enum's name-to-number table, which
   * data.pb.go does not declare.
   */
  method ListActivities(rows: Result<seq<Activity>, string>, typeValues: map<string, int32>)
    returns (r: Result<seq<ApiActivity>, Status>)
    ensures rows.Failure? ==> r == Failure(Status(Internal, "retrieve activities: " + rows.error))
    ensures rows.Success? ==> r.Success? && |r.value| == |rows.value|
    ensures rows.Success? ==> forall i :: 0 <= i < |rows.value| ==>
      && (rows.value[i].activityType in typeValues ==>
            r.value[i].activityType == typeValues[rows.value[i].activityType])
      && (rows.value[i].activityType !in typeValues ==> r.value[i].activityType == 0)
      && r.value[i].timestamp == rows.value[i].createdAt
      && r.value[i].subject == rows.value[i].subject
  {
    if rows.Failure? {
      return Failure(Status(Internal, "retrieve activities: " + rows.error));
    }
    var activities := rows.value;
    var apiActivities := new ApiActivity[|activities|];
    for i := 0 to |activities|
      invariant forall j :: 0 <= j < i ==>
        apiActivities[j] == ApiActivity(ApiData.MapGet(typeValues, activities[j].activityType, 0),
                                        activities[j].createdAt, activities[j].subject)
    {
      apiActivities[i] := ApiActivity(ApiData.MapGet(typeValues, activities[i].activityType, 0),
                                      activities[i].createdAt, activities[i].subject);
    }
    return Success(apiActivities[..]);
  }
}
