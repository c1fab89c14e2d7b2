/**
 * The dashboard's API store: five last-write-wins slots, one mutation per slot, and one
 * action per slot that awaits a GET on a fixed path and commits what came back.
 */
module ApiStore {
  import opened Wrappers
  import opened Js

  const VersionPath := "/"
  const MachinesPath := "/machines"
  const SshKeysPath := "/ssh-keys"
  const ImagesPath := "/images"
  const NetworksPath := "/networks"

  /** Every path an action of this store requests, in the order the actions are declared. */
  const ActionPaths: seq<string> := [VersionPath, MachinesPath, SshKeysPath, ImagesPath, NetworksPath]

  /** The slot each action commits to, in the order of `ActionPaths`. */
  const ActionSlots: seq<Mutation> := [SetVersion, SetMachines, SetSshKeys, SetImages, SetNetworks]

  /** The five slots as one value. */
  datatype State = State(version: JsValue, machines: JsValue, sshKeys: JsValue,
                         images: JsValue, networks: JsValue)

  /** What `state()` returns: an empty version string and four empty lists. */
  const InitialState := State(Str(""), Arr([]), Arr([]), Arr([]), Arr([]))

  /** The names `commit` accepts. */
  datatype Mutation = SetVersion | SetMachines | SetSshKeys | SetImages | SetNetworks

  /** The slot a mutation writes. */
  function Slot(s: State, m: Mutation): JsValue {
    match m
    case SetVersion => s.version
    case SetMachines => s.machines
    case SetSshKeys => s.sshKeys
    case SetImages => s.images
    case SetNetworks => s.networks
  }

  /** The effect of `commit(m, payload)` on the state. */
  function Commit(s: State, m: Mutation, payload: JsValue): State {
    match m
    case SetVersion => s.(version := payload)
    case SetMachines => s.(machines := payload)
    case SetSshKeys => s.(sshKeys := payload)
    case SetImages => s.(images := payload)
    case SetNetworks => s.(networks := payload)
  }

  /** A commit sets its own slot to the payload and leaves every other slot as it was. */
  lemma CommitSetsOnlyItsSlot(s: State, m: Mutation, v: JsValue)
    ensures Slot(Commit(s, m, v), m) == v
    ensures forall n :: n != m ==> Slot(Commit(s, m, v), n) == Slot(s, n)
  {
  }

  /** Two states that agree on every slot are the same state. */
  lemma SlotsDetermineState(s: State, t: State)
    requires forall m :: Slot(s, m) == Slot(t, m)
    ensures s == t
  {
    assert Slot(s, SetVersion) == Slot(t, SetVersion);
    assert Slot(s, SetMachines) == Slot(t, SetMachines);
    assert Slot(s, SetSshKeys) == Slot(t, SetSshKeys);
    assert Slot(s, SetImages) == Slot(t, SetImages);
    assert Slot(s, SetNetworks) == Slot(t, SetNetworks);
  }

  /** Committing the same value twice is committing it once. */
  lemma CommitIdempotent(s: State, m: Mutation, v: JsValue)
    ensures Commit(Commit(s, m, v), m, v) == Commit(s, m, v)
  {
  }

  /** A later commit to a slot hides an earlier one: the slot depends only on the last payload. */
  lemma CommitLastWins(s: State, m: Mutation, v: JsValue, w: JsValue)
    ensures Commit(Commit(s, m, v), m, w) == Commit(s, m, w)
  {
  }

  /** Commits to different slots do not interfere, so their order does not matter. */
  lemma CommitsCommute(s: State, m: Mutation, n: Mutation, v: JsValue, w: JsValue)
    requires m != n
    ensures Commit(Commit(s, m, v), n, w) == Commit(Commit(s, n, w), m, v)
  {
  }

  class Store {
    var version: JsValue
    var machines: JsValue
    var sshKeys: JsValue
    var images: JsValue
    var networks: JsValue

    function Snapshot(): State
      reads this
    {
      State(version, machines, sshKeys, images, networks)
    }

    constructor ()
      ensures Snapshot() == InitialState
    {
      version := Str("");
      machines := Arr([]);
      sshKeys := Arr([]);
      images := Arr([]);
      networks := Arr([]);
    }

    method MutateVersion(v: JsValue)
      modifies this
      ensures Snapshot() == Commit(old(Snapshot()), SetVersion, v)
    {
      version := v;
    }

    method MutateMachines(v: JsValue)
      modifies this
      ensures Snapshot() == Commit(old(Snapshot()), SetMachines, v)
    {
      machines := v;
    }

    method MutateSshKeys(v: JsValue)
      modifies this
      ensures Snapshot() == Commit(old(Snapshot()), SetSshKeys, v)
    {
      sshKeys := v;
    }

    method MutateImages(v: JsValue)
      modifies this
      ensures Snapshot() == Commit(old(Snapshot()), SetImages, v)
    {
      images := v;
    }

    method MutateNetworks(v: JsValue)
      modifies this
      ensures Snapshot() == Commit(old(Snapshot()), SetNetworks, v)
    {
      networks := v;
    }

    /**
     * `connect`: GET "/" and commit the response's `version` property. A rejected fetch, or
     * a `null` response whose property read throws, rejects the action before the commit.
     */
    method Connect(fetch: string -> Result<JsValue, JsValue>) returns (r: Outcome<JsValue>)
      modifies this
      ensures fetch(VersionPath).Failure? ==>
                r == Fail(fetch(VersionPath).error) && Snapshot() == old(Snapshot())
      ensures fetch(VersionPath).Success? && Member(fetch(VersionPath).value, "version").Failure? ==>
                r == Fail(TypeError) && Snapshot() == old(Snapshot())
      ensures fetch(VersionPath).Success? && Member(fetch(VersionPath).value, "version").Success? ==>
                r == Pass &&
                Snapshot() == old(Snapshot()).(version := Member(fetch(VersionPath).value, "version").value)
    {
      var response := fetch(VersionPath);
      if response.Failure? {
        return Fail(response.error);
      }
      var v := Member(response.value, "version");
      if v.Failure? {
        return Fail(v.error);
      }
      MutateVersion(v.value);
      r := Pass;
    }

    /** `machines`: GET "/machines" and commit the whole response. */
    method Machines(fetch: string -> Result<JsValue, JsValue>) returns (r: Outcome<JsValue>)
      modifies this
      ensures fetch(MachinesPath).Failure? ==>
                r == Fail(fetch(MachinesPath).error) && Snapshot() == old(Snapshot())
      ensures fetch(MachinesPath).Success? ==>
                r == Pass && Snapshot() == old(Snapshot()).(machines := fetch(MachinesPath).value)
    {
      var response := fetch(MachinesPath);
      if response.Failure? {
        return Fail(response.error);
      }
      MutateMachines(response.value);
      r := Pass;
    }

    /** `sshKeys`: GET "/ssh-keys" and commit the whole response. */
    method SshKeys(fetch: string -> Result<JsValue, JsValue>) returns (r: Outcome<JsValue>)
      modifies this
      ensures fetch(SshKeysPath).Failure? ==>
                r == Fail(fetch(SshKeysPath).error) && Snapshot() == old(Snapshot())
      ensures fetch(SshKeysPath).Success? ==>
                r == Pass && Snapshot() == old(Snapshot()).(sshKeys := fetch(SshKeysPath).value)
    {
      var response := fetch(SshKeysPath);
      if response.Failure? {
        return Fail(response.error);
      }
      MutateSshKeys(response.value);
      r := Pass;
    }

    /** `images`: GET "/images" and commit the whole response. */
    method Images(fetch: string -> Result<JsValue, JsValue>) returns (r: Outcome<JsValue>)
      modifies this
      ensures fetch(ImagesPath).Failure? ==>
                r == Fail(fetch(ImagesPath).error) && Snapshot() == old(Snapshot())
      ensures fetch(ImagesPath).Success? ==>
                r == Pass && Snapshot() == old(Snapshot()).(images := fetch(ImagesPath).value)
    {
      var response := fetch(ImagesPath);
      if response.Failure? {
        return Fail(response.error);
      }
      MutateImages(response.value);
      r := Pass;
    }

    /** `networks`: GET "/networks" and commit the whole response. */
    method Networks(fetch: string -> Result<JsValue, JsValue>) returns (r: Outcome<JsValue>)
      modifies this
      ensures fetch(NetworksPath).Failure? ==>
                r == Fail(fetch(NetworksPath).error) && Snapshot() == old(Snapshot())
      ensures fetch(NetworksPath).Success? ==>
                r == Pass && Snapshot() == old(Snapshot()).(networks := fetch(NetworksPath).value)
    {
      var response := fetch(NetworksPath);
      if response.Failure? {
        return Fail(response.error);
      }
      MutateNetworks(response.value);
      r := Pass;
    }
  }

  /** A client: the scenario of refreshing version and machines from a server that answers. */
  method RefreshScenario() returns (s: Store)
    ensures s.version == Str("1.2.3")
    ensures s.machines == Arr([Obj(map["id" := Str("m1")])])
    ensures s.sshKeys == Arr([]) && s.images == Arr([]) && s.networks == Arr([])
  {
    var server := (path: string) =>
      if path == VersionPath then Success(Obj(map["version" := Str("1.2.3")]))
      else if path == MachinesPath then Success(Arr([Obj(map["id" := Str("m1")])]))
      else Failure(Str("timeout"));
    s := new Store();
    var r1 := s.Connect(server);
    var r2 := s.Machines(server);
    var r3 := s.Images(server);
    assert r3 == Fail(Str("timeout"));
  }
}
