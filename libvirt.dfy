/**
 * The hypervisor layer (driver/libvirt/libvirt.go) with the libvirt connection, the
 * external tools and the temporary files as inputs: the domain-state mapping, the
 * username check and cloud-config assembly, the guest interface names, the domain's
 * interface list and the bridge-or-NAT dispatch of `CreateNetwork`.
 */
module Libvirt {
  import opened Ints
  import opened Wrappers
  import opened Strings
  import opened Models

  /** libvirt's domain states; `OtherState` stands for every state number libvirt does not name. */
  datatype DomainState =
    | DomainNoState | DomainRunning | DomainBlocked | DomainPaused | DomainShutdown
    | DomainShutoff | DomainCrashed | DomainPmSuspended | OtherState

  /** The switch of `GetMachineState`. */
  function DomainToMachineState(d: DomainState): (s: MachineState)
    ensures s == StateRunning <==> d == DomainRunning
    ensures s == StateCrashed <==> d in {DomainBlocked, DomainCrashed}
    ensures s == StateStopped <==> d in {DomainPaused, DomainPmSuspended, DomainShutdown, DomainShutoff}
    ensures s == StateUnknown <==> d == DomainNoState || d.OtherState?
  {
    match d
    case DomainRunning => StateRunning
    case DomainBlocked | DomainCrashed => StateCrashed
    case DomainPaused | DomainPmSuspended | DomainShutdown | DomainShutoff => StateStopped
    case _ => StateUnknown
  }

  /** The hypervisor never reports a machine as merely created. */
  lemma NeverCreated(d: DomainState)
    ensures DomainToMachineState(d) != StateCreated
  {
  }

  /** A state together with the error Go returns beside it. */
  datatype StateReading = StateReading(state: MachineState, err: Option<string>)

  /**
   * `GetMachineState`: `lookup` is the outcome of finding the domain and `domainState`
   * that of reading its state.
   */
  function GetMachineState(lookup: Outcome<string>, domainState: Result<DomainState, string>)
    : (r: StateReading)
    ensures lookup.Fail? ==> r == StateReading(StateUnknown, Some("lookup domain: " + lookup.error))
    ensures lookup.Pass? && domainState.Failure? ==>
      r == StateReading(StateUnknown, Some("get domain state: " + domainState.error))
    ensures r.err.None? <==> lookup.Pass? && domainState.Success?
    ensures r.err.None? ==> r.state == DomainToMachineState(domainState.value)
    ensures r.err.Some? ==> r.state == StateUnknown
  {
    if lookup.Fail? then StateReading(StateUnknown, Some("lookup domain: " + lookup.error))
    else if domainState.Failure? then
      StateReading(StateUnknown, Some("get domain state: " + domainState.error))
    else StateReading(DomainToMachineState(domainState.value), None)
  }

  predicate IsLower(c: char) { 'a' <= c <= 'z' }

  predicate IsNameChar(c: char) { c == '-' || IsLower(c) || IsDigit(c) }

  /** What `^[a-z][-a-z0-9]*$` accepts: a lower-case letter, then letters, digits and dashes. */
  predicate UsernameValid(u: string) {
    |u| >= 1 && IsLower(u[0]) && forall i :: 1 <= i < |u| ==> IsNameChar(u[i])
  }

  /** The states of the automaton for `^[a-z][-a-z0-9]*$`. */
  datatype MatchState = AtStart | InName | Rejected

  function MatchStep(q: MatchState, c: char): MatchState {
    match q
    case AtStart => if IsLower(c) then InName else Rejected
    case InName => if IsNameChar(c) then InName else Rejected
    case Rejected => Rejected
  }

  function Run(q: MatchState, s: string): MatchState
    decreases |s|
  {
    if s == [] then q else Run(MatchStep(q, s[0]), s[1..])
  }

  /** `usernamePattern.MatchString`: the automaton ends in its accepting state. */
  predicate MatchesUsernamePattern(u: string) {
    Run(AtStart, u) == InName
  }

  lemma {:induction false} RunRejected(s: string)
    ensures Run(Rejected, s) == Rejected
  {
    if s != [] {
      RunRejected(s[1..]);
    }
  }

  lemma {:induction false} RunInName(s: string)
    ensures Run(InName, s) == InName <==> forall i :: 0 <= i < |s| ==> IsNameChar(s[i])
  {
    if s != [] {
      RunInName(s[1..]);
      RunRejected(s[1..]);
      if forall i :: 0 <= i < |s[1..]| ==> IsNameChar(s[1..][i]) {
        if IsNameChar(s[0]) {
          forall i | 0 <= i < |s|
            ensures IsNameChar(s[i])
          {
            if i > 0 {
              assert s[i] == s[1..][i - 1];
            }
          }
        }
      } else {
        var k :| 0 <= k < |s[1..]| && !IsNameChar(s[1..][k]);
        assert !IsNameChar(s[k + 1]);
      }
    }
  }

  /** The automaton accepts exactly the usernames the pattern describes. */
  lemma {:induction false} UsernamePatternCorrect(u: string)
    ensures MatchesUsernamePattern(u) <==> UsernameValid(u)
  {
    if u != [] {
      RunInName(u[1..]);
      RunRejected(u[1..]);
      if forall i :: 0 <= i < |u[1..]| ==> IsNameChar(u[1..][i]) {
        forall i | 1 <= i < |u|
          ensures IsNameChar(u[i])
        {
          assert u[i] == u[1..][i - 1];
        }
      } else {
        var k :| 0 <= k < |u[1..]| && !IsNameChar(u[1..][k]);
        assert !IsNameChar(u[k + 1]);
      }
    }
  }

  /** The guest user written into the cloud config. */
  datatype User = User(name: string, sudo: string, groups: string, shell: string, home: string,
                       lockPasswd: bool, authorizedKeys: string)

  datatype Chpasswd = Chpasswd(expire: bool, list: seq<string>)

  /** The cloud-config fields `writeCloudConfig` sets; the others keep their zero values. */
  datatype CloudConfig = CloudConfig(hostname: string, fqdn: string, manageEtcHosts: bool,
                                     users: seq<User>, sshPwAuth: bool, chpasswd: Chpasswd)

  const SudoRule := "ALL=(ALL:ALL) NOPASSWD:ALL"
  const LoginShell := "/bin/bash"
  const DefaultPassword := "debian:debian"

  function Pubkeys(keys: seq<SSHKey>): (ps: seq<string>)
    ensures |ps| == |keys| && forall i :: 0 <= i < |keys| ==> ps[i] == keys[i].pubkey
  {
    seq(|keys|, i requires 0 <= i < |keys| => keys[i].pubkey)
  }

  /**
   * `writeCloudConfig` up to the YAML document: the authorized keys are every key's public
   * key on its own line, the username must match the pattern, and host name and FQDN are
   * the first eight characters of the machine id.
   */
  method WriteCloudConfig(machine: Machine) returns (r: Result<CloudConfig, string>)
    requires UsernameValid(machine.user) ==> |machine.id| >= 8
    ensures !UsernameValid(machine.user) <==> r == Failure("username must be valid")
    ensures r.Success? <==> UsernameValid(machine.user)
    ensures r.Success? ==>
      && r.value.hostname == machine.id[..8] && r.value.fqdn == machine.id[..8]
      && r.value.manageEtcHosts && !r.value.sshPwAuth
      && r.value.users == [User(machine.user, SudoRule, "", LoginShell, "/home/" + machine.user,
                                false, Lines(Pubkeys(machine.sshKeys)))]
      && r.value.chpasswd == Chpasswd(false, [DefaultPassword])
  {
    var authorizedKeys := "";
    var keys := machine.sshKeys;
    for i := 0 to |keys|
      invariant authorizedKeys == Lines(Pubkeys(keys[..i]))
    {
      LinesSnoc(Pubkeys(keys[..i]), keys[i].pubkey);
      assert Pubkeys(keys[..i + 1]) == Pubkeys(keys[..i]) + [keys[i].pubkey];
      authorizedKeys := authorizedKeys + keys[i].pubkey + "\n";
    }
    assert keys[..|keys|] == keys;
    UsernamePatternCorrect(machine.user);
    if !MatchesUsernamePattern(machine.user) {
      return Failure("username must be valid");
    }
    var shortId := machine.id[..8];
    var user := User(machine.user, SudoRule, "", LoginShell, "/home/" + machine.user, false,
                     authorizedKeys);
    return Success(CloudConfig(shortId, shortId, true, [user], false,
                               Chpasswd(false, [DefaultPassword])));
  }

  /** The authorized keys read back line by line are the machine's public keys, in order. */
  lemma AuthorizedKeysRoundTrip(keys: seq<SSHKey>)
    requires forall i :: 0 <= i < |keys| ==> NoNewline(keys[i].pubkey)
    ensures SplitLines(Lines(Pubkeys(keys))) == Pubkeys(keys)
  {
    SplitLinesOfLines(Pubkeys(keys));
  }

  /** The guest's name for its `i`-th network interface (counting from 0). */
  function InterfaceName(i: nat): (n: string)
    ensures |n| >= 6 && n[..3] == "enp" && n[|n| - 2..] == "s0"
  {
    "enp" + Decimal(i + 1) + "s0"
  }

  /** Different positions give different interface names. */
  lemma InterfaceNameInjective(i: nat, j: nat)
    requires InterfaceName(i) == InterfaceName(j)
    ensures i == j
  {
    var a, b := InterfaceName(i), InterfaceName(j);
    assert a[3..|a| - 2] == Decimal(i + 1);
    assert b[3..|b| - 2] == Decimal(j + 1);
    DecimalInjective(i + 1, j + 1);
  }

  /** The values the network-interface template is filled with for one interface. */
  datatype NetCfgItem = NetCfgItem(name: string, addressCidr: string, nameservers: seq<string>,
                                   gateway: string)

  /** The loop of `configureImageNetworkInterface`: one stanza per interface, in order. */
  method NetworkConfigItems(ifaces: seq<NetworkInterface>) returns (items: seq<NetCfgItem>)
    ensures |items| == |ifaces|
    ensures forall i :: 0 <= i < |ifaces| ==>
      items[i] == NetCfgItem(InterfaceName(i), ifaces[i].ipv4,
                             Fields(ifaces[i].network.nameservers), ifaces[i].network.ipv4.gateway)
  {
    items := [];
    for i := 0 to |ifaces|
      invariant |items| == i
      invariant forall j :: 0 <= j < i ==>
        items[j] == NetCfgItem(InterfaceName(j), ifaces[j].ipv4,
                               Fields(ifaces[j].network.nameservers), ifaces[j].network.ipv4.gateway)
    {
      var iface := ifaces[i];
      items := items + [NetCfgItem("enp" + Decimal(i + 1) + "s0", iface.ipv4,
                                   Fields(iface.network.nameservers), iface.network.ipv4.gateway)];
    }
  }

  /** Nameservers stored space-separated come back one by one. */
  lemma NameserversRoundTrip(ns: seq<string>)
    requires forall i :: 0 <= i < |ns| ==> IsField(ns[i])
    ensures Fields(JoinSpaced(ns)) == ns
  {
    FieldsOfJoin(ns);
  }

  /** Where a guest interface is plugged in: a host bridge, or a libvirt network by id. */
  datatype InterfaceSource = BridgeSource(bridge: string) | NetworkSource(network: string)

  datatype DomainInterface = DomainInterface(source: InterfaceSource, mac: string, model: string)

  datatype DomainDisk = DomainDisk(device: string, driverType: string, file: string,
                                   targetDev: string, targetBus: string)

  /** The parts of the domain definition that depend on the machine. */
  datatype Domain = Domain(domainType: string, name: string, uuid: string, vcpu: nat,
                           memory: nat, memoryUnit: string, disks: seq<DomainDisk>,
                           interfaces: seq<DomainInterface>)

  /** The interface source `buildDomXml` picks for a network. */
  function SourceOf(network: Network): (s: InterfaceSource)
    ensures s.BridgeSource? <==> network.bridge != ""
    ensures s.BridgeSource? ==> s.bridge == network.netlinkBridge
    ensures s.NetworkSource? ==> s.network == network.id
  {
    if network.bridge != "" then BridgeSource(network.netlinkBridge) else NetworkSource(network.id)
  }

  /** The configuration disk as a SATA CD-ROM and the OS disk as a virtio qcow2 disk. */
  function Disks(configImage: string, osImage: string): seq<DomainDisk> {
    [DomainDisk("cdrom", "raw", configImage, "sda", "sata"),
     DomainDisk("disk", "qcow2", osImage, "vda", "virtio")]
  }

  /** `buildDomXml` up to the XML text. */
  method BuildDomain(id: string, specs: Specs, configImage: string, osImage: string,
                     ifaces: seq<NetworkInterface>) returns (dom: Domain)
    ensures dom.domainType == "kvm" && dom.name == id && dom.uuid == id
    ensures dom.vcpu == ToUint(specs.cpus) && dom.memory == ToUint(specs.memory)
    ensures dom.memoryUnit == "M" && dom.disks == Disks(configImage, osImage)
    ensures |dom.interfaces| == |ifaces|
    ensures forall i :: 0 <= i < |ifaces| ==>
      && (dom.interfaces[i].source.BridgeSource? <==> ifaces[i].network.bridge != "")
      && dom.interfaces[i].source == SourceOf(ifaces[i].network)
      && dom.interfaces[i].mac == ifaces[i].hwAddr
      && dom.interfaces[i].model == "virtio"
  {
    var lvIfaces := new DomainInterface[|ifaces|];
    for i := 0 to |ifaces|
      invariant forall j :: 0 <= j < i ==>
        lvIfaces[j] == DomainInterface(SourceOf(ifaces[j].network), ifaces[j].hwAddr, "virtio")
    {
      var source;
      if ifaces[i].network.bridge != "" {
        source := BridgeSource(ifaces[i].network.netlinkBridge);
      } else {
        source := NetworkSource(ifaces[i].network.id);
      }
      lvIfaces[i] := DomainInterface(source, ifaces[i].hwAddr, "virtio");
    }
    dom := Domain("kvm", id, id, ToUint(specs.cpus), ToUint(specs.memory), "M",
                  Disks(configImage, osImage), lvIfaces[..]);
  }

  /** The steps `CreateNetwork` takes against the host. */
  datatype NetworkStep = SetUpBridge | SetUpNat | CheckActive | StartNetwork

  datatype NetworkSetup = NetworkSetup(steps: seq<NetworkStep>, err: Option<string>)

  /**
   * `CreateNetwork`: a network with a bridge name gets the VXLAN bridge and nothing else;
   * any other gets the NAT network, which is started when it is not active. The outcomes
   * of the bridge setup, the NAT setup, the activity check and the start are inputs.
   */
  function CreateNetwork(network: Network, bridge: Outcome<string>, natSetup: Outcome<string>,
                         active: Result<bool, string>, start: Outcome<string>): (r: NetworkSetup)
    ensures network.bridge != "" ==> r.steps == [SetUpBridge]
    ensures network.bridge != "" ==>
      r.err == (if bridge.Fail? then Some("create bridge: " + bridge.error) else None)
    ensures network.bridge == "" ==> SetUpBridge !in r.steps && |r.steps| >= 1 && r.steps[0] == SetUpNat
    ensures network.bridge == "" && natSetup.Fail? ==>
      r == NetworkSetup([SetUpNat], Some("create NAT network: " + natSetup.error))
    ensures network.bridge == "" && natSetup.Pass? ==> |r.steps| >= 2 && r.steps[..2] == [SetUpNat, CheckActive]
    ensures network.bridge == "" && natSetup.Pass? && active.Failure? ==>
      r.err == Some("check network isActive: " + active.error)
    ensures network.bridge == "" && natSetup.Pass? && active.Success? && !active.value && start.Fail? ==>
      r.err == Some("start network :" + start.error)
    ensures StartNetwork in r.steps <==>
      network.bridge == "" && natSetup.Pass? && active.Success? && !active.value
    ensures r.err.None? <==>
      if network.bridge != "" then bridge.Pass?
      else natSetup.Pass? && active.Success? && (active.value || start.Pass?)
  {
    if network.bridge != "" then
      NetworkSetup([SetUpBridge], if bridge.Fail? then Some("create bridge: " + bridge.error) else None)
    else if natSetup.Fail? then NetworkSetup([SetUpNat], Some("create NAT network: " + natSetup.error))
    else if active.Failure? then
      NetworkSetup([SetUpNat, CheckActive], Some("check network isActive: " + active.error))
    else if active.value then NetworkSetup([SetUpNat, CheckActive], None)
    else if start.Fail? then
      NetworkSetup([SetUpNat, CheckActive, StartNetwork], Some("start network :" + start.error))
    else NetworkSetup([SetUpNat, CheckActive, StartNetwork], None)
  }
}
