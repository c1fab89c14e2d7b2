/**
 * The generated protobuf messages of the API: the two enum types with their name and value
 * tables, the message records, and the getters that read a field through a possibly nil
 * message pointer (`None` here stands for Go's nil).
 */
module ApiData {
  import opened Ints
  import opened Wrappers
  import opened Strings

  type ImageOS = int32
  type MachineStatus = int32

  const OS_UNSPECIFIEED: ImageOS := 0
  const DEBIAN_BUSTER: ImageOS := 1
  const DEBIAN_BULLSEYE: ImageOS := 2
  const DEBIAN_BOOKWORM: ImageOS := 3

  const ImageOSName: map<int32, string> :=
    map[0 := "OS_UNSPECIFIEED", 1 := "DEBIAN_BUSTER", 2 := "DEBIAN_BULLSEYE", 3 := "DEBIAN_BOOKWORM"]
  const ImageOSValue: map<string, int32> :=
    map["OS_UNSPECIFIEED" := 0, "DEBIAN_BUSTER" := 1, "DEBIAN_BULLSEYE" := 2, "DEBIAN_BOOKWORM" := 3]

  const STATUS_UNSPECIFIED: MachineStatus := 0
  const CREATED: MachineStatus := 1
  const STOPPED: MachineStatus := 2
  const RUNNING: MachineStatus := 3
  const DESTROYED: MachineStatus := 4

  const MachineStatusName: map<int32, string> :=
    map[0 := "STATUS_UNSPECIFIED", 1 := "CREATED", 2 := "STOPPED", 3 := "RUNNING", 4 := "DESTROYED"]
  const MachineStatusValue: map<string, int32> :=
    map["STATUS_UNSPECIFIED" := 0, "CREATED" := 1, "STOPPED" := 2, "RUNNING" := 3, "DESTROYED" := 4]

  /** A name table and a value table that undo each other, in both directions. */
  ghost predicate MutuallyInverse(names: map<int32, string>, values: map<string, int32>) {
    && (forall k :: k in names ==> names[k] in values && values[names[k]] == k)
    && (forall n :: n in values ==> values[n] in names && names[values[n]] == n)
  }

  lemma ImageOSTablesInverse()
    ensures MutuallyInverse(ImageOSName, ImageOSValue)
    ensures ImageOSName.Keys == {0, 1, 2, 3}
  {
  }

  lemma MachineStatusTablesInverse()
    ensures MutuallyInverse(MachineStatusName, MachineStatusValue)
    ensures MachineStatusName.Keys == {0, 1, 2, 3, 4}
  {
  }

  /** Go's map index: the stored value, or the zero value for a missing key. */
  function MapGet<K, V>(m: map<K, V>, k: K, zero: V): V {
    if k in m then m[k] else zero
  }

  /**
   * `String()` of a protobuf enum: the declared name of a known number, otherwise the
   * number in decimal (what the protobuf runtime prints for an undeclared value).
   */
  function EnumString(names: map<int32, string>, x: int32): string {
    if x in names then names[x] else Itoa(x as int)
  }

  /** A declared name is text that no number prints as: it holds a letter. */
  predicate HasLetter(s: string) {
    exists i :: 0 <= i < |s| && 'A' <= s[i] <= 'Z'
  }

  lemma ItoaInjective(a: int, b: int)
    requires Itoa(a) == Itoa(b)
    ensures a == b
  {
    if a < 0 && b < 0 {
      assert Itoa(a)[1..] == Decimal(-a) && Itoa(b)[1..] == Decimal(-b);
      DecimalInjective(-a, -b);
    } else if a >= 0 && b >= 0 {
      DecimalInjective(a, b);
    }
  }

  lemma ItoaHasNoLetter(a: int)
    ensures !HasLetter(Itoa(a))
  {
  }

  /**
   * With an injective table of names that all hold a letter, `String()` is injective on all
   * of int32: different enum values never print the same.
   */
  lemma EnumStringInjective(names: map<int32, string>, x: int32, y: int32)
    requires forall k :: k in names ==> HasLetter(names[k])
    requires forall j, k :: j in names && k in names && names[j] == names[k] ==> j == k
    requires EnumString(names, x) == EnumString(names, y)
    ensures x == y
  {
    if x in names && y !in names {
      ItoaHasNoLetter(y as int);
    } else if x !in names && y in names {
      ItoaHasNoLetter(x as int);
    } else if x !in names && y !in names {
      ItoaInjective(x as int, y as int);
    }
  }

  lemma ImageOSNamesHaveLetters()
    ensures forall k :: k in ImageOSName ==> HasLetter(ImageOSName[k])
  {
    forall k | k in ImageOSName
      ensures HasLetter(ImageOSName[k])
    {
      assert 'A' <= ImageOSName[k][0] <= 'Z';
    }
  }

  lemma MachineStatusNamesHaveLetters()
    ensures forall k :: k in MachineStatusName ==> HasLetter(MachineStatusName[k])
  {
    forall k | k in MachineStatusName
      ensures HasLetter(MachineStatusName[k])
    {
      assert 'A' <= MachineStatusName[k][0] <= 'Z';
    }
  }

  /** Distinct OS numbers print differently. */
  lemma ImageOSStringInjective(x: ImageOS, y: ImageOS)
    requires EnumString(ImageOSName, x) == EnumString(ImageOSName, y)
    ensures x == y
  {
    ImageOSTablesInverse();
    ImageOSNamesHaveLetters();
    EnumStringInjective(ImageOSName, x, y);
  }

  /** Distinct status numbers print differently. */
  lemma MachineStatusStringInjective(x: MachineStatus, y: MachineStatus)
    requires EnumString(MachineStatusName, x) == EnumString(MachineStatusName, y)
    ensures x == y
  {
    MachineStatusTablesInverse();
    MachineStatusNamesHaveLetters();
    EnumStringInjective(MachineStatusName, x, y);
  }

  /** A known value's `String()` is its table name, and parsing that name gives the value back. */
  lemma EnumStringOfKnown(x: int32)
    ensures x in ImageOSName ==>
              EnumString(ImageOSName, x) == ImageOSName[x] &&
              MapGet(ImageOSValue, EnumString(ImageOSName, x), 0) == x
    ensures x in MachineStatusName ==>
              EnumString(MachineStatusName, x) == MachineStatusName[x] &&
              MapGet(MachineStatusValue, EnumString(MachineStatusName, x), 0) == x
  {
  }

  /** `Number()`: the enum as a protobuf enum number, which is its own int32 value. */
  function Number(x: int32): (n: int)
    ensures -0x8000_0000 <= n < 0x8000_0000 && n as int32 == x
  {
    x as int
  }

  /** A heap cell holding an enum value, what `new(Image_OS)` allocates. */
  class EnumRef {
    var value: int32

    constructor (v: int32)
      ensures value == v
    {
      value := v;
    }
  }

  /** `Enum()`: a pointer to a fresh copy of the receiver. */
  method Enum(x: int32) returns (p: EnumRef)
    ensures fresh(p) && p.value == x
  {
    p := new EnumRef(x);
  }

  datatype SSHKey = SSHKey(id: string, name: string, pubkey: string)
  datatype Image = Image(id: string, name: string, system: ImageOS)
  datatype MachineSpecs = MachineSpecs(cpus: int64, memory: int64, disk: int64)
  datatype NetworkInterface = NetworkInterface(networkId: string, ipV4: string, ipV6: string)
  datatype Machine = Machine(id: string, name: string, status: MachineStatus,
                             specs: Option<MachineSpecs>, networks: seq<Option<NetworkInterface>>,
                             imageId: string, sshKeyIds: seq<string>)
  datatype IpNetwork = IpNetwork(subnet: string, gateway: string)
  datatype Network = Network(id: string, name: string, ipV4: Option<IpNetwork>,
                             ipV6: Option<IpNetwork>, nameservers: seq<string>,
                             searchDomains: seq<string>)

  function SSHKeyGetId(x: Option<SSHKey>): string { if x.Some? then x.value.id else "" }
  function SSHKeyGetName(x: Option<SSHKey>): string { if x.Some? then x.value.name else "" }
  function SSHKeyGetPubkey(x: Option<SSHKey>): string { if x.Some? then x.value.pubkey else "" }

  function ImageGetId(x: Option<Image>): string { if x.Some? then x.value.id else "" }
  function ImageGetName(x: Option<Image>): string { if x.Some? then x.value.name else "" }
  function ImageGetSystem(x: Option<Image>): ImageOS { if x.Some? then x.value.system else OS_UNSPECIFIEED }

  function MachineGetId(x: Option<Machine>): string { if x.Some? then x.value.id else "" }
  function MachineGetName(x: Option<Machine>): string { if x.Some? then x.value.name else "" }
  function MachineGetStatus(x: Option<Machine>): MachineStatus {
    if x.Some? then x.value.status else STATUS_UNSPECIFIED
  }
  function MachineGetSpecs(x: Option<Machine>): Option<MachineSpecs> {
    if x.Some? then x.value.specs else None
  }
  function MachineGetNetworks(x: Option<Machine>): seq<Option<NetworkInterface>> {
    if x.Some? then x.value.networks else []
  }
  function MachineGetImageId(x: Option<Machine>): string { if x.Some? then x.value.imageId else "" }
  function MachineGetSshKeyIds(x: Option<Machine>): seq<string> {
    if x.Some? then x.value.sshKeyIds else []
  }

  function NetworkInterfaceGetNetworkId(x: Option<NetworkInterface>): string {
    if x.Some? then x.value.networkId else ""
  }
  function NetworkInterfaceGetIpV4(x: Option<NetworkInterface>): string { if x.Some? then x.value.ipV4 else "" }
  function NetworkInterfaceGetIpV6(x: Option<NetworkInterface>): string { if x.Some? then x.value.ipV6 else "" }

  function NetworkGetId(x: Option<Network>): string { if x.Some? then x.value.id else "" }
  function NetworkGetName(x: Option<Network>): string { if x.Some? then x.value.name else "" }
  function NetworkGetIpV4(x: Option<Network>): Option<IpNetwork> { if x.Some? then x.value.ipV4 else None }
  function NetworkGetIpV6(x: Option<Network>): Option<IpNetwork> { if x.Some? then x.value.ipV6 else None }
  function NetworkGetNameservers(x: Option<Network>): seq<string> {
    if x.Some? then x.value.nameservers else []
  }
  function NetworkGetSearchDomains(x: Option<Network>): seq<string> {
    if x.Some? then x.value.searchDomains else []
  }

  function MachineSpecsGetCpus(x: Option<MachineSpecs>): int64 { if x.Some? then x.value.cpus else 0 }
  function MachineSpecsGetMemory(x: Option<MachineSpecs>): int64 { if x.Some? then x.value.memory else 0 }
  function MachineSpecsGetDisk(x: Option<MachineSpecs>): int64 { if x.Some? then x.value.disk else 0 }

  function IpNetworkGetSubnet(x: Option<IpNetwork>): string { if x.Some? then x.value.subnet else "" }
  function IpNetworkGetGateway(x: Option<IpNetwork>): string { if x.Some? then x.value.gateway else "" }

  // Each getter returns its field of a present message and its field type's zero value
  // on a nil one.

  lemma SSHKeyGetters(k: SSHKey)
    ensures SSHKeyGetId(None) == "" && SSHKeyGetName(None) == "" && SSHKeyGetPubkey(None) == ""
    ensures SSHKeyGetId(Some(k)) == k.id && SSHKeyGetName(Some(k)) == k.name
    ensures SSHKeyGetPubkey(Some(k)) == k.pubkey
  {
  }

  lemma ImageGetters(i: Image)
    ensures ImageGetId(None) == "" && ImageGetName(None) == "" && ImageGetSystem(None) == OS_UNSPECIFIEED
    ensures ImageGetId(Some(i)) == i.id && ImageGetName(Some(i)) == i.name
    ensures ImageGetSystem(Some(i)) == i.system
  {
  }

  lemma MachineGetters(m: Machine)
    ensures MachineGetId(None) == "" && MachineGetName(None) == ""
    ensures MachineGetStatus(None) == STATUS_UNSPECIFIED && MachineGetSpecs(None) == None
    ensures MachineGetNetworks(None) == [] && MachineGetImageId(None) == "" && MachineGetSshKeyIds(None) == []
    ensures MachineGetId(Some(m)) == m.id && MachineGetName(Some(m)) == m.name
    ensures MachineGetStatus(Some(m)) == m.status && MachineGetSpecs(Some(m)) == m.specs
    ensures MachineGetNetworks(Some(m)) == m.networks && MachineGetImageId(Some(m)) == m.imageId
    ensures MachineGetSshKeyIds(Some(m)) == m.sshKeyIds
  {
  }

  lemma NetworkInterfaceGetters(n: NetworkInterface)
    ensures NetworkInterfaceGetNetworkId(None) == "" && NetworkInterfaceGetIpV4(None) == ""
    ensures NetworkInterfaceGetIpV6(None) == ""
    ensures NetworkInterfaceGetNetworkId(Some(n)) == n.networkId
    ensures NetworkInterfaceGetIpV4(Some(n)) == n.ipV4 && NetworkInterfaceGetIpV6(Some(n)) == n.ipV6
  {
  }

  lemma NetworkGetters(w: Network)
    ensures NetworkGetId(None) == "" && NetworkGetName(None) == ""
    ensures NetworkGetIpV4(None) == None && NetworkGetIpV6(None) == None
    ensures NetworkGetNameservers(None) == [] && NetworkGetSearchDomains(None) == []
    ensures NetworkGetId(Some(w)) == w.id && NetworkGetName(Some(w)) == w.name
    ensures NetworkGetIpV4(Some(w)) == w.ipV4 && NetworkGetIpV6(Some(w)) == w.ipV6
    ensures NetworkGetNameservers(Some(w)) == w.nameservers
    ensures NetworkGetSearchDomains(Some(w)) == w.searchDomains
  {
  }

  lemma MachineSpecsGetters(s: MachineSpecs)
    ensures MachineSpecsGetCpus(None) == 0 && MachineSpecsGetMemory(None) == 0 && MachineSpecsGetDisk(None) == 0
    ensures MachineSpecsGetCpus(Some(s)) == s.cpus && MachineSpecsGetMemory(Some(s)) == s.memory
    ensures MachineSpecsGetDisk(Some(s)) == s.disk
  {
  }

  lemma IpNetworkGetters(p: IpNetwork)
    ensures IpNetworkGetSubnet(None) == "" && IpNetworkGetGateway(None) == ""
    ensures IpNetworkGetSubnet(Some(p)) == p.subnet && IpNetworkGetGateway(Some(p)) == p.gateway
  {
  }
}
