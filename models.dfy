/**
 * The driver's database records (the `models` package) and the machine state the
 * hypervisor layer reports, as values.
 */
module Models {
  import opened Ints

  /** The machine state the hypervisor layer reports. */
  datatype MachineState = StateUnknown | StateCreated | StateRunning | StateCrashed | StateStopped

  datatype Specs = Specs(cpus: int64, memory: int64, disk: int64)

  datatype Image = Image(id: string, name: string, os: string, path: string)

  datatype SSHKey = SSHKey(id: string, name: string, pubkey: string)

  datatype NetworkSpec = NetworkSpec(subnet: string, gateway: string)

  /**
   * A network. `bridge` is the bridge name the hypervisor layer tests, and `netlinkBridge`
   * stands for what the network's `NetlinkBridge()` method returns.
   */
  datatype Network = Network(id: string, name: string, bridge: string, netlinkBridge: string,
                             ipv4: NetworkSpec, ipv6: NetworkSpec,
                             nameservers: string, searchDomains: string)

  datatype NetworkInterface = NetworkInterface(network: Network, ipv4: string, ipv6: string,
                                               hwAddr: string)

  datatype Machine = Machine(id: string, name: string, user: string, image: Image,
                             sshKeys: seq<SSHKey>, specs: Specs,
                             networkInterfaces: seq<NetworkInterface>)

  /** A recorded activity; `createdAt` is the creation time the database keeps. */
  datatype Activity = Activity(activityType: string, subject: string, createdAt: int)
}
