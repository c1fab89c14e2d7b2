# virtm core, modelled in Dafny

virtm manages KVM virtual machines. A gRPC driver keeps SSH keys, images, networks and
machines in a database and drives libvirt. A small HTTP back end projects the driver's list
responses into JSON for a web dashboard, whose client-side store keeps the last response of
every endpoint.

This project models the sequential logic of that system and proves what it promises:

- **ApiStore** (`store_api.dfy`), the dashboard's API store. It has five last-write-wins
  slots, one mutation per slot, and one action per slot. An action awaits a GET on a fixed
  path and then commits the response. The store is a class with one field per slot. The
  fetch is a function parameter from path to settled promise, so every contract names the
  path it reads.
- **LocalStore** (`store_local.dfy`), the dashboard's shared `error` slot. Its mutation
  prefers a truthy `error.response.data` and otherwise keeps the raw error. Reading a
  property of `null` or `undefined` throws, and that is modelled too.
- **Js** (`js.dfy`): the JavaScript values the stores handle, with truthiness and property
  access.
- **NetAlloc** (`netalloc.dfy`), the IPv4 allocator of `ConfigureNetworkInterface`:
  - the byte-wise `inc` with carry, as an array loop;
  - the blocked set;
  - the first-fit walk through the subnet;
  - the "subnet is full" error;
  - the assembled interface record, with its QEMU MAC prefix.
- **Driver** (`driver.go`'s handlers, in `driver.dfy`):
  - `machineStateToApiStatus`;
  - the guards, lookups and record assembly of `CreateMachine`;
  - the event dispatch of `TriggerMachine`;
  - the `ListSSHKeys`, `ListImages` and `ListActivities` converters.

  The database rows and the hypervisor outcomes are inputs.
- **Libvirt** (`libvirt.dfy`), the hypervisor layer:
  - the domain-state switch of `GetMachineState`;
  - the username pattern, as a proved automaton;
  - the cloud-config fields and the authorized-keys buffer;
  - the `enp{i+1}s0` interface names;
  - the interface sources and disks of the domain definition;
  - the bridge-or-NAT dispatch of `CreateNetwork`.
- **UiServer** (`ui_server.dfy`), the dashboard's HTTP back end:
  - the route table under `/api/`, proved to serve exactly "/api" followed by each path the store requests;
  - the version document;
  - the four projection handlers, including the SSH fingerprint rule and the 500 reply.
- **ApiData** (`proto_data.dfy`), the generated protobuf code:
  - the enum name and value tables, proved to be mutual inverses;
  - `String()`, proved injective on all of int32;
  - `Enum()` and `Number()`;
  - the nil-safe getters.
- **Models**, **Strings**, **Ints** and **Wrappers** hold the supporting definitions:
  - the database records and the machine state;
  - Go's `%d`, `strings.Fields` and `fmt.Fprintln` lines, with their round trips;
  - the fixed-width integers;
  - `Option`, `Result` and `Outcome`.

The repository's files disagree with each other in places. The model follows the code that uses
each entity:
- `driver/driver.go:311` returns a CRASHED status, which the enum in `api/data.pb.go` does
  not declare. `Driver.ApiStatus` is therefore abstract, and `Driver.WireNumber` maps the
  four declared statuses to their numbers.
- The driver uses `Machine.User`, `Machine.SSHKeys`, `Network.Bridge` and
  `Network.NetlinkBridge()`. The `models` package lacks them, so `Models` declares
  them as the driver uses them.
- `ListActivities` uses an Activity type table that `api/data.pb.go` does not declare. It is
  passed in as a parameter.
- The dashboard store has only the five slots of `ui/store/api.js`. It has no per-machine
  detail slot and no activity list.

## Model

| member | source | states |
|---|---|---|
| ApiStore.Store.constructor | ui/store/api.js:1-7 | the initial state is an empty version string and four empty lists |
| ApiStore.CommitSetsOnlyItsSlot | ui/store/api.js:9-25 | a mutation sets exactly its own slot to the payload and leaves every other slot unchanged |
| ApiStore.SlotsDetermineState | ui/store/api.js:1-7 | the five slots are the whole state: states agreeing on every slot are equal |
| ApiStore.CommitIdempotent | ui/store/api.js:13-15 | committing the same value twice gives the state of committing it once |
| ApiStore.CommitLastWins | ui/store/api.js:9-25 | after two commits to a slot, the state depends only on the later payload (no merging) |
| ApiStore.CommitsCommute | ui/store/api.js:9-25 | commits to different slots can be applied in either order |
| ApiStore.Store.MutateVersion | ui/store/api.js:10-12 | the new store is the old one with `version` replaced by the argument |
| ApiStore.Store.MutateMachines | ui/store/api.js:13-15 | the new store is the old one with `machines` replaced by the argument |
| ApiStore.Store.MutateSshKeys | ui/store/api.js:16-18 | the new store is the old one with `sshKeys` replaced by the argument |
| ApiStore.Store.MutateImages | ui/store/api.js:19-21 | the new store is the old one with `images` replaced by the argument |
| ApiStore.Store.MutateNetworks | ui/store/api.js:22-24 | the new store is the old one with `networks` replaced by the argument |
| ApiStore.Store.Connect | ui/store/api.js:28-31 | GET "/". A rejected fetch propagates its error and leaves the store unchanged. A null or undefined response throws TypeError before the commit. Otherwise only `version` changes, to the response's `version` property |
| ApiStore.Store.Machines | ui/store/api.js:32-35 | GET "/machines". A rejected fetch propagates and changes nothing. Otherwise only `machines` changes, to the whole response |
| ApiStore.Store.SshKeys | ui/store/api.js:36-39 | GET "/ssh-keys". A rejected fetch propagates and changes nothing. Otherwise only `sshKeys` changes, to the whole response |
| ApiStore.Store.Images | ui/store/api.js:40-43 | GET "/images". A rejected fetch propagates and changes nothing. Otherwise only `images` changes, to the whole response |
| ApiStore.Store.Networks | ui/store/api.js:44-47 | GET "/networks". A rejected fetch propagates and changes nothing. Otherwise only `networks` changes, to the whole response |
| ApiStore.RefreshScenario | ui/store/api.js:27-48 | a client that connects, then loads machines, then fails to load images ends with the served version and machines and the other slots still empty |
| LocalStore.Store.constructor | ui/store/local.js:1-3 | the initial `error` is the empty string |
| LocalStore.CapturedBody | ui/store/local.js:7 | a failure whose `response.data` is truthy is recorded as that data |
| LocalStore.CapturedRaw | ui/store/local.js:8 | the raw error is recorded when the response or its data are missing or falsy |
| LocalStore.CapturedThrows | ui/store/local.js:7 | the mutation throws exactly when the error is `null` or `undefined` |
| LocalStore.CapturedScenarios | ui/store/local.js:6-9 | a server error body is recorded as the body, and a plain transport string as itself |
| LocalStore.Store.MutateError | ui/store/local.js:5-10 | the slot becomes the captured value, whatever it held before, so after two calls it depends only on the second; a throw leaves it unchanged and reaches the caller |
| Js.Member | ui/store/local.js:7 | property access throws TypeError exactly on `null` and `undefined`; an object yields its own property or `undefined` |
| NetAlloc.Incremented | driver/driver.go:94-96 | `inc` returns a sequence of the same length as its input, which as a value is left as it was |
| NetAlloc.IncrementedValue | driver/driver.go:97-102 | read big-endian, `inc` is +1 when some byte is below 0xff; on all-0xff input the result is 0 and the input was the largest value, so the result is (x + 1) mod 256^len |
| NetAlloc.CarryStops | driver/driver.go:97-102 | where the carry stops at byte j, that byte goes up by one, the bytes after it become zero and the bytes before it are kept |
| NetAlloc.Inc | driver/driver.go:94-104 | the carry loop over a copied array computes exactly `Incremented` of the input |
| NetAlloc.ValueInjective | driver/driver.go:134-139 | distinct 4-byte addresses have distinct values, so the walk visits each address once |
| NetAlloc.To4 | driver/driver.go:134-140 | an address has an IPv4 reading iff it has 4 bytes, or 16 bytes starting with the v4-in-v6 prefix; a 4-byte address reads as itself, a 16-byte one as its last four bytes |
| NetAlloc.NetworkAddrIsLowest | driver/driver.go:141 | the subnet address `IPNet.String` prints lies in the subnet and below every address of it |
| NetAlloc.BlockedKeysMembers | driver/driver.go:123-131 | a key is blocked exactly when it is the base address, the gateway, or the address of an existing interface |
| NetAlloc.BlockedAddresses | driver/driver.go:123-131 | the loop fills exactly the blocked set |
| NetAlloc.FirstFitUnique | driver/driver.go:134-139 | there is at most one first free address, and none when the subnet is exhausted |
| NetAlloc.FindFreeAddress | driver/driver.go:134-142 | the walk returns the least unblocked address of the subnet at or above the base; it finds none exactly when every such address is blocked |
| NetAlloc.WalkStep | driver/driver.go:134-139 | stepping past a blocked address advances the walk and keeps every skipped address blocked |
| NetAlloc.WalkExhausted | driver/driver.go:140-142 | a walk that leaves the subnet has seen every address above the base blocked |
| NetAlloc.HardwareAddrString | driver/driver.go:110 | a MAC of n >= 1 bytes prints as 3n-1 characters |
| NetAlloc.HardwareAddrGroups | driver/driver.go:110 | byte i prints as its two lower-case hex digits at position 3i, followed by ':' unless it is the last byte |
| NetAlloc.ConfigureNetworkInterface | driver/driver.go:93-151 | errors arrive in source order: hwaddr, interfaces, subnet parse. On success the interface is the first-fit address with the prefix length and the MAC under 52:54:00. Otherwise the subnet is exhausted and the error names it |
| NetAlloc.AllocatedIsFree | driver/driver.go:123-150 | the allocated address is not the base, not the gateway and no existing interface's |
| Driver.WireNumber | api/data.pb.go:77-83 | every status but CRASHED has a declared wire number, the one whose name is the status's `api.Machine_` name; CRASHED's name is not in the value table |
| Driver.WireNumberInjective | api/data.pb.go:77-83 | statuses with wire numbers have distinct ones |
| Driver.MachineStateToApiStatus | driver/driver.go:304-317 | Created, Running, Crashed and Stopped map to their statuses and Unknown to STATUS_UNSPECIFIED, each in both directions |
| Driver.MachineStateToApiStatusInjective | driver/driver.go:304-317 | no two machine states are reported as the same status |
| Driver.CreateMachine | driver/driver.go:153-215 | Errors in source order, each with the database's or callee's message: no key IDs (InvalidArgument); the first key lookup that fails, then the image lookup (NotFound); no network IDs (InvalidArgument); the first network whose lookup fails (NotFound) or whose interface cannot be configured (Internal); the insert, then the hypervisor call (Internal). Success, with the new ID, iff every step succeeds. A record is written iff every guard passes and the insert succeeds; it carries the request's fields, the image, the keys in order and the i-th configured interface for the i-th network |
| Driver.EventActivity | driver/driver.go:224-247 | POWERON, POWEROFF and REBOOT record MACHINE_POWERON, MACHINE_POWEROFF and MACHINE_REBOOT; no other event is handled |
| Driver.EventActivityInjective | driver/driver.go:224-247 | different handled events record different activities |
| Driver.TriggerMachine | driver/driver.go:217-259 | Each error is stated: lookup, EVENT_UNKNOWN, unnamed event, failed hypervisor call, state read. Success iff all of them pass. The response carries the mapped state and the event's activity |
| Driver.ListSSHKeys | driver/driver.go:57-73 | a database error becomes Internal; otherwise every row is copied in order, field by field |
| Driver.ImageSystem | driver/driver.go:85 | an OS name maps to its enum number, an unknown one to 0 |
| Driver.ImageSystemRoundTrip | driver/driver.go:85 | printing the listed number gives the stored name back when the enum knows it, and OS_UNSPECIFIEED otherwise |
| Driver.ListImages | driver/driver.go:75-91 | a database error becomes Internal; otherwise every row is copied in order, with its OS name as the enum number |
| Driver.ListActivities | driver/driver.go:39-55 | a database error becomes Internal; otherwise every row is copied in order: its type via the table (0 when unknown), its creation time and its subject |
| Libvirt.DomainToMachineState | driver/libvirt/libvirt.go:509-519 | RUNNING maps to Running, BLOCKED and CRASHED to Crashed, PAUSED, PMSUSPENDED, SHUTDOWN and SHUTOFF to Stopped, and all else to Unknown, each in both directions |
| Libvirt.NeverCreated | driver/libvirt/libvirt.go:509-519 | the hypervisor never reports a machine as merely created |
| Libvirt.GetMachineState | driver/libvirt/libvirt.go:499-521 | a failed lookup or state read yields Unknown with its prefixed error; there is no error exactly when both succeed, and then the state is the mapped one |
| Libvirt.RunRejected | driver/libvirt/libvirt.go:108 | once the pattern has failed, no further character revives it |
| Libvirt.RunInName | driver/libvirt/libvirt.go:108 | after the first letter the pattern accepts exactly the strings of lower-case letters, digits and dashes |
| Libvirt.UsernamePatternCorrect | driver/libvirt/libvirt.go:108 | the pattern accepts exactly a lower-case letter followed by lower-case letters, digits and dashes |
| Libvirt.Pubkeys | driver/libvirt/libvirt.go:113-115 | the public keys of the machine's keys, in key order |
| Libvirt.WriteCloudConfig | driver/libvirt/libvirt.go:110-140 | the config is built iff the username is valid, and an invalid one gives "username must be valid". Host name and FQDN are the first 8 characters of the ID. The user has the sudo rule, bash and "/home/" + user. The authorized keys are every pubkey plus a newline, in order. The password list is "debian:debian", not expiring |
| Libvirt.AuthorizedKeysRoundTrip | driver/libvirt/libvirt.go:112-115 | the authorized-keys text, split at newlines, gives back the public keys in order |
| Libvirt.InterfaceName | driver/libvirt/libvirt.go:90 | the name starts with "enp" and ends with "s0" |
| Libvirt.InterfaceNameInjective | driver/libvirt/libvirt.go:90 | different interface positions get different names |
| Libvirt.NetworkConfigItems | driver/libvirt/libvirt.go:83-96 | one template item per interface in order: name `enp{i+1}s0`, the address CIDR, the split nameservers and the gateway |
| Libvirt.NameserversRoundTrip | driver/libvirt/libvirt.go:91 | nameservers stored space-separated split back into the same list |
| Libvirt.SourceOf | driver/libvirt/libvirt.go:161-170 | the source is the netlink bridge iff the network has a bridge name, otherwise the network by ID |
| Libvirt.BuildDomain | driver/libvirt/libvirt.go:157-293 | The domain is kvm, named and identified by the ID. vcpu and memory are the specs as unsigned, in MiB. There are a config CD-ROM and an OS disk. One interface per input, in order, with that interface's source, its MAC and virtio |
| Libvirt.CreateNetwork | driver/libvirt/libvirt.go:392-416 | a bridged network takes the bridge path only; any other sets up NAT and, when that passes, checks activity. It stops at the first failing step with that step's prefixed error (create NAT network, check network isActive, start network), and starts the network exactly when it is inactive |
| Ints.ToUint | driver/libvirt/libvirt.go:214-220 | Go's `uint(int64)` is the identity on non-negative values and adds 2^64 to negative ones |
| Strings.Decimal | driver/libvirt/libvirt.go:90 | `%d` of a natural number prints at least one digit and no leading zero |
| Strings.DecimalRoundTrip | driver/libvirt/libvirt.go:90 | reading the printed digits back gives the number |
| Strings.Fields | cmd/ui/main.go:134 | `strings.Fields` yields non-empty fields without white space |
| Strings.FieldsOfJoin | driver/libvirt/libvirt.go:91 | splitting single-space-joined fields gives the fields back |
| Strings.LinesSnoc | driver/libvirt/libvirt.go:113-115 | one more `Fprintln` appends that line and its newline to the text written so far |
| Strings.SplitLinesOfLines | driver/libvirt/libvirt.go:112-115 | lines written with `Fprintln`, none holding a newline, split back into the same lines |
| UiServer.Routes | cmd/ui/main.go:70-78 | every route is GET, and its templates are, in order, exactly the paths the store's actions request |
| UiServer.TrimSlashes | cmd/ui/main.go:39 | the trimmed subrouter prefix is a prefix of the original that does not end in '/' |
| UiServer.Match | cmd/ui/main.go:70-78 | a request is routed iff some route has its method and full path |
| UiServer.ApiPaths | cmd/ui/main.go:39 | under the "/api/" prefix a template t is served at "/api" + t |
| UiServer.MatchFirst | cmd/ui/main.go:70-78 | the first route with the method and path is the one whose handler answers |
| UiServer.RoutesServeStorePaths | cmd/ui/main.go:70-78 | GET is served on exactly "/api" + each store path, and nothing else is served |
| UiServer.StorePathsDistinct | cmd/ui/main.go:72-76 | the five paths are pairwise different |
| UiServer.RouteOfStorePath | cmd/ui/main.go:72-76 | each store path reaches the handler registered for it, that handler serves the slot the requesting action commits to, and different paths reach different handlers |
| UiServer.VersionDocument | cmd/ui/main.go:80-89 | the document has a single field, `version`, holding the server's version |
| UiServer.VersionReachesStore | cmd/ui/main.go:80-89 | the store's `connect` reads back exactly the version the server reports |
| UiServer.ListMachines | cmd/ui/main.go:91-114 | an upstream error is a 500 "internal server error" with no JSON; otherwise one record per machine in order, with its id, name and status name |
| UiServer.FingerprintOfKey | cmd/ui/main.go:134 | for a key written "type key comment..." with a key field of at least 16 characters, the fingerprint exists and is the first 16 characters of the key field |
| UiServer.ListSSHKeys | cmd/ui/main.go:116-139 | an upstream error is a 500 with no JSON; otherwise one record per key in order, with its id, name and the first 16 characters of its second field |
| UiServer.ListImages | cmd/ui/main.go:141-164 | an upstream error is a 500 with no JSON; otherwise one record per image in order, with its id, name and OS name |
| UiServer.ListNetworks | cmd/ui/main.go:166-191 | an upstream error is a 500 with no JSON; otherwise one record per network in order, keeping only id, name and the IPv4 and IPv6 subnets |
| ApiData.ImageOSTablesInverse | api/data.pb.go:34-45 | the Image_OS name and value tables undo each other in both directions, over 0..3 |
| ApiData.MachineStatusTablesInverse | api/data.pb.go:87-100 | the Machine_Status name and value tables undo each other in both directions, over 0..4 |
| ApiData.ImageOSNamesHaveLetters | api/data.pb.go:34-39 | every declared OS name holds a letter, so no number prints as one |
| ApiData.MachineStatusNamesHaveLetters | api/data.pb.go:87-93 | every declared status name holds a letter |
| ApiData.ItoaInjective | api/data.pb.go:54-56 | distinct undeclared numbers print differently |
| ApiData.EnumStringInjective | api/data.pb.go:54-56 | with an injective table of names holding letters, `String()` is injective on all of int32 |
| ApiData.ImageOSStringInjective | api/data.pb.go:54-56 | distinct Image_OS values print differently |
| ApiData.MachineStatusStringInjective | api/data.pb.go:109-111 | distinct Machine_Status values print differently |
| ApiData.EnumStringOfKnown | api/data.pb.go:54-56 | a declared value prints as its table name, and parsing that name gives the value back |
| ApiData.Number | api/data.pb.go:66-68 | the enum number is the value itself, within int32 |
| ApiData.Enum | api/data.pb.go:48-52 | `Enum()` returns a freshly allocated cell holding the receiver's value |
| ApiData.SSHKeyGetters | api/data.pb.go:172-191 | on nil every SSHKey getter returns ""; on a message it returns the field |
| ApiData.ImageGetters | api/data.pb.go:235-254 | on nil the Image getters return "" and OS_UNSPECIFIEED; on a message they return the field |
| ApiData.MachineGetters | api/data.pb.go:302-349 | on nil the Machine getters return "", STATUS_UNSPECIFIED, nil specs and empty lists; on a message they return the field |
| ApiData.NetworkInterfaceGetters | api/data.pb.go:393-412 | on nil the NetworkInterface getters return ""; on a message they return the field |
| ApiData.NetworkGetters | api/data.pb.go:459-499 | on nil the Network getters return "", nil subnets and empty lists; on a message they return the field |
| ApiData.MachineSpecsGetters | api/data.pb.go:543-562 | on nil the Machine_Specs getters return 0; on a message they return the field |
| ApiData.IpNetworkGetters | api/data.pb.go:605-617 | on nil the IpNetwork getters return ""; on a message they return the field |

## Left out

### Inputs instead of program code

- Database access (gorm queries, inserts, preloads) is not modelled. Its results and errors are inputs: each lookup in `Driver.Db` yields the row or any error the database reports, and the inserts are `Outcome` parameters.
- libvirt calls and netlink are not modelled; their outcomes are parameters:
  - domain lookup, state read, start, stop, reboot and define;
  - the NAT network's creation and activity check;
  - the VXLAN bridge.
- The external tools (`qemu-img`, `virt-customize`, `cloud-localds`) and the temporary files are not modelled. They are I/O.
- Randomness is an input: `crypto/rand` MAC bytes are the `random` parameter, and `uuid.New` is the `newId` parameter.
- Driver.CreateMachine: takes `ConfigureNetworkInterface` as a function of the call's index and the network, so each call has its own random MAC, as in the source. Every call sees the interfaces that existed before the request.
- `net.ParseCIDR` and `IPNet.Mask.Size` are not modelled. The parsed subnet is an input: the address as written and the prefix length.
- Each existing interface's address is an input, already parsed.
- The mask test `IPNet.Contains` works byte-wise; it is modelled as equality of the value divided by 2^(32-prefix), which is the same test for IPv4.
- `ListActivities` does not model the Activity_Type table, because `api/data.pb.go` does not declare it. The table is a parameter.
- `ListActivities` does not model `timestamppb`. The creation time is an opaque integer.

### Rendering

- yaml, XML and `text/template` rendering and JSON encoding are not modelled. These are serialization by unseen libraries. The model stops at the values handed to them: `CloudConfig`, `Domain`, `NetCfgItem`, `JsValue`.
- Libvirt.BuildDomain: states only the parts of the domain that depend on its inputs. The constant OS, features (ACPI, APIC), CPU (host-model), clock, console, graphics, RNG and video sections are not modelled.
- Libvirt.WriteCloudConfig: omits the yaml marshalling, the temp-file writing and their errors. The cloud-config fields the code leaves unset are not represented.

### Concurrency and logging

- The `go recordActivity(...)` goroutines are not modelled; they are concurrency. `Driver.TriggerMachine` returns the activity type that would be recorded.
- The activity that `CreateMachine` records is not modelled.
- `log.Println` output is not modelled.
- The dashboard store's concurrent in-flight fetches are not interleaved. Each action is one atomic step, as the store's commit of a settled promise.

### Panicking inputs (kept out by preconditions)

- Driver.CreateMachine: does not model a nil `request.Specs`, which panics in the source. The specs are a present value.
- UiServer.ListSSHKeys: requires every key to have a fingerprint. A pubkey with fewer than two fields, or a second field shorter than 16 characters, panics in the source.
- UiServer.ListNetworks: requires both subnets to be present, because a nil `IpV4` or `IpV6` panics in the source.
- Libvirt.WriteCloudConfig: requires an ID of at least 8 characters when the username is valid, because `ID[:8]` panics otherwise.

### Simplifications

- Libvirt.WriteCloudConfig: slices the ID by characters, while Go slices bytes. The two agree for the ASCII UUIDs the driver generates.
- UiServer.FingerprintOfKey: counts 16 characters where Go slices 16 bytes; see the next line.
- UiServer.ListSSHKeys: takes the fingerprint as the first 16 characters of the key's second field, and requires 16 characters, while Go slices 16 bytes. The two agree on the ASCII (base64) key bodies OpenSSH writes.
- IPv6 addresses are not allocated; the driver leaves `IPv6` empty.
- The gorilla router's 404 and 405 replies for unmatched requests are not modelled. `UiServer.Match` returns `None` for them.
- The static file server under "/" is not modelled.
- The dashboard's axios base URL is not part of this model. The store requests relative paths such as "/machines", and `UiServer.RoutesServeStorePaths` takes the base URL to be "/api".
- The other handlers of `driver/driver.go` are not part of this model: `GetMachineDetails`, `ListMachines`, `DeleteMachine`, `ListNetworks` and `CreateNetwork`.
- `New`, `Recover` and `initModels` of the driver are not part of this model.
- The generated protobuf reflection machinery (`ProtoReflect`, `Descriptor`, raw descriptors, `init`) is not part of this model.
- The gRPC service stubs, the CLI client and the server bootstrap are not part of this model.
