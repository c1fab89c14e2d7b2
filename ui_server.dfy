/**
 * The dashboard's HTTP back end (cmd/ui/main.go): the route table under "/api/", the
 * version document and the four handlers that project the driver's list responses into
 * JSON. JSON documents are `JsValue`s, the values the dashboard's store receives; the
 * upstream call's result is an input.
 */
module UiServer {
  import opened Wrappers
  import opened Strings
  import opened Js
  import ApiData
  import ApiStore

  /** The handlers `Init` registers. */
  datatype Handler = VersionHandler | MachinesHandler | SshKeysHandler | ImagesHandler | NetworksHandler

  /** The store slot whose contents a handler's reply carries. */
  function Serves(h: Handler): ApiStore.Mutation {
    match h
    case VersionHandler => ApiStore.SetVersion
    case MachinesHandler => ApiStore.SetMachines
    case SshKeysHandler => ApiStore.SetSshKeys
    case ImagesHandler => ApiStore.SetImages
    case NetworksHandler => ApiStore.SetNetworks
  }

  datatype Route = Route(httpMethod: string, template: string, handler: Handler)

  /** The prefix the API subrouter is mounted at. */
  const ApiPrefix := "/api/"

  /** The route table of `Init`: every handler on GET, in registration order. */
  function Routes(): (rs: seq<Route>)
    ensures |rs| == |ApiStore.ActionPaths|
    ensures forall i :: 0 <= i < |rs| ==> rs[i].httpMethod == "GET" && rs[i].template == ApiStore.ActionPaths[i]
  {
    [Route("GET", "/", VersionHandler),
     Route("GET", "/machines", MachinesHandler),
     Route("GET", "/ssh-keys", SshKeysHandler),
     Route("GET", "/images", ImagesHandler),
     Route("GET", "/networks", NetworksHandler)]
  }

  /** `strings.TrimRight(s, "/")`. */
  function TrimSlashes(s: string): (t: string)
    ensures |t| <= |s| && t == s[..|t|]
    ensures t == [] || t[|t| - 1] != '/'
  {
    if s != [] && s[|s| - 1] == '/' then TrimSlashes(s[..|s| - 1]) else s
  }

  /** The path a subrouter route answers: the prefix without trailing slashes, then the template. */
  function FullPath(prefix: string, template: string): string {
    TrimSlashes(prefix) + template
  }

  /** The handler of the first route with this method and full path. */
  function Match(rs: seq<Route>, httpMethod: string, path: string): (h: Option<Handler>)
    ensures h.Some? <==> exists i :: 0 <= i < |rs| && rs[i].httpMethod == httpMethod &&
                                      FullPath(ApiPrefix, rs[i].template) == path
  {
    if rs == [] then None
    else if rs[0].httpMethod == httpMethod && FullPath(ApiPrefix, rs[0].template) == path then
      Some(rs[0].handler)
    else
      var rest := Match(rs[1..], httpMethod, path);
      assert rest.Some? ==> exists i :: 0 <= i < |rs| && rs[i].httpMethod == httpMethod &&
                                         FullPath(ApiPrefix, rs[i].template) == path by {
        if rest.Some? {
          var i :| 0 <= i < |rs[1..]| && rs[1..][i].httpMethod == httpMethod &&
                   FullPath(ApiPrefix, rs[1..][i].template) == path;
          assert rs[i + 1] == rs[1..][i];
        }
      }
      assert (exists i :: 0 <= i < |rs| && rs[i].httpMethod == httpMethod &&
                          FullPath(ApiPrefix, rs[i].template) == path) ==> rest.Some? by {
        if exists i :: 0 <= i < |rs| && rs[i].httpMethod == httpMethod &&
                       FullPath(ApiPrefix, rs[i].template) == path {
          var i :| 0 <= i < |rs| && rs[i].httpMethod == httpMethod &&
                   FullPath(ApiPrefix, rs[i].template) == path;
          assert i > 0;
          assert rs[1..][i - 1] == rs[i];
        }
      }
      rest
  }

  /** Under the "/api/" prefix a template `t` is served at "/api" + `t`. */
  lemma ApiPaths(template: string)
    ensures FullPath(ApiPrefix, template) == "/api" + template
  {
    assert ApiPrefix[..4] == "/api";
    assert TrimSlashes(ApiPrefix) == TrimSlashes(ApiPrefix[..4]);
  }

  /** The first route with the method and full path is the one whose handler is picked. */
  lemma {:induction false} MatchFirst(rs: seq<Route>, i: nat, httpMethod: string, path: string)
    requires i < |rs| && rs[i].httpMethod == httpMethod && FullPath(ApiPrefix, rs[i].template) == path
    requires forall j :: 0 <= j < i ==> FullPath(ApiPrefix, rs[j].template) != path
    ensures Match(rs, httpMethod, path) == Some(rs[i].handler)
  {
    if i > 0 {
      assert FullPath(ApiPrefix, rs[0].template) != path;
      MatchFirst(rs[1..], i - 1, httpMethod, path);
    }
  }

  /**
   * The server answers GET on exactly "/api" followed by a path the dashboard's store requests,
   * and on nothing else under "/api". The store's paths are relative to its axios base URL,
   * which is taken to be "/api".
   */
  lemma RoutesServeStorePaths(httpMethod: string, path: string)
    ensures Match(Routes(), httpMethod, path).Some? <==>
      httpMethod == "GET" && exists i :: 0 <= i < |ApiStore.ActionPaths| && path == "/api" + ApiStore.ActionPaths[i]
  {
    forall t {
      ApiPaths(t);
    }
  }

  /** The store's paths are pairwise different. */
  lemma StorePathsDistinct(j: nat, k: nat)
    requires j < k < |ApiStore.ActionPaths|
    ensures ApiStore.ActionPaths[j] != ApiStore.ActionPaths[k]
  {
    var ps := ApiStore.ActionPaths;
    assert |ps[0]| == 1 && |ps[1]| == 9 && |ps[2]| == 9 && |ps[3]| == 7 && |ps[4]| == 9;
    assert ps[1][1] == 'm' && ps[2][1] == 's' && ps[4][1] == 'n';
  }

  /**
   * Each path the store requests reaches, under "/api", the handler registered for it; that
   * handler serves the slot the requesting action commits to, and different paths reach
   * different handlers.
   */
  lemma {:induction false} RouteOfStorePath(k: nat)
    requires k < |ApiStore.ActionPaths|
    ensures Match(Routes(), "GET", "/api" + ApiStore.ActionPaths[k]) == Some(Routes()[k].handler)
    ensures k < |ApiStore.ActionSlots| && Serves(Routes()[k].handler) == ApiStore.ActionSlots[k]
    ensures forall j :: 0 <= j < k ==> Routes()[j].handler != Routes()[k].handler
  {
    var rs := Routes();
    var path := "/api" + ApiStore.ActionPaths[k];
    ApiPaths(rs[k].template);
    forall j | 0 <= j < k
      ensures FullPath(ApiPrefix, rs[j].template) != path
    {
      ApiPaths(rs[j].template);
      StorePathsDistinct(j, k);
      assert path[4..] == ApiStore.ActionPaths[k];
      assert ("/api" + rs[j].template)[4..] == rs[j].template;
    }
    MatchFirst(rs, k, "GET", path);
  }

  /** A handler's reply: a JSON document, or a plain-text error with its status code. */
  datatype Response = Json(body: JsValue) | HttpError(code: int, text: string)

  /** What `http.Error` sends when the upstream call failed. */
  const InternalError := HttpError(500, "internal server error")

  /** The document of the `version` handler. */
  function VersionDocument(version: string): (d: JsValue)
    ensures d.Obj? && d.props.Keys == {"version"} && d.props["version"] == Str(version)
  {
    Obj(map["version" := Str(version)])
  }

  /** The store's `connect` action reads back exactly the version the server reports. */
  lemma VersionReachesStore(version: string)
    ensures Member(VersionDocument(version), "version") == Success(Str(version))
  {
  }

  /** `listMachines`: the id, name and status name of every machine, in order. */
  method ListMachines(resp: Result<seq<ApiData.Machine>, string>) returns (r: Response)
    ensures resp.Failure? ==> r == InternalError
    ensures resp.Success? ==> r.Json? && r.body.Arr? && |r.body.elems| == |resp.value|
    ensures resp.Success? ==> forall i :: 0 <= i < |resp.value| ==>
      r.body.elems[i] == Obj(map["id" := Str(resp.value[i].id), "name" := Str(resp.value[i].name),
                                 "status" := Str(ApiData.EnumString(ApiData.MachineStatusName,
                                                                    resp.value[i].status))])
  {
    if resp.Failure? {
      return InternalError;
    }
    var ms := resp.value;
    var machines := new JsValue[|ms|](_ => Undefined);
    for i := 0 to |ms|
      invariant forall j :: 0 <= j < i ==>
        machines[j] == Obj(map["id" := Str(ms[j].id), "name" := Str(ms[j].name),
                               "status" := Str(ApiData.EnumString(ApiData.MachineStatusName, ms[j].status))])
    {
      machines[i] := Obj(map["id" := Str(ms[i].id), "name" := Str(ms[i].name),
                             "status" := Str(ApiData.EnumString(ApiData.MachineStatusName, ms[i].status))]);
    }
    return Json(Arr(machines[..]));
  }

  /** A public key has a fingerprint when its key field is at least 16 characters long. */
  predicate HasFingerprint(pubkey: string) {
    |Fields(pubkey)| >= 2 && |Fields(pubkey)[1]| >= 16
  }

  /** The first 16 characters of the second whitespace-separated field of a public key. */
  function Fingerprint(pubkey: string): string
    requires HasFingerprint(pubkey)
  {
    Fields(pubkey)[1][..16]
  }

  /**
   * For a key written as "type key comment..." with single spaces, the fingerprint is the
   * start of the key field.
   */
  lemma {:induction false} FingerprintOfKey(keyType: string, key: string, comment: seq<string>)
    requires IsField(keyType) && IsField(key) && |key| >= 16
    requires forall i :: 0 <= i < |comment| ==> IsField(comment[i])
    ensures HasFingerprint(JoinSpaced([keyType, key] + comment))
    ensures Fingerprint(JoinSpaced([keyType, key] + comment)) == key[..16]
  {
    var fs := [keyType, key] + comment;
    forall i | 0 <= i < |fs|
      ensures IsField(fs[i])
    {
      if i >= 2 {
        assert fs[i] == comment[i - 2];
      }
    }
    FieldsOfJoin(fs);
    assert fs[1] == key;
  }

  /** `listSSHKeys`: the id, name and fingerprint of every key, in order. */
  method ListSSHKeys(resp: Result<seq<ApiData.SSHKey>, string>) returns (r: Response)
    requires resp.Success? ==> forall i :: 0 <= i < |resp.value| ==> HasFingerprint(resp.value[i].pubkey)
    ensures resp.Failure? ==> r == InternalError
    ensures resp.Success? ==> r.Json? && r.body.Arr? && |r.body.elems| == |resp.value|
    ensures resp.Success? ==> forall i :: 0 <= i < |resp.value| ==>
      r.body.elems[i] == Obj(map["id" := Str(resp.value[i].id), "name" := Str(resp.value[i].name),
                                 "fingerprint" := Str(Fingerprint(resp.value[i].pubkey))])
  {
    if resp.Failure? {
      return InternalError;
    }
    var ks := resp.value;
    var sshKeys := new JsValue[|ks|](_ => Undefined);
    for i := 0 to |ks|
      invariant forall j :: 0 <= j < i ==>
        sshKeys[j] == Obj(map["id" := Str(ks[j].id), "name" := Str(ks[j].name),
                              "fingerprint" := Str(Fingerprint(ks[j].pubkey))])
    {
      sshKeys[i] := Obj(map["id" := Str(ks[i].id), "name" := Str(ks[i].name),
                            "fingerprint" := Str(Fields(ks[i].pubkey)[1][..16])]);
    }
    return Json(Arr(sshKeys[..]));
  }

  /** `listImages`: the id, name and OS name of every image, in order. */
  method ListImages(resp: Result<seq<ApiData.Image>, string>) returns (r: Response)
    ensures resp.Failure? ==> r == InternalError
    ensures resp.Success? ==> r.Json? && r.body.Arr? && |r.body.elems| == |resp.value|
    ensures resp.Success? ==> forall i :: 0 <= i < |resp.value| ==>
      r.body.elems[i] == Obj(map["id" := Str(resp.value[i].id), "name" := Str(resp.value[i].name),
                                 "system" := Str(ApiData.EnumString(ApiData.ImageOSName,
                                                                    resp.value[i].system))])
  {
    if resp.Failure? {
      return InternalError;
    }
    var imgs := resp.value;
    var images := new JsValue[|imgs|](_ => Undefined);
    for i := 0 to |imgs|
      invariant forall j :: 0 <= j < i ==>
        images[j] == Obj(map["id" := Str(imgs[j].id), "name" := Str(imgs[j].name),
                             "system" := Str(ApiData.EnumString(ApiData.ImageOSName, imgs[j].system))])
    {
      images[i] := Obj(map["id" := Str(imgs[i].id), "name" := Str(imgs[i].name),
                           "system" := Str(ApiData.EnumString(ApiData.ImageOSName, imgs[i].system))]);
    }
    return Json(Arr(images[..]));
  }

  /** `listNetworks`: the id, name and the two subnets of every network, in order. */
  method ListNetworks(resp: Result<seq<ApiData.Network>, string>) returns (r: Response)
    requires resp.Success? ==> forall i :: 0 <= i < |resp.value| ==>
      resp.value[i].ipV4.Some? && resp.value[i].ipV6.Some?
    ensures resp.Failure? ==> r == InternalError
    ensures resp.Success? ==> r.Json? && r.body.Arr? && |r.body.elems| == |resp.value|
    ensures resp.Success? ==> forall i :: 0 <= i < |resp.value| ==>
      r.body.elems[i] == Obj(map["id" := Str(resp.value[i].id), "name" := Str(resp.value[i].name),
                                 "ipv4" := Str(resp.value[i].ipV4.value.subnet),
                                 "ipv6" := Str(resp.value[i].ipV6.value.subnet)])
  {
    if resp.Failure? {
      return InternalError;
    }
    var ns := resp.value;
    var networks := new JsValue[|ns|](_ => Undefined);
    for i := 0 to |ns|
      invariant forall j :: 0 <= j < i ==>
        networks[j] == Obj(map["id" := Str(ns[j].id), "name" := Str(ns[j].name),
                               "ipv4" := Str(ns[j].ipV4.value.subnet),
                               "ipv6" := Str(ns[j].ipV6.value.subnet)])
    {
      networks[i] := Obj(map["id" := Str(ns[i].id), "name" := Str(ns[i].name),
                             "ipv4" := Str(ns[i].ipV4.value.subnet),
                             "ipv6" := Str(ns[i].ipV6.value.subnet)]);
    }
    return Json(Arr(networks[..]));
  }
}
