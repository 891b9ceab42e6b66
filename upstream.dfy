/** The upstream resolver: which port and which upstream host a container is
    proxied to (`update_configs` podproxy.py:92-114, `get_upstream` 132-146,
    `is_proxy_network_connected` 148-152).

    A container with a published host port is reached on the host address
    given on the command line.  Otherwise its first declared port is reached
    through one of its DNS aliases on the proxy's own network. */
module Upstream {
  import opened Common
  import opened Text

  const ProxyName := "podproxy-nginx"
  const ProxyNetwork := "podproxy"

  /** One entry of `NetworkSettings.Ports`, in dict order: the container port
      key (`"80/tcp"`) and the `HostPort` of each of its host bindings, or
      `None` when the port is declared but not published. */
  datatype PortEntry = PortEntry(key: string, hostPorts: Option<seq<string>>)

  /** The parts of one `podman inspect` record that the core reads: `Id`,
      `Name`, `Config.Hostname`, `State.Status`, `NetworkSettings.Ports`, and
      the `Aliases` of each network in `NetworkSettings.Networks`. */
  datatype ContainerInfo = ContainerInfo(id: string, name: string, hostname: string, status: string,
                                         ports: seq<PortEntry>, networks: map<string, seq<string>>)

  /** Where a container is reached, or why it is not routable. */
  datatype Resolution = Routed(port: string, upstream: string) | NoPorts | NotOnProxyNetwork

  /** The host ports of every published binding, in order (podproxy.py:96). */
  function HostPorts(ports: seq<PortEntry>): (r: seq<string>)
    ensures forall p :: p in r <==> exists i :: 0 <= i < |ports| && Published(ports[i], p)
  {
    if ports == [] then []
    else
      var here := if ports[0].hostPorts.Some? then ports[0].hostPorts.value else [];
      var rest := HostPorts(ports[1..]);
      assert forall i :: 1 <= i < |ports| ==> ports[1..][i - 1] == ports[i];
      here + rest
  }

  /** `p` is a host port bound for this entry. */
  ghost predicate Published(entry: PortEntry, p: string)
  {
    entry.hostPorts.Some? && p in entry.hostPorts.value
  }

  /** The port number of a key such as `"80/tcp"`: `key.split('/')[0]`. */
  function PortNumber(key: string): (number: string)
    ensures |number| <= |key| && key[..|number|] == number && '/' !in number
    ensures |number| == |key| || key[|number|] == '/'
  {
    SplitHeadChar(key, '/');
    Split(key, "/")[0]
  }

  /** The declared ports, in dict order (podproxy.py:102). */
  function DeclaredPorts(ports: seq<PortEntry>): (r: seq<string>)
    ensures |r| == |ports|
  {
    seq(|ports|, i requires 0 <= i < |ports| => PortNumber(ports[i].key))
  }

  /** `is_proxy_network_connected`. */
  predicate IsProxyNetworkConnected(info: ContainerInfo)
  {
    ProxyNetwork in info.networks
  }

  /** The index of the first alias that is a substring of `id`, or -1. */
  function FirstAliasIn(aliases: seq<string>, id: string): (k: int)
    ensures -1 <= k < |aliases|
    ensures k >= 0 ==> Contains(id, aliases[k])
    ensures forall j :: 0 <= j < |aliases| && (k < 0 || j < k) ==> !Contains(id, aliases[j])
  {
    if aliases == [] then -1
    else if Contains(id, aliases[0]) then 0
    else
      var k := FirstAliasIn(aliases[1..], id);
      assert forall j :: 1 <= j < |aliases| ==> aliases[1..][j - 1] == aliases[j];
      if k < 0 then -1 else k + 1
  }

  /** `get_upstream`: the alias equal to the hostname, else the first alias
      that is a substring of the container id, else the first alias; an
      empty alias list raises.  The caller has checked that the container is
      on the proxy network. */
  function GetUpstream(info: ContainerInfo): (r: Result<string>)
    requires IsProxyNetworkConnected(info)
    ensures var aliases := info.networks[ProxyNetwork];
            && (r.Err? <==> aliases == [])
            && (r.Err? ==> r.failure == NoAliases)
            && (r.Ok? ==> r.value in aliases)
            && (info.hostname in aliases ==> r == Ok(info.hostname))
            && (info.hostname !in aliases && r.Ok? ==>
                  var k := FirstAliasIn(aliases, info.id);
                  if k >= 0 then r.value == aliases[k] && Contains(info.id, r.value)
                  else r.value == aliases[0] && forall a :: a in aliases ==> !Contains(info.id, a))
  {
    var aliases := info.networks[ProxyNetwork];
    if info.hostname in aliases then Ok(info.hostname)
    else
      var k := FirstAliasIn(aliases, info.id);
      if k >= 0 then Ok(aliases[k])
      else if |aliases| > 0 then Ok(aliases[0])
      else Err(NoAliases)
  }

  /** The port and upstream `update_configs` settles on (podproxy.py:95-114). */
  function Resolve(info: ContainerInfo, hostIp: string): Result<Resolution>
  {
    var published := HostPorts(info.ports);
    if |published| > 0 then Ok(Routed(published[0], hostIp))
    else
      var declared := DeclaredPorts(info.ports);
      if |declared| == 0 then Ok(NoPorts)
      else if !IsProxyNetworkConnected(info) then Ok(NotOnProxyNetwork)
      else
        match GetUpstream(info)
        case Ok(upstream) => Ok(Routed(declared[0], upstream))
        case Err(e) => Err(e)
  }

  // ---------------------------------------------------------------------
  // What the resolver promises

  /** The first host port is the first binding of the first entry that has one. */
  lemma {:induction false} FirstHostPort(ports: seq<PortEntry>, k: nat)
    requires k < |ports| && ports[k].hostPorts.Some? && ports[k].hostPorts.value != []
    requires forall j :: 0 <= j < k ==> ports[j].hostPorts.None? || ports[j].hostPorts.value == []
    ensures HostPorts(ports) != [] && HostPorts(ports)[0] == ports[k].hostPorts.value[0]
  {
    if k > 0 {
      FirstHostPort(ports[1..], k - 1);
    }
  }

  /** There is no host port exactly when no entry has a binding. */
  lemma NoHostPorts(ports: seq<PortEntry>)
    ensures HostPorts(ports) == [] <==>
            forall i :: 0 <= i < |ports| ==> ports[i].hostPorts.None? || ports[i].hostPorts.value == []
  {
    if HostPorts(ports) != [] {
      assert HostPorts(ports)[0] in HostPorts(ports);
    }
    if exists i :: 0 <= i < |ports| && ports[i].hostPorts.Some? && ports[i].hostPorts.value != [] {
      var i :| 0 <= i < |ports| && ports[i].hostPorts.Some? && ports[i].hostPorts.value != [];
      assert Published(ports[i], ports[i].hostPorts.value[0]);
    }
  }

  /** A published port wins: the container is reached on the host address
      at the first host port of the first entry that has one. */
  lemma ResolvePublished(info: ContainerInfo, hostIp: string, k: nat)
    requires k < |info.ports| && info.ports[k].hostPorts.Some? && info.ports[k].hostPorts.value != []
    requires forall j :: 0 <= j < k ==> info.ports[j].hostPorts.None? || info.ports[j].hostPorts.value == []
    ensures Resolve(info, hostIp) == Ok(Routed(info.ports[k].hostPorts.value[0], hostIp))
  {
    FirstHostPort(info.ports, k);
  }

  /** Without a published port: no ports at all, or ports but no proxy
      network, leave the container unroutable; on the proxy network it is
      reached on its first declared port at an alias, and an empty alias
      list raises. */
  lemma ResolveUnpublished(info: ContainerInfo, hostIp: string)
    requires forall i :: 0 <= i < |info.ports| ==> info.ports[i].hostPorts.None? || info.ports[i].hostPorts.value == []
    ensures var r := Resolve(info, hostIp);
            && (info.ports == [] ==> r == Ok(NoPorts))
            && (info.ports != [] && ProxyNetwork !in info.networks ==> r == Ok(NotOnProxyNetwork))
            && (info.ports != [] && ProxyNetwork in info.networks && info.networks[ProxyNetwork] == [] ==>
                  r == Err(NoAliases))
            && (info.ports != [] && ProxyNetwork in info.networks && info.networks[ProxyNetwork] != [] ==>
                  r.Ok? && r.value.Routed?
                  && r.value.port == PortNumber(info.ports[0].key)
                  && r.value.upstream in info.networks[ProxyNetwork]
                  && (info.hostname in info.networks[ProxyNetwork] ==> r.value.upstream == info.hostname))
  {
    NoHostPorts(info.ports);
  }

  /** A declared port key `number/protocol` gives `number`. */
  lemma PortNumberOf(number: string, protocol: string)
    requires '/' !in number && '/' !in protocol
    ensures PortNumber(number + "/" + protocol) == number
  {
    assert Join([number, protocol], "/") == number + "/" + protocol;
    SplitJoin([number, protocol], "/");
  }

  /** A container publishing container port 80 on host port 8080 is reached at the host address on 8080. */
  lemma PublishedScenario(hostIp: string)
    ensures Resolve(ContainerInfo("c1", "web1", "web1", "running", [PortEntry("80/tcp", Some(["8080"]))], map[]), hostIp)
            == Ok(Routed("8080", hostIp))
  {
    ResolvePublished(ContainerInfo("c1", "web1", "web1", "running", [PortEntry("80/tcp", Some(["8080"]))], map[]), hostIp, 0);
  }

  /** A container declaring port 3000 only, on the proxy network with
      aliases `web2` and `x1y2` and hostname `web2`, is reached at `web2` on 3000. */
  lemma AliasScenario(hostIp: string)
    ensures Resolve(ContainerInfo("x1y2z3", "web2", "web2", "running", [PortEntry("3000" + "/" + "tcp", None)],
                                  map[ProxyNetwork := ["web2", "x1y2"]]), hostIp)
            == Ok(Routed("3000", "web2"))
  {
    var info := ContainerInfo("x1y2z3", "web2", "web2", "running", [PortEntry("3000" + "/" + "tcp", None)],
                              map[ProxyNetwork := ["web2", "x1y2"]]);
    PortNumberOf("3000", "tcp");
    ResolveUnpublished(info, hostIp);
  }
}
