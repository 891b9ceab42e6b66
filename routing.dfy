/** The routing table: three module-level dicts kept in step
    (podproxy.py:33-35) and the two procedures that change them,
    `update_configs` (podproxy.py:88-130) and `remove_config`
    (podproxy.py:154-177).

    `Table` is the value of the three dicts, and `Update` and `Remove` say
    what each procedure leaves behind or which exception it raises.  The
    class `RoutingTable` holds the dicts as fields and changes them in place
    as the Python does; its methods are proved against `Update` and `Remove`. */
module Routing {
  import opened Common
  import opened Upstream

  /** The `ContainerConfig` namedtuple (podproxy.py:26-28). */
  datatype ContainerConfig = ContainerConfig(port: string, upstream: string, hostname: string, name: string, status: string)

  /** `configs`: hostname to config; `nameToHostname`: container name to the
      hostname it last claimed; `hostnameContainers`: hostname to the names
      claiming it. */
  datatype Table = Table(configs: map<string, ContainerConfig>,
                         nameToHostname: map<string, string>,
                         hostnameContainers: map<string, set<string>>)

  const EmptyTable := Table(map[], map[], map[])

  /** What the two procedures keep true of the three dicts: a hostname has a
      config exactly when some container claims it, a config sits under its
      own hostname, every remembered hostname has a claiming set, and every
      claimant is remembered. */
  ghost predicate Consistent(t: Table)
  {
    && (forall h :: h in t.configs <==> h in t.hostnameContainers && t.hostnameContainers[h] != {})
    && (forall h :: h in t.configs ==> t.configs[h].hostname == h)
    && (forall n :: n in t.nameToHostname ==> t.nameToHostname[n] in t.hostnameContainers)
    && (forall h, n :: h in t.hostnameContainers && n in t.hostnameContainers[h] ==> n in t.nameToHostname)
  }

  /** The names claiming `h`, empty when `h` has no set. */
  function Claimants(t: Table, h: string): set<string>
  {
    if h in t.hostnameContainers then t.hostnameContainers[h] else {}
  }

  /** The config `update_configs` builds for a routed container (podproxy.py:116-121). */
  function ConfigOf(info: ContainerInfo, port: string, upstream: string): ContainerConfig
  {
    ContainerConfig(port, upstream, info.hostname, info.name, info.status)
  }

  /** Recording a config: overwrite the hostname's config, point the name at
      the hostname, add the name to the hostname's set (podproxy.py:124-130). */
  function Claim(t: Table, c: ContainerConfig): Table
  {
    Table(t.configs[c.hostname := c],
          t.nameToHostname[c.name := c.hostname],
          t.hostnameContainers[c.hostname := Claimants(t, c.hostname) + {c.name}])
  }

  /** The table `update_configs` leaves, or the exception it raises. */
  function Update(t: Table, info: ContainerInfo, hostIp: string): Result<Table>
  {
    if info.name == ProxyName then Ok(t)
    else
      match Resolve(info, hostIp)
      case Err(e) => Err(e)
      case Ok(Routed(port, upstream)) => Ok(Claim(t, ConfigOf(info, port, upstream)))
      case Ok(_) => Ok(t)
  }

  /** The table `remove_config` leaves, or the exception it raises.  The name
      stays in `nameToHostname` and an emptied set stays in
      `hostnameContainers`, as in the Python. */
  function Remove(t: Table, name: string): Result<Table>
  {
    if name !in t.nameToHostname then Ok(t)
    else
      var h := t.nameToHostname[name];
      if h !in t.hostnameContainers then Ok(t)
      else if name !in t.hostnameContainers[h] then Err(NotClaimed(name))
      else
        var rest := t.hostnameContainers[h] - {name};
        var t1 := t.(hostnameContainers := t.hostnameContainers[h := rest]);
        if rest != {} then Ok(t1)
        else if h !in t.configs then Ok(t1)
        else Ok(t1.(configs := t.configs - {h}))
  }

  // ---------------------------------------------------------------------
  // update_configs

  /** The three cases that leave the table as it was: the proxy's own
      container, a container with no ports at all, and one with only declared
      ports that is not on the proxy network. */
  lemma UpdateNoOp(t: Table, info: ContainerInfo, hostIp: string)
    requires || info.name == ProxyName
             || (HostPorts(info.ports) == [] && (info.ports == [] || ProxyNetwork !in info.networks))
    ensures Update(t, info, hostIp) == Ok(t)
  {
  }

  /** `update_configs` raises exactly when the container has only declared
      ports, is on the proxy network, and has no alias there. */
  lemma UpdateFails(t: Table, info: ContainerInfo, hostIp: string)
    ensures Update(t, info, hostIp).Err? <==>
            && info.name != ProxyName && HostPorts(info.ports) == [] && info.ports != []
            && ProxyNetwork in info.networks && info.networks[ProxyNetwork] == []
    ensures Update(t, info, hostIp).Err? ==> Update(t, info, hostIp).failure == NoAliases
  {
  }

  /** A routed container replaces its hostname's config wholesale, points its
      name at the hostname, joins the hostname's set, and nothing else moves. */
  lemma UpdateClaims(t: Table, info: ContainerInfo, hostIp: string)
    requires info.name != ProxyName && Resolve(info, hostIp).Ok? && Resolve(info, hostIp).value.Routed?
    ensures var res := Resolve(info, hostIp).value;
            var h := info.hostname;
            var r := Update(t, info, hostIp);
            && r.Ok?
            && h in r.value.configs
            && r.value.configs[h] == ContainerConfig(res.port, res.upstream, h, info.name, info.status)
            && r.value.nameToHostname == t.nameToHostname[info.name := h]
            && h in r.value.hostnameContainers
            && r.value.hostnameContainers[h] == Claimants(t, h) + {info.name}
            && r.value.configs - {h} == t.configs - {h}
            && r.value.hostnameContainers - {h} == t.hostnameContainers - {h}
  {
  }

  /** Applying the same metadata twice leaves what applying it once leaves. */
  lemma UpdateIdempotent(t: Table, info: ContainerInfo, hostIp: string)
    requires Update(t, info, hostIp).Ok?
    ensures Update(Update(t, info, hostIp).value, info, hostIp) == Update(t, info, hostIp)
  {
    var t1 := Update(t, info, hostIp).value;
    match Resolve(info, hostIp)
    case Ok(Routed(port, upstream)) =>
      if info.name != ProxyName {
        var c := ConfigOf(info, port, upstream);
        assert Claimants(t1, c.hostname) == Claimants(t, c.hostname) + {c.name};
        assert Claim(t1, c) == t1;
      }
    case _ =>
  }

  lemma UpdatePreservesConsistent(t: Table, info: ContainerInfo, hostIp: string)
    requires Consistent(t) && Update(t, info, hostIp).Ok?
    ensures Consistent(Update(t, info, hostIp).value)
  {
  }

  // ---------------------------------------------------------------------
  // remove_config

  /** A name never recorded is a no-op. */
  lemma RemoveUnknown(t: Table, name: string)
    requires name !in t.nameToHostname
    ensures Remove(t, name) == Ok(t)
  {
  }

  /** Removing a claimant takes it out of its hostname's set; the config
      stays while other claimants remain and goes with the last one. */
  lemma RemoveClaimant(t: Table, name: string)
    requires Consistent(t) && name in t.nameToHostname
    requires name in Claimants(t, t.nameToHostname[name])
    ensures var h := t.nameToHostname[name];
            var rest := t.hostnameContainers[h] - {name};
            var r := Remove(t, name);
            && r.Ok?
            && r.value.nameToHostname == t.nameToHostname
            && r.value.hostnameContainers == t.hostnameContainers[h := rest]
            && (rest != {} ==> r.value.configs == t.configs)
            && (rest == {} ==> h in t.configs && r.value.configs == t.configs - {h})
  {
  }

  /** A remembered name that has left its hostname's set raises on `set.remove`. */
  lemma RemoveUnclaimed(t: Table, name: string)
    requires name in t.nameToHostname && t.nameToHostname[name] in t.hostnameContainers
    requires name !in t.hostnameContainers[t.nameToHostname[name]]
    ensures Remove(t, name) == Err(NotClaimed(name))
  {
  }

  /** Since the name is never forgotten, removing it a second time raises. */
  lemma RemoveTwiceFails(t: Table, name: string)
    requires Consistent(t) && name in t.nameToHostname && Remove(t, name).Ok?
    ensures Remove(Remove(t, name).value, name) == Err(NotClaimed(name))
  {
  }

  lemma RemovePreservesConsistent(t: Table, name: string)
    requires Consistent(t) && Remove(t, name).Ok?
    ensures Consistent(Remove(t, name).value)
  {
  }

  /** Removing several names in turn, stopping at the first that raises. */
  function RemoveAll(t: Table, names: seq<string>): Result<Table>
    decreases names
  {
    if names == [] then Ok(t)
    else
      match Remove(t, names[0])
      case Ok(t1) => RemoveAll(t1, names[1..])
      case Err(e) => Err(e)
  }

  /** Dropping a config once its claimant set empties gives the same configs
      whether the claimants go one by one or together. */
  lemma DrainConfigs(configs: map<string, ContainerConfig>, h: string, claimants: set<string>,
                     first: string, later: set<string>)
    ensures var afterFirst := if claimants - {first} == {} then configs - {h} else configs;
            (if claimants - {first} - later == {} then afterFirst - {h} else afterFirst)
            == (if claimants - ({first} + later) == {} then configs - {h} else configs)
  {
    assert claimants - {first} - later == claimants - ({first} + later);
    assert configs - {h} - {h} == configs - {h};
  }

  /** Removing distinct claimants of one hostname shrinks its set by exactly
      those names and keeps the config until the set is empty. */
  lemma {:induction false} DrainSome(t: Table, h: string, names: seq<string>)
    requires Consistent(t) && h in t.hostnameContainers
    requires forall i, j :: 0 <= i < j < |names| ==> names[i] != names[j]
    requires forall i :: 0 <= i < |names| ==>
               names[i] in t.hostnameContainers[h] && names[i] in t.nameToHostname && t.nameToHostname[names[i]] == h
    ensures var r := RemoveAll(t, names);
            var rest := t.hostnameContainers[h] - set n | n in names;
            && r.Ok?
            && r.value.nameToHostname == t.nameToHostname
            && r.value.hostnameContainers == t.hostnameContainers[h := rest]
            && r.value.configs == (if rest == {} then t.configs - {h} else t.configs)
    decreases names
  {
    if names == [] {
      assert (set n | n in names) == {};
      assert t.hostnameContainers[h] - {} == t.hostnameContainers[h];
      assert t.hostnameContainers[h := t.hostnameContainers[h]] == t.hostnameContainers;
      if t.hostnameContainers[h] == {} {
        assert h !in t.configs;
        assert t.configs - {h} == t.configs;
      }
    } else {
      RemoveClaimant(t, names[0]);
      RemovePreservesConsistent(t, names[0]);
      var t1 := Remove(t, names[0]).value;
      assert forall i :: 0 <= i < |names[1..]| ==> names[1..][i] == names[i + 1];
      DrainSome(t1, h, names[1..]);
      var later := set n | n in names[1..];
      assert (set n | n in names) == {names[0]} + later;
      var rest := t.hostnameContainers[h] - ({names[0]} + later);
      assert t1.hostnameContainers[h] - later == rest;
      assert t1.hostnameContainers[h := rest] == t.hostnameContainers[h := rest];
      DrainConfigs(t.configs, h, t.hostnameContainers[h], names[0], later);
    }
  }

  /** Every sequence of removals that succeeds keeps the table consistent. */
  lemma {:induction false} RemoveAllPreservesConsistent(t: Table, names: seq<string>)
    requires Consistent(t)
    ensures RemoveAll(t, names).Ok? ==> Consistent(RemoveAll(t, names).value)
    decreases names
  {
    if names != [] && Remove(t, names[0]).Ok? {
      RemovePreservesConsistent(t, names[0]);
      RemoveAllPreservesConsistent(Remove(t, names[0]).value, names[1..]);
    }
  }

  /** With N distinct claimants of a hostname, removing N-1 of them keeps its
      config untouched and removing the N-th deletes it. */
  lemma Drain(t: Table, h: string, names: seq<string>)
    requires Consistent(t) && h in t.hostnameContainers && |names| >= 1
    requires forall i, j :: 0 <= i < j < |names| ==> names[i] != names[j]
    requires t.hostnameContainers[h] == set n | n in names
    requires forall i :: 0 <= i < |names| ==> names[i] in t.nameToHostname && t.nameToHostname[names[i]] == h
    ensures var most := RemoveAll(t, names[..|names| - 1]);
            most.Ok? && h in most.value.configs && most.value.configs[h] == t.configs[h]
    ensures RemoveAll(t, names).Ok? && h !in RemoveAll(t, names).value.configs
  {
    var last := names[|names| - 1];
    var most := names[..|names| - 1];
    assert last in t.hostnameContainers[h];
    assert last !in most;
    assert t.hostnameContainers[h] - (set n | n in most) == {last};
    DrainSome(t, h, most);
    DrainSome(t, h, names);
  }

  /** Two replicas sharing a hostname, started in turn on an empty table:
      both are recorded and the config is the second one's. */
  lemma ReplicasStarted(first: ContainerInfo, second: ContainerInfo, hostIp: string)
    requires first.name != second.name && first.hostname == second.hostname
    requires first.name != ProxyName && second.name != ProxyName
    requires Resolve(first, hostIp).Ok? && Resolve(first, hostIp).value.Routed?
    requires Resolve(second, hostIp).Ok? && Resolve(second, hostIp).value.Routed?
    ensures var h := first.hostname;
            var t1 := Update(EmptyTable, first, hostIp).value;
            var t2 := Update(t1, second, hostIp).value;
            && Consistent(t2)
            && t2.configs == map[h := ConfigOf(second, Resolve(second, hostIp).value.port,
                                                Resolve(second, hostIp).value.upstream)]
            && t2.nameToHostname == map[first.name := h, second.name := h]
            && t2.hostnameContainers == map[h := {first.name, second.name}]
  {
    var h := first.hostname;
    UpdatePreservesConsistent(EmptyTable, first, hostIp);
    var t1 := Update(EmptyTable, first, hostIp).value;
    UpdatePreservesConsistent(t1, second, hostIp);
    var t2 := Update(t1, second, hostIp).value;
    UpdateClaims(EmptyTable, first, hostIp);
    assert Claimants(EmptyTable, h) == {};
    assert t1.hostnameContainers == map[h := {} + {first.name}];
    assert {} + {first.name} == {first.name};
    assert t2.hostnameContainers == map[h := {first.name} + {second.name}];
    assert {first.name} + {second.name} == {first.name, second.name};
  }

  /** Two replicas sharing a hostname: the config follows the last one
      started, survives the first one's removal, goes with the second's, and
      removing the first again raises. */
  lemma Replicas(first: ContainerInfo, second: ContainerInfo, hostIp: string)
    requires first.name != second.name && first.hostname == second.hostname
    requires first.name != ProxyName && second.name != ProxyName
    requires Resolve(first, hostIp).Ok? && Resolve(first, hostIp).value.Routed?
    requires Resolve(second, hostIp).Ok? && Resolve(second, hostIp).value.Routed?
    ensures var h := first.hostname;
            var t1 := Update(EmptyTable, first, hostIp).value;
            var t2 := Update(t1, second, hostIp).value;
            var c2 := ConfigOf(second, Resolve(second, hostIp).value.port, Resolve(second, hostIp).value.upstream);
            && t2.configs == map[h := c2]
            && Remove(t2, first.name).Ok?
            && Remove(t2, first.name).value.configs == map[h := c2]
            && Remove(Remove(t2, first.name).value, second.name).Ok?
            && Remove(Remove(t2, first.name).value, second.name).value.configs == map[]
            && Remove(Remove(Remove(t2, first.name).value, second.name).value, first.name) == Err(NotClaimed(first.name))
  {
    ReplicasStarted(first, second, hostIp);
    var h := first.hostname;
    var t2 := Update(Update(EmptyTable, first, hostIp).value, second, hostIp).value;
    RemoveClaimant(t2, first.name);
    RemovePreservesConsistent(t2, first.name);
    var t3 := Remove(t2, first.name).value;
    assert t3.hostnameContainers[h] == {second.name};
    RemoveClaimant(t3, second.name);
    RemovePreservesConsistent(t3, second.name);
    var t4 := Remove(t3, second.name).value;
    RemoveUnclaimed(t4, first.name);
  }

  // ---------------------------------------------------------------------
  // The dicts as mutable state

  class RoutingTable {
    var configs: map<string, ContainerConfig>
    var nameToHostname: map<string, string>
    var hostnameContainers: map<string, set<string>>

    function Model(): Table
      reads this
    {
      Table(configs, nameToHostname, hostnameContainers)
    }

    ghost predicate Valid()
      reads this
    {
      Consistent(Model())
    }

    /** The three dicts start empty (podproxy.py:33-35). */
    constructor ()
      ensures Model() == EmptyTable && Valid()
    {
      configs := map[];
      nameToHostname := map[];
      hostnameContainers := map[];
    }

    /** `update_configs`: a raise happens before any dict is touched. */
    method UpdateConfigs(info: ContainerInfo, hostIp: string) returns (outcome: Outcome)
      requires Valid()
      modifies this
      ensures Valid()
      ensures match Update(old(Model()), info, hostIp)
              case Ok(t) => outcome == Pass && Model() == t
              case Err(e) => outcome == Fail(e) && Model() == old(Model())
    {
      UpdateFails(Model(), info, hostIp);
      if info.name == ProxyName {
        return Pass;
      }
      match Resolve(info, hostIp)
      case Err(e) =>
        return Fail(e);
      case Ok(Routed(port, upstream)) =>
        ghost var before := Model();
        var config := ConfigOf(info, port, upstream);
        configs := configs[config.hostname := config];
        nameToHostname := nameToHostname[config.name := config.hostname];
        if config.hostname !in hostnameContainers {
          hostnameContainers := hostnameContainers[config.hostname := {}];
        }
        hostnameContainers := hostnameContainers[config.hostname := hostnameContainers[config.hostname] + {config.name}];
        assert Model() == Claim(before, config);
        UpdatePreservesConsistent(before, info, hostIp);
        return Pass;
      case Ok(_) =>
        return Pass;
    }

    /** `remove_config`: the name is never dropped from `nameToHostname`, and
        an emptied set is left in place. */
    method RemoveConfig(name: string) returns (outcome: Outcome)
      requires Valid()
      modifies this
      ensures Valid()
      ensures match Remove(old(Model()), name)
              case Ok(t) => outcome == Pass && Model() == t
              case Err(e) => outcome == Fail(e) && Model() == old(Model())
    {
      ghost var before := Model();
      if name !in nameToHostname {
        return Pass;
      }
      var h := nameToHostname[name];
      if h !in hostnameContainers {
        return Pass;
      }
      if name !in hostnameContainers[h] {
        return Fail(NotClaimed(name));
      }
      hostnameContainers := hostnameContainers[h := hostnameContainers[h] - {name}];
      RemovePreservesConsistent(before, name);
      if hostnameContainers[h] != {} {
        return Pass;
      }
      if h !in configs {
        return Pass;
      }
      configs := configs - {h};
      return Pass;
    }
  }
}
