/** Reconciliation: the nginx data built from `configs` (`update_config_file`,
    podproxy.py:180-191), the bootstrap over the containers already running
    (`get_containers`, podproxy.py:214-216), and the event loop of `main`
    (podproxy.py:299-328).

    Each event line arrives together with what `podman inspect` reports for
    the event's container at that moment; rendering the data through the
    template and reloading nginx are represented by handing back the data. */
module Reconcile {
  import opened Common
  import opened Text
  import opened EventParser
  import opened Upstream
  import opened Routing

  /** One entry of the `server` list (podproxy.py:185-191). */
  datatype Server = Server(serverName: string, proxyPass: string, listen: seq<int>)

  /** The `data` dict: the entries of its `server` list, and for each
      hostname the `upstream:port` address of its single server.  The dict
      itself keys that address by `UpstreamKey(hostname)`;
      `UpstreamKeyInjective` shows the key names one hostname and never
      clashes with `server`, so keying by the hostname loses nothing. */
  datatype Snapshot = Snapshot(servers: set<Server>, upstreams: map<string, string>)

  const UpstreamPrefix := "upstream "
  const ListenPort := 80
  const Died := "died"

  /** The server entry of hostname `h`. */
  function ServerFor(h: string): Server
  {
    Server(h, "http://" + h, [ListenPort])
  }

  /** The address nginx forwards to for a config. */
  function Target(c: ContainerConfig): string
  {
    c.upstream + ":" + c.port
  }

  /** The key `"upstream %s" % hostname` of a hostname's upstream block. */
  function UpstreamKey(h: string): string
  {
    UpstreamPrefix + h
  }

  /** Distinct hostnames get distinct upstream keys, none of them `server`. */
  lemma UpstreamKeyInjective(h1: string, h2: string)
    ensures UpstreamKey(h1) == UpstreamKey(h2) ==> h1 == h2
    ensures UpstreamKey(h1) != "server"
  {
    if UpstreamKey(h1) == UpstreamKey(h2) {
      assert h1 == UpstreamKey(h1)[|UpstreamPrefix|..];
      assert h2 == UpstreamKey(h2)[|UpstreamPrefix|..];
    }
    assert UpstreamKey(h1)[0] == 'u';
  }

  /** The data for the hostnames in `done`. */
  function RenderOf(configs: map<string, ContainerConfig>, done: set<string>): Snapshot
    requires done <= configs.Keys
  {
    Snapshot(set h | h in done :: ServerFor(h), map h | h in done :: Target(configs[h]))
  }

  /** The data `update_config_file` renders for `configs`. */
  function Render(configs: map<string, ContainerConfig>): Snapshot
  {
    RenderOf(configs, configs.Keys)
  }

  /** The data holds a server entry for exactly the hostnames of `configs`,
      each proxying to that hostname on port 80, and the address of each
      hostname's config. */
  lemma RenderContents(configs: map<string, ContainerConfig>)
    ensures var snap := Render(configs);
            && (forall s :: s in snap.servers <==> s.serverName in configs && s == ServerFor(s.serverName))
            && (forall h :: h in configs ==> ServerFor(h).proxyPass == "http://" + h && ServerFor(h).listen == [80])
            && (forall h :: h in snap.upstreams <==> h in configs)
            && (forall h :: h in configs ==> snap.upstreams[h] == Target(configs[h]))
  {
  }

  /** Visiting one more hostname adds its server entry and its address. */
  lemma RenderOfStep(configs: map<string, ContainerConfig>, done: set<string>, h: string)
    requires done <= configs.Keys && h in configs
    ensures RenderOf(configs, done + {h})
            == Snapshot(RenderOf(configs, done).servers + {ServerFor(h)},
                        RenderOf(configs, done).upstreams[h := Target(configs[h])])
  {
    var before := RenderOf(configs, done);
    var after := RenderOf(configs, done + {h});
    assert after.servers == before.servers + {ServerFor(h)};
    assert after.upstreams == before.upstreams[h := Target(configs[h])];
  }

  /** The server entries of distinct hostnames are distinct: there are as many
      entries as hostnames. */
  lemma {:induction false} ServerCount(configs: map<string, ContainerConfig>, done: set<string>)
    requires done <= configs.Keys
    ensures |RenderOf(configs, done).servers| == |done|
    decreases |done|
  {
    if done != {} {
      var h :| h in done;
      var others := done - {h};
      ServerCount(configs, others);
      RenderOfStep(configs, others, h);
      assert others + {h} == done;
      assert ServerFor(h) !in RenderOf(configs, others).servers;
    }
  }

  /** One server entry per hostname in `configs`. */
  lemma RenderServerCount(configs: map<string, ContainerConfig>)
    ensures |Render(configs).servers| == |configs|
  {
    ServerCount(configs, configs.Keys);
  }

  /** `update_config_file` up to rendering: loops over the configs, adding
      an upstream address and a server entry for each. */
  method BuildSnapshot(configs: map<string, ContainerConfig>) returns (snap: Snapshot)
    requires forall h :: h in configs ==> configs[h].hostname == h
    ensures snap == Render(configs)
  {
    var servers: set<Server> := {};
    var upstreams: map<string, string> := map[];
    var remaining := configs.Keys;
    assert RenderOf(configs, {}) == Snapshot(servers, upstreams);
    while remaining != {}
      invariant remaining <= configs.Keys
      invariant Snapshot(servers, upstreams) == RenderOf(configs, configs.Keys - remaining)
      decreases remaining
    {
      var h :| h in remaining;
      var config := configs[h];
      RenderOfStep(configs, configs.Keys - remaining, h);
      upstreams := upstreams[config.hostname := Target(config)];
      servers := servers + {ServerFor(config.hostname)};
      assert configs.Keys - (remaining - {h}) == (configs.Keys - remaining) + {h};
      remaining := remaining - {h};
    }
    assert configs.Keys - remaining == configs.Keys;
    snap := Snapshot(servers, upstreams);
  }

  // ---------------------------------------------------------------------
  // One event

  /** One line of `podman events` output and what inspecting the event's
      container returns when the line is handled. */
  datatype Arrival = Arrival(line: string, inspected: seq<ContainerInfo>)

  /** What handling a line does to the table. */
  datatype Effect = Ignored | Applied(table: Table) | Crashed(failure: Failure)

  /** The dispatch of a parsed event (podproxy.py:317-325). */
  function Dispatch(t: Table, event: EventInfo, inspected: seq<ContainerInfo>, hostIp: string): Result<Table>
  {
    if event.event == Died && event.kind == ContainerKind then Remove(t, event.name)
    else if |inspected| == 0 then Remove(t, event.name)
    else Update(t, inspected[0], hostIp)
  }

  /** What `main` does to each line before dispatching it: strip it and
      hand it to `parse_event` (podproxy.py:312). */
  function ParseLine(fromIso: string -> Option<DateTime>): string -> Parsed
  {
    line => ParseEvent(Strip(line), fromIso)
  }

  /** Every event `ParseLine` yields is a container `start` or `died` event. */
  lemma ParseLineShape(fromIso: string -> Option<DateTime>, line: string)
    requires ParseLine(fromIso)(line).Event?
    ensures var e := ParseLine(fromIso)(line).info;
            e.kind == ContainerKind && e.event in Whitelist
  {
    assert ParseLine(fromIso)(line) == ParseEvent(Strip(line), fromIso);
    ParseEventShape(Strip(line), fromIso);
  }

  /** The body of the event loop on one line (podproxy.py:312-328), for a
      line parser `parse`; `main` uses `ParseLine`. */
  function Step(t: Table, a: Arrival, hostIp: string, parse: string -> Parsed): Effect
  {
    match parse(a.line)
    case Discard => Ignored
    case Raise(e) => Crashed(e)
    case Event(event) =>
      match Dispatch(t, event, a.inspected, hostIp)
      case Ok(t1) => Applied(t1)
      case Err(e) => Crashed(e)
  }

  /** A container `died` event removes the container's claim whatever
      inspection would say. */
  lemma StepDied(t: Table, a: Arrival, hostIp: string, parse: string -> Parsed)
    requires parse(a.line).Event? && parse(a.line).info.event == Died && parse(a.line).info.kind == ContainerKind
    ensures Step(t, a, hostIp, parse)
            == (match Remove(t, parse(a.line).info.name) case Ok(t1) => Applied(t1) case Err(e) => Crashed(e))
  {
  }

  /** Any other event re-reads the container: gone means its claim is
      removed, present means its first record is applied. */
  lemma StepOther(t: Table, a: Arrival, hostIp: string, parse: string -> Parsed)
    requires parse(a.line).Event? && parse(a.line).info.event != Died
    ensures var r := if a.inspected == [] then Remove(t, parse(a.line).info.name) else Update(t, a.inspected[0], hostIp);
            Step(t, a, hostIp, parse) == (match r case Ok(t1) => Applied(t1) case Err(e) => Crashed(e))
  {
  }

  /** A discarded line leaves the table alone; a line that raises stops with its exception. */
  lemma StepNoEvent(t: Table, a: Arrival, hostIp: string, parse: string -> Parsed)
    requires !parse(a.line).Event?
    ensures parse(a.line) == Discard ==> Step(t, a, hostIp, parse) == Ignored
    ensures parse(a.line).Raise? ==> Step(t, a, hostIp, parse) == Crashed(parse(a.line).failure)
  {
  }

  lemma StepPreservesConsistent(t: Table, a: Arrival, hostIp: string, parse: string -> Parsed)
    requires Consistent(t) && Step(t, a, hostIp, parse).Applied?
    ensures Consistent(Step(t, a, hostIp, parse).table)
  {
    var event := parse(a.line).info;
    if (event.event == Died && event.kind == ContainerKind) || |a.inspected| == 0 {
      RemovePreservesConsistent(t, event.name);
    } else {
      UpdatePreservesConsistent(t, a.inspected[0], hostIp);
    }
  }

  /** A container that starts alone on its hostname and then dies leaves the
      hostname without a config. */
  lemma StartThenDied(t: Table, start: Arrival, died: Arrival, hostIp: string, parse: string -> Parsed)
    requires Consistent(t)
    requires parse(start.line).Event? && parse(start.line).info.event != Died
    requires parse(died.line).Event? && parse(died.line).info.event == Died && parse(died.line).info.kind == ContainerKind
    requires start.inspected != [] && parse(died.line).info.name == start.inspected[0].name
    requires var info := start.inspected[0];
             && info.name != ProxyName && Resolve(info, hostIp).Ok? && Resolve(info, hostIp).value.Routed?
             && Claimants(t, info.hostname) <= {info.name}
    ensures var s := Step(t, start, hostIp, parse);
            && s.Applied? && start.inspected[0].hostname in s.table.configs
            && Step(s.table, died, hostIp, parse).Applied?
            && start.inspected[0].hostname !in Step(s.table, died, hostIp, parse).table.configs
  {
    var info := start.inspected[0];
    StepOther(t, start, hostIp, parse);
    UpdateClaims(t, info, hostIp);
    UpdatePreservesConsistent(t, info, hostIp);
    var t1 := Update(t, info, hostIp).value;
    assert t1.hostnameContainers[info.hostname] == {info.name};
    StepDied(t1, died, hostIp, parse);
    RemoveClaimant(t1, info.name);
  }

  /** What `HandleLine` reports. */
  datatype LineOutcome = Skipped | Reloaded(snapshot: Snapshot) | Halted(failure: Failure)

  /** The loop body of `main`: a discarded line changes nothing and reloads
      nothing; a handled one rebuilds the data once and reloads once; an
      exception ends the loop with the table as it was. */
  method HandleLine(table: RoutingTable, a: Arrival, hostIp: string, parse: string -> Parsed)
    returns (outcome: LineOutcome)
    requires table.Valid()
    modifies table
    ensures table.Valid()
    ensures match Step(old(table.Model()), a, hostIp, parse)
            case Ignored => outcome == Skipped && table.Model() == old(table.Model())
            case Crashed(e) => outcome == Halted(e) && table.Model() == old(table.Model())
            case Applied(t) => table.Model() == t && outcome == Reloaded(Render(t.configs))
  {
    match parse(a.line)
    case Discard =>
      return Skipped;
    case Raise(e) =>
      return Halted(e);
    case Event(event) =>
      var result: Outcome;
      if event.event == Died && event.kind == ContainerKind {
        result := table.RemoveConfig(event.name);
      } else if |a.inspected| == 0 {
        result := table.RemoveConfig(event.name);
      } else {
        result := table.UpdateConfigs(a.inspected[0], hostIp);
      }
      if result.Fail? {
        return Halted(result.failure);
      }
      var snapshot := BuildSnapshot(table.configs);
      return Reloaded(snapshot);
  }

  // ---------------------------------------------------------------------
  // The event loop

  /** The tables after each reload, the exception that ended the loop if
      any, and the table left at the end. */
  datatype Trace = Trace(reloads: seq<Table>, crash: Option<Failure>, final: Table)

  /** The event loop over a sequence of arrivals. */
  function Replay(t: Table, arrivals: seq<Arrival>, hostIp: string, parse: string -> Parsed): Trace
    decreases |arrivals|
  {
    if arrivals == [] then Trace([], None, t)
    else
      match Step(t, arrivals[0], hostIp, parse)
      case Ignored => Replay(t, arrivals[1..], hostIp, parse)
      case Crashed(e) => Trace([], Some(e), t)
      case Applied(t1) =>
        var rest := Replay(t1, arrivals[1..], hostIp, parse);
        Trace([t1] + rest.reloads, rest.crash, rest.final)
  }

  /** Every table the loop reloads with, and the one it ends with, keeps the
      invariant; there is at most one reload per line. */
  lemma {:induction false} ReplayPreservesConsistent(t: Table, arrivals: seq<Arrival>, hostIp: string,
                                                     parse: string -> Parsed)
    requires Consistent(t)
    ensures var trace := Replay(t, arrivals, hostIp, parse);
            && Consistent(trace.final)
            && |trace.reloads| <= |arrivals|
            && forall i :: 0 <= i < |trace.reloads| ==> Consistent(trace.reloads[i])
    decreases |arrivals|
  {
    if arrivals != [] {
      match Step(t, arrivals[0], hostIp, parse)
      case Ignored =>
        ReplayPreservesConsistent(t, arrivals[1..], hostIp, parse);
      case Crashed(e) =>
      case Applied(t1) =>
        StepPreservesConsistent(t, arrivals[0], hostIp, parse);
        ReplayPreservesConsistent(t1, arrivals[1..], hostIp, parse);
    }
  }

  /** Lines that are all discarded leave the table alone and reload nothing. */
  lemma {:induction false} ReplayDiscarded(t: Table, arrivals: seq<Arrival>, hostIp: string, parse: string -> Parsed)
    requires forall i :: 0 <= i < |arrivals| ==> parse(arrivals[i].line) == Discard
    ensures Replay(t, arrivals, hostIp, parse) == Trace([], None, t)
    decreases |arrivals|
  {
    if arrivals != [] {
      assert forall i :: 0 <= i < |arrivals[1..]| ==> arrivals[1..][i] == arrivals[i + 1];
      ReplayDiscarded(t, arrivals[1..], hostIp, parse);
    }
  }

  /** The loop from line `i` on is one step followed by the loop from line `i + 1` on. */
  lemma ReplayFrom(t: Table, arrivals: seq<Arrival>, i: nat, hostIp: string, parse: string -> Parsed)
    requires i < |arrivals|
    ensures var rest := Replay(t, arrivals[i..], hostIp, parse);
            match Step(t, arrivals[i], hostIp, parse)
            case Ignored => rest == Replay(t, arrivals[i + 1..], hostIp, parse)
            case Crashed(e) => rest == Trace([], Some(e), t)
            case Applied(t1) =>
              var later := Replay(t1, arrivals[i + 1..], hostIp, parse);
              rest == Trace([t1] + later.reloads, later.crash, later.final)
  {
    assert arrivals[i..][0] == arrivals[i];
    assert arrivals[i..][1..] == arrivals[i + 1..];
  }

  /** The data of each table, in order. */
  function Renders(tables: seq<Table>): (snaps: seq<Snapshot>)
    ensures |snaps| == |tables|
    ensures forall i :: 0 <= i < |tables| ==> snaps[i] == Render(tables[i].configs)
  {
    seq(|tables|, i requires 0 <= i < |tables| => Render(tables[i].configs))
  }

  /** `for line in process.stdout`: handle each line until one raises. */
  method Listen(table: RoutingTable, arrivals: seq<Arrival>, hostIp: string, parse: string -> Parsed)
    returns (snapshots: seq<Snapshot>, crash: Option<Failure>)
    requires table.Valid()
    modifies table
    ensures table.Valid()
    ensures var trace := Replay(old(table.Model()), arrivals, hostIp, parse);
            && table.Model() == trace.final && crash == trace.crash
            && snapshots == Renders(trace.reloads)
  {
    ghost var whole := Replay(table.Model(), arrivals, hostIp, parse);
    ghost var reloads: seq<Table> := [];
    snapshots := [];
    var i := 0;
    while i < |arrivals|
      invariant 0 <= i <= |arrivals| && table.Valid()
      invariant snapshots == Renders(reloads)
      invariant var rest := Replay(table.Model(), arrivals[i..], hostIp, parse);
                whole == Trace(reloads + rest.reloads, rest.crash, rest.final)
    {
      ghost var before := table.Model();
      ReplayFrom(before, arrivals, i, hostIp, parse);
      var outcome := HandleLine(table, arrivals[i], hostIp, parse);
      if outcome.Halted? {
        return snapshots, Some(outcome.failure);
      }
      if outcome.Reloaded? {
        ghost var after := table.Model();
        ghost var later := Replay(after, arrivals[i + 1..], hostIp, parse);
        assert reloads + ([after] + later.reloads) == (reloads + [after]) + later.reloads;
        assert Renders(reloads + [after]) == Renders(reloads) + [Render(after.configs)];
        reloads := reloads + [after];
        snapshots := snapshots + [outcome.snapshot];
      }
      i := i + 1;
    }
    return snapshots, None;
  }

  // ---------------------------------------------------------------------
  // Bootstrap

  /** The table when bootstrap ends, and the exception that ended it early if any. */
  datatype Progress = Progress(table: Table, crash: Option<Failure>)

  /** `get_containers`: apply the first record of each inspection in turn;
      an empty inspection raises on `container_info[0]`. */
  function Sync(t: Table, inspections: seq<seq<ContainerInfo>>, hostIp: string): Progress
    decreases |inspections|
  {
    if inspections == [] then Progress(t, None)
    else if inspections[0] == [] then Progress(t, Some(NotInspected))
    else
      match Update(t, inspections[0][0], hostIp)
      case Ok(t1) => Sync(t1, inspections[1..], hostIp)
      case Err(e) => Progress(t, Some(e))
  }

  /** A container name recorded as claiming its hostname. */
  ghost predicate Recorded(t: Table, name: string)
  {
    name in t.nameToHostname && name in Claimants(t, t.nameToHostname[name])
  }

  /** A routable container: not the proxy, and resolved to a port and upstream. */
  predicate Routable(info: ContainerInfo, hostIp: string)
  {
    info.name != ProxyName && Resolve(info, hostIp).Ok? && Resolve(info, hostIp).value.Routed?
  }

  /** An update keeps every recorded claim recorded. */
  lemma UpdateKeepsRecorded(t: Table, info: ContainerInfo, hostIp: string, name: string)
    requires Update(t, info, hostIp).Ok? && Recorded(t, name)
    ensures Recorded(Update(t, info, hostIp).value, name)
  {
  }

  /** Bootstrap keeps the invariant, and when it completes every routable
      container it inspected is recorded and its hostname has a config. */
  lemma {:induction false} SyncServesEvery(t: Table, inspections: seq<seq<ContainerInfo>>, hostIp: string)
    requires Consistent(t)
    ensures var p := Sync(t, inspections, hostIp);
            && Consistent(p.table)
            && (p.crash.None? ==>
                  forall i :: 0 <= i < |inspections| && inspections[i] != [] && Routable(inspections[i][0], hostIp) ==>
                    Recorded(p.table, inspections[i][0].name)
                    && p.table.nameToHostname[inspections[i][0].name] in p.table.configs)
    decreases |inspections|
  {
    var p := Sync(t, inspections, hostIp);
    if inspections != [] && inspections[0] != [] && Update(t, inspections[0][0], hostIp).Ok? {
      var info := inspections[0][0];
      UpdatePreservesConsistent(t, info, hostIp);
      var t1 := Update(t, info, hostIp).value;
      var tail := inspections[1..];
      SyncServesEvery(t1, tail, hostIp);
      if p.crash.None? {
        forall i | 0 <= i < |inspections| && inspections[i] != [] && Routable(inspections[i][0], hostIp)
          ensures Recorded(p.table, inspections[i][0].name)
        {
          if i == 0 {
            UpdateClaims(t, info, hostIp);
            SyncKeepsRecorded(t1, tail, hostIp, info.name);
          } else {
            assert inspections[i] == tail[i - 1];
          }
        }
      }
    }
  }

  /** A completed bootstrap keeps every claim recorded before it. */
  lemma {:induction false} SyncKeepsRecorded(t: Table, inspections: seq<seq<ContainerInfo>>, hostIp: string, name: string)
    requires Recorded(t, name) && Sync(t, inspections, hostIp).crash.None?
    ensures Recorded(Sync(t, inspections, hostIp).table, name)
    decreases |inspections|
  {
    if inspections != [] {
      UpdateKeepsRecorded(t, inspections[0][0], hostIp, name);
      SyncKeepsRecorded(Update(t, inspections[0][0], hostIp).value, inspections[1..], hostIp, name);
    }
  }

  /** `get_containers` on the table. */
  method Bootstrap(table: RoutingTable, inspections: seq<seq<ContainerInfo>>, hostIp: string)
    returns (crash: Option<Failure>)
    requires table.Valid()
    modifies table
    ensures table.Valid()
    ensures Progress(table.Model(), crash) == Sync(old(table.Model()), inspections, hostIp)
  {
    ghost var whole := Sync(table.Model(), inspections, hostIp);
    var i := 0;
    while i < |inspections|
      invariant 0 <= i <= |inspections| && table.Valid()
      invariant whole == Sync(table.Model(), inspections[i..], hostIp)
    {
      assert inspections[i..][1..] == inspections[i + 1..];
      var found := inspections[i];
      if |found| == 0 {
        return Some(NotInspected);
      }
      var result := table.UpdateConfigs(found[0], hostIp);
      if result.Fail? {
        return Some(result.failure);
      }
      i := i + 1;
    }
    return None;
  }

  /** `main` after the proxy is up: bootstrap from the running containers,
      write the data and reload once, then follow the event stream.  The
      data handed back is each reload's, in order.  `main` parses each line
      with `ParseLine`. */
  method Run(hostIp: string, containers: seq<seq<ContainerInfo>>, arrivals: seq<Arrival>, parse: string -> Parsed)
    returns (snapshots: seq<Snapshot>, crash: Option<Failure>)
    ensures var boot := Sync(EmptyTable, containers, hostIp);
            && (boot.crash.Some? ==> snapshots == [] && crash == boot.crash)
            && (boot.crash.None? ==>
                  var trace := Replay(boot.table, arrivals, hostIp, parse);
                  && crash == trace.crash
                  && snapshots == [Render(boot.table.configs)] + Renders(trace.reloads))
  {
    var table := new RoutingTable();
    crash := Bootstrap(table, containers, hostIp);
    if crash.Some? {
      return [], crash;
    }
    var first := BuildSnapshot(table.configs);
    var later;
    later, crash := Listen(table, arrivals, hostIp, parse);
    snapshots := [first] + later;
  }
}
