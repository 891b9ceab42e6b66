# podproxy routing core in Dafny

podproxy follows `podman events` and keeps an nginx reverse-proxy
configuration in step with the containers that run. Every container that
publishes a host port is proxied at the host address. A container that
only declares ports is proxied at a DNS alias on the `podproxy` network.
Either way the proxy routes by the container's hostname. This project
models the part of `podproxy.py` that decides what nginx is told, and
proves properties of it:

- `Text` (`text.dfy`): the Python string primitives the core relies on.
  These are `str.find`, substring `in`, `str.split` with an explicit
  separator and `str.strip`, and `str.join`, which is there only to
  state what `split` undoes.
- `EventParser` (`event_parser.dfy`): `parse_event`. It splits one event
  line into a space-separated preamble and a `key=value` attribute list.
  It keeps container `start` and `died` events and discards everything
  else. It raises where the Python raises.
- `Upstream` (`upstream.dfy`): the port and upstream host a container is
  reached on (`update_configs` up to building the config, `get_upstream`,
  `is_proxy_network_connected`).
- `Routing` (`routing.dfy`): the three module-level dicts `configs`,
  `name_to_hostname` and `hostname_containers`.
  - As a value: `Table`, with `Update` and `Remove` stating what
    `update_configs` and `remove_config` leave behind or which exception
    they raise.
  - As a class: `RoutingTable`, whose methods change the dicts in place
    and are proved against `Update` and `Remove`.
  - `Consistent` is the invariant the two procedures keep: a hostname has
    a config exactly when its claiming set is non-empty.
- `Reconcile` (`reconcile.dfy`):
  - the `data` dict that `update_config_file` renders;
  - the body of `main`'s event loop and the loop itself;
  - the bootstrap fold of `get_containers`;
  - `main` after the proxy is up.
- `Common` (`common.dfy`): `Option`, `Result`, and the exceptions the core
  can raise, as values:
  - `MissingToken(i)`: `IndexError` on preamble token `i`;
  - `MissingAttribute(k)`: `KeyError` on attribute `k`;
  - `NoAliases`: `IndexError` on `aliases[0]`;
  - `NotInspected`: `IndexError` on `container_info[0]`;
  - `NotClaimed(n)`: `KeyError` from `set.remove`.

Python raising is never turned into a silent discard. It is a `Raise`,
`Err`, `Fail`, `Halted` or `Crashed` value that carries the exception.

Some of the program's inputs are external, so they become parameters:
- The podman CLI is outside the model. Each event line arrives together
  with what `podman inspect` returns for its container at that moment.
- `HOST_IP` is the parameter `hostIp`.
- `datetime.fromisoformat` is the parameter `fromIso`, a partial function
  from the reconstructed timestamp text.

## Model

| member | source | states |
|---|---|---|
| Text.Find | podproxy.py:40 | `str.find` gives the first index where the pattern occurs, or -1 when it occurs nowhere |
| Text.Contains | podproxy.py:143 | defines Python's substring `in`: some index where the pattern occurs; `Find`'s contract gives -1 exactly when no such index exists |
| Text.Split | podproxy.py:43 | the pieces of `str.split(sep)` join back to the string with `sep`, and no piece contains `sep` (empty pieces are kept) |
| Text.SplitJoin | podproxy.py:62 | splitting a join returns the parts when no part holds the separator's first character |
| Text.Strip | podproxy.py:312 | `strip()` removes exactly the leading and trailing Python whitespace: the result sits in the line with only whitespace around it, and is empty iff the line is all whitespace |
| EventParser.Preamble | podproxy.py:40-42 | defines `event_line[0:index-1]` with Python's negative-bound slicing; `LineParts` proves it is the text before ` (` on a well-formed line |
| EventParser.AttributeText | podproxy.py:61 | defines `event_line[index+1:-1]`; `LineParts` proves it is the text between the parentheses on a well-formed line |
| EventParser.TimestampText | podproxy.py:55-56 | defines the string handed to `fromisoformat`: token 0, a space, the first 12 characters of token 1, token 3 and `:00`; `ParseEventShape` and `ParseEventBadTimestamp` state its role |
| EventParser.KeyValue | podproxy.py:62-64 | defines the pair `item[0], item[1]` of `item.split("=")`, `None` where indexing `item[1]` raises; `KeyValueSplit` and `KeyValueParts` prove its properties |
| EventParser.ParseAttributes | podproxy.py:61-67 | defines the attribute dict, `None` where the comprehension raises; `ParseAttributesSpec` and `AttributesRoundTrip` prove its properties |
| EventParser.ParseEvent | podproxy.py:39-76 | defines `parse_event` branch by branch: the `IndexError`s on tokens 4, 5 and 6, the kind, whitelist, timestamp and attribute discards in source order, the `KeyError`s on `name` and `image`; the lemmas below state each path |
| EventParser.ParseEventFilters | podproxy.py:39-52 | a preamble of fewer than 5 tokens raises at token 4, one of exactly 5 raises at token 5, and a kind other than `container` or an event outside `died`/`start` is discarded |
| EventParser.ParseEventShape | podproxy.py:45-73 | every returned event is a `container` event in the whitelist, its id is preamble token 6, and its timestamp is what `fromisoformat` makes of the reconstructed text |
| EventParser.ParseEventBadTimestamp | podproxy.py:54-59 | a timestamp `fromisoformat` rejects discards an event that passed the kind filters |
| EventParser.ParseEventBadAttributes | podproxy.py:61-67 | an attribute item without `=` discards an event that passed the kind filters and the timestamp, even when the preamble has no token 6 |
| EventParser.KeyValueSplit | podproxy.py:62-67 | an attribute item yields a key/value pair iff it contains `=` |
| EventParser.KeyValueParts | podproxy.py:62-64 | the key is the text before the first `=`, and the value is the text from there to the next `=` or the end, so a value holding `=` is cut short |
| EventParser.AttrMap | podproxy.py:64 | the dict comprehension's keys are exactly the pairs' keys, and each key maps to the value of its last pair (last one wins) |
| EventParser.ParseAttributesSpec | podproxy.py:61-67 | the attribute list gives `None` iff some `", "`-separated item lacks `=` |
| EventParser.ParseEventAttributes | podproxy.py:69-76 | once the filters, the timestamp and the attributes pass: a 6-token preamble raises at token 6, a missing `name` or `image` raises, and otherwise the event carries their values and `app` is `None` iff absent |
| EventParser.LineParts | podproxy.py:40-61 | for a line `pre (body)` whose preamble has no `(`, the preamble slice is `pre` and the attribute slice is `body` |
| EventParser.AttributesRoundTrip | podproxy.py:61-67 | a printed attribute list parses back to the dict of its pairs |
| EventParser.ParseFormatted | podproxy.py:39-76 | a line printed from well-formed tokens and attributes parses back to exactly the event they describe |
| EventParser.FormattedFilters | podproxy.py:39-52 | on any line in podman's shape, the token-count raises and the kind filters act on the printed tokens; a one-token ISO timestamp leaves four tokens and raises |
| Upstream.HostPorts | podproxy.py:96 | the collected host ports are exactly the `HostPort`s of bindings that are not `None` |
| Upstream.FirstHostPort | podproxy.py:96-98 | the first collected host port is the first binding of the first port entry that has one |
| Upstream.NoHostPorts | podproxy.py:96-97 | no host port is collected iff no port entry has a binding |
| Upstream.PortNumber | podproxy.py:102 | the declared port is the key's prefix before its first `/`, or the whole key |
| Upstream.PortNumberOf | podproxy.py:102 | the key `number/protocol` gives `number` |
| Upstream.DeclaredPorts | podproxy.py:102 | one declared port per port entry, in dict order, each the key's part before `/` (`PortNumber`) |
| Upstream.IsProxyNetworkConnected | podproxy.py:148-152 | defines the membership test of the `podproxy` network in the container's networks; `ResolveUnpublished` states its effect |
| Upstream.FirstAliasIn | podproxy.py:142-144 | the index of the first alias that is a substring of the id; no earlier alias is one; -1 when none is |
| Upstream.GetUpstream | podproxy.py:132-146 | the hostname when it is an alias; else the first alias inside the id; else `aliases[0]`; the result is always an alias, and an empty list raises |
| Upstream.Resolve | podproxy.py:95-114 | defines the port and upstream `update_configs` settles on, no route, or `aliases[0]`'s exception; `ResolvePublished` and `ResolveUnpublished` prove each branch |
| Upstream.ResolvePublished | podproxy.py:95-98 | with a published port, the container is reached at `HOST_IP` on the first host port |
| Upstream.ResolveUnpublished | podproxy.py:100-114 | without one: no ports, or not on the proxy network, gives no route; otherwise the first declared port at an alias (the hostname if it is one); no aliases raises |
| Upstream.PublishedScenario | podproxy.py:95-98 | port 80 published as 8080 is reached at the host address on 8080 |
| Upstream.AliasScenario | podproxy.py:100-146 | a container declaring `3000/tcp` on the proxy network with aliases `web2`, `x1y2` and hostname `web2` is reached at `web2:3000` |
| Routing.Consistent | podproxy.py:124-130 | defines the invariant: a hostname has a config iff its claiming set is non-empty, each config is keyed by its own hostname, every recorded name points at a hostname with a set, and every claimant is recorded; kept by `UpdatePreservesConsistent` and `RemovePreservesConsistent` |
| Routing.Update | podproxy.py:87-130 | defines what `update_configs` leaves in the three dicts, or its exception; `UpdateNoOp`, `UpdateFails`, `UpdateClaims` and `UpdateIdempotent` prove its properties |
| Routing.Remove | podproxy.py:154-177 | defines what `remove_config` leaves in the three dicts, or `set.remove`'s exception; `RemoveUnknown`, `RemoveClaimant`, `RemoveUnclaimed` and `RemoveTwiceFails` prove its properties |
| Routing.UpdateNoOp | podproxy.py:88-110 | the proxy container, a container without ports, and one with only declared ports off the proxy network leave all three dicts unchanged |
| Routing.UpdateFails | podproxy.py:95-146 | `update_configs` raises iff the container is not the proxy, has declared but no published ports, and has an empty alias list on the proxy network; the exception is `aliases[0]`'s |
| Routing.UpdateClaims | podproxy.py:116-130 | a routed container's config replaces its hostname's wholesale, its name points at the hostname, it joins the hostname's set, and every other hostname is untouched |
| Routing.UpdateIdempotent | podproxy.py:116-130 | applying the same metadata twice leaves what applying it once leaves |
| Routing.UpdatePreservesConsistent | podproxy.py:124-130 | `update_configs` keeps the invariant (a hostname has a config iff its set is non-empty, and so on) |
| Routing.RemoveUnknown | podproxy.py:156-157 | removing a name never recorded changes nothing |
| Routing.RemoveClaimant | podproxy.py:159-176 | removing a claimant takes it out of its set; the config stays while others remain and is popped with the last; the name stays recorded |
| Routing.RemoveUnclaimed | podproxy.py:165 | a recorded name missing from its hostname's set raises at `set.remove` |
| Routing.RemoveTwiceFails | podproxy.py:154-177 | removing the same name a second time raises, because `name_to_hostname` is never shrunk |
| Routing.RemovePreservesConsistent | podproxy.py:165-176 | a successful `remove_config` keeps the invariant |
| Routing.RemoveAllPreservesConsistent | podproxy.py:154-177 | any run of successful removals keeps the invariant |
| Routing.DrainSome | podproxy.py:165-176 | removing distinct claimants of one hostname shrinks its set by exactly those names; the config goes iff the set empties |
| Routing.Drain | podproxy.py:165-176 | with N distinct claimants, removing N-1 keeps the config unchanged and removing the N-th deletes it |
| Routing.ReplicasStarted | podproxy.py:116-130 | two replicas sharing a hostname, started in turn, are both recorded, and the config is the second one's |
| Routing.Replicas | podproxy.py:116-177 | for two replicas, the config survives the first's removal, goes with the second's, and a repeated removal raises |
| Routing.RoutingTable.constructor | podproxy.py:33-35 | the three dicts start empty, which satisfies the invariant |
| Routing.RoutingTable.UpdateConfigs | podproxy.py:87-130 | the in-place updates leave the dicts `Update` describes, or raise with the dicts untouched; the invariant is kept |
| Routing.RoutingTable.RemoveConfig | podproxy.py:154-177 | the in-place removal leaves the dicts `Remove` describes, or raises with the dicts untouched; the invariant is kept |
| Reconcile.UpstreamKeyInjective | podproxy.py:183 | distinct hostnames get distinct `"upstream " + hostname` keys, none equal to `server` |
| Reconcile.Render | podproxy.py:180-191 | defines the `data` dict for a `configs` dict; `RenderContents` and `RenderServerCount` state its contents |
| Reconcile.RenderContents | podproxy.py:180-191 | the data has a server entry exactly for each configured hostname `h`, with `server_name` h, `proxy_pass` `http://h` and `listen [80]`, and for each `h` the address `upstream:port` of its config |
| Reconcile.RenderOfStep | podproxy.py:181-191 | one loop iteration adds that hostname's server entry and its upstream address |
| Reconcile.ServerCount | podproxy.py:181-191 | distinct hostnames give distinct server entries |
| Reconcile.RenderServerCount | podproxy.py:181-191 | there is one server entry per configured hostname |
| Reconcile.BuildSnapshot | podproxy.py:179-191 | the loop over the configs builds exactly the data for them |
| Reconcile.Dispatch | podproxy.py:317-325 | defines the dispatch: a container `died` event removes the claim, an empty inspection removes it, otherwise the first record is applied; `StepDied` and `StepOther` state it |
| Reconcile.ParseLine | podproxy.py:312 | defines `main`'s line parser, `parse_event` of the stripped line; `ParseLineShape` states what it returns |
| Reconcile.Step | podproxy.py:312-328 | defines one loop iteration's effect on the table; `StepNoEvent`, `StepDied`, `StepOther` and `StepPreservesConsistent` prove its properties |
| Reconcile.ParseLineShape | podproxy.py:312 | every event `main` gets from a stripped line is a container `start` or `died` event |
| Reconcile.StepNoEvent | podproxy.py:312-315 | a discarded line leaves the table alone, and a line whose parse raises stops the loop with that exception |
| Reconcile.StepDied | podproxy.py:317-318 | a container `died` event removes the container's claim, whatever inspection says |
| Reconcile.StepOther | podproxy.py:319-325 | any other event re-inspects: an empty result removes the claim, otherwise the first record is applied |
| Reconcile.StepPreservesConsistent | podproxy.py:317-325 | a handled event keeps the invariant |
| Reconcile.StartThenDied | podproxy.py:317-325 | a container that starts alone on its hostname gets a config, and its death removes it |
| Reconcile.HandleLine | podproxy.py:312-328 | a discarded line changes nothing and reloads nothing; a handled line changes the dicts as one step says and reloads once with exactly the data for the new configs; an exception stops with the dicts unchanged |
| Reconcile.Replay | podproxy.py:310-328 | defines the loop over the lines: the reloaded tables, the stopping exception and the last table; `ReplayPreservesConsistent`, `ReplayDiscarded` and `ReplayFrom` prove its properties |
| Reconcile.ReplayPreservesConsistent | podproxy.py:310-328 | every table the loop reloads with, and the last, keeps the invariant, with at most one reload per line |
| Reconcile.ReplayDiscarded | podproxy.py:312-315 | lines that are all discarded leave the table alone and reload nothing |
| Reconcile.ReplayFrom | podproxy.py:310-328 | the loop from line i on is one step followed by the loop from line i+1 on |
| Reconcile.Listen | podproxy.py:310-328 | the loop ends with the table and exception the replay gives, and reloads once per handled line, each time with the data for that line's configs |
| Reconcile.UpdateKeepsRecorded | podproxy.py:124-130 | an update never forgets a recorded claim |
| Reconcile.Sync | podproxy.py:214-216 | defines the bootstrap fold of `update_configs` over the inspection results, stopping at the first exception; `SyncServesEvery` and `SyncKeepsRecorded` prove its properties |
| Reconcile.SyncServesEvery | podproxy.py:214-216 | bootstrap keeps the invariant; when it completes, every routable container it inspected is recorded and its hostname has a config |
| Reconcile.SyncKeepsRecorded | podproxy.py:214-216 | a completed bootstrap keeps every claim recorded before it |
| Reconcile.Bootstrap | podproxy.py:214-216 | the in-place fold leaves the table the bootstrap fold describes, and stops at the first exception (an empty inspection raises) |
| Reconcile.Run | podproxy.py:299-328 | `main` bootstraps from empty dicts, reloads once with the data for the bootstrapped configs, then once per handled line with that line's data, and ends with the loop's exception |

## Left out

- Process I/O: `podman inspect`, `ps`, `events`, `exec … nginx -s reload`,
  `run`/`start`/`rm` and `network exists/create`
  (podproxy.py:78-85, 200-285, 308). Inspection results and event lines
  are inputs.
- `start_proxy`, `create_proxy` and `create_proxy_network` (podproxy.py:218-285).
  They set up infrastructure through the CLI and hold no routing logic.
- Rendering the Jinja template and writing `CONFIG_FILE` (podproxy.py:192-198).
  The model stops at the `data` dict, and a reload is the hand-back of
  that data.
- `json.loads`, `print`/`pprint` and argument handling (podproxy.py:287-297, 330-335).
- `line.decode()` (podproxy.py:312): lines are already text.
- `datetime.fromisoformat` (podproxy.py:55-56) is the parameter `fromIso`.
  The `DateTime` it returns is opaque to the model.
- Missing keys in `podman inspect` output (`Name`, `Config.Hostname`,
  `HostPort` and the others) would raise `KeyError`. `ContainerInfo` always
  has them, so that `KeyError` is not modelled.
- `get_containers` (podproxy.py:206-216) splits the output of `ps -q` into
  names, and an empty output gives one empty name. The model starts from
  the list of inspection results. An empty result raises at
  `container_info[0]` as `NotInspected`, which covers that case.
- BuildSnapshot: the `server` list follows the insertion order of
  `configs`, which the model does not keep. `Snapshot.servers` is a set,
  and `RenderServerCount` shows it has one entry per hostname, so only the
  order is lost.
- BuildSnapshot: the `data` dict keys each address by
  `"upstream " + hostname`. `Snapshot.upstreams` keys it by the hostname
  itself. `UpstreamKeyInjective` shows the two keyings carry the same
  information and never collide with `server`.
- Listen, HandleLine and Run take the line parser as a parameter `parse`.
  `main` uses `ParseLine` (strip, then `parse_event`), and
  `ParseLineShape` states what that parser returns. Their contracts hold
  for every parser, including this one.
- Concurrency between the event stream and podman's state is not
  modelled. Each line's inspection result is whatever podman reports
  when that line is handled.
- The preamble is split on single spaces (podproxy.py:43), so two
  adjacent spaces give an empty token.
- A line whose timestamp is a single ISO-8601 token has only four
  single-space tokens before `(`, so `event_info_list[4]` raises
  `IndexError` (podproxy.py:45); `FormattedFilters` states it.
