# A verified model of singbox-panel

singbox-panel keeps users, nodes, access rows and inbounds in one SQLite database,
generates a sing-box configuration per node from them, and pushes it over SSH. This
project models that panel in Dafny 4.11 and proves what its handlers, generators and
pollers promise. `dafny verify dfyconfig.toml` checks everything.

## What is modelled

**Edits, pushes and rollbacks.** `tables.dfy` holds the database and its statements,
`generator.dfy` the configuration made from it; `writes.dfy` and `serverconfig.dfy` say what
the one and the other come to, row by row and field by field. `protocol.dfy` is a machine over the
steps of any number of concurrent requests: every database read, database write and push
is a step, `generateConfig` is three separate reads under the node's push lock, and a push
may fail whenever it likes, in each of the ways the deploy script can. `outcome.dfy` lists
these once, for file and service: nothing happened, the new or a torn file was left without
a restart, everything landed all the same, the service fell back to the file as it was
before, or it is down. `views.dfy` and `agreement.dfy` prove the invariant that carries
agreement between tables and nodes through every interleaving, `marks.dfy` what its marks mean, `targets.dfy` what a Reality
switch changes in a configuration; `undo.dfy` proves that compensating writes undo.
`stores.dfy` and `panel.dfy` are the same handlers as imperative methods over a `Database`
object, one request at a time, with every push they make. `deploy.dfy` runs the two scripts that change a node command
by command.

**Auto-setup.** `setup.dfy` is the loop over protocols with its compensation log, over
anything the node, DNS, the certificate authority and the database answer; `identity.dfy` the settings it writes and the client
secrets it keeps; `ports.dfy` the choice of listening ports.

**Subscriptions.** `links.dfy` builds share links and Clash proxies and reads both as
endpoints, `names.dfy` names them, `endpoints.dfy` says which inbounds are offered and how
each is reached, `subscription.dfy` compares them with the server configuration.

**Traffic.** `wire.dfy` and `statscodec.dfy` are the protobuf decoder (Protocol Buffers
Encoding, "Base 128 Varints" and "Message Structure") and `refusals.dfy` what it refuses,
`statnames.dfy` the attribution of stats to users, `ledger.dfy` the polls as a machine and
`attribution.dfy` whose traffic it carries, `reset.dfy` the lazy monthly reset,
`calendar.dfy`, `usage.dfy`, `usageanswers.dfy` and `charts.dfy` the calendar, the usage
queries and the chart tables. `sshpool.dfy` is the connection pool as a machine,
`sshanswers.dfy` where its answers come from.

## What the proofs found

- A Reality target switch (`handler/reality.go:196-219`) reverts its settings without a
  second push. The node can keep serving the new target while the tables hold the old one
  and no answer says so, in three ways: another request's push landed in between
  (`RealitySwitch.RevertLeavesSwitch`), the switch's own push landed and its answer was lost
  (`RealitySwitch.LostAnswerLeavesSwitch`, `RealitySwitch.RevertCanDisagree`), or it left
  the new file without a restart and a later failed switch fell back to that file
  (`RealitySwitch.FallBackLeavesSwitch`). If the push left the service down, nothing starts
  it again. `Agreement.QuietDisagreesIff` shows that this is all: at rest, a node that no
  answer reported disagrees if and only if a failed switch left its service down, or a
  switch was reverted after the rows it serves were read, or fell back to, and an enabled
  Reality inbound among them has another target than the one stored now. Any later push
  that lands ends it.
- `get` in `handler/sshpool.go:78-85` replaces an entry dialled for another target without
  closing its client. `SshPool.LostIff` shows that this is the only way a client is lost,
  `SshPool.LeakIsReachable` that two gets around an edit of a node's address reach it.
- A user is served a subscription the node does not accept exactly in the second of the
  user's expiry, or with a negative limit that is used up (`model/user.go:339-353` against
  `model/access.go:93-106`): `Subscription.ActiveButNotEligible`. The node's configuration
  uses only the domain stored in the settings, while links fall back to the node's domain:
  `Subscription.AcceptedIff`.
- A user's traffic is attributed only if the name contains no `>>>` and does not end in
  `>`: `StatNames.ParseBuilt`.
- The rollback of a user edit loses a new note and nothing else: `Rollback.EditRollbackExact`.
- A stored Reality row with half a key pair and an unchanged port, target and address is
  reported as configured, and the key pair just generated for it is dropped
  (`handler/setup.go:339-381`): `Setup.HalfKeyIsSkipped`. `Setup.KeyedIff` shows that the
  row has credentials after a successful run if and only if it was absent or had them, or
  port, target or address changed.
- A traffic reset that is rolled back writes the counters back that it read before it
  began (`handler/user.go:207-231`, `model/user.go:303-307`) and so loses what polls
  credited in between: `Ledger.RestoreCanLose`. The loss is exactly those credits
  (`Ledger.RestoreLoses`), and the counters match the ledger if and only if there were none
  (`Ledger.BalancedIff`).
- A failed push does not always leave the old configuration served. From a node that serves
  what is in its file it does if and only if a command before the restart failed, or the
  restart failed and copying back and restarting worked; the new configuration is served
  after a reported failure if and only if only the last clean-up failed or the answer was
  lost: `NodeScripts.ConfigHost.Push`. A push that fails between the copy and the restart
  leaves file and service apart (`PushOutcome.OrderKeptIff`). From then on restoring the
  previous file serves the candidate of that earlier failed push, which never ran before
  (`PushOutcome.FallBackServes`).
- A failed upgrade leaves the new binary in place, though the script says it restored the
  previous one, if there was none; and also if moving it back failed, or if only the last
  look at the version did: `NodeScripts.BinaryHost.Install`.
- A chart series named "day" overwrites the day of every point (`web/src/usage.ts:56-60`):
  `Charts.StackByDay`.

## Reading the theorems

`EditProtocol.IsRun` is any finite run that starts with nothing in flight. Its one
hypothesis on callers is that no two requests in flight edit the same user. Tables are
maps from row id to row. `now` is fixed during a run, as are traffic counters except where
a request resets them. `Panel.Panel.Good` is what the schema keeps true. `Panel.Told` ties
an answer to the pushes that were made, as `Setup.Pushed` does for auto-setup.

## Model

| member | source | states |
|---|---|---|
| Agreement.QuietNodesAgree | handler/config.go:136-206 | In every interleaving of user, access and inbound edits, once nothing is in flight each node agrees with the tables, unless since its last landed push a failed restore named it, a Reality switch was reverted on it, or a failed switch left its service down |
| Agreement.QuietDisagreesIff | handler/reality.go:196-219 | A node nothing reported disagrees at rest if and only if a failed switch left its service down, or a switch was reverted after the rows it serves were read, or since it fell back to them, and some enabled Reality inbound among them has another target than is stored |
| RealityTargets.RendersAlikeIff | singbox/generator.go:154-188 | Rows that are the same up to Reality targets make the same configuration if and only if no enabled Reality inbound has another target |
| Agreement.RunKeepsInv | handler/user.go:80-244 | At every step of every interleaving, a node out of agreement is owed a push by a request in flight, is being pushed, or was reported (or, for Reality targets and stopped services only, is left by a failed switch); the same holds of what is in its file; and what a push has read is current unless another push follows. Failed pushes come to any of the outcomes of the deploy script |
| Agreement.NoOrphanCredential | handler/user.go:146-198 | At every step of every interleaving, a node no failed restore names carries no credential of a user whose row is gone, neither in the configuration served nor in the file |
| Marks.ReportedMeans | handler/user.go:127-139 | A node counts as reported only because the answer of a request names it, with no push confirmed since; or it was out of agreement from the start, and none ever was |
| Marks.RevertedMeans | handler/reality.go:207-219 | It counts as reverted only because a failed switch on it took its settings back, and every configuration it took over since was made from rows read before that |
| Marks.StoppedMeans | handler/reality.go:207-219 | It counts as stopped only because the failed push of a switch left its service down, and nothing has started it since |
| EditProtocol.EffectIsOutcome | handler/config.go:322-380 | A failed push of the machine does to the node's file and service what that outcome of the deploy script does |
| PushOutcome.OrderIff | handler/config.go:346-380 | After a failed push, service and file go together if and only if it landed, did nothing to a node where they did, fell back to a whole file, or left in the file what is served already |
| PushOutcome.OrderKeptIff | handler/config.go:346-380 | A failed push keeps file and service together if and only if it did nothing, landed or fell back; the old configuration stays served if and only if the service was not restarted or fell back |
| PushOutcome.FallBackServes | handler/config.go:346-380 | After any series of pushes, a fall-back serves the candidate of the last push that touched the file, even if that push failed before the restart |
| Agreement.DeletionFindsRow | model/user.go:249-273 | When a deletion comes to remove its row, the row is there and no node may use it any more |
| Views.WriteReachesTargets | handler/user.go:122-126 | A first write changes the generated configuration of no node outside the set the handler pushes to |
| Views.RevertReachesTargets | handler/user.go:127-139 | Nor does the compensating write, whatever other requests did in between |
| Writes.AccessEditIs | model/access.go:13-70 | Grant, grant all, revoke, revoke all and replace, pair by pair: which pairs of user and node there are afterwards, those of other users untouched, and exactly when the edit is refused |
| Writes.UserEditIs | model/user.go:164-242 | An edit stores each field that was sent and no other, replaces the access list if one was sent, and is refused exactly for an unknown user or node or a name that is taken |
| Writes.UserRemovalIs | model/user.go:249-273 | A removal takes the row and its access, and nothing else |
| Writes.RestoreIs | model/user.go:303-307 | Restoring traffic writes back the three counters and the day of the last reset, for that user only |
| Writes.ReorderingIs | model/node.go:396-416 | Each row that is named takes the order its last item gives it and nothing else changes; refused exactly when an item names a row that is not on the node |
| Writes.SwitchIs | handler/reality.go:175-195 | A target switch rewrites sni and handshake_server and no other setting |
| RealitySwitch.RevertCanDisagree | handler/reality.go:196-219 | A run of a single request after which nothing is in flight, nothing was reported, and the node serves a Reality target the tables do not hold |
| RealitySwitch.LostAnswerLeavesSwitch | handler/reality.go:207-219 | From any state at rest, a switch whose push landed but reported failure ends with the old tables and the switched configuration |
| RealitySwitch.RevertLeavesSwitch | handler/reality.go:175-219 | So does one whose push did nothing, after another request pushed the node in between |
| RealitySwitch.FallBackLeavesSwitch | handler/reality.go:196-219 | So do two failed switches with nothing in between, the first having left its file without a restart and the second having fallen back to it |
| RealitySwitch.EndedDisagreesIff | singbox/generator.go:154-188 | There the node disagrees if and only if the switched inbound is enabled |
| Rollback.RevertUndoesWrite | handler/user.go:258-272 | With nothing in between, each request's compensating write gives back the tables, ids and order included, except the id counter and an edit's note |
| Rollback.EditRollbackExact | handler/user.go:258-272 | The rollback of a user edit is exact if and only if the edit sent no note or the old one |
| Rollback.OrdersRestored | handler/node.go:353-379 | Writing the old order of all inbounds of a node undoes any reordering |
| Generator.KeepingAllowedIsListing | handler/config.go:136-161 | Filtering the ordered enabled users by the allowed ids lists exactly the node's roster, in id order |
| Generator.BuildInbounds | singbox/generator.go:74-111 | The loop with its set of used tags builds the specified inbounds; what those are is ServerConfig.GeneratedIs |
| ServerConfig.GeneratedIs | singbox/generator.go:25-186 | The configuration of a node has one inbound for each switched-on row of a known protocol, in the order of the panel, with the port, the tag (with the port when an earlier row took it), the settings or their defaults, and exactly the users that have access, are enabled, not expired and below their limit, by id; traffic is counted for each of these inbounds and users, if there are any |
| ServerConfig.BuiltDescribes | singbox/generator.go:113-186 | Each field of an inbound is the stored setting it is named after, or its default |
| Generator.RenderCarriesRoster | singbox/generator.go:25-62 | A configuration carries no credential outside the roster it was made from |
| Stores.Database.UpdateWithAccess | model/user.go:164-203 | The transaction updates the row and replaces the access rows, or changes nothing |
| Stores.Database.ApplyUserUpdate | model/user.go:205-242 | One statement per field that was sent; a taken name is refused |
| Stores.Database.Replace | model/access.go:40-70 | Unknown users and nodes are refused; otherwise the user's access is the positive ids of the list |
| Stores.Database.ReorderInbounds | model/node.go:396-416 | All orders are written or none |
| Stores.UniqueSortedIds | model/access.go:139-154 | The positive ids of a list, each once, ascending |
| Panel.ChangedIds | handler/sync.go:30-52 | The ids in exactly one of two lists, ascending |
| Panel.UnionIds | handler/sync.go:13-28 | The positive ids of both lists, ascending |
| Panel.Panel.GenerateConfig | handler/config.go:136-161 | The two user queries, the filter and the inbound query give the configuration that ServerConfig.GeneratedIs describes |
| Panel.Panel.SyncNodes | handler/config.go:166-206 | Every requested node that can be pushed is pushed once, in ascending order, and the others are reported; a node runs the configuration of the current tables and has it in its file, or its push failed, and file and service are as that outcome leaves them: a fall-back serves what the file held before |
| Panel.Panel.Complete | handler/user.go:122-144 | The shared tail: saved if all pushes of one round worked, rolled back if one did not and all of a second round did, and otherwise naming the nodes that failed again; after any answer every target and every node that agreed before agrees, or is named |
| Panel.Panel.UpdateUser | handler/user.go:80-144 | Saved stores exactly the fields sent; rolled back restores every field but the note, and the access list; exactly the nodes concerned are pushed, and agree after either answer; not found and refused exactly when user, name or nodes are wrong |
| Panel.Panel.DeleteUser | handler/user.go:146-198 | Saved removes the row, its access and nothing else; any other answer leaves the tables equal; the nodes of the user are pushed and agree |
| Panel.Panel.ResetTraffic | handler/user.go:200-244 | Saved clears the three counters of that user; rolled back restores them; the nodes of the user are pushed and agree |
| Panel.Panel.ChangeAccess | handler/auth.go:282-408 | Grant, revoke and replace, pair by pair: stored and pushed to exactly the nodes gained or lost, or the tables equal; refused exactly for an unknown user or node or an id that is not positive |
| Panel.Panel.AddInbound | handler/node.go:171-262 | The row with these fields is stored under the next id and its node pushed, or the tables are equal except the id counter |
| Panel.Panel.RemoveInbound | handler/node.go:264-310 | Removed and pushed, or the row is back under its id |
| Panel.Panel.ReorderInbounds | handler/node.go:329-381 | Each named row has its new order and the node is pushed, or the old order is back |
| Panel.Panel.RetargetReality | handler/reality.go:175-228 | One request at a time, exactly the two target settings are rewritten; a failed push returns them, and the node then agrees if and only if it agreed and its service was left alone, or the push landed on a disabled inbound, or the node fell back to a file that holds what the tables make; no identity changes |
| Panel.Panel.DeleteNode | handler/node.go:130-169 | Refused exactly while the node has an inbound or a user or is no sing-box node; a node row disappears only after the node was pushed a configuration without inbounds; otherwise the tables stay equal, and an agreeing node agrees still unless its failed push left the service down or on what its file held before |
| NodeScripts.ConfigHost.Deploy | handler/config.go:346-380 | For every set of failing commands, from any state of the node: the exit status, the configuration served and the contents of the file |
| NodeScripts.ConfigHost.Push | handler/config.go:322-344 | From any state of the node, what is served and what is in the file; exactly which failing commands leave the old configuration served and exactly which the new one behind a reported failure, when the node served its file; and exactly when something else than old, new or nothing is served |
| NodeScripts.BinaryHost.Install | handler/install.go:14-53 | For every set of failing commands: when the upgrade succeeds, which binary is installed and which is running; a failed upgrade leaves the new binary if and only if it was moved into place and could not be moved back, had no predecessor, or only the last look at the version failed |
| Setup.HandleAutoSetup | handler/setup.go:83-526 | All or nothing: refused exactly for a request that is not valid or a node that does not answer; when the answers of the outside world suffice and the writes work, the node is pushed, and done if that works; when they do not suffice, nothing is pushed. Unless the rollback itself failed, every other answer leaves rows and domain equal; done means the pushed configuration came from rows that meet the request, with addresses, certificates and handshake settings of this node and domain unless a row was found that met it already; no stored identity is lost in any case |
| Setup.Run.RollbackDatabase | handler/setup.go:202-225 | If every rollback write succeeds, rows and domain are those at the start, even after updates that failed once they had taken effect |
| Setup.Run.SetupAll | handler/setup.go:230-479 | Without an error every protocol has a row that meets the request, whatever failed earlier or later in the loop |
| Setup.Run.SetupReality | handler/setup.go:315-409 | The row ends with the planned port, target and address: the port requested or else picked, the target requested, stored and passing its probe or else probed, the domain if it leads to the node and else the host; it meets the request and keeps its identity |
| Setup.KeyedIff | handler/setup.go:329-381 | Those settings have a key pair and a short id if and only if the stored row was absent or had them, or the skip guard failed |
| Setup.HalfKeyIsSkipped | handler/setup.go:339-381 | A stored row without public key that is skipped, for any generated keys |
| Setup.Run.SetupHttpUpgrade | handler/setup.go:411-474 | The written row meets the request and listens on the port requested, its own or 443, which is reserved for the rest of the run; an unchanged row is left alone |
| Setup.Run.SetupHysteria | handler/setup.go:234-313 | The row meets the request: domain, certificate files, profile and, with Salamander, a password; a port that was not requested is the one picked; done exactly when DNS, certificate and the write allow |
| Setup.StoredForIs | handler/setup.go:181-189 | The row a run goes on with is the last of its protocol in the order of the panel |
| Setup.UndoneUpdate | handler/setup.go:204-225 | Writing a logged row back restores it whatever was written since, and the rest of the log still undoes the rest |
| Setup.NextProtocol | handler/setup.go:230-479 | A protocol's write leaves the rows of all other protocols and what they already serve |
| Setup.RealityKeepsIdentity | handler/setup.go:329-387 | The settings written for Reality keep a stored complete key pair and short id, and hold a complete pair and a short id |
| Identity.HysteriaKeepsIdentity | handler/setup.go:542-561 | The Salamander password survives profile switches and domain moves, stays in force while the profile does, and no setting but the five of Hysteria changes |
| Identity.ProfileRoundTrip | handler/setup.go:555-560 | Switching to QUIC and back gives the issued password |
| Identity.KeptOverRuns | handler/setup.go:317-387 | Identity kept by each of a series of changes is kept by all of them together |
| Setup.RewriteAll | handler/setup.go:83-526 | After any run of auto-setups and target switches, whatever each of them answered, every inbound is still there and no stored secret changed between any two moments of it |
| Identity.RetargetKeepsIdentity | handler/reality.go:175-195 | A target switch changes no identity |
| Ports.PickListenPort | handler/setup.go:597-617 | The first conventional port free for this inbound; else the current port; else random |
| Ports.NeverWorse | handler/setup.go:576-617 | With a working probe a free conventional port is never traded for one of lower preference |
| Ports.NoRepeats | handler/setup.go:589-595 | Calls sharing reservations hand out no port twice, outside the random fallback |
| Ports.RerunIsStable | handler/setup.go:578-581 | Once the node listens on the chosen port, choosing again gives it again, unless a random port hit a reservation |
| Links.SameEndpoints | singbox/generator.go:223-320 | Share links and Clash proxies list the same endpoints in the same order |
| Endpoints.LinkIs | singbox/generator.go:271-320 | A link dials the stored address or the one of the node, with the settings of the row or their defaults, spelled with the parameter names of its scheme; there is one exactly when there is something to dial |
| Endpoints.SubscriptionIs | handler/subscription.go:47-96 | A subscription, in either format, offers exactly the switched-on usable inbounds of the switched-on nodes, node by node and row by row |
| Endpoints.NamesAre | singbox/generator.go:242-252 | A name is node, kind and from the second on a number: links are numbered among the links of their kind, proxies among the switched-on rows of it |
| Endpoints.ServedIs | handler/subscription.go:47-68 | Exactly the switched-on nodes open to the user are served, in the order of the listing, with all their rows by place and id |
| Links.GenerateClashConfig | singbox/clash.go:11-32 | The loops produce the specified proxies, with names numbered per node |
| Links.GenerateSubscription | singbox/generator.go:223-269 | The loops produce the specified links |
| Links.NamesDistinct | singbox/clash.go:11-75 | Over nodes with distinct names, all proxy names of a Clash file differ from each other and from Proxy, Auto and DIRECT |
| ProxyNames.LabelBack | singbox/clash.go:65-75 | The node name, the protocol and the counter can be read back from any proxy name, dashes in node names included |
| ProxyNames.DecimalBack | singbox/generator.go:246-252 | A decimal numeral is made of digits and has its value |
| ProxyNames.Tracker.Next | singbox/generator.go:246-252 | The n-th request for a base gets the base, or the base and the number n |
| Subscription.ActiveButNotEligible | model/user.go:339-353 | An active user is missing from the generator's queries exactly at the expiry second or with a used-up negative limit |
| Subscription.AcceptedIff | singbox/generator.go:113-320 | The inbound of a row accepts the link of that row if and only if the user is eligible and the row stores its domain or matching key pair |
| Subscription.EveryLinkAccepted | handler/subscription.go:34-96 | Every endpoint served, in either format, is accepted by the configuration of its node generated at that instant |
| Subscription.EveryInboundLinked | handler/subscription.go:47-68 | Every usable inbound of an enabled accessible node is served |
| Subscription.ServedNamesDistinct | db/db.go:58-60 | The file served to a user has distinct proxy names |
| Subscription.Serve | handler/subscription.go:22-68 | The monthly reset comes first; then an answer is given exactly to an enabled user that is not expired and below a positive limit, and holds the nodes that Endpoints.ServedIs describes |
| StatsCodec.ResponseBack | handler/v2raystats.go:130-197 | Any list of stats, 64-bit values included, with well-formed unknown fields between and inside them, decodes to exactly that list |
| StatsCodec.ResponseConcat | handler/v2raystats.go:130-162 | Decodable inputs concatenate, and their lists with them |
| StatsCodec.PlainStatBack | handler/v2raystats_test.go:11-21 | The plain encoding of one stat decodes to it |
| StatsCodec.Unmarshal | handler/v2raystats.go:130-162 | The loop over the buffer terminates and computes the specified decoding, errors included |
| StatsCodec.ParseStat | handler/v2raystats.go:165-197 | The same for a nested stat |
| Wire.VarintBack | handler/v2raystats.go:130-197 | Consuming an appended varint gives its value back and stops right behind it |
| Wire.SkipBack | handler/v2raystats.go:142-149 | Skipping a well-formed field, groups included, consumes exactly its bytes |
| Refusals.VarintIff | handler/v2raystats.go:130-197 | A varint is read exactly when its bytes come first: seven bits each, lowest first, ten at most; Refusals.VarintRefusedIff says when it is refused |
| Refusals.VarintRefusedIff | handler/v2raystats.go:130-197 | Refused as truncated exactly when the bytes end inside it, and as an overflow exactly when it exceeds 64 bits |
| Refusals.BytesIff | handler/v2raystats.go:142-149 | A length-delimited value is read exactly when its length and that many bytes come first |
| Refusals.CutIff | handler/v2raystats.go:130-162 | A response that is cut short decodes if and only if it is cut between two of its fields |
| Refusals.BadFieldRefuses | handler/v2raystats.go:130-162 | One bad field refuses the response with its error, whatever came before it |
| StatNames.ParseBuilt | handler/v2raystats.go:82-91 | Parsing a built name gives user and kind back if and only if the user name has no separator and does not end in '>' |
| StatNames.ParsedIsBuilt | handler/v2raystats.go:82-91 | Whatever is read as a user's statistic is the name of that user and kind, with no separator in either; nothing else is ever taken for one |
| StatNames.SumsAreTotals | handler/v2raystats.go:58-73 | Every byte reported for a user is in that user's entry once, and there is no other entry |
| StatNames.SumStats | handler/v2raystats.go:58-73 | The summing loop computes that map |
| SshPool.ExactlyOnePlace | handler/sshpool.go:51-114 | With one target per node, in every interleaving each dialled client is in exactly one of pooled, held by a call, or closed once; at most one is pooled per node |
| SshPool.GetReturnsItsTarget | handler/sshpool.go:51-88 | With any mix of targets, get returns only a client dialled for the node and target it was asked for |
| SshAnswers.AnswersAreSourced | handler/sshpool.go:51-88 | In every interleaving, an answer is a client that the call read from the pool for its target and then found alive, one it dialled, or one stored for its target when it came to store its own |
| SshAnswers.BadProbeDiscards | handler/sshpool.go:59-66 | After a dead or outdated client, the next step of the call takes out of the pool what it then holds for the node, and closes it |
| SshAnswers.BadProbeRedials | handler/sshpool.go:59-85 | After that the call answers only with a client it dialled, or found stored, since |
| SshAnswers.LiveClientIsReused | handler/sshpool.go:51-63 | A pooled client of the right target is handed out if and only if its probe succeeds, with no dialling in between |
| SshAnswers.DropRemoves | handler/sshpool.go:91-114 | Dropping a node or closing the pool empties exactly the entries concerned and closes their clients |
| SshPool.NeverClosedTwice | handler/sshpool.go:91-114 | No client is closed twice, nor while it is pooled |
| SshPool.LostIff | handler/sshpool.go:78-85 | A step loses a client if and only if it overwrites an entry dialled for another target |
| SshPool.LeakIsReachable | handler/sshpool.go:74-85 | A run that loses a client |
| Ledger.RunConserves | handler/traffic.go:163-203 | At every step of interleaved polls, edits, resets and prunes, each counted byte is on the node, in flight, discarded, or recorded; and a user's counters plus what resets cleared and restores lost are what was credited, with used equal to up plus down |
| Attribution.EveryParcelIsRead | handler/traffic.go:90-191 | Every parcel, wherever it is, has the owner that the copy of the user table of its own poll gave its name |
| Attribution.OwnersHadTheName | handler/traffic.go:90-101 | That owner had this name when the poll began; and without an owner, nobody had |
| Attribution.TrafficReachesItsUser | handler/traffic.go:163-203 | For a user that keeps its name: of the bytes a node counted for the name, exactly those neither still there, nor on the way, nor discarded were credited to the user, and to nobody else |
| Attribution.Reasons | handler/traffic.go:163-203 | Only parcels without owner, empty ones and lost replies are discarded |
| Attribution.DeletionTakes | model/user.go:249-273 | Deleting a user or a node takes exactly its rows out of the ledger |
| Ledger.NothingIsLost | handler/traffic.go:123-203 | Between polls each byte a node counted for a name is still there, was discarded, or is recorded |
| Ledger.CountersMatchLedger | model/user.go:294-307 | And each user's counters since the last reset are what the ledger recorded, short of exactly what restores wrote over |
| Ledger.RestoreLoses | handler/user.go:207-231 | After the restore of a failed reset the user's counters, and what was cleared, are what they were when the reset read them, while the credits have grown by exactly what polls brought since: that much is lost |
| Ledger.BalancedIff | model/user.go:303-307 | After a restore the counters match the ledger if and only if no poll credited the user since the reset read it |
| Ledger.RestoreCanLose | handler/user.go:207-231 | A run in which a restore loses bytes, for any clean user name and any positive count |
| Ledger.PollTakesAll | handler/v2raystats.go:58-73 | One poll carries away exactly what the node had counted, name by name |
| MonthlyReset.ResetDateIsLatest | model/user.go:317-327 | The computed date is the latest reset day not after now, across the turn of the year |
| MonthlyReset.CheckTrafficReset | model/user.go:317-337 | The check clears row and copy exactly when the stored date lies before that day |
| MonthlyReset.StoredDate | model/user.go:327-336 | After any run of checks and traffic the stored date is that of the last check, unless a later one was stored at the start |
| MonthlyReset.FirstCheckClears | model/user.go:317-337 | The first check of all clears if and only if the stored date lies before the reset date |
| MonthlyReset.ClearsOncePerPeriod | model/user.go:317-337 | After that counters are cleared exactly at the first check of each period, and the stored date never goes back |
| MonthlyReset.CountersOfPeriod | model/user.go:294-337 | The counters are the traffic of the current period |
| Calendar.TextOrder | model/traffic.go:22 | Day texts compare the way their days do |
| Calendar.TextIs | model/user.go:327 | A day is written as four digits, two and two, with dashes between |
| Calendar.DayOrder | handler/stats.go:202-208 | Day numbers follow the Gregorian calendar: ordered like the days, one per day |
| Usage.PruneIsInvisible | model/traffic.go:45-57 | A query that starts in the retention window has the same answer before and after a prune |
| Usage.RetentionAdvances | model/traffic.go:37-41 | The window's start never goes back, so later queries start in it too |
| Usage.ParseUsageQuery | handler/stats.go:143-190 | Exactly when each error is answered; otherwise the query lies between retention start and today, with the days asked for, or the default many days, inside that window |
| Usage.RollsUp | model/traffic.go:84-164 | Each row of a grouping is the sum of the rows of any finer grouping that fall into it |
| Usage.EveryRowRollsUp | model/traffic.go:84-164 | And every finer row falls into one |
| Usage.GroupedSums | model/traffic.go:84-164 | The rows of an answer hold exactly the bytes of the samples it is about |
| UsageAnswers.RowsAreSums | model/traffic.go:84-164 | Each row of an answer holds the bytes of exactly the samples between the days of the query, of the user and node it names, in the row's group; one row per group |
| UsageAnswers.EverySampleHasARow | model/traffic.go:84-164 | Every such sample is in a row |
| UsageAnswers.RetentionIs | model/traffic.go:37-41 | The window starts on the first of the month two months back, across the turn of the year |
| UsageAnswers.PruneDropsExactly | model/traffic.go:45-57 | A prune drops exactly the samples of the days before the window, and keeps the others in order |
| Usage.TotalsAreUsage | model/traffic.go:167-183 | Right after a prune the node totals are the usage of the window grouped by node |
| Usage.TrafficStore.NodeTotals | model/traffic.go:167-183 | The loop sums the bytes of every row per node |
| Usage.TrafficStore.Prune | model/traffic.go:45-57 | Drops the samples before the window's first midnight and counts them |
| Charts.DaysBetween | web/src/usage.ts:20-27 | Every day of the range in order, up to the 401 the loop allows |
| Charts.AxisListsOnce | web/src/usage.ts:20-27 | The axis lists each day of its range once |
| Charts.TableKeepsBytes | web/src/usage.ts:40-62 | A stacked table whose days lie on the axis keeps every byte |
| Charts.StackByDay | web/src/usage.ts:40-62 | Every cell is the bytes of its day and series, series are ordered by total, and each point keeps its day if and only if no series is named "day" |
| Charts.AxisKeepsBytes | web/src/usage.ts:65-73 | The two-line chart keeps every byte of either direction |
| Charts.UpDownByDay | web/src/usage.ts:65-73 | Each point is the traffic of its day |

## Left out

- Subscription.EveryLinkAccepted: speaks of the configuration generated at that instant; the monthly reset that a subscription triggers pushes nothing, so the deployed one may be older.
- Setup.HandleAutoSetup: which of the random fallbacks is drawn, and whether a rollback write works, is left open.
- Usage.TrafficStore.Usage: the order of an answer's rows, the names joined to ids and the LIMIT are not modelled.
- Wire: the protowire package is not part of the repository; its rules are taken from Protocol Buffers Encoding.
- Database calls of the edit handlers succeed or are refused by the schema; a connection that breaks is not modelled. In auto-setup every write may fail, except that a created row whose re-read fails (an orphan row) is left out.
- A service that restarts by itself, a reboot say, and comes up on a file that a failed push left.
- Two requests in flight for the same user, node edits (host, proxy type) and the creation of users and nodes are not in the interleaved machine.
- Clock changes during a run, and traffic counted between the reads of one configuration.
- Row ids of user_access, timestamps, passwords and subscription tokens.
- JSON, YAML, URI escaping, base64 and SQL text: the messages they carry are modelled.
- int64 overflow of byte counts; zones with daylight saving time (the panel's clock has a fixed offset).
- statsCodec.Marshal of the query request, gRPC, SSH transport, HTTP routing, bcrypt and JWT.
- HandleTrafficReport (the same two writes as a poll, keyed by name or UUID) and the health log.
- Certificates, kernel tuning, DNS audits, Reality probe parsing and host keys: their outcome is an arbitrary answer to auto-setup.
- Global uniqueness of inbound tags, which the code does not establish.
