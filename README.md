# GovMon monitoring core in Dafny

GovMon is a dashboard for the virtual servers ("VPS") of government offices. It tracks
five kinds of target:

- agents that report their own CPU, memory, disk, network and process figures;
- agentless ICMP-ping targets;
- HTTP sites;
- TCP/UDP ports;
- DNS resolvers.

The backend keeps everything in one in-memory store: targets, metric samples, process
snapshots, alerts and id counters. This project models four parts of it:

- **the store**, with its queries and updates;
- **the probe callbacks**, which turn a checker's result into a sample, a status, an
  edge-triggered down alert and live events;
- **the agent-report and registration handlers**;
- **the dashboard's pure helpers**: the pagination strip and the formatters.

Modules, one concern each:

| file | module | what it holds |
|---|---|---|
| `text.dfy` | `Optional`, `Text` | `Option`; decimal rendering and parsing; ASCII lower-casing; substring search; code-point string order |
| `seqs.dfy` | `Seqs` | filter; stable insertion sort; JavaScript `slice` index rules |
| `schema.dfy` | `Schema` | the records (`Vps`, `VpsPatch`, `Metric` with a per-checker `Reading`, `Process`, `Alert`) |
| `database.dfy` | `Store` | the query functions and the class `Database`, whose methods update the four sequences and the four counters in place and keep `Valid()` |
| `probes.dfy` | `Probes` | the status transition; the ping arithmetic; the class `Server`, whose methods apply one checker result to a `Database` and append broadcasts to an `events` log |
| `api.dfy` | `Api` | the REST handlers as methods that return a status code and a body |
| `components.dfy` | `Components` | pagination, uptime, CPU colour, "time ago", byte and bandwidth units |

The model fixes some representations:

- **Clocks.** A timestamp is an integer millisecond clock value. The current time is a
  parameter `now`.
- **Network results.** A network call is represented by its outcome: `PingOutcome`, a
  status code or an error, `PortOutcome` or `DnsOutcome`.
- **Broadcasts.** A WebSocket broadcast appends an `Event` to `Server.events`.
- **API keys.** The random API key is a parameter of `RegisterVps`.

`Database.Valid()` is the store invariant:

- the ids of samples, processes and alerts are increasing along their lists (hence
  unique) and never above their counter;
- no target has more than 120 samples.

Every state-changing method keeps it. Target ids are outside the invariant: a PUT may
write any `id`, so two targets can come to share one (`PatchCanDuplicateIds`).
`UniqueIds` states uniqueness where a contract depends on it.

Two behaviours of the code are modelled as they are:

- `maintenance` is not sticky. Every probe result and every agent report overwrites it.
- Sustained down results raise one alert, at the first of them (`FiveDownTicks`).

## Model

| member | source | states |
|---|---|---|
| Text.NatToString | public/js/components.js:307-309 | a number is rendered as a non-empty string of decimal digits with no leading zero |
| Text.ParseNat | public/js/components.js:307-309 | parsing succeeds exactly on non-empty digit strings; it is the partner of `NatToString` |
| Text.NatToStringRoundTrip | public/js/components.js:307-309 | parsing the rendered digits gives the number back |
| Text.Lower | server/database.js:76-77 | lower-casing keeps the length and maps every character on its own |
| Text.ContainsWitness | server/database.js:77 | if `includes` holds, the query occurs at some position |
| Text.OccursContains | server/database.js:77 | an occurrence at some position makes `includes` hold |
| Text.StrLeTotal | server/database.js:84 | any two hostnames are comparable in the listing order |
| Text.StrLeTrans | server/database.js:84 | the hostname order is transitive |
| Text.StrLeAntisym | server/database.js:84 | strings that are each at most the other are equal |
| Seqs.FilterMembers | server/database.js:72-78 | `filter` keeps exactly the elements that pass, drawn from the input, none twice as often |
| Seqs.SortSorted | server/database.js:81-85 | the stable sort yields an ordered permutation of its input |
| Seqs.JsIndex | server/database.js:89 | a `slice` bound is clamped to the array: a non-negative bound is itself or the length |
| Seqs.JsSliceWindow | server/database.js:88-89 | `slice(offset, offset+limit)` holds elements offset.. of the input, `min(offset+limit,n)-min(offset,n)` of them |
| Seqs.JsSliceTail | server/database.js:120 | `slice(-n)` is the whole array when it has at most n elements, else its last n |
| Schema.LoadOne | server/server.js:121 | a probe sample's reachability field is 1 exactly when up and 0 exactly when down |
| Store.IndexOf | server/database.js:158 | the first position with the id, or none exactly when no target carries it |
| Store.FindByApiKey | server/database.js:125-127 | the first target holding the key, or none exactly when no target holds it |
| Store.NewVps | server/database.js:129-155 | a new target has the issued id, the given name and address, non-empty defaults, `offline` status, `agent` type and creation time `now` |
| Store.ApplyPatch | server/database.js:160-162 | a patch without `id` keeps the id and one without `created_at` keeps the creation time |
| Store.PatchLaws | server/database.js:160-162 | the empty patch changes nothing, and applying a patch twice is the same as once |
| Store.PatchWritesPresentKeys | server/database.js:160-162 | for every key, `id` and `created_at` included, a present value is written and an absent (null/undefined) key keeps the old value |
| Store.UpdatedVps | server/database.js:157-165 | updating by id keeps the length; each target is kept or patched; a patch without `id` keeps every id |
| Store.UpdatedVpsEffect | server/database.js:157-165 | an unknown id leaves the list unchanged; otherwise only the first match is patched and all others stay |
| Store.ListOrderIsPreorder | server/database.js:81-85 | the listing comparator is a total preorder, so the sort is well defined |
| Store.ListedMembers | server/database.js:72-78 | the listing keeps exactly the targets matching every given filter, status, group, type and case-insensitive hostname or ip search |
| Store.ListedOrder | server/database.js:81-85 | online targets come before all others, and within each part hostnames ascend |
| Store.Enrich | server/database.js:92-104 | a listed row carries its target, and every metric field is 0 when the target has no sample |
| Store.PageCount | server/database.js:108 | `pages` is `ceil(total/limit)` (absent for limit 0, the `Infinity`/`NaN` case, and rounded toward +infinity for a negative limit) |
| Store.Offset | server/database.js:88 | the page offset is non-negative for page at least 1 |
| Store.Rows | server/database.js:92-104 | one row per paged target, in order |
| Store.RowsWindow | server/database.js:88-104 | the enriched window has `min(offset+limit,n)-min(offset,n)` rows, row k enriching listed target offset+k |
| Store.PaginateWindow | server/database.js:87-109 | page p of size l holds listed targets `(p-1)*l ..` enriched, as many as remain up to l |
| Store.PaginateCounts | server/database.js:87-108 | `total` is the filtered count and `(pages-1)*limit < total <= pages*limit` |
| Store.SamplesOfMembers | server/database.js:180 | a target's samples are exactly the stored samples carrying its id |
| Store.LatestIndex | server/database.js:182-184 | the `reduce` picks a sample no older than any other, the first such |
| Store.LatestMetric | server/database.js:179-185 | the latest sample of the target, none exactly when it has no sample |
| Store.GetVps | server/database.js:112-123 | the detail exists exactly when the id is known, and it shows that target |
| Store.HistoryLengthSpec | server/database.js:117-120 | the history holds min(count, 60) samples, and all of them when there are at most 60 |
| Store.HistoryMembers | server/database.js:117-120 | the history holds only samples of that target |
| Store.HistorySorted | server/database.js:119 | the history is oldest first |
| Store.HistoryNewest | server/database.js:119-120 | every sample left out of the history is no newer than any kept one |
| Store.OldestIndex | server/database.js:195 | the position of an oldest sample of the target, none exactly when it has none |
| Store.RemoveOldestOthers | server/database.js:193-198 | evicting one of a target's samples leaves every other target's samples unchanged |
| Store.RemoveOldestOwn | server/database.js:193-198 | evicting removes exactly one sample of that target |
| Store.EvictOthers | server/database.js:193-198 | evicting n samples leaves every other target's samples unchanged |
| Store.EvictCounts | server/database.js:196-198 | evicting n removes exactly n of the target's samples |
| Store.CappedCounts | server/database.js:192-199 | after the cap the target has min(count, 120) samples, and no other target is affected |
| Store.CappedEvictsOldest | server/database.js:194-198 | with 121 samples the cap removes exactly one oldest sample of the target |
| Store.CappedBound | server/database.js:187-199 | appending a sample and capping keeps every target at 120 samples or fewer |
| Store.ProcsOfMembers | server/database.js:207 | a target's process records are exactly the stored ones carrying its id |
| Store.LatestTs | server/database.js:211-213 | the `reduce` finds a timestamp of some record, no earlier than any record's |
| Store.LatestBatchSound | server/database.js:207-216 | every returned record belongs to the target and carries its latest timestamp |
| Store.LatestBatchComplete | server/database.js:207-216 | every record of the target with its latest timestamp is returned |
| Store.GetProcessesLength | server/database.js:215-218 | at most 20 records, all of the latest batch when it has at most 20 |
| Store.GetProcessesMembers | server/database.js:206-218 | only records of the target's latest batch are returned |
| Store.GetProcessesSorted | server/database.js:217 | the records are ordered by CPU, highest first |
| Store.GetProcessesBusiest | server/database.js:217-218 | every record of the latest batch left out uses no more CPU than any returned one |
| Store.KeepLatestBatchOthers | server/database.js:235 | pruning one target's old batches leaves other targets' records untouched |
| Store.KeepLatestBatchOwn | server/database.js:228-236 | after pruning, the target's records are exactly its latest batch |
| Store.Annotate | server/database.js:244-246 | an alert row carries the first matching target's hostname and ip, or `Unknown` and `''` when the target is gone |
| Store.GetAlertsCount | server/database.js:239-243 | the list holds min(limit, number of alerts with the flag) rows |
| Store.GetAlertsRows | server/database.js:240-247 | every row is a stored alert with the requested flag, annotated |
| Store.AlertPageSorted | server/database.js:242 | alerts are listed newest first |
| Store.AlertPageNewest | server/database.js:242-243 | every alert with the flag that is left out is no newer than any listed one |
| Store.StatusCountsPartition | server/database.js:271-275 | the four status counts and the count of other (PUT-written) statuses add up to the number of targets |
| Store.Distinct | server/database.js:309 | `new Set` keeps each group exactly once and no other value |
| Store.GroupsOf | server/database.js:309 | the `map` lists each target's group in order |
| Store.CountGroupPositive | server/database.js:293 | every group that occurs has a positive count |
| Store.GroupEntriesSpec | server/database.js:292-295 | one entry per distinct group, with its exact count |
| Store.GroupCountsCounts | server/database.js:292-296 | each `groups` entry counts the targets of its group, at least one |
| Store.GroupCountsCover | server/database.js:292-296 | every target's group has an entry, and no group has two |
| Store.GroupCountsSorted | server/database.js:296 | the entries are largest count first |
| Store.GetGroupsMembers | server/database.js:308-310 | `getGroups` lists exactly the groups that occur |
| Store.GetGroupsOrdered | server/database.js:308-310 | `getGroups` is sorted and free of duplicates |
| Store.Swept | server/database.js:316-323 | the sweep maps every target on its own and keeps the order |
| Store.CountStaleAppend | server/database.js:316-323 | the count grows by one exactly for each stale target met |
| Store.SweepIdempotent | server/database.js:313-326 | sweeping twice equals sweeping once, and a second sweep finds nothing stale |
| Store.CountStalePositive | server/database.js:324-325 | the count is positive exactly when some target is stale |
| Store.RemoveFirstWithId | server/database.js:168-170 | with unique ids, splicing out the found index leaves no target with that id |
| Store.AddKeepsUniqueIds | server/database.js:129-133 | appending a target under the next counter value keeps ids unique while every id is at most the counter |
| Store.UpdateKeepsUniqueIds | server/database.js:157-165 | a patch without `id` keeps target ids unique |
| Store.PatchCanDuplicateIds | server/database.js:160-162 | a patch that writes another target's id leaves two targets with the same id |
| Store.KeepLatestIssued | server/database.js:228-236 | pruning old process batches keeps the process ids issued |
| Store.DeleteConsistent | server/database.js:167-173 | the cascade delete keeps sample, process and alert ids issued and the per-target sample cap |
| Store.DeleteLeavesNoTrace | server/database.js:171-173 | after the cascade, exactly the samples, processes and alerts of other targets remain |
| Store.SweepRows | server/database.js:315-323 | the `forEach` loop produces the swept list and counts the stale targets |
| Store.Database.constructor | server/database.js:14-20 | an empty store with all counters at 0 |
| Store.Database.AddVps | server/database.js:129-155 | the counter rises by one, the new target gets it as id and is pushed last, and nothing else changes |
| Store.Database.UpdateVps | server/database.js:157-165 | the result is true exactly for a known id; the list becomes the patched list and nothing else changes |
| Store.Database.DeleteVps | server/database.js:167-176 | the result is true exactly for a known id, which removes the first target with it and cascades to its samples, processes and alerts; an unknown id changes nothing; with unique ids, no target keeps the id |
| Store.Database.DropRecordsOf | server/database.js:171-173 | every sample, process and alert of the target is filtered out; targets and counters stay |
| Store.Database.AddMetric | server/database.js:187-203 | the counter rises by one, the sample carries it as id, and the samples become the old ones plus it, capped for its target |
| Store.Database.AddProcess | server/database.js:221-226 | the counter rises by one and the record is pushed with it as id, keeping the process ids issued |
| Store.Database.ClearOldProcesses | server/database.js:228-236 | the processes become the latest-batch pruning of the old ones; nothing else changes |
| Store.Database.AddAlert | server/database.js:250-261 | the counter rises by one and an unacknowledged alert stamped `now` is pushed with it as id |
| Store.Database.AcknowledgeAlert | server/database.js:263-267 | the result is true exactly for a known id, whose alert gets the flag 1; every other alert stays |
| Store.Database.MarkStaleOffline | server/database.js:313-326 | the targets become the swept list, and the returned count is the number of stale targets |
| Probes.UpdatesAppend | server/server.js:32-38 | the `metric_update` count of a log is additive over appends |
| Probes.ProbeEventsUpdates | server/server.js:126-148 | one probe's broadcasts, any `status_change` then one `metric_update`, add exactly one update |
| Probes.DecideEdges | server/server.js:126-137 | a `status_change` is sent exactly when being online changes; a down alert comes exactly on online to down, and always with a `status_change` |
| Probes.DecideSteady | server/server.js:126-137 | a repeated result announces nothing and raises no alert |
| Probes.RunAlertsAreFalls | server/server.js:131-136 | over any run of results, the alerts raised number exactly the results that found the target online and were down |
| Probes.FiveDownTicks | server/server.js:131-136 | five down results from online raise exactly one alert and end offline |
| Probes.DownAndRecover | server/server.js:126-136 | up, down, down, up from online raises one alert and ends online |
| Probes.ProbePatch | server/server.js:126-132 | up writes `online` with `last_seen = now`; down writes `offline` and leaves `last_seen`; no other key |
| Probes.CurrentRecord | server/server.js:61 | a callback reads the stored record of its target (the same object), or the captured one when it is gone |
| Probes.MeanBounds | server/server.js:78-79 | the mean of the `time=` samples lies between their least and greatest values |
| Probes.RoundPercentNearest | server/server.js:95 | the loss is `lost/sent*100` rounded to the nearest integer, halves up |
| Probes.RoundPercentRange | server/server.js:95 | the loss lies in 0..100 when at most all packets are lost, and reaches 100 exactly when at least 99.5% are lost |
| Probes.ReadPing | server/server.js:65-67 | an exec error or empty output gives latency -1, TTL 0, loss 100 |
| Probes.PingLatencyRule | server/server.js:69-81 | latency is the reported average; without one, the mean of the samples; it is unknown exactly when neither is present |
| Probes.PingLossRule | server/server.js:88-100 | Windows counters give the rounded Lost/Sent ratio, else the reported percentage; an unparsed loss leaves 100, which is down |
| Probes.PortUp | server/server.js:251-304 | TCP is up only on connect; UDP is up on a reply or silence until the timeout and down on an error |
| Probes.BodySize | server/server.js:170-171 | the body size is the sum of the chunk lengths, at least each chunk |
| Probes.StoreProbe | server/server.js:106-132 | a probe result adds one capped sample and writes its status patch, leaving processes and alerts alone |
| Probes.Server.constructor | server/server.js:26-38 | a broadcaster over the store with an empty event log |
| Probes.Server.Broadcast | server/server.js:32-38 | a broadcast appends exactly its event |
| Probes.Server.ApplyReachability | server/server.js:103-148 | one sample; online or offline written; `status_change` on an edge; a down alert only on online to down; then one `metric_update` |
| Probes.Server.ApplyPing | server/server.js:60-149 | up iff latency is known and loss below 100; latency stored as 0 and broadcast as -1 when unknown; an `icmp_down` alert only on online to down; the sample and alert counters rise by the records added, the others stay |
| Probes.Server.ApplyHttpResponse | server/server.js:167-208 | up iff 200 <= status < 500; the sample records response time, status code and body size; an `http_down` alert only on online to down; the sample and alert counters rise by the records added, the others stay |
| Probes.Server.ApplyHttpError | server/server.js:211-231 | a request error is down with status code 0 and no `last_seen` write; alert and `status_change` only when the target was online; the sample and alert counters rise by the records added, the others stay |
| Probes.Server.StorePortMetric | server/server.js:309-343 | one sample with response time and port; status from the result; a `port_down` alert only on online to down; the sample and alert counters rise by the records added, the others stay |
| Probes.Server.ApplyPortCheck | server/server.js:244-307 | port `port || 80`; a `udp` protocol uses the UDP rule and any other the TCP rule; the edge rules of `storePortMetric`; the sample and alert counters rise by the records added, the others stay |
| Probes.Server.StoreDnsMetric | server/server.js:375-399 | one sample; status from success; `last_seen` refreshed on success and kept on failure; no alert and no `status_change` |
| Probes.Server.ApplyDnsCheck | server/server.js:348-373 | an invalid resolver address records `Invalid IP`, down, time 0; the result is up exactly when answers came back; one sample; the status follows the result and `last_seen` is refreshed only when up; no alert |
| Probes.Server.StaleTick | server/server.js:44-49 | the tick sweeps stale agents offline and sends one `status_change` with the count exactly when it is positive |
| Probes.Server.PingRound | server/server.js:52-151 | a round adds one sample and one `metric_update` per agentless target |
| Api.RegisteredDefaults | server/routes/api.js:42-54 | a registered target has location `Jakarta`, os `-`, type `agent`, group `General`, record type `A` and the given port when the body leaves these out; it starts offline and never seen |
| Api.RegisterVps | server/routes/api.js:36-57 | a missing hostname or ip gets 400 and creates nothing; otherwise one target is added and its id and key are returned |
| Api.UpdateRoute | server/routes/api.js:60-64 | 404 exactly for an unknown id, with nothing changed; otherwise the patch is applied |
| Api.DeleteRoute | server/routes/api.js:67-71 | 404 exactly for an unknown id, with nothing changed; otherwise the first target with the id is removed with its cascade; with unique ids, no target keeps the id |
| Api.Authenticate | server/routes/api.js:75-79 | a missing or empty key, an unknown key, or the first target holding the key |
| Api.Rejection | server/routes/api.js:75-79 | 401 for a missing key and 403 for an unknown one |
| Api.ReportStatus | server/routes/api.js:85 | a report writes `online` or `warning`, never another status |
| Api.ReportPatchEffect | server/routes/api.js:85-93 | the report writes its status and `last_seen = now`, and each hardware figure only when it is non-zero; no other field changes |
| Api.ReportAlerts | server/routes/api.js:135-140 | at most two critical, unacknowledged alerts for the target, numbered on from the counter |
| Api.ReportAlertsMatchStatus | server/routes/api.js:85-140 | alerts are raised exactly on `warning` reports; `high_cpu` iff cpu > 90 and `high_memory` iff mem > 95, on every such report |
| Api.Batch | server/routes/api.js:118-131 | one record per reported process, all with the target, the shared timestamp and consecutive ids |
| Api.BatchIsLatest | server/routes/api.js:116-131 | a non-empty batch stamped later than every earlier record becomes the target's latest batch exactly |
| Api.ReportedBatchIsLatest | server/routes/api.js:116-131 | after a report with a non-empty process list, the latest batch is exactly that list |
| Api.StoreBatch | server/routes/api.js:119-131 | the `addProcess` loop appends the batch and raises the counter by its length |
| Api.RaiseReportAlerts | server/routes/api.js:135-140 | the alerts become the old ones plus the report's threshold alerts, and the alert counter rises by their number |
| Api.ReplaceBatch | server/routes/api.js:116-132 | with a process array, prune to the previous latest batch and then append the new one, the process counter rising by its length; without one, no change |
| Api.RecordSample | server/routes/api.js:93-113 | the status patch is applied and exactly one capped sample is added |
| Api.IngestReport | server/routes/api.js:84-140 | an accepted report writes status and hardware, adds one sample, replaces the batch and appends the threshold alerts; each counter rises by the records it issued |
| Api.ReportRoute | server/routes/api.js:74-154 | 401 or 403 with nothing changed; otherwise the ingest writes, one `metric_update`, and a 200 answer carrying the written status; each counter rises by the records the report issued, and a rejection leaves them |
| Api.AlertsRouteDefaults | server/routes/api.js:157-160 | with no parameters, the unacknowledged alerts, at most 50 |
| Api.AcknowledgeRoute | server/routes/api.js:162-165 | always 200, for an unknown id too; only the matching alert's flag changes |
| Components.Window | public/js/components.js:268-270 | one numbered button per page of the window |
| Components.WindowAt | public/js/components.js:268-270 | the k-th window button shows and passes page start+k, active exactly when it is the current page |
| Components.Lead | public/js/components.js:263-266 | a first-page button iff the window starts after page 1, and an ellipsis iff it starts after page 2 |
| Components.Trail | public/js/components.js:272-275 | an ellipsis iff the window ends before the last page but one, and a last-page button iff it ends before the last page |
| Components.AppendWindow | public/js/components.js:268-270 | the `for` loop appends exactly the window |
| Components.Pagination | public/js/components.js:253-280 | the built strip is the strip function, which is empty when there is at most one page |
| Components.StripEnds | public/js/components.js:257-277 | prev comes first, disabled iff current <= 1; next comes last, disabled iff current >= total; only the current page is active |
| Components.StripIndex | public/js/components.js:256-278 | the strip is prev, lead, window, trail, next, position by position |
| Components.StripPages | public/js/components.js:259-275 | a page has a button iff it is 1, the last, or within 2 of the current page; buttons ascend |
| Components.StripNumbers | public/js/components.js:259-275 | which button shows which page: 1 before the window, start+k inside it, the last page after it |
| Components.StripAdjacent | public/js/components.js:268-270 | neighbouring buttons show consecutive pages |
| Components.StripGaps | public/js/components.js:263-275 | an ellipsis sits between two buttons and always stands for at least one skipped page |
| Components.StripLastButtonUnbound | public/js/components.js:274 | on page 1 of 5, the last-page button passes the identifier `totalPages` and no page number |
| Components.CorrectedStripTargets | public/js/components.js:264-274 | in the corrected strip every page button passes its own page number |
| Components.JsRem | public/js/components.js:305-306 | JavaScript `%` matches Dafny's for non-negative operands and takes the dividend's sign otherwise; the dividend minus the remainder is a multiple of the divisor |
| Components.UptimeTruncates | public/js/components.js:302-310 | positive seconds give days and hours (hours < 24), hours and minutes, or minutes, each the floor of the duration |
| Components.UptimeNegative | public/js/components.js:304-309 | a negative uptime falls to the minutes branch with a value in -60..0 |
| Components.CpuColourBands | public/js/components.js:283-288 | red above 80, orange in (60,80], yellow in (40,60], green otherwise; the colour never gets milder as the load grows |
| Components.TimeAgoBuckets | public/js/components.js:312-320 | `Just now` under 60 s; otherwise minutes, hours or days, each the floor and within its range |
| Components.FormatBytesUnit | public/js/components.js:295-300 | the value times its unit is the input; B iff under 1024; a non-B value is at least 1 and a non-GB value is under 1024 |
| Components.FormatBandwidthUnit | public/js/components.js:290-293 | MB/s iff at least 1024 KB/s, with the value scaled by 1024; otherwise KB/s unchanged |

## Left out

- Persistence is not modelled: the JSON file load with its reset fallback, the debounced
  save timer and `writeFileSync`. Saving is a no-op here.
- Express routing, static files, the WebSocket server, `node-cron` and the timers are not
  modelled. A tick or a probe callback is a method call.
- The ping command, sockets, HTTP requests and the DNS resolver are not modelled. Each is
  represented by its outcome.
- Callback completion order within a round is not modelled. So are the UDP
  send-callback and `error` handlers, which can both fire for one datagram.
- The regular expressions of the ping parser are not modelled; the model starts from the
  figures they extract.
- A Windows ping reply with `Sent = 0` gives `NaN` or `Infinity` in the source. The model
  stores a loss of 100, which has the same down verdict.
- A DNS answer that is not an array (`JSON.stringify` of an object) is not modelled.
  Answers are strings joined with `", "`.
- `avg_cpu` and the bandwidth totals of `getStats` are not modelled, because they round
  floating-point values.
- `toFixed` output, HTML markup, `escapeHtml`, `statusBadge`, `vpsCard`,
  `serverTableRow` and `toast` are not modelled. The onclick handler name passed to
  `pagination` is not modelled either; an `Arg` stands for what a button passes.
- `localeCompare` and the default array sort are approximated by code-point order.
  `toLowerCase` is ASCII-only.
- `parseInt` of path and query parameters is not modelled. Ids, page, limit and the
  acknowledged flag are integers, and `NaN` cannot arise.
- `updateVPS` writes any key of the request body. `VpsPatch` covers every field of a
  target, `id` and `created_at` included, and a status may be any string. Keys that are
  not fields of a target are not modelled, nor values of another JSON type than the
  field's (a string `id`, say). Monitor types are the five known ones.
- Probes.CurrentRecord: a callback reads the first stored target with the captured id.
  After a PUT has given two targets the same id, or changed the captured target's id,
  the source reads the object it captured instead.
- Missing report fields are read as 0 (`x || 0`), and the hardware figures as 0 when
  falsy.
- The crypto API-key generation is a parameter.
- `Date` parsing of ISO strings is not modelled. Timestamps are integers.
- Fractional uptime seconds are not modelled; `formatUptime` takes an integer.
- `Object.entries` lists integer-like keys first, in numeric order. The model does not
  follow that: `GroupCounts` sorts the entries in first-occurrence order for every
  group name.
- Eviction in `addMetric` is modelled as repeatedly removing the first oldest sample of
  the target. This equals the stable sort followed by `slice`.
- `markStaleOffline` changes row objects in place in the source; the model assigns the
  swept list once. Probe callbacks read the stored record, which is the object they
  captured (`CurrentRecord`).
- GET /stats, /vps, /vps/:id, /vps/:id/processes and /groups pass a store function's
  value through. They are the `Store` functions `GetStats`, `AllVps`, `GetVps`,
  `GetProcesses` and `GetGroups`, with no handler of their own.
- Api.ReportRoute: the `global.wsBroadcast` guard is not modelled. The broadcaster always
  exists here.
- Probes.Server.ApplyPortCheck: the event log is stated by its length only. Its contents
  are those of `StorePortMetric`, which `ApplyPortCheck` calls.
- Probes.Server.ApplyDnsCheck: the event log is stated as one appended `metric_update`.
  Its fields are those of `StoreDnsMetric`.
- Probes.Server.PingRound: the contract states the sample and `metric_update` counts of a
  round. Each target's effect is `ApplyPing`'s.
- Probes.ReadPing: its own contract covers the no-output case only.
  `PingLatencyRule` and `PingLossRule` state the parsed cases.

## Findings

| source | as written | input that shows it | evidently intended | confidence | as-written member | corrected member |
|---|---|---|---|---|---|---|
| public/js/components.js:274 | the last-page button's onclick passes the bare identifier `totalPages` inside the markup string, so the click evaluates a global that does not exist | `pagination(1, 5, 'App.goToPage')`: the button labelled 5 calls `App.goToPage(totalPages)` | the onclick passes the number of the last page, `${totalPages}` | high, not executed | Components.StripLastButtonUnbound | Components.CorrectedStripTargets |

`Strip` models the strip as written, and `Pagination` builds it. `CorrectedStrip` passes
the page number. The layout lemmas `StripEnds`, `StripIndex`, `StripPages`,
`StripNumbers`, `StripAdjacent` and `StripGaps` are stated for any last-page argument, so
they hold for both strips.
