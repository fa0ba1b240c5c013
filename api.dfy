/** The REST handlers that change state: registration, update and delete of targets,
    agent report ingestion, and the alert list and acknowledge handlers. A handler
    answers with an HTTP status code and a JSON body. */
module Api {
  import opened Optional
  import opened Seqs
  import opened Schema
  import opened Store
  import opened Probes

  datatype Body =
    | ErrorBody(error: string)
    | Message(message: string)
    | Registered(id: int, apiKey: string)   // with message "VPS added successfully"
    | ReportAck(status: Status)             // with message "Report received"
    | AlertsBody(rows: seq<AlertRow>)

  datatype Response = Response(code: int, body: Body)

  // ===================== POST /vps =====================

  /** The registration body; an empty string (or 0, or None) is a field that is absent or falsy.
      `port` is the value of `parseInt(port)`, 0 when that is NaN. */
  datatype Registration = Registration(
    hostname: string, ip: string, location: string, os: string,
    monitorType: Option<MonitorType>, group: string, url: string, port: int,
    protocol: string, lookupDomain: string, recordType: string)

  /** The data the handler passes to `addVPS`, its own defaults filled in. */
  function RegistrationInput(b: Registration, apiKey: string): VpsInput {
    VpsInput(b.hostname, b.ip, Or(b.location, "Jakarta"), Or(b.os, "-"), None,
             Some(b.monitorType.GetOr(Agent)), Or(b.group, "General"), apiKey, 0, 0, 0,
             Or(b.url, ""), b.port, Or(b.protocol, ""), Or(b.lookupDomain, ""),
             Or(b.recordType, "A"), None)
  }

  /** A registered target: the given name and address, the given field or its default
      for every other one, offline, never seen, no hardware figures, the issued key. */
  lemma RegisteredDefaults(b: Registration, apiKey: string, id: int, now: int)
    ensures var v := NewVps(id, RegistrationInput(b, apiKey), now);
      && v.id == id && v.hostname == b.hostname && v.ip == b.ip && v.apiKey == apiKey
      && v.location == (if b.location == "" then "Jakarta" else b.location)
      && v.os == (if b.os == "" then "-" else b.os)
      && v.monitorType == (if b.monitorType.None? then Agent else b.monitorType.value)
      && v.group == (if b.group == "" then "General" else b.group)
      && v.recordType == (if b.recordType == "" then "A" else b.recordType)
      && v.port == b.port && v.url == b.url && v.protocol == b.protocol
      && v.status == Offline && v.lastSeen == None && v.createdAt == now
      && v.cpuCores == 0 && v.ramTotal == 0 && v.diskTotal == 0
  {
  }

  /** POST /vps: 400 and no new target unless both hostname and ip are given; otherwise
      one new target under the next id, answered with that id and its key. The key is
      generated by the caller (32 random bytes in hex). */
  method RegisterVps(db: Database, b: Registration, apiKey: string, now: int) returns (r: Response)
    requires db.Valid()
    modifies db
    ensures db.Valid()
    ensures b.hostname == "" || b.ip == "" ==>
      && r == Response(400, ErrorBody("hostname and ip are required"))
      && db.vps == old(db.vps) && db.vpsCounter == old(db.vpsCounter)
    ensures b.hostname != "" && b.ip != "" ==>
      && db.vpsCounter == old(db.vpsCounter) + 1
      && r == Response(200, Registered(db.vpsCounter, apiKey))
      && db.vps == old(db.vps) + [NewVps(db.vpsCounter, RegistrationInput(b, apiKey), now)]
    ensures db.metrics == old(db.metrics) && db.processes == old(db.processes) && db.alerts == old(db.alerts)
    ensures db.metricCounter == old(db.metricCounter) && db.processCounter == old(db.processCounter)
    ensures db.alertCounter == old(db.alertCounter)
  {
    if b.hostname == "" || b.ip == "" {
      return Response(400, ErrorBody("hostname and ip are required"));
    }
    var v := db.AddVps(RegistrationInput(b, apiKey), now);
    r := Response(200, Registered(v.id, apiKey));
  }

  // ===================== PUT / DELETE /vps/:id =====================

  /** PUT /vps/:id: 404 for an unknown id, else the patch is applied. */
  method UpdateRoute(db: Database, id: int, patch: VpsPatch) returns (r: Response)
    requires db.Valid()
    modifies db
    ensures db.Valid()
    ensures r.code == 404 <==> forall i :: 0 <= i < |old(db.vps)| ==> old(db.vps)[i].id != id
    ensures r.code == 404 ==> r.body == ErrorBody("VPS not found") && db.vps == old(db.vps)
    ensures r.code != 404 ==> r == Response(200, Message("VPS updated successfully"))
    ensures db.vps == UpdatedVps(old(db.vps), id, patch)
    ensures db.metrics == old(db.metrics) && db.processes == old(db.processes) && db.alerts == old(db.alerts)
    ensures db.vpsCounter == old(db.vpsCounter)
    ensures db.metricCounter == old(db.metricCounter) && db.processCounter == old(db.processCounter)
    ensures db.alertCounter == old(db.alertCounter)
  {
    var found := db.UpdateVps(id, patch);
    if !found {
      return Response(404, ErrorBody("VPS not found"));
    }
    r := Response(200, Message("VPS updated successfully"));
  }

  /** DELETE /vps/:id: 404 and no change for an unknown id, else the cascading delete. */
  method DeleteRoute(db: Database, id: int) returns (r: Response)
    requires db.Valid()
    modifies db
    ensures db.Valid()
    ensures r.code == 404 <==> forall i :: 0 <= i < |old(db.vps)| ==> old(db.vps)[i].id != id
    ensures r.code == 404 ==>
      && r.body == ErrorBody("VPS not found")
      && db.vps == old(db.vps) && db.metrics == old(db.metrics)
      && db.processes == old(db.processes) && db.alerts == old(db.alerts)
    ensures r.code != 404 ==>
      && r == Response(200, Message("VPS deleted successfully"))
      && db.vps == RemoveAt(old(db.vps), IndexOf(old(db.vps), id).value)
      && db.metrics == SamplesBut(old(db.metrics), id)
      && db.processes == ProcessesBut(old(db.processes), id)
      && db.alerts == AlertsBut(old(db.alerts), id)
    ensures UniqueIds(old(db.vps)) ==> forall i :: 0 <= i < |db.vps| ==> db.vps[i].id != id
    ensures db.vpsCounter == old(db.vpsCounter)
    ensures db.metricCounter == old(db.metricCounter) && db.processCounter == old(db.processCounter)
    ensures db.alertCounter == old(db.alertCounter)
  {
    var found := db.DeleteVps(id);
    if !found {
      return Response(404, ErrorBody("VPS not found"));
    }
    r := Response(200, Message("VPS deleted successfully"));
  }

  // ===================== POST /report =====================

  /** The agent's figures with every missing one read as 0 (`x || 0`). */
  type AgentSample = r: Reading | r.AgentReading?
    witness AgentReading(0.0, 0.0, 0.0, 0.0, 0.0, 0.0, 0.0, 0.0, 0.0, 0.0, 0.0, 0.0, 0.0, 0.0, 0.0)

  /** One entry of the reported process list; a missing cpu, mem or rss is 0. */
  datatype ProcessEntry = ProcessEntry(
    pid: int, name: string, cpu: real, mem: real, rss: real, user: string, command: string)

  /** The report body. Hardware figures are 0 when absent; `processes` is None unless the
      body carries an array. */
  datatype Report = Report(
    sample: AgentSample, cpuCores: int, ramTotalMb: int, diskTotalGb: int,
    processes: Option<seq<ProcessEntry>>)

  /** The outcome of the `x-api-key` header check. */
  datatype Auth = MissingKey | UnknownKey | Known(vps: Vps)

  /** The first target holding the key; an absent or empty header is missing. */
  function Authenticate(vs: seq<Vps>, key: Option<string>): (a: Auth)
    ensures a.MissingKey? <==> key.None? || key.value == ""
    ensures a.UnknownKey? <==> key.Some? && key.value != "" && forall i :: 0 <= i < |vs| ==> vs[i].apiKey != key.value
    ensures a.Known? ==> key.Some? && a.vps in vs && a.vps.apiKey == key.value
    ensures a.Known? ==>
      exists k :: 0 <= k < |vs| && vs[k] == a.vps && (forall j :: 0 <= j < k ==> vs[j].apiKey != key.value)
  {
    if key.None? || key.value == "" then MissingKey
    else
      var found := FindByApiKey(vs, key.value);
      if found.None? then UnknownKey else Known(found.value)
  }

  /** The rejection an unaccepted key gets. */
  function Rejection(a: Auth): (r: Response)
    requires !a.Known?
    ensures a.MissingKey? ==> r.code == 401
    ensures a.UnknownKey? ==> r.code == 403
  {
    if a.MissingKey? then Response(401, ErrorBody("API key required"))
    else Response(403, ErrorBody("Invalid API key"))
  }

  /** The status a report writes: `warning` when cpu is above 90 or memory above 95. */
  function ReportStatus(b: Report): (s: Status)
    ensures s == Online || s == Warning
  {
    if b.sample.cpu > 90.0 || b.sample.mem > 95.0 then Warning else Online
  }

  /** The update a report writes: status and last_seen always, each hardware figure only
      when it is non-zero. */
  function ReportPatch(b: Report, now: int): VpsPatch {
    StatusPatch(ReportStatus(b), Some(now)).(
      cpuCores := if b.cpuCores != 0 then Some(b.cpuCores) else None,
      ramTotal := if b.ramTotalMb != 0 then Some(b.ramTotalMb) else None,
      diskTotal := if b.diskTotalGb != 0 then Some(b.diskTotalGb) else None)
  }

  /** A report overwrites the status (maintenance included) and last_seen, keeps a
      hardware figure that is reported as 0, and leaves identity and probe settings alone. */
  lemma ReportPatchEffect(v: Vps, b: Report, now: int)
    ensures var w := ApplyPatch(v, ReportPatch(b, now));
      && w.status == ReportStatus(b) && w.lastSeen == Some(now)
      && w.cpuCores == (if b.cpuCores != 0 then b.cpuCores else v.cpuCores)
      && w.ramTotal == (if b.ramTotalMb != 0 then b.ramTotalMb else v.ramTotal)
      && w.diskTotal == (if b.diskTotalGb != 0 then b.diskTotalGb else v.diskTotal)
      && w.(status := v.status, lastSeen := v.lastSeen, cpuCores := v.cpuCores,
            ramTotal := v.ramTotal, diskTotal := v.diskTotal) == v
  {
  }

  /** The alerts a report raises, numbered from `base + 1`: high_cpu above 90, then
      high_memory above 95, whatever the target's status was. */
  function ReportAlerts(b: Report, v: Vps, base: int, now: int): (r: seq<Alert>)
    ensures |r| <= 2
    ensures forall i :: 0 <= i < |r| ==>
      r[i].id == base + i + 1 && r[i].vpsId == v.id && r[i].severity == Critical
      && r[i].acknowledged == 0 && r[i].createdAt == now
  {
    var cpu := b.sample.cpu;
    var mem := b.sample.mem;
    var high := if cpu > 90.0 then [Alert(base + 1, v.id, HighCpu, Critical, CpuUsageAt(cpu, v.hostname), 0, now)] else [];
    high + if mem > 95.0 then [Alert(base + |high| + 1, v.id, HighMemory, Critical, MemoryUsageAt(mem, v.hostname), 0, now)] else []
  }

  /** A report raises an alert iff it writes `warning`; high_cpu iff cpu is above 90 and
      high_memory iff memory is above 95, each at most once. */
  lemma ReportAlertsMatchStatus(b: Report, v: Vps, base: int, now: int)
    ensures ReportAlerts(b, v, base, now) != [] <==> ReportStatus(b) == Warning
    ensures (exists i :: 0 <= i < |ReportAlerts(b, v, base, now)| && ReportAlerts(b, v, base, now)[i].kind == HighCpu)
            <==> b.sample.cpu > 90.0
    ensures (exists i :: 0 <= i < |ReportAlerts(b, v, base, now)| && ReportAlerts(b, v, base, now)[i].kind == HighMemory)
            <==> b.sample.mem > 95.0
  {
    var r := ReportAlerts(b, v, base, now);
    if b.sample.cpu > 90.0 {
      assert r[0].kind == HighCpu;
    }
    if b.sample.mem > 95.0 {
      assert r[|r| - 1].kind == HighMemory;
    }
  }

  /** The records a batch adds, numbered from `base + 1`, all stamped `ts`. */
  function Batch(es: seq<ProcessEntry>, vid: int, ts: int, base: int): (r: seq<Process>)
    ensures |r| == |es|
    ensures forall i :: 0 <= i < |r| ==> r[i].vpsId == vid && r[i].timestamp == ts && r[i].id == base + i + 1
  {
    if es == [] then []
    else
      var e := es[|es| - 1];
      Batch(es[..|es| - 1], vid, ts, base) +
        [Process(base + |es|, vid, ts, e.pid, e.name, e.cpu, e.mem, e.rss, e.user, e.command)]
  }

  /** A batch stamped later than every stored record of the target becomes its whole
      latest batch, so the next `getProcesses` reads only the new list. */
  lemma {:induction false} BatchIsLatest(ps: seq<Process>, es: seq<ProcessEntry>, vid: int, now: int, base: int)
    requires es != []
    requires forall i :: 0 <= i < |ps| && ps[i].vpsId == vid ==> ps[i].timestamp < now
    ensures LatestBatch(ps + Batch(es, vid, now, base), vid) == Batch(es, vid, now, base)
  {
    var batch := Batch(es, vid, now, base);
    var isV := (p: Process) => p.vpsId == vid;
    var atNow := (p: Process) => p.timestamp == now;
    FilterAppend(ps, batch, isV);
    FilterAll(batch, isV);
    var old_ := ProcsOf(ps, vid);
    var mine := ProcsOf(ps + batch, vid);
    assert mine == old_ + batch;
    ProcsOfMembers(ps, vid);
    forall i | 0 <= i < |old_| ensures !atNow(old_[i]) {
      assert old_[i] in old_;
      var j :| 0 <= j < |ps| && ps[j] == old_[i];
    }
    var t := LatestTs(mine);
    assert mine[|old_|] == batch[0];
    assert t == now;
    FilterAppend(old_, batch, atNow);
    FilterNone(old_, atNow);
    FilterAll(batch, atNow);
  }

  /** Appends a batch one `addProcess` call at a time, all under the same timestamp. */
  method StoreBatch(db: Database, vid: int, es: seq<ProcessEntry>, ts: int)
    requires db.Valid()
    modifies db
    ensures db.Valid()
    ensures db.processCounter == old(db.processCounter) + |es|
    ensures db.processes == old(db.processes) + Batch(es, vid, ts, old(db.processCounter))
    ensures db.vps == old(db.vps) && db.metrics == old(db.metrics) && db.alerts == old(db.alerts)
    ensures db.vpsCounter == old(db.vpsCounter) && db.metricCounter == old(db.metricCounter)
    ensures db.alertCounter == old(db.alertCounter)
  {
    var i := 0;
    while i < |es|
      invariant 0 <= i <= |es|
      invariant db.Valid()
      invariant db.processCounter == old(db.processCounter) + i
      invariant db.processes == old(db.processes) + Batch(es[..i], vid, ts, old(db.processCounter))
      invariant db.vps == old(db.vps) && db.metrics == old(db.metrics) && db.alerts == old(db.alerts)
      invariant db.vpsCounter == old(db.vpsCounter) && db.metricCounter == old(db.metricCounter)
      invariant db.alertCounter == old(db.alertCounter)
    {
      var e := es[i];
      var _ := db.AddProcess(ProcessInput(vid, ts, e.pid, e.name, e.cpu, e.mem, e.rss, e.user, e.command));
      assert es[..i + 1][..i] == es[..i];
      i := i + 1;
    }
    assert es[..i] == es;
  }

  /** The alerts of an accepted report, one `addAlert` call per threshold crossed. */
  method RaiseReportAlerts(db: Database, b: Report, v: Vps, now: int)
    requires db.Valid()
    modifies db
    ensures db.Valid()
    ensures db.alerts == old(db.alerts) + ReportAlerts(b, v, old(db.alertCounter), now)
    ensures db.alertCounter == old(db.alertCounter) + |ReportAlerts(b, v, old(db.alertCounter), now)|
    ensures db.vps == old(db.vps) && db.metrics == old(db.metrics) && db.processes == old(db.processes)
    ensures db.vpsCounter == old(db.vpsCounter) && db.metricCounter == old(db.metricCounter)
    ensures db.processCounter == old(db.processCounter)
  {
    if b.sample.cpu > 90.0 {
      var _ := db.AddAlert(v.id, HighCpu, Critical, CpuUsageAt(b.sample.cpu, v.hostname), now);
    }
    if b.sample.mem > 95.0 {
      var _ := db.AddAlert(v.id, HighMemory, Critical, MemoryUsageAt(b.sample.mem, v.hostname), now);
    }
  }

  /** The process records after a report: unchanged without a list; with one, the
      target's older batches pruned to its latest, then the new batch. */
  function ReportedProcesses(ps: seq<Process>, vid: int, b: Report, now: int, base: int): seq<Process> {
    if b.processes.None? then ps
    else KeepLatestBatch(ps, vid) + Batch(b.processes.value, vid, now, base)
  }

  /** After a report with a non-empty list, stamped later than every stored record of
      the target, the target's latest batch is exactly the reported list. */
  lemma ReportedBatchIsLatest(ps: seq<Process>, vid: int, b: Report, now: int, base: int)
    requires b.processes.Some? && b.processes.value != []
    requires forall i :: 0 <= i < |ps| && ps[i].vpsId == vid ==> ps[i].timestamp < now
    ensures LatestBatch(ReportedProcesses(ps, vid, b, now, base), vid) == Batch(b.processes.value, vid, now, base)
  {
    var kept := KeepLatestBatch(ps, vid);
    var mine := ProcsOf(ps, vid);
    if mine != [] {
      var t := LatestTs(mine);
      FilterMembers(ps, (p: Process) => p.vpsId != vid || p.timestamp == t);
    }
    forall i | 0 <= i < |kept| && kept[i].vpsId == vid ensures kept[i].timestamp < now {
      assert kept[i] in ps;
    }
    BatchIsLatest(kept, b.processes.value, vid, now, base);
  }

  /** `clearOldProcesses`, then one `addProcess` per entry of the list. */
  method ReplaceBatch(db: Database, vid: int, b: Report, now: int)
    requires db.Valid()
    modifies db
    ensures db.Valid()
    ensures db.processes == ReportedProcesses(old(db.processes), vid, b, now, old(db.processCounter))
    ensures db.vps == old(db.vps) && db.metrics == old(db.metrics) && db.alerts == old(db.alerts)
    ensures db.metricCounter == old(db.metricCounter) && db.alertCounter == old(db.alertCounter)
    ensures db.vpsCounter == old(db.vpsCounter)
    ensures db.processCounter == old(db.processCounter) + (if b.processes.Some? then |b.processes.value| else 0)
  {
    if b.processes.Some? {
      db.ClearOldProcesses(vid);
      StoreBatch(db, vid, b.processes.value, now);
    }
  }

  /** The first two writes of a report: the target's patch, then the sample, capped per
      target. */
  method RecordSample(db: Database, vid: int, patch: VpsPatch, sample: AgentSample, now: int)
    requires db.Valid()
    modifies db
    ensures db.Valid()
    ensures db.vps == UpdatedVps(old(db.vps), vid, patch)
    ensures db.metricCounter == old(db.metricCounter) + 1
    ensures db.metrics == Capped(old(db.metrics) + [Metric(db.metricCounter, vid, now, sample)], vid)
    ensures db.processes == old(db.processes) && db.alerts == old(db.alerts)
    ensures db.processCounter == old(db.processCounter) && db.alertCounter == old(db.alertCounter)
    ensures db.vpsCounter == old(db.vpsCounter)
  {
    var _ := db.UpdateVps(vid, patch);
    var _ := db.AddMetric(vid, now, sample);
  }

  /** The store after an accepted report of target `v`, against the store before it. */
  ghost predicate Ingested(vs0: seq<Vps>, ms0: seq<Metric>, ps0: seq<Process>, als0: seq<Alert>,
                           metricCounter0: int, processCounter0: int, alertCounter0: int,
                           vs: seq<Vps>, ms: seq<Metric>, ps: seq<Process>, als: seq<Alert>,
                           v: Vps, b: Report, now: int)
  {
    && vs == UpdatedVps(vs0, v.id, ReportPatch(b, now))
    && ms == Capped(ms0 + [Metric(metricCounter0 + 1, v.id, now, b.sample)], v.id)
    && ps == ReportedProcesses(ps0, v.id, b, now, processCounter0)
    && als == als0 + ReportAlerts(b, v, alertCounter0, now)
  }

  /** The counters after an accepted report of target `v`, against the counters before it:
      one sample, one process per listed entry, one alert per threshold crossed. */
  ghost predicate CountersIngested(vpsCounter0: int, metricCounter0: int, processCounter0: int, alertCounter0: int,
                                   vpsCounter: int, metricCounter: int, processCounter: int, alertCounter: int,
                                   v: Vps, b: Report, now: int)
  {
    && vpsCounter == vpsCounter0
    && metricCounter == metricCounter0 + 1
    && processCounter == processCounter0 + (if b.processes.Some? then |b.processes.value| else 0)
    && alertCounter == alertCounter0 + |ReportAlerts(b, v, alertCounter0, now)|
  }

  /** The store writes of an accepted report: status and hardware figures, one sample,
      the process batch when a list is sent, then the threshold alerts. */
  method IngestReport(db: Database, v: Vps, b: Report, now: int)
    requires db.Valid()
    modifies db
    ensures db.Valid()
    ensures Ingested(old(db.vps), old(db.metrics), old(db.processes), old(db.alerts),
                     old(db.metricCounter), old(db.processCounter), old(db.alertCounter),
                     db.vps, db.metrics, db.processes, db.alerts, v, b, now)
    ensures CountersIngested(old(db.vpsCounter), old(db.metricCounter), old(db.processCounter), old(db.alertCounter),
                             db.vpsCounter, db.metricCounter, db.processCounter, db.alertCounter, v, b, now)
  {
    RecordSample(db, v.id, ReportPatch(b, now), b.sample, now);
    ReplaceBatch(db, v.id, b, now);
    RaiseReportAlerts(db, b, v, now);
  }

  /** POST /report. A missing key gets 401 and an unknown one 403, with nothing changed.
      An accepted report makes the store writes `Ingested` states, emits one
      `metric_update`, and answers with the status it wrote. */
  method ReportRoute(s: Server, key: Option<string>, b: Report, now: int) returns (r: Response)
    requires s.db.Valid()
    modifies s, s.db
    ensures s.db.Valid()
    ensures var a := Authenticate(old(s.db.vps), key);
      !a.Known? ==>
        && r == Rejection(a)
        && s.db.vps == old(s.db.vps) && s.db.metrics == old(s.db.metrics)
        && s.db.processes == old(s.db.processes) && s.db.alerts == old(s.db.alerts)
        && s.db.vpsCounter == old(s.db.vpsCounter) && s.db.metricCounter == old(s.db.metricCounter)
        && s.db.processCounter == old(s.db.processCounter) && s.db.alertCounter == old(s.db.alertCounter)
        && s.events == old(s.events)
    ensures var a := Authenticate(old(s.db.vps), key);
      a.Known? ==>
        && r == Response(200, ReportAck(ReportStatus(b)))
        && Ingested(old(s.db.vps), old(s.db.metrics), old(s.db.processes), old(s.db.alerts),
                    old(s.db.metricCounter), old(s.db.processCounter), old(s.db.alertCounter),
                    s.db.vps, s.db.metrics, s.db.processes, s.db.alerts, a.vps, b, now)
        && CountersIngested(old(s.db.vpsCounter), old(s.db.metricCounter), old(s.db.processCounter),
                            old(s.db.alertCounter), s.db.vpsCounter, s.db.metricCounter,
                            s.db.processCounter, s.db.alertCounter, a.vps, b, now)
        && s.events == old(s.events) + [MetricUpdate(a.vps.id, a.vps.hostname, ReportStatus(b),
             AgentDetail(b.sample.cpu, b.sample.mem, b.sample.netInRate, b.sample.netOutRate))]
  {
    var a := Authenticate(s.db.vps, key);
    if !a.Known? {
      return Rejection(a);
    }
    var v := a.vps;
    var status := ReportStatus(b);
    IngestReport(s.db, v, b, now);
    s.Broadcast(MetricUpdate(v.id, v.hostname, status,
                             AgentDetail(b.sample.cpu, b.sample.mem, b.sample.netInRate, b.sample.netOutRate)));
    r := Response(200, ReportAck(status));
  }

  // ===================== alerts =====================

  /** GET /alerts: `acknowledged` defaults to 0 and `limit` to 50. */
  function AlertsRoute(als: seq<Alert>, vs: seq<Vps>, acknowledged: Option<int>, limit: Option<int>): Response {
    Response(200, AlertsBody(GetAlerts(als, vs, acknowledged.GetOr(0), limit.GetOr(50))))
  }

  /** With no parameters the list holds the unacknowledged alerts, at most 50 of them,
      and every one of them when there are no more than 50. */
  lemma AlertsRouteDefaults(als: seq<Alert>, vs: seq<Vps>)
    ensures var rows := AlertsRoute(als, vs, None, None).body.rows;
      var open := Filter(als, (a: Alert) => a.acknowledged == 0);
      && |rows| == Min(50, |open|)
      && forall k :: 0 <= k < |rows| ==> rows[k].alert in als && rows[k].alert.acknowledged == 0
  {
    GetAlertsCount(als, vs, 0, 50);
    GetAlertsRows(als, vs, 0, 50);
  }

  /** PUT /alerts/:id/acknowledge: always answers success, an unknown id included. */
  method AcknowledgeRoute(db: Database, id: int) returns (r: Response)
    requires db.Valid()
    modifies db
    ensures db.Valid()
    ensures r == Response(200, Message("Alert acknowledged"))
    ensures |db.alerts| == |old(db.alerts)|
    ensures forall i :: 0 <= i < |db.alerts| ==>
      db.alerts[i] == if old(db.alerts)[i].id == id then old(db.alerts)[i].(acknowledged := 1) else old(db.alerts)[i]
    ensures db.vps == old(db.vps) && db.metrics == old(db.metrics) && db.processes == old(db.processes)
    ensures db.vpsCounter == old(db.vpsCounter) && db.metricCounter == old(db.metricCounter)
    ensures db.processCounter == old(db.processCounter) && db.alertCounter == old(db.alertCounter)
  {
    var _ := db.AcknowledgeAlert(id);
    r := Response(200, Message("Alert acknowledged"));
  }
}
