/** How `server/server.js` applies probe results to the store: the ICMP, HTTP,
    TCP/UDP and DNS checkers and the stale-agent tick. A network call is
    represented by its outcome (the parsed ping figures, a status code or an
    error, a reply or a timeout, the resolved answers); the WebSocket broadcast
    is the append of an event to the `events` log of a `Server`. */
module Probes {
  import opened Optional
  import opened Text
  import opened Seqs
  import opened Schema
  import opened Store

  /** An agent silent for longer than this many milliseconds is forced offline. */
  const StaleAfterMs := 2 * 60 * 1000

  // ===================== events =====================

  /** The checker a `status_change` message names. */
  datatype Via = ByIcmp | ByHttp(statusCode: int) | ByHttpError | ByPort(port: int, proto: string)

  /** The text of a `status_change` event. */
  datatype Note =
    | NowOnline(hostname: string, via: Via)     // "<host> is now online (...)", "... is now OPEN"
    | WentOffline(hostname: string, via: Via)   // "<host> went offline (...)", "... is now CLOSED"
    | WentStale(count: nat)                     // "<count> VPS went offline"

  /** The checker-specific fields of a `metric_update` event. */
  datatype Detail =
    | PingDetail(latency: real, packetLoss: int, ttl: int)
    | HttpDetail(responseTime: int, statusCode: int)
    | PortDetail(responseTime: int, port: int)
    | DnsDetail(responseTime: int, result: string)
    | AgentDetail(cpu: real, mem: real, netInRate: real, netOutRate: real)

  datatype Event =
    | StatusChange(note: Note)
    | MetricUpdate(vpsId: int, hostname: string, status: Status, detail: Detail)

  /** The number of `metric_update` events in a log. */
  function Updates(es: seq<Event>): nat {
    |Filter(es, (e: Event) => e.MetricUpdate?)|
  }

  lemma UpdatesAppend(es: seq<Event>, more: seq<Event>)
    ensures Updates(es + more) == Updates(es) + Updates(more)
  {
    FilterAppend(es, more, (e: Event) => e.MetricUpdate?);
  }

  /** A probe result: possibly a status change, then exactly one metric update. */
  lemma ProbeEventsUpdates(es: seq<Event>, change: seq<Event>, u: Event)
    requires forall i :: 0 <= i < |change| ==> change[i].StatusChange?
    requires u.MetricUpdate?
    ensures Updates(es + change + [u]) == Updates(es) + 1
  {
    UpdatesAppend(es + change, [u]);
    UpdatesAppend(es, change);
    FilterNone(change, (e: Event) => e.MetricUpdate?);
    FilterSingle(u, (e: Event) => e.MetricUpdate?);
  }

  // ===================== the status transition =====================

  /** What one reachability result does to a target whose status was `prior`. */
  datatype Transition = Transition(status: Status, announce: bool, alert: bool)

  /** Up writes online, down writes offline (maintenance included); the change is
      announced only on an edge, and a down alert is raised only on online -> down. */
  function Decide(prior: Status, up: bool): Transition {
    if up then Transition(Online, prior != Online, false)
    else Transition(Offline, prior == Online, prior == Online)
  }

  /** The announcement is made iff being online changes; an alert comes only with
      an announcement of going down. */
  lemma DecideEdges(prior: Status, up: bool)
    ensures Decide(prior, up).announce <==> (prior == Online) != (Decide(prior, up).status == Online)
    ensures Decide(prior, up).alert <==> prior == Online && Decide(prior, up).status != Online
    ensures Decide(prior, up).alert ==> Decide(prior, up).announce
  {
  }

  /** A repeated result is silent: sustained down and sustained up announce and alert nothing. */
  lemma DecideSteady(prior: Status, up: bool)
    ensures !Decide(Decide(prior, up).status, up).announce
    ensures !Decide(Decide(prior, up).status, up).alert
  {
  }

  /** The status after a run of results. */
  function Run(prior: Status, ups: seq<bool>): Status {
    if ups == [] then prior else Decide(Run(prior, ups[..|ups| - 1]), ups[|ups| - 1]).status
  }

  /** The down alerts raised over a run of results. */
  function RunAlerts(prior: Status, ups: seq<bool>): nat {
    if ups == [] then 0
    else
      var init := ups[..|ups| - 1];
      RunAlerts(prior, init) + if Decide(Run(prior, init), ups[|ups| - 1]).alert then 1 else 0
  }

  /** The status before result i: the prior one, or what the previous result wrote. */
  function Before(prior: Status, ups: seq<bool>, i: nat): Status
    requires i <= |ups|
  {
    if i == 0 then prior else if ups[i - 1] then Online else Offline
  }

  /** The results that found the target online and were down. */
  function Falls(prior: Status, ups: seq<bool>): set<nat> {
    set i: nat | i < |ups| && Before(prior, ups, i) == Online && !ups[i]
  }

  lemma {:induction false} RunBefore(prior: Status, ups: seq<bool>)
    ensures Run(prior, ups) == Before(prior, ups, |ups|)
  {
  }

  /** Dropping the last result leaves the status before every earlier one alone. */
  lemma BeforeInit(prior: Status, ups: seq<bool>, i: nat)
    requires i < |ups|
    ensures Before(prior, ups, i) == Before(prior, ups[..|ups| - 1], i)
  {
  }

  /** Appending one result adds its index to the falls iff it is a fall. */
  lemma FallsSnoc(prior: Status, ups: seq<bool>)
    requires ups != []
    ensures var n := |ups| - 1;
      Falls(prior, ups) == Falls(prior, ups[..n]) + if Before(prior, ups, n) == Online && !ups[n] then {n} else {}
  {
    var n := |ups| - 1;
    var init := ups[..n];
    var extra: set<nat> := if Before(prior, ups, n) == Online && !ups[n] then {n} else {};
    forall i: nat | i in Falls(prior, ups) ensures i in Falls(prior, init) + extra {
      if i < n {
        BeforeInit(prior, ups, i);
      }
    }
    forall i: nat | i in Falls(prior, init) + extra ensures i in Falls(prior, ups) {
      if i < n {
        BeforeInit(prior, ups, i);
      }
    }
  }

  /** Over any run, the down alerts are exactly the online -> down edges. */
  lemma {:induction false} RunAlertsAreFalls(prior: Status, ups: seq<bool>)
    ensures RunAlerts(prior, ups) == |Falls(prior, ups)|
  {
    if ups == [] {
      assert Falls(prior, ups) == {};
    } else {
      var n := |ups| - 1;
      var init := ups[..n];
      RunAlertsAreFalls(prior, init);
      RunBefore(prior, init);
      BeforeInit(prior, ups, n);
      FallsSnoc(prior, ups);
      if Before(prior, ups, n) == Online && !ups[n] {
        FallsCard(Falls(prior, init), n);
      }
    }
  }

  /** Adding an index beyond every member of a set of indices adds one to its size. */
  lemma FallsCard(f: set<nat>, n: nat)
    requires forall i :: i in f ==> i < n
    ensures |f + {n}| == |f| + 1
  {
    assert n !in f;
  }

  /** Five down results in a row after being online raise one alert, not five. */
  lemma FiveDownTicks()
    ensures RunAlerts(Online, [false, false, false, false, false]) == 1
    ensures Run(Online, [false, false, false, false, false]) == Offline
  {
    var p1, p2, p3, p4, p5 := [false], [false, false], [false, false, false],
      [false, false, false, false], [false, false, false, false, false];
    assert p1[..0] == [] && p2[..1] == p1 && p3[..2] == p2 && p4[..3] == p3 && p5[..4] == p4;
    assert Run(Online, p1) == Offline && RunAlerts(Online, p1) == 1;
    assert Run(Online, p2) == Offline && RunAlerts(Online, p2) == 1;
    assert Run(Online, p3) == Offline && RunAlerts(Online, p3) == 1;
    assert Run(Online, p4) == Offline && RunAlerts(Online, p4) == 1;
  }

  /** Up, down, down, up from online: one alert on the way down, none on recovery. */
  lemma DownAndRecover()
    ensures RunAlerts(Online, [true, false, false, true]) == 1
    ensures Run(Online, [true, false, false, true]) == Online
  {
    var p1, p2, p3, p4 := [true], [true, false], [true, false, false], [true, false, false, true];
    assert p1[..0] == [] && p2[..1] == p1 && p3[..2] == p2 && p4[..3] == p3;
    assert Run(Online, p1) == Online && RunAlerts(Online, p1) == 0;
    assert Run(Online, p2) == Offline && RunAlerts(Online, p2) == 1;
    assert Run(Online, p3) == Offline && RunAlerts(Online, p3) == 1;
  }

  /** The `{ status, last_seen }` patch a reachability result writes: last_seen only when up. */
  function ProbePatch(up: bool, now: int): (p: VpsPatch)
    ensures p.status == Some(if up then Online else Offline)
    ensures p.lastSeen.Some? <==> up
    ensures up ==> p.lastSeen == Some(now)
    ensures p.(status := None, lastSeen := None) == EmptyPatch
  {
    if up then StatusPatch(Online, Some(now)) else StatusPatch(Offline, None)
  }

  /** The record a callback sees: the stored target with the same id, or the
      captured one once the target has been deleted. */
  function CurrentRecord(vs: seq<Vps>, v: Vps): (r: Vps)
    ensures r.id == v.id
    ensures IndexOf(vs, v.id).Some? ==> r == vs[IndexOf(vs, v.id).value]
    ensures IndexOf(vs, v.id).None? ==> r == v
  {
    var k := IndexOf(vs, v.id);
    if k.Some? then vs[k.value] else v
  }

  /** The note of a `status_change`: coming online or going offline. */
  function Announcement(hostname: string, via: Via, up: bool): Note {
    if up then NowOnline(hostname, via) else WentOffline(hostname, via)
  }

  // ===================== ping output =====================

  /** The figures the ping parser extracts, each None when its pattern is absent:
      the reported average, the individual `time=` samples, the TTL, the
      "N% loss" figure and the Windows "Sent = N" / "Lost = N" counters. */
  datatype PingOutput = PingOutput(
    avg: Option<real>, times: seq<real>, ttl: Option<nat>,
    lossPercent: Option<nat>, sent: Option<nat>, lost: Option<nat>)

  /** The ping command's result: an error or empty output, or parsed output. */
  datatype PingOutcome = NoOutput | Output(out: PingOutput)

  datatype PingFigures = PingFigures(latency: real, ttl: int, packetLoss: int)

  function Sum(xs: seq<real>): real {
    if xs == [] then 0.0 else Sum(xs[..|xs| - 1]) + xs[|xs| - 1]
  }

  /** The `reduce`-then-divide mean of the samples. */
  function Mean(xs: seq<real>): real
    requires xs != []
  {
    Sum(xs) / (|xs| as real)
  }

  /** Samples within [lo, hi] have their sum within [n * lo, n * hi]. */
  lemma {:induction false} SumBounds(xs: seq<real>, lo: real, hi: real)
    requires forall i :: 0 <= i < |xs| ==> lo <= xs[i] <= hi
    ensures (|xs| as real) * lo <= Sum(xs) <= (|xs| as real) * hi
  {
    if xs != [] {
      SumBounds(xs[..|xs| - 1], lo, hi);
    }
  }

  /** The mean lies between the smallest and the largest sample. */
  lemma MeanBounds(xs: seq<real>, lo: real, hi: real)
    requires xs != []
    requires forall i :: 0 <= i < |xs| ==> lo <= xs[i] <= hi
    ensures lo <= Mean(xs) <= hi
  {
    SumBounds(xs, lo, hi);
    DivBounds(Sum(xs), |xs| as real, lo, hi);
  }

  lemma DivBounds(s: real, n: real, lo: real, hi: real)
    requires n > 0.0 && n * lo <= s <= n * hi
    ensures lo <= s / n <= hi
  {
    var m := s / n;
    assert s == n * m;
  }

  /** `Math.round(lost / sent * 100)` for sent > 0; JavaScript gets NaN or Infinity
      for sent = 0, which the model stores as a total loss. */
  function RoundPercent(lost: nat, sent: nat): int {
    if sent == 0 then 100 else (200 * lost + sent) / (2 * sent)
  }

  lemma ScaleMono(a: int, b: int, d: int)
    requires a <= b && d > 0
    ensures d * a <= d * b
  {
  }

  /** The rounded figure is the nearest integer to 100 * lost / sent, halves rounding up. */
  lemma RoundPercentNearest(lost: nat, sent: nat)
    requires sent > 0
    ensures 2 * sent * RoundPercent(lost, sent) <= 200 * lost + sent < 2 * sent * (RoundPercent(lost, sent) + 1)
  {
    var d := 2 * sent;
    var x := 200 * lost + sent;
    var r := x / d;
    assert x == d * r + x % d;
    assert d * (r + 1) == d * r + d;
  }

  /** No more lost than sent gives a percentage in [0, 100]; it reaches 100 (the target is
      down) exactly when at least 199 of every 200 packets were lost. */
  lemma RoundPercentRange(lost: nat, sent: nat)
    requires sent > 0
    ensures lost <= sent ==> 0 <= RoundPercent(lost, sent) <= 100
    ensures RoundPercent(lost, sent) >= 100 <==> 200 * sent <= 200 * lost + sent
  {
    var d := 2 * sent;
    var x := 200 * lost + sent;
    var r := RoundPercent(lost, sent);
    RoundPercentNearest(lost, sent);
    if r < 0 {
      ScaleMono(r + 1, 0, d);
    }
    if lost <= sent && r > 100 {
      ScaleMono(101, r, d);
    }
    if r >= 100 {
      ScaleMono(100, r, d);
    } else {
      ScaleMono(r + 1, 100, d);
    }
  }

  /** The ping parser, from the extracted figures: latency is the average when one is
      reported, otherwise the mean of the samples, otherwise -1; loss is the rounded
      Lost/Sent ratio when a "Lost" counter is printed, otherwise the "N% loss"
      figure, otherwise 100. */
  function ReadPing(o: PingOutcome): (f: PingFigures)
    ensures o.NoOutput? ==> f == PingFigures(-1.0, 0, 100)
  {
    if o.NoOutput? then PingFigures(-1.0, 0, 100)
    else
      var p := o.out;
      var reported := if p.avg.Some? then p.avg.value else -1.0;
      var latency := if reported < 0.0 && p.times != [] then Mean(p.times) else reported;
      var loss :=
        if p.lost.Some? then (if p.sent.Some? then RoundPercent(p.lost.value, p.sent.value) else 100)
        else if p.lossPercent.Some? then p.lossPercent.value
        else 100;
      PingFigures(latency, if p.ttl.Some? then p.ttl.value else 0, loss)
  }

  /** The reachability rule of the ICMP check. */
  predicate PingUp(f: PingFigures) {
    f.latency >= 0.0 && f.packetLoss < 100
  }

  /** With figures as the patterns deliver them (non-negative numbers): the average wins,
      the mean of the samples is the fallback, and the latency is unknown (-1) exactly
      when neither is printed. */
  lemma PingLatencyRule(o: PingOutput)
    requires o.avg.Some? ==> o.avg.value >= 0.0
    requires forall i :: 0 <= i < |o.times| ==> o.times[i] >= 0.0
    ensures o.avg.Some? ==> ReadPing(Output(o)).latency == o.avg.value
    ensures o.avg.None? && o.times != [] ==> ReadPing(Output(o)).latency == Mean(o.times) >= 0.0
    ensures ReadPing(Output(o)).latency < 0.0 <==> o.avg.None? && o.times == []
  {
    if o.avg.None? && o.times != [] {
      MeanBounds(o.times, 0.0, MaxOf(o.times));
    }
  }

  function MaxOf(xs: seq<real>): (m: real)
    requires xs != []
    ensures forall i :: 0 <= i < |xs| ==> xs[i] <= m
  {
    if |xs| == 1 then xs[0]
    else
      var m := MaxOf(xs[..|xs| - 1]);
      if xs[|xs| - 1] > m then xs[|xs| - 1] else m
  }

  /** The loss rule: the Windows counters win over the percentage; a missing figure or
      an error means total loss, so the target is down. */
  lemma PingLossRule(o: PingOutput)
    ensures o.lost.Some? && o.sent.Some? ==>
      ReadPing(Output(o)).packetLoss == RoundPercent(o.lost.value, o.sent.value)
    ensures o.lost.None? && o.lossPercent.Some? ==> ReadPing(Output(o)).packetLoss == o.lossPercent.value
    ensures (o.lost.Some? && o.sent.None?) || (o.lost.None? && o.lossPercent.None?) ==>
      !PingUp(ReadPing(Output(o)))
    ensures !PingUp(ReadPing(NoOutput))
  {
  }

  // ===================== checker outcomes =====================

  /** `vps.port || 80`. */
  function PortOf(v: Vps): int {
    if v.port == 0 then 80 else v.port
  }

  /** The lower-cased protocol, `tcp` when none is set. */
  function ProtocolOf(v: Vps): string {
    Lower(Or(v.protocol, "tcp"))
  }

  /** How a port probe ended: an answer (TCP connect or UDP reply), silence until the
      5 s timeout, or an error (send, socket or connect error). */
  datatype PortOutcome = Answered(responseTime: int) | Silent(responseTime: int) | Errored(responseTime: int)

  /** UDP counts silence as open (no ICMP unreachable came back); TCP needs a connect. */
  function PortUp(udp: bool, o: PortOutcome): (up: bool)
    ensures !udp ==> (up <==> o.Answered?)
    ensures udp ==> (up <==> !o.Errored?)
  {
    o.Answered? || (udp && o.Silent?)
  }

  /** How a DNS lookup ended: the resolver address was rejected before any query, the
      query failed with an error code, or it returned its answers. */
  datatype DnsOutcome =
    | InvalidServer
    | ResolveError(code: string, responseTime: int)
    | Resolved(answers: seq<string>, responseTime: int)

  /** The HTTP reachability rule. */
  predicate HttpUp(statusCode: int) {
    200 <= statusCode < 500
  }

  function SumLengths(chunks: seq<nat>): nat {
    if chunks == [] then 0 else SumLengths(chunks[..|chunks| - 1]) + chunks[|chunks| - 1]
  }

  /** The bytes of the body, accumulated chunk by chunk as they arrive. */
  method BodySize(chunks: seq<nat>) returns (size: nat)
    ensures size == SumLengths(chunks)
    ensures chunks == [] ==> size == 0
    ensures forall i :: 0 <= i < |chunks| ==> chunks[i] <= size
  {
    size := 0;
    var i := 0;
    while i < |chunks|
      invariant 0 <= i <= |chunks|
      invariant size == SumLengths(chunks[..i])
      invariant forall j :: 0 <= j < i ==> chunks[j] <= size
    {
      assert chunks[..i + 1][..i] == chunks[..i];
      size := size + chunks[i];
      i := i + 1;
    }
    assert chunks[..i] == chunks;
  }

  // ===================== the server =====================

  /** The first two writes of a probe callback: the sample, capped per target, then the
      target's status patch. */
  method StoreProbe(db: Database, vid: int, now: int, reading: Reading, patch: VpsPatch)
    requires db.Valid()
    modifies db
    ensures db.Valid()
    ensures db.metricCounter == old(db.metricCounter) + 1
    ensures db.metrics == Capped(old(db.metrics) + [Metric(db.metricCounter, vid, now, reading)], vid)
    ensures db.vps == UpdatedVps(old(db.vps), vid, patch)
    ensures db.processes == old(db.processes) && db.alerts == old(db.alerts)
    ensures db.vpsCounter == old(db.vpsCounter) && db.processCounter == old(db.processCounter)
    ensures db.alertCounter == old(db.alertCounter)
  {
    var _ := db.AddMetric(vid, now, reading);
    var _ := db.UpdateVps(vid, patch);
  }

  /** The backend: the store and the log of events broadcast to dashboards. */
  class Server {
    const db: Database
    var events: seq<Event>

    constructor (db: Database)
      ensures this.db == db && events == []
    {
      this.db := db;
      events := [];
    }

    /** `wsBroadcast`: one more event in the log. */
    method Broadcast(e: Event)
      modifies this
      ensures events == old(events) + [e]
    {
      events := events + [e];
    }

    /** The common tail of the ICMP, HTTP and port callbacks: one sample, the status
        write, an edge-gated `status_change` and down alert, then one `metric_update`. */
    method ApplyReachability(v: Vps, now: int, reading: Reading, via: Via, kind: AlertKind,
                             text: AlertText, detail: Detail)
      requires db.Valid() && !reading.AgentReading?
      modifies this, db
      ensures db.Valid()
      ensures var cur := CurrentRecord(old(db.vps), v); var t := Decide(cur.status, reading.up);
        && db.metricCounter == old(db.metricCounter) + 1
        && db.metrics == Capped(old(db.metrics) + [Metric(db.metricCounter, v.id, now, reading)], v.id)
        && db.vps == UpdatedVps(old(db.vps), v.id, ProbePatch(reading.up, now))
        && db.alertCounter == old(db.alertCounter) + (if t.alert then 1 else 0)
        && db.alerts == old(db.alerts) + (if t.alert then [Alert(db.alertCounter, v.id, kind, Critical, text, 0, now)] else [])
        && events == old(events) + (if t.announce then [StatusChange(Announcement(cur.hostname, via, reading.up))] else [])
                                 + [MetricUpdate(v.id, cur.hostname, t.status, detail)]
      ensures db.processes == old(db.processes)
      ensures db.vpsCounter == old(db.vpsCounter) && db.processCounter == old(db.processCounter)
    {
      var cur := CurrentRecord(db.vps, v);
      var up := reading.up;
      var t := Decide(cur.status, up);
      StoreProbe(db, v.id, now, reading, ProbePatch(up, now));
      if t.announce {
        Broadcast(StatusChange(Announcement(cur.hostname, via, up)));
      }
      if t.alert {
        var _ := db.AddAlert(v.id, kind, Critical, text, now);
      }
      Broadcast(MetricUpdate(v.id, cur.hostname, t.status, detail));
    }

    /** The `exec` callback of `runICMPPing`: figures read from the output, up iff the
        latency is known and not every packet was lost; the sample stores latency 0 when
        unknown, the event -1. */
    method ApplyPing(v: Vps, outcome: PingOutcome, now: int)
      requires db.Valid()
      modifies this, db
      ensures db.Valid()
      ensures var f := ReadPing(outcome); var up := PingUp(f);
        var cur := CurrentRecord(old(db.vps), v); var t := Decide(cur.status, up);
        && db.metricCounter == old(db.metricCounter) + 1
        && db.metrics == Capped(old(db.metrics) + [Metric(db.metricCounter, v.id, now,
             PingReading(if f.latency >= 0.0 then f.latency else 0.0, f.packetLoss, f.ttl, up))], v.id)
        && db.vps == UpdatedVps(old(db.vps), v.id, ProbePatch(up, now))
        && db.alertCounter == old(db.alertCounter) + (if t.alert then 1 else 0)
        && db.alerts == old(db.alerts) +
             (if t.alert then [Alert(db.alertCounter, v.id, IcmpDown, Critical, PingFailed(cur.hostname, cur.ip), 0, now)] else [])
        && events == old(events) + (if t.announce then [StatusChange(Announcement(cur.hostname, ByIcmp, up))] else [])
             + [MetricUpdate(v.id, cur.hostname, t.status,
                             PingDetail(if f.latency >= 0.0 then f.latency else -1.0, f.packetLoss, f.ttl))]
      ensures db.processes == old(db.processes)
      ensures db.vpsCounter == old(db.vpsCounter) && db.processCounter == old(db.processCounter)
    {
      var f := ReadPing(outcome);
      var latency, ttl, packetLoss := f.latency, f.ttl, f.packetLoss;
      var up := latency >= 0.0 && packetLoss < 100;
      var cur := CurrentRecord(db.vps, v);
      ApplyReachability(v, now, PingReading(if latency >= 0.0 then latency else 0.0, packetLoss, ttl, up),
                        ByIcmp, IcmpDown, PingFailed(cur.hostname, cur.ip),
                        PingDetail(if latency >= 0.0 then latency else -1.0, packetLoss, ttl));
    }

    /** The response callback of `runHTTPCheck`: the body size summed over the chunks,
        up iff 200 <= status < 500. */
    method ApplyHttpResponse(v: Vps, statusCode: int, responseTime: int, chunks: seq<nat>, now: int)
      requires db.Valid()
      modifies this, db
      ensures db.Valid()
      ensures var up := HttpUp(statusCode);
        var cur := CurrentRecord(old(db.vps), v); var t := Decide(cur.status, up);
        && db.metricCounter == old(db.metricCounter) + 1
        && db.metrics == Capped(old(db.metrics) + [Metric(db.metricCounter, v.id, now,
             HttpReading(responseTime, statusCode, SumLengths(chunks), up))], v.id)
        && db.vps == UpdatedVps(old(db.vps), v.id, ProbePatch(up, now))
        && db.alertCounter == old(db.alertCounter) + (if t.alert then 1 else 0)
        && db.alerts == old(db.alerts) +
             (if t.alert then [Alert(db.alertCounter, v.id, HttpDown, Critical, HttpStatusFailed(cur.hostname, statusCode), 0, now)] else [])
        && events == old(events) + (if t.announce then [StatusChange(Announcement(cur.hostname, ByHttp(statusCode), up))] else [])
             + [MetricUpdate(v.id, cur.hostname, t.status, HttpDetail(responseTime, statusCode))]
      ensures db.processes == old(db.processes)
      ensures db.vpsCounter == old(db.vpsCounter) && db.processCounter == old(db.processCounter)
    {
      var bodySize := BodySize(chunks);
      var up := statusCode >= 200 && statusCode < 500;
      var cur := CurrentRecord(db.vps, v);
      ApplyReachability(v, now, HttpReading(responseTime, statusCode, bodySize, up),
                        ByHttp(statusCode), HttpDown, HttpStatusFailed(cur.hostname, statusCode),
                        HttpDetail(responseTime, statusCode));
    }

    /** The error handler of `runHTTPCheck` (a timeout destroys the request and lands here):
        always down, status code 0. */
    method ApplyHttpError(v: Vps, responseTime: int, now: int)
      requires db.Valid()
      modifies this, db
      ensures db.Valid()
      ensures var cur := CurrentRecord(old(db.vps), v); var t := Decide(cur.status, false);
        && db.metricCounter == old(db.metricCounter) + 1
        && db.metrics == Capped(old(db.metrics) + [Metric(db.metricCounter, v.id, now,
             HttpReading(responseTime, 0, 0, false))], v.id)
        && db.vps == UpdatedVps(old(db.vps), v.id, StatusPatch(Offline, None))
        && db.alertCounter == old(db.alertCounter) + (if cur.status == Online then 1 else 0)
        && db.alerts == old(db.alerts) +
             (if cur.status == Online then [Alert(db.alertCounter, v.id, HttpDown, Critical, HttpConnectionFailed(cur.hostname), 0, now)] else [])
        && events == old(events) + (if cur.status == Online then [StatusChange(WentOffline(cur.hostname, ByHttpError))] else [])
             + [MetricUpdate(v.id, cur.hostname, Offline, HttpDetail(responseTime, 0))]
      ensures db.processes == old(db.processes)
      ensures db.vpsCounter == old(db.vpsCounter) && db.processCounter == old(db.processCounter)
    {
      var cur := CurrentRecord(db.vps, v);
      ApplyReachability(v, now, HttpReading(responseTime, 0, 0, false), ByHttpError, HttpDown,
                        HttpConnectionFailed(cur.hostname), HttpDetail(responseTime, 0));
    }

    /** `storePortMetric`. */
    method StorePortMetric(v: Vps, responseTime: int, port: int, up: bool, proto: string, now: int)
      requires db.Valid()
      modifies this, db
      ensures db.Valid()
      ensures var cur := CurrentRecord(old(db.vps), v); var t := Decide(cur.status, up);
        && db.metricCounter == old(db.metricCounter) + 1
        && db.metrics == Capped(old(db.metrics) + [Metric(db.metricCounter, v.id, now,
             PortReading(responseTime, port, up))], v.id)
        && db.vps == UpdatedVps(old(db.vps), v.id, ProbePatch(up, now))
        && db.alertCounter == old(db.alertCounter) + (if t.alert then 1 else 0)
        && db.alerts == old(db.alerts) +
             (if t.alert then [Alert(db.alertCounter, v.id, PortDown, Critical, PortClosedOn(port, proto, cur.hostname, cur.ip), 0, now)] else [])
        && events == old(events) + (if t.announce then [StatusChange(Announcement(cur.hostname, ByPort(port, proto), up))] else [])
             + [MetricUpdate(v.id, cur.hostname, t.status, PortDetail(responseTime, port))]
      ensures db.processes == old(db.processes)
      ensures db.vpsCounter == old(db.vpsCounter) && db.processCounter == old(db.processCounter)
    {
      var cur := CurrentRecord(db.vps, v);
      ApplyReachability(v, now, PortReading(responseTime, port, up), ByPort(port, proto), PortDown,
                        PortClosedOn(port, proto, cur.hostname, cur.ip), PortDetail(responseTime, port));
    }

    /** The callbacks of `runTCPUDPCheck`: port `vps.port || 80`; a `udp` protocol probes
        by datagram, anything else by TCP connect and is labelled `tcp`. */
    method ApplyPortCheck(v: Vps, outcome: PortOutcome, now: int)
      requires db.Valid()
      modifies this, db
      ensures db.Valid()
      ensures var udp := ProtocolOf(v) == "udp"; var up := PortUp(udp, outcome);
        var cur := CurrentRecord(old(db.vps), v); var t := Decide(cur.status, up);
        && db.metricCounter == old(db.metricCounter) + 1
        && db.metrics == Capped(old(db.metrics) + [Metric(db.metricCounter, v.id, now,
             PortReading(outcome.responseTime, PortOf(v), up))], v.id)
        && db.vps == UpdatedVps(old(db.vps), v.id, ProbePatch(up, now))
        && db.alertCounter == old(db.alertCounter) + (if t.alert then 1 else 0)
        && db.alerts == old(db.alerts) +
             (if t.alert then [Alert(db.alertCounter, v.id, PortDown, Critical,
                PortClosedOn(PortOf(v), if udp then "udp" else "tcp", cur.hostname, cur.ip), 0, now)] else [])
        && |events| == |old(events)| + (if t.announce then 2 else 1)
      ensures db.processes == old(db.processes)
      ensures db.vpsCounter == old(db.vpsCounter) && db.processCounter == old(db.processCounter)
    {
      var port := PortOf(v);
      var proto := ProtocolOf(v);
      if proto == "udp" {
        StorePortMetric(v, outcome.responseTime, port, outcome.Answered? || outcome.Silent?, "udp", now);
      } else {
        StorePortMetric(v, outcome.responseTime, port, outcome.Answered?, "tcp", now);
      }
    }

    /** `storeDNSMetric`: one sample, the status from success, last_seen refreshed only on
        success, one `metric_update`; never an alert or a `status_change`. */
    method StoreDnsMetric(v: Vps, responseTime: int, result: string, up: bool, now: int)
      requires db.Valid()
      modifies this, db
      ensures db.Valid()
      ensures var cur := CurrentRecord(old(db.vps), v);
        && db.metricCounter == old(db.metricCounter) + 1
        && db.metrics == Capped(old(db.metrics) + [Metric(db.metricCounter, v.id, now,
             DnsReading(responseTime, result, up))], v.id)
        && db.vps == UpdatedVps(old(db.vps), v.id,
             StatusPatch(if up then Online else Offline, if up then Some(now) else cur.lastSeen))
        && events == old(events) + [MetricUpdate(v.id, cur.hostname, if up then Online else Offline,
                                                 DnsDetail(responseTime, result))]
      ensures db.alerts == old(db.alerts) && db.alertCounter == old(db.alertCounter)
      ensures db.processes == old(db.processes)
      ensures db.vpsCounter == old(db.vpsCounter) && db.processCounter == old(db.processCounter)
    {
      var cur := CurrentRecord(db.vps, v);
      var _ := db.AddMetric(v.id, now, DnsReading(responseTime, result, up));
      var _ := db.UpdateVps(v.id, StatusPatch(if up then Online else Offline, if up then Some(now) else cur.lastSeen));
      Broadcast(MetricUpdate(v.id, cur.hostname, if up then Online else Offline, DnsDetail(responseTime, result)));
    }

    /** `runDNSCheck` for one target: a rejected resolver address records "Invalid IP" with
        response time 0; an error records its code; answers are joined with ", ". */
    method ApplyDnsCheck(v: Vps, outcome: DnsOutcome, now: int)
      requires db.Valid()
      modifies this, db
      ensures db.Valid()
      ensures var r := DnsResult(outcome); var cur := CurrentRecord(old(db.vps), v);
        && db.metricCounter == old(db.metricCounter) + 1
        && db.metrics == Capped(old(db.metrics) + [Metric(db.metricCounter, v.id, now, r)], v.id)
        && db.vps == UpdatedVps(old(db.vps), v.id,
             StatusPatch(if r.up then Online else Offline, if r.up then Some(now) else cur.lastSeen))
        && (outcome.InvalidServer? ==> r == DnsReading(0, "Invalid IP", false))
        && (r.up <==> outcome.Resolved?)
        && |events| == |old(events)| + 1 && events[|events| - 1].MetricUpdate?
      ensures db.alerts == old(db.alerts) && db.processes == old(db.processes)
      ensures db.vpsCounter == old(db.vpsCounter) && db.processCounter == old(db.processCounter)
      ensures db.alertCounter == old(db.alertCounter)
    {
      match outcome
      case InvalidServer =>
        StoreDnsMetric(v, 0, "Invalid IP", false, now);
      case ResolveError(code, rt) =>
        StoreDnsMetric(v, rt, code, false, now);
      case Resolved(answers, rt) =>
        StoreDnsMetric(v, rt, Join(answers, ", "), true, now);
    }

    /** The cron tick: forces stale agents offline and announces the count iff positive. */
    method StaleTick(now: int) returns (count: nat)
      requires db.Valid()
      modifies this, db
      ensures db.Valid()
      ensures count == CountStale(old(db.vps), now - StaleAfterMs)
      ensures db.vps == Swept(old(db.vps), now - StaleAfterMs)
      ensures events == old(events) + (if count > 0 then [StatusChange(WentStale(count))] else [])
      ensures db.metrics == old(db.metrics) && db.alerts == old(db.alerts) && db.processes == old(db.processes)
      ensures db.vpsCounter == old(db.vpsCounter) && db.metricCounter == old(db.metricCounter)
      ensures db.processCounter == old(db.processCounter) && db.alertCounter == old(db.alertCounter)
    {
      count := db.MarkStaleOffline(now, StaleAfterMs);
      if count > 0 {
        Broadcast(StatusChange(WentStale(count)));
      }
    }

    /** One ICMP round: the agentless targets listed when the round starts, each with the
        outcome of its ping; every result adds one sample and one `metric_update`. */
    method PingRound(outcomes: seq<PingOutcome>, now: int)
      requires db.Valid()
      requires |outcomes| == |ProbeTargets(db.vps, Agentless)|
      modifies this, db
      ensures db.Valid()
      ensures db.metricCounter == old(db.metricCounter) + |outcomes|
      ensures db.vpsCounter == old(db.vpsCounter) && db.processCounter == old(db.processCounter)
      ensures Updates(events) == Updates(old(events)) + |outcomes|
    {
      var targets := ProbeTargets(db.vps, Agentless);
      var i := 0;
      while i < |targets|
        invariant 0 <= i <= |targets|
        invariant db.Valid()
        invariant db.metricCounter == old(db.metricCounter) + i
        invariant db.vpsCounter == old(db.vpsCounter) && db.processCounter == old(db.processCounter)
        invariant Updates(events) == Updates(old(events)) + i
      {
        var before := events;
        var cur := CurrentRecord(db.vps, targets[i]);
        var up := PingUp(ReadPing(outcomes[i]));
        ApplyPing(targets[i], outcomes[i], now);
        var t := Decide(cur.status, up);
        ProbeEventsUpdates(before, if t.announce then [StatusChange(Announcement(cur.hostname, ByIcmp, up))] else [],
                           events[|events| - 1]);
        i := i + 1;
      }
    }
  }

  /** The reading a DNS outcome stores. */
  function DnsResult(o: DnsOutcome): Reading {
    match o
    case InvalidServer => DnsReading(0, "Invalid IP", false)
    case ResolveError(code, rt) => DnsReading(rt, code, false)
    case Resolved(answers, rt) => DnsReading(rt, Join(answers, ", "), true)
  }

  /** The targets a checker probes: those of its monitor type, in store order. */
  function ProbeTargets(vs: seq<Vps>, t: MonitorType): seq<Vps> {
    Filter(vs, (v: Vps) => v.monitorType == t)
  }
}
