/** The in-memory monitoring store of `server/database.js`: the target list
    ("VPS"), metric samples, process snapshots, alerts and their id counters.
    Queries are functions of the stored sequences; the operations that push,
    filter or mutate records are methods of the class `Database`. */
module Store {
  import opened Optional
  import opened Text
  import opened Seqs
  import opened Schema

  /** Samples kept per target before the oldest are evicted. */
  const MaxSamplesPerVps := 120

  /** Length of the history `getVPS` returns. */
  const HistoryLength := 60

  /** Process records `getProcesses` returns at most. */
  const MaxProcesses := 20

  // ===================== targets =====================

  /** `find`/`findIndex` by id: the first target carrying `id`. */
  function IndexOf(vs: seq<Vps>, id: int): (r: Option<nat>)
    ensures r.None? <==> forall i :: 0 <= i < |vs| ==> vs[i].id != id
    ensures r.Some? ==> r.value < |vs| && vs[r.value].id == id
    ensures r.Some? ==> forall i :: 0 <= i < r.value ==> vs[i].id != id
  {
    if vs == [] then None
    else if vs[0].id == id then Some(0)
    else match IndexOf(vs[1..], id)
      case None => None
      case Some(k) => Some(k + 1)
  }

  /** `getVPSByApiKey`: the first target whose key equals `key`, if any. */
  function FindByApiKey(vs: seq<Vps>, key: string): (r: Option<Vps>)
    ensures r.None? <==> forall i :: 0 <= i < |vs| ==> vs[i].apiKey != key
    ensures r.Some? ==> r.value in vs && r.value.apiKey == key
    ensures r.Some? ==>
      exists k :: 0 <= k < |vs| && vs[k] == r.value && (forall j :: 0 <= j < k ==> vs[j].apiKey != key)
  {
    if vs == [] then None
    else if vs[0].apiKey == key then Some(vs[0])
    else FindByApiKey(vs[1..], key)
  }

  /** The data `addVPS` receives; an empty string stands for a falsy field. */
  datatype VpsInput = VpsInput(
    hostname: string, ip: string, location: string, os: string,
    status: Option<Status>, monitorType: Option<MonitorType>, group: string, apiKey: string,
    cpuCores: int, ramTotal: int, diskTotal: int, url: string, port: int, protocol: string,
    lookupDomain: string, recordType: string, lastSeen: Option<int>)

  /** `s || d` for a string. */
  function Or(s: string, d: string): string {
    if s == "" then d else s
  }

  /** The record `addVPS` builds for the given id, with its defaults filled in. */
  function NewVps(id: int, data: VpsInput, now: int): (v: Vps)
    ensures v.id == id && v.hostname == data.hostname && v.ip == data.ip
    ensures v.location != "" && v.os != "" && v.group != "" && v.recordType != ""
    ensures data.status.None? ==> v.status == Offline
    ensures data.monitorType.None? ==> v.monitorType == Agent
    ensures v.createdAt == now && v.lastSeen == data.lastSeen
  {
    Vps(id, data.hostname, data.ip, Or(data.location, "Jakarta"), Or(data.os, "-"),
        data.status.GetOr(Offline), data.monitorType.GetOr(Agent), Or(data.group, "General"),
        data.apiKey, data.cpuCores, data.ramTotal, data.diskTotal, Or(data.url, ""),
        data.port, Or(data.protocol, ""), Or(data.lookupDomain, ""), Or(data.recordType, "A"),
        now, data.lastSeen)
  }

  /** `updateVPS`'s key loop: every present key overwrites, every absent one is kept. */
  function ApplyPatch(v: Vps, p: VpsPatch): (r: Vps)
    ensures p.id.None? ==> r.id == v.id
    ensures p.createdAt.None? ==> r.createdAt == v.createdAt
  {
    Vps(p.id.GetOr(v.id), p.hostname.GetOr(v.hostname), p.ip.GetOr(v.ip), p.location.GetOr(v.location),
        p.os.GetOr(v.os), p.status.GetOr(v.status), p.monitorType.GetOr(v.monitorType),
        p.group.GetOr(v.group), p.apiKey.GetOr(v.apiKey), p.cpuCores.GetOr(v.cpuCores),
        p.ramTotal.GetOr(v.ramTotal), p.diskTotal.GetOr(v.diskTotal), p.url.GetOr(v.url),
        p.port.GetOr(v.port), p.protocol.GetOr(v.protocol), p.lookupDomain.GetOr(v.lookupDomain),
        p.recordType.GetOr(v.recordType), p.createdAt.GetOr(v.createdAt),
        if p.lastSeen.Some? then p.lastSeen else v.lastSeen)
  }

  /** A patch with no key changes nothing, and applying a patch twice is applying it once. */
  lemma PatchLaws(v: Vps, p: VpsPatch)
    ensures ApplyPatch(v, EmptyPatch) == v
    ensures ApplyPatch(ApplyPatch(v, p), p) == ApplyPatch(v, p)
  {
  }

  /** A present key is written, whatever its value (0 and "" included). */
  lemma PatchWritesPresentKeys(v: Vps, p: VpsPatch, r: Vps)
    requires r == ApplyPatch(v, p)
    ensures (p.id.Some? ==> r.id == p.id.value) && (p.id.None? ==> r.id == v.id)
    ensures (p.hostname.Some? ==> r.hostname == p.hostname.value) && (p.hostname.None? ==> r.hostname == v.hostname)
    ensures (p.ip.Some? ==> r.ip == p.ip.value) && (p.ip.None? ==> r.ip == v.ip)
    ensures (p.location.Some? ==> r.location == p.location.value) && (p.location.None? ==> r.location == v.location)
    ensures (p.os.Some? ==> r.os == p.os.value) && (p.os.None? ==> r.os == v.os)
    ensures (p.status.Some? ==> r.status == p.status.value) && (p.status.None? ==> r.status == v.status)
    ensures (p.monitorType.Some? ==> r.monitorType == p.monitorType.value) && (p.monitorType.None? ==> r.monitorType == v.monitorType)
    ensures (p.group.Some? ==> r.group == p.group.value) && (p.group.None? ==> r.group == v.group)
    ensures (p.apiKey.Some? ==> r.apiKey == p.apiKey.value) && (p.apiKey.None? ==> r.apiKey == v.apiKey)
    ensures (p.cpuCores.Some? ==> r.cpuCores == p.cpuCores.value) && (p.cpuCores.None? ==> r.cpuCores == v.cpuCores)
    ensures (p.ramTotal.Some? ==> r.ramTotal == p.ramTotal.value) && (p.ramTotal.None? ==> r.ramTotal == v.ramTotal)
    ensures (p.diskTotal.Some? ==> r.diskTotal == p.diskTotal.value) && (p.diskTotal.None? ==> r.diskTotal == v.diskTotal)
    ensures (p.url.Some? ==> r.url == p.url.value) && (p.url.None? ==> r.url == v.url)
    ensures (p.port.Some? ==> r.port == p.port.value) && (p.port.None? ==> r.port == v.port)
    ensures (p.protocol.Some? ==> r.protocol == p.protocol.value) && (p.protocol.None? ==> r.protocol == v.protocol)
    ensures (p.lookupDomain.Some? ==> r.lookupDomain == p.lookupDomain.value) && (p.lookupDomain.None? ==> r.lookupDomain == v.lookupDomain)
    ensures (p.recordType.Some? ==> r.recordType == p.recordType.value) && (p.recordType.None? ==> r.recordType == v.recordType)
    ensures (p.createdAt.Some? ==> r.createdAt == p.createdAt.value) && (p.createdAt.None? ==> r.createdAt == v.createdAt)
    ensures (p.lastSeen.Some? ==> r.lastSeen == p.lastSeen) && (p.lastSeen.None? ==> r.lastSeen == v.lastSeen)
  {
  }

  /** The target list after `updateVPS(id, p)`. */
  function UpdatedVps(vs: seq<Vps>, id: int, p: VpsPatch): (r: seq<Vps>)
    ensures |r| == |vs|
    ensures forall i :: 0 <= i < |vs| ==> r[i] == vs[i] || r[i] == ApplyPatch(vs[i], p)
    ensures p.id.None? ==> forall i :: 0 <= i < |vs| ==> r[i].id == vs[i].id
  {
    match IndexOf(vs, id)
    case None => vs
    case Some(k) => vs[k := ApplyPatch(vs[k], p)]
  }

  /** Only the first target carrying the id is changed, as the patch says; an unknown id changes nothing. */
  lemma UpdatedVpsEffect(vs: seq<Vps>, id: int, p: VpsPatch)
    ensures IndexOf(vs, id).None? ==> UpdatedVps(vs, id, p) == vs
    ensures IndexOf(vs, id).Some? ==>
      var k := IndexOf(vs, id).value;
      UpdatedVps(vs, id, p)[k] == ApplyPatch(vs[k], p) &&
      forall i :: 0 <= i < |vs| && i != k ==> UpdatedVps(vs, id, p)[i] == vs[i]
  {
  }

  // ===================== listing =====================

  /** Query parameters of `getAllVPS`; an empty string or None is a filter not given. */
  datatype ListQuery = ListQuery(
    status: Option<Status>, group: string, monitorType: Option<MonitorType>,
    search: string, page: int, limit: int)

  /** The search clause: case-insensitive hostname substring, or ip substring of the lower-cased query. */
  predicate SearchHit(v: Vps, search: string) {
    var q := Lower(search);
    Contains(Lower(v.hostname), q) || Contains(v.ip, q)
  }

  /** All filters that are given hold of the target. */
  predicate Matches(v: Vps, q: ListQuery) {
    && (q.status.None? || v.status == q.status.value)
    && (q.group == "" || v.group == q.group)
    && (q.monitorType.None? || v.monitorType == q.monitorType.value)
    && (q.search == "" || SearchHit(v, q.search))
  }

  /** The list order: online targets before the others, each part by hostname. */
  predicate ListOrder(a: Vps, b: Vps) {
    if (a.status == Online) != (b.status == Online) then a.status == Online
    else StrLe(a.hostname, b.hostname)
  }

  lemma ListOrderIsPreorder()
    ensures TotalPreorder(ListOrder)
  {
    forall a: Vps, b: Vps ensures ListOrder(a, b) || ListOrder(b, a) {
      StrLeTotal(a.hostname, b.hostname);
    }
    forall a: Vps, b: Vps, c: Vps | ListOrder(a, b) && ListOrder(b, c) ensures ListOrder(a, c) {
      if (a.status == Online) == (b.status == Online) == (c.status == Online) {
        StrLeTrans(a.hostname, b.hostname, c.hostname);
      }
    }
  }

  /** The filtered, sorted target list before paging. */
  function Listed(vs: seq<Vps>, q: ListQuery): seq<Vps> {
    Sort(Filter(vs, (v: Vps) => Matches(v, q)), ListOrder)
  }

  /** A target as listed, with the fields of its latest sample attached. */
  datatype VpsRow = VpsRow(
    vps: Vps, cpu: real, mem: Option<real>, disk: real, netInRate: real,
    netOutRate: real, load1: real, uptime: real)

  /** Attaches the latest sample's fields; a target without samples gets zeros. */
  function Enrich(v: Vps, ms: seq<Metric>): (r: VpsRow)
    ensures r.vps == v
    ensures (forall i :: 0 <= i < |ms| ==> ms[i].vpsId != v.id) ==>
      r == VpsRow(v, 0.0, Some(0.0), 0.0, 0.0, 0.0, 0.0, 0.0)
  {
    match LatestMetric(ms, v.id)
    case None => VpsRow(v, 0.0, Some(0.0), 0.0, 0.0, 0.0, 0.0, 0.0)
    case Some(m) =>
      VpsRow(v, CpuPercent(m.reading), MemPercent(m.reading), DiskPercent(m.reading),
             NetInRate(m.reading), NetOutRate(m.reading), LoadOne(m.reading), Uptime(m.reading))
  }

  /** `Math.ceil(total / limit)`; None where JavaScript gets Infinity or NaN (limit 0). */
  function PageCount(total: nat, limit: int): (r: Option<int>)
    ensures r.None? <==> limit == 0
    ensures limit > 0 ==> (r.value - 1) * limit < total <= r.value * limit
    ensures limit < 0 ==> r.value <= 0 && r.value * limit <= total < (r.value - 1) * limit
  {
    if limit == 0 then None
    else if limit > 0 then
      var p := (total + limit - 1) / limit;
      assert (p - 1) * limit < total <= p * limit by {
        CeilDiv(total, limit);
      }
      Some(p)
    else
      var p := -(total / -limit);
      assert p * limit <= total < (p - 1) * limit by {
        FloorDiv(total, -limit);
      }
      Some(p)
  }

  lemma CeilDiv(total: nat, limit: int)
    requires limit > 0
    ensures var p := (total + limit - 1) / limit; (p - 1) * limit < total <= p * limit
  {
    var p := (total + limit - 1) / limit;
    var rem := (total + limit - 1) % limit;
    assert total + limit - 1 == p * limit + rem;
    assert (p - 1) * limit == p * limit - limit;
  }

  lemma FloorDiv(total: nat, d: int)
    requires d > 0
    ensures var p := -(total / d); p * -d <= total < (p - 1) * -d
  {
    var q := total / d;
    assert total == q * d + total % d;
    assert (-q) * -d == q * d;
    assert (-q - 1) * -d == q * d + d;
  }

  datatype Listing = Listing(data: seq<VpsRow>, total: nat, page: int, limit: int, pages: Option<int>)

  /** `getAllVPS`. */
  function AllVps(vs: seq<Vps>, ms: seq<Metric>, q: ListQuery): Listing {
    Paginate(Listed(vs, q), ms, q.page, q.limit)
  }

  /** One page of an already filtered and ordered list, with the counts around it. */
  function Paginate(listed: seq<Vps>, ms: seq<Metric>, page: int, limit: int): Listing {
    var offset := Offset(page, limit);
    var paged := JsSlice(listed, offset, offset + limit);
    Listing(Rows(paged, ms), |listed|, page, limit, PageCount(|listed|, limit))
  }

  /** Where page `page` starts: `(page - 1) * limit`. */
  function Offset(page: int, limit: int): (r: int)
    ensures page >= 1 && limit >= 0 ==> r >= 0
  {
    MulNonneg(if page >= 1 then page - 1 else 0, if limit >= 0 then limit else 0);
    (page - 1) * limit
  }

  /** Each target of a page enriched with its latest sample. */
  function Rows(paged: seq<Vps>, ms: seq<Metric>): (r: seq<VpsRow>)
    ensures |r| == |paged|
    ensures forall k :: 0 <= k < |r| ==> r[k].vps == paged[k]
  {
    seq(|paged|, i requires 0 <= i < |paged| => Enrich(paged[i], ms))
  }

  /** The rows of the window [offset, offset + limit) of a list. */
  lemma RowsWindow(listed: seq<Vps>, ms: seq<Metric>, offset: int, limit: int)
    requires offset >= 0 && limit > 0
    ensures var d := Rows(JsSlice(listed, offset, offset + limit), ms);
      && |d| == Min(offset + limit, |listed|) - Min(offset, |listed|)
      && (forall k :: 0 <= k < |d| ==> d[k] == Enrich(listed[offset + k], ms))
  {
    var paged := JsSlice(listed, offset, offset + limit);
    JsSliceWindow(listed, offset, offset + limit);
    forall k | 0 <= k < |paged| ensures Rows(paged, ms)[k] == Enrich(listed[offset + k], ms) {
      assert paged[k] == listed[offset + k];
    }
  }

  /** The list holds exactly the targets matching every given filter, none more often than stored. */
  lemma ListedMembers(vs: seq<Vps>, q: ListQuery)
    ensures forall v :: v in Listed(vs, q) ==> v in vs && Matches(v, q)
    ensures forall v :: v in vs && Matches(v, q) ==> v in Listed(vs, q)
    ensures multiset(Listed(vs, q)) <= multiset(vs)
  {
    var f := Filter(vs, (v: Vps) => Matches(v, q));
    FilterMembers(vs, (v: Vps) => Matches(v, q));
    SortMembers(f, ListOrder);
  }

  /** Online targets come first; within each part hostnames are in order. */
  lemma ListedOrder(vs: seq<Vps>, q: ListQuery)
    ensures forall i, j :: 0 <= i < j < |Listed(vs, q)| && Listed(vs, q)[j].status == Online ==>
      Listed(vs, q)[i].status == Online
    ensures forall i, j ::
      (0 <= i < j < |Listed(vs, q)| && (Listed(vs, q)[i].status == Online) == (Listed(vs, q)[j].status == Online))
      ==> StrLe(Listed(vs, q)[i].hostname, Listed(vs, q)[j].hostname)
  {
    ListOrderIsPreorder();
    SortSorted(Filter(vs, (v: Vps) => Matches(v, q)), ListOrder);
  }

  lemma MulNonneg(a: int, b: int)
    requires a >= 0 && b >= 0
    ensures a * b >= 0
  {
  }

  /** For page >= 1 and limit > 0 the data is the window [(page-1)*limit, page*limit) of the
      list, each row carrying its target. */
  lemma PaginateWindow(listed: seq<Vps>, ms: seq<Metric>, page: int, limit: int)
    requires page >= 1 && limit > 0
    ensures var r := Paginate(listed, ms, page, limit);
      var offset := Offset(page, limit);
      && |r.data| == Min(offset + limit, |listed|) - Min(offset, |listed|)
      && (forall k :: 0 <= k < |r.data| ==> r.data[k] == Enrich(listed[offset + k], ms))
  {
    RowsWindow(listed, ms, Offset(page, limit), limit);
  }

  /** `total` counts the whole list and, for limit > 0, `pages` is the least page count
      covering it. */
  lemma PaginateCounts(listed: seq<Vps>, ms: seq<Metric>, page: int, limit: int)
    requires limit > 0
    ensures var r := Paginate(listed, ms, page, limit);
      && r.total == |listed|
      && r.pages.Some? && (r.pages.value - 1) * limit < r.total <= r.pages.value * limit
  {
  }

  // ===================== metrics =====================

  /** The samples of one target, in store order. */
  function SamplesOf(ms: seq<Metric>, vid: int): seq<Metric> {
    Filter(ms, (m: Metric) => m.vpsId == vid)
  }

  lemma SamplesOfMembers(ms: seq<Metric>, vid: int)
    ensures forall m :: m in SamplesOf(ms, vid) ==> m in ms && m.vpsId == vid
    ensures forall m :: m in ms && m.vpsId == vid ==> m in SamplesOf(ms, vid)
  {
    FilterMembers(ms, (m: Metric) => m.vpsId == vid);
  }

  /** The `reduce` of `getLatestMetric`: the first sample with the greatest timestamp. */
  function LatestIndex(s: seq<Metric>): (k: nat)
    requires s != []
    ensures k < |s|
    ensures forall j :: 0 <= j < |s| ==> s[j].timestamp <= s[k].timestamp
    ensures forall j :: 0 <= j < k ==> s[j].timestamp < s[k].timestamp
  {
    if |s| == 1 then 0
    else
      var k := LatestIndex(s[..|s| - 1]);
      if s[|s| - 1].timestamp > s[k].timestamp then |s| - 1 else k
  }

  /** `getLatestMetric`: the newest sample of a target, None when it has none. */
  function LatestMetric(ms: seq<Metric>, vid: int): (r: Option<Metric>)
    ensures r.None? <==> forall i :: 0 <= i < |ms| ==> ms[i].vpsId != vid
    ensures r.Some? ==> r.value in ms && r.value.vpsId == vid
    ensures r.Some? ==> forall i :: 0 <= i < |ms| && ms[i].vpsId == vid ==> ms[i].timestamp <= r.value.timestamp
  {
    var s := SamplesOf(ms, vid);
    SamplesOfMembers(ms, vid);
    if s == [] then
      assert forall i :: 0 <= i < |ms| ==> ms[i].vpsId != vid by {
        forall i | 0 <= i < |ms| ensures ms[i].vpsId != vid {
          assert ms[i] in ms;
        }
      }
      None
    else
      var k := LatestIndex(s);
      assert s[k] in s;
      assert forall i :: 0 <= i < |ms| && ms[i].vpsId == vid ==> ms[i].timestamp <= s[k].timestamp by {
        forall i | 0 <= i < |ms| && ms[i].vpsId == vid ensures ms[i].timestamp <= s[k].timestamp {
          assert ms[i] in ms;
          var j :| 0 <= j < |s| && s[j] == ms[i];
        }
      }
      Some(s[k])
  }

  /** Orders samples by ascending timestamp. */
  predicate OlderOrSame(a: Metric, b: Metric) {
    a.timestamp <= b.timestamp
  }

  datatype VpsDetail = VpsDetail(vps: Vps, latest: Option<Metric>, history: seq<Metric>)

  /** The history of `getVPS`: the target's samples sorted by time, last 60. */
  function History(ms: seq<Metric>, vid: int): seq<Metric> {
    var sorted := Sort(SamplesOf(ms, vid), OlderOrSame);
    JsSlice(sorted, -HistoryLength, |sorted|)
  }

  /** `getVPS`: the target with its latest sample and recent history; None for an unknown id. */
  function GetVps(vs: seq<Vps>, ms: seq<Metric>, id: int): (r: Option<VpsDetail>)
    ensures r.None? <==> forall i :: 0 <= i < |vs| ==> vs[i].id != id
    ensures r.Some? ==> r.value.vps in vs && r.value.vps.id == id
  {
    match IndexOf(vs, id)
    case None => None
    case Some(k) => Some(VpsDetail(vs[k], LatestMetric(ms, id), History(ms, id)))
  }

  /** The history has min(count, 60) samples; a target with at most 60 gets all of them. */
  lemma HistoryLengthSpec(ms: seq<Metric>, vid: int)
    ensures |History(ms, vid)| == Min(|SamplesOf(ms, vid)|, HistoryLength)
    ensures |SamplesOf(ms, vid)| <= HistoryLength ==> multiset(History(ms, vid)) == multiset(SamplesOf(ms, vid))
  {
    JsSliceTail(Sort(SamplesOf(ms, vid), OlderOrSame), HistoryLength);
  }

  /** Every history entry is a stored sample of the target. */
  lemma HistoryMembers(ms: seq<Metric>, vid: int)
    ensures forall m :: m in History(ms, vid) ==> m in ms && m.vpsId == vid
  {
    var s := SamplesOf(ms, vid);
    var sorted := Sort(s, OlderOrSame);
    SamplesOfMembers(ms, vid);
    SortMembers(s, OlderOrSame);
    JsSliceMembers(sorted, -HistoryLength, |sorted|);
  }

  /** The history is oldest first. */
  lemma HistorySorted(ms: seq<Metric>, vid: int)
    ensures SortedBy(History(ms, vid), OlderOrSame)
  {
    var s := SamplesOf(ms, vid);
    assert TotalPreorder(OlderOrSame);
    SortSorted(s, OlderOrSame);
    var sorted := Sort(s, OlderOrSame);
    JsSliceSorted(sorted, -HistoryLength, |sorted|, OlderOrSame);
  }

  /** The history keeps the newest samples: a sample of the target left out of it is no
      newer than any sample in it. */
  lemma HistoryNewest(ms: seq<Metric>, vid: int)
    ensures forall m :: m in SamplesOf(ms, vid) && m !in History(ms, vid) ==>
      forall k :: 0 <= k < |History(ms, vid)| ==> m.timestamp <= History(ms, vid)[k].timestamp
  {
    var s := SamplesOf(ms, vid);
    assert TotalPreorder(OlderOrSame);
    SortSorted(s, OlderOrSame);
    SortMembers(s, OlderOrSame);
    JsSliceTailLast(Sort(s, OlderOrSame), -HistoryLength, OlderOrSame);
  }

  /** The first sample of `vid` among those with the smallest timestamp: the one a stable
      sort by timestamp puts first. */
  function OldestIndex(ms: seq<Metric>, vid: int): (r: Option<nat>)
    ensures r.None? <==> forall i :: 0 <= i < |ms| ==> ms[i].vpsId != vid
    ensures r.Some? ==> IsOldest(ms, vid, r.value)
  {
    if ms == [] then None
    else
      var r := OldestIndex(ms[..|ms| - 1], vid);
      var last := |ms| - 1;
      if ms[last].vpsId != vid then r
      else if r.None? || ms[last].timestamp < ms[r.value].timestamp then Some(last)
      else r
  }

  /** Sample k is the one a stable sort of vid's samples by timestamp puts first. */
  ghost predicate IsOldest(ms: seq<Metric>, vid: int, k: int) {
    && 0 <= k < |ms| && ms[k].vpsId == vid
    && (forall j :: 0 <= j < |ms| && ms[j].vpsId == vid ==> ms[k].timestamp <= ms[j].timestamp)
    && (forall j :: 0 <= j < k && ms[j].vpsId == vid ==> ms[k].timestamp < ms[j].timestamp)
  }

  /** Drops the oldest sample of `vid`. */
  function RemoveOldest(ms: seq<Metric>, vid: int): seq<Metric> {
    var o := OldestIndex(ms, vid);
    if o.None? then ms else RemoveAt(ms, o.value)
  }

  /** Drops the n oldest samples of `vid`, one after the other: the same samples as
      the first n of a stable sort by timestamp. */
  function Evict(ms: seq<Metric>, vid: int, n: nat): seq<Metric>
    decreases n
  {
    if n == 0 then ms else Evict(RemoveOldest(ms, vid), vid, n - 1)
  }

  /** The retention step of `addMetric`: above 120 samples, the surplus oldest go. */
  function Capped(ms: seq<Metric>, vid: int): seq<Metric> {
    var count := |SamplesOf(ms, vid)|;
    if count > MaxSamplesPerVps then Evict(ms, vid, count - MaxSamplesPerVps) else ms
  }

  lemma SamplesOfRemoveAt(ms: seq<Metric>, k: nat, w: int)
    requires k < |ms|
    ensures SamplesOf(ms, w) == SamplesOf(ms[..k], w) + SamplesOf([ms[k]], w) + SamplesOf(ms[k + 1..], w)
    ensures SamplesOf(RemoveAt(ms, k), w) == SamplesOf(ms[..k], w) + SamplesOf(ms[k + 1..], w)
  {
    var p := (m: Metric) => m.vpsId == w;
    assert ms == ms[..k] + [ms[k]] + ms[k + 1..];
    FilterAppend(ms[..k] + [ms[k]], ms[k + 1..], p);
    FilterAppend(ms[..k], [ms[k]], p);
    FilterAppend(ms[..k], ms[k + 1..], p);
  }

  /** Removing the oldest sample of vid takes no other target's sample. */
  lemma RemoveOldestOthers(ms: seq<Metric>, vid: int, w: int)
    requires w != vid
    ensures SamplesOf(RemoveOldest(ms, vid), w) == SamplesOf(ms, w)
  {
    var o := OldestIndex(ms, vid);
    if o.Some? {
      SamplesOfRemoveAt(ms, o.value, w);
      FilterSingle(ms[o.value], (m: Metric) => m.vpsId == w);
    }
  }

  /** Removing the oldest sample of vid takes exactly one of vid's samples. */
  lemma RemoveOldestOwn(ms: seq<Metric>, vid: int)
    requires |SamplesOf(ms, vid)| > 0
    ensures |SamplesOf(RemoveOldest(ms, vid), vid)| == |SamplesOf(ms, vid)| - 1
  {
    var o := OldestIndex(ms, vid);
    if o.None? {
      FilterNone(ms, (m: Metric) => m.vpsId == vid);
    } else {
      SamplesOfRemoveAt(ms, o.value, vid);
      FilterSingle(ms[o.value], (m: Metric) => m.vpsId == vid);
    }
  }

  lemma {:induction false} EvictOthers(ms: seq<Metric>, vid: int, n: nat, w: int)
    requires w != vid
    ensures SamplesOf(Evict(ms, vid, n), w) == SamplesOf(ms, w)
    decreases n
  {
    if n > 0 {
      var r := RemoveOldest(ms, vid);
      RemoveOldestOthers(ms, vid, w);
      EvictOthers(r, vid, n - 1, w);
      assert Evict(ms, vid, n) == Evict(r, vid, n - 1);
    }
  }

  lemma {:induction false} EvictCounts(ms: seq<Metric>, vid: int, n: nat)
    requires n <= |SamplesOf(ms, vid)|
    ensures |SamplesOf(Evict(ms, vid, n), vid)| + n == |SamplesOf(ms, vid)|
    decreases n
  {
    if n > 0 {
      var r := RemoveOldest(ms, vid);
      RemoveOldestOwn(ms, vid);
      EvictCounts(r, vid, n - 1);
      EvictCountsStep(ms, r, vid, n);
    }
  }

  /** The counting step of EvictCounts, with the shortened store as a plain value. */
  lemma EvictCountsStep(ms: seq<Metric>, r: seq<Metric>, vid: int, n: nat)
    requires n > 0 && r == RemoveOldest(ms, vid)
    requires |SamplesOf(r, vid)| + 1 == |SamplesOf(ms, vid)|
    requires |SamplesOf(Evict(r, vid, n - 1), vid)| + (n - 1) == |SamplesOf(r, vid)|
    ensures |SamplesOf(Evict(ms, vid, n), vid)| + n == |SamplesOf(ms, vid)|
  {
    assert Evict(ms, vid, n) == Evict(r, vid, n - 1);
  }

  /** Retention leaves a target with min(count, 120) samples and leaves other targets alone. */
  lemma CappedCounts(ms: seq<Metric>, vid: int, w: int)
    ensures |SamplesOf(Capped(ms, vid), vid)| == Min(|SamplesOf(ms, vid)|, MaxSamplesPerVps)
    ensures w != vid ==> SamplesOf(Capped(ms, vid), w) == SamplesOf(ms, w)
  {
    var count := |SamplesOf(ms, vid)|;
    if count > MaxSamplesPerVps {
      EvictCounts(ms, vid, count - MaxSamplesPerVps);
      if w != vid {
        EvictOthers(ms, vid, count - MaxSamplesPerVps, w);
      }
    }
  }

  /** Appending the 121st sample of a target evicts exactly its oldest sample (first among
      equal timestamps) and nothing else. */
  lemma CappedEvictsOldest(ms: seq<Metric>, vid: int)
    requires |SamplesOf(ms, vid)| == MaxSamplesPerVps + 1
    ensures exists k :: IsOldest(ms, vid, k) && Capped(ms, vid) == ms[..k] + ms[k + 1..]
  {
    var o := OldestIndex(ms, vid);
    if o.None? {
      FilterNone(ms, (m: Metric) => m.vpsId == vid);
      assert false;
    }
    assert Capped(ms, vid) == RemoveAt(ms, o.value);
  }

  // ===================== processes =====================

  /** The processes of one target, in store order. */
  function ProcsOf(ps: seq<Process>, vid: int): seq<Process> {
    Filter(ps, (p: Process) => p.vpsId == vid)
  }

  lemma ProcsOfMembers(ps: seq<Process>, vid: int)
    ensures forall p :: p in ProcsOf(ps, vid) ==> p in ps && p.vpsId == vid
    ensures forall p :: p in ps && p.vpsId == vid ==> p in ProcsOf(ps, vid)
  {
    FilterMembers(ps, (p: Process) => p.vpsId == vid);
  }

  /** The `reduce` of `getProcesses` and `clearOldProcesses`: the latest timestamp. */
  function LatestTs(s: seq<Process>): (t: int)
    requires s != []
    ensures forall i :: 0 <= i < |s| ==> s[i].timestamp <= t
    ensures exists i :: 0 <= i < |s| && s[i].timestamp == t
  {
    if |s| == 1 then s[0].timestamp
    else
      var t := LatestTs(s[..|s| - 1]);
      if s[|s| - 1].timestamp > t then s[|s| - 1].timestamp else t
  }

  /** The latest batch of a target: its records carrying its latest timestamp. */
  function LatestBatch(ps: seq<Process>, vid: int): seq<Process> {
    var mine := ProcsOf(ps, vid);
    if mine == [] then []
    else
      var t := LatestTs(mine);
      Filter(mine, (p: Process) => p.timestamp == t)
  }

  /** p is a record of `vid` stamped with the latest timestamp among vid's records. */
  ghost predicate InLatestBatch(ps: seq<Process>, vid: int, p: Process) {
    && p in ps && p.vpsId == vid
    && forall q :: q in ps && q.vpsId == vid ==> q.timestamp <= p.timestamp
  }

  /** Every record of the latest batch is a record of the target with its latest timestamp. */
  lemma LatestBatchSound(ps: seq<Process>, vid: int)
    ensures forall p :: p in LatestBatch(ps, vid) ==> InLatestBatch(ps, vid, p)
  {
    var mine := ProcsOf(ps, vid);
    ProcsOfMembers(ps, vid);
    if mine != [] {
      var t := LatestTs(mine);
      FilterMembers(mine, (p: Process) => p.timestamp == t);
      forall p | p in LatestBatch(ps, vid) ensures InLatestBatch(ps, vid, p) {
        forall q | q in ps && q.vpsId == vid ensures q.timestamp <= p.timestamp {
          assert q in mine;
          var i :| 0 <= i < |mine| && mine[i] == q;
        }
      }
    }
  }

  /** Every record of the target with its latest timestamp is in the latest batch. */
  lemma LatestBatchComplete(ps: seq<Process>, vid: int)
    ensures forall p :: InLatestBatch(ps, vid, p) ==> p in LatestBatch(ps, vid)
  {
    var mine := ProcsOf(ps, vid);
    ProcsOfMembers(ps, vid);
    if mine != [] {
      var t := LatestTs(mine);
      FilterMembers(mine, (p: Process) => p.timestamp == t);
      forall p | InLatestBatch(ps, vid, p) ensures p in LatestBatch(ps, vid) {
        assert p in mine;
        var i :| 0 <= i < |mine| && mine[i] == p;
        var j :| 0 <= j < |mine| && mine[j].timestamp == t;
        assert mine[j] in mine;
      }
    }
  }

  /** Orders processes by descending cpu. */
  predicate BusierOrSame(a: Process, b: Process) {
    a.cpu >= b.cpu
  }

  /** `getProcesses`: the latest batch, busiest first, at most 20. */
  function GetProcesses(ps: seq<Process>, vid: int): seq<Process> {
    JsSlice(Sort(LatestBatch(ps, vid), BusierOrSame), 0, MaxProcesses)
  }

  /** At most 20 records; a batch of at most 20 is returned whole. */
  lemma GetProcessesLength(ps: seq<Process>, vid: int)
    ensures |GetProcesses(ps, vid)| == Min(|LatestBatch(ps, vid)|, MaxProcesses)
    ensures |LatestBatch(ps, vid)| <= MaxProcesses ==>
      multiset(GetProcesses(ps, vid)) == multiset(LatestBatch(ps, vid))
  {
    var sorted := Sort(LatestBatch(ps, vid), BusierOrSame);
    JsSliceWindow(sorted, 0, MaxProcesses);
    if |sorted| <= MaxProcesses {
      assert GetProcesses(ps, vid) == sorted;
    }
  }

  /** Every record returned belongs to the target's latest batch. */
  lemma GetProcessesMembers(ps: seq<Process>, vid: int)
    ensures forall p :: p in GetProcesses(ps, vid) ==> InLatestBatch(ps, vid, p)
  {
    var batch := LatestBatch(ps, vid);
    LatestBatchSound(ps, vid);
    SortMembers(batch, BusierOrSame);
    JsSliceMembers(Sort(batch, BusierOrSame), 0, MaxProcesses);
  }

  /** Busiest first. */
  lemma GetProcessesSorted(ps: seq<Process>, vid: int)
    ensures SortedBy(GetProcesses(ps, vid), BusierOrSame)
  {
    var batch := LatestBatch(ps, vid);
    assert TotalPreorder(BusierOrSame);
    SortSorted(batch, BusierOrSame);
    JsSliceSorted(Sort(batch, BusierOrSame), 0, MaxProcesses, BusierOrSame);
  }

  /** A record of the batch left out is no busier than any returned. */
  lemma GetProcessesBusiest(ps: seq<Process>, vid: int)
    ensures forall p :: p in LatestBatch(ps, vid) && p !in GetProcesses(ps, vid) ==>
      forall k :: 0 <= k < |GetProcesses(ps, vid)| ==> GetProcesses(ps, vid)[k].cpu >= p.cpu
  {
    var batch := LatestBatch(ps, vid);
    assert TotalPreorder(BusierOrSame);
    SortSorted(batch, BusierOrSame);
    SortMembers(batch, BusierOrSame);
    JsSliceHeadFirst(Sort(batch, BusierOrSame), MaxProcesses, BusierOrSame);
  }

  /** The processes after `clearOldProcesses(vid)`: vid keeps only its latest batch. */
  function KeepLatestBatch(ps: seq<Process>, vid: int): seq<Process> {
    var mine := ProcsOf(ps, vid);
    if mine == [] then ps
    else
      var t := LatestTs(mine);
      Filter(ps, (p: Process) => p.vpsId != vid || p.timestamp == t)
  }

  /** Clearing leaves other targets' records as they were. */
  lemma KeepLatestBatchOthers(ps: seq<Process>, vid: int, w: int)
    requires w != vid
    ensures ProcsOf(KeepLatestBatch(ps, vid), w) == ProcsOf(ps, w)
  {
    var mine := ProcsOf(ps, vid);
    if mine != [] {
      var t := LatestTs(mine);
      var keep := (p: Process) => p.vpsId != vid || p.timestamp == t;
      var isW := (p: Process) => p.vpsId == w;
      FilterFilter(ps, keep, isW, isW);
    }
  }

  /** Clearing leaves the target exactly its latest batch. */
  lemma KeepLatestBatchOwn(ps: seq<Process>, vid: int)
    ensures ProcsOf(KeepLatestBatch(ps, vid), vid) == LatestBatch(ps, vid)
  {
    var mine := ProcsOf(ps, vid);
    if mine != [] {
      var t := LatestTs(mine);
      var keep := (p: Process) => p.vpsId != vid || p.timestamp == t;
      var isV := (p: Process) => p.vpsId == vid;
      var atT := (p: Process) => p.timestamp == t;
      var both := (p: Process) => p.vpsId == vid && p.timestamp == t;
      FilterFilter(ps, keep, isV, both);
      FilterFilter(ps, isV, atT, both);
    }
  }

  // ===================== alerts =====================

  /** Orders alerts newest first. */
  predicate NewerOrSame(a: Alert, b: Alert) {
    a.createdAt >= b.createdAt
  }

  /** An alert as listed, with the owning target's hostname and ip looked up at read time. */
  datatype AlertRow = AlertRow(alert: Alert, hostname: string, ip: string)

  /** Attaches the hostname and ip of the first target with the alert's target id;
      "Unknown" and "" once that target is gone. */
  function Annotate(a: Alert, vs: seq<Vps>): (r: AlertRow)
    ensures r.alert == a
    ensures (forall i :: 0 <= i < |vs| ==> vs[i].id != a.vpsId) ==> r.hostname == "Unknown" && r.ip == ""
    ensures forall i :: 0 <= i < |vs| && vs[i].id == a.vpsId && (forall j :: 0 <= j < i ==> vs[j].id != a.vpsId) ==>
      r.hostname == vs[i].hostname && r.ip == vs[i].ip
  {
    match IndexOf(vs, a.vpsId)
    case None => AlertRow(a, "Unknown", "")
    case Some(k) => AlertRow(a, vs[k].hostname, vs[k].ip)
  }

  /** The alerts with the requested flag, newest first. */
  function AlertsWithFlag(als: seq<Alert>, acknowledged: int): seq<Alert> {
    Sort(Filter(als, (a: Alert) => a.acknowledged == acknowledged), NewerOrSame)
  }

  /** The alerts `getAlerts` returns, before the hostname lookup. */
  function AlertPage(als: seq<Alert>, acknowledged: int, limit: int): seq<Alert> {
    JsSlice(AlertsWithFlag(als, acknowledged), 0, limit)
  }

  /** `getAlerts`. */
  function GetAlerts(als: seq<Alert>, vs: seq<Vps>, acknowledged: int, limit: int): seq<AlertRow> {
    var page := AlertPage(als, acknowledged, limit);
    seq(|page|, i requires 0 <= i < |page| => Annotate(page[i], vs))
  }

  /** For a non-negative limit, min(limit, number of alerts with the flag) rows. */
  lemma GetAlertsCount(als: seq<Alert>, vs: seq<Vps>, acknowledged: int, limit: int)
    requires limit >= 0
    ensures |GetAlerts(als, vs, acknowledged, limit)| ==
      Min(limit, |Filter(als, (a: Alert) => a.acknowledged == acknowledged)|)
  {
    JsSliceWindow(AlertsWithFlag(als, acknowledged), 0, limit);
  }

  /** Each row is an alert with the flag, annotated with its target. */
  lemma GetAlertsRows(als: seq<Alert>, vs: seq<Vps>, acknowledged: int, limit: int)
    ensures forall k :: 0 <= k < |GetAlerts(als, vs, acknowledged, limit)| ==>
      var row := GetAlerts(als, vs, acknowledged, limit)[k];
      row.alert in als && row.alert.acknowledged == acknowledged && row == Annotate(row.alert, vs)
  {
    var matching := Filter(als, (a: Alert) => a.acknowledged == acknowledged);
    var sorted := AlertsWithFlag(als, acknowledged);
    var page := AlertPage(als, acknowledged, limit);
    FilterMembers(als, (a: Alert) => a.acknowledged == acknowledged);
    SortMembers(matching, NewerOrSame);
    JsSliceMembers(sorted, 0, limit);
    forall k | 0 <= k < |page| ensures page[k] in als && page[k].acknowledged == acknowledged {
      assert page[k] in page;
    }
  }

  /** The listed alerts are newest first. */
  lemma AlertPageSorted(als: seq<Alert>, acknowledged: int, limit: int)
    ensures SortedBy(AlertPage(als, acknowledged, limit), NewerOrSame)
  {
    var matching := Filter(als, (a: Alert) => a.acknowledged == acknowledged);
    assert TotalPreorder(NewerOrSame);
    SortSorted(matching, NewerOrSame);
    JsSliceSorted(AlertsWithFlag(als, acknowledged), 0, limit, NewerOrSame);
  }

  /** An alert with the flag that is left out is no newer than any listed one. */
  lemma AlertPageNewest(als: seq<Alert>, acknowledged: int, limit: int)
    ensures forall a :: a in als && a.acknowledged == acknowledged && a !in AlertPage(als, acknowledged, limit) ==>
      forall k :: 0 <= k < |AlertPage(als, acknowledged, limit)| ==>
        AlertPage(als, acknowledged, limit)[k].createdAt >= a.createdAt
  {
    var matching := Filter(als, (a: Alert) => a.acknowledged == acknowledged);
    var sorted := AlertsWithFlag(als, acknowledged);
    assert TotalPreorder(NewerOrSame);
    SortSorted(matching, NewerOrSame);
    SortMembers(matching, NewerOrSame);
    FilterMembers(als, (a: Alert) => a.acknowledged == acknowledged);
    JsSliceHeadFirst(sorted, limit, NewerOrSame);
  }

  /** The number of unacknowledged alerts. */
  function ActiveAlerts(als: seq<Alert>): nat {
    |Filter(als, (a: Alert) => a.acknowledged == 0)|
  }

  // ===================== stats and groups =====================

  function CountStatus(vs: seq<Vps>, s: Status): nat {
    |Filter(vs, (v: Vps) => v.status == s)|
  }

  /** The number of targets whose status is none of the four known ones (written by a PUT). */
  function CountOther(vs: seq<Vps>): nat {
    |Filter(vs, (v: Vps) => v.status.Other?)|
  }

  /** Every target is counted under exactly one of the four statuses or among the others,
      so the four counts add up to the total exactly when no other status is present. */
  lemma {:induction false} StatusCountsPartition(vs: seq<Vps>)
    ensures CountStatus(vs, Online) + CountStatus(vs, Offline) + CountStatus(vs, Warning)
            + CountStatus(vs, Maintenance) + CountOther(vs) == |vs|
  {
    if vs != [] {
      StatusCountsPartition(vs[1..]);
    }
  }

  /** The distinct elements, each once, in order of first appearance. */
  function Distinct(s: seq<string>): (r: seq<string>)
    ensures NoDuplicates(r)
    ensures forall x :: x in r ==> x in s
    ensures forall x :: x in s ==> x in r
  {
    if s == [] then []
    else
      var d := Distinct(s[..|s| - 1]);
      assert s == s[..|s| - 1] + [s[|s| - 1]];
      if s[|s| - 1] in d then d else d + [s[|s| - 1]]
  }

  function GroupsOf(vs: seq<Vps>): (r: seq<string>)
    ensures |r| == |vs| && forall i :: 0 <= i < |vs| ==> r[i] == vs[i].group
  {
    seq(|vs|, i requires 0 <= i < |vs| => vs[i].group)
  }

  function CountGroup(vs: seq<Vps>, g: string): nat {
    |Filter(vs, (v: Vps) => v.group == g)|
  }

  lemma CountGroupPositive(vs: seq<Vps>, i: int)
    requires 0 <= i < |vs|
    ensures CountGroup(vs, vs[i].group) > 0
  {
    var g := vs[i].group;
    FilterMembers(vs, (v: Vps) => v.group == g);
    assert vs[i] in vs;
  }

  datatype GroupCount = GroupCount(group: string, count: nat)

  predicate MoreOrSame(a: GroupCount, b: GroupCount) {
    a.count >= b.count
  }

  /** One entry per distinct group with its size, in order of first appearance. */
  function GroupEntries(vs: seq<Vps>): seq<GroupCount> {
    var gs := Distinct(GroupsOf(vs));
    seq(|gs|, i requires 0 <= i < |gs| => GroupCount(gs[i], CountGroup(vs, gs[i])))
  }

  /** The `groups` of `getStats`: the entries, largest first. */
  function GroupCounts(vs: seq<Vps>): seq<GroupCount> {
    Sort(GroupEntries(vs), MoreOrSame)
  }

  lemma GroupEntriesSpec(vs: seq<Vps>)
    ensures NoDuplicates(GroupEntries(vs))
    ensures forall e :: e in GroupEntries(vs) ==>
      e.count == CountGroup(vs, e.group) && exists i :: 0 <= i < |vs| && vs[i].group == e.group
    ensures forall i :: 0 <= i < |vs| ==> GroupCount(vs[i].group, CountGroup(vs, vs[i].group)) in GroupEntries(vs)
  {
    var gs := Distinct(GroupsOf(vs));
    var entries := GroupEntries(vs);
    forall e | e in entries ensures e.count == CountGroup(vs, e.group) && exists i :: 0 <= i < |vs| && vs[i].group == e.group {
      var k :| 0 <= k < |entries| && entries[k] == e;
      assert gs[k] in GroupsOf(vs);
    }
    forall i | 0 <= i < |vs| ensures GroupCount(vs[i].group, CountGroup(vs, vs[i].group)) in entries {
      assert GroupsOf(vs)[i] == vs[i].group;
      assert vs[i].group in gs;
      var k :| 0 <= k < |gs| && gs[k] == vs[i].group;
      assert entries[k] == GroupCount(vs[i].group, CountGroup(vs, vs[i].group));
    }
  }

  /** Each entry is a group of some target with its exact size, which is positive. */
  lemma GroupCountsCounts(vs: seq<Vps>)
    ensures forall e :: e in GroupCounts(vs) ==> e.count == CountGroup(vs, e.group) && e.count > 0
  {
    GroupEntriesSpec(vs);
    SortMembers(GroupEntries(vs), MoreOrSame);
    forall e | e in GroupCounts(vs) ensures e.count == CountGroup(vs, e.group) && e.count > 0 {
      var i :| 0 <= i < |vs| && vs[i].group == e.group;
      CountGroupPositive(vs, i);
    }
  }

  /** Every target's group has an entry, and no group has two. */
  lemma GroupCountsCover(vs: seq<Vps>)
    ensures forall i :: 0 <= i < |vs| ==> GroupCount(vs[i].group, CountGroup(vs, vs[i].group)) in GroupCounts(vs)
    ensures forall i, j :: 0 <= i < j < |GroupCounts(vs)| ==> GroupCounts(vs)[i].group != GroupCounts(vs)[j].group
  {
    var r := GroupCounts(vs);
    GroupEntriesSpec(vs);
    SortMembers(GroupEntries(vs), MoreOrSame);
    PermutationNoDuplicates(GroupEntries(vs), r);
    forall i, j | 0 <= i < j < |r| ensures r[i].group != r[j].group {
      assert r[i] in r && r[j] in r;
    }
  }

  /** The entries are largest first. */
  lemma GroupCountsSorted(vs: seq<Vps>)
    ensures SortedBy(GroupCounts(vs), MoreOrSame)
  {
    assert TotalPreorder(MoreOrSame);
    SortSorted(GroupEntries(vs), MoreOrSame);
  }

  datatype Stats = Stats(
    total: nat, online: nat, offline: nat, warning: nat, maintenance: nat,
    activeAlerts: nat, groups: seq<GroupCount>)

  /** The counting part of `getStats`. */
  function GetStats(vs: seq<Vps>, als: seq<Alert>): Stats {
    Stats(|vs|, CountStatus(vs, Online), CountStatus(vs, Offline), CountStatus(vs, Warning),
          CountStatus(vs, Maintenance), ActiveAlerts(als), GroupCounts(vs))
  }

  /** `getGroups`: the distinct groups in string order. */
  function GetGroups(vs: seq<Vps>): seq<string> {
    Sort(Distinct(GroupsOf(vs)), StrLe)
  }

  lemma StrLeIsPreorder()
    ensures TotalPreorder(StrLe)
  {
    forall a: string, b: string ensures StrLe(a, b) || StrLe(b, a) {
      StrLeTotal(a, b);
    }
    forall a: string, b: string, c: string | StrLe(a, b) && StrLe(b, c) ensures StrLe(a, c) {
      StrLeTrans(a, b, c);
    }
  }

  /** The groups listed are exactly the groups of the targets. */
  lemma GetGroupsMembers(vs: seq<Vps>)
    ensures forall g :: g in GetGroups(vs) ==> exists i :: 0 <= i < |vs| && vs[i].group == g
    ensures forall i :: 0 <= i < |vs| ==> vs[i].group in GetGroups(vs)
  {
    var d := Distinct(GroupsOf(vs));
    SortMembers(d, StrLe);
    forall g | g in GetGroups(vs) ensures exists i :: 0 <= i < |vs| && vs[i].group == g {
      var i :| 0 <= i < |vs| && GroupsOf(vs)[i] == g;
    }
    forall i | 0 <= i < |vs| ensures vs[i].group in GetGroups(vs) {
      assert GroupsOf(vs)[i] == vs[i].group;
    }
  }

  /** The groups are in string order, each once. */
  lemma GetGroupsOrdered(vs: seq<Vps>)
    ensures SortedBy(GetGroups(vs), StrLe)
    ensures NoDuplicates(GetGroups(vs))
  {
    var d := Distinct(GroupsOf(vs));
    StrLeIsPreorder();
    SortSorted(d, StrLe);
    PermutationNoDuplicates(d, GetGroups(vs));
  }

  // ===================== stale agents =====================

  /** A target `markStaleOffline` flips: an agent, online or warning, last seen before the cutoff. */
  predicate IsStale(v: Vps, cutoff: int) {
    && (v.status == Online || v.status == Warning)
    && v.monitorType == Agent
    && v.lastSeen.Some? && v.lastSeen.value < cutoff
  }

  function Sweep(v: Vps, cutoff: int): Vps {
    if IsStale(v, cutoff) then v.(status := Offline) else v
  }

  /** The target list after the stale sweep. */
  function Swept(vs: seq<Vps>, cutoff: int): (r: seq<Vps>)
    ensures |r| == |vs| && forall i :: 0 <= i < |vs| ==> r[i] == Sweep(vs[i], cutoff)
  {
    seq(|vs|, i requires 0 <= i < |vs| => Sweep(vs[i], cutoff))
  }

  function CountStale(vs: seq<Vps>, cutoff: int): nat {
    |Filter(vs, (v: Vps) => IsStale(v, cutoff))|
  }

  lemma CountStaleAppend(vs: seq<Vps>, v: Vps, cutoff: int)
    ensures CountStale(vs + [v], cutoff) == CountStale(vs, cutoff) + (if IsStale(v, cutoff) then 1 else 0)
  {
    FilterAppend(vs, [v], (v: Vps) => IsStale(v, cutoff));
    FilterSingle(v, (v: Vps) => IsStale(v, cutoff));
  }

  /** A second sweep with the same cutoff finds nothing: the sweep leaves no stale target. */
  lemma SweepIdempotent(vs: seq<Vps>, cutoff: int)
    ensures Swept(Swept(vs, cutoff), cutoff) == Swept(vs, cutoff)
    ensures CountStale(Swept(vs, cutoff), cutoff) == 0
  {
    FilterNone(Swept(vs, cutoff), (v: Vps) => IsStale(v, cutoff));
  }

  /** Some target flips iff the count is positive. */
  lemma CountStalePositive(vs: seq<Vps>, cutoff: int)
    ensures CountStale(vs, cutoff) > 0 <==> exists i :: 0 <= i < |vs| && IsStale(vs[i], cutoff)
  {
    var f := Filter(vs, (v: Vps) => IsStale(v, cutoff));
    FilterMembers(vs, (v: Vps) => IsStale(v, cutoff));
    if exists i :: 0 <= i < |vs| && IsStale(vs[i], cutoff) {
      var i :| 0 <= i < |vs| && IsStale(vs[i], cutoff);
      assert vs[i] in vs;
    }
    if |f| > 0 {
      assert f[0] in f;
      var i :| 0 <= i < |vs| && vs[i] == f[0];
    }
  }

  // ===================== invariants =====================

  /** Ids issued by a counter: strictly increasing along the list, none above the counter. */
  ghost predicate IdsIssued<T>(s: seq<T>, id: T -> int, counter: int) {
    IncreasingBy(s, id) && forall i :: 0 <= i < |s| ==> id(s[i]) <= counter
  }

  lemma FilterIssued<T>(s: seq<T>, p: T -> bool, id: T -> int, counter: int)
    requires IdsIssued(s, id, counter)
    ensures IdsIssued(Filter(s, p), id, counter)
  {
    FilterIncreasing(s, p, id);
    FilterMembers(s, p);
    var r := Filter(s, p);
    forall i | 0 <= i < |r| ensures id(r[i]) <= counter {
      assert r[i] in r;
    }
  }

  lemma RemoveAtIssued<T>(s: seq<T>, k: nat, id: T -> int, counter: int)
    requires k < |s| && IdsIssued(s, id, counter)
    ensures IdsIssued(RemoveAt(s, k), id, counter)
  {
    var r := RemoveAt(s, k);
    assert forall i :: 0 <= i < |r| ==> r[i] == if i < k then s[i] else s[i + 1];
  }

  /** No two targets share an id. `addVPS` keeps this; a PUT that writes `id` can break it. */
  ghost predicate UniqueIds(vs: seq<Vps>) {
    forall i, j :: 0 <= i < j < |vs| ==> vs[i].id != vs[j].id
  }

  /** Ids being unique, removing the first target with an id leaves none with it. */
  lemma RemoveFirstWithId(vs: seq<Vps>, id: int)
    requires UniqueIds(vs) && IndexOf(vs, id).Some?
    ensures forall i :: 0 <= i < |RemoveAt(vs, IndexOf(vs, id).value)| ==>
      RemoveAt(vs, IndexOf(vs, id).value)[i].id != id
  {
    var k := IndexOf(vs, id).value;
    var r := RemoveAt(vs, k);
    forall i | 0 <= i < |r| ensures r[i].id != id {
      if i < k {
        assert r[i] == vs[i];
      } else {
        assert r[i] == vs[i + 1];
        assert vs[k].id != vs[i + 1].id;
      }
    }
  }

  /** Clearing old processes keeps the ids as issued. */
  lemma KeepLatestIssued(ps: seq<Process>, vid: int, counter: int)
    requires IdsIssued(ps, (p: Process) => p.id, counter)
    ensures IdsIssued(KeepLatestBatch(ps, vid), (p: Process) => p.id, counter)
  {
    var mine := ProcsOf(ps, vid);
    if mine != [] {
      var t := LatestTs(mine);
      FilterIssued(ps, (p: Process) => p.vpsId != vid || p.timestamp == t, (p: Process) => p.id, counter);
    }
  }

  /** `addVPS` keeps the ids unique while no id above the counter has been written by a PUT. */
  lemma AddKeepsUniqueIds(vs: seq<Vps>, counter: int, v: Vps)
    requires UniqueIds(vs) && v.id == counter + 1
    requires forall i :: 0 <= i < |vs| ==> vs[i].id <= counter
    ensures UniqueIds(vs + [v])
  {
    var r := vs + [v];
    assert forall i :: 0 <= i < |vs| ==> r[i] == vs[i];
  }

  /** A patch without `id` keeps the ids unique. */
  lemma UpdateKeepsUniqueIds(vs: seq<Vps>, id: int, p: VpsPatch)
    requires UniqueIds(vs) && p.id.None?
    ensures UniqueIds(UpdatedVps(vs, id, p))
  {
  }

  /** A PUT that writes another target's id leaves two targets with the same id. */
  lemma PatchCanDuplicateIds(v: Vps, w: Vps)
    requires v.id != w.id
    ensures UniqueIds([v, w])
    ensures !UniqueIds(UpdatedVps([v, w], w.id, EmptyPatch.(id := Some(v.id))))
  {
    var r := UpdatedVps([v, w], w.id, EmptyPatch.(id := Some(v.id)));
    assert IndexOf([v, w], w.id) == Some(1);
    assert r[0].id == r[1].id;
  }

  lemma RemoveOldestIssued(ms: seq<Metric>, vid: int, counter: int)
    requires IdsIssued(ms, (m: Metric) => m.id, counter)
    ensures IdsIssued(RemoveOldest(ms, vid), (m: Metric) => m.id, counter)
  {
    var o := OldestIndex(ms, vid);
    if o.Some? {
      RemoveAtIssued(ms, o.value, (m: Metric) => m.id, counter);
    }
  }

  lemma {:induction false} EvictIssued(ms: seq<Metric>, vid: int, n: nat, counter: int)
    requires IdsIssued(ms, (m: Metric) => m.id, counter)
    ensures IdsIssued(Evict(ms, vid, n), (m: Metric) => m.id, counter)
    decreases n
  {
    if n > 0 {
      var r := RemoveOldest(ms, vid);
      RemoveOldestIssued(ms, vid, counter);
      EvictIssued(r, vid, n - 1, counter);
      assert Evict(ms, vid, n) == Evict(r, vid, n - 1);
    }
  }

  /** Appending an element whose id is the next counter value keeps the ids as issued. */
  lemma AppendIssued<T>(s: seq<T>, x: T, id: T -> int, counter: int)
    requires IdsIssued(s, id, counter) && id(x) == counter + 1
    ensures IdsIssued(s + [x], id, counter + 1)
  {
    var r := s + [x];
    assert forall i :: 0 <= i < |s| ==> r[i] == s[i];
  }

  /** Retention keeps the ids as issued. */
  lemma CappedKeepsIssued(ms: seq<Metric>, vid: int, counter: int)
    requires IdsIssued(ms, (m: Metric) => m.id, counter)
    ensures IdsIssued(Capped(ms, vid), (m: Metric) => m.id, counter)
  {
    var count := |SamplesOf(ms, vid)|;
    if count > MaxSamplesPerVps {
      EvictIssued(ms, vid, count - MaxSamplesPerVps, counter);
    }
  }

  /** Appending a sample with a fresh id and evicting keeps the ids as issued. */
  lemma CappedIssued(ms: seq<Metric>, m: Metric, counter: int)
    requires IdsIssued(ms, (m: Metric) => m.id, counter) && m.id == counter + 1
    ensures IdsIssued(Capped(ms + [m], m.vpsId), (m: Metric) => m.id, counter + 1)
  {
    AppendIssued(ms, m, (m: Metric) => m.id, counter);
    CappedKeepsIssued(ms + [m], m.vpsId, counter + 1);
  }

  /** Appending a sample and evicting keeps every target within 120 samples. */
  lemma CappedBound(ms: seq<Metric>, sample: Metric)
    requires SamplesBounded(ms)
    ensures SamplesBounded(Capped(ms + [sample], sample.vpsId))
  {
    var appended := ms + [sample];
    forall w ensures |SamplesOf(Capped(appended, sample.vpsId), w)| <= MaxSamplesPerVps {
      FilterAppend(ms, [sample], (m: Metric) => m.vpsId == w);
      FilterSingle(sample, (m: Metric) => m.vpsId == w);
      assert |SamplesOf(appended, w)| <= |SamplesOf(ms, w)| + 1;
      CappedCounts(appended, sample.vpsId, w);
      if w != sample.vpsId {
        assert |SamplesOf(appended, w)| == |SamplesOf(ms, w)|;
      }
    }
  }

  /** The samples of every target but `id`. */
  function SamplesBut(ms: seq<Metric>, id: int): seq<Metric> {
    Filter(ms, (m: Metric) => m.vpsId != id)
  }

  /** The processes of every target but `id`. */
  function ProcessesBut(ps: seq<Process>, id: int): seq<Process> {
    Filter(ps, (p: Process) => p.vpsId != id)
  }

  /** The alerts of every target but `id`. */
  function AlertsBut(als: seq<Alert>, id: int): seq<Alert> {
    Filter(als, (a: Alert) => a.vpsId != id)
  }

  /** No target holds more than 120 samples. */
  ghost predicate SamplesBounded(ms: seq<Metric>) {
    forall vid :: |SamplesOf(ms, vid)| <= MaxSamplesPerVps
  }

  /** Dropping every sample of one target keeps the ids as issued and the per-target bound. */
  lemma DropSamplesValid(ms: seq<Metric>, id: int, counter: int)
    requires IdsIssued(ms, (m: Metric) => m.id, counter)
    requires SamplesBounded(ms)
    ensures IdsIssued(SamplesBut(ms, id), (m: Metric) => m.id, counter)
    ensures SamplesBounded(SamplesBut(ms, id))
  {
    var keep := (m: Metric) => m.vpsId != id;
    FilterIssued(ms, keep, (m: Metric) => m.id, counter);
    forall vid ensures |SamplesOf(Filter(ms, keep), vid)| <= MaxSamplesPerVps {
      SamplesAfterFilter(ms, keep, vid);
    }
  }

  /** Filtering the samples never gives a target more samples than it had. */
  lemma SamplesAfterFilter(ms: seq<Metric>, keep: Metric -> bool, vid: int)
    ensures |SamplesOf(Filter(ms, keep), vid)| <= |SamplesOf(ms, vid)|
  {
    var isV := (m: Metric) => m.vpsId == vid;
    var both := (m: Metric) => keep(m) && m.vpsId == vid;
    FilterFilter(ms, keep, isV, both);
    FilterFilter(ms, isV, keep, both);
  }

  /** The store invariant: the ids of samples, processes and alerts are issued by their
      counters, so each of those lists' ids are increasing (hence unique), and no target
      holds more than 120 samples. Target ids are not covered: a PUT may overwrite them. */
  ghost predicate Consistent(ms: seq<Metric>, ps: seq<Process>, als: seq<Alert>, mc: int, pc: int, ac: int) {
    && IdsIssued(ms, (m: Metric) => m.id, mc)
    && IdsIssued(ps, (p: Process) => p.id, pc)
    && IdsIssued(als, (a: Alert) => a.id, ac)
    && SamplesBounded(ms)
  }

  /** Deleting a target's samples, processes and alerts keeps the store invariant. */
  lemma DeleteConsistent(ms: seq<Metric>, ps: seq<Process>, als: seq<Alert>, mc: int, pc: int, ac: int, id: int)
    requires Consistent(ms, ps, als, mc, pc, ac)
    ensures Consistent(SamplesBut(ms, id), ProcessesBut(ps, id), AlertsBut(als, id), mc, pc, ac)
  {
    DropSamplesValid(ms, id, mc);
    FilterIssued(ps, (p: Process) => p.vpsId != id, (p: Process) => p.id, pc);
    FilterIssued(als, (a: Alert) => a.vpsId != id, (a: Alert) => a.id, ac);
  }

  /** After a delete no sample, process or alert of the target is left, and every other
      record stays. */
  lemma DeleteLeavesNoTrace(ms: seq<Metric>, ps: seq<Process>, als: seq<Alert>, id: int)
    ensures forall m :: m in SamplesBut(ms, id) ==> m in ms && m.vpsId != id
    ensures forall m :: m in ms && m.vpsId != id ==> m in SamplesBut(ms, id)
    ensures forall p :: p in ProcessesBut(ps, id) ==> p in ps && p.vpsId != id
    ensures forall p :: p in ps && p.vpsId != id ==> p in ProcessesBut(ps, id)
    ensures forall a :: a in AlertsBut(als, id) ==> a in als && a.vpsId != id
    ensures forall a :: a in als && a.vpsId != id ==> a in AlertsBut(als, id)
  {
    FilterMembers(ms, (m: Metric) => m.vpsId != id);
    FilterMembers(ps, (p: Process) => p.vpsId != id);
    FilterMembers(als, (a: Alert) => a.vpsId != id);
  }

  /** The `forEach` of `markStaleOffline`: each stale agent row in turn set offline and
      counted. */
  method SweepRows(vs: seq<Vps>, cutoff: int) returns (rows: seq<Vps>, count: nat)
    ensures rows == Swept(vs, cutoff)
    ensures count == CountStale(vs, cutoff)
  {
    rows := vs;
    count := 0;
    var i := 0;
    while i < |rows|
      invariant 0 <= i <= |rows| == |vs|
      invariant forall k :: 0 <= k < i ==> rows[k] == Sweep(vs[k], cutoff)
      invariant forall k :: i <= k < |rows| ==> rows[k] == vs[k]
      invariant count == CountStale(vs[..i], cutoff)
    {
      assert vs[..i + 1] == vs[..i] + [vs[i]];
      CountStaleAppend(vs[..i], vs[i], cutoff);
      if IsStale(rows[i], cutoff) {
        rows := rows[i := rows[i].(status := Offline)];
        count := count + 1;
      }
      i := i + 1;
    }
    assert vs[..i] == vs;
  }

  // ===================== the store =====================

  /** The data `addProcess` receives. */
  datatype ProcessInput = ProcessInput(
    vpsId: int, timestamp: int, pid: int, name: string,
    cpu: real, mem: real, rss: real, user: string, command: string)

  class Database {
    var vps: seq<Vps>
    var metrics: seq<Metric>
    var processes: seq<Process>
    var alerts: seq<Alert>
    var vpsCounter: nat
    var metricCounter: nat
    var processCounter: nat
    var alertCounter: nat

    /** Sample, process and alert ids are issued by their counters, so each of those
        lists' ids are increasing (hence unique), and no target holds more than 120 samples. */
    ghost predicate Valid()
      reads this
    {
      Consistent(metrics, processes, alerts, metricCounter, processCounter, alertCounter)
    }

    /** The empty database. */
    constructor ()
      ensures Valid()
      ensures vps == [] && metrics == [] && processes == [] && alerts == []
      ensures vpsCounter == 0 && metricCounter == 0 && processCounter == 0 && alertCounter == 0
    {
      vps, metrics, processes, alerts := [], [], [], [];
      vpsCounter, metricCounter, processCounter, alertCounter := 0, 0, 0, 0;
    }

    /** `addVPS`: bumps the counter and appends the new target under the new id. */
    method AddVps(data: VpsInput, now: int) returns (v: Vps)
      requires Valid()
      modifies this
      ensures Valid()
      ensures vpsCounter == old(vpsCounter) + 1
      ensures v == NewVps(vpsCounter, data, now)
      ensures vps == old(vps) + [v]
      ensures metrics == old(metrics) && processes == old(processes) && alerts == old(alerts)
      ensures metricCounter == old(metricCounter) && processCounter == old(processCounter)
      ensures alertCounter == old(alertCounter)
    {
      vpsCounter := vpsCounter + 1;
      v := NewVps(vpsCounter, data, now);
      vps := vps + [v];
    }

    /** `updateVPS`: false and no change for an unknown id; otherwise the present keys of
        the patch are written into the first target with that id. */
    method UpdateVps(id: int, patch: VpsPatch) returns (found: bool)
      requires Valid()
      modifies this
      ensures Valid()
      ensures found <==> exists i :: 0 <= i < |old(vps)| && old(vps)[i].id == id
      ensures vps == UpdatedVps(old(vps), id, patch)
      ensures metrics == old(metrics) && processes == old(processes) && alerts == old(alerts)
      ensures vpsCounter == old(vpsCounter) && metricCounter == old(metricCounter)
      ensures processCounter == old(processCounter) && alertCounter == old(alertCounter)
    {
      var k := IndexOf(vps, id);
      if k.None? {
        return false;
      }
      vps := vps[k.value := ApplyPatch(vps[k.value], patch)];
      found := true;
    }

    /** `deleteVPS`: false and no change for an unknown id; otherwise the target goes,
        and so do all its samples, processes and alerts. */
    method DeleteVps(id: int) returns (found: bool)
      requires Valid()
      modifies this
      ensures Valid()
      ensures found <==> exists i :: 0 <= i < |old(vps)| && old(vps)[i].id == id
      ensures !found ==> vps == old(vps) && metrics == old(metrics)
      ensures !found ==> processes == old(processes) && alerts == old(alerts)
      ensures found ==> vps == RemoveAt(old(vps), IndexOf(old(vps), id).value)
      ensures found ==> metrics == SamplesBut(old(metrics), id)
      ensures found ==> processes == ProcessesBut(old(processes), id)
      ensures found ==> alerts == AlertsBut(old(alerts), id)
      ensures UniqueIds(old(vps)) ==> forall i :: 0 <= i < |vps| ==> vps[i].id != id
      ensures vpsCounter == old(vpsCounter) && metricCounter == old(metricCounter)
      ensures processCounter == old(processCounter) && alertCounter == old(alertCounter)
    {
      var k := IndexOf(vps, id);
      if k.None? {
        return false;
      }
      if UniqueIds(vps) {
        RemoveFirstWithId(vps, id);
      }
      DropRecordsOf(id);
      vps := RemoveAt(vps, k.value);
      found := true;
    }

    /** The cascade of `deleteVPS`: every sample, process and alert of the target goes. */
    method DropRecordsOf(id: int)
      requires Valid()
      modifies this
      ensures Valid()
      ensures metrics == SamplesBut(old(metrics), id)
      ensures processes == ProcessesBut(old(processes), id)
      ensures alerts == AlertsBut(old(alerts), id)
      ensures vps == old(vps)
      ensures vpsCounter == old(vpsCounter) && metricCounter == old(metricCounter)
      ensures processCounter == old(processCounter) && alertCounter == old(alertCounter)
    {
      DeleteConsistent(metrics, processes, alerts, metricCounter, processCounter, alertCounter, id);
      metrics, processes, alerts := SamplesBut(metrics, id), ProcessesBut(processes, id), AlertsBut(alerts, id);
    }

    /** `addMetric`: bumps the counter, appends the sample stamped `now`, then evicts the
        target's surplus oldest samples. */
    method AddMetric(vpsId: int, now: int, reading: Reading) returns (m: Metric)
      requires Valid()
      modifies this
      ensures Valid()
      ensures metricCounter == old(metricCounter) + 1
      ensures m == Metric(metricCounter, vpsId, now, reading)
      ensures metrics == Capped(old(metrics) + [m], vpsId)
      ensures vps == old(vps) && processes == old(processes) && alerts == old(alerts)
      ensures vpsCounter == old(vpsCounter) && processCounter == old(processCounter)
      ensures alertCounter == old(alertCounter)
    {
      metricCounter := metricCounter + 1;
      m := Metric(metricCounter, vpsId, now, reading);
      var capped := Capped(metrics + [m], vpsId);
      CappedIssued(metrics, m, old(metricCounter));
      CappedBound(metrics, m);
      metrics := capped;
    }

    /** `addProcess`: bumps the counter and appends the record under the new id. */
    method AddProcess(data: ProcessInput) returns (p: Process)
      requires Valid()
      modifies this
      ensures Valid()
      ensures processCounter == old(processCounter) + 1
      ensures p == Process(processCounter, data.vpsId, data.timestamp, data.pid, data.name,
                           data.cpu, data.mem, data.rss, data.user, data.command)
      ensures processes == old(processes) + [p]
      ensures vps == old(vps) && metrics == old(metrics) && alerts == old(alerts)
      ensures vpsCounter == old(vpsCounter) && metricCounter == old(metricCounter)
      ensures alertCounter == old(alertCounter)
    {
      processCounter := processCounter + 1;
      p := Process(processCounter, data.vpsId, data.timestamp, data.pid, data.name,
                   data.cpu, data.mem, data.rss, data.user, data.command);
      AppendIssued(processes, p, (p: Process) => p.id, old(processCounter));
      processes := processes + [p];
    }

    /** `clearOldProcesses`: the target keeps only its latest batch. */
    method ClearOldProcesses(vpsId: int)
      requires Valid()
      modifies this
      ensures Valid()
      ensures processes == KeepLatestBatch(old(processes), vpsId)
      ensures vps == old(vps) && metrics == old(metrics) && alerts == old(alerts)
      ensures vpsCounter == old(vpsCounter) && metricCounter == old(metricCounter)
      ensures processCounter == old(processCounter) && alertCounter == old(alertCounter)
    {
      KeepLatestIssued(processes, vpsId, processCounter);
      processes := KeepLatestBatch(processes, vpsId);
    }

    /** `addAlert`: bumps the counter and appends an unacknowledged alert stamped `now`. */
    method AddAlert(vpsId: int, kind: AlertKind, severity: Severity, message: AlertText, now: int)
      returns (a: Alert)
      requires Valid()
      modifies this
      ensures Valid()
      ensures alertCounter == old(alertCounter) + 1
      ensures a == Alert(alertCounter, vpsId, kind, severity, message, 0, now)
      ensures alerts == old(alerts) + [a]
      ensures vps == old(vps) && metrics == old(metrics) && processes == old(processes)
      ensures vpsCounter == old(vpsCounter) && metricCounter == old(metricCounter)
      ensures processCounter == old(processCounter)
    {
      alertCounter := alertCounter + 1;
      a := Alert(alertCounter, vpsId, kind, severity, message, 0, now);
      alerts := alerts + [a];
    }

    /** `acknowledgeAlert`: sets the flag of the alert with that id to 1; false for an unknown id. */
    method AcknowledgeAlert(id: int) returns (found: bool)
      requires Valid()
      modifies this
      ensures Valid()
      ensures found <==> exists i :: 0 <= i < |old(alerts)| && old(alerts)[i].id == id
      ensures |alerts| == |old(alerts)|
      ensures forall i :: 0 <= i < |alerts| ==>
        alerts[i] == if old(alerts)[i].id == id then old(alerts)[i].(acknowledged := 1) else old(alerts)[i]
      ensures vps == old(vps) && metrics == old(metrics) && processes == old(processes)
      ensures vpsCounter == old(vpsCounter) && metricCounter == old(metricCounter)
      ensures processCounter == old(processCounter) && alertCounter == old(alertCounter)
    {
      var i := 0;
      while i < |alerts| && alerts[i].id != id
        invariant 0 <= i <= |alerts|
        invariant forall j :: 0 <= j < i ==> alerts[j].id != id
      {
        i := i + 1;
      }
      if i == |alerts| {
        return false;
      }
      assert forall j :: 0 <= j < |alerts| && j != i ==> alerts[j].id != id;
      alerts := alerts[i := alerts[i].(acknowledged := 1)];
      found := true;
    }

    /** `markStaleOffline`: flips every stale agent to offline and counts them. */
    method MarkStaleOffline(now: int, maxAge: int) returns (count: nat)
      requires Valid()
      modifies this
      ensures Valid()
      ensures vps == Swept(old(vps), now - maxAge)
      ensures count == CountStale(old(vps), now - maxAge)
      ensures metrics == old(metrics) && processes == old(processes) && alerts == old(alerts)
      ensures vpsCounter == old(vpsCounter) && metricCounter == old(metricCounter)
      ensures processCounter == old(processCounter) && alertCounter == old(alertCounter)
    {
      var cutoff := now - maxAge;
      var rows;
      rows, count := SweepRows(vps, cutoff);
      vps := rows;
    }
  }
}
