/** The records the monitoring store keeps: monitored targets ("VPS"),
    metric samples, process snapshots and alerts. Timestamps are integer
    clock values in milliseconds; measurements are reals. */
module Schema {
  import opened Optional

  /** The four statuses the system itself writes, and any other string a client PUTs. */
  datatype Status = Online | Warning | Offline | Maintenance | Other(name: OtherStatus)

  /** A status string that is none of the four known ones. */
  type OtherStatus = s: string | s != "online" && s != "warning" && s != "offline" && s != "maintenance"
    witness "unknown"

  /** The five monitor types the backend knows; `Agentless` is the ICMP ping type. */
  datatype MonitorType = Agent | Agentless | Http | TcpUdp | Dns

  /** A monitored target, with the fields `addVPS` gives it. */
  datatype Vps = Vps(
    id: int,
    hostname: string,
    ip: string,
    location: string,
    os: string,
    status: Status,
    monitorType: MonitorType,
    group: string,
    apiKey: string,
    cpuCores: int,
    ramTotal: int,
    diskTotal: int,
    url: string,
    port: int,
    protocol: string,
    lookupDomain: string,
    recordType: string,
    createdAt: int,
    lastSeen: Option<int>)

  /** A partial update: `None` stands for a key that is absent, null or undefined. */
  datatype VpsPatch = VpsPatch(
    id: Option<int>,
    hostname: Option<string>,
    ip: Option<string>,
    location: Option<string>,
    os: Option<string>,
    status: Option<Status>,
    monitorType: Option<MonitorType>,
    group: Option<string>,
    apiKey: Option<string>,
    cpuCores: Option<int>,
    ramTotal: Option<int>,
    diskTotal: Option<int>,
    url: Option<string>,
    port: Option<int>,
    protocol: Option<string>,
    lookupDomain: Option<string>,
    recordType: Option<string>,
    createdAt: Option<int>,
    lastSeen: Option<int>)

  const EmptyPatch := VpsPatch(None, None, None, None, None, None, None, None, None, None,
                               None, None, None, None, None, None, None, None, None)

  /** The `{ status, last_seen }` object the probes and the report handler pass to `updateVPS`. */
  function StatusPatch(status: Status, lastSeen: Option<int>): VpsPatch {
    EmptyPatch.(status := Some(status), lastSeen := lastSeen)
  }

  /** What one sample measured. The store keeps one generic record layout for
      every producer; `Reading` names the producer, and the projections below
      give the generic fields (`cpu_percent`, `net_in_rate`, `load_1`, ...). */
  datatype Reading =
    | AgentReading(cpu: real, mem: real, memTotal: real, memUsed: real,
                   disk: real, diskTotal: real, diskUsed: real,
                   netIn: real, netOut: real, netInRate: real, netOutRate: real,
                   uptime: real, load1: real, load5: real, load15: real)
      // ICMP: net_in_rate = latency (0 when unknown), net_out_rate = loss %, uptime = TTL
    | PingReading(latency: real, loss: int, ttl: int, up: bool)
      // HTTP: net_in_rate = response time, net_out_rate = status code, uptime = body size
    | HttpReading(responseTime: int, statusCode: int, bodySize: int, up: bool)
      // TCP/UDP: net_in_rate = response time, net_out_rate = port
    | PortReading(responseTime: int, port: int, up: bool)
      // DNS: net_in_rate = response time, dns_res = resolved value or error code
    | DnsReading(responseTime: int, result: string, up: bool)

  datatype Metric = Metric(id: int, vpsId: int, timestamp: int, reading: Reading)

  /** `cpu_percent` of a sample. */
  function CpuPercent(r: Reading): real {
    if r.AgentReading? then r.cpu else 0.0
  }

  /** `mem_percent` of a sample; a DNS sample has no such field (it writes `ram_percent`). */
  function MemPercent(r: Reading): Option<real> {
    match r
    case AgentReading(_, mem, _, _, _, _, _, _, _, _, _, _, _, _, _) => Some(mem)
    case DnsReading(_, _, _) => None
    case _ => Some(0.0)
  }

  /** `disk_percent` of a sample. */
  function DiskPercent(r: Reading): real {
    if r.AgentReading? then r.disk else 0.0
  }

  /** `net_in_rate` of a sample. */
  function NetInRate(r: Reading): real {
    match r
    case AgentReading(_, _, _, _, _, _, _, _, _, rate, _, _, _, _, _) => rate
    case PingReading(latency, _, _, _) => latency
    case HttpReading(rt, _, _, _) => rt as real
    case PortReading(rt, _, _) => rt as real
    case DnsReading(rt, _, _) => rt as real
  }

  /** `net_out_rate` of a sample. */
  function NetOutRate(r: Reading): real {
    match r
    case AgentReading(_, _, _, _, _, _, _, _, _, _, rate, _, _, _, _) => rate
    case PingReading(_, loss, _, _) => loss as real
    case HttpReading(_, code, _, _) => code as real
    case PortReading(_, port, _) => port as real
    case DnsReading(_, _, _) => 0.0
  }

  /** `uptime` of a sample. */
  function Uptime(r: Reading): real {
    match r
    case AgentReading(_, _, _, _, _, _, _, _, _, _, _, up, _, _, _) => up
    case PingReading(_, _, ttl, _) => ttl as real
    case HttpReading(_, _, size, _) => size as real
    case PortReading(_, _, _) => 0.0
    case DnsReading(_, _, _) => 0.0
  }

  /** `load_1` of a sample: for every probe it is the reachability flag. */
  function LoadOne(r: Reading): (x: real)
    ensures !r.AgentReading? ==> (x == 1.0 <==> r.up) && (x == 0.0 <==> !r.up)
  {
    if r.AgentReading? then r.load1 else if r.up then 1.0 else 0.0
  }

  datatype Process = Process(
    id: int, vpsId: int, timestamp: int, pid: int, name: string,
    cpu: real, mem: real, rss: real, user: string, command: string)

  datatype AlertKind = HighCpu | HighMemory | IcmpDown | HttpDown | PortDown

  datatype Severity = Critical | WarningLevel

  /** The alert message templates, with their arguments. */
  datatype AlertText =
    | CpuUsageAt(cpu: real, hostname: string)               // "CPU usage at <cpu>% on <host>"
    | MemoryUsageAt(mem: real, hostname: string)            // "Memory usage at <mem>% on <host>"
    | PingFailed(hostname: string, ip: string)              // "ICMP Ping failed for <host> (<ip>)"
    | HttpStatusFailed(hostname: string, statusCode: int)   // "HTTP check failed for <host> — Status <code>"
    | HttpConnectionFailed(hostname: string)                // "HTTP check failed for <host> — Connection error"
    | PortClosedOn(port: int, proto: string, hostname: string, ip: string) // "Port <p>/<proto> closed on <host> (<ip>)"

  /** `acknowledged` is the number 0 or 1, as the store keeps it. */
  datatype Alert = Alert(
    id: int, vpsId: int, kind: AlertKind, severity: Severity, message: AlertText,
    acknowledged: int, createdAt: int)
}
