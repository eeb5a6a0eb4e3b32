/** The event carrier shared by the agent and the hub (core/src/event.rs). */
module Events {

  datatype Option<+T> = None | Some(value: T)

  datatype EventKind =
    | ComputeUtil
    | ComputeMem
    | TransportBw
    | TransportDrop
    | StorageIops
    | StorageQDepth
    | ProcessState
    | ErrorHw
    | ErrorNet
    | TopoLinkDown
    | IntentRun
    | ActionExec

  /** `node` is the namespace: the agent a hub-side event came from. */
  datatype Event = Event(
    ts: nat,
    kind: EventKind,
    entity: string,
    job: Option<string>,
    pid: Option<nat>,
    value: string,
    node: Option<string>)

  /** The wire name of an event kind, which rule conditions compare with. */
  function KindName(k: EventKind): string {
    match k
    case ComputeUtil => "compute.util"
    case ComputeMem => "compute.mem"
    case TransportBw => "transport.bw"
    case TransportDrop => "transport.drop"
    case StorageIops => "storage.iops"
    case StorageQDepth => "storage.qdepth"
    case ProcessState => "process.state"
    case ErrorHw => "error.hw"
    case ErrorNet => "error.net"
    case TopoLinkDown => "topo.link_down"
    case IntentRun => "intent.run"
    case ActionExec => "action.exec"
  }

  /** `u64::saturating_sub`. */
  function SatSub(a: nat, b: nat): nat {
    if a < b then 0 else a - b
  }

  const U64_MAX: nat := 0xFFFF_FFFF_FFFF_FFFF

  /** `u64::saturating_add(1)`, the step of every reliability counter. */
  function SatInc(n: nat): nat {
    if n < U64_MAX then n + 1 else n
  }

  /** Decimal rendering of a number. */
  function Decimal(n: nat): string {
    if n < 10 then ["0123456789"[n]] else Decimal(n / 10) + ["0123456789"[n % 10]]
  }
}
