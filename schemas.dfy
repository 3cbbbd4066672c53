/**
 * The records the service reads and returns: a usage event, the same event
 * with its misuse flags, and the summary shapes of the upload response.
 */
module Schemas {
  import opened Wrappers
  import opened Clock

  /** One row of a middleware export, with its timestamp already parsed. */
  datatype Event = Event(
    timestamp: Instant,
    operatorId: string,
    location: string,
    deviceId: string,
    testType: string)

  /** An event after flagging: its 1-based `event_id` in sorted order and the seven flag columns. */
  datatype FlaggedEvent = FlaggedEvent(
    eventId: int,
    event: Event,
    rapid: bool,
    locConflict: bool,
    deviceHop: bool,
    shiftViol: bool,
    loadDev: bool,
    coloc: bool,
    flagged: bool)

  /** The six misuse heuristics. */
  datatype Flag = Rapid | LocConflict | DeviceHop | ShiftViol | LoadDev | Coloc

  /** The column of `r` that holds flag `f`. */
  function Raised(r: FlaggedEvent, f: Flag): bool
  {
    match f
    case Rapid => r.rapid
    case LocConflict => r.locConflict
    case DeviceHop => r.deviceHop
    case ShiftViol => r.shiftViol
    case LoadDev => r.loadDev
    case Coloc => r.coloc
  }

  /** The exact quotient `flags / tests`; `suspicion_score` is its value as a float. */
  datatype Ratio = Ratio(flags: nat, tests: nat)
  {
    function Value(): real
      requires tests > 0
    {
      flags as real / tests as real
    }
  }

  datatype OperatorSummary = OperatorSummary(
    operatorId: string,
    totalTests: nat,
    suspicionScore: Ratio,
    rapidCount: nat,
    locConflictCount: nat,
    deviceHopCount: nat,
    shiftViolCount: nat,
    loadDevCount: nat,
    colocCount: nat)
  {
    /** The count this summary holds for flag `f`. */
    function Count(f: Flag): nat
    {
      match f
      case Rapid => rapidCount
      case LocConflict => locConflictCount
      case DeviceHop => deviceHopCount
      case ShiftViol => shiftViolCount
      case LoadDev => loadDevCount
      case Coloc => colocCount
    }
  }

  datatype DeviceSummary = DeviceSummary(
    deviceId: string,
    totalTests: nat,
    uniqueUsers: nat,
    colocEvents: nat)

  datatype FlagStats = FlagStats(
    rapid: nat,
    locConflict: nat,
    deviceHop: nat,
    shiftViol: nat,
    loadDev: nat,
    coloc: nat)
  {
    function Count(f: Flag): nat
    {
      match f
      case Rapid => rapid
      case LocConflict => locConflict
      case DeviceHop => deviceHop
      case ShiftViol => shiftViol
      case LoadDev => loadDev
      case Coloc => coloc
    }
  }

  /** The response of `/upload` and `/summary`. */
  datatype UsageSummary = UsageSummary(
    flaggedEventsPreview: seq<FlaggedEvent>,
    operatorSummary: seq<OperatorSummary>,
    deviceSummary: seq<DeviceSummary>,
    flagStats: FlagStats,
    hourlyHeatmapMatrix: map<string, map<string, nat>>,
    insights: Option<map<string, seq<string>>>)
}
