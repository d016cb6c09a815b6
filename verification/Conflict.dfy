/** Conflict policies, and the decision whether a lakehouse row may be written into Postgres. */
module Conflict {
  import opened Wrappers
  import opened Transform

  datatype Policy = LastWriteWins | SourceOfTruth | Merge | Refuse

  datatype Side = Postgres | Lakehouse

  datatype SideRow = SideRow(side: Side, key: Cell, values: Row, version: Option<int>)

  /** A conflict left to a human, or a call that makes no sense. */
  datatype Failure = Unresolved | Invalid

  datatype Resolution = Resolution(winner: SideRow, merged: Option<Row>)

  type MergeFn = (SideRow, SideRow) -> Row

  function ParsePolicy(name: string): Option<Policy> {
    match name
    case "last_write_wins" => Some(LastWriteWins)
    case "source_of_truth" => Some(SourceOfTruth)
    case "merge" => Some(Merge)
    case "error" => Some(Refuse)
    case _ => None
  }

  function Resolve(pg: SideRow, lake: SideRow, policy: Policy, truth: string, merge: Option<MergeFn>)
    : Result<Resolution, Failure>
  {
    if pg.key != lake.key then Err(Invalid)
    else
      match policy
      case LastWriteWins =>
        if pg.version == None || lake.version == None then Err(Unresolved)
        else if pg.version == lake.version then Ok(Resolution(if truth == "postgres" then pg else lake, None))
        else Ok(Resolution(if pg.version.value > lake.version.value then pg else lake, None))
      case SourceOfTruth =>
        if truth != "postgres" && truth != "lakehouse" then Err(Invalid)
        else Ok(Resolution(if truth == "postgres" then pg else lake, None))
      case Merge =>
        if merge == None then Err(Invalid)
        else Ok(Resolution(if truth == "postgres" then pg else lake, Some(merge.value(pg, lake))))
      case Refuse => Err(Unresolved)
  }

  datatype Action = Apply | ApplyMerge | SkipDuplicate | SkipPgWins | Error

  datatype Decision = Decision(action: Action, values: Option<Row>)

  function DecideReverseApply(lake: SideRow, pg: Option<SideRow>, policy: Policy, last: Option<int>, truth: string,
                              merge: Option<MergeFn>): Result<Decision, Failure>
  {
    if last.Some? && lake.version.Some? && lake.version.value <= last.value then Ok(Decision(SkipDuplicate, None))
    else if pg == None then Ok(Decision(Apply, Some(lake.values)))
    else
      match Resolve(pg.value, lake, policy, truth, merge)
      case Err(Unresolved) => Ok(Decision(Error, None))
      case Err(Invalid) => Err(Invalid)
      case Ok(res) =>
        if res.merged.Some? then Ok(Decision(ApplyMerge, res.merged))
        else if res.winner.side == Lakehouse then Ok(Decision(Apply, Some(lake.values)))
        else Ok(Decision(SkipPgWins, None))
  }
}
