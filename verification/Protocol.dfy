/** What travels between the handler, the pool and a worker process. */
module Protocol {
  import opened JsonValues
  import opened SettingsValues
  import opened Wrappers

  datatype Request = Request(messages: Json, model: string, config: Settings, key: string)

  datatype Result = Result(
    messages: Option<Json>,
    tokensBefore: int,
    tokensAfter: int,
    tokensSaved: int,
    elapsedMs: real,
    cold: bool,
    modelLimit: int)

  datatype Failure = WorkerFailed | WorkerUnavailable | PoolShuttingDown | CallerGone

  /** What a Compress call comes back with; `slot` is stamped by the serving slot. */
  datatype Outcome = Ok(result: Result, slot: nat) | Failed(why: Failure)

  /** A request line on a worker's stdin. */
  datatype In = In(id: nat, req: Request)

  /** A line on a worker's stdout, as far as the reader can tell lines apart. */
  datatype Line =
    | OkLine(id: int, result: Result)
    | ErrLine(id: int)
    | NoResultLine(id: int)
    | JunkLine

  /** The checks made on the line read back for request `id`. */
  function Accept(line: Line, id: nat, slot: nat): (out: Outcome)
    ensures out.Ok? <==> line.OkLine? && line.id == id
    ensures out.Ok? ==> out.result == line.result && out.slot == slot
  {
    match line
    case OkLine(got, result) => if got == id then Ok(result, slot) else Failed(WorkerFailed)
    case ErrLine(_) => Failed(WorkerFailed)
    case NoResultLine(_) => Failed(WorkerFailed)
    case JunkLine => Failed(WorkerFailed)
  }
}
