/** The logger: a level filter in front of an in-memory, append-only list of entries. */
module Logging {
  import opened Options
  import AppConfiguration

  datatype Level = Error | Warn | Info | Debug

  /** The logLevels table */
  function Rank(level: Level): (r: nat)
    ensures r <= 3
  {
    match level
    case Error => 0
    case Warn => 1
    case Info => 2
    case Debug => 3
  }

  /** The key of a level in the logLevels table */
  function LevelName(level: Level): string {
    match level
    case Error => "error"
    case Warn => "warn"
    case Info => "info"
    case Debug => "debug"
  }

  /** logLevels.hasOwnProperty(name) and the level it names */
  function LevelNamed(name: string): (r: Option<Level>)
    ensures r.Some? ==> LevelName(r.value) == name
  {
    if name == "error" then Some(Error)
    else if name == "warn" then Some(Warn)
    else if name == "info" then Some(Info)
    else if name == "debug" then Some(Debug)
    else None
  }

  /** Every level is found again under its own name */
  lemma LevelNameRoundTrip(level: Level)
    ensures LevelNamed(LevelName(level)) == Some(level)
  {
  }

  /** Object.keys(logLevels)[rank]: the table lists the levels in rank order */
  function LevelWithRank(rank: nat): (r: Option<Level>)
    ensures r.Some? <==> rank <= 3
    ensures r.Some? ==> Rank(r.value) == rank
  {
    if rank == 0 then Some(Error)
    else if rank == 1 then Some(Warn)
    else if rank == 2 then Some(Info)
    else if rank == 3 then Some(Debug)
    else None
  }

  /** `logLevels[configured] || 2`: rank 0 is falsy, so 'error' and unknown names both give 2 */
  function InitialLevel(configured: string): (rank: nat)
    ensures 1 <= rank <= 3
    ensures LevelNamed(configured).Some? && Rank(LevelNamed(configured).value) != 0 ==> rank == Rank(LevelNamed(configured).value)
    ensures LevelNamed(configured).None? || LevelNamed(configured) == Some(Error) ==> rank == 2
  {
    match LevelNamed(configured)
    case Some(level) => if Rank(level) != 0 then Rank(level) else 2
    case None => 2
  }

  /** The level each host starts with: debug on the development host, info everywhere else */
  lemma ConfiguredInitialLevel(hostname: string)
    ensures InitialLevel(AppConfiguration.GetConfig(hostname).environment.logLevel) ==
      if AppConfiguration.CurrentEnvironment(hostname) == "development" then 3 else 2
  {
  }

  /** What the browser supplies to createLogEntry */
  datatype EntryContext = EntryContext(timestamp: string, url: string, userAgent: string, sessionId: string)

  /**
   * A structured entry; data is kept only when truthy (a non-empty string), and
   * error only when given (an Error object is always truthy)
   */
  datatype LogEntry = LogEntry(
    timestamp: string,
    level: Level,
    message: string,
    url: string,
    userAgent: string,
    sessionId: string,
    data: Option<string>,
    error: Option<string>)

  function CreateLogEntry(level: Level, message: string, data: Option<string>, error: Option<string>, context: EntryContext): (e: LogEntry)
    ensures e.level == level && e.message == message && e.error == error
    ensures e.data.Some? <==> data.Some? && data.value != []
    ensures e.data.Some? ==> e.data == data
    ensures e.timestamp == context.timestamp && e.sessionId == context.sessionId
  {
    var kept := if data.Some? && data.value != [] then data else None;
    LogEntry(context.timestamp, level, message, context.url, context.userAgent, context.sessionId, kept, error)
  }

  class Logger {
    var currentLevel: nat
    var logs: seq<LogEntry>
    /** Declared by the original but never consulted: logs grows without bound */
    const maxLogs: nat

    ghost predicate Valid()
      reads this
    {
      currentLevel <= 3
    }

    /** new Logger(): the configured environment's logLevel, or 'info' without a configuration */
    constructor (configuredLevel: string)
      ensures currentLevel == InitialLevel(configuredLevel)
      ensures logs == [] && maxLogs == 1000
      ensures Valid()
    {
      currentLevel := InitialLevel(configuredLevel);
      logs := [];
      maxLogs := 1000;
    }

    /** shouldLog */
    function ShouldLog(level: Level): (r: bool)
      reads this
      ensures r <==> Rank(level) <= currentLevel
      ensures level == Error ==> r
    {
      Rank(level) <= currentLevel
    }

    /** The body the four level methods share */
    method Log(level: Level, message: string, data: Option<string>, error: Option<string>, context: EntryContext)
      modifies this
      ensures currentLevel == old(currentLevel)
      ensures logs == old(logs) + if old(ShouldLog(level)) then [CreateLogEntry(level, message, data, error, context)] else []
    {
      if ShouldLog(level) {
        var entry := CreateLogEntry(level, message, data, error, context);
        logs := logs + [entry];
      }
    }

    /** error(): always passes the filter */
    method LogError(message: string, data: Option<string>, error: Option<string>, context: EntryContext)
      modifies this
      ensures currentLevel == old(currentLevel)
      ensures logs == old(logs) + [CreateLogEntry(Error, message, data, error, context)]
    {
      Log(Error, message, data, error, context);
    }

    method LogWarn(message: string, data: Option<string>, context: EntryContext)
      modifies this
      ensures currentLevel == old(currentLevel)
      ensures logs == old(logs) + if old(currentLevel) >= 1 then [CreateLogEntry(Warn, message, data, None, context)] else []
    {
      Log(Warn, message, data, None, context);
    }

    method LogInfo(message: string, data: Option<string>, context: EntryContext)
      modifies this
      ensures currentLevel == old(currentLevel)
      ensures logs == old(logs) + if old(currentLevel) >= 2 then [CreateLogEntry(Info, message, data, None, context)] else []
    {
      Log(Info, message, data, None, context);
    }

    method LogDebug(message: string, data: Option<string>, context: EntryContext)
      modifies this
      ensures currentLevel == old(currentLevel)
      ensures logs == old(logs) + if old(currentLevel) >= 3 then [CreateLogEntry(Debug, message, data, None, context)] else []
    {
      Log(Debug, message, data, None, context);
    }

    /** getLogs: a copy */
    method GetLogs() returns (copy: seq<LogEntry>)
      ensures copy == logs
    {
      copy := logs;
    }

    method ClearLogs()
      modifies this
      ensures logs == [] && currentLevel == old(currentLevel)
    {
      logs := [];
    }

    /** setLogLevel: unknown names are ignored */
    method SetLogLevel(name: string)
      requires Valid()
      modifies this
      ensures Valid()
      ensures logs == old(logs)
      ensures LevelNamed(name).Some? ==> currentLevel == Rank(LevelNamed(name).value) && GetLogLevel() == name
      ensures LevelNamed(name).None? ==> currentLevel == old(currentLevel)
    {
      match LevelNamed(name)
      case Some(level) =>
        currentLevel := Rank(level);
        assert LevelWithRank(currentLevel) == Some(level);
      case None =>
    }

    /** getLogLevel */
    function GetLogLevel(): (name: string)
      requires Valid()
      reads this
      ensures LevelNamed(name).Some? && Rank(LevelNamed(name).value) == currentLevel
    {
      LevelNameRoundTrip(LevelWithRank(currentLevel).value);
      LevelName(LevelWithRank(currentLevel).value)
    }
  }

  /** With the production configuration (logLevel 'error') info entries are still kept, debug ones are not */
  method ProductionLogging(context: EntryContext) returns (kept: nat)
    ensures kept == 2
  {
    var logger := new Logger(AppConfiguration.GetConfig("renklidunya.com").environment.logLevel);
    logger.LogInfo("page loaded", None, context);
    logger.LogDebug("details", None, context);
    logger.LogError("failure", None, None, context);
    kept := |logger.logs|;
  }
}
