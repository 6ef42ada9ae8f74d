/** Log levels and events. */
module LogTypes {
  import opened Wrappers

  type uint32 = x: int | 0 <= x < 0x1_0000_0000
  type uint64 = x: int | 0 <= x < 0x1_0000_0000_0000_0000
  type int32 = x: int | -0x8000_0000 <= x < 0x8000_0000

  /** OTHER is the writer thread's stop signal; callers do not log at it. */
  datatype Level = INFO | DEBUG | WARN | ERROR | FATAL | OTHER {
    function Rank(): nat {
      match this
      case INFO => 1
      case DEBUG => 2
      case WARN => 3
      case ERROR => 4
      case FATAL => 5
      case OTHER => 6
    }

    predicate AtLeast(threshold: Level) {
      Rank() >= threshold.Rank()
    }
  }

  /** The levels that a threshold lets pass, listed; DEBUG comes after INFO. */
  predicate Passes(level: Level, threshold: Level) {
    match threshold
    case INFO => true
    case DEBUG => level == DEBUG || level == WARN || level == ERROR || level == FATAL || level == OTHER
    case WARN => level == WARN || level == ERROR || level == FATAL || level == OTHER
    case ERROR => level == ERROR || level == FATAL || level == OTHER
    case FATAL => level == FATAL || level == OTHER
    case OTHER => level == OTHER
  }

  lemma AtLeastListed(level: Level, threshold: Level)
    ensures level.AtLeast(threshold) <==> Passes(level, threshold)
  {
  }

  function LevelText(level: Level): string {
    match level
    case INFO => "INFO"
    case DEBUG => "DEBUG"
    case WARN => "WARN"
    case ERROR => "ERROR"
    case FATAL => "FATAL"
    case OTHER => "UNKNOWN"
  }

  datatype LogEvent = LogEvent(
    fileName: string, lineNum: int32, msElapse: uint32, threadId: uint32, time: uint64, message: string)

  function LevelOf(text: string): Option<Level> {
    if text == "INFO" then Some(INFO)
    else if text == "DEBUG" then Some(DEBUG)
    else if text == "WARN" then Some(WARN)
    else if text == "ERROR" then Some(ERROR)
    else if text == "FATAL" then Some(FATAL)
    else if text == "UNKNOWN" then Some(OTHER)
    else None
  }

  lemma LevelTextParses(level: Level)
    ensures LevelOf(LevelText(level)) == Some(level)
    ensures forall c :: c in LevelText(level) ==> 'A' <= c <= 'Z'
  {
  }
}
