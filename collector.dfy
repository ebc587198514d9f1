/** The central collector (ServerApp/Program.cs): for each connection it
    reads one message, appends `[<timestamp>] <message>` to its log when the
    message is an aggregator data message, and always answers `RECEIVED`.
    Its clock and the outcome of the file append are parameters. */
module Collector {
  import opened Text

  /** The prefix that marks an aggregator data message. */
  const DataPrefix: string := "AGG_DATA;"

  /** The collector's only reply. */
  const Received: string := "RECEIVED"

  /** The collector's filter: only aggregator data messages are logged. */
  predicate Accepts(message: string)
  {
    StartsWith(message, DataPrefix)
  }

  /** The log line for `message` received at clock reading `now`. */
  function LogLine(now: string, message: string): string
  {
    "[" + now + "] " + message
  }

  /** The log line keeps the timestamp in brackets and the message verbatim
      after it, so both can be read back. */
  lemma LogLineParts(now: string, message: string)
    ensures var line := LogLine(now, message);
            |line| == |now| + 3 + |message| &&
            line[0] == '[' && line[1..|now| + 1] == now &&
            line[|now| + 1..|now| + 3] == "] " &&
            line[|now| + 3..] == message
  {
  }

  /** The log after handling `message` at `now`; `writable` says whether
      the append to the log file succeeds (a failure is caught and only
      reported on the console). */
  function Logged(log: seq<string>, message: string, now: string, writable: bool): seq<string>
  {
    if Accepts(message) && writable then log + [LogLine(now, message)] else log
  }

  /** Handling a message grows the log by exactly one line, holding the
      message, iff the message is accepted and the append succeeds;
      otherwise the log is unchanged. */
  lemma LoggedGrowth(log: seq<string>, message: string, now: string, writable: bool)
    ensures var log' := Logged(log, message, now, writable);
            log'[..|log|] == log &&
            (|log'| == |log| + 1 <==> Accepts(message) && writable) &&
            (|log'| == |log| + 1 ==> log'[|log|] == LogLine(now, message)) &&
            (|log'| != |log| + 1 ==> log' == log)
  {
  }

  /** The collector's persistent log, one entry per appended line. */
  class CentralLog {
    var lines: seq<string>

    /** The log file outlives the process: a new collector starts from
        the lines already in it. */
    constructor (existing: seq<string>)
      ensures lines == existing
    {
      lines := existing;
    }

    /** One connection from the aggregator: filter, save, acknowledge. */
    method HandleClient(message: string, now: string, writable: bool) returns (reply: string)
      modifies this
      ensures reply == Received
      ensures lines == Logged(old(lines), message, now, writable)
    {
      if StartsWith(message, DataPrefix) {
        SaveToFile(message, now, writable);
      }
      reply := Received;
    }

    /** Appends the timestamped line; a failed append leaves the log as it
        was and is not reported to the caller. */
    method SaveToFile(data: string, now: string, writable: bool)
      modifies this
      ensures lines == if writable then old(lines) + [LogLine(now, data)] else old(lines)
    {
      if writable {
        lines := lines + [LogLine(now, data)];
      }
    }
  }
}
