/**
 * The operator's log ("main courante"): an append-only list of entries,
 * each stamped with the virtual time at which it was added.
 */
module Log {
  import opened Wrappers
  import opened Types
  import Temporal

  /** An entry as callers hand it in: everything but the id and the timestamp. */
  datatype LogInput = LogInput(
    severity: LogSeverity,
    source: LogSource,
    message: string,
    entityId: Option<string>)

  class LogSlice {
    var logs: seq<LogEntry>

    constructor ()
      ensures logs == []
    {
      logs := [];
    }

    /**
     * Appends an entry stamped with the store's current virtual time, which
     * is the clock's field. `id` stands for the generated entry id.
     */
    method AddLog(entry: LogInput, id: string, clock: Temporal.TemporalSlice)
      modifies this
      ensures logs == old(logs) + [LogEntry(id, clock.virtualTime, entry.severity, entry.source, entry.message, entry.entityId)]
      ensures clock.virtualTime == old(clock.virtualTime)
    {
      var newLog := LogEntry(id, clock.virtualTime, entry.severity, entry.source, entry.message, entry.entityId);
      logs := logs + [newLog];
    }

    method ClearLogs()
      modifies this
      ensures logs == []
    {
      logs := [];
    }
  }

  /**
   * Logging while the clock is paused stamps successive entries with the
   * same instant, and earlier entries are kept as they were.
   */
  method LogTwiceWhilePaused(log: LogSlice, clock: Temporal.TemporalSlice, a: LogInput, b: LogInput,
                             idA: string, idB: string, deltaTime: real)
    requires clock.isPaused
    modifies log, clock
    ensures old(log.logs) <= log.logs && |log.logs| == |old(log.logs)| + 2
    ensures log.logs[|log.logs| - 2].virtualTimestamp == log.logs[|log.logs| - 1].virtualTimestamp
                                                      == old(clock.virtualTime)
  {
    log.AddLog(a, idA, clock);
    clock.Tick(deltaTime);
    log.AddLog(b, idB, clock);
  }
}
