/**
 The log handler as an object over an open log file with a read and write position.
 */
module LogHandlers {
  import opened LogWindow

  class LogHandler {
    const capacity: nat
    var logFile: seq<Byte>
    var filePos: nat
    var backlogPosition: nat
    var criticalLog: bool
    var criticalLogWindow: seq<Entry>

    ghost function S(): State
      reads this
    {
      State(logFile, filePos, backlogPosition, criticalLog, criticalLogWindow)
    }

    constructor (capacity: nat)
      ensures S() == INIT && this.capacity == capacity
    {
      this.capacity := capacity;
      logFile, filePos, backlogPosition, criticalLog, criticalLogWindow := [], 0, 0, false, [];
    }

    method HandleMessage(m: Msg)
      modifies this
      ensures S() == Step(old(S()), capacity, Message(m))
    {
      HandleLogWindow(m);
      WriteToFile(m.bytes);
    }

    method HandleLogWindow(m: Msg)
      modifies this`criticalLog, this`criticalLogWindow
      ensures S() == HandleWindow(old(S()), capacity, m)
    {
      if criticalLog && |criticalLogWindow| >= capacity {
        return;
      } else if m.critical {
        criticalLog := true;
      }
      criticalLogWindow := Appended(criticalLogWindow, capacity, Entry(filePos, m.size));
    }

    method WriteToFile(bytes: seq<Byte>)
      modifies this`logFile, this`filePos
      ensures logFile == Written(old(logFile), old(filePos), bytes) && filePos == old(filePos) + |bytes|
    {
      logFile := Written(logFile, filePos, bytes);
      filePos := filePos + |bytes|;
    }

    /** Reads a part of the file and puts the position back, so that logging goes on where it was. */
    method ReadLogFile(start: nat, length: int) returns (bytes: seq<Byte>)
      modifies this`filePos
      ensures bytes == Read(logFile, start, if length > 0 then length else 0) && S() == old(S())
    {
      var currentPos := filePos;
      filePos := start;
      if filePos > |logFile| {
        bytes := [];
      } else if length > 0 && filePos + length <= |logFile| {
        bytes := logFile[filePos..filePos + length];
        filePos := filePos + length;
      } else {
        bytes := logFile[filePos..];
        filePos := |logFile|;
      }
      filePos := currentPos;
    }

    method GetBacklog(all: bool) returns (bytes: seq<Byte>)
      modifies this`filePos
      ensures bytes == Read(logFile, if all then 0 else backlogPosition, 0) && S() == old(S())
    {
      bytes := ReadLogFile(if all then 0 else backlogPosition, 0);
    }

    method GetCriticalLogWindow() returns (bytes: seq<Byte>)
      requires criticalLog ==> criticalLogWindow != []
      modifies this`filePos
      ensures bytes == CriticalWindow(S()) && S() == old(S())
    {
      if !criticalLog {
        return [];
      }
      var first, last := criticalLogWindow[0], criticalLogWindow[|criticalLogWindow| - 1];
      bytes := ReadLogFile(first.position, last.position - first.position + last.length);
    }

    method ResetBacklog()
      modifies this
      ensures S() == Step(old(S()), capacity, LogWindow.ResetBacklog)
    {
      backlogPosition := filePos;
      criticalLog := false;
      criticalLogWindow := [];
    }
  }
}
