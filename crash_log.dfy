/**
 * The in-memory buffer of the crash logger: every message is stamped and
 * appended, and the buffer is cut back to its most recent 800 entries as soon
 * as it grows past 1000. The clock is a parameter.
 */
module CrashLog {
  const MaxEntries := 1000
  const KeptEntries := 800

  /** `f"[{timestamp}] {message}"` */
  function Entry(timestamp: string, message: string): string
  {
    "[" + timestamp + "] " + message
  }

  /**
   * The buffer after one more entry: the entry appended, then, past 1000
   * entries, only the last 800 kept.
   */
  function Appended(entries: seq<string>, entry: string): (r: seq<string>)
    ensures |entries| < MaxEntries ==> r == entries + [entry]
    ensures |entries| >= MaxEntries ==> |r| == KeptEntries
    ensures |r| <= MaxEntries && r != [] && r[|r| - 1] == entry
    ensures exists cut | 0 <= cut <= |entries| :: r == entries[cut..] + [entry]
  {
    var grown := entries + [entry];
    if |grown| > MaxEntries then
      assert grown[|grown| - KeptEntries..] == entries[|entries| + 1 - KeptEntries..] + [entry];
      grown[|grown| - KeptEntries..]
    else
      assert grown == entries[0..] + [entry];
      grown
  }

  /** The buffer after a run of `add_log` calls. */
  function AppendAll(entries: seq<string>, more: seq<string>): seq<string>
    decreases |more|
  {
    if more == [] then entries else Appended(AppendAll(entries, more[..|more| - 1]), more[|more| - 1])
  }

  /**
   * Trimming never loses recent history: the last (up to) 800 entries added
   * are always still there, in order, at the end of the buffer.
   */
  lemma {:induction false} RecentKept(entries: seq<string>, more: seq<string>)
    requires |more| <= KeptEntries
    ensures var r := AppendAll(entries, more);
      |r| >= |more| && r[|r| - |more|..] == more
    decreases |more|
  {
    if more != [] {
      var front := more[..|more| - 1];
      RecentKept(entries, front);
      var before := AppendAll(entries, front);
      var r := Appended(before, more[|more| - 1]);
      assert AppendAll(entries, more) == r;
      if |before| + 1 > MaxEntries {
        assert |before| >= KeptEntries;
        assert before[|before| - |front|..] == front;
        var cut := |before| + 1 - KeptEntries;
        assert r == before[cut..] + [more[|more| - 1]];
        assert r[|r| - |more|..] == before[|before| - |front|..] + [more[|more| - 1]];
      } else {
        assert r == before + [more[|more| - 1]];
        assert r[|r| - |more|..] == before[|before| - |front|..] + [more[|more| - 1]];
      }
      assert front + [more[|more| - 1]] == more;
    }
  }

  class CrashLogger {
    var logMessages: seq<string>

    constructor()
      ensures logMessages == []
    {
      logMessages := [];
    }

    /** `add_log`: stamp the message, append it, trim past 1000. */
    method AddLog(timestamp: string, message: string)
      modifies this
      ensures logMessages == Appended(old(logMessages), Entry(timestamp, message))
    {
      logMessages := logMessages + [Entry(timestamp, message)];
      if |logMessages| > MaxEntries {
        logMessages := logMessages[|logMessages| - KeptEntries..];
      }
    }
  }
}
