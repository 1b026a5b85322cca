/**
 * The application's bounded log buffer: every call to `log` appends an entry,
 * keeps only the most recent MaxLogs entries and rewrites the persisted copy.
 */
module Logger {
  import opened Strings

  datatype Level = Info | Warn | Error

  datatype LogEntry = LogEntry(timestamp: string, level: Level, message: string)

  /** What the key-value storage holds under the key "logs". */
  datatype StoredLogs =
    | Absent                       // nothing stored yet
    | Malformed(raw: string)       // a value that does not decode to a list of entries
    | Encoded(entries: seq<LogEntry>)

  const MaxLogs: nat := 500

  function Min(a: nat, b: nat): (m: nat) { if a < b then a else b }

  predicate IsSuffix(s: seq<LogEntry>, t: seq<LogEntry>) {
    |s| <= |t| && t[|t| - |s|..] == s
  }


  // ---------------------------------------------------------------------------
  // The message: the arguments joined by single spaces.
  // ---------------------------------------------------------------------------

  /** The arguments, already converted to strings, joined with " ". */
  function JoinArgs(args: seq<string>): (message: string)
    ensures |args| == 0 ==> message == ""
    ensures |args| == 1 ==> message == args[0]
    ensures |args| > 0 ==> args[0] <= message
    ensures |args| > 0 ==> EndsWith(message, args[|args| - 1])
  {
    if |args| == 0 then ""
    else if |args| == 1 then args[0]
    else args[0] + " " + JoinArgs(args[1..])
  }

  /** Index of the first space in `s`. */
  function IndexOfSpace(s: string): (i: nat)
    requires ' ' in s
    ensures i < |s| && s[i] == ' ' && ' ' !in s[..i]
  {
    if s[0] == ' ' then 0
    else
      var j := IndexOfSpace(s[1..]);
      assert s[..j + 1] == [s[0]] + s[1..][..j];
      j + 1
  }

  /** Splits a string at every single space: the inverse of JoinArgs. */
  function SplitOnSpace(s: string): (parts: seq<string>)
    ensures |parts| >= 1
    decreases |s|
  {
    if ' ' !in s then [s]
    else
      var i := IndexOfSpace(s);
      [s[..i]] + SplitOnSpace(s[i + 1..])
  }

  predicate NoSpaces(args: seq<string>) {
    forall k :: 0 <= k < |args| ==> ' ' !in args[k]
  }

  lemma SplitAfterWord(a: string, t: string)
    requires ' ' !in a
    ensures SplitOnSpace(a + " " + t) == [a] + SplitOnSpace(t)
  {
    var s := a + " " + t;
    assert s[|a|] == ' ';
    var i := IndexOfSpace(s);
    assert s[..|a|] == a;
    assert i == |a|;
    assert s[i + 1..] == t;
  }

  /** Joining words that hold no space and splitting again gives the words back. */
  lemma {:induction false} SplitJoinArgs(args: seq<string>)
    requires |args| > 0 && NoSpaces(args)
    ensures SplitOnSpace(JoinArgs(args)) == args
  {
    if |args| == 1 {
      assert JoinArgs(args) == args[0];
    } else {
      assert JoinArgs(args) == args[0] + " " + JoinArgs(args[1..]);
      SplitJoinArgs(args[1..]);
      SplitAfterWord(args[0], JoinArgs(args[1..]));
      assert args == [args[0]] + args[1..];
    }
  }

  /**
   * Joining is associative over any split of the arguments, spaces inside them or not:
   * the message for `a + b` is the message for `a`, one space, then the message for `b`.
   */
  lemma {:induction false} JoinConcat(a: seq<string>, b: seq<string>)
    requires |a| > 0 && |b| > 0
    ensures JoinArgs(a + b) == JoinArgs(a) + " " + JoinArgs(b)
  {
    var ab := a + b;
    assert ab[0] == a[0] && |ab| >= 2;
    if |a| == 1 {
      assert ab[1..] == b;
    } else {
      assert ab[1..] == a[1..] + b;
      JoinConcat(a[1..], b);
      SpaceAssoc(a[0], JoinArgs(a[1..]), JoinArgs(b));
    }
  }

  lemma SpaceAssoc(x: string, y: string, z: string)
    ensures x + " " + (y + " " + z) == x + " " + y + " " + z
  {
  }

  // ---------------------------------------------------------------------------
  // Rotation: what `log` leaves in the list.
  // ---------------------------------------------------------------------------

  /** The list after rotation: its last min(|logs|, MaxLogs) entries. */
  function Rotated(logs: seq<LogEntry>): (r: seq<LogEntry>)
    ensures |r| == Min(|logs|, MaxLogs)
    ensures IsSuffix(r, logs)
  {
    if |logs| > MaxLogs then logs[|logs| - MaxLogs..] else logs
  }

  /** The list after `log` appended `entry` to `logs`. */
  function AfterLog(logs: seq<LogEntry>, entry: LogEntry): (r: seq<LogEntry>)
    ensures |r| == Min(|logs| + 1, MaxLogs)
    ensures r[|r| - 1] == entry
    ensures IsSuffix(r[..|r| - 1], logs)
  {
    var r := Rotated(logs + [entry]);
    assert r == (logs + [entry])[|logs| + 1 - |r|..];
    assert r[..|r| - 1] == logs[|logs| + 1 - |r|..];
    r
  }

  /** Rotating early does not change what a later rotation keeps. */
  lemma RotatedAbsorbs(s: seq<LogEntry>, t: seq<LogEntry>)
    ensures Rotated(Rotated(s) + t) == Rotated(s + t)
  {
    var u := Rotated(s) + t;
    var v := s + t;
    assert u == v[|v| - |u|..];
    var a := Rotated(u);
    var b := Rotated(v);
    assert |a| == |b|;
    forall k | 0 <= k < |a| ensures a[k] == b[k] {
      assert a[k] == v[|v| - |a| + k];
    }
  }

  /** The list after a run of `log` calls, one per entry, oldest first. */
  function LogAll(logs: seq<LogEntry>, entries: seq<LogEntry>): (result: seq<LogEntry>)
    decreases |entries|
  {
    if |entries| == 0 then logs else LogAll(AfterLog(logs, entries[0]), entries[1..])
  }

  /** One `log` call, then the rest of the run. */
  lemma LogAllStep(logs: seq<LogEntry>, entries: seq<LogEntry>)
    requires |entries| > 0
    ensures LogAll(logs, entries) == LogAll(AfterLog(logs, entries[0]), entries[1..])
  {
  }

  lemma AfterLogIsRotated(logs: seq<LogEntry>, e: LogEntry)
    ensures AfterLog(logs, e) == Rotated(logs + [e])
  {
  }

  lemma AppendFirst(logs: seq<LogEntry>, entries: seq<LogEntry>)
    requires |entries| > 0
    ensures logs + entries == (logs + [entries[0]]) + entries[1..]
  {
    assert entries == [entries[0]] + entries[1..];
  }

  /** Any non-empty run of `log` calls keeps exactly the most recent MaxLogs entries. */
  lemma {:induction false} LogAllKeepsNewest(logs: seq<LogEntry>, entries: seq<LogEntry>)
    requires |entries| > 0
    ensures LogAll(logs, entries) == Rotated(logs + entries)
    decreases |entries|
  {
    var e, rest := entries[0], entries[1..];
    LogAllStep(logs, entries);
    AfterLogIsRotated(logs, e);
    AppendFirst(logs, entries);
    if |rest| == 0 {
      assert (logs + [e]) + rest == logs + [e];
    } else {
      LogAllKeepsNewest(AfterLog(logs, e), rest);
      RotatedAbsorbs(logs + [e], rest);
    }
  }

  /** Logging MaxLogs + 1 entries into an empty buffer evicts only the first one. */
  lemma OverflowEvictsOldest(entries: seq<LogEntry>)
    requires |entries| == MaxLogs + 1
    ensures LogAll([], entries) == entries[1..]
    ensures |LogAll([], entries)| == MaxLogs
  {
    LogAllKeepsNewest([], entries);
    assert [] + entries == entries;
  }

  // ---------------------------------------------------------------------------
  // The module-level buffer and its persisted copy.
  // ---------------------------------------------------------------------------

  /** The logs loaded at startup from what storage holds. */
  function LoadLogs(stored: StoredLogs): (logs: seq<LogEntry>)
    ensures stored.Encoded? ==> logs == stored.entries
    ensures !stored.Encoded? ==> logs == []
  {
    match stored
    case Encoded(entries) => entries
    case _ => []
  }

  class LogBuffer {
    var logs: seq<LogEntry>
    var persisted: StoredLogs

    /** The persisted copy equals the in-memory list. */
    ghost predicate InSync()
      reads this
    {
      persisted == Encoded(logs)
    }

    /** Startup: load what storage holds; storage itself is not rewritten. */
    constructor (stored: StoredLogs)
      ensures logs == LoadLogs(stored)
      ensures persisted == stored
    {
      logs := LoadLogs(stored);
      persisted := stored;
    }

    method PersistLogs()
      modifies this`persisted
      ensures InSync()
    {
      persisted := Encoded(logs);
    }

    /** Appends an entry stamped `now`, rotates and persists. */
    method Log(level: Level, args: seq<string>, now: string)
      modifies this
      ensures logs == AfterLog(old(logs), LogEntry(now, level, JoinArgs(args)))
      ensures InSync()
    {
      var entry := LogEntry(now, level, JoinArgs(args));
      logs := logs + [entry];
      if |logs| > MaxLogs {
        logs := logs[|logs| - MaxLogs..];
      }
      PersistLogs();
    }

    method GetLogs() returns (entries: seq<LogEntry>)
      ensures entries == logs
    {
      entries := logs;
    }

    method ClearLogs()
      modifies this
      ensures logs == []
      ensures InSync()
    {
      logs := [];
      PersistLogs();
    }
  }
}
