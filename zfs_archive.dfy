/** The one-shot ZFS archive of backup_zfs.py: derive the snapshot and
    archive names, check for root, make the target directory, snapshot, send
    the snapshot through `gzip` into the archive, and destroy the snapshot
    whether or not the send succeeded.

    Commands go to an external `ArchiveTool` (an exit code per action after
    the actions so far) and are recorded in `ArchiveHost.trace`. */
module ZfsArchive {
  import opened Common

  // ================================================================ data

  /** A directory creation, a command as an argument vector, or a shell
      pipeline. */
  datatype Action = Mkdir(path: string) | Exec(argv: seq<string>) | Shell(line: string)

  type ArchiveTool = (seq<Action>, Action) -> int

  /** How `main` ends: it returns a status, or `check_call` raises
      `CalledProcessError` with the command's exit code. */
  datatype Outcome = Returned(status: int) | Raised(code: int)

  datatype Run = Run(outcome: Outcome, trace: seq<Action>)

  // ================================================================ names

  /** `s.replace(a, b)` for single characters. */
  function ReplaceChar(s: string, a: char, b: char): (r: string)
    ensures |r| == |s|
  {
    if s == [] then [] else [if s[0] == a then b else s[0]] + ReplaceChar(s[1..], a, b)
  }

  function SnapName(dataset: string, today: Date): string
    requires ValidDate(today)
  {
    dataset + "@backup_" + YyUnderMmUnderDd(today)
  }

  /** The archive path, with the space after the target directory that the
      format string contains. */
  function ArchiveName(tgt: string, dataset: string, today: Date): string
    requires ValidDate(today)
  {
    tgt + " /zfsbackup_" + ReplaceChar(dataset, '/', '_') + "_" + YyUnderMmUnderDd(today) + ".gz"
  }

  function SnapArgs(snap: string): seq<string> { ["zfs", "snap", "-r", snap] }

  function SendLine(snap: string, archive: string): string
  {
    "zfs send -R " + snap + " | pv | gzip > " + archive
  }

  function DestroyArgs(snap: string): seq<string> { ["zfs", "destroy", "-r", snap] }

  // ================================================================ the run

  /** `subprocess.check_call`: the exit code, raised when non-zero. */
  function CallSpec(tool: ArchiveTool, trace: seq<Action>, a: Action): (r: (Option<int>, seq<Action>))
    ensures r.1 == trace + [a]
    ensures r.0.Some? <==> tool(trace, a) != 0
  {
    var code := tool(trace, a);
    (if code != 0 then Some(code) else None, trace + [a])
  }

  /** `main` after argument parsing. */
  function MainSpec(tool: ArchiveTool, trace: seq<Action>, dataset: string, tgt: string, today: Date,
                    root: bool, isDir: bool): Run
    requires ValidDate(today)
  {
    var snap := SnapName(dataset, today);
    var archive := ArchiveName(tgt, dataset, today);
    if !root then Run(Returned(1), trace)
    else
      var t1 := if isDir then trace else trace + [Mkdir(tgt)];
      var (snapFailed, t2) := CallSpec(tool, t1, Exec(SnapArgs(snap)));
      if snapFailed.Some? then Run(Raised(snapFailed.value), t2)
      else
        var (sendFailed, t3) := CallSpec(tool, t2, Shell(SendLine(snap, archive)));
        var (destroyFailed, t4) := CallSpec(tool, t3, Exec(DestroyArgs(snap)));
        if destroyFailed.Some? then Run(Raised(destroyFailed.value), t4)
        else if sendFailed.Some? then Run(Raised(sendFailed.value), t4)
        else Run(Returned(0), t4)
  }

  /** The process exit status: the returned status, or 1 for the traceback
      of an uncaught exception. */
  function ExitStatus(o: Outcome): int
  {
    match o
    case Returned(s) => s
    case Raised(_) => 1
  }

  class ArchiveHost {
    const tool: ArchiveTool
    var trace: seq<Action>

    constructor (tool: ArchiveTool)
      ensures this.tool == tool && trace == []
    {
      this.tool := tool;
      trace := [];
    }

    /** `subprocess.check_call`. */
    method Call(a: Action) returns (failed: Option<int>)
      modifies this
      ensures (failed, trace) == CallSpec(tool, old(trace), a)
    {
      var code := tool(trace, a);
      trace := trace + [a];
      failed := if code != 0 then Some(code) else None;
    }

    /** `main` after argument parsing, with the `try`/`finally` around the
        send. */
    method RunArchive(dataset: string, tgt: string, today: Date, root: bool, isDir: bool) returns (o: Outcome)
      requires ValidDate(today)
      modifies this
      ensures Run(o, trace) == MainSpec(tool, old(trace), dataset, tgt, today, root, isDir)
    {
      var snapName := SnapName(dataset, today);
      var backupFileName := ArchiveName(tgt, dataset, today);
      if !root {
        return Returned(1);
      }
      if !isDir {
        trace := trace + [Mkdir(tgt)];
      }
      var snapFailed := Call(Exec(SnapArgs(snapName)));
      if snapFailed.Some? {
        return Raised(snapFailed.value);
      }
      // try
      var sendFailed := Call(Shell(SendLine(snapName, backupFileName)));
      // finally
      var destroyFailed := Call(Exec(DestroyArgs(snapName)));
      if destroyFailed.Some? {
        return Raised(destroyFailed.value);
      }
      if sendFailed.Some? {
        return Raised(sendFailed.value);
      }
      return Returned(0);
    }
  }

  // ================================================================ properties

  /** `replace('/', '_')` leaves no '/' and changes nothing else. */
  lemma {:induction false} ReplaceCharMeaning(s: string, a: char, b: char)
    requires a != b
    ensures var r := ReplaceChar(s, a, b);
      a !in r && forall i :: 0 <= i < |s| ==> r[i] == (if s[i] == a then b else s[i])
  {
    if s != [] {
      ReplaceCharMeaning(s[1..], a, b);
      var r := ReplaceChar(s, a, b);
      assert forall i :: 0 < i < |s| ==> r[i] == ReplaceChar(s[1..], a, b)[i - 1];
    }
  }

  /** The snapshot name always names a snapshot of the dataset; the archive
      name is the target, a space, and a file whose dataset part has no '/'. */
  lemma Names(dataset: string, tgt: string, today: Date)
    requires ValidDate(today)
    ensures var snap := SnapName(dataset, today);
      dataset + "@backup_" <= snap && |snap| == |dataset| + 16 && snap[|dataset|] == '@'
    ensures var a := ArchiveName(tgt, dataset, today);
      tgt + " /zfsbackup_" <= a && |a| == |tgt| + |dataset| + 24 &&
      '/' !in a[|tgt| + 12..|tgt| + 12 + |dataset|] && EndsWith(a, ".gz")
  {
    ReplaceCharMeaning(dataset, '/', '_');
    var a := ArchiveName(tgt, dataset, today);
    assert a[|tgt| + 12..|tgt| + 12 + |dataset|] == ReplaceChar(dataset, '/', '_');
  }

  /** Without root `main` returns 1 before any directory or command. */
  lemma RootCheckFirst(tool: ArchiveTool, trace: seq<Action>, dataset: string, tgt: string, today: Date, isDir: bool)
    requires ValidDate(today)
    ensures MainSpec(tool, trace, dataset, tgt, today, false, isDir) == Run(Returned(1), trace)
  {
  }

  /** The cleanup contract: once `zfs snap` succeeded, the send and then the
      destroy of that snapshot are issued whatever the send did; the run
      succeeds (status 0) exactly when all three commands exit 0, and a
      failing destroy's error replaces the send's. If `zfs snap` fails, no
      destroy is issued. */
  lemma CleanupContract(tool: ArchiveTool, trace: seq<Action>, dataset: string, tgt: string, today: Date, isDir: bool)
    requires ValidDate(today)
    ensures var snap, archive := SnapName(dataset, today), ArchiveName(tgt, dataset, today);
      var t1 := if isDir then trace else trace + [Mkdir(tgt)];
      var t2 := t1 + [Exec(SnapArgs(snap))];
      var t3 := t2 + [Shell(SendLine(snap, archive))];
      var m := MainSpec(tool, trace, dataset, tgt, today, true, isDir);
      (tool(t1, Exec(SnapArgs(snap))) != 0 ==> m == Run(Raised(tool(t1, Exec(SnapArgs(snap)))), t2)) &&
      (tool(t1, Exec(SnapArgs(snap))) == 0 ==> m.trace == t3 + [Exec(DestroyArgs(snap))]) &&
      (m.outcome == Returned(0) <==>
         tool(t1, Exec(SnapArgs(snap))) == 0 && tool(t2, Shell(SendLine(snap, archive))) == 0 &&
         tool(t3, Exec(DestroyArgs(snap))) == 0) &&
      (tool(t1, Exec(SnapArgs(snap))) == 0 && tool(t3, Exec(DestroyArgs(snap))) != 0 ==>
         m.outcome == Raised(tool(t3, Exec(DestroyArgs(snap)))))
  {
  }

  /** The process exits 0 exactly on success. */
  lemma ArchiveExitStatus(tool: ArchiveTool, trace: seq<Action>, dataset: string, tgt: string, today: Date, root: bool, isDir: bool)
    requires ValidDate(today)
    ensures var m := MainSpec(tool, trace, dataset, tgt, today, root, isDir);
      ExitStatus(m.outcome) == 0 <==> m.outcome == Returned(0)
  {
  }
}
