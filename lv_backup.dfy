/** The LVM snapshot-and-archive backup of backup_lv.py: root check, name
    derivation, the mount directory, the pre-existing snapshot check, snapshot
    creation, then mount and tar with a cleanup that always unmounts (if
    mounted) and removes the snapshot.

    The LVM, mount and tar tools are an external `LvTool` (the exit code of an
    argument vector after the actions so far), `/proc/mounts` is an external
    function of the actions so far, and every action is recorded in
    `LvHost.trace`. Each method is proved equal to a specification function in
    state-passing style. */
module LvBackup {
  import opened Common

  // ================================================================ data

  /** What the script does to the system: create a directory, or run a
      command given as an argument vector. */
  datatype Action = Mkdir(path: string) | Exec(argv: seq<string>)

  /** The exceptions that can leave `main`. */
  datatype LvError =
    | PermissionDenied             // not root, outside dry-run
    | SnapshotExists               // `lvdisplay` found the snapshot
    | SnapshotQueryFailed(code: int) // `lvdisplay` exited neither 0 nor 5
    | AlreadyMounted               // `mount_snap` found the mount point in use
    | CalledProcessError(code: int)  // a checked command exited non-zero
    | IndexError                   // `line[1]` on a line of /proc/mounts shorter than 2

  type LvTool = (seq<Action>, seq<string>) -> int

  /** The lines of /proc/mounts after the given actions. */
  type Mounts = seq<Action> -> seq<string>

  datatype LvEnv = LvEnv(dryRun: bool, tool: LvTool, mounts: Mounts)

  datatype LvStep<T> = LvStep(result: Result<T, LvError>, trace: seq<Action>)

  /** The command-line options. */
  datatype Options = Options(tgt: string, vg: string, lv: string, srcPath: string, size: string, mountBase: string)

  // ================================================================ names

  function SnapLv(lv: string): string { lv + "-backup" }

  function MountDir(o: Options): string { Join(o.mountBase, SnapLv(o.lv)) }

  function ArchiveFile(lv: string, today: Date): string
    requires ValidDate(today)
  {
    "backup_" + lv + "_" + YyUnderMmUnderDd(today) + ".gz"
  }

  function ArchivePath(o: Options, today: Date): string
    requires ValidDate(today)
  {
    Join(o.tgt, ArchiveFile(o.lv, today))
  }

  // ================================================================ commands

  function CheckArgs(vg: string, snap: string): seq<string> { ["lvdisplay", vg + "/" + snap] }

  function CreateArgs(vg: string, lv: string, snap: string, size: string): seq<string>
  {
    ["lvcreate", "--snapshot", "--name", snap, "--size", size, vg + "/" + lv]
  }

  function TarArgs(mountpoint: string, subPath: string, target: string): seq<string>
  {
    ["tar", "czf", target, "-C", mountpoint, subPath]
  }

  function MountArgs(vg: string, snap: string, mountpoint: string): seq<string>
  {
    ["mount", Join(Join("/dev/mapper", vg), snap), mountpoint]
  }

  function UmountArgs(mountpoint: string): seq<string> { ["umount", mountpoint] }

  function RemoveArgs(vg: string, snap: string): seq<string> { ["lvremove", vg + "/" + snap] }

  // ================================================================ the runner

  /** `_run_cmd`: under dry-run nothing runs and the exit code is 0; otherwise
      the tool's exit code, raised as `CalledProcessError` when checked and
      non-zero. The command is recorded either way. */
  function RunSpec(env: LvEnv, trace: seq<Action>, argv: seq<string>, check: bool): (s: LvStep<int>)
    ensures s.trace == trace + [Exec(argv)]
    ensures env.dryRun ==> s.result == Ok(0)
    ensures !check ==> s.result.Ok?
    ensures s.result.Ok? && check ==> s.result.value == 0
    ensures s.result.Err? <==> !env.dryRun && check && env.tool(trace, argv) != 0
    ensures s.result.Err? ==> s.result.error == CalledProcessError(env.tool(trace, argv))
  {
    if env.dryRun then LvStep(Ok(0), trace + [Exec(argv)])
    else
      var code := env.tool(trace, argv);
      if check && code != 0 then LvStep(Err(CalledProcessError(code)), trace + [Exec(argv)])
      else LvStep(Ok(code), trace + [Exec(argv)])
  }

  class LvHost {
    const env: LvEnv
    var trace: seq<Action>

    constructor (env: LvEnv)
      ensures this.env == env && trace == []
    {
      this.env := env;
      trace := [];
    }

    /** `_run_cmd`. */
    method Run(argv: seq<string>, check: bool) returns (r: Result<int, LvError>)
      modifies this
      ensures LvStep(r, trace) == RunSpec(env, old(trace), argv, check)
    {
      var history := trace;
      trace := trace + [Exec(argv)];
      if env.dryRun {
        return Ok(0);
      }
      var code := env.tool(history, argv);
      if check && code != 0 {
        return Err(CalledProcessError(code));
      }
      return Ok(code);
    }

    /** `os.mkdir`. */
    method Mkdir(path: string)
      modifies this
      ensures trace == old(trace) + [Action.Mkdir(path)]
    {
      trace := trace + [Action.Mkdir(path)];
    }
  }

  // ================================================================ mount detection

  /** `_get_mounted` over the lines of /proc/mounts: the first line whose
      second character, as a one-character string, equals the mount point
      wins; a line shorter than two characters raises `IndexError`. */
  function Mounted(lines: seq<string>, mountpoint: string): Result<bool, LvError>
  {
    if lines == [] then Ok(false)
    else if |lines[0]| < 2 then Err(IndexError)
    else if [lines[0][1]] == mountpoint then Ok(true)
    else Mounted(lines[1..], mountpoint)
  }

  /** The loop of `_get_mounted`, with its early return. */
  method GetMounted(lines: seq<string>, mountpoint: string) returns (r: Result<bool, LvError>)
    ensures r == Mounted(lines, mountpoint)
  {
    var i := 0;
    while i < |lines|
      invariant 0 <= i <= |lines|
      invariant Mounted(lines, mountpoint) == Mounted(lines[i..], mountpoint)
    {
      assert lines[i..][0] == lines[i] && lines[i..][1..] == lines[i + 1..];
      if |lines[i]| < 2 {
        return Err(IndexError);
      }
      if [lines[i][1]] == mountpoint {
        return Ok(true);
      }
      i := i + 1;
    }
    return Ok(false);
  }

  // ================================================================ specifications of the steps

  function CheckSpec(env: LvEnv, trace: seq<Action>, vg: string, snap: string): LvStep<int>
  {
    RunSpec(env, trace, CheckArgs(vg, snap), false)
  }

  function Unit(s: LvStep<int>): LvStep<()>
  {
    LvStep(if s.result.Ok? then Ok(()) else Err(s.result.error), s.trace)
  }

  function MountSpec(env: LvEnv, trace: seq<Action>, vg: string, snap: string, mountpoint: string): LvStep<()>
  {
    match Mounted(env.mounts(trace), mountpoint)
    case Err(e) => LvStep(Err(e), trace)
    case Ok(true) => LvStep(Err(AlreadyMounted), trace)
    case Ok(false) => Unit(RunSpec(env, trace, MountArgs(vg, snap, mountpoint), true))
  }

  function UnmountSpec(env: LvEnv, trace: seq<Action>, mountpoint: string): LvStep<()>
  {
    match Mounted(env.mounts(trace), mountpoint)
    case Err(e) => LvStep(Err(e), trace)
    case Ok(false) => LvStep(Ok(()), trace)
    case Ok(true) => Unit(RunSpec(env, trace, UmountArgs(mountpoint), true))
  }

  /** The `try` block: mount, then tar. */
  function BodySpec(env: LvEnv, trace: seq<Action>, o: Options, today: Date): LvStep<()>
    requires ValidDate(today)
  {
    var m := MountSpec(env, trace, o.vg, SnapLv(o.lv), MountDir(o));
    if m.result.Err? then m
    else Unit(RunSpec(env, m.trace, TarArgs(MountDir(o), o.srcPath, ArchivePath(o, today)), true))
  }

  /** The `finally` block after `body`: unmount, then remove; an exception in
      either replaces `body`'s outcome and skips what follows it. */
  function CleanupSpec(env: LvEnv, body: LvStep<()>, o: Options): LvStep<int>
  {
    var u := UnmountSpec(env, body.trace, MountDir(o));
    if u.result.Err? then LvStep(Err(u.result.error), u.trace)
    else
      var r := RunSpec(env, u.trace, RemoveArgs(o.vg, SnapLv(o.lv)), true);
      if r.result.Err? then LvStep(Err(r.result.error), r.trace)
      else if body.result.Err? then LvStep(Err(body.result.error), r.trace)
      else LvStep(Ok(1), r.trace)
  }

  /** `main` after argument parsing; `isDir` is whether the mount directory
      already exists. */
  function MainSpec(env: LvEnv, trace: seq<Action>, o: Options, root: bool, today: Date, isDir: bool): LvStep<int>
    requires ValidDate(today)
  {
    if !env.dryRun && !root then LvStep(Err(PermissionDenied), trace)
    else
      var t1 := if isDir then trace else trace + [Mkdir(MountDir(o))];
      var c := CheckSpec(env, t1, o.vg, SnapLv(o.lv));
      var code := c.result.value;
      if !(code == 5 || env.dryRun) then
        LvStep(Err(if code == 0 then SnapshotExists else SnapshotQueryFailed(code)), c.trace)
      else
        var cr := RunSpec(env, c.trace, CreateArgs(o.vg, o.lv, SnapLv(o.lv), o.size), true);
        if cr.result.Err? then LvStep(Err(cr.result.error), cr.trace)
        else CleanupSpec(env, BodySpec(env, cr.trace, o, today), o)
  }

  /** The process exit status: `sys.exit(main())` on success, and 0 when the
      `__main__` wrapper catches and logs an exception. */
  function ExitStatus(r: Result<int, LvError>): int
  {
    if r.Ok? then r.value else 0
  }

  // ================================================================ the operations

  /** `check_snap_lv`: unchecked, so never raises. */
  method CheckSnapLv(host: LvHost, vg: string, snap: string) returns (code: int)
    modifies host
    ensures LvStep(Ok(code), host.trace) == CheckSpec(host.env, old(host.trace), vg, snap)
  {
    var r := host.Run(CheckArgs(vg, snap), false);
    code := r.value;
  }

  /** `mount_snap`. */
  method MountSnap(host: LvHost, vg: string, snap: string, mountpoint: string) returns (r: Result<(), LvError>)
    modifies host
    ensures LvStep(r, host.trace) == MountSpec(host.env, old(host.trace), vg, snap, mountpoint)
  {
    var mounted := GetMounted(host.env.mounts(host.trace), mountpoint);
    if mounted.Err? { return Err(mounted.error); }
    if mounted.value { return Err(AlreadyMounted); }
    var p := host.Run(MountArgs(vg, snap, mountpoint), true);
    if p.Err? { return Err(p.error); }
    return Ok(());
  }

  /** `unmount_snap`: skipped, with a warning, when nothing is mounted. */
  method UnmountSnap(host: LvHost, mountpoint: string) returns (r: Result<(), LvError>)
    modifies host
    ensures LvStep(r, host.trace) == UnmountSpec(host.env, old(host.trace), mountpoint)
  {
    var mounted := GetMounted(host.env.mounts(host.trace), mountpoint);
    if mounted.Err? { return Err(mounted.error); }
    if !mounted.value { return Ok(()); }
    var p := host.Run(UmountArgs(mountpoint), true);
    if p.Err? { return Err(p.error); }
    return Ok(());
  }

  /** `main`: root check, names, mount directory, snapshot check, create, and
      mount/tar under a cleanup that unmounts and removes. */
  method RunBackup(host: LvHost, o: Options, root: bool, today: Date, isDir: bool) returns (r: Result<int, LvError>)
    requires ValidDate(today)
    modifies host
    ensures LvStep(r, host.trace) == MainSpec(host.env, old(host.trace), o, root, today, isDir)
  {
    if !host.env.dryRun && !root {
      return Err(PermissionDenied);
    }
    var snapLv := SnapLv(o.lv);
    var snapMountDir := MountDir(o);
    var backupFileName := ArchivePath(o, today);
    if !isDir {
      host.Mkdir(snapMountDir);
    }
    var code := CheckSnapLv(host, o.vg, snapLv);
    if !(code == 5 || host.env.dryRun) {
      if code == 0 { return Err(SnapshotExists); }
      return Err(SnapshotQueryFailed(code));
    }
    var created := host.Run(CreateArgs(o.vg, o.lv, snapLv, o.size), true);
    if created.Err? { return Err(created.error); }
    ghost var t0 := host.trace;
    // try
    var body := MountSnap(host, o.vg, snapLv, snapMountDir);
    if body.Ok? {
      var tar := host.Run(TarArgs(snapMountDir, o.srcPath, backupFileName), true);
      body := if tar.Ok? then Ok(()) else Err(tar.error);
    }
    assert LvStep(body, host.trace) == BodySpec(host.env, t0, o, today);
    // finally
    var unmounted := UnmountSnap(host, snapMountDir);
    if unmounted.Err? { return Err(unmounted.error); }
    var removed := host.Run(RemoveArgs(o.vg, snapLv), true);
    if removed.Err? { return Err(removed.error); }
    if body.Err? { return Err(body.error); }
    return Ok(1);
  }
}
