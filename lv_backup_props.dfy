/** What the LVM snapshot-and-archive backup of backup_lv.py promises, and
    what its mount detection makes of that promise. */
module LvProps {
  import opened Common
  import opened LvBackup

  // ---------------------------------------------------------------- mount detection

  /** `_get_mounted` can only report a mount point one character long: it
      compares a single character with the whole path. */
  lemma {:induction false} MountedNeedsOneChar(lines: seq<string>, mountpoint: string)
    requires |mountpoint| != 1
    ensures Mounted(lines, mountpoint) != Ok(true)
  {
    if lines != [] && |lines[0]| >= 2 {
      MountedNeedsOneChar(lines[1..], mountpoint);
    }
  }

  /** What each answer of `_get_mounted` means: true names a line whose
      second character is the (one-character) mount point; an error,
      always `IndexError`, names a line too short to index; with no short
      line there is no error. */
  lemma {:induction false} MountedMeaning(lines: seq<string>, mountpoint: string)
    ensures Mounted(lines, mountpoint) == Ok(true) ==>
      |mountpoint| == 1 && exists i :: 0 <= i < |lines| && |lines[i]| >= 2 && lines[i][1] == mountpoint[0]
    ensures Mounted(lines, mountpoint).Err? ==>
      Mounted(lines, mountpoint).error == IndexError && exists i :: 0 <= i < |lines| && |lines[i]| < 2
    ensures (forall i :: 0 <= i < |lines| ==> |lines[i]| >= 2) ==> Mounted(lines, mountpoint).Ok?
  {
    if lines != [] && |lines[0]| >= 2 && [lines[0][1]] != mountpoint {
      MountedMeaning(lines[1..], mountpoint);
      var r := Mounted(lines, mountpoint);
      if r == Ok(true) {
        var i :| 0 <= i < |lines[1..]| && |lines[1..][i]| >= 2 && lines[1..][i][1] == mountpoint[0];
        assert lines[i + 1] == lines[1..][i];
      }
      if r.Err? {
        var i :| 0 <= i < |lines[1..]| && |lines[1..][i]| < 2;
        assert lines[i + 1] == lines[1..][i];
      }
      if forall i :: 0 <= i < |lines| ==> |lines[i]| >= 2 {
        assert forall i :: 0 <= i < |lines[1..]| ==> lines[1..][i] == lines[i + 1];
      }
    } else if lines != [] && |lines[0]| >= 2 {
      assert mountpoint == [lines[0][1]];
    }
  }

  /** The mount directory ends with `<lv>-backup`, so it is never one
      character long. */
  lemma MountDirLong(o: Options)
    ensures |MountDir(o)| >= 7
  {
    assert EndsWith(MountDir(o), SnapLv(o.lv));
  }

  /** Hence `mount_snap` never reports the mount point in use, and
      `unmount_snap` never runs `umount` and changes nothing. */
  lemma MountCheckInert(env: LvEnv, trace: seq<Action>, o: Options)
    ensures MountSpec(env, trace, o.vg, SnapLv(o.lv), MountDir(o)).result != Err(AlreadyMounted)
    ensures UnmountSpec(env, trace, MountDir(o)).trace == trace
    ensures UnmountSpec(env, trace, MountDir(o)).result.Err? <==> Mounted(env.mounts(trace), MountDir(o)).Err?
  {
    MountDirLong(o);
    MountedNeedsOneChar(env.mounts(trace), MountDir(o));
    MountedMeaning(env.mounts(trace), MountDir(o));
    if Mounted(env.mounts(trace), MountDir(o)) == Ok(false) {
      assert RunSpec(env, trace, MountArgs(o.vg, SnapLv(o.lv), MountDir(o)), true).result != Err(AlreadyMounted);
    }
  }

  // ---------------------------------------------------------------- names

  /** The snapshot is `<lv>-backup`; the mount directory is it under the
      mount base (unless `lv` is itself an absolute path, which `join` lets
      replace the base); the archive `backup_<lv>_<yy_mm_dd>.gz` is always
      under the target directory. */
  lemma LvNames(o: Options, today: Date)
    requires ValidDate(today)
    ensures SnapLv(o.lv) == o.lv + "-backup"
    ensures EndsWith(MountDir(o), SnapLv(o.lv))
    ensures (o.lv == [] || o.lv[0] != '/') ==> o.mountBase <= MountDir(o)
    ensures (o.lv != [] && o.lv[0] == '/') ==> MountDir(o) == SnapLv(o.lv)
    ensures o.tgt <= ArchivePath(o, today) && EndsWith(ArchivePath(o, today), ArchiveFile(o.lv, today))
    ensures var f := ArchiveFile(o.lv, today);
      |f| == |o.lv| + 19 && f[..7] == "backup_" && f[|f| - 3..] == ".gz" && f[7 + |o.lv|] == '_'
  {
    if o.lv != [] {
      assert SnapLv(o.lv)[0] == o.lv[0];
    }
    assert ArchiveFile(o.lv, today)[0] == 'b';
  }

  // ---------------------------------------------------------------- the gates

  /** Outside dry-run a non-root caller gets `PermissionError` before the
      directory is made or any command runs. */
  lemma RootCheckFirst(env: LvEnv, trace: seq<Action>, o: Options, today: Date, isDir: bool)
    requires ValidDate(today) && !env.dryRun
    ensures MainSpec(env, trace, o, false, today, isDir) == LvStep(Err(PermissionDenied), trace)
  {
  }

  /** The actions `main` takes before the snapshot check. */
  function Prelude(trace: seq<Action>, o: Options, isDir: bool): seq<Action>
  {
    (if isDir then trace else trace + [Mkdir(MountDir(o))]) + [Exec(CheckArgs(o.vg, SnapLv(o.lv)))]
  }

  /** The `lvdisplay` exit code decides: 0 raises "already exists", any code
      but 5 raises, both before `lvcreate`; 5 or dry-run goes on to
      `lvcreate`. */
  lemma SnapshotCheckGate(env: LvEnv, trace: seq<Action>, o: Options, root: bool, today: Date, isDir: bool)
    requires ValidDate(today) && (env.dryRun || root)
    ensures var t1 := if isDir then trace else trace + [Mkdir(MountDir(o))];
      var code := env.tool(t1, CheckArgs(o.vg, SnapLv(o.lv)));
      var m := MainSpec(env, trace, o, root, today, isDir);
      (!env.dryRun && code == 0 ==> m == LvStep(Err(SnapshotExists), Prelude(trace, o, isDir))) &&
      (!env.dryRun && code != 0 && code != 5 ==> m == LvStep(Err(SnapshotQueryFailed(code)), Prelude(trace, o, isDir))) &&
      (env.dryRun || code == 5 ==>
        Prelude(trace, o, isDir) + [Exec(CreateArgs(o.vg, o.lv, SnapLv(o.lv), o.size))] <= m.trace)
  {
    var t1 := if isDir then trace else trace + [Mkdir(MountDir(o))];
    var c := CheckSpec(env, t1, o.vg, SnapLv(o.lv));
    if env.dryRun || c.result.value == 5 {
      var cr := RunSpec(env, c.trace, CreateArgs(o.vg, o.lv, SnapLv(o.lv), o.size), true);
      if cr.result.Ok? {
        CleanupGrows(env, BodySpec(env, cr.trace, o, today), o);
        BodyGrows(env, cr.trace, o, today);
      }
    }
  }

  lemma BodyGrows(env: LvEnv, trace: seq<Action>, o: Options, today: Date)
    requires ValidDate(today)
    ensures trace <= BodySpec(env, trace, o, today).trace
  {
  }

  lemma CleanupGrows(env: LvEnv, body: LvStep<()>, o: Options)
    ensures body.trace <= CleanupSpec(env, body, o).trace
  {
    MountCheckInert(env, body.trace, o);
    var u := UnmountSpec(env, body.trace, MountDir(o));
    if u.result.Ok? {
      var r := RunSpec(env, u.trace, RemoveArgs(o.vg, SnapLv(o.lv)), true);
      assert CleanupSpec(env, body, o).trace == r.trace == body.trace + [Exec(RemoveArgs(o.vg, SnapLv(o.lv)))];
    }
  }

  // ---------------------------------------------------------------- cleanup

  /** The `finally` block after the snapshot exists: `umount` never runs;
      when /proc/mounts can be read, `lvremove` runs whether the body
      succeeded or failed, and `main` then returns 1 only if both succeeded;
      a failing `lvremove` replaces the body's exception. */
  lemma CleanupRemoves(env: LvEnv, body: LvStep<()>, o: Options)
    requires Mounted(env.mounts(body.trace), MountDir(o)).Ok?
    ensures var c := CleanupSpec(env, body, o);
      var rm := RemoveArgs(o.vg, SnapLv(o.lv));
      c.trace == body.trace + [Exec(rm)] &&
      (c.result == Ok(1) <==> body.result.Ok? && (env.dryRun || env.tool(body.trace, rm) == 0)) &&
      (!env.dryRun && env.tool(body.trace, rm) != 0 ==> c.result == Err(CalledProcessError(env.tool(body.trace, rm)))) &&
      ((env.dryRun || env.tool(body.trace, rm) == 0) && body.result.Err? ==> c.result == Err(body.result.error))
  {
    MountCheckInert(env, body.trace, o);
  }

  /** An exception raised by the cleanup's own mount check replaces the
      body's outcome and skips `lvremove`. */
  lemma CleanupErrorReplaces(env: LvEnv, body: LvStep<()>, o: Options)
    requires Mounted(env.mounts(body.trace), MountDir(o)).Err?
    ensures CleanupSpec(env, body, o) == LvStep(Err(IndexError), body.trace)
  {
    MountedMeaning(env.mounts(body.trace), MountDir(o));
    MountCheckInert(env, body.trace, o);
  }

  /** A failing `lvcreate` triggers no cleanup: it is the last action. */
  lemma CreateFailureNoCleanup(env: LvEnv, trace: seq<Action>, o: Options, root: bool, today: Date, isDir: bool)
    requires ValidDate(today) && !env.dryRun && root
    requires env.tool(if isDir then trace else trace + [Mkdir(MountDir(o))], CheckArgs(o.vg, SnapLv(o.lv))) == 5
    requires env.tool(Prelude(trace, o, isDir), CreateArgs(o.vg, o.lv, SnapLv(o.lv), o.size)) != 0
    ensures var create := CreateArgs(o.vg, o.lv, SnapLv(o.lv), o.size);
      MainSpec(env, trace, o, root, today, isDir)
        == LvStep(Err(CalledProcessError(env.tool(Prelude(trace, o, isDir), create))), Prelude(trace, o, isDir) + [Exec(create)])
  {
  }

  // ---------------------------------------------------------------- exit status

  /** `main` returns 1 whenever it returns, so the process exits 1 on success
      and 0 (the wrapper logs the exception) on any failure. */
  lemma LvExitStatus(env: LvEnv, trace: seq<Action>, o: Options, root: bool, today: Date, isDir: bool)
    requires ValidDate(today)
    ensures var r := MainSpec(env, trace, o, root, today, isDir).result;
      (r.Ok? ==> r.value == 1) && (ExitStatus(r) == 1 <==> r.Ok?) && (ExitStatus(r) == 0 <==> r.Err?)
  {
  }

  /** The `try` block under dry-run, when /proc/mounts can be read: mount
      and tar are recorded and succeed. */
  lemma DryRunBody(env: LvEnv, trace: seq<Action>, o: Options, today: Date)
    requires ValidDate(today) && env.dryRun
    requires Mounted(env.mounts(trace), MountDir(o)).Ok?
    ensures BodySpec(env, trace, o, today)
      == LvStep(Ok(()), trace + [Exec(MountArgs(o.vg, SnapLv(o.lv), MountDir(o))),
                                 Exec(TarArgs(MountDir(o), o.srcPath, ArchivePath(o, today)))])
  {
    DryRunMount(env, trace, o);
    DryRunTar(env, trace, Exec(MountArgs(o.vg, SnapLv(o.lv), MountDir(o))),
              TarArgs(MountDir(o), o.srcPath, ArchivePath(o, today)));
  }

  /** Under dry-run the checked `tar` after `mount` is recorded and succeeds. */
  lemma DryRunTar(env: LvEnv, trace: seq<Action>, mount: Action, tar: seq<string>)
    requires env.dryRun
    ensures Unit(RunSpec(env, trace + [mount], tar, true)) == LvStep(Ok(()), trace + [mount, Exec(tar)])
  {
    assert trace + [mount] + [Exec(tar)] == trace + [mount, Exec(tar)];
  }

  /** Under dry-run, with /proc/mounts readable, `mount_snap` records `mount`
      and succeeds. */
  lemma DryRunMount(env: LvEnv, trace: seq<Action>, o: Options)
    requires env.dryRun
    requires Mounted(env.mounts(trace), MountDir(o)).Ok?
    ensures MountSpec(env, trace, o.vg, SnapLv(o.lv), MountDir(o))
      == LvStep(Ok(()), trace + [Exec(MountArgs(o.vg, SnapLv(o.lv), MountDir(o)))])
  {
    MountDirLong(o);
    MountedNeedsOneChar(env.mounts(trace), MountDir(o));
    var r := Mounted(env.mounts(trace), MountDir(o));
    assert r.value == false;
    assert r == Ok(false);
  }

  /** With /proc/mounts readable, `unmount_snap` changes nothing. */
  lemma UnmountNothing(env: LvEnv, trace: seq<Action>, o: Options)
    requires Mounted(env.mounts(trace), MountDir(o)).Ok?
    ensures UnmountSpec(env, trace, MountDir(o)) == LvStep(Ok(()), trace)
  {
    MountDirLong(o);
    MountedNeedsOneChar(env.mounts(trace), MountDir(o));
    var r := Mounted(env.mounts(trace), MountDir(o));
    assert r.value == false;
    assert r == Ok(false);
  }

  /** After `lvcreate` under dry-run: mount, tar and remove are recorded and
      `main` returns 1. */
  lemma DryRunAfterCreate(env: LvEnv, t: seq<Action>, o: Options, today: Date)
    requires ValidDate(today) && env.dryRun
    requires Mounted(env.mounts(t), MountDir(o)).Ok?
    requires Mounted(env.mounts(t + [Exec(MountArgs(o.vg, SnapLv(o.lv), MountDir(o))),
                                     Exec(TarArgs(MountDir(o), o.srcPath, ArchivePath(o, today)))]), MountDir(o)).Ok?
    ensures CleanupSpec(env, BodySpec(env, t, o, today), o)
      == LvStep(Ok(1), t + [Exec(MountArgs(o.vg, SnapLv(o.lv), MountDir(o))),
                            Exec(TarArgs(MountDir(o), o.srcPath, ArchivePath(o, today))),
                            Exec(RemoveArgs(o.vg, SnapLv(o.lv)))])
  {
    DryRunBody(env, t, o, today);
    DryRunCleanup(env, BodySpec(env, t, o, today), o, t,
                  Exec(MountArgs(o.vg, SnapLv(o.lv), MountDir(o))),
                  Exec(TarArgs(MountDir(o), o.srcPath, ArchivePath(o, today))));
  }

  /** Under dry-run the cleanup after a successful mount and tar records
      `lvremove` and answers 1. */
  lemma DryRunCleanup(env: LvEnv, body: LvStep<()>, o: Options, t: seq<Action>, mount: Action, tar: Action)
    requires env.dryRun && body == LvStep(Ok(()), t + [mount, tar])
    requires Mounted(env.mounts(t + [mount, tar]), MountDir(o)).Ok?
    ensures CleanupSpec(env, body, o) == LvStep(Ok(1), t + [mount, tar, Exec(RemoveArgs(o.vg, SnapLv(o.lv)))])
  {
    UnmountNothing(env, body.trace, o);
    assert t + [mount, tar] + [Exec(RemoveArgs(o.vg, SnapLv(o.lv)))]
      == t + [mount, tar, Exec(RemoveArgs(o.vg, SnapLv(o.lv)))];
  }

  /** Under dry-run `main` always reaches the `try` block after `lvcreate`. */
  lemma DryRunReachesBody(env: LvEnv, trace: seq<Action>, o: Options, root: bool, today: Date, isDir: bool)
    requires ValidDate(today) && env.dryRun
    ensures MainSpec(env, trace, o, root, today, isDir)
      == CleanupSpec(env, BodySpec(env, Prelude(trace, o, isDir) + [Exec(CreateArgs(o.vg, o.lv, SnapLv(o.lv), o.size))], o, today), o)
  {
    var t1 := if isDir then trace else trace + [Mkdir(MountDir(o))];
    assert CheckSpec(env, t1, o.vg, SnapLv(o.lv)).trace == Prelude(trace, o, isDir);
  }

  /** What a dry run records and returns. */
  function DryRunOutcome(trace: seq<Action>, o: Options, today: Date, isDir: bool): LvStep<int>
    requires ValidDate(today)
  {
    var snap, mp := SnapLv(o.lv), MountDir(o);
    LvStep(Ok(1), Prelude(trace, o, isDir) + [Exec(CreateArgs(o.vg, o.lv, snap, o.size))] +
                  [Exec(MountArgs(o.vg, snap, mp)), Exec(TarArgs(mp, o.srcPath, ArchivePath(o, today))),
                   Exec(RemoveArgs(o.vg, snap))])
  }

  /** A dry run in which /proc/mounts can be read when the snapshot is
      mounted and when it is cleaned up records the directory (when
      missing), the five commands, and returns 1. */
  lemma DryRunLv(env: LvEnv, trace: seq<Action>, o: Options, root: bool, today: Date, isDir: bool)
    requires ValidDate(today) && env.dryRun
    requires var t2 := Prelude(trace, o, isDir) + [Exec(CreateArgs(o.vg, o.lv, SnapLv(o.lv), o.size))];
      Mounted(env.mounts(t2), MountDir(o)).Ok? &&
      Mounted(env.mounts(t2 + [Exec(MountArgs(o.vg, SnapLv(o.lv), MountDir(o))),
                               Exec(TarArgs(MountDir(o), o.srcPath, ArchivePath(o, today)))]), MountDir(o)).Ok?
    ensures MainSpec(env, trace, o, root, today, isDir) == DryRunOutcome(trace, o, today, isDir)
  {
    var t2 := Prelude(trace, o, isDir) + [Exec(CreateArgs(o.vg, o.lv, SnapLv(o.lv), o.size))];
    DryRunReachesBody(env, trace, o, root, today, isDir);
    DryRunAfterCreate(env, t2, o, today);
    assert MainSpec(env, trace, o, root, today, isDir) == DryRunOutcome(trace, o, today, isDir);
  }
}
