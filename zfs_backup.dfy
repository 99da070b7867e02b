/** The ZFS snapshot backup engine of backup.py: a command runner with a
    destroy guard and a dry-run switch, snapshot naming, the snapshot
    inventory, the incremental/full replication choice, retention pruning and
    the run sequence of `main`.

    The `zfs` tool is not modelled: every command goes through `Host.Run`,
    which hands it to an external `Tool` (a function of the commands already
    issued and the command itself) and records it in `Host.trace`. Each method
    is proved equal to a specification function in state-passing style (the
    `...Spec` functions below); the lemmas at the end state what those
    functions promise. */
module ZfsBackup {
  import opened Common

  // ================================================================ data

  /** A command as `_run_cmd` receives it: its text, whether a non-zero exit
      raises (`check`), and whether it runs through a shell. */
  datatype Command = Command(line: string, check: bool, shell: bool)

  /** A finished process: exit code, stdout split into lines, stderr. */
  datatype Process = Process(code: int, stdout: seq<string>, stderr: string)

  /** Why a `BackupError` was raised. */
  datatype ErrorKind = DestroyProtection | CommandFailed | DatasetMissing | NoDestination

  /** The exceptions that leave the engine's operations: `BackupError` with
      its `return_code`, and the `IndexError` that `split()[0]` raises on a
      blank listing line. */
  datatype Error = BackupError(kind: ErrorKind, returnCode: int) | IndexError

  /** The external tool: the process result of `cmd` after the commands in
      `history` have been handed over. */
  type Tool = (seq<Command>, Command) -> Process

  /** The process-wide dry-run switch and the tool. */
  datatype Env = Env(dryRun: bool, tool: Tool)

  /** An operation's result together with the command trace after it. */
  datatype Step<T> = Step(result: Result<T, Error>, trace: seq<Command>)

  /** `ZfsDataSet`; `remoteHost` is carried but never read by the engine. */
  datatype ZfsDataSet = ZfsDataSet(name: string, remoteHost: Option<string>)
  {
    /** `ZfsDataSet.exists`: the listing command succeeded. */
    method Exists(host: Host) returns (r: Result<bool, Error>)
      modifies host
      ensures Step(r, host.trace) == ExistsSpec(host.env, old(host.trace), this)
    {
      var p := host.Run(ExistsCommand(name));
      if p.Err? { return Err(p.error); }
      return Ok(p.value.code == 0);
    }

    /** `ZfsDataSet.create_snapshot`. */
    method CreateSnapshot(host: Host, prefix: string, now: DateTime) returns (r: Result<string, Error>)
      requires ValidDateTime(now)
      modifies host
      ensures Step(r, host.trace) == CreateSnapshotSpec(host.env, old(host.trace), this, prefix, now)
    {
      var snapshotName := SnapshotName(prefix, now);
      var p := host.Run(SnapCommand(name, snapshotName));
      if p.Err? { return Err(p.error); }
      return Ok(snapshotName);
    }

    /** `ZfsDataSet.get_snapshots`: list, keep the matching lines' names in
        listing order, sort. */
    method GetSnapshots(host: Host, prefix: string) returns (r: Result<seq<string>, Error>)
      modifies host
      ensures Step(r, host.trace) == GetSnapshotsSpec(host.env, old(host.trace), this, prefix)
    {
      var p := host.Run(ListCommand(name));
      if p.Err? { return Err(p.error); }
      var names := CollectNames(p.value.stdout, prefix);
      if names.Err? { return names; }
      return Ok(Sort(names.value));
    }

    /** The loop of `get_snapshots` over the listing lines. */
    method CollectNames(lines: seq<string>, prefix: string) returns (r: Result<seq<string>, Error>)
      ensures r == ParseListing(name, prefix, lines)
    {
      var names: seq<string> := [];
      var i := 0;
      assert lines[i..] == lines;
      var whole := ParseListing(name, prefix, lines);
      assert whole.Ok? ==> [] + whole.value == whole.value;
      while i < |lines|
        invariant 0 <= i <= |lines|
        invariant ParseListing(name, prefix, lines) == Prepend(names, ParseListing(name, prefix, lines[i..]))
      {
        ParseListingAt(name, prefix, lines, i, names);
        var token := FirstToken(lines[i]);
        if token.None? { return Err(IndexError); }
        var m := SnapMatch(name, prefix, token.value);
        if m.Some? {
          names := names + [m.value];
        } else {
          assert names + Found(m) == names;
        }
        i := i + 1;
      }
      assert lines[i..] == [] && names + [] == names;
      return Ok(names);
    }

    /** `ZfsDataSet.delete_snapshot`. */
    method DeleteSnapshot(host: Host, snapshot: string) returns (r: Result<(), Error>)
      modifies host
      ensures Step(r, host.trace) == DeleteSpec(host.env, old(host.trace), this, snapshot)
    {
      var p := host.Run(DestroyCommand(name, snapshot));
      if p.Err? { return Err(p.error); }
      return Ok(());
    }
  }

  // ================================================================ the runner

  /** The guard of `_run_cmd`: a command mentioning "destroy" that names no
      snapshot (no '@'). */
  predicate DestroyBlocked(line: string)
  {
    Contains(line, "destroy") && '@' !in line
  }

  /** `_run_cmd`: the guard first, then the dry-run substitute, then the tool;
      a checked command that exits non-zero becomes a `BackupError` carrying
      the exit code. */
  function RunSpec(env: Env, trace: seq<Command>, cmd: Command): (s: Step<Process>)
    ensures s.trace == trace <==> DestroyBlocked(cmd.line)
    ensures s.trace == trace || s.trace == trace + [cmd]
    ensures DestroyBlocked(cmd.line) ==> s.result == Err(BackupError(DestroyProtection, 1))
    ensures s.result.Ok? && cmd.check ==> s.result.value.code == 0
    ensures env.dryRun && !DestroyBlocked(cmd.line) ==> s.result == Ok(Process(0, [], ""))
    ensures !env.dryRun && !DestroyBlocked(cmd.line) && (env.tool(trace, cmd).code == 0 || !cmd.check) ==>
              s.result == Ok(env.tool(trace, cmd))
    ensures s.result.Err? && !DestroyBlocked(cmd.line) ==>
              !env.dryRun && cmd.check && s.result.error == BackupError(CommandFailed, env.tool(trace, cmd).code) &&
              env.tool(trace, cmd).code != 0
  {
    if DestroyBlocked(cmd.line) then Step(Err(BackupError(DestroyProtection, 1)), trace)
    else if env.dryRun then Step(Ok(Process(0, [], "")), trace + [cmd])
    else
      var p := env.tool(trace, cmd);
      if cmd.check && p.code != 0 then Step(Err(BackupError(CommandFailed, p.code)), trace + [cmd])
      else Step(Ok(p), trace + [cmd])
  }

  /** The process boundary: the dry-run switch, the external tool and the
      commands handed over so far. */
  class Host {
    const env: Env
    var trace: seq<Command>

    constructor (env: Env)
      ensures this.env == env && trace == []
    {
      this.env := env;
      trace := [];
    }

    /** `_run_cmd`. */
    method Run(cmd: Command) returns (r: Result<Process, Error>)
      modifies this
      ensures Step(r, trace) == RunSpec(env, old(trace), cmd)
    {
      if DestroyBlocked(cmd.line) {
        return Err(BackupError(DestroyProtection, 1));
      }
      var history := trace;
      trace := trace + [cmd];
      if env.dryRun {
        return Ok(Process(0, [], ""));
      }
      var p := env.tool(history, cmd);
      if cmd.check && p.code != 0 {
        return Err(BackupError(CommandFailed, p.code));
      }
      return Ok(p);
    }
  }

  // ================================================================ commands

  function ExistsCommand(ds: string): Command { Command("zfs list -H " + ds, false, false) }

  function SnapCommand(ds: string, snapshot: string): Command
  {
    Command("zfs snap -r " + ds + "@" + snapshot, true, false)
  }

  function ListCommand(ds: string): Command { Command("zfs list -H -t snap " + ds, true, false) }

  function DestroyCommand(ds: string, snapshot: string): Command
  {
    Command("zfs destroy -R " + ds + "@" + snapshot, true, false)
  }

  /** The `zfs send` argument: incremental from `base` when one is given. */
  function SendPath(src: string, snapshot: string, base: Option<string>): string
  {
    if base.Some? then "-i " + src + "@" + base.value + " " + src + "@" + snapshot
    else src + "@" + snapshot
  }

  function SendCommand(src: string, dest: string, snapshot: string, base: Option<string>): Command
  {
    Command("zfs send -R " + SendPath(src, snapshot, base) + " | zfs recv -F " + dest, true, true)
  }

  // ================================================================ naming

  /** `<prefix>_<yymmdd>_<HHMMSS>` for the wall-clock time `now`. */
  function SnapshotName(prefix: string, now: DateTime): string
    requires ValidDateTime(now)
  {
    prefix + "_" + Yymmdd(now.date) + "_" + Hhmmss(now)
  }

  /** `t` has the shape `<digits>_<digits>`. */
  predicate IsStamp(t: string)
  {
    var n1 := DigitRun(t);
    0 < n1 && n1 + 1 < |t| && t[n1] == '_' && AllDigits(t[n1 + 1..])
  }

  /** `name` has the shape `<prefix>_<digits>_<digits>`. */
  predicate IsSnapName(prefix: string, name: string)
  {
    |prefix| + 1 <= |name| && name[..|prefix| + 1] == prefix + "_" && IsStamp(name[|prefix| + 1..])
  }

  // ================================================================ inventory

  /** The longest prefix of `s` without whitespace. */
  function Word(s: string): string
  {
    if s == [] || IsSpace(s[0]) then [] else [s[0]] + Word(s[1..])
  }

  /** `line.split()[0]`, or `None` where that raises `IndexError`. */
  function FirstToken(line: string): Option<string>
  {
    var r := TrimStart(line);
    if r == [] then None else Some(Word(r))
  }

  /** The length of the `\d+_\d+` that greedy matching finds at the start
      of `s`, if any. */
  function StampLength(s: string): (r: Option<nat>)
    ensures r.Some? ==> r.value <= |s|
  {
    var n1 := DigitRun(s);
    if n1 == 0 || n1 == |s| || s[n1] != '_' then None
    else
      var n2 := DigitRun(s[n1 + 1..]);
      if n2 == 0 then None else Some(n1 + 1 + n2)
  }

  /** Group 1 of `re.match(ds + "@(" + prefix + "_\d+_\d+)", token)`, the
      dataset and prefix read literally: anchored at the start only. */
  function SnapMatch(ds: string, prefix: string, token: string): Option<string>
  {
    var head := ds + "@" + prefix + "_";
    if |token| < |head| || token[..|head|] != head then None
    else match StampLength(token[|head|..])
      case None => None
      case Some(m) => Some(prefix + "_" + token[|head|..|head| + m])
  }

  /** What one listing line contributes to the inventory. */
  function Found(g: Option<string>): seq<string>
  {
    if g.Some? then [g.value] else []
  }

  /** The loop of `get_snapshots` over the listing lines, before sorting:
      each line's first token is matched, non-matching lines are skipped, and
      a blank line raises `IndexError`. */
  function ParseListing(ds: string, prefix: string, lines: seq<string>): (r: Result<seq<string>, Error>)
  {
    if lines == [] then Ok([])
    else match FirstToken(lines[0])
      case None => Err(IndexError)
      case Some(t) =>
        match ParseListing(ds, prefix, lines[1..])
        case Err(e) => Err(e)
        case Ok(rest) => Ok(Found(SnapMatch(ds, prefix, t)) + rest)
  }

  /** One iteration of the listing loop. */
  lemma ParseListingAt(ds: string, prefix: string, lines: seq<string>, i: nat, names: seq<string>)
    requires i < |lines|
    ensures var t := FirstToken(lines[i]);
      Prepend(names, ParseListing(ds, prefix, lines[i..]))
        == if t.None? then Err(IndexError)
           else Prepend(names + Found(SnapMatch(ds, prefix, t.value)), ParseListing(ds, prefix, lines[i + 1..]))
  {
    assert lines[i..][0] == lines[i] && lines[i..][1..] == lines[i + 1..];
    var t := FirstToken(lines[i]);
    var tail := ParseListing(ds, prefix, lines[i + 1..]);
    if t.Some? && tail.Ok? {
      var f := Found(SnapMatch(ds, prefix, t.value));
      assert names + (f + tail.value) == names + f + tail.value;
    }
  }

  function Prepend(names: seq<string>, r: Result<seq<string>, Error>): Result<seq<string>, Error>
  {
    if r.Ok? then Ok(names + r.value) else r
  }

  // ================================================================ specifications of the operations

  function ExistsSpec(env: Env, trace: seq<Command>, ds: ZfsDataSet): Step<bool>
  {
    var s := RunSpec(env, trace, ExistsCommand(ds.name));
    Step(if s.result.Ok? then Ok(s.result.value.code == 0) else Err(s.result.error), s.trace)
  }

  function CreateSnapshotSpec(env: Env, trace: seq<Command>, ds: ZfsDataSet, prefix: string, now: DateTime): Step<string>
    requires ValidDateTime(now)
  {
    var s := RunSpec(env, trace, SnapCommand(ds.name, SnapshotName(prefix, now)));
    Step(if s.result.Ok? then Ok(SnapshotName(prefix, now)) else Err(s.result.error), s.trace)
  }

  function GetSnapshotsSpec(env: Env, trace: seq<Command>, ds: ZfsDataSet, prefix: string): Step<seq<string>>
  {
    var s := RunSpec(env, trace, ListCommand(ds.name));
    if s.result.Err? then Step(Err(s.result.error), s.trace)
    else match ParseListing(ds.name, prefix, s.result.value.stdout)
      case Err(e) => Step(Err(e), s.trace)
      case Ok(names) => Step(Ok(Sort(names)), s.trace)
  }

  function DeleteSpec(env: Env, trace: seq<Command>, ds: ZfsDataSet, snapshot: string): Step<()>
  {
    var s := RunSpec(env, trace, DestroyCommand(ds.name, snapshot));
    Step(if s.result.Ok? then Ok(()) else Err(s.result.error), s.trace)
  }

  /** `snapshots.remove(x)`: drops the first occurrence. */
  function RemoveFirst(s: seq<string>, x: string): (r: seq<string>)
    ensures x !in s ==> r == s
    ensures x in s ==> multiset(r) == multiset(s) - multiset{x}
    ensures multiset(r) <= multiset(s)
  {
    if s == [] then []
    else if s[0] == x then
      assert s == [s[0]] + s[1..];
      s[1..]
    else
      assert s == [s[0]] + s[1..];
      [s[0]] + RemoveFirst(s[1..], x)
  }

  /** `_get_incremental_source` on an inventory: drop `exclude` once if it is
      listed, then take the first remaining (smallest) name. */
  function IncrementalBase(names: seq<string>, exclude: string): Option<string>
  {
    var rest := if exclude in names then RemoveFirst(names, exclude) else names;
    if rest == [] then None else Some(rest[0])
  }

  function IncrementalSourceSpec(env: Env, trace: seq<Command>, ds: ZfsDataSet, prefix: string, exclude: string)
    : Step<Option<string>>
  {
    var s := GetSnapshotsSpec(env, trace, ds, prefix);
    Step(if s.result.Ok? then Ok(IncrementalBase(s.result.value, exclude)) else Err(s.result.error), s.trace)
  }

  /** Python truthiness of an optional name. */
  predicate Truthy(o: Option<string>) { o.Some? && o.value != "" }

  function SendSpec(env: Env, trace: seq<Command>, src: string, dest: string, snapshot: string, base: Option<string>)
    : Step<()>
  {
    var s := RunSpec(env, trace, SendCommand(src, dest, snapshot, base));
    Step(if s.result.Ok? then Ok(()) else Err(s.result.error), s.trace)
  }

  /** The settings a `ZfsSnapshotter` is built with. */
  datatype Config = Config(prefix: string, source: ZfsDataSet, dest: Option<ZfsDataSet>, numSnaps: int)

  function BackupSnapshotSpec(env: Env, trace: seq<Command>, cfg: Config, snapshot: string): Step<()>
  {
    if cfg.dest.None? then Step(Err(BackupError(NoDestination, 1)), trace)
    else
      var b := IncrementalSourceSpec(env, trace, cfg.source, cfg.prefix, snapshot);
      if b.result.Err? then Step(Err(b.result.error), b.trace)
      else if Truthy(b.result.value) then
        var d := GetSnapshotsSpec(env, b.trace, cfg.dest.value, cfg.prefix);
        if d.result.Err? then Step(Err(d.result.error), d.trace)
        else
          var base := if b.result.value.value in d.result.value then b.result.value else None;
          SendSpec(env, d.trace, cfg.source.name, cfg.dest.value.name, snapshot, base)
      else SendSpec(env, b.trace, cfg.source.name, cfg.dest.value.name, snapshot, None)
  }

  /** `s[n:]` with Python's slice semantics (a negative start counts from the
      end and is clamped at 0). */
  function SliceFrom(s: seq<string>, n: int): (r: seq<string>)
  {
    if n >= 0 then (if n <= |s| then s[n..] else [])
    else if |s| + n >= 0 then s[|s| + n..] else s
  }

  /** The snapshots `prune` destroys on one dataset, from its inventory. */
  function PruneTargets(names: seq<string>, numSnaps: int): seq<string>
  {
    if numSnaps > |names| then [] else SliceFrom(names, numSnaps)
  }

  /** Destroys `snapshots` in order, stopping at the first failure. */
  function DeleteAllSpec(env: Env, trace: seq<Command>, ds: ZfsDataSet, snapshots: seq<string>): Step<()>
    decreases |snapshots|
  {
    if snapshots == [] then Step(Ok(()), trace)
    else
      var s := DeleteSpec(env, trace, ds, snapshots[0]);
      if s.result.Err? then s else DeleteAllSpec(env, s.trace, ds, snapshots[1..])
  }

  function PruneDatasetSpec(env: Env, trace: seq<Command>, ds: ZfsDataSet, prefix: string, numSnaps: int): Step<()>
  {
    var g := GetSnapshotsSpec(env, trace, ds, prefix);
    if g.result.Err? then Step(Err(g.result.error), g.trace)
    else DeleteAllSpec(env, g.trace, ds, PruneTargets(g.result.value, numSnaps))
  }

  /** The datasets `prune` visits, in order. */
  function PruneDatasets(cfg: Config): seq<ZfsDataSet>
  {
    [cfg.source] + (if cfg.dest.Some? then [cfg.dest.value] else [])
  }

  function PruneAllSpec(env: Env, trace: seq<Command>, datasets: seq<ZfsDataSet>, prefix: string, numSnaps: int)
    : Step<()>
    decreases |datasets|
  {
    if datasets == [] then Step(Ok(()), trace)
    else
      var s := PruneDatasetSpec(env, trace, datasets[0], prefix, numSnaps);
      if s.result.Err? then s else PruneAllSpec(env, s.trace, datasets[1..], prefix, numSnaps)
  }

  function CreateSourceSnapshotSpec(env: Env, trace: seq<Command>, cfg: Config, now: DateTime): Step<string>
    requires ValidDateTime(now)
  {
    var e := ExistsSpec(env, trace, cfg.source);
    if e.result.Err? then Step(Err(e.result.error), e.trace)
    else if !e.result.value then Step(Err(BackupError(DatasetMissing, 1)), e.trace)
    else CreateSnapshotSpec(env, e.trace, cfg.source, cfg.prefix, now)
  }

  // ================================================================ the snapshotter

  class ZfsSnapshotter {
    const snapPrefix: string
    const sourceDataset: ZfsDataSet
    const destDataset: Option<ZfsDataSet>
    const numSnaps: int
    const host: Host

    /** `ZfsSnapshotter.__init__`: an empty destination option means none. */
    constructor (srcDataset: string, destOption: Option<string>, snapPrefix: string, numSnaps: int, host: Host)
      ensures this.snapPrefix == snapPrefix && this.numSnaps == numSnaps && this.host == host
      ensures sourceDataset == ZfsDataSet(srcDataset, None)
      ensures destDataset == if destOption.Some? && destOption.value != "" then Some(ZfsDataSet(destOption.value, None)) else None
    {
      this.snapPrefix := snapPrefix;
      this.sourceDataset := ZfsDataSet(srcDataset, None);
      this.destDataset := if destOption.Some? && destOption.value != "" then Some(ZfsDataSet(destOption.value, None)) else None;
      this.numSnaps := numSnaps;
      this.host := host;
    }

    function Settings(): Config
    {
      Config(snapPrefix, sourceDataset, destDataset, numSnaps)
    }

    /** `create_source_snapshot`. */
    method CreateSourceSnapshot(now: DateTime) returns (r: Result<string, Error>)
      requires ValidDateTime(now)
      modifies host
      ensures Step(r, host.trace) == CreateSourceSnapshotSpec(host.env, old(host.trace), Settings(), now)
    {
      var e := sourceDataset.Exists(host);
      if e.Err? { return Err(e.error); }
      if !e.value { return Err(BackupError(DatasetMissing, 1)); }
      r := sourceDataset.CreateSnapshot(host, snapPrefix, now);
    }

    /** `_get_incremental_source`. */
    method GetIncrementalSource(dataset: ZfsDataSet, excludeSnap: string) returns (r: Result<Option<string>, Error>)
      modifies host
      ensures Step(r, host.trace) == IncrementalSourceSpec(host.env, old(host.trace), dataset, snapPrefix, excludeSnap)
    {
      var snapshots := dataset.GetSnapshots(host, snapPrefix);
      if snapshots.Err? { return Err(snapshots.error); }
      var names := snapshots.value;
      if excludeSnap in names {
        names := RemoveFirst(names, excludeSnap);
      }
      return Ok(if names != [] then Some(names[0]) else None);
    }

    /** `backup_snapshot`. */
    method BackupSnapshot(snapshot: string) returns (r: Result<(), Error>)
      modifies host
      ensures Step(r, host.trace) == BackupSnapshotSpec(host.env, old(host.trace), Settings(), snapshot)
    {
      if destDataset.None? { return Err(BackupError(NoDestination, 1)); }
      var incrementalSrc := GetIncrementalSource(sourceDataset, snapshot);
      if incrementalSrc.Err? { return Err(incrementalSrc.error); }
      var base: Option<string> := None;
      if Truthy(incrementalSrc.value) {
        var destSnaps := destDataset.value.GetSnapshots(host, snapPrefix);
        if destSnaps.Err? { return Err(destSnaps.error); }
        if incrementalSrc.value.value in destSnaps.value {
          base := incrementalSrc.value;
        }
      }
      var p := host.Run(SendCommand(sourceDataset.name, destDataset.value.name, snapshot, base));
      if p.Err? { return Err(p.error); }
      return Ok(());
    }

    /** `prune`: for the source and, when set, the destination, destroy
        `snap_names[num_snaps:]` unless `num_snaps` exceeds the count. */
    method Prune() returns (r: Result<(), Error>)
      modifies host
      ensures Step(r, host.trace) == PruneAllSpec(host.env, old(host.trace), PruneDatasets(Settings()), snapPrefix, numSnaps)
    {
      var datasets := [sourceDataset];
      if destDataset.Some? {
        datasets := datasets + [destDataset.value];
      }
      ghost var t0 := host.trace;
      var i := 0;
      while i < |datasets|
        invariant 0 <= i <= |datasets|
        invariant PruneAllSpec(host.env, t0, datasets, snapPrefix, numSnaps)
               == PruneAllSpec(host.env, host.trace, datasets[i..], snapPrefix, numSnaps)
      {
        assert datasets[i..][0] == datasets[i] && datasets[i..][1..] == datasets[i + 1..];
        var pruned := PruneDataset(datasets[i]);
        if pruned.Err? { return pruned; }
        i := i + 1;
      }
      return Ok(());
    }

    /** One dataset's pass of `prune`: list, skip when there are fewer than
        `num_snaps` snapshots, otherwise destroy the targets. */
    method PruneDataset(dataset: ZfsDataSet) returns (r: Result<(), Error>)
      modifies host
      ensures Step(r, host.trace) == PruneDatasetSpec(host.env, old(host.trace), dataset, snapPrefix, numSnaps)
    {
      var snapNames := dataset.GetSnapshots(host, snapPrefix);
      if snapNames.Err? { return Err(snapNames.error); }
      if numSnaps > |snapNames.value| { return Ok(()); }
      r := DeleteAll(dataset, SliceFrom(snapNames.value, numSnaps));
    }

    /** The delete loop of `prune`: destroy each target in order, stopping at
        the first failure. */
    method DeleteAll(dataset: ZfsDataSet, toDelete: seq<string>) returns (r: Result<(), Error>)
      modifies host
      ensures Step(r, host.trace) == DeleteAllSpec(host.env, old(host.trace), dataset, toDelete)
    {
      ghost var t0 := host.trace;
      var j := 0;
      while j < |toDelete|
        invariant 0 <= j <= |toDelete|
        invariant DeleteAllSpec(host.env, t0, dataset, toDelete)
               == DeleteAllSpec(host.env, host.trace, dataset, toDelete[j..])
      {
        assert toDelete[j..][0] == toDelete[j] && toDelete[j..][1..] == toDelete[j + 1..];
        var d := dataset.DeleteSnapshot(host, toDelete[j]);
        if d.Err? { return Err(d.error); }
        j := j + 1;
      }
      return Ok(());
    }
  }

  // ================================================================ main

  /** How `main` ends: success (exit 0), a caught `BackupError` (exit with its
      return code), the root check (exit 1), or another exception re-raised
      (the interpreter exits 1). */
  datatype MainOutcome = Finished | Failed(returnCode: int) | NotRoot | Uncaught(error: Error)

  function ExitStatus(o: MainOutcome): int
  {
    match o
    case Finished => 0
    case Failed(c) => c
    case NotRoot => 1
    case Uncaught(_) => 1
  }

  datatype Run = Run(outcome: MainOutcome, trace: seq<Command>)

  function Caught(e: Error): MainOutcome
  {
    if e.BackupError? then Failed(e.returnCode) else Uncaught(e)
  }

  function MainSpec(env: Env, trace: seq<Command>, cfg: Config, root: bool, now: DateTime): Run
    requires ValidDateTime(now)
  {
    if !env.dryRun && !root then Run(NotRoot, trace)
    else
      var c := CreateSourceSnapshotSpec(env, trace, cfg, now);
      if c.result.Err? then Run(Caught(c.result.error), c.trace)
      else
        var b := BackupSnapshotSpec(env, c.trace, cfg, c.result.value);
        if b.result.Err? then Run(Caught(b.result.error), b.trace)
        else
          var p := PruneAllSpec(env, b.trace, PruneDatasets(cfg), cfg.prefix, cfg.numSnaps);
          if p.result.Err? then Run(Caught(p.result.error), p.trace)
          else Run(Finished, p.trace)
  }

  /** `main` after argument parsing: root check, then create, send, prune. */
  method RunBackup(s: ZfsSnapshotter, root: bool, now: DateTime) returns (o: MainOutcome)
    requires ValidDateTime(now)
    modifies s.host
    ensures Run(o, s.host.trace) == MainSpec(s.host.env, old(s.host.trace), s.Settings(), root, now)
  {
    if !s.host.env.dryRun && !root {
      return NotRoot;
    }
    var snapName := s.CreateSourceSnapshot(now);
    if snapName.Err? { return Caught(snapName.error); }
    var b := s.BackupSnapshot(snapName.value);
    if b.Err? { return Caught(b.error); }
    var p := s.Prune();
    if p.Err? { return Caught(p.error); }
    return Finished;
  }
}
