/** What the ZFS snapshot backup engine of backup.py promises: the destroy
    guard, the runner's outcomes, the commands each operation issues, the
    incremental base, the send choice, pruning, and `main`'s exit status. */
module ZfsProps {
  import opened Common
  import opened ZfsBackup
  import opened ZfsNaming

  // ---------------------------------------------------------------- the guard

  /** The guard looks only at the dataset name in the listing commands: the
      fixed text before it has no 'd' and no '@'. */
  lemma ListGuard(ds: string)
    ensures DestroyBlocked(ExistsCommand(ds).line) <==> DestroyBlocked(ds)
    ensures DestroyBlocked(ListCommand(ds).line) <==> DestroyBlocked(ds)
  {
    ContainsAfterPrefix("zfs list -H ", ds, "destroy");
    ContainsAfterPrefix("zfs list -H -t snap ", ds, "destroy");
    CharAfterPrefix("zfs list -H ", ds, '@');
    CharAfterPrefix("zfs list -H -t snap ", ds, '@');
  }

  /** A dataset whose name mentions "destroy" (and has no '@') cannot even be
      listed: the guard is a plain substring test. */
  lemma GuardFalsePositive(env: Env, trace: seq<Command>, ds: ZfsDataSet, prefix: string)
    requires DestroyBlocked(ds.name)
    ensures ExistsSpec(env, trace, ds) == Step(Err(BackupError(DestroyProtection, 1)), trace)
    ensures GetSnapshotsSpec(env, trace, ds, prefix) == Step(Err(BackupError(DestroyProtection, 1)), trace)
  {
    ListGuard(ds.name);
  }

  /** Snapshot creation, destruction and the send all name a snapshot, so
      the guard never stops them. */
  lemma SnapshotCommandsPass(ds: string, dest: string, snapshot: string, base: Option<string>)
    ensures !DestroyBlocked(SnapCommand(ds, snapshot).line)
    ensures !DestroyBlocked(DestroyCommand(ds, snapshot).line)
    ensures !DestroyBlocked(SendCommand(ds, dest, snapshot, base).line)
  {
    assert SnapCommand(ds, snapshot).line[12 + |ds|] == '@';
    assert DestroyCommand(ds, snapshot).line[15 + |ds|] == '@';
    var path := SendPath(ds, snapshot, base);
    if base.Some? {
      assert path[3 + |ds|] == '@';
    } else {
      assert path[|ds|] == '@';
    }
    assert SendCommand(ds, dest, snapshot, base).line[12 + |ds| + (if base.Some? then 3 else 0)] == '@';
  }

  // ---------------------------------------------------------------- the runner

  /** Under dry-run nothing is rejected but the guard, `exists` reports true
      and `get_snapshots` reports no snapshots. */
  lemma DryRunQueries(tool: Tool, trace: seq<Command>, ds: ZfsDataSet, prefix: string)
    requires !DestroyBlocked(ds.name)
    ensures ExistsSpec(Env(true, tool), trace, ds) == Step(Ok(true), trace + [ExistsCommand(ds.name)])
    ensures GetSnapshotsSpec(Env(true, tool), trace, ds, prefix) == Step(Ok([]), trace + [ListCommand(ds.name)])
  {
    ListGuard(ds.name);
  }

  /** `exists` runs unchecked: live, it never raises for a non-zero exit and
      reports whether the tool exited 0. */
  lemma ExistsLive(env: Env, trace: seq<Command>, ds: ZfsDataSet)
    requires !env.dryRun && !DestroyBlocked(ds.name)
    ensures ExistsSpec(env, trace, ds)
         == Step(Ok(env.tool(trace, ExistsCommand(ds.name)).code == 0), trace + [ExistsCommand(ds.name)])
  {
    ListGuard(ds.name);
  }

  /** `create_snapshot` issues exactly `zfs snap -r <ds>@<name>` and returns
      the name, or fails live with the tool's non-zero exit code. */
  lemma CreateSnapshotIssues(env: Env, trace: seq<Command>, ds: ZfsDataSet, prefix: string, now: DateTime)
    requires ValidDateTime(now)
    ensures var s := CreateSnapshotSpec(env, trace, ds, prefix, now);
      var cmd := SnapCommand(ds.name, SnapshotName(prefix, now));
      s.trace == trace + [cmd] &&
      (s.result.Ok? ==> s.result.value == SnapshotName(prefix, now)) &&
      (s.result.Err? <==> !env.dryRun && env.tool(trace, cmd).code != 0) &&
      (s.result.Err? ==> s.result.error == BackupError(CommandFailed, env.tool(trace, cmd).code))
  {
    SnapshotCommandsPass(ds.name, "", SnapshotName(prefix, now), None);
  }

  // ---------------------------------------------------------------- the inventory

  /** `get_snapshots` fails only when the listing fails or has a blank line;
      otherwise its result is sorted ascending, holds only well-formed names,
      and holds exactly the names the listing lines yield. */
  lemma InventoryMeaning(env: Env, trace: seq<Command>, ds: ZfsDataSet, prefix: string)
    ensures var g := GetSnapshotsSpec(env, trace, ds, prefix);
      var run := RunSpec(env, trace, ListCommand(ds.name));
      g.trace == run.trace &&
      (g.result.Err? <==> run.result.Err? || exists i :: 0 <= i < |run.result.value.stdout| && Blank(run.result.value.stdout[i])) &&
      (g.result.Ok? ==>
        Ascending(g.result.value) &&
        (forall k :: 0 <= k < |g.result.value| ==> IsSnapName(prefix, g.result.value[k])) &&
        forall x :: x in g.result.value <==>
          exists i :: 0 <= i < |run.result.value.stdout| && Yields(ds.name, prefix, run.result.value.stdout[i], x))
  {
    var run := RunSpec(env, trace, ListCommand(ds.name));
    if run.result.Ok? {
      var lines := run.result.value.stdout;
      ParseListingMeaning(ds.name, prefix, lines);
      var p := ParseListing(ds.name, prefix, lines);
      if p.Ok? {
        var sorted := Sort(p.value);
        assert forall x :: x in sorted <==> x in p.value by {
          forall x ensures x in sorted <==> x in p.value {
            assert x in sorted <==> x in multiset(sorted);
            assert x in p.value <==> x in multiset(p.value);
          }
        }
        forall k | 0 <= k < |sorted| ensures IsSnapName(prefix, sorted[k]) {
          assert sorted[k] in p.value;
        }
      }
    }
  }

  // ---------------------------------------------------------------- the incremental base

  /** `_get_incremental_source` finds nothing exactly when the inventory
      without the excluded snapshot is empty. */
  lemma IncrementalBaseNone(names: seq<string>, exclude: string)
    ensures IncrementalBase(names, exclude).None? <==> names == [] || names == [exclude]
  {
    if exclude in names {
      var r := RemoveFirst(names, exclude);
      assert |multiset(r)| == |multiset(names)| - 1;
      if |names| == 1 {
        assert names == [exclude];
      }
    }
  }

  /** On an ascending inventory the base is the oldest name that is not the
      excluded one's first occurrence: a listed name no later than anything
      left after the removal. It equals the excluded snapshot only when that
      snapshot is listed twice. */
  lemma IncrementalBaseLeast(names: seq<string>, exclude: string)
    requires Ascending(names)
    ensures var b := IncrementalBase(names, exclude);
      b.Some? ==>
        b.value in names &&
        (b.value == names[0] || (names[0] == exclude && b.value == names[1])) &&
        (forall y :: y in RemoveFirst(names, exclude) ==> AtMost(b.value, y)) &&
        (multiset(names)[exclude] <= 1 ==> b.value != exclude)
  {
    if names != [] && names[0] == exclude {
      BaseAfterExcludedHead(names, exclude);
      if |names| >= 2 {
        SecondIsLeast(names);
        if names[1] == exclude { TwoCopies(names); }
      }
    } else if names != [] {
      BaseIsHead(names, exclude);
      forall y | y in RemoveFirst(names, exclude) ensures AtMost(names[0], y) {
        HeadIsLeast(names, y);
      }
    }
  }

  /** When the inventory starts with the excluded snapshot, the base is the
      second entry. */
  lemma BaseAfterExcludedHead(names: seq<string>, exclude: string)
    requires names != [] && names[0] == exclude
    ensures RemoveFirst(names, exclude) == names[1..]
    ensures IncrementalBase(names, exclude) == if |names| >= 2 then Some(names[1]) else None
  {
    assert RemoveFirst(names, exclude) == names[1..];
  }

  lemma SecondIsLeast(names: seq<string>)
    requires Ascending(names) && |names| >= 2
    ensures forall y :: y in names[1..] ==> AtMost(names[1], y)
  {
    forall y | y in names[1..] ensures AtMost(names[1], y) {
      var k :| 0 <= k < |names[1..]| && names[1..][k] == y;
      assert names[k + 1] == y;
      if k > 0 { assert AtMost(names[1], names[k + 1]); }
    }
  }

  lemma TwoCopies(s: seq<string>)
    requires |s| >= 2 && s[0] == s[1]
    ensures multiset(s)[s[0]] >= 2
  {
    assert s == [s[0]] + [s[1]] + s[2..];
    assert multiset(s) == multiset([s[0]]) + multiset([s[1]]) + multiset(s[2..]);
  }

  /** Otherwise the base is the first entry, and whatever is left after the
      removal was listed. */
  lemma BaseIsHead(names: seq<string>, exclude: string)
    requires names != [] && names[0] != exclude
    ensures IncrementalBase(names, exclude) == Some(names[0])
    ensures forall y :: y in RemoveFirst(names, exclude) ==> y in multiset(names)
  {
    if exclude in names {
      assert RemoveFirst(names, exclude) == [names[0]] + RemoveFirst(names[1..], exclude);
    }
    forall y | y in RemoveFirst(names, exclude) ensures y in multiset(names) {
      assert y in multiset(RemoveFirst(names, exclude));
    }
  }

  /** The duplicate case: an inventory that lists the new snapshot twice
      (which the start-anchored pattern allows) makes it its own base. */
  lemma IncrementalBaseDuplicate(exclude: string, more: seq<string>)
    ensures IncrementalBase([exclude, exclude] + more, exclude) == Some(exclude)
  {
    assert ([exclude, exclude] + more)[0] == exclude;
    assert ([exclude, exclude] + more)[1..] == [exclude] + more;
  }

  /** The base is the oldest snapshot, not the newest: with three snapshots
      on the source and the newest excluded, the first one is chosen. */
  lemma IncrementalBaseIsOldest()
    ensures IncrementalBase(["s_1_1", "s_2_2", "s_3_3"], "s_3_3") == Some("s_1_1")
  {
    assert ["s_1_1", "s_2_2", "s_3_3"][1..] == ["s_2_2", "s_3_3"];
    assert ["s_2_2", "s_3_3"][1..] == ["s_3_3"];
  }

  // ---------------------------------------------------------------- the send choice

  /** The number of commands run through a shell: only the send pipeline is. */
  function Sends(cmds: seq<Command>): (n: nat)
    ensures n <= |cmds|
  {
    if cmds == [] then 0 else (if cmds[0].shell then 1 else 0) + Sends(cmds[1..])
  }

  lemma {:induction false} SendsConcat(a: seq<Command>, b: seq<Command>)
    ensures Sends(a + b) == Sends(a) + Sends(b)
  {
    if a == [] {
      assert a + b == b;
    } else {
      assert (a + b)[0] == a[0] && (a + b)[1..] == a[1..] + b;
      SendsConcat(a[1..], b);
    }
  }

  lemma SendCommandInjective(src: string, dest: string, snapshot: string, b1: Option<string>, b2: Option<string>)
    requires SendCommand(src, dest, snapshot, b1) == SendCommand(src, dest, snapshot, b2)
    ensures b1 == b2
  {
    var p1, p2 := SendPath(src, snapshot, b1), SendPath(src, snapshot, b2);
    var tail := " | zfs recv -F " + dest;
    assert SendCommand(src, dest, snapshot, b1).line == "zfs send -R " + p1 + tail;
    assert SendCommand(src, dest, snapshot, b2).line == "zfs send -R " + p2 + tail;
    Middle("zfs send -R ", p1, p2, tail);
    if b1.Some? && b2.Some? {
      var head, last := "-i " + src + "@", " " + src + "@" + snapshot;
      assert p1 == head + b1.value + last;
      assert p2 == head + b2.value + last;
      Middle(head, b1.value, b2.value, last);
    }
  }

  /** No send among the commands added since `trace`. */
  predicate NoSendSince(trace: seq<Command>, t: seq<Command>)
  {
    trace <= t && Sends(t[|trace|..]) == 0
  }

  /** A listing operation adds at most its listing command to the trace, and
      that command is not a send. */
  lemma ListStep(env: Env, trace: seq<Command>, t: seq<Command>, ds: ZfsDataSet, prefix: string)
    requires NoSendSince(trace, t)
    ensures NoSendSince(trace, GetSnapshotsSpec(env, t, ds, prefix).trace)
  {
    var g := GetSnapshotsSpec(env, t, ds, prefix);
    if g.trace != t {
      assert g.trace == t + [ListCommand(ds.name)];
      assert g.trace[|trace|..] == t[|trace|..] + [ListCommand(ds.name)];
      SendsConcat(t[|trace|..], [ListCommand(ds.name)]);
    }
  }

  /** The send adds exactly one command, the send itself. */
  lemma SendStep(env: Env, trace: seq<Command>, t: seq<Command>, src: string, dest: string, snapshot: string, base: Option<string>)
    requires NoSendSince(trace, t)
    ensures var s := SendSpec(env, t, src, dest, snapshot, base);
      s.trace == t + [SendCommand(src, dest, snapshot, base)] &&
      trace <= s.trace && Sends(s.trace[|trace|..]) == 1
  {
    var cmd := SendCommand(src, dest, snapshot, base);
    SnapshotCommandsPass(src, dest, snapshot, base);
    assert (t + [cmd])[|trace|..] == t[|trace|..] + [cmd];
    SendsConcat(t[|trace|..], [cmd]);
  }

  /** With no destination, `backup_snapshot` fails before any command. */
  lemma NoDestinationFirst(env: Env, trace: seq<Command>, cfg: Config, snapshot: string)
    requires cfg.dest.None?
    ensures BackupSnapshotSpec(env, trace, cfg, snapshot) == Step(Err(BackupError(NoDestination, 1)), trace)
  {
  }

  /** `backup_snapshot` only appends to the trace, runs at most one send, and
      when it succeeds it has run exactly one, last. */
  lemma BackupSnapshotSendsOnce(env: Env, trace: seq<Command>, cfg: Config, snapshot: string)
    requires cfg.dest.Some?
    ensures var s := BackupSnapshotSpec(env, trace, cfg, snapshot);
      trace <= s.trace && Sends(s.trace[|trace|..]) <= 1 &&
      (s.result.Ok? ==> Sends(s.trace[|trace|..]) == 1 && s.trace[|s.trace| - 1].shell)
  {
    var src, dest := cfg.source, cfg.dest.value;
    assert trace[|trace|..] == [];
    ListStep(env, trace, trace, src, cfg.prefix);
    var b := IncrementalSourceSpec(env, trace, src, cfg.prefix, snapshot);
    if b.result.Ok? {
      if Truthy(b.result.value) {
        ListStep(env, trace, b.trace, dest, cfg.prefix);
        var d := GetSnapshotsSpec(env, b.trace, dest, cfg.prefix);
        if d.result.Ok? {
          var base := if b.result.value.value in d.result.value then b.result.value else None;
          SendStep(env, trace, d.trace, src.name, dest.name, snapshot, base);
        }
      } else {
        SendStep(env, trace, b.trace, src.name, dest.name, snapshot, None);
      }
    }
  }

  lemma {:induction false} NoSendIn(cmds: seq<Command>, c: Command)
    requires Sends(cmds) == 0 && c in cmds
    ensures !c.shell
  {
    if cmds[0] != c {
      NoSendIn(cmds[1..], c);
    }
  }

  /** Where a send issued by `backup_snapshot` comes from: either the
      commands before it, which hold no send, or the one send whose base the
      spec chose. */
  lemma SendIssued(env: Env, trace: seq<Command>, cfg: Config, snapshot: string, added: seq<Command>, base: Option<string>)
    requires cfg.dest.Some?
    requires BackupSnapshotSpec(env, trace, cfg, snapshot).trace == trace + added
    requires SendCommand(cfg.source.name, cfg.dest.value.name, snapshot, base) in added
    ensures var g := GetSnapshotsSpec(env, trace, cfg.source, cfg.prefix);
      g.result.Ok? &&
      var b := IncrementalBase(g.result.value, snapshot);
      if Truthy(b) then
        var d := GetSnapshotsSpec(env, g.trace, cfg.dest.value, cfg.prefix);
        d.result.Ok? && base == (if b.value in d.result.value then b else None)
      else base == None
  {
    var src, dest := cfg.source, cfg.dest.value;
    var c := SendCommand(src.name, dest.name, snapshot, base);
    var s := BackupSnapshotSpec(env, trace, cfg, snapshot);
    assert s.trace[|trace|..] == added;
    assert trace[|trace|..] == [];
    ListStep(env, trace, trace, src, cfg.prefix);
    var g := GetSnapshotsSpec(env, trace, src, cfg.prefix);
    if g.result.Err? {
      assert s.trace == g.trace;
      NoSendIn(added, c);
    } else {
      var b := IncrementalBase(g.result.value, snapshot);
      if Truthy(b) {
        ListStep(env, trace, g.trace, dest, cfg.prefix);
        var d := GetSnapshotsSpec(env, g.trace, dest, cfg.prefix);
        if d.result.Err? {
          assert s.trace == d.trace;
          NoSendIn(added, c);
        } else {
          SendFromSpec(env, trace, d.trace, src.name, dest.name, snapshot, added, base,
                       if b.value in d.result.value then b else None);
        }
      } else {
        SendFromSpec(env, trace, g.trace, src.name, dest.name, snapshot, added, base, None);
      }
    }
  }

  /** The last step of `SendIssued`: a send among the commands added up to
      and including the spec's send is that send. */
  lemma SendFromSpec(env: Env, trace: seq<Command>, t: seq<Command>, src: string, dest: string, snapshot: string,
                     added: seq<Command>, base: Option<string>, chosen: Option<string>)
    requires NoSendSince(trace, t)
    requires SendSpec(env, t, src, dest, snapshot, chosen).trace == trace + added
    requires SendCommand(src, dest, snapshot, base) in added
    ensures base == chosen
  {
    var c, c2 := SendCommand(src, dest, snapshot, base), SendCommand(src, dest, snapshot, chosen);
    SendStep(env, trace, t, src, dest, snapshot, chosen);
    assert added == t[|trace|..] + [c2];
    if c in t[|trace|..] {
      NoSendIn(t[|trace|..], c);
    } else {
      SendCommandInjective(src, dest, snapshot, base, chosen);
    }
  }

  /** An incremental `-i <ds>@<base> <ds>@<snap>` send is issued only when
      the base `_get_incremental_source` returned is non-empty and is listed
      on the destination. */
  lemma IncrementalOnlyWhenShared(env: Env, trace: seq<Command>, cfg: Config, snapshot: string, added: seq<Command>, b: string)
    requires cfg.dest.Some?
    requires BackupSnapshotSpec(env, trace, cfg, snapshot).trace == trace + added
    requires SendCommand(cfg.source.name, cfg.dest.value.name, snapshot, Some(b)) in added
    ensures var g := GetSnapshotsSpec(env, trace, cfg.source, cfg.prefix);
      g.result.Ok? && IncrementalBase(g.result.value, snapshot) == Some(b) && b != "" &&
      var d := GetSnapshotsSpec(env, g.trace, cfg.dest.value, cfg.prefix);
      d.result.Ok? && b in d.result.value
  {
    SendIssued(env, trace, cfg, snapshot, added, Some(b));
  }

  /** A full send is issued only when there is no usable base: none, empty,
      or not listed on the destination. */
  lemma FullOtherwise(env: Env, trace: seq<Command>, cfg: Config, snapshot: string, added: seq<Command>)
    requires cfg.dest.Some?
    requires BackupSnapshotSpec(env, trace, cfg, snapshot).trace == trace + added
    requires SendCommand(cfg.source.name, cfg.dest.value.name, snapshot, None) in added
    ensures var g := GetSnapshotsSpec(env, trace, cfg.source, cfg.prefix);
      g.result.Ok? &&
      var b := IncrementalBase(g.result.value, snapshot);
      !Truthy(b) ||
      var d := GetSnapshotsSpec(env, g.trace, cfg.dest.value, cfg.prefix);
      d.result.Ok? && b.value !in d.result.value
  {
    SendIssued(env, trace, cfg, snapshot, added, None);
  }

  /** The converse of the two lemmas above: which send `backup_snapshot`
      issues. With no usable base it sends in full right after the source
      listing; with one it lists the destination and sends incrementally
      exactly when the base is also listed there. A failed listing ends it
      with that listing's error and no send. */
  lemma BackupSnapshotChoice(env: Env, trace: seq<Command>, cfg: Config, snapshot: string)
    requires cfg.dest.Some?
    ensures var g := GetSnapshotsSpec(env, trace, cfg.source, cfg.prefix);
      var s := BackupSnapshotSpec(env, trace, cfg, snapshot);
      (g.result.Err? ==> s == Step(Err(g.result.error), g.trace)) &&
      (g.result.Ok? && !Truthy(IncrementalBase(g.result.value, snapshot)) ==>
         s == SendSpec(env, g.trace, cfg.source.name, cfg.dest.value.name, snapshot, None) &&
         s.trace == g.trace + [SendCommand(cfg.source.name, cfg.dest.value.name, snapshot, None)]) &&
      (g.result.Ok? && Truthy(IncrementalBase(g.result.value, snapshot)) ==>
         var b := IncrementalBase(g.result.value, snapshot);
         var d := GetSnapshotsSpec(env, g.trace, cfg.dest.value, cfg.prefix);
         (d.result.Err? ==> s == Step(Err(d.result.error), d.trace)) &&
         (d.result.Ok? ==>
            var base := if b.value in d.result.value then b else None;
            s == SendSpec(env, d.trace, cfg.source.name, cfg.dest.value.name, snapshot, base) &&
            s.trace == d.trace + [SendCommand(cfg.source.name, cfg.dest.value.name, snapshot, base)]))
  {
    var src, dest := cfg.source, cfg.dest.value;
    SnapshotCommandsPass(src.name, dest.name, snapshot, None);
    var g := GetSnapshotsSpec(env, trace, src, cfg.prefix);
    if g.result.Ok? && Truthy(IncrementalBase(g.result.value, snapshot)) {
      SnapshotCommandsPass(src.name, dest.name, snapshot, IncrementalBase(g.result.value, snapshot));
    }
  }

  // ---------------------------------------------------------------- the source check

  /** `create_source_snapshot` issues a snapshot command only after `exists`
      reported the source present, and reports a missing source as a
      `BackupError` with return code 1. */
  lemma SnapshotOnlyIfSourceExists(env: Env, trace: seq<Command>, cfg: Config, now: DateTime, added: seq<Command>)
    requires ValidDateTime(now)
    requires CreateSourceSnapshotSpec(env, trace, cfg, now).trace == trace + added
    ensures var e := ExistsSpec(env, trace, cfg.source);
      (SnapCommand(cfg.source.name, SnapshotName(cfg.prefix, now)) in added ==> e.result == Ok(true)) &&
      (e.result == Ok(false) ==> CreateSourceSnapshotSpec(env, trace, cfg, now).result == Err(BackupError(DatasetMissing, 1)))
  {
    var e := ExistsSpec(env, trace, cfg.source);
    var snap := SnapCommand(cfg.source.name, SnapshotName(cfg.prefix, now));
    if e.result != Ok(true) {
      assert added == e.trace[|trace|..];
      assert added == [] || added == [ExistsCommand(cfg.source.name)];
      assert snap != ExistsCommand(cfg.source.name) by {
        assert snap.line[4] == 's' && ExistsCommand(cfg.source.name).line[4] == 'l';
      }
    }
  }

  // ---------------------------------------------------------------- pruning

  /** What survives pruning one inventory. */
  function Survivors(names: seq<string>, numSnaps: int): (r: seq<string>)
  {
    names[..|names| - |PruneTargets(names, numSnaps)|]
  }

  lemma PruneTargetsSuffix(names: seq<string>, numSnaps: int)
    ensures |PruneTargets(names, numSnaps)| <= |names|
    ensures names == Survivors(names, numSnaps) + PruneTargets(names, numSnaps)
  {
  }

  /** `prune` on one ascending inventory: nothing when `num_snaps` exceeds
      the count, otherwise for `num_snaps >= 0` it keeps exactly the
      `num_snaps` first (oldest) names and destroys the rest, every survivor
      ordered no later than every destroyed name; a negative `num_snaps`
      destroys the last `-num_snaps` names (all, if there are fewer). */
  lemma PruneKeepsOldest(names: seq<string>, numSnaps: int)
    requires Ascending(names)
    ensures var kept, gone := Survivors(names, numSnaps), PruneTargets(names, numSnaps);
      names == kept + gone &&
      (numSnaps > |names| ==> gone == []) &&
      (0 <= numSnaps <= |names| ==> |kept| == numSnaps) &&
      (numSnaps < 0 ==> |gone| == if -numSnaps <= |names| then -numSnaps else |names|) &&
      forall i, j :: 0 <= i < |kept| && 0 <= j < |gone| ==> AtMost(kept[i], gone[j])
  {
    var kept, gone := Survivors(names, numSnaps), PruneTargets(names, numSnaps);
    PruneTargetsSuffix(names, numSnaps);
    forall i, j | 0 <= i < |kept| && 0 <= j < |gone| ensures AtMost(kept[i], gone[j]) {
      assert kept[i] == names[i] && gone[j] == names[|kept| + j];
    }
  }

  /** A second prune of the survivors with no new snapshot destroys nothing
      when `num_snaps >= 0`. */
  lemma PruneIdempotent(names: seq<string>, numSnaps: int)
    requires numSnaps >= 0
    ensures PruneTargets(Survivors(names, numSnaps), numSnaps) == []
  {
    var kept := Survivors(names, numSnaps);
    PruneTargetsSuffix(names, numSnaps);
    assert |kept| <= numSnaps || numSnaps > |names|;
  }

  /** ... but not when it is negative: Python's negative slice destroys more
      on every run until nothing is left. */
  lemma PruneNegativeRepeats(names: seq<string>, numSnaps: int)
    requires numSnaps < 0 && |Survivors(names, numSnaps)| > 0
    ensures PruneTargets(Survivors(names, numSnaps), numSnaps) != []
  {
  }

  /** The destroy commands for `snapshots` on `ds`, in order. */
  function Destroys(ds: string, snapshots: seq<string>): (r: seq<Command>)
    ensures |r| == |snapshots|
    ensures forall i :: 0 <= i < |snapshots| ==> r[i] == DestroyCommand(ds, snapshots[i])
  {
    if snapshots == [] then [] else [DestroyCommand(ds, snapshots[0])] + Destroys(ds, snapshots[1..])
  }

  /** A character absent from a prefix occurs in the whole exactly when it
      occurs in the rest. */
  lemma CharAfterPrefix(p: string, s: string, c: char)
    requires c !in p
    ensures c in p + s <==> c in s
  {
    if c in p + s {
      var i :| 0 <= i < |p + s| && (p + s)[i] == c;
      if i >= |p| { assert s[i - |p|] == c; }
    }
    if c in s {
      var j :| 0 <= j < |s| && s[j] == c;
      assert (p + s)[|p| + j] == c;
    }
  }

  /** Equal strings with the same head and tail have the same middle. */
  lemma Middle(a: string, x: string, y: string, c: string)
    requires a + x + c == a + y + c
    ensures x == y
  {
    assert |x| == |y|;
    assert x == (a + x + c)[|a|..|a| + |x|];
    assert y == (a + y + c)[|a|..|a| + |y|];
  }

  lemma PrefixTrans<T>(a: seq<T>, b: seq<T>, c: seq<T>)
    requires a <= b && b <= c
    ensures a <= c
  {
  }

  /** One `delete_snapshot`: its destroy command always runs, and a failure
      is a live non-zero exit. */
  lemma DeleteStep(env: Env, trace: seq<Command>, ds: ZfsDataSet, snapshot: string)
    ensures var d := DeleteSpec(env, trace, ds, snapshot);
      d.trace == trace + [DestroyCommand(ds.name, snapshot)] &&
      (d.result.Err? ==> !env.dryRun && d.result.error.BackupError? && d.result.error.kind == CommandFailed) &&
      Coded(d.result)
  {
    SnapshotCommandsPass(ds.name, "", snapshot, None);
  }

  /** Destroying a list issues one `zfs destroy -R <ds>@<snap>` per entry, in
      order, stopping after the first that fails (a prefix of them), and all
      of them when it succeeds. */
  lemma {:induction false} DeleteAllIssues(env: Env, trace: seq<Command>, ds: ZfsDataSet, snapshots: seq<string>)
    ensures var s := DeleteAllSpec(env, trace, ds, snapshots);
      trace <= s.trace && s.trace <= trace + Destroys(ds.name, snapshots) &&
      (s.result.Ok? ==> s.trace == trace + Destroys(ds.name, snapshots)) &&
      (s.result.Err? ==> !env.dryRun && s.result.error.BackupError? && s.result.error.kind == CommandFailed) &&
      Coded(s.result)
    decreases |snapshots|
  {
    if snapshots != [] {
      DeleteStep(env, trace, ds, snapshots[0]);
      var d := DeleteSpec(env, trace, ds, snapshots[0]);
      var t1 := d.trace;
      var rest := Destroys(ds.name, snapshots[1..]);
      assert Destroys(ds.name, snapshots) == [DestroyCommand(ds.name, snapshots[0])] + rest;
      assert trace + Destroys(ds.name, snapshots) == t1 + rest;
      assert trace <= t1 <= t1 + rest;
      if d.result.Ok? {
        DeleteAllIssues(env, t1, ds, snapshots[1..]);
        var s := DeleteAllSpec(env, t1, ds, snapshots[1..]);
        assert DeleteAllSpec(env, trace, ds, snapshots) == s;
        PrefixTrans(trace, t1, s.trace);
      } else {
        assert DeleteAllSpec(env, trace, ds, snapshots) == d;
      }
    }
  }

  /** One dataset of `prune`: a successful prune lists the dataset and then
      destroys exactly its prune targets, in order. */
  lemma PruneDatasetIssues(env: Env, trace: seq<Command>, ds: ZfsDataSet, prefix: string, numSnaps: int)
    ensures var g := GetSnapshotsSpec(env, trace, ds, prefix);
      var p := PruneDatasetSpec(env, trace, ds, prefix, numSnaps);
      p.result.Ok? ==>
        g.result.Ok? && p.trace == trace + [ListCommand(ds.name)] + Destroys(ds.name, PruneTargets(g.result.value, numSnaps))
  {
    var g := GetSnapshotsSpec(env, trace, ds, prefix);
    if g.result.Ok? {
      DeleteAllIssues(env, g.trace, ds, PruneTargets(g.result.value, numSnaps));
    }
  }

  // ---------------------------------------------------------------- main

  /** Every `BackupError` carries a non-zero return code. */
  predicate Coded<T>(r: Result<T, Error>)
  {
    r.Err? && r.error.BackupError? ==> r.error.returnCode != 0
  }

  lemma GetSnapshotsCoded(env: Env, trace: seq<Command>, ds: ZfsDataSet, prefix: string)
    ensures Coded(GetSnapshotsSpec(env, trace, ds, prefix).result)
  {
    var run := RunSpec(env, trace, ListCommand(ds.name));
    if run.result.Ok? {
      ParseListingMeaning(ds.name, prefix, run.result.value.stdout);
    }
  }

  lemma SendCoded(env: Env, trace: seq<Command>, src: string, dest: string, snapshot: string, base: Option<string>)
    ensures Coded(SendSpec(env, trace, src, dest, snapshot, base).result)
  {
    var r := RunSpec(env, trace, SendCommand(src, dest, snapshot, base));
  }

  lemma BackupSnapshotCoded(env: Env, trace: seq<Command>, cfg: Config, snapshot: string)
    ensures Coded(BackupSnapshotSpec(env, trace, cfg, snapshot).result)
  {
    if cfg.dest.Some? {
      var src, dest := cfg.source, cfg.dest.value;
      GetSnapshotsCoded(env, trace, src, cfg.prefix);
      var b := IncrementalSourceSpec(env, trace, src, cfg.prefix, snapshot);
      if b.result.Ok? {
        if Truthy(b.result.value) {
          GetSnapshotsCoded(env, b.trace, dest, cfg.prefix);
          var d := GetSnapshotsSpec(env, b.trace, dest, cfg.prefix);
          if d.result.Ok? {
            var base := if b.result.value.value in d.result.value then b.result.value else None;
            SendCoded(env, d.trace, src.name, dest.name, snapshot, base);
          }
        } else {
          SendCoded(env, b.trace, src.name, dest.name, snapshot, None);
        }
      }
    }
  }

  lemma PruneDatasetCoded(env: Env, trace: seq<Command>, ds: ZfsDataSet, prefix: string, numSnaps: int)
    ensures Coded(PruneDatasetSpec(env, trace, ds, prefix, numSnaps).result)
  {
    GetSnapshotsCoded(env, trace, ds, prefix);
    var g := GetSnapshotsSpec(env, trace, ds, prefix);
    if g.result.Ok? {
      DeleteAllIssues(env, g.trace, ds, PruneTargets(g.result.value, numSnaps));
    }
  }

  lemma {:induction false} PruneAllCoded(env: Env, trace: seq<Command>, datasets: seq<ZfsDataSet>, prefix: string, numSnaps: int)
    ensures Coded(PruneAllSpec(env, trace, datasets, prefix, numSnaps).result)
    decreases |datasets|
  {
    if datasets != [] {
      PruneDatasetCoded(env, trace, datasets[0], prefix, numSnaps);
      var p := PruneDatasetSpec(env, trace, datasets[0], prefix, numSnaps);
      if p.result.Ok? {
        PruneAllCoded(env, p.trace, datasets[1..], prefix, numSnaps);
      }
    }
  }

  /** `main` exits 0 exactly when create, send and prune all succeeded: the
      root check exits 1 and every `BackupError` it catches carries a
      non-zero return code. */
  lemma MainExitStatus(env: Env, trace: seq<Command>, cfg: Config, root: bool, now: DateTime)
    requires ValidDateTime(now)
    ensures var m := MainSpec(env, trace, cfg, root, now);
      (ExitStatus(m.outcome) == 0 <==> m.outcome == Finished) &&
      (!env.dryRun && !root ==> m == Run(NotRoot, trace))
  {
    var c := CreateSourceSnapshotSpec(env, trace, cfg, now);
    if c.result.Ok? {
      BackupSnapshotCoded(env, c.trace, cfg, c.result.value);
      var b := BackupSnapshotSpec(env, c.trace, cfg, c.result.value);
      PruneAllCoded(env, b.trace, PruneDatasets(cfg), cfg.prefix, cfg.numSnaps);
    }
  }

  /** A dry run end to end with a destination: `exists` is true, the
      snapshot is "taken", both inventories are empty so the send is full,
      and pruning finds nothing; the trace is exactly those commands. */
  lemma DryRunMain(tool: Tool, trace: seq<Command>, cfg: Config, root: bool, now: DateTime)
    requires ValidDateTime(now) && cfg.dest.Some?
    requires !DestroyBlocked(cfg.source.name) && !DestroyBlocked(cfg.dest.value.name)
    ensures var src, dest, name := cfg.source.name, cfg.dest.value.name, SnapshotName(cfg.prefix, now);
      MainSpec(Env(true, tool), trace, cfg, root, now)
        == Run(Finished, trace + [ExistsCommand(src), SnapCommand(src, name), ListCommand(src),
                                  SendCommand(src, dest, name, None), ListCommand(src), ListCommand(dest)])
  {
    var env := Env(true, tool);
    var src, dest, name := cfg.source, cfg.dest.value, SnapshotName(cfg.prefix, now);
    DryRunCreate(tool, trace, cfg, now);
    var t2 := trace + [ExistsCommand(src.name), SnapCommand(src.name, name)];
    DryRunBackup(tool, t2, cfg, name);
    var t4 := t2 + [ListCommand(src.name), SendCommand(src.name, dest.name, name, None)];
    DryRunPrune(tool, t4, cfg);
    var t6 := t4 + [ListCommand(src.name), ListCommand(dest.name)];
    var c := CreateSourceSnapshotSpec(env, trace, cfg, now);
    var b := BackupSnapshotSpec(env, c.trace, cfg, c.result.value);
    assert b == Step(Ok(()), t4);
    assert PruneAllSpec(env, b.trace, PruneDatasets(cfg), cfg.prefix, cfg.numSnaps) == Step(Ok(()), t6);
    assert MainSpec(env, trace, cfg, root, now) == Run(Finished, t6);
    assert t6
        == trace + [ExistsCommand(src.name), SnapCommand(src.name, name), ListCommand(src.name),
                    SendCommand(src.name, dest.name, name, None), ListCommand(src.name), ListCommand(dest.name)];
  }

  /** A dry run finds the source and takes the snapshot. */
  lemma DryRunCreate(tool: Tool, trace: seq<Command>, cfg: Config, now: DateTime)
    requires ValidDateTime(now) && !DestroyBlocked(cfg.source.name)
    ensures var src, name := cfg.source.name, SnapshotName(cfg.prefix, now);
      CreateSourceSnapshotSpec(Env(true, tool), trace, cfg, now)
        == Step(Ok(name), trace + [ExistsCommand(src), SnapCommand(src, name)])
  {
    var env, src, name := Env(true, tool), cfg.source, SnapshotName(cfg.prefix, now);
    DryRunQueries(tool, trace, src, cfg.prefix);
    var t1 := trace + [ExistsCommand(src.name)];
    CreateSnapshotIssues(env, t1, src, cfg.prefix, now);
    var t2 := t1 + [SnapCommand(src.name, name)];
    assert CreateSourceSnapshotSpec(env, trace, cfg, now) == Step(Ok(name), t2);
  }

  /** A dry-run backup finds no base and sends the full snapshot. */
  lemma DryRunBackup(tool: Tool, t2: seq<Command>, cfg: Config, name: string)
    requires cfg.dest.Some? && !DestroyBlocked(cfg.source.name)
    ensures BackupSnapshotSpec(Env(true, tool), t2, cfg, name)
      == Step(Ok(()), t2 + [ListCommand(cfg.source.name), SendCommand(cfg.source.name, cfg.dest.value.name, name, None)])
  {
    var env := Env(true, tool);
    var src, dest := cfg.source, cfg.dest.value;
    DryRunQueries(tool, t2, src, cfg.prefix);
    var t3 := t2 + [ListCommand(src.name)];
    assert IncrementalBase([], name) == None;
    SnapshotCommandsPass(src.name, dest.name, name, None);
    var t4 := t3 + [SendCommand(src.name, dest.name, name, None)];
    assert BackupSnapshotSpec(env, t2, cfg, name) == Step(Ok(()), t4);
  }

  /** A dry-run prune lists both datasets and deletes nothing. */
  lemma DryRunPrune(tool: Tool, t4: seq<Command>, cfg: Config)
    requires cfg.dest.Some?
    requires !DestroyBlocked(cfg.source.name) && !DestroyBlocked(cfg.dest.value.name)
    ensures PruneAllSpec(Env(true, tool), t4, PruneDatasets(cfg), cfg.prefix, cfg.numSnaps)
      == Step(Ok(()), t4 + [ListCommand(cfg.source.name), ListCommand(cfg.dest.value.name)])
  {
    var env := Env(true, tool);
    var src, dest := cfg.source, cfg.dest.value;
    DryRunQueries(tool, t4, src, cfg.prefix);
    var t5 := t4 + [ListCommand(src.name)];
    DryRunQueries(tool, t5, dest, cfg.prefix);
    var t6 := t5 + [ListCommand(dest.name)];
    assert PruneTargets([], cfg.numSnaps) == [];
    assert PruneDatasets(cfg) == [src, dest];
    assert PruneAllSpec(env, t5, [dest], cfg.prefix, cfg.numSnaps) == Step(Ok(()), t6) by {
      assert PruneDatasetSpec(env, t5, dest, cfg.prefix, cfg.numSnaps) == Step(Ok(()), t6);
      assert [dest][1..] == [];
    }
    assert PruneAllSpec(env, t4, [src, dest], cfg.prefix, cfg.numSnaps) == Step(Ok(()), t6) by {
      assert PruneDatasetSpec(env, t4, src, cfg.prefix, cfg.numSnaps) == Step(Ok(()), t5);
      assert [src, dest][1..] == [dest];
    }
  }

  /** A dry run without a destination takes the snapshot and then fails with
      return code 1 before any listing or pruning. */
  lemma DryRunWithoutDestination(tool: Tool, trace: seq<Command>, cfg: Config, root: bool, now: DateTime)
    requires ValidDateTime(now) && cfg.dest.None? && !DestroyBlocked(cfg.source.name)
    ensures var src, name := cfg.source.name, SnapshotName(cfg.prefix, now);
      MainSpec(Env(true, tool), trace, cfg, root, now)
        == Run(Failed(1), trace + [ExistsCommand(src), SnapCommand(src, name)])
  {
    DryRunQueries(tool, trace, cfg.source, cfg.prefix);
    CreateSnapshotIssues(Env(true, tool), trace + [ExistsCommand(cfg.source.name)], cfg.source, cfg.prefix, now);
  }
}
