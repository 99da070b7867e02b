/** The GitLab backup of backup_gitlab.py: archive /etc/gitlab under a dated
    name, keep only the `num_backups` newest archives, run GitLab's own
    backup, and optionally mirror the directory with rsync.

    Commands go to an external `GitTool`, the directory listing (`glob`) is an
    external function of the actions so far, and every action is recorded in
    `GitHost.trace`. */
module GitlabBackup {
  import opened Common

  // ================================================================ data

  /** A directory creation, a command, or a file removal. */
  datatype Action = Mkdir(path: string) | Exec(argv: seq<string>) | Remove(path: string)

  type GitTool = (seq<Action>, seq<string>) -> int

  /** The paths `glob("<tgt>/etc_gitlab*.tar.gz")` finds after the given
      actions. */
  type Glob = seq<Action> -> seq<string>

  datatype GitEnv = GitEnv(tool: GitTool, glob: Glob)

  /** How `main` ends: a returned status, `CalledProcessError` from
      `check_call`, or the `IndexError` of `pop()` on an empty list. */
  datatype Outcome = Returned(status: int) | CalledProcessError(code: int) | IndexError

  datatype Run = Run(outcome: Outcome, trace: seq<Action>)

  // ================================================================ names and commands

  function EtcName(tgt: string, today: Date): string
    requires ValidDate(today)
  {
    tgt + "/etc_gitlab_" + YyUnderMmUnderDd(today) + ".tar.gz"
  }

  function TarArgs(etcName: string): seq<string> { ["tar", "-czf", etcName, "/etc/gitlab"] }

  const RakeArgs: seq<string> := ["gitlab-rake", "gitlab:backup:create", "CRON=1"]

  function RsyncArgs(tgt: string, backupTgt: string): seq<string> { ["rsync", "--delete", "-avh", tgt, backupTgt] }

  // ================================================================ retention

  /** What the retention loop does to the descending list `files`: the
      files it pops, in removal order, and whether it ends normally. It pops
      the last (smallest) entry while more than `n` remain; popping an empty
      list (possible only for a negative `n`) raises `IndexError`, which ends
      it with `ok` false. */
  datatype Pruned = Pruned(removed: seq<string>, ok: bool)

  function Pops(files: seq<string>, n: int): Pruned
    decreases |files|
  {
    if |files| <= n then Pruned([], true)
    else if files == [] then Pruned([], false)
    else
      var p := Pops(files[..|files| - 1], n);
      Pruned([files[|files| - 1]] + p.removed, p.ok)
  }

  /** One pass of the retention loop moves the last file from what is left
      to what was popped. */
  lemma PopStep(removed: seq<string>, files: seq<string>, n: int)
    requires |files| > n && files != []
    ensures var rest := Pops(files[..|files| - 1], n);
      Pruned(removed + Pops(files, n).removed, Pops(files, n).ok)
        == Pruned(removed + [files[|files| - 1]] + rest.removed, rest.ok)
  {
    var rest := Pops(files[..|files| - 1], n);
    assert Pops(files, n).removed == [files[|files| - 1]] + rest.removed;
    assert removed + ([files[|files| - 1]] + rest.removed) == removed + [files[|files| - 1]] + rest.removed;
  }

  /** The actions of removing `paths` in order. */
  function Removes(paths: seq<string>): (r: seq<Action>)
    ensures |r| == |paths|
    ensures forall i :: 0 <= i < |paths| ==> r[i] == Remove(paths[i])
  {
    if paths == [] then [] else [Remove(paths[0])] + Removes(paths[1..])
  }

  // ================================================================ the run

  function CallSpec(env: GitEnv, trace: seq<Action>, argv: seq<string>): Option<int>
  {
    var code := env.tool(trace, argv);
    if code != 0 then Some(code) else None
  }

  /** `main` after argument parsing. */
  function MainSpec(env: GitEnv, trace: seq<Action>, tgt: string, numBackups: int, backupTgt: Option<string>,
                    today: Date, root: bool, isDir: bool): Run
    requires ValidDate(today)
  {
    if !root then Run(Returned(1), trace)
    else
      var t1 := if isDir then trace else trace + [Mkdir(tgt)];
      var tar := TarArgs(EtcName(tgt, today));
      var t2 := t1 + [Exec(tar)];
      if CallSpec(env, t1, tar).Some? then Run(CalledProcessError(CallSpec(env, t1, tar).value), t2)
      else
        var bkFiles := SortDescending(env.glob(t2));
        var p := Pops(bkFiles, numBackups);
        var t3 := t2 + Removes(p.removed);
        if !p.ok then Run(IndexError, t3)
        else
          var t4 := t3 + [Exec(RakeArgs)];
          if CallSpec(env, t3, RakeArgs).Some? then Run(CalledProcessError(CallSpec(env, t3, RakeArgs).value), t4)
          else if backupTgt.Some? && backupTgt.value != "" then
            Run(Returned(0), t4 + [Exec(RsyncArgs(tgt, backupTgt.value))])
          else Run(Returned(0), t4)
  }

  class GitHost {
    const env: GitEnv
    var trace: seq<Action>

    constructor (env: GitEnv)
      ensures this.env == env && trace == []
    {
      this.env := env;
      trace := [];
    }

    /** `subprocess.call` (and `check_call`, which raises on the result). */
    method Call(argv: seq<string>) returns (code: int)
      modifies this
      ensures code == env.tool(old(trace), argv) && trace == old(trace) + [Exec(argv)]
    {
      code := env.tool(trace, argv);
      trace := trace + [Exec(argv)];
    }

    /** The retention loop: pop from the end of `bkFiles`, removing each
        popped file, while more than `numBackups` remain. */
    method Prune(bkFiles: seq<string>, numBackups: int) returns (ok: bool)
      modifies this
      ensures var p := Pops(bkFiles, numBackups);
        ok == p.ok && trace == old(trace) + Removes(p.removed)
    {
      var files := bkFiles;
      ghost var removed: seq<string> := [];
      ghost var t0 := trace;
      while |files| > numBackups
        invariant Pops(bkFiles, numBackups) ==
          Pruned(removed + Pops(files, numBackups).removed, Pops(files, numBackups).ok)
        invariant trace == t0 + Removes(removed)
        decreases |files|
      {
        if files == [] {
          return false;
        }
        var fRemove := files[|files| - 1];
        PopStep(removed, files, numBackups);
        RemovesConcat(removed, [fRemove]);
        files := files[..|files| - 1];
        removed := removed + [fRemove];
        trace := trace + [Remove(fRemove)];
      }
      return true;
    }

    /** `main` after argument parsing. */
    method RunBackup(tgt: string, numBackups: int, backupTgt: Option<string>, today: Date, root: bool, isDir: bool)
      returns (o: Outcome)
      requires ValidDate(today)
      modifies this
      ensures Run(o, trace) == MainSpec(env, old(trace), tgt, numBackups, backupTgt, today, root, isDir)
    {
      if !root {
        return Returned(1);
      }
      if !isDir {
        trace := trace + [Mkdir(tgt)];
      }
      var etcName := EtcName(tgt, today);
      var tar := Call(TarArgs(etcName));
      if tar != 0 {
        return CalledProcessError(tar);
      }
      var bkFiles := SortDescending(env.glob(trace));
      var ok := Prune(bkFiles, numBackups);
      if !ok {
        return IndexError;
      }
      var rake := Call(RakeArgs);
      if rake != 0 {
        return CalledProcessError(rake);
      }
      if backupTgt.Some? && backupTgt.value != "" {
        var _ := Call(RsyncArgs(tgt, backupTgt.value));
      }
      return Returned(0);
    }
  }

  lemma {:induction false} RemovesConcat(a: seq<string>, b: seq<string>)
    ensures Removes(a + b) == Removes(a) + Removes(b)
  {
    if a == [] {
      assert a + b == b;
    } else {
      assert (a + b)[1..] == a[1..] + b;
      RemovesConcat(a[1..], b);
    }
  }

  lemma {:induction false} ReverseLast(s: seq<string>)
    requires s != []
    ensures Reverse(s) == [s[|s| - 1]] + Reverse(s[..|s| - 1])
  {
    if |s| > 1 {
      ReverseLast(s[1..]);
      assert s[1..][..|s| - 2] == s[..|s| - 1][1..];
    }
  }

  // ================================================================ properties

  /** The `/etc/gitlab` archive is `<tgt>/etc_gitlab_<yy_mm_dd>.tar.gz`: it
      has the date in its middle and matches the `<tgt>/etc_gitlab*.tar.gz`
      pattern the retention loop lists. */
  lemma EtcNameShape(tgt: string, today: Date)
    requires ValidDate(today)
    ensures var e := EtcName(tgt, today);
      |e| == |tgt| + 27 && tgt + "/etc_gitlab" <= e && EndsWith(e, ".tar.gz") &&
      e[|tgt| + 11] == '_' && e[|tgt| + 12..|tgt| + 20] == YyUnderMmUnderDd(today)
  {
    var e := EtcName(tgt, today);
    assert e == tgt + "/etc_gitlab_" + YyUnderMmUnderDd(today) + ".tar.gz";
  }

  /** The retention loop in closed form: for `n >= 0` it pops exactly the
      entries past the first `n`, last first, and ends normally; for a
      negative `n` it pops every entry and then raises `IndexError`. */
  lemma {:induction false} PopsMeaning(files: seq<string>, n: int)
    ensures Pops(files, n) ==
      if n < 0 then Pruned(Reverse(files), false)
      else if |files| <= n then Pruned([], true)
      else Pruned(Reverse(files[n..]), true)
    decreases |files|
  {
    if |files| > n && files != [] {
      var init := files[..|files| - 1];
      PopsMeaning(init, n);
      ReverseLast(files);
      if n >= 0 && |init| > n {
        ReverseLast(files[n..]);
        assert files[n..][..|files[n..]| - 1] == init[n..];
      } else if n >= 0 {
        assert files[n..] == [files[|files| - 1]];
      }
    }
  }

  /** Retention on the descending archive list: with `n >= 0` the run keeps
      the first `min(n, |files|)` entries, which are the greatest names, and
      removes the rest, smallest first, each exactly once. */
  lemma RetentionKeepsNewest(files: seq<string>, n: int)
    requires Descending(files) && n >= 0
    ensures var p, k := Pops(files, n), if |files| <= n then |files| else n;
      var kept := files[..k];
      p.ok && |kept| == k &&
      multiset(kept) + multiset(p.removed) == multiset(files) &&
      Ascending(p.removed) &&
      (forall r, x :: r in p.removed && x in kept ==> AtMost(r, x))
  {
    PopsMeaning(files, n);
    var k := if |files| <= n then |files| else n;
    assert Pops(files, n).removed == Reverse(files[k..]);
    SplitMultiset(files, k);
    ReverseMultiset(files[k..]);
    ReverseAscending(files[k..]);
    TailBelowHead(files, k);
  }

  lemma SplitMultiset(s: seq<string>, k: nat)
    requires k <= |s|
    ensures multiset(s[..k]) + multiset(s[k..]) == multiset(s)
  {
    assert s == s[..k] + s[k..];
  }

  lemma ReverseAscending(s: seq<string>)
    requires Descending(s)
    ensures Ascending(Reverse(s))
  {
    var r := Reverse(s);
    forall i, j | 0 <= i < j < |r| ensures AtMost(r[i], r[j]) {
      assert r[i] == s[|s| - 1 - i] && r[j] == s[|s| - 1 - j];
    }
  }

  lemma TailBelowHead(s: seq<string>, k: nat)
    requires Descending(s) && k <= |s|
    ensures forall r, x :: r in Reverse(s[k..]) && x in s[..k] ==> AtMost(r, x)
  {
    forall r, x | r in Reverse(s[k..]) && x in s[..k] ensures AtMost(r, x) {
      ReverseMultiset(s[k..]);
      assert r in multiset(s[k..]);
      var a :| 0 <= a < |s| - k && s[k..][a] == r;
      var b :| 0 <= b < k && s[..k][b] == x;
      assert s[b] == x && s[k + a] == r;
    }
  }

  /** A negative `num_backups` removes every archive, the one just written
      included, and then fails with `IndexError`. */
  lemma RetentionNegative(files: seq<string>, n: int)
    requires n < 0
    ensures var p := Pops(files, n);
      !p.ok && multiset(p.removed) == multiset(files)
  {
    PopsMeaning(files, n);
    ReverseMultiset(files);
  }

  /** How `main` ends. Without root it returns 1 before any action. With
      root it ends normally (status 0) exactly when `tar` and
      `gitlab-rake` exit 0 and `num_backups` is not negative; each failing
      `check_call` ends the run with that command last in the trace, and
      `rsync` runs last exactly when an external target is given. */
  lemma MainOutcome(env: GitEnv, trace: seq<Action>, tgt: string, n: int, backupTgt: Option<string>,
                    today: Date, isDir: bool)
    requires ValidDate(today)
    ensures MainSpec(env, trace, tgt, n, backupTgt, today, false, isDir) == Run(Returned(1), trace)
    ensures var m := MainSpec(env, trace, tgt, n, backupTgt, today, true, isDir);
      var t1 := if isDir then trace else trace + [Mkdir(tgt)];
      var tar := TarArgs(EtcName(tgt, today));
      var t2 := t1 + [Exec(tar)];
      var files := SortDescending(env.glob(t2));
      var t3 := t2 + Removes(Pops(files, n).removed);
      var rest := if backupTgt.Some? && backupTgt.value != "" then [Exec(RsyncArgs(tgt, backupTgt.value))] else [];
      (env.tool(t1, tar) != 0 ==> m == Run(CalledProcessError(env.tool(t1, tar)), t2)) &&
      (env.tool(t1, tar) == 0 && n < 0 ==> m == Run(IndexError, t3)) &&
      (env.tool(t1, tar) == 0 && n >= 0 && env.tool(t3, RakeArgs) != 0 ==>
         m == Run(CalledProcessError(env.tool(t3, RakeArgs)), t3 + [Exec(RakeArgs)])) &&
      (m.outcome == Returned(0) <==> env.tool(t1, tar) == 0 && n >= 0 && env.tool(t3, RakeArgs) == 0) &&
      (m.outcome == Returned(0) ==> m.trace == t3 + [Exec(RakeArgs)] + rest)
  {
    var t1 := if isDir then trace else trace + [Mkdir(tgt)];
    var t2 := t1 + [Exec(TarArgs(EtcName(tgt, today)))];
    PopsOk(SortDescending(env.glob(t2)), n);
  }

  /** The retention loop ends normally exactly when `n` is not negative. */
  lemma {:induction false} PopsOk(files: seq<string>, n: int)
    ensures Pops(files, n).ok <==> n >= 0
    decreases |files|
  {
    if |files| > n && files != [] {
      PopsOk(files[..|files| - 1], n);
    }
  }

  /** The process exit status: the returned status, or 1 for the traceback
      of an uncaught exception. */
  function ExitStatus(o: Outcome): int
  {
    match o
    case Returned(s) => s
    case CalledProcessError(_) => 1
    case IndexError => 1
  }

  /** The process exits 0 exactly when `main` returned 0. */
  lemma GitlabExitStatus(o: Outcome)
    ensures ExitStatus(o) == 0 <==> o == Returned(0)
  {
  }
}
