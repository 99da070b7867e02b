# Backup engines and fan controller of an ops-scripts repository, in Dafny

This project models five small Python programs of an infrastructure repository and proves what they do:

- **The ZFS snapshot backup engine** (`backup.py`, modules `ZfsBackup`, `ZfsNaming`, `ZfsProps`). Its parts are:
  - the command runner `_run_cmd`, with its destroy guard, dry-run substitute and `BackupError`;
  - the dataset operations `exists`, `create_snapshot`, `get_snapshots` (parsing of the `zfs list` output) and `delete_snapshot`;
  - the snapshotter's `create_source_snapshot`, `_get_incremental_source`, `backup_snapshot` (incremental or full send) and `prune`;
  - the exit status of `main`.
- **The LVM snapshot archive** (`backup_lv.py`, modules `LvBackup`, `LvProps`). It derives names, checks for an existing snapshot, creates it, then mounts and tars it in a `try` block. The `finally` block unmounts and removes the snapshot. Mount detection reads `/proc/mounts`.
- **The one-shot ZFS archive** (`backup_zfs.py`, module `ZfsArchive`). It takes a snapshot, pipes `zfs send` into `gzip`, and destroys the snapshot in a `finally`.
- **The GitLab backup** (`backup_gitlab.py`, module `GitlabBackup`). It archives `/etc/gitlab` and keeps the `num_backups` greatest archive names. Then it runs `gitlab-rake` and, optionally, `rsync`.
- **The fan controller** (`dell-temp-control.py`, module `FanControl`). It has a five-slot rolling buffer of readings and an integer weighted average. It picks OFF, LOW or HIGH from thresholds and does not repeat a request it has already made.

`Common` holds what these share:
- Python string order and `sorted`;
- `reversed` order;
- `str.strip`;
- `os.path.join`;
- the `strftime` date fields.

**How the external world is modelled.** Each external tool is an oracle (`zfs`, `lvm`, `tar`, `mount`, `gitlab-rake`, `rsync`, `i8kfan`, the `/proc/mounts` reader and `glob`). It is a function from the commands issued so far and the new command to that command's result. This lets a result depend on earlier commands without modelling ZFS or LVM themselves.

Every program keeps a `trace` field on a host object. The trace lists the commands handed to the runner (and directory creations and removals).

Each imperative operation is a method on that object. The method is proved equal to a state-passing specification function: same result, same new trace. The properties are then lemmas about those functions. Each operation is paired with what it promises:
- the inventory parser with its line-by-line meaning and its order independence;
- snapshot naming with parsing (a round trip);
- the retention loops with the closed-form "keep the n greatest / oldest";
- `set_fan_state` with its idempotence;
- `get_fan_state` with `str` (a round trip).

The root check, the clock and `os.path.isdir` are parameters. The dry-run switches are fields of the environment.

## Model

| member | source | states |
|---|---|---|
| ZfsBackup.RunSpec | ansible/roles/backups/files/scripts/backup.py:234-247 | A command mentioning "destroy" without an '@' is refused with `BackupError` code 1 before anything runs. Under dry-run any other command "succeeds" with code 0 and empty output. Live, a checked command with a non-zero exit raises `BackupError` with that exit code; an unchecked one returns the tool's result. The command is recorded exactly when it passed the guard. |
| ZfsBackup.Host.Run | ansible/roles/backups/files/scripts/backup.py:234-247 | The runner method has the result and new trace of `RunSpec`. |
| ZfsBackup.ZfsDataSet.Exists | ansible/roles/backups/files/scripts/backup.py:119-120 | `exists` matches its specification: the unchecked `zfs list -H <ds>` and its exit code. |
| ZfsBackup.ZfsDataSet.CreateSnapshot | ansible/roles/backups/files/scripts/backup.py:122-127 | `create_snapshot` matches its specification: a `zfs snap -r <ds>@<prefix>_<yymmdd>_<HHMMSS>` that returns the new name. |
| ZfsBackup.ZfsDataSet.GetSnapshots | ansible/roles/backups/files/scripts/backup.py:129-142 | `get_snapshots` matches its specification: the checked listing, the parse of its lines, and the sort. |
| ZfsBackup.ZfsDataSet.CollectNames | ansible/roles/backups/files/scripts/backup.py:134-141 | The listing loop returns exactly `ParseListing` of the lines, including the `IndexError` of a blank line. |
| ZfsBackup.ZfsDataSet.DeleteSnapshot | ansible/roles/backups/files/scripts/backup.py:144-146 | `delete_snapshot` matches its specification: a checked `zfs destroy -R <ds>@<snap>`. |
| ZfsBackup.RemoveFirst | ansible/roles/backups/files/scripts/backup.py:218-219 | `list.remove` takes out exactly one occurrence: the multiset loses one copy of `x`, and a list without `x` is unchanged. |
| ZfsBackup.StampLength | ansible/roles/backups/files/scripts/backup.py:131 | The greedy `\d+_\d+` match never extends past the token. |
| ZfsBackup.ZfsSnapshotter.constructor | ansible/roles/backups/files/scripts/backup.py:167-172 | The source dataset is built from its option. An empty or absent destination option means no destination. |
| ZfsBackup.ZfsSnapshotter.CreateSourceSnapshot | ansible/roles/backups/files/scripts/backup.py:174-178 | The method matches `CreateSourceSnapshotSpec`: `exists` first; a missing dataset raises `BackupError`; otherwise it snapshots. |
| ZfsBackup.ZfsSnapshotter.GetIncrementalSource | ansible/roles/backups/files/scripts/backup.py:215-220 | The method matches `IncrementalSourceSpec`: the inventory, without the excluded snapshot once, then its first entry or none. |
| ZfsBackup.ZfsSnapshotter.BackupSnapshot | ansible/roles/backups/files/scripts/backup.py:180-199 | The method matches `BackupSnapshotSpec`: no destination fails; otherwise it sends incrementally when the base is non-empty and listed on the destination, and fully otherwise, as `ZfsProps.BackupSnapshotChoice` proves. |
| ZfsBackup.ZfsSnapshotter.Prune | ansible/roles/backups/files/scripts/backup.py:201-213 | The nested loops over the datasets and their prune targets match `PruneAllSpec`. |
| ZfsBackup.ZfsSnapshotter.PruneDataset | ansible/roles/backups/files/scripts/backup.py:206-213 | One dataset's pass matches `PruneDatasetSpec`: the listing, nothing more when `num_snaps` exceeds the count, otherwise the delete loop over the targets. |
| ZfsBackup.ZfsSnapshotter.DeleteAll | ansible/roles/backups/files/scripts/backup.py:212-213 | The delete loop matches `DeleteAllSpec`: destroys in order, stopping at the first failure. |
| ZfsBackup.RunBackup | ansible/roles/backups/files/scripts/backup.py:21-43 | `main` matches `MainSpec`: the root check, then create, send and prune. A `BackupError` becomes its return code; any other exception is re-raised. |
| ZfsNaming.FirstTokenShape | ansible/roles/backups/files/scripts/backup.py:135 | `line.split()[0]` raises exactly on a blank line. Otherwise it is the first whitespace-free word of the line. |
| ZfsNaming.StampLengthShape | ansible/roles/backups/files/scripts/backup.py:131 | What greedy `\d+_\d+` finds is a stamp, and no digit follows it. |
| ZfsNaming.StampLengthAccepts | ansible/roles/backups/files/scripts/backup.py:131 | Every stamp not followed by a digit is found, with its full length. |
| ZfsNaming.SnapMatchShape | ansible/roles/backups/files/scripts/backup.py:131-137 | A `re.match` hit captures a `<prefix>_<digits>_<digits>` name. The token starts with `<ds>@<name>`, and no digit follows the name. |
| ZfsNaming.SnapMatchAccepts | ansible/roles/backups/files/scripts/backup.py:131-137 | Any token `<ds>@<name><tail>`, with a well-formed name and a tail that does not start with a digit, captures exactly that name. |
| ZfsNaming.LineYields | ansible/roles/backups/files/scripts/backup.py:131-141 | A `zfs list` line `<ds>@<name><tail>` followed by whitespace yields `name`. |
| ZfsNaming.SnapshotNameShape | ansible/roles/backups/files/scripts/backup.py:122-124 | The names `create_snapshot` makes are well formed and exactly 14 characters longer than the prefix. |
| ZfsNaming.NameRoundTrip | ansible/roles/backups/files/scripts/backup.py:122-142 | The listing line of a snapshot `create_snapshot` made parses back to exactly that name. |
| ZfsNaming.ParseListingMeaning | ansible/roles/backups/files/scripts/backup.py:133-141 | The listing loop fails, with `IndexError`, exactly when some line is blank. Otherwise a name is collected exactly when some line yields it. |
| ZfsNaming.ParseListingConcat | ansible/roles/backups/files/scripts/backup.py:134-141 | Parsing two consecutive stretches of a listing joins their results. |
| ZfsNaming.ParseListingPermutation | ansible/roles/backups/files/scripts/backup.py:134-141 | Reordering the listing's lines changes neither whether it fails nor the multiset of names. |
| ZfsNaming.InventoryOrderIndependent | ansible/roles/backups/files/scripts/backup.py:134-142 | After `sorted`, the inventory does not depend on the order of the listing. |
| ZfsNaming.DuplicateFromUnanchoredEnd | ansible/roles/backups/files/scripts/backup.py:131-141 | The pattern is not anchored at the end, so the lines `<ds>@<name>` and `<ds>@<name>x` yield the same name twice. |
| ZfsProps.ListGuard | ansible/roles/backups/files/scripts/backup.py:235-236 | The guard on the two listing commands depends only on the dataset name. |
| ZfsProps.GuardFalsePositive | ansible/roles/backups/files/scripts/backup.py:235-236 | A dataset whose name contains "destroy" and no '@' cannot be checked or listed: the guard refuses it with code 1. |
| ZfsProps.SnapshotCommandsPass | ansible/roles/backups/files/scripts/backup.py:235-236 | The guard never stops snapshot creation, destruction or the send, because each names a snapshot. |
| ZfsProps.DryRunQueries | ansible/roles/backups/files/scripts/backup.py:238-240 | Under dry-run `exists` reports true and `get_snapshots` reports no snapshots. Both commands are recorded. |
| ZfsProps.ExistsLive | ansible/roles/backups/files/scripts/backup.py:119-120 | Live, `exists` never raises for an exit code and is true exactly when the tool exits 0. |
| ZfsProps.CreateSnapshotIssues | ansible/roles/backups/files/scripts/backup.py:122-127 | `create_snapshot` issues exactly one snapshot command and returns that name. It fails exactly on a live non-zero exit, with that exit code. |
| ZfsProps.InventoryMeaning | ansible/roles/backups/files/scripts/backup.py:129-142 | `get_snapshots` fails exactly when the listing fails or holds a blank line. Otherwise the result is ascending, holds only well-formed names, and holds exactly the names the lines yield. |
| ZfsProps.IncrementalBaseNone | ansible/roles/backups/files/scripts/backup.py:215-220 | No base is found exactly when the inventory is empty or holds only the excluded snapshot. |
| ZfsProps.IncrementalBaseLeast | ansible/roles/backups/files/scripts/backup.py:215-220 | On a sorted inventory the base is listed and is no later than anything left after the removal. It is the excluded snapshot only if that snapshot is listed twice. |
| ZfsProps.IncrementalBaseDuplicate | ansible/roles/backups/files/scripts/backup.py:218-220 | If the excluded snapshot is listed twice it becomes its own base. |
| ZfsProps.IncrementalBaseIsOldest | ansible/roles/backups/files/scripts/backup.py:215-220 | With three snapshots and the newest excluded, the base is the oldest one, not the previous one. |
| ZfsProps.NoDestinationFirst | ansible/roles/backups/files/scripts/backup.py:182-183 | Without a destination `backup_snapshot` fails with code 1 before any command. |
| ZfsProps.BackupSnapshotSendsOnce | ansible/roles/backups/files/scripts/backup.py:180-199 | `backup_snapshot` only appends commands and runs at most one send. When it succeeds it has run exactly one send, as the last command, through the shell. |
| ZfsProps.IncrementalOnlyWhenShared | ansible/roles/backups/files/scripts/backup.py:185-192 | An incremental send from `b` is issued only when `_get_incremental_source` returned `b`, `b` is non-empty, and `b` is listed on the destination. |
| ZfsProps.FullOtherwise | ansible/roles/backups/files/scripts/backup.py:187-195 | A full send is issued only when there is no usable base, or the base is not listed on the destination. |
| ZfsProps.BackupSnapshotChoice | ansible/roles/backups/files/scripts/backup.py:184-199 | The converse of the two rows above. A failed source listing ends with its error and no send. With no usable base, the full send follows the source listing directly. With one, the destination is listed next: a failure there ends with its error, and otherwise the send is incremental exactly when the base is listed on the destination. |
| ZfsProps.SnapshotOnlyIfSourceExists | ansible/roles/backups/files/scripts/backup.py:174-178 | The snapshot command is issued only after `exists` reported true. A missing source gives `BackupError` code 1. |
| ZfsProps.PruneKeepsOldest | ansible/roles/backups/files/scripts/backup.py:206-211 | Per dataset, pruning deletes nothing when `num_snaps` exceeds the count. Otherwise it keeps exactly the `num_snaps` earliest names and deletes the rest, each survivor sorting before each deleted name. A negative `num_snaps` deletes the last `-num_snaps` names (all, if there are fewer). |
| ZfsProps.PruneIdempotent | ansible/roles/backups/files/scripts/backup.py:208-211 | For `num_snaps >= 0`, pruning the survivors again deletes nothing. |
| ZfsProps.PruneNegativeRepeats | ansible/roles/backups/files/scripts/backup.py:211 | For a negative `num_snaps`, every further prune deletes more, until nothing is left. |
| ZfsProps.DeleteAllIssues | ansible/roles/backups/files/scripts/backup.py:212-213 | The delete loop issues the destroy commands in order and stops at the first failure, a live `BackupError`. On success it has issued all of them. |
| ZfsProps.PruneDatasetIssues | ansible/roles/backups/files/scripts/backup.py:206-213 | A successful prune of one dataset is its listing followed by exactly its prune targets' destroys. |
| ZfsProps.MainExitStatus | ansible/roles/backups/files/scripts/backup.py:29-43 | `main` exits 0 exactly when create, backup and prune all succeeded: every caught `BackupError` carries a non-zero code. Outside dry-run, a non-root caller gets 1 before any command. |
| ZfsProps.DryRunMain | ansible/roles/backups/files/scripts/backup.py:33-36 | A dry run with a destination issues, in order: `exists`, the snapshot, the source listing, a full send, and both prune listings. It then finishes. |
| ZfsProps.DryRunWithoutDestination | ansible/roles/backups/files/scripts/backup.py:182-183 | A dry run without a destination takes the snapshot and then fails with code 1. |
| LvBackup.RunSpec | ansible/roles/backups/files/scripts/backup_lv.py:122-127 | Under dry-run every command returns code 0. Live, a checked command with a non-zero exit raises `CalledProcessError` with that code, and an unchecked one returns its code. Every command is recorded. |
| LvBackup.LvHost.Run | ansible/roles/backups/files/scripts/backup_lv.py:122-127 | The runner method has the result and trace of `RunSpec`. |
| LvBackup.LvHost.Mkdir | ansible/roles/backups/files/scripts/backup_lv.py:48-50 | `os.mkdir` appends exactly the directory creation. |
| LvBackup.GetMounted | ansible/roles/backups/files/scripts/backup_lv.py:113-119 | The loop with its early return computes `Mounted`. A line shorter than two characters raises `IndexError`. |
| LvBackup.CheckSnapLv | ansible/roles/backups/files/scripts/backup_lv.py:72-77 | The unchecked `lvdisplay <vg>/<snap>` only returns its exit code. |
| LvBackup.MountSnap | ansible/roles/backups/files/scripts/backup_lv.py:92-99 | `mount_snap` matches `MountSpec`: the mount check, then a checked `mount /dev/mapper/<vg>/<snap> <mp>`. |
| LvBackup.UnmountSnap | ansible/roles/backups/files/scripts/backup_lv.py:102-106 | `unmount_snap` matches `UnmountSpec`: it skips when nothing is mounted, and otherwise runs a checked `umount`. |
| LvBackup.RunBackup | ansible/roles/backups/files/scripts/backup_lv.py:19-69 | `main` matches `MainSpec`: the root check, names, directory, snapshot check, `lvcreate`, the `try`/`finally` around mount and tar, and a return of 1. |
| LvProps.MountedNeedsOneChar | ansible/roles/backups/files/scripts/backup_lv.py:117 | `_get_mounted` is never true for a mount point that is not exactly one character long. |
| LvProps.MountedMeaning | ansible/roles/backups/files/scripts/backup_lv.py:113-119 | True means some line's second character is the one-character mount point. An error is always `IndexError` and means some line is too short. Without short lines there is no error. |
| LvProps.MountDirLong | ansible/roles/backups/files/scripts/backup_lv.py:43-45 | The mount directory ends in `<lv>-backup`, so it is at least 7 characters long. |
| LvProps.MountCheckInert | ansible/roles/backups/files/scripts/backup_lv.py:92-106 | `mount_snap` never reports the mount point in use. `unmount_snap` never runs `umount`. It fails only when `/proc/mounts` has a short line. |
| LvProps.DryRunMount | ansible/roles/backups/files/scripts/backup_lv.py:90-97 | Under dry-run, with `/proc/mounts` readable, `mount_snap` records the `mount` of `/dev/mapper/<vg>/<snap>` on the mount directory and succeeds. |
| LvProps.UnmountNothing | ansible/roles/backups/files/scripts/backup_lv.py:100-104 | With `/proc/mounts` readable, `unmount_snap` records nothing and succeeds. |
| LvProps.LvNames | ansible/roles/backups/files/scripts/backup_lv.py:43-46 | It shows four naming facts:<br>- the snapshot is `<lv>-backup`;<br>- the mount directory is the snapshot under the mount base, unless `lv` is absolute;<br>- the archive is under the target;<br>- the archive name is `backup_<lv>_<yy_mm_dd>.gz`, 19 characters longer than `lv`. |
| LvProps.RootCheckFirst | ansible/roles/backups/files/scripts/backup_lv.py:40-41 | Outside dry-run a non-root caller gets `PermissionError` before any action. |
| LvProps.SnapshotCheckGate | ansible/roles/backups/files/scripts/backup_lv.py:52-60 | `lvdisplay` exit 0 raises "already exists". Any exit but 5 raises with its code. Both happen before `lvcreate`. Exit 5, or dry-run, goes on to `lvcreate`. |
| LvProps.CleanupRemoves | ansible/roles/backups/files/scripts/backup_lv.py:61-68 | When `/proc/mounts` is readable, `lvremove` runs whether or not mount and tar succeeded. `main` returns 1 only if both the body and `lvremove` succeeded. A failing `lvremove` replaces the body's exception. |
| LvProps.CleanupErrorReplaces | ansible/roles/backups/files/scripts/backup_lv.py:64-68 | An `IndexError` from the cleanup's own mount check replaces the body's outcome and skips `lvremove`. |
| LvProps.CreateFailureNoCleanup | ansible/roles/backups/files/scripts/backup_lv.py:60-61 | A failing `lvcreate` is the last action: no cleanup runs. |
| LvProps.LvExitStatus | ansible/roles/backups/files/scripts/backup_lv.py:130-134 | `main` returns 1 whenever it returns. The process exits 1 exactly on success and 0 exactly on a failure, which the wrapper logs. |
| LvProps.DryRunLv | ansible/roles/backups/files/scripts/backup_lv.py:40-69 | A dry run in which /proc/mounts can be read when mounting and when cleaning up records the directory (when missing) and the check, create, mount, tar and remove commands in order, and returns 1. |
| ZfsArchive.CallSpec | ansible/roles/backups/files/scripts/backup_zfs.py:30-39 | `check_call` records the action and raises exactly on a non-zero exit. |
| ZfsArchive.ArchiveHost.Call | ansible/roles/backups/files/scripts/backup_zfs.py:30-39 | The method has the result and trace of `CallSpec`. |
| ZfsArchive.ArchiveHost.RunArchive | ansible/roles/backups/files/scripts/backup_zfs.py:15-40 | `main` matches `MainSpec`: the names, the root check, the directory, the snapshot, and the send with the destroy in its `finally`. |
| ZfsArchive.ReplaceCharMeaning | ansible/roles/backups/files/scripts/backup_zfs.py:17 | `replace('/', '_')` leaves no '/' and changes nothing else. |
| ZfsArchive.Names | ansible/roles/backups/files/scripts/backup_zfs.py:15-17 | The snapshot is `<ds>@backup_<yy_mm_dd>`. The archive is the target, a space, and `/zfsbackup_<ds with '_' for '/'>_<yy_mm_dd>.gz`. |
| ZfsArchive.RootCheckFirst | ansible/roles/backups/files/scripts/backup_zfs.py:20-22 | Without root `main` returns 1 before any action. |
| ZfsArchive.CleanupContract | ansible/roles/backups/files/scripts/backup_zfs.py:29-40 | A failed snapshot is the last action. Otherwise the send and then the destroy run whatever the send did. Status 0 comes exactly when all three commands exit 0. A failing destroy's error replaces the send's. |
| ZfsArchive.ArchiveExitStatus | ansible/roles/backups/files/scripts/backup_zfs.py:40-44 | The process exits 0 exactly when `main` returned 0. |
| GitlabBackup.GitHost.Call | legacy-scripts/backup_gitlab.py:38 | A command's exit code is the tool's, and the command is recorded. |
| GitlabBackup.GitHost.Prune | legacy-scripts/backup_gitlab.py:41-44 | The pop loop removes exactly the files `Pops` names, in that order, and reports whether it ended without `IndexError`. |
| GitlabBackup.GitHost.RunBackup | legacy-scripts/backup_gitlab.py:24-53 | `main` matches `MainSpec`: the root check, directory, tar, retention, `gitlab-rake`, and the optional `rsync`. |
| GitlabBackup.EtcNameShape | legacy-scripts/backup_gitlab.py:37-40 | The `/etc/gitlab` archive is `<tgt>/etc_gitlab_<yy_mm_dd>.tar.gz`, 27 characters longer than `tgt`. It starts with `<tgt>/etc_gitlab` and ends with `.tar.gz`, so it matches the pattern the retention loop lists. |
| GitlabBackup.PopsMeaning | legacy-scripts/backup_gitlab.py:40-44 | For `n >= 0` the loop pops exactly the entries after the first `n`, last first. For a negative `n` it pops them all and then raises `IndexError`. |
| GitlabBackup.RetentionKeepsNewest | legacy-scripts/backup_gitlab.py:40-44 | On the descending list, it keeps the `min(n, count)` greatest names. It removes the rest, smallest first, each exactly once. Every removed name sorts before every kept name. |
| GitlabBackup.RetentionNegative | legacy-scripts/backup_gitlab.py:41-42 | A negative `num_backups` removes every archive, the new one included, and then raises `IndexError`. |
| GitlabBackup.MainOutcome | legacy-scripts/backup_gitlab.py:27-53 | Without root `main` returns 1 before any action. A failing `tar` or `gitlab-rake` ends the run with that command last. Status 0 comes exactly when both exit 0 and `num_backups >= 0`. `rsync` runs last exactly when a target is given. |
| GitlabBackup.GitlabExitStatus | legacy-scripts/backup_gitlab.py:56-57 | The process exits 0 exactly when `main` returned 0. |
| FanControl.LastField | ansible/roles/dell-desktop/files/scripts/dell-temp-control.py:238 | `split(" ")[-1]` is the space-free suffix that starts the string or follows a space. |
| FanControl.FanController.constructor | ansible/roles/dell-desktop/files/scripts/dell-temp-control.py:130-131 | The controller starts with an empty buffer, no last request, and no commands. |
| FanControl.FanController.GetFanState | ansible/roles/dell-desktop/files/scripts/dell-temp-control.py:233-239 | The query runs once. On exit 0 the state is the `int` of the last word of the stripped output. |
| FanControl.FanController.SetFanState | ansible/roles/dell-desktop/files/scripts/dell-temp-control.py:242-259 | The method matches `SetSpec`. |
| FanControl.FanController.Control | ansible/roles/dell-desktop/files/scripts/dell-temp-control.py:147-188 | `fancontrol`, with the deque updated in place, matches `ControlSpec`. The buffer stays empty or full. |
| FanControl.FanController.Tick | ansible/roles/dell-desktop/files/scripts/dell-temp-control.py:132-143 | One pass of the loop: on an exception the last request is kept; otherwise it becomes `fancontrol`'s result. |
| FanControl.WeightsShape | ansible/roles/dell-desktop/files/scripts/dell-temp-control.py:128 | `range(25, 1, -5)` is `[25, 20, 15, 10, 5]`, largest on the newest reading, summing to 75. |
| FanControl.RecordShape | ansible/roles/dell-desktop/files/scripts/dell-temp-control.py:163-166 | After a reading the buffer holds exactly 5 readings, the new one first. The first reading fills all 5 slots; afterwards the older readings move right and the oldest drops out. |
| FanControl.WeightedAverageBounds | ansible/roles/dell-desktop/files/scripts/dell-temp-control.py:168-170 | The truncated weighted average of a full buffer lies between its smallest and largest readings. |
| FanControl.SteadyAverage | ansible/roles/dell-desktop/files/scripts/dell-temp-control.py:163-170 | The buffer the first reading fills averages to exactly that reading. |
| FanControl.WeightedAverageMonotone | ansible/roles/dell-desktop/files/scripts/dell-temp-control.py:168-170 | Readings that are each no higher give an average that is no higher. |
| FanControl.MeanBetween | ansible/roles/dell-desktop/files/scripts/dell-temp-control.py:179 | `upper > mean((temp, wa)) > lower` holds exactly when `2*lower < temp + wa < 2*upper`. |
| FanControl.DecideMeaning | ansible/roles/dell-desktop/files/scripts/dell-temp-control.py:176-187 | OFF exactly when `min < lower`. LOW exactly when that fails and the mean is strictly between the thresholds. HIGH exactly when both fail and `max > upper`. No change otherwise. The reported fan state never matters. |
| FanControl.SteadyDecision | ansible/roles/dell-desktop/files/scripts/dell-temp-control.py:176-187 | Take a steady reading with whole-degree thresholds `lower < upper`, scaled by 1000. It gives OFF below `lower`, LOW strictly between, and HIGH above `upper`. It gives no change exactly at either threshold. |
| FanControl.SetFanStateMeaning | ansible/roles/dell-desktop/files/scripts/dell-temp-control.py:242-259 | `set_fan_state` returns the requested state unless it raises. It runs `i8kfan - <value>` exactly when the request differs from the last one (or there is none) and dry-run is off. It raises exactly when that command fails. |
| FanControl.SetFanStateIdempotent | ansible/roles/dell-desktop/files/scripts/dell-temp-control.py:245-250 | Repeating a request that succeeded runs nothing and returns the same state. |
| FanControl.ControlMeaning | ansible/roles/dell-desktop/files/scripts/dell-temp-control.py:161-188 | The query runs first, and at most one more command follows. Under dry-run only the query runs. A failed query or unreadable state or temperature leaves the buffer unchanged. Otherwise the buffer records the reading. On no change the result is the last request and nothing more runs. On a request, `i8kfan - <value>` runs exactly when the request is new and dry-run is off. The tick fails exactly when that command exits non-zero, raising with its code; otherwise the result is the requested state. |
| FanControl.FanStateRoundTrip | ansible/roles/dell-desktop/files/scripts/dell-temp-control.py:233-239 | Output ending in ` <str(v)>` plus trailing whitespace reads back as `v`, whatever precedes it. |
| Common.Sort | ansible/roles/backups/files/scripts/backup.py:142 | `sorted` returns an ascending permutation of its input. |
| Common.SortOrderIndependent | ansible/roles/backups/files/scripts/backup.py:142 | Lists with the same elements sort to the same list. |
| Common.BelowTotal | ansible/roles/backups/files/scripts/backup.py:142 | Python string order is total: of two different strings, one sorts first. |
| Common.BelowTransitive | ansible/roles/backups/files/scripts/backup.py:142 | Python string order is transitive. |
| Common.SortDescending | legacy-scripts/backup_gitlab.py:40 | `sorted(..., reverse=True)` returns a descending permutation of its input. |
| Common.Join | ansible/roles/backups/files/scripts/backup_lv.py:45-46 | `os.path.join(a, b)` ends with `b`. It is `b` itself when `b` is absolute, and otherwise starts with `a`. |
| Common.YyUnderMmUnderDd | ansible/roles/backups/files/scripts/backup_lv.py:44 | `%y_%m_%d` is 8 characters: digits, with '_' at positions 2 and 5. |
| Common.DigitRun | ansible/roles/backups/files/scripts/backup.py:131 | `\d+` consumes exactly the leading digits. |

## Where the code and its stated intent differ

The model follows the code in each case.
- `_get_incremental_source` is documented as returning the last snapshot. The code returns `snapshots[0]`, the oldest (`ZfsProps.IncrementalBaseIsOldest`). An incremental send therefore happens only when the oldest source snapshot is still on the destination.
- `prune` is meant to keep the newest `num_snaps` snapshots and delete older ones. It slices the ascending inventory at `num_snaps`, so it keeps the oldest and deletes the newest, including the snapshot just sent (`ZfsProps.PruneKeepsOldest`).
- The LVM archive's `main` returns 1 on success. The wrapper catches every exception and logs it, so the process exits 1 on success and 0 on failure (`LvProps.LvExitStatus`).
- Mount detection compares one character of each `/proc/mounts` line with the whole mount path. It never detects the real mount, so `umount` never runs (`LvProps.MountCheckInert`).
- The one-shot ZFS archive's file name has a space after the target directory (`ZfsArchive.Names`). The archive is therefore written to a path that begins with that space.
- The fan state `get_fan_state` returns is an `int`, and it is compared with members of a plain `Enum`. The comparisons are never equal, so the three `fan_state != …` guards always hold (`FanControl.DecideMeaning`).

## Left out

- Process execution is an oracle per program. This covers each tool's exit code and output, the `/proc/mounts` contents, and the `glob` result. The real zfs, lvm, tar, mount, gitlab-rake, rsync and i8kfan behaviour is not modelled.
- Logging, `print` and the Discord webhook (`send_discord_notification`) are not modelled: they change nothing the programs compute. A failing webhook request is not modelled either.
- Argument parsing is not modelled: the options are parameters. `os.geteuid`, `datetime.now` and `date.today` also become parameters, as does `os.path.isdir`.
- `os.mkdir` and `os.remove` always succeed. A failure of either would raise an `OSError`, which is not modelled.
- Opening `/proc/mounts` and reading the temperature sensor (`TempSensor.read_temp`) can raise `OSError`. Only the sensor failure is modelled, as an absent reading.
- The hwmon discovery of the fan script (`get_hwmon_module`, `get_temp_sensor`) is not modelled, since it only locates the sensor file. The polling loop's `sleep` and its `KeyboardInterrupt` exit are not modelled either.
- The exception messages and the captured stderr text of `BackupError` are not modelled; only the exception kinds and return codes are.
- Process exit statuses are not reduced modulo 256, unlike what the operating system would do with a large `return_code`.
- Prefixes and dataset names are inserted into the snapshot pattern literally. A prefix containing regular-expression metacharacters is not modelled.
- `\d`, `str.split()`, `str.strip()` and `int()` are modelled for ASCII digits and ASCII whitespace only (plus the separators U+001C-U+001F). `int()` also accepts underscores between digits, which is not modelled.
- The fan script's `mean` and `/` work on floats. The model computes them exactly, which is the same as long as sums stay below 2^53 in magnitude.
- `ZfsDataSet.remote_host` is carried but never read by the engine.
- The `Snapshotter` protocol class, the `SnapShotVolume` protocol class and `_get_snapshotter_from_args` only select `ZfsSnapshotter`, so they are not modelled.
- ZfsProps.DeleteAllIssues: on failure it states only that the destroys issued are a prefix of the planned ones and end in a live `BackupError`. It does not say which destroy failed.
