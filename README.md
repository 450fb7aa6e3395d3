# snf-image-creator core, modelled in Dafny

This project models the core of snf-image-creator, which turns a disk or the running
system into a cloud image:

- **`Disk`** (`image_creator/disk.py`) is the resource manager of the source media.
  It picks the scratch directory (`get_tmp_dir`) and works out what the source is
  (`file`). It builds copy-on-write snapshots out of loop devices and a device-mapper
  `snapshot` target, and it keeps every release job in a LIFO cleanup ledger that
  `cleanup` unwinds. It also keeps the images it derives in a list, which `cleanup`
  destroys newest first.
- **The Windows sysprep rules** (`image_creator/os_type/windows/__init__.py`):
  - the libguestfs version gate;
  - the order the enabled sysprep tasks run in, with their progress labels, the
    `executed` marks and the final shut-down;
  - the KMS client key lookup;
  - the parsing of diskpart's `shrink querymax` output and the 100 MB margin;
  - the connectivity retries;
  - the VirtIO driver scan over the OEM INF files;
  - the checks `do_sysprep` makes before it boots the helper VM.
- **The bookkeeping of the dialog expert mode** (`image_creator/dialog_menu.py`):
  - `MetadataMonitor`, which diffs the image properties around an action and merges
    what changed into the session;
  - the configuration-task checklist of `exclude_tasks`, with its mapping from
    displayed index to task index and the `EXCLUDE_TASK_*` metadata;
  - the name and value checks of `add_property`;
  - the metadata `register_image` sends;
  - the default entry of `customization_menu`.
- **`CompositeOutput`** (`image_creator/output/composite.py`) is a list of outputs that
  forwards every call to each member in order. Its `_Progress` does the same with one
  progress bar per member.

External commands and foreign calls are oracles. Their answers are parameters of the
operation that makes the call, and `None` stands for a call that raised. This covers
losetup, blockdev, dd, dmsetup, mkstemp, mkdtemp, image_info, create_snapshot, the
bundler, uuid4, the guestfs calls, the remote execution on the helper VM, and the
user's answers to the dialog widgets.

`Disk` records every host call it makes, in order, in `effects`. Its invariant `Valid()`
holds these facts:
- every acquisition has its release registered right beside it;
- a registered release is still in the ledger or has been run;
- every opened image is still tracked or has been destroyed;
- the disk only writes to files it made under its scratch directory;
- the scratch directory's removal sits at the bottom of the ledger.

Files:
- `base.dfy`: `Option`/`Result`/`Outcome` and sequence helpers.
- `text.dfy`: the Python string operations the code relies on.
- `tmp_dir.dfy`, `dm_table.dfy`, `disk.dfy`: `disk.py`.
- `windows.dfy`: the Windows driver.
- `dialog_menu.dfy`: the dialog bookkeeping.
- `composite.dfy`: the composite output.

## Model

| member | source | states |
|---|---|---|
| TmpDir.WritableOnes | image_creator/disk.py:46-47 | a path is kept exactly when it is a candidate and writable, and the kept ones stay in candidate order (a subsequence), which fixes what "earliest on ties" means |
| TmpDir.FreeSpaces | image_creator/disk.py:49 | one free-space figure per candidate, in candidate order |
| TmpDir.FirstMaximumUnique | image_creator/disk.py:51-56 | at most one position is the first maximum, so the scan's answer is determined by the free spaces |
| TmpDir.MaxIndex | image_creator/disk.py:51-56 | the scan returns the first position holding the greatest free space: the earliest candidate wins ties |
| TmpDir.GetTmpDir | image_creator/disk.py:37-59 | a pinned directory is returned unchanged and unchecked; otherwise the result is the writable candidate (`/var/tmp`, home, `/mnt`) with the most free space, earliest on ties, and it is an error exactly when no candidate is writable |
| DmTable.ParseTable | image_creator/disk.py:190-191 | the reading of a snapshot table line only accepts a line ended by a new line |
| DmTable.TableLineRoundTrip | image_creator/disk.py:186-191 | the line `0 <size> snapshot <origin> <cow> n 8\n` reads back as the target mapping sectors [0, size) non-persistently onto the origin, with that cow device and 8-sector chunks |
| DmTable.NumberField | image_creator/disk.py:190-191 | the `%d` sector count is a non-empty run of digits, without spaces, that reads back as the count |
| DmTable.ParseTableOf | image_creator/disk.py:190-191 | a line whose seven fields are well formed reads as the target those fields name |
| Disk.Registrations | image_creator/disk.py:85-87 | the ledger entries a stretch of calls registers are at most as many as the calls |
| Disk.RegistrationsAppend | image_creator/disk.py:85-87 | registrations of two stretches of calls are those of the first followed by those of the second |
| Disk.RegistrationsPrefix | image_creator/disk.py:85-87 | an earlier history has registered an initial segment of the ledger of a later one |
| Disk.TmpDirAtBottomAppend | image_creator/disk.py:83-87 | appending any job but a tree removal keeps the scratch directory's removal alone at the bottom of the ledger |
| Disk.NoLeakStep | image_creator/disk.py:85-127 | a step that only appends calls, and settles every job and image it drops, keeps every acquisition accounted for |
| Disk.NoLeakAcquire | image_creator/disk.py:89-96 | acquiring a resource and registering its release at once keeps every acquisition accounted for |
| Disk.NoLeakBundle | image_creator/disk.py:102-110 | registering the unlink of the bundle before bundling keeps every acquisition accounted for |
| Disk.NoLeakQuiet | image_creator/disk.py:177-183 | the size query and the sparse extension keep every acquisition accounted for |
| Disk.NoLeakOpen | image_creator/disk.py:202-208 | opening an image and tracking it keeps every acquisition accounted for |
| Disk.NoLeakDestroy | image_creator/disk.py:119-121 | untracking an image and destroying it keeps every acquisition accounted for |
| Disk.NoLeakRun | image_creator/disk.py:125-127 | popping a job off the ledger and running it keeps every acquisition accounted for |
| Disk.Unwind | image_creator/disk.py:118-127 | the pop-and-act loop stops only on a raise, after the raising entry, or when nothing is pending |
| Disk.UnwindingStep | image_creator/disk.py:119-121 | one turn of the cleanup loop pops the newest entry and acts on it, as the loop's reference definition says |
| Disk.UnwindIsLifo | image_creator/disk.py:114-127 | what is left, followed by what was popped in reverse, is exactly what was pending: entries leave from the top and none is lost |
| Disk.UnwindCompletes | image_creator/disk.py:119-127 | without a raise every entry is popped, newest first, and the list ends empty |
| Disk.UnwindRaisesIff | image_creator/disk.py:119-127 | the loop raises exactly when some pending entry fails |
| Disk.UnwindStopsAtFirstRaise | image_creator/disk.py:119-127 | every popped entry but the last ran without raising |
| Disk.TmpDirRemovedLast | image_creator/disk.py:74-83 | with the scratch directory's removal at the bottom of the ledger and no job raising, it is the last job cleanup runs |
| Disk.UnwindTwice | image_creator/disk.py:114-127 | after a cleanup loop that did not raise, a second one does nothing |
| Disk.Destroyed | image_creator/disk.py:119-121 | one destroy call per popped image |
| Disk.Ran | image_creator/disk.py:125-127 | one run per popped job |
| Disk.OwnWritesAppend | image_creator/disk.py:62-68 | calls that write nothing keep the disk's writes inside files of its own |
| Disk.OwnWritesBundle | image_creator/disk.py:100-110 | the bundle lands in a file under the scratch directory |
| Disk.OwnWritesSparse | image_creator/disk.py:179-183 | `dd` only extends a cow file the disk made in its scratch directory |
| Disk.Classify | image_creator/disk.py:133-151 | `file` succeeds exactly for a regular file, a block device, or the live root bundled without error; it then answers the source or a file under the scratch directory |
| Disk.ClassifyEffects | image_creator/disk.py:98-112 | only the live root makes calls, and they register exactly the unlink of the bundle |
| Disk.RawPlan | image_creator/disk.py:174-200 | a complete raw snapshot makes eight calls on a block device and ten on a file |
| Disk.RawAnswerSucceeds | image_creator/disk.py:174-200 | a raw snapshot succeeds exactly when every step answers, returns `/dev/mapper/snf-image-creator-snapshot-<hex>`, and otherwise fails naming one of its tools |
| Disk.RawTraceRegistrations | image_creator/disk.py:176-196 | the ledger gains exactly the releases the calls made so far registered, whichever step raised |
| Disk.DeviceStageRegistrations | image_creator/disk.py:177-196 | the same, from the size query on |
| Disk.CowStageRegistrations | image_creator/disk.py:179-196 | the same, from the cow file on |
| Disk.MappingStageRegistrations | image_creator/disk.py:184-196 | the same, from the cow loop on; the mapping removal is registered only after `dmsetup create` succeeds |
| Disk.RawTraceIsPrefix | image_creator/disk.py:174-200 | a raw snapshot that stops early has made an initial segment of the planned calls; it has made all of them exactly when every step answered |
| Disk.DeviceStageIsPrefix | image_creator/disk.py:177-196 | the calls from the size query on are an initial segment of the last eight planned calls, all eight exactly when every step answers |
| Disk.RawJobs | image_creator/disk.py:176-196 | three releases on a block device, four on a file |
| Disk.RawPlanRegistrations | image_creator/disk.py:176-196 | a complete raw snapshot registers, in order, the origin loop detach (files only), the cow unlink, the cow loop detach and the mapping removal |
| Disk.RawTraceJobsArePrefix | image_creator/disk.py:176-196 | a stopped raw snapshot has registered the oldest of those releases |
| Disk.RawStepsRegistrations | image_creator/disk.py:176-196 | the calls of a raw snapshot register exactly the four (or three) releases, in that order |
| Disk.Image.constructor | image_creator/disk.py:205 | a new image is over the given media, with the format image_info reported, not yet enabled |
| Disk.Image.Enable | image_creator/disk.py:207 | reports the host's answer; the image is enabled when it succeeds, and a failure leaves the flag as it was |
| Disk.Disk.constructor | image_creator/disk.py:70-83 | a new disk has made its scratch directory and registered its removal as the one ledger entry, with no images and nothing memoised |
| Disk.Disk.AddCleanup | image_creator/disk.py:85-87 | the job goes on top of the ledger |
| Disk.Disk.Losetup | image_creator/disk.py:89-96 | the loop device is the stripped losetup answer, and its detach is registered right after it is attached; a raising losetup changes nothing |
| Disk.Disk.DirToDisk | image_creator/disk.py:98-112 | only `/` is accepted; the unlink of `<tmp>/<hex>.raw` is registered before the bundle is created, and it stays registered when bundling raises |
| Disk.Disk.File | image_creator/disk.py:129-151 | a memoised answer is returned with nothing done; otherwise the answer is `Classify`'s, memoised only on success, and the calls are `ClassifyEffects` |
| Disk.Disk.Snapshot | image_creator/disk.py:153-200 | the live root is returned as `file` answers it; for any other source the calls, the ledger and the answer are those of `SnapshotTrace`, `SnapshotJobs` and `SnapshotAnswer`, after a classification error is passed on with nothing done |
| Disk.Disk.SnapshotOf | image_creator/disk.py:162-200 | a non-raw image gets a derived snapshot whose unlink is registered; a raw one gets the device-mapper snapshot, with the stat error passed on |
| Disk.Disk.SnapshotRaw | image_creator/disk.py:174-200 | a block device is its own origin, and a file is first attached to a loop device; calls, ledger and answer follow the raw trace |
| Disk.Disk.SnapshotOnDevice | image_creator/disk.py:177-200 | the origin's size is read once and is the size both the cow stage and the mapping use |
| Disk.Disk.SnapshotCow | image_creator/disk.py:179-200 | the cow file is made under the scratch directory, its unlink registered at once, and it is extended sparsely to the origin's size |
| Disk.Disk.SnapshotMapping | image_creator/disk.py:184-200 | the cow loop's detach is registered at once; the mapping is created with the table line `TableLine(size, device, cowdev)`, and its removal registered, only when `dmsetup create` succeeds |
| Disk.MappingTable | image_creator/disk.py:186-195 | the table handed to `dmsetup create` reads back as a non-persistent snapshot target of the whole origin (`size` sectors) over the cow loop device, in chunks of 8 sectors |
| Disk.Disk.Acquire | image_creator/disk.py:93-96 | an acquisition is recorded with the registration of its release right after it |
| Disk.Disk.Note | image_creator/disk.py:177-183 | the size query and the extension of the disk's own cow file are recorded and keep the invariant |
| Disk.Disk.GetImage | image_creator/disk.py:202-208 | a raising image_info changes nothing; otherwise a new image over the media is tracked last before `enable()` runs, is returned when enabling succeeds, and stays tracked (for `cleanup` to destroy) when enabling raises |
| Disk.Disk.DestroyImage | image_creator/disk.py:210-216 | an untracked image raises with nothing destroyed; a tracked one is untracked, then destroyed, and its failure is passed on |
| Disk.Disk.DestroyAll | image_creator/disk.py:118-121 | the images are destroyed newest first until one raises, as `Unwind` says |
| Disk.Disk.PopImage | image_creator/disk.py:120-121 | the newest image leaves the list and is destroyed |
| Disk.Disk.RunLedger | image_creator/disk.py:125-127 | the ledger is run newest first until a job raises, as `Unwind` says |
| Disk.Disk.PopJob | image_creator/disk.py:126-127 | the newest job leaves the ledger and runs |
| Disk.Disk.Cleanup | image_creator/disk.py:114-127 | the images are destroyed LIFO, then the ledger runs LIFO even when a destroy raised; a raising job's error wins over a destroy's |
| Disk.NewDisk | image_creator/disk.py:70-83 | the scratch directory is made under the `get_tmp_dir` choice (the pinned parent, or the first writable candidate with the most free space), and its removal is the only ledger entry; with a parent the disk exists exactly when mkdtemp answers; without a writable candidate it is an error |
| Windows.CheckGuestfsVersion | image_creator/os_type/windows/__init__.py:128-130 | the comparison is negative or zero exactly when the installed version is older than or equal to the wanted one |
| Windows.GuestfsGate | image_creator/os_type/windows/__init__.py:128-132 | Windows is accepted exactly from libguestfs 1.17.18 on, and on the 1.16 branch from 1.16.11 on |
| Windows.EnabledNames | image_creator/os_type/windows/__init__.py:411-412 | the enabled tasks are drawn from the listed ones |
| Windows.Without | image_creator/os_type/windows/__init__.py:416-417 | the filter drops every occurrence of the name and keeps all other tasks |
| Windows.OthersAppend | image_creator/os_type/windows/__init__.py:416-426 | the ordinary tasks of a concatenation are those of each part, in order |
| Windows.OthersWithout | image_creator/os_type/windows/__init__.py:416-423 | filtering out shrink or Microsoft sysprep leaves the ordinary tasks as they were |
| Windows.EnabledOnce | image_creator/os_type/windows/__init__.py:411-412 | with distinct task names, an enabled task occurs once |
| Windows.MoveLastShape | image_creator/os_type/windows/__init__.py:416-419 | a stage filters the task out and appends it once when it was there |
| Windows.MoveLastSame | image_creator/os_type/windows/__init__.py:416-426 | a stage keeps the same tasks, as many as before |
| Windows.MoveLastOthers | image_creator/os_type/windows/__init__.py:416-426 | a stage keeps the ordinary tasks in order |
| Windows.SysprepOrderSame | image_creator/os_type/windows/__init__.py:411-426 | exactly the enabled tasks run, `size` of them |
| Windows.SysprepOrderOthers | image_creator/os_type/windows/__init__.py:411-426 | the tasks other than shrink and Microsoft sysprep run in listed order |
| Windows.MoveLastLast | image_creator/os_type/windows/__init__.py:418-419 | a task moved to the end is last |
| Windows.MoveLastKeepsLast | image_creator/os_type/windows/__init__.py:422-426 | moving Microsoft sysprep to the end puts it right after the former last task |
| Windows.ShrinkStage | image_creator/os_type/windows/__init__.py:415-419 | after the first stage shrink, if enabled, is last, and Microsoft sysprep is there exactly as before |
| Windows.SysprepOrderMsLast | image_creator/os_type/windows/__init__.py:421-426 | Microsoft sysprep, when enabled, runs last |
| Windows.SysprepOrderShrink | image_creator/os_type/windows/__init__.py:415-426 | shrink, when enabled, runs last but for Microsoft sysprep |
| Windows.DigitRunEnd | image_creator/os_type/windows/__init__.py:254 | the run of digits from a position ends at the first non-digit |
| Windows.SearchMbFrom | image_creator/os_type/windows/__init__.py:254 | a match captures a non-empty run of digits |
| Windows.SearchMb | image_creator/os_type/windows/__init__.py:254-256 | a match captures a non-empty run of digits |
| Windows.SearchMbFinds | image_creator/os_type/windows/__init__.py:254-256 | the search returns the whole digit run of the leftmost `<digits> MB` |
| Windows.SearchMbMisses | image_creator/os_type/windows/__init__.py:254-257 | the search fails exactly when no position matches |
| Windows.SearchMbNumber | image_creator/os_type/windows/__init__.py:254-256 | the captured number occurs followed by ` MB`, no digit precedes it, and no earlier position matches |
| Windows.QueryMaxOf | image_creator/os_type/windows/__init__.py:246-260 | a `querymax` found is all digits |
| Windows.QueryMaxRaises | image_creator/os_type/windows/__init__.py:252-253 | the loop raises exactly when some line mentions `reclaimable` without a `:` |
| Windows.QueryMaxSnoc | image_creator/os_type/windows/__init__.py:247-260 | a line that sets `querymax` replaces it; any other leaves it alone |
| Windows.QueryMaxIsLast | image_creator/os_type/windows/__init__.py:246-260 | without a raise, `querymax` is the number of the last line that sets it |
| Windows.QueryMaxNone | image_creator/os_type/windows/__init__.py:246-264 | without a raise, `querymax` stays unset exactly when no line sets it |
| Windows.QueryMax | image_creator/os_type/windows/__init__.py:246-260 | the loop computes `QueryMaxOf` of the output lines |
| Windows.QueryMaxPrefix | image_creator/os_type/windows/__init__.py:247-260 | one more line is one more pass of the loop |
| Windows.QueryMaxRaisesOn | image_creator/os_type/windows/__init__.py:252-253 | the loop raises on the first malformed line, and later lines change nothing |
| Windows.ShrinkTargetSpec | image_creator/os_type/windows/__init__.py:246-276 | shrink asks for the last reported number less 100 MB, and asks nothing when fewer than 100 MB are reclaimable |
| Windows.DropSpaces | image_creator/os_type/windows/__init__.py:551-552 | `^\s*` never lengthens the line |
| Windows.EntryHasEquals | image_creator/os_type/windows/__init__.py:561-564 | an entry line holds `=`, so `split("=")[1]` exists |
| Windows.EntriesDiffer | image_creator/os_type/windows/__init__.py:561-564 | no line is both a `CatalogFile` and a `DriverVer` entry |
| Windows.InfStepCatalog | image_creator/os_type/windows/__init__.py:561-562 | a `CatalogFile` line sets the catalog to its stripped, lower-cased value |
| Windows.InfStepDriverVer | image_creator/os_type/windows/__init__.py:563-564 | a `DriverVer` line sets the driver version to its stripped value |
| Windows.InfFieldsPrefix | image_creator/os_type/windows/__init__.py:560-564 | one more line is one more pass of the loop |
| Windows.CatalogUnset | image_creator/os_type/windows/__init__.py:557-564 | the catalog stays unset exactly when no line is a `CatalogFile` entry |
| Windows.CatalogIsLastEntry | image_creator/os_type/windows/__init__.py:557-564 | the catalog is the lower-cased value of the last `CatalogFile` entry |
| Windows.DriverVerUnset | image_creator/os_type/windows/__init__.py:558-564 | the driver version stays unset exactly when no line is a `DriverVer` entry |
| Windows.DriverVerIsLastEntry | image_creator/os_type/windows/__init__.py:558-564 | the driver version is the value of the last `DriverVer` entry |
| Windows.ExamineInf | image_creator/os_type/windows/__init__.py:556-564 | the loop computes `InfFieldsOf` of the file's lines |
| Windows.VirtioOf | image_creator/os_type/windows/__init__.py:544-549 | the dictionary has a list for each of the five drivers |
| Windows.VirtioStep | image_creator/os_type/windows/__init__.py:566-573 | a file adds itself, with its driver version, to the list of the driver it installs and to no other |
| Windows.ListedSnoc | image_creator/os_type/windows/__init__.py:571-573 | a file installs a driver among the files scanned so far exactly when it is the latest or an earlier one |
| Windows.VirtioOfSpec | image_creator/os_type/windows/__init__.py:539-575 | a driver's list holds exactly the OEM INF files whose catalog is `<driver>.cat`, each with its `DriverVer` |
| Windows.NoDriver | image_creator/os_type/windows/__init__.py:328-336 | a driver's list is empty exactly when no file installs it |
| Windows.VirtioState | image_creator/os_type/windows/__init__.py:539-575 | the scan computes `VirtioOf` of the directory |
| Windows.FirstReply | image_creator/os_type/windows/__init__.py:521-525 | the first attempt whose probe returns 0, every earlier one having failed |
| Windows.ConnectivityBound | image_creator/os_type/windows/__init__.py:515-537 | at most `retries` probes, none when it is 0; a success exactly when some probe returns 0, and that probe is the last sent |
| Windows.SysprepPrecheckSpec | image_creator/os_type/windows/__init__.py:305-336 | `do_sysprep` goes on exactly with winexe installed, an unsyspreped image, a read-write mount, and both a `viostor` and a `netkvm` OEM INF; an already syspreped image is refused |
| Windows.FirstFailing | image_creator/os_type/windows/__init__.py:429-432 | the first task whose remote work raises, every earlier one having completed |
| Windows.FirstFailingIs | image_creator/os_type/windows/__init__.py:429-432 | the first raising task is determined by which tasks raise |
| Windows.CountersSpec | image_creator/os_type/windows/__init__.py:428-431 | the labels count `(1/size)` up to `(n/size)` |
| Windows.RanSnoc | image_creator/os_type/windows/__init__.py:429-433 | one more task adds its label and its work, marks it executed, and sets `syspreped` when it is Microsoft sysprep |
| Windows.RanFields | image_creator/os_type/windows/__init__.py:428-433 | the tasks run are labelled in order, their work sent in order, each marked executed, and the image is syspreped exactly when it was or Microsoft sysprep ran |
| Windows.RunFields | image_creator/os_type/windows/__init__.py:428-433 | up to the first raising task, that one labelled and sent but not marked executed |
| Windows.AllTasksLabelled | image_creator/os_type/windows/__init__.py:411-431 | without a raise the labels run from `(1/size)` to `(size/size)` |
| Windows.WindowsImage.constructor | image_creator/os_type/windows/__init__.py:138-147 | a new image keeps its product name, tasks and sysprep state, with nothing run or sent |
| Windows.WindowsImage.RunSysprepTask | image_creator/os_type/windows/__init__.py:200-208 | the task's work is sent; it raises when it fails, and Microsoft sysprep sets `syspreped` when it completes |
| Windows.WindowsImage.RunInOrder | image_creator/os_type/windows/__init__.py:428-433 | the loop runs the tasks until the first one that raises, with the state `RunOutcome` describes |
| Windows.WindowsImage.ExecSysprepTasks | image_creator/os_type/windows/__init__.py:407-438 | the enabled tasks run in `SysprepOrder` against `size`, then the shut-down is sent only when nothing raised and the image is not syspreped |
| Windows.WindowsImage.KmsClientSetup | image_creator/os_type/windows/__init__.py:211-227 | a known product gets its key installed; an unknown one only gets a warning, with no command |
| Windows.WindowsImage.Shrink | image_creator/os_type/windows/__init__.py:230-276 | after the query, either the query's exception, a warning and no second command, or `shrink desired=<max - 100>` |
| Windows.WindowsImage.CheckConnectivity | image_creator/os_type/windows/__init__.py:512-537 | the probes sent are the ones `ProbeCount` says, and the check fails exactly when retries are enabled and every probe fails |
| Windows.WindowsImage.BootAndRun | image_creator/os_type/windows/__init__.py:365-378 | a boot timeout raises with nothing sent; success means every task of the order is marked executed |
| Windows.WindowsImage.DoSysprep | image_creator/os_type/windows/__init__.py:300-378 | a failed check raises with nothing run or sent; success means the image was not syspreped and every task ran |
| Windows.NewWindows | image_creator/os_type/windows/__init__.py:115-150 | construction fails exactly when the version gate rejects libguestfs, and otherwise starts with nothing run |
| DialogMenu.AddedAltered | image_creator/dialog_menu.py:71-78 | a property is added exactly when new, altered exactly when its value changed, never both, with its new value |
| DialogMenu.MergedSpec | image_creator/dialog_menu.py:95-96 | the merge gives every new or changed property its new value and keeps every other session property |
| DialogMenu.MergedNothing | image_creator/dialog_menu.py:80-81 | with nothing added or altered the session metadata is untouched |
| DialogMenu.MergedTwice | image_creator/dialog_menu.py:95-96 | merging the same changes twice is merging them once |
| DialogMenu.MetadataMonitor.constructor | image_creator/dialog_menu.py:59-61 | the monitor watches the given session and properties |
| DialogMenu.MetadataMonitor.Enter | image_creator/dialog_menu.py:63-66 | the copy holds the properties on entry |
| DialogMenu.MetadataMonitor.Exit | image_creator/dialog_menu.py:68-96 | the session metadata becomes the merge of the added and altered properties |
| DialogMenu.Changes | image_creator/dialog_menu.py:71-78 | the loop sorts the current properties into exactly the added and the altered ones |
| DialogMenu.MonitoredPut | image_creator/dialog_menu.py:63-96 | a change made between entry and exit leaves the copy as it was on entry, and the exit merges exactly that change |
| DialogMenu.Eligible | image_creator/dialog_menu.py:595-601 | the listed entries are entries of the table |
| DialogMenu.EligibleSpec | image_creator/dialog_menu.py:595-601 | an entry is listed exactly when it applies to the OS family |
| DialogMenu.EligibleIncreasing | image_creator/dialog_menu.py:595-601 | the listed entries come in increasing table order |
| DialogMenu.MappingOf | image_creator/dialog_menu.py:595-601 | every displayed index maps to an entry of the table |
| DialogMenu.ChoicesSpec | image_creator/dialog_menu.py:595-601 | the `d`-th choice is tagged `d`, shows the title of the `d`-th listed entry, and is ticked when that entry is excluded |
| DialogMenu.MappingSpec | image_creator/dialog_menu.py:595-601 | the displayed indices are 1 to k, and `d` maps to the `d`-th listed entry |
| DialogMenu.BuildChoices | image_creator/dialog_menu.py:581-601 | the loop builds exactly `ChoicesOf` and `MappingOf` |
| DialogMenu.MappedPrefixSpec | image_creator/dialog_menu.py:627-630 | the appended indices are those of the tags, in order, up to the first tag without one, and that tag is the one that raises |
| DialogMenu.MappedValues | image_creator/dialog_menu.py:629-630 | every appended index is a value of `mapping` |
| DialogMenu.ExcludeMetadataSpec | image_creator/dialog_menu.py:632-634 | a deployment task is listed exactly when an excluded entry stands for it |
| DialogMenu.TaskMetadata | image_creator/dialog_menu.py:636-637 | one `EXCLUDE_TASK_` key per deployment task |
| DialogMenu.TaskMetadataMembers | image_creator/dialog_menu.py:636-637 | a key is task metadata exactly when it is `EXCLUDE_TASK_` followed by one of the tasks |
| DialogMenu.MappedEligible | image_creator/dialog_menu.py:595-630 | the indices taken from the checklist are entries that apply to the OS family |
| DialogMenu.Decision | image_creator/dialog_menu.py:603-626 | the reply that ends the loop is not Help, and it is one the user gave or Cancel |
| DialogMenu.DecisionSkip | image_creator/dialog_menu.py:617-621 | Help shows the checklist again |
| DialogMenu.ExcludeTasks | image_creator/dialog_menu.py:571-640 | the return value and the new exclusion state are those of `ExcludeOutcome`, and the checklist shown is `ChoicesOf` the OS family with the current exclusions ticked |
| DialogMenu.RecordTicked | image_creator/dialog_menu.py:627-638 | the OK branch leaves the state `TickedOutcome` describes |
| DialogMenu.ExcludeErrors | image_creator/dialog_menu.py:571-640 | `exclude_tasks` raises exactly when the session has no OS family or a ticked tag is not a displayed index |
| DialogMenu.ExcludeFalseKeeps | image_creator/dialog_menu.py:576-616 | it returns False exactly for an unsupported image, configuration kept disabled, or Cancel, and then the task metadata is unchanged |
| DialogMenu.ExcludeAllTasks | image_creator/dialog_menu.py:623-637 | after a True return, -1 is excluded, and `EXCLUDE_ALL_TASKS` is set, exactly when the user pressed No Config |
| DialogMenu.ExcludeTickedEntries | image_creator/dialog_menu.py:627-630 | after OK the exclusion list holds, in order, the entries the ticked tags stand for, each applying to the OS family |
| DialogMenu.ExcludeTickedMetadata | image_creator/dialog_menu.py:627-637 | after OK the task metadata is `EXCLUDE_TASK_` before each deployment task of the excluded entries, and nothing else |
| DialogMenu.UpperKeepsName | image_creator/dialog_menu.py:470-475 | upper-casing keeps a valid name valid, and an invalid one invalid |
| DialogMenu.UpperStrip | image_creator/dialog_menu.py:465-475 | upper-casing and stripping commute |
| DialogMenu.CheckNameOk | image_creator/dialog_menu.py:459-481 | a name is accepted exactly when the stripped answer matches `^[A-Za-z_]+$` and its upper case is new; it is then that upper case |
| DialogMenu.CheckNameIgnoresCase | image_creator/dialog_menu.py:474-477 | answers that differ only in case are treated alike |
| DialogMenu.AcceptedNameSpec | image_creator/dialog_menu.py:459-481 | the name settled on is the first accepted answer, every earlier answer having been given and refused |
| DialogMenu.AddPropertySpec | image_creator/dialog_menu.py:453-498 | a property is added exactly when a name and a value are settled on: one new upper-case key with a non-empty stripped value, nothing else changed; otherwise nothing changes |
| DialogMenu.AcceptedValueSpec | image_creator/dialog_menu.py:483-494 | the value settled on is non-empty and stripped |
| DialogMenu.AddProperty | image_creator/dialog_menu.py:453-498 | the two prompt loops return and leave what `AddPropertyOutcome` says |
| DialogMenu.WithTasksSpec | image_creator/dialog_menu.py:238-242 | every task-metadata key is `yes`; every other property keeps its value |
| DialogMenu.RegisterMetadata | image_creator/dialog_menu.py:219-242 | the stripped description becomes `DESCRIPTION`, and the metadata sent is the properties plus `yes` for each task-metadata key |
| DialogMenu.Highlighted | image_creator/dialog_menu.py:857-876 | the first highlight is the starting entry, and the menu is shown at most once more per answer |
| DialogMenu.NextDefaultSpec | image_creator/dialog_menu.py:873-876 | after a successful action the highlight moves to the next entry, wrapping to the first, after a failed one it stays on the entry chosen, and it always stays an entry |
| DialogMenu.HighlightedSpec | image_creator/dialog_menu.py:864-876 | each time the menu comes back, the highlight is the one the previous answer leads to |
| DialogMenu.HighlightedBound | image_creator/dialog_menu.py:857-876 | the highlight is always an entry of the menu |
| DialogMenu.CustomizationMenu | image_creator/dialog_menu.py:847-876 | the loop shows the highlights `Highlighted` describes |
| Composite.FanOut | image_creator/output/composite.py:41-42 | one delivery per target, so nothing is delivered on an empty composite |
| Composite.FanOutCount | image_creator/output/composite.py:39-67 | each member receives the call as many times as it is listed, and nothing else is delivered |
| Composite.FanOutAppend | image_creator/output/composite.py:41-42 | forwarding to two parts reaches the first part first |
| Composite.Deliver | image_creator/output/composite.py:41-42 | the loop delivers the call to every target, in order |
| Composite.CompositeOutput.constructor | image_creator/output/composite.py:32-37 | without outputs the composite is empty; otherwise it holds them, in order |
| Composite.CompositeOutput.Error | image_creator/output/composite.py:39-42 | `error(msg, new_line)` reaches every member, in order, and the members are unchanged |
| Composite.CompositeOutput.Warn | image_creator/output/composite.py:44-47 | `warn(msg, new_line)` reaches every member, in order |
| Composite.CompositeOutput.Success | image_creator/output/composite.py:49-52 | `success(msg, new_line)` reaches every member, in order |
| Composite.CompositeOutput.Info | image_creator/output/composite.py:54-57 | `info(msg, new_line)` reaches every member, in order |
| Composite.CompositeOutput.Cleanup | image_creator/output/composite.py:59-62 | `cleanup()` reaches every member, in order |
| Composite.CompositeOutput.Clear | image_creator/output/composite.py:64-67 | `clear()` reaches every member, in order |
| Composite.Created | image_creator/output/composite.py:72-76 | one progress bar per member |
| Composite.CreatedSpec | image_creator/output/composite.py:72-76 | one bar per member occurrence, in member order, no two alike, each made by its member's creation call |
| Composite.CompositeProgress.constructor | image_creator/output/composite.py:72-76 | every member of the parent, in order, is asked for a progress bar, and the composite holds those bars |
| Composite.CompositeProgress.Goto | image_creator/output/composite.py:78-81 | `goto(dest)` reaches every bar, in order |
| Composite.CompositeProgress.Next | image_creator/output/composite.py:83-86 | `next()` reaches every bar, in order |
| Composite.CompositeProgress.Success | image_creator/output/composite.py:88-91 | `success(result)` reaches every bar, in order |

## Left out

- `check_guestfs_version` lives in `image_creator/image.py`, which is not part of this model. `Windows.CheckGuestfsVersion` is the lexicographic comparison of versions it is taken to be.
- The messages, the `out.output`/`out.success`/`out.info` progress text, the message boxes and the help text boxes are left out. They are output only.
- `Disk`: the table line goes through a temporary file that is unlinked in a `finally` block (disk.py:187-198). That file is not a ledger entry, and the model keeps only the line (`DmTable.TableLine`).
- `Disk`: what a ledger job does is left out, and so are the internals of `try_fail_repeat`. Whether a job or an image's `destroy` raises is a parameter.
- `Disk`: the `meta` dictionary the bundler fills, and the output object, are left out.
- `Disk`: the SIGINT handler that calls `cleanup` from a signal is left out. It is concurrency outside these files.
- `Disk.Image.constructor`: the image is opened by `image_creator/image.py`, which is not part of this model. Only its media, format and enabled flag are kept.
- `Disk.Image.Enable`: what `enable()` does lives in `image_creator/image.py`, which is not part of this model. Whether it succeeds is a parameter, and the model takes a failure to leave the flag as it was.
- `Windows`: the bodies of the sysprep tasks other than `microsoft_sysprep`, `kms_client_setup` and `shrink` are left out. Each is one remote command that completes or raises, and which tasks raise is given as a set.
- `Windows.WindowsImage.RunSysprepTask`: inside the task loop, `kms_client_setup` and `shrink` are also one `RunTask` command that completes or raises. The source sends no command for an unknown KMS product, and one or two diskpart commands for `shrink`. Their bodies are modelled on their own, by `Windows.WindowsImage.KmsClientSetup` and `Windows.WindowsImage.Shrink`, and are not composed into the loop. So the command trace of `RunInOrder` and `ExecSysprepTasks` shows these two tasks as one command each.
- `Windows.WindowsImage.Shrink`: the `shrink querymax` command is sent with `rexec`'s default fatal mode, and would raise on a non-zero exit code. The model takes it never to raise: its output is given as `queryOutput`.
- `Windows`: the exact command strings, the boot token, registry edits, the password, UAC and firewall reverts in `finally`, and the pagefile removal are left out. They are foreign calls.
- `Windows`: `_disable_autologon`, the wait for shut-down, `vm.stop`, and the `shrunk` lines printed after the second diskpart command are left out.
- `Windows`: the `FatalError(...)` expressions that `shrink` builds but never raises are not failures. `int(None)` after a query with no answer raises `TypeError`, and the model reports it as `NoQueryMax`.
- `Windows`: `stdout.splitlines()` and guestfs `readdir`/`cat` are taken as given sequences of lines and files.
- `Windows.WindowsImage.BootAndRun`: the contract states the boot timeout and what a success implies. The full new state after the tasks is stated by `Windows.WindowsImage.ExecSysprepTasks`.
- `Windows.WindowsImage.DoSysprep`: the contract states the checks and what a success implies, not the full new state.
- `DialogMenu`: the dialog widgets are left out, and the user's answers are parameters. Running out of given answers counts as Cancel or Back.
- `DialogMenu`: the Help text box of `exclude_tasks`, the kamaki upload and registration, the registration form loop, and the cloud menus are left out. They are UI and network.
- `DialogMenu.TagIndex`: `int(tag)` is modelled on decimal digits only; Python also accepts surrounding whitespace and a sign. The `KeyError` of `mapping[...]` and the `ValueError` of `int` are one error, `UnknownTag`.
- `DialogMenu.CheckNameOk`: the error message of `add_property` lists digits among the allowed characters, but the regular expression rejects them. The model follows the regular expression.
- `Composite`: the members are identities, and what a member does with a call is out of view. The defaults of `new_line`, `msg` and `bar_type` are not modelled; the arguments are always passed.
- `Composite.CompositeProgress.constructor`: `_Progress` reaches its parent through an attribute the output framework sets. The model passes the parent in.
