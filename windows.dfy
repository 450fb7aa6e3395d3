/**
 * The sysprep rules of the Windows driver (`image_creator/os_type/windows`):
 * the libguestfs version gate, the order in which the enabled sysprep tasks
 * run, the KMS client key lookup, the diskpart `shrink querymax` parsing,
 * the connectivity retries, the VirtIO driver scan over the INF files and the
 * checks `do_sysprep` makes before it boots the helper VM.
 *
 * Remote execution on the helper VM (`vm.rexec`) and the guestfs calls are
 * foreign: what they reply is a parameter, and the commands sent to the VM
 * are recorded, in order, in `commands`.
 */
module Windows {
  import opened Base
  import opened Text

  // ------------------------------------------------------------ version gate

  /** A libguestfs version `major.minor.release`. */
  datatype Version = Version(major: nat, minor: nat, release: nat)

  /** `a` comes before `b` in the lexicographic order of versions. */
  predicate Older(a: Version, b: Version) {
    a.major < b.major
    || (a.major == b.major && a.minor < b.minor)
    || (a.major == b.major && a.minor == b.minor && a.release < b.release)
  }

  /**
   * `image.check_guestfs_version(major, minor, release)`: negative, zero or
   * positive as the installed version is older than, equal to or newer than
   * `wanted`.
   */
  function CheckGuestfsVersion(installed: Version, wanted: Version): (c: int)
    ensures c < 0 <==> Older(installed, wanted)
    ensures c == 0 <==> installed == wanted
  {
    if installed.major != wanted.major then (if installed.major < wanted.major then -1 else 1)
    else if installed.minor != wanted.minor then (if installed.minor < wanted.minor then -1 else 1)
    else if installed.release != wanted.release then (if installed.release < wanted.release then -1 else 1)
    else 0
  }

  /** The test in `Windows.__init__` that raises `FatalError`. */
  predicate GuestfsRejected(v: Version) {
    CheckGuestfsVersion(v, Version(1, 17, 18)) < 0
    && (CheckGuestfsVersion(v, Version(1, 17, 0)) >= 0 || CheckGuestfsVersion(v, Version(1, 16, 11)) < 0)
  }

  /** Windows is accepted from libguestfs 1.17.18 on, and on the 1.16 branch from 1.16.11 on. */
  lemma GuestfsGate(v: Version)
    ensures !GuestfsRejected(v)
        <==> !Older(v, Version(1, 17, 18)) || (v.major == 1 && v.minor == 16 && v.release >= 11)
  {
  }

  // ------------------------------------------------------------ errors and effects

  /** The exceptions the modelled code raises. */
  datatype WinError =
    | GuestfsTooOld                     // Windows.__init__: the version gate
    | NoSeparatorInAnswer(line: string) // shrink: `line.split(':')[1]` raises IndexError
    | NoQueryMax                        // shrink: `int(None)` raises TypeError
    | TaskFailed(task: string)          // a sysprep task's remote command failed
    | ConnectionFailed(retries: nat)    // _check_connectivity gave up
    | WinexeMissing                     // do_sysprep: winexe is not installed
    | AlreadySyspreped                  // do_sysprep: Microsoft sysprep already ran
    | MountFailed                       // do_sysprep: the media will not mount read-write
    | NoViostor                         // do_sysprep: no VirtIO SCSI driver installed
    | NoNetkvm                          // do_sysprep: no VirtIO network driver installed
    | BootTimedOut                      // do_sysprep: the helper VM did not boot in time

  /** A remote command sent to the helper VM, as far as the model tells them apart. */
  datatype Command =
    | RunTask(name: string)    // the remote work of a sysprep task
    | InstallKmsKey(key: string)
    | ShrinkQueryMax           // diskpart `shrink querymax`
    | ShrinkDesired(mb: nat)   // diskpart `shrink desired=<mb>`
    | Probe                    // the `cmd /C` connectivity probe
    | Shutdown

  /** Warnings printed through `out.warn`. */
  datatype Warning = UnknownKmsProduct(product: string) | NotEnoughSpace

  // ------------------------------------------------------------ task order

  const ShrinkTask := "shrink"
  const MicrosoftSysprepTask := "microsoft-sysprep"

  /** A sysprep task as `list_syspreps` lists it: its name and whether it is enabled. */
  datatype Task = Task(name: string, enabled: bool)

  function Names(tasks: seq<Task>): seq<string>
    decreases |tasks|
  {
    if tasks == [] then [] else Names(tasks[..|tasks| - 1]) + [Last(tasks).name]
  }

  /** `[task for task in tasks if task.enabled]`, by name. */
  function EnabledNames(tasks: seq<Task>): (r: seq<string>)
    ensures multiset(r) <= multiset(Names(tasks))
    decreases |tasks|
  {
    if tasks == [] then []
    else EnabledNames(tasks[..|tasks| - 1]) + (if Last(tasks).enabled then [Last(tasks).name] else [])
  }

  /** `[x for x in s if x != n]`. */
  function Without(s: seq<string>, n: string): (r: seq<string>)
    ensures multiset(r) == multiset(s)[n := 0]
    ensures |r| == |s| - multiset(s)[n]
    decreases |s|
  {
    if s == [] then []
    else
      assert s == s[..|s| - 1] + [Last(s)];
      Without(s[..|s| - 1], n) + (if Last(s) == n then [] else [Last(s)])
  }

  /** The two tasks `_exec_sysprep_tasks` moves to the end. */
  predicate IsSpecial(name: string) {
    name == ShrinkTask || name == MicrosoftSysprepTask
  }

  /** The tasks that are neither shrink nor Microsoft sysprep, in order. */
  function Others(s: seq<string>): seq<string>
    decreases |s|
  {
    if s == [] then []
    else Others(s[..|s| - 1]) + (if IsSpecial(Last(s)) then [] else [Last(s)])
  }

  /**
   * One filtering stage of `_exec_sysprep_tasks`: keep the tasks not named
   * `n`, then append `n` once if fewer than `size` tasks are left.
   */
  function MoveLast(s: seq<string>, n: string, size: nat): seq<string> {
    var kept := Without(s, n);
    if |kept| != size then kept + [n] else kept
  }

  /**
   * The run order `_exec_sysprep_tasks` builds: shrink is moved behind the
   * other enabled tasks, then Microsoft sysprep behind it; both stages compare
   * with `size`, the number of enabled tasks.
   */
  function SysprepOrder(tasks: seq<Task>): seq<string> {
    var enabled := EnabledNames(tasks);
    MoveLast(MoveLast(enabled, ShrinkTask, |enabled|), MicrosoftSysprepTask, |enabled|)
  }

  lemma {:induction false} OthersAppend(a: seq<string>, b: seq<string>)
    ensures Others(a + b) == Others(a) + Others(b)
    decreases |b|
  {
    if b != [] {
      assert (a + b)[..|a + b| - 1] == a + b[..|b| - 1];
      OthersAppend(a, b[..|b| - 1]);
    } else {
      assert a + b == a;
    }
  }

  lemma {:induction false} OthersWithout(s: seq<string>, n: string)
    requires IsSpecial(n)
    ensures Others(Without(s, n)) == Others(s)
    decreases |s|
  {
    if s != [] {
      var front := s[..|s| - 1];
      OthersWithout(front, n);
      OthersAppend(Without(front, n), if Last(s) == n then [] else [Last(s)]);
    }
  }

  /** Every name occurs at most once among the enabled tasks when task names are distinct. */
  lemma EnabledOnce(tasks: seq<Task>, n: string)
    requires Distinct(Names(tasks))
    ensures multiset(EnabledNames(tasks))[n] == if n in EnabledNames(tasks) then 1 else 0
  {
    DistinctCounts(Names(tasks));
    if n in EnabledNames(tasks) {
      assert n in multiset(Names(tasks));
    }
  }

  /** A stage moves a task that occurs at most once to the end. */
  lemma MoveLastShape(s: seq<string>, n: string)
    requires multiset(s)[n] <= 1
    ensures n in s ==> MoveLast(s, n, |s|) == Without(s, n) + [n]
    ensures n !in s ==> MoveLast(s, n, |s|) == Without(s, n)
  {
  }

  /** ... and so keeps the same tasks, as many of them as before. */
  lemma MoveLastSame(s: seq<string>, n: string)
    requires multiset(s)[n] <= 1
    ensures multiset(MoveLast(s, n, |s|)) == multiset(s)
    ensures |MoveLast(s, n, |s|)| == |s|
  {
    var kept := Without(s, n);
    MoveLastShape(s, n);
    if n in s {
      calc {
        multiset(kept + [n]);
        multiset(s)[n := 0] + multiset{n};
        { MultisetRestore(multiset(s), n); }
        multiset(s);
      }
    } else {
      assert multiset(s)[n := 0] == multiset(s);
    }
  }

  /** ... and leaves the other tasks in their order. */
  lemma MoveLastOthers(s: seq<string>, n: string)
    requires IsSpecial(n)
    ensures Others(MoveLast(s, n, |s|)) == Others(s)
  {
    var kept := Without(s, n);
    OthersWithout(s, n);
    if |kept| != |s| {
      OthersAppend(kept, [n]);
      assert Others([n]) == [];
      assert MoveLast(s, n, |s|) == kept + [n];
    } else {
      assert MoveLast(s, n, |s|) == kept;
    }
  }

  lemma MultisetRestore(m: multiset<string>, n: string)
    requires m[n] == 1
    ensures m[n := 0] + multiset{n} == m
  {
    forall x ensures (m[n := 0] + multiset{n})[x] == m[x] {
    }
  }

  lemma WithoutKeepsLast(s: seq<string>, n: string)
    requires s != [] && Last(s) != n
    ensures Without(s, n) != [] && Last(Without(s, n)) == Last(s)
  {
  }

  /** `_exec_sysprep_tasks` runs exactly the enabled tasks, `size` of them. */
  lemma SysprepOrderSame(tasks: seq<Task>)
    requires Distinct(Names(tasks))
    ensures multiset(SysprepOrder(tasks)) == multiset(EnabledNames(tasks))
    ensures |SysprepOrder(tasks)| == |EnabledNames(tasks)|
  {
    var enabled := EnabledNames(tasks);
    EnabledOnce(tasks, ShrinkTask);
    EnabledOnce(tasks, MicrosoftSysprepTask);
    var staged := MoveLast(enabled, ShrinkTask, |enabled|);
    MoveLastSame(enabled, ShrinkTask);
    assert multiset(staged)[MicrosoftSysprepTask] == multiset(enabled)[MicrosoftSysprepTask];
    MoveLastSame(staged, MicrosoftSysprepTask);
  }

  /** The tasks other than shrink and Microsoft sysprep run in the order they are listed. */
  lemma SysprepOrderOthers(tasks: seq<Task>)
    ensures Others(SysprepOrder(tasks)) == Others(EnabledNames(tasks))
  {
    var enabled := EnabledNames(tasks);
    MoveLastOthers(enabled, ShrinkTask);
    MoveLastOthers(MoveLast(enabled, ShrinkTask, |enabled|), MicrosoftSysprepTask);
  }

  /** A task moved to the end is last. */
  lemma MoveLastLast(s: seq<string>, n: string)
    requires multiset(s)[n] <= 1 && n in s
    ensures MoveLast(s, n, |s|) != [] && Last(MoveLast(s, n, |s|)) == n
  {
    MoveLastShape(s, n);
  }

  /** Moving another task to the end puts it just after the former last one. */
  lemma MoveLastKeepsLast(s: seq<string>, n: string)
    requires multiset(s)[n] <= 1 && s != [] && Last(s) != n
    ensures var m := MoveLast(s, n, |s|);
      && (n in s ==> |m| >= 2 && m[|m| - 2] == Last(s))
      && (n !in s ==> m != [] && Last(m) == Last(s))
  {
    MoveLastShape(s, n);
    WithoutKeepsLast(s, n);
  }

  /** After the first stage shrink, if enabled, is last, and Microsoft sysprep is still there at most once. */
  lemma ShrinkStage(tasks: seq<Task>)
    requires Distinct(Names(tasks))
    ensures var enabled := EnabledNames(tasks);
      var staged := MoveLast(enabled, ShrinkTask, |enabled|);
      && |staged| == |enabled|
      && multiset(staged)[MicrosoftSysprepTask] <= 1
      && (MicrosoftSysprepTask in staged <==> MicrosoftSysprepTask in enabled)
      && (ShrinkTask in enabled ==> staged != [] && Last(staged) == ShrinkTask)
  {
    var enabled := EnabledNames(tasks);
    EnabledOnce(tasks, ShrinkTask);
    EnabledOnce(tasks, MicrosoftSysprepTask);
    var staged := MoveLast(enabled, ShrinkTask, |enabled|);
    MoveLastSame(enabled, ShrinkTask);
    assert multiset(staged)[MicrosoftSysprepTask] == multiset(enabled)[MicrosoftSysprepTask];
    if ShrinkTask in enabled {
      MoveLastLast(enabled, ShrinkTask);
    }
  }

  /** Microsoft sysprep, when enabled, runs last. */
  lemma SysprepOrderMsLast(tasks: seq<Task>)
    requires Distinct(Names(tasks))
    ensures MicrosoftSysprepTask in EnabledNames(tasks) ==>
      SysprepOrder(tasks) != [] && Last(SysprepOrder(tasks)) == MicrosoftSysprepTask
  {
    var enabled := EnabledNames(tasks);
    ShrinkStage(tasks);
    if MicrosoftSysprepTask in enabled {
      MoveLastLast(MoveLast(enabled, ShrinkTask, |enabled|), MicrosoftSysprepTask);
    }
  }

  /** Shrink, when enabled, runs after all the other tasks but Microsoft sysprep. */
  lemma SysprepOrderShrink(tasks: seq<Task>)
    requires Distinct(Names(tasks))
    ensures ShrinkTask in EnabledNames(tasks) ==>
      var order := SysprepOrder(tasks);
      var i := |order| - (if MicrosoftSysprepTask in EnabledNames(tasks) then 2 else 1);
      0 <= i < |order| && order[i] == ShrinkTask
  {
    var enabled := EnabledNames(tasks);
    ShrinkStage(tasks);
    if ShrinkTask in enabled {
      MoveLastKeepsLast(MoveLast(enabled, ShrinkTask, |enabled|), MicrosoftSysprepTask);
    }
  }

  // ------------------------------------------------------------ KMS client setup

  /** `KMS_CLIENT_SETUP_KEYS`: the KMS client setup key of each Windows edition, by product name. */
  const KmsClientSetupKeys: map<string, string> := map[
      "Windows 8.1 Professional" := "GCRJD-8NW9H-F2CDX-CCM8D-9D6T9",
      "Windows 8.1 Professional N" := "HMCNV-VVBFX-7HMBH-CTY9B-B4FXY",
      "Windows 8.1 Enterprise" := "MHF9N-XY6XB-WVXMC-BTDCT-MKKG7",
      "Windows 8.1 Enterprise N" := "TT4HM-HN7YT-62K67-RGRQJ-JFFXW",
      "Windows Server 2012 R2 Server Standard" := "D2N9P-3P6X9-2R39C-7RTCD-MDVJX",
      "Windows Server 2012 R2 Datacenter" := "W3GGN-FT8W3-Y4M27-J84CP-Q3VJ9",
      "Windows Server 2012 R2 Essentials" := "KNC87-3J2TX-XB4WP-VCPJV-M4FWM",
      "Windows 8 Professional" := "NG4HW-VH26C-733KW-K6F98-J8CK4",
      "Windows 8 Professional N" := "XCVCF-2NXM9-723PB-MHCB7-2RYQQ",
      "Windows 8 Enterprise" := "32JNW-9KQ84-P47T8-D8GGY-CWCK7",
      "Windows 8 Enterprise N" := "JMNMF-RHW7P-DMY6X-RF3DR-X2BQT",
      "Windows Server 2012 Core" := "BN3D2-R7TKB-3YPBD-8DRP2-27GG4",
      "Windows Server 2012 Core N" := "8N2M2-HWPGY-7PGT9-HGDD8-GVGGY",
      "Windows Server 2012 Core Single Language" := "2WN2H-YGCQR-KFX6K-CD6TF-84YXQ",
      "Windows Server 2012 Core Country Specific" := "4K36P-JN4VD-GDC6V-KDT89-DYFKP",
      "Windows Server 2012 Server Standard" := "XC9B7-NBPP2-83J2H-RHMBY-92BT4",
      "Windows Server 2012 Standard Core" := "XC9B7-NBPP2-83J2H-RHMBY-92BT4",
      "Windows Server 2012 MultiPoint Standard" := "HM7DN-YVMH3-46JC3-XYTG7-CYQJJ",
      "Windows Server 2012 MultiPoint Premium" := "XNH6W-2V9GX-RGJ4K-Y8X6F-QGJ2G",
      "Windows Server 2012 Datacenter" := "48HP8-DN98B-MYWDG-T2DCC-8W83P",
      "Windows Server 2012 Datacenter Core" := "48HP8-DN98B-MYWDG-T2DCC-8W83P",
      "Windows 7 Professional" := "FJ82H-XT6CR-J8D7P-XQJJ2-GPDD4",
      "Windows 7 Professional N" := "MRPKT-YTG23-K7D7T-X2JMM-QY7MG",
      "Windows 7 Professional E" := "W82YF-2Q76Y-63HXB-FGJG9-GF7QX",
      "Windows 7 Enterprise" := "33PXH-7Y6KF-2VJC9-XBBR8-HVTHH",
      "Windows 7 Enterprise N" := "YDRBP-3D83W-TY26F-D46B2-XCKRJ",
      "Windows 7 Enterprise E" := "C29WB-22CC8-VJ326-GHFJW-H9DH4",
      "Windows Server 2008 R2 Web" := "6TPJF-RBVHG-WBW2R-86QPH-6RTM4",
      "Windows Server 2008 R2 HPC edition" := "TT8MH-CG224-D3D7Q-498W2-9QCTX",
      "Windows Server 2008 R2 Standard" := "YC6KT-GKW9T-YTKYR-T4X34-R7VHC",
      "Windows Server 2008 R2 Enterprise" := "489J6-VHDMP-X63PK-3K798-CPX3Y",
      "Windows Server 2008 R2 Datacenter" := "74YFP-3QFB3-KQT8W-PMXWJ-7M648",
      "Windows Server 2008 R2 for Itanium-based Systems" := "GT63C-RJFQ3-4GMB6-BRFB9-CB83V",
      "Windows Vista Business" := "YFKBB-PQJJV-G996G-VWGXY-2V3X8",
      "Windows Vista Business N" := "HMBQG-8H2RH-C77VX-27R82-VMQBT",
      "Windows Vista Enterprise" := "VKK3X-68KWM-X2YGT-QR4M6-4BWMV",
      "Windows Vista Enterprise N" := "VTC42-BM838-43QHV-84HX6-XJXKV",
      "Windows Web Server 2008" := "WYR28-R7TFJ-3X2YQ-YCY4H-M249D",
      "Windows Server 2008 Standard" := "TM24T-X9RMF-VWXK6-X8JC9-BFGM2",
      "Windows Server 2008 Standard without Hyper-V" := "W7VD6-7JFBR-RX26B-YKQ3Y-6FFFJ",
      "Windows Server 2008 Enterprise" := "YQGMW-MPWTJ-34KDK-48M3W-X4Q6V",
      "Windows Server 2008 Enterprise without Hyper-V" := "39BXF-X8Q23-P2WWT-38T2F-G3FPG",
      "Windows Server 2008 HPC" := "RCTX3-KWVHP-BR6TB-RB6DM-6X7HP",
      "Windows Server 2008 Datacenter" := "7M67G-PC374-GR742-YH8V4-TCBY3",
      "Windows Server 2008 Datacenter without Hyper-V" := "22XQ2-VRXRG-P8D42-K34TD-G3QQC",
      "Windows Server 2008 for Itanium-Based Systems" := "4DWFP-JF3DJ-B7DTH-78FJB-PDRHK"
    ]

  // ------------------------------------------------------------ shrink querymax

  /** The end of the run of digits that starts at `i` (`i` itself when `s[i]` is no digit). */
  function DigitRunEnd(s: string, i: nat): (k: nat)
    requires i <= |s|
    ensures i <= k <= |s| && (k == |s| || !IsDigit(s[k]))
    ensures forall j | i <= j < k :: IsDigit(s[j])
    decreases |s| - i
  {
    if i < |s| && IsDigit(s[i]) then DigitRunEnd(s, i + 1) else i
  }

  /**
   * The pattern `(\d+) MB` matches at position `i`. The greedy `\d+` can only
   * give back digits, and a digit is never the space that must follow it, so
   * a match captures the whole run of digits that starts at `i`.
   */
  predicate MbMatchAt(s: string, i: nat) {
    i < |s| && IsDigit(s[i])
    && var k := DigitRunEnd(s, i);
    k + 3 <= |s| && s[k..k + 3] == " MB"
  }

  /** `re.search('(\d+) MB', s[i:])`: group 1 of the leftmost match from `i` on. */
  function SearchMbFrom(s: string, i: nat): (r: Option<string>)
    requires i <= |s|
    ensures r.Some? ==> r.value != [] && AllDigits(r.value)
    decreases |s| - i
  {
    if i == |s| then None
    else if MbMatchAt(s, i) then Some(s[i..DigitRunEnd(s, i)])
    else SearchMbFrom(s, i + 1)
  }

  function SearchMb(s: string): (r: Option<string>)
    ensures r.Some? ==> r.value != [] && AllDigits(r.value)
  {
    SearchMbFrom(s, 0)
  }

  /** The search from `i` finds the first match at or after `i`. */
  lemma {:induction false} SearchMbFinds(s: string, i: nat) returns (j: nat)
    requires i <= |s| && SearchMbFrom(s, i).Some?
    ensures i <= j < |s| && MbMatchAt(s, j)
    ensures SearchMbFrom(s, i).value == s[j..DigitRunEnd(s, j)]
    ensures forall j' | i <= j' < j :: !MbMatchAt(s, j')
    decreases |s| - i
  {
    if MbMatchAt(s, i) {
      j := i;
    } else {
      j := SearchMbFinds(s, i + 1);
    }
  }

  /** The search from `i` fails only when nothing at or after `i` matches. */
  lemma {:induction false} SearchMbMisses(s: string, i: nat)
    requires i <= |s|
    ensures SearchMbFrom(s, i).None? <==> forall j | i <= j < |s| :: !MbMatchAt(s, j)
    decreases |s| - i
  {
    if i < |s| {
      SearchMbMisses(s, i + 1);
    }
  }

  /**
   * `re.search('(\d+) MB', s).group(1)` is the first number in `s` written
   * right before " MB", taken whole: no digit precedes it.
   */
  lemma SearchMbNumber(s: string) returns (j: nat)
    requires SearchMb(s).Some?
    ensures OccursAt(s, SearchMb(s).value + " MB", j)
    ensures j == 0 || !IsDigit(s[j - 1])
    ensures forall j' | 0 <= j' < j :: !MbMatchAt(s, j')
  {
    j := SearchMbFinds(s, 0);
    var k := DigitRunEnd(s, j);
    assert s[j..k + 3] == s[j..k] + s[k..k + 3];
    if j > 0 && IsDigit(s[j - 1]) {
      assert DigitRunEnd(s, j - 1) == k;
      assert MbMatchAt(s, j - 1);
      assert false;
    }
  }

  /** What diskpart printed after the ':' of a line: `line.split(':')[1].strip()`. */
  function AnswerOf(line: string): string
    requires ':' in line
  {
    Strip(Split(line, ':')[1])
  }

  /** One pass of the `shrink` loop over the `shrink querymax` output. */
  function QueryMaxStep(querymax: Option<string>, line: string): Result<Option<string>, WinError> {
    if !Contains(line, "reclaimable") then Ok(querymax)
    else if ':' !in line then Err(NoSeparatorInAnswer(line))
    else match SearchMb(AnswerOf(line))
      case Some(number) => Ok(Some(number))
      case None => Ok(querymax)  // the FatalError built here is never raised
  }

  /** The value of `querymax` after the loop over `lines`, or the exception the loop raises. */
  function QueryMaxOf(lines: seq<string>): (r: Result<Option<string>, WinError>)
    ensures r.Ok? && r.value.Some? ==> AllDigits(r.value.value)
    decreases |lines|
  {
    if lines == [] then Ok(None)
    else match QueryMaxOf(lines[..|lines| - 1])
      case Err(e) => Err(e)
      case Ok(q) => QueryMaxStep(q, Last(lines))
  }

  /** A line sets `querymax`: it mentions `reclaimable` and its answer holds `<n> MB`. */
  predicate SetsQueryMax(line: string) {
    Contains(line, "reclaimable") && ':' in line && SearchMb(AnswerOf(line)).Some?
  }

  /** A line makes the loop raise: it mentions `reclaimable` but has no ':'. */
  predicate Malformed(line: string) {
    Contains(line, "reclaimable") && ':' !in line
  }

  /** The loop raises exactly when some line is malformed, and then on the first of them. */
  lemma {:induction false} QueryMaxRaises(lines: seq<string>)
    ensures QueryMaxOf(lines).Err? <==> exists j | 0 <= j < |lines| :: Malformed(lines[j])
    decreases |lines|
  {
    if lines != [] {
      var front := lines[..|lines| - 1];
      QueryMaxRaises(front);
      if exists j | 0 <= j < |front| :: Malformed(front[j]) {
        var j :| 0 <= j < |front| && Malformed(front[j]);
        assert Malformed(lines[j]);
      }
      if exists j | 0 <= j < |lines| :: Malformed(lines[j]) {
        var j :| 0 <= j < |lines| && Malformed(lines[j]);
        if j < |front| {
          assert Malformed(front[j]);
        }
      }
    }
  }

  /** No line after `i` sets `querymax` when none after `i` in the front does and the last line does not. */
  lemma LastAfter(lines: seq<string>, front: seq<string>, i: nat)
    requires lines != [] && front == lines[..|lines| - 1] && i < |front|
    requires forall j | i < j < |front| :: !SetsQueryMax(front[j])
    requires !SetsQueryMax(Last(lines))
    ensures forall j | i < j < |lines| :: !SetsQueryMax(lines[j])
  {
    forall j | i < j < |lines| ensures !SetsQueryMax(lines[j]) {
      if j < |front| {
        assert lines[j] == front[j];
      }
    }
  }

  lemma FrontIndices(lines: seq<string>)
    requires lines != []
    ensures forall j | 0 <= j < |lines| - 1 :: lines[..|lines| - 1][j] == lines[j]
  {
  }

  /** How the last line of a loop that did not raise decides `querymax`. */
  lemma QueryMaxSnoc(lines: seq<string>)
    requires lines != [] && QueryMaxOf(lines).Ok?
    ensures QueryMaxOf(lines[..|lines| - 1]).Ok?
    ensures !SetsQueryMax(Last(lines)) ==> QueryMaxOf(lines) == QueryMaxOf(lines[..|lines| - 1])
    ensures SetsQueryMax(Last(lines)) ==> QueryMaxOf(lines) == Ok(SearchMb(AnswerOf(Last(lines))))
  {
  }

  /** Without an exception, `querymax` holds the number of the last line that sets it. */
  lemma {:induction false} QueryMaxIsLast(lines: seq<string>) returns (i: nat)
    requires QueryMaxOf(lines).Ok? && QueryMaxOf(lines).value.Some?
    ensures i < |lines| && SetsQueryMax(lines[i])
    ensures QueryMaxOf(lines).value.value == SearchMb(AnswerOf(lines[i])).value
    ensures forall j | i < j < |lines| :: !SetsQueryMax(lines[j])
    decreases |lines|
  {
    var front := lines[..|lines| - 1];
    QueryMaxSnoc(lines);
    if SetsQueryMax(Last(lines)) {
      i := |lines| - 1;
    } else {
      i := QueryMaxIsLast(front);
      LastAfter(lines, front, i);
    }
  }

  /** Without an exception, `querymax` stays `None` exactly when no line sets it. */
  lemma {:induction false} QueryMaxNone(lines: seq<string>)
    requires QueryMaxOf(lines).Ok?
    ensures QueryMaxOf(lines).value.None? <==> forall j | 0 <= j < |lines| :: !SetsQueryMax(lines[j])
    decreases |lines|
  {
    if lines != [] {
      var front := lines[..|lines| - 1];
      QueryMaxSnoc(lines);
      QueryMaxNone(front);
      FrontIndices(lines);
    }
  }

  /** The loop of `shrink` over the output lines of `shrink querymax`. */
  method QueryMax(lines: seq<string>) returns (r: Result<Option<string>, WinError>)
    ensures r == QueryMaxOf(lines)
  {
    var querymax: Option<string> := None;
    var i := 0;
    while i < |lines|
      invariant i <= |lines| && QueryMaxOf(lines[..i]) == Ok(querymax)
    {
      var line := lines[i];
      QueryMaxPrefix(lines, i);
      if Contains(line, "reclaimable") {
        if ':' !in line {
          QueryMaxRaisesOn(lines, i);
          return Err(NoSeparatorInAnswer(line));
        }
        var m := SearchMb(AnswerOf(line));
        if m.Some? {
          querymax := m;
        }
      }
      i := i + 1;
    }
    assert lines[..i] == lines;
    return Ok(querymax);
  }

  /** The loop over the first `i + 1` lines is the loop over the first `i` and one more pass. */
  lemma QueryMaxPrefix(lines: seq<string>, i: nat)
    requires i < |lines|
    ensures QueryMaxOf(lines[..i + 1]) ==
      match QueryMaxOf(lines[..i])
      case Err(e) => Err(e)
      case Ok(q) => QueryMaxStep(q, lines[i])
  {
    assert lines[..i + 1][..i] == lines[..i];
  }

  /** Once the loop has raised on line `i`, the later lines change nothing. */
  lemma {:induction false} QueryMaxRaisesOn(lines: seq<string>, i: nat)
    requires i < |lines| && QueryMaxOf(lines[..i]).Ok? && Malformed(lines[i])
    ensures QueryMaxOf(lines) == Err(NoSeparatorInAnswer(lines[i]))
    decreases |lines|
  {
    if i < |lines| - 1 {
      var front := lines[..|lines| - 1];
      assert front[..i] == lines[..i];
      QueryMaxRaisesOn(front, i);
    } else {
      assert lines[..|lines| - 1] == lines[..i];
    }
  }

  /**
   * What `shrink` asks diskpart to reclaim: the queried maximum less a 100 MB
   * margin, `None` when that is negative, or the exception of the query.
   */
  function ShrinkTarget(lines: seq<string>): Result<Option<nat>, WinError> {
    match QueryMaxOf(lines)
    case Err(e) => Err(e)
    case Ok(None) => Err(NoQueryMax)
    case Ok(Some(number)) =>
      var mb := ParseNat(number) - 100;
      if mb < 0 then Ok(None) else Ok(Some(mb))
  }

  /**
   * `shrink` asks for the number on the last line that sets `querymax`, less
   * 100 MB, and asks for nothing when fewer than 100 MB are reclaimable.
   */
  lemma ShrinkTargetSpec(lines: seq<string>) returns (i: nat)
    requires ShrinkTarget(lines).Ok?
    ensures i < |lines| && SetsQueryMax(lines[i])
    ensures forall j | i < j < |lines| :: !SetsQueryMax(lines[j])
    ensures var number := ParseNat(SearchMb(AnswerOf(lines[i])).value);
      match ShrinkTarget(lines)
      case Ok(None) => number < 100
      case Ok(Some(mb)) => mb + 100 == number
  {
    i := QueryMaxIsLast(lines);
  }

  // ------------------------------------------------------------ VirtIO drivers

  /** What `^\s*` consumes: `s` without its leading whitespace. */
  function DropSpaces(s: string): (r: string)
    ensures |r| <= |s|
    decreases |s|
  {
    if s != [] && IsSpace(s[0]) then DropSpaces(s[1..]) else s
  }

  lemma {:induction false} DropSpacesSuffix(s: string) returns (k: nat)
    ensures k <= |s| && DropSpaces(s) == s[k..]
    decreases |s|
  {
    if s != [] && IsSpace(s[0]) {
      var k' := DropSpacesSuffix(s[1..]);
      k := k' + 1;
      assert s[1..][k'..] == s[k..];
    } else {
      k := 0;
    }
  }

  /** `re.match(r'^\s*<key>\s*=', line)`: the key after optional blanks, then optional blanks and '='. */
  predicate IsEntry(line: string, key: string) {
    var t := DropSpaces(line);
    StartsWith(t, key) && var u := DropSpaces(t[|key|..]); u != [] && u[0] == '='
  }

  lemma EntryHasEquals(line: string, key: string)
    requires IsEntry(line, key)
    ensures '=' in line
  {
    var k := DropSpacesSuffix(line);
    var t := line[k..];
    var k' := DropSpacesSuffix(t[|key|..]);
    assert line[k + |key| + k'] == '=';
  }

  /** A line cannot be both a `CatalogFile` and a `DriverVer` entry. */
  lemma EntriesDiffer(line: string)
    ensures !(IsEntry(line, "CatalogFile") && IsEntry(line, "DriverVer"))
  {
  }

  /** The value of an entry: `line.split("=")[1].strip()`. */
  function EntryValue(line: string): string
    requires '=' in line
  {
    Strip(Split(line, '=')[1])
  }

  /** What `examine_inf` reads from one INF file. */
  datatype InfFields = InfFields(catalogFile: Option<string>, driverVer: Option<string>)

  /** The fields after the loop of `examine_inf` over `lines`: the last entry of each kind wins. */
  function InfFieldsOf(lines: seq<string>): InfFields
    decreases |lines|
  {
    if lines == [] then InfFields(None, None) else InfStep(InfFieldsOf(lines[..|lines| - 1]), Last(lines))
  }

  /** One pass of the loop of `examine_inf`: a `CatalogFile` entry, else a `DriverVer` entry, sets its field. */
  function InfStep(f: InfFields, line: string): InfFields {
    if IsEntry(line, "CatalogFile") then
      EntryHasEquals(line, "CatalogFile");
      f.(catalogFile := Some(Lower(EntryValue(line))))
    else if IsEntry(line, "DriverVer") then
      EntryHasEquals(line, "DriverVer");
      f.(driverVer := Some(EntryValue(line)))
    else f
  }

  lemma InfStepCatalog(f: InfFields, line: string)
    requires IsEntry(line, "CatalogFile")
    ensures '=' in line && InfStep(f, line) == f.(catalogFile := Some(Lower(EntryValue(line))))
  {
    EntryHasEquals(line, "CatalogFile");
  }

  lemma InfStepDriverVer(f: InfFields, line: string)
    requires !IsEntry(line, "CatalogFile") && IsEntry(line, "DriverVer")
    ensures '=' in line && InfStep(f, line) == f.(driverVer := Some(EntryValue(line)))
  {
    EntryHasEquals(line, "DriverVer");
  }

  lemma InfFieldsPrefix(lines: seq<string>, i: nat)
    requires i < |lines|
    ensures InfFieldsOf(lines[..i + 1]) == InfStep(InfFieldsOf(lines[..i]), lines[i])
  {
    assert lines[..i + 1][..i] == lines[..i];
  }

  lemma NoEntryAfter(lines: seq<string>, front: seq<string>, i: nat, key: string)
    requires lines != [] && front == lines[..|lines| - 1] && i < |front|
    requires forall j | i < j < |front| :: !IsEntry(front[j], key)
    requires !IsEntry(Last(lines), key)
    ensures forall j | i < j < |lines| :: !IsEntry(lines[j], key)
  {
    forall j | i < j < |lines| ensures !IsEntry(lines[j], key) {
      if j < |front| {
        assert lines[j] == front[j];
      }
    }
  }

  /** The catalog file is unset exactly when no line is a `CatalogFile` entry. */
  lemma {:induction false} CatalogUnset(lines: seq<string>)
    ensures InfFieldsOf(lines).catalogFile.None? <==> forall j | 0 <= j < |lines| :: !IsEntry(lines[j], "CatalogFile")
    decreases |lines|
  {
    if lines != [] {
      var front := lines[..|lines| - 1];
      CatalogUnset(front);
      FrontIndices(lines);
    }
  }

  /** The catalog file is the lower-cased value of the last `CatalogFile` entry. */
  lemma {:induction false} CatalogIsLastEntry(lines: seq<string>) returns (i: nat)
    requires InfFieldsOf(lines).catalogFile.Some?
    ensures i < |lines| && IsEntry(lines[i], "CatalogFile") && '=' in lines[i]
    ensures InfFieldsOf(lines).catalogFile.value == Lower(EntryValue(lines[i]))
    ensures forall j | i < j < |lines| :: !IsEntry(lines[j], "CatalogFile")
    decreases |lines|
  {
    var front := lines[..|lines| - 1];
    if IsEntry(Last(lines), "CatalogFile") {
      i := |lines| - 1;
      EntryHasEquals(lines[i], "CatalogFile");
    } else {
      assert InfFieldsOf(lines).catalogFile == InfFieldsOf(front).catalogFile;
      i := CatalogIsLastEntry(front);
      NoEntryAfter(lines, front, i, "CatalogFile");
    }
  }

  /** The driver version is unset exactly when no line is a `DriverVer` entry. */
  lemma {:induction false} DriverVerUnset(lines: seq<string>)
    ensures InfFieldsOf(lines).driverVer.None? <==> forall j | 0 <= j < |lines| :: !IsEntry(lines[j], "DriverVer")
    decreases |lines|
  {
    if lines != [] {
      var front := lines[..|lines| - 1];
      DriverVerUnset(front);
      EntriesDiffer(Last(lines));
      FrontIndices(lines);
    }
  }

  /** The driver version is the value of the last `DriverVer` entry. */
  lemma {:induction false} DriverVerIsLastEntry(lines: seq<string>) returns (i: nat)
    requires InfFieldsOf(lines).driverVer.Some?
    ensures i < |lines| && IsEntry(lines[i], "DriverVer") && '=' in lines[i]
    ensures InfFieldsOf(lines).driverVer.value == EntryValue(lines[i])
    ensures forall j | i < j < |lines| :: !IsEntry(lines[j], "DriverVer")
    decreases |lines|
  {
    var front := lines[..|lines| - 1];
    EntriesDiffer(Last(lines));
    if IsEntry(Last(lines), "DriverVer") {
      i := |lines| - 1;
      EntryHasEquals(lines[i], "DriverVer");
    } else {
      assert InfFieldsOf(lines).driverVer == InfFieldsOf(front).driverVer;
      i := DriverVerIsLastEntry(front);
      NoEntryAfter(lines, front, i, "DriverVer");
    }
  }

  /** `examine_inf`'s loop over the lines of one INF file. */
  method ExamineInf(lines: seq<string>) returns (fields: InfFields)
    ensures fields == InfFieldsOf(lines)
  {
    var catalogFile: Option<string> := None;
    var driverVer: Option<string> := None;
    var i := 0;
    while i < |lines|
      invariant i <= |lines| && InfFieldsOf(lines[..i]) == InfFields(catalogFile, driverVer)
    {
      var line := lines[i];
      InfFieldsPrefix(lines, i);
      if IsEntry(line, "CatalogFile") {
        InfStepCatalog(InfFields(catalogFile, driverVer), line);
        catalogFile := Some(Lower(EntryValue(line)));
      } else if IsEntry(line, "DriverVer") {
        InfStepDriverVer(InfFields(catalogFile, driverVer), line);
        driverVer := Some(EntryValue(line));
      }
      i := i + 1;
    }
    assert lines[..i] == lines;
    fields := InfFields(catalogFile, driverVer);
  }

  /** `re.match(r'^oem\d+\.inf', name, flags=re.IGNORECASE)`: the name only has to start that way. */
  predicate IsOemInf(name: string) {
    |name| > 3 && Lower(name[..3]) == "oem" && IsDigit(name[3])
    && var k := DigitRunEnd(name, 3);
    k + 4 <= |name| && Lower(name[k..k + 4]) == ".inf"
  }

  /** The keys of the `virtio` dictionary of `_virtio_state`. */
  const VirtioDrivers: seq<string> := ["viostor", "vioscsi", "vioser", "netkvm", "balloon"]

  /** A file of the `inf` directory, in `readdir` order, with its lines. */
  datatype InfFile = InfFile(name: string, lines: seq<string>)

  /** An installed driver: the INF file name and its `DriverVer`, if any. */
  type Installed = (string, Option<string>)

  /** The INF file `f` registers `driver`: it is an OEM INF whose catalog file is `<driver>.cat`. */
  predicate Installs(f: InfFile, driver: string) {
    IsOemInf(f.name) && InfFieldsOf(f.lines).catalogFile == Some(driver + ".cat")
  }

  /** The `virtio` dictionary after `_virtio_state` has examined `files`. */
  function VirtioOf(files: seq<InfFile>): (virtio: map<string, seq<Installed>>)
    ensures forall d | d in VirtioDrivers :: d in virtio
    decreases |files|
  {
    if files == [] then map d | d in VirtioDrivers :: []
    else
      var virtio := VirtioOf(files[..|files| - 1]);
      var f := Last(files);
      if !IsOemInf(f.name) then virtio
      else
        var fields := InfFieldsOf(f.lines);
        map d | d in virtio ::
          if fields.catalogFile == Some(d + ".cat") then virtio[d] + [(f.name, fields.driverVer)] else virtio[d]
  }

  /** The last file adds itself to the list of the driver it installs, and to no other. */
  lemma VirtioStep(files: seq<InfFile>, driver: string)
    requires files != [] && driver in VirtioDrivers
    ensures VirtioOf(files)[driver] == VirtioOf(files[..|files| - 1])[driver]
      + (if Installs(Last(files), driver) then [(Last(files).name, InfFieldsOf(Last(files).lines).driverVer)] else [])
  {
    var f := Last(files);
    if !IsOemInf(f.name) {
      assert !Installs(f, driver);
    }
  }

  /** `e` is what some file of `files` that installs `driver` files under it. */
  predicate Listed(files: seq<InfFile>, driver: string, e: Installed) {
    exists f | f in files :: Installs(f, driver) && e == (f.name, InfFieldsOf(f.lines).driverVer)
  }

  lemma ListedSnoc(files: seq<InfFile>, driver: string, e: Installed)
    requires files != []
    ensures Listed(files, driver, e) <==>
      Listed(files[..|files| - 1], driver, e)
      || (Installs(Last(files), driver) && e == (Last(files).name, InfFieldsOf(Last(files).lines).driverVer))
  {
    var front := files[..|files| - 1];
    assert files == front + [Last(files)];
    if Listed(files, driver, e) {
      var f :| f in files && Installs(f, driver) && e == (f.name, InfFieldsOf(f.lines).driverVer);
      if f != Last(files) {
        assert f in front;
      }
    }
  }

  /**
   * Every driver's list holds exactly the OEM INF files whose catalog file is
   * `<driver>.cat`, each with its driver version.
   */
  lemma {:induction false} VirtioOfSpec(files: seq<InfFile>, driver: string, e: Installed)
    requires driver in VirtioDrivers
    ensures e in VirtioOf(files)[driver] <==> Listed(files, driver, e)
    decreases |files|
  {
    if files != [] {
      VirtioOfSpec(files[..|files| - 1], driver, e);
      VirtioStep(files, driver);
      ListedSnoc(files, driver, e);
    }
  }

  /** No driver of a kind is installed exactly when its list is empty. */
  lemma NoDriver(files: seq<InfFile>, driver: string)
    requires driver in VirtioDrivers
    ensures driver in VirtioOf(files)
    ensures |VirtioOf(files)[driver]| == 0 <==> forall f | f in files :: !Installs(f, driver)
  {
    if |VirtioOf(files)[driver]| != 0 {
      var e := VirtioOf(files)[driver][0];
      VirtioOfSpec(files, driver, e);
      assert e in VirtioOf(files)[driver];
    } else {
      forall f | f in files ensures !Installs(f, driver) {
        var e := (f.name, InfFieldsOf(f.lines).driverVer);
        VirtioOfSpec(files, driver, e);
        assert e !in VirtioOf(files)[driver];
      }
    }
  }

  /** `_virtio_state`: scan the `inf` directory and file each OEM INF under its driver. */
  method VirtioState(files: seq<InfFile>) returns (virtio: map<string, seq<Installed>>)
    ensures virtio == VirtioOf(files)
  {
    virtio := map d | d in VirtioDrivers :: [];
    var i := 0;
    while i < |files|
      invariant i <= |files| && virtio == VirtioOf(files[..i])
    {
      var f := files[i];
      assert files[..i + 1][..i] == files[..i];
      if IsOemInf(f.name) {
        var fields := ExamineInf(f.lines);
        virtio := map d | d in virtio ::
          if fields.catalogFile == Some(d + ".cat") then virtio[d] + [(f.name, fields.driverVer)] else virtio[d];
      }
      i := i + 1;
    }
    assert files[..i] == files;
  }

  // ------------------------------------------------------------ connectivity

  /** The first attempt from `i` on, below `retries`, whose probe returns 0; `retries` if none does. */
  function FirstReply(i: nat, retries: nat, rc: nat -> int): (k: nat)
    requires i <= retries
    ensures i <= k <= retries
    ensures forall j | i <= j < k :: rc(j) != 0
    ensures k < retries ==> rc(k) == 0
    decreases retries - i
  {
    if i == retries then retries
    else if rc(i) == 0 then i
    else FirstReply(i + 1, retries, rc)
  }

  /** How many probes `_check_connectivity` sends. */
  function ProbeCount(retries: nat, rc: nat -> int): nat {
    var k := FirstReply(0, retries, rc);
    if k < retries then k + 1 else retries
  }

  /** `n` connectivity probes. */
  function Probes(n: nat): seq<Command>
    decreases n
  {
    if n == 0 then [] else Probes(n - 1) + [Probe]
  }

  /**
   * `_check_connectivity` never sends more than `retries` probes, none when
   * `retries` is 0, and it succeeds exactly when `retries` is 0 or one of the
   * probes returns 0, which is then the last one sent.
   */
  lemma ConnectivityBound(retries: nat, rc: nat -> int)
    ensures ProbeCount(retries, rc) <= retries
    ensures retries == 0 ==> ProbeCount(retries, rc) == 0
    ensures FirstReply(0, retries, rc) < retries <==> exists i | 0 <= i < retries :: rc(i) == 0
    ensures FirstReply(0, retries, rc) < retries ==>
      rc(ProbeCount(retries, rc) - 1) == 0 && forall i | 0 <= i < ProbeCount(retries, rc) - 1 :: rc(i) != 0
  {
  }

  // ------------------------------------------------------------ do_sysprep checks

  /** The checks `do_sysprep` makes before it prepares the media, in the order it makes them. */
  function SysprepPrecheck(winexeInstalled: bool, syspreped: bool, mounted: bool,
                           virtio: map<string, seq<Installed>>): Outcome<WinError>
    requires "viostor" in virtio && "netkvm" in virtio
  {
    if !winexeInstalled then Fail(WinexeMissing)
    else if syspreped then Fail(AlreadySyspreped)
    else if !mounted then Fail(MountFailed)
    else if |virtio["viostor"]| == 0 then Fail(NoViostor)
    else if |virtio["netkvm"]| == 0 then Fail(NoNetkvm)
    else Pass
  }

  /**
   * `do_sysprep` refuses an image Microsoft sysprep already ran on, and one
   * without an OEM INF file for the VirtIO SCSI or the VirtIO network driver.
   */
  lemma SysprepPrecheckSpec(winexeInstalled: bool, syspreped: bool, mounted: bool, files: seq<InfFile>)
    ensures "viostor" in VirtioOf(files) && "netkvm" in VirtioOf(files)
    ensures SysprepPrecheck(winexeInstalled, syspreped, mounted, VirtioOf(files)) == Pass
        <==> && winexeInstalled && !syspreped && mounted
             && (exists f | f in files :: Installs(f, "viostor"))
             && (exists f | f in files :: Installs(f, "netkvm"))
    ensures winexeInstalled && syspreped ==>
      SysprepPrecheck(winexeInstalled, syspreped, mounted, VirtioOf(files)) == Fail(AlreadySyspreped)
  {
    NoDriver(files, "viostor");
    NoDriver(files, "netkvm");
  }

  // ------------------------------------------------------------ the Windows image

  /** The first task in `order` whose remote work fails, or `|order|` when none does. */
  function FirstFailing(order: seq<string>, failing: set<string>): (k: nat)
    ensures k <= |order|
    ensures forall i | 0 <= i < k :: order[i] !in failing
    ensures k < |order| ==> order[k] in failing
    decreases |order|
  {
    if order == [] then 0
    else if order[0] in failing then 0
    else 1 + FirstFailing(order[1..], failing)
  }

  lemma {:induction false} FirstFailingIs(order: seq<string>, failing: set<string>, j: nat)
    requires j <= |order|
    requires forall i | 0 <= i < j :: order[i] !in failing
    requires j < |order| ==> order[j] in failing
    ensures FirstFailing(order, failing) == j
    decreases |order|
  {
    if j > 0 {
      FirstFailingIs(order[1..], failing, j - 1);
    }
  }

  /** The progress label `(cnt/size)` printed before a task runs. */
  datatype Label = Label(cnt: nat, size: nat)

  /** The progress labels `(1/size)` .. `(n/size)`. */
  function Counters(n: nat, size: nat): seq<Label>
    decreases n
  {
    if n == 0 then [] else Counters(n - 1, size) + [Label(n, size)]
  }

  /** The labels count from 1 up to `n`, each against the same `size`. */
  lemma {:induction false} CountersSpec(n: nat, size: nat)
    ensures |Counters(n, size)| == n
    ensures forall i | 0 <= i < n :: Counters(n, size)[i] == Label(i + 1, size)
    decreases n
  {
    if n > 0 {
      CountersSpec(n - 1, size);
    }
  }

  /** The remote work of the tasks of `names`, in order. */
  function TaskCommands(names: seq<string>): seq<Command>
    decreases |names|
  {
    if names == [] then [] else TaskCommands(names[..|names| - 1]) + [RunTask(Last(names))]
  }

  lemma TaskCommandsSnoc(names: seq<string>, name: string)
    ensures TaskCommands(names + [name]) == TaskCommands(names) + [RunTask(name)]
  {
    assert (names + [name])[..|names|] == names;
  }

  /** The names occurring in `s`. */
  function Elements(s: seq<string>): set<string>
    decreases |s|
  {
    if s == [] then {} else Elements(s[..|s| - 1]) + {Last(s)}
  }

  lemma {:induction false} ElementsMembers(s: seq<string>)
    ensures forall x :: x in Elements(s) <==> x in s
    decreases |s|
  {
    if s != [] {
      ElementsMembers(s[..|s| - 1]);
      assert s == s[..|s| - 1] + [Last(s)];
    }
  }

  lemma TakeSnoc(s: seq<string>, n: nat)
    requires n < |s|
    ensures s[..n + 1] == s[..n] + [s[n]]
  {
    assert s[..n + 1] == s[..n] + [s[n]];
  }

  /** What running tasks changes on a `WindowsImage`. */
  datatype RunState = RunState(syspreped: bool, executed: set<string>, progress: seq<Label>, commands: seq<Command>)

  /** The state after the tasks of `done` ran, each to completion, from `s`. */
  function Ran(s: RunState, done: seq<string>, size: nat): RunState
    decreases |done|
  {
    if done == [] then s
    else
      var before := Ran(s, done[..|done| - 1], size);
      var task := Last(done);
      RunState(before.syspreped || task == MicrosoftSysprepTask, before.executed + {task},
               before.progress + [Label(|done|, size)], before.commands + [RunTask(task)])
  }

  /** The state after task `task`, the `cnt`-th, raised: labelled and sent, but not marked. */
  function Raised(s: RunState, task: string, cnt: nat, size: nat): RunState {
    RunState(s.syspreped, s.executed, s.progress + [Label(cnt, size)], s.commands + [RunTask(task)])
  }

  /** The state after running `order` until the first task that raises, if any. */
  function RunOutcome(s: RunState, order: seq<string>, failing: set<string>, size: nat): RunState {
    var k := FirstFailing(order, failing);
    if k < |order| then Raised(Ran(s, order[..k], size), order[k], k + 1, size) else Ran(s, order, size)
  }

  lemma RanSnoc(s: RunState, done: seq<string>, task: string, size: nat)
    ensures var before := Ran(s, done, size);
      Ran(s, done + [task], size)
      == RunState(before.syspreped || task == MicrosoftSysprepTask, before.executed + {task},
                  before.progress + [Label(|done| + 1, size)], before.commands + [RunTask(task)])
  {
    assert (done + [task])[..|done|] == done;
  }

  /**
   * Running `done` labels them `(1/size)` up to `(|done|/size)`, sends their
   * work in order, marks each `executed`, and leaves the image syspreped
   * exactly when it was or `microsoft-sysprep` is among them.
   */
  lemma {:induction false} RanFields(s: RunState, done: seq<string>, size: nat)
    ensures Ran(s, done, size).progress == s.progress + Counters(|done|, size)
    ensures Ran(s, done, size).commands == s.commands + TaskCommands(done)
    ensures Ran(s, done, size).executed == s.executed + Elements(done)
    ensures Ran(s, done, size).syspreped == (s.syspreped || MicrosoftSysprepTask in done)
    decreases |done|
  {
    if done != [] {
      var front := done[..|done| - 1];
      RanFields(s, front, size);
      AppendAssoc(s.progress, Counters(|front|, size), [Label(|done|, size)]);
      AppendAssoc(s.commands, TaskCommands(front), [RunTask(Last(done))]);
      assert done == front + [Last(done)];
    }
  }

  /**
   * Running `order` until the first task that raises: the labels and the
   * work sent cover the tasks run, that one included; only the tasks before
   * it are marked `executed` or can leave the image syspreped.
   */
  lemma RunFields(s: RunState, order: seq<string>, failing: set<string>, size: nat)
    ensures
      var k := FirstFailing(order, failing);
      var ran := if k < |order| then k + 1 else k;
      var after := RunOutcome(s, order, failing, size);
      && after.progress == s.progress + Counters(ran, size)
      && after.executed == s.executed + Elements(order[..k])
      && after.syspreped == (s.syspreped || MicrosoftSysprepTask in order[..k])
      && after.commands == s.commands + TaskCommands(order[..ran])
  {
    var k := FirstFailing(order, failing);
    if k < |order| {
      RanFields(s, order[..k], size);
      TakeSnoc(order, k);
      TaskCommandsSnoc(order[..k], order[k]);
      AppendAssoc(s.progress, Counters(k, size), [Label(k + 1, size)]);
      AppendAssoc(s.commands, TaskCommands(order[..k]), [RunTask(order[k])]);
    } else {
      RanFields(s, order, size);
      assert order[..k] == order;
    }
  }

  /** When no task raises, the labels run `(1/size)` to `(size/size)` over exactly the enabled tasks. */
  lemma AllTasksLabelled(s: RunState, tasks: seq<Task>, failing: set<string>)
    requires Distinct(Names(tasks))
    requires forall n | n in EnabledNames(tasks) :: n !in failing
    ensures var size := |EnabledNames(tasks)|;
      RunOutcome(s, SysprepOrder(tasks), failing, size).progress == s.progress + Counters(size, size)
  {
    SysprepOrderSame(tasks);
    var order := SysprepOrder(tasks);
    forall i | 0 <= i < |order| ensures order[i] !in failing {
      assert order[i] in multiset(order);
    }
    FirstFailingIs(order, failing, |order|);
    RunFields(s, order, failing, |EnabledNames(tasks)|);
  }

  /** Windows image customisation, as the `Windows` OS class drives it. */
  class WindowsImage {
    /** The product name guestfs reports, the key of the KMS lookup. */
    const productName: string
    /** The sysprep tasks, as `list_syspreps` lists them. */
    const tasks: seq<Task>
    /** Microsoft sysprep has run on the image. */
    var syspreped: bool
    /** The tasks marked `executed`. */
    var executed: set<string>
    /** The `(cnt/size)` progress labels printed. */
    var progress: seq<Label>
    /** The commands sent to the helper VM, in order. */
    var commands: seq<Command>
    /** The warnings printed, in order. */
    var warnings: seq<Warning>

    /** Task names are method names, so no two tasks share one. */
    ghost predicate Valid()
      reads this
    {
      Distinct(Names(tasks))
    }

    /** The part of the image that running tasks changes. */
    function State(): RunState
      reads this
    {
      RunState(syspreped, executed, progress, commands)
    }

    constructor(productName: string, tasks: seq<Task>, syspreped: bool)
      requires Distinct(Names(tasks))
      ensures Valid()
      ensures this.productName == productName && this.tasks == tasks && this.syspreped == syspreped
      ensures executed == {} && progress == [] && commands == [] && warnings == []
    {
      this.productName := productName;
      this.tasks := tasks;
      this.syspreped := syspreped;
      executed := {};
      progress := [];
      commands := [];
      warnings := [];
    }

    /**
     * Run one sysprep task: its remote work either fails, raising, or
     * completes; `microsoft_sysprep` then records that the image is syspreped.
     */
    method RunSysprepTask(name: string, failing: set<string>) returns (r: Outcome<WinError>)
      modifies this`syspreped, this`commands
      ensures commands == old(commands) + [RunTask(name)]
      ensures r == if name in failing then Fail(TaskFailed(name)) else Pass
      ensures syspreped == (old(syspreped) || (name == MicrosoftSysprepTask && name !in failing))
    {
      commands := commands + [RunTask(name)];
      if name in failing {
        return Fail(TaskFailed(name));
      }
      if name == MicrosoftSysprepTask {
        syspreped := true;
      }
      return Pass;
    }

    /**
     * The `for` loop of `_exec_sysprep_tasks` over `order`: print the
     * `(cnt/size)` label, run the task, mark it `executed`; a task that
     * raises ends the loop.
     */
    method RunInOrder(order: seq<string>, size: nat, failing: set<string>) returns (r: Outcome<WinError>)
      modifies this`syspreped, this`executed, this`progress, this`commands
      ensures
        var k := FirstFailing(order, failing);
        && r == (if k < |order| then Fail(TaskFailed(order[k])) else Pass)
        && State() == RunOutcome(old(State()), order, failing, size)
    {
      ghost var done: seq<string> := [];
      var cnt := 0;
      while cnt < |order|
        invariant cnt <= |order|
        invariant forall i | 0 <= i < cnt :: order[i] !in failing
        invariant done == order[..cnt]
        invariant State() == Ran(old(State()), done, size)
      {
        var task := order[cnt];
        TakeSnoc(order, cnt);
        RanSnoc(old(State()), done, task, size);
        cnt := cnt + 1;
        progress := progress + [Label(cnt, size)];
        r := RunSysprepTask(task, failing);
        if r.Fail? {
          FirstFailingIs(order, failing, cnt - 1);
          return;
        }
        executed := executed + {task};
        done := done + [task];
      }
      FirstFailingIs(order, failing, cnt);
      assert done == order;
      r := Pass;
    }

    /**
     * `_exec_sysprep_tasks`: run the enabled tasks in `SysprepOrder`, then
     * send the shut-down command unless the image is now syspreped.
     */
    method ExecSysprepTasks(failing: set<string>) returns (r: Outcome<WinError>)
      requires Valid()
      modifies this`syspreped, this`executed, this`progress, this`commands
      ensures
        var order := SysprepOrder(tasks);
        var k := FirstFailing(order, failing);
        var after := RunOutcome(old(State()), order, failing, |EnabledNames(tasks)|);
        && r == (if k < |order| then Fail(TaskFailed(order[k])) else Pass)
        && State() == if r.Pass? && !after.syspreped then after.(commands := after.commands + [Shutdown]) else after
    {
      var enabled := EnabledNames(tasks);
      var order := SysprepOrder(tasks);
      r := RunInOrder(order, |enabled|, failing);
      if r.Pass? && !syspreped {
        commands := commands + [Shutdown];
      }
    }

    /** `kms_client_setup`: install the product's KMS client key, or only warn for an unknown product. */
    method KmsClientSetup()
      modifies this`commands, this`warnings
      ensures productName in KmsClientSetupKeys ==>
        commands == old(commands) + [InstallKmsKey(KmsClientSetupKeys[productName])] && warnings == old(warnings)
      ensures productName !in KmsClientSetupKeys ==>
        commands == old(commands) && warnings == old(warnings) + [UnknownKmsProduct(productName)]
    {
      if productName !in KmsClientSetupKeys {
        warnings := warnings + [UnknownKmsProduct(productName)];
        return;
      }
      commands := commands + [InstallKmsKey(KmsClientSetupKeys[productName])];
    }

    /**
     * `shrink`: query diskpart for the reclaimable space, whose output is
     * `queryOutput`, then ask it to reclaim all but 100 MB of it, or warn
     * when there is less than that.
     */
    method Shrink(queryOutput: seq<string>) returns (r: Outcome<WinError>)
      modifies this`commands, this`warnings
      ensures match ShrinkTarget(queryOutput)
        case Err(e) =>
          r == Fail(e) && commands == old(commands) + [ShrinkQueryMax] && warnings == old(warnings)
        case Ok(None) =>
          r == Pass && commands == old(commands) + [ShrinkQueryMax] && warnings == old(warnings) + [NotEnoughSpace]
        case Ok(Some(mb)) =>
          r == Pass && commands == old(commands) + [ShrinkQueryMax, ShrinkDesired(mb)] && warnings == old(warnings)
    {
      commands := commands + [ShrinkQueryMax];
      var querymax := QueryMax(queryOutput);
      if querymax.Err? {
        return Fail(querymax.error);
      }
      if querymax.value.None? {
        return Fail(NoQueryMax);
      }
      var mb := ParseNat(querymax.value.value) - 100;
      if mb < 0 {
        warnings := warnings + [NotEnoughSpace];
        return Pass;
      }
      commands := commands + [ShrinkDesired(mb)];
      return Pass;
    }

    /**
     * `_check_connectivity`: probe the helper VM up to `retries` times, where
     * `rc(i)` is the exit status of the `i`-th probe, and stop at the first 0.
     */
    method CheckConnectivity(retries: nat, rc: nat -> int) returns (r: Outcome<WinError>)
      modifies this`commands
      ensures commands == old(commands) + Probes(ProbeCount(retries, rc))
      ensures r == if retries == 0 || FirstReply(0, retries, rc) < retries then Pass else Fail(ConnectionFailed(retries))
    {
      if retries == 0 {
        return Pass;
      }
      var i := 0;
      while i < retries
        invariant i <= FirstReply(0, retries, rc)
        invariant commands == old(commands) + Probes(i)
      {
        commands := commands + [Probe];
        if rc(i) == 0 {
          return Pass;
        }
        i := i + 1;
      }
      return Fail(ConnectionFailed(retries));
    }

    /**
     * The part of `do_sysprep` after the media is prepared: wait for the
     * helper VM to boot (`booted` says whether it signalled in time), check
     * the connection to it, then run the sysprep tasks.
     */
    method BootAndRun(booted: bool, retries: nat, rc: nat -> int, failing: set<string>) returns (r: Outcome<WinError>)
      requires Valid()
      modifies this`syspreped, this`executed, this`progress, this`commands
      ensures !booted ==> r == Fail(BootTimedOut) && commands == old(commands)
      ensures r.Pass? ==> booted && forall n | n in SysprepOrder(tasks) :: n in executed
    {
      if !booted {
        return Fail(BootTimedOut);
      }
      r := CheckConnectivity(retries, rc);
      if r.Fail? {
        return;
      }
      ghost var before := State();
      r := ExecSysprepTasks(failing);
      if r.Pass? {
        ghost var order := SysprepOrder(tasks);
        RanFields(before, order, |EnabledNames(tasks)|);
        ElementsMembers(order);
      }
    }

    /**
     * `do_sysprep`: check the host and the media, then boot the helper VM and
     * run the tasks. `files` is the `inf` directory of the media.
     */
    method DoSysprep(winexeInstalled: bool, mounted: bool, files: seq<InfFile>, booted: bool,
                     retries: nat, rc: nat -> int, failing: set<string>) returns (r: Outcome<WinError>)
      requires Valid()
      modifies this`syspreped, this`executed, this`progress, this`commands
      ensures
        var check := SysprepPrecheck(winexeInstalled, old(syspreped), mounted, VirtioOf(files));
        check.Fail? ==> r == check && commands == old(commands) && executed == old(executed)
      ensures r.Pass? ==> !old(syspreped) && booted && forall n | n in SysprepOrder(tasks) :: n in executed
    {
      var virtio := VirtioState(files);
      r := SysprepPrecheck(winexeInstalled, syspreped, mounted, virtio);
      if r.Fail? {
        return;
      }
      r := BootAndRun(booted, retries, rc, failing);
    }
  }

  /**
   * `Windows.__init__`: refuse a libguestfs the version gate rejects;
   * `syspreped` is what the registry of the media says.
   */
  method NewWindows(guestfs: Version, productName: string, tasks: seq<Task>, syspreped: bool)
      returns (r: Result<WindowsImage, WinError>)
    requires Distinct(Names(tasks))
    ensures r.Err? <==> GuestfsRejected(guestfs)
    ensures r.Err? ==> r.error == GuestfsTooOld
    ensures r.Ok? ==> fresh(r.value) && r.value.Valid()
    ensures r.Ok? ==> r.value.syspreped == syspreped && r.value.productName == productName
    ensures r.Ok? ==> r.value.tasks == tasks && r.value.commands == [] && r.value.executed == {}
  {
    if GuestfsRejected(guestfs) {
      return Err(GuestfsTooOld);
    }
    var w := new WindowsImage(productName, tasks, syspreped);
    return Ok(w);
  }
}
