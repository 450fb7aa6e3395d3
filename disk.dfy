/**
 * The snapshot-based disk resource manager of image_creator/disk.py.
 *
 * A `Disk` never writes to its source media: it hands out copy-on-write overlays
 * built from loop devices and a device-mapper `snapshot` target, and keeps, in its
 * cleanup ledger, the release job of every kernel resource and temporary file it
 * acquired. The external tools (losetup, blockdev, dd, dmsetup, mkstemp, mkdtemp,
 * image_info, create_snapshot, the bundler, uuid4) are oracles: their answers are
 * parameters of the operation that calls them, and `None` stands for a call that
 * raised. Every call with an effect on the host is recorded, in order, in `effects`.
 */
module Disk {
  import opened Base
  import opened Text
  import opened DmTable
  import TmpDir

  type Path = string

  /** What `os.stat(path).st_mode` says about a path. */
  datatype FileKind = Directory | RegularFile | BlockDevice | OtherKind

  /** A ledger entry: the release job `(job, args)` registered with `_add_cleanup`. */
  datatype Job =
    | RemoveTree(dir: Path)          // shutil.rmtree(dir)
    | UnlinkIfExists(path: Path)     // check_unlink(path)
    | Unlink(path: Path)             // os.unlink(path)
    | DetachLoop(loop: Path)         // try_fail_repeat(losetup, '-d', loop)
    | RemoveMapping(name: string)    // try_fail_repeat(dmsetup, 'remove', name)

  /** An external tool whose failure aborts the current operation. */
  datatype Tool = Losetup | Blockdev | Mkstemp | Dd | Dmsetup | ImageInfo | CreateSnapshot | Mkdtemp

  datatype DiskError =
    | NoTmpCandidate              // IndexError of get_tmp_dir: no writable candidate
    | StatFailed(path: Path)      // os.stat raised (e.g. the path does not exist)
    | UnsupportedMedia            // FatalError: neither directory, regular file nor block device
    | UnsupportedDirectory        // FatalError: a directory other than "/"
    | BundleFailed                // BundleVolume.create_image raised
    | ToolFailed(tool: Tool)      // the named command raised
    | NotTracked                  // ValueError of list.remove in destroy_image
    | EnableFailed(image: Image)  // image.enable() raised; the image stays tracked
    | DestroyFailed(image: Image) // image.destroy() raised
    | JobFailed(job: Job)         // a cleanup job raised

  /** One call made on behalf of a disk, as the host sees it. */
  datatype Effect =
    | MakeTempDir(dir: Path)                 // tempfile.mkdtemp
    | BundleImage(bundle: Path)              // bundle.create_image(image)
    | DeriveSnapshot(origin: Path, file: Path)  // create_snapshot(file, tmp)
    | AttachLoop(file: Path, loop: Path)     // losetup -f --show file
    | QuerySize(device: Path, sectors: nat)  // blockdev --getsz device
    | MakeTempFile(dir: Path, file: Path)    // tempfile.mkstemp(dir=tmp)
    | MakeSparse(file: Path, sectors: nat)   // dd if=/dev/null of=file bs=512 seek=sectors
    | CreateMapping(name: string, table: string)  // dmsetup create name <file holding table>
    | Register(job: Job)                     // _add_cleanup(job)
    | OpenImage(image: Image)                // get_image
    | Destroy(image: Image)                  // image.destroy() (attempted)
    | RunJob(job: Job)                       // job(*args) popped by cleanup (attempted)

  /** The release job owed for an effect that acquires something. */
  function ReleaseOf(e: Effect): Option<Job> {
    match e
    case MakeTempDir(d) => Some(RemoveTree(d))
    case BundleImage(p) => Some(UnlinkIfExists(p))
    case DeriveSnapshot(_, f) => Some(Unlink(f))
    case AttachLoop(_, l) => Some(DetachLoop(l))
    case MakeTempFile(_, f) => Some(Unlink(f))
    case CreateMapping(n, _) => Some(RemoveMapping(n))
    case _ => None
  }

  /** The jobs registered by a stretch of effects, in registration order. */
  function Registrations(effects: seq<Effect>): (jobs: seq<Job>)
    ensures |jobs| <= |effects|
  {
    if effects == [] then []
    else
      var e := effects[|effects| - 1];
      Registrations(effects[..|effects| - 1]) + (if e.Register? then [e.job] else [])
  }

  /** What a single effect registers. */
  function RegisteredBy(e: Effect): seq<Job> {
    if e.Register? then [e.job] else []
  }

  lemma {:induction false} RegistrationsAppend(a: seq<Effect>, b: seq<Effect>)
    ensures Registrations(a + b) == Registrations(a) + Registrations(b)
    decreases |b|
  {
    if b == [] {
      assert a + b == a;
    } else {
      assert (a + b)[..|a + b| - 1] == a + b[..|b| - 1];
      assert (a + b)[|a + b| - 1] == b[|b| - 1];
      RegistrationsAppend(a, b[..|b| - 1]);
    }
  }
  /** Registering is monotone: a shorter history has registered an initial segment of the jobs. */
  lemma {:induction false} RegistrationsPrefix(p: seq<Effect>, s: seq<Effect>)
    requires IsPrefix(p, s)
    ensures IsPrefix(Registrations(p), Registrations(s))
    decreases |s|
  {
    if |p| < |s| {
      var s' := s[..|s| - 1];
      assert IsPrefix(p, s') by { assert s'[..|p|] == s[..|p|]; }
      RegistrationsPrefix(p, s');
      assert Registrations(s) == Registrations(s') + RegisteredBy(s[|s| - 1]);
    } else {
      assert p == s[..|p|] == s;
    }
  }


  /**
   * The acquisition at `i` has its release registered with no other call in
   * between: right after it, or, for the bundled image, right before it.
   */
  ghost predicate RegisteredPromptly(effects: seq<Effect>, i: int)
    requires 0 <= i < |effects|
  {
    ReleaseOf(effects[i]).Some? ==>
      if effects[i].BundleImage? then 0 < i && effects[i - 1] == Register(ReleaseOf(effects[i]).value)
      else i + 1 < |effects| && effects[i + 1] == Register(ReleaseOf(effects[i]).value)
  }

  /**
   * Nothing acquired at `i` is lost: it was registered promptly, and a registered
   * job is still in the ledger or was later run; an opened image is still tracked
   * or was later destroyed.
   */
  ghost predicate Accounted(effects: seq<Effect>, i: int, jobs: seq<Job>, images: seq<Image>)
    requires 0 <= i < |effects|
  {
    && RegisteredPromptly(effects, i)
    && (effects[i].Register? ==> effects[i].job in jobs || RunJob(effects[i].job) in effects[i + 1..])
    && (effects[i].OpenImage? ==> effects[i].image in images || Destroy(effects[i].image) in effects[i + 1..])
  }

  ghost predicate NoLeak(effects: seq<Effect>, jobs: seq<Job>, images: seq<Image>) {
    forall i | 0 <= i < |effects| :: Accounted(effects, i, jobs, images)
  }

  /**
   * The ledger only ever holds one `RemoveTree`, the scratch directory's, and it
   * sits at the bottom, so it is the last job `cleanup` runs.
   */
  ghost predicate TmpDirAtBottom(jobs: seq<Job>, tmp: Path) {
    forall i | 0 <= i < |jobs| :: jobs[i].RemoveTree? ==> i == 0 && jobs[i].dir == tmp
  }

  lemma TmpDirAtBottomAppend(jobs: seq<Job>, tmp: Path, job: Job)
    requires TmpDirAtBottom(jobs, tmp) && !job.RemoveTree?
    ensures TmpDirAtBottom(jobs + [job], tmp)
  {
    assert forall i | 0 <= i < |jobs| :: (jobs + [job])[i] == jobs[i];
  }

  /** `NoLeak` survives any step that appends effects and settles whatever it drops. */
  lemma NoLeakStep(effects: seq<Effect>, jobs: seq<Job>, images: seq<Image>,
                   effects': seq<Effect>, jobs': seq<Job>, images': seq<Image>)
    requires NoLeak(effects, jobs, images)
    requires IsPrefix(effects, effects')
    requires forall j | j in jobs :: j in jobs' || RunJob(j) in effects'[|effects|..]
    requires forall m | m in images :: m in images' || Destroy(m) in effects'[|effects|..]
    requires forall i | |effects| <= i < |effects'| :: Accounted(effects', i, jobs', images')
    ensures NoLeak(effects', jobs', images')
  {
    forall i | 0 <= i < |effects| ensures Accounted(effects', i, jobs', images') {
      assert Accounted(effects, i, jobs, images);
      assert effects'[i] == effects[i];
      assert effects'[i + 1..] == effects[i + 1..] + effects'[|effects|..];
      if effects[i].Register? && effects[i].job in jobs {
        var j := effects[i].job;
        if j !in jobs' {
          assert RunJob(j) in effects'[|effects|..];
        }
      }
      if effects[i].OpenImage? && effects[i].image in images {
        var m := effects[i].image;
        if m !in images' {
          assert Destroy(m) in effects'[|effects|..];
        }
      }
      if ReleaseOf(effects[i]).Some? && !effects[i].BundleImage? {
        assert i + 1 < |effects|;
      }
    }
  }

  /** Acquiring something and registering its release at once keeps `NoLeak`. */
  lemma NoLeakAcquire(effects: seq<Effect>, jobs: seq<Job>, images: seq<Image>, e: Effect)
    requires NoLeak(effects, jobs, images)
    requires ReleaseOf(e).Some? && !e.BundleImage?
    ensures NoLeak(effects + [e, Register(ReleaseOf(e).value)], jobs + [ReleaseOf(e).value], images)
  {
    var effects' := effects + [e, Register(ReleaseOf(e).value)];
    var jobs' := jobs + [ReleaseOf(e).value];
    assert Accounted(effects', |effects|, jobs', images);
    assert Accounted(effects', |effects| + 1, jobs', images);
    NoLeakStep(effects, jobs, images, effects', jobs', images);
  }

  /** Registering the unlink of the bundle and then bundling keeps `NoLeak`. */
  lemma NoLeakBundle(effects: seq<Effect>, jobs: seq<Job>, images: seq<Image>, image: Path)
    requires NoLeak(effects, jobs, images)
    ensures NoLeak(effects + [Register(UnlinkIfExists(image)), BundleImage(image)], jobs + [UnlinkIfExists(image)], images)
  {
    var effects' := effects + [Register(UnlinkIfExists(image)), BundleImage(image)];
    var jobs' := jobs + [UnlinkIfExists(image)];
    assert Accounted(effects', |effects|, jobs', images);
    assert Accounted(effects', |effects| + 1, jobs', images);
    NoLeakStep(effects, jobs, images, effects', jobs', images);
  }

  /** A call that acquires, registers, opens and releases nothing keeps `NoLeak`. */
  lemma NoLeakQuiet(effects: seq<Effect>, jobs: seq<Job>, images: seq<Image>, e: Effect)
    requires NoLeak(effects, jobs, images)
    requires e.QuerySize? || e.MakeSparse?
    ensures NoLeak(effects + [e], jobs, images)
  {
    assert Accounted(effects + [e], |effects|, jobs, images);
    NoLeakStep(effects, jobs, images, effects + [e], jobs, images);
  }

  /** Opening an image and tracking it keeps `NoLeak`. */
  lemma NoLeakOpen(effects: seq<Effect>, jobs: seq<Job>, images: seq<Image>, m: Image)
    requires NoLeak(effects, jobs, images)
    ensures NoLeak(effects + [OpenImage(m)], jobs, images + [m])
  {
    assert Accounted(effects + [OpenImage(m)], |effects|, jobs, images + [m]);
    NoLeakStep(effects, jobs, images, effects + [OpenImage(m)], jobs, images + [m]);
  }

  /** Untracking an image and destroying it keeps `NoLeak`. */
  lemma NoLeakDestroy(effects: seq<Effect>, jobs: seq<Job>, images: seq<Image>, m: Image, images': seq<Image>)
    requires NoLeak(effects, jobs, images)
    requires forall x | x in images && x != m :: x in images'
    ensures NoLeak(effects + [Destroy(m)], jobs, images')
  {
    var effects' := effects + [Destroy(m)];
    assert effects'[|effects|..] == [Destroy(m)];
    assert Accounted(effects', |effects|, jobs, images');
    NoLeakStep(effects, jobs, images, effects', jobs, images');
  }

  /** Taking a job off the ledger and running it keeps `NoLeak`. */
  lemma NoLeakRun(effects: seq<Effect>, jobs: seq<Job>, images: seq<Image>, job: Job, jobs': seq<Job>)
    requires NoLeak(effects, jobs, images)
    requires forall x | x in jobs && x != job :: x in jobs'
    ensures NoLeak(effects + [RunJob(job)], jobs', images)
  {
    var effects' := effects + [RunJob(job)];
    assert effects'[|effects|..] == [RunJob(job)];
    assert Accounted(effects', |effects|, jobs', images);
    NoLeakStep(effects, jobs, images, effects', jobs', images);
  }

  /** What a cleanup loop has done: the entries it popped, the ones left, and whether it stopped on a raise. */
  datatype Unwound<T> = Unwound(popped: seq<T>, remaining: seq<T>, raised: bool)

  /**
   * `while pending: x = pending.pop(); act(x)`, where `act` raises exactly on the
   * entries `fails` holds of: the loop stops at the first raise, after popping it.
   */
  function Unwind<T>(pending: seq<T>, fails: T -> bool): (u: Unwound<T>)
    ensures u.raised ==> u.popped != [] && fails(Last(u.popped))
    ensures !u.raised ==> u.remaining == []
    decreases |pending|
  {
    if pending == [] then Unwound([], [], false)
    else
      var top := pending[|pending| - 1];
      if fails(top) then Unwound([top], pending[..|pending| - 1], true)
      else
        var rest := Unwind(pending[..|pending| - 1], fails);
        Unwound([top] + rest.popped, rest.remaining, rest.raised)
  }

  /**
   * Midway through the unwinding loop: `popped` has left `pending0` so far and
   * `pending` is left; `stop` holds the entry that raised, if one did.
   */
  ghost predicate Unwinding<T>(pending0: seq<T>, fails: T -> bool, popped: seq<T>, pending: seq<T>, stop: Option<T>) {
    var u := Unwind(pending, fails);
    && (stop.None? ==> Unwind(pending0, fails) == Unwound(popped + u.popped, u.remaining, u.raised))
    && (stop.Some? ==> Unwind(pending0, fails) == Unwound(popped, pending, true) && popped != [] && stop.value == Last(popped))
  }

  lemma UnwindingStart<T>(pending0: seq<T>, fails: T -> bool)
    ensures Unwinding(pending0, fails, [], pending0, None)
  {
    assert [] + Unwind(pending0, fails).popped == Unwind(pending0, fails).popped;
  }

  /** One turn of the unwinding loop: pop the newest entry and run it. */
  lemma UnwindingStep<T>(pending0: seq<T>, fails: T -> bool, popped: seq<T>, pending: seq<T>)
    requires Unwinding(pending0, fails, popped, pending, None) && pending != []
    ensures var top := Last(pending);
            Unwinding(pending0, fails, popped + [top], pending[..|pending| - 1], if fails(top) then Some(top) else None)
  {
    var top, front := Last(pending), pending[..|pending| - 1];
    assert popped + ([top] + Unwind(front, fails).popped) == popped + [top] + Unwind(front, fails).popped;
  }

  /** When the loop stops, it has done exactly what `Unwind` says. */
  lemma UnwindingEnd<T>(pending0: seq<T>, fails: T -> bool, popped: seq<T>, pending: seq<T>, stop: Option<T>)
    requires Unwinding(pending0, fails, popped, pending, stop) && (pending == [] || stop.Some?)
    ensures var u := Unwind(pending0, fails);
            && pending == u.remaining && popped == u.popped
            && stop == (if u.raised then Some(Last(u.popped)) else None)
  {
    if stop.None? {
      assert popped + [] == popped;
    }
  }

  /**
   * LIFO: what is left, followed by what was popped in reverse, is exactly what was
   * pending. Nothing is lost or reordered, and entries leave from the top.
   */
  lemma {:induction false} UnwindIsLifo<T>(pending: seq<T>, fails: T -> bool)
    ensures var u := Unwind(pending, fails); u.remaining + Reverse(u.popped) == pending
    decreases |pending|
  {
    if pending != [] {
      var top := pending[|pending| - 1];
      var front := pending[..|pending| - 1];
      SplitLast(pending);
      if !fails(top) {
        UnwindIsLifo(front, fails);
        var rest := Unwind(front, fails);
        var u := Unwind(pending, fails);
        assert u.remaining == rest.remaining && u.popped == [top] + rest.popped;
        ReverseCons(top, rest.popped);
        assert u.remaining + Reverse(u.popped) == (rest.remaining + Reverse(rest.popped)) + [top];
      } else {
        assert Reverse([top]) == [top];
      }
    }
  }

  lemma {:induction false} ReverseCons<T>(x: T, s: seq<T>)
    ensures Reverse([x] + s) == Reverse(s) + [x]
  {
    var l := [x] + s;
    assert |Reverse(l)| == |Reverse(s) + [x]|;
    forall i | 0 <= i < |l| ensures Reverse(l)[i] == (Reverse(s) + [x])[i] {
      if i < |s| {
        assert Reverse(l)[i] == l[|l| - 1 - i] == s[|s| - 1 - i];
      }
    }
  }

  /** Without a raise, everything pending is popped, newest first, and nothing is left. */
  lemma UnwindCompletes<T>(pending: seq<T>, fails: T -> bool)
    ensures var u := Unwind(pending, fails);
            !u.raised ==> u.popped == Reverse(pending) && u.remaining == []
  {
    var u := Unwind(pending, fails);
    UnwindIsLifo(pending, fails);
    if !u.raised {
      assert Reverse(u.popped) == pending;
      ReverseReverse(u.popped);
    }
  }

  /** The unwinding raises exactly when some pending entry fails. */
  lemma {:induction false} UnwindRaisesIff<T>(pending: seq<T>, fails: T -> bool)
    ensures !Unwind(pending, fails).raised <==> forall x | x in pending :: !fails(x)
    decreases |pending|
  {
    if pending != [] {
      var top, front := Last(pending), pending[..|pending| - 1];
      SplitLast(pending);
      if !fails(top) {
        UnwindRaisesIff(front, fails);
      } else {
        assert top in pending;
      }
    }
  }

  /** Only the last entry popped can have raised: every earlier one ran cleanly. */
  lemma {:induction false} UnwindStopsAtFirstRaise<T>(pending: seq<T>, fails: T -> bool)
    ensures forall i | 0 <= i < |Unwind(pending, fails).popped| - 1 :: !fails(Unwind(pending, fails).popped[i])
    decreases |pending|
  {
    if pending != [] && !fails(Last(pending)) {
      var top, front := Last(pending), pending[..|pending| - 1];
      UnwindStopsAtFirstRaise(front, fails);
      var u, rest := Unwind(pending, fails), Unwind(front, fails);
      assert u.popped == [top] + rest.popped;
      forall i | 0 <= i < |u.popped| - 1 ensures !fails(u.popped[i]) {
        if i == 0 {
          assert u.popped[0] == top;
        } else {
          assert u.popped[i] == rest.popped[i - 1];
        }
      }
    }
  }


  lemma ReverseReverse<T>(s: seq<T>)
    ensures Reverse(Reverse(s)) == s
  {
    assert |Reverse(Reverse(s))| == |s|;
    forall i | 0 <= i < |s| ensures Reverse(Reverse(s))[i] == s[i] { }
  }

  /**
   * The scratch directory goes last: when its removal is at the bottom of the ledger
   * and no job raises, it is the last job `cleanup` runs.
   */
  lemma TmpDirRemovedLast(jobs: seq<Job>, tmp: Path, fails: Job -> bool)
    requires jobs != [] && jobs[0] == RemoveTree(tmp)
    requires !Unwind(jobs, fails).raised
    ensures var u := Unwind(jobs, fails); u.popped != [] && Last(u.popped) == RemoveTree(tmp)
  {
    UnwindCompletes(jobs, fails);
  }

  /** A second unwind of what the first one left, when that one did not raise, does nothing. */
  lemma UnwindTwice<T>(pending: seq<T>, fails: T -> bool, fails': T -> bool)
    requires !Unwind(pending, fails).raised
    ensures Unwind(Unwind(pending, fails).remaining, fails') == Unwound([], [], false)
  {
  }

  /** The destroy calls of images popped in this order. */
  function Destroyed(images: seq<Image>): (e: seq<Effect>)
    ensures |e| == |images|
  {
    if images == [] then [] else Destroyed(images[..|images| - 1]) + [Destroy(Last(images))]
  }

  /** The runs of jobs popped in this order. */
  function Ran(jobs: seq<Job>): (e: seq<Effect>)
    ensures |e| == |jobs|
  {
    if jobs == [] then [] else Ran(jobs[..|jobs| - 1]) + [RunJob(Last(jobs))]
  }

  lemma DestroyedSnoc(images: seq<Image>, m: Image)
    ensures Destroyed(images + [m]) == Destroyed(images) + [Destroy(m)]
  {
    assert (images + [m])[..|images|] == images;
  }

  lemma RanSnoc(jobs: seq<Job>, j: Job)
    ensures Ran(jobs + [j]) == Ran(jobs) + [RunJob(j)]
  {
    assert (jobs + [j])[..|jobs|] == jobs;
  }

  /** The answers of the host for `Disk.file`. */
  datatype Probe = Probe(
    stat: Option<FileKind>,  // os.stat(source); None when it raises
    bundleHex: string,       // uuid.uuid4().hex naming the bundled image
    bundleOk: bool)          // whether bundle.create_image returned normally

  /** The answers of the host for `Disk.snapshot`, in the order the calls are made. */
  datatype SnapshotReplies = SnapshotReplies(
    format: Option<string>,      // image_info(file)['format']
    derived: Option<Path>,       // create_snapshot(file, tmp)
    originLoop: Option<string>,  // stdout of `losetup -f --show file`
    sectors: Option<nat>,        // int(blockdev('--getsz', device))
    cowFile: Option<Path>,       // tempfile.mkstemp(dir=tmp)
    sparseOk: bool,              // whether dd returned normally
    cowLoop: Option<string>,     // stdout of `losetup -f --show cow`
    uuidHex: string,             // uuid.uuid4().hex
    createOk: bool)              // whether `dmsetup create` returned normally

  /** Where the root filesystem is bundled: `'%s/%s.raw' % (tmp, hex)`. */
  function BundlePath(tmp: Path, hex: string): Path {
    tmp + "/" + hex + ".raw"
  }

  /** `tempfile.mkdtemp(prefix='.snf_image_creator.', dir=parent)`, with the random part given. */
  function ScratchDirName(parent: Path, random: string): Path {
    parent + "/.snf_image_creator." + random
  }

  /**
   * Every write the disk makes lands in a file of its own: the bundle is inside the
   * scratch directory and the sparse cow file is one it made there with mkstemp.
   * Loop devices, the size query and the snapshot mapping only read the origin; a
   * non-persistent `snapshot` target sends every write to the cow device.
   */
  ghost predicate OwnWrites(effects: seq<Effect>, tmp: Path) {
    forall i | 0 <= i < |effects| :: WriteIsOwn(effects, i, tmp)
  }

  ghost predicate WriteIsOwn(effects: seq<Effect>, i: int, tmp: Path)
    requires 0 <= i < |effects|
  {
    && (effects[i].BundleImage? ==> StartsWith(effects[i].bundle, tmp + "/"))
    && (effects[i].MakeSparse? ==> MakeTempFile(tmp, effects[i].file) in effects[..i])
  }

  /** Calls that write nothing keep `OwnWrites`. */
  lemma OwnWritesAppend(effects: seq<Effect>, tmp: Path, extra: seq<Effect>)
    requires OwnWrites(effects, tmp)
    requires forall e | e in extra :: !e.BundleImage? && !e.MakeSparse?
    ensures OwnWrites(effects + extra, tmp)
  {
    forall i | 0 <= i < |effects + extra| ensures WriteIsOwn(effects + extra, i, tmp) {
      if i < |effects| {
        assert WriteIsOwn(effects, i, tmp);
        assert (effects + extra)[..i] == effects[..i];
      } else {
        assert (effects + extra)[i] in extra;
      }
    }
  }

  /** Bundling into a file under the scratch directory keeps `OwnWrites`. */
  lemma OwnWritesBundle(effects: seq<Effect>, tmp: Path, hex: string)
    requires OwnWrites(effects, tmp)
    ensures OwnWrites(effects + [Register(UnlinkIfExists(BundlePath(tmp, hex))), BundleImage(BundlePath(tmp, hex))], tmp)
  {
    var image := BundlePath(tmp, hex);
    assert image == (tmp + "/") + (hex + ".raw");
    assert StartsWith(image, tmp + "/");
    var effects' := effects + [Register(UnlinkIfExists(image)), BundleImage(image)];
    forall i | 0 <= i < |effects'| ensures WriteIsOwn(effects', i, tmp) {
      if i < |effects| {
        assert WriteIsOwn(effects, i, tmp);
        assert effects'[..i] == effects[..i];
      }
    }
  }

  /** Extending a file the disk made in the scratch directory keeps `OwnWrites`. */
  lemma OwnWritesSparse(effects: seq<Effect>, tmp: Path, cow: Path, sectors: nat)
    requires OwnWrites(effects, tmp)
    requires MakeTempFile(tmp, cow) in effects
    ensures OwnWrites(effects + [MakeSparse(cow, sectors)], tmp)
  {
    var effects' := effects + [MakeSparse(cow, sectors)];
    forall i | 0 <= i < |effects'| ensures WriteIsOwn(effects', i, tmp) {
      if i < |effects| {
        assert WriteIsOwn(effects, i, tmp);
        assert effects'[..i] == effects[..i];
      } else {
        assert effects'[..i] == effects;
      }
    }
  }

  lemma RegistrationsOfPair(a: Effect, b: Effect)
    ensures Registrations([a, b]) == RegisteredBy(a) + RegisteredBy(b)
  {
    assert [a, b][..1] == [a];
    assert [a][..0] == [];
  }

  lemma RegistrationsOfOne(a: Effect)
    ensures Registrations([a]) == RegisteredBy(a)
  {
    assert [a][..0] == [];
  }

  /**
   * What `file` answers when nothing is memoised: the source itself for a regular
   * file or a block device, a fresh bundle of the live system for "/", and an error
   * for anything else.
   */
  function Classify(source: Path, tmp: Path, probe: Probe): (r: Result<Path, DiskError>)
    ensures r.Ok? <==> probe.stat in {Some(RegularFile), Some(BlockDevice)}
                       || (probe.stat == Some(Directory) && source == "/" && probe.bundleOk)
    ensures r.Ok? ==> r.value == source || (source == "/" && StartsWith(r.value, tmp + "/"))
  {
    match probe.stat
    case None => Err(StatFailed(source))
    case Some(Directory) =>
      if source != "/" then Err(UnsupportedDirectory)
      else if probe.bundleOk then Ok(BundlePath(tmp, probe.bundleHex))
      else Err(BundleFailed)
    case Some(RegularFile) => Ok(source)
    case Some(BlockDevice) => Ok(source)
    case Some(OtherKind) => Err(UnsupportedMedia)
  }

  /**
   * The calls `file` makes when nothing is memoised: only the live root is bundled,
   * with the unlink of the bundle registered before the bundler runs.
   */
  function ClassifyEffects(source: Path, tmp: Path, probe: Probe): (e: seq<Effect>)
    ensures source != "/" ==> e == []
    ensures e != [] ==> Registrations(e) == [UnlinkIfExists(BundlePath(tmp, probe.bundleHex))]
  {
    if probe.stat == Some(Directory) && source == "/" then
      RegistrationsOfPair(Register(UnlinkIfExists(BundlePath(tmp, probe.bundleHex))), BundleImage(BundlePath(tmp, probe.bundleHex)));
      [Register(UnlinkIfExists(BundlePath(tmp, probe.bundleHex))), BundleImage(BundlePath(tmp, probe.bundleHex))]
    else []
  }

  /** Number of calls of a raw snapshot: two more when the origin needs a loop device. */
  function RawLength(isBlock: bool): nat {
    if isBlock then 8 else 10
  }

  /**
   * Every call of a raw snapshot in order, when every step succeeds: the reference
   * the step-by-step trace below is measured against.
   */
  function RawPlan(file: Path, tmp: Path, isBlock: bool, rep: SnapshotReplies): (plan: seq<Effect>)
    ensures |plan| == RawLength(isBlock)
  {
    var device := if isBlock then file else Strip(rep.originLoop.GetOr(""));
    RawSteps(file, tmp, isBlock, device, rep.sectors.GetOr(0), rep.cowFile.GetOr(""),
             Strip(rep.cowLoop.GetOr("")), SnapshotName(rep.uuidHex))
  }

  /** The calls of a raw snapshot once the devices and files involved are known. */
  function RawSteps(file: Path, tmp: Path, isBlock: bool, device: Path, size: nat, cow: Path,
                    cowdev: Path, name: string): seq<Effect> {
    (if isBlock then [] else [AttachLoop(file, device), Register(DetachLoop(device))])
    + [QuerySize(device, size), MakeTempFile(tmp, cow), Register(Unlink(cow)), MakeSparse(cow, size),
       AttachLoop(cow, cowdev), Register(DetachLoop(cowdev)),
       CreateMapping(name, TableLine(size, device, cowdev)), Register(RemoveMapping(name))]
  }

  /** Every step of a raw snapshot gets an answer. */
  predicate RawStepsSucceed(isBlock: bool, rep: SnapshotReplies) {
    && (isBlock || rep.originLoop.Some?)
    && rep.sectors.Some? && rep.cowFile.Some? && rep.sparseOk && rep.cowLoop.Some? && rep.createOk
  }

  /**
   * The calls a raw snapshot makes, stopping at the first one that raises: attach
   * the origin (unless it is a block device already), then the device stage.
   */
  function RawTrace(file: Path, tmp: Path, isBlock: bool, rep: SnapshotReplies): seq<Effect> {
    if isBlock then DeviceStage(tmp, file, rep)
    else if rep.originLoop.None? then []
    else
      var device := Strip(rep.originLoop.value);
      [AttachLoop(file, device), Register(DetachLoop(device))] + DeviceStage(tmp, device, rep)
  }

  /** Read the size of the origin, then the cow stage. */
  function DeviceStage(tmp: Path, device: Path, rep: SnapshotReplies): seq<Effect> {
    if rep.sectors.None? then []
    else [QuerySize(device, rep.sectors.value)] + CowStage(tmp, device, rep.sectors.value, rep)
  }

  /** Make the cow file under the scratch directory and extend it, then the mapping stage. */
  function CowStage(tmp: Path, device: Path, size: nat, rep: SnapshotReplies): seq<Effect> {
    if rep.cowFile.None? then []
    else
      var cow := rep.cowFile.value;
      [MakeTempFile(tmp, cow), Register(Unlink(cow))]
      + (if rep.sparseOk then [MakeSparse(cow, size)] + MappingStage(cow, device, size, rep) else [])
  }

  /** Attach the cow file, then create the snapshot mapping over origin and cow. */
  function MappingStage(cow: Path, device: Path, size: nat, rep: SnapshotReplies): seq<Effect> {
    if rep.cowLoop.None? then []
    else
      var cowdev := Strip(rep.cowLoop.value);
      var name := SnapshotName(rep.uuidHex);
      [AttachLoop(cow, cowdev), Register(DetachLoop(cowdev))]
      + (if rep.createOk then [CreateMapping(name, TableLine(size, device, cowdev)), Register(RemoveMapping(name))] else [])
  }

  /**
   * The table `dmsetup create` is given describes a non-persistent snapshot of the
   * whole origin, `size` sectors long, over the cow loop device, in chunks of 8 sectors.
   */
  lemma MappingTable(cow: Path, device: Path, size: nat, rep: SnapshotReplies, e: Effect)
    requires e in MappingStage(cow, device, size, rep) && e.CreateMapping?
    requires IsDeviceField(device) && IsDeviceField(Strip(rep.cowLoop.value))
    ensures ParseTable(e.table) == Some(SnapshotTarget(0, size, device, Strip(rep.cowLoop.value), false, 8))
  {
    TableLineRoundTrip(size, device, Strip(rep.cowLoop.value));
  }

  /**
   * What a raw snapshot returns or raises: the mapper device when every step gets an
   * answer, else the failure of the first tool that raised.
   */
  function RawAnswer(isBlock: bool, rep: SnapshotReplies): Result<Path, DiskError> {
    if !isBlock && rep.originLoop.None? then Err(ToolFailed(Tool.Losetup)) else DeviceAnswer(rep)
  }

  function DeviceAnswer(rep: SnapshotReplies): Result<Path, DiskError> {
    if rep.sectors.None? then Err(ToolFailed(Blockdev)) else CowAnswer(rep)
  }

  function CowAnswer(rep: SnapshotReplies): Result<Path, DiskError> {
    if rep.cowFile.None? then Err(ToolFailed(Mkstemp))
    else if !rep.sparseOk then Err(ToolFailed(Dd))
    else MappingAnswer(rep)
  }

  function MappingAnswer(rep: SnapshotReplies): Result<Path, DiskError> {
    if rep.cowLoop.None? then Err(ToolFailed(Tool.Losetup))
    else if !rep.createOk then Err(ToolFailed(Dmsetup))
    else Ok(MapperPath(SnapshotName(rep.uuidHex)))
  }

  /**
   * A raw snapshot succeeds exactly when every step gets an answer, and then it
   * returns the `/dev/mapper` path of the `snf-image-creator-snapshot-<hex>` device;
   * otherwise the error names one of the tools it calls.
   */
  lemma RawAnswerSucceeds(isBlock: bool, rep: SnapshotReplies)
    ensures RawAnswer(isBlock, rep).Ok? <==> RawStepsSucceed(isBlock, rep)
    ensures RawAnswer(isBlock, rep).Ok? ==> RawAnswer(isBlock, rep).value == MapperPath(SnapshotName(rep.uuidHex))
    ensures RawAnswer(isBlock, rep).Err? ==>
      RawAnswer(isBlock, rep).error in {ToolFailed(Tool.Losetup), ToolFailed(Blockdev), ToolFailed(Mkstemp), ToolFailed(Dd), ToolFailed(Dmsetup)}
  {
  }

  /** The releases a raw snapshot registers, stopping at the first call that raises. */
  function RawTraceJobs(file: Path, isBlock: bool, rep: SnapshotReplies): seq<Job> {
    if isBlock then DeviceJobs(rep)
    else if rep.originLoop.None? then []
    else [DetachLoop(Strip(rep.originLoop.value))] + DeviceJobs(rep)
  }

  function DeviceJobs(rep: SnapshotReplies): seq<Job> {
    if rep.sectors.None? then [] else CowJobs(rep)
  }

  function CowJobs(rep: SnapshotReplies): seq<Job> {
    if rep.cowFile.None? then []
    else [Unlink(rep.cowFile.value)] + (if rep.sparseOk then MappingJobs(rep) else [])
  }

  function MappingJobs(rep: SnapshotReplies): seq<Job> {
    if rep.cowLoop.None? then []
    else [DetachLoop(Strip(rep.cowLoop.value))] + (if rep.createOk then [RemoveMapping(SnapshotName(rep.uuidHex))] else [])
  }

  /** A call that registers nothing, then one registration, then `rest`. */
  lemma RegistrationsOfAcquire(a: Effect, job: Job, rest: seq<Effect>)
    requires !a.Register?
    ensures Registrations([a, Register(job)] + rest) == [job] + Registrations(rest)
  {
    RegistrationsAppend([a, Register(job)], rest);
    RegistrationsOfPair(a, Register(job));
  }

  lemma RegistrationsOfQuiet(a: Effect, rest: seq<Effect>)
    requires !a.Register?
    ensures Registrations([a] + rest) == Registrations(rest)
  {
    RegistrationsAppend([a], rest);
    RegistrationsOfOne(a);
  }

  /**
   * The ledger of a raw snapshot gains exactly the releases its calls registered,
   * whichever step raised.
   */
  lemma RawTraceRegistrations(file: Path, tmp: Path, isBlock: bool, rep: SnapshotReplies)
    ensures Registrations(RawTrace(file, tmp, isBlock, rep)) == RawTraceJobs(file, isBlock, rep)
  {
    var device := if isBlock then file else Strip(rep.originLoop.GetOr(""));
    DeviceStageRegistrations(tmp, device, rep);
    if !isBlock && rep.originLoop.Some? {
      RegistrationsOfAcquire(AttachLoop(file, device), DetachLoop(device), DeviceStage(tmp, device, rep));
    }
  }

  lemma DeviceStageRegistrations(tmp: Path, device: Path, rep: SnapshotReplies)
    ensures Registrations(DeviceStage(tmp, device, rep)) == DeviceJobs(rep)
  {
    if rep.sectors.Some? {
      var size := rep.sectors.value;
      CowStageRegistrations(tmp, device, size, rep);
      RegistrationsOfQuiet(QuerySize(device, size), CowStage(tmp, device, size, rep));
    }
  }

  lemma CowStageRegistrations(tmp: Path, device: Path, size: nat, rep: SnapshotReplies)
    ensures Registrations(CowStage(tmp, device, size, rep)) == CowJobs(rep)
  {
    if rep.cowFile.Some? {
      var cow := rep.cowFile.value;
      var rest := if rep.sparseOk then [MakeSparse(cow, size)] + MappingStage(cow, device, size, rep) else [];
      if rep.sparseOk {
        MappingStageRegistrations(cow, device, size, rep);
        RegistrationsOfQuiet(MakeSparse(cow, size), MappingStage(cow, device, size, rep));
      }
      RegistrationsOfAcquire(MakeTempFile(tmp, cow), Unlink(cow), rest);
    }
  }

  lemma MappingStageRegistrations(cow: Path, device: Path, size: nat, rep: SnapshotReplies)
    ensures Registrations(MappingStage(cow, device, size, rep)) == MappingJobs(rep)
  {
    if rep.cowLoop.Some? {
      var cowdev, name := Strip(rep.cowLoop.value), SnapshotName(rep.uuidHex);
      var rest: seq<Effect> := if rep.createOk then [CreateMapping(name, TableLine(size, device, cowdev)), Register(RemoveMapping(name))] else [];
      if rep.createOk {
        RegistrationsOfAcquire(CreateMapping(name, TableLine(size, device, cowdev)), RemoveMapping(name), []);
        assert rest == rest + [];
      }
      RegistrationsOfAcquire(AttachLoop(cow, cowdev), DetachLoop(cowdev), rest);
    }
  }

  /**
   * A raw snapshot that stops early has made an initial segment of the planned
   * calls and nothing else; it has made all of them exactly when every step answered.
   */
  lemma RawTraceIsPrefix(file: Path, tmp: Path, isBlock: bool, rep: SnapshotReplies)
    ensures IsPrefix(RawTrace(file, tmp, isBlock, rep), RawPlan(file, tmp, isBlock, rep))
    ensures RawTrace(file, tmp, isBlock, rep) == RawPlan(file, tmp, isBlock, rep) <==> RawStepsSucceed(isBlock, rep)
  {
    var device := if isBlock then file else Strip(rep.originLoop.GetOr(""));
    var size, cow, cowdev := rep.sectors.GetOr(0), rep.cowFile.GetOr(""), Strip(rep.cowLoop.GetOr(""));
    var name := SnapshotName(rep.uuidHex);
    var head: seq<Effect> := if isBlock then [] else [AttachLoop(file, device), Register(DetachLoop(device))];
    var tail: seq<Effect> := [QuerySize(device, size), MakeTempFile(tmp, cow), Register(Unlink(cow)), MakeSparse(cow, size),
                              AttachLoop(cow, cowdev), Register(DetachLoop(cowdev)),
                              CreateMapping(name, TableLine(size, device, cowdev)), Register(RemoveMapping(name))];
    var plan := RawPlan(file, tmp, isBlock, rep);
    assert plan == head + tail;
    var trace := RawTrace(file, tmp, isBlock, rep);
    if !isBlock && rep.originLoop.None? {
      assert trace == [];
    } else {
      var k := DeviceStageIsPrefix(tmp, device, rep, tail);
      assert trace == head + DeviceStage(tmp, device, rep);
      assert plan[..|trace|] == head + tail[..k];
    }
  }

  /** The device stage is an initial segment of the last eight planned calls. */
  lemma DeviceStageIsPrefix(tmp: Path, device: Path, rep: SnapshotReplies, tail: seq<Effect>) returns (k: nat)
    requires
      var size, cow, cowdev := rep.sectors.GetOr(0), rep.cowFile.GetOr(""), Strip(rep.cowLoop.GetOr(""));
      var name := SnapshotName(rep.uuidHex);
      tail == [QuerySize(device, size), MakeTempFile(tmp, cow), Register(Unlink(cow)), MakeSparse(cow, size),
               AttachLoop(cow, cowdev), Register(DetachLoop(cowdev)),
               CreateMapping(name, TableLine(size, device, cowdev)), Register(RemoveMapping(name))]
    ensures k <= 8 && DeviceStage(tmp, device, rep) == tail[..k]
    ensures k == 8 <==> rep.sectors.Some? && rep.cowFile.Some? && rep.sparseOk && rep.cowLoop.Some? && rep.createOk
  {
    if rep.sectors.None? {
      k := 0;
    } else if rep.cowFile.None? {
      k := 1;
    } else if !rep.sparseOk {
      k := 3;
    } else if rep.cowLoop.None? {
      k := 4;
    } else if !rep.createOk {
      k := 6;
    } else {
      k := 8;
    }
  }

  /** The releases a raw snapshot registers, oldest first, when every step succeeds. */
  function RawJobs(file: Path, isBlock: bool, rep: SnapshotReplies): (jobs: seq<Job>)
    ensures |jobs| == if isBlock then 3 else 4
  {
    var device := if isBlock then file else Strip(rep.originLoop.GetOr(""));
    (if isBlock then [] else [DetachLoop(device)])
    + [Unlink(rep.cowFile.GetOr("")), DetachLoop(Strip(rep.cowLoop.GetOr(""))), RemoveMapping(SnapshotName(rep.uuidHex))]
  }

  /**
   * The releases a raw snapshot registers, oldest first: the origin loop (when the
   * source is not already a block device), the cow file, the cow loop, the mapping.
   * Unwound LIFO, the mapping goes before the loops under it and each loop before
   * the file it is attached to.
   */
  lemma RawPlanRegistrations(file: Path, tmp: Path, isBlock: bool, rep: SnapshotReplies)
    ensures Registrations(RawPlan(file, tmp, isBlock, rep)) == RawJobs(file, isBlock, rep)
  {
    var device := if isBlock then file else Strip(rep.originLoop.GetOr(""));
    RawStepsRegistrations(file, tmp, isBlock, device, rep.sectors.GetOr(0), rep.cowFile.GetOr(""),
                          Strip(rep.cowLoop.GetOr("")), SnapshotName(rep.uuidHex));
  }

  /** The releases registered by a stopped raw snapshot are the oldest of the planned ones. */
  lemma RawTraceJobsArePrefix(file: Path, tmp: Path, isBlock: bool, rep: SnapshotReplies)
    ensures IsPrefix(RawTraceJobs(file, isBlock, rep), RawJobs(file, isBlock, rep))
  {
    RawTraceIsPrefix(file, tmp, isBlock, rep);
    RegistrationsPrefix(RawTrace(file, tmp, isBlock, rep), RawPlan(file, tmp, isBlock, rep));
    RawPlanRegistrations(file, tmp, isBlock, rep);
    RawTraceRegistrations(file, tmp, isBlock, rep);
  }

  lemma RawStepsRegistrations(file: Path, tmp: Path, isBlock: bool, device: Path, size: nat, cow: Path,
                              cowdev: Path, name: string)
    ensures Registrations(RawSteps(file, tmp, isBlock, device, size, cow, cowdev, name))
            == (if isBlock then [] else [DetachLoop(device)]) + [Unlink(cow), DetachLoop(cowdev), RemoveMapping(name)]
  {
    var t4: seq<Effect> := [CreateMapping(name, TableLine(size, device, cowdev)), Register(RemoveMapping(name))];
    var t3 := [AttachLoop(cow, cowdev), Register(DetachLoop(cowdev))] + t4;
    var t2 := [MakeSparse(cow, size)] + t3;
    var t1 := [MakeTempFile(tmp, cow), Register(Unlink(cow))] + t2;
    var t0 := [QuerySize(device, size)] + t1;
    RegistrationsOfPair(CreateMapping(name, TableLine(size, device, cowdev)), Register(RemoveMapping(name)));
    RegistrationsOfAcquire(AttachLoop(cow, cowdev), DetachLoop(cowdev), t4);
    RegistrationsOfQuiet(MakeSparse(cow, size), t3);
    RegistrationsOfAcquire(MakeTempFile(tmp, cow), Unlink(cow), t2);
    RegistrationsOfQuiet(QuerySize(device, size), t1);
    var head: seq<Effect> := if isBlock then [] else [AttachLoop(file, device), Register(DetachLoop(device))];
    assert RawSteps(file, tmp, isBlock, device, size, cow, cowdev, name) == head + t0;
    if !isBlock {
      RegistrationsOfAcquire(AttachLoop(file, device), DetachLoop(device), t0);
    } else {
      assert [] + t0 == t0;
    }
  }

  /**
   * The calls `snapshot()` makes once `file` has answered with the source: none when
   * image_info raises; a derived snapshot for any format but raw; the device-mapper
   * steps for a raw source, after a stat that may raise.
   */
  function SnapshotTrace(file: Path, tmp: Path, stat: Option<FileKind>, rep: SnapshotReplies): seq<Effect> {
    if rep.format.None? then []
    else if rep.format.value != "raw" then
      (if rep.derived.None? then [] else [DeriveSnapshot(file, rep.derived.value), Register(Unlink(rep.derived.value))])
    else if stat.None? then []
    else RawTrace(file, tmp, stat == Some(BlockDevice), rep)
  }

  /** The jobs `snapshot()` adds to the ledger once `file` has answered with the source. */
  function SnapshotJobs(file: Path, stat: Option<FileKind>, rep: SnapshotReplies): seq<Job> {
    if rep.format.None? then []
    else if rep.format.value != "raw" then
      (if rep.derived.None? then [] else [Unlink(rep.derived.value)])
    else if stat.None? then []
    else RawTraceJobs(file, stat == Some(BlockDevice), rep)
  }

  /** What `snapshot()` returns or raises once `file` has answered with the source. */
  function SnapshotAnswer(file: Path, stat: Option<FileKind>, rep: SnapshotReplies): Result<Path, DiskError> {
    if rep.format.None? then Err(ToolFailed(ImageInfo))
    else if rep.format.value != "raw" then
      (if rep.derived.None? then Err(ToolFailed(CreateSnapshot)) else Ok(rep.derived.value))
    else if stat.None? then Err(StatFailed(file))
    else RawAnswer(stat == Some(BlockDevice), rep)
  }

  /** An image handle (image_creator.image.Image): a derived device opened for inspection. */
  class Image {
    const device: Path
    const format: string
    var enabled: bool

    constructor (device: Path, format: string)
      ensures this.device == device && this.format == format && !enabled
    {
      this.device := device;
      this.format := format;
      enabled := false;
    }

    /**
     * `enable()`: start the image's handle. Whether it succeeds is the host's answer
     * `succeeds`; a failure raises and leaves the flag as it was.
     */
    method Enable(succeeds: bool) returns (ok: bool)
      modifies this
      ensures ok == succeeds
      ensures enabled == (old(enabled) || succeeds)
    {
      ok := succeeds;
      if succeeds {
        enabled := true;
      }
    }
  }

  class Disk {
    const source: Path
    const tmp: Path
    var jobs: seq<Job>            // _cleanup_jobs, a LIFO ledger
    var images: seq<Image>        // _images, in creation order
    var fileMemo: Option<Path>    // _file
    var effects: seq<Effect>      // every call made on this disk's behalf, in order

    ghost predicate Valid()
      reads this
    {
      && NoLeak(effects, jobs, images)
      && OwnWrites(effects, tmp)
      && Distinct(images)
      && TmpDirAtBottom(jobs, tmp)
      && (fileMemo.Some? ==> fileMemo.value == source || (source == "/" && StartsWith(fileMemo.value, tmp + "/")))
    }

    /**
     * `Disk(source, output, tmp)` once the scratch directory `tmp` exists: its
     * removal is the one entry of the ledger.
     */
    constructor (source: Path, tmp: Path)
      ensures this.source == source && this.tmp == tmp
      ensures jobs == [RemoveTree(tmp)] && images == [] && fileMemo == None
      ensures effects == [MakeTempDir(tmp), Register(RemoveTree(tmp))]
      ensures Valid()
    {
      this.source := source;
      this.tmp := tmp;
      images := [];
      fileMemo := None;
      effects := [MakeTempDir(tmp), Register(RemoveTree(tmp))];
      jobs := [RemoveTree(tmp)];
      new;
      NoLeakAcquire([], [], [], MakeTempDir(tmp));
    }

    /** `_add_cleanup(job, *args)`. */
    method AddCleanup(job: Job)
      modifies this`jobs, this`effects
      ensures jobs == old(jobs) + [job] && effects == old(effects) + [Register(job)]
    {
      jobs := jobs + [job];
      effects := effects + [Register(job)];
    }

    /** `_losetup(fname)`: attach a loop device and register its detach at once. */
    method Losetup(fname: Path, reply: Option<string>) returns (r: Result<Path, DiskError>)
      requires Valid()
      modifies this`jobs, this`effects
      ensures Valid()
      ensures reply.None? ==> r == Err(ToolFailed(Tool.Losetup)) && jobs == old(jobs) && effects == old(effects)
      ensures reply.Some? ==>
        && r == Ok(Strip(reply.value))
        && effects == old(effects) + [AttachLoop(fname, r.value), Register(DetachLoop(r.value))]
        && jobs == old(jobs) + [DetachLoop(r.value)]
    {
      if reply.None? {
        return Err(ToolFailed(Tool.Losetup));
      }
      var loop := Strip(reply.value);  // drop the new-line losetup prints
      Acquire(AttachLoop(fname, loop));
      r := Ok(loop);
    }

    /**
     * `_dir_to_disk()`: only the live root is bundled, into a raw file under the
     * scratch directory whose unlink is registered before the bundler starts.
     */
    method DirToDisk(bundleHex: string, bundleOk: bool) returns (r: Result<Path, DiskError>)
      requires Valid()
      modifies this`jobs, this`effects
      ensures Valid()
      ensures source != "/" ==> r == Err(UnsupportedDirectory) && jobs == old(jobs) && effects == old(effects)
      ensures source == "/" ==>
        var image := BundlePath(tmp, bundleHex);
        && jobs == old(jobs) + [UnlinkIfExists(image)]
        && effects == old(effects) + [Register(UnlinkIfExists(image)), BundleImage(image)]
        && r == (if bundleOk then Ok(image) else Err(BundleFailed))
    {
      if source != "/" {
        return Err(UnsupportedDirectory);
      }
      ghost var e0, j0 := effects, jobs;
      var image := BundlePath(tmp, bundleHex);
      AddCleanup(UnlinkIfExists(image));
      effects := effects + [BundleImage(image)];
      assert effects == e0 + [Register(UnlinkIfExists(image)), BundleImage(image)];
      NoLeakBundle(e0, j0, images, image);
      OwnWritesBundle(e0, tmp, bundleHex);
      TmpDirAtBottomAppend(j0, tmp, UnlinkIfExists(image));
      assert StartsWith(image, tmp + "/") by {
        assert image == (tmp + "/") + (bundleHex + ".raw");
      }
      if !bundleOk {
        return Err(BundleFailed);
      }
      r := Ok(image);
    }

    /**
     * The `file` property: classify the source once and memoise the answer. A failed
     * classification leaves `_file` unset, so the next access examines it again.
     */
    method File(probe: Probe) returns (r: Result<Path, DiskError>)
      requires Valid()
      modifies this`fileMemo, this`jobs, this`effects
      ensures Valid()
      ensures old(fileMemo).Some? ==>
        r == Ok(old(fileMemo).value) && fileMemo == old(fileMemo) && jobs == old(jobs) && effects == old(effects)
      ensures old(fileMemo).None? ==>
        && r == Classify(source, tmp, probe)
        && fileMemo == (if r.Ok? then Some(r.value) else None)
        && effects == old(effects) + ClassifyEffects(source, tmp, probe)
        && jobs == old(jobs) + Registrations(ClassifyEffects(source, tmp, probe))
    {
      if fileMemo.Some? {
        return Ok(fileMemo.value);
      }
      if probe.stat.None? {
        return Err(StatFailed(source));
      }
      match probe.stat.value {
        case Directory =>
          r := DirToDisk(probe.bundleHex, probe.bundleOk);
          if r.Ok? {
            fileMemo := Some(r.value);
          }
        case RegularFile =>
          fileMemo := Some(source);
          r := Ok(source);
        case BlockDevice =>
          fileMemo := Some(source);
          r := Ok(source);
        case OtherKind =>
          r := Err(UnsupportedMedia);
      }
    }

    /**
     * `snapshot()`: a copy-on-write overlay of the source. The live root is not
     * snapshotted (its bundle already is a private copy); a non-raw image gets a
     * derived snapshot file; a raw file or a block device gets a device-mapper
     * snapshot over a loop-attached sparse cow file. Every acquisition is registered
     * before the next call, and nothing is rolled back when a later step fails.
     */
    method Snapshot(probe: Probe, replies: SnapshotReplies) returns (r: Result<Path, DiskError>)
      requires Valid()
      modifies this`fileMemo, this`jobs, this`effects
      ensures Valid()
      ensures source == "/" && old(fileMemo).Some? ==>
        r == Ok(old(fileMemo).value) && effects == old(effects) && jobs == old(jobs)
      ensures source == "/" && old(fileMemo).None? ==>
        && r == Classify(source, tmp, probe)
        && effects == old(effects) + ClassifyEffects(source, tmp, probe)
        && jobs == old(jobs) + Registrations(ClassifyEffects(source, tmp, probe))
      ensures source != "/" && old(fileMemo).None? && Classify(source, tmp, probe).Err? ==>
        r == Classify(source, tmp, probe) && effects == old(effects) && jobs == old(jobs)
      ensures source != "/" && (old(fileMemo).Some? || Classify(source, tmp, probe).Ok?) ==>
        && fileMemo == Some(source)
        && effects == old(effects) + SnapshotTrace(source, tmp, probe.stat, replies)
        && jobs == old(jobs) + SnapshotJobs(source, probe.stat, replies)
        && r == SnapshotAnswer(source, probe.stat, replies)
    {
      if source == "/" {
        // host bundling mode: the bundle is already a private copy
        r := File(probe);
        return;
      }
      var f := File(probe);
      if f.Err? {
        return Err(f.error);
      }
      r := SnapshotOf(f.value, probe.stat, replies);
    }

    /** `snapshot()` once `file` has answered with the source itself. */
    method SnapshotOf(file: Path, stat: Option<FileKind>, replies: SnapshotReplies) returns (r: Result<Path, DiskError>)
      requires Valid()
      modifies this`jobs, this`effects
      ensures Valid()
      ensures effects == old(effects) + SnapshotTrace(file, tmp, stat, replies)
      ensures jobs == old(jobs) + SnapshotJobs(file, stat, replies)
      ensures r == SnapshotAnswer(file, stat, replies)
    {
      if replies.format.None? {
        return Err(ToolFailed(ImageInfo));
      }
      if replies.format.value != "raw" {
        if replies.derived.None? {
          return Err(ToolFailed(CreateSnapshot));
        }
        var snapshot := replies.derived.value;
        Acquire(DeriveSnapshot(file, snapshot));
        return Ok(snapshot);
      }
      if stat.None? {
        return Err(StatFailed(file));
      }
      r := SnapshotRaw(file, stat.value == BlockDevice, replies);
    }

    /**
     * The device-mapper half of `snapshot()`, for a raw file or a block device: the
     * origin is the source itself when it is a block device, a loop device over it
     * otherwise.
     */
    method SnapshotRaw(file: Path, isBlock: bool, replies: SnapshotReplies) returns (r: Result<Path, DiskError>)
      requires Valid()
      modifies this`jobs, this`effects
      ensures Valid()
      ensures effects == old(effects) + RawTrace(file, tmp, isBlock, replies)
      ensures jobs == old(jobs) + RawTraceJobs(file, isBlock, replies)
      ensures r == RawAnswer(isBlock, replies)
    {
      if isBlock {
        r := SnapshotOnDevice(file, replies);
        return;
      }
      ghost var e0, j0 := effects, jobs;
      var loop := Losetup(file, replies.originLoop);
      if loop.Err? {
        return Err(loop.error);
      }
      var device := loop.value;
      r := SnapshotOnDevice(device, replies);
      AppendAssoc(e0, [AttachLoop(file, device), Register(DetachLoop(device))], DeviceStage(tmp, device, replies));
      AppendAssoc(j0, [DetachLoop(device)], DeviceJobs(replies));
    }

    /** Read the size of the origin device in sectors, then snapshot it over a cow file. */
    method SnapshotOnDevice(device: Path, replies: SnapshotReplies) returns (r: Result<Path, DiskError>)
      requires Valid()
      modifies this`jobs, this`effects
      ensures Valid()
      ensures effects == old(effects) + DeviceStage(tmp, device, replies)
      ensures jobs == old(jobs) + DeviceJobs(replies)
      ensures r == DeviceAnswer(replies)
    {
      ghost var e0 := effects;
      if replies.sectors.None? {
        return Err(ToolFailed(Blockdev));
      }
      var size := replies.sectors.value;
      Note(QuerySize(device, size));
      r := SnapshotCow(device, size, replies);
      AppendAssoc(e0, [QuerySize(device, size)], CowStage(tmp, device, size, replies));
    }

    /**
     * Make the cow file under the scratch directory, registering its unlink at once,
     * and extend it sparsely to the size of the origin.
     */
    method SnapshotCow(device: Path, size: nat, replies: SnapshotReplies) returns (r: Result<Path, DiskError>)
      requires Valid()
      modifies this`jobs, this`effects
      ensures Valid()
      ensures effects == old(effects) + CowStage(tmp, device, size, replies)
      ensures jobs == old(jobs) + CowJobs(replies)
      ensures r == CowAnswer(replies)
    {
      ghost var e0, j0 := effects, jobs;
      if replies.cowFile.None? {
        return Err(ToolFailed(Mkstemp));
      }
      var cow := replies.cowFile.value;
      Acquire(MakeTempFile(tmp, cow));
      if !replies.sparseOk {
        return Err(ToolFailed(Dd));
      }
      assert effects[|effects| - 2] == MakeTempFile(tmp, cow);
      ghost var e1 := effects;
      Note(MakeSparse(cow, size));
      r := SnapshotMapping(cow, device, size, replies);
      AppendAssoc(e1, [MakeSparse(cow, size)], MappingStage(cow, device, size, replies));
      AppendAssoc(e0, [MakeTempFile(tmp, cow), Register(Unlink(cow))],
                  [MakeSparse(cow, size)] + MappingStage(cow, device, size, replies));
      AppendAssoc(j0, [Unlink(cow)], MappingJobs(replies));
    }

    /**
     * Attach the cow file and create the `snapshot` mapping of the origin over it,
     * registering the detach and the removal each right after its call.
     */
    method SnapshotMapping(cow: Path, device: Path, size: nat, replies: SnapshotReplies) returns (r: Result<Path, DiskError>)
      requires Valid()
      modifies this`jobs, this`effects
      ensures Valid()
      ensures effects == old(effects) + MappingStage(cow, device, size, replies)
      ensures jobs == old(jobs) + MappingJobs(replies)
      ensures r == MappingAnswer(replies)
    {
      var cowLoop := Losetup(cow, replies.cowLoop);
      if cowLoop.Err? {
        return Err(cowLoop.error);
      }
      var cowdev := cowLoop.value;
      var name := SnapshotName(replies.uuidHex);
      // the table goes through a temporary file that is removed at once
      if !replies.createOk {
        return Err(ToolFailed(Dmsetup));
      }
      Acquire(CreateMapping(name, TableLine(size, device, cowdev)));
      r := Ok(MapperPath(name));
    }

    /** Records a call that acquires something, with the registration of its release right after it. */
    method Acquire(e: Effect)
      requires Valid() && ReleaseOf(e).Some? && !e.BundleImage? && !e.MakeTempDir?
      modifies this`jobs, this`effects
      ensures Valid()
      ensures effects == old(effects) + [e, Register(ReleaseOf(e).value)] && jobs == old(jobs) + [ReleaseOf(e).value]
    {
      ghost var e0, j0 := effects, jobs;
      effects := effects + [e];
      AddCleanup(ReleaseOf(e).value);
      assert effects == e0 + [e, Register(ReleaseOf(e).value)];
      NoLeakAcquire(e0, j0, images, e);
      OwnWritesAppend(e0, tmp, [e, Register(ReleaseOf(e).value)]);
      TmpDirAtBottomAppend(j0, tmp, ReleaseOf(e).value);
    }

    /** Records a call that acquires nothing: the size query, or the extension of a file of the disk's own. */
    method Note(e: Effect)
      requires Valid() && (e.QuerySize? || (e.MakeSparse? && MakeTempFile(tmp, e.file) in effects))
      modifies this`effects
      ensures Valid() && effects == old(effects) + [e]
    {
      ghost var e0 := effects;
      effects := effects + [e];
      NoLeakQuiet(e0, jobs, images, e);
      if e.MakeSparse? {
        OwnWritesSparse(e0, tmp, e.file, e.sectors);
      } else {
        OwnWritesAppend(e0, tmp, [e]);
      }
    }

    /**
     * `get_image(media)`: open a new image handle, track it, then enable it. The
     * image is tracked before `enable()` runs, so an image whose enabling raises
     * stays tracked, and `cleanup` destroys it later.
     */
    method GetImage(media: Path, format: Option<string>, enableOk: bool) returns (r: Result<Image, DiskError>)
      requires Valid()
      modifies this`images, this`effects
      ensures Valid()
      ensures format.None? ==> r == Err(ToolFailed(ImageInfo)) && images == old(images) && effects == old(effects)
      ensures format.Some? ==>
        && |images| == |old(images)| + 1 && images[..|old(images)|] == old(images)
        && var image := images[|old(images)|];
        && fresh(image) && image.device == media && image.format == format.value
        && effects == old(effects) + [OpenImage(image)]
        && image.enabled == enableOk
        && r == (if enableOk then Ok(image) else Err(EnableFailed(image)))
    {
      if format.None? {
        return Err(ToolFailed(ImageInfo));
      }
      ghost var e0, i0 := effects, images;
      var image := new Image(media, format.value);
      DistinctSnoc(images, image);
      images := images + [image];
      effects := effects + [OpenImage(image)];
      NoLeakOpen(e0, jobs, i0, image);
      OwnWritesAppend(e0, tmp, [OpenImage(image)]);
      var ok := image.Enable(enableOk);
      if !ok {
        return Err(EnableFailed(image));
      }
      r := Ok(image);
    }

    /**
     * `destroy_image(image)`: untrack the image, then destroy it. An image this disk
     * does not track raises before anything is destroyed.
     */
    method DestroyImage(image: Image, fails: bool) returns (r: Outcome<DiskError>)
      requires Valid()
      modifies this`images, this`effects
      ensures Valid()
      ensures image !in old(images) ==> r == Fail(NotTracked) && images == old(images) && effects == old(effects)
      ensures image in old(images) ==>
        && images == RemoveFirst(old(images), image) && image !in images
        && effects == old(effects) + [Destroy(image)]
        && r == (if fails then Fail(DestroyFailed(image)) else Pass)
    {
      if image !in images {
        return Fail(NotTracked);
      }
      ghost var e0, i0 := effects, images;
      images := RemoveFirst(images, image);
      effects := effects + [Destroy(image)];
      DistinctRemoveFirst(i0, image);
      NoLeakDestroy(e0, jobs, i0, image, images);
      OwnWritesAppend(e0, tmp, [Destroy(image)]);
      r := if fails then Fail(DestroyFailed(image)) else Pass;
    }

    /** The `try` half of `cleanup()`: destroy the tracked images newest first until one raises. */
    method DestroyAll(destroyFails: Image -> bool) returns (failed: Option<Image>)
      requires Valid()
      modifies this`images, this`effects
      ensures Valid()
      ensures var u := Unwind(old(images), destroyFails);
              && images == u.remaining && effects == old(effects) + Destroyed(u.popped)
              && failed == (if u.raised then Some(Last(u.popped)) else None)
    {
      failed := None;
      ghost var images0, effects0 := images, effects;
      ghost var popped: seq<Image> := [];
      UnwindingStart(images0, destroyFails);
      while images != [] && failed.None?
        invariant Valid()
        invariant effects == effects0 + Destroyed(popped)
        invariant Unwinding(images0, destroyFails, popped, images, failed)
        decreases |images|
      {
        UnwindingStep(images0, destroyFails, popped, images);
        var image := PopImage();
        DestroyedSnoc(popped, image);
        popped := popped + [image];
        if destroyFails(image) {
          failed := Some(image);
        }
      }
      UnwindingEnd(images0, destroyFails, popped, images, failed);
    }

    /** `image = self._images.pop(); image.destroy()`: the newest image is untracked and destroyed. */
    method PopImage() returns (image: Image)
      requires Valid() && images != []
      modifies this`images, this`effects
      ensures Valid()
      ensures image == Last(old(images)) && images == old(images)[..|old(images)| - 1]
      ensures effects == old(effects) + [Destroy(image)]
    {
      ghost var e0, i0 := effects, images;
      image := images[|images| - 1];
      images := images[..|images| - 1];
      effects := effects + [Destroy(image)];
      forall m | m in i0 && m != image ensures m in images {
        var j :| 0 <= j < |i0| && i0[j] == m;
        assert images[j] == m;
      }
      NoLeakDestroy(e0, jobs, i0, image, images);
      OwnWritesAppend(e0, tmp, [Destroy(image)]);
    }

    /** The `finally` half of `cleanup()`: run the ledger newest first until a job raises. */
    method RunLedger(jobFails: Job -> bool) returns (failed: Option<Job>)
      requires Valid()
      modifies this`jobs, this`effects
      ensures Valid()
      ensures var u := Unwind(old(jobs), jobFails);
              && jobs == u.remaining && effects == old(effects) + Ran(u.popped)
              && failed == (if u.raised then Some(Last(u.popped)) else None)
    {
      failed := None;
      ghost var jobs0, effects0 := jobs, effects;
      ghost var popped: seq<Job> := [];
      UnwindingStart(jobs0, jobFails);
      while jobs != [] && failed.None?
        invariant Valid()
        invariant effects == effects0 + Ran(popped)
        invariant Unwinding(jobs0, jobFails, popped, jobs, failed)
        decreases |jobs|
      {
        UnwindingStep(jobs0, jobFails, popped, jobs);
        var job := PopJob();
        RanSnoc(popped, job);
        popped := popped + [job];
        if jobFails(job) {
          failed := Some(job);
        }
      }
      UnwindingEnd(jobs0, jobFails, popped, jobs, failed);
    }

    /** `job, args = self._cleanup_jobs.pop(); job(*args)`: the newest job leaves the ledger and runs. */
    method PopJob() returns (job: Job)
      requires Valid() && jobs != []
      modifies this`jobs, this`effects
      ensures Valid()
      ensures job == Last(old(jobs)) && jobs == old(jobs)[..|old(jobs)| - 1]
      ensures effects == old(effects) + [RunJob(job)]
    {
      ghost var e0, j0 := effects, jobs;
      job := jobs[|jobs| - 1];
      jobs := jobs[..|jobs| - 1];
      effects := effects + [RunJob(job)];
      forall x | x in j0 && x != job ensures x in jobs {
        var j :| 0 <= j < |j0| && j0[j] == x;
        assert jobs[j] == x;
      }
      NoLeakRun(e0, j0, images, job, jobs);
      OwnWritesAppend(e0, tmp, [RunJob(job)]);
    }

    /**
     * `cleanup()`: destroy the tracked images newest first, then, whatever happened,
     * run the ledger newest first. A raising destroy stops the image loop but not the
     * ledger; a raising job stops the ledger, and its error is the one that escapes.
     */
    method Cleanup(destroyFails: Image -> bool, jobFails: Job -> bool) returns (r: Outcome<DiskError>)
      requires Valid()
      modifies this`images, this`jobs, this`effects
      ensures Valid()
      ensures var ui := Unwind(old(images), destroyFails);
              var uj := Unwind(old(jobs), jobFails);
              && images == ui.remaining && jobs == uj.remaining
              && effects == old(effects) + Destroyed(ui.popped) + Ran(uj.popped)
              && r == (if uj.raised then Fail(JobFailed(Last(uj.popped)))
                       else if ui.raised then Fail(DestroyFailed(Last(ui.popped)))
                       else Pass)
    {
      var failedImage := DestroyAll(destroyFails);
      var failedJob := RunLedger(jobFails);
      if failedJob.Some? {
        r := Fail(JobFailed(failedJob.value));
      } else if failedImage.Some? {
        r := Fail(DestroyFailed(failedImage.value));
      } else {
        r := Pass;
      }
    }
  }

  /**
   * `Disk(source, output, tmp)`: choose the scratch parent with get_tmp_dir, create
   * the scratch directory (mkdtemp answers with its random part, or None when it
   * raises) and register its removal.
   */
  method NewDisk(source: Path, pinned: Option<Path>, home: Path, writable: Path -> bool,
                 freeSpace: Path -> nat, mkdtemp: Option<string>)
    returns (r: Result<Disk, DiskError>)
    ensures r.Ok? ==>
      && fresh(r.value) && r.value.Valid() && r.value.source == source
      && r.value.jobs == [RemoveTree(r.value.tmp)] && r.value.images == [] && r.value.fileMemo == None
    ensures pinned.Some? ==>
      && (r.Ok? <==> mkdtemp.Some?)
      && (r.Ok? ==> r.value.tmp == ScratchDirName(pinned.value, mkdtemp.value))
    ensures pinned.None? && TmpDir.WritableOnes(TmpDir.Candidates(home), writable) == [] ==> r == Err(NoTmpCandidate)
    ensures pinned.None? && TmpDir.WritableOnes(TmpDir.Candidates(home), writable) != [] ==>
      var usable := TmpDir.WritableOnes(TmpDir.Candidates(home), writable);
      && (r.Ok? <==> mkdtemp.Some?)
      && (r.Ok? ==> exists k: nat :: k < |usable| && TmpDir.IsFirstMaximum(TmpDir.FreeSpaces(usable, freeSpace), k)
                                     && r.value.tmp == ScratchDirName(usable[k], mkdtemp.value))
  {
    var parent := TmpDir.GetTmpDir(pinned, home, writable, freeSpace);
    if parent.Err? {
      return Err(NoTmpCandidate);
    }
    if mkdtemp.None? {
      return Err(ToolFailed(Mkdtemp));
    }
    var d := new Disk(source, ScratchDirName(parent.value, mkdtemp.value));
    r := Ok(d);
  }
}
