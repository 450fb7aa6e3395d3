/**
 * The one bit-exact external format of the disk manager: the table line handed to
 * `dmsetup create` for a device-mapper `snapshot` target, as documented in the Linux
 * kernel's device-mapper snapshot documentation:
 *   <start> <length> snapshot <origin> <COW device> <persistent?> <chunksize>
 */
module DmTable {
  import opened Base
  import opened Text

  /** Prefix of every snapshot device name (`snf-image-creator-snapshot-<hex>`). */
  const SnapshotPrefix: string := "snf-image-creator-snapshot-"

  /** Directory where device-mapper exposes the devices it creates. */
  const MapperDir: string := "/dev/mapper/"

  /** The fields of a `snapshot` target line. */
  datatype SnapshotTarget = SnapshotTarget(
    start: nat,          // first sector of the mapped device
    length: nat,         // number of 512-byte sectors
    origin: string,      // origin block device
    cow: string,         // copy-on-write block device
    persistent: bool,    // `p` (true) or `n` (false)
    chunkSectors: nat)   // chunk size in sectors

  /**
   * `"0 %d snapshot %s %s n 8\n" % (size, device, cowdev)` of disk.py: the seven
   * fields of the target, separated by single spaces and ended by a new line.
   */
  function TableLine(sectors: nat, origin: string, cow: string): string {
    Join(TableFields(sectors, origin, cow), ' ') + "\n"
  }

  /** The fields of the line written for a snapshot of `sectors` sectors. */
  function TableFields(sectors: nat, origin: string, cow: string): seq<string> {
    ["0", NatToString(sectors), "snapshot", origin, cow, "n", "8"]
  }

  /** Name given to the n-th snapshot device, from a uuid4 hex string. */
  function SnapshotName(hex: string): string {
    SnapshotPrefix + hex
  }

  /** Path of the device `dmsetup create <name>` makes. */
  function MapperPath(name: string): string {
    MapperDir + name
  }

  /** Reads a table line the way the kernel's `snapshot` target reads its arguments. */
  function ParseTable(line: string): (t: Option<SnapshotTarget>)
    ensures t.Some? ==> |line| >= 1 && line[|line| - 1] == '\n'
  {
    if |line| == 0 || line[|line| - 1] != '\n' then None
    else
      var f := Split(line[..|line| - 1], ' ');
      if |f| == 7 && AllDigits(f[0]) && AllDigits(f[1]) && f[2] == "snapshot"
         && (f[5] == "p" || f[5] == "n") && AllDigits(f[6]) && f[0] != [] && f[1] != [] && f[6] != []
      then Some(SnapshotTarget(ParseNat(f[0]), ParseNat(f[1]), f[3], f[4], f[5] == "p", ParseNat(f[6])))
      else None
  }

  /** A device name that can stand as one field of a table line. */
  predicate IsDeviceField(s: string) {
    s != [] && ' ' !in s && '\n' !in s
  }

  /**
   * The line disk.py writes is a well-formed snapshot table that maps sectors
   * [0, sectors) non-persistently onto `origin` with `cow` as exception store and
   * 8-sector chunks: the kernel reads back exactly the values it was given.
   */
  lemma TableLineRoundTrip(sectors: nat, origin: string, cow: string)
    requires IsDeviceField(origin) && IsDeviceField(cow)
    ensures ParseTable(TableLine(sectors, origin, cow))
            == Some(SnapshotTarget(0, sectors, origin, cow, false, 8))
  {
    var fields := TableFields(sectors, origin, cow);
    var line := TableLine(sectors, origin, cow);
    assert line[..|line| - 1] == Join(fields, ' ');
    NumberField(sectors);
    ConstantFields();
    SplitJoin(fields, ' ');
    ParseTableOf(line, fields);
  }

  /** A sector count printed in decimal is a non-empty run of digits that reads back as itself. */
  lemma NumberField(n: nat)
    ensures var s := NatToString(n); s != [] && AllDigits(s) && ' ' !in s && ParseNat(s) == n
  {
    var s := NatToString(n);
    assert ' ' !in s by {
      forall i | 0 <= i < |s| ensures s[i] != ' ' { assert IsDigit(s[i]); }
    }
    ParseNatToString(n);
  }

  /** The constant fields hold no space, and the numeric ones read as 0 and 8. */
  lemma ConstantFields()
    ensures AllDigits("0") && ParseNat("0") == 0 && AllDigits("8") && ParseNat("8") == 8
    ensures ' ' !in "0" && ' ' !in "8" && ' ' !in "n" && ' ' !in "snapshot"
  {
  }

  /** `ParseTable` on a line whose body splits into the fields `f`. */
  lemma ParseTableOf(line: string, f: seq<string>)
    requires |line| >= 1 && line[|line| - 1] == '\n' && Split(line[..|line| - 1], ' ') == f
    requires |f| == 7 && f[2] == "snapshot" && (f[5] == "p" || f[5] == "n")
    requires AllDigits(f[0]) && AllDigits(f[1]) && AllDigits(f[6]) && f[0] != [] && f[1] != [] && f[6] != []
    ensures ParseTable(line) == Some(SnapshotTarget(ParseNat(f[0]), ParseNat(f[1]), f[3], f[4], f[5] == "p", ParseNat(f[6])))
  {
  }
}
