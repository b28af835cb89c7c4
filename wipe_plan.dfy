/**
  The per-volume wipe plan: where the fill file goes, how many megabytes the
  safety buffer allows, and the exact argument list handed to `/bin/dd`.
 */
module WipePlan {
  import opened Platform
  import opened Paths
  import opened Decimal

  const MiB: nat := 1_048_576

  /** Head-room kept free when the safety buffer is on, in MiB. */
  const SafetyBufferMiB: nat := 2048

  const SharedFolder: string := "Users/Shared"
  const FillFolderName: string := "PurgePointFill"
  const FillFileName: string := "junk"

  const DdPath: string := "/bin/dd"
  const RandomDevice: string := "/dev/urandom"
  const ZeroDevice: string := "/dev/zero"
  const BlockSize: string := "32m"

  /** What dd reads `bs=32m` as, in bytes. */
  const BlockSizeBytes: nat := 32 * MiB

  /**
    The directory the fill folder is created in: the protected top level of the
    data partition is swapped for its shared-users folder, every other path is
    used as it is.
   */
  function WorkingRoot(path: string): (root: string)
    ensures path != DataVolume ==> root == path
    ensures path == DataVolume ==> |root| == |DataVolume| + 1 + |SharedFolder|
  {
    if path == DataVolume then AppendPathComponent(path, SharedFolder) else path
  }

  /**
    The working root is the volume itself, except that the top of the data
    partition is never used: its replacement lies inside it.
   */
  lemma WorkingRootInsideVolume(path: string)
    ensures WorkingRoot(path) != DataVolume
    ensures path != DataVolume ==> WorkingRoot(path) == path
    ensures path == DataVolume ==> DataVolume < WorkingRoot(path)
  {
    AppendedPath(path, SharedFolder);
  }

  /** `<root>/PurgePointFill`: a folder named PurgePointFill inside the working root. */
  function FillDirectory(root: string): (dir: string)
    ensures |dir| == |root| + |FillFolderName| || |dir| == |root| + 1 + |FillFolderName|
  {
    AppendPathComponent(root, FillFolderName)
  }

  /** `<dir>/junk`: the file named junk inside the fill folder, which dd writes. */
  function JunkPath(dir: string): (junk: string)
    ensures |junk| == |dir| + |FillFileName| || |junk| == |dir| + 1 + |FillFileName|
  {
    AppendPathComponent(dir, FillFileName)
  }

  /**
    The fill folder lies inside the working root and is named PurgePointFill;
    the fill file lies inside the fill folder and is named junk.
   */
  lemma FillPaths(root: string)
    ensures root < FillDirectory(root) < JunkPath(FillDirectory(root))
    ensures LastPathComponent(FillDirectory(root)) == FillFolderName
    ensures LastPathComponent(JunkPath(FillDirectory(root))) == FillFileName
  {
    AppendedPath(root, FillFolderName);
    AppendedPath(FillDirectory(root), FillFileName);
    LastComponentOfAppended(root, FillFolderName);
    LastComponentOfAppended(FillDirectory(root), FillFileName);
  }

  /** The volume root, when selected, is filled under the data partition's shared folder. */
  lemma DataVolumeFillPath()
    ensures JunkPath(FillDirectory(WorkingRoot(DataVolume)))
            == "/System/Volumes/Data/Users/Shared/PurgePointFill/junk"
  {
    assert DataVolume[|DataVolume| - 1] == 'a';
    var root := WorkingRoot(DataVolume);
    assert root == "/System/Volumes/Data/Users/Shared";
    assert root[|root| - 1] == 'd';
    var dir := FillDirectory(root);
    assert dir == "/System/Volumes/Data/Users/Shared/PurgePointFill";
    assert dir[|dir| - 1] == 'l';
  }

  /** The input device: random bytes for a secure erase, zeros otherwise. */
  function InputDevice(useSecureErase: bool): (device: string)
    ensures device == RandomDevice <==> useSecureErase
    ensures device == ZeroDevice <==> !useSecureErase
  {
    if useSecureErase then RandomDevice else ZeroDevice
  }

  /**
    `calculateWritableMegabytes`: available bytes in whole MiB (rounded down),
    or 1 when the capacity cannot be read.
   */
  function AvailableMegabytes(capacity: Option<nat>): (mb: nat)
    ensures capacity.None? ==> mb == 1
    ensures capacity.Some? ==> mb * MiB <= capacity.value < (mb + 1) * MiB
  {
    match capacity
    case None => 1
    case Some(bytes) => bytes / MiB
  }

  /** `max(available − 2048, 1)`: the megabytes dd may use, never less than one. */
  function WritableMegabytes(availableMB: int): (mb: nat)
    ensures mb >= 1 && mb >= availableMB - SafetyBufferMiB
    ensures mb == 1 || mb == availableMB - SafetyBufferMiB
  {
    if availableMB - SafetyBufferMiB > 1 then availableMB - SafetyBufferMiB else 1
  }

  /** The `count=` value: present exactly when the safety buffer is on, and then at least one. */
  function BlockCount(leaveSafetyBuffer: bool, capacity: Option<nat>): (count: Option<nat>)
    ensures count.Some? <==> leaveSafetyBuffer
    ensures count.Some? ==> count.value >= 1
    ensures count.Some? && capacity.None? ==> count.value == 1
  {
    if leaveSafetyBuffer then Some(WritableMegabytes(AvailableMegabytes(capacity))) else None
  }

  /** `totalBytes`: the budget the progress percentage is measured against, 0 when there is none. */
  function TotalBytes(count: Option<nat>): (bytes: nat)
    ensures bytes % MiB == 0
    ensures count.None? ==> bytes == 0
    ensures count.Some? ==> bytes / MiB == count.value
  {
    match count
    case None => 0
    case Some(mb) => mb * MiB
  }

  /**
    With the buffer on and the capacity known, the progress budget leaves at
    least 2 GiB of the volume free once the volume has more than 2 GiB + 1 MiB.
   */
  lemma BudgetLeavesHeadroom(capacity: nat)
    requires capacity >= (SafetyBufferMiB + 2) * MiB
    ensures TotalBytes(BlockCount(true, Some(capacity))) + SafetyBufferMiB * MiB <= capacity
  {
    var avail := AvailableMegabytes(Some(capacity));
    assert avail >= SafetyBufferMiB + 2;
    assert WritableMegabytes(avail) == avail - SafetyBufferMiB;
    calc {
      TotalBytes(BlockCount(true, Some(capacity))) + SafetyBufferMiB * MiB;
      (avail - SafetyBufferMiB) * MiB + SafetyBufferMiB * MiB;
      avail * MiB;
    <=
      capacity;
    }
  }

  /**
    The argument list of the dd process, in order: input device, output file,
    block size, progress reporting, direct I/O, and the block count when there is one.
   */
  function DdArguments(useSecureErase: bool, junkPath: string, count: Option<nat>): (args: seq<string>)
    ensures |args| == if count.Some? then 6 else 5
  {
    [Operand("if", InputDevice(useSecureErase)), Operand("of", junkPath), Operand("bs", BlockSize),
     Operand("status", "progress"), Operand("oflag", "direct")]
    + (if count.Some? then [Operand("count", NatToString(count.value))] else [])
  }

  /** A dd operand written out: `key=value`. */
  function Operand(key: string, value: string): string
  {
    key + "=" + value
  }

  /** Position of the first '=' in an operand. */
  function IndexOfEquals(arg: string): (r: Option<nat>)
    ensures r.Some? ==> r.value < |arg| && arg[r.value] == '=' && '=' !in arg[..r.value]
    ensures r.None? ==> '=' !in arg
  {
    if arg == [] then None
    else if arg[0] == '=' then Some(0)
    else match IndexOfEquals(arg[1..])
      case None => None
      case Some(i) => Some(i + 1)
  }

  /** The operand an argument sets: `key=value` split at the first '='; nothing without one. */
  function OperandOf(arg: string): map<string, string>
  {
    match IndexOfEquals(arg)
    case None => map[]
    case Some(i) => map[arg[..i] := arg[i + 1..]]
  }

  /** How dd reads its operands, in order; a later operand overrides an earlier one. */
  function Operands(args: seq<string>): map<string, string>
  {
    if args == [] then map[] else OperandOf(args[0]) + Operands(args[1..])
  }

  lemma {:induction false} SplitOperand(key: string, value: string)
    requires '=' !in key
    ensures OperandOf(Operand(key, value)) == map[key := value]
  {
    IndexOfKey(key, value);
    var arg := Operand(key, value);
    assert arg[..|key|] == key;
    assert arg[|key| + 1..] == value;
  }

  lemma {:induction false} IndexOfKey(key: string, value: string)
    requires '=' !in key
    ensures IndexOfEquals(key + "=" + value) == Some(|key|)
  {
    var arg := key + "=" + value;
    if key == [] {
      assert arg[0] == '=';
    } else {
      assert key[0] in key;
      assert arg[1..] == key[1..] + "=" + value;
      assert forall c :: c in key[1..] ==> c in key;
      IndexOfKey(key[1..], value);
    }
  }

  lemma {:induction false} OperandsOfConcat(a: seq<string>, b: seq<string>)
    ensures Operands(a + b) == Operands(a) + Operands(b)
  {
    if a == [] {
      assert a + b == b;
    } else {
      assert (a + b)[1..] == a[1..] + b;
      OperandsOfConcat(a[1..], b);
      UnionAssociative(OperandOf(a[0]), Operands(a[1..]), Operands(b));
    }
  }

  // A map identity; it only splits verification work.
  lemma UnionAssociative<K, V>(x: map<K, V>, y: map<K, V>, z: map<K, V>)
    ensures (x + y) + z == x + (y + z)
  {
  }

  lemma {:induction false} OperandsOfCons(key: string, value: string, rest: seq<string>)
    requires '=' !in key
    ensures Operands([Operand(key, value)] + rest) == map[key := value] + Operands(rest)
  {
    SplitOperand(key, value);
    assert ([Operand(key, value)] + rest)[1..] == rest;
  }

  /** Five `key=value` operands read back, a later key overriding an earlier one. */
  lemma FiveOperands(k0: string, v0: string, k1: string, v1: string, k2: string, v2: string,
                     k3: string, v3: string, k4: string, v4: string)
    requires '=' !in k0 && '=' !in k1 && '=' !in k2 && '=' !in k3 && '=' !in k4
    ensures Operands([Operand(k0, v0), Operand(k1, v1), Operand(k2, v2), Operand(k3, v3), Operand(k4, v4)])
            == map[k0 := v0, k1 := v1, k2 := v2, k3 := v3, k4 := v4]
  {
    var r4: seq<string> := [Operand(k4, v4)] + [];
    OperandsOfCons(k4, v4, []);
    var r3 := [Operand(k3, v3)] + r4;
    OperandsOfCons(k3, v3, r4);
    var r2 := [Operand(k2, v2)] + r3;
    OperandsOfCons(k2, v2, r3);
    var r1 := [Operand(k1, v1)] + r2;
    OperandsOfCons(k1, v1, r2);
    var r0 := [Operand(k0, v0)] + r1;
    OperandsOfCons(k0, v0, r1);
    var m := map[k0 := v0] + (map[k1 := v1] + (map[k2 := v2] + (map[k3 := v3] + (map[k4 := v4] + map[]))));
    assert Operands(r0) == m;
    FiveAsDisplay(Operand(k0, v0), Operand(k1, v1), Operand(k2, v2), Operand(k3, v3), Operand(k4, v4));
    FiveAsUpdates(k0, v0, k1, v1, k2, v2, k3, v3, k4, v4);
  }

  // A sequence identity; it only splits verification work.
  lemma FiveAsDisplay<T>(a0: T, a1: T, a2: T, a3: T, a4: T)
    ensures [a0] + ([a1] + ([a2] + ([a3] + ([a4] + [])))) == [a0, a1, a2, a3, a4]
  {
  }

  // A map identity; it only splits verification work.
  lemma FiveAsUpdates<K, V>(k0: K, v0: V, k1: K, v1: V, k2: K, v2: V, k3: K, v3: V, k4: K, v4: V)
    ensures map[k0 := v0] + (map[k1 := v1] + (map[k2 := v2] + (map[k3 := v3] + (map[k4 := v4] + map[]))))
            == map[k0 := v0, k1 := v1, k2 := v2, k3 := v3, k4 := v4]
  {
  }

  /** Reading the argument list back gives the operands the wipe intends, and nothing else. */
  lemma DdArgumentsRoundTrip(useSecureErase: bool, junkPath: string, count: Option<nat>)
    ensures Operands(DdArguments(useSecureErase, junkPath, count))
            == map["if" := InputDevice(useSecureErase), "of" := junkPath, "bs" := BlockSize,
                   "status" := "progress", "oflag" := "direct"]
               + (if count.Some? then map["count" := NatToString(count.value)] else map[])
  {
    var fixed := [Operand("if", InputDevice(useSecureErase)), Operand("of", junkPath), Operand("bs", BlockSize),
                  Operand("status", "progress"), Operand("oflag", "direct")];
    var tail: seq<string> := if count.Some? then [Operand("count", NatToString(count.value))] else [];
    assert DdArguments(useSecureErase, junkPath, count) == fixed + tail;
    OperandsOfConcat(fixed, tail);
    FiveOperands("if", InputDevice(useSecureErase), "of", junkPath, "bs", BlockSize, "status", "progress", "oflag", "direct");
    CountOperand(count);
  }

  /** The optional last operand reads back as the block count. */
  lemma CountOperand(count: Option<nat>)
    ensures Operands(if count.Some? then [Operand("count", NatToString(count.value))] else [])
            == if count.Some? then map["count" := NatToString(count.value)] else map[]
  {
    if count.Some? {
      var tail := [Operand("count", NatToString(count.value))];
      SplitOperand("count", NatToString(count.value));
      assert tail[1..] == [];
    }
  }

  /** The number of bytes dd is told to write: `count` blocks of `bs`; None means "until the disk is full". */
  function RequestedBytes(args: seq<string>): Option<nat>
  {
    var ops := Operands(args);
    if "count" in ops && AllDigits(ops["count"]) && "bs" in ops && ops["bs"] == BlockSize
    then Some(DigitsValue(ops["count"]) * BlockSizeBytes)
    else None
  }

  lemma BlocksInBytes(c: nat)
    ensures c * BlockSizeBytes == 32 * (c * MiB)
  {
  }

  /**
    `count=` counts 32 MiB blocks while the progress budget counts MiB: dd is
    asked for 32 times the bytes the progress percentage is measured against,
    and runs unbounded when there is no count.
   */
  lemma DdRequestsThirtyTwoTimesBudget(useSecureErase: bool, junkPath: string, count: Option<nat>)
    ensures count.None? ==> RequestedBytes(DdArguments(useSecureErase, junkPath, count)).None?
    ensures count.Some? ==> RequestedBytes(DdArguments(useSecureErase, junkPath, count)) == Some(32 * TotalBytes(count))
  {
    DdArgumentsRoundTrip(useSecureErase, junkPath, count);
    var ops := Operands(DdArguments(useSecureErase, junkPath, count));
    assert "bs" in ops && ops["bs"] == BlockSize;
    if count.Some? {
      var c := count.value;
      assert ops["count"] == NatToString(c);
      NatToStringRoundTrip(c);
      assert DigitsValue(ops["count"]) == c;
      BlocksInBytes(c);
    } else {
      assert "count" !in ops;
    }
  }

  /** With 4 GiB free and the buffer on, dd is asked for 64 GiB: the head-room is not kept. */
  lemma SafetyBufferExample()
    ensures BlockCount(true, Some(4096 * MiB)) == Some(2048)
    ensures BlockCount(true, Some(1000 * MiB)) == Some(1)
    ensures RequestedBytes(DdArguments(false, "/Volumes/USB/PurgePointFill/junk", Some(2048))) == Some(64 * 1024 * MiB)
  {
    assert AvailableMegabytes(Some(4096 * MiB)) == 4096 by {
      assert 4096 * MiB / MiB == 4096;
    }
    assert AvailableMegabytes(Some(1000 * MiB)) == 1000 by {
      assert 1000 * MiB / MiB == 1000;
    }
    DdRequestsThirtyTwoTimesBudget(false, "/Volumes/USB/PurgePointFill/junk", Some(2048));
    assert TotalBytes(Some(2048)) == 2048 * MiB;
  }
}
