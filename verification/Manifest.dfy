/**
 Artifact manifests: the fluent builder of manifest/builder.go and the validator of
 manifest/validator.go, over a file system given as a parameter.
 */
module Manifest {
  import opened Wrappers
  import opened ByteStrings

  const CURRENT_VERSION := "1.0"
  const DIGEST_PREFIX := "sha256:"

  datatype Disk = Disk(id: string, sourceFormat: string, bytes: int, localPath: string,
                       bootOrderHint: int, diskType: string, checksum: string)
  datatype VM = VM(cpu: int, memGB: int, firmware: string)
  datatype NIC = NIC(id: string, mac: string, network: string)
  datatype ArtifactManifest = ArtifactManifest(version: string, disks: seq<Disk>, vm: Option<VM>, nics: seq<NIC>)

  /** filepath.Abs, the files that os.Stat finds (None: not readable), and SHA-256. */
  datatype Env = Env(abs: string -> Option<string>, files: map<string, Option<string>>, sha256: string -> Bytes)

  /** An absolute path is non-empty and stays itself; a digest has 32 bytes. */
  ghost predicate Lawful(env: Env) {
    && (forall p :: env.abs(p).Some? ==> env.abs(p).value != "" && env.abs(env.abs(p).value) == env.abs(p))
    && (forall s :: |env.sha256(s)| == 32)
  }

  // ---------------------------------------------------------------- formats

  predicate IdChar(c: char) {
    'a' <= c <= 'z' || 'A' <= c <= 'Z' || '0' <= c <= '9' || c == '_' || c == '-'
  }

  predicate ValidId(s: string) { s != "" && forall i :: 0 <= i < |s| ==> IdChar(s[i]) }

  predicate DigestChar(c: char) { 'a' <= c <= 'f' || '0' <= c <= '9' }

  predicate IsHex64(s: string) { |s| == 64 && forall i :: 0 <= i < |s| ==> DigestChar(s[i]) }

  predicate ValidChecksum(s: string) {
    |s| == 71 && s[..7] == DIGEST_PREFIX && IsHex64(s[7..])
  }

  predicate ValidFormat(s: string) { s in {"vmdk", "qcow2", "raw", "vhd", "vhdx", "vdi"} }

  function HexDigit(n: nat): char
    requires n < 16
  {
    if n < 10 then ('0' as int + n) as char else ('a' as int + (n - 10)) as char
  }

  /** Lower-case hexadecimal, two digits a byte. */
  function Hex(b: Bytes): string {
    if b == [] then "" else [HexDigit(b[0] as int / 16), HexDigit(b[0] as int % 16)] + Hex(b[1..])
  }

  lemma {:induction false} HexForm(b: Bytes)
    ensures |Hex(b)| == 2 * |b| && forall i :: 0 <= i < |Hex(b)| ==> DigestChar(Hex(b)[i])
  {
    if b != [] {
      HexForm(b[1..]);
    }
  }

  function DigitValue(c: char): int { if '0' <= c <= '9' then c as int - '0' as int else c as int - 'a' as int + 10 }

  /** The digits read back as the bytes. */
  lemma {:induction false} HexReadsBack(b: Bytes, i: nat)
    requires i < |b|
    ensures |Hex(b)| == 2 * |b|
    ensures 16 * DigitValue(Hex(b)[2 * i]) + DigitValue(Hex(b)[2 * i + 1]) == b[i] as int
  {
    HexForm(b);
    HexForm(b[1..]);
    var head := [HexDigit(b[0] as int / 16), HexDigit(b[0] as int % 16)];
    assert Hex(b) == head + Hex(b[1..]);
    if i > 0 {
      HexReadsBack(b[1..], i - 1);
      assert Hex(b)[2 * i] == Hex(b[1..])[2 * (i - 1)] && Hex(b)[2 * i + 1] == Hex(b[1..])[2 * (i - 1) + 1];
    }
  }

  /** ComputeSHA256: the hexadecimal digest of a readable file. */
  function ComputeSHA256(env: Env, path: string): Option<string> {
    if path in env.files && env.files[path].Some? then Some(Hex(env.sha256(env.files[path].value))) else None
  }

  lemma ComputedChecksumValid(env: Env, path: string)
    requires Lawful(env) && ComputeSHA256(env, path).Some?
    ensures ValidChecksum(DIGEST_PREFIX + ComputeSHA256(env, path).value)
  {
    var digest := env.sha256(env.files[path].value);
    HexForm(digest);
    var s := DIGEST_PREFIX + Hex(digest);
    assert s[..7] == DIGEST_PREFIX && s[7..] == Hex(digest);
  }

  // ---------------------------------------------------------------- builder

  datatype DiskArgs = DiskArgs(id: string, format: string, path: string, bytes: int, hint: int, diskType: string)

  datatype BuildError = BadId | DuplicateId | BadFormat | BadPath | NotFound | ChecksumFailed

  /** The builder's fields that Build and Validate look at. */
  datatype Draft = Draft(disks: seq<Disk>, vm: Option<VM>, nics: seq<NIC>, errors: seq<BuildError>)

  const EMPTY := Draft([], None, [], [])

  /** One call on the builder; Other stands for those that set no field the validator reads. */
  datatype Call =
    | AddDisk(args: DiskArgs)
    | AddDiskWithChecksum(args: DiskArgs, compute: bool)
    | WithVM(vm: VM)
    | AddNIC(nic: NIC)
    | Other

  predicate HasId(disks: seq<Disk>, id: string) { exists i :: 0 <= i < |disks| && disks[i].id == id }

  function DiskProblem(env: Env, d: Draft, a: DiskArgs): Option<BuildError> {
    if !ValidId(a.id) then Some(BadId)
    else if HasId(d.disks, a.id) then Some(DuplicateId)
    else if !ValidFormat(a.format) then Some(BadFormat)
    else if env.abs(a.path) == None then Some(BadPath)
    else if env.abs(a.path).value !in env.files then Some(NotFound)
    else None
  }

  function DiskOf(env: Env, a: DiskArgs): Disk
    requires env.abs(a.path).Some?
  {
    Disk(a.id, a.format, a.bytes, env.abs(a.path).value, a.hint, a.diskType, "")
  }

  function Add(env: Env, d: Draft, a: DiskArgs): Draft {
    var p := DiskProblem(env, d, a);
    if p.Some? then d.(errors := d.errors + [p.value]) else d.(disks := d.disks + [DiskOf(env, a)])
  }

  /** Sets the checksum of the last disk; nothing happens once there has been any error. */
  function SumLast(env: Env, d: Draft): Draft {
    if d.errors != [] || d.disks == [] then d
    else
      var last := d.disks[|d.disks| - 1];
      var sum := ComputeSHA256(env, last.localPath);
      if sum == None then d.(errors := d.errors + [ChecksumFailed])
      else d.(disks := d.disks[|d.disks| - 1 := last.(checksum := DIGEST_PREFIX + sum.value)])
  }

  function Apply(env: Env, d: Draft, c: Call): Draft {
    match c
    case AddDisk(a) => Add(env, d, a)
    case AddDiskWithChecksum(a, compute) => if compute then SumLast(env, Add(env, d, a)) else Add(env, d, a)
    case WithVM(vm) => d.(vm := Some(vm))
    case AddNIC(n) => d.(nics := d.nics + [n])
    case Other => d
  }

  function Built(env: Env, calls: seq<Call>): Draft {
    if calls == [] then EMPTY else Apply(env, Built(env, calls[..|calls| - 1]), calls[|calls| - 1])
  }

  function BuildResult(d: Draft): Option<ArtifactManifest> {
    if d.errors != [] || d.disks == [] then None
    else Some(ArtifactManifest(CURRENT_VERSION, d.disks, d.vm, d.nics))
  }

  class Builder {
    const env: Env
    var disks: seq<Disk>
    var vm: Option<VM>
    var nics: seq<NIC>
    var errors: seq<BuildError>

    ghost function View(): Draft
      reads this
    {
      Draft(disks, vm, nics, errors)
    }

    constructor (env: Env)
      ensures View() == EMPTY && this.env == env
    {
      this.env := env;
      disks, vm, nics, errors := [], None, [], [];
    }

    method AddDisk(a: DiskArgs)
      modifies this
      ensures View() == Add(env, old(View()), a)
      ensures vm == old(vm) && nics == old(nics)
      ensures
        var problem :=
          if a.id == "" || exists i :: 0 <= i < |a.id| && !IdChar(a.id[i]) then Some(BadId)
          else if exists i :: 0 <= i < |old(disks)| && old(disks)[i].id == a.id then Some(DuplicateId)
          else if a.format !in {"vmdk", "qcow2", "raw", "vhd", "vhdx", "vdi"} then Some(BadFormat)
          else if env.abs(a.path) == None then Some(BadPath)
          else if env.abs(a.path).value !in env.files then Some(NotFound)
          else None;
        if problem.Some? then disks == old(disks) && errors == old(errors) + [problem.value]
        else
          && errors == old(errors)
          && disks == old(disks) + [Disk(a.id, a.format, a.bytes, env.abs(a.path).value, a.hint, a.diskType, "")]
    {
      if !ValidId(a.id) {
        errors := errors + [BadId];
        return;
      }
      for i := 0 to |disks|
        invariant View() == old(View())
        invariant forall j :: 0 <= j < i ==> disks[j].id != a.id
      {
        if disks[i].id == a.id {
          errors := errors + [DuplicateId];
          return;
        }
      }
      if !ValidFormat(a.format) {
        errors := errors + [BadFormat];
        return;
      }
      var absPath := env.abs(a.path);
      if absPath == None {
        errors := errors + [BadPath];
        return;
      }
      if absPath.value !in env.files {
        errors := errors + [NotFound];
        return;
      }
      disks := disks + [Disk(a.id, a.format, a.bytes, absPath.value, a.hint, a.diskType, "")];
    }

    method AddDiskWithChecksum(a: DiskArgs, compute: bool)
      modifies this
      ensures View() == Apply(env, old(View()), Call.AddDiskWithChecksum(a, compute))
      ensures compute && errors == [] ==>
        && |disks| == |old(disks)| + 1
        && var d := disks[|old(disks)|];
           && d.id == a.id && d.localPath in env.files && env.files[d.localPath].Some?
           && d.checksum == "sha256:" + Hex(env.sha256(env.files[d.localPath].value))
      ensures !compute && errors == [] ==> |disks| == |old(disks)| + 1 && disks[|old(disks)|].checksum == ""
      ensures |old(disks)| <= |disks| <= |old(disks)| + 1 && disks[..|old(disks)|] == old(disks)
      ensures errors != [] && |disks| > |old(disks)| ==> disks[|old(disks)|].checksum == ""
    {
      AddDisk(a);
      if |errors| > 0 {
        return;
      }
      if compute {
        if |disks| > 0 {
          var last := |disks| - 1;
          var sum := ComputeSHA256(env, disks[last].localPath);
          if sum == None {
            errors := errors + [ChecksumFailed];
            return;
          }
          disks := disks[last := disks[last].(checksum := DIGEST_PREFIX + sum.value)];
        }
      }
    }

    method WithVM(newVM: VM)
      modifies this
      ensures View() == Apply(env, old(View()), Call.WithVM(newVM))
      ensures vm == Some(newVM) && disks == old(disks) && nics == old(nics) && errors == old(errors)
    {
      vm := Some(newVM);
    }

    method AddNIC(nic: NIC)
      modifies this
      ensures View() == Apply(env, old(View()), Call.AddNIC(nic))
      ensures nics == old(nics) + [nic] && disks == old(disks) && vm == old(vm) && errors == old(errors)
    {
      nics := nics + [nic];
    }

    method Build() returns (m: Option<ArtifactManifest>)
      ensures m == BuildResult(View())
      ensures m == if errors == [] && disks != [] then Some(ArtifactManifest("1.0", disks, vm, nics)) else None
    {
      if |errors| > 0 {
        return None;
      }
      if |disks| == 0 {
        return None;
      }
      m := Some(ArtifactManifest(CURRENT_VERSION, disks, vm, nics));
    }
  }

  // ---------------------------------------------------------------- validator

  predicate ValidDisk(env: Env, d: Disk) {
    && ValidId(d.id) && ValidFormat(d.sourceFormat) && d.bytes >= 0
    && d.localPath != "" && env.abs(d.localPath).Some? && env.abs(d.localPath).value in env.files
    && (d.checksum == "" || ValidChecksum(d.checksum))
    && d.bootOrderHint >= 0
    && d.diskType in {"", "boot", "data", "unknown"}
  }

  predicate ValidVM(vm: VM) {
    vm.firmware in {"", "bios", "uefi", "unknown"} && vm.cpu >= 0 && vm.memGB >= 0
  }

  predicate ValidNIC(n: NIC) { n.mac == "" || |n.mac| >= 17 }

  ghost predicate DistinctIds(disks: seq<Disk>) {
    forall i, j :: 0 <= i < j < |disks| ==> disks[i].id != disks[j].id
  }

  /** What the v1.0 schema check accepts. */
  ghost predicate ValidManifest(env: Env, m: ArtifactManifest) {
    && m.version == CURRENT_VERSION && m.disks != [] && DistinctIds(m.disks)
    && (forall i :: 0 <= i < |m.disks| ==> ValidDisk(env, m.disks[i]))
    && (m.vm.Some? ==> ValidVM(m.vm.value))
    && (forall i :: 0 <= i < |m.nics| ==> ValidNIC(m.nics[i]))
  }

  method ValidateDisk(env: Env, disk: Disk, diskIDs: set<string>) returns (ok: bool, ids: set<string>)
    ensures ok <==> ValidDisk(env, disk) && disk.id !in diskIDs
    ensures ok <==>
      && disk.id != "" && disk.id !in diskIDs
      && (forall i :: 0 <= i < |disk.id| ==>
            var c := disk.id[i];
            'a' <= c <= 'z' || 'A' <= c <= 'Z' || '0' <= c <= '9' || c == '_' || c == '-')
      && disk.sourceFormat in {"vmdk", "qcow2", "raw", "vhd", "vhdx", "vdi"} && disk.bytes >= 0
      && disk.localPath != "" && env.abs(disk.localPath).Some? && env.abs(disk.localPath).value in env.files
      && (disk.checksum == "" ||
            (|disk.checksum| == 71 && disk.checksum[..7] == "sha256:"
             && forall i :: 7 <= i < 71 ==>
                  var c := disk.checksum[i]; '0' <= c <= '9' || 'a' <= c <= 'f'))
      && disk.bootOrderHint >= 0 && disk.diskType in {"", "boot", "data", "unknown"}
    ensures ok ==> ids == diskIDs + {disk.id}
  {
    ids := diskIDs;
    if disk.id == "" || !ValidId(disk.id) || disk.id in ids {
      return false, ids;
    }
    ids := ids + {disk.id};
    if !ValidFormat(disk.sourceFormat) || disk.bytes < 0 || disk.localPath == "" {
      return false, ids;
    }
    var absPath := env.abs(disk.localPath);
    if absPath == None || absPath.value !in env.files {
      return false, ids;
    }
    if disk.checksum != "" {
      if !ValidChecksum(disk.checksum) {
        return false, ids;
      }
    }
    if disk.bootOrderHint < 0 {
      return false, ids;
    }
    if disk.diskType != "" {
      if disk.diskType !in {"boot", "data", "unknown"} {
        return false, ids;
      }
    }
    ok := true;
  }

  method Validate(env: Env, m: ArtifactManifest) returns (ok: bool)
    ensures ok <==> ValidManifest(env, m)
    ensures ok <==>
      && m.version == "1.0" && m.disks != []
      && (forall i, j :: 0 <= i < j < |m.disks| ==> m.disks[i].id != m.disks[j].id)
      && (forall i :: 0 <= i < |m.disks| ==> ValidDisk(env, m.disks[i]))
      && (m.vm.Some? ==>
            m.vm.value.firmware in {"", "bios", "uefi", "unknown"} && m.vm.value.cpu >= 0 && m.vm.value.memGB >= 0)
      && (forall i :: 0 <= i < |m.nics| ==> m.nics[i].mac == "" || |m.nics[i].mac| >= 17)
  {
    if m.version != CURRENT_VERSION {
      return false;
    }
    if |m.disks| == 0 {
      return false;
    }
    var diskIDs: set<string> := {};
    for i := 0 to |m.disks|
      invariant forall id :: id in diskIDs <==> exists j :: 0 <= j < i && m.disks[j].id == id
      invariant DistinctIds(m.disks[..i])
      invariant forall j :: 0 <= j < i ==> ValidDisk(env, m.disks[j])
    {
      ok, diskIDs := ValidateDisk(env, m.disks[i], diskIDs);
      if !ok {
        return false;
      }
    }
    assert m.disks[..|m.disks|] == m.disks;
    if m.vm.Some? {
      if !ValidVM(m.vm.value) {
        return false;
      }
    }
    for i := 0 to |m.nics|
      invariant forall j :: 0 <= j < i ==> ValidNIC(m.nics[j])
    {
      if !ValidNIC(m.nics[i]) {
        return false;
      }
    }
    ok := true;
  }

  // ---------------------------------------------------------------- builder and validator agree

  predicate IsDiskCall(c: Call) { c.AddDisk? || c.AddDiskWithChecksum? }

  predicate Sums(c: Call) { c.AddDiskWithChecksum? && c.compute }

  /** The calls that add a disk, in order. */
  function DiskCalls(calls: seq<Call>): (r: seq<Call>)
    ensures forall c :: c in r ==> IsDiskCall(c)
  {
    if calls == [] then []
    else
      var last := calls[|calls| - 1];
      DiskCalls(calls[..|calls| - 1]) + if IsDiskCall(last) then [last] else []
  }

  function NICsOf(calls: seq<Call>): seq<NIC> {
    if calls == [] then []
    else
      var last := calls[|calls| - 1];
      NICsOf(calls[..|calls| - 1]) + if last.AddNIC? then [last.nic] else []
  }

  function LastVM(calls: seq<Call>): Option<VM> {
    if calls == [] then None
    else if calls[|calls| - 1].WithVM? then Some(calls[|calls| - 1].vm)
    else LastVM(calls[..|calls| - 1])
  }

  /** Disk d is what call c adds: checked identity, format and path, copied values, a digest iff asked for. */
  ghost predicate Adds(env: Env, c: Call, d: Disk)
    requires IsDiskCall(c)
  {
    var a := c.args;
    && ValidId(a.id) && ValidFormat(a.format) && env.abs(a.path).Some? && env.abs(a.path).value in env.files
    && (if Sums(c) then
          var sum := ComputeSHA256(env, env.abs(a.path).value);
          sum.Some? && d == DiskOf(env, a).(checksum := DIGEST_PREFIX + sum.value)
        else d == DiskOf(env, a))
  }

  /** Without an error so far, the draft is exactly what the calls asked for. */
  ghost predicate Faithful(env: Env, calls: seq<Call>, d: Draft) {
    && |d.disks| == |DiskCalls(calls)|
    && (forall i :: 0 <= i < |d.disks| ==> Adds(env, DiskCalls(calls)[i], d.disks[i]))
    && DistinctIds(d.disks)
    && d.nics == NICsOf(calls) && d.vm == LastVM(calls)
  }

  lemma ErrorsKept(env: Env, d: Draft, c: Call)
    requires Apply(env, d, c).errors == []
    ensures d.errors == []
    ensures IsDiskCall(c) ==> DiskProblem(env, d, c.args) == None
  {
  }

  lemma {:induction false} BuiltFaithful(env: Env, calls: seq<Call>)
    requires Built(env, calls).errors == []
    ensures Faithful(env, calls, Built(env, calls))
    decreases |calls|
  {
    if calls != [] {
      hide Faithful, Apply;
      var before, c := calls[..|calls| - 1], calls[|calls| - 1];
      var d := Built(env, before);
      ErrorsKept(env, d, c);
      BuiltFaithful(env, before);
      if IsDiskCall(c) {
        FaithfulDisk(env, before, d, c);
      } else {
        FaithfulOther(env, before, d, c);
      }
      assert calls == before + [c];
    }
  }

  lemma FaithfulDisk(env: Env, before: seq<Call>, d: Draft, c: Call)
    requires Faithful(env, before, d) && IsDiskCall(c) && Apply(env, d, c).errors == []
    ensures Faithful(env, before + [c], Apply(env, d, c))
  {
    AddFaithful(env, before, d, c);
    CallsStep(before, c);
    hide Adds, DistinctIds, Apply, DiskCalls, NICsOf, LastVM;
    var e := Apply(env, d, c);
    assert DiskCalls(before + [c]) == DiskCalls(before) + [c];
    assert forall i :: 0 <= i < |d.disks| ==> e.disks[i] == e.disks[..|d.disks|][i];
  }

  lemma FaithfulOther(env: Env, before: seq<Call>, d: Draft, c: Call)
    requires Faithful(env, before, d) && !IsDiskCall(c)
    ensures Faithful(env, before + [c], Apply(env, d, c))
  {
    OthersFaithful(env, d, c);
    CallsStep(before, c);
    hide Adds, DistinctIds, Apply, DiskCalls, NICsOf, LastVM;
    assert DiskCalls(before) + [] == DiskCalls(before);
  }

  lemma CallsStep(before: seq<Call>, c: Call)
    ensures DiskCalls(before + [c]) == DiskCalls(before) + if IsDiskCall(c) then [c] else []
    ensures NICsOf(before + [c]) == NICsOf(before) + if c.AddNIC? then [c.nic] else []
    ensures LastVM(before + [c]) == if c.WithVM? then Some(c.vm) else LastVM(before)
  {
    assert (before + [c])[..|before|] == before;
  }

  lemma OthersFaithful(env: Env, d: Draft, c: Call)
    requires !IsDiskCall(c)
    ensures var e := Apply(env, d, c);
      && e.disks == d.disks
      && e.nics == d.nics + (if c.AddNIC? then [c.nic] else [])
      && e.vm == if c.WithVM? then Some(c.vm) else d.vm
  {
    assert d.nics + [] == d.nics;
  }

  lemma AddFaithful(env: Env, before: seq<Call>, d: Draft, c: Call)
    requires Faithful(env, before, d) && IsDiskCall(c) && Apply(env, d, c).errors == []
    ensures var e := Apply(env, d, c);
      && |e.disks| == |d.disks| + 1 && e.disks[..|d.disks|] == d.disks && e.nics == d.nics && e.vm == d.vm
      && Adds(env, c, e.disks[|d.disks|]) && DistinctIds(e.disks)
  {
    ErrorsKept(env, d, c);
    hide DiskCalls, NICsOf, LastVM;
    var e := Apply(env, d, c);
    assert e.disks[|d.disks|].id == c.args.id;
    assert !HasId(d.disks, c.args.id);
    assert forall i :: 0 <= i < |d.disks| ==> e.disks[i] == d.disks[i];
  }

  /** Argument values the validator will accept. */
  predicate GoodArgs(a: DiskArgs) {
    a.bytes >= 0 && a.hint >= 0 && a.diskType in {"", "boot", "data", "unknown"}
  }

  ghost predicate GoodCalls(calls: seq<Call>) {
    && (forall c :: c in calls && IsDiskCall(c) ==> GoodArgs(c.args))
    && (forall c :: c in calls && c.AddNIC? ==> ValidNIC(c.nic))
    && (LastVM(calls).Some? ==> ValidVM(LastVM(calls).value))
  }

  lemma {:induction false} DiskCallsAre(calls: seq<Call>)
    ensures forall c :: c in DiskCalls(calls) <==> c in calls && IsDiskCall(c)
    ensures forall n :: n in NICsOf(calls) <==> AddNIC(n) in calls
    decreases |calls|
  {
    if calls != [] {
      var k := |calls| - 1;
      DiskCallsAre(calls[..k]);
      assert calls == calls[..k] + [calls[k]];
    }
  }

  lemma AddedDiskValid(env: Env, c: Call, d: Disk)
    requires Lawful(env) && IsDiskCall(c) && Adds(env, c, d)
    ensures ValidDisk(env, d) <==> GoodArgs(c.args)
    ensures d.checksum != "" <==> Sums(c)
  {
    var path := env.abs(c.args.path).value;
    if Sums(c) {
      ComputedChecksumValid(env, path);
    }
    hide ValidId, ValidFormat, ValidChecksum;
  }

  lemma DisksAgree(env: Env, calls: seq<Call>, cs: seq<Call>, disks: seq<Disk>)
    requires Lawful(env) && |cs| == |disks|
    requires forall c :: c in cs <==> c in calls && IsDiskCall(c)
    requires forall i :: 0 <= i < |cs| ==> IsDiskCall(cs[i]) && Adds(env, cs[i], disks[i])
    ensures (forall i :: 0 <= i < |disks| ==> ValidDisk(env, disks[i]))
      <==> (forall c :: c in calls && IsDiskCall(c) ==> GoodArgs(c.args))
  {
    hide Lawful, ValidDisk, GoodArgs, Adds;
    forall i | 0 <= i < |disks|
      ensures ValidDisk(env, disks[i]) <==> GoodArgs(cs[i].args)
    {
      AddedDiskValid(env, cs[i], disks[i]);
    }
    if forall c :: c in calls && IsDiskCall(c) ==> GoodArgs(c.args) {
      forall i | 0 <= i < |disks| ensures ValidDisk(env, disks[i]) {
        assert cs[i] in cs;
      }
    }
    if forall i :: 0 <= i < |disks| ==> ValidDisk(env, disks[i]) {
      forall c | c in calls && IsDiskCall(c) ensures GoodArgs(c.args) {
        assert c in cs;
        var i :| 0 <= i < |cs| && cs[i] == c;
        assert ValidDisk(env, disks[i]);
      }
    }
  }

  lemma NICsAgree(calls: seq<Call>, nics: seq<NIC>)
    requires forall n :: n in nics <==> AddNIC(n) in calls
    ensures (forall i :: 0 <= i < |nics| ==> ValidNIC(nics[i])) <==>
            (forall c :: c in calls && c.AddNIC? ==> ValidNIC(c.nic))
  {
    hide ValidNIC;
    if forall c :: c in calls && c.AddNIC? ==> ValidNIC(c.nic) {
      forall i | 0 <= i < |nics| ensures ValidNIC(nics[i]) {
        assert nics[i] in nics && AddNIC(nics[i]).nic == nics[i];
      }
    }
    if forall i :: 0 <= i < |nics| ==> ValidNIC(nics[i]) {
      forall c | c in calls && c.AddNIC? ensures ValidNIC(c.nic) {
        assert AddNIC(c.nic) == c && c.nic in nics;
      }
    }
  }

  /**
   Builder and validator agree.  For every sequence of builder calls whose Build succeeds,
   the validator accepts the manifest exactly when every disk call had a non-negative size
   and boot hint and an allowed disk type, every NIC an empty or long enough MAC, and the
   last WithVM an allowed firmware and non-negative CPU and memory.  Everything else the
   validator checks, the builder already did.
   */
  lemma BuildValidates(env: Env, calls: seq<Call>)
    requires Lawful(env) && BuildResult(Built(env, calls)).Some?
    ensures ValidManifest(env, BuildResult(Built(env, calls)).value) <==> GoodCalls(calls)
  {
    var d := Built(env, calls);
    BuiltFaithful(env, calls);
    DiskCallsAre(calls);
    DisksAgree(env, calls, DiskCalls(calls), d.disks);
    NICsAgree(calls, d.nics);
    hide DiskCalls, NICsOf, LastVM, Built, ValidDisk, GoodArgs, ValidNIC, ValidVM, Lawful, Adds;
  }

  // ---------------------------------------------------------------- checksum verification

  /** The recorded digest is that of the file now. */
  predicate Matches(env: Env, d: Disk) {
    |d.checksum| >= 7 && ComputeSHA256(env, d.localPath) == Some(d.checksum[7..])
  }

  /** Some disk with a digest has this name. */
  ghost predicate ListedId(disks: seq<Disk>, id: string) { exists d :: d in disks && d.checksum != "" && d.id == id }

  /** What is reported for disks whose digests all match. */
  ghost function Confirmed(disks: seq<Disk>): map<string, bool> {
    map id | id in (set d | d in disks :: d.id) && ListedId(disks, id) :: true
  }

  lemma ConfirmedNext(disks: seq<Disk>, d: Disk)
    ensures Confirmed(disks + [d]) == if d.checksum == "" then Confirmed(disks) else Confirmed(disks)[d.id := true]
  {
    forall id
      ensures ListedId(disks + [d], id) <==> ListedId(disks, id) || (d.checksum != "" && d.id == id)
    {
      if e :| e in disks && e.checksum != "" && e.id == id {
        assert e in disks + [d];
      }
      assert d in disks + [d];
    }
  }

  ghost predicate AllMatch(env: Env, disks: seq<Disk>) {
    forall d :: d in disks && d.checksum != "" ==> Matches(env, d)
  }

  /** Disk n is the first with a digest that does not verify. */
  ghost predicate FailsFirst(env: Env, disks: seq<Disk>, n: nat) {
    n < |disks| && disks[n].checksum != "" && AllMatch(env, disks[..n]) && !Matches(env, disks[n])
  }

  /** What is returned with an error: the failing disk is reported only if its file could be read. */
  ghost predicate StopsAt(env: Env, disks: seq<Disk>, n: nat, results: map<string, bool>) {
    && FailsFirst(env, disks, n) && |disks[n].checksum| >= 7
    && results == if ComputeSHA256(env, disks[n].localPath) == None then Confirmed(disks[..n])
                  else Confirmed(disks[..n])[disks[n].id := false]
  }

  lemma MatchingBefore(env: Env, disks: seq<Disk>, n: nat)
    requires FailsFirst(env, disks, n)
    ensures forall i :: 0 <= i < n ==> disks[i].checksum == "" || Matches(env, disks[i])
  {
    hide Matches;
    forall i | 0 <= i < n
      ensures disks[i].checksum == "" || Matches(env, disks[i])
    {
      assert disks[..n][i] == disks[i];
    }
  }

  lemma FirstIsUnique(env: Env, disks: seq<Disk>, m: nat, n: nat)
    requires FailsFirst(env, disks, m) && FailsFirst(env, disks, n)
    ensures m == n
  {
    MatchingBefore(env, disks, m);
    MatchingBefore(env, disks, n);
  }

  datatype Checking = Passed | Rejected | Panicked

  /**
   VerifyChecksums confirms disk after disk and stops at the first that fails, returning what
   it has.  When the checksum of that disk is shorter than its prefix, the slice expression
   panics instead.
   */
  method VerifyChecksums(env: Env, m: ArtifactManifest) returns (results: map<string, bool>, outcome: Checking)
    ensures outcome == Passed <==> AllMatch(env, m.disks)
    ensures outcome == Passed <==> forall d :: d in m.disks && d.checksum != "" ==>
      && |d.checksum| >= 7 && d.localPath in env.files && env.files[d.localPath].Some?
      && d.checksum[7..] == Hex(env.sha256(env.files[d.localPath].value))
    ensures outcome == Passed ==> results == Confirmed(m.disks)
    ensures outcome == Passed ==>
      forall id :: id in results <==> exists d :: d in m.disks && d.checksum != "" && d.id == id
    ensures outcome == Passed ==> forall id :: id in results ==> results[id]
    ensures outcome == Rejected ==> exists n: nat :: StopsAt(env, m.disks, n, results)
    ensures outcome == Panicked <==> exists n: nat :: FailsFirst(env, m.disks, n) && |m.disks[n].checksum| < 7
  {
    AllMatchMeans(env, m.disks);
    hide Confirmed, Matches, Hex;
    results := map[];
    assert Confirmed([]) == map[] by { ConfirmedNone(); }
    for i := 0 to |m.disks|
      invariant AllMatch(env, m.disks[..i]) && results == Confirmed(m.disks[..i])
    {
      var disk := m.disks[i];
      assert m.disks[..i + 1] == m.disks[..i] + [disk];
      ConfirmedNext(m.disks[..i], disk);
      if disk.checksum == "" {
        continue;
      }
      MatchesMeans(env, disk);
      if |disk.checksum| < 7 {
        assert FailsFirst(env, m.disks, i);
        return results, Panicked;
      }
      var expected := disk.checksum[7..];
      var actual := ComputeSHA256(env, disk.localPath);
      if actual == None {
        FailsOnlyAt(env, m.disks, i);
        assert StopsAt(env, m.disks, i, results);
        return results, Rejected;
      }
      results := results[disk.id := actual.value == expected];
      if actual.value != expected {
        FailsOnlyAt(env, m.disks, i);
        assert StopsAt(env, m.disks, i, results);
        return results, Rejected;
      }
    }
    assert m.disks[..|m.disks|] == m.disks;
    ConfirmedMeans(m.disks);
    outcome := Passed;
  }

  lemma ConfirmedMeans(disks: seq<Disk>)
    ensures forall id :: id in Confirmed(disks) <==> exists d :: d in disks && d.checksum != "" && d.id == id
    ensures forall id :: id in Confirmed(disks) ==> Confirmed(disks)[id]
  {
    forall id
      ensures id in Confirmed(disks) <==> ListedId(disks, id)
    {
      if d :| d in disks && d.checksum != "" && d.id == id {
        assert id in (set e | e in disks :: e.id);
      }
    }
  }

  lemma AllMatchMeans(env: Env, disks: seq<Disk>)
    ensures AllMatch(env, disks) <==> forall d :: d in disks && d.checksum != "" ==>
      && |d.checksum| >= 7 && d.localPath in env.files && env.files[d.localPath].Some?
      && d.checksum[7..] == Hex(env.sha256(env.files[d.localPath].value))
  {
    hide Hex;
  }

  lemma FailsOnlyAt(env: Env, disks: seq<Disk>, i: nat)
    requires FailsFirst(env, disks, i)
    ensures forall n: nat :: FailsFirst(env, disks, n) ==> n == i
  {
    hide FailsFirst;
    forall n: nat | FailsFirst(env, disks, n)
      ensures n == i
    {
      FirstIsUnique(env, disks, n, i);
    }
  }

  lemma ConfirmedNone()
    ensures Confirmed([]) == map[]
  {
  }

  lemma MatchesMeans(env: Env, d: Disk)
    ensures Matches(env, d) <==> |d.checksum| >= 7 && ComputeSHA256(env, d.localPath) == Some(d.checksum[7..])
  {
  }

  /**
   On unchanged files every digest in a built manifest matches, and a disk carries one
   exactly when it was added with a checksum.
   */
  lemma BuiltChecksumsMatch(env: Env, calls: seq<Call>)
    requires Lawful(env) && BuildResult(Built(env, calls)).Some?
    ensures var disks := Built(env, calls).disks;
      && |disks| == |DiskCalls(calls)|
      && forall i :: 0 <= i < |disks| ==>
           && IsDiskCall(DiskCalls(calls)[i]) && disks[i].id == DiskCalls(calls)[i].args.id
           && (disks[i].checksum != "" <==> Sums(DiskCalls(calls)[i]))
           && (disks[i].checksum != "" ==> |disks[i].checksum| >= 7 && Matches(env, disks[i]))
  {
    BuiltFaithful(env, calls);
    var disks, cs := Built(env, calls).disks, DiskCalls(calls);
    hide DiskCalls, Built;
    forall i | 0 <= i < |disks|
      ensures IsDiskCall(cs[i]) && disks[i].id == cs[i].args.id && (disks[i].checksum != "" <==> Sums(cs[i]))
      ensures disks[i].checksum != "" ==> |disks[i].checksum| >= 7 && Matches(env, disks[i])
    {
      AddedDiskValid(env, cs[i], disks[i]);
      if Sums(cs[i]) {
        var sum := ComputeSHA256(env, env.abs(cs[i].args.path).value).value;
        assert (DIGEST_PREFIX + sum)[7..] == sum;
      }
    }
  }

  /** Some disk of this name was added with a checksum. */
  ghost predicate SummedId(cs: seq<Call>, id: string) {
    exists i :: 0 <= i < |cs| && Sums(cs[i]) && cs[i].args.id == id
  }

  lemma SummedIffListed(cs: seq<Call>, disks: seq<Disk>, id: string)
    requires |cs| == |disks|
    requires forall i :: 0 <= i < |disks| ==>
      IsDiskCall(cs[i]) && disks[i].id == cs[i].args.id && (disks[i].checksum != "" <==> Sums(cs[i]))
    ensures SummedId(cs, id) <==> ListedId(disks, id)
  {
    if SummedId(cs, id) {
      var i :| 0 <= i < |cs| && Sums(cs[i]) && cs[i].args.id == id;
      assert disks[i] in disks;
    }
    if ListedId(disks, id) {
      var d :| d in disks && d.checksum != "" && d.id == id;
      var i :| 0 <= i < |disks| && disks[i] == d;
      assert Sums(cs[i]) && cs[i].args.id == id;
    }
  }

  /** Build, then verify with nothing changed: true for exactly the disks added with a checksum. */
  method BuildThenVerify(env: Env, calls: seq<Call>, m: ArtifactManifest) returns (results: map<string, bool>)
    requires Lawful(env) && BuildResult(Built(env, calls)) == Some(m)
    ensures forall id :: id in results <==> SummedId(DiskCalls(calls), id)
    ensures forall id :: id in results ==> results[id]
  {
    BuiltChecksumsMatch(env, calls);
    ghost var cs := DiskCalls(calls);
    hide Lawful, Built, DiskCalls, Matches;
    var outcome;
    results, outcome := VerifyChecksums(env, m);
    assert outcome == Passed;
    forall id
      ensures id in results <==> SummedId(cs, id)
    {
      SummedIffListed(cs, m.disks, id);
    }
  }
}
