/** Which disk a vdev name in `zpool status` belongs to: the validator for operator-supplied device
    paths, the device-or-partition match, and the scan for the owning pool. */
module Devices {
  import opened Options
  import opened Text

  predicate IsLower(c: char) { 'a' <= c <= 'z' }

  predicate IsUpper(c: char) { 'A' <= c <= 'Z' }

  predicate SafeChar(c: char) {
    IsLower(c) || IsUpper(c) || IsDigit(c) || c == '_' || c == '-'
  }

  function StripPrefix(s: string, p: string): (r: Option<string>)
    ensures r.Some? <==> StartsWith(s, p)
    ensures r.Some? ==> s == p + r.value
  {
    if StartsWith(s, p) then Some(s[|p|..]) else None
  }

  datatype Rejection = NotUnderDev | UnsafeName | NotWholeDisk | FirstDisk | BadController | UnknownBus

  /** Text before and after the first `c`. */
  function SplitOnce(s: string, c: char): (r: Option<(string, string)>)
    ensures r.None? ==> c !in s
    ensures r.Some? ==> s == r.value.0 + [c] + r.value.1 && c !in r.value.0
  {
    if s == [] then None
    else if s[0] == c then
      assert s == [] + [c] + s[1..];
      Some(([], s[1..]))
    else match SplitOnce(s[1..], c)
         case None => None
         case Some(p) =>
           assert s == [s[0]] + s[1..];
           Some(([s[0]] + p.0, p.1))
  }

  function CheckLettered(rest: string): (r: Option<Rejection>) {
    if rest == "" || !(forall i | 0 <= i < |rest| :: IsLower(rest[i])) then Some(NotWholeDisk)
    else if rest == "a" then Some(FirstDisk)
    else None
  }

  function CheckNvme(rest: string): (r: Option<Rejection>) {
    match SplitOnce(rest, 'n')
    case None => Some(NotWholeDisk)
    case Some(p) =>
      if p.0 == "" || !AllDigits(p.0) then Some(BadController)
      else if p.1 == "" || !AllDigits(p.1) then Some(NotWholeDisk)
      else if p.0 == "0" && p.1 == "1" then Some(FirstDisk)
      else None
  }

  /** `None`: a whole-disk path this feature is willing to touch. */
  function Validate(path: string): (r: Option<Rejection>) {
    match StripPrefix(path, "/dev/")
    case None => Some(NotUnderDev)
    case Some(base) =>
      if base == "" || !(forall i | 0 <= i < |base| :: SafeChar(base[i])) then Some(UnsafeName)
      else if StartsWith(base, "sd") || StartsWith(base, "vd") then CheckLettered(base[2..])
      else if StartsWith(base, "nvme") then CheckNvme(base[4..])
      else Some(UnknownBus)
  }

  /** The letters of an `sd` or `vd` disk other than the first. */
  predicate OtherLetters(rest: string) {
    rest != "" && rest != "a" && forall i | 0 <= i < |rest| :: 'a' <= rest[i] <= 'z'
  }

  /** Controller and namespace of an NVMe disk other than the first. */
  ghost predicate OtherNamespace(rest: string) {
    exists c, n :: NamedBy(rest, c, n) && !(c == "0" && n == "1")
  }

  predicate NamedBy(rest: string, c: string, n: string) {
    c != "" && n != "" && AllDigits(c) && AllDigits(n) && rest == c + "n" + n
  }

  lemma {:induction false} SplitIsUnique(s: string, c: char, a: string, b: string)
    requires s == a + [c] + b && c !in a
    ensures SplitOnce(s, c) == Some((a, b))
  {
    if a == [] {
      assert s[1..] == b;
    } else {
      assert s[0] == a[0] && s[1..] == a[1..] + [c] + b;
      SplitIsUnique(s[1..], c, a[1..], b);
      assert a == [a[0]] + a[1..];
    }
  }

  lemma NvmeAcceptedIff(rest: string)
    ensures CheckNvme(rest).None? <==> OtherNamespace(rest)
  {
    if CheckNvme(rest).None? {
      var p := SplitOnce(rest, 'n').value;
      assert NamedBy(rest, p.0, p.1);
    }
    if OtherNamespace(rest) {
      var c, n :| NamedBy(rest, c, n) && !(c == "0" && n == "1");
      assert 'n' !in c;
      SplitIsUnique(rest, 'n', c, n);
    }
  }

  /** A whole disk under `/dev`, but not the first of its kind. */
  ghost predicate OtherDisk(path: string, rest: string) {
    || (path == "/dev/sd" + rest && OtherLetters(rest))
    || (path == "/dev/vd" + rest && OtherLetters(rest))
    || (path == "/dev/nvme" + rest && OtherNamespace(rest))
  }

  /** Exactly which paths are accepted: every whole `sd`, `vd` or NVMe disk under `/dev` but the first of
      its kind. In particular `sda`, `vda` and `nvme0n1` are refused. */
  lemma AcceptedIff(path: string)
    ensures Validate(path).None? <==> exists rest :: OtherDisk(path, rest)
  {
    if Validate(path).None? {
      var rest := AcceptedIsOther(path);
    }
    if rest :| OtherDisk(path, rest) { OtherIsAccepted(path, rest); }
  }

  lemma AcceptedIsOther(path: string) returns (rest: string)
    requires Validate(path).None?
    ensures OtherDisk(path, rest)
  {
    var base := StripPrefix(path, "/dev/").value;
    if StartsWith(base, "sd") {
      rest := base[2..];
      JoinPath("sd", base);
    } else if StartsWith(base, "vd") {
      rest := base[2..];
      JoinPath("vd", base);
    } else {
      rest := base[4..];
      JoinPath("nvme", base);
      NvmeAcceptedIff(rest);
    }
  }

  lemma JoinPath(bus: string, base: string)
    requires StartsWith(base, bus)
    ensures "/dev/" + base == ("/dev/" + bus) + base[|bus|..]
  {
    assert base == bus + base[|bus|..];
  }

  lemma OtherIsAccepted(path: string, rest: string)
    requires OtherDisk(path, rest)
    ensures Validate(path).None?
  {
    if path == "/dev/sd" + rest && OtherLetters(rest) {
      UnderDev("/dev/sd", "sd", rest);
      LetteredIsAccepted("sd", rest);
    } else if path == "/dev/vd" + rest && OtherLetters(rest) {
      UnderDev("/dev/vd", "vd", rest);
      LetteredIsAccepted("vd", rest);
    } else {
      UnderDev("/dev/nvme", "nvme", rest);
      NamespaceIsAccepted(rest);
    }
  }

  lemma UnderDev(head: string, bus: string, rest: string)
    requires head == "/dev/" + bus
    ensures head + rest == "/dev/" + (bus + rest)
  {
  }

  lemma LetteredIsAccepted(bus: string, rest: string)
    requires (bus == "sd" || bus == "vd") && OtherLetters(rest)
    ensures Validate("/dev/" + (bus + rest)).None?
  {
    var base := bus + rest;
    assert ("/dev/" + base)[..5] == "/dev/" && ("/dev/" + base)[5..] == base;
    assert base[..2] == bus && base[2..] == rest;
  }

  lemma NamespaceIsAccepted(rest: string)
    requires OtherNamespace(rest)
    ensures Validate("/dev/" + ("nvme" + rest)).None?
  {
    var base := "nvme" + rest;
    assert ("/dev/" + base)[..5] == "/dev/" && ("/dev/" + base)[5..] == base;
    assert base[..4] == "nvme" && base[4..] == rest && base[0] == 'n';
    NvmeAcceptedIff(rest);
    var c, n :| NamedBy(rest, c, n);
    forall i | 0 <= i < |base| ensures SafeChar(base[i]) {
      if i >= 4 { assert base[i] == rest[i - 4]; }
    }
  }

  predicate EndsInDigit(s: string) {
    s != "" && IsDigit(s[|s| - 1])
  }

  /** `vdev` is `device` or one of its partitions. */
  predicate IsDeviceOrPartition(vdev: string, device: string) {
    vdev == device ||
    match StripPrefix(vdev, device)
    case None => false
    case Some(rest) =>
      if EndsInDigit(device) then
        match StripPrefix(rest, "p")
        case None => false
        case Some(digits) => digits != "" && AllDigits(digits)
      else rest != "" && AllDigits(rest)
  }

  /** How the kernel names partition `digits` of a disk. */
  function PartitionName(device: string, digits: string): (r: string) {
    if EndsInDigit(device) then device + "p" + digits else device + digits
  }

  /** The match accepts the disk's own name and its partitions' names, and nothing else. */
  lemma MatchesExactlyThePartitions(vdev: string, device: string)
    ensures IsDeviceOrPartition(vdev, device)
       <==> || vdev == device
            || exists digits :: digits != "" && AllDigits(digits) && vdev == PartitionName(device, digits)
  {
    if digits :| digits != "" && AllDigits(digits) && vdev == PartitionName(device, digits) {
      if EndsInDigit(device) {
        assert vdev == device + ("p" + digits);
        assert vdev[|device|..] == "p" + digits;
        assert ("p" + digits)[1..] == digits;
      } else {
        assert vdev[|device|..] == digits;
      }
    }
    if IsDeviceOrPartition(vdev, device) && vdev != device {
      var rest := StripPrefix(vdev, device).value;
      var digits := if EndsInDigit(device) then StripPrefix(rest, "p").value else rest;
      assert vdev == PartitionName(device, digits);
    }
  }

  /** What follows the bus name in an accepted base name: letters for `sd` and `vd`, digits and one
      `n` for `nvme`. */
  predicate Lettered(base: string) {
    && |base| > 2
    && (base[0] == 's' || base[0] == 'v') && base[1] == 'd'
    && forall i | 2 <= i < |base| :: IsLower(base[i])
  }

  predicate Nvme(base: string) {
    && |base| > 4 && base[..4] == "nvme"
    && EndsInDigit(base)
    && forall i | 4 <= i < |base| :: IsDigit(base[i]) || base[i] == 'n'
  }

  lemma AcceptedShape(base: string)
    requires Validate("/dev/" + base).None?
    ensures Lettered(base) || Nvme(base)
  {
    assert ("/dev/" + base)[5..] == base;
    if StartsWith(base, "sd") || StartsWith(base, "vd") {
      assert forall i | 2 <= i < |base| :: base[i] == base[2..][i - 2];
    } else {
      var rest := base[4..];
      var p := SplitOnce(rest, 'n').value;
      assert rest == p.0 + ['n'] + p.1;
      forall i | 4 <= i < |base| ensures IsDigit(base[i]) || base[i] == 'n' {
        assert base[i] == rest[i - 4];
      }
      assert base[|base| - 1] == rest[|rest| - 1] == p.1[|p.1| - 1];
    }
  }

  /** What follows the device name in a matching vdev. */
  lemma MatchSuffix(vdev: string, device: string)
    requires IsDeviceOrPartition(vdev, device) && vdev != device
    ensures |vdev| > |device| && vdev[..|device|] == device
    ensures if EndsInDigit(device) then vdev[|device|] == 'p' else IsDigit(vdev[|device|])
  {
  }

  /** The longer of two accepted names cannot start with the shorter one followed by a partition. */
  lemma ShorterDoesNotMatch(vdev: string, a: string, b: string)
    requires Lettered(a) || Nvme(a)
    requires Lettered(b) || Nvme(b)
    requires |a| < |b| && IsDeviceOrPartition(vdev, a)
    ensures !IsDeviceOrPartition(vdev, b)
  {
    if IsDeviceOrPartition(vdev, b) {
      assert vdev[..|b|] == b;
      assert vdev != a;
      MatchSuffix(vdev, a);
      assert false;
    }
  }

  lemma SameLengthSameName(vdev: string, a: string, b: string)
    requires |a| == |b| && IsDeviceOrPartition(vdev, a) && IsDeviceOrPartition(vdev, b)
    ensures a == b
  {
    assert vdev[..|a|] == a && vdev[..|b|] == b;
  }

  /** A vdev name matched against a disk's full path, or against its bare name. */
  predicate MatchesDirect(vdev: string, base: string) {
    IsDeviceOrPartition(vdev, "/dev/" + base) || IsDeviceOrPartition(vdev, base)
  }

  lemma FullMatchIsBareMatch(vdev: string, base: string)
    requires IsDeviceOrPartition(vdev, "/dev/" + base) && base != ""
    ensures StartsWith(vdev, "/dev/") && IsDeviceOrPartition(vdev[5..], base)
  {
    var full := "/dev/" + base;
    assert full[|full| - 1] == base[|base| - 1] && full[..5] == "/dev/";
    assert vdev[..|full|] == full;
    assert vdev[5..][..|base|] == base;
    assert vdev[5..][|base|..] == vdev[|full|..];
    if vdev == full { assert vdev[5..] == base; }
  }

  lemma BareMatchesDiffer(vdev: string, a: string, b: string)
    requires Lettered(a) || Nvme(a)
    requires Lettered(b) || Nvme(b)
    requires a != b && IsDeviceOrPartition(vdev, a)
    ensures !IsDeviceOrPartition(vdev, b)
  {
    if IsDeviceOrPartition(vdev, b) {
      if |a| < |b| { ShorterDoesNotMatch(vdev, a, b); }
      else if |b| < |a| { ShorterDoesNotMatch(vdev, b, a); }
      else { SameLengthSameName(vdev, a, b); }
      assert false;
    }
  }

  /** No vdev name, full or bare, matches two different disks that the validator accepts: `/dev/sdbb` is
      not a partition of `/dev/sdb`, nor `nvme1n11` of `nvme1n1`. Membership never bleeds between disks. */
  lemma DisksDoNotShareVdevs(vdev: string, a: string, b: string)
    requires Validate("/dev/" + a).None? && Validate("/dev/" + b).None? && a != b
    requires MatchesDirect(vdev, a)
    ensures !MatchesDirect(vdev, b)
  {
    AcceptedShape(a);
    AcceptedShape(b);
    BareNameStart(vdev, a);
    BareNameStart(vdev, b);
    if StartsWith(vdev, "/dev/") {
      FullMatchIsBareMatch(vdev, a);
      BareMatchesDiffer(vdev[5..], a, b);
      if IsDeviceOrPartition(vdev, "/dev/" + b) { FullMatchIsBareMatch(vdev, b); }
    } else {
      if IsDeviceOrPartition(vdev, "/dev/" + a) { FullMatchIsBareMatch(vdev, a); }
      if IsDeviceOrPartition(vdev, "/dev/" + b) { FullMatchIsBareMatch(vdev, b); }
      BareMatchesDiffer(vdev, a, b);
    }
  }

  /** A bare match starts with the bus name, so it is not a full path. */
  lemma BareNameStart(vdev: string, base: string)
    requires Lettered(base) || Nvme(base)
    ensures IsDeviceOrPartition(vdev, base) ==> !StartsWith(vdev, "/dev/")
  {
    if IsDeviceOrPartition(vdev, base) {
      assert vdev[0] == base[0];
    }
  }

  // ---- Scanning `zpool status` ----

  /** Space, tab, line feed, vertical tab, form feed and carriage return. */
  predicate IsSpace(c: char) {
    c == ' ' || '\t' <= c <= '\r'
  }

  function TrimStart(s: string): (r: string) {
    if s != "" && IsSpace(s[0]) then TrimStart(s[1..]) else s
  }

  function TrimEnd(s: string): (r: string) {
    if s != "" && IsSpace(s[|s| - 1]) then TrimEnd(s[..|s| - 1]) else s
  }

  function Trim(s: string): (r: string) {
    TrimEnd(TrimStart(s))
  }

  /** Trimming takes off all the space at both ends and nothing else. */
  lemma TrimMeaning(s: string) returns (a: string, b: string)
    ensures s == a + Trim(s) + b
    ensures (forall i | 0 <= i < |a| :: IsSpace(a[i])) && (forall i | 0 <= i < |b| :: IsSpace(b[i]))
    ensures Trim(s) != "" ==> !IsSpace(Trim(s)[0]) && !IsSpace(Trim(s)[|Trim(s)| - 1])
  {
    a := TrimmedStart(s);
    b := TrimmedEnd(TrimStart(s));
    assert TrimStart(s) == Trim(s) + b;
    if Trim(s) != "" { assert Trim(s)[0] == TrimStart(s)[0]; }
  }

  lemma {:induction false} TrimmedStart(s: string) returns (a: string)
    ensures s == a + TrimStart(s) && forall i | 0 <= i < |a| :: IsSpace(a[i])
    ensures TrimStart(s) != "" ==> !IsSpace(TrimStart(s)[0])
  {
    a := "";
    if s != "" && IsSpace(s[0]) {
      var rest := TrimmedStart(s[1..]);
      a := [s[0]] + rest;
      assert s == [s[0]] + s[1..];
    }
  }

  lemma {:induction false} TrimmedEnd(s: string) returns (b: string)
    ensures s == TrimEnd(s) + b && forall i | 0 <= i < |b| :: IsSpace(b[i])
    ensures TrimEnd(s) != "" ==> !IsSpace(TrimEnd(s)[|TrimEnd(s)| - 1])
  {
    b := "";
    if s != "" && IsSpace(s[|s| - 1]) {
      var rest := TrimmedEnd(s[..|s| - 1]);
      b := rest + [s[|s| - 1]];
      assert s == s[..|s| - 1] + [s[|s| - 1]];
    }
  }

  /** The first word is the part before the first space. */
  lemma {:induction false} FirstWordMeaning(s: string)
    ensures var w := FirstWord(s);
            && |w| <= |s| && s[..|w|] == w
            && (forall i | 0 <= i < |w| :: !IsSpace(w[i]))
            && (|w| < |s| ==> IsSpace(s[|w|]))
  {
    if s != "" && !IsSpace(s[0]) {
      FirstWordMeaning(s[1..]);
      var w := FirstWord(s[1..]);
      assert s[..|w| + 1] == [s[0]] + s[1..][..|w|];
    }
  }

  /** The text up to the first space. */
  function FirstWord(s: string): (r: string) {
    if s == "" || IsSpace(s[0]) then "" else [s[0]] + FirstWord(s[1..])
  }

  /** The pool a header line names. */
  function Header(line: string): (r: Option<string>) {
    match StripPrefix(Trim(line), "pool: ")
    case Some(name) => Some(Trim(name))
    case None => None
  }

  /** A by-id alias itself, or its partition `<alias>-part<N>`. */
  predicate MatchesAlias(field: string, alias: string) {
    field == alias ||
    match StripPrefix(field, alias)
    case None => false
    case Some(rest) =>
      match StripPrefix(rest, "-part")
      case None => false
      case Some(digits) => digits != "" && AllDigits(digits)
  }

  /** This line lists the disk as a vdev. */
  predicate ListsDisk(line: string, path: string, base: string, aliases: seq<string>) {
    && Header(line).None?
    && var field := FirstWord(Trim(line));
    && field != ""
    && (|| IsDeviceOrPartition(field, path) || IsDeviceOrPartition(field, base)
        || exists k | 0 <= k < |aliases| :: MatchesAlias(field, aliases[k]))
  }

  /** The pool whose section line `i` is in: the nearest header above it. */
  function PoolAt(lines: seq<string>, i: nat): (r: Option<string>)
    requires i <= |lines|
  {
    if i == 0 then None
    else if Header(lines[i - 1]).Some? then Header(lines[i - 1])
    else PoolAt(lines, i - 1)
  }

  predicate Hit(lines: seq<string>, i: nat, path: string, base: string, aliases: seq<string>)
    requires i < |lines|
  {
    ListsDisk(lines[i], path, base, aliases) && PoolAt(lines, i).Some?
  }

  /** The owning pool is the header governing the first line that lists the disk inside some pool's
      section; there is none exactly when no line does. */
  method FindZpoolMember(lines: seq<string>, path: string, base: string, aliases: seq<string>)
    returns (r: Option<string>)
    ensures r.None? <==> forall i | 0 <= i < |lines| :: !Hit(lines, i, path, base, aliases)
    ensures r.Some? ==> exists i | 0 <= i < |lines| ::
              && Hit(lines, i, path, base, aliases) && r == PoolAt(lines, i)
              && forall j | 0 <= j < i :: !Hit(lines, j, path, base, aliases)
  {
    var currentPool: Option<string> := None;
    var i := 0;
    while i < |lines|
      invariant 0 <= i <= |lines|
      invariant currentPool == PoolAt(lines, i)
      invariant forall j | 0 <= j < i :: !Hit(lines, j, path, base, aliases)
    {
      var trimmed := Trim(lines[i]);
      var header := StripPrefix(trimmed, "pool: ");
      if header.Some? {
        currentPool := Some(Trim(header.value));
      } else {
        var field := FirstWord(trimmed);
        if field != "" {
          var byId := exists k | 0 <= k < |aliases| :: MatchesAlias(field, aliases[k]);
          var direct := IsDeviceOrPartition(field, path) || IsDeviceOrPartition(field, base);
          if (direct || byId) && currentPool.Some? {
            assert Hit(lines, i, path, base, aliases);
            return currentPool;
          }
        }
      }
      i := i + 1;
    }
    r := None;
  }

  // ---- By-id aliases ----

  /** Exactly the alias and its partitions' names. */
  lemma MatchesAliasIff(field: string, alias: string)
    ensures MatchesAlias(field, alias)
       <==> field == alias || exists digits :: digits != "" && AllDigits(digits) && field == alias + "-part" + digits
  {
    if digits :| digits != "" && AllDigits(digits) && field == alias + "-part" + digits {
      assert field == alias + ("-part" + digits);
      assert field[|alias|..] == "-part" + digits;
      assert ("-part" + digits)[5..] == digits;
    }
    if MatchesAlias(field, alias) && field != alias {
      var rest := StripPrefix(field, alias).value;
      var digits := StripPrefix(rest, "-part").value;
      assert field == alias + "-part" + digits;
    }
  }

  const BY_ID := "/dev/disk/by-id/"

  lemma AliasSuffix(field: string, alias: string)
    requires MatchesAlias(field, alias) && field != alias
    ensures |field| > |alias| + 5 && field[..|alias|] == alias
    ensures field[|alias|] == '-' && forall i | |alias| < i < |field| :: field[i] != '-'
  {
    var rest := StripPrefix(field, alias).value;
    var digits := StripPrefix(rest, "-part").value;
    assert field == alias + rest && rest == "-part" + digits;
    assert field == alias + "-part" + digits;
    forall i | |alias| < i < |field| ensures field[i] != '-' {
      if i < |alias| + 5 {
        assert field[i] == "-part"[i - |alias|];
      } else {
        assert field[i] == digits[i - |alias| - 5];
      }
    }
  }

  lemma PartsOfOne(field: string, x: string, y: string)
    requires MatchesAlias(field, x) && MatchesAlias(field, y) && field != x && field != y && |x| <= |y|
    ensures x == y
  {
    AliasSuffix(field, x);
    AliasSuffix(field, y);
  }

  /** Two aliases share a vdev name exactly when one of them is the other or a partition of the other. */
  lemma AliasesClashIff(x: string, y: string)
    ensures (exists field :: MatchesAlias(field, x) && MatchesAlias(field, y))
       <==> MatchesAlias(x, y) || MatchesAlias(y, x)
  {
    if field :| MatchesAlias(field, x) && MatchesAlias(field, y) {
      if field != x && field != y {
        if |x| <= |y| { PartsOfOne(field, x, y); } else { PartsOfOne(field, y, x); }
      }
    }
    if MatchesAlias(x, y) { assert MatchesAlias(x, x); }
    if MatchesAlias(y, x) { assert MatchesAlias(y, y); }
  }

  /** A by-id path is not the name of an accepted disk or of its partition. */
  lemma AliasIsNotDirect(field: string, alias: string, base: string)
    requires StartsWith(alias, BY_ID) && MatchesAlias(field, alias) && (Lettered(base) || Nvme(base))
    ensures !MatchesDirect(field, base)
  {
    assert field[..|alias|] == alias;
    assert field[..|BY_ID|] == BY_ID;
    assert field[5] == BY_ID[5] == 'd' && field[..5] == BY_ID[..5] == "/dev/";
    BareNameStart(field, base);
    FullNameStart(field, base);
  }

  lemma FullNameStart(field: string, base: string)
    requires base != ""
    ensures IsDeviceOrPartition(field, "/dev/" + base) ==> |field| > 5 && field[5] == base[0]
  {
    if IsDeviceOrPartition(field, "/dev/" + base) {
      assert field[..5 + |base|] == "/dev/" + base;
      assert field[5] == ("/dev/" + base)[5];
    }
  }

  /** Aliases of two disks in the by-id directory: its entries are distinct, and an entry for a whole disk
      is not named like a partition of another. */
  predicate Unrelated(aliases: seq<string>, others: seq<string>) {
    && (forall k | 0 <= k < |aliases| :: StartsWith(aliases[k], BY_ID))
    && (forall l | 0 <= l < |others| :: StartsWith(others[l], BY_ID))
    && (forall k, l | 0 <= k < |aliases| && 0 <= l < |others| ::
          !MatchesAlias(aliases[k], others[l]) && !MatchesAlias(others[l], aliases[k]))
  }

  /** So in one status report no line makes two accepted disks members: a disk is found in a pool only
      through lines that are not the other disk's. */
  lemma LinesBelongToOneDisk(
    lines: seq<string>, i: nat, a: string, b: string, aliases: seq<string>, others: seq<string>)
    requires i < |lines| && Validate("/dev/" + a).None? && Validate("/dev/" + b).None? && a != b
    requires Unrelated(aliases, others)
    requires Hit(lines, i, "/dev/" + a, a, aliases)
    ensures !Hit(lines, i, "/dev/" + b, b, others)
  {
    var field := FirstWord(Trim(lines[i]));
    AcceptedShape(a);
    AcceptedShape(b);
    if MatchesDirect(field, a) {
      DisksDoNotShareVdevs(field, a, b);
      forall l | 0 <= l < |others| ensures !MatchesAlias(field, others[l]) {
        if MatchesAlias(field, others[l]) { AliasIsNotDirect(field, others[l], a); }
      }
    } else {
      var k :| 0 <= k < |aliases| && MatchesAlias(field, aliases[k]);
      AliasIsNotDirect(field, aliases[k], b);
      forall l | 0 <= l < |others| ensures !MatchesAlias(field, others[l]) {
        AliasesClashIff(aliases[k], others[l]);
      }
    }
  }
}
