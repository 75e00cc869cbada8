/**
 The mount and capacity projections of the build server: strict line parsers that accept a text only if it
 covers every selected mount exactly once, between two equal identities of the daemon.
 */
module ProbeRows {
  import opened Bytes
  import opened Wrappers
  import opened LineText

  datatype Domain = InContainer | InDaemon

  datatype Path = BuildkitData | LocalTmp | RuntimeDir | Tmp

  datatype Daemon = Daemon(pid: nat, startTicks: nat, namespace: nat)

  datatype Mount = Mount(
    mountId: nat, parentId: nat, major: nat, minor: nat, noexec: bool, mode: string, uid: nat, gid: nat)

  datatype Capacity = Capacity(blockSize: nat, blocks: nat, free: nat, inodes: nat, freeInodes: nat)

  /** What a line is about; each of these must be told exactly once. */
  datatype Key = Identity(before: bool) | Namespace | At(domain: Domain, path: Path)

  datatype Value = IsDaemon(daemon: Daemon) | IsInode(inode: nat) | IsMount(mount: Mount) | IsCapacity(capacity: Capacity)

  datatype Probe = Mounts | Capacities

  // ---- One line.

  function DomainOf(s: string): Option<Domain> {
    if s == "container" then Some(InContainer) else if s == "daemon" then Some(InDaemon) else None
  }

  function PathOf(s: string): Option<Path> {
    if s == "/home/user/.local/share/buildkit" then Some(BuildkitData)
    else if s == "/home/user/.local/tmp" then Some(LocalTmp)
    else if s == "/run/user/1000" then Some(RuntimeDir)
    else if s == "/tmp" then Some(Tmp)
    else None
  }

  /** The fixed size of each file system. */
  function Size(path: Path): nat {
    match path
    case BuildkitData => 536870912
    case LocalTmp => 16777216
    case RuntimeDir => 16777216
    case Tmp => 134217728
  }

  /** `mount_namespace`: `mnt:\[([0-9]+)\]` with a positive strict number. */
  function MountNamespace(s: string): Option<nat> {
    if |s| > 6 && s[..5] == "mnt:[" && s[|s| - 1] == ']' then Unsigned(s[5..|s| - 1], MAX64, true) else None
  }

  function DaemonOf(pid: string, ticks: string, namespace: string): Option<Daemon> {
    match (Unsigned(pid, MAX32, true), Unsigned(ticks, MAX64, true), MountNamespace(namespace))
    case (Some(p), Some(t), Some(n)) => Some(Daemon(p, t, n))
    case _ => None
  }

  /** `[0-7]{3,4}`. */
  predicate ModeOk(s: string) {
    3 <= |s| <= 4 && forall i :: 0 <= i < |s| ==> '0' <= s[i] <= '7'
  }

  function MountOf(f: seq<string>): Option<Mount>
    requires |f| == 14
  {
    var device := Split(f[5], ':');
    if |device| != 2 || f[6] != "tmpfs" || f[7] != "1" || f[8] != "1" || f[9] != "1"
       || (f[10] != "0" && f[10] != "1") || !ModeOk(f[11]) then None
    else
      match (Unsigned(f[3], MAX32, true), Unsigned(f[4], MAX32, true), Unsigned(device[0], MAX32, false),
             Unsigned(device[1], MAX32, false), Unsigned(f[12], MAX32, false), Unsigned(f[13], MAX32, false))
      case (Some(id), Some(parent), Some(major), Some(minor), Some(uid), Some(gid)) =>
        Some(Mount(id, parent, major, minor, f[10] == "1", f[11], uid, gid))
      case _ => None
  }

  function CapacityOf(f: seq<string>): Option<Capacity>
    requires |f| == 8
  {
    match (Unsigned(f[3], MAX64, true), Unsigned(f[4], MAX64, true), Unsigned(f[5], MAX64, false),
           Unsigned(f[6], MAX64, true), Unsigned(f[7], MAX64, false))
    case (Some(size), Some(blocks), Some(free), Some(inodes), Some(freeInodes)) =>
      Some(Capacity(size, blocks, free, inodes, freeInodes))
    case _ => None
  }

  predicate CapacityOk(c: Capacity, path: Path) {
    (c.blockSize == 4096 || c.blockSize == 65536) && c.blockSize * c.blocks == Size(path)
    && c.free <= c.blocks && c.freeInodes <= c.inodes
  }

  /** What one line says, apart from the others; None is a rejection. */
  function Decode(probe: Probe, line: string): Option<(Key, Value)> {
    var f := Split(line, '|');
    if |f| == 5 && f[0] == "I" && (f[1] == "before" || f[1] == "after") then
      match DaemonOf(f[2], f[3], f[4])
      case Some(d) => if probe == Mounts && d.pid <= 1 then None else Some((Identity(f[1] == "before"), IsDaemon(d)))
      case None => None
    else if probe == Mounts && |f| == 2 && f[0] == "C" then
      match MountNamespace(f[1])
      case Some(n) => Some((Namespace, IsInode(n)))
      case None => None
    else if probe == Mounts && |f| == 14 && f[0] == "M" then
      match (DomainOf(f[1]), PathOf(f[2]), MountOf(f))
      case (Some(d), Some(p), Some(m)) => Some((At(d, p), IsMount(m)))
      case _ => None
    else if probe == Capacities && |f| == 8 && f[0] == "F" then
      match (DomainOf(f[1]), PathOf(f[2]), CapacityOf(f))
      case (Some(d), Some(p), Some(c)) => if CapacityOk(c, p) then Some((At(d, p), IsCapacity(c))) else None
      case _ => None
    else None
  }

  predicate Wanted(probe: Probe, key: Key) {
    probe == Mounts || !key.Namespace?
  }

  /** Every value has the kind of its key. */
  lemma DecodedKinds(probe: Probe, line: string)
    requires Decode(probe, line).Some?
    ensures var (k, v) := Decode(probe, line).value;
            && Wanted(probe, k)
            && (k.Identity? <==> v.IsDaemon?) && (k.Namespace? <==> v.IsInode?)
            && (k.At? && probe == Mounts <==> v.IsMount?)
            && (v.IsCapacity? ==> CapacityOk(v.capacity, k.path))
  {
  }

  // ---- All lines.

  /** The decoded lines; the texts no longer matter. */
  type Rows = seq<(Key, Value)>

  predicate AllDecode(probe: Probe, lines: seq<string>) {
    forall i :: 0 <= i < |lines| ==> Decode(probe, lines[i]).Some?
  }

  function Decoded(probe: Probe, lines: seq<string>): (rows: Rows)
    requires AllDecode(probe, lines)
    ensures |rows| == |lines| && forall i :: 0 <= i < |lines| ==> Some(rows[i]) == Decode(probe, lines[i])
  {
    seq(|lines|, i requires 0 <= i < |lines| => Decode(probe, lines[i]).value)
  }

  /** One row, and only one, has this key, and it has this value. */
  predicate Once(rows: Rows, key: Key, value: Value) {
    exists i :: 0 <= i < |rows| && OnlyAt(rows, i, key, value)
  }

  predicate OnlyAt(rows: Rows, i: nat, key: Key, value: Value)
    requires i < |rows|
  {
    rows[i] == (key, value) && forall j :: 0 <= j < |rows| && j != i ==> rows[j].0 != key
  }

  predicate DistinctKeys(rows: Rows) {
    forall i, j :: 0 <= i < j < |rows| ==> rows[i].0 != rows[j].0
  }

  /** The dictionary the parser has built. */
  predicate Indexed(rows: Rows, table: map<Key, Value>) {
    && (forall i :: 0 <= i < |rows| ==> rows[i].0 in table && table[rows[i].0] == rows[i].1)
    && (forall k :: k in table ==> exists i :: 0 <= i < |rows| && rows[i].0 == k)
  }

  lemma RowAdded(rows: Rows, table: map<Key, Value>, key: Key, value: Value)
    requires DistinctKeys(rows) && Indexed(rows, table) && key !in table
    ensures DistinctKeys(rows + [(key, value)]) && Indexed(rows + [(key, value)], table[key := value])
  {
    var more := rows + [(key, value)];
    assert more[|rows|] == (key, value) && forall i :: 0 <= i < |rows| ==> more[i] == rows[i];
    var bigger := table[key := value];
    forall k | k in bigger ensures exists i :: 0 <= i < |more| && more[i].0 == k {
      if k in table {
        var i :| 0 <= i < |rows| && rows[i].0 == k;
        assert more[i].0 == k;
      }
    }
  }

  /** These rows are what the first lines say. */
  predicate ReadSoFar(probe: Probe, lines: seq<string>, rows: Rows) {
    |rows| <= |lines| && forall i :: 0 <= i < |rows| ==> Decode(probe, lines[i]) == Some(rows[i])
  }

  lemma ReadOneMore(probe: Probe, lines: seq<string>, rows: Rows, row: (Key, Value))
    requires ReadSoFar(probe, lines, rows) && |rows| < |lines| && Decode(probe, lines[|rows|]) == Some(row)
    ensures ReadSoFar(probe, lines, rows + [row])
  {
    forall i | 0 <= i < |rows| + 1 ensures Decode(probe, lines[i]) == Some((rows + [row])[i]) {
    }
  }

  lemma AllRead(probe: Probe, lines: seq<string>, rows: Rows)
    requires ReadSoFar(probe, lines, rows) && |rows| == |lines|
    ensures AllDecode(probe, lines) && Decoded(probe, lines) == rows
  {
  }

  /** The loop of both parsers: a line that does not decode or that repeats a key ends it. */
  method ReadTable(probe: Probe, lines: seq<string>) returns (table: Option<map<Key, Value>>)
    ensures table.Some? <==> AllDecode(probe, lines) && DistinctKeys(Decoded(probe, lines))
    ensures table.Some? ==> Indexed(Decoded(probe, lines), table.value)
  {
    var found: map<Key, Value>, rows: Rows := map[], [];
    for n := 0 to |lines|
      invariant |rows| == n && ReadSoFar(probe, lines, rows)
      invariant DistinctKeys(rows) && Indexed(rows, found)
    {
      var row := Decode(probe, lines[n]);
      if row.None? {
        return None;
      }
      if row.value.0 in found {
        RepeatedKey(probe, lines, rows, found, row.value);
        return None;
      }
      RowAdded(rows, found, row.value.0, row.value.1);
      ReadOneMore(probe, lines, rows, row.value);
      found, rows := found[row.value.0 := row.value.1], rows + [row.value];
    }
    AllRead(probe, lines, rows);
    return Some(found);
  }

  lemma RepeatedKey(probe: Probe, lines: seq<string>, rows: Rows, table: map<Key, Value>, row: (Key, Value))
    requires ReadSoFar(probe, lines, rows) && |rows| < |lines| && Decode(probe, lines[|rows|]) == Some(row)
    requires Indexed(rows, table) && row.0 in table
    ensures !(AllDecode(probe, lines) && DistinctKeys(Decoded(probe, lines)))
  {
    var i :| 0 <= i < |rows| && rows[i].0 == row.0;
    if AllDecode(probe, lines) {
      var all := Decoded(probe, lines);
      assert Some(all[i]) == Decode(probe, lines[i]) && Some(all[|rows|]) == Decode(probe, lines[|rows|]);
      assert all[i].0 == all[|rows|].0;
    }
  }

  lemma OnceIsIndexed(rows: Rows, table: map<Key, Value>, key: Key, value: Value)
    requires DistinctKeys(rows) && Indexed(rows, table)
    ensures Once(rows, key, value) <==> key in table && table[key] == value
  {
    if key in table && table[key] == value {
      var i :| 0 <= i < |rows| && rows[i].0 == key;
      assert OnlyAt(rows, i, key, value);
    }
  }

  /** If every wanted key is told once, no line is left over. */
  lemma CoveredIsDistinct(probe: Probe, lines: seq<string>)
    requires AllDecode(probe, lines)
    requires forall k :: Wanted(probe, k) ==> exists v :: Once(Decoded(probe, lines), k, v)
    ensures DistinctKeys(Decoded(probe, lines))
  {
    var rows := Decoded(probe, lines);
    forall i | 0 <= i < |rows| ensures exists v :: Once(rows, rows[i].0, v) {
      assert Some(rows[i]) == Decode(probe, lines[i]);
      DecodedKinds(probe, lines[i]);
    }
  }

  // ---- Both parsers.

  const MAX_PROJECTION := 8192

  datatype MountProof = MountProof(daemon: Daemon, containerNamespace: nat, mounts: map<(Domain, Path), Mount>)

  /** Only the snapshot data may hold executables; everything is private to the one user. */
  predicate PolicyOk(path: Path, m: Mount) {
    m.mode == "700" && m.uid == 1000 && m.gid == 1000 && (m.noexec <==> path != BuildkitData)
  }

  /** What `parse_mounts` promises of the lines it accepts. */
  ghost predicate MountsProven(lines: seq<string>, r: MountProof) {
    && |lines| == 11 && AllDecode(Mounts, lines)
    && (forall before :: Once(Decoded(Mounts, lines), Identity(before), IsDaemon(r.daemon)))
    && Once(Decoded(Mounts, lines), Namespace, IsInode(r.containerNamespace))
    && (forall d, p :: (d, p) in r.mounts && PolicyOk(p, r.mounts[(d, p)])
                       && Once(Decoded(Mounts, lines), At(d, p), IsMount(r.mounts[(d, p)])))
  }

  /** What `parse_capacity` promises, for the daemon it expects. */
  ghost predicate CapacityProven(lines: seq<string>, expected: Daemon, r: map<(Domain, Path), Capacity>) {
    && AllDecode(Capacities, lines)
    && (forall before :: Once(Decoded(Capacities, lines), Identity(before), IsDaemon(expected)))
    && (forall d, p :: (d, p) in r && CapacityOk(r[(d, p)], p)
                       && Once(Decoded(Capacities, lines), At(d, p), IsCapacity(r[(d, p)])))
  }

  /** The policy, path by path: everything is private to user 1000, and executables may stand on one path only. */
  lemma ProvenMounts(lines: seq<string>, r: MountProof, d: Domain)
    requires MountsProven(lines, r)
    ensures forall p :: (d, p) in r.mounts && r.mounts[(d, p)].mode == "700"
                        && r.mounts[(d, p)].uid == 1000 && r.mounts[(d, p)].gid == 1000
    ensures !r.mounts[(d, BuildkitData)].noexec && r.mounts[(d, LocalTmp)].noexec
    ensures r.mounts[(d, RuntimeDir)].noexec && r.mounts[(d, Tmp)].noexec
  {
    forall p ensures (d, p) in r.mounts && PolicyOk(p, r.mounts[(d, p)]) {
    }
  }

  /** Those proofs are all there are. */
  lemma PolicyIsEnough(lines: seq<string>, r: MountProof)
    requires |lines| == 11 && AllDecode(Mounts, lines)
    requires forall before :: Once(Decoded(Mounts, lines), Identity(before), IsDaemon(r.daemon))
    requires Once(Decoded(Mounts, lines), Namespace, IsInode(r.containerNamespace))
    requires forall d, p :: (d, p) in r.mounts && Once(Decoded(Mounts, lines), At(d, p), IsMount(r.mounts[(d, p)]))
    requires forall d, p :: (d, p) in r.mounts && r.mounts[(d, p)].mode == "700" && r.mounts[(d, p)].uid == 1000
                            && r.mounts[(d, p)].gid == 1000 && (r.mounts[(d, p)].noexec <==> p in {LocalTmp, RuntimeDir, Tmp})
    ensures MountsProven(lines, r)
  {
    forall d, p ensures (d, p) in r.mounts && PolicyOk(p, r.mounts[(d, p)]) {
      match p
      case BuildkitData =>
      case LocalTmp =>
      case RuntimeDir =>
      case Tmp =>
    }
  }

  /** What a mount line may show: three or four octal digits, and numbers of 32 bits. */
  lemma MountRange(m: Mount)
    ensures MountInRange(m) <==>
              && 1 <= m.mountId < 0x1_0000_0000 && 1 <= m.parentId < 0x1_0000_0000
              && 0 <= m.major < 0x1_0000_0000 && 0 <= m.minor < 0x1_0000_0000
              && 0 <= m.uid < 0x1_0000_0000 && 0 <= m.gid < 0x1_0000_0000
              && |m.mode| in {3, 4} && forall i :: 0 <= i < |m.mode| ==> m.mode[i] in "01234567"
  {
    forall i | 0 <= i < |m.mode| ensures m.mode[i] in "01234567" <==> '0' <= m.mode[i] <= '7' {
      OctalDigit(m.mode[i]);
    }
  }

  lemma OctalDigit(c: char)
    ensures c in "01234567" <==> '0' <= c <= '7'
  {
    if '0' <= c <= '7' {
      assert "01234567"[c as int - 48] == c;
    }
  }

  lemma DaemonRange(d: Daemon)
    ensures DaemonInRange(d) <==>
              && 2 <= d.pid < 0x1_0000_0000 && 1 <= d.startTicks < 0x1_0000_0000_0000_0000
              && 1 <= d.namespace < 0x1_0000_0000_0000_0000
  {
  }

  /** What a capacity may be: the size of its path in one of two block sizes, and no more free than there is. */
  lemma CapacityMeans(c: Capacity, p: Path)
    ensures CapacityOk(c, p) <==>
              && c.blockSize in {4096, 65536} && 0 <= c.blocks - c.free && 0 <= c.inodes - c.freeInodes
              && c.blockSize * c.blocks == (match p
                                            case BuildkitData => 536870912
                                            case Tmp => 134217728
                                            case _ => 16777216)
  {
  }

  /** Proven capacities: the fixed size of each path in one of two block sizes, and no more free than there is. */
  lemma ProvenCapacities(lines: seq<string>, expected: Daemon, r: map<(Domain, Path), Capacity>, d: Domain)
    requires CapacityProven(lines, expected, r)
    ensures forall p :: (d, p) in r && r[(d, p)].blockSize in {4096, 65536} && r[(d, p)].free <= r[(d, p)].blocks
                        && r[(d, p)].freeInodes <= r[(d, p)].inodes
    ensures r[(d, BuildkitData)].blockSize * r[(d, BuildkitData)].blocks == 512 * 1024 * 1024
    ensures r[(d, LocalTmp)].blockSize * r[(d, LocalTmp)].blocks == 16 * 1024 * 1024
    ensures r[(d, RuntimeDir)].blockSize * r[(d, RuntimeDir)].blocks == 16 * 1024 * 1024
    ensures r[(d, Tmp)].blockSize * r[(d, Tmp)].blocks == 128 * 1024 * 1024
  {
    forall p ensures (d, p) in r && CapacityOk(r[(d, p)], p) {
    }
  }

  /** The conditions the parser checks on its dictionaries are the promise about the lines. */
  predicate MountTable(table: map<Key, Value>, r: MountProof) {
    && (forall before :: Identity(before) in table && table[Identity(before)] == IsDaemon(r.daemon))
    && Namespace in table && table[Namespace] == IsInode(r.containerNamespace)
    && (forall d: Domain, p: Path :: (d, p) in r.mounts && PolicyOk(p, r.mounts[(d, p)])
                                     && At(d, p) in table && table[At(d, p)] == IsMount(r.mounts[(d, p)]))
  }

  predicate CapacityTable(table: map<Key, Value>, expected: Daemon, r: map<(Domain, Path), Capacity>) {
    && (forall before :: Identity(before) in table && table[Identity(before)] == IsDaemon(expected))
    && (forall d: Domain, p: Path :: (d, p) in r && CapacityOk(r[(d, p)], p)
                                     && At(d, p) in table && table[At(d, p)] == IsCapacity(r[(d, p)]))
  }

  lemma MountsAreTable(lines: seq<string>, table: map<Key, Value>, r: MountProof)
    requires AllDecode(Mounts, lines) && DistinctKeys(Decoded(Mounts, lines)) && Indexed(Decoded(Mounts, lines), table)
    ensures MountsProven(lines, r) <==> |lines| == 11 && MountTable(table, r)
  {
    var rows := Decoded(Mounts, lines);
    forall k, v ensures Once(rows, k, v) <==> k in table && table[k] == v {
      OnceIsIndexed(rows, table, k, v);
    }
  }

  lemma CapacitiesAreTable(lines: seq<string>, table: map<Key, Value>, expected: Daemon,
                           r: map<(Domain, Path), Capacity>)
    requires AllDecode(Capacities, lines) && DistinctKeys(Decoded(Capacities, lines))
    requires Indexed(Decoded(Capacities, lines), table)
    ensures CapacityProven(lines, expected, r) <==> CapacityTable(table, expected, r)
  {
    var rows := Decoded(Capacities, lines);
    forall k, v ensures Once(rows, k, v) <==> k in table && table[k] == v {
      OnceIsIndexed(rows, table, k, v);
    }
  }

  lemma MountsAreDistinct(lines: seq<string>, r: MountProof)
    requires MountsProven(lines, r)
    ensures DistinctKeys(Decoded(Mounts, lines))
  {
    var rows := Decoded(Mounts, lines);
    forall k | Wanted(Mounts, k) ensures exists v :: Once(rows, k, v) {
      match k
      case Identity(before) => assert Once(rows, Identity(before), IsDaemon(r.daemon));
      case Namespace => assert Once(rows, Namespace, IsInode(r.containerNamespace));
      case At(d, p) => assert Once(rows, At(d, p), IsMount(r.mounts[(d, p)]));
    }
    CoveredIsDistinct(Mounts, lines);
  }

  lemma CapacitiesAreDistinct(lines: seq<string>, expected: Daemon, r: map<(Domain, Path), Capacity>)
    requires CapacityProven(lines, expected, r)
    ensures DistinctKeys(Decoded(Capacities, lines))
  {
    var rows := Decoded(Capacities, lines);
    forall k | Wanted(Capacities, k) ensures exists v :: Once(rows, k, v) {
      match k
      case Identity(before) => assert Once(rows, Identity(before), IsDaemon(expected));
      case At(d, p) => assert Once(rows, At(d, p), IsCapacity(r[(d, p)]));
    }
    CoveredIsDistinct(Capacities, lines);
  }

  lemma TableKinds(probe: Probe, lines: seq<string>, table: map<Key, Value>)
    requires AllDecode(probe, lines) && Indexed(Decoded(probe, lines), table)
    ensures forall k :: k in table ==>
              && (k.Identity? ==> table[k].IsDaemon?) && (k.Namespace? ==> table[k].IsInode?)
              && (k.At? ==> if probe == Mounts then table[k].IsMount?
                            else table[k].IsCapacity? && CapacityOk(table[k].capacity, k.path))
  {
    var rows := Decoded(probe, lines);
    forall k | k in table ensures
              && (k.Identity? ==> table[k].IsDaemon?) && (k.Namespace? ==> table[k].IsInode?)
              && (k.At? ==> if probe == Mounts then table[k].IsMount?
                            else table[k].IsCapacity? && CapacityOk(table[k].capacity, k.path)) {
      var i :| 0 <= i < |rows| && rows[i].0 == k;
      assert Some(rows[i]) == Decode(probe, lines[i]);
      DecodedKinds(probe, lines[i]);
    }
  }

  lemma MountsAreTables(lines: seq<string>, table: map<Key, Value>)
    requires AllDecode(Mounts, lines) && DistinctKeys(Decoded(Mounts, lines)) && Indexed(Decoded(Mounts, lines), table)
    ensures forall r :: MountsProven(lines, r) <==> |lines| == 11 && MountTable(table, r)
  {
    forall r ensures MountsProven(lines, r) <==> |lines| == 11 && MountTable(table, r) {
      MountsAreTable(lines, table, r);
    }
  }

  lemma NoMountTable(lines: seq<string>)
    ensures (AllDecode(Mounts, lines) && DistinctKeys(Decoded(Mounts, lines))) || forall r :: !MountsProven(lines, r)
  {
    forall r ensures MountsProven(lines, r) ==> DistinctKeys(Decoded(Mounts, lines)) {
      if MountsProven(lines, r) {
        MountsAreDistinct(lines, r);
      }
    }
  }

  /** The checks after the loop of `parse_mounts`. */
  method CheckMounts(t: map<Key, Value>) returns (r: Option<MountProof>)
    requires forall k :: k in t ==> (k.Identity? ==> t[k].IsDaemon?) && (k.Namespace? ==> t[k].IsInode?)
                                    && (k.At? ==> t[k].IsMount?)
    ensures r.Some? ==> MountTable(t, r.value)
    ensures r.None? ==> forall other :: !MountTable(t, other)
  {
    if Identity(true) !in t || Identity(false) !in t || t[Identity(true)] != t[Identity(false)] || Namespace !in t
       || exists d: Domain, p: Path :: At(d, p) !in t || !PolicyOk(p, t[At(d, p)].mount) {
      return None;
    }
    var mounts := map d: Domain, p: Path | At(d, p) in t :: (d, p) := t[At(d, p)].mount;
    return Some(MountProof(t[Identity(true)].daemon, t[Namespace].inode, mounts));
  }

  /** `parse_mounts`; None is a rejection, and means that the lines prove nothing of the kind. */
  method ParseMounts(text: string) returns (r: Option<MountProof>)
    ensures r.Some? ==> ByteLength(text) <= MAX_PROJECTION && MountsProven(Lines(text), r.value)
    ensures r.None? ==> ByteLength(text) > MAX_PROJECTION || forall other :: !MountsProven(Lines(text), other)
  {
    var lines := Lines(text);
    if ByteLength(text) > MAX_PROJECTION || |lines| != 11 {
      return None;
    }
    var table := ReadTable(Mounts, lines);
    if table.None? {
      NoMountTable(lines);
      return None;
    }
    TableKinds(Mounts, lines, table.value);
    MountsAreTables(lines, table.value);
    r := CheckMounts(table.value);
  }

  lemma CapacitiesAreTables(lines: seq<string>, table: map<Key, Value>, expected: Daemon)
    requires AllDecode(Capacities, lines) && DistinctKeys(Decoded(Capacities, lines))
    requires Indexed(Decoded(Capacities, lines), table)
    ensures forall r :: CapacityProven(lines, expected, r) <==> CapacityTable(table, expected, r)
  {
    forall r ensures CapacityProven(lines, expected, r) <==> CapacityTable(table, expected, r) {
      CapacitiesAreTable(lines, table, expected, r);
    }
  }

  lemma NoCapacityTable(lines: seq<string>, expected: Daemon)
    ensures (AllDecode(Capacities, lines) && DistinctKeys(Decoded(Capacities, lines)))
         || forall r :: !CapacityProven(lines, expected, r)
  {
    forall r ensures CapacityProven(lines, expected, r) ==> DistinctKeys(Decoded(Capacities, lines)) {
      if CapacityProven(lines, expected, r) {
        CapacitiesAreDistinct(lines, expected, r);
      }
    }
  }

  method CheckCapacity(t: map<Key, Value>, expected: Daemon) returns (r: Option<map<(Domain, Path), Capacity>>)
    requires forall k :: k in t && k.At? ==> t[k].IsCapacity? && CapacityOk(t[k].capacity, k.path)
    ensures r.Some? ==> CapacityTable(t, expected, r.value)
    ensures r.None? ==> forall other :: !CapacityTable(t, expected, other)
  {
    if Identity(true) !in t || Identity(false) !in t || t[Identity(true)] != IsDaemon(expected)
       || t[Identity(false)] != IsDaemon(expected) || exists d: Domain, p: Path :: At(d, p) !in t {
      return None;
    }
    return Some(map d: Domain, p: Path | At(d, p) in t :: (d, p) := t[At(d, p)].capacity);
  }

  /** `parse_capacity`. */
  method ParseCapacity(text: string, expected: Daemon) returns (r: Option<map<(Domain, Path), Capacity>>)
    ensures r.Some? ==> ByteLength(text) <= MAX_PROJECTION && CapacityProven(Lines(text), expected, r.value)
    ensures r.None? ==>
              (ByteLength(text) > MAX_PROJECTION || forall other :: !CapacityProven(Lines(text), expected, other))
  {
    var lines := Lines(text);
    if ByteLength(text) > MAX_PROJECTION {
      return None;
    }
    var table := ReadTable(Capacities, lines);
    if table.None? {
      NoCapacityTable(lines, expected);
      return None;
    }
    TableKinds(Capacities, lines, table.value);
    CapacitiesAreTables(lines, table.value, expected);
    r := CheckCapacity(table.value, expected);
  }

  // ---- The order of the lines does not matter.

  lemma CountedOnce(lines: seq<string>, i: nat, j: nat)
    requires i < |lines| && j < |lines| && i != j && multiset(lines)[lines[i]] < 2
    ensures lines[i] != lines[j]
  {
    if i < j {
      assert lines == lines[..j] + [lines[j]] + lines[j + 1..];
      assert lines[..j][i] == lines[i] && lines[i] in multiset(lines[..j]);
    } else {
      assert lines == lines[..i] + [lines[i]] + lines[i + 1..];
      assert lines[..i][j] == lines[j] && lines[j] in multiset(lines[..i]);
    }
  }

  lemma {:induction false} CountedIsTwice(lines: seq<string>, i: nat)
    requires i < |lines| && multiset(lines)[lines[i]] >= 2
    ensures exists j :: 0 <= j < |lines| && j != i && lines[j] == lines[i]
  {
    var rest := lines[..i] + lines[i + 1..];
    assert lines == lines[..i] + [lines[i]] + lines[i + 1..];
    assert multiset(rest)[lines[i]] >= 1;
    assert lines[i] in rest;
    var k :| 0 <= k < |rest| && rest[k] == lines[i];
    assert lines[if k < i then k else k + 1] == lines[i];
  }

  lemma SameLinesDecode(probe: Probe, a: seq<string>, b: seq<string>)
    requires multiset(a) == multiset(b)
    ensures AllDecode(probe, a) <==> AllDecode(probe, b)
  {
    forall i | 0 <= i < |a| ensures a[i] in b { assert a[i] in multiset(a); }
    forall i | 0 <= i < |b| ensures b[i] in a { assert b[i] in multiset(b); }
  }

  lemma OnlyAtCountsOnce(probe: Probe, lines: seq<string>, i: nat, key: Key, value: Value)
    requires AllDecode(probe, lines) && i < |lines| && OnlyAt(Decoded(probe, lines), i, key, value)
    ensures multiset(lines)[lines[i]] < 2
  {
    var rows := Decoded(probe, lines);
    forall j | 0 <= j < |lines| && j != i ensures lines[j] != lines[i] {
      assert Some(rows[j]) == Decode(probe, lines[j]) && Some(rows[i]) == Decode(probe, lines[i]);
    }
    if multiset(lines)[lines[i]] >= 2 {
      CountedIsTwice(lines, i);
    }
  }

  /** Being told once is a matter of the lines, not of their order. */
  lemma OnceIsOrderFree(probe: Probe, a: seq<string>, b: seq<string>, key: Key, value: Value)
    requires multiset(a) == multiset(b) && AllDecode(probe, a) && AllDecode(probe, b)
    requires Once(Decoded(probe, a), key, value)
    ensures Once(Decoded(probe, b), key, value)
  {
    var before, after := Decoded(probe, a), Decoded(probe, b);
    var i :| 0 <= i < |before| && OnlyAt(before, i, key, value);
    OnlyAtCountsOnce(probe, a, i, key, value);
    assert a[i] in multiset(b);
    var j :| 0 <= j < |b| && b[j] == a[i];
    assert Some(after[j]) == Some(before[i]);
    forall k | 0 <= k < |after| && k != j ensures after[k].0 != key {
      CountedOnce(b, j, k);
      assert b[k] in multiset(a);
      var l :| 0 <= l < |a| && a[l] == b[k];
      assert Some(before[l]) == Some(after[k]);
    }
    assert OnlyAt(after, j, key, value);
  }

  /** Reordering the lines changes neither the verdict of `parse_mounts` nor its result. */
  lemma MountsIgnoreOrder(a: seq<string>, b: seq<string>, r: MountProof)
    requires multiset(a) == multiset(b) && MountsProven(a, r)
    ensures MountsProven(b, r)
  {
    SameLinesDecode(Mounts, a, b);
    assert |a| == |multiset(a)| && |b| == |multiset(b)|;
    forall k, v | Once(Decoded(Mounts, a), k, v) ensures Once(Decoded(Mounts, b), k, v) {
      OnceIsOrderFree(Mounts, a, b, k, v);
    }
  }

  lemma CapacityIgnoresOrder(a: seq<string>, b: seq<string>, expected: Daemon, r: map<(Domain, Path), Capacity>)
    requires multiset(a) == multiset(b) && CapacityProven(a, expected, r)
    ensures CapacityProven(b, expected, r)
  {
    SameLinesDecode(Capacities, a, b);
    forall k, v | Once(Decoded(Capacities, a), k, v) ensures Once(Decoded(Capacities, b), k, v) {
      OnceIsOrderFree(Capacities, a, b, k, v);
    }
  }

  lemma OnceIsUnique(rows: Rows, key: Key, v: Value, w: Value)
    requires Once(rows, key, v) && Once(rows, key, w)
    ensures v == w
  {
  }

  /** The lines determine the result. */
  lemma MountsAreUnique(lines: seq<string>, r: MountProof, s: MountProof)
    requires MountsProven(lines, r) && MountsProven(lines, s)
    ensures r.daemon == s.daemon && r.containerNamespace == s.containerNamespace && r.mounts == s.mounts
  {
    var rows := Decoded(Mounts, lines);
    OnceIsUnique(rows, Identity(true), IsDaemon(r.daemon), IsDaemon(s.daemon));
    OnceIsUnique(rows, Namespace, IsInode(r.containerNamespace), IsInode(s.containerNamespace));
    forall k: (Domain, Path) ensures k in r.mounts && k in s.mounts && r.mounts[k] == s.mounts[k] {
      assert k == (k.0, k.1);
      OnceIsUnique(rows, At(k.0, k.1), IsMount(r.mounts[k]), IsMount(s.mounts[k]));
    }
  }

  // ---- The lines of the probe, and that reading them gives what was printed.

  function DomainText(d: Domain): string {
    if d == InContainer then "container" else "daemon"
  }

  function PathText(p: Path): string {
    match p
    case BuildkitData => "/home/user/.local/share/buildkit"
    case LocalTmp => "/home/user/.local/tmp"
    case RuntimeDir => "/run/user/1000"
    case Tmp => "/tmp"
  }

  function Inode(n: nat): string {
    "mnt:[" + Decimal(n) + "]"
  }

  function MountFields(d: Domain, p: Path, m: Mount): seq<string> {
    ["M", DomainText(d), PathText(p), Decimal(m.mountId), Decimal(m.parentId),
     Join([Decimal(m.major), Decimal(m.minor)], ':'), "tmpfs", "1", "1", "1", if m.noexec then "1" else "0",
     m.mode, Decimal(m.uid), Decimal(m.gid)]
  }

  function IdentityFields(before: bool, d: Daemon): seq<string> {
    ["I", if before then "before" else "after", Decimal(d.pid), Decimal(d.startTicks), Inode(d.namespace)]
  }

  predicate MountInRange(m: Mount) {
    && 0 < m.mountId <= MAX32 && 0 < m.parentId <= MAX32 && m.major <= MAX32 && m.minor <= MAX32
    && m.uid <= MAX32 && m.gid <= MAX32 && ModeOk(m.mode)
  }

  predicate DaemonInRange(d: Daemon) {
    1 < d.pid <= MAX32 && 0 < d.startTicks <= MAX64 && 0 < d.namespace <= MAX64
  }

  lemma DigitsWithout(n: nat, sep: char)
    requires !IsDigit(sep)
    ensures Without(Decimal(n), sep)
  {
  }

  lemma TextsAreNames(d: Domain, p: Path)
    ensures DomainOf(DomainText(d)) == Some(d) && PathOf(PathText(p)) == Some(p)
    ensures Without(DomainText(d), '|') && Without(PathText(p), '|')
  {
  }

  lemma InodeReads(n: nat)
    requires 0 < n <= MAX64
    ensures MountNamespace(Inode(n)) == Some(n) && Without(Inode(n), '|')
  {
    var s := Inode(n);
    UnsignedIsDecimal(Decimal(n), MAX64, true, n);
    assert s[..5] == "mnt:[" && s[5..|s| - 1] == Decimal(n) && s[|s| - 1] == ']';
    assert forall i :: 0 <= i < |s| ==> i < 5 || i == |s| - 1 || IsDigit(s[i]);
    assert forall i :: 0 <= i < 5 ==> s[i] == "mnt:["[i];
  }

  /** The device pair of a mount line. */
  lemma DeviceReads(m: Mount)
    ensures Split(Join([Decimal(m.major), Decimal(m.minor)], ':'), ':') == [Decimal(m.major), Decimal(m.minor)]
    ensures Without(Join([Decimal(m.major), Decimal(m.minor)], ':'), '|')
  {
    DigitsWithout(m.major, ':');
    DigitsWithout(m.minor, ':');
    SplitOfJoin([Decimal(m.major), Decimal(m.minor)], ':');
    assert Join([Decimal(m.major), Decimal(m.minor)], ':') == Decimal(m.major) + [':'] + Decimal(m.minor);
  }

  lemma MountFieldsRead(d: Domain, p: Path, m: Mount)
    requires MountInRange(m)
    ensures MountOf(MountFields(d, p, m)) == Some(m)
  {
    DeviceReads(m);
    UnsignedIsDecimal(Decimal(m.mountId), MAX32, true, m.mountId);
    UnsignedIsDecimal(Decimal(m.parentId), MAX32, true, m.parentId);
    UnsignedIsDecimal(Decimal(m.major), MAX32, false, m.major);
    UnsignedIsDecimal(Decimal(m.minor), MAX32, false, m.minor);
    UnsignedIsDecimal(Decimal(m.uid), MAX32, false, m.uid);
    UnsignedIsDecimal(Decimal(m.gid), MAX32, false, m.gid);
  }

  lemma ModeIsPlain(mode: string)
    requires ModeOk(mode)
    ensures Without(mode, '|')
  {
  }

  lemma MountFieldsPlain(d: Domain, p: Path, m: Mount)
    requires MountInRange(m)
    ensures forall i :: 0 <= i < 14 ==> Without(MountFields(d, p, m)[i], '|')
  {
    var f := MountFields(d, p, m);
    assert Without(f[0], '|') && Without(f[1], '|') && Without(f[2], '|') by {
      TextsAreNames(d, p);
    }
    assert Without(f[3], '|') && Without(f[4], '|') && Without(f[12], '|') && Without(f[13], '|') by {
      DigitsWithout(m.mountId, '|');
      DigitsWithout(m.parentId, '|');
      DigitsWithout(m.uid, '|');
      DigitsWithout(m.gid, '|');
    }
    assert Without(f[5], '|') by {
      DeviceReads(m);
    }
    assert Without(f[6], '|') && Without(f[7], '|') && Without(f[8], '|') && Without(f[9], '|') && Without(f[10], '|');
    assert Without(f[11], '|') by {
      ModeIsPlain(m.mode);
    }
  }

  /** A printed mount line says what was printed. */
  lemma MountLineReads(d: Domain, p: Path, m: Mount)
    requires MountInRange(m)
    ensures Decode(Mounts, Join(MountFields(d, p, m), '|')) == Some((At(d, p), IsMount(m)))
  {
    MountFieldsPlain(d, p, m);
    SplitOfJoin(MountFields(d, p, m), '|');
    TextsAreNames(d, p);
    MountFieldsRead(d, p, m);
  }

  /** A printed identity line says what was printed, to both parsers. */
  lemma IdentityLineReads(probe: Probe, before: bool, d: Daemon)
    requires DaemonInRange(d)
    ensures Decode(probe, Join(IdentityFields(before, d), '|')) == Some((Identity(before), IsDaemon(d)))
  {
    InodeReads(d.namespace);
    DigitsWithout(d.pid, '|');
    DigitsWithout(d.startTicks, '|');
    SplitOfJoin(IdentityFields(before, d), '|');
    UnsignedIsDecimal(Decimal(d.pid), MAX32, true, d.pid);
    UnsignedIsDecimal(Decimal(d.startTicks), MAX64, true, d.startTicks);
  }

  lemma NamespaceLineReads(n: nat)
    requires 0 < n <= MAX64
    ensures Decode(Mounts, Join(["C", Inode(n)], '|')) == Some((Namespace, IsInode(n)))
  {
    InodeReads(n);
    SplitOfJoin(["C", Inode(n)], '|');
  }

  function CapacityFields(d: Domain, p: Path, c: Capacity): seq<string> {
    ["F", DomainText(d), PathText(p), Decimal(c.blockSize), Decimal(c.blocks), Decimal(c.free), Decimal(c.inodes),
     Decimal(c.freeInodes)]
  }

  /** Sizes that agree with the path are positive and in range. */
  lemma SizesInRange(c: Capacity, p: Path)
    requires CapacityOk(c, p) && 0 < c.inodes <= MAX64
    ensures 0 < c.blockSize <= MAX64 && 0 < c.blocks <= MAX64 && c.free <= MAX64 && c.freeInodes <= MAX64
  {
  }

  /** Fields that are the decimals of sizes in range. */
  lemma DecimalsRead(f: seq<string>, c: Capacity)
    requires |f| == 8
    requires 0 < c.blockSize <= MAX64 && 0 < c.blocks <= MAX64 && c.free <= MAX64
    requires 0 < c.inodes <= MAX64 && c.freeInodes <= MAX64
    requires f[3..] == [Decimal(c.blockSize), Decimal(c.blocks), Decimal(c.free), Decimal(c.inodes), Decimal(c.freeInodes)]
    ensures CapacityOf(f) == Some(c)
  {
    assert f[3] == f[3..][0] && f[4] == f[3..][1] && f[5] == f[3..][2] && f[6] == f[3..][3] && f[7] == f[3..][4];
    UnsignedIsDecimal(f[3], MAX64, true, c.blockSize);
    UnsignedIsDecimal(f[4], MAX64, true, c.blocks);
    UnsignedIsDecimal(f[5], MAX64, false, c.free);
    UnsignedIsDecimal(f[6], MAX64, true, c.inodes);
    UnsignedIsDecimal(f[7], MAX64, false, c.freeInodes);
  }

  lemma CapacityFieldsRead(d: Domain, p: Path, c: Capacity)
    requires CapacityOk(c, p) && 0 < c.inodes <= MAX64
    ensures CapacityOf(CapacityFields(d, p, c)) == Some(c)
  {
    SizesInRange(c, p);
    DecimalsRead(CapacityFields(d, p, c), c);
  }

  lemma CapacityFieldsPlain(d: Domain, p: Path, c: Capacity)
    ensures forall i :: 0 <= i < 8 ==> Without(CapacityFields(d, p, c)[i], '|')
  {
    TextsAreNames(d, p);
    DigitsWithout(c.blockSize, '|');
    DigitsWithout(c.blocks, '|');
    DigitsWithout(c.free, '|');
    DigitsWithout(c.inodes, '|');
    DigitsWithout(c.freeInodes, '|');
  }

  /** A printed capacity line says what was printed. */
  lemma CapacityLineReads(d: Domain, p: Path, c: Capacity)
    requires CapacityOk(c, p) && 0 < c.inodes <= MAX64
    ensures Decode(Capacities, Join(CapacityFields(d, p, c), '|')) == Some((At(d, p), IsCapacity(c)))
  {
    CapacityFieldsPlain(d, p, c);
    SplitOfJoin(CapacityFields(d, p, c), '|');
    TextsAreNames(d, p);
    CapacityFieldsRead(d, p, c);
  }

  // ---- Conversely, a line that is accepted was printed so.

  lemma InodeIsPrinted(s: string, n: nat)
    requires MountNamespace(s) == Some(n)
    ensures s == Inode(n) && 0 < n <= MAX64
  {
    UnsignedIsDecimal(s[5..|s| - 1], MAX64, true, n);
    assert s == s[..5] + s[5..|s| - 1] + [s[|s| - 1]];
  }

  lemma DomainIsPrinted(s: string, d: Domain)
    requires DomainOf(s) == Some(d)
    ensures s == DomainText(d)
  {
  }

  lemma PathIsPrinted(s: string, p: Path)
    requires PathOf(s) == Some(p)
    ensures s == PathText(p)
  {
  }

  lemma DeviceIsPrinted(s: string, major: nat, minor: nat)
    requires |Split(s, ':')| == 2 && Split(s, ':')[0] == Decimal(major) && Split(s, ':')[1] == Decimal(minor)
    ensures s == Join([Decimal(major), Decimal(minor)], ':')
  {
    JoinOfSplit(s, ':');
    assert Split(s, ':') == [Decimal(major), Decimal(minor)];
  }

  lemma MountFieldsArePrinted(f: seq<string>, d: Domain, p: Path, m: Mount)
    requires |f| == 14 && f[0] == "M" && f[1] == DomainText(d) && f[2] == PathText(p) && MountOf(f) == Some(m)
    ensures f == MountFields(d, p, m) && MountInRange(m)
  {
    var device := Split(f[5], ':');
    UnsignedIsDecimal(f[3], MAX32, true, m.mountId);
    UnsignedIsDecimal(f[4], MAX32, true, m.parentId);
    UnsignedIsDecimal(device[0], MAX32, false, m.major);
    UnsignedIsDecimal(device[1], MAX32, false, m.minor);
    UnsignedIsDecimal(f[12], MAX32, false, m.uid);
    UnsignedIsDecimal(f[13], MAX32, false, m.gid);
    DeviceIsPrinted(f[5], m.major, m.minor);
  }

  /** A mount line is accepted exactly in the form in which the probe prints it. */
  lemma MountIsPrinted(line: string, d: Domain, p: Path, m: Mount)
    ensures Decode(Mounts, line) == Some((At(d, p), IsMount(m)))
       <==> line == Join(MountFields(d, p, m), '|') && MountInRange(m)
  {
    if Decode(Mounts, line) == Some((At(d, p), IsMount(m))) {
      var f := Split(line, '|');
      DomainIsPrinted(f[1], d);
      PathIsPrinted(f[2], p);
      MountFieldsArePrinted(f, d, p, m);
      JoinOfSplit(line, '|');
    }
    if line == Join(MountFields(d, p, m), '|') && MountInRange(m) {
      MountLineReads(d, p, m);
    }
  }

  lemma DaemonIsPrinted(f: seq<string>, before: bool, d: Daemon)
    requires |f| == 5 && f[0] == "I" && f[1] == (if before then "before" else "after")
    requires DaemonOf(f[2], f[3], f[4]) == Some(d)
    ensures f == IdentityFields(before, d) && 0 < d.pid <= MAX32 && 0 < d.startTicks <= MAX64 && 0 < d.namespace <= MAX64
  {
    UnsignedIsDecimal(f[2], MAX32, true, d.pid);
    UnsignedIsDecimal(f[3], MAX64, true, d.startTicks);
    InodeIsPrinted(f[4], d.namespace);
  }

  /** So is an identity line. */
  lemma IdentityIsPrinted(line: string, before: bool, d: Daemon)
    ensures Decode(Mounts, line) == Some((Identity(before), IsDaemon(d)))
       <==> line == Join(IdentityFields(before, d), '|') && DaemonInRange(d)
  {
    if Decode(Mounts, line) == Some((Identity(before), IsDaemon(d))) {
      DaemonIsPrinted(Split(line, '|'), before, d);
      JoinOfSplit(line, '|');
    }
    if line == Join(IdentityFields(before, d), '|') && DaemonInRange(d) {
      IdentityLineReads(Mounts, before, d);
    }
  }

  lemma NamespaceIsPrinted(line: string, n: nat)
    ensures Decode(Mounts, line) == Some((Namespace, IsInode(n))) <==> line == Join(["C", Inode(n)], '|') && 0 < n <= MAX64
  {
    if Decode(Mounts, line) == Some((Namespace, IsInode(n))) {
      var f := Split(line, '|');
      InodeIsPrinted(f[1], n);
      assert f == ["C", Inode(n)];
      JoinOfSplit(line, '|');
    }
    if line == Join(["C", Inode(n)], '|') && 0 < n <= MAX64 {
      NamespaceLineReads(n);
    }
  }

  lemma CapacityFieldsArePrinted(f: seq<string>, d: Domain, p: Path, c: Capacity)
    requires |f| == 8 && f[0] == "F" && f[1] == DomainText(d) && f[2] == PathText(p) && CapacityOf(f) == Some(c)
    ensures f == CapacityFields(d, p, c) && 0 < c.inodes <= MAX64
  {
    UnsignedIsDecimal(f[3], MAX64, true, c.blockSize);
    UnsignedIsDecimal(f[4], MAX64, true, c.blocks);
    UnsignedIsDecimal(f[5], MAX64, false, c.free);
    UnsignedIsDecimal(f[6], MAX64, true, c.inodes);
    UnsignedIsDecimal(f[7], MAX64, false, c.freeInodes);
  }

  /** So is a capacity line, of sizes that fit its path. */
  lemma CapacityIsPrinted(line: string, d: Domain, p: Path, c: Capacity)
    ensures Decode(Capacities, line) == Some((At(d, p), IsCapacity(c)))
       <==> line == Join(CapacityFields(d, p, c), '|') && CapacityOk(c, p) && 0 < c.inodes <= MAX64
  {
    if Decode(Capacities, line) == Some((At(d, p), IsCapacity(c))) {
      var f := Split(line, '|');
      DomainIsPrinted(f[1], d);
      PathIsPrinted(f[2], p);
      CapacityFieldsArePrinted(f, d, p, c);
      JoinOfSplit(line, '|');
    }
    if line == Join(CapacityFields(d, p, c), '|') && CapacityOk(c, p) && 0 < c.inodes <= MAX64 {
      CapacityLineReads(d, p, c);
    }
  }

  // ---- The whole probe.

  /** The order in which the probe prints. */
  function KeyAt(i: nat): Key
    requires i < 11
  {
    if i == 0 then Identity(true)
    else if i == 1 then Namespace
    else if i == 10 then Identity(false)
    else At(if i < 6 then InContainer else InDaemon, PathAt((i - 2) % 4))
  }

  function PathAt(k: nat): Path
    requires k < 4
  {
    if k == 0 then BuildkitData else if k == 1 then LocalTmp else if k == 2 then RuntimeDir else Tmp
  }

  function IndexOf(k: Key): (i: nat)
    ensures i < 11 && KeyAt(i) == k
  {
    match k
    case Identity(before) => if before then 0 else 10
    case Namespace => 1
    case At(d, p) =>
      (if d == InContainer then 2 else 6)
      + (match p case BuildkitData => 0 case LocalTmp => 1 case RuntimeDir => 2 case Tmp => 3)
  }

  lemma KeysDiffer(i: nat, j: nat)
    requires i < 11 && j < 11 && KeyAt(i) == KeyAt(j)
    ensures i == j
  {
  }

  predicate ProofInRange(r: MountProof) {
    && DaemonInRange(r.daemon) && 0 < r.containerNamespace <= MAX64
    && forall d: Domain, p: Path :: (d, p) in r.mounts && MountInRange(r.mounts[(d, p)]) && PolicyOk(p, r.mounts[(d, p)])
  }

  function ValueAt(r: MountProof, k: Key): Value
    requires ProofInRange(r)
  {
    match k
    case Identity(_) => IsDaemon(r.daemon)
    case Namespace => IsInode(r.containerNamespace)
    case At(d, p) => IsMount(r.mounts[(d, p)])
  }

  function LineAt(r: MountProof, k: Key): string
    requires ProofInRange(r)
  {
    match k
    case Identity(before) => Join(IdentityFields(before, r.daemon), '|')
    case Namespace => Join(["C", Inode(r.containerNamespace)], '|')
    case At(d, p) => Join(MountFields(d, p, r.mounts[(d, p)]), '|')
  }

  function ProbeLines(r: MountProof): (lines: seq<string>)
    requires ProofInRange(r)
    ensures |lines| == 11 && forall i :: 0 <= i < 11 ==> lines[i] == LineAt(r, KeyAt(i))
  {
    seq(11, i requires 0 <= i < 11 => LineAt(r, KeyAt(i)))
  }

  lemma LineReads(r: MountProof, k: Key)
    requires ProofInRange(r)
    ensures Decode(Mounts, LineAt(r, k)) == Some((k, ValueAt(r, k)))
  {
    match k
    case Identity(before) => IdentityLineReads(Mounts, before, r.daemon);
    case Namespace => NamespaceLineReads(r.containerNamespace);
    case At(d, p) => MountLineReads(d, p, r.mounts[(d, p)]);
  }

  lemma LinesTellOnce(r: MountProof, k: Key)
    requires ProofInRange(r) && AllDecode(Mounts, ProbeLines(r))
    ensures Once(Decoded(Mounts, ProbeLines(r)), k, ValueAt(r, k))
  {
    var lines := ProbeLines(r);
    var rows := Decoded(Mounts, lines);
    forall i | 0 <= i < 11 ensures rows[i] == (KeyAt(i), ValueAt(r, KeyAt(i))) {
      LineReads(r, KeyAt(i));
      assert Some(rows[i]) == Decode(Mounts, lines[i]);
    }
    forall j | 0 <= j < 11 && j != IndexOf(k) ensures rows[j].0 != k {
      if KeyAt(j) == k {
        KeysDiffer(j, IndexOf(k));
      }
    }
    assert OnlyAt(rows, IndexOf(k), k, ValueAt(r, k));
  }

  /** Printing what was proven, in the probe's order or any other, and reading it proves it again. */
  lemma PrintedIsProven(r: MountProof)
    requires ProofInRange(r)
    ensures MountsProven(ProbeLines(r), r)
  {
    var lines := ProbeLines(r);
    forall i | 0 <= i < 11 ensures Decode(Mounts, lines[i]).Some? {
      LineReads(r, KeyAt(i));
    }
    forall k ensures Once(Decoded(Mounts, lines), k, ValueAt(r, k)) {
      LinesTellOnce(r, k);
    }
    assert forall before :: ValueAt(r, Identity(before)) == IsDaemon(r.daemon);
    assert ValueAt(r, Namespace) == IsInode(r.containerNamespace);
    assert forall d, p :: ValueAt(r, At(d, p)) == IsMount(r.mounts[(d, p)]);
  }
}
