/**
 The write-ahead journal of the temporary files a primary transition places in the database container:
 a create-only intent precedes every remote file, a create-only removal record follows its deletion, and a
 reader of the two decides whether anything may be left behind.
 */
module RemoteArtifacts {
  import opened Bytes
  import opened Wrappers

  /** File contents; a SHA-256 digest is represented by the bytes it digests. */
  type Content = seq<Byte>

  datatype Purpose = ProvisionSql | CleanupSql | BackupAfter

  const PURPOSES: seq<Purpose> := [ProvisionSql, CleanupSql, BackupAfter]
  const MAX_PRIVATE_SQL_BYTES := 65536
  const MAX_PRIMARY_TEMP_BYTES := 268435456
  const SOURCE_ID: nat := 0

  /** `remote_artifact_specs`: where the file of a purpose goes, for the first digits of the owner. */
  function RemotePath(purpose: Purpose, short: string): string {
    match purpose
    case ProvisionSql => "/tmp/controlled-runtime-" + short + ".sql"
    case CleanupSql => "/tmp/controlled-runtime-cleanup-" + short + ".sql"
    case BackupAfter => "/tmp/controlled-primary-after-" + short + ".dump"
  }

  /** The purposes of one owner never share a path, so a purpose can stand for its path. */
  lemma PathsAreDistinct(p: Purpose, q: Purpose, short: string)
    ensures RemotePath(p, short) == RemotePath(q, short) ==> p == q
  {
    assert |RemotePath(ProvisionSql, short)| == 28 + |short|;
    assert |RemotePath(CleanupSql, short)| == 36 + |short|;
    assert |RemotePath(BackupAfter, short)| == 35 + |short|;
  }

  datatype Intent = Intent(
    owner: nat, source: nat, purpose: Purpose, revision: nat,
    expectedSha: Option<Content>, expectedBytes: Option<int>, maximum: int)

  datatype Outcome = Absent | OwnedBytesRemoved

  datatype Removal = Removal(
    owner: nat, source: nat, purpose: Purpose, intent: Intent, outcome: Outcome,
    observedSha: Option<Content>, observedBytes: Option<int>)

  /** A file that is not one JSON object with exactly the fields of its kind is malformed. */
  datatype File<T> = Record(value: T) | Malformed

  /** The run directory: `remote-create-*`, `remote-remove-*`, and how many other names match those globs. */
  datatype Directory = Directory(creates: map<Purpose, File<Intent>>, removes: map<Purpose, File<Removal>>, strays: nat)

  // ---- Reading the records.

  predicate IntentOk(i: Intent, p: Purpose, owner: nat, revision: nat) {
    && i.owner == owner && i.source == SOURCE_ID && i.purpose == p && i.revision == revision
    && if p == BackupAfter then
         i.expectedBytes.None? && i.expectedSha.None? && i.maximum == MAX_PRIMARY_TEMP_BYTES
       else
         i.expectedBytes.Some? && 0 < i.expectedBytes.value <= MAX_PRIVATE_SQL_BYTES
         && i.maximum == i.expectedBytes.value && i.expectedSha.Some?
  }

  predicate RemovalOk(r: Removal, i: Intent, p: Purpose, owner: nat) {
    && r.owner == owner && r.source == SOURCE_ID && r.purpose == p && r.intent == i
    && match r.outcome
       case Absent => r.observedBytes.None? && r.observedSha.None?
       case OwnedBytesRemoved =>
         r.observedBytes.Some? && 0 <= r.observedBytes.value <= i.maximum && r.observedSha.Some?
         && (p != BackupAfter && r.observedBytes == i.expectedBytes ==> r.observedSha == i.expectedSha)
  }

  /** The records of one purpose fit together. */
  predicate ConsistentAt(dir: Directory, p: Purpose, owner: nat, revision: nat) {
    && (p in dir.creates ==> dir.creates[p].Record? && IntentOk(dir.creates[p].value, p, owner, revision))
    && (p in dir.removes ==>
          p in dir.creates && dir.creates[p].Record?
          && dir.removes[p].Record? && RemovalOk(dir.removes[p].value, dir.creates[p].value, p, owner))
  }

  /** An SQL file is announced with its length and digest, a dump without, under the limit of its kind. */
  lemma IntentMeans(i: Intent, p: Purpose, owner: nat, revision: nat)
    ensures IntentOk(i, p, owner, revision) <==>
              || (&& p == BackupAfter && i == Intent(owner, 0, BackupAfter, revision, None, None, 268435456))
              || (&& p != BackupAfter && i.expectedSha.Some? && 1 <= i.maximum <= 65536
                  && i == Intent(owner, 0, p, revision, i.expectedSha, Some(i.maximum), i.maximum))
  {
  }

  /**
   A removal names its intent; a file that was removed was no longer than announced, and an SQL file of the
   announced length had the announced bytes.
   */
  lemma RemovalMeans(r: Removal, i: Intent, p: Purpose, owner: nat)
    ensures RemovalOk(r, i, p, owner) <==>
              || r == Removal(owner, 0, p, i, Absent, None, None)
              || (&& r.observedSha.Some? && r.observedBytes.Some?
                  && r == Removal(owner, 0, p, i, OwnedBytesRemoved, r.observedSha, r.observedBytes)
                  && 0 <= r.observedBytes.value <= i.maximum
                  && (p in {ProvisionSql, CleanupSql} && r.observedBytes == i.expectedBytes ==>
                        r.observedSha == i.expectedSha))
  {
  }

  predicate Consistent(dir: Directory, owner: nat, revision: nat) {
    dir.strays == 0 && forall p :: ConsistentAt(dir, p, owner, revision)
  }

  /** How many of the first `k` purposes are in a set. */
  function Counted(keys: set<Purpose>, k: nat): nat
    requires k <= 3
  {
    if k == 0 then 0 else Counted(keys, k - 1) + (if PURPOSES[k - 1] in keys then 1 else 0)
  }

  function Rank(p: Purpose): (k: nat)
    ensures k < 3 && PURPOSES[k] == p
  {
    match p case ProvisionSql => 0 case CleanupSql => 1 case BackupAfter => 2
  }

  lemma {:induction false} CountedUpTo(keys: set<Purpose>, k: nat)
    requires k <= 3
    ensures Counted(keys, k) == |set p | p in keys && Rank(p) < k|
  {
    var now := set p | p in keys && Rank(p) < k;
    if k == 0 {
      assert now == {};
    } else {
      CountedUpTo(keys, k - 1);
      var before := set p | p in keys && Rank(p) < k - 1;
      if PURPOSES[k - 1] in keys {
        assert now == before + {PURPOSES[k - 1]};
      } else {
        assert now == before;
      }
    }
  }

  lemma CountedAll(keys: set<Purpose>)
    ensures Counted(keys, 3) == |keys|
  {
    CountedUpTo(keys, 3);
    assert keys == set p | p in keys && Rank(p) < 3;
  }

  /** The purposes among the first `k` that were reserved and not yet recorded as removed, in order. */
  function Pending(dir: Directory, k: nat): seq<Purpose>
    requires k <= 3
  {
    if k == 0 then []
    else
      var p := PURPOSES[k - 1];
      Pending(dir, k - 1) + (if p in dir.creates && p !in dir.removes then [p] else [])
  }

  lemma PendingIsEmpty(dir: Directory)
    requires dir.removes.Keys <= dir.creates.Keys
    ensures Pending(dir, 3) == [] <==> dir.creates.Keys == dir.removes.Keys
  {
    assert Pending(dir, 1) == [] <==> !(ProvisionSql in dir.creates && ProvisionSql !in dir.removes);
    assert Pending(dir, 2) == [] <==>
           Pending(dir, 1) == [] && !(CleanupSql in dir.creates && CleanupSql !in dir.removes);
    assert PURPOSES[2] == BackupAfter;
    if Pending(dir, 3) == [] {
      forall p | p in dir.creates.Keys ensures p in dir.removes.Keys {
        match p { case ProvisionSql => case CleanupSql => case BackupAfter => }
      }
    }
  }

  datatype Evidence = Evidence(verified: bool, created: nat, completed: nat, pending: seq<Purpose>)

  /** `remote_artifact_cleanup_evidence`; None is a rejection. */
  method CleanupEvidence(dir: Directory, owner: nat, revision: nat) returns (evidence: Option<Evidence>)
    ensures evidence.Some? <==> Consistent(dir, owner, revision)
    ensures evidence.Some? ==>
              && evidence.value.created == |dir.creates.Keys| && evidence.value.completed == |dir.removes.Keys|
              && evidence.value.pending == Pending(dir, 3)
              && (evidence.value.verified <==> dir.creates.Keys == dir.removes.Keys)
  {
    if dir.strays > 0 {
      return None;
    }
    var created, completed, pending := 0, 0, [];
    for k := 0 to 3
      invariant forall j :: 0 <= j < k ==> ConsistentAt(dir, PURPOSES[j], owner, revision)
      invariant created == Counted(dir.creates.Keys, k) && completed == Counted(dir.removes.Keys, k)
      invariant pending == Pending(dir, k)
    {
      var p := PURPOSES[k];
      if p !in dir.creates {
        if p in dir.removes {
          assert !ConsistentAt(dir, p, owner, revision);
          return None;
        }
      } else {
        if dir.creates[p].Malformed? || !IntentOk(dir.creates[p].value, p, owner, revision) {
          assert !ConsistentAt(dir, p, owner, revision);
          return None;
        }
        created := created + 1;
        if p !in dir.removes {
          pending := pending + [p];
        } else {
          if dir.removes[p].Malformed? || !RemovalOk(dir.removes[p].value, dir.creates[p].value, p, owner) {
            assert !ConsistentAt(dir, p, owner, revision);
            return None;
          }
          completed := completed + 1;
        }
      }
    }
    forall p ensures ConsistentAt(dir, p, owner, revision) {
      assert p == PURPOSES[0] || p == PURPOSES[1] || p == PURPOSES[2];
    }
    forall p | p in dir.removes.Keys ensures p in dir.creates.Keys {
      assert ConsistentAt(dir, p, owner, revision);
    }
    CountedAll(dir.creates.Keys);
    CountedAll(dir.removes.Keys);
    PendingIsEmpty(dir);
    return Some(Evidence(pending == [], created, completed, pending));
  }

  // ---- What holds of the disk and of the container in every reachable state.

  /** A remote file; `plain` is a regular file with one link owned by root or postgres. */
  datatype RemoteFile = RemoteFile(content: Content, plain: bool)

  /**
   `foreign` names the paths that existed before the run. Every other remote file has a complete intent on
   disk, and nothing that has a removal record, complete or not, exists remotely.
   */
  predicate SoundAt(dir: Directory, remote: map<Purpose, RemoteFile>, foreign: set<Purpose>, p: Purpose,
                    owner: nat, revision: nat) {
    && (p in dir.creates ==>
          p !in foreign
          && (dir.creates[p].Record? ==> IntentOk(dir.creates[p].value, p, owner, revision)))
    && (p in remote ==> p in foreign || (p in dir.creates && dir.creates[p].Record?))
    && (p in dir.removes ==>
          && p in dir.creates && dir.creates[p].Record? && p !in remote
          && (dir.removes[p].Record? ==> RemovalOk(dir.removes[p].value, dir.creates[p].value, p, owner)))
  }

  ghost predicate Sound(dir: Directory, remote: map<Purpose, RemoteFile>, foreign: set<Purpose>, owner: nat,
                        revision: nat) {
    dir.strays == 0 && forall p :: SoundAt(dir, remote, foreign, p, owner, revision)
  }

  /** Complete records of a run are always accepted by the reader. */
  lemma UntamperedIsConsistent(dir: Directory, remote: map<Purpose, RemoteFile>, foreign: set<Purpose>, owner: nat,
                               revision: nat)
    requires Sound(dir, remote, foreign, owner, revision)
    ensures Consistent(dir, owner, revision) <==>
              Malformed !in dir.creates.Values && Malformed !in dir.removes.Values
  {
    if Malformed !in dir.creates.Values && Malformed !in dir.removes.Values {
      forall p ensures ConsistentAt(dir, p, owner, revision) {
        assert SoundAt(dir, remote, foreign, p, owner, revision);
        assert p in dir.creates ==> dir.creates[p] in dir.creates.Values;
        assert p in dir.removes ==> dir.removes[p] in dir.removes.Values;
      }
    }
    if Consistent(dir, owner, revision) {
      forall p ensures p in dir.creates ==> dir.creates[p] != Malformed { assert ConsistentAt(dir, p, owner, revision); }
      forall p ensures p in dir.removes ==> dir.removes[p] != Malformed { assert ConsistentAt(dir, p, owner, revision); }
    }
  }

  /** Verified evidence means that no path the run reserved exists remotely, at any later moment either. */
  lemma VerifiedMeansAbsent(dir: Directory, remote: map<Purpose, RemoteFile>, foreign: set<Purpose>, owner: nat,
                            revision: nat)
    requires Sound(dir, remote, foreign, owner, revision) && dir.creates.Keys == dir.removes.Keys
    ensures remote.Keys <= foreign && dir.creates.Keys !! remote.Keys
  {
    forall p | p in remote.Keys ensures p in foreign && p !in dir.creates.Keys {
      assert SoundAt(dir, remote, foreign, p, owner, revision);
      assert p in dir.creates.Keys ==> p in dir.removes.Keys;
    }
  }

  // ---- What every write to the disk or to the container keeps.

  lemma IntentKeepsSound(dir: Directory, remote: map<Purpose, RemoteFile>, foreign: set<Purpose>, owner: nat,
                         revision: nat, p: Purpose, file: File<Intent>)
    requires Sound(dir, remote, foreign, owner, revision) && p !in remote && p !in dir.creates
    requires file.Record? ==> IntentOk(file.value, p, owner, revision)
    ensures Sound(dir.(creates := dir.creates[p := file]), remote, foreign - {p}, owner, revision)
  {
    var after := dir.(creates := dir.creates[p := file]);
    forall q ensures SoundAt(after, remote, foreign - {p}, q, owner, revision) {
      assert SoundAt(dir, remote, foreign, q, owner, revision);
    }
  }

  lemma ForgetKeepsSound(dir: Directory, remote: map<Purpose, RemoteFile>, foreign: set<Purpose>, owner: nat,
                         revision: nat, p: Purpose)
    requires Sound(dir, remote, foreign, owner, revision) && p !in remote
    ensures Sound(dir, remote, foreign - {p}, owner, revision)
  {
    forall q ensures SoundAt(dir, remote, foreign - {p}, q, owner, revision) {
      assert SoundAt(dir, remote, foreign, q, owner, revision);
    }
  }

  lemma RemovalKeepsSound(dir: Directory, remote: map<Purpose, RemoteFile>, foreign: set<Purpose>, owner: nat,
                          revision: nat, p: Purpose, file: File<Removal>)
    requires Sound(dir, remote, foreign, owner, revision) && p !in remote && p in dir.creates
    requires dir.creates[p].Record?
    requires file.Record? ==> RemovalOk(file.value, dir.creates[p].value, p, owner)
    ensures Sound(dir.(removes := dir.removes[p := file]), remote, foreign, owner, revision)
  {
    var after := dir.(removes := dir.removes[p := file]);
    forall q ensures SoundAt(after, remote, foreign, q, owner, revision) {
      assert SoundAt(dir, remote, foreign, q, owner, revision);
    }
  }

  lemma CopyKeepsSound(dir: Directory, remote: map<Purpose, RemoteFile>, foreign: set<Purpose>, owner: nat,
                       revision: nat, p: Purpose, file: RemoteFile)
    requires Sound(dir, remote, foreign, owner, revision)
    requires p in dir.creates && dir.creates[p].Record? && p !in dir.removes
    ensures Sound(dir, remote[p := file], foreign, owner, revision)
  {
    var after := remote[p := file];
    forall q ensures SoundAt(dir, after, foreign, q, owner, revision) {
      assert SoundAt(dir, remote, foreign, q, owner, revision);
    }
  }

  lemma DeletionKeepsSound(dir: Directory, remote: map<Purpose, RemoteFile>, foreign: set<Purpose>, owner: nat,
                           revision: nat, p: Purpose)
    requires Sound(dir, remote, foreign, owner, revision)
    ensures Sound(dir, remote - {p}, foreign, owner, revision)
  {
    forall q ensures SoundAt(dir, remote - {p}, foreign, q, owner, revision) {
      assert SoundAt(dir, remote, foreign, q, owner, revision);
    }
  }

  // ---- The controller.

  /** The bytes that deleting a file of this intent may destroy. */
  predicate MayDelete(i: Intent, known: Option<Content>, file: RemoteFile) {
    && file.plain && |file.content| <= i.maximum
    && if i.purpose != BackupAfter then i.expectedSha.Some? && file.content <= i.expectedSha.value
       else if known.Some? then file.content == known.value
       else DumpHeader(file.content)
  }

  /** The first five bytes, or all of a shorter file, are those of a custom-format dump. */
  predicate DumpHeader(content: Content) {
    var header := [0x50, 0x47, 0x44, 0x4D, 0x50];
    if |content| >= 5 then content[..5] == header else content == header[..|content|]
  }

  /** `PGDMP`, or as much of it as there is. */
  lemma DumpHeaderMeans(content: Content)
    ensures DumpHeader(content) <==>
              [0x50, 0x47, 0x44, 0x4D, 0x50] <= content || content <= [0x50, 0x47, 0x44, 0x4D, 0x50]
  {
  }

  function Lookup<K, V>(m: map<K, V>, k: K): Option<V> {
    if k in m then Some(m[k]) else None
  }

  /** Records are only ever added. */
  predicate Extends(before: Directory, after: Directory) {
    && (forall p :: p in before.creates ==> p in after.creates && after.creates[p] == before.creates[p])
    && (forall p :: p in before.removes ==> p in after.removes && after.removes[p] == before.removes[p])
  }

  class PrimaryController {
    const owner: nat
    const revision: nat
    var dir: Directory
    var remote: map<Purpose, RemoteFile>
    /** The generated SQL files in the run directory. */
    var local: map<Purpose, Content>
    var intents: map<Purpose, Intent>
    var owned: map<Purpose, Content>
    var startedSource: bool
    var uncertain: bool
    var dropAcknowledged: bool
    ghost var foreign: set<Purpose>
    /** How many commands and writes have failed, or done something else than asked. */
    ghost var trouble: nat

    ghost predicate Valid()
      reads this
    {
      && Sound(dir, remote, foreign, owner, revision)
      && forall p :: p in intents ==> p in dir.creates && dir.creates[p] == Record(intents[p])
    }

    /** A run starts with an empty directory; its container may already hold anything. */
    constructor (owner: nat, revision: nat, existing: map<Purpose, RemoteFile>)
      ensures Valid() && dir == Directory(map[], map[], 0) && intents == map[] && remote == existing
      ensures foreign == existing.Keys && owned == map[] && local == map[] && trouble == 0
      ensures this.owner == owner && this.revision == revision
      ensures !startedSource && !uncertain && !dropAcknowledged
    {
      this.owner, this.revision := owner, revision;
      dir, remote, local := Directory(map[], map[], 0), existing, map[];
      intents, owned := map[], map[];
      startedSource, uncertain, dropAcknowledged := false, false, false;
      foreign, trouble := existing.Keys, 0;
    }

    /** A command in the container, or a check of it, that may fail or be interrupted. */
    method Docker() returns (ok: bool)
      modifies this`trouble
      ensures trouble == if ok then old(trouble) else old(trouble) + 1
    {
      ok := *;
      if !ok {
        trouble := trouble + 1;
      }
    }

    method RequireRemoteAbsent(p: Purpose) returns (ok: bool)
      modifies this`trouble
      ensures trouble >= old(trouble) && (ok ==> p !in remote)
      ensures !ok && trouble == old(trouble) ==> p in remote
    {
      ok := Docker();
      if p in remote {
        return false;
      }
    }

    /** Create-only; the file may be torn, and a complete file may still be reported as a failure. */
    method SaveIntent(p: Purpose, record: Intent) returns (ok: bool)
      modifies this`dir, this`trouble
      ensures trouble >= old(trouble)
      ensures p in old(dir.creates) ==> !ok && dir == old(dir)
      ensures !ok && trouble == old(trouble) ==> p in old(dir.creates)
      ensures ok ==> dir == old(dir.(creates := dir.creates[p := Record(record)]))
      ensures dir == old(dir) || dir == old(dir.(creates := dir.creates[p := Record(record)]))
           || dir == old(dir.(creates := dir.creates[p := Malformed]))
    {
      if p in dir.creates {
        return false;
      }
      var began: bool, whole: bool := *, *;
      if !began {
        trouble := trouble + 1;
        return false;
      }
      dir := dir.(creates := dir.creates[p := if whole then Record(record) else Malformed]);
      ok := *;
      ok := ok && whole;
      if !ok {
        trouble := trouble + 1;
      }
    }

    method SaveRemoval(p: Purpose, record: Removal) returns (ok: bool)
      modifies this`dir, this`trouble
      ensures trouble >= old(trouble)
      ensures p in old(dir.removes) ==> !ok && dir == old(dir)
      ensures !ok && trouble == old(trouble) ==> p in old(dir.removes)
      ensures ok ==> dir == old(dir.(removes := dir.removes[p := Record(record)]))
      ensures dir == old(dir) || dir == old(dir.(removes := dir.removes[p := Record(record)]))
           || dir == old(dir.(removes := dir.removes[p := Malformed]))
    {
      if p in dir.removes {
        return false;
      }
      var began: bool, whole: bool := *, *;
      if !began {
        trouble := trouble + 1;
        return false;
      }
      dir := dir.(removes := dir.removes[p := if whole then Record(record) else Malformed]);
      ok := *;
      ok := ok && whole;
      if !ok {
        trouble := trouble + 1;
      }
    }

    /** Why a path is not reserved: it was before, something is there, or there is no SQL file of a fitting size. */
    static predicate NotReservable(p: Purpose, intents: map<Purpose, Intent>, dir: Directory,
                                   remote: map<Purpose, RemoteFile>, local: map<Purpose, Content>) {
      || p in intents || p in dir.creates || p in remote
      || (p != BackupAfter && (p !in local || local[p] == [] || |local[p]| > 65536))
    }

    /**
     `_reserve_remote_file`. Success means that the path was absent and that its intent is on disk, for the
     first time; the container is not touched.
     */
    method Reserve(p: Purpose) returns (ok: bool)
      requires Valid()
      modifies this`dir, this`intents, this`foreign, this`trouble
      ensures trouble >= old(trouble)
      ensures !ok && trouble == old(trouble) ==> NotReservable(p, old(intents), old(dir), old(remote), local)
      ensures Valid() && Extends(old(dir), dir) && foreign <= old(foreign)
      ensures dir.removes == old(dir.removes)
      ensures !ok ==> intents == old(intents)
      ensures ok ==>
                && p !in old(dir.creates) && p !in dir.removes && p !in remote
                && p in intents && intents == old(intents)[p := intents[p]]
                && (p != BackupAfter ==> p in local && intents[p].expectedSha == Some(local[p]))
                && intents[p] == (if p == BackupAfter then Intent(owner, 0, p, revision, None, None, 268435456)
                                  else Intent(owner, 0, p, revision, Some(local[p]), Some(|local[p]|), |local[p]|))
    {
      if p in intents {
        return false;
      }
      var sha: Option<Content>, bytes: Option<int>, maximum := None, None, MAX_PRIMARY_TEMP_BYTES;
      if p != BackupAfter {
        if p !in local || !(0 < |local[p]| <= MAX_PRIVATE_SQL_BYTES) {
          return false;
        }
        sha, bytes, maximum := Some(local[p]), Some(|local[p]|), |local[p]|;
      }
      ok := Docker();
      if !ok {
        return;
      }
      ok := RequireRemoteAbsent(p);
      if !ok {
        return;
      }
      var record := Intent(owner, SOURCE_ID, p, revision, sha, bytes, maximum);
      if p !in dir.creates {
        IntentKeepsSound(dir, remote, foreign, owner, revision, p, Record(record));
        IntentKeepsSound(dir, remote, foreign, owner, revision, p, Malformed);
      }
      assert SoundAt(dir, remote, foreign, p, owner, revision);
      ForgetKeepsSound(dir, remote, foreign, owner, revision, p);
      foreign := foreign - {p};
      ok := SaveIntent(p, record);
      if ok {
        intents := intents[p := record];
      }
    }

    /** `_copy_sql`: success means that the reserved path holds exactly the local file. */
    method CopySql(p: Purpose) returns (ok: bool)
      requires Valid()
      modifies this`dir, this`intents, this`remote, this`owned, this`foreign, this`trouble
      ensures trouble >= old(trouble)
      ensures !ok && trouble == old(trouble) ==>
                p == BackupAfter || NotReservable(p, old(intents), old(dir), old(remote), local)
      ensures Valid() && Extends(old(dir), dir) && foreign <= old(foreign)
      ensures dir.removes == old(dir.removes)
      ensures remote != old(remote) ==> p in dir.creates && p !in old(dir.creates) && p !in old(remote)
      ensures forall q :: q != p ==> (q in remote <==> q in old(remote)) && (q in remote ==> remote[q] == old(remote)[q])
      ensures forall q :: q != p ==> (q in intents <==> q in old(intents))
      ensures p in old(intents) ==> !ok && intents == old(intents)
      ensures ok ==> p in local && p in remote && remote[p].content == local[p] && p in intents && p != BackupAfter
      ensures owned == if ok then old(owned)[p := local[p]] else old(owned)
      ensures ok ==> remote[p].plain && p !in dir.removes && intents[p].maximum == |local[p]|
                     && intents[p].expectedSha == Some(local[p]) && intents[p].expectedBytes == Some(|local[p]|)
    {
      if p == BackupAfter || p !in local {
        return false;
      }
      ok := Reserve(p);
      if !ok {
        return;
      }
      // A copy that fails may leave any prefix of the file, or none.
      var length: int :| 0 <= length <= |local[p]|;
      var landed: bool := *;
      if !landed || length < |local[p]| {
        trouble := trouble + 1;
      }
      if landed {
        CopyKeepsSound(dir, remote, foreign, owner, revision, p, RemoteFile(local[p][..length], true));
        remote := remote[p := RemoteFile(local[p][..length], true)];
      }
      ok := Docker();
      if !ok {
        return;
      }
      ok := Docker();
      if !ok || p !in remote || remote[p].content != local[p] {
        return false;
      }
      owned := owned[p := local[p]];
    }

    /** The dump after the transition: reserved, written by a dump program, copied out and compared. */
    method DumpBackup() returns (ok: bool)
      requires Valid()
      modifies this`dir, this`intents, this`remote, this`owned, this`foreign, this`trouble
      ensures trouble >= old(trouble)
      ensures !ok && trouble == old(trouble) ==> NotReservable(BackupAfter, old(intents), old(dir), old(remote), local)
      ensures Valid() && Extends(old(dir), dir) && foreign <= old(foreign)
      ensures remote != old(remote) ==> BackupAfter in dir.creates && BackupAfter !in old(dir.creates)
      ensures ok ==> BackupAfter in remote && BackupAfter in owned && owned[BackupAfter] == remote[BackupAfter].content
    {
      ok := Reserve(BackupAfter);
      if !ok {
        return;
      }
      var content: Content, landed: bool := *, *;
      if !landed {
        trouble := trouble + 1;
      }
      if landed {
        CopyKeepsSound(dir, remote, foreign, owner, revision, BackupAfter, RemoteFile(content, true));
        remote := remote[BackupAfter := RemoteFile(content, true)];
      }
      ok := Docker();
      if !ok || BackupAfter !in remote {
        return false;
      }
      var copied: Content := *;
      if copied != remote[BackupAfter].content {
        trouble := trouble + 1;
        return false;
      }
      owned := owned[BackupAfter := copied];
    }

    /**
     The file is plain, no longer than announced, and: an SQL file is the announced one or a shorter beginning of the
     local one, which must be the announced one; a dump is the remembered one or, unremembered, begins like a dump.
     */
    static predicate Identified(i: Intent, p: Purpose, known: Option<Content>, source: Option<Content>, file: RemoteFile) {
      && file.plain && |file.content| <= i.maximum
      && if p == BackupAfter then
           if known.Some? then file.content == known.value else DumpHeader(file.content)
         else if Some(|file.content|) == i.expectedBytes then
           i.expectedSha.None? || Some(file.content) == i.expectedSha
         else
           source.Some? && Some(|source.value|) == i.expectedBytes && source == i.expectedSha && file.content <= source.value
    }

    /** What `_remove_owned_container_file` demands of a file before it deletes it; None is a refusal. */
    method Identify(p: Purpose, i: Intent, file: RemoteFile) returns (ok: bool)
      requires IntentOk(i, p, owner, revision)
      ensures ok <==> Identified(i, p, Lookup(owned, p), Lookup(local, p), file)
      ensures ok ==> MayDelete(i, Lookup(owned, p), file)
      ensures ok && p != BackupAfter && Some(|file.content|) == i.expectedBytes ==> Some(file.content) == i.expectedSha
    {
      if !file.plain || |file.content| > i.maximum {
        return false;
      }
      var expected := Lookup(owned, p);
      if p != BackupAfter {
        expected := i.expectedSha;
        if Some(|file.content|) != i.expectedBytes {
          if p !in local || Some(|local[p]|) != i.expectedBytes || Some(local[p]) != i.expectedSha {
            return false;
          }
          expected := Some(local[p][..|file.content|]);
        }
      } else if expected.None? && !DumpHeader(file.content) {
        return false;
      }
      return expected.None? || file.content == expected.value;
    }

    /** Its deletion of a file that is there, once it is identified. */
    method Delete(p: Purpose) returns (ok: bool)
      requires Valid() && p in intents && p in remote && IntentOk(intents[p], p, owner, revision)
      modifies this`remote, this`trouble
      ensures Valid() && trouble >= old(trouble)
      ensures remote == old(remote) || remote == old(remote) - {p}
      ensures ok || p !in remote ==> Identified(intents[p], p, Lookup(owned, p), Lookup(local, p), old(remote[p]))
      ensures ok || p !in remote ==> MayDelete(intents[p], Lookup(owned, p), old(remote[p]))
      ensures ok && p !in {BackupAfter} && Some(|old(remote[p]).content|) == intents[p].expectedBytes ==>
                Some(old(remote[p]).content) == intents[p].expectedSha
      ensures ok && trouble == old(trouble) ==> p !in remote
      ensures !ok && trouble == old(trouble) ==>
                !Identified(intents[p], p, Lookup(owned, p), Lookup(local, p), old(remote[p]))
    {
      var file := remote[p];
      ok := Docker();
      if !ok {
        return;
      }
      ok := Identify(p, intents[p], file);
      if !ok {
        return;
      }
      var gone: bool := *;
      if !gone {
        trouble := trouble + 1;
      }
      if gone {
        DeletionKeepsSound(dir, remote, foreign, owner, revision, p);
        remote := remote - {p};
      }
      ok := Docker();
    }

    /**
     `_remove_owned_container_file`. Nothing is deleted without an intent, a file that is deleted is a prefix
     of the bytes the intent owns, and success means absence and a complete removal record.
     */
    method RemoveOwned(p: Purpose) returns (ok: bool)
      requires Valid()
      modifies this`dir, this`intents, this`remote, this`owned, this`trouble
      ensures trouble >= old(trouble)
      ensures !ok && trouble == old(trouble) ==>
                || p !in old(intents) || p in old(dir.removes)
                || (p in old(remote)
                    && !Identified(old(intents[p]), p, old(Lookup(owned, p)), Lookup(local, p), old(remote[p])))
      ensures Valid() && Extends(old(dir), dir) && dir.creates == old(dir.creates)
      ensures remote == old(remote) || remote == old(remote - {p})
      ensures p in old(remote) && p !in remote ==>
                p in old(intents) && MayDelete(old(intents[p]), old(Lookup(owned, p)), old(remote[p]))
      ensures intents == if ok then old(intents - {p}) else old(intents)
      ensures ok ==>
                && p in old(intents) && p !in remote && p in dir.removes && dir.removes[p].Record?
                && (dir.removes[p].value.outcome == OwnedBytesRemoved <==> p in old(remote))
    {
      if p !in intents {
        return false;
      }
      assert SoundAt(dir, remote, foreign, p, owner, revision);
      var i := intents[p];
      ok := Docker();
      if !ok {
        return;
      }
      var record := Removal(owner, SOURCE_ID, p, i, Absent, None, None);
      if p in remote {
        var file := remote[p];
        ok := Delete(p);
        if !ok {
          return;
        }
        record := record.(outcome := OwnedBytesRemoved, observedSha := Some(file.content),
                          observedBytes := Some(|file.content|));
      }
      ok := RequireRemoteAbsent(p);
      if !ok {
        return;
      }
      RemovalKeepsSound(dir, remote, foreign, owner, revision, p, Record(record));
      RemovalKeepsSound(dir, remote, foreign, owner, revision, p, Malformed);
      ok := SaveRemoval(p, record);
      if ok {
        owned, intents := owned - {p}, intents - {p};
      }
    }

    /** `_run_sql_file`. */
    method RunSqlFile(p: Purpose) returns (ok: bool)
      requires Valid()
      modifies this`dir, this`intents, this`remote, this`owned, this`foreign, this`dropAcknowledged, this`trouble
      ensures trouble >= old(trouble)
      ensures !ok && trouble == old(trouble) ==>
                p == BackupAfter || NotReservable(p, old(intents), old(dir), old(remote), local)
      ensures if p == CleanupSql then (ok ==> dropAcknowledged) && (old(dropAcknowledged) ==> dropAcknowledged)
              else dropAcknowledged == old(dropAcknowledged)
      ensures Valid() && Extends(old(dir), dir) && foreign <= old(foreign)
      ensures old(intents.Keys) <= intents.Keys
      ensures ok ==> p !in remote && p in dir.removes && dir.removes[p].Record?
    {
      ok := CopySql(p);
      if !ok {
        return;
      }
      ok := Docker();
      if !ok {
        return;
      }
      if p == CleanupSql {
        dropAcknowledged := true;
      }
      ok := RemoveOwned(p);
    }

    /** Every open intent, whatever fails on the way. */
    method RemoveAll() returns (ok: bool, ghost attempted: set<Purpose>)
      requires Valid()
      modifies this`dir, this`intents, this`remote, this`owned, this`trouble
      ensures trouble >= old(trouble)
      ensures Valid() && Extends(old(dir), dir)
      ensures attempted == old(intents.Keys)
      ensures ok ==> intents == map[]
    {
      ok, attempted := true, {};
      var remaining := intents.Keys;
      while remaining != {}
        invariant Valid() && Extends(old(dir), dir) && trouble >= old(trouble)
        invariant attempted + remaining == old(intents.Keys)
        invariant ok ==> intents.Keys <= remaining
        decreases |remaining|
      {
        var p :| p in remaining;
        remaining, attempted := remaining - {p}, attempted + {p};
        var removed := RemoveOwned(p);
        ok := ok && removed;
      }
    }

    /** Drops the temporary login, unless it is known to be gone or was never made. */
    method DropLogin(provisionAttempted: bool, workersClean: bool) returns (ok: bool, ghost attempted: bool)
      requires Valid()
      modifies this`dir, this`intents, this`remote, this`owned, this`foreign, this`dropAcknowledged, this`trouble, this`local
      ensures Valid() && Extends(old(dir), dir) && foreign <= old(foreign) && trouble >= old(trouble)
      ensures old(intents.Keys) <= intents.Keys
      ensures local == old(local) || local == old(local) - {CleanupSql}
      ensures attempted ==> provisionAttempted && workersClean && !old(dropAcknowledged) && CleanupSql in old(local)
      ensures trouble == old(trouble) ==>
                (attempted <==> provisionAttempted && workersClean && !old(dropAcknowledged) && CleanupSql in old(local))
    {
      attempted := false;
      ok := Docker();
      if ok && provisionAttempted && workersClean && !dropAcknowledged && CleanupSql in local {
        attempted := true;
        ok := RunSqlFile(CleanupSql);
        if ok {
          local := local - {CleanupSql};
        }
      }
    }

    /** Stops the source; its secret files go once it is seen stopped. */
    method StopSource() returns (ok: bool)
      modifies this`startedSource, this`local, this`trouble
      ensures trouble >= old(trouble) && (ok <==> trouble == old(trouble))
      ensures ok ==> !startedSource
      ensures local == if ok then old(local) - {ProvisionSql, CleanupSql} else old(local)
    {
      ok := Docker();
      if ok {
        startedSource := false;
        ok := Docker();
        if ok {
          local := local - {ProvisionSql, CleanupSql};
        }
      }
    }

    /**
     `cleanup_primary`. Unless the container is not the expected running one, every open intent is attempted and
     then the stop of the source, whatever fails before.
     */
    method CleanupPrimary(provisionAttempted: bool, workersClean: bool)
      returns (ok: bool, ghost attempted: set<Purpose>, ghost observed: bool, ghost stopAttempted: bool,
               ghost dropAttempted: bool)
      requires Valid()
      modifies this
      ensures trouble >= old(trouble)
      ensures dropAttempted ==>
                provisionAttempted && workersClean && !old(dropAcknowledged) && CleanupSql in old(local)
      ensures observed && trouble == old(trouble) ==>
                && (dropAttempted <==>
                      provisionAttempted && workersClean && !old(dropAcknowledged) && CleanupSql in old(local))
                && !startedSource && local == old(local) - {ProvisionSql, CleanupSql}
      ensures old(startedSource) && !observed ==> trouble > old(trouble) && dir == old(dir) && remote == old(remote)
      ensures observed ==> old(intents.Keys) <= attempted && stopAttempted
      ensures ok && old(startedSource) ==> observed
      ensures Valid() && Extends(old(dir), dir) && foreign <= old(foreign)
      ensures ok && old(startedSource) ==> intents == map[] && !startedSource && uncertain == old(uncertain)
      ensures ok && !old(startedSource) ==> dir == old(dir) && intents == old(intents) && remote == old(remote)
                                            && !startedSource && uncertain == old(uncertain)
      ensures !ok ==> uncertain
    {
      attempted, observed, stopAttempted, dropAttempted := {}, false, false, false;
      ok := true;
      if !startedSource {
        return;
      }
      ok := Docker();
      observed := ok;
      if !ok {
        var exited: bool := *;
        if exited {
          startedSource := false;
        }
        uncertain := true;
        return;
      }
      ok, dropAttempted := DropLogin(provisionAttempted, workersClean);
      var removed: bool;
      removed, attempted := RemoveAll();
      var stopped := StopSource();
      stopAttempted := true;
      ok := ok && removed && stopped;
      if !ok {
        uncertain := true;
      }
    }

    /**
     `finish`. A run passes only if every path it ever reserved has a complete removal record and no longer
     exists, and nothing of its own is left in the container.
     */
    method Finish(success: bool, provisionAttempted: bool) returns (pass: bool, evidence: Option<Evidence>)
      requires Valid()
      modifies this
      ensures Valid() && Extends(old(dir), dir)
      ensures pass ==> success && intents == map[] && !startedSource && !uncertain
      ensures pass ==> dir.creates.Keys == dir.removes.Keys && Consistent(dir, owner, revision)
      ensures pass ==> dir.creates.Keys !! remote.Keys && remote.Keys <= old(foreign)
      ensures evidence.Some? ==> evidence.value.created == |dir.creates.Keys|
                                 && evidence.value.completed == |dir.removes.Keys|
      ensures evidence.Some? <==> Consistent(dir, owner, revision)
    {
      var workersClean := Docker();
      var cleanup := Docker();
      ghost var attempted, observed, stopAttempted, dropAttempted;
      var cleaned: bool;
      cleaned, attempted, observed, stopAttempted, dropAttempted := CleanupPrimary(provisionAttempted, workersClean);
      pass := success && cleaned;
      evidence := CleanupEvidence(dir, owner, revision);
      if evidence.None? || !evidence.value.verified || intents != map[] {
        uncertain := true;
        return false, evidence;
      }
      VerifiedMeansAbsent(dir, remote, foreign, owner, revision);
      var remaining := Docker();
      pass := pass && workersClean && cleanup && !startedSource && !uncertain && remaining;
    }
  }
}
