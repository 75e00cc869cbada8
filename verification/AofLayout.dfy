/**
 Which persistence image a Redis volume holds, judged from its file names and its AOF manifest.
 */
module AofLayout {
  import opened Bytes
  import opened Wrappers

  const MANIFEST := "appendonlydir/appendonly.aof.manifest"
  const DIRECTORY := "appendonlydir/"
  const LEGACY := "appendonly.aof"
  const RDB := "dump.rdb"
  const MAX_OFFSET := 9_223_372_036_854_775_807

  datatype Kind = Base | Incremental

  /** The digits of a sequence number, as written. */
  type Digits = s: string | s != [] && forall i :: 0 <= i < |s| ==> IsDigit(s[i]) witness "0"

  /** The offsets of a line; an end offset only follows a start offset. */
  datatype Offsets = Offsets(start: nat, end: Option<nat>)

  /** A manifest line after the pattern match. */
  datatype Line =
    | Blank
    | Unsupported
    | Entry(fileSequence: Digits, kind: Kind, sequence: Digits, entryType: Kind, offsets: Option<Offsets>)

  datatype Manifest = TooLarge | NonAscii | Lines(lines: seq<Line>)

  datatype Mode = MultipartAof | LegacyAof | RdbFallback

  datatype Rejection =
    | ManifestInventoryUnsupported | ManifestTooLarge | ManifestNonAscii | ManifestEntryUnsupported
    | ManifestSequenceTypeConflict | ManifestOffsetsInvalid | ComponentMissing | BaseCardinality
    | UnreferencedComponent | OrphanedAppendonlydir | NoPersistenceImage

  datatype Result = Accepted(mode: Mode, components: seq<string>) | Rejected(code: Rejection)

  function Suffix(kind: Kind): string {
    if kind == Base then ".base.rdb" else ".incr.aof"
  }

  function Component(line: Line): string
    requires line.Entry?
  {
    DIRECTORY + "appendonly.aof." + line.fileSequence + Suffix(line.kind)
  }

  predicate EndsWith(s: string, suffix: string) {
    |suffix| <= |s| && s[|s| - |suffix|..] == suffix
  }

  function Manifests(files: set<string>): set<string> {
    set f | f in files && EndsWith(f, ".manifest")
  }

  function InDirectory(files: set<string>): set<string> {
    set f | f in files && DIRECTORY <= f
  }

  // ---- What an acceptable manifest is.

  predicate OffsetsOrdered(line: Line)
    requires line.Entry?
  {
    line.offsets.Some? ==>
      var o := line.offsets.value;
      && line.entryType == Incremental
      && o.start <= MAX_OFFSET
      && (o.end.Some? ==> o.start <= o.end.value <= MAX_OFFSET)
  }

  /** A line that names one existing component consistently. */
  predicate Consistent(files: set<string>, line: Line) {
    line.Entry? ==>
      && line.entryType == line.kind
      && line.fileSequence == line.sequence
      && OffsetsOrdered(line)
      && Component(line) in files
  }

  predicate SameSlot(a: Line, b: Line)
    requires a.Entry? && b.Entry?
  {
    Number(a.sequence) == Number(b.sequence) && a.entryType == b.entryType
  }

  /** The first `k` lines name existing components consistently and each slot once. */
  predicate LinesAgree(files: set<string>, lines: seq<Line>, k: nat)
    requires k <= |lines|
  {
    && (forall i :: 0 <= i < k ==> !lines[i].Unsupported? && Consistent(files, lines[i]))
    && (forall i, j :: 0 <= i < j < k && lines[i].Entry? && lines[j].Entry? ==> !SameSlot(lines[i], lines[j]))
  }

  /** The components of the first `k` lines, in manifest order. */
  function Components(lines: seq<Line>, k: nat): seq<string>
    requires k <= |lines|
  {
    if k == 0 then []
    else Components(lines, k - 1) + (if lines[k - 1].Entry? then [Component(lines[k - 1])] else [])
  }

  function AllComponents(lines: seq<Line>): seq<string> {
    Components(lines, |lines|)
  }

  function BasePositions(components: seq<string>): set<int> {
    set i | 0 <= i < |components| && EndsWith(components[i], Suffix(Base))
  }

  function Bases(components: seq<string>): nat {
    |BasePositions(components)|
  }

  function Listed(components: seq<string>): set<string> {
    set i | 0 <= i < |components| :: components[i]
  }

  predicate ManifestAccepted(files: set<string>, manifest: Manifest) {
    && manifest.Lines?
    && LinesAgree(files, manifest.lines, |manifest.lines|)
    && Bases(AllComponents(manifest.lines)) == 1
    && InDirectory(files) == Listed(AllComponents(manifest.lines)) + {MANIFEST}
  }

  /** The mode a volume is in, if it is in one. */
  predicate InMode(files: set<string>, manifest: Manifest, mode: Mode) {
    match mode
    case MultipartAof => Manifests(files) == {MANIFEST} && ManifestAccepted(files, manifest)
    case LegacyAof => Manifests(files) == {} && InDirectory(files) == {} && LEGACY in files
    case RdbFallback => Manifests(files) == {} && InDirectory(files) == {} && LEGACY !in files && RDB in files
  }

  // ---- The check in place.

  method PersistenceLayout(files: set<string>, manifest: Manifest) returns (r: Result)
    ensures r.Accepted? ==> InMode(files, manifest, r.mode)
    ensures r.Rejected? ==> forall mode :: !InMode(files, manifest, mode)
    ensures r.Accepted? && r.mode == MultipartAof ==> r.components == AllComponents(manifest.lines)
    ensures r.Accepted? && r.mode == LegacyAof ==> r.components == [LEGACY]
    ensures r == Rejected(NoPersistenceImage) ==> LEGACY !in files && RDB !in files
    ensures r == Rejected(OrphanedAppendonlydir) ==> InDirectory(files) != {} && MANIFEST !in files
  {
    var manifests := Manifests(files);
    if manifests == {} {
      if InDirectory(files) != {} {
        assert EndsWith(MANIFEST, ".manifest") && MANIFEST !in manifests;
        return Rejected(OrphanedAppendonlydir);
      }
      if LEGACY in files {
        return Accepted(LegacyAof, [LEGACY]);
      }
      if RDB in files {
        return Accepted(RdbFallback, []);
      }
      return Rejected(NoPersistenceImage);
    }
    if manifests != {MANIFEST} {
      return Rejected(ManifestInventoryUnsupported);
    }
    match manifest
    case TooLarge => return Rejected(ManifestTooLarge);
    case NonAscii => return Rejected(ManifestNonAscii);
    case Lines(lines) =>
      var read := ReadLines(files, lines);
      if read.Rejected? {
        return read;
      }
      if Bases(read.components) != 1 {
        return Rejected(BaseCardinality);
      }
      if InDirectory(files) != Listed(read.components) + {MANIFEST} {
        return Rejected(UnreferencedComponent);
      }
      return read;
  }

  /** The loop over the manifest lines, with the slots seen so far. */
  method ReadLines(files: set<string>, lines: seq<Line>) returns (r: Result)
    ensures r.Accepted? <==> LinesAgree(files, lines, |lines|)
    ensures r.Accepted? ==> r.mode == MultipartAof && r.components == AllComponents(lines)
    ensures r.Rejected? ==>
              r.code in {ManifestEntryUnsupported, ManifestSequenceTypeConflict, ManifestOffsetsInvalid, ComponentMissing}
  {
    var seen: set<(nat, Kind)> := {};
    var multipart: seq<string> := [];
    for i := 0 to |lines|
      invariant multipart == Components(lines, i)
      invariant seen == set j | 0 <= j < i && lines[j].Entry? :: (Number(lines[j].sequence), lines[j].entryType)
      invariant LinesAgree(files, lines, i)
    {
      var line := lines[i];
      if line.Blank? {
        continue;
      }
      if line.Unsupported? {
        return Rejected(ManifestEntryUnsupported);
      }
      var slot := (Number(line.sequence), line.entryType);
      if line.entryType != line.kind || line.fileSequence != line.sequence || slot in seen {
        return Rejected(ManifestSequenceTypeConflict);
      }
      seen := seen + {slot};
      if !OffsetsOrdered(line) {
        return Rejected(ManifestOffsetsInvalid);
      }
      if Component(line) !in files {
        return Rejected(ComponentMissing);
      }
      multipart := multipart + [Component(line)];
    }
    return Accepted(MultipartAof, multipart);
  }

  // ---- What acceptance means.

  /** At most one mode applies, so an accepted volume is in exactly one. */
  lemma ModesExclude(files: set<string>, manifest: Manifest, a: Mode, b: Mode)
    requires InMode(files, manifest, a) && InMode(files, manifest, b)
    ensures a == b
  {
    assert MANIFEST in {MANIFEST};
  }

  /** What each mode is, on the files. */
  lemma ModesMean(files: set<string>, manifest: Manifest)
    ensures InMode(files, manifest, MultipartAof) <==>
              && ManifestAccepted(files, manifest)
              && forall f :: f in files ==> (|f| >= 9 && f[|f| - 9..] == ".manifest" <==> f == MANIFEST)
    ensures InMode(files, manifest, LegacyAof) <==> "appendonly.aof" in files && NoneLeft(files)
    ensures InMode(files, manifest, RdbFallback) <==>
              "dump.rdb" in files && "appendonly.aof" !in files && NoneLeft(files)
  {
    forall f | f in files ensures EndsWith(f, ".manifest") <==> |f| >= 9 && f[|f| - 9..] == ".manifest" {
    }
    if NoneLeft(files) {
      assert Manifests(files) == {} && InDirectory(files) == {};
    }
    if Manifests(files) == {} && InDirectory(files) == {} {
      forall f | f in files ensures !(|f| >= 9 && f[|f| - 9..] == ".manifest") && !("appendonlydir/" <= f) {
        assert f !in Manifests(files) && f !in InDirectory(files);
      }
    }
    ManifestIsListed(files, manifest);
  }

  /** No manifest, and nothing in the AOF directory. */
  predicate NoneLeft(files: set<string>) {
    forall f :: f in files ==> !(|f| >= 9 && f[|f| - 9..] == ".manifest") && !("appendonlydir/" <= f)
  }

  lemma ManifestIsListed(files: set<string>, manifest: Manifest)
    ensures Manifests(files) == {MANIFEST} && ManifestAccepted(files, manifest) <==>
              && ManifestAccepted(files, manifest)
              && forall f :: f in files ==> (|f| >= 9 && f[|f| - 9..] == ".manifest" <==> f == MANIFEST)
  {
    if ManifestAccepted(files, manifest) {
      assert MANIFEST in InDirectory(files);
      assert EndsWith(MANIFEST, ".manifest");
      forall f | f in files ensures f in Manifests(files) <==> |f| >= 9 && f[|f| - 9..] == ".manifest" {
      }
    }
  }

  /** The file name of a component gives back its sequence text and its kind. */
  lemma ComponentIsInjective(a: Line, b: Line)
    requires a.Entry? && b.Entry?
    ensures Component(a) == Component(b) ==> a.fileSequence == b.fileSequence && a.kind == b.kind
  {
    var p := DIRECTORY + "appendonly.aof.";
    var x, y := Component(a), Component(b);
    assert x[|x| - 1] == Suffix(a.kind)[8] && y[|y| - 1] == Suffix(b.kind)[8];
    assert x[|p|..|x| - 9] == a.fileSequence && y[|p|..|y| - 9] == b.fileSequence;
  }

  lemma ComponentEnds(line: Line)
    requires line.Entry?
    ensures EndsWith(Component(line), Suffix(Base)) <==> line.kind == Base
    ensures DIRECTORY <= Component(line) && Component(line) != MANIFEST
  {
    var x := Component(line);
    assert x[|x| - 9..] == Suffix(line.kind);
    assert x[|x| - 1] == Suffix(line.kind)[8] && MANIFEST[|MANIFEST| - 1] == 't';
  }

  lemma {:induction false} ComponentAt(lines: seq<Line>, i: nat, k: nat)
    requires i < k <= |lines| && lines[i].Entry?
    ensures |Components(lines, i)| < |Components(lines, k)|
    ensures Components(lines, k)[|Components(lines, i)|] == Component(lines[i])
    decreases k
  {
    if i < k - 1 {
      ComponentAt(lines, i, k - 1);
    }
  }

  /** Every component comes from a line; positions in the list go back to lines. */
  lemma {:induction false} LineOf(lines: seq<Line>, k: nat, p: nat) returns (i: nat)
    requires k <= |lines| && p < |Components(lines, k)|
    ensures i < k && lines[i].Entry? && |Components(lines, i)| == p
    ensures Components(lines, k)[p] == Component(lines[i])
    decreases k
  {
    if p < |Components(lines, k - 1)| {
      i := LineOf(lines, k - 1, p);
    } else {
      i := k - 1;
    }
  }

  lemma DistinctComponents(files: set<string>, lines: seq<Line>, i: nat, j: nat)
    requires LinesAgree(files, lines, |lines|) && i < j < |lines| && lines[i].Entry? && lines[j].Entry?
    ensures Component(lines[i]) != Component(lines[j])
  {
    ComponentIsInjective(lines[i], lines[j]);
    assert !SameSlot(lines[i], lines[j]);
  }

  lemma {:induction false} ComponentsGrow(lines: seq<Line>, i: nat, k: nat)
    requires i <= k <= |lines|
    ensures |Components(lines, i)| <= |Components(lines, k)|
    decreases k
  {
    if i < k {
      ComponentsGrow(lines, i, k - 1);
    }
  }

  /**
   The bijection: the listed components are pairwise distinct and are exactly the files of the AOF
   directory besides the manifest.
   */
  lemma AcceptedManifestIsBijective(files: set<string>, manifest: Manifest)
    requires ManifestAccepted(files, manifest)
    ensures var c := AllComponents(manifest.lines);
            && (forall i, j :: 0 <= i < j < |c| ==> c[i] != c[j])
            && Listed(c) == InDirectory(files) - {MANIFEST}
  {
    var lines, c := manifest.lines, AllComponents(manifest.lines);
    forall i, j | 0 <= i < j < |c|
      ensures c[i] != c[j]
    {
      var a := LineOf(lines, |lines|, i);
      var b := LineOf(lines, |lines|, j);
      if b <= a {
        ComponentsGrow(lines, b, a);
      }
      DistinctComponents(files, lines, a, b);
    }
    forall f | f in Listed(c)
      ensures f != MANIFEST
    {
      var p :| 0 <= p < |c| && c[p] == f;
      var i := LineOf(lines, |lines|, p);
      ComponentEnds(lines[i]);
    }
  }

  predicate IsBase(line: Line) {
    line.Entry? && line.kind == Base
  }

  /** What a consistent line says: one type, one sequence number, ordered offsets, and a file that is there. */
  lemma ConsistentMeans(files: set<string>, line: Line)
    requires line.Entry?
    ensures Consistent(files, line) <==>
              && line.entryType == line.kind && line.fileSequence == line.sequence
              && (line.offsets.Some? ==>
                    && line.kind == Incremental && line.offsets.value.start <= 9_223_372_036_854_775_807
                    && (line.offsets.value.end.Some? ==>
                          line.offsets.value.start <= line.offsets.value.end.value <= 9_223_372_036_854_775_807))
              && "appendonlydir/appendonly.aof." + line.fileSequence
                 + (if line.kind == Base then ".base.rdb" else ".incr.aof") in files
  {
    assert "appendonlydir/" + "appendonly.aof." == "appendonlydir/appendonly.aof.";
  }

  /** Exactly one line names a base, and only incremental lines carry offsets, in order. */
  lemma AcceptedManifestHasOneBase(files: set<string>, manifest: Manifest)
    requires ManifestAccepted(files, manifest)
    ensures exists b ::
              && 0 <= b < |manifest.lines| && IsBase(manifest.lines[b])
              && forall i :: 0 <= i < |manifest.lines| && IsBase(manifest.lines[i]) ==> i == b
    ensures forall i :: 0 <= i < |manifest.lines| && manifest.lines[i].Entry? && manifest.lines[i].offsets.Some? ==>
              && manifest.lines[i].kind == Incremental
              && manifest.lines[i].offsets.value.start <= 9_223_372_036_854_775_807
              && (manifest.lines[i].offsets.value.end.Some? ==>
                    manifest.lines[i].offsets.value.start <= manifest.lines[i].offsets.value.end.value
                    <= 9_223_372_036_854_775_807)
  {
    var lines, c := manifest.lines, AllComponents(manifest.lines);
    forall i | 0 <= i < |lines| && lines[i].Entry?
      ensures Consistent(files, lines[i])
    {
      ConsistentMeans(files, lines[i]);
    }
    var bases := BasePositions(c);
    assert |bases| == 1;
    var p :| p in bases;
    assert |bases - {p}| == 0;
    assert forall q :: q in bases ==> q == p by {
      forall q | q in bases
        ensures q == p
      {
        assert q != p ==> q in bases - {p};
      }
    }
    var b := LineOf(lines, |lines|, p);
    ComponentEnds(lines[b]);
    forall i | 0 <= i < |lines| && IsBase(lines[i])
      ensures i == b
    {
      ComponentAt(lines, i, |lines|);
      ComponentEnds(lines[i]);
      var q := |Components(lines, i)|;
      assert q in bases && q == p;
      if i < b {
        ComponentAt(lines, i, b);
      } else if b < i {
        ComponentAt(lines, b, i);
      }
    }
  }
}
