/**
 The transport processes of a cancelled build: their line projection, the script that signals them, and the
 reparse by which the script's author proves that what it prints is what it was given.
 */
module Transports {
  import opened Bytes
  import opened Wrappers
  import opened LineText

  datatype Worker = Worker(pid: int, ticks: int, cgroup: string, namespace: string)

  datatype Row = Row(pid: int, ticks: int, cgroup: string, namespace: string, uid: int)

  // ---- Control group paths and namespaces.

  predicate IsPathChar(c: char) {
    'A' <= c <= 'Z' || 'a' <= c <= 'z' || '0' <= c <= '9' || c == '_' || '-' <= c <= '/' || c == ':'
  }

  function TrimSlashes(s: string): (t: string)
    ensures t <= s && (t != "" ==> t[|t| - 1] != '/')
  {
    if s != "" && s[|s| - 1] == '/' then TrimSlashes(s[..|s| - 1]) else s
  }

  const UNIFIED := "0::"

  predicate PathOk(path: string) {
    path != "" && path[0] == '/' && (forall i :: 0 <= i < |path| ==> IsPathChar(path[i]))
    && ".." !in Split(path, '/')
  }

  function Trimmed(path: string): string {
    if TrimSlashes(path) == "" then "/" else TrimSlashes(path)
  }

  /** `cgroup_path`: the path of a unified control group, without its trailing slashes; a line break is no path character. */
  function CgroupPath(value: string): Option<string> {
    if |value| > 3 && value[..3] == UNIFIED && PathOk(value[3..]) then Some(Trimmed(value[3..])) else None
  }

  lemma CgroupPathOf(path: string)
    ensures CgroupPath(UNIFIED + path) == if PathOk(path) then Some(Trimmed(path)) else None
  {
    assert (UNIFIED + path)[3..] == path && (UNIFIED + path)[..3] == UNIFIED;
  }

  /** A path that `cgroup_path` gives back unchanged. */
  predicate Canonical(path: string) {
    CgroupPath(UNIFIED + path) == Some(path)
  }

  lemma SplitOnce(s: string, sep: char, n: nat)
    requires n < |s| && FieldEnd(s, sep, 0) == n
    ensures Split(s, sep) == [s[..n]] + Split(s[n + 1..], sep)
  {
  }

  lemma SplitWhole(s: string, sep: char)
    requires FieldEnd(s, sep, 0) == |s|
    ensures Split(s, sep) == [s]
  {
    assert s[..|s|] == s;
  }

  /** A text without the separator has two fields once a separator is put behind it, and the second is empty. */
  lemma SplitAtEnd(s: string, sep: char, empty: string)
    requires FieldEnd(s, sep, 0) == |s| && |empty| == 0
    ensures Split(s + [sep], sep) == [s] + [empty]
  {
    var u := s + [sep];
    FieldEndIs(u, sep, |s|);
    SplitOnce(u, sep, |s|);
    SplitWhole(empty, sep);
    assert u[..|s|] == s && u[|s| + 1..] == empty;
  }

  /** The first field of a text with a separator stays when another separator is put behind the text. */
  lemma SplitBefore(s: string, sep: char, n: nat)
    requires n < |s| && FieldEnd(s, sep, 0) == n
    ensures Split(s + [sep], sep) == [s[..n]] + Split(s[n + 1..] + [sep], sep)
  {
    var u := s + [sep];
    FieldEndIs(u, sep, n);
    SplitOnce(u, sep, n);
    assert u[..n] == s[..n] && u[n + 1..] == s[n + 1..] + [sep];
  }

  lemma {:induction false} SplitAppend(s: string, sep: char)
    ensures Split(s + [sep], sep) == Split(s, sep) + [""]
    decreases |s|
  {
    var n := FieldEnd(s, sep, 0);
    if n < |s| {
      SplitBefore(s, sep, n);
      SplitOnce(s, sep, n);
      SplitAppend(s[n + 1..], sep);
    } else {
      SplitWhole(s, sep);
      SplitAtEnd(s, sep, "");
    }
  }

  /** A field of a text stays when a separator is put behind the text. */
  lemma FieldStays(t: string, sep: char, field: string)
    requires field in Split(t, sep)
    ensures field in Split(t + [sep], sep)
  {
    SplitAppend(t, sep);
  }

  lemma {:induction false} TrimmedHasNo(s: string, field: string)
    requires field !in Split(s, '/')
    ensures field !in Split(TrimSlashes(s), '/')
    decreases |s|
  {
    if s != "" && s[|s| - 1] == '/' {
      var t := s[..|s| - 1];
      assert s == t + ['/'];
      if field in Split(t, '/') {
        FieldStays(t, '/', field);
      }
      TrimmedHasNo(t, field);
    }
  }

  lemma SlashIsCanonical()
    ensures Canonical("/")
  {
    assert PathOk("/") by {
      SplitAppend("", '/');
      assert "" + ['/'] == "/" && Split("", '/') == [""];
      assert Split("/", '/') == ["", ""];
    }
    assert Trimmed("/") == "/" by {
      assert "/"[..0] == "";
    }
    CgroupPathOf("/");
  }

  lemma TrimmedIsCanonical(path: string)
    requires PathOk(path) && TrimSlashes(path) != ""
    ensures Canonical(TrimSlashes(path))
  {
    var t := TrimSlashes(path);
    assert PathOk(t) by {
      TrimmedHasNo(path, "..");
      assert forall i :: 0 <= i < |t| ==> t[i] == path[i];
    }
    assert Trimmed(t) == t;
    CgroupPathOf(t);
  }

  lemma CgroupPathIsCanonical(value: string)
    requires CgroupPath(value).Some?
    ensures Canonical(CgroupPath(value).value)
    ensures |CgroupPath(value).value| + 3 <= |value|
  {
    var path := value[3..];
    if TrimSlashes(path) == "" {
      SlashIsCanonical();
    } else {
      TrimmedIsCanonical(path);
    }
  }

  /** `cgroup:\[[0-9]+\]`. */
  predicate NamespaceOk(s: string) {
    "cgroup:[" <= s && |s| > 9 && s[|s| - 1] == ']' && forall i :: 8 <= i < |s| - 1 ==> IsDigit(s[i])
  }

  /** Digits between the brackets, and nothing else. */
  lemma NamespaceMeans(s: string)
    ensures NamespaceOk(s) <==> exists digits :: AllDigits(digits) && s == "cgroup:[" + digits + "]"
  {
    if NamespaceOk(s) {
      var digits := s[8..|s| - 1];
      assert s == "cgroup:[" + digits + "]";
    }
    if digits :| AllDigits(digits) && s == "cgroup:[" + digits + "]" {
      assert forall i :: 8 <= i < |s| - 1 ==> s[i] == digits[i - 8];
    }
  }

  /** The path is the parent or lies under it. */
  predicate Below(parent: string, path: string) {
    parent == "/" || path == parent || parent + "/" <= path
  }

  /** By components: those of the parent come first. */
  lemma BelowIsAncestry(parent: string, path: string)
    ensures Below(parent, path) <==> parent == "/" || Split(parent, '/') <= Split(path, '/')
  {
    FieldsOfPrefix(parent, path, '/');
  }

  function Slashes(n: nat): string {
    seq(n, i => '/')
  }

  lemma {:induction false} TrimmedSlashes(s: string)
    ensures s == TrimSlashes(s) + Slashes(|s| - |TrimSlashes(s)|)
  {
    if s != "" && s[|s| - 1] == '/' {
      TrimmedSlashes(s[..|s| - 1]);
      assert Slashes(|s| - |TrimSlashes(s)|) == Slashes(|s| - 1 - |TrimSlashes(s)|) + ['/'];
    }
  }

  predicate PathChars(s: string) {
    forall i :: 0 <= i < |s| ==>
      || 'A' <= s[i] <= 'Z' || 'a' <= s[i] <= 'z' || '0' <= s[i] <= '9' || s[i] == '_' || s[i] == '-' || s[i] == '.'
      || s[i] == '/' || s[i] == ':'
  }

  /** What a control group text is: a mark, a slash, and characters of a path, none of its parts two dots. */
  lemma CgroupPathMeans(value: string)
    ensures CgroupPath(value).Some? <==>
              && |value| > 3 && value[..3] == "0::" && value[3] == '/' && PathChars(value[3..])
              && ".." !in Split(value[3..], '/')
  {
    if |value| > 3 {
      forall i | 0 <= i < |value[3..]| ensures IsPathChar(value[3..][i]) <==> PathChars([value[3..][i]]) {
        assert [value[3..][i]][0] == value[3..][i];
      }
      assert PathChars(value[3..]) <==> forall i :: 0 <= i < |value[3..]| ==> IsPathChar(value[3..][i]);
    }
  }

  /** What is read from it: the path without the slashes at its end, of which the root keeps one. */
  lemma CgroupPathTrims(value: string)
    requires CgroupPath(value).Some?
    ensures var path := CgroupPath(value).value;
            || (path == "/" && exists n :: n > 0 && value == "0::" + Slashes(n))
            || (path != "" && path[|path| - 1] != '/' && exists n :: n >= 0 && value == "0::" + path + Slashes(n))
  {
    var path := value[3..];
    var t := TrimSlashes(path);
    var n := |path| - |t|;
    TrimmedSlashes(path);
    assert value == "0::" + path && path == t + Slashes(n);
    if t == "" {
      assert value == "0::" + Slashes(n);
    } else {
      assert value == "0::" + t + Slashes(n);
    }
  }

  // ---- `parse_workers`.

  function WorkerFrom(fields: seq<string>, parent: string): Option<Worker>
    requires |fields| == 4
  {
    if !AllDigits(fields[0]) || !AllDigits(fields[1]) || Number(fields[0]) <= 1 || Number(fields[1]) <= 0 then None
    else
      match CgroupPath(fields[2])
      case None => None
      case Some(path) =>
        if NamespaceOk(fields[3]) && Below(parent, path)
        then Some(Worker(Number(fields[0]), Number(fields[1]), path, fields[3])) else None
  }

  function WorkerOf(line: string, parent: string): Option<Worker> {
    if |Split(line, '|')| == 4 then WorkerFrom(Split(line, '|'), parent) else None
  }

  /** Every one of these lines is a worker, and `found` lists them. */
  predicate WorkersAre(lines: seq<string>, parent: string, found: seq<Worker>) {
    |found| == |lines| && forall i :: 0 <= i < |lines| ==> WorkerOf(lines[i], parent) == Some(found[i])
  }

  predicate DistinctPids(found: seq<Worker>) {
    forall i, j :: 0 <= i < j < |found| ==> found[i].pid != found[j].pid
  }

  /** What `parse_workers` returns; `result` is unique because the lines determine it. */
  predicate ParsesWorkers(text: string, server: string, namespace: string, found: seq<Worker>) {
    && CgroupPath(server).Some? && NamespaceOk(namespace)
    && WorkersAre(Lines(Strip(text)), CgroupPath(server).value, found)
    && |found| <= 4 && DistinctPids(found)
  }

  /** The loop of `parse_workers`: every line is a worker, or none of it counts. */
  method ReadWorkers(lines: seq<string>, parent: string) returns (found: Option<seq<Worker>>)
    ensures found.Some? ==> WorkersAre(lines, parent, found.value)
    ensures found.None? ==> forall rows :: !WorkersAre(lines, parent, rows)
  {
    var rows := [];
    for i := 0 to |lines|
      invariant |rows| == i && forall j :: 0 <= j < i ==> WorkerOf(lines[j], parent) == Some(rows[j])
    {
      var row := WorkerOf(lines[i], parent);
      if row.None? {
        return None;
      }
      rows := rows + [row.value];
    }
    return Some(rows);
  }

  method ParseWorkers(text: string, server: string, namespace: string) returns (found: Option<seq<Worker>>)
    ensures found.Some? ==> ParsesWorkers(text, server, namespace, found.value)
    ensures found.None? ==> forall rows :: !ParsesWorkers(text, server, namespace, rows)
  {
    var parent := CgroupPath(server);
    if parent.None? || !NamespaceOk(namespace) {
      return None;
    }
    found := ReadWorkers(Lines(Strip(text)), parent.value);
    if found.Some? {
      WorkersAreUnique(Lines(Strip(text)), parent.value, found.value);
      if |found.value| > 4 || !DistinctPids(found.value) {
        found := None;
      }
    }
  }

  lemma WorkersAreUnique(lines: seq<string>, parent: string, found: seq<Worker>)
    requires WorkersAre(lines, parent, found)
    ensures forall other :: WorkersAre(lines, parent, other) ==> other == found
  {
    forall other | WorkersAre(lines, parent, other) ensures other == found {
      assert forall i :: 0 <= i < |lines| ==> Some(other[i]) == Some(found[i]);
    }
  }

  // ---- `parse_transports`.

  const MAX_TEXT := 8192

  /** A line of five strict fields with the one accepted user. */
  predicate TransportLine(line: string) {
    var fields := Split(line, '|');
    |fields| == 5 && fields[2] == "1000" && Unsigned(fields[0], MAX32, true).Some?
    && Unsigned(fields[1], MAX64, true).Some?
  }

  /** The line without its user. */
  function Project(line: string): string {
    var fields := Split(line, '|');
    if |fields| != 5 then "" else Join([fields[0], fields[1], fields[3], fields[4]], '|')
  }

  function ProjectAll(lines: seq<string>): (projected: seq<string>)
    ensures |projected| == |lines| && forall i :: 0 <= i < |lines| ==> projected[i] == Project(lines[i])
  {
    seq(|lines|, i requires 0 <= i < |lines| => Project(lines[i]))
  }

  function WorkerPart(row: Row): Worker {
    Worker(row.pid, row.ticks, row.cgroup, row.namespace)
  }

  function WorkerParts(rows: seq<Row>): (workers: seq<Worker>)
    ensures |workers| == |rows| && forall i :: 0 <= i < |rows| ==> workers[i] == WorkerPart(rows[i])
  {
    seq(|rows|, i requires 0 <= i < |rows| => WorkerPart(rows[i]))
  }

  /** `parse_transports` returns `rows`. */
  predicate ParsesTransports(text: string, server: string, namespace: string, allowEmpty: bool, rows: seq<Row>) {
    && ByteLength(text) <= MAX_TEXT
    && (Lines(text) != [] || allowEmpty)
    && (forall i :: 0 <= i < |Lines(text)| ==> TransportLine(Lines(text)[i]))
    && ParsesWorkers(Join(ProjectAll(Lines(text)), '\n'), server, namespace, WorkerParts(rows))
    && forall i :: 0 <= i < |rows| ==> rows[i].namespace == namespace && rows[i].uid == 1000
  }

  /** `parse_transports`; None is a rejection, and means that no rows fit the text. */
  method ParseTransports(text: string, server: string, namespace: string, allowEmpty: bool)
    returns (rows: Option<seq<Row>>)
    ensures rows.Some? ==> ParsesTransports(text, server, namespace, allowEmpty, rows.value)
    ensures rows.None? ==> forall other :: !ParsesTransports(text, server, namespace, allowEmpty, other)
  {
    var lines := Lines(text);
    if ByteLength(text) > MAX_TEXT || (lines == [] && !allowEmpty)
       || exists i :: 0 <= i < |lines| && !TransportLine(lines[i]) {
      return None;
    }
    var projection := Join(ProjectAll(lines), '\n');
    var found := ParseWorkers(projection, server, namespace);
    if found.None? {
      return None;
    }
    if exists i :: 0 <= i < |found.value| && found.value[i].namespace != namespace {
      ForeignNamespace(text, server, namespace, allowEmpty, found.value);
      return None;
    }
    assert WorkerParts(WithUser(found.value)) == found.value;
    return Some(WithUser(found.value));
  }

  function WithUser(workers: seq<Worker>): (rows: seq<Row>)
    ensures |rows| == |workers|
    ensures forall i :: 0 <= i < |rows| ==> WorkerPart(rows[i]) == workers[i] && rows[i].uid == 1000
  {
    seq(|workers|, i requires 0 <= i < |workers| =>
        Row(workers[i].pid, workers[i].ticks, workers[i].cgroup, workers[i].namespace, 1000))
  }

  lemma ForeignNamespace(text: string, server: string, namespace: string, allowEmpty: bool, workers: seq<Worker>)
    requires ParsesWorkers(Join(ProjectAll(Lines(text)), '\n'), server, namespace, workers)
    requires exists i :: 0 <= i < |workers| && workers[i].namespace != namespace
    ensures forall rows :: !ParsesTransports(text, server, namespace, allowEmpty, rows)
  {
    var projection := Join(ProjectAll(Lines(text)), '\n');
    WorkersAreUnique(Lines(Strip(projection)), CgroupPath(server).value, workers);
    var i :| 0 <= i < |workers| && workers[i].namespace != namespace;
    forall rows ensures !ParsesTransports(text, server, namespace, allowEmpty, rows) {
      assert WorkersAre(Lines(Strip(projection)), CgroupPath(server).value, WorkerParts(rows)) ==>
             WorkerParts(rows)[i].namespace == workers[i].namespace;
    }
  }

  // ---- Rendering a row.

  function Text(n: int): string {
    if n < 0 then "-" + Decimal(-n) else Decimal(n)
  }

  function Fields(row: Row): seq<string> {
    [Text(row.pid), Text(row.ticks), "1000", UNIFIED + row.cgroup, row.namespace]
  }

  function Render(row: Row): string {
    Join(Fields(row), '|')
  }

  function RenderAll(rows: seq<Row>): (lines: seq<string>)
    ensures |lines| == |rows| && forall i :: 0 <= i < |rows| ==> lines[i] == Render(rows[i])
  {
    seq(|rows|, i requires 0 <= i < |rows| => Render(rows[i]))
  }

  /** What the text of `rows` must be for the script to be written. */
  predicate Reparses(rows: seq<Row>) {
    && rows != [] && (forall i :: 0 <= i < |rows| ==> rows[i].uid == 1000)
    && ParsesTransports(Join(RenderAll(rows), '\n'), UNIFIED + rows[0].cgroup, rows[0].namespace, false, rows)
  }

  // ---- The script and what it does.

  datatype Command = Revalidate(row: Row) | Kill(pid: int, force: bool)

  /** `cancel_transport_script`. */
  function CancelScript(rows: seq<Row>, force: bool): Option<seq<Command>> {
    if Reparses(rows) then Some(Script(rows, force)) else None
  }

  /** Every process is looked at again before the first is signalled. */
  function Script(rows: seq<Row>, force: bool): (script: seq<Command>)
    ensures |script| == 2 * |rows|
    ensures forall i :: 0 <= i < |rows| ==> script[i] == Revalidate(rows[i])
    ensures forall i :: 0 <= i < |rows| ==> script[|rows| + i] == Kill(rows[i].pid, force)
  {
    seq(|rows|, i requires 0 <= i < |rows| => Revalidate(rows[i]))
    + seq(|rows|, i requires 0 <= i < |rows| => Kill(rows[i].pid, force))
  }

  /** A process as `/proc` shows it; `dialStdio` is the expected command name and command line. */
  datatype Proc = Proc(ticks: int, cgroup: string, namespace: string, uid: int, dialStdio: bool)

  predicate Matches(row: Row, procs: map<int, Proc>) {
    row.pid in procs && procs[row.pid] == Proc(row.ticks, row.cgroup, row.namespace, 1000, true)
  }

  /** The signals the shell sends from the `k`-th command on; a failed command ends the script. */
  function Signals(script: seq<Command>, k: nat, procs: map<int, Proc>): seq<int>
    requires k <= |script|
    decreases |script| - k
  {
    if k == |script| then []
    else
      match script[k]
      case Revalidate(row) => if Matches(row, procs) then Signals(script, k + 1, procs) else []
      case Kill(pid, _) => if pid in procs then [pid] + Signals(script, k + 1, procs) else []
  }

  function Pids(rows: seq<Row>): (pids: seq<int>)
    ensures |pids| == |rows| && forall i :: 0 <= i < |rows| ==> pids[i] == rows[i].pid
  {
    seq(|rows|, i requires 0 <= i < |rows| => rows[i].pid)
  }

  // ---- The lines of a projection.

  function LastStripped(parts: seq<string>): seq<string>
    requires parts != []
  {
    parts[..|parts| - 1] + [StripRight(parts[|parts| - 1])]
  }

  /** The projection with white space stripped from the end of its last line. */
  function Stripped(lines: seq<string>): (stripped: seq<string>)
    requires lines != []
    ensures |stripped| == |lines|
    ensures forall i :: 0 <= i < |lines| ==>
              stripped[i] == Project(lines[i]) || stripped[i] == StripRight(Project(lines[i]))
  {
    LastStripped(ProjectAll(lines))
  }

  lemma ProjectedLine(line: string)
    requires TransportLine(line) && NoBreak(line)
    ensures NoBreak(Project(line)) && Project(line) != "" && !IsSpace(Project(line)[0])
  {
    var f := Split(line, '|');
    FieldsHaveNoBreak(line);
    assert AllDigits(f[0]);
    JoinNoBreak([f[0], f[1], f[3], f[4]], '|');
    JoinStarts([f[0], f[1], f[3], f[4]], '|');
  }

  lemma {:induction false} JoinNoBreak(parts: seq<string>, sep: char)
    requires !IsBreak(sep) && forall i :: 0 <= i < |parts| ==> NoBreak(parts[i])
    ensures NoBreak(Join(parts, sep))
  {
    if |parts| > 1 {
      JoinNoBreak(parts[1..], sep);
    }
  }

  lemma {:induction false} FieldsHaveNoBreak(line: string)
    requires NoBreak(line)
    ensures forall i :: 0 <= i < |Split(line, '|')| ==> NoBreak(Split(line, '|')[i])
    decreases |line|
  {
    var n := FieldEnd(line, '|', 0);
    if n < |line| {
      var rest := line[n + 1..];
      FieldsHaveNoBreak(rest);
      SplitOnce(line, '|', n);
      forall i | 0 < i < |Split(line, '|')| ensures NoBreak(Split(line, '|')[i]) {
        assert Split(line, '|')[i] == Split(rest, '|')[i - 1];
      }
    } else {
      SplitWhole(line, '|');
    }
  }

  lemma NothingToStripLeft(s: string)
    requires s != "" && !IsSpace(s[0])
    ensures StripLeft(s) == s
  {
  }

  lemma StripRightOfLast(before: string, last: string)
    requires last != "" && !IsSpace(last[0])
    ensures StripRight(before + last) == before + StripRight(last) && StripRight(last) != ""
  {
    var head, tail := last[0], last[1..];
    assert last == "" + [head] + tail && before + last == before + [head] + tail;
    StripRightStops(before, head, tail);
    StripRightStops("", head, tail);
    assert before + ("" + [head] + StripRight(tail)) == before + [head] + StripRight(tail);
  }

  /** Stripping joined parts that start with something visible reaches the end of the last part only. */
  lemma StripJoined(parts: seq<string>, last: string)
    requires last != "" && !IsSpace(last[0])
    requires parts != [] ==> parts[0] != "" && !IsSpace(parts[0][0])
    ensures Strip(Join(parts + [last], '\n')) == Join(parts + [StripRight(last)], '\n')
    ensures StripRight(last) != ""
  {
    var before := if parts == [] then "" else Join(parts, '\n') + ['\n'];
    JoinStarts(parts + [last], '\n');
    NothingToStripLeft(Join(parts + [last], '\n'));
    JoinAppend(parts, last, '\n');
    JoinAppend(parts, StripRight(last), '\n');
    StripRightOfLast(before, last);
    assert before + last == Join(parts + [last], '\n');
    assert before + StripRight(last) == Join(parts + [StripRight(last)], '\n');
  }

  predicate Visible(line: string) {
    line != "" && NoBreak(line) && !IsSpace(line[0])
  }

  predicate AllVisible(parts: seq<string>) {
    forall i :: 0 <= i < |parts| ==> Visible(parts[i])
  }

  lemma StrippedLines(parts: seq<string>)
    requires parts != [] && AllVisible(parts)
    ensures Lines(Strip(Join(parts, '\n'))) == LastStripped(parts)
  {
    var front, last := parts[..|parts| - 1], parts[|parts| - 1];
    assert parts == front + [last];
    StripJoined(front, last);
    LinesOfJoin(front + [StripRight(last)]);
  }

  lemma ProjectedAreVisible(lines: seq<string>)
    requires forall i :: 0 <= i < |lines| ==> TransportLine(lines[i]) && NoBreak(lines[i])
    ensures AllVisible(ProjectAll(lines))
  {
    forall i | 0 <= i < |lines| ensures Visible(Project(lines[i])) {
      ProjectedLine(lines[i]);
    }
  }

  /** The projection of lines, stripped and split again, is the projected lines. */
  lemma ProjectionLines(lines: seq<string>)
    requires lines != []
    requires forall i :: 0 <= i < |lines| ==> TransportLine(lines[i]) && NoBreak(lines[i])
    ensures Lines(Strip(Join(ProjectAll(lines), '\n'))) == Stripped(lines)
  {
    ProjectedAreVisible(lines);
    StrippedLines(ProjectAll(lines));
  }

  lemma JoinStarts(parts: seq<string>, sep: char)
    requires parts != [] && parts[0] != ""
    ensures Join(parts, sep) != "" && Join(parts, sep)[0] == parts[0][0]
  {
  }

  /** A projected line without its trailing white space is the projection of a line without it. */
  lemma ProjectStripped(line: string)
    requires TransportLine(line)
    ensures var f := Split(line, '|'); StripRight(Project(line)) == Join([f[0], f[1], f[3], StripRight(f[4])], '|')
  {
    var f := Split(line, '|');
    var front := [f[0], f[1], f[3]];
    JoinAppend(front, f[4], '|');
    JoinAppend(front, StripRight(f[4]), '|');
    assert front + [f[4]] == [f[0], f[1], f[3], f[4]];
    assert front + [StripRight(f[4])] == [f[0], f[1], f[3], StripRight(f[4])];
    StripRightStops(Join(front, '|'), '|', f[4]);
  }

  lemma WorkerOfJoined(fields: seq<string>, parent: string)
    requires |fields| == 4 && forall i :: 0 <= i < 4 ==> Without(fields[i], '|')
    ensures WorkerOf(Join(fields, '|'), parent) == WorkerFrom(fields, parent)
  {
    SplitOfJoin(fields, '|');
  }

  // ---- What a parsed row says about its line.

  predicate RowOk(row: Row, parent: string) {
    && 1 < row.pid <= MAX32 && 0 < row.ticks <= MAX64 && row.uid == 1000
    && Canonical(row.cgroup) && NamespaceOk(row.namespace) && Below(parent, row.cgroup)
  }

  /** The worker fields of a transport line, read back from its row. */
  lemma WorkerIsRow(fields: seq<string>, row: Row, parent: string)
    requires |fields| == 4 && row.uid == 1000
    requires Unsigned(fields[0], MAX32, true).Some? && Unsigned(fields[1], MAX64, true).Some?
    requires WorkerFrom(fields, parent) == Some(WorkerPart(row))
    ensures RowOk(row, parent) && fields[0] == Decimal(row.pid) && fields[1] == Decimal(row.ticks)
    ensures |row.cgroup| <= |fields[2]| && row.namespace == fields[3]
  {
    UnsignedIsDecimal(fields[0], MAX32, true, row.pid);
    UnsignedIsDecimal(fields[1], MAX64, true, row.ticks);
    CgroupPathIsCanonical(fields[2]);
  }

  /** The line is no shorter than the row it gave. */
  lemma LineGivesRow(line: string, namespace: string, row: Row, parent: string)
    requires TransportLine(line) && row.uid == 1000
    requires var f := Split(line, '|');
             |namespace| <= |f[4]| && WorkerFrom([f[0], f[1], f[3], namespace], parent) == Some(WorkerPart(row))
    ensures RowOk(row, parent) && |Render(row)| <= |line|
  {
    var f := Split(line, '|');
    WorkerIsRow([f[0], f[1], f[3], namespace], row, parent);
    JoinMonotone(Fields(row), f, '|');
    JoinOfSplit(line, '|');
  }

  /** Every parsed row comes from its own line. */
  lemma ParsedRows(text: string, server: string, namespace: string, allowEmpty: bool, rows: seq<Row>)
    requires ParsesTransports(text, server, namespace, allowEmpty, rows)
    ensures |rows| == |Lines(text)|
    ensures forall i :: 0 <= i < |rows| ==>
              RowOk(rows[i], CgroupPath(server).value) && |Render(rows[i])| <= |Lines(text)[i]|
  {
    var lines, parent := Lines(text), CgroupPath(server).value;
    LinesHaveNoBreak(text);
    if lines == [] {
      assert Lines(Strip("")) == [];
    } else {
      ProjectionLines(lines);
      forall i | 0 <= i < |rows| ensures RowOk(rows[i], parent) && |Render(rows[i])| <= |lines[i]| {
        ParsedRow(lines, parent, rows, i);
      }
    }
  }

  lemma ParsedRow(lines: seq<string>, parent: string, rows: seq<Row>, i: nat)
    requires i < |lines| == |rows| && TransportLine(lines[i]) && rows[i].uid == 1000
    requires WorkerOf(Stripped(lines)[i], parent) == Some(WorkerPart(rows[i]))
    ensures RowOk(rows[i], parent) && |Render(rows[i])| <= |lines[i]|
  {
    var stripped, line := Stripped(lines)[i], lines[i];
    assert stripped == Project(line) || stripped == StripRight(Project(line));
    StrippedGivesRow(line, stripped, rows[i], parent);
  }

  lemma StrippedGivesRow(line: string, stripped: string, row: Row, parent: string)
    requires TransportLine(line) && row.uid == 1000
    requires stripped == Project(line) || stripped == StripRight(Project(line))
    requires WorkerOf(stripped, parent) == Some(WorkerPart(row))
    ensures RowOk(row, parent) && |Render(row)| <= |line|
  {
    var f := Split(line, '|');
    if stripped == Project(line) {
      JoinedWorker(line, f[4], parent);
      LineGivesRow(line, f[4], row, parent);
    } else {
      ProjectStripped(line);
      JoinedWorker(line, StripRight(f[4]), parent);
      LineGivesRow(line, StripRight(f[4]), row, parent);
    }
  }

  /** The fields kept of a line, the last of them perhaps shortened, are the fields of the worker. */
  lemma JoinedWorker(line: string, namespace: string, parent: string)
    requires |Split(line, '|')| == 5 && namespace <= Split(line, '|')[4]
    ensures var f := Split(line, '|');
            WorkerOf(Join([f[0], f[1], f[3], namespace], '|'), parent) == WorkerFrom([f[0], f[1], f[3], namespace], parent)
  {
    var f := Split(line, '|');
    JoinOfSplit(line, '|');
    assert Without(f[4], '|');
    WorkerOfJoined([f[0], f[1], f[3], namespace], parent);
  }

  // ---- What a rendered row says about its text.

  lemma CanonicalChars(path: string)
    requires Canonical(path)
    ensures PathOk(path) && NoBreak(path) && IsAscii(path) && Without(path, '|')
  {
    CgroupPathOf(path);
  }

  lemma NamespaceChars(s: string)
    requires NamespaceOk(s)
    ensures NoBreak(s) && IsAscii(s) && Without(s, '|') && StripRight(s) == s
  {
    assert forall i :: 0 <= i < 8 ==> s[i] == "cgroup:["[i];
    assert forall i :: 0 <= i < |s| ==> i < 8 || IsDigit(s[i]) || i == |s| - 1;
  }

  /** Text on one line, in one field, one byte a character. */
  predicate Plain(s: string) {
    forall i :: 0 <= i < |s| ==> !IsBreak(s[i]) && s[i] < 128 as char && s[i] != '|'
  }

  lemma DigitsArePlain(n: nat)
    ensures Plain(Decimal(n))
  {
    assert forall i :: 0 <= i < |Decimal(n)| ==> IsDigit(Decimal(n)[i]);
  }

  lemma PathIsPlain(path: string)
    requires Canonical(path)
    ensures Plain(UNIFIED + path)
  {
    CanonicalChars(path);
    var s := UNIFIED + path;
    assert forall i :: 0 <= i < |s| ==> i < 3 || s[i] == path[i - 3];
  }

  /** No field of an acceptable row can be mistaken for two, or for two lines. */
  lemma FieldsArePlain(row: Row, parent: string)
    requires RowOk(row, parent)
    ensures forall i :: 0 <= i < 5 ==>
              NoBreak(Fields(row)[i]) && IsAscii(Fields(row)[i]) && Without(Fields(row)[i], '|')
  {
    NamespaceChars(row.namespace);
    PathIsPlain(row.cgroup);
    DigitsArePlain(row.pid);
    DigitsArePlain(row.ticks);
    var f := Fields(row);
    assert Plain(f[0]) && Plain(f[1]) && Plain(f[2]) && Plain(f[3]) && Plain(f[4]);
    forall i | 0 <= i < 5 ensures Plain(f[i]) {
    }
  }

  lemma RenderedLine(row: Row, parent: string)
    requires RowOk(row, parent)
    ensures Split(Render(row), '|') == Fields(row) && TransportLine(Render(row))
    ensures Visible(Render(row)) && IsAscii(Render(row))
  {
    FieldsArePlain(row, parent);
    SplitOfJoin(Fields(row), '|');
    JoinNoBreak(Fields(row), '|');
    AsciiJoin(Fields(row), '|');
    JoinStarts(Fields(row), '|');
    UnsignedIsDecimal(Text(row.pid), MAX32, true, row.pid);
    UnsignedIsDecimal(Text(row.ticks), MAX64, true, row.ticks);
    assert IsDigit(Text(row.pid)[0]);
  }

  lemma RenderedWorker(row: Row, parent: string)
    requires RowOk(row, parent)
    ensures WorkerFrom([Text(row.pid), Text(row.ticks), UNIFIED + row.cgroup, row.namespace], parent)
         == Some(WorkerPart(row))
  {
    NumberOfDecimal(row.pid);
    NumberOfDecimal(row.ticks);
  }

  /** What `parse_workers` sees of a rendered row, first or last. */
  lemma ProjectedRow(row: Row, parent: string)
    requires RowOk(row, parent)
    ensures WorkerOf(Project(Render(row)), parent) == Some(WorkerPart(row))
    ensures StripRight(Project(Render(row))) == Project(Render(row))
  {
    RenderedLine(row, parent);
    NamespaceChars(row.namespace);
    ProjectStripped(Render(row));
    FieldsArePlain(row, parent);
    var f := Fields(row);
    WorkerOfJoined([f[0], f[1], f[3], f[4]], parent);
    RenderedWorker(row, parent);
  }

  // ---- The reparse.

  /** The rows for which the script is written, in terms of the rows alone. */
  predicate Admissible(rows: seq<Row>) {
    && 0 < |rows| <= 4 && DistinctPids(WorkerParts(rows))
    && (forall i :: 0 <= i < |rows| ==> RowOk(rows[i], rows[0].cgroup) && rows[i].namespace == rows[0].namespace)
    && ByteLength(Join(RenderAll(rows), '\n')) <= MAX_TEXT
  }

  lemma RenderedLines(rows: seq<Row>, parent: string)
    requires forall i :: 0 <= i < |rows| ==> RowOk(rows[i], parent)
    ensures Lines(Join(RenderAll(rows), '\n')) == RenderAll(rows)
    ensures forall i :: 0 <= i < |rows| ==>
              TransportLine(RenderAll(rows)[i]) && NoBreak(RenderAll(rows)[i]) && IsAscii(RenderAll(rows)[i])
  {
    forall i | 0 <= i < |rows| ensures TransportLine(Render(rows[i])) && Visible(Render(rows[i])) && IsAscii(Render(rows[i])) {
      RenderedLine(rows[i], parent);
    }
    LinesOfJoin(RenderAll(rows));
  }

  lemma StrippedIsWorker(rows: seq<Row>, parent: string, i: nat)
    requires i < |rows| && RowOk(rows[i], parent)
    ensures WorkerOf(Stripped(RenderAll(rows))[i], parent) == Some(WorkerPart(rows[i]))
  {
    var line := Render(rows[i]);
    var stripped := Stripped(RenderAll(rows))[i];
    assert stripped == Project(line) || stripped == StripRight(Project(line));
    assert WorkerOf(stripped, parent) == Some(WorkerPart(rows[i])) by {
      ProjectedRow(rows[i], parent);
    }
  }

  lemma StrippedAreWorkers(rows: seq<Row>, parent: string)
    requires rows != [] && forall i :: 0 <= i < |rows| ==> RowOk(rows[i], parent)
    ensures WorkersAre(Stripped(RenderAll(rows)), parent, WorkerParts(rows))
  {
    var lines, parts := Stripped(RenderAll(rows)), WorkerParts(rows);
    forall i | 0 <= i < |lines| ensures WorkerOf(lines[i], parent) == Some(parts[i]) {
      StrippedIsWorker(rows, parent, i);
    }
  }

  lemma RenderedWorkers(rows: seq<Row>, parent: string)
    requires rows != [] && forall i :: 0 <= i < |rows| ==> RowOk(rows[i], parent)
    ensures WorkersAre(Lines(Strip(Join(ProjectAll(RenderAll(rows)), '\n'))), parent, WorkerParts(rows))
  {
    RenderedLines(rows, parent);
    ProjectionLines(RenderAll(rows));
    StrippedAreWorkers(rows, parent);
  }

  /** Rows that one observer can have seen below a control group. */
  predicate SeenBelow(rows: seq<Row>, parent: string, namespace: string) {
    && 0 < |rows| <= 4 && DistinctPids(WorkerParts(rows)) && Canonical(parent) && NamespaceOk(namespace)
    && (forall i :: 0 <= i < |rows| ==> RowOk(rows[i], parent) && rows[i].namespace == namespace)
    && ByteLength(Join(RenderAll(rows), '\n')) <= MAX_TEXT
  }

  /** Printing such rows and reading them back gives the same rows. */
  lemma RenderedParses(rows: seq<Row>, parent: string, namespace: string)
    requires SeenBelow(rows, parent, namespace)
    ensures ParsesTransports(Join(RenderAll(rows), '\n'), UNIFIED + parent, namespace, false, rows)
  {
    RenderedLines(rows, parent);
    RenderedWorkers(rows, parent);
  }

  /** Printing admissible rows and reading them back, as the script's author does, gives the same rows. */
  lemma RenderedReparses(rows: seq<Row>)
    requires Admissible(rows)
    ensures Reparses(rows)
  {
    RenderedParses(rows, rows[0].cgroup, rows[0].namespace);
  }

  /** The script is written for exactly the admissible rows. */
  lemma CancelAcceptsExactly(rows: seq<Row>, force: bool)
    ensures CancelScript(rows, force).Some? <==> Admissible(rows)
  {
    if Admissible(rows) {
      RenderedReparses(rows);
    }
    if Reparses(rows) {
      var text, server := Join(RenderAll(rows), '\n'), UNIFIED + rows[0].cgroup;
      ParsedRows(text, server, rows[0].namespace, false, rows);
      assert Canonical(rows[0].cgroup);
    }
  }

  /**
   Parsed rows can be signalled if and only if the first one's control group is an ancestor of, or the same
   as, every other one's; the parser itself promises that only of the server's.
   */
  lemma ParsedQualifies(text: string, server: string, namespace: string, allowEmpty: bool, rows: seq<Row>, force: bool)
    requires ParsesTransports(text, server, namespace, allowEmpty, rows) && rows != []
    ensures CancelScript(rows, force).Some? <==>
              forall i :: 0 <= i < |rows| ==> Below(rows[0].cgroup, rows[i].cgroup)
  {
    CancelAcceptsExactly(rows, force);
    var parent := CgroupPath(server).value;
    ParsedRows(text, server, namespace, allowEmpty, rows);
    RenderedIsShorter(text, rows, parent);
  }

  // ---- Two transports that are seen and cannot be signalled.

  lemma PathOfParts(parts: seq<string>)
    requires |parts| > 1 && parts[0] == "" && ".." !in parts && parts[|parts| - 1] != ""
    requires forall i :: 0 <= i < |parts| ==> Without(parts[i], '/') && forall c :: c in parts[i] ==> IsPathChar(c)
    ensures Canonical(Join(parts, '/'))
  {
    var path := Join(parts, '/');
    SplitOfJoin(parts, '/');
    JoinStartsWithSep(parts);
    JoinChars(parts);
    JoinEnds(parts);
    assert TrimSlashes(path) == path;
    CgroupPathOf(path);
  }

  lemma JoinStartsWithSep(parts: seq<string>)
    requires |parts| > 1 && parts[0] == ""
    ensures Join(parts, '/') != "" && Join(parts, '/')[0] == '/'
  {
  }

  lemma {:induction false} JoinChars(parts: seq<string>)
    requires forall i :: 0 <= i < |parts| ==> forall c :: c in parts[i] ==> IsPathChar(c)
    ensures forall i :: 0 <= i < |Join(parts, '/')| ==> IsPathChar(Join(parts, '/')[i])
  {
    if |parts| > 1 {
      JoinChars(parts[1..]);
      var head, tail := parts[0], Join(parts[1..], '/');
      var whole := head + ['/'] + tail;
      forall i | 0 <= i < |whole| ensures IsPathChar(whole[i]) {
        assert i < |head| ==> whole[i] in head;
      }
    } else if |parts| == 1 {
      forall i | 0 <= i < |parts[0]| ensures IsPathChar(parts[0][i]) {
        assert parts[0][i] in parts[0];
      }
    }
  }

  lemma {:induction false} JoinEnds(parts: seq<string>)
    requires parts != [] && parts[|parts| - 1] != "" && Without(parts[|parts| - 1], '/')
    ensures Join(parts, '/') != "" && Join(parts, '/')[|Join(parts, '/')| - 1] != '/'
  {
    if |parts| > 1 {
      JoinEnds(parts[1..]);
    }
  }

  const SERVER := "/s"
  const NAMESPACE := "cgroup:[1]"

  /** The group `/s/a`, and so on. */
  function Child(name: char): string {
    Join(["", "s", [name]], '/')
  }

  lemma ServerIsCanonical()
    ensures Canonical(SERVER)
  {
    var parts := ["", "s"];
    PathOfParts(parts);
    assert parts[1..] == ["s"];
    assert Join(parts, '/') == "" + ['/'] + "s";
  }

  lemma ChildText(name: char)
    ensures Child(name) == ['/', 's', '/', name]
  {
    var parts := ["", "s", [name]];
    assert parts[1..] == ["s", [name]] && parts[1..][1..] == [[name]];
    assert Join(parts[1..], '/') == ['s', '/', name];
  }

  lemma ChildIsCanonical(name: char)
    requires 'a' <= name <= 'z'
    ensures Canonical(Child(name)) && Below(SERVER, Child(name))
  {
    PathOfParts(["", "s", [name]]);
    ChildText(name);
    assert SERVER + "/" <= Child(name);
  }

  lemma SiblingIsNotBelow(a: char, b: char)
    requires a != b
    ensures !Below(Child(a), Child(b))
  {
    ChildText(a);
    ChildText(b);
    assert Child(a)[3] != Child(b)[3];
  }

  function Sibling(pid: int, name: char): Row {
    Row(pid, 1, Child(name), NAMESPACE, 1000)
  }

  lemma SiblingIsOk(pid: int, name: char)
    requires 1 < pid <= 3 && 'a' <= name <= 'z'
    ensures RowOk(Sibling(pid, name), SERVER) && |Render(Sibling(pid, name))| <= 100
  {
    ChildIsCanonical(name);
    ChildText(name);
    assert NamespaceOk(NAMESPACE);
    JoinOfFive(Fields(Sibling(pid, name)));
  }

  lemma JoinOfFive(f: seq<string>)
    requires |f| == 5
    ensures |Join(f, '|')| == |f[0]| + |f[1]| + |f[2]| + |f[3]| + |f[4]| + 4
  {
    var g := f[1..];
    var h := g[1..];
    var i := h[1..];
    assert |i| == 2 && i[0] == f[3] && i[1] == f[4] && h[0] == f[2] && g[0] == f[1];
    assert i[1..] == [f[4]];
    assert |Join(i, '|')| == |f[3]| + 1 + |f[4]|;
    assert |Join(h, '|')| == |f[2]| + 1 + |Join(i, '|')|;
    assert |Join(g, '|')| == |f[1]| + 1 + |Join(h, '|')|;
  }

  /** `2|1|1000|0::/s/a|cgroup:[1]` and `3|1|1000|0::/s/b|cgroup:[1]`. */
  function Siblings(): seq<Row> {
    [Sibling(2, 'a'), Sibling(3, 'b')]
  }

  lemma SiblingsAreSeen()
    ensures SeenBelow(Siblings(), SERVER, NAMESPACE)
  {
    SiblingIsOk(2, 'a');
    SiblingIsOk(3, 'b');
    ServerIsCanonical();
    assert NamespaceOk(NAMESPACE);
    PairIsSeen(Sibling(2, 'a'), Sibling(3, 'b'), SERVER, NAMESPACE);
  }

  lemma PairIsSeen(a: Row, b: Row, parent: string, namespace: string)
    requires RowOk(a, parent) && RowOk(b, parent) && a.pid != b.pid && a.namespace == b.namespace == namespace
    requires Canonical(parent) && NamespaceOk(namespace) && |Render(a)| <= 100 && |Render(b)| <= 100
    ensures SeenBelow([a, b], parent, namespace)
  {
    PairIsShort([a, b], parent);
  }

  lemma PairIsShort(rows: seq<Row>, parent: string)
    requires |rows| == 2 && forall i :: 0 <= i < 2 ==> RowOk(rows[i], parent) && |Render(rows[i])| <= 100
    ensures ByteLength(Join(RenderAll(rows), '\n')) <= MAX_TEXT
  {
    var lines := RenderAll(rows);
    RenderedLines(rows, parent);
    AsciiJoin(lines, '\n');
    ByteLengthCovers(Join(lines, '\n'));
    assert lines[1..] == [lines[1]];
  }

  /**
   Two workers side by side below the server's group: `parse_transports` returns them, and the script that
   should signal them is refused.
   */
  lemma SiblingsAreRefused(force: bool)
    ensures ParsesTransports(Join(RenderAll(Siblings()), '\n'), UNIFIED + SERVER, NAMESPACE, false, Siblings())
    ensures CancelScript(Siblings(), force).None?
  {
    var rows := Siblings();
    SiblingsAreSeen();
    RenderedParses(rows, SERVER, NAMESPACE);
    SiblingIsNotBelow('a', 'b');
    assert !Below(rows[0].cgroup, rows[1].cgroup);
    ParsedQualifies(Join(RenderAll(rows), '\n'), UNIFIED + SERVER, NAMESPACE, false, rows, force);
  }

  lemma RenderedIsShorter(text: string, rows: seq<Row>, parent: string)
    requires |rows| == |Lines(text)|
    requires forall i :: 0 <= i < |rows| ==> RowOk(rows[i], parent) && |Render(rows[i])| <= |Lines(text)[i]|
    ensures ByteLength(Join(RenderAll(rows), '\n')) <= ByteLength(text)
  {
    RenderedLines(rows, parent);
    AsciiJoin(RenderAll(rows), '\n');
    JoinMonotone(RenderAll(rows), Lines(text), '\n');
    LinesFit(text);
    ByteLengthCovers(text);
    ByteLengthCovers(Join(RenderAll(rows), '\n'));
  }

  // ---- The signals.

  lemma {:induction false} RevalidationFirst(script: seq<Command>, rows: seq<Row>, k: nat, procs: map<int, Proc>)
    requires k <= |rows| <= |script| && forall i :: k <= i < |rows| ==> script[i] == Revalidate(rows[i])
    ensures Signals(script, k, procs)
         == if forall i :: k <= i < |rows| ==> Matches(rows[i], procs) then Signals(script, |rows|, procs) else []
    decreases |rows| - k
  {
    if k < |rows| && Matches(rows[k], procs) {
      RevalidationFirst(script, rows, k + 1, procs);
    }
  }

  lemma {:induction false} KillsSignalAll(script: seq<Command>, rows: seq<Row>, k: nat, force: bool, procs: map<int, Proc>)
    requires k <= |rows| && |script| == 2 * |rows|
    requires forall i :: 0 <= i < |rows| ==> script[|rows| + i] == Kill(rows[i].pid, force) && rows[i].pid in procs
    ensures Signals(script, |rows| + k, procs) == Pids(rows)[k..]
    decreases |rows| - k
  {
    if k < |rows| {
      KillsSignalAll(script, rows, k + 1, force, procs);
      assert Pids(rows)[k..] == [rows[k].pid] + Pids(rows)[k + 1..];
    }
  }

  lemma ScriptSignals(rows: seq<Row>, force: bool, procs: map<int, Proc>)
    ensures Signals(Script(rows, force), 0, procs)
         == if forall i :: 0 <= i < |rows| ==> Matches(rows[i], procs) then Pids(rows) else []
  {
    RevalidationFirst(Script(rows, force), rows, 0, procs);
    if forall i :: 0 <= i < |rows| ==> Matches(rows[i], procs) {
      KillsSignalAll(Script(rows, force), rows, 0, force, procs);
    }
  }

  lemma ScriptIsWritten(rows: seq<Row>, force: bool)
    ensures CancelScript(rows, force) == if Reparses(rows) then Some(Script(rows, force)) else None
  {
  }

  /** The process of the row still runs, and it is the same: start time, control group, namespace, user and program. */
  predicate StillThere(row: Row, procs: map<int, Proc>) {
    && row.pid in procs && procs[row.pid].ticks == row.ticks && procs[row.pid].cgroup == row.cgroup
    && procs[row.pid].namespace == row.namespace && procs[row.pid].uid == 1000 && procs[row.pid].dialStdio
  }

  /**
   The script signals exactly the given processes, each once and in order, when every one of them still is
   what its row says, and otherwise none at all.
   */
  lemma SignalsExactlyTheRevalidated(rows: seq<Row>, force: bool, procs: map<int, Proc>)
    requires CancelScript(rows, force).Some?
    ensures Signals(CancelScript(rows, force).value, 0, procs)
         == if forall i :: 0 <= i < |rows| ==> StillThere(rows[i], procs) then Pids(rows) else []
  {
    forall i | 0 <= i < |rows| ensures StillThere(rows[i], procs) <==> Matches(rows[i], procs) {
    }
    ScriptIsWritten(rows, force);
    ScriptSignals(rows, force, procs);
  }

  /** A text is parsed as one list of rows at most. */
  lemma ParsedOnce(text: string, server: string, namespace: string, allowEmpty: bool, a: seq<Row>, b: seq<Row>)
    requires ParsesTransports(text, server, namespace, allowEmpty, a)
    requires ParsesTransports(text, server, namespace, allowEmpty, b)
    ensures a == b
  {
    var x, y := WorkerParts(a), WorkerParts(b);
    assert |a| == |b|;
    forall i | 0 <= i < |a| ensures a[i] == b[i] {
      assert x[i] == y[i];
    }
  }

  lemma PidsAreDistinct(found: seq<Worker>)
    ensures DistinctPids(found) <==>
              forall i, j :: 0 <= i < |found| && 0 <= j < |found| && i != j ==> found[i].pid != found[j].pid
  {
  }

  /**
   The rows a signal script is written for: one to four processes of user 1000 with distinct pids and one namespace,
   each in a canonical control group at or below the first, printing within 8192 bytes.
   */
  lemma AdmissibleMeans(rows: seq<Row>)
    ensures Admissible(rows) <==>
              && 1 <= |rows| <= 4
              && (forall i, j :: 0 <= i < |rows| && 0 <= j < |rows| && i != j ==> rows[i].pid != rows[j].pid)
              && (forall i :: 0 <= i < |rows| ==>
                    && 2 <= rows[i].pid < 0x1_0000_0000 && 1 <= rows[i].ticks < 0x1_0000_0000_0000_0000
                    && rows[i].uid == 1000 && Canonical(rows[i].cgroup) && NamespaceOk(rows[i].namespace)
                    && rows[i].namespace == rows[0].namespace
                    && (rows[0].cgroup == "/" || Split(rows[0].cgroup, '/') <= Split(rows[i].cgroup, '/')))
              && ByteLength(Join(RenderAll(rows), '\n')) <= 8192
  {
    PidsAreDistinct(WorkerParts(rows));
    forall i | 0 <= i < |rows|
      ensures Below(rows[0].cgroup, rows[i].cgroup) <==>
                rows[0].cgroup == "/" || Split(rows[0].cgroup, '/') <= Split(rows[i].cgroup, '/')
    {
      BelowIsAncestry(rows[0].cgroup, rows[i].cgroup);
    }
    assert forall i :: 0 <= i < |rows| ==> WorkerParts(rows)[i].pid == rows[i].pid;
  }

  /**
   `request_transport_cancellation`: one TERM to the transports first seen, then, if any is left, one KILL to
   those. Success means that every process signalled was among the ones first seen, and fit to be signalled.
   */
  method RequestCancellation(server: string, namespace: string, before: string, after: string)
    returns (seen: Option<seq<Row>>, forced: seq<Row>)
    ensures seen.Some? ==>
              && ParsesTransports(before, server, namespace, false, seen.value)
              && ParsesTransports(after, server, namespace, true, forced)
              && Admissible(seen.value) && (forced == [] || Admissible(forced))
              && forall row :: row in forced ==> row in seen.value
    ensures seen.None? ==> forall first, left ::
              && ParsesTransports(before, server, namespace, false, first)
              && ParsesTransports(after, server, namespace, true, left) ==>
                !Admissible(first) || (left != [] && !Admissible(left)) || exists row :: row in left && row !in first
  {
    forall a, b | ParsesTransports(before, server, namespace, false, a) && ParsesTransports(before, server, namespace, false, b)
      ensures a == b
    {
      ParsedOnce(before, server, namespace, false, a, b);
    }
    forall a, b | ParsesTransports(after, server, namespace, true, a) && ParsesTransports(after, server, namespace, true, b)
      ensures a == b
    {
      ParsedOnce(after, server, namespace, true, a, b);
    }
    forced := [];
    var transports := ParseTransports(before, server, namespace, false);
    if transports.None? {
      return None, forced;
    }
    CancelAcceptsExactly(transports.value, false);
    if CancelScript(transports.value, false).None? {
      return None, forced;
    }
    var remaining := ParseTransports(after, server, namespace, true);
    if remaining.None? || exists row :: row in remaining.value && row !in transports.value {
      return None, forced;
    }
    CancelAcceptsExactly(remaining.value, true);
    if remaining.value != [] && CancelScript(remaining.value, true).None? {
      return None, forced;
    }
    return transports, remaining.value;
  }
}
