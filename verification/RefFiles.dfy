/**
 The refs of a repository as files: the packed-refs text a fork is created with, and the three
 readers that enumerate refs, list them for the detail endpoint, and resolve HEAD.
 */
module RefFiles {
  import opened Base
  import opened Ids
  import opened RefTree
  import opened SortedRefs
  import opened Text

  /** The readable text files of a git directory by their path in it. */
  type GitDir = map<string, string>

  const PACKED := "packed-refs"
  const HEAD := "HEAD"
  const HEADER := "# pack-refs with: peeled fully-peeled sorted"

  predicate IsLoose(path: string) {
    StartsWith(path, "refs/")
  }

  /** `tree` is what lies below `refs/`: no path twice, and its readable files are the loose files. */
  ghost predicate TreeOf(dir: GitDir, tree: seq<TreeEntry>) {
    var files := FilesIn("refs", tree);
    && (forall i, j :: 0 <= i < j < |files| ==> files[i].0 != files[j].0)
    && (forall f :: f in files ==> f.0 in dir && dir[f.0] == f.1)
    && (forall p :: p in dir && IsLoose(p) ==> exists f :: f in files && f.0 == p)
  }

  lemma TreeFilesAreLoose(tree: seq<TreeEntry>, f: Found)
    requires f in FilesIn("refs", tree)
    ensures IsLoose(f.0)
  {
    PathsIn("refs", tree, f);
    assert "refs" + "/" == "refs/";
  }

  // ── packed lines ─────────────────────────────────────────────────────

  /** Object id and name of an entry line; comments, peel lines and lines without a space have none. */
  function Fields(line: string): Option<(string, string)> {
    if line == "" || line[0] == '#' || line[0] == '^' then None
    else
      var (sha, name) := SplitOnce(line, ' ');
      if name.Some? then Some((sha, name.value)) else None
  }

  predicate Names(line: string, name: string) {
    Fields(line).Some? && Fields(line).value.1 == name
  }

  predicate NamesValid(line: string, name: string) {
    Names(line, name) && ValidOid(Fields(line).value.0)
  }

  function FirstNamed(lines: seq<string>, name: string): Option<string> {
    if lines == [] then None
    else if Names(lines[0], name) then Some(Fields(lines[0]).value.0)
    else FirstNamed(lines[1..], name)
  }

  function FirstValid(lines: seq<string>, name: string): Option<Oid> {
    if lines == [] then None
    else if NamesValid(lines[0], name) then Some(Fields(lines[0]).value.0)
    else FirstValid(lines[1..], name)
  }

  function LastValid(lines: seq<string>, name: string): Option<Oid> {
    if lines == [] then None
    else if LastValid(lines[1..], name).Some? then LastValid(lines[1..], name)
    else if NamesValid(lines[0], name) then Some(Fields(lines[0]).value.0)
    else None
  }

  function PackedLines(dir: GitDir): seq<string> {
    if PACKED in dir then Lines(dir[PACKED]) else []
  }

  // ── enumeration ──────────────────────────────────────────────────────

  datatype Entry = Entry(oid: Oid, peeled: Option<Oid>)

  /** Entries so far and the ref that the next peel line belongs to. */
  datatype Scan = Scan(byName: map<string, Entry>, last: Option<string>)

  const START := Scan(map[], None)

  function ScanLine(st: Scan, line: string): Scan {
    if line == "" || line[0] == '#' then st
    else if line[0] == '^' then
      var peel := Trim(line[1..]);
      if st.last.Some? && st.last.value in st.byName && ValidOid(peel) then
        st.(byName := st.byName[st.last.value := st.byName[st.last.value].(peeled := Some(peel))])
      else st
    else
      var (sha, name) := SplitOnce(line, ' ');
      if name.Some? && ValidRefName(name.value) && ValidOid(sha) then
        Scan(st.byName[name.value := Entry(sha, None)], Some(name.value))
      else st
  }

  function ScanAll(st: Scan, lines: seq<string>): Scan
    decreases |lines|
  {
    if lines == [] then st else ScanAll(ScanLine(st, lines[0]), lines[1..])
  }

  lemma {:induction false} ScanOneMore(st: Scan, lines: seq<string>, line: string)
    ensures ScanAll(st, lines + [line]) == ScanLine(ScanAll(st, lines), line)
    decreases |lines|
  {
    if lines == [] {
      assert ([] + [line])[1..] == [];
    } else {
      assert (lines + [line])[1..] == lines[1..] + [line];
      ScanOneMore(ScanLine(st, lines[0]), lines[1..], line);
    }
  }

  /** A loose ref counts if both its name and its content are well-formed. */
  function LooseOid(dir: GitDir, name: string): Option<Oid> {
    if name in dir && IsLoose(name) && ValidRefName(name) && ValidOid(Trim(dir[name])) then Some(Trim(dir[name])) else None
  }

  function PackedMap(dir: GitDir): map<string, Entry> {
    ScanAll(START, PackedLines(dir)).byName
  }

  predicate HasRef(dir: GitDir, name: string) {
    LooseOid(dir, name).Some? || name in PackedMap(dir)
  }

  function EntryOf(dir: GitDir, name: string): Entry
    requires HasRef(dir, name)
  {
    if LooseOid(dir, name).Some? then Entry(LooseOid(dir, name).value, None) else PackedMap(dir)[name]
  }

  /** Every ref that exists, loose before packed. */
  function RefMap(dir: GitDir): map<string, Entry> {
    map name | name in dir.Keys + PackedMap(dir).Keys && HasRef(dir, name) :: EntryOf(dir, name)
  }

  method ScanPacked(dir: GitDir) returns (byName: map<string, Entry>)
    ensures byName == PackedMap(dir)
  {
    byName := map[];
    if PACKED !in dir {
      return;
    }
    var lines := Lines(dir[PACKED]);
    var last: Option<string> := None;
    for i := 0 to |lines|
      invariant Scan(byName, last) == ScanAll(START, lines[..i])
    {
      ScanOneMore(START, lines[..i], lines[i]);
      assert lines[..i + 1] == lines[..i] + [lines[i]];
      var line := lines[i];
      if line == "" || line[0] == '#' {
        continue;
      }
      if line[0] == '^' {
        if last.Some? && last.value in byName {
          var peel := Trim(line[1..]);
          if ValidOid(peel) {
            byName := byName[last.value := byName[last.value].(peeled := Some(peel))];
          }
        }
        continue;
      }
      var (sha, name) := SplitOnce(line, ' ');
      if name.Some? {
        if !ValidRefName(name.value) || !ValidOid(sha) {
          continue;
        }
        byName := byName[name.value := Entry(sha, None)];
        last := Some(name.value);
      }
    }
    assert lines[..|lines|] == lines;
  }

  /** The packed refs overlaid with the good loose files visited so far. */
  ghost predicate Overlaid(dir: GitDir, packed: map<string, Entry>, visited: set<string>, byName: map<string, Entry>) {
    && (forall n :: n in byName <==> n in packed || (n in visited && LooseOid(dir, n).Some?))
    && (forall n :: n in byName ==>
          byName[n] == if n in visited && LooseOid(dir, n).Some? then Entry(LooseOid(dir, n).value, None) else packed[n])
  }

  /** Every loose file has been visited or is among those still to come. */
  ghost predicate Pending(dir: GitDir, files: seq<Found>, visited: set<string>) {
    && (forall f :: f in files ==> f.0 in dir && IsLoose(f.0) && dir[f.0] == f.1)
    && (forall p :: p in dir && IsLoose(p) ==> p in visited || exists f :: f in files && f.0 == p)
  }

  lemma PendingSame(dir: GitDir, files: seq<Found>, files': seq<Found>, visited: set<string>)
    requires Pending(dir, files, visited) && forall f :: f in files <==> f in files'
    ensures Pending(dir, files', visited)
  {
    hide IsLoose;
  }

  lemma PendingVisit(dir: GitDir, files: seq<Found>, f: Found, files': seq<Found>, visited: set<string>)
    requires Pending(dir, files, visited) && f in files && forall g :: g in files <==> g == f || g in files'
    ensures Pending(dir, files', visited + {f.0})
  {
    hide IsLoose;
  }

  lemma OverlayOne(dir: GitDir, packed: map<string, Entry>, visited: set<string>, f: Found, byName: map<string, Entry>)
    requires f.0 in dir && IsLoose(f.0) && dir[f.0] == f.1 && Overlaid(dir, packed, visited, byName)
    ensures var oid := Trim(f.1);
            Overlaid(dir, packed, visited + {f.0},
                     if ValidOid(oid) && ValidRefName(f.0) then byName[f.0 := Entry(oid, None)] else byName)
  {
    hide ValidOid, ValidRefName, Trim, IsLoose;
  }

  lemma OverlaidAll(dir: GitDir, visited: set<string>, byName: map<string, Entry>)
    requires Pending(dir, [], visited) && Overlaid(dir, PackedMap(dir), visited, byName)
    ensures byName == RefMap(dir)
  {
    hide ValidOid, ValidRefName, Trim, PackedMap;
  }

  /** The directory loop: pop a directory, push its subdirectories, take its files. */
  method EnumerateRefs(dir: GitDir, tree: seq<TreeEntry>) returns (out: seq<Named<Entry>>)
    requires TreeOf(dir, tree)
    ensures Lists(out, RefMap(dir))
  {
    hide *;
    var byName := ScanPacked(dir);
    ghost var packed := byName;
    var stack: Stack := [("refs", tree)];
    ghost var visited: set<string> := {};
    EnumerationStarts(dir, tree, packed);
    while stack != []
      invariant Overlaid(dir, packed, visited, byName) && Pending(dir, FilesOf(stack), visited)
      decreases SizeOf(stack)
    {
      var (path, entries) := stack[|stack| - 1];
      ghost var size := SizeOf(stack);
      assert stack == stack[..|stack| - 1] + [(path, entries)];
      stack := stack[..|stack| - 1];
      PushDir(stack, path, entries);
      WholeDirectory(path, entries);
      for i := 0 to |entries|
        invariant Overlaid(dir, packed, visited, byName)
        invariant Pending(dir, FilesOf(stack) + FilesIn(path, entries[i..]), visited)
        invariant SizeOf(stack) + NodesIn(entries[i..]) < size
      {
        var sub := Under(path, entries[i].name);
        ghost var before, rest := FilesOf(stack), FilesIn(path, entries[i + 1..]);
        FilesFrom(path, entries, i);
        EntryFiles(sub, entries[i].node);
        match entries[i].node {
          case Dir(below) =>
            PushDir(stack, sub, below);
            stack := stack + [(sub, below)];
            PendingSame(dir, before + FilesIn(path, entries[i..]), FilesOf(stack) + rest, visited);
          case File(None) =>
            PendingSame(dir, before + FilesIn(path, entries[i..]), before + rest, visited);
          case File(Some(text)) =>
            ghost var f := (sub, text);
            PendingFile(dir, before + FilesIn(path, entries[i..]), f, visited);
            PendingVisit(dir, before + FilesIn(path, entries[i..]), f, before + rest, visited);
            OverlayOne(dir, packed, visited, f, byName);
            visited := visited + {sub};
            var oid := Trim(text);
            if !ValidOid(oid) || !ValidRefName(sub) {
              continue;
            }
            byName := byName[sub := Entry(oid, None)];
        }
      }
      DirectoryDone(stack, path, entries);
    }
    NoDirectoryLeft(dir, visited);
    OverlaidAll(dir, visited, byName);
    out := Sorted(byName);
  }

  lemma EnumerationStarts(dir: GitDir, tree: seq<TreeEntry>, packed: map<string, Entry>)
    requires TreeOf(dir, tree)
    ensures Overlaid(dir, packed, {}, packed) && Pending(dir, FilesOf([("refs", tree)]), {})
  {
    PushDir([], "refs", tree);
    assert [] + [("refs", tree)] == [("refs", tree)];
    assert FilesOf([("refs", tree)]) == FilesIn("refs", tree);
    forall f | f in FilesIn("refs", tree) ensures IsLoose(f.0) {
      TreeFilesAreLoose(tree, f);
    }
  }

  lemma WholeDirectory(path: string, entries: seq<TreeEntry>)
    ensures FilesIn(path, entries[0..]) == FilesIn(path, entries) && NodesIn(entries[0..]) == NodesIn(entries)
  {
    assert entries[0..] == entries;
  }

  lemma EntryFiles(path: string, node: Node)
    ensures node.Dir? ==> Files(path, node) == FilesIn(path, node.entries) && Nodes(node) == 1 + NodesIn(node.entries)
    ensures node.File? ==> Nodes(node) == 1
    ensures node.File? && node.text.None? ==> Files(path, node) == []
    ensures node.File? && node.text.Some? ==> Files(path, node) == [(path, node.text.value)]
  {
  }

  lemma PendingFile(dir: GitDir, files: seq<Found>, f: Found, visited: set<string>)
    requires Pending(dir, files, visited) && f in files
    ensures f.0 in dir && IsLoose(f.0) && dir[f.0] == f.1
  {
  }

  lemma DirectoryDone(stack: Stack, path: string, entries: seq<TreeEntry>)
    ensures FilesOf(stack) + FilesIn(path, entries[|entries|..]) == FilesOf(stack)
    ensures NodesIn(entries[|entries|..]) == 0
  {
  }

  lemma NoDirectoryLeft(dir: GitDir, visited: set<string>)
    requires Pending(dir, FilesOf([]), visited)
    ensures Pending(dir, [], visited)
  {
  }

  // ── the listing of the detail endpoint ───────────────────────────────

  predicate LooseListed(dir: GitDir, name: string) {
    name in dir && IsLoose(name) && Trim(dir[name]) != ""
  }

  /** Loose files count whatever they hold, then the first packed line of each other name. */
  function Listed(dir: GitDir, name: string): Option<string> {
    if LooseListed(dir, name) then Some(Trim(dir[name])) else FirstNamed(PackedLines(dir), name)
  }

  function PackedNames(lines: seq<string>): set<string> {
    set i | 0 <= i < |lines| && Fields(lines[i]).Some? :: Fields(lines[i]).value.1
  }

  function ListedMap(dir: GitDir): map<string, string> {
    map name | name in dir.Keys + PackedNames(PackedLines(dir)) && Listed(dir, name).Some? :: Listed(dir, name).value
  }

  lemma {:induction false} FirstNamedIn(lines: seq<string>, name: string)
    ensures FirstNamed(lines, name).Some? ==> name in PackedNames(lines)
    decreases |lines|
  {
    if lines != [] && !Names(lines[0], name) {
      FirstNamedIn(lines[1..], name);
      assert forall i :: 0 <= i < |lines[1..]| ==> lines[1..][i] == lines[i + 1];
    } else if lines != [] {
      assert Fields(lines[0]).value.1 in PackedNames(lines);
    }
  }

  lemma {:induction false} FirstNamedOneMore(lines: seq<string>, line: string, name: string)
    ensures FirstNamed(lines + [line], name) ==
            if FirstNamed(lines, name).Some? then FirstNamed(lines, name)
            else if Names(line, name) then Some(Fields(line).value.0)
            else None
    decreases |lines|
  {
    if lines == [] {
      assert ([] + [line])[1..] == [];
    } else {
      assert (lines + [line])[1..] == lines[1..] + [line];
      FirstNamedOneMore(lines[1..], line, name);
    }
  }

  /** What the listing holds after the loose files and some packed lines. */
  function ListedUpTo(dir: GitDir, lines: seq<string>, name: string): Option<string> {
    if LooseListed(dir, name) then Some(Trim(dir[name])) else FirstNamed(lines, name)
  }

  ghost predicate Collected(dir: GitDir, lines: seq<string>, out: seq<Named<string>>) {
    && DistinctNames(out)
    && (forall i :: 0 <= i < |out| ==> ListedUpTo(dir, lines, out[i].name) == Some(out[i].value))
    && (forall n :: ListedUpTo(dir, lines, n).Some? ==> Named(n, ListedUpTo(dir, lines, n).value) in out)
  }

  method HasName(out: seq<Named<string>>, name: string) returns (found: bool)
    ensures found <==> exists i :: 0 <= i < |out| && out[i].name == name
  {
    for i := 0 to |out|
      invariant forall j :: 0 <= j < i ==> out[j].name != name
    {
      if out[i].name == name {
        return true;
      }
    }
    return false;
  }

  /** What the recursive walk keeps of the files it meets. */
  function NonEmpty(files: seq<Found>): seq<Named<string>> {
    if files == [] then []
    else (if Trim(files[0].1) == "" then [] else [Named(files[0].0, Trim(files[0].1))]) + NonEmpty(files[1..])
  }

  lemma {:induction false} NonEmptyJoin(a: seq<Found>, b: seq<Found>)
    ensures NonEmpty(a + b) == NonEmpty(a) + NonEmpty(b)
    decreases |a|
  {
    if a == [] {
      assert a + b == b;
    } else {
      assert (a + b)[1..] == a[1..] + b;
      NonEmptyJoin(a[1..], b);
    }
  }

  lemma {:induction false} NonEmptyHas(files: seq<Found>, e: Named<string>)
    ensures e in NonEmpty(files) <==> e.value != "" && exists f :: f in files && f.0 == e.name && Trim(f.1) == e.value
    decreases |files|
  {
    if files != [] {
      NonEmptyHas(files[1..], e);
      assert forall f :: f in files <==> f == files[0] || f in files[1..];
    }
  }

  lemma {:induction false} NonEmptyDistinct(files: seq<Found>)
    requires forall i, j :: 0 <= i < j < |files| ==> files[i].0 != files[j].0
    ensures DistinctNames(NonEmpty(files))
    decreases |files|
  {
    if files != [] {
      var rest := NonEmpty(files[1..]);
      NonEmptyDistinct(files[1..]);
      forall k | 0 <= k < |rest| ensures rest[k].name != files[0].0 {
        NonEmptyHas(files[1..], rest[k]);
      }
    }
  }

  method WalkRefs(path: string, entries: seq<TreeEntry>, out: seq<Named<string>>) returns (out': seq<Named<string>>)
    ensures out' == out + NonEmpty(FilesIn(path, entries))
    decreases entries
  {
    out' := out;
    WholeDirectory(path, entries);
    for i := 0 to |entries|
      invariant out' + NonEmpty(FilesIn(path, entries[i..])) == out + NonEmpty(FilesIn(path, entries))
    {
      hide *;
      var full := Under(path, entries[i].name);
      FilesFrom(path, entries, i);
      EntryFiles(full, entries[i].node);
      NonEmptyJoin(Files(full, entries[i].node), FilesIn(path, entries[i + 1..]));
      Regroup(out', NonEmpty(Files(full, entries[i].node)), NonEmpty(FilesIn(path, entries[i + 1..])));
      match entries[i].node {
        case Dir(below) => out' := WalkRefs(full, below, out');
        case File(None) => NonEmptyFew(full, entries[i].node);
        case File(Some(text)) =>
          NonEmptyFew(full, entries[i].node);
          var sha := Trim(text);
          if sha != "" {
            out' := out' + [Named(full, sha)];
          }
      }
    }
    assert entries[|entries|..] == [];
  }

  lemma Regroup<T>(a: seq<T>, b: seq<T>, c: seq<T>)
    ensures a + (b + c) == a + b + c && a + [] == a
  {
  }

  lemma NonEmptyFew(path: string, node: Node)
    requires node.File?
    ensures NonEmpty(Files(path, node)) ==
            if node.text.Some? && Trim(node.text.value) != "" then [Named(path, Trim(node.text.value))] else []
  {
    if node.text.Some? {
      assert [(path, node.text.value)][1..] == [];
    }
  }

  lemma WalkCollects(dir: GitDir, tree: seq<TreeEntry>)
    requires TreeOf(dir, tree)
    ensures Collected(dir, [], NonEmpty(FilesIn("refs", tree)))
  {
    hide Trim, IsLoose, FilesIn, NonEmpty;
    var files := FilesIn("refs", tree);
    var out := NonEmpty(files);
    NonEmptyDistinct(files);
    forall i | 0 <= i < |out| ensures ListedUpTo(dir, [], out[i].name) == Some(out[i].value) {
      NonEmptyHas(files, out[i]);
      var f :| f in files && f.0 == out[i].name && Trim(f.1) == out[i].value;
      TreeFilesAreLoose(tree, f);
    }
    forall n | ListedUpTo(dir, [], n).Some? ensures Named(n, ListedUpTo(dir, [], n).value) in out {
      assert LooseListed(dir, n);
      var f :| f in files && f.0 == n;
      NonEmptyHas(files, Named(n, Trim(dir[n])));
    }
  }

  lemma ListedOneMore(dir: GitDir, lines: seq<string>, line: string)
    ensures forall n :: ListedUpTo(dir, lines + [line], n) ==
                        if ListedUpTo(dir, lines, n).None? && Names(line, n) then Some(Fields(line).value.0)
                        else ListedUpTo(dir, lines, n)
  {
    forall n ensures ListedUpTo(dir, lines + [line], n) ==
                     if ListedUpTo(dir, lines, n).None? && Names(line, n) then Some(Fields(line).value.0)
                     else ListedUpTo(dir, lines, n)
    {
      FirstNamedOneMore(lines, line, n);
    }
  }

  function AddLine(dir: GitDir, lines: seq<string>, line: string, out: seq<Named<string>>): seq<Named<string>> {
    if Fields(line).Some? && ListedUpTo(dir, lines, Fields(line).value.1).None? then
      out + [Named(Fields(line).value.1, Fields(line).value.0)]
    else out
  }

  lemma CollectedOneMore(dir: GitDir, lines: seq<string>, line: string, out: seq<Named<string>>)
    requires Collected(dir, lines, out)
    ensures Collected(dir, lines + [line], AddLine(dir, lines, line, out))
  {
    ListedOneMore(dir, lines, line);
    var out' := AddLine(dir, lines, line, out);
    forall n | ListedUpTo(dir, lines + [line], n).Some?
      ensures Named(n, ListedUpTo(dir, lines + [line], n).value) in out'
    {
      if ListedUpTo(dir, lines, n).None? {
        assert out'[|out|] == Named(n, ListedUpTo(dir, lines + [line], n).value);
      }
    }
  }

  method ListRefs(dir: GitDir, tree: seq<TreeEntry>) returns (out: seq<Named<string>>)
    requires TreeOf(dir, tree)
    ensures Lists(out, ListedMap(dir))
  {
    out := WalkRefs("refs", tree, []);
    WalkCollects(dir, tree);
    var lines := PackedLines(dir);
    for i := 0 to |lines|
      invariant Collected(dir, lines[..i], out)
    {
      assert lines[..i + 1] == lines[..i] + [lines[i]];
      CollectedOneMore(dir, lines[..i], lines[i], out);
      var fields := Fields(lines[i]);
      if fields.Some? {
        var known := HasName(out, fields.value.1);
        if !known {
          out := out + [Named(fields.value.1, fields.value.0)];
        }
      }
    }
    assert lines[..|lines|] == lines;
    CollectedCovers(dir, out);
    out := SortByName(out, ListedMap(dir));
  }

  lemma CollectedCovers(dir: GitDir, out: seq<Named<string>>)
    requires Collected(dir, PackedLines(dir), out)
    ensures Covers(out, ListedMap(dir))
  {
    forall n ensures ListedUpTo(dir, PackedLines(dir), n) == Listed(dir, n)
                     && (Listed(dir, n).Some? ==> n in ListedMap(dir))
    {
      FirstNamedIn(PackedLines(dir), n);
    }
  }

  // ── HEAD ─────────────────────────────────────────────────────────────

  datatype HeadState = Symbolic(target: RefName, oid: Oid) | Detached(oid: Oid) | Unborn(target: RefName)

  datatype HeadError = Unreadable | InvalidRefName | Unrecognised

  const REF := "ref: "

  /** Where a symbolic HEAD leads: the file named by the target, else the first good packed line. */
  function Target(dir: GitDir, target: string): HeadState {
    if target in dir && ValidOid(Trim(dir[target])) then Symbolic(target, Trim(dir[target]))
    else if FirstValid(PackedLines(dir), target).Some? then Symbolic(target, FirstValid(PackedLines(dir), target).value)
    else Unborn(target)
  }

  function HeadOf(dir: GitDir): Result<HeadState, HeadError> {
    if HEAD !in dir then Err(Unreadable)
    else
      var text := Trim(dir[HEAD]);
      if StartsWith(text, REF) then
        var target := Trim(text[|REF|..]);
        if ValidRefName(target) then Ok(Target(dir, target)) else Err(InvalidRefName)
      else if ValidOid(text) then Ok(Detached(text))
      else Err(Unrecognised)
  }

  lemma {:induction false} FirstValidSkips(lines: seq<string>, name: string, i: nat)
    requires i <= |lines| && forall k :: 0 <= k < i ==> !NamesValid(lines[k], name)
    ensures FirstValid(lines, name) == FirstValid(lines[i..], name)
    decreases i
  {
    if i > 0 {
      FirstValidSkips(lines[1..], name, i - 1);
      assert lines[1..][i - 1..] == lines[i..];
    }
  }

  method ReadHead(dir: GitDir) returns (r: Result<HeadState, HeadError>)
    ensures r == HeadOf(dir)
  {
    if HEAD !in dir {
      return Err(Unreadable);
    }
    var text := Trim(dir[HEAD]);
    if StartsWith(text, REF) {
      var target := Trim(text[|REF|..]);
      if !ValidRefName(target) {
        return Err(InvalidRefName);
      }
      if target in dir {
        var oid := Trim(dir[target]);
        if ValidOid(oid) {
          return Ok(Symbolic(target, oid));
        }
      }
      var lines := PackedLines(dir);
      for i := 0 to |lines|
        invariant forall k :: 0 <= k < i ==> !NamesValid(lines[k], target)
      {
        var fields := Fields(lines[i]);
        if fields.Some? && fields.value.1 == target && ValidOid(fields.value.0) {
          FirstValidSkips(lines, target, i);
          return Ok(Symbolic(target, fields.value.0));
        }
      }
      FirstValidSkips(lines, target, |lines|);
      return Ok(Unborn(target));
    }
    if ValidOid(text) {
      return Ok(Detached(text));
    }
    return Err(Unrecognised);
  }
}
