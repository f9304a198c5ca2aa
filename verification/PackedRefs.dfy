/** The packed-refs file a fork is born with, and what ref enumeration makes of it. */
module PackedRefs {
  import opened Base
  import opened Ids
  import opened RefFiles
  import opened SortedRefs
  import opened Text

  function Line(e: Named<Oid>): string {
    e.value + " " + e.name
  }

  function Body(list: seq<Named<Oid>>): string {
    if list == [] then "" else Line(list[0]) + "\n" + Body(list[1..])
  }

  lemma {:induction false} BodyOneMore(list: seq<Named<Oid>>, e: Named<Oid>)
    ensures Body(list + [e]) == Body(list) + Line(e) + "\n"
    decreases |list|
  {
    if list == [] {
      assert ([] + [e])[1..] == [];
      assert Body([e]) == Line(e) + "\n" + "";
    } else {
      assert (list + [e])[1..] == list[1..] + [e];
      BodyOneMore(list[1..], e);
    }
  }

  /** The file written for the refs of the source: none at all for no refs. */
  ghost predicate IsSnapshot(refs: map<RefName, Oid>, file: Option<string>) {
    match file
    case None => refs == map[]
    case Some(text) => refs != map[] && exists list :: Lists(list, refs) && text == HEADER + "\n" + Body(list)
  }

  lemma PrintedOneMore(head: string, list: seq<Named<Oid>>, i: nat)
    requires i < |list|
    ensures head + Body(list[..i]) + list[i].value + " " + list[i].name + "\n" == head + Body(list[..i + 1])
  {
    BodyOneMore(list[..i], list[i]);
    assert list[..i + 1] == list[..i] + [list[i]];
    hide Body;
    var b, v, n := Body(list[..i]), list[i].value, list[i].name;
    assert head + b + v + " " + n + "\n" == head + (b + (v + " " + n) + "\n");
  }

  method SnapshotRefsToPacked(refs: map<RefName, Oid>) returns (file: Option<string>)
    ensures IsSnapshot(refs, file)
  {
    if refs == map[] {
      return None;
    }
    var entries := Sorted(refs);
    var packed := HEADER + "\n";
    for i := 0 to |entries|
      invariant packed == HEADER + "\n" + Body(entries[..i])
    {
      hide Body, HEADER;
      PrintedOneMore(HEADER + "\n", entries, i);
      packed := packed + entries[i].value;
      packed := packed + " ";
      packed := packed + entries[i].name;
      packed := packed + "\n";
    }
    assert entries[..|entries|] == entries;
    return Some(packed);
  }

  // ── reading it back ──────────────────────────────────────────────────

  /** Names git can produce: no control characters. */
  predicate NoControls(name: string) {
    forall i :: 0 <= i < |name| ==> name[i] as int >= 0x20
  }

  ghost predicate Printable(refs: map<RefName, Oid>) {
    forall n :: n in refs ==> NoControls(n) && ValidOid(refs[n])
  }

  lemma ValidNamesHaveNoControls(name: string)
    requires ValidRefName(name)
    ensures NoControls(name)
  {
  }

  lemma LineIsPlain(e: Named<Oid>)
    requires NoControls(e.name) && ValidOid(e.value)
    ensures PlainLine(Line(e))
    ensures Line(e) != "" && Line(e)[0] != '#' && Line(e)[0] != '^'
    ensures SplitOnce(Line(e), ' ') == (e.value, Some(e.name))
  {
    var line := Line(e);
    forall i | 0 <= i < |line| ensures line[i] != '\n' && line[i] != '\r' {
      if i < 40 {
        assert HexChar(line[i]);
      } else if i > 40 {
        assert line[i] == e.name[i - 41];
      }
    }
    assert HexChar(line[0]);
    forall i | 0 <= i < 40 ensures e.value[i] != ' ' {
      assert HexChar(e.value[i]);
    }
    SplitAt(e.value, ' ', e.name);
    assert line == e.value + [' '] + e.name;
  }

  function Overlay(byName: map<string, Entry>, list: seq<Named<Oid>>): map<string, Entry>
    decreases |list|
  {
    if list == [] then byName
    else Overlay(if ValidRefName(list[0].name) then byName[list[0].name := Entry(list[0].value, None)] else byName, list[1..])
  }

  lemma {:induction false} ScanBody(st: Scan, list: seq<Named<Oid>>)
    requires forall i :: 0 <= i < |list| ==> NoControls(list[i].name) && ValidOid(list[i].value)
    ensures ScanAll(st, Lines(Body(list))).byName == Overlay(st.byName, list)
    decreases |list|
  {
    if list != [] {
      LineIsPlain(list[0]);
      LinesCons(Line(list[0]), Body(list[1..]));
      ScanBody(ScanLine(st, Line(list[0])), list[1..]);
    }
  }

  /** In a sorted list every name occurs once, so nothing is overwritten. */
  lemma {:induction false} OverlayAt(byName: map<string, Entry>, list: seq<Named<Oid>>, n: string)
    requires SortedByName(list)
    ensures forall i :: 0 <= i < |list| && list[i].name == n && ValidRefName(n) ==>
              n in Overlay(byName, list) && Overlay(byName, list)[n] == Entry(list[i].value, None)
    ensures (forall i :: 0 <= i < |list| ==> list[i].name != n) || !ValidRefName(n) ==>
              (n in Overlay(byName, list) <==> n in byName) && (n in byName ==> Overlay(byName, list)[n] == byName[n])
    decreases |list|
  {
    if list != [] {
      var byName' := if ValidRefName(list[0].name) then byName[list[0].name := Entry(list[0].value, None)] else byName;
      OverlayAt(byName', list[1..], n);
      assert forall i :: 1 <= i < |list| ==> list[1..][i - 1] == list[i];
      LessIrreflexive(n);
      assert list[0].name == n ==> forall i :: 1 <= i < |list| ==> list[i].name != n;
    }
  }

  /** The refs that the name validator lets through, without peeled values. */
  function ValidOnly(refs: map<RefName, Oid>): map<string, Entry> {
    map n | n in refs && ValidRefName(n) :: Entry(refs[n], None)
  }

  lemma OverlayOfMap(list: seq<Named<Oid>>, refs: map<RefName, Oid>)
    requires Lists(list, refs)
    ensures Overlay(map[], list) == ValidOnly(refs)
  {
    var o := Overlay(map[], list);
    forall n ensures (n in o <==> n in ValidOnly(refs)) && (n in o ==> o[n] == ValidOnly(refs)[n]) {
      OverlayAt(map[], list, n);
      if n in refs {
        var i :| 0 <= i < |list| && list[i] == Named(n, refs[n]);
      }
    }
  }

  lemma HeaderIsPlain()
    ensures PlainLine(HEADER) && HEADER != "" && HEADER[0] == '#'
  {
    assert |HEADER| == 44;
    assert forall i :: 0 <= i < 44 ==> HEADER[i] != '\n';
  }

  lemma CommentIsSkipped(st: Scan, line: string, rest: string)
    requires PlainLine(line) && line != "" && line[0] == '#'
    ensures ScanAll(st, Lines(line + "\n" + rest)) == ScanAll(st, Lines(rest))
  {
    LinesCons(line, rest);
    assert ([line] + Lines(rest))[1..] == Lines(rest);
  }

  /** A freshly created fork: the snapshot is its packed-refs and it has no loose ref. */
  ghost predicate NewFork(dir: GitDir, file: Option<string>) {
    && (if file.Some? then PACKED in dir && dir[PACKED] == file.value else PACKED !in dir)
    && forall p :: p in dir ==> !IsLoose(p)
  }

  /**
   The round trip through the fork's ref text: enumeration on the fork yields exactly the refs of the
   source whose names the validator accepts, with their ids and nothing peeled.
   */
  lemma ForkSeesTheRefs(refs: map<RefName, Oid>, file: Option<string>, dir: GitDir)
    requires Printable(refs) && IsSnapshot(refs, file) && NewFork(dir, file)
    ensures RefMap(dir) == ValidOnly(refs)
  {
    hide Lines, ScanAll, ValidRefName, ValidOid, NoControls, Trim, IsLoose, Body;
    if file.Some? {
      var list :| Lists(list, refs) && file.value == HEADER + "\n" + Body(list);
      PackedOfPrinted(refs, list);
      assert PackedMap(dir) == ValidOnly(refs);
    } else {
      NothingPacked(dir);
      assert PackedMap(dir) == ValidOnly(refs);
    }
    assert forall n :: LooseOid(dir, n).None?;
  }

  lemma NothingPacked(dir: GitDir)
    requires PACKED !in dir
    ensures PackedMap(dir) == map[]
  {
  }

  lemma PackedOfPrinted(refs: map<RefName, Oid>, list: seq<Named<Oid>>)
    requires Printable(refs) && Lists(list, refs)
    ensures ScanAll(START, Lines(HEADER + "\n" + Body(list))).byName == ValidOnly(refs)
  {
    hide Lines, ScanAll, ValidRefName, ValidOid, NoControls, Body, HEADER;
    HeaderIsPlain();
    CommentIsSkipped(START, HEADER, Body(list));
    ScanBody(START, list);
    OverlayOfMap(list, refs);
  }

  /** Nothing is lost exactly when every name of the source satisfies the validator. */
  lemma RoundTripIffNamesValid(refs: map<RefName, Oid>, file: Option<string>, dir: GitDir)
    requires Printable(refs) && IsSnapshot(refs, file) && NewFork(dir, file)
    ensures RefMap(dir) == (map n | n in refs :: Entry(refs[n], None)) <==> forall n :: n in refs ==> ValidRefName(n)
  {
    ForkSeesTheRefs(refs, file, dir);
    var all := map n | n in refs :: Entry(refs[n], None);
    if RefMap(dir) == all {
      forall n | n in refs ensures ValidRefName(n) {
        assert n in all;
      }
    }
  }

  /** Copying and enumerating in one go: the fork's list is the sorted list of the source's refs. */
  method ForkThenEnumerate(refs: map<RefName, Oid>, head: string) returns (out: seq<Named<Entry>>)
    requires forall n :: n in refs ==> ValidRefName(n) && ValidOid(refs[n])
    ensures Lists(out, map n | n in refs :: Entry(refs[n], None))
  {
    forall n | n in refs ensures NoControls(n) {
      ValidNamesHaveNoControls(n);
    }
    var file := SnapshotRefsToPacked(refs);
    var dir: GitDir := map[HEAD := head];
    if file.Some? {
      dir := dir[PACKED := file.value];
    }
    assert HEAD[0] != 'r' && PACKED[0] != 'r' && "refs/"[0] == 'r';
    RoundTripIffNamesValid(refs, file, dir);
    out := EnumerateRefs(dir, []);
  }

  /**
   Why control characters have to be excluded: a name with a newline would print as two lines, and
   the second could be read as another ref.
   */
  lemma NewlineForgesARef(sha: Oid, a: string, b: string)
    requires ValidOid(sha) && ValidRefName(a) && ValidRefName(b) && a != b
    ensures var forged := a + "\n" + sha + " " + b;
            !ValidRefName(forged) && b in ScanAll(START, Lines(Body([Named(forged, sha)]))).byName
  {
    var forged := a + "\n" + sha + " " + b;
    assert forged[|a|] == '\n' && !RefChar(forged[|a|]);
    var e1, e2: Named<Oid> := Named(a, sha), Named(b, sha);
    ForgedText(sha, a, b);
    ValidNamesHaveNoControls(a);
    ValidNamesHaveNoControls(b);
    ScanBody(START, [e1, e2]);
    OverlayOfTwo(e1, e2);
  }

  lemma ForgedText(sha: Oid, a: string, b: string)
    ensures Body([Named(a + "\n" + sha + " " + b, sha)]) == Body([Named(a, sha), Named(b, sha)])
  {
    var e1, e2: Named<Oid> := Named(a, sha), Named(b, sha);
    var forged: Named<Oid> := Named(a + "\n" + sha + " " + b, sha);
    assert [e1, e2][1..] == [e2] && [e2][1..] == [] && [forged][1..] == [];
    assert Body([e2]) == Line(e2) + "\n";
    assert Body([forged]) == Line(forged) + "\n";
    assert Body([e1, e2]) == Line(e1) + "\n" + Body([e2]);
    assert Line(forged) + "\n" == Line(e1) + "\n" + (Line(e2) + "\n");
  }

  lemma OverlayOfTwo(e1: Named<Oid>, e2: Named<Oid>)
    requires ValidRefName(e2.name)
    ensures e2.name in Overlay(map[], [e1, e2])
  {
    assert [e1, e2][1..] == [e2] && [e2][1..] == [];
    var byName: map<string, Entry> := if ValidRefName(e1.name) then map[e1.name := Entry(e1.value, None)] else map[];
    var byName' := byName[e2.name := Entry(e2.value, None)];
    assert Overlay(byName', []) == byName';
    assert Overlay(byName, [e2]) == byName';
    assert Overlay(map[], [e1, e2]) == Overlay(byName, [e2]);
  }

  /** The file a fork gets for a source with a single ref. */
  lemma SingleRefText(name: RefName, oid: Oid)
    ensures IsSnapshot(map[name := oid], Some("# pack-refs with: peeled fully-peeled sorted\n" + oid + " " + name + "\n"))
  {
    var refs := map[name := oid];
    var list := [Named(name, oid)];
    assert list[1..] == [];
    assert Body(list) == oid + " " + name + "\n" + "";
    assert list[0] in list && Lists(list, refs);
    assert HEADER + "\n" + (oid + " " + name + "\n") == "# pack-refs with: peeled fully-peeled sorted\n" + oid + " " + name + "\n";
  }
}
