/** Where the three ref readers agree, and what separates them. */
module RefReaders {
  import opened Base
  import opened Ids
  import opened RefFiles
  import opened Text

  /** The id enumeration reports for a name. */
  function Enumerated(dir: GitDir, name: string): Option<Oid> {
    if HasRef(dir, name) then Some(EntryOf(dir, name).oid) else None
  }

  /** Scanning forward keeps the last good line of each acceptable name. */
  lemma {:induction false} ScanKeepsLast(st: Scan, lines: seq<string>, name: string)
    ensures var byName := ScanAll(st, lines).byName;
            if LastValid(lines, name).Some? && ValidRefName(name)
            then name in byName && byName[name].oid == LastValid(lines, name).value
            else (name in byName <==> name in st.byName) && (name in byName ==> byName[name].oid == st.byName[name].oid)
    decreases |lines|
  {
    if lines != [] {
      ScanKeepsLast(ScanLine(st, lines[0]), lines[1..], name);
    }
  }

  /** What enumeration reports, name by name: the good loose file, else the last good packed line. */
  lemma EnumeratedIs(dir: GitDir, name: string)
    ensures Enumerated(dir, name) ==
            if LooseOid(dir, name).Some? then LooseOid(dir, name)
            else if ValidRefName(name) then LastValid(PackedLines(dir), name)
            else None
  {
    ScanKeepsLast(START, PackedLines(dir), name);
  }

  // ── packed files without repetitions ─────────────────────────────────

  ghost predicate UniqueNames(lines: seq<string>) {
    forall i, j, n :: 0 <= i < j < |lines| && Names(lines[i], n) ==> !Names(lines[j], n)
  }

  lemma {:induction false} AbsentFromAll(lines: seq<string>, n: string)
    requires forall i :: 0 <= i < |lines| ==> !Names(lines[i], n)
    ensures FirstNamed(lines, n).None? && FirstValid(lines, n).None? && LastValid(lines, n).None?
    decreases |lines|
  {
    if lines != [] {
      AbsentFromAll(lines[1..], n);
    }
  }

  /** With one line per name it does not matter which of its lines a reader takes. */
  lemma {:induction false} UniqueMeansSame(lines: seq<string>, n: string)
    requires UniqueNames(lines)
    ensures FirstValid(lines, n) == LastValid(lines, n)
    decreases |lines|
  {
    if lines != [] {
      assert forall i :: 0 <= i < |lines[1..]| ==> lines[1..][i] == lines[i + 1];
      UniqueMeansSame(lines[1..], n);
      if Names(lines[0], n) {
        AbsentFromAll(lines[1..], n);
      }
    }
  }

  /** Where enumeration and listing agree on one name. */
  ghost predicate Harmless(dir: GitDir, name: string) {
    if LooseListed(dir, name) then LooseOid(dir, name).Some?
    else FirstNamed(PackedLines(dir), name) == if ValidRefName(name) then LastValid(PackedLines(dir), name) else None
  }

  /**
   Name by name, enumeration and listing report the same exactly when a loose file that is not empty
   is well-formed, and without one the first packed line of the name is also its last good one.
   */
  lemma SameNameIff(dir: GitDir, name: string)
    ensures Enumerated(dir, name) == Listed(dir, name) <==> Harmless(dir, name)
  {
    EnumeratedIs(dir, name);
    LastIsValid(PackedLines(dir), name);
  }

  /** The two readers give the same refs with the same ids exactly when that holds of every name. */
  lemma EnumerationAgreesWithListingIff(dir: GitDir)
    ensures (RefMap(dir).Keys == ListedMap(dir).Keys && forall n :: n in RefMap(dir) ==> RefMap(dir)[n].oid == ListedMap(dir)[n])
            <==> forall n :: Harmless(dir, n)
  {
    forall n ensures (n in RefMap(dir) <==> Enumerated(dir, n).Some?) && (n in ListedMap(dir) <==> Listed(dir, n).Some?)
                     && (Enumerated(dir, n) == Listed(dir, n) <==> Harmless(dir, n))
    {
      FirstNamedIn(PackedLines(dir), n);
      SameNameIff(dir, n);
    }
    hide Harmless, Listed;
    SameMapsIff(dir);
  }

  lemma SameMapsIff(dir: GitDir)
    requires forall n :: (n in RefMap(dir) <==> Enumerated(dir, n).Some?) && (n in ListedMap(dir) <==> Listed(dir, n).Some?)
    ensures (RefMap(dir).Keys == ListedMap(dir).Keys && forall n :: n in RefMap(dir) ==> RefMap(dir)[n].oid == ListedMap(dir)[n])
            <==> forall n :: Enumerated(dir, n) == Listed(dir, n)
  {
    hide LooseOid, PackedMap, LooseListed, FirstNamed, HasRef;
    if RefMap(dir).Keys == ListedMap(dir).Keys && forall n :: n in RefMap(dir) ==> RefMap(dir)[n].oid == ListedMap(dir)[n] {
      forall n ensures Enumerated(dir, n) == Listed(dir, n) {
        assert n in RefMap(dir).Keys <==> n in ListedMap(dir).Keys;
      }
    } else if forall n :: Enumerated(dir, n) == Listed(dir, n) {
      forall n ensures n in RefMap(dir) <==> n in ListedMap(dir) {
        assert Enumerated(dir, n) == Listed(dir, n);
      }
    }
  }

  /**
   For a target under `refs/`, HEAD resolves to what enumeration reports exactly when a good loose
   file decides, or the first and the last good packed line of the target carry the same id.
   Otherwise-malformed files do not matter.
   */
  lemma HeadAgreesIff(dir: GitDir, target: string)
    requires IsLoose(target) && ValidRefName(target)
    ensures Target(dir, target) == (if target in RefMap(dir) then Symbolic(target, RefMap(dir)[target].oid) else Unborn(target))
            <==> LooseOid(dir, target).Some? || FirstValid(PackedLines(dir), target) == LastValid(PackedLines(dir), target)
  {
    EnumeratedIs(dir, target);
    assert target in RefMap(dir) <==> Enumerated(dir, target).Some?;
    FirstIffLast(PackedLines(dir), target);
  }

  lemma {:induction false} FirstIffLast(lines: seq<string>, n: string)
    ensures FirstValid(lines, n).Some? <==> LastValid(lines, n).Some?
    decreases |lines|
  {
    if lines != [] {
      FirstIffLast(lines[1..], n);
    }
  }

  /** With unique packed names the three readers agree on a symbolic HEAD under `refs/`. */
  lemma HeadAgreesWithUniquePacked(dir: GitDir, target: string)
    requires IsLoose(target) && ValidRefName(target) && UniqueNames(PackedLines(dir))
    ensures Target(dir, target) == if target in RefMap(dir) then Symbolic(target, RefMap(dir)[target].oid) else Unborn(target)
  {
    UniqueMeansSame(PackedLines(dir), target);
    HeadAgreesIff(dir, target);
  }

  /**
   A loose file that does not hold an object id separates the readers: enumeration and HEAD fall back
   to the packed id (or to nothing), the listing reports the malformed text.
   */
  lemma MalformedLooseFileSeparates(dir: GitDir, name: string)
    requires name in dir && IsLoose(name) && ValidRefName(name) && UniqueNames(PackedLines(dir))
    requires Trim(dir[name]) != "" && !ValidOid(Trim(dir[name]))
    ensures Listed(dir, name) == Some(Trim(dir[name]))
    ensures Enumerated(dir, name) == LastValid(PackedLines(dir), name) != Listed(dir, name)
    ensures Target(dir, name) ==
            if Enumerated(dir, name).Some? then Symbolic(name, Enumerated(dir, name).value) else Unborn(name)
  {
    EnumeratedIs(dir, name);
    UniqueMeansSame(PackedLines(dir), name);
    LastIsValid(PackedLines(dir), name);
  }

  lemma {:induction false} LastIsValid(lines: seq<string>, n: string)
    ensures LastValid(lines, n).Some? ==> ValidOid(LastValid(lines, n).value)
    decreases |lines|
  {
    if lines != [] {
      LastIsValid(lines[1..], n);
    }
  }

  /** Two packed lines for one name separate them as well: enumeration takes the last, the others the first. */
  lemma RepeatedPackedNameSeparates(dir: GitDir, name: string, a: string, b: string)
    requires PackedLines(dir) == [a, b] && NamesValid(a, name) && NamesValid(b, name)
    requires Fields(a).value.0 != Fields(b).value.0
    requires IsLoose(name) && ValidRefName(name) && name !in dir
    ensures Enumerated(dir, name) == Some(Fields(b).value.0)
    ensures Listed(dir, name) == Some(Fields(a).value.0)
    ensures Target(dir, name) == Symbolic(name, Fields(a).value.0)
  {
    EnumeratedIs(dir, name);
    assert [a, b][1..] == [b] && [b][1..] == [];
    assert LastValid([b], name) == Some(Fields(b).value.0);
  }

  // ── peel lines ───────────────────────────────────────────────────────

  predicate Good(line: string) {
    Fields(line).Some? && ValidOid(Fields(line).value.0) && ValidRefName(Fields(line).value.1)
  }

  /** The nearest entry line before the end, well-formed or not. */
  function NearestEntry(lines: seq<string>): (line: Option<string>)
    ensures line.Some? ==> Fields(line.value).Some?
  {
    if lines == [] then None
    else if Fields(lines[|lines| - 1]).Some? then Some(lines[|lines| - 1])
    else NearestEntry(lines[..|lines| - 1])
  }

  /** The nearest well-formed entry line before the end. */
  function NearestGood(lines: seq<string>): (line: Option<string>)
    ensures line.Some? ==> Good(line.value)
  {
    if lines == [] then None
    else if Good(lines[|lines| - 1]) then Some(lines[|lines| - 1])
    else NearestGood(lines[..|lines| - 1])
  }

  /** Every entry came from a well-formed line, and so did the ref that a peel line would go to. */
  ghost predicate Sane(st: Scan) {
    && (forall n :: n in st.byName ==> ValidRefName(n) && ValidOid(st.byName[n].oid))
    && (st.last.Some? ==> st.last.value in st.byName)
  }

  predicate PeelLine(line: string) {
    line != "" && line[0] == '^' && ValidOid(Trim(line[1..]))
  }

  lemma {:induction false} SaneAfter(st: Scan, lines: seq<string>)
    requires Sane(st)
    ensures Sane(ScanAll(st, lines))
    decreases |lines|
  {
    if lines != [] {
      SaneAfter(ScanLine(st, lines[0]), lines[1..]);
    }
  }

  /** The ref a peel line would go to is that of the nearest well-formed line, with that line's id. */
  lemma {:induction false} LastIsNearestGood(st: Scan, lines: seq<string>)
    requires Sane(st)
    ensures var good := NearestGood(lines);
            var end := ScanAll(st, lines);
            if good.Some? then
              && Good(good.value)
              && end.last == Some(Fields(good.value).value.1)
              && end.last.value in end.byName && end.byName[end.last.value].oid == Fields(good.value).value.0
            else end.last == st.last
    decreases |lines|
  {
    if lines == [] {
    } else {
      var front, line := lines[..|lines| - 1], lines[|lines| - 1];
      assert lines == front + [line];
      ScanOneMore(st, front, line);
      LastIsNearestGood(st, front);
      SaneAfter(st, front);
      if Good(line) {
        GoodLineIsTaken(ScanAll(st, front), line);
      } else {
        BadLineKeepsLast(ScanAll(st, front), line);
      }
    }
  }

  lemma GoodLineIsTaken(st: Scan, line: string)
    requires Good(line)
    ensures ScanLine(st, line) == Scan(st.byName[Fields(line).value.1 := Entry(Fields(line).value.0, None)], Some(Fields(line).value.1))
  {
  }

  lemma BadLineKeepsLast(st: Scan, line: string)
    requires !Good(line)
    ensures ScanLine(st, line).last == st.last
    ensures forall n :: n in st.byName ==> n in ScanLine(st, line).byName && ScanLine(st, line).byName[n].oid == st.byName[n].oid
  {
  }

  lemma {:induction false} NearestAgree(lines: seq<string>)
    ensures NearestEntry(lines).Some? && Good(NearestEntry(lines).value) ==> NearestGood(lines) == NearestEntry(lines)
    decreases |lines|
  {
    if lines != [] {
      NearestAgree(lines[..|lines| - 1]);
    }
  }

  /** Exactly what a valid peel line does: it marks the ref of the nearest well-formed line, and nothing else. */
  lemma PeelGoesToNearestGood(st: Scan, lines: seq<string>, peel: string)
    requires Sane(st) && PeelLine(peel)
    ensures var before, end := ScanAll(st, lines), ScanAll(st, lines + [peel]);
            var target := if NearestGood(lines).Some? then Some(Fields(NearestGood(lines).value).value.1) else st.last;
            && (target.Some? ==> target.value in before.byName)
            && end.byName == if target.None? then before.byName
                             else before.byName[target.value := before.byName[target.value].(peeled := Some(Trim(peel[1..])))]
  {
    ScanOneMore(st, lines, peel);
    LastIsNearestGood(st, lines);
    SaneAfter(st, lines);
  }

  /** The entry that `line` made, with the peeled id `p` attached. */
  ghost predicate PeelAttached(end: Scan, line: string, p: Oid)
    requires Fields(line).Some?
  {
    Fields(line).value.1 in end.byName && end.byName[Fields(line).value.1] == Entry(Fields(line).value.0, Some(p))
  }

  /**
   When a peel line ends up where it was written: it is attached to the entry line right before it, if
   and only if that line passes both validators. Otherwise it goes to the nearest one that did.
   */
  lemma PeelAttachedIffGood(st: Scan, lines: seq<string>, peel: string)
    requires Sane(st) && PeelLine(peel) && NearestEntry(lines).Some?
    ensures PeelAttached(ScanAll(st, lines + [peel]), NearestEntry(lines).value, Trim(peel[1..])) <==> Good(NearestEntry(lines).value)
  {
    NearestAgree(lines);
    SaneAfter(st, lines + [peel]);
    PeelGoesToNearestGood(st, lines, peel);
    LastIsNearestGood(st, lines);
  }

  // ── the readers on the text of the files ─────────────────────────────

  /** A symbolic HEAD as git writes it is followed to its target, unless the target ends in white space. */
  lemma SymbolicHeadIff(dir: GitDir, target: string)
    requires HEAD in dir && dir[HEAD] == "ref: " + target + "\n" && ValidRefName(target) && IsLoose(target)
    ensures HeadOf(dir) == Ok(Target(dir, target)) <==> !IsSpace(target[|target| - 1])
  {
    var raw := dir[HEAD];
    assert target[0] == "refs/"[0];
    if IsSpace(target[|target| - 1]) {
      var text := Trim(raw);
      if StartsWith(text, REF) {
        TrimEdges(text[|REF|..]);
        assert Trim(text[|REF|..]) != target;
      }
    } else {
      var line := "ref: " + target;
      assert raw == line + "\n" && line[0] == 'r' && line[|line| - 1] == target[|target| - 1];
      TrimLine(line);
      assert StartsWith(line, REF) && line[|REF|..] == target;
      TrimPlain(target);
    }
  }

  lemma TrimPlain(s: string)
    requires s != "" && !IsSpace(s[0]) && !IsSpace(s[|s| - 1])
    ensures Trim(s) == s
  {
  }

  /**
   The reader's own answer for such a HEAD: the enumerated ref if there is one and otherwise unborn, if
   and only if a good loose file decides, or the first and the last good packed line of the target agree.
   */
  lemma SymbolicHeadReads(dir: GitDir, target: string)
    requires HEAD in dir && dir[HEAD] == "ref: " + target + "\n" && ValidRefName(target) && IsLoose(target)
    requires !IsSpace(target[|target| - 1])
    ensures HeadOf(dir) == Ok(if target in RefMap(dir) then Symbolic(target, RefMap(dir)[target].oid) else Unborn(target))
            <==> LooseOid(dir, target).Some? || FirstValid(PackedLines(dir), target) == LastValid(PackedLines(dir), target)
  {
    SymbolicHeadIff(dir, target);
    HeadAgreesIff(dir, target);
  }

  /** A HEAD of one object id is detached there. */
  lemma DetachedHeadReads(dir: GitDir, oid: Oid)
    requires HEAD in dir && dir[HEAD] == oid + "\n" && ValidOid(oid)
    ensures HeadOf(dir) == Ok(Detached(oid))
  {
    NoSpaceInOid(oid);
    TrimLine(oid);
    assert oid[0] != 'r';
  }

  lemma NoSpaceInOid(oid: Oid)
    requires ValidOid(oid)
    ensures !IsSpace(oid[0]) && !IsSpace(oid[|oid| - 1]) && oid[0] != 'r'
  {
  }

  /** Every other HEAD is an error of its own. */
  lemma BadHeads(dir: GitDir, line: string)
    requires HEAD in dir ==> dir[HEAD] == line + "\n" && line != "" && !IsSpace(line[0]) && !IsSpace(line[|line| - 1])
    ensures HEAD !in dir ==> HeadOf(dir) == Err(Unreadable)
    ensures HEAD in dir && !("ref: " <= line) && !ValidOid(line) ==> HeadOf(dir) == Err(Unrecognised)
    ensures HEAD in dir && "ref: " <= line && !ValidRefName(Trim(line[5..])) ==> HeadOf(dir) == Err(InvalidRefName)
  {
    if HEAD in dir {
      TrimLine(line);
    }
  }

  /** One loose file with an id decides for all readers, whatever is packed. */
  lemma LooseFileReads(dir: GitDir, name: string, oid: Oid)
    requires name in dir && dir[name] == oid + "\n" && ValidOid(oid) && IsLoose(name) && ValidRefName(name)
    ensures name in RefMap(dir) && RefMap(dir)[name] == Entry(oid, None)
    ensures name in ListedMap(dir) && ListedMap(dir)[name] == oid
    ensures Target(dir, name) == Symbolic(name, oid)
  {
    NoSpaceInOid(oid);
    TrimLine(oid);
    assert LooseOid(dir, name) == Some(oid);
    assert Listed(dir, name) == Some(oid);
  }

  /** One packed line does, where there is no loose file. */
  lemma PackedLineReads(dir: GitDir, name: string, oid: Oid)
    requires PACKED in dir && dir[PACKED] == oid + " " + name + "\n" && ValidOid(oid) && ValidRefName(name) && IsLoose(name)
    requires name !in dir && PlainLine(oid + " " + name)
    ensures name in RefMap(dir) && RefMap(dir)[name] == Entry(oid, None)
    ensures name in ListedMap(dir) && ListedMap(dir)[name] == oid
    ensures Target(dir, name) == Symbolic(name, oid)
  {
    var line := oid + " " + name;
    LinesCons(line, "");
    assert line + "\n" + "" == dir[PACKED];
    assert PackedLines(dir) == [line];
    OidHasNoSpace(oid);
    SplitAt(oid, ' ', name);
    assert line == oid + [' '] + name && line[0] == oid[0] && oid[0] != '#' && oid[0] != '^';
    assert Fields(line) == Some((oid, name));
    assert [line][1..] == [];
    assert ScanAll(START, [line]) == ScanAll(ScanLine(START, line), []);
    assert FirstNamed([line], name) == Some(oid) && FirstValid([line], name) == Some(oid);
    FirstNamedIn([line], name);
    assert Listed(dir, name) == Some(oid);
  }

  lemma OidHasNoSpace(oid: Oid)
    requires ValidOid(oid)
    ensures ' ' !in oid
  {
  }

  /** A packed-refs file of a header and one line is listed as that one ref; the header names nothing. */
  lemma HeaderNamesNothing(dir: GitDir, name: string, oid: Oid, n: string)
    requires PACKED in dir && dir[PACKED] == "# pack-refs with: peeled fully-peeled sorted" + "\n" + (oid + " " + name + "\n" + "")
    requires ValidOid(oid) && PlainLine(oid + " " + name) && forall p :: p in dir ==> !IsLoose(p)
    ensures n in ListedMap(dir) <==> n == name
    ensures n == name ==> ListedMap(dir)[n] == oid
  {
    var head, line := "# pack-refs with: peeled fully-peeled sorted", oid + " " + name;
    assert head[0] == '#' && head[|head| - 1] == 'd';
    HeaderIsPlain(head);
    LinesCons(head, line + "\n" + "");
    LinesCons(line, "");
    assert PackedLines(dir) == [head, line];
    OidHasNoSpace(oid);
    SplitAt(oid, ' ', name);
    assert line == oid + [' '] + name && line[0] == oid[0] && oid[0] != '#' && oid[0] != '^';
    assert Fields(head).None? && Fields(line) == Some((oid, name));
    assert [head, line][1..] == [line] && [line][1..] == [];
    assert FirstNamed([line], n) == if n == name then Some(oid) else None;
    FirstNamedIn([head, line], n);
    assert Listed(dir, n) == if n == name then Some(oid) else None;
  }

  lemma HeaderIsPlain(head: string)
    requires head == "# pack-refs with: peeled fully-peeled sorted"
    ensures PlainLine(head)
  {
    assert |head| == 44;
    assert forall i :: 0 <= i < 44 ==> head[i] != '\n';
  }

  // ── what is never enumerated ─────────────────────────────────────────

  ghost predicate AllValid(byName: map<string, Entry>) {
    forall n :: n in byName ==>
      ValidRefName(n) && ValidOid(byName[n].oid) && (byName[n].peeled.Some? ==> ValidOid(byName[n].peeled.value))
  }

  lemma {:induction false} ScanIsValid(st: Scan, lines: seq<string>)
    requires AllValid(st.byName)
    ensures AllValid(ScanAll(st, lines).byName)
    decreases |lines|
  {
    if lines != [] {
      hide ValidRefName, ValidOid;
      ScanIsValid(ScanLine(st, lines[0]), lines[1..]);
    }
  }

  /** Only acceptable names are enumerated, with well-formed ids. */
  lemma EnumeratedIsValid(dir: GitDir)
    ensures AllValid(RefMap(dir))
  {
    hide ValidRefName, ValidOid;
    ScanIsValid(START, PackedLines(dir));
  }
}
