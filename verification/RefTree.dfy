/** The directory tree below `refs/` and the files found in it. */
module RefTree {
  import opened Base

  /** A file whose content is not text reads as none. */
  datatype Node = File(text: Option<string>) | Dir(entries: seq<TreeEntry>)

  datatype TreeEntry = TreeEntry(name: string, node: Node)

  /** A readable file by its path. */
  type Found = (string, string)

  function Under(path: string, name: string): string {
    path + "/" + name
  }

  function Files(path: string, node: Node): seq<Found>
    decreases node
  {
    match node
    case File(Some(text)) => [(path, text)]
    case File(None) => []
    case Dir(entries) => FilesIn(path, entries)
  }

  function FilesIn(path: string, entries: seq<TreeEntry>): seq<Found>
    decreases entries
  {
    if entries == [] then []
    else Files(Under(path, entries[0].name), entries[0].node) + FilesIn(path, entries[1..])
  }

  function Nodes(node: Node): nat
    decreases node
  {
    match node
    case File(_) => 1
    case Dir(entries) => 1 + NodesIn(entries)
  }

  function NodesIn(entries: seq<TreeEntry>): nat
    decreases entries
  {
    if entries == [] then 0 else Nodes(entries[0].node) + NodesIn(entries[1..])
  }

  lemma {:induction false} PathsBelow(path: string, node: Node, f: Found)
    requires f in Files(path, node)
    ensures path <= f.0
    decreases node
  {
    if node.Dir? {
      PathsIn(path, node.entries, f);
    }
  }

  lemma {:induction false} PathsIn(path: string, entries: seq<TreeEntry>, f: Found)
    requires f in FilesIn(path, entries)
    ensures path + "/" <= f.0
    decreases entries
  {
    var p := Under(path, entries[0].name);
    if f in Files(p, entries[0].node) {
      PathsBelow(p, entries[0].node, f);
      assert f.0[..|p|] == p && p[..|path| + 1] == path + "/";
    } else {
      PathsIn(path, entries[1..], f);
    }
  }

  lemma FilesFrom(path: string, entries: seq<TreeEntry>, i: nat)
    requires i < |entries|
    ensures FilesIn(path, entries[i..]) == Files(Under(path, entries[i].name), entries[i].node) + FilesIn(path, entries[i + 1..])
    ensures NodesIn(entries[i..]) == Nodes(entries[i].node) + NodesIn(entries[i + 1..])
  {
    assert entries[i..][1..] == entries[i + 1..];
  }

  // ── directories still to be read ─────────────────────────────────────

  type Stack = seq<(string, seq<TreeEntry>)>

  function FilesOf(stack: Stack): seq<Found> {
    if stack == [] then []
    else FilesOf(stack[..|stack| - 1]) + FilesIn(stack[|stack| - 1].0, stack[|stack| - 1].1)
  }

  function SizeOf(stack: Stack): nat {
    if stack == [] then 0 else SizeOf(stack[..|stack| - 1]) + 1 + NodesIn(stack[|stack| - 1].1)
  }

  lemma PushDir(stack: Stack, path: string, entries: seq<TreeEntry>)
    ensures FilesOf(stack + [(path, entries)]) == FilesOf(stack) + FilesIn(path, entries)
    ensures SizeOf(stack + [(path, entries)]) == SizeOf(stack) + 1 + NodesIn(entries)
  {
    assert (stack + [(path, entries)])[..|stack|] == stack;
  }

  // ── exactly what is found ────────────────────────────────────────────

  /** Following `names` down from a directory with these entries leads to a file with this text. */
  ghost predicate Leads(entries: seq<TreeEntry>, names: seq<string>, text: string)
    decreases |names|, 1
  {
    names != [] && exists i :: 0 <= i < |entries| && LeadsThrough(entries[i], names, text)
  }

  ghost predicate LeadsThrough(entry: TreeEntry, names: seq<string>, text: string)
    requires names != []
    decreases |names|, 0
  {
    && entry.name == names[0]
    && if |names| == 1 then entry.node == File(Some(text)) else entry.node.Dir? && Leads(entry.node.entries, names[1..], text)
  }

  /** The names joined by slashes behind `path`. */
  function PathTo(path: string, names: seq<string>): string
    decreases |names|
  {
    if names == [] then path else PathTo(path + "/" + names[0], names[1..])
  }

  lemma {:induction false} EntryFiles(path: string, entries: seq<TreeEntry>, f: Found)
    ensures f in FilesIn(path, entries) <==>
            exists i :: 0 <= i < |entries| && f in Files(path + "/" + entries[i].name, entries[i].node)
    decreases |entries|
  {
    if entries != [] {
      EntryFiles(path, entries[1..], f);
      assert forall i :: 0 <= i < |entries| - 1 ==> entries[1..][i] == entries[i + 1];
      if exists i :: 0 <= i < |entries| && f in Files(path + "/" + entries[i].name, entries[i].node) {
        var i :| 0 <= i < |entries| && f in Files(path + "/" + entries[i].name, entries[i].node);
        assert i > 0 ==> f in Files(path + "/" + entries[1..][i - 1].name, entries[1..][i - 1].node);
      }
    }
  }

  /** A file is found if some way down the directories leads to it, under the path of that way. */
  lemma {:induction false} WayIsFound(path: string, entries: seq<TreeEntry>, names: seq<string>, text: string)
    requires Leads(entries, names, text)
    ensures (PathTo(path, names), text) in FilesIn(path, entries)
    decreases |names|
  {
    var i :| 0 <= i < |entries| && LeadsThrough(entries[i], names, text);
    var p := path + "/" + names[0];
    if |names| == 1 {
      assert names[1..] == [];
      assert (p, text) in Files(p, entries[i].node);
    } else {
      WayIsFound(p, entries[i].node.entries, names[1..], text);
    }
    EntryFiles(path, entries, (PathTo(path, names), text));
  }

  /** And only then. */
  lemma {:induction false} FoundHasAWay(path: string, entries: seq<TreeEntry>, f: Found) returns (names: seq<string>)
    requires f in FilesIn(path, entries)
    ensures Leads(entries, names, f.1) && f.0 == PathTo(path, names)
    decreases entries
  {
    EntryFiles(path, entries, f);
    var i :| 0 <= i < |entries| && f in Files(path + "/" + entries[i].name, entries[i].node);
    var p := path + "/" + entries[i].name;
    match entries[i].node
    case File(_) =>
      names := [entries[i].name];
      assert names[1..] == [] && LeadsThrough(entries[i], names, f.1);
    case Dir(more) =>
      var rest := FoundHasAWay(p, more, f);
      names := [entries[i].name] + rest;
      assert names[1..] == rest && LeadsThrough(entries[i], names, f.1);
  }

  lemma FoundIff(path: string, entries: seq<TreeEntry>, f: Found)
    ensures f in FilesIn(path, entries) <==> exists names :: Leads(entries, names, f.1) && f.0 == PathTo(path, names)
  {
    if f in FilesIn(path, entries) {
      var names := FoundHasAWay(path, entries, f);
    }
    if exists names :: Leads(entries, names, f.1) && f.0 == PathTo(path, names) {
      var names :| Leads(entries, names, f.1) && f.0 == PathTo(path, names);
      WayIsFound(path, entries, names, f.1);
    }
  }
}
