/** Maps turned into lists sorted by name. */
module SortedRefs {
  import opened Text

  datatype Named<T> = Named(name: string, value: T)

  predicate SortedByName<T>(list: seq<Named<T>>) {
    forall i, j :: 0 <= i < j < |list| ==> Less(list[i].name, list[j].name)
  }

  predicate Covers<T(==)>(list: seq<Named<T>>, m: map<string, T>) {
    && (forall i :: 0 <= i < |list| ==> list[i].name in m && m[list[i].name] == list[i].value)
    && (forall n :: n in m ==> Named(n, m[n]) in list)
  }

  /** `list` is the map `m` in the order of its names. */
  predicate Lists<T(==)>(list: seq<Named<T>>, m: map<string, T>) {
    SortedByName(list) && Covers(list, m)
  }

  /** Position of the first name that is not smaller. */
  method Place<T>(list: seq<Named<T>>, name: string) returns (at: nat)
    requires SortedByName(list)
    ensures at <= |list|
    ensures forall i :: 0 <= i < at ==> Less(list[i].name, name)
    ensures forall i :: at <= i < |list| ==> !Less(list[i].name, name)
  {
    at := 0;
    while at < |list| && Less(list[at].name, name)
      invariant at <= |list|
      invariant forall i :: 0 <= i < at ==> Less(list[i].name, name)
    {
      at := at + 1;
    }
    forall i | at <= i < |list| ensures !Less(list[i].name, name) {
      if at < i && Less(list[i].name, name) {
        LessTransitive(list[at].name, list[i].name, name);
      }
    }
  }

  lemma InsertKeepsOrder<T>(list: seq<Named<T>>, at: nat, e: Named<T>)
    requires SortedByName(list) && at <= |list|
    requires forall i :: 0 <= i < at ==> Less(list[i].name, e.name)
    requires forall i :: at <= i < |list| ==> Less(e.name, list[i].name)
    ensures SortedByName(list[..at] + [e] + list[at..])
  {
    var out := list[..at] + [e] + list[at..];
    forall i, j | 0 <= i < j < |out| ensures Less(out[i].name, out[j].name) {
      if i < at && j > at {
        LessTransitive(list[i].name, e.name, list[j - 1].name);
      }
    }
  }

  lemma InsertCovers<T>(list: seq<Named<T>>, m: map<string, T>, at: nat, e: Named<T>)
    requires Covers(list, m) && at <= |list| && e.name !in m
    ensures Covers(list[..at] + [e] + list[at..], m[e.name := e.value])
  {
    var out, m' := list[..at] + [e] + list[at..], m[e.name := e.value];
    assert out[at] == e;
    forall n | n in m' ensures Named(n, m'[n]) in out {
      if n != e.name {
        var k :| 0 <= k < |list| && list[k] == Named(n, m[n]);
        assert out[if k < at then k else k + 1] == list[k];
      }
    }
  }

  method Insert<T>(list: seq<Named<T>>, e: Named<T>, ghost m: map<string, T>) returns (out: seq<Named<T>>)
    requires Lists(list, m) && e.name !in m
    ensures Lists(out, m[e.name := e.value])
  {
    var at := Place(list, e.name);
    forall i | at <= i < |list| ensures Less(e.name, list[i].name) {
      LessTotal(e.name, list[i].name);
    }
    InsertKeepsOrder(list, at, e);
    InsertCovers(list, m, at, e);
    out := list[..at] + [e] + list[at..];
  }

  /** Collect the entries in any order, then sort them by name. */
  method Sorted<T>(m: map<string, T>) returns (out: seq<Named<T>>)
    ensures Lists(out, m)
  {
    out := [];
    var todo := m.Keys;
    ghost var done: map<string, T> := map[];
    while todo != {}
      invariant todo <= m.Keys
      invariant done == map n | n in m && n !in todo :: m[n]
      invariant Lists(out, done)
      decreases |todo|
    {
      var n :| n in todo;
      out := Insert(out, Named(n, m[n]), done);
      done := done[n := m[n]];
      todo := todo - {n};
    }
    assert done == m;
  }

  ghost predicate DistinctNames<T>(list: seq<Named<T>>) {
    forall i, j :: 0 <= i < j < |list| ==> list[i].name != list[j].name
  }

  /** Sort a list without repeated names in which `m` was collected. */
  method SortByName<T>(list: seq<Named<T>>, ghost m: map<string, T>) returns (out: seq<Named<T>>)
    requires DistinctNames(list) && Covers(list, m)
    ensures Lists(out, m)
  {
    out := [];
    ghost var done: map<string, T> := map[];
    for k := 0 to |list|
      invariant Lists(out, done)
      invariant forall n :: n in done ==> n in m && done[n] == m[n] && exists i :: 0 <= i < k && list[i].name == n
      invariant forall i :: 0 <= i < k ==> list[i].name in done
    {
      out := Insert(out, list[k], done);
      done := done[list[k].name := list[k].value];
    }
    assert done == m by {
      forall n | n in m ensures n in done {
        assert Named(n, m[n]) in list;
      }
    }
  }

  /** The sorted list of a map is unique, so the order of collection does not show. */
  lemma {:induction false} SortedListIsUnique<T>(a: seq<Named<T>>, b: seq<Named<T>>, m: map<string, T>)
    requires Lists(a, m) && Lists(b, m)
    ensures a == b
  {
    if a == [] || b == [] {
      assert a != [] ==> a[0].name in m;
      assert b != [] ==> b[0].name in m;
    } else {
      SameHead(a, b, m);
      var rest := m - {a[0].name};
      TailLists(a, m);
      TailLists(b, m);
      SortedListIsUnique(a[1..], b[1..], rest);
      assert a == [a[0]] + a[1..] && b == [b[0]] + b[1..];
    }
  }

  lemma SameHead<T>(a: seq<Named<T>>, b: seq<Named<T>>, m: map<string, T>)
    requires Lists(a, m) && Lists(b, m) && a != [] && b != []
    ensures a[0] == b[0]
  {
    assert b[0] in a && a[0] in b;
    var i :| 0 <= i < |a| && a[i] == b[0];
    var j :| 0 <= j < |b| && b[j] == a[0];
    if i > 0 && j > 0 {
      LessTransitive(a[0].name, b[0].name, a[0].name);
      LessIrreflexive(a[0].name);
      assert false;
    }
  }

  lemma TailLists<T>(a: seq<Named<T>>, m: map<string, T>)
    requires Lists(a, m) && a != []
    ensures Lists(a[1..], m - {a[0].name})
  {
    forall i | 1 <= i < |a| ensures a[i].name != a[0].name {
      LessIrreflexive(a[0].name);
    }
    forall n | n in m - {a[0].name} ensures Named(n, m[n]) in a[1..] {
      var k :| 0 <= k < |a| && a[k] == Named(n, m[n]);
      assert a[1..][k - 1] == a[k];
    }
  }
}
