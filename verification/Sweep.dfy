/**
 One collection pass over the loose objects of a repository, run by itself: reachability over the
 whole fork network, then an age-guarded deletion of everything unreachable.
 */
module Sweep {
  import opened Base
  import opened ForkRelation
  import opened SortedRefs
  import opened Text
  import Collector
  import CollectorSafety
  import CollectorLimits

  datatype Info = Info(size: nat, created: int)

  type Loose = map<Oid, Info>

  // ── the loose store ──────────────────────────────────────────────────

  datatype Deletion = Removed | AlreadyGone | Failed

  /** The objects shown by a listing. */
  ghost function Shown(infos: seq<(Oid, Info)>): Loose {
    if infos == [] then map[]
    else Shown(infos[..|infos| - 1])[infos[|infos| - 1].0 := infos[|infos| - 1].1]
  }

  /** Every loose object once. */
  ghost predicate ListingOf(infos: seq<(Oid, Info)>, loose: Loose) {
    Shown(infos) == loose && forall i :: 0 <= i < |infos| ==> infos[i].0 !in Shown(infos[..i])
  }

  lemma ShownOneMore(infos: seq<(Oid, Info)>, i: nat)
    requires i < |infos|
    ensures Shown(infos[..i + 1]) == Shown(infos[..i])[infos[i].0 := infos[i].1]
  {
    assert infos[..i + 1][..i] == infos[..i];
  }

  lemma ListingOneMore(infos: seq<(Oid, Info)>, loose: Loose, o: Oid, info: Info)
    requires ListingOf(infos, loose) && o !in loose
    ensures ListingOf(infos + [(o, info)], loose[o := info])
  {
    var more := infos + [(o, info)];
    assert more[..|infos|] == infos;
    forall i | 0 <= i < |more| ensures more[i].0 !in Shown(more[..i]) {
      if i < |infos| {
        assert more[..i] == infos[..i];
      }
    }
  }

  class ObjectStore {
    var loose: Loose

    constructor (loose: Loose)
      ensures this.loose == loose
    {
      this.loose := loose;
    }

    /** All loose objects, in no particular order. */
    method ListLoose() returns (infos: seq<(Oid, Info)>)
      ensures ListingOf(infos, loose)
    {
      infos := [];
      var todo := loose.Keys;
      ghost var done: Loose := map[];
      while todo != {}
        invariant todo <= loose.Keys
        invariant done == map o | o in loose && o !in todo :: loose[o]
        invariant ListingOf(infos, done)
        decreases |todo|
      {
        var o :| o in todo;
        ListingOneMore(infos, done, o, loose[o]);
        infos := infos + [(o, loose[o])];
        done := done[o := loose[o]];
        todo := todo - {o};
      }
      assert done == loose;
    }

    /** `stuck` tells whether unlinking fails, for instance for lack of permission. */
    method DeleteLoose(oid: Oid, stuck: bool) returns (d: Deletion)
      modifies this
      ensures d == if oid !in old(loose) then AlreadyGone else if stuck then Failed else Removed
      ensures loose == if d == Removed then old(loose) - {oid} else old(loose)
    {
      if oid !in loose {
        return AlreadyGone;
      }
      if stuck {
        return Failed;
      }
      loose := loose - {oid};
      return Removed;
    }
  }

  // ── bytes ────────────────────────────────────────────────────────────

  ghost function Bytes(m: Loose): nat
    decreases |m|
  {
    if m == map[] then 0
    else
      var o :| o in m;
      m[o].size + Bytes(m - {o})
  }

  /** The order of summation does not matter. */
  lemma {:induction false} BytesWithout(m: Loose, o: Oid)
    requires o in m
    ensures Bytes(m) == m[o].size + Bytes(m - {o})
    decreases |m|
  {
    var p :| p in m && Bytes(m) == m[p].size + Bytes(m - {p});
    if p != o {
      BytesWithout(m - {p}, o);
      BytesWithout(m - {o}, p);
      assert m - {p} - {o} == m - {o} - {p};
    }
  }

  lemma BytesWith(m: Loose, o: Oid, info: Info)
    requires o !in m
    ensures Bytes(m[o := info]) == Bytes(m) + info.size
  {
    BytesWithout(m[o := info], o);
    assert m[o := info] - {o} == m;
  }

  lemma {:induction false} BytesSplit(m: Loose, part: Loose)
    requires forall o :: o in part ==> o in m && m[o] == part[o]
    ensures Bytes(m) == Bytes(part) + Bytes(m - part.Keys)
    decreases |part|
  {
    if part == map[] {
      assert m - part.Keys == m;
    } else {
      var o :| o in part;
      var part' := part - {o};
      BytesSplit(m, part');
      BytesWithout(part, o);
      BytesWithout(m - part'.Keys, o);
      assert m - part'.Keys - {o} == m - part.Keys;
    }
  }

  // ── reachability ─────────────────────────────────────────────────────

  /** What one repository's refs reach, or a failed walk. */
  type Scan = RepoId -> Option<set<Oid>>

  ghost function Reachable(network: seq<RepoId>, scan: Scan): set<Oid> {
    set m, o | m in network && scan(m).Some? && o in scan(m).value :: o
  }

  ghost predicate AllScanned(network: seq<RepoId>, scan: Scan) {
    forall m :: m in network ==> scan(m).Some?
  }

  method ScanNetwork(network: seq<RepoId>, scan: Scan) returns (r: Option<set<Oid>>)
    ensures r.Some? <==> AllScanned(network, scan)
    ensures r.Some? ==> r.value == Reachable(network, scan)
  {
    var reach: set<Oid> := {};
    for i := 0 to |network|
      invariant AllScanned(network[..i], scan)
      invariant reach == Reachable(network[..i], scan)
    {
      assert network[..i + 1] == network[..i] + [network[i]];
      match scan(network[i]) {
        case None => return None;
        case Some(oids) => reach := reach + oids;
      }
    }
    assert network[..|network|] == network;
    return Some(reach);
  }

  // ── preview ──────────────────────────────────────────────────────────

  const SAMPLE_CAP := 32

  datatype GcPreview = GcPreview(
    network: seq<RepoId>,
    reachable: nat,
    looseOnDisk: nat,
    unreachableLoose: nat,
    unreachableBytes: nat,
    sample: seq<Oid>
  )

  function Unreachable(loose: Loose, reach: set<Oid>): Loose {
    map o | o in loose && o !in reach :: loose[o]
  }

  ghost predicate SampleOf(sample: seq<Oid>, unreachable: Loose) {
    && NoDup(sample) && (forall o :: o in sample ==> o in unreachable)
    && |sample| == if |unreachable| < SAMPLE_CAP then |unreachable| else SAMPLE_CAP
  }

  ghost predicate PreviewOf(p: GcPreview, loose: Loose, reach: set<Oid>) {
    && p.reachable == |reach|
    && p.looseOnDisk == |loose|
    && p.unreachableLoose == |Unreachable(loose, reach)|
    && p.unreachableBytes == Bytes(Unreachable(loose, reach))
    && SampleOf(p.sample, Unreachable(loose, reach))
  }

  lemma {:induction false} ListingLength(infos: seq<(Oid, Info)>, i: nat)
    requires i <= |infos| && ListingOf(infos, Shown(infos))
    ensures |Shown(infos[..i])| == i
    decreases i
  {
    hide Shown;
    if i > 0 {
      ListingLength(infos, i - 1);
      ShownOneMore(infos, i - 1);
    } else {
      NothingShown(infos);
    }
  }

  lemma NothingShown(infos: seq<(Oid, Info)>)
    ensures Shown(infos[..0]) == map[]
  {
  }

  lemma UnreachableOneMore(m: Loose, o: Oid, info: Info, reach: set<Oid>)
    requires o !in m
    ensures Unreachable(m[o := info], reach) == if o in reach then Unreachable(m, reach) else Unreachable(m, reach)[o := info]
  {
  }

  lemma SampleOneMore(sample: seq<Oid>, m: Loose, o: Oid, info: Info)
    requires SampleOf(sample, m) && o !in m
    ensures SampleOf(if |sample| < SAMPLE_CAP then sample + [o] else sample, m[o := info])
  {
    assert m[o := info].Keys == m.Keys + {o};
    assert |m[o := info]| == |m| + 1;
  }

  method CountUnreachable(infos: seq<(Oid, Info)>, ghost loose: Loose, reach: set<Oid>)
    returns (count: nat, bytes: nat, sample: seq<Oid>)
    requires ListingOf(infos, loose)
    ensures count == |Unreachable(loose, reach)| && bytes == Bytes(Unreachable(loose, reach))
    ensures SampleOf(sample, Unreachable(loose, reach))
  {
    count, bytes, sample := 0, 0, [];
    ghost var found: Loose := map[];
    for i := 0 to |infos|
      invariant found == Unreachable(Shown(infos[..i]), reach)
      invariant count == |found| && bytes == Bytes(found) && SampleOf(sample, found)
    {
      var (oid, info) := infos[i];
      ShownOneMore(infos, i);
      UnreachableOneMore(Shown(infos[..i]), oid, info, reach);
      if oid !in reach {
        BytesWith(found, oid, info);
        SampleOneMore(sample, found, oid, info);
        count := count + 1;
        bytes := bytes + info.size;
        if |sample| < SAMPLE_CAP {
          sample := sample + [oid];
        }
        found := found[oid := info];
      }
    }
    assert infos[..|infos|] == infos;
  }

  ghost predicate Ascending(ids: seq<RepoId>) {
    forall i, j :: 0 <= i < j < |ids| ==> Less(ids[i], ids[j])
  }

  method SortIds(ids: seq<RepoId>) returns (sorted: seq<RepoId>)
    requires NoDup(ids)
    ensures Ascending(sorted) && forall x :: x in sorted <==> x in ids
  {
    var entries := seq(|ids|, i requires 0 <= i < |ids| => Named(ids[i], ()));
    ghost var members := map x | x in ids :: ();
    forall x | x in members ensures Named(x, ()) in entries {
      var i :| 0 <= i < |ids| && ids[i] == x;
      assert entries[i] == Named(x, ());
    }
    var list := SortByName(entries, members);
    sorted := seq(|list|, i requires 0 <= i < |list| => list[i].name);
    forall x | x in ids ensures x in sorted {
      assert x in members && Named(x, members[x]) in list;
      var k :| 0 <= k < |list| && list[k] == Named(x, members[x]);
      assert sorted[k] == x;
    }
  }

  method Preview(dir: seq<RepoId>, src: Sources, seed: RepoId, scan: Scan, store: ObjectStore) returns (r: Option<GcPreview>)
    requires Listing(dir, src)
    ensures r.None? <==> exists m :: Connected(src, seed, m) && scan(m).None?
    ensures r.Some? ==>
              && Ascending(r.value.network)
              && (forall m :: m in r.value.network <==> Connected(src, seed, m))
              && PreviewOf(r.value, store.loose, Reachable(r.value.network, scan))
  {
    var members := NetworkAround(dir, src, seed);
    var network := SortIds(members);
    var scanned := ScanNetwork(network, scan);
    if scanned.None? {
      return None;
    }
    var reach := scanned.value;
    var infos := store.ListLoose();
    ListingLength(infos, |infos|);
    assert infos[..|infos|] == infos;
    var count, bytes, sample := CountUnreachable(infos, store.loose, reach);
    return Some(GcPreview(network, |reach|, |infos|, count, bytes, sample));
  }

  // ── the pass itself ──────────────────────────────────────────────────

  /** The unsigned minimum age is reread as a signed number and subtracted with saturation. */
  function Cutoff(now: int, minAge: nat): int {
    var cutoff := now - Signed64(minAge);
    if cutoff < -TWO63 then -TWO63 else if cutoff >= TWO63 then TWO63 - 1 else cutoff
  }

  predicate TooYoung(info: Info, cutoff: int) {
    info.created > cutoff
  }

  /** What the pass removes. */
  ghost function Garbage(loose: Loose, reach: set<Oid>, cutoff: int, stuck: Oid -> bool): Loose {
    map o | o in loose && o !in reach && !TooYoung(loose[o], cutoff) && !stuck(o) :: loose[o]
  }

  ghost function Spared(loose: Loose, reach: set<Oid>, cutoff: int): Loose {
    map o | o in loose && o !in reach && TooYoung(loose[o], cutoff) :: loose[o]
  }

  ghost function Stuck(loose: Loose, reach: set<Oid>, cutoff: int, stuck: Oid -> bool): Loose {
    map o | o in loose && o !in reach && !TooYoung(loose[o], cutoff) && stuck(o) :: loose[o]
  }

  datatype GcResult = GcResult(preview: GcPreview, deleted: nat, deletedBytes: nat, skippedTooYoung: nat)

  lemma GarbageOneMore(m: Loose, o: Oid, info: Info, reach: set<Oid>, cutoff: int, stuck: Oid -> bool)
    requires o !in m
    ensures Garbage(m[o := info], reach, cutoff, stuck) ==
            if o in reach || TooYoung(info, cutoff) || stuck(o) then Garbage(m, reach, cutoff, stuck)
            else Garbage(m, reach, cutoff, stuck)[o := info]
  {
  }

  lemma SparedOneMore(m: Loose, o: Oid, info: Info, reach: set<Oid>, cutoff: int)
    requires o !in m
    ensures Spared(m[o := info], reach, cutoff) ==
            if o in reach || !TooYoung(info, cutoff) then Spared(m, reach, cutoff) else Spared(m, reach, cutoff)[o := info]
  {
  }

  lemma ShownIsListed(infos: seq<(Oid, Info)>, loose: Loose, i: nat)
    requires ListingOf(infos, loose) && i < |infos|
    ensures infos[i].0 in loose && infos[i].0 !in Shown(infos[..i])
    decreases |infos| - i
  {
    ShownInLonger(infos, i, |infos|);
    assert infos[..|infos|] == infos;
  }

  lemma {:induction false} ShownInLonger(infos: seq<(Oid, Info)>, i: nat, j: nat)
    requires i < j <= |infos|
    ensures infos[i].0 in Shown(infos[..j])
    decreases j
  {
    ShownOneMore(infos, j - 1);
    if i < j - 1 {
      ShownInLonger(infos, i, j - 1);
    }
  }

  /** The delete loop so far: `seen` is the part of the listing it has gone through. */
  ghost predicate Progress(loose: Loose, seen: Loose, left: Loose, reach: set<Oid>, cutoff: int, stuck: Oid -> bool,
                           deleted: nat, deletedBytes: nat, skipped: nat)
  {
    var gone := Garbage(seen, reach, cutoff, stuck);
    left == loose - gone.Keys && deleted == |gone| && deletedBytes == Bytes(gone) && skipped == |Spared(seen, reach, cutoff)|
  }

  lemma ProgressKeeps(loose: Loose, seen: Loose, left: Loose, reach: set<Oid>, cutoff: int, stuck: Oid -> bool,
                      deleted: nat, deletedBytes: nat, skipped: nat, o: Oid, info: Info)
    requires Progress(loose, seen, left, reach, cutoff, stuck, deleted, deletedBytes, skipped) && o !in seen
    requires o in reach || TooYoung(info, cutoff) || stuck(o)
    ensures Progress(loose, seen[o := info], left, reach, cutoff, stuck, deleted, deletedBytes,
                     if o !in reach && TooYoung(info, cutoff) then skipped + 1 else skipped)
  {
    GarbageOneMore(seen, o, info, reach, cutoff, stuck);
    SparedOneMore(seen, o, info, reach, cutoff);
  }

  lemma ProgressRemoves(loose: Loose, seen: Loose, left: Loose, reach: set<Oid>, cutoff: int, stuck: Oid -> bool,
                        deleted: nat, deletedBytes: nat, skipped: nat, o: Oid, info: Info)
    requires Progress(loose, seen, left, reach, cutoff, stuck, deleted, deletedBytes, skipped) && o !in seen
    requires o !in reach && !TooYoung(info, cutoff) && !stuck(o)
    ensures Progress(loose, seen[o := info], left - {o}, reach, cutoff, stuck, deleted + 1, deletedBytes + info.size, skipped)
  {
    hide Bytes, Spared, TooYoung, Garbage;
    var gone := Garbage(seen, reach, cutoff, stuck);
    GarbageIsSeen(seen, reach, cutoff, stuck);
    GarbageOneMore(seen, o, info, reach, cutoff, stuck);
    SparedOneMore(seen, o, info, reach, cutoff);
    BytesWith(gone, o, info);
    SizeOneMore(gone, o, info);
    MinusOneMore(loose, gone.Keys, o);
  }

  lemma GarbageIsSeen(seen: Loose, reach: set<Oid>, cutoff: int, stuck: Oid -> bool)
    ensures Garbage(seen, reach, cutoff, stuck).Keys <= seen.Keys
  {
  }

  lemma SizeOneMore(gone: Loose, o: Oid, info: Info)
    requires o !in gone
    ensures gone[o := info].Keys == gone.Keys + {o} && |gone[o := info]| == |gone| + 1
  {
  }

  lemma MinusOneMore(loose: Loose, keys: set<Oid>, o: Oid)
    ensures loose - keys - {o} == loose - (keys + {o})
  {
  }

  lemma StillThere(loose: Loose, seen: Loose, left: Loose, reach: set<Oid>, cutoff: int, stuck: Oid -> bool,
                   deleted: nat, deletedBytes: nat, skipped: nat, o: Oid)
    requires Progress(loose, seen, left, reach, cutoff, stuck, deleted, deletedBytes, skipped) && o !in seen && o in loose
    ensures o in left
  {
  }

  method DeleteGarbage(store: ObjectStore, infos: seq<(Oid, Info)>, reach: set<Oid>, cutoff: int, stuck: Oid -> bool)
    returns (deleted: nat, deletedBytes: nat, skipped: nat)
    requires ListingOf(infos, store.loose)
    modifies store
    ensures Progress(old(store.loose), old(store.loose), store.loose, reach, cutoff, stuck, deleted, deletedBytes, skipped)
  {
    deleted, deletedBytes, skipped := 0, 0, 0;
    ghost var loose := store.loose;
    hide Progress, Shown, ListingOf;
    ProgressStart(infos, loose, reach, cutoff, stuck);
    for i := 0 to |infos|
      invariant Progress(loose, Shown(infos[..i]), store.loose, reach, cutoff, stuck, deleted, deletedBytes, skipped)
    {
      var (oid, info) := infos[i];
      ghost var seen := Shown(infos[..i]);
      ShownOneMore(infos, i);
      ShownIsListed(infos, loose, i);
      StillThere(loose, seen, store.loose, reach, cutoff, stuck, deleted, deletedBytes, skipped, oid);
      if oid in reach || info.created > cutoff || stuck(oid) {
        ProgressKeeps(loose, seen, store.loose, reach, cutoff, stuck, deleted, deletedBytes, skipped, oid, info);
      } else {
        ProgressRemoves(loose, seen, store.loose, reach, cutoff, stuck, deleted, deletedBytes, skipped, oid, info);
      }
      if oid in reach {
        continue;
      }
      if info.created > cutoff {
        skipped := skipped + 1;
        continue;
      }
      var d := store.DeleteLoose(oid, stuck(oid));
      match d {
        case Removed =>
          deleted := deleted + 1;
          deletedBytes := deletedBytes + info.size;
        case AlreadyGone =>
        case Failed =>
      }
    }
    ShownInFull(infos, loose);
  }

  lemma ShownInFull(infos: seq<(Oid, Info)>, loose: Loose)
    requires ListingOf(infos, loose)
    ensures Shown(infos[..|infos|]) == loose
  {
    assert infos[..|infos|] == infos;
  }

  lemma ProgressStart(infos: seq<(Oid, Info)>, loose: Loose, reach: set<Oid>, cutoff: int, stuck: Oid -> bool)
    ensures Progress(loose, Shown(infos[..0]), loose, reach, cutoff, stuck, 0, 0, 0)
  {
    NothingShown(infos);
  }

  /** No ref of the network of `seed` reaches `o`. */
  ghost predicate Unreached(src: Sources, seed: RepoId, scan: Scan, o: Oid) {
    forall m :: Connected(src, seed, m) ==> scan(m).None? || o !in scan(m).value
  }

  /** With a clock and a minimum age that fit, the removed objects by their age in seconds, and the spared ones. */
  lemma GarbageByAge(src: Sources, seed: RepoId, network: seq<RepoId>, scan: Scan, loose: Loose, now: int, minAge: nat, stuck: Oid -> bool)
    requires forall m :: m in network <==> Connected(src, seed, m)
    requires 0 <= now < TWO63 && minAge < TWO63
    ensures var reach := Reachable(network, scan);
            var cutoff := Cutoff(now, minAge);
            && (forall o :: o in Garbage(loose, reach, cutoff, stuck) <==>
                  o in loose && Unreached(src, seed, scan, o) && !stuck(o) && now - loose[o].created >= minAge)
            && (forall o :: o in Spared(loose, reach, cutoff) <==>
                  o in loose && Unreached(src, seed, scan, o) && now - loose[o].created < minAge)
  {
    var reach := Reachable(network, scan);
    forall o ensures o in reach <==> !Unreached(src, seed, scan, o) {
    }
    assert Cutoff(now, minAge) == now - minAge;
  }

  lemma CountsByAge(src: Sources, seed: RepoId, network: seq<RepoId>, scan: Scan, loose: Loose, now: int, minAge: nat, stuck: Oid -> bool)
    requires forall m :: m in network <==> Connected(src, seed, m)
    requires 0 <= now < TWO63 && minAge < TWO63
    ensures var reach := Reachable(network, scan);
            var cutoff := Cutoff(now, minAge);
            && |Garbage(loose, reach, cutoff, stuck)| ==
               |set o | o in loose && Unreached(src, seed, scan, o) && !stuck(o) && now - loose[o].created >= minAge|
            && |Spared(loose, reach, cutoff)| == |set o | o in loose && Unreached(src, seed, scan, o) && now - loose[o].created < minAge|
  {
    var reach := Reachable(network, scan);
    var cutoff := Cutoff(now, minAge);
    GarbageByAge(src, seed, network, scan, loose, now, minAge, stuck);
    var garbage, spared := Garbage(loose, reach, cutoff, stuck), Spared(loose, reach, cutoff);
    hide Garbage, Spared, Unreached, Reachable, Cutoff;
    assert garbage.Keys == set o | o in loose && Unreached(src, seed, scan, o) && !stuck(o) && now - loose[o].created >= minAge;
    assert spared.Keys == set o | o in loose && Unreached(src, seed, scan, o) && now - loose[o].created < minAge;
    assert |garbage| == |garbage.Keys| && |spared| == |spared.Keys|;
  }

  /**
   A whole pass. The store is listed and the network walked twice, for the preview and for the deletion;
   in between others may have changed the refs and turned the store into `between`. A walk that fails in
   either round removes nothing.
   */
  method Run(dir: seq<RepoId>, src: Sources, seed: RepoId, first: Scan, second: Scan, store: ObjectStore, between: Loose,
             now: int, minAge: nat, stuck: Oid -> bool)
    returns (r: Option<GcResult>)
    requires Listing(dir, src)
    modifies store
    ensures r.None? <==> exists m :: Connected(src, seed, m) && (first(m).None? || second(m).None?)
    ensures r.None? ==> store.loose == if exists m :: Connected(src, seed, m) && first(m).None? then old(store.loose) else between
    ensures r.Some? ==>
              var loose, cutoff := between, Cutoff(now, minAge);
              var reach := Reachable(r.value.preview.network, second);
              && (forall m :: m in r.value.preview.network <==> Connected(src, seed, m))
              && PreviewOf(r.value.preview, old(store.loose), Reachable(r.value.preview.network, first))
              && store.loose == loose - Garbage(loose, reach, cutoff, stuck).Keys
              && r.value.deleted == |Garbage(loose, reach, cutoff, stuck)|
              && r.value.deletedBytes == Bytes(Garbage(loose, reach, cutoff, stuck))
              && r.value.skippedTooYoung == |Spared(loose, reach, cutoff)|
    // By age: what goes is exactly what is unreached, not stuck and at least `minAge` seconds old.
    ensures r.Some? && 0 <= now < TWO63 && minAge < TWO63 ==>
              && (forall o :: o in store.loose <==>
                    o in between && !(Unreached(src, seed, second, o) && !stuck(o) && now - between[o].created >= minAge))
              && (forall o :: o in store.loose ==> store.loose[o] == between[o])
              && r.value.deleted ==
                 |set o | o in between && Unreached(src, seed, second, o) && !stuck(o) && now - between[o].created >= minAge|
              && r.value.skippedTooYoung == |set o | o in between && Unreached(src, seed, second, o) && now - between[o].created < minAge|
  {
    var preview := Preview(dir, src, seed, first, store);
    if preview.None? {
      return None;
    }
    store.loose := between;
    var cutoff := Cutoff(now, minAge);
    var infos := store.ListLoose();
    var scanned := ScanNetwork(preview.value.network, second);
    if scanned.None? {
      return None;
    }
    var deleted, bytes, skipped := DeleteGarbage(store, infos, scanned.value, cutoff, stuck);
    if 0 <= now < TWO63 && minAge < TWO63 {
      GarbageByAge(src, seed, preview.value.network, second, between, now, minAge, stuck);
      CountsByAge(src, seed, preview.value.network, second, between, now, minAge, stuck);
    }
    return Some(GcResult(preview.value, deleted, bytes, skipped));
  }

  // ── what the numbers add up to ───────────────────────────────────────

  /**
   Conservation: every unreachable object is removed, spared for its age or stuck, no reachable object
   is removed, and the bytes removed are the bytes missing afterwards.
   */
  lemma NothingUnaccounted(loose: Loose, reach: set<Oid>, cutoff: int, stuck: Oid -> bool)
    ensures var garbage := Garbage(loose, reach, cutoff, stuck);
            && |garbage| + |Spared(loose, reach, cutoff)| + |Stuck(loose, reach, cutoff, stuck)| == |Unreachable(loose, reach)|
            && (forall o :: o in loose && o in reach ==> o in loose - garbage.Keys)
            && Bytes(loose) == Bytes(loose - garbage.Keys) + Bytes(garbage)
  {
    hide *;
    var garbage, spared, left := Garbage(loose, reach, cutoff, stuck), Spared(loose, reach, cutoff), Stuck(loose, reach, cutoff, stuck);
    var all := Unreachable(loose, reach);
    Partition(loose, reach, cutoff, stuck);
    SizeOfThree(all.Keys, garbage.Keys, spared.Keys, left.Keys);
    assert |all| == |all.Keys| && |garbage| == |garbage.Keys| && |spared| == |spared.Keys| && |left| == |left.Keys|;
    BytesSplit(loose, garbage);
  }

  lemma Partition(loose: Loose, reach: set<Oid>, cutoff: int, stuck: Oid -> bool)
    ensures var garbage := Garbage(loose, reach, cutoff, stuck);
            var spared, left := Spared(loose, reach, cutoff).Keys, Stuck(loose, reach, cutoff, stuck).Keys;
            && (forall o :: o in Unreachable(loose, reach).Keys <==> o in garbage.Keys || o in spared || o in left)
            && garbage.Keys !! spared && garbage.Keys !! left && spared !! left
            && (forall o :: o in garbage ==> o in loose && loose[o] == garbage[o])
            && (forall o :: o in loose && o in reach ==> o !in garbage.Keys)
  {
  }

  lemma SizeOfThree<T>(all: set<T>, a: set<T>, b: set<T>, c: set<T>)
    requires forall x :: x in all <==> x in a || x in b || x in c
    requires a !! b && a !! c && b !! c
    ensures |a| + |b| + |c| == |all|
  {
    assert all == a + b + c;
  }

  /** The guard protects what is younger than the minimum age, exactly while that age fits the signed clock. */
  lemma GuardHonoursAgeIff(now: int, minAge: nat)
    requires 0 <= now < TWO63 && 0 < minAge < TWO64
    ensures (forall info: Info :: info.created <= now && now - info.created < minAge ==> TooYoung(info, Cutoff(now, minAge)))
            <==> minAge < TWO63
  {
    if minAge >= TWO63 {
      var latest := Info(0, now);
      assert !TooYoung(latest, Cutoff(now, minAge)) && now - latest.created < minAge;
    }
  }

  // ── the pass as a run among others ───────────────────────────────────

  /** `loose` is the loose store of the run's repo, seen with sizes. */
  ghost predicate SameStore(loose: Loose, s: Collector.State, r: Collector.Run) {
    && r.repo in s.loose && loose.Keys == s.loose[r.repo].Keys
    && forall o :: o in loose ==> loose[o].created == s.loose[r.repo][o]
  }

  /** The walks over the network report what its refs reach. */
  ghost predicate TruthfulScan(links: Collector.Links, s: Collector.State, network: seq<RepoId>, scan: Scan) {
    forall m :: m in network ==> scan(m).Some? && forall o :: o in scan(m).value <==> Collector.RefsReach(links, s, m, o)
  }

  /**
   Undisturbed, a collection run of the interleaved model refines this pass: whatever order it takes its
   own steps in, it leaves exactly the loose objects that the pass leaves.
   */
  lemma PassIsAnUndisturbedRun(links: Collector.Links, s: Collector.State, k: Collector.RunId, acts: seq<Collector.Action>,
                               loose: Loose, network: seq<RepoId>, scan: Scan)
    requires k in s.runs && CollectorLimits.Fresh(s.runs[k]) && SameStore(loose, s, s.runs[k])
    requires (forall m :: m in network <==> m in s.runs[k].network) && TruthfulScan(links, s, network, scan)
    requires CollectorLimits.Undisturbed(links, s, k, acts) && CollectorSafety.Possible(links, s, acts, false)
    requires var t := CollectorSafety.After(links, s, acts);
             k in t.runs && CollectorLimits.Exhausted(t.runs[k])
    ensures var t := CollectorSafety.After(links, s, acts);
            var r := s.runs[k];
            var garbage := Garbage(loose, Reachable(network, scan), r.cutoff, (o: Oid) => false);
            r.repo in t.loose && t.loose[r.repo].Keys == loose.Keys - garbage.Keys
  {
    hide CollectorLimits.Undisturbed, CollectorSafety.Possible, CollectorSafety.After, CollectorLimits.Exhausted, CollectorLimits.Fresh;
    hide Collector.RefsReach;
    var t := CollectorSafety.After(links, s, acts);
    var r := s.runs[k];
    var reach := Reachable(network, scan);
    CollectorLimits.UndisturbedRunLeaves(links, s, k, acts, "");
    forall o ensures o in t.loose[r.repo] <==> o in loose && !(o !in reach && !TooYoung(loose[o], r.cutoff)) {
      CollectorLimits.UndisturbedRunLeaves(links, s, k, acts, o);
      assert Collector.NetworkReaches(links, s, r.network, o) <==> o in reach;
    }
  }

  /** The sample holds every unreachable object, or 32 of them. */
  lemma SampleSize(p: GcPreview, loose: Loose, reach: set<Oid>)
    requires PreviewOf(p, loose, reach)
    ensures |p.sample| == if p.unreachableLoose < 32 then p.unreachableLoose else 32
  {
  }
}
