/**
 The compare-and-swap contract every ref writer goes through, and what it guarantees over histories.
 Two stores meet it: a map in memory, and the deployed one, which runs `git update-ref`. Git adds
 refusals and failures of its own and gives the zero id a meaning.
 */
module RefStore {
  import opened Base

  datatype Outcome = Updated | Conflict(current: Option<Oid>) | Failed(message: string)

  type Key = (RepoId, RefName)

  type Refs = map<Key, Oid>

  const ZERO := "0000000000000000000000000000000000000000"

  function Current(refs: Refs, key: Key): Option<Oid> {
    if key in refs then Some(refs[key]) else None
  }

  /**
   One request to the store. `attempt` tells apart requests that are otherwise the same: git may refuse
   one of them, for instance because a lock is held, and carry out the next.
   */
  datatype Cas =
    | Update(key: Key, expected: Option<Oid>, value: Oid, attempt: nat)
    | Delete(key: Key, expected: Option<Oid>, attempt: nat)

  /** What becomes of a request that the current value would allow: git may refuse it, or fail to run. */
  datatype GitAnswer = Obeys | Refuses | Fails(message: string)

  /**
   A store. Where the zero id is special, naming it as the expected value is naming none: an update
   then creates, a delete is unconditional.
   */
  datatype Backend = Backend(zeroIsSpecial: bool, git: (Refs, Cas) -> GitAnswer)

  function InMemory(): Backend {
    Backend(false, (refs: Refs, c: Cas) => Obeys)
  }

  ghost predicate Obedient(b: Backend) {
    forall refs: Refs, c: Cas :: b.git(refs, c) == Obeys
  }

  /** The value a request names. */
  function Named(b: Backend, expected: Option<Oid>): Option<Oid> {
    if b.zeroIsSpecial && expected == Some(ZERO) then None else expected
  }

  /** An update must name the current value, none meaning absent; a delete that names none is unconditional. */
  predicate Matches(b: Backend, c: Cas, current: Option<Oid>) {
    Named(b, c.expected) == current || (c.Delete? && Named(b, c.expected).None?)
  }

  predicate Applies(b: Backend, refs: Refs, c: Cas) {
    Matches(b, c, Current(refs, c.key)) && b.git(refs, c) == Obeys
  }

  function OutcomeOf(b: Backend, refs: Refs, c: Cas): Outcome {
    match b.git(refs, c)
    case Fails(message) => Failed(message)
    case Refuses => Conflict(Current(refs, c.key))
    case Obeys => if Matches(b, c, Current(refs, c.key)) then Updated else Conflict(Current(refs, c.key))
  }

  function ValueLeft(c: Cas): Option<Oid> {
    if c.Update? then Some(c.value) else None
  }

  function Apply(b: Backend, refs: Refs, c: Cas): Refs {
    if !Applies(b, refs, c) then refs
    else match c
      case Update(key, _, value, _) => refs[key := value]
      case Delete(key, _, _) => refs - {key}
  }

  /** The store used in the server's own tests. */
  class MemRefStore {
    var refs: Refs

    constructor ()
      ensures refs == map[]
    {
      refs := map[];
    }

    method Read(repo: RepoId, name: RefName) returns (value: Option<Oid>)
      ensures value == Current(refs, (repo, name))
    {
      if (repo, name) in refs {
        return Some(refs[(repo, name)]);
      }
      return None;
    }

    method CasUpdate(repo: RepoId, name: RefName, expected: Option<Oid>, value: Oid) returns (outcome: Outcome)
      modifies this
      ensures refs == Apply(InMemory(), old(refs), Update((repo, name), expected, value, 0))
      ensures outcome == OutcomeOf(InMemory(), old(refs), Update((repo, name), expected, value, 0))
    {
      var key := (repo, name);
      var current := Read(repo, name);
      var matches;
      match (expected, current) {
        case (None, None) => matches := true;
        case (Some(e), Some(c)) => matches := e == c;
        case _ => matches := false;
      }
      if !matches {
        return Conflict(current);
      }
      refs := refs[key := value];
      return Updated;
    }

    method CasDelete(repo: RepoId, name: RefName, expected: Option<Oid>) returns (outcome: Outcome)
      modifies this
      ensures refs == Apply(InMemory(), old(refs), Delete((repo, name), expected, 0))
      ensures outcome == OutcomeOf(InMemory(), old(refs), Delete((repo, name), expected, 0))
    {
      var key := (repo, name);
      var current := Read(repo, name);
      var matches;
      match (expected, current) {
        case (None, _) => matches := true;
        case (Some(e), Some(c)) => matches := e == c;
        case (Some(_), None) => matches := false;
      }
      if !matches {
        return Conflict(current);
      }
      refs := refs - {key};
      return Updated;
    }
  }

  /** The deployed store: every change is a run of `git update-ref`, and any refusal reads as a conflict. */
  class FsRefStore {
    var refs: Refs
    const git: (Refs, Cas) -> GitAnswer

    constructor (git: (Refs, Cas) -> GitAnswer)
      ensures refs == map[] && this.git == git
    {
      refs := map[];
      this.git := git;
    }

    function Kind(): Backend {
      Backend(true, git)
    }

    method Read(repo: RepoId, name: RefName) returns (value: Option<Oid>)
      ensures value == Current(refs, (repo, name))
    {
      if (repo, name) in refs {
        return Some(refs[(repo, name)]);
      }
      return None;
    }

    /** `update-ref <ref> <new> <old>`: the zero id as the old value means that the ref must not exist. */
    method CasUpdate(repo: RepoId, name: RefName, expected: Option<Oid>, value: Oid, attempt: nat) returns (outcome: Outcome)
      modifies this
      ensures refs == Apply(Kind(), old(refs), Update((repo, name), expected, value, attempt))
      ensures outcome == OutcomeOf(Kind(), old(refs), Update((repo, name), expected, value, attempt))
    {
      var key := (repo, name);
      var oldArgument := if expected.Some? then expected.value else ZERO;
      var answer := git(refs, Update(key, expected, value, attempt));
      if answer.Fails? {
        return Failed(answer.message);
      }
      var free := if oldArgument == ZERO then key !in refs else key in refs && refs[key] == oldArgument;
      if answer.Obeys? && free {
        refs := refs[key := value];
        return Updated;
      }
      var current := Read(repo, name);
      return Conflict(current);
    }

    /** `update-ref -d <ref> [<old>]`: no old value, or the zero id, deletes whatever is there. */
    method CasDelete(repo: RepoId, name: RefName, expected: Option<Oid>, attempt: nat) returns (outcome: Outcome)
      modifies this
      ensures refs == Apply(Kind(), old(refs), Delete((repo, name), expected, attempt))
      ensures outcome == OutcomeOf(Kind(), old(refs), Delete((repo, name), expected, attempt))
    {
      var key := (repo, name);
      var answer := git(refs, Delete(key, expected, attempt));
      if answer.Fails? {
        return Failed(answer.message);
      }
      var free := if expected.None? || expected.value == ZERO then true else key in refs && refs[key] == expected.value;
      if answer.Obeys? && free {
        refs := refs - {key};
        return Updated;
      }
      var current := Read(repo, name);
      return Conflict(current);
    }
  }

  // ── where the two stores part ────────────────────────────────────────

  /** A ref that would have to be both a file and a directory. */
  ghost predicate Nested(refs: Refs, key: Key) {
    exists other: Key :: other in refs && other.0 == key.0 && (key.1 + "/" <= other.1 || other.1 + "/" <= key.1)
  }

  /** Git keeps refs as files: it refuses an update next to which the name cannot exist. */
  ghost predicate RefusesNested(b: Backend) {
    forall refs: Refs, c: Cas :: c.Update? && Nested(refs, c.key) ==> b.git(refs, c) == Refuses
  }

  /** Next to `a` the branch `a/b` conflicts over git, with nothing there and nothing expected. */
  lemma NestedNameConflicts(b: Backend, refs: Refs, repo: RepoId, outer: RefName, inner: RefName, value: Oid,
                            attempt: nat)
    requires RefusesNested(b) && (repo, outer) in refs && outer + "/" <= inner && (repo, inner) !in refs
    ensures OutcomeOf(b, refs, Update((repo, inner), None, value, attempt)) == Conflict(None)
    ensures OutcomeOf(InMemory(), refs, Update((repo, inner), None, value, attempt)) == Updated
  {
    assert Nested(refs, (repo, inner));
  }

  // ── histories of requests ────────────────────────────────────────────

  function ApplyAll(b: Backend, refs: Refs, cs: seq<Cas>): Refs
    decreases |cs|
  {
    if cs == [] then refs else ApplyAll(b, Apply(b, refs, cs[0]), cs[1..])
  }

  function Outcomes(b: Backend, refs: Refs, cs: seq<Cas>): (r: seq<Outcome>)
    ensures |r| == |cs|
    decreases |cs|
  {
    if cs == [] then [] else [OutcomeOf(b, refs, cs[0])] + Outcomes(b, Apply(b, refs, cs[0]), cs[1..])
  }

  /** The accepted requests for one key, in order. */
  function Accepted(b: Backend, refs: Refs, cs: seq<Cas>, key: Key): seq<Cas>
    decreases |cs|
  {
    if cs == [] then []
    else
      (if cs[0].key == key && Applies(b, refs, cs[0]) then [cs[0]] else [])
      + Accepted(b, Apply(b, refs, cs[0]), cs[1..], key)
  }

  /** Each request names what the one before it left behind. */
  ghost predicate Chained(b: Backend, start: Option<Oid>, cs: seq<Cas>)
    decreases |cs|
  {
    cs == [] || (Matches(b, cs[0], start) && Chained(b, ValueLeft(cs[0]), cs[1..]))
  }

  function FinalValue(start: Option<Oid>, cs: seq<Cas>): Option<Oid> {
    if cs == [] then start else ValueLeft(cs[|cs| - 1])
  }

  lemma ApplyFrame(b: Backend, refs: Refs, c: Cas, key: Key)
    ensures Current(Apply(b, refs, c), key) == if c.key == key && Applies(b, refs, c) then ValueLeft(c) else Current(refs, key)
  {
  }

  /**
   Over either store every history of a key is linear: the accepted requests form a chain starting at
   the initial value, and the final value is the one the last of them left, or the initial one.
   */
  lemma {:induction false} HistoryIsLinear(b: Backend, refs: Refs, cs: seq<Cas>, key: Key)
    ensures Chained(b, Current(refs, key), Accepted(b, refs, cs, key))
    ensures Current(ApplyAll(b, refs, cs), key) == FinalValue(Current(refs, key), Accepted(b, refs, cs, key))
    decreases |cs|
  {
    if cs == [] {
    } else {
      var refs' := Apply(b, refs, cs[0]);
      ApplyFrame(b, refs, cs[0], key);
      HistoryIsLinear(b, refs', cs[1..], key);
      var rest := Accepted(b, refs', cs[1..], key);
      if cs[0].key == key && Applies(b, refs, cs[0]) {
        assert ([cs[0]] + rest)[1..] == rest;
      } else {
        assert Accepted(b, refs, cs, key) == rest;
      }
    }
  }

  // ── the same request twice ───────────────────────────────────────────

  lemma {:induction false} OutcomeAt(b: Backend, refs: Refs, cs: seq<Cas>, j: nat)
    requires j < |cs|
    ensures Outcomes(b, refs, cs)[j] == OutcomeOf(b, ApplyAll(b, refs, cs[..j]), cs[j])
    ensures ApplyAll(b, refs, cs[..j + 1]) == Apply(b, ApplyAll(b, refs, cs[..j]), cs[j])
    decreases j
  {
    if j == 0 {
      assert cs[..0] == [] && cs[..1][1..] == [] && cs[..1][0] == cs[0];
    } else {
      OutcomeAt(b, Apply(b, refs, cs[0]), cs[1..], j - 1);
      assert cs[..j][1..] == cs[1..][..j - 1] && cs[..j + 1][1..] == cs[1..][..j];
    }
  }

  /** Request `m` was accepted for `key`. */
  ghost predicate AcceptedAt(b: Backend, refs: Refs, cs: seq<Cas>, key: Key, m: nat)
    requires m < |cs|
  {
    cs[m].key == key && Outcomes(b, refs, cs)[m] == Updated
  }

  /** Request `m` is the last one accepted for `key` before position `j`. */
  ghost predicate LastBefore(b: Backend, refs: Refs, cs: seq<Cas>, key: Key, m: nat, j: nat)
    requires m < j <= |cs|
  {
    AcceptedAt(b, refs, cs, key, m) && forall n :: m < n < j ==> !AcceptedAt(b, refs, cs, key, n)
  }

  function ValueAt(b: Backend, refs: Refs, cs: seq<Cas>, key: Key, j: nat): Option<Oid>
    requires j <= |cs|
  {
    Current(ApplyAll(b, refs, cs[..j]), key)
  }

  lemma ValueStep(b: Backend, refs: Refs, cs: seq<Cas>, key: Key, m: nat)
    requires m < |cs|
    ensures ValueAt(b, refs, cs, key, m + 1) ==
            if AcceptedAt(b, refs, cs, key, m) then ValueLeft(cs[m]) else ValueAt(b, refs, cs, key, m)
  {
    OutcomeAt(b, refs, cs, m);
    ApplyFrame(b, ApplyAll(b, refs, cs[..m]), cs[m], key);
  }

  /** Between two positions the value is what the last request accepted since then left, or unchanged. */
  lemma {:induction false} ValueSince(b: Backend, refs: Refs, cs: seq<Cas>, key: Key, i: nat, j: nat) returns (last: Option<nat>)
    requires i <= j <= |cs|
    ensures last.Some? ==> i <= last.value < j && LastBefore(b, refs, cs, key, last.value, j)
                           && ValueAt(b, refs, cs, key, j) == ValueLeft(cs[last.value])
    ensures last.None? ==> ValueAt(b, refs, cs, key, j) == ValueAt(b, refs, cs, key, i)
    ensures last.None? ==> forall n :: i <= n < j ==> !AcceptedAt(b, refs, cs, key, n)
    decreases j
  {
    if i == j {
      last := None;
    } else {
      last := ValueSince(b, refs, cs, key, i, j - 1);
      ValueStep(b, refs, cs, key, j - 1);
      if AcceptedAt(b, refs, cs, key, j - 1) {
        last := Some(j - 1);
      }
    }
  }

  lemma OneLast(b: Backend, refs: Refs, cs: seq<Cas>, key: Key, m: nat, n: nat, j: nat)
    requires m < j <= |cs| && n < j && LastBefore(b, refs, cs, key, m, j) && LastBefore(b, refs, cs, key, n, j)
    ensures m == n
  {
  }

  /**
   When the same update can be accepted twice. After a moving update was accepted, the same one later
   in the history is accepted, unless git itself refuses, if and only if some other request came after
   the first, was the last one accepted for that ref, and left the value the update expects.
   */
  lemma RepeatAcceptedIff(b: Backend, refs: Refs, cs: seq<Cas>, i: nat, j: nat)
    requires i < j < |cs| && cs[i].Update? && cs[j] == cs[i].(attempt := cs[j].attempt)
    requires Named(b, cs[i].expected) != Some(cs[i].value)
    requires AcceptedAt(b, refs, cs, cs[i].key, i) && b.git(ApplyAll(b, refs, cs[..j]), cs[j]) == Obeys
    ensures AcceptedAt(b, refs, cs, cs[j].key, j) <==>
            exists m :: i < m < j && LastBefore(b, refs, cs, cs[j].key, m, j) && ValueLeft(cs[m]) == Named(b, cs[j].expected)
  {
    var key := cs[j].key;
    OutcomeAt(b, refs, cs, j);
    ValueStep(b, refs, cs, key, i);
    var last := ValueSince(b, refs, cs, key, i + 1, j);
    assert AcceptedAt(b, refs, cs, key, j) <==> ValueAt(b, refs, cs, key, j) == Named(b, cs[j].expected);
    if m :| i < m < j && LastBefore(b, refs, cs, key, m, j) && ValueLeft(cs[m]) == Named(b, cs[j].expected) {
      assert last.Some?;
      OneLast(b, refs, cs, key, m, last.value, j);
    }
  }

  /** So successes are not bounded by the number of distinct requests: three of them with only two different inputs. */
  lemma DuplicatesCanBothSucceed(key: Key, a: Oid, b: Oid)
    requires a != b
    ensures var there, back := Update(key, Some(a), b, 0), Update(key, Some(b), a, 0);
            Outcomes(InMemory(), map[key := a], [there, back, there]) == [Updated, Updated, Updated]
  {
    var there, back := Update(key, Some(a), b, 0), Update(key, Some(b), a, 0);
    var atA: Refs := map[key := a];
    var atB: Refs := map[key := b];
    assert Apply(InMemory(), atA, there) == atB && Apply(InMemory(), atB, back) == atA;
    assert [there, back, there][1..] == [back, there] && [back, there][1..] == [there];
    assert Outcomes(InMemory(), atA, [there]) == [Updated];
    assert Outcomes(InMemory(), atB, [back, there]) == [Updated] + Outcomes(InMemory(), atA, [there]);
  }

  // ── rivals ───────────────────────────────────────────────────────────

  ghost predicate Rivals(b: Backend, key: Key, e: Option<Oid>, cs: seq<Cas>) {
    forall i :: 0 <= i < |cs| ==> cs[i].Update? && cs[i].key == key && Named(b, cs[i].expected) == e && Some(cs[i].value) != e
  }

  /** Writers that saw a value the ref no longer has all conflict with the current one. */
  lemma {:induction false} LateRivalsLose(b: Backend, refs: Refs, key: Key, e: Option<Oid>, cs: seq<Cas>)
    requires Obedient(b) && Rivals(b, key, e, cs) && Current(refs, key) != e
    ensures forall i :: 0 <= i < |cs| ==> Outcomes(b, refs, cs)[i] == Conflict(Current(refs, key))
    ensures ApplyAll(b, refs, cs) == refs
    decreases |cs|
  {
    if cs != [] {
      assert Named(b, cs[0].expected) == e && Apply(b, refs, cs[0]) == refs;
      assert Rivals(b, key, e, cs[1..]);
      LateRivalsLose(b, refs, key, e, cs[1..]);
    }
  }

  /** Among writers that all saw the current value, the first one wins and every other one conflicts with it. */
  lemma OneRivalWins(b: Backend, refs: Refs, key: Key, cs: seq<Cas>)
    requires Obedient(b) && Rivals(b, key, Current(refs, key), cs) && cs != []
    ensures Outcomes(b, refs, cs)[0] == Updated
    ensures forall i :: 0 < i < |cs| ==> Outcomes(b, refs, cs)[i] == Conflict(Some(cs[0].value))
    ensures Current(ApplyAll(b, refs, cs), key) == Some(cs[0].value)
  {
    var refs' := Apply(b, refs, cs[0]);
    assert Current(refs', key) == Some(cs[0].value);
    assert Rivals(b, key, Current(refs, key), cs[1..]);
    LateRivalsLose(b, refs', key, Current(refs, key), cs[1..]);
  }

  /** A request never touches another ref. */
  lemma {:induction false} OthersUntouched(b: Backend, refs: Refs, cs: seq<Cas>, key: Key)
    requires forall i :: 0 <= i < |cs| ==> cs[i].key != key
    ensures Current(ApplyAll(b, refs, cs), key) == Current(refs, key)
    decreases |cs|
  {
    if cs != [] {
      ApplyFrame(b, refs, cs[0], key);
      OthersUntouched(b, Apply(b, refs, cs[0]), cs[1..], key);
    }
  }

  // ── what a single request comes to ───────────────────────────────────

  /** The id that git reads as "no object". */
  function Zeros(): Oid {
    seq(40, i => '0')
  }

  lemma ZeroIsFortyZeros()
    ensures ZERO == Zeros()
  {
    assert |ZERO| == 40 && forall i :: 0 <= i < 40 ==> ZERO[i] == '0';
  }

  /**
   A deletion that git carries out. One that names a value removes the ref if it holds that value, and is
   otherwise a conflict that shows what the ref holds and changes nothing; one that names none, or over
   git the zero id, always leaves no ref.
   */
  lemma DeleteOutcome(b: Backend, refs: Refs, key: Key, expected: Option<Oid>, n: nat)
    requires b.git(refs, Delete(key, expected, n)) == Obeys
    ensures var c := Delete(key, expected, n);
            if expected.None? || (b.zeroIsSpecial && expected.value == Zeros())
            then OutcomeOf(b, refs, c) == Updated && Apply(b, refs, c) == refs - {key}
            else if key in refs && refs[key] == expected.value
            then OutcomeOf(b, refs, c) == Updated && Apply(b, refs, c) == refs - {key}
            else OutcomeOf(b, refs, c) == Conflict(if key in refs then Some(refs[key]) else None) && Apply(b, refs, c) == refs
  {
    ZeroIsFortyZeros();
  }

  /**
   An update that git carries out. One that names a value moves the ref if it holds that value; one that
   names none, or over git the zero id, creates the ref if there is none. Otherwise it is a conflict that
   shows what the ref holds and changes nothing.
   */
  lemma UpdateOutcome(b: Backend, refs: Refs, key: Key, expected: Option<Oid>, value: Oid, n: nat)
    requires b.git(refs, Update(key, expected, value, n)) == Obeys
    ensures var c := Update(key, expected, value, n);
            var fits := if expected.None? || (b.zeroIsSpecial && expected.value == Zeros()) then key !in refs
                        else key in refs && refs[key] == expected.value;
            if fits then OutcomeOf(b, refs, c) == Updated && Apply(b, refs, c) == refs[key := value]
            else OutcomeOf(b, refs, c) == Conflict(if key in refs then Some(refs[key]) else None) && Apply(b, refs, c) == refs
  {
    ZeroIsFortyZeros();
  }

  /** What git refuses is a conflict whatever was expected, what it fails at an error, and neither changes a ref. */
  lemma UnservedOutcome(b: Backend, refs: Refs, c: Cas)
    requires b.git(refs, c) != Obeys
    ensures Apply(b, refs, c) == refs
    ensures OutcomeOf(b, refs, c) ==
            match b.git(refs, c)
            case Fails(message) => Failed(message)
            case _ => Conflict(if c.key in refs then Some(refs[c.key]) else None)
  {
  }
}
