/**
 The answer to a push from end to end: the lines of the report as text, as bytes and as a response body,
 and what a client that follows the protocol (gitprotocol-pack, section "Report Status") learns from it.
 */
module PushReport {
  import opened Base
  import opened PktLine
  import opened Push
  import opened RefStore
  import opened SideBand
  import opened Utf8

  const LF: byte := 10
  const SP: byte := 32

  // ── the server's side ────────────────────────────────────────────────

  /** The text of the errors behind some reasons, by the reason and the position of the line. */
  type Explain = (Reason, nat) -> string

  function ReasonText(reason: Reason, k: nat, explain: Explain): string {
    match reason
    case UnpackerError => "unpacker error"
    case MissingObjects => "missing necessary objects"
    case NonFastForward => "non-fast-forward"
    case InvalidRefName => "invalid ref name: " + explain(reason, k)
    case InvalidOldOid => "invalid old oid: " + explain(reason, k)
    case InvalidNewOid => "invalid new oid: " + explain(reason, k)
    case StoreFailed(message) => "error " + message
  }

  function LineText(line: Line, k: nat, explain: Explain): string {
    match line
    case UnpackOk => "unpack ok\n"
    case UnpackFailed(message) => "unpack " + message + "\n"
    case Accepted(name) => "ok " + name + "\n"
    case Rejected(name, reason) => "ng " + name + " " + ReasonText(reason, k, explain) + "\n"
  }

  function Rendered(report: seq<Line>, explain: Explain): (lines: seq<Bytes>)
    ensures |lines| == |report|
    ensures forall i :: 0 <= i < |report| ==> lines[i] == Encoded(LineText(report[i], i, explain))
  {
    seq(|report|, i requires 0 <= i < |report| => Encoded(LineText(report[i], i, explain)))
  }

  /** The lines as they read. */
  lemma LinesRead(name: string, message: string, k: nat, explain: Explain)
    ensures LineText(UnpackOk, k, explain) == "unpack ok\n"
    ensures LineText(UnpackFailed(message), k, explain) == "unpack " + message + "\n"
    ensures LineText(Accepted(name), k, explain) == "ok " + name + "\n"
    ensures LineText(Rejected(name, UnpackerError), k, explain) == "ng " + name + " " + "unpacker error" + "\n"
    ensures LineText(Rejected(name, MissingObjects), k, explain) == "ng " + name + " " + "missing necessary objects" + "\n"
    ensures LineText(Rejected(name, NonFastForward), k, explain) == "ng " + name + " " + "non-fast-forward" + "\n"
    ensures LineText(Rejected(name, StoreFailed(message)), k, explain) == "ng " + name + " " + ("error " + message) + "\n"
  {
  }

  // ── the client's side, as the protocol defines it ────────────────────

  /** A line may end in one LF that does not belong to it. */
  function Chomp(line: Bytes): Bytes {
    if line != [] && line[|line| - 1] == LF then line[..|line| - 1] else line
  }

  function UpToSpace(b: Bytes): (r: Bytes)
    ensures r <= b && SP !in r && (|r| < |b| ==> b[|r|] == SP)
  {
    if b == [] || b[0] == SP then [] else [b[0]] + UpToSpace(b[1..])
  }

  const OK_TAG: Bytes := [111, 107, SP]
  const NG_TAG: Bytes := [110, 103, SP]
  const UNPACK_OK: Bytes := [117, 110, 112, 97, 99, 107, SP, 111, 107]

  /** What a status line says: whether the ref was updated, and which. */
  datatype Status = Status(landed: bool, name: Bytes)

  function ReadStatus(line: Bytes): Option<Status> {
    var l := Chomp(line);
    if OK_TAG <= l then Some(Status(true, UpToSpace(l[3..])))
    else if NG_TAG <= l then Some(Status(false, UpToSpace(l[3..])))
    else None
  }

  datatype Heard = Heard(unpacked: bool, statuses: seq<Option<Status>>)

  function Listen(body: Bytes, sideBand: bool): Option<Heard> {
    var lines := Decode(body, sideBand);
    if lines.None? || lines.value == [] then None
    else Some(Heard(Chomp(lines.value[0]) == UNPACK_OK,
                    seq(|lines.value| - 1, i requires 0 <= i < |lines.value| - 1 => ReadStatus(lines.value[i + 1]))))
  }

  // ── one line ─────────────────────────────────────────────────────────

  lemma Tags()
    ensures Encoded("ok ") == OK_TAG && Encoded("ng ") == NG_TAG && Encoded(" ") == [SP] && Encoded("\n") == [LF]
  {
    OneByOne("ok ");
    OneByOne("ng ");
    OneByOne(" ");
    OneByOne("\n");
  }

  /** A status line is its tag, the name and a tail that starts with a space or is the line end. */
  lemma StatusBytes(line: Line, k: nat, explain: Explain) returns (tail: Bytes)
    requires line.Accepted? || line.Rejected?
    ensures Encoded(LineText(line, k, explain)) == (if line.Accepted? then OK_TAG else NG_TAG) + Encoded(line.name) + tail
    ensures if line.Accepted? then tail == [LF] else |tail| >= 2 && tail[0] == SP
  {
    Tags();
    match line
    case Accepted(name) =>
      EncodedJoin("ok " + name, "\n");
      EncodedJoin("ok ", name);
      tail := [LF];
    case Rejected(name, reason) =>
      var text := ReasonText(reason, k, explain);
      EncodedJoin("ng " + name + " " + text, "\n");
      EncodedJoin("ng " + name + " ", text);
      EncodedJoin("ng " + name, " ");
      EncodedJoin("ng ", name);
      tail := [SP] + Encoded(text) + [LF];
  }

  lemma {:induction false} UpToSpaceOf(name: Bytes, tail: Bytes)
    requires tail == [] || tail[0] == SP
    ensures UpToSpace(name + tail) == name <==> SP !in name
    decreases |name|
  {
    if name == [] {
      assert [] + tail == tail;
    } else {
      assert (name + tail)[1..] == name[1..] + tail;
      UpToSpaceOf(name[1..], tail);
      assert name == [name[0]] + name[1..];
    }
  }

  /** A name gets through whole: it has no space, and the cap on the payload does not reach it. */
  predicate NameSurvives(name: Bytes) {
    && SP !in name
    && (|name| + 3 < 65516 || (|name| + 3 == 65516 && name[|name| - 1] != LF))
  }

  /** Whatever is cut off a status line, it still tells the outcome; the name is read right exactly if it survives. */
  lemma StatusIsRead(line: Line, k: nat, explain: Explain)
    requires line.Accepted? || line.Rejected?
    ensures HeardRight(line, ReadStatus(Capped(Encoded(LineText(line, k, explain)))))
  {
    var tail := StatusBytes(line, k, explain);
    StatusOf(if line.Accepted? then OK_TAG else NG_TAG, Encoded(line.name), tail);
  }

  lemma StatusOf(tag: Bytes, name: Bytes, tail: Bytes)
    requires tag == OK_TAG || tag == NG_TAG
    requires tail == [LF] || (|tail| >= 2 && tail[0] == SP)
    ensures var status := ReadStatus(Capped(tag + name + tail));
            && status.Some? && status.value.landed == (tag == OK_TAG)
            && (status.value.name == name <==> NameSurvives(name))
  {
    var whole := tag + name + tail;
    var line := Capped(whole);
    var l := Chomp(line);
    assert |tag| == 3 && line[..3] == tag && tag[2] == SP;
    assert l[..3] == tag;
    if |name| + 3 < MAX_PAYLOAD {
      KeptTail(tag, name, tail);
      var rest := l[3 + |name|..];
      assert l[3..] == name + rest;
      UpToSpaceOf(name, rest);
    } else {
      assert line == (tag + name)[..MAX_PAYLOAD];
      if |name| + 3 == MAX_PAYLOAD {
        assert line == tag + name;
        if name[|name| - 1] == LF {
          assert |l[3..]| < |name|;
        } else {
          assert l[3..] == name && name + [] == name;
          UpToSpaceOf(name, []);
        }
      } else {
        assert |l[3..]| < |name|;
      }
    }
  }

  /** A name below the cap is followed by its tail, or by nothing once the line end is dropped. */
  lemma KeptTail(tag: Bytes, name: Bytes, tail: Bytes)
    requires |tag| == 3 && |name| + 3 < MAX_PAYLOAD && (tail == [LF] || (|tail| >= 2 && tail[0] == SP))
    ensures var l := Chomp(Capped(tag + name + tail));
            && |l| >= 3 + |name| && l[..3 + |name|] == tag + name
            && (|l| > 3 + |name| ==> l[3 + |name|] == SP)
  {
    var whole := tag + name + tail;
    var line := Capped(whole);
    assert |line| > 3 + |name| && line[3 + |name|] == tail[0];
    assert line[..3 + |name|] == whole[..3 + |name|] == tag + name;
  }

  /** The first line of the report reads as success: it is one, or its error message is just that. */
  predicate SaysUnpacked(line: Line) {
    match line
    case UnpackOk => true
    case UnpackFailed(message) => message == "ok"
    case _ => false
  }

  lemma UnpackIsRead(line: Line, k: nat, explain: Explain)
    requires line.UnpackOk? || line.UnpackFailed?
    ensures Chomp(Capped(Encoded(LineText(line, k, explain)))) == UNPACK_OK <==> SaysUnpacked(line)
  {
    var text := LineText(line, k, explain);
    Tags();
    UnpackText();
    if line.UnpackFailed? {
      EncodedJoin("unpack " + line.message, "\n");
      var bytes := Encoded("unpack " + line.message);
      assert "unpack " + "ok" == "unpack ok";
      if |bytes| + 1 <= MAX_PAYLOAD {
        assert Chomp(bytes + [LF]) == bytes;
        if bytes == UNPACK_OK {
          EncodedInjective("unpack " + line.message, "unpack ok");
          assert ("unpack " + line.message)[7..] == line.message && "unpack ok"[7..] == "ok";
        }
      } else {
        assert |Chomp(Capped(bytes + [LF]))| > |UNPACK_OK|;
      }
    } else {
      EncodedJoin("unpack ok", "\n");
      assert text == "unpack ok" + "\n";
    }
  }

  lemma UnpackText()
    ensures Encoded("unpack ok") == UNPACK_OK
  {
    OneByOne("unpack ok");
  }

  // ── the whole answer ─────────────────────────────────────────────────

  ghost predicate WellFormed(report: seq<Line>) {
    && report != [] && (report[0].UnpackOk? || report[0].UnpackFailed?)
    && forall i :: 1 <= i < |report| ==> report[i].Accepted? || report[i].Rejected?
  }

  /** A client heard the outcome of `line`, and its name exactly if that survives. */
  ghost predicate HeardRight(line: Line, status: Option<Status>)
    requires line.Accepted? || line.Rejected?
  {
    && status.Some? && status.value.landed == line.Accepted?
    && (status.value.name == Encoded(line.name) <==> NameSurvives(Encoded(line.name)))
  }

  /**
   What a client learns from the body, with or without the side band and however long the lines are: the
   outcome of every update, in order, whether the pack was unpacked unless the error message is `ok`, and
   the name of an update exactly if the name has no space and ends before the cap.
   */
  lemma ClientLearns(report: seq<Line>, explain: Explain, sideBand: bool)
    requires WellFormed(report)
    ensures var heard := Listen(Body(Rendered(report, explain), sideBand), sideBand);
            && heard.Some? && |heard.value.statuses| == |report| - 1
            && (heard.value.unpacked <==> SaysUnpacked(report[0]))
            && forall i :: 0 <= i < |heard.value.statuses| ==> HeardRight(report[i + 1], heard.value.statuses[i])
  {
    hide ReadStatus, Decode, LineText, NameSurvives, HeardRight, Body, SaysUnpacked, Chomp;
    var lines := Rendered(report, explain);
    var capped := CappedAll(lines);
    DecodedReport(lines, sideBand);
    UnpackIsRead(report[0], 0, explain);
    forall i | 1 <= i < |report| ensures HeardRight(report[i], ReadStatus(capped[i])) {
      StatusIsRead(report[i], i, explain);
    }
  }

  /** A name that came in a command, after two object ids, is short enough; then only a space spoils it. */
  lemma CommandNameSurvivesIff(name: string)
    requires 82 + |Encoded(name)| <= MAX_PAYLOAD
    ensures NameSurvives(Encoded(name)) <==> ' ' !in name
  {
    AsciiKept(name, ' ');
  }

  /** Update `i` was heard to land. */
  ghost predicate HeardToLand(body: Bytes, sideBand: bool, i: nat) {
    var heard := Listen(body, sideBand);
    heard.Some? && i < |heard.value.statuses| && heard.value.statuses[i].Some? && heard.value.statuses[i].value.landed
  }

  /**
   A push and its answer. Update `i` is heard to land if and only if the gates were passed and its swap was
   carried out at its turn; with distinct names the ref is then as the client asked, and otherwise as it was.
   */
  method AnswerPush(store: FsRefStore, repo: RepoId, us: seq<RefUpdate>, unpack: Result<(), string>, connected: seq<Oid> -> bool,
                    n: nat, explain: Explain, sideBand: bool)
    returns (body: Bytes)
    modifies store
    ensures var passed := unpack.Ok? && (Tips(us) == [] || connected(Tips(us)));
            forall i :: 0 <= i < |us| ==>
              (HeardToLand(body, sideBand, i) <==>
                passed && Lands(store.Kind(), n + i, RefsAfterAll(store.Kind(), n, old(store.refs), repo, us[..i]), repo, us[i]))
    ensures DistinctNames(us) ==> forall i :: 0 <= i < |us| ==>
              Current(store.refs, (repo, us[i].name)) ==
              if !HeardToLand(body, sideBand, i) then Current(old(store.refs), (repo, us[i].name))
              else if us[i].IsDelete() then None
              else Some(us[i].after)
  {
    hide Lands, RefsAfterAll, Listen, LineFor, Rendered, NameSurvives;
    var report := ReceivePack(store, repo, us, unpack, connected, n);
    ghost var refs := old(store.refs);
    ReportShape(store.Kind(), n, refs, repo, us, unpack, connected, report);
    ClientLearns(report, explain, sideBand);
    body := Respond(Rendered(report, explain), sideBand);
    assert forall i :: 0 <= i < |us| ==> (HeardToLand(body, sideBand, i) <==> report[i + 1].Accepted?);
    if DistinctNames(us) {
      forall i | 0 <= i < |us|
        ensures Current(store.refs, (repo, us[i].name)) ==
                if !HeardToLand(body, sideBand, i) then Current(refs, (repo, us[i].name))
                else if us[i].IsDelete() then None
                else Some(us[i].after)
      {
        DistinctUpdatesAreIndependent(store.Kind(), n, refs, repo, us, i);
      }
    }
  }

  /** The report has a line per update, and a line of success exactly for a swap carried out. */
  lemma ReportShape(b: Backend, n: nat, refs: Refs, repo: RepoId, us: seq<RefUpdate>, unpack: Result<(), string>,
                    connected: seq<Oid> -> bool, report: seq<Line>)
    requires |report| == |us| + 1
    requires unpack.Err? ==> report[0] == UnpackFailed(unpack.error) && AllRejected(us, UnpackerError, report[1..])
    requires unpack.Ok? ==> report[0] == UnpackOk
    requires unpack.Ok? && Tips(us) != [] && !connected(Tips(us)) ==> AllRejected(us, MissingObjects, report[1..])
    requires unpack.Ok? && (Tips(us) == [] || connected(Tips(us))) ==> ReportsEach(b, n, refs, repo, us, report[1..])
    ensures WellFormed(report)
    ensures var passed := unpack.Ok? && (Tips(us) == [] || connected(Tips(us)));
            forall i :: 0 <= i < |us| ==>
              (report[i + 1].Accepted? <==> passed && Lands(b, n + i, RefsAfterAll(b, n, refs, repo, us[..i]), repo, us[i]))
  {
    hide Lands, RefsAfterAll;
    forall i | 0 <= i < |us|
      ensures report[i + 1].Accepted? || report[i + 1].Rejected?
      ensures var passed := unpack.Ok? && (Tips(us) == [] || connected(Tips(us)));
              report[i + 1].Accepted? <==> passed && Lands(b, n + i, RefsAfterAll(b, n, refs, repo, us[..i]), repo, us[i])
    {
      assert report[i + 1] == report[1..][i];
    }
  }
}
