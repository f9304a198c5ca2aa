/**
 The push report on the wire: pkt-lines, then, if the client asked for it, those bytes again in
 pkt-lines of side band 1 (gitprotocol-pack, section "Report Status").
 */
module SideBand {
  import opened Base
  import opened PktLine

  const BAND_DATA: byte := 1
  const CHUNK := MAX_PAYLOAD - 1

  // ── the server's side ────────────────────────────────────────────────

  function ReportFrames(lines: seq<Bytes>): (frames: seq<Frame>)
    ensures AllFit(frames)
  {
    if lines == [] then [Flush] else [Data(Capped(lines[0]))] + ReportFrames(lines[1..])
  }

  function LineFrames(lines: seq<Bytes>): (frames: seq<Frame>)
    ensures AllFit(frames)
  {
    if lines == [] then [] else LineFrames(lines[..|lines| - 1]) + [Data(Capped(lines[|lines| - 1]))]
  }

  lemma {:induction false} LineFramesThenFlush(lines: seq<Bytes>, done: seq<Bytes>)
    ensures LineFrames(done) + ReportFrames(lines) == ReportFrames(done + lines)
    decreases |done|
  {
    if done == [] {
      assert done + lines == lines;
    } else {
      var last := |done| - 1;
      assert done == done[..last] + [done[last]];
      assert done[..last] + ([done[last]] + lines) == done + lines;
      assert ([done[last]] + lines)[1..] == lines;
      LineFramesThenFlush([done[last]] + lines, done[..last]);
    }
  }

  method WriteReport(lines: seq<Bytes>) returns (report: Bytes)
    ensures report == EncodeAll(ReportFrames(lines))
  {
    var writer := new Writer();
    for i := 0 to |lines|
      invariant writer.out == EncodeAll(LineFrames(lines[..i]))
    {
      assert lines[..i + 1][..i] == lines[..i];
      EncodeOneMore(LineFrames(lines[..i]), Data(Capped(lines[i])));
      writer.WriteData(lines[i]);
    }
    assert lines[..|lines|] == lines;
    EncodeOneMore(LineFrames(lines), Flush);
    LineFramesThenFlush([], lines);
    assert lines + [] == lines;
    writer.WriteFlush();
    report := writer.out;
  }

  /** The report is cut into pieces that leave room for the band byte. */
  function NextChunk(b: Bytes): (chunk: Bytes)
    ensures chunk <= b && |chunk| <= CHUNK && (b != [] ==> chunk != [])
  {
    if |b| <= CHUNK then b else b[..CHUNK]
  }

  function Banded(chunk: Bytes): (f: Frame)
    requires |chunk| <= CHUNK
    ensures Fits(f) && f.Data? && Capped(f.payload) == f.payload
  {
    Data([BAND_DATA] + chunk)
  }

  function BandFrames(b: Bytes): (frames: seq<Frame>)
    ensures AllFit(frames)
    decreases |b|
  {
    if b == [] then [Flush] else [Banded(NextChunk(b))] + BandFrames(b[|NextChunk(b)|..])
  }

  ghost predicate Sent(report: Bytes, rest: Bytes, sent: seq<Frame>, out: Bytes) {
    AllFit(sent) && out == EncodeAll(sent) && BandFrames(report) == sent + BandFrames(rest)
  }

  lemma BandFramesCons(b: Bytes)
    requires b != []
    ensures BandFrames(b) == [Banded(NextChunk(b))] + BandFrames(b[|NextChunk(b)|..])
  {
  }

  lemma SentOneMore(report: Bytes, rest: Bytes, sent: seq<Frame>, out: Bytes)
    requires Sent(report, rest, sent, out) && rest != []
    ensures Sent(report, rest[|NextChunk(rest)|..], sent + [Banded(NextChunk(rest))], out + Encode(Banded(NextChunk(rest))))
  {
    hide NextChunk, Banded, EncodeAll, Encode, BandFrames;
    var f := Banded(NextChunk(rest));
    EncodeOneMore(sent, f);
    BandFramesCons(rest);
    var tail := BandFrames(rest[|NextChunk(rest)|..]);
    assert sent + ([f] + tail) == sent + [f] + tail;
  }

  method Wrap(report: Bytes) returns (body: Bytes)
    ensures body == EncodeAll(BandFrames(report))
  {
    var writer := new Writer();
    var rest := report;
    ghost var sent: seq<Frame> := [];
    while rest != []
      invariant Sent(report, rest, sent, writer.out)
      decreases |rest|
    {
      SentOneMore(report, rest, sent, writer.out);
      var chunk := NextChunk(rest);
      writer.WriteData([BAND_DATA] + chunk);
      sent := sent + [Banded(chunk)];
      rest := rest[|chunk|..];
    }
    EncodeOneMore(sent, Flush);
    writer.WriteFlush();
    body := writer.out;
  }

  method Respond(lines: seq<Bytes>, sideBand: bool) returns (body: Bytes)
    ensures body == Body(lines, sideBand)
  {
    var report := WriteReport(lines);
    if sideBand {
      body := Wrap(report);
    } else {
      body := report;
    }
  }

  function Body(lines: seq<Bytes>, sideBand: bool): Bytes {
    var report := EncodeAll(ReportFrames(lines));
    if sideBand then EncodeAll(BandFrames(report)) else report
  }

  // ── the client's side, as the protocol defines it ────────────────────

  /** Data bytes of band 1 up to the flush. */
  function Unband(items: seq<Item>): Option<Bytes> {
    if items == [] || items[0].Err? then None
    else
      match items[0].value
      case Flush => Some([])
      case Data(p) =>
        var rest := Unband(items[1..]);
        if p != [] && p[0] == BAND_DATA && rest.Some? then Some(p[1..] + rest.value) else None
      case _ => None
  }

  /** Payloads up to the flush, which has to be the last item. */
  function Lines(items: seq<Item>): Option<seq<Bytes>> {
    if items == [] || items[0].Err? then None
    else
      match items[0].value
      case Flush => if |items| == 1 then Some([]) else None
      case Data(p) =>
        var rest := Lines(items[1..]);
        if rest.Some? then Some([p] + rest.value) else None
      case _ => None
  }

  function Decode(body: Bytes, sideBand: bool): Option<seq<Bytes>> {
    var report := if sideBand then Unband(Items(body)) else Some(body);
    if report.Some? then Lines(Items(report.value)) else None
  }

  function CappedAll(lines: seq<Bytes>): (r: seq<Bytes>)
    ensures |r| == |lines| && forall i :: 0 <= i < |r| ==> r[i] == Capped(lines[i])
  {
    if lines == [] then [] else [Capped(lines[0])] + CappedAll(lines[1..])
  }

  /** The band byte and the cuts disappear again. */
  lemma {:induction false} UnbandReturnsReport(b: Bytes)
    ensures Unband(Good(BandFrames(b))) == Some(b)
    decreases |b|
  {
    hide NextChunk, BandFrames;
    if b == [] {
      FlushEndsBand();
    } else {
      var chunk := NextChunk(b);
      UnbandReturnsReport(b[|chunk|..]);
      BandFramesCons(b);
      UnbandOne(chunk, BandFrames(b[|chunk|..]));
      assert chunk + b[|chunk|..] == b;
    }
  }

  lemma FlushEndsBand()
    ensures Unband(Good(BandFrames([]))) == Some([])
  {
    assert Good([Flush])[0] == Ok(Flush);
  }

  lemma UnbandOne(chunk: Bytes, frames: seq<Frame>)
    requires |chunk| <= CHUNK && Unband(Good(frames)).Some?
    ensures Unband(Good([Banded(chunk)] + frames)) == Some(chunk + Unband(Good(frames)).value)
  {
    var all := [Banded(chunk)] + frames;
    assert all[1..] == frames;
    assert Good(all)[1..] == Good(frames);
    assert ([BAND_DATA] + chunk)[1..] == chunk;
  }

  lemma {:induction false} LinesOfReport(lines: seq<Bytes>)
    ensures Lines(Good(ReportFrames(lines))) == Some(CappedAll(lines))
    decreases |lines|
  {
    var items := Good(ReportFrames(lines));
    if lines == [] {
      assert items[0] == Ok(Flush);
    } else {
      LinesOfReport(lines[1..]);
      assert ReportFrames(lines)[1..] == ReportFrames(lines[1..]);
      assert items[1..] == Good(ReportFrames(lines[1..]));
    }
  }

  /** A client gets back the lines cut at the payload cap, with or without the side band. */
  lemma DecodedReport(lines: seq<Bytes>, sideBand: bool)
    ensures Decode(Body(lines, sideBand), sideBand) == Some(CappedAll(lines))
  {
    var report := EncodeAll(ReportFrames(lines));
    FramesRoundTrip(ReportFrames(lines));
    LinesOfReport(lines);
    if sideBand {
      FramesRoundTrip(BandFrames(report));
      UnbandReturnsReport(report);
    }
  }

  /** The nested framing loses nothing exactly when every line is within the payload cap. */
  lemma NestedRoundTripIff(lines: seq<Bytes>, sideBand: bool)
    ensures Decode(Body(lines, sideBand), sideBand) == Some(lines) <==>
            (forall i :: 0 <= i < |lines| ==> |lines[i]| <= 65516)
  {
    DecodedReport(lines, sideBand);
    var capped := CappedAll(lines);
    if forall i :: 0 <= i < |lines| ==> |lines[i]| <= MAX_PAYLOAD {
      assert forall i :: 0 <= i < |lines| ==> capped[i] == lines[i];
      assert capped == lines;
    } else {
      var i :| 0 <= i < |lines| && |lines[i]| > MAX_PAYLOAD;
      assert capped[i] != lines[i];
    }
  }

  /** A report that fits in one chunk travels behind a single byte of value one. */
  lemma OneChunkOnTheWire(report: Bytes)
    requires 0 < |report| <= 65515
    ensures BandFrames(report) == [Data([1] + report), Flush]
  {
    assert report[|report|..] == [];
  }

  /** A longer one is cut after 65515 bytes. */
  lemma FirstChunk(report: Bytes)
    requires |report| > 65515
    ensures BandFrames(report) == [Data([1] + report[..65515])] + BandFrames(report[65515..])
  {
  }
}
