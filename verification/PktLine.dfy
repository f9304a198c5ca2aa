/** pkt-line framing (gitprotocol-common, section "pkt-line Format") as the server reads and writes it. */
module PktLine {
  import opened Base

  const MAX_PAYLOAD := 65516

  datatype Frame = Flush | Delim | RespEnd | Data(payload: Bytes)

  datatype PktError = Truncated | BadLength | ShortPayload | Oversized

  // ── the length prefix ────────────────────────────────────────────────

  function Digit(b: byte): Option<nat> {
    if 48 <= b <= 57 then Some(b - 48)
    else if 97 <= b <= 102 then Some(b - 87)
    else if 65 <= b <= 70 then Some(b - 55)
    else None
  }

  function Number(digits: Bytes): Option<nat> {
    if digits == [] then Some(0)
    else
      var high := Number(digits[..|digits| - 1]);
      var low := Digit(digits[|digits| - 1]);
      if high.Some? && low.Some? then Some(high.value * 16 + low.value) else None
  }

  /** The number parser behind the prefix also takes upper-case digits and one leading plus sign. */
  function ParseLength(prefix: Bytes): Option<nat>
    requires |prefix| == 4
  {
    Number(if prefix[0] == 43 then prefix[1..] else prefix)
  }

  function Hex(d: nat): byte
    requires d < 16
  {
    if d < 10 then 48 + d else 87 + d
  }

  function LengthPrefix(n: nat): (prefix: Bytes)
    requires n < 65536
    ensures |prefix| == 4
  {
    [Hex(n / 16 / 16 / 16), Hex(n / 16 / 16 % 16), Hex(n / 16 % 16), Hex(n % 16)]
  }

  lemma NumberOneMore(digits: Bytes, b: byte)
    ensures Number(digits + [b]) ==
            if Number(digits).Some? && Digit(b).Some? then Some(Number(digits).value * 16 + Digit(b).value) else None
  {
    assert (digits + [b])[..|digits|] == digits;
  }

  lemma HexIsDigit(d: nat)
    requires d < 16
    ensures Digit(Hex(d)) == Some(d) && Hex(d) != 43
  {
  }

  lemma PrefixParses(n: nat)
    requires n < 65536
    ensures ParseLength(LengthPrefix(n)) == Some(n)
  {
    var a, b, c := n / 16, n / 16 / 16, n / 16 / 16 / 16;
    HexIsDigit(c);
    HexIsDigit(b % 16);
    HexIsDigit(a % 16);
    HexIsDigit(n % 16);
    NumberOneMore([], Hex(c));
    NumberOneMore([Hex(c)], Hex(b % 16));
    NumberOneMore([Hex(c), Hex(b % 16)], Hex(a % 16));
    NumberOneMore([Hex(c), Hex(b % 16), Hex(a % 16)], Hex(n % 16));
    assert [] + [Hex(c)] == [Hex(c)];
    assert [Hex(c)] + [Hex(b % 16)] == [Hex(c), Hex(b % 16)];
    assert [Hex(c), Hex(b % 16)] + [Hex(a % 16)] == [Hex(c), Hex(b % 16), Hex(a % 16)];
    assert [Hex(c), Hex(b % 16), Hex(a % 16)] + [Hex(n % 16)] == LengthPrefix(n);
  }

  // ── reading one frame ────────────────────────────────────────────────

  function Read(buf: Bytes): Result<(Frame, Bytes), PktError> {
    if |buf| < 4 then Err(Truncated)
    else
      match ParseLength(buf[..4])
      case None => Err(BadLength)
      case Some(n) =>
        if n == 0 then Ok((Flush, buf[4..]))
        else if n == 1 then Ok((Delim, buf[4..]))
        else if n == 2 then Ok((RespEnd, buf[4..]))
        else if n == 3 then Err(BadLength)
        else if n > MAX_PAYLOAD + 4 then Err(Oversized)
        else if |buf| < n then Err(ShortPayload)
        else Ok((Data(buf[4..n]), buf[n..]))
  }

  function Payload(f: Frame): Bytes {
    if f.Data? then f.payload else []
  }

  /** The number in a frame's prefix. */
  function LengthOf(f: Frame): nat {
    match f
    case Flush => 0
    case Delim => 1
    case RespEnd => 2
    case Data(p) => |p| + 4
  }

  predicate Fits(f: Frame) {
    |Payload(f)| <= MAX_PAYLOAD
  }

  /** The buffer is some spelling of the frame's length, its payload and the tail. */
  predicate Spells(buf: Bytes, f: Frame, tail: Bytes) {
    |buf| >= 4 && ParseLength(buf[..4]) == Some(LengthOf(f)) && Fits(f) && buf[4..] == Payload(f) + tail
  }

  lemma SpelledIsRead(buf: Bytes, f: Frame, tail: Bytes)
    requires Spells(buf, f, tail)
    ensures Read(buf) == Ok((f, tail))
  {
    if f.Data? {
      var n := LengthOf(f);
      assert |buf[4..]| == |f.payload| + |tail|;
      assert buf[4..n] == buf[4..][..n - 4] && buf[n..] == buf[4..][n - 4..];
    } else {
      assert buf[4..] == tail;
    }
  }

  /**
   Exactly what is read: a frame comes back if and only if the buffer spells it. In particular every
   successful read takes at least four bytes.
   */
  lemma ReadIsExact(buf: Bytes, f: Frame, tail: Bytes)
    ensures Read(buf) == Ok((f, tail)) <==> Spells(buf, f, tail)
    ensures Read(buf) == Ok((f, tail)) ==> |tail| + 4 <= |buf|
  {
    if Read(buf) == Ok((f, tail)) && f.Data? {
      assert buf[4..] == buf[4..|f.payload| + 4] + buf[|f.payload| + 4..];
    }
    if Spells(buf, f, tail) {
      SpelledIsRead(buf, f, tail);
    }
  }

  function Encode(f: Frame): Bytes
    requires Fits(f)
  {
    LengthPrefix(LengthOf(f)) + Payload(f)
  }

  lemma ReadBack(f: Frame, tail: Bytes)
    requires Fits(f)
    ensures Read(Encode(f) + tail) == Ok((f, tail))
  {
    var buf := Encode(f) + tail;
    PrefixParses(LengthOf(f));
    assert buf[..4] == LengthPrefix(LengthOf(f));
    assert buf[4..] == Payload(f) + tail;
    SpelledIsRead(buf, f, tail);
  }

  // ── the iterator ─────────────────────────────────────────────────────

  type Item = Result<Frame, PktError>

  /** What iterating over a buffer yields: its frames, and at most one error, which ends it. */
  function Items(buf: Bytes): seq<Item>
    decreases |buf|
  {
    if buf == [] then []
    else
      match Read(buf)
      case Err(e) => [Err(e)]
      case Ok((f, tail)) => if |tail| < |buf| then [Ok(f)] + Items(tail) else []
  }

  class PktIter {
    var buf: Bytes
    var done: bool

    /** The items still to come. */
    ghost function Rest(): seq<Item>
      reads this
    {
      if done then [] else Items(buf)
    }

    constructor (buf: Bytes)
      ensures Rest() == Items(buf)
    {
      this.buf := buf;
      done := false;
    }

    method Next() returns (item: Option<Item>)
      modifies this
      ensures item.None? <==> old(Rest()) == []
      ensures item.None? ==> Rest() == []
      ensures item.Some? ==> old(Rest()) == [item.value] + Rest()
      ensures item.Some? && item.value.Ok? ==> |buf| + 4 <= |old(buf)|
    {
      if done || buf == [] {
        return None;
      }
      match Read(buf) {
        case Ok((line, tail)) =>
          ReadIsExact(buf, line, tail);
          buf := tail;
          return Some(Ok(line));
        case Err(e) =>
          done := true;
          return Some(Err(e));
      }
    }
  }

  /** Progress of an iteration: what has been collected, the item in hand and what is still to come. */
  ghost predicate Gathered(all: seq<Item>, items: seq<Item>, item: Option<Item>, rest: seq<Item>) {
    if item.Some? then all == items + [item.value] + rest else all == items && rest == []
  }

  lemma GatheredOneMore(all: seq<Item>, items: seq<Item>, last: Item, before: seq<Item>, item: Option<Item>, rest: seq<Item>)
    requires Gathered(all, items, Some(last), before)
    requires if item.Some? then before == [item.value] + rest else before == [] && rest == []
    ensures Gathered(all, items + [last], item, rest)
  {
    assert item.Some? ==> items + [last] + before == items + [last] + [item.value] + rest;
    assert item.None? ==> items + [last] + before == items + [last];
  }

  /** Iterating to the end collects exactly the items of the buffer. */
  method Collect(buf: Bytes) returns (items: seq<Item>)
    ensures items == Items(buf)
  {
    hide Items, Gathered;
    var iter := new PktIter(buf);
    ghost var all := iter.Rest();
    items := [];
    var item := iter.Next();
    GatheredFirst(all, item, iter.Rest());
    while item.Some?
      invariant Gathered(all, items, item, iter.Rest())
      decreases |iter.Rest()|, item.Some?
    {
      ghost var before := iter.Rest();
      var last := item.value;
      item := iter.Next();
      GatheredOneMore(all, items, last, before, item, iter.Rest());
      items := items + [last];
    }
    GatheredLast(all, items, iter.Rest());
  }

  lemma GatheredFirst(all: seq<Item>, item: Option<Item>, rest: seq<Item>)
    requires if item.Some? then all == [item.value] + rest else all == [] && rest == []
    ensures Gathered(all, [], item, rest)
  {
  }

  lemma GatheredLast(all: seq<Item>, items: seq<Item>, rest: seq<Item>)
    requires Gathered(all, items, None, rest)
    ensures all == items
  {
  }

  predicate AllFit(frames: seq<Frame>) {
    forall i :: 0 <= i < |frames| ==> Fits(frames[i])
  }

  function EncodeAll(frames: seq<Frame>): Bytes
    requires AllFit(frames)
  {
    if frames == [] then [] else Encode(frames[0]) + EncodeAll(frames[1..])
  }

  function Good(frames: seq<Frame>): (items: seq<Item>)
    ensures |items| == |frames| && forall i :: 0 <= i < |frames| ==> items[i] == Ok(frames[i])
  {
    if frames == [] then [] else [Ok(frames[0])] + Good(frames[1..])
  }

  /** Iterating over the encoding of any list of frames returns that list. */
  lemma {:induction false} FramesRoundTrip(frames: seq<Frame>)
    requires AllFit(frames)
    ensures Items(EncodeAll(frames)) == Good(frames)
    decreases |frames|
  {
    if frames != [] {
      FramesRoundTrip(frames[1..]);
      ReadBack(frames[0], EncodeAll(frames[1..]));
    }
  }

  lemma {:induction false} EncodeOneMore(frames: seq<Frame>, f: Frame)
    requires AllFit(frames) && Fits(f)
    ensures AllFit(frames + [f])
    ensures EncodeAll(frames + [f]) == EncodeAll(frames) + Encode(f)
    decreases |frames|
  {
    hide Encode;
    if frames == [] {
      assert [] + [f] == [f] && [f][1..] == [];
    } else {
      assert (frames + [f])[1..] == frames[1..] + [f];
      EncodeOneMore(frames[1..], f);
      assert Encode(frames[0]) + (EncodeAll(frames[1..]) + Encode(f)) == Encode(frames[0]) + EncodeAll(frames[1..]) + Encode(f);
    }
  }

  // ── writing ──────────────────────────────────────────────────────────

  /** What a release build sends for a payload: everything beyond the cap is dropped. */
  function Capped(payload: Bytes): (p: Bytes)
    ensures |p| <= MAX_PAYLOAD && p <= payload
    ensures |payload| <= MAX_PAYLOAD ==> p == payload
  {
    if |payload| > MAX_PAYLOAD then payload[..MAX_PAYLOAD] else payload
  }

  class Writer {
    var out: Bytes

    constructor ()
      ensures out == []
    {
      out := [];
    }

    method WriteData(payload: Bytes)
      modifies this
      ensures out == old(out) + Encode(Data(Capped(payload)))
    {
      var p := if |payload| > MAX_PAYLOAD then payload[..MAX_PAYLOAD] else payload;
      var length := |p| + 4;
      out := out + LengthPrefix(length);
      out := out + p;
      assert Encode(Data(p)) == LengthPrefix(length) + p;
    }

    method WriteFlush()
      modifies this
      ensures out == old(out) + Encode(Flush)
    {
      out := out + [48, 48, 48, 48];
      assert Encode(Flush) == [48, 48, 48, 48];
    }
  }

  // ── frames on the wire ───────────────────────────────────────────────

  /** One lower-case hexadecimal digit. */
  function DigitText(d: nat): byte
    requires d < 16
  {
    "0123456789abcdef"[d] as int
  }

  lemma HexIsText(d: nat)
    requires d < 16
    ensures Hex(d) == DigitText(d)
  {
    assert "0123456789abcdef" == ['0', '1', '2', '3', '4', '5', '6', '7', '8', '9', 'a', 'b', 'c', 'd', 'e', 'f'];
  }

  /** A data frame: four digits for the length with the digits themselves counted, then the payload, at most 65516 bytes. */
  lemma DataOnTheWire(p: Bytes)
    requires |p| <= 65516
    ensures var n := |p| + 4;
            Fits(Data(p)) && Capped(p) == p &&
            Encode(Data(p)) == [DigitText(n / 4096), DigitText(n / 256 % 16), DigitText(n / 16 % 16), DigitText(n % 16)] + p
  {
    var n := |p| + 4;
    HexIsText(n / 4096);
    HexIsText(n / 256 % 16);
    HexIsText(n / 16 % 16);
    HexIsText(n % 16);
    assert n / 16 / 16 / 16 == n / 4096 && n / 16 / 16 == n / 256;
  }

  /** The three frames without a payload. */
  lemma SpecialsOnTheWire()
    ensures Encode(Flush) == [48, 48, 48, 48] && Encode(Delim) == [48, 48, 48, 49] && Encode(RespEnd) == [48, 48, 48, 50]
  {
  }

  /** A longer payload is cut to 65516 bytes. */
  lemma CutPayload(p: Bytes)
    requires |p| > 65516
    ensures Capped(p) == p[..65516]
  {
  }

  /** What is no frame, and how it is told. */
  lemma ReadErrors(buf: Bytes)
    ensures |buf| < 4 ==> Read(buf) == Err(Truncated)
    ensures |buf| >= 4 && ParseLength(buf[..4]).None? ==> Read(buf) == Err(BadLength)
    ensures |buf| >= 4 && ParseLength(buf[..4]) == Some(3) ==> Read(buf) == Err(BadLength)
    ensures |buf| >= 4 && ParseLength(buf[..4]).Some? && ParseLength(buf[..4]).value > 65520 ==> Read(buf) == Err(Oversized)
    ensures |buf| >= 4 && ParseLength(buf[..4]).Some? && |buf| < ParseLength(buf[..4]).value <= 65520 && ParseLength(buf[..4]).value > 3
            ==> Read(buf) == Err(ShortPayload)
  {
  }

  /** Four hexadecimal digits of either case are read by their places; a leading plus counts for nothing. */
  lemma DigitsByPlace(a: byte, b: byte, c: byte, d: byte)
    ensures a != 43 && Digit(a).Some? && Digit(b).Some? && Digit(c).Some? && Digit(d).Some? ==>
              ParseLength([a, b, c, d]) == Some(4096 * Digit(a).value + 256 * Digit(b).value + 16 * Digit(c).value + Digit(d).value)
    ensures a != 43 && !(Digit(a).Some? && Digit(b).Some? && Digit(c).Some? && Digit(d).Some?) ==> ParseLength([a, b, c, d]).None?
    ensures ParseLength([43, b, c, d]) == Number([b, c, d])
  {
    NumberOneMore([], a);
    NumberOneMore([a], b);
    NumberOneMore([a, b], c);
    NumberOneMore([a, b, c], d);
    assert [] + [a] == [a] && [a] + [b] == [a, b] && [a, b] + [c] == [a, b, c] && [a, b, c] + [d] == [a, b, c, d];
    assert [43, b, c, d][1..] == [b, c, d];
  }
}
