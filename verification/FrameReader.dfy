/** The WebSocket probe's incremental reader
    (scripts/verify_full_sandbox_runtime.py:449-471): an HTTP response head, then one
    unmasked frame of section 5.2 of RFC 6455, out of whatever pieces `recv` delivers. */
module FrameReader {
  import opened Common

  type byte = b: int | 0 <= b < 256

  /** `Stalled`: the stream ends first and the probe keeps reading nothing.  `Refused`: the
      status line does not say 101. */
  datatype Outcome = Stalled | Refused | Frame(opcode: int, payload: seq<byte>)

  const HEAD_END: seq<byte> := [13, 10, 13, 10]
  const LINE_END: seq<byte> := [13, 10]
  const SWITCHING: seq<byte> := [32, 49, 48, 49, 32]  // " 101 "

  // ----- what the probe reads, as a function of the byte stream -----

  predicate OccursAt(s: seq<byte>, pat: seq<byte>, i: nat) {
    i + |pat| <= |s| && s[i..i + |pat|] == pat
  }

  /** The first occurrence at or after `from_`. */
  function FindFrom(s: seq<byte>, pat: seq<byte>, from_: nat): Option<nat>
    decreases |s| - from_
  {
    if from_ + |pat| > |s| then None
    else if OccursAt(s, pat, from_) then Some(from_)
    else if from_ < |s| then FindFrom(s, pat, from_ + 1)
    else None
  }

  function Find(s: seq<byte>, pat: seq<byte>): Option<nat> { FindFrom(s, pat, 0) }

  function StatusLine(head: seq<byte>): seq<byte> {
    var i := Find(head, LINE_END);
    if i.Some? && i.value <= |head| then head[..i.value] else head
  }

  /** Big-endian, as `struct.unpack` with '!H' and '!Q'. */
  function Unsigned(s: seq<byte>): nat {
    if s == [] then 0 else Unsigned(s[..|s| - 1]) * 256 + s[|s| - 1]
  }

  function ReadFrame(f: seq<byte>): Outcome {
    if |f| < 2 then Stalled
    else
      var n := f[1] % 128;
      if n == 126 then (if |f| < 4 then Stalled else ReadPayload(f, 4, Unsigned(f[2..4])))
      else if n == 127 then (if |f| < 10 then Stalled else ReadPayload(f, 10, Unsigned(f[2..10])))
      else ReadPayload(f, 2, n)
  }

  function ReadPayload(f: seq<byte>, offset: nat, n: nat): Outcome
    requires f != []
  {
    if |f| < offset + n then Stalled else Frame(f[0] % 16, f[offset..offset + n])
  }

  function Read(stream: seq<byte>): Outcome {
    var i := Find(stream, HEAD_END);
    if i.None? || i.value + 4 > |stream| then Stalled
    else if Find(StatusLine(stream[..i.value]), SWITCHING).None? then Refused
    else ReadFrame(stream[i.value + 4..])
  }

  function CloseCode(payload: seq<byte>): nat {
    if |payload| >= 2 then Unsigned(payload[..2]) else 0
  }

  /** The probe's exit status. */
  function ExitStatus(r: Outcome): Option<nat> {
    match r
    case Stalled => None
    case Refused => Some(2)
    case Frame(op, payload) => Some(if op == 8 && CloseCode(payload) == 4001 then 0 else 1)
  }

  // ----- searching -----

  lemma {:induction false} FindIsFirst(s: seq<byte>, pat: seq<byte>, from_: nat)
    ensures var r := FindFrom(s, pat, from_);
            match r
            case None => forall i :: i >= from_ ==> !OccursAt(s, pat, i)
            case Some(i) => from_ <= i && OccursAt(s, pat, i) && forall j :: from_ <= j < i ==> !OccursAt(s, pat, j)
    decreases |s| - from_
  {
    if from_ + |pat| <= |s| && !OccursAt(s, pat, from_) && from_ < |s| {
      FindIsFirst(s, pat, from_ + 1);
    }
  }

  lemma OccursInPrefix(s: seq<byte>, t: seq<byte>, pat: seq<byte>, i: nat)
    requires i + |pat| <= |s|
    ensures OccursAt(s, pat, i) <==> OccursAt(s + t, pat, i)
  {
    assert (s + t)[i..i + |pat|] == s[i..i + |pat|];
  }

  /** More input does not move a match that is already there. */
  lemma FindStable(s: seq<byte>, t: seq<byte>, pat: seq<byte>)
    requires Find(s, pat).Some?
    ensures Find(s + t, pat) == Find(s, pat)
  {
    FindIsFirst(s, pat, 0);
    FindIsFirst(s + t, pat, 0);
    var i := Find(s, pat).value;
    OccursInPrefix(s, t, pat, i);
    var r := Find(s + t, pat);
    assert r.Some?;
    if r.value < i {
      OccursInPrefix(s, t, pat, r.value);
    }
  }

  // ----- the incremental reader -----

  function Flat(chunks: seq<seq<byte>>): seq<byte> {
    if chunks == [] then [] else chunks[0] + Flat(chunks[1..])
  }

  class Connection {
    var chunks: seq<seq<byte>>

    constructor (chunks: seq<seq<byte>>)
      ensures this.chunks == chunks
    {
      this.chunks := chunks;
    }

    /** `frame += connection.recv(4096)` until `frame` has `n` bytes. */
    method FillTo(buffer: seq<byte>, n: nat) returns (full: seq<byte>)
      modifies this
      ensures full + Flat(chunks) == buffer + old(Flat(chunks))
      ensures |full| < n ==> chunks == []
    {
      full := buffer;
      while |full| < n && chunks != []
        invariant full + Flat(chunks) == buffer + old(Flat(chunks))
        decreases |chunks|
      {
        assert full + (chunks[0] + Flat(chunks[1..])) == full + chunks[0] + Flat(chunks[1..]);
        full := full + chunks[0];
        chunks := chunks[1..];
      }
    }

    /** The loop on the response head. */
    method ReadHead() returns (response: seq<byte>)
      modifies this
      ensures response + Flat(chunks) == old(Flat(chunks))
      ensures Find(response, HEAD_END).None? ==> chunks == []
    {
      response := [];
      while Find(response, HEAD_END).None? && chunks != []
        invariant response + Flat(chunks) == old(Flat(chunks))
        decreases |chunks|
      {
        assert response + (chunks[0] + Flat(chunks[1..])) == response + chunks[0] + Flat(chunks[1..]);
        response := response + chunks[0];
        chunks := chunks[1..];
      }
    }

    /** The frame part, with the bytes that arrived together with the head. */
    method ReadFrameFrom(first: seq<byte>) returns (r: Outcome)
      modifies this
      ensures r == ReadFrame(first + old(Flat(chunks)))
    {
      ghost var stream := first + Flat(chunks);
      var frame := FillTo(first, 2);
      if |frame| < 2 {
        assert frame == stream;
        return Stalled;
      }
      var opcode, length, offset := frame[0] % 16, frame[1] % 128, 2;
      if length == 126 {
        frame := FillTo(frame, 4);
        if |frame| < 4 {
          assert frame == stream;
          return Stalled;
        }
        assert stream[2..4] == frame[2..4];
        length, offset := Unsigned(frame[2..4]), 4;
      } else if length == 127 {
        frame := FillTo(frame, 10);
        if |frame| < 10 {
          assert frame == stream;
          return Stalled;
        }
        assert stream[2..10] == frame[2..10];
        length, offset := Unsigned(frame[2..10]), 10;
      }
      frame := FillTo(frame, offset + length);
      if |frame| < offset + length {
        assert frame == stream;
        return Stalled;
      }
      assert stream[offset..offset + length] == frame[offset..offset + length];
      return Frame(opcode, frame[offset..offset + length]);
    }

    /** The probe.  What it finds depends on the bytes that arrive, not on how they are
        cut into pieces. */
    method Probe() returns (r: Outcome)
      modifies this
      ensures r == Read(old(Flat(chunks)))
    {
      ghost var stream := Flat(chunks);
      var response := ReadHead();
      var end := Find(response, HEAD_END);
      FindIsFirst(response, HEAD_END, 0);
      if end.None? {
        assert response == stream;
        return Stalled;
      }
      FindStable(response, Flat(chunks), HEAD_END);
      var head, frame := response[..end.value], response[end.value + 4..];
      assert stream[..end.value] == head;
      assert stream[end.value + 4..] == frame + Flat(chunks);
      if Find(StatusLine(head), SWITCHING).None? {
        return Refused;
      }
      r := ReadFrameFrom(frame);
    }
  }

  // ----- the encoding of section 5.2 -----

  function Bytes(n: nat, k: nat): (s: seq<byte>)
    ensures |s| == k
    decreases k
  {
    if k == 0 then [] else Bytes(n / 256, k - 1) + [n % 256]
  }

  function Pow256(k: nat): nat { if k == 0 then 1 else 256 * Pow256(k - 1) }

  lemma {:induction false} UnsignedOfBytes(n: nat, k: nat)
    requires n < Pow256(k)
    ensures Unsigned(Bytes(n, k)) == n
    decreases k
  {
    if k > 0 {
      UnsignedOfBytes(n / 256, k - 1);
      assert Bytes(n, k)[..k - 1] == Bytes(n / 256, k - 1);
    }
  }

  const LIMIT := 0x1_0000_0000_0000_0000

  lemma PowersOf256()
    ensures Pow256(2) == 0x1_0000 && Pow256(8) == LIMIT
  {
    assert Pow256(2) == 0x1_0000;
    assert Pow256(4) == 0x1_0000_0000;
    assert Pow256(6) == 0x1_0000_0000_0000;
  }

  /** An unmasked frame: four flag bits, the opcode, the shortest length form. */
  function EncodeFrame(flags: nat, opcode: nat, payload: seq<byte>): seq<byte>
    requires flags < 16 && opcode < 16 && |payload| < LIMIT
  {
    [flags * 16 + opcode] +
    (if |payload| < 126 then [|payload|]
     else if |payload| < 0x1_0000 then [126] + Bytes(|payload|, 2)
     else [127] + Bytes(|payload|, 8)) +
    payload
  }

  /** A frame falls into its two first bytes, its extended length and its payload. */
  lemma FrameParts(first: byte, second: byte, length: seq<byte>, payload: seq<byte>, rest: seq<byte>)
    ensures var f, k := [first] + ([second] + length) + payload + rest, 2 + |length|;
            && |f| >= k + |payload| && f[0] == first && f[1] == second
            && f[2..k] == length && f[k..k + |payload|] == payload
  {
  }

  lemma ReadsShort(first: byte, payload: seq<byte>, rest: seq<byte>)
    requires |payload| < 126
    ensures ReadFrame([first] + [|payload|] + payload + rest) == Frame(first % 16, payload)
  {
    FrameParts(first, |payload|, [], payload, rest);
    assert [|payload| as byte] + [] == [|payload|];
  }

  lemma ReadsExtended(first: byte, marker: byte, length: seq<byte>, payload: seq<byte>, rest: seq<byte>)
    requires (marker == 126 && |length| == 2) || (marker == 127 && |length| == 8)
    requires Unsigned(length) == |payload|
    ensures ReadFrame([first] + ([marker] + length) + payload + rest) == Frame(first % 16, payload)
  {
    FrameParts(first, marker, length, payload, rest);
  }

  lemma OpcodeSurvives(flags: nat, opcode: nat)
    requires flags < 16 && opcode < 16
    ensures (flags * 16 + opcode) % 16 == opcode
  {
  }

  /** Decoding inverts encoding, in all three length forms and whatever follows. */
  lemma DecodeInvertsEncode(flags: nat, opcode: nat, payload: seq<byte>, rest: seq<byte>)
    requires flags < 16 && opcode < 16 && |payload| < LIMIT
    ensures ReadFrame(EncodeFrame(flags, opcode, payload) + rest) == Frame(opcode, payload)
  {
    var n, first := |payload|, flags * 16 + opcode;
    OpcodeSurvives(flags, opcode);
    PowersOf256();
    if n < 126 {
      ReadsShort(first, payload, rest);
    } else {
      var marker, k := if n < 0x1_0000 then 126 else 127, if n < 0x1_0000 then 2 else 8;
      UnsignedOfBytes(n, k);
      ReadsExtended(first, marker, Bytes(n, k), payload, rest);
    }
  }

  /** The payload of a close frame (section 5.5.1): a status code, then a reason. */
  function ClosePayload(code: nat, reason: seq<byte>): seq<byte>
    requires code < 0x1_0000
  {
    Bytes(code, 2) + reason
  }

  /** The probe succeeds on a close frame exactly when its status code is 4001. */
  lemma CloseFrameVerdict(flags: nat, code: nat, reason: seq<byte>, rest: seq<byte>)
    requires flags < 16 && code < 0x1_0000 && |reason| + 2 < LIMIT
    ensures ExitStatus(ReadFrame(EncodeFrame(flags, 8, ClosePayload(code, reason)) + rest))
            == Some(if code == 4001 then 0 else 1)
  {
    DecodeInvertsEncode(flags, 8, ClosePayload(code, reason), rest);
    PowersOf256();
    UnsignedOfBytes(code, 2);
    assert ClosePayload(code, reason)[..2] == Bytes(code, 2);
  }

  /** On a frame that is not a close frame it fails. */
  lemma OtherFramesFail(flags: nat, opcode: nat, payload: seq<byte>, rest: seq<byte>)
    requires flags < 16 && opcode < 16 && opcode != 8 && |payload| < LIMIT
    ensures ExitStatus(ReadFrame(EncodeFrame(flags, opcode, payload) + rest)) == Some(1)
  {
    DecodeInvertsEncode(flags, opcode, payload, rest);
  }

  /** A head whose status line does not say 101 makes it fail with status 2, whatever
      follows. */
  lemma RefusedUpgradeFails(head: seq<byte>, rest: seq<byte>)
    requires Find(head + HEAD_END, HEAD_END) == Some(|head|) && Find(StatusLine(head), SWITCHING).None?
    ensures ExitStatus(Read(head + HEAD_END + rest)) == Some(2)
  {
    FindStable(head + HEAD_END, rest, HEAD_END);
    assert (head + HEAD_END + rest)[..|head|] == head;
  }

  /** A frame that has arrived completely is read the same whatever arrives after it. */
  lemma FrameStable(f: seq<byte>, rest: seq<byte>)
    requires ReadFrame(f) != Stalled
    ensures ReadFrame(f + rest) == ReadFrame(f)
  {
    var n := f[1] % 128;
    if n == 126 { assert (f + rest)[2..4] == f[2..4]; }
    if n == 127 { assert (f + rest)[2..10] == f[2..10]; }
    var len := if n == 126 then Unsigned(f[2..4]) else if n == 127 then Unsigned(f[2..10]) else n;
    var offset := if n == 126 then 4 else if n == 127 then 10 else 2;
    assert (f + rest)[offset..offset + len] == f[offset..offset + len];
  }

  /** The whole conversation: a switching head, a frame, anything after it. */
  lemma UpgradedStreamIsRead(head: seq<byte>, flags: nat, opcode: nat, payload: seq<byte>, rest: seq<byte>)
    requires flags < 16 && opcode < 16 && |payload| < LIMIT
    requires Find(head + HEAD_END, HEAD_END) == Some(|head|) && Find(StatusLine(head), SWITCHING).Some?
    ensures Read(head + HEAD_END + (EncodeFrame(flags, opcode, payload) + rest)) == Frame(opcode, payload)
  {
    var tail := EncodeFrame(flags, opcode, payload) + rest;
    FindStable(head + HEAD_END, tail, HEAD_END);
    var stream := head + HEAD_END + tail;
    assert stream[..|head|] == head && stream[|head| + 4..] == tail;
    DecodeInvertsEncode(flags, opcode, payload, rest);
  }
}
