/** The probe's verdict on literal bytes
    (scripts/verify_full_sandbox_runtime.py:449-471, sections 5.2 and 5.5.1 of RFC 6455). */
module FrameBytes {
  import opened Common
  import opened FrameReader

  // ----- the head -----

  lemma OccursBetween(s: seq<byte>, pat: seq<byte>, i: nat)
    ensures OccursAt(s, pat, i) <==> exists before, after :: |before| == i && s == before + pat + after
  {
    if OccursAt(s, pat, i) {
      assert s == s[..i] + pat + s[i + |pat|..];
    }
    if before, after :| |before| == i && s == before + pat + after {
      assert s[i..i + |pat|] == pat;
    }
  }

  ghost predicate Lacks(s: seq<byte>, pat: seq<byte>) {
    forall j: nat :: !OccursAt(s, pat, j)
  }

  /** What stands before the first CR LF. */
  ghost predicate IsFirstLine(line: seq<byte>, head: seq<byte>) {
    Lacks(line, [13, 10]) && (head == line || exists rest :: head == line + [13, 10] + rest)
  }

  ghost predicate Says101(line: seq<byte>) {
    exists j: nat :: OccursAt(line, [32, 49, 48, 49, 32], j)
  }

  /** A line that lacks CR LF holds none together with the CR LF behind it. */
  lemma LineEndsThere(line: seq<byte>, rest: seq<byte>, j: nat)
    requires Lacks(line, [13, 10]) && OccursAt(line + [13, 10] + rest, [13, 10], j)
    ensures j >= |line|
  {
    var head := line + [13, 10] + rest;
    assert head[j + 1] == head[j..j + 2][1] == 10 && head[|line|] == 13;
    assert !OccursAt(line, [13, 10], j);
  }

  lemma FirstLineFound(line: seq<byte>, head: seq<byte>)
    requires IsFirstLine(line, head)
    ensures StatusLine(head) == line
  {
    FindIsFirst(head, LINE_END, 0);
    if head != line {
      var rest :| head == line + [13, 10] + rest;
      assert head[|line|..|line| + 2] == [13, 10];
      assert OccursAt(head, LINE_END, |line|);
      LineEndsThere(line, rest, Find(head, LINE_END).value);
    }
  }

  lemma SwitchingFound(line: seq<byte>)
    ensures Find(line, SWITCHING).Some? <==> Says101(line)
  {
    FindIsFirst(line, SWITCHING, 0);
  }

  lemma HeadFound(head: seq<byte>, rest: seq<byte>)
    requires forall j: nat :: j < |head| ==> !OccursAt(head + [13, 10, 13, 10], [13, 10, 13, 10], j)
    ensures Find(head + [13, 10, 13, 10] + rest, HEAD_END) == Some(|head|)
  {
    var whole := head + HEAD_END;
    FindIsFirst(whole, HEAD_END, 0);
    assert whole[|head|..|head| + 4] == HEAD_END;
    assert OccursAt(whole, HEAD_END, |head|);
    FindStable(whole, rest, HEAD_END);
  }

  /** A head that ends at the first blank line is upgraded exactly if its first line says
      " 101 "; what follows is then the frame, and otherwise the probe is refused. */
  lemma UpgradeByBytes(line: seq<byte>, head: seq<byte>, rest: seq<byte>)
    requires IsFirstLine(line, head)
    requires forall j: nat :: j < |head| ==> !OccursAt(head + [13, 10, 13, 10], [13, 10, 13, 10], j)
    ensures Read(head + [13, 10, 13, 10] + rest) == if Says101(line) then ReadFrame(rest) else Refused
  {
    HeadFound(head, rest);
    var stream := head + [13, 10, 13, 10] + rest;
    assert stream[..|head|] == head && stream[|head| + 4..] == rest;
    FirstLineFound(line, head);
    SwitchingFound(line);
  }

  /** Without a blank line the probe reads on. */
  lemma NoHeadStalls(stream: seq<byte>)
    requires Lacks(stream, [13, 10, 13, 10])
    ensures Read(stream) == Stalled
  {
    FindIsFirst(stream, HEAD_END, 0);
  }

  // ----- the frame -----

  /** Two bytes count 256 to one. */
  lemma TwoBytes(high: byte, low: byte)
    ensures Unsigned([high, low]) == high * 256 + low
  {
    AppendByte([], high);
    AppendByte([high], low);
    assert [] + [high] == [high] && [high] + [low] == [high, low];
  }

  lemma {:induction false} AppendByte(s: seq<byte>, low: byte)
    ensures Unsigned(s + [low]) == Unsigned(s) * 256 + low
  {
    assert (s + [low])[..|s|] == s;
  }

  /** A length below 126 stands in the second byte, whatever its mask bit. */
  lemma ShortFrame(first: byte, second: byte, payload: seq<byte>, rest: seq<byte>)
    requires second % 128 == |payload| < 126
    ensures ReadFrame([first, second] + payload + rest) == Frame(first % 16, payload)
  {
    FrameParts(first, second, [], payload, rest);
    assert [first] + ([second] + []) == [first, second];
  }

  /** After 126 it stands in two bytes, the high one first. */
  lemma MediumFrame(first: byte, second: byte, high: byte, low: byte, payload: seq<byte>, rest: seq<byte>)
    requires second % 128 == 126 && |payload| == high * 256 + low
    ensures ReadFrame([first, second, high, low] + payload + rest) == Frame(first % 16, payload)
  {
    FrameParts(first, second, [high, low], payload, rest);
    assert [first] + ([second] + [high, low]) == [first, second, high, low];
    TwoBytes(high, low);
  }

  /** After 127 it stands in eight bytes; a last byte adds itself to 256 times the rest. */
  lemma LongFrame(first: byte, second: byte, upper: seq<byte>, low: byte, payload: seq<byte>, rest: seq<byte>)
    requires second % 128 == 127 && |upper| == 7 && |payload| == Unsigned(upper) * 256 + low
    ensures ReadFrame([first, second] + (upper + [low]) + payload + rest) == Frame(first % 16, payload)
  {
    FrameParts(first, second, upper + [low], payload, rest);
    assert [first] + ([second] + (upper + [low])) == [first, second] + (upper + [low]);
    AppendByte(upper, low);
  }

  /** A frame that is cut off anywhere stalls. */
  lemma CutFrameStalls(f: seq<byte>, k: nat)
    requires ReadFrame(f).Frame? && k < |f|
    requires k < (if f[1] % 128 == 126 then 4 else if f[1] % 128 == 127 then 10 else 2) + |ReadFrame(f).payload|
    ensures ReadFrame(f[..k]) == Stalled
  {
    if k >= 2 {
      assert f[..k][1] == f[1];
      if f[1] % 128 == 126 && k >= 4 { assert f[..k][2..4] == f[2..4]; }
      if f[1] % 128 == 127 && k >= 10 { assert f[..k][2..10] == f[2..10]; }
    }
  }

  /** The exit status: 0 for opcode 8 with the code 15 * 256 + 161, which is 4001, in its
      first two bytes; 1 for every other frame, also for a payload without two bytes. */
  lemma ExitByBytes(opcode: int, payload: seq<byte>)
    ensures ExitStatus(Frame(opcode, payload)) ==
            Some(if opcode == 8 && |payload| >= 2 && payload[0] == 15 && payload[1] == 161 then 0 else 1)
    ensures ExitStatus(Refused) == Some(2) && ExitStatus(Stalled) == None
  {
    if |payload| >= 2 {
      TwoBytes(payload[0], payload[1]);
      assert payload[..2] == [payload[0], payload[1]];
    }
  }
}
