/** The violation baseline of the gettext check (scripts/check-i18n-gettext.py:134-153,
    186-219): a text file written from a list of keys and read back as a set. */
module Baseline {
  import opened Common

  // ----- Python's string functions -----

  /** Where `str.splitlines` cuts. */
  predicate IsBreak(c: char) {
    || '\n' <= c <= '\r' || '\U{1C}' <= c <= '\U{1E}' || c == '\U{85}' || c == '\U{2028}' || c == '\U{2029}'
  }

  /** What `str.strip` removes. */
  predicate IsSpace(c: char) {
    || IsBreak(c) || c == ' ' || c == '\t' || c == '\U{1F}' || c == '\U{A0}' || c == '\U{1680}'
    || '\U{2000}' <= c <= '\U{200A}' || c == '\U{202F}' || c == '\U{205F}' || c == '\U{3000}'
  }

  function FirstBreak(s: string): (i: nat)
    ensures i <= |s| && (i < |s| ==> IsBreak(s[i])) && forall j :: 0 <= j < i ==> !IsBreak(s[j])
  {
    if s == "" || IsBreak(s[0]) then 0 else 1 + FirstBreak(s[1..])
  }

  function SplitLines(s: string): seq<string>
    decreases |s|
  {
    if s == "" then []
    else
      var i := FirstBreak(s);
      if i == |s| then [s]
      else [s[..i]] + SplitLines(s[i + (if s[i] == '\r' && i + 1 < |s| && s[i + 1] == '\n' then 2 else 1)..])
  }

  function LeftStrip(s: string): string {
    if s != "" && IsSpace(s[0]) then LeftStrip(s[1..]) else s
  }

  function RightStrip(s: string): string {
    if s != "" && IsSpace(s[|s| - 1]) then RightStrip(s[..|s| - 1]) else s
  }

  function Strip(s: string): string { RightStrip(LeftStrip(s)) }

  predicate NoBreaks(s: string) { forall i :: 0 <= i < |s| ==> !IsBreak(s[i]) }

  predicate Trimmed(s: string) { s != "" ==> !IsSpace(s[0]) && !IsSpace(s[|s| - 1]) }

  predicate StartsWithHash(s: string) { s != "" && s[0] == '#' }

  // ----- the file -----

  /** The header is a list of comment lines. */
  predicate IsComment(s: string) { StartsWithHash(s) && NoBreaks(s) }

  function Terminated(lines: seq<string>): string {
    if lines == [] then "" else lines[0] + "\n" + Terminated(lines[1..])
  }

  /** `"\n".join(...)`. */
  function JoinLines(keys: seq<string>): string {
    if keys == [] then "" else if |keys| == 1 then keys[0] else keys[0] + "\n" + JoinLines(keys[1..])
  }

  /** `_write_baseline`. */
  function FileText(comments: seq<string>, keys: seq<string>): string {
    Terminated(comments) + "\n" + JoinLines(keys) + "\n"
  }

  /** `_load_baseline`. */
  function Load(text: string): set<string> {
    set line | line in SplitLines(text) && Strip(line) != "" && !StartsWithHash(line) :: Strip(line)
  }

  /** The keys that survive: not empty, on one line, not padded, not a comment. */
  predicate Storable(k: string) {
    k != "" && NoBreaks(k) && Trimmed(k) && !StartsWithHash(k)
  }

  // ----- cutting the file into lines -----

  lemma {:induction false} CutFirstLine(line: string, rest: string)
    requires NoBreaks(line)
    ensures SplitLines(line + "\n" + rest) == [line] + SplitLines(rest)
  {
    var s := line + "\n" + rest;
    var i := FirstBreak(s);
    assert s[|line|] == '\n';
    assert forall j :: 0 <= j < |line| ==> s[j] == line[j];
    assert i == |line|;
    assert s[..i] == line && s[i + 1..] == rest;
  }

  ghost predicate AllOnOneLine(lines: seq<string>) {
    forall i :: 0 <= i < |lines| ==> NoBreaks(lines[i])
  }

  lemma {:induction false} CutLines(lines: seq<string>, rest: string)
    requires AllOnOneLine(lines)
    ensures SplitLines(Terminated(lines) + rest) == lines + SplitLines(rest)
  {
    if lines == [] {
      assert Terminated(lines) + rest == rest;
    } else {
      CutLines(lines[1..], rest);
      CutFirstLine(lines[0], Terminated(lines[1..]) + rest);
      AppendAssoc(lines[0] + "\n", Terminated(lines[1..]), rest);
      AppendAssoc([lines[0]], lines[1..], SplitLines(rest));
      assert [lines[0]] + lines[1..] == lines;
    }
  }

  lemma {:induction false} JoinedIsTerminated(keys: seq<string>)
    requires keys != []
    ensures JoinLines(keys) + "\n" == Terminated(keys)
  {
    if |keys| == 1 {
      assert Terminated(keys[1..]) == "";
    } else {
      JoinedIsTerminated(keys[1..]);
      assert keys[0] + "\n" + JoinLines(keys[1..]) + "\n" == keys[0] + "\n" + (JoinLines(keys[1..]) + "\n");
    }
  }

  /** The written file is a list of terminated lines. */
  lemma FileIsTerminated(comments: seq<string>, keys: seq<string>)
    ensures FileText(comments, keys) == Terminated(comments + [""] + (if keys == [] then [""] else keys))
  {
    var body := if keys == [] then [""] else keys;
    if keys != [] { JoinedIsTerminated(keys); }
    assert Terminated([""][1..]) == "";
    assert JoinLines(keys) + "\n" == Terminated(body);
    TerminatedAppend(comments, [""] + body);
    assert ([""] + body)[1..] == body;
    assert Terminated([""] + body) == "\n" + Terminated(body);
    assert comments + ([""] + body) == comments + [""] + body;
  }

  /** The lines of a written file: the comments, an empty line, the keys. */
  lemma FileLines(comments: seq<string>, keys: seq<string>)
    requires AllOnOneLine(comments) && AllOnOneLine(keys)
    ensures SplitLines(FileText(comments, keys)) == comments + [""] + (if keys == [] then [""] else keys)
  {
    var lines := comments + [""] + if keys == [] then [""] else keys;
    FileIsTerminated(comments, keys);
    assert Terminated(lines) == Terminated(lines) + "";
    CutLines(lines, "");
    assert lines + [] == lines;
  }

  lemma {:induction false} TerminatedAppend(a: seq<string>, b: seq<string>)
    ensures Terminated(a + b) == Terminated(a) + Terminated(b)
  {
    if a == [] {
      assert a + b == b;
    } else {
      TerminatedAppend(a[1..], b);
      assert (a + b)[1..] == a[1..] + b;
    }
  }

  // ----- stripping -----

  lemma {:induction false} StripTrimmed(s: string)
    requires Trimmed(s)
    ensures Strip(s) == s
  {
  }

  lemma {:induction false} LeftStripFacts(s: string)
    ensures var r := LeftStrip(s);
            (r != "" ==> !IsSpace(r[0])) && (NoBreaks(s) ==> NoBreaks(r))
  {
    if s != "" && IsSpace(s[0]) { LeftStripFacts(s[1..]); }
  }

  lemma {:induction false} RightStripFacts(s: string)
    ensures var r := RightStrip(s);
            (r != "" ==> !IsSpace(r[|r| - 1]) && r[0] == s[0]) && |r| <= |s| && (NoBreaks(s) ==> NoBreaks(r))
  {
    if s != "" && IsSpace(s[|s| - 1]) { RightStripFacts(s[..|s| - 1]); }
  }

  lemma StripFacts(s: string)
    requires NoBreaks(s)
    ensures NoBreaks(Strip(s)) && Trimmed(Strip(s))
  {
    LeftStripFacts(s);
    RightStripFacts(LeftStrip(s));
  }

  lemma {:induction false} LinesHaveNoBreaks(s: string)
    ensures AllOnOneLine(SplitLines(s))
    decreases |s|
  {
    if s != "" {
      var i := FirstBreak(s);
      if i < |s| {
        LinesHaveNoBreaks(s[i + (if s[i] == '\r' && i + 1 < |s| && s[i + 1] == '\n' then 2 else 1)..]);
      }
    }
  }

  // ----- the round trip, exactly -----

  function KeySet(keys: seq<string>): set<string> { set k | k in keys }

  lemma LoadedIsTidy(text: string, k: string)
    requires k in Load(text)
    ensures k != "" && NoBreaks(k) && Trimmed(k)
  {
    LinesHaveNoBreaks(text);
    var line :| line in SplitLines(text) && Strip(line) != "" && !StartsWithHash(line) && k == Strip(line);
    StripFacts(line);
  }

  lemma LoadedLine(comments: seq<string>, keys: seq<string>, line: string)
    requires forall i :: 0 <= i < |comments| ==> IsComment(comments[i])
    requires AllOnOneLine(keys)
    requires line in SplitLines(FileText(comments, keys)) && Strip(line) != "" && !StartsWithHash(line)
    ensures line in keys
  {
    FileLines(comments, keys);
    assert Strip("") == "";
  }

  /** Reading a written baseline gives back exactly the written keys exactly when every
      key is storable. */
  lemma RoundTripExactly(comments: seq<string>, keys: seq<string>)
    requires forall i :: 0 <= i < |comments| ==> IsComment(comments[i])
    ensures Load(FileText(comments, keys)) == KeySet(keys) <==> forall i :: 0 <= i < |keys| ==> Storable(keys[i])
  {
    var text := FileText(comments, keys);
    if Load(text) == KeySet(keys) {
      forall i | 0 <= i < |keys| ensures keys[i] != "" && NoBreaks(keys[i]) && Trimmed(keys[i]) {
        assert keys[i] in KeySet(keys);
        LoadedIsTidy(text, keys[i]);
      }
      forall i | 0 <= i < |keys| ensures !StartsWithHash(keys[i]) {
        assert keys[i] in Load(text);
        var line :| line in SplitLines(text) && Strip(line) != "" && !StartsWithHash(line) && keys[i] == Strip(line);
        LoadedLine(comments, keys, line);
        StripTrimmed(line);
      }
    }
    if forall i :: 0 <= i < |keys| ==> Storable(keys[i]) {
      FileLines(comments, keys);
      forall k | k in Load(text) ensures k in KeySet(keys) {
        var line :| line in SplitLines(text) && Strip(line) != "" && !StartsWithHash(line) && k == Strip(line);
        LoadedLine(comments, keys, line);
        StripTrimmed(line);
      }
      forall k | k in KeySet(keys) ensures k in Load(text) {
        StripTrimmed(k);
        assert k in SplitLines(text);
      }
    }
  }

  /** The comparison of `main`: the keys that are new, and the entries that are gone. */
  function NewKeys(current: seq<string>, baseline: set<string>): seq<string> {
    if current == [] then []
    else (if current[0] in baseline then [] else [current[0]]) + NewKeys(current[1..], baseline)
  }

  function RemovedKeys(current: seq<string>, baseline: set<string>): set<string> {
    baseline - KeySet(current)
  }

  lemma {:induction false} NothingNew(current: seq<string>, baseline: set<string>)
    ensures NewKeys(current, baseline) == [] <==> KeySet(current) <= baseline
  {
    if current != [] {
      NothingNew(current[1..], baseline);
      assert KeySet(current) == {current[0]} + KeySet(current[1..]);
    }
  }

  lemma {:induction false} NewKeysCount(current: seq<string>, baseline: set<string>, k: string)
    ensures multiset(NewKeys(current, baseline))[k] == if k in baseline then 0 else multiset(current)[k]
  {
    if current != [] {
      var first := if current[0] in baseline then [] else [current[0]];
      NewKeysCount(current[1..], baseline, k);
      assert current == [current[0]] + current[1..];
      assert multiset(NewKeys(current, baseline)) == multiset(first) + multiset(NewKeys(current[1..], baseline));
    }
  }

  lemma {:induction false} NewKeysAppend(current: seq<string>, more: seq<string>, baseline: set<string>)
    ensures NewKeys(current + more, baseline) == NewKeys(current, baseline) + NewKeys(more, baseline)
  {
    if current == [] {
      assert current + more == more;
    } else {
      NewKeysAppend(current[1..], more, baseline);
      assert (current + more)[1..] == current[1..] + more;
      AppendAssoc(if current[0] in baseline then [] else [current[0]], NewKeys(current[1..], baseline), NewKeys(more, baseline));
    }
  }

  /** A key is reported new as often as it is current if it is not in the baseline, and else
      never; one stretch of keys after the other, in the order of the scan. */
  lemma NewKeysExactly(current: seq<string>, more: seq<string>, baseline: set<string>)
    ensures forall k :: multiset(NewKeys(current, baseline))[k] == if k in baseline then 0 else multiset(current)[k]
    ensures NewKeys(current + more, baseline) == NewKeys(current, baseline) + NewKeys(more, baseline)
  {
    forall k ensures multiset(NewKeys(current, baseline))[k] == if k in baseline then 0 else multiset(current)[k] {
      NewKeysCount(current, baseline, k);
    }
    NewKeysAppend(current, more, baseline);
  }

  /** An entry is gone if and only if it is in the baseline and not current. */
  lemma RemovedExactly(current: seq<string>, baseline: set<string>, k: string)
    ensures k in RemovedKeys(current, baseline) <==> k in baseline && k !in current
  {
  }

  lemma SameSet(a: set<string>, b: set<string>)
    ensures b <= a && a - b == {} <==> a == b
  {
    if b <= a && a - b == {} {
      forall x | x in a ensures x in b { assert x !in a - b; }
    }
  }

  /** A check straight after an update reports nothing new and nothing removed, exactly
      when the keys are storable. */
  lemma CheckAfterUpdate(comments: seq<string>, keys: seq<string>)
    requires forall i :: 0 <= i < |comments| ==> IsComment(comments[i])
    ensures var baseline := Load(FileText(comments, keys));
            NewKeys(keys, baseline) == [] && RemovedKeys(keys, baseline) == {} <==>
            forall i :: 0 <= i < |keys| ==> Storable(keys[i])
  {
    RoundTripExactly(comments, keys);
    NothingNew(keys, Load(FileText(comments, keys)));
    SameSet(Load(FileText(comments, keys)), KeySet(keys));
  }

  // ----- the characters -----

  /** The line breaks of `str.splitlines` and the blanks of `str.strip`, by code point. */
  lemma BreaksAndSpaces(c: char)
    ensures IsBreak(c) <==> c as int in {10, 11, 12, 13, 28, 29, 30, 133, 8232, 8233}
    ensures IsSpace(c) <==>
            || 9 <= c as int <= 13 || 28 <= c as int <= 32 || 8192 <= c as int <= 8202
            || c as int in {133, 160, 5760, 8232, 8233, 8239, 8287, 12288}
  {
  }

  /** A line ends at its first break, which is dropped; a carriage return takes a line feed
      behind it along. */
  lemma {:induction false} CutAtBreak(line: string, c: char, rest: string)
    requires NoBreaks(line) && IsBreak(c)
    ensures var text := line + [c] + rest;
            SplitLines(text) == [line] + SplitLines(if c == '\r' && rest != "" && rest[0] == '\n' then rest[1..] else rest)
  {
    var text := line + [c] + rest;
    FirstBreakIs(line, c, rest);
    assert text[..|line|] == line && text[|line| + 1..] == rest;
    if c == '\r' && rest != "" && rest[0] == '\n' { assert text[|line| + 2..] == rest[1..]; }
  }

  lemma FirstBreakIs(line: string, c: char, rest: string)
    requires NoBreaks(line) && IsBreak(c)
    ensures FirstBreak(line + [c] + rest) == |line|
  {
    var text := line + [c] + rest;
    assert text[|line|] == c && forall j :: 0 <= j < |line| ==> text[j] == line[j];
  }

  /** Stripping takes blanks off both ends and stops at the first other character. */
  lemma StripExactly(s: string) returns (before: string, after: string)
    ensures s == before + Strip(s) + after && Trimmed(Strip(s))
    ensures forall i :: 0 <= i < |before| ==> IsSpace(before[i])
    ensures forall i :: 0 <= i < |after| ==> IsSpace(after[i])
  {
    before := LeftStripped(s);
    after := RightStripped(LeftStrip(s));
    LeftStripFacts(s);
    RightStripFacts(LeftStrip(s));
  }

  lemma {:induction false} LeftStripped(s: string) returns (before: string)
    ensures s == before + LeftStrip(s) && forall i :: 0 <= i < |before| ==> IsSpace(before[i])
  {
    before := "";
    if s != "" && IsSpace(s[0]) {
      var more := LeftStripped(s[1..]);
      before := [s[0]] + more;
      assert s == [s[0]] + s[1..];
    }
  }

  lemma {:induction false} RightStripped(s: string) returns (after: string)
    ensures s == RightStrip(s) + after && forall i :: 0 <= i < |after| ==> IsSpace(after[i])
  {
    after := "";
    if s != "" && IsSpace(s[|s| - 1]) {
      var more := RightStripped(s[..|s| - 1]);
      after := more + [s[|s| - 1]];
      assert s == s[..|s| - 1] + [s[|s| - 1]];
    }
  }

  /** The file, character by character: every header line and every key ends in a line feed,
      and a line feed stands between header and keys; no keys leave an empty line. */
  lemma {:induction false} FileByLine(comments: seq<string>, keys: seq<string>)
    ensures FileText([], []) == "\n\n"
    ensures keys != [] ==> FileText([], keys) == "\n" + Terminated(keys)
    ensures comments != [] ==> FileText(comments, keys) == comments[0] + "\n" + FileText(comments[1..], keys)
    ensures keys != [] ==> Terminated(keys) == keys[0] + "\n" + Terminated(keys[1..])
  {
    if keys != [] { JoinedIsTerminated(keys); }
    if comments != [] {
      var a, t, j := comments[0] + "\n", Terminated(comments[1..]), "\n" + JoinLines(keys) + "\n";
      assert FileText(comments, keys) == a + t + j;
      assert FileText(comments[1..], keys) == t + j;
      assert a + t + j == a + (t + j);
    }
  }

  /** A line is loaded, stripped, unless it is blank or its first character is `#`. */
  lemma LoadsLines(lines: seq<string>, k: string)
    requires AllOnOneLine(lines)
    ensures k in Load(Terminated(lines)) <==>
            exists i :: 0 <= i < |lines| && k == Strip(lines[i]) && k != "" && lines[i] != "" && lines[i][0] != '#'
  {
    CutLines(lines, "");
    assert Terminated(lines) + "" == Terminated(lines) && lines + [] == lines;
    assert Strip("") == "";
  }
}
