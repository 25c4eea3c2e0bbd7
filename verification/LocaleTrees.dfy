/** Locale files as trees, and the two ways the i18n scripts add to them:
    a dotted path at a time (scripts/i18n_add_wave_a_keys.py:61-93) and a whole tree
    at a time (scripts/i18n_add_wave_c1_keys.py:205-211). */
module LocaleTrees {

  datatype Json =
    | Null
    | Str(text: string)
    | Scalar(repr: string)  // a number, a boolean or a list
    | Dict(fields: map<string, Json>)

  const EMPTY := Dict(map[])

  /** `dict.get`: a missing key reads as null. */
  function Get(t: Json, k: string): Json
    requires t.Dict?
  {
    if k in t.fields then t.fields[k] else Null
  }

  function Put(t: Json, k: string, v: Json): Json
    requires t.Dict?
  {
    Dict(t.fields[k := v])
  }

  type Path = p: seq<string> | p != [] witness [""]

  // ----- one dotted path -----

  /** A parent on the way is there and is not a dict: the addition is skipped. */
  predicate Blocked(t: Json, p: Path)
    requires t.Dict?
    decreases |p|
  {
    |p| > 1 && match Get(t, p[0])
               case Null => false
               case Dict(_) => Blocked(Get(t, p[0]), p[1..])
               case _ => true
  }

  /** What the cursor walks into: a missing or null parent counts as an empty dict. */
  function Parent(t: Json, k: string): Json
    requires t.Dict?
  {
    if Get(t, k).Dict? then Get(t, k) else EMPTY
  }

  /** The tree after one addition. */
  function SetPath(t: Json, p: Path, v: string): (r: Json)
    requires t.Dict?
    ensures r.Dict?
    decreases |p|
  {
    if Blocked(t, p) then t
    else if |p| == 1 then Put(t, p[0], Str(v))
    else Put(t, p[0], SetPath(Parent(t, p[0]), p[1..], v))
  }

  /** What the addition returns: whether it is neither skipped nor already there. */
  predicate Applies(t: Json, p: Path, v: string)
    requires t.Dict?
    decreases |p|
  {
    !Blocked(t, p) && if |p| == 1 then Get(t, p[0]) != Str(v) else Applies(Parent(t, p[0]), p[1..], v)
  }

  lemma {:induction false} BlockedBelow(t: Json, p: Path)
    requires t.Dict? && |p| > 1 && !Blocked(t, p)
    ensures !Blocked(Parent(t, p[0]), p[1..])
  {
    if |p| > 2 && !Get(t, p[0]).Dict? {
      assert Get(EMPTY, p[1]) == Null;
    }
  }

  /** The call returns True exactly when it changed the tree. */
  lemma {:induction false} ReturnsWhetherChanged(t: Json, p: Path, v: string)
    requires t.Dict?
    ensures Applies(t, p, v) <==> SetPath(t, p, v) != t
    decreases |p|
  {
    if !Blocked(t, p) {
      if |p| == 1 {
        if Get(t, p[0]) == Str(v) {
          assert t.fields[p[0] := Str(v)] == t.fields;
        } else {
          assert SetPath(t, p, v).fields[p[0]] == Str(v);
        }
      } else {
        BlockedBelow(t, p);
        var sub := Parent(t, p[0]);
        ReturnsWhetherChanged(sub, p[1..], v);
        if SetPath(t, p, v) == t {
          assert t.fields[p[0]] == SetPath(sub, p[1..], v);
        } else if SetPath(sub, p[1..], v) == sub {
          NeverEmpty(sub, p[1..], v);
        }
      }
    }
  }

  lemma {:induction false} NeverEmpty(t: Json, p: Path, v: string)
    requires t.Dict? && !Blocked(t, p)
    ensures p[0] in SetPath(t, p, v).fields
  {
  }

  /** The path leads through dicts to the string. */
  predicate IsLeaf(t: Json, p: Path, v: string)
    decreases |p|
  {
    t.Dict? && p[0] in t.fields &&
    if |p| == 1 then t.fields[p[0]] == Str(v) else IsLeaf(t.fields[p[0]], p[1..], v)
  }

  /** A further addition of the same value changes nothing. */
  predicate Settled(t: Json, p: Path, v: string)
    requires t.Dict?
  {
    SetPath(t, p, v) == t
  }

  /** After an addition the path holds the value, or a parent blocks it and nothing was
      written; either way it is settled. */
  lemma {:induction false} SetSettles(t: Json, p: Path, v: string)
    requires t.Dict?
    ensures var r := SetPath(t, p, v);
            && (if Blocked(t, p) then r == t && Blocked(r, p) else IsLeaf(r, p, v))
            && Settled(r, p, v)
    decreases |p|
  {
    if !Blocked(t, p) {
      var r := SetPath(t, p, v);
      if |p| == 1 {
        assert r.fields[p[0] := Str(v)] == r.fields;
      } else {
        var sub := Parent(t, p[0]);
        BlockedBelow(t, p);
        SetSettles(sub, p[1..], v);
        assert Parent(r, p[0]) == SetPath(sub, p[1..], v);
        assert r.fields[p[0] := SetPath(sub, p[1..], v)] == r.fields;
      }
    }
  }

  /** Settled on a nested path means blocked, or present and settled below. */
  lemma SettledBelow(t: Json, p: Path, v: string)
    requires t.Dict? && |p| > 1
    ensures Settled(t, p, v) <==>
            Blocked(t, p) || (Get(t, p[0]).Dict? && Settled(Get(t, p[0]), p[1..], v))
  {
    if !Blocked(t, p) {
      var sub := Parent(t, p[0]);
      if Settled(t, p, v) {
        assert t.fields[p[0]] == SetPath(sub, p[1..], v);
      }
      if Get(t, p[0]).Dict? && Settled(Get(t, p[0]), p[1..], v) {
        assert t.fields[p[0] := Get(t, p[0])] == t.fields;
      }
    }
  }

  /** Nothing is left to do exactly where the value stands or a parent blocks the path. */
  lemma {:induction false} SettledExactly(t: Json, p: Path, v: string)
    requires t.Dict?
    ensures Settled(t, p, v) <==> Blocked(t, p) || IsLeaf(t, p, v)
    decreases |p|
  {
    if |p| == 1 {
      SettledLeaf(t, p, v);
    } else {
      SettledBelow(t, p, v);
      if Get(t, p[0]).Dict? { SettledExactly(Get(t, p[0]), p[1..], v); }
    }
  }

  lemma SettledLeaf(t: Json, p: Path, v: string)
    requires t.Dict? && |p| == 1
    ensures Settled(t, p, v) <==> Get(t, p[0]) == Str(v)
  {
    if Get(t, p[0]) == Str(v) { assert t.fields[p[0] := Str(v)] == t.fields; }
    else { assert SetPath(t, p, v).fields[p[0]] == Str(v); }
  }

  /** An addition at another path leaves a settled addition settled, whether the
      paths are unrelated or one is a prefix of the other. */
  lemma {:induction false} SettledStays(t: Json, p: Path, v: string, q: Path, w: string)
    requires t.Dict? && Settled(t, p, v) && p != q
    ensures Settled(SetPath(t, q, w), p, v)
    decreases |p|
  {
    var r := SetPath(t, q, w);
    if !Blocked(t, q) {
      if p[0] != q[0] {
        assert Get(r, p[0]) == Get(t, p[0]);
        if |p| == 1 { SettledLeaf(t, p, v); SettledLeaf(r, p, v); }
        else { SettledBelow(t, p, v); SettledBelow(r, p, v); }
      } else if |p| == 1 {
        SettledLeaf(t, p, v);
      } else if |q| == 1 {
        assert Get(r, p[0]) == Str(w);
        assert Blocked(r, p);
      } else {
        SettledBelow(t, p, v);
        SettledBelow(r, p, v);
        assert Get(r, p[0]) == SetPath(Parent(t, q[0]), q[1..], w);
        assert p == [p[0]] + p[1..] && q == [q[0]] + q[1..];
        if Get(t, p[0]).Dict? {
          if Blocked(t, p) { BlockedIsSettled(Get(t, p[0]), p[1..], v); }
          SettledStays(Get(t, p[0]), p[1..], v, q[1..], w);
        }
      }
    }
  }

  lemma BlockedIsSettled(t: Json, p: Path, v: string)
    requires t.Dict? && Blocked(t, p)
    ensures Settled(t, p, v)
  {
  }

  // ----- a list of additions -----

  datatype Addition = Addition(path: Path, value: string)

  predicate DistinctPaths(adds: seq<Addition>) {
    forall i, j :: 0 <= i < j < |adds| ==> adds[i].path != adds[j].path
  }

  function AddAll(t: Json, adds: seq<Addition>): (r: Json)
    requires t.Dict?
    ensures r.Dict?
    decreases adds
  {
    if adds == [] then t else AddAll(SetPath(t, adds[0].path, adds[0].value), adds[1..])
  }

  /** Whether any call of the pass returned True. */
  predicate AnyApplies(t: Json, adds: seq<Addition>)
    requires t.Dict?
    decreases adds
  {
    adds != [] && (
      || Applies(t, adds[0].path, adds[0].value)
      || AnyApplies(SetPath(t, adds[0].path, adds[0].value), adds[1..]))
  }

  predicate AllSettled(t: Json, adds: seq<Addition>)
    requires t.Dict?
  {
    forall i :: 0 <= i < |adds| ==> Settled(t, adds[i].path, adds[i].value)
  }

  lemma {:induction false} SettledThroughPass(t: Json, a: Addition, adds: seq<Addition>)
    requires t.Dict? && Settled(t, a.path, a.value)
    requires forall i :: 0 <= i < |adds| ==> adds[i].path != a.path
    ensures Settled(AddAll(t, adds), a.path, a.value)
    decreases adds
  {
    if adds != [] {
      SettledStays(t, a.path, a.value, adds[0].path, adds[0].value);
      SettledThroughPass(SetPath(t, adds[0].path, adds[0].value), a, adds[1..]);
    }
  }

  lemma {:induction false} PassSettlesAll(t: Json, adds: seq<Addition>)
    requires t.Dict? && DistinctPaths(adds)
    ensures AllSettled(AddAll(t, adds), adds)
    decreases adds
  {
    if adds != [] {
      var a, t1 := adds[0], SetPath(t, adds[0].path, adds[0].value);
      SetSettles(t, a.path, a.value);
      SettledThroughPass(t1, a, adds[1..]);
      PassSettlesAll(t1, adds[1..]);
    }
  }

  lemma {:induction false} SettledPassIsIdle(t: Json, adds: seq<Addition>)
    requires t.Dict? && AllSettled(t, adds)
    ensures AddAll(t, adds) == t && !AnyApplies(t, adds)
    decreases adds
  {
    if adds != [] {
      ReturnsWhetherChanged(t, adds[0].path, adds[0].value);
      SettledPassIsIdle(t, adds[1..]);
    }
  }

  /** Re-running a whole list is a no-op: the tree stays and no call returns True. */
  lemma RerunIsNoop(t: Json, adds: seq<Addition>)
    requires t.Dict? && DistinctPaths(adds)
    ensures AddAll(AddAll(t, adds), adds) == AddAll(t, adds)
    ensures !AnyApplies(AddAll(t, adds), adds)
  {
    PassSettlesAll(t, adds);
    SettledPassIsIdle(AddAll(t, adds), adds);
  }

  lemma {:induction false} IdlePassKeepsTree(t: Json, adds: seq<Addition>)
    requires t.Dict? && !AnyApplies(t, adds)
    ensures AddAll(t, adds) == t
    decreases adds
  {
    if adds != [] {
      ReturnsWhetherChanged(t, adds[0].path, adds[0].value);
      IdlePassKeepsTree(t, adds[1..]);
    }
  }

  /** The pass sets its `changed` flag exactly when the file's tree is different, so
      the file is written exactly when it has to be. */
  lemma ChangedFlagIsExact(t: Json, adds: seq<Addition>)
    requires t.Dict? && DistinctPaths(adds)
    ensures AnyApplies(t, adds) <==> AddAll(t, adds) != t
  {
    if AddAll(t, adds) == t {
      PassSettlesAll(t, adds);
      SettledPassIsIdle(t, adds);
    }
    if !AnyApplies(t, adds) { IdlePassKeepsTree(t, adds); }
  }

  // ----- dotted paths -----

  /** `str.split(".")`. */
  function SplitDots(s: string): (p: Path)
    decreases |s|
  {
    if s == "" then [""]
    else if s[0] == '.' then [""] + SplitDots(s[1..])
    else var rest := SplitDots(s[1..]); [[s[0]] + rest[0]] + rest[1..]
  }

  function JoinDots(p: Path): string
    decreases |p|
  {
    if |p| == 1 then p[0] else p[0] + "." + JoinDots(p[1..])
  }

  lemma Regroup(a: string, b: string, c: string, d: string)
    ensures a + b + c + d == a + (b + c + d)
  {
  }

  lemma {:induction false} JoinFirst(c: char, p: Path)
    ensures JoinDots([[c] + p[0]] + p[1..]) == [c] + JoinDots(p)
  {
    var q: Path := [[c] + p[0]] + p[1..];
    assert q[1..] == p[1..] && q[0] == [c] + p[0];
    if |p| > 1 { Regroup([c], p[0], ".", JoinDots(p[1..])); }
  }

  lemma {:induction false} JoinEmptyFirst(p: Path)
    ensures JoinDots([""] + p) == "." + JoinDots(p)
  {
    assert ([""] + p)[1..] == p;
  }

  lemma {:induction false} SplitJoins(s: string)
    ensures JoinDots(SplitDots(s)) == s
    decreases |s|
  {
    if s != "" {
      SplitJoins(s[1..]);
      var rest := SplitDots(s[1..]);
      if s[0] == '.' { JoinEmptyFirst(rest); } else { JoinFirst(s[0], rest); }
      assert [s[0]] + s[1..] == s;
    }
  }

  /** Distinct dotted keys, as in the script's dictionary, are distinct paths. */
  lemma SplitIsInjective(a: string, b: string)
    ensures SplitDots(a) == SplitDots(b) <==> a == b
  {
    SplitJoins(a);
    SplitJoins(b);
  }

  predicate HasDot(k: string) { '.' in k }

  lemma {:induction false} SplitPiecesHaveNoDot(s: string, i: nat)
    requires i < |SplitDots(s)|
    ensures !HasDot(SplitDots(s)[i])
    decreases |s|
  {
    if s != "" {
      if s[0] == '.' {
        if i > 0 { SplitPiecesHaveNoDot(s[1..], i - 1); }
      } else {
        SplitPiecesHaveNoDot(s[1..], i);
      }
    }
  }

  lemma {:induction false} SplitPrefix(a: string, rest: string)
    requires !HasDot(a)
    ensures SplitDots(a + "." + rest) == [a] + SplitDots(rest)
    ensures SplitDots(a) == [a]
  {
    var s := a + "." + rest;
    if a == "" {
      assert s == "." + rest && s[1..] == rest;
    } else {
      assert s[1..] == a[1..] + "." + rest;
      SplitPrefix(a[1..], rest);
      assert [a[0]] + a[1..] == a;
    }
  }

  /** A key path can be written as a dotted key exactly when no key of it has a dot. */
  lemma {:induction false} JoinSplitsExactly(p: Path)
    ensures SplitDots(JoinDots(p)) == p <==> forall i :: 0 <= i < |p| ==> !HasDot(p[i])
    decreases |p|
  {
    if SplitDots(JoinDots(p)) == p {
      forall i | 0 <= i < |p| ensures !HasDot(p[i]) { SplitPiecesHaveNoDot(JoinDots(p), i); }
    }
    if forall i :: 0 <= i < |p| ==> !HasDot(p[i]) {
      if |p| == 1 {
        SplitPrefix(p[0], "");
      } else {
        SplitPrefix(p[0], JoinDots(p[1..]));
        JoinSplitsExactly(p[1..]);
      }
    }
  }

  /** The script's dictionary of dotted keys and values, as additions. */
  function Additions(pairs: seq<(string, string)>): (adds: seq<Addition>)
    ensures |adds| == |pairs|
    ensures forall i :: 0 <= i < |pairs| ==> adds[i] == Addition(SplitDots(pairs[i].0), pairs[i].1)
  {
    seq(|pairs|, i requires 0 <= i < |pairs| => Addition(SplitDots(pairs[i].0), pairs[i].1))
  }

  lemma AdditionsDistinct(pairs: seq<(string, string)>)
    requires forall i, j :: 0 <= i < j < |pairs| ==> pairs[i].0 != pairs[j].0
    ensures DistinctPaths(Additions(pairs))
  {
    forall i, j | 0 <= i < j < |pairs| ensures SplitDots(pairs[i].0) != SplitDots(pairs[j].0) {
      SplitIsInjective(pairs[i].0, pairs[j].0);
    }
  }
}
