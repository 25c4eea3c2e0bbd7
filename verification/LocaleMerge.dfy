/** `deep_merge` of the later i18n waves (scripts/i18n_add_wave_c1_keys.py:205-211,
    scripts/i18n_add_wave_c4_keys.py:47-58) as a function on trees, its laws, and its
    agreement with the dotted-path form. */
module LocaleMerge {
  import opened LocaleTrees

  /** Two dicts are merged key by key; otherwise the source value wins. */
  function Merge(d: Json, s: Json): (r: Json)
    ensures s.Dict? ==> r.Dict?
    decreases s
  {
    if d.Dict? && s.Dict? then
      Dict(map k | k in d.fields.Keys + s.fields.Keys ::
             if k !in s.fields then d.fields[k]
             else if k in d.fields then Merge(d.fields[k], s.fields[k])
             else s.fields[k])
    else s
  }

  lemma MergeEmpty(d: Json)
    requires d.Dict?
    ensures Merge(d, EMPTY) == d
  {
    assert Merge(d, EMPTY).fields == d.fields;
  }

  /** Merging the same source again changes nothing. */
  lemma {:induction false} MergeIsIdempotent(d: Json, s: Json)
    ensures Merge(Merge(d, s), s) == Merge(d, s)
    decreases s
  {
    if s.Dict? {
      var m := Merge(d, s);
      forall k | k in s.fields ensures Merge(m.fields[k], s.fields[k]) == m.fields[k] {
        if d.Dict? && k in d.fields {
          MergeIsIdempotent(d.fields[k], s.fields[k]);
        } else {
          MergeIsIdempotent(EMPTY, s.fields[k]);
          MergeSelf(s.fields[k]);
        }
      }
      assert Merge(m, s).fields == m.fields;
    }
  }

  lemma {:induction false} MergeSelf(s: Json)
    ensures Merge(s, s) == s
  {
    if s.Dict? {
      forall k | k in s.fields ensures Merge(s.fields[k], s.fields[k]) == s.fields[k] { MergeSelf(s.fields[k]); }
      assert Merge(s, s).fields == s.fields;
    }
  }

  // ----- associativity, exactly -----

  /** Merging `a` under `c` leaves no trace of `a`. */
  predicate Absorbed(a: Json, c: Json)
    requires a.Dict? && c.Dict?
    decreases c
  {
    forall k :: k in a.fields ==>
      k in c.fields && (a.fields[k].Dict? && c.fields[k].Dict? ==> Absorbed(a.fields[k], c.fields[k]))
  }

  lemma {:induction false} AbsorbedIsExact(a: Json, c: Json)
    requires a.Dict? && c.Dict?
    ensures Merge(a, c) == c <==> Absorbed(a, c)
    decreases c
  {
    forall k | k in a.fields && k in c.fields && a.fields[k].Dict? && c.fields[k].Dict?
      ensures Merge(a.fields[k], c.fields[k]) == c.fields[k] <==> Absorbed(a.fields[k], c.fields[k])
    {
      AbsorbedIsExact(a.fields[k], c.fields[k]);
    }
    var m := Merge(a, c);
    if m == c {
      forall k | k in a.fields ensures k in c.fields && Merge(a.fields[k], c.fields[k]) == c.fields[k] {
        assert k in m.fields;
        assert m.fields[k] == Merge(a.fields[k], c.fields[k]);
      }
    }
    if Absorbed(a, c) {
      forall k | k in c.fields ensures m.fields[k] == c.fields[k] {
        if k in a.fields { assert m.fields[k] == Merge(a.fields[k], c.fields[k]) == c.fields[k]; }
      }
      assert m.fields == c.fields;
    }
  }

  /** Wherever the middle tree cuts a path that both outer trees continue, the first
      tree's continuation is absorbed by the last one's. */
  predicate Aligned(a: Json, b: Json, c: Json)
    decreases c
  {
    a.Dict? && c.Dict? ==>
      if !b.Dict? then Absorbed(a, c)
      else forall k :: k in a.fields && k in b.fields && k in c.fields ==>
             Aligned(a.fields[k], b.fields[k], c.fields[k])
  }

  /** Merging is associative exactly on aligned trees. */
  lemma {:induction false} MergeAssociativeExactly(a: Json, b: Json, c: Json)
    ensures Merge(Merge(a, b), c) == Merge(a, Merge(b, c)) <==> Aligned(a, b, c)
    decreases c
  {
    if a.Dict? && c.Dict? {
      if !b.Dict? {
        AbsorbedIsExact(a, c);
      } else {
        AssociativeByKey(a, b, c);
      }
    } else if c.Dict? && b.Dict? {
      assert Merge(b, c).Dict?;
    }
  }

  lemma {:induction false} AssociativeByKey(a: Json, b: Json, c: Json)
    requires a.Dict? && b.Dict? && c.Dict?
    ensures Merge(Merge(a, b), c) == Merge(a, Merge(b, c)) <==> Aligned(a, b, c)
    decreases c, 0
  {
    var left, right := Merge(Merge(a, b), c), Merge(a, Merge(b, c));
    assert left.fields.Keys == a.fields.Keys + b.fields.Keys + c.fields.Keys == right.fields.Keys;
    forall k | k in left.fields
      ensures left.fields[k] == right.fields[k] <==>
              (k in a.fields && k in b.fields && k in c.fields ==> Aligned(a.fields[k], b.fields[k], c.fields[k]))
    {
      if k in a.fields && k in b.fields && k in c.fields {
        MergeAssociativeExactly(a.fields[k], b.fields[k], c.fields[k]);
      }
    }
    if Aligned(a, b, c) {
      assert left.fields == right.fields;
    }
    if left == right {
      forall k | k in a.fields && k in b.fields && k in c.fields
        ensures Aligned(a.fields[k], b.fields[k], c.fields[k])
      {
        assert k in left.fields && left.fields[k] == right.fields[k];
      }
    }
  }

  /** A cut in the middle is not always fatal: an empty continuation is absorbed. */
  lemma HarmlessCut(k: string, text: string, c: Json)
    requires c.Dict?
    ensures var a, b, z := Dict(map[k := EMPTY]), Dict(map[k := Str(text)]), Dict(map[k := c]);
            Merge(Merge(a, b), z) == Merge(a, Merge(b, z))
  {
    var a, b, z := Dict(map[k := EMPTY]), Dict(map[k := Str(text)]), Dict(map[k := c]);
    assert Aligned(EMPTY, Str(text), c);
    assert Aligned(a, b, z);
    MergeAssociativeExactly(a, b, z);
  }

  /** And where something would be left of the first tree it is fatal. */
  lemma FatalCut(k: string, text: string, rest: Json, c: Json)
    requires rest.Dict? && c.Dict? && !Absorbed(rest, c)
    ensures var a, b, z := Dict(map[k := rest]), Dict(map[k := Str(text)]), Dict(map[k := c]);
            Merge(Merge(a, b), z) != Merge(a, Merge(b, z))
  {
    var a, b, z := Dict(map[k := rest]), Dict(map[k := Str(text)]), Dict(map[k := c]);
    assert k in a.fields && k in b.fields && k in z.fields && !Aligned(a.fields[k], b.fields[k], z.fields[k]);
    MergeAssociativeExactly(a, b, z);
  }

  // ----- leaf paths -----

  /** A string, or a nonempty dict of such trees. */
  predicate StringTree(s: Json) {
    s.Str? || (s.Dict? && s.fields != map[] && forall k :: k in s.fields ==> StringTree(s.fields[k]))
  }

  /** A locale payload: a dict, with no empty dict inside and strings at the leaves. */
  predicate Payload(s: Json) {
    s.Dict? && forall k :: k in s.fields ==> StringTree(s.fields[k])
  }

  /** `t` is a part of `s`. */
  predicate PartOf(t: Json, s: Json)
    decreases t
  {
    if t.Dict? then s.Dict? && forall k :: k in t.fields ==> k in s.fields && PartOf(t.fields[k], s.fields[k])
    else t.Str? && t == s
  }

  lemma {:induction false} LeafNotBlocked(t: Json, s: Json, p: Path, v: string)
    requires t.Dict? && PartOf(t, s) && IsLeaf(s, p, v)
    ensures !Blocked(t, p)
    decreases |p|
  {
    if |p| > 1 && p[0] in t.fields {
      assert PartOf(t.fields[p[0]], s.fields[p[0]]);
      LeafNotBlocked(t.fields[p[0]], s.fields[p[0]], p[1..], v);
    }
  }

  lemma {:induction false} SetKeepsPart(t: Json, s: Json, p: Path, v: string)
    requires t.Dict? && PartOf(t, s) && IsLeaf(s, p, v)
    ensures PartOf(SetPath(t, p, v), s)
    decreases |p|
  {
    LeafNotBlocked(t, s, p, v);
    if |p| > 1 {
      var sub := Parent(t, p[0]);
      if p[0] in t.fields { assert PartOf(t.fields[p[0]], s.fields[p[0]]); }
      SetKeepsPart(sub, s.fields[p[0]], p[1..], v);
    }
  }

  lemma {:induction false} SettledIsLeaf(t: Json, s: Json, p: Path, v: string)
    requires t.Dict? && PartOf(t, s) && IsLeaf(s, p, v) && Settled(t, p, v)
    ensures IsLeaf(t, p, v)
    decreases |p|
  {
    LeafNotBlocked(t, s, p, v);
    if |p| == 1 {
      SettledLeaf(t, p, v);
    } else {
      SettledBelow(t, p, v);
      SettledIsLeaf(Get(t, p[0]), s.fields[p[0]], p[1..], v);
    }
  }

  lemma {:induction false} SomeLeaf(s: Json) returns (p: Path, v: string)
    requires s.Dict? && StringTree(s)
    ensures IsLeaf(s, p, v)
  {
    var k :| k in s.fields;
    if s.fields[k].Str? {
      p, v := [k], s.fields[k].text;
    } else {
      var q, w := SomeLeaf(s.fields[k]);
      p, v := [k] + q, w;
      assert p[1..] == q;
    }
  }

  /** A part that has every leaf of a payload is the payload. */
  lemma {:induction false} AllLeavesIsAll(t: Json, s: Json)
    requires t.Dict? && Payload(s) && PartOf(t, s)
    requires forall p: Path, v :: IsLeaf(s, p, v) ==> IsLeaf(t, p, v)
    ensures t == s
    decreases s
  {
    forall k | k in s.fields ensures k in t.fields && t.fields[k] == s.fields[k] {
      if s.fields[k].Str? {
        assert IsLeaf(s, [k], s.fields[k].text);
        assert IsLeaf(t, [k], s.fields[k].text);
      } else {
        var q, w := SomeLeaf(s.fields[k]);
        BelowLeaf(t, s, k, q, w);
        forall p: Path, v | IsLeaf(s.fields[k], p, v) ensures IsLeaf(t.fields[k], p, v) {
          BelowLeaf(t, s, k, p, v);
        }
        AllLeavesIsAll(t.fields[k], s.fields[k]);
      }
    }
    assert t.fields == s.fields;
  }

  lemma BelowLeaf(t: Json, s: Json, k: string, p: Path, v: string)
    requires t.Dict? && s.Dict? && k in s.fields && IsLeaf(s.fields[k], p, v)
    requires forall q: Path, w :: IsLeaf(s, q, w) ==> IsLeaf(t, q, w)
    ensures k in t.fields && IsLeaf(t.fields[k], p, v)
  {
    var q: Path := [k] + p;
    assert q[1..] == p;
    assert IsLeaf(s, q, v);
    assert IsLeaf(t, q, v);
  }

  /** The list holds exactly the payload's leaves, in some order. */
  ghost predicate Enumerates(adds: seq<Addition>, s: Json) {
    forall p: Path, v :: Addition(p, v) in adds <==> IsLeaf(s, p, v)
  }

  ghost predicate AllLeaves(adds: seq<Addition>, s: Json) {
    forall i :: 0 <= i < |adds| ==> IsLeaf(s, adds[i].path, adds[i].value)
  }

  lemma {:induction false} LeafValueUnique(s: Json, p: Path, v: string, w: string)
    requires IsLeaf(s, p, v) && IsLeaf(s, p, w)
    ensures v == w
    decreases |p|
  {
    if |p| > 1 { LeafValueUnique(s.fields[p[0]], p[1..], v, w); }
  }

  lemma {:induction false} LeafStaysSettled(t: Json, s: Json, a: Addition, adds: seq<Addition>)
    requires t.Dict? && Settled(t, a.path, a.value) && AllLeaves(adds, s) && IsLeaf(s, a.path, a.value)
    ensures Settled(AddAll(t, adds), a.path, a.value)
    decreases adds
  {
    if adds != [] {
      var b := adds[0];
      if a.path == b.path {
        LeafValueUnique(s, a.path, a.value, b.value);
        SetSettles(t, a.path, a.value);
      } else {
        SettledStays(t, a.path, a.value, b.path, b.value);
      }
      LeafStaysSettled(SetPath(t, b.path, b.value), s, a, adds[1..]);
    }
  }

  lemma {:induction false} LeavesSettle(t: Json, s: Json, adds: seq<Addition>, i: nat)
    requires t.Dict? && PartOf(t, s) && AllLeaves(adds, s) && i < |adds|
    ensures Settled(AddAll(t, adds), adds[i].path, adds[i].value)
    decreases adds
  {
    var b := adds[0];
    SetKeepsPart(t, s, b.path, b.value);
    if i == 0 {
      SetSettles(t, b.path, b.value);
      LeafStaysSettled(SetPath(t, b.path, b.value), s, b, adds[1..]);
    } else {
      LeavesSettle(SetPath(t, b.path, b.value), s, adds[1..], i - 1);
    }
  }

  lemma {:induction false} AddAllKeepsPart(t: Json, s: Json, adds: seq<Addition>)
    requires t.Dict? && PartOf(t, s) && AllLeaves(adds, s)
    ensures PartOf(AddAll(t, adds), s)
    decreases adds
  {
    if adds != [] {
      SetKeepsPart(t, s, adds[0].path, adds[0].value);
      AddAllKeepsPart(SetPath(t, adds[0].path, adds[0].value), s, adds[1..]);
    }
  }

  /** Writing all leaves of a payload into an empty tree rebuilds it, in any order. */
  lemma PathsRebuild(s: Json, adds: seq<Addition>)
    requires Payload(s) && Enumerates(adds, s)
    ensures AddAll(EMPTY, adds) == s
  {
    var t := AddAll(EMPTY, adds);
    EnumeratesLeaves(s, adds);
    AddAllKeepsPart(EMPTY, s, adds);
    forall p: Path, v | IsLeaf(s, p, v) ensures IsLeaf(t, p, v) {
      var i :| 0 <= i < |adds| && adds[i] == Addition(p, v);
      LeavesSettle(EMPTY, s, adds, i);
      SettledIsLeaf(t, s, p, v);
    }
    AllLeavesIsAll(t, s);
  }

  lemma EnumeratesLeaves(s: Json, adds: seq<Addition>)
    requires Enumerates(adds, s)
    ensures AllLeaves(adds, s)
  {
    forall i | 0 <= i < |adds| ensures IsLeaf(s, adds[i].path, adds[i].value) {
      assert Addition(adds[i].path, adds[i].value) in adds;
    }
  }

  // ----- path form against tree form -----

  lemma {:induction false} MergeUnblocked(d: Json, t: Json, s: Json, p: Path, v: string)
    requires d.Dict? && t.Dict? && PartOf(t, s) && IsLeaf(s, p, v) && !Blocked(d, p)
    ensures !Blocked(Merge(d, t), p)
    decreases |p|
  {
    if |p| > 1 {
      var k, m := p[0], Merge(d, t);
      if k in t.fields {
        assert PartOf(t.fields[k], s.fields[k]);
        if k in d.fields && d.fields[k].Dict? {
          MergeUnblocked(d.fields[k], t.fields[k], s.fields[k], p[1..], v);
        } else {
          if k in d.fields { assert Merge(d.fields[k], t.fields[k]) == t.fields[k]; }
          assert m.fields[k] == t.fields[k];
          LeafNotBlocked(t.fields[k], s.fields[k], p[1..], v);
        }
      } else {
        assert Get(m, k) == Get(d, k);
      }
    }
  }

  lemma MergeIntoNonDict(old_: Json, t: Json, k: string)
    requires !old_.Dict? && t.Dict?
    ensures k in t.fields ==> Merge(old_, t.fields[k]) == t.fields[k]
  {
  }

  /** Changing one source key changes the merged tree at that key only. */
  lemma SameOffKey(d: Json, t: Json, k: string, t': Json)
    requires d.Dict? && t.Dict? && t'.Dict? && k in t'.fields && t'.fields == t.fields[k := t'.fields[k]]
    ensures Merge(d, t').fields == Merge(d, t).fields[k := Merge(d, t').fields[k]]
  {
    assert Merge(d, t').fields.Keys == Merge(d, t).fields.Keys + {k};
  }

  /** Adding a leaf commutes with merging. */
  lemma {:induction false} SetCommutes(d: Json, t: Json, s: Json, p: Path, v: string)
    requires d.Dict? && t.Dict? && PartOf(t, s) && IsLeaf(s, p, v) && !Blocked(d, p)
    ensures SetPath(Merge(d, t), p, v) == Merge(d, SetPath(t, p, v))
    decreases |p|
  {
    LeafNotBlocked(t, s, p, v);
    MergeUnblocked(d, t, s, p, v);
    var k, m := p[0], Merge(d, t);
    var left, right := SetPath(m, p, v), Merge(d, SetPath(t, p, v));
    if |p| > 1 {
      var sub := Parent(t, k);
      if k in t.fields { assert PartOf(t.fields[k], s.fields[k]); }
      assert PartOf(sub, s.fields[k]);
      if k in d.fields && d.fields[k].Dict? {
        SetCommutes(d.fields[k], sub, s.fields[k], p[1..], v);
        MergeEmpty(d.fields[k]);
        assert Parent(m, k) == Merge(d.fields[k], sub);
      } else {
        if k in d.fields { MergeIntoNonDict(d.fields[k], t, k); }
        assert Parent(m, k) == sub;
      }
      assert left.fields[k] == SetPath(Parent(m, k), p[1..], v);
    }
    SameOffKey(d, t, k, SetPath(t, p, v));
    assert right.fields[k] == left.fields[k] by {
      if k in d.fields { assert right.fields[k] == Merge(d.fields[k], SetPath(t, p, v).fields[k]); }
    }
    assert left.fields == right.fields;
  }

  lemma {:induction false} AddAllIsMerge(d: Json, t: Json, s: Json, adds: seq<Addition>)
    requires d.Dict? && t.Dict? && PartOf(t, s) && AllLeaves(adds, s)
    requires forall i :: 0 <= i < |adds| ==> !Blocked(d, adds[i].path)
    ensures AddAll(Merge(d, t), adds) == Merge(d, AddAll(t, adds))
    decreases adds
  {
    if adds != [] {
      SetCommutes(d, t, s, adds[0].path, adds[0].value);
      SetKeepsPart(t, s, adds[0].path, adds[0].value);
      AddAllIsMerge(d, SetPath(t, adds[0].path, adds[0].value), s, adds[1..]);
    }
  }

  lemma {:induction false} StaysBlocked(t: Json, p: Path, q: Path, w: string)
    requires t.Dict? && Blocked(t, p)
    ensures Blocked(SetPath(t, q, w), p)
    decreases |p|
  {
    var r := SetPath(t, q, w);
    if !Blocked(t, q) {
      if p[0] != q[0] {
        assert Get(r, p[0]) == Get(t, p[0]);
      } else if |q| > 1 && Get(t, p[0]).Dict? {
        StaysBlocked(Get(t, p[0]), p[1..], q[1..], w);
      }
    }
  }

  lemma {:induction false} StaysBlockedThroughPass(t: Json, p: Path, adds: seq<Addition>)
    requires t.Dict? && Blocked(t, p)
    ensures Blocked(AddAll(t, adds), p)
    decreases adds
  {
    if adds != [] {
      StaysBlocked(t, p, adds[0].path, adds[0].value);
      StaysBlockedThroughPass(SetPath(t, adds[0].path, adds[0].value), p, adds[1..]);
    }
  }

  lemma {:induction false} MergeHasLeaf(d: Json, s: Json, p: Path, v: string)
    requires IsLeaf(s, p, v)
    ensures IsLeaf(Merge(d, s), p, v)
    decreases |p|
  {
    if |p| > 1 && d.Dict? && p[0] in d.fields {
      MergeHasLeaf(d.fields[p[0]], s.fields[p[0]], p[1..], v);
    }
  }

  lemma {:induction false} LeafUnblocks(t: Json, p: Path, v: string)
    requires IsLeaf(t, p, v)
    ensures !Blocked(t, p)
    decreases |p|
  {
    if |p| > 1 { LeafUnblocks(t.fields[p[0]], p[1..], v); }
  }

  /** Some addition would be skipped: the target holds neither a dict nor null at a
      proper prefix of a leaf path. */
  ghost predicate Obstructed(d: Json, s: Json)
    requires d.Dict?
  {
    exists p: Path, v :: IsLeaf(s, p, v) && Blocked(d, p)
  }

  /** Adding the leaves one key path at a time, in any order, is merging the tree exactly
      when nothing obstructs it. */
  lemma KeyPathsAreTreeForm(d: Json, s: Json, adds: seq<Addition>)
    requires d.Dict? && Payload(s) && Enumerates(adds, s)
    ensures AddAll(d, adds) == Merge(d, s) <==> !Obstructed(d, s)
  {
    EnumeratesLeaves(s, adds);
    if p: Path, v :| IsLeaf(s, p, v) && Blocked(d, p) {
      StaysBlockedThroughPass(d, p, adds);
      MergeHasLeaf(d, s, p, v);
      LeafUnblocks(Merge(d, s), p, v);
    } else {
      forall i | 0 <= i < |adds| ensures !Blocked(d, adds[i].path) {
        assert IsLeaf(s, adds[i].path, adds[i].value);
      }
      AddAllIsMerge(d, EMPTY, s, adds);
      MergeEmpty(d);
      PathsRebuild(s, adds);
    }
  }

  // ----- the same for dotted keys, which is what the script takes -----

  /** No key anywhere in the tree has a dot. */
  predicate DotFree(s: Json) {
    s.Dict? ==> forall k :: k in s.fields ==> !HasDot(k) && DotFree(s.fields[k])
  }

  /** The dictionary of additions holds exactly the payload's leaves under their dotted
      keys, in some order. */
  ghost predicate ListsLeaves(pairs: seq<(string, string)>, s: Json) {
    forall key, v :: (key, v) in pairs <==> exists p: Path :: IsLeaf(s, p, v) && JoinDots(p) == key
  }

  lemma {:induction false} LeafKeysHaveNoDot(s: Json, p: Path, v: string, i: nat)
    requires DotFree(s) && IsLeaf(s, p, v) && i < |p|
    ensures !HasDot(p[i])
    decreases |p|
  {
    if i > 0 { LeafKeysHaveNoDot(s.fields[p[0]], p[1..], v, i - 1); }
  }

  lemma LeafSplitsBack(s: Json, p: Path, v: string)
    requires DotFree(s) && IsLeaf(s, p, v)
    ensures SplitDots(JoinDots(p)) == p
  {
    forall i | 0 <= i < |p| ensures !HasDot(p[i]) { LeafKeysHaveNoDot(s, p, v, i); }
    JoinSplitsExactly(p);
  }

  lemma DottedEnumerates(s: Json, pairs: seq<(string, string)>)
    requires DotFree(s) && ListsLeaves(pairs, s)
    ensures Enumerates(Additions(pairs), s)
  {
    forall p: Path, v ensures Addition(p, v) in Additions(pairs) <==> IsLeaf(s, p, v) {
      if Addition(p, v) in Additions(pairs) {
        var i :| 0 <= i < |pairs| && Additions(pairs)[i] == Addition(p, v);
        assert (pairs[i].0, v) in pairs;
        var q: Path :| IsLeaf(s, q, v) && JoinDots(q) == pairs[i].0;
        LeafSplitsBack(s, q, v);
      }
      if IsLeaf(s, p, v) {
        LeafSplitsBack(s, p, v);
        assert (JoinDots(p), v) in pairs;
        var i :| 0 <= i < |pairs| && pairs[i] == (JoinDots(p), v);
        assert Additions(pairs)[i] == Addition(p, v);
      }
    }
  }

  /** Path form equals tree form exactly when nothing obstructs it: adding the leaves of
      a payload one dotted key at a time, in any order, is merging the tree. */
  lemma PathFormIsTreeForm(d: Json, s: Json, pairs: seq<(string, string)>)
    requires d.Dict? && Payload(s) && DotFree(s) && ListsLeaves(pairs, s)
    ensures AddAll(d, Additions(pairs)) == Merge(d, s) <==> !Obstructed(d, s)
  {
    DottedEnumerates(s, pairs);
    KeyPathsAreTreeForm(d, s, Additions(pairs));
  }

  lemma {:induction false} SetKeepsDotFree(t: Json, p: Path, v: string)
    requires t.Dict? && DotFree(t) && forall i :: 0 <= i < |p| ==> !HasDot(p[i])
    ensures DotFree(SetPath(t, p, v))
    decreases |p|
  {
    if |p| > 1 && !Blocked(t, p) { SetKeepsDotFree(Parent(t, p[0]), p[1..], v); }
  }

  lemma {:induction false} PassKeepsDotFree(t: Json, pairs: seq<(string, string)>)
    requires t.Dict? && DotFree(t)
    ensures DotFree(AddAll(t, Additions(pairs)))
    decreases pairs
  {
    if pairs != [] {
      var p := SplitDots(pairs[0].0);
      forall i | 0 <= i < |p| ensures !HasDot(p[i]) { SplitPiecesHaveNoDot(pairs[0].0, i); }
      SetKeepsDotFree(t, p, pairs[0].1);
      PassKeepsDotFree(SetPath(t, p, pairs[0].1), pairs[1..]);
      assert Additions(pairs)[1..] == Additions(pairs[1..]);
    }
  }

  /** Writing the leaves of a payload under their dotted keys into an empty tree rebuilds
      it, in any order, exactly when no key of the payload has a dot. */
  lemma LeavesRebuild(s: Json, pairs: seq<(string, string)>)
    requires Payload(s) && ListsLeaves(pairs, s)
    ensures AddAll(EMPTY, Additions(pairs)) == s <==> DotFree(s)
  {
    PassKeepsDotFree(EMPTY, pairs);
    if DotFree(s) {
      DottedEnumerates(s, pairs);
      PathsRebuild(s, Additions(pairs));
    }
  }

  lemma NothingBlocksEmpty(p: Path)
    ensures !Blocked(EMPTY, p)
  {
    assert Get(EMPTY, p[0]) == Null;
  }

  /** The payloads for which the path form is the tree form on every target that does not
      obstruct them are exactly those without a dot in a key. */
  lemma DotFreeIsExact(s: Json, pairs: seq<(string, string)>)
    requires Payload(s) && ListsLeaves(pairs, s)
    ensures (forall d: Json :: d.Dict? && !Obstructed(d, s) ==> AddAll(d, Additions(pairs)) == Merge(d, s))
       <==> DotFree(s)
  {
    if DotFree(s) {
      forall d: Json | d.Dict? && !Obstructed(d, s) ensures AddAll(d, Additions(pairs)) == Merge(d, s) {
        PathFormIsTreeForm(d, s, pairs);
      }
    } else {
      LeavesRebuild(s, pairs);
      assert Merge(EMPTY, s).fields == s.fields;
      forall p: Path, v | IsLeaf(s, p, v) ensures !Blocked(EMPTY, p) { NothingBlocksEmpty(p); }
      assert !Obstructed(EMPTY, s);
    }
  }

  /** A payload with a dotted key: on an empty target the path form writes another tree. */
  lemma DottedKeyDiverges(key: string, text: string)
    requires HasDot(key)
    ensures var s := Dict(map[key := Str(text)]);
            && ListsLeaves([(key, text)], s) && Payload(s) && !Obstructed(EMPTY, s)
            && AddAll(EMPTY, Additions([(key, text)])) != Merge(EMPTY, s)
  {
    var s, pairs := Dict(map[key := Str(text)]), [(key, text)];
    forall p: Path, v ensures IsLeaf(s, p, v) <==> p == [key] && v == text {
      if |p| == 1 { assert p == [p[0]]; }
    }
    assert IsLeaf(s, [key], text) && JoinDots([key]) == key;
    assert ListsLeaves(pairs, s);
    LeavesRebuild(s, pairs);
    assert key in s.fields && !DotFree(s);
    assert Merge(EMPTY, s).fields == s.fields;
    forall p: Path, v | IsLeaf(s, p, v) ensures !Blocked(EMPTY, p) { NothingBlocksEmpty(p); }
  }
}
