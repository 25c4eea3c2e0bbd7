/** Both ways to add to a locale tree, said of what stands at each key path
    (scripts/i18n_add_wave_a_keys.py:61-93, scripts/i18n_add_wave_c1_keys.py:205-211). */
module LocalePaths {
  import opened Common
  import opened LocaleTrees
  import opened LocaleMerge

  /** What stands at a path of keys, if every step on the way is a dict with the key. */
  function Lookup(t: Json, p: seq<string>): Option<Json> {
    if p == [] then Some(t)
    else if t.Dict? && p[0] in t.fields then Lookup(t.fields[p[0]], p[1..])
    else None
  }

  /** A string or another value that is neither a dict nor null. */
  predicate IsValue(u: Json) { u.Str? || u.Scalar? }

  /** Something that is no dict stands on the way, before the end of the path. */
  ghost predicate CutOff(t: Json, p: seq<string>) {
    exists i :: 0 <= i < |p| && Lookup(t, p[..i]).Some? && !Lookup(t, p[..i]).value.Dict?
  }

  lemma PrefixBelow(t: Json, p: seq<string>, i: nat)
    requires 0 < i <= |p| && t.Dict? && p[0] in t.fields
    ensures Lookup(t, p[..i]) == Lookup(t.fields[p[0]], p[1..][..i - 1])
  {
    assert p[..i][1..] == p[1..][..i - 1];
  }

  lemma CutOffBelow(t: Json, p: seq<string>)
    requires p != [] && t.Dict?
    ensures CutOff(t, p) <==> p[0] in t.fields && CutOff(t.fields[p[0]], p[1..])
  {
    assert p[..0] == [];
    if CutOff(t, p) {
      var i :| 0 <= i < |p| && Lookup(t, p[..i]).Some? && !Lookup(t, p[..i]).value.Dict?;
      assert i > 0 && p[..i][0] == p[0];
      PrefixBelow(t, p, i);
    }
    if p[0] in t.fields && CutOff(t.fields[p[0]], p[1..]) {
      var j :| 0 <= j < |p[1..]| && Lookup(t.fields[p[0]], p[1..][..j]).Some?
               && !Lookup(t.fields[p[0]], p[1..][..j]).value.Dict?;
      PrefixBelow(t, p, j + 1);
    }
  }

  // ----- the dotted form -----

  /** An addition is skipped exactly if a value stands at a proper prefix of its path; a null
      or a missing key does not stand in the way. */
  lemma {:induction false} BlockedByPath(t: Json, p: Path)
    requires t.Dict?
    ensures Blocked(t, p) <==> exists i :: 0 < i < |p| && Lookup(t, p[..i]).Some? && IsValue(Lookup(t, p[..i]).value)
    decreases |p|
  {
    if |p| > 1 {
      var u := Get(t, p[0]);
      assert p[..1] == [p[0]];
      if p[0] in t.fields {
        PrefixBelow(t, p, 1);
        if u.Dict? {
          BlockedByPath(u, p[1..]);
          forall i: nat | 0 < i < |p| - 1 ensures Lookup(t, p[..i + 1]) == Lookup(u, p[1..][..i]) {
            PrefixBelow(t, p, i + 1);
          }
          forall i: nat | 1 < i < |p| ensures Lookup(t, p[..i]) == Lookup(u, p[1..][..i - 1]) {
            PrefixBelow(t, p, i);
          }
        } else {
          forall i: nat | 1 < i < |p| ensures Lookup(t, p[..i]).None? { PrefixBelow(t, p, i); }
        }
      } else {
        forall i: nat | 0 < i < |p| ensures Lookup(t, p[..i]).None? { assert p[..i][0] == p[0]; }
      }
    }
  }

  function KeysOf(u: Option<Json>): set<string> {
    if u.Some? && u.value.Dict? then u.value.fields.Keys else {}
  }

  /** An addition that is not skipped puts the string at its path, makes a dict of every
      proper prefix with its old keys and the next one, and leaves every other path. */
  lemma {:induction false} SetByPath(t: Json, p: Path, v: string, q: seq<string>)
    requires t.Dict? && !Blocked(t, p)
    ensures Lookup(SetPath(t, p, v), p) == Some(Str(v))
    ensures q < p ==> Lookup(SetPath(t, p, v), q).Some? && Lookup(SetPath(t, p, v), q).value.Dict?
                      && KeysOf(Lookup(SetPath(t, p, v), q)) == KeysOf(Lookup(t, q)) + {p[|q|]}
    ensures p < q ==> Lookup(SetPath(t, p, v), q) == None
    ensures !(q <= p) && !(p <= q) ==> Lookup(SetPath(t, p, v), q) == Lookup(t, q)
    decreases |p|
  {
    var r := SetPath(t, p, v);
    if |p| == 1 {
      assert p == [p[0]];
      if q != [] && q[0] == p[0] { assert q == [p[0]] + q[1..]; }
    } else {
      var sub := Parent(t, p[0]);
      BlockedBelow(t, p);
      assert p == [p[0]] + p[1..];
      if q == [] {
        SetByPath(sub, p[1..], v, q);
      } else {
        assert q == [q[0]] + q[1..];
        SetByPath(sub, p[1..], v, q[1..]);
        if q[0] == p[0] { assert r.fields[p[0]] == SetPath(sub, p[1..], v); }
      }
    }
  }

  /** A skipped addition changes nothing. */
  lemma SkippedChangesNothing(t: Json, p: Path, v: string)
    requires t.Dict? && Blocked(t, p)
    ensures SetPath(t, p, v) == t && !Applies(t, p, v)
  {
  }

  // ----- the tree form -----

  /** What the source has at a path wins: a value or null replaces what was there, a dict
      adds its keys to those of a dict, and where the source has nothing the destination
      stays, unless the source has no dict on the way. */
  lemma {:induction false} MergeByPath(d: Json, s: Json, p: seq<string>)
    ensures var m, x := Merge(d, s), Lookup(s, p);
            && (x.Some? && !x.value.Dict? ==> Lookup(m, p) == x)
            && (x.Some? && x.value.Dict? ==> Lookup(m, p).Some? && Lookup(m, p).value.Dict?
                                             && KeysOf(Lookup(m, p)) == KeysOf(x) + KeysOf(Lookup(d, p)))
            && (x.None? ==> Lookup(m, p) == if CutOff(s, p) then None else Lookup(d, p))
    decreases |p|
  {
    if p != [] {
      assert p[..0] == [];
      if s.Dict? {
        CutOffBelow(s, p);
        if d.Dict? && p[0] in s.fields {
          if p[0] in d.fields { MergeByPath(d.fields[p[0]], s.fields[p[0]], p[1..]); }
          else { MissingBelow(s.fields[p[0]], p[1..]); }
        } else if !d.Dict? {
          MissingBelow(s, p);
        }
      } else {
        assert CutOff(s, p);
      }
    }
  }

  /** A path that leads nowhere ends at a missing key or is cut off. */
  lemma {:induction false} MissingBelow(s: Json, p: seq<string>)
    ensures CutOff(s, p) ==> Lookup(s, p).None?
    decreases |p|
  {
    if p != [] {
      assert p[..0] == [];
      if s.Dict? {
        CutOffBelow(s, p);
        if p[0] in s.fields { MissingBelow(s.fields[p[0]], p[1..]); }
      }
    }
  }
}
