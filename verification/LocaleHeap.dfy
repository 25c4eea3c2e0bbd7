/** The i18n scripts on mutable nested dictionaries: Python dict objects live at
    addresses of a heap, a nested dict is a reference, and the scripts write in place.
    Each method is proved to compute the tree function of the same operation. */
module LocaleHeap {
  import opened LocaleTrees

  datatype Cell = Leaf(value: Json) | Ref(addr: nat)

  type Heap = map<nat, map<string, Cell>>

  // ----- the tree a reference shows -----

  ghost predicate CellShows(h: Heap, c: Cell, t: Json)
    decreases t, 1
  {
    if t.Dict? then c.Ref? && Shows(h, c.addr, t) else c == Leaf(t)
  }

  ghost predicate Shows(h: Heap, a: nat, t: Json)
    decreases t, 0
  {
    && t.Dict? && a in h && h[a].Keys == t.fields.Keys
    && forall k :: k in t.fields ==> CellShows(h, h[a][k], t.fields[k])
  }

  /** The addresses a shown tree occupies. */
  ghost function CellFoot(h: Heap, c: Cell, t: Json): set<nat>
    requires CellShows(h, c, t)
    decreases t, 1
  {
    if t.Dict? then Foot(h, c.addr, t) else {}
  }

  ghost function Foot(h: Heap, a: nat, t: Json): set<nat>
    requires Shows(h, a, t)
    decreases t, 0
  {
    {a} + set k, x | k in t.fields && x in CellFoot(h, h[a][k], t.fields[k]) :: x
  }

  /** Shown without sharing: no address occurs twice. */
  ghost predicate CellTree(h: Heap, c: Cell, t: Json)
    decreases t, 1
  {
    if t.Dict? then c.Ref? && Tree(h, c.addr, t) else c == Leaf(t)
  }

  ghost predicate Tree(h: Heap, a: nat, t: Json)
    decreases t, 0
  {
    && Shows(h, a, t)
    && (forall k :: k in t.fields ==>
          CellTree(h, h[a][k], t.fields[k]) && a !in CellFoot(h, h[a][k], t.fields[k]))
    && forall j, k :: j in t.fields && k in t.fields && j != k ==>
         CellFoot(h, h[a][j], t.fields[j]) !! CellFoot(h, h[a][k], t.fields[k])
  }

  ghost predicate SameOn(h: Heap, h': Heap, s: set<nat>) {
    forall x :: x in s ==> x in h && x in h' && h'[x] == h[x]
  }

  lemma {:induction false} FootInHeap(h: Heap, a: nat, t: Json)
    requires Shows(h, a, t)
    ensures forall x :: x in Foot(h, a, t) ==> x in h
    decreases t
  {
    forall k | k in t.fields && t.fields[k].Dict?
      ensures forall x :: x in CellFoot(h, h[a][k], t.fields[k]) ==> x in h
    {
      FootInHeap(h, h[a][k].addr, t.fields[k]);
    }
  }

  /** Writes elsewhere do not disturb a tree. */
  lemma {:induction false} ShowsFrame(h: Heap, h': Heap, a: nat, t: Json)
    requires Shows(h, a, t) && SameOn(h, h', Foot(h, a, t))
    ensures Shows(h', a, t) && Foot(h', a, t) == Foot(h, a, t)
    decreases t
  {
    assert a in Foot(h, a, t);
    forall k | k in t.fields
      ensures CellShows(h', h[a][k], t.fields[k])
      ensures CellFoot(h', h[a][k], t.fields[k]) == CellFoot(h, h[a][k], t.fields[k])
    {
      if t.fields[k].Dict? {
        KidFoot(h, a, t, k);
        ShowsFrame(h, h', h[a][k].addr, t.fields[k]);
      }
    }
  }

  lemma KidFoot(h: Heap, a: nat, t: Json, k: string)
    requires Shows(h, a, t) && k in t.fields
    ensures CellFoot(h, h[a][k], t.fields[k]) <= Foot(h, a, t)
  {
  }

  lemma {:induction false} TreeFrame(h: Heap, h': Heap, a: nat, t: Json)
    requires Tree(h, a, t) && SameOn(h, h', Foot(h, a, t))
    ensures Tree(h', a, t) && Foot(h', a, t) == Foot(h, a, t)
    decreases t
  {
    ShowsFrame(h, h', a, t);
    assert a in Foot(h, a, t);
    forall k | k in t.fields
      ensures CellTree(h', h[a][k], t.fields[k])
      ensures CellFoot(h', h[a][k], t.fields[k]) == CellFoot(h, h[a][k], t.fields[k])
    {
      if t.fields[k].Dict? {
        KidFoot(h, a, t, k);
        TreeFrame(h, h', h[a][k].addr, t.fields[k]);
      }
    }
  }

  lemma CellTreeFrame(h: Heap, h': Heap, c: Cell, t: Json)
    requires CellTree(h, c, t) && CellShows(h, c, t) && SameOn(h, h', CellFoot(h, c, t))
    ensures CellTree(h', c, t) && CellShows(h', c, t) && CellFoot(h', c, t) == CellFoot(h, c, t)
  {
    if t.Dict? { TreeFrame(h, h', c.addr, t); }
  }

  /** Trees at the keys, kept apart by disjoint bounds, make a tree. */
  lemma TreeFromKids(h: Heap, a: nat, t: Json, bound: map<string, set<nat>>)
    requires t.Dict? && a in h && h[a].Keys == t.fields.Keys
    requires bound.Keys >= t.fields.Keys
    requires forall k :: k in t.fields ==>
               CellTree(h, h[a][k], t.fields[k]) && CellShows(h, h[a][k], t.fields[k])
               && CellFoot(h, h[a][k], t.fields[k]) <= bound[k] && a !in bound[k]
    requires forall j, k :: j in bound && k in bound && j != k ==> bound[j] !! bound[k]
    ensures Tree(h, a, t)
    ensures Foot(h, a, t) <= {a} + set k, x | k in bound && x in bound[k] :: x
  {
  }

  // ----- following a path -----

  ghost predicate Walkable(t: Json, p: seq<string>) {
    t.Dict? && (p != [] ==> p[0] in t.fields && Walkable(t.fields[p[0]], p[1..]))
  }

  ghost function At(t: Json, p: seq<string>): (r: Json)
    requires Walkable(t, p)
    ensures r.Dict?
  {
    if p == [] then t else At(t.fields[p[0]], p[1..])
  }

  ghost function PutAt(t: Json, p: seq<string>, sub: Json): Json
    requires Walkable(t, p)
  {
    if p == [] then sub else Put(t, p[0], PutAt(t.fields[p[0]], p[1..], sub))
  }

  ghost function Follow(h: Heap, a: nat, t: Json, p: seq<string>): (c: nat)
    requires Shows(h, a, t) && Walkable(t, p)
    ensures Shows(h, c, At(t, p))
    decreases p
  {
    if p == [] then a
    else
      assert CellShows(h, h[a][p[0]], t.fields[p[0]]) && Walkable(t.fields[p[0]], p[1..]);
      Follow(h, h[a][p[0]].addr, t.fields[p[0]], p[1..])
  }

  lemma {:induction false} AtTree(h: Heap, a: nat, t: Json, p: seq<string>)
    requires Tree(h, a, t) && Walkable(t, p)
    ensures Tree(h, Follow(h, a, t, p), At(t, p))
    ensures Foot(h, Follow(h, a, t, p), At(t, p)) <= Foot(h, a, t)
    decreases p
  {
    if p != [] {
      var k := p[0];
      KidFoot(h, a, t, k);
      AtTree(h, h[a][k].addr, t.fields[k], p[1..]);
    }
  }

  /** A write at the end of a path, seen from its start. */
  lemma {:induction false} WriteSeenFrom(h: Heap, h': Heap, a: nat, t: Json, p: seq<string>, sub: Json)
    requires Tree(h, a, t) && Walkable(t, p)
    requires var c := Follow(h, a, t, p);
             && Tree(h', c, sub)
             && (forall x :: x in h && x != c ==> x in h' && h'[x] == h[x])
             && (forall x :: x in Foot(h', c, sub) && x in h ==> x in Foot(h, c, At(t, p)))
    ensures Tree(h', a, PutAt(t, p, sub))
    ensures forall x :: x in Foot(h', a, PutAt(t, p, sub)) && x in h ==> x in Foot(h, a, t)
    decreases p
  {
    if p != [] {
      var k, c := p[0], Follow(h, a, t, p);
      var b := h[a][k].addr;
      var u := PutAt(t.fields[k], p[1..], sub);
      AtTree(h, b, t.fields[k], p[1..]);
      WriteSeenFrom(h, h', b, t.fields[k], p[1..], sub);
      assert c in Foot(h, c, At(t, p));
      assert c in CellFoot(h, h[a][k], t.fields[k]);
      assert a != c;
      FootInHeap(h, a, t);
      assert a in Foot(h, a, t);
      KidsAfterWrite(h, h', a, t, k, c, u);
    }
  }

  lemma {:induction false} KidsAfterWrite(h: Heap, h': Heap, a: nat, t: Json, k: string, c: nat, u: Json)
    requires Tree(h, a, t) && k in t.fields && t.fields[k].Dict? && a in h' && h'[a] == h[a]
    requires c in CellFoot(h, h[a][k], t.fields[k])
    requires u.Dict? && Tree(h', h[a][k].addr, u)
    requires forall x :: x in h && x != c ==> x in h' && h'[x] == h[x]
    requires forall x :: x in Foot(h', h[a][k].addr, u) && x in h ==> x in CellFoot(h, h[a][k], t.fields[k])
    ensures Tree(h', a, Put(t, k, u))
    ensures forall x :: x in Foot(h', a, Put(t, k, u)) && x in h ==> x in Foot(h, a, t)
  {
    var r := Put(t, k, u);
    var bound := map j | j in t.fields ::
      if j == k then Foot(h', h[a][k].addr, u) else CellFoot(h, h[a][j], t.fields[j]);
    FootInHeap(h, a, t);
    forall j | j in r.fields
      ensures CellTree(h', h'[a][j], r.fields[j]) && CellShows(h', h'[a][j], r.fields[j])
      ensures CellFoot(h', h'[a][j], r.fields[j]) <= bound[j] && a !in bound[j]
      ensures forall x :: x in bound[j] && x in h ==> x in CellFoot(h, h[a][j], t.fields[j])
    {
      KidFoot(h, a, t, j);
      if j != k { CellTreeFrame(h, h', h[a][j], t.fields[j]); }
    }
    forall i, j | i in bound && j in bound && i != j ensures bound[i] !! bound[j] {
      KidFoot(h, a, t, i);
      KidFoot(h, a, t, j);
    }
    TreeFromKids(h', a, r, bound);
  }

  lemma {:induction false} PathDown(t: Json, p: seq<string>, k: string)
    requires Walkable(t, p) && k in At(t, p).fields && At(t, p).fields[k].Dict?
    ensures Walkable(t, p + [k]) && At(t, p + [k]) == At(t, p).fields[k]
    ensures forall sub :: PutAt(t, p + [k], sub) == PutAt(t, p, Put(At(t, p), k, sub))
  {
    if p == [] {
      assert [k][1..] == [];
      assert p + [k] == [k];
    } else {
      assert (p + [k])[1..] == p[1..] + [k] && (p + [k])[0] == p[0];
      PathDown(t.fields[p[0]], p[1..], k);
    }
  }

  lemma {:induction false} FollowDown(h: Heap, a: nat, t: Json, p: seq<string>, k: string)
    requires Shows(h, a, t) && Walkable(t, p) && Walkable(t, p + [k])
    requires k in At(t, p).fields && At(t, p).fields[k].Dict?
    ensures CellShows(h, h[Follow(h, a, t, p)][k], At(t, p).fields[k])
    ensures Follow(h, a, t, p + [k]) == h[Follow(h, a, t, p)][k].addr
    decreases p
  {
    if p == [] {
      assert [k][1..] == [];
      assert p + [k] == [k];
    } else {
      assert (p + [k])[1..] == p[1..] + [k] && (p + [k])[0] == p[0];
      assert CellShows(h, h[a][p[0]], t.fields[p[0]]);
      FollowDown(h, h[a][p[0]].addr, t.fields[p[0]], p[1..], k);
    }
  }

  lemma {:induction false} PutAtSelf(t: Json, p: seq<string>)
    requires Walkable(t, p)
    ensures PutAt(t, p, At(t, p)) == t
  {
    if p != [] {
      PutAtSelf(t.fields[p[0]], p[1..]);
      assert t.fields[p[0] := t.fields[p[0]]] == t.fields;
    }
  }

  lemma {:induction false} PutAtTwice(t: Json, p: seq<string>, u: Json, w: Json)
    requires Walkable(t, p) && u.Dict?
    ensures Walkable(PutAt(t, p, u), p) && At(PutAt(t, p, u), p) == u
    ensures PutAt(PutAt(t, p, u), p, w) == PutAt(t, p, w)
  {
    if p != [] {
      PutAtTwice(t.fields[p[0]], p[1..], u, w);
      var inner := PutAt(t.fields[p[0]], p[1..], u);
      assert t.fields[p[0] := inner][p[0] := PutAt(inner, p[1..], w)] == t.fields[p[0] := PutAt(inner, p[1..], w)];
    }
  }

  ghost predicate Untouched(h: Heap, h': Heap, foot: set<nat>) {
    forall x :: x in h && x !in foot ==> x in h' && h'[x] == h[x]
  }

  ghost predicate NothingOldAdded(h: Heap, foot': set<nat>, foot: set<nat>) {
    forall x :: x in foot' && x in h ==> x in foot
  }

  // ----- single writes -----

  /** The dicts each key of a dict uses, after one key was rewritten. */
  ghost function RewrittenBounds(h: Heap, c: nat, sub: Json, key: string, foot: set<nat>): map<string, set<nat>>
    requires Shows(h, c, sub)
  {
    map j | j in sub.fields.Keys + {key} :: if j == key then foot else CellFoot(h, h[c][j], sub.fields[j])
  }

  lemma RewrittenApart(h: Heap, c: nat, sub: Json, key: string, foot: set<nat>)
    requires Tree(h, c, sub) && foot !! h.Keys
    ensures var bound := RewrittenBounds(h, c, sub, key, foot);
            && (forall j :: j in bound ==> c !in bound[j] && (j != key ==> bound[j] <= Foot(h, c, sub)))
            && (forall j, k :: j in bound && k in bound && j != k ==> bound[j] !! bound[k])
  {
    FootInHeap(h, c, sub);
    forall j | j in sub.fields ensures CellFoot(h, h[c][j], sub.fields[j]) <= Foot(h, c, sub) { KidFoot(h, c, sub, j); }
  }

  /** One key of one dict is rewritten to a leaf or to fresh dicts. */
  lemma {:induction false} RewriteKey(h: Heap, h': Heap, c: nat, sub: Json, key: string, cell: Cell, v: Json)
    requires Tree(h, c, sub) && c in h' && h'[c] == h[c][key := cell]
    requires forall x :: x in h && x != c ==> x in h' && h'[x] == h[x]
    requires CellTree(h', cell, v) && CellShows(h', cell, v) && CellFoot(h', cell, v) !! h.Keys
    ensures Tree(h', c, Put(sub, key, v))
    ensures NothingOldAdded(h, Foot(h', c, Put(sub, key, v)), Foot(h, c, sub))
  {
    var r, bound := Put(sub, key, v), RewrittenBounds(h, c, sub, key, CellFoot(h', cell, v));
    FootInHeap(h, c, sub);
    RewrittenApart(h, c, sub, key, CellFoot(h', cell, v));
    forall j | j in r.fields && j != key
      ensures CellTree(h', h'[c][j], r.fields[j]) && CellShows(h', h'[c][j], r.fields[j])
      ensures CellFoot(h', h'[c][j], r.fields[j]) <= bound[j]
    {
      KidFoot(h, c, sub, j);
      CellTreeFrame(h, h', h[c][j], sub.fields[j]);
    }
    TreeFromKids(h', c, r, bound);
  }

  lemma LeafSeenFrom(h: Heap, h': Heap, a: nat, t: Json, p: seq<string>, key: string, v: Json)
    requires Tree(h, a, t) && Walkable(t, p) && !v.Dict?
    requires var c := Follow(h, a, t, p); h' == h[c := h[c][key := Leaf(v)]]
    ensures Tree(h', a, PutAt(t, p, Put(At(t, p), key, v)))
  {
    AtTree(h, a, t, p);
    RewriteKey(h, h', Follow(h, a, t, p), At(t, p), key, Leaf(v), v);
    WriteSeenFrom(h, h', a, t, p, Put(At(t, p), key, v));
  }

  lemma AllocatedSeenFrom(h: Heap, h': Heap, a: nat, t: Json, p: seq<string>, key: string, n: nat)
    requires Tree(h, a, t) && Walkable(t, p) && n !in h
    requires var c := Follow(h, a, t, p); h' == h[c := h[c][key := Ref(n)]][n := map[]]
    ensures Tree(h', a, PutAt(t, p, Put(At(t, p), key, EMPTY)))
    ensures NothingOldAdded(h, Foot(h', a, PutAt(t, p, Put(At(t, p), key, EMPTY))), Foot(h, a, t))
  {
    AtTree(h, a, t, p);
    assert Tree(h', n, EMPTY) && Foot(h', n, EMPTY) == {n};
    RewriteKey(h, h', Follow(h, a, t, p), At(t, p), key, Ref(n), EMPTY);
    WriteSeenFrom(h, h', a, t, p, Put(At(t, p), key, EMPTY));
  }

  lemma CursorInFoot(h: Heap, a: nat, t: Json, p: seq<string>)
    requires Tree(h, a, t) && Walkable(t, p)
    ensures Follow(h, a, t, p) in Foot(h, a, t)
  {
    AtTree(h, a, t, p);
    assert Follow(h, a, t, p) in Foot(h, Follow(h, a, t, p), At(t, p));
  }

  /** Below a parent that is missing, null or a dict the addition is the parent's. */
  lemma SetStepsDown(sub: Json, p: Path, v: string)
    requires sub.Dict? && |p| > 1 && (Get(sub, p[0]).Dict? || Get(sub, p[0]) == Null)
    ensures SetPath(sub, p, v) == Put(sub, p[0], SetPath(Parent(sub, p[0]), p[1..], v))
    ensures Applies(sub, p, v) == Applies(Parent(sub, p[0]), p[1..], v)
  {
    if Blocked(sub, p) {
      assert sub.fields[p[0] := sub.fields[p[0]]] == sub.fields;
    }
  }

  lemma {:induction false} FollowAfterWrite(h: Heap, h': Heap, a: nat, t: Json, p: seq<string>, sub: Json)
    requires Tree(h, a, t) && Walkable(t, p) && sub.Dict?
    requires Shows(h', a, PutAt(t, p, sub)) && Walkable(PutAt(t, p, sub), p)
    requires forall x :: x in h && x != Follow(h, a, t, p) ==> x in h' && h'[x] == h[x]
    ensures Follow(h', a, PutAt(t, p, sub), p) == Follow(h, a, t, p)
    decreases p
  {
    if p != [] {
      var b := h[a][p[0]].addr;
      AtTree(h, b, t.fields[p[0]], p[1..]);
      assert Follow(h, a, t, p) in Foot(h, Follow(h, a, t, p), At(t, p));
      assert a !in CellFoot(h, h[a][p[0]], t.fields[p[0]]);
      assert h'[a] == h[a];
      assert CellShows(h', h'[a][p[0]], PutAt(t, p, sub).fields[p[0]]);
      FollowAfterWrite(h, h', b, t.fields[p[0]], p[1..], sub);
    }
  }

  // ----- the cursor walk -----

  /** On trees: adding the remaining keys below `cur` is the whole addition to `t`. */
  ghost predicate Pending(t: Json, keys: Path, v: string, cur: Json, i: nat) {
    && i < |keys| && t.Dict? && Walkable(cur, keys[..i])
    && SetPath(t, keys, v) == PutAt(cur, keys[..i], SetPath(At(cur, keys[..i]), keys[i..], v))
    && Applies(t, keys, v) == Applies(At(cur, keys[..i]), keys[i..], v)
  }

  /** In the heap: the dicts show `cur`, the cursor is `i` keys down, and no dict
      outside the original tree was written. */
  ghost predicate Located(h0: Heap, root: nat, foot: set<nat>, keys: Path, h: Heap, cur: Json, i: nat, cursor: nat) {
    && i < |keys| && Tree(h, root, cur) && Walkable(cur, keys[..i])
    && cursor == Follow(h, root, cur, keys[..i])
    && h0.Keys <= h.Keys && Untouched(h0, h, foot) && NothingOldAdded(h0, Foot(h, root, cur), foot)
  }

  ghost predicate Walking(h0: Heap, root: nat, foot: set<nat>, t: Json, keys: Path, v: string,
                          h: Heap, cur: Json, i: nat, cursor: nat) {
    Pending(t, keys, v, cur, i) && Located(h0, root, foot, keys, h, cur, i, cursor)
  }

  /** The dicts at `root` show the tree with the addition, and nothing else was written. */
  ghost predicate AddedInPlace(h0: Heap, root: nat, foot: set<nat>, h: Heap, t: Json) {
    Tree(h, root, t) && Untouched(h0, h, foot)
  }

  lemma WalkStarts(root: nat, t: Json, keys: Path, v: string, h: Heap)
    requires Tree(h, root, t)
    ensures Walking(h, root, Foot(h, root, t), t, keys, v, h, t, 0, root) && root in h
  {
    assert keys[..0] == [] && keys[0..] == keys;
  }

  lemma PendingBelow(t: Json, keys: Path, v: string, cur: Json, i: nat, cur': Json)
    requires Pending(t, keys, v, cur, i) && i + 1 < |keys|
    requires var sub := At(cur, keys[..i]);
             || (Get(sub, keys[i]).Dict? && cur' == cur)
             || (Get(sub, keys[i]) == Null && cur' == PutAt(cur, keys[..i], Put(sub, keys[i], EMPTY)))
    ensures Pending(t, keys, v, cur', i + 1)
  {
    var p, key, sub := keys[..i], keys[i], At(cur, keys[..i]);
    var sub', rest := Put(sub, key, Parent(sub, key)), SetPath(Parent(sub, key), keys[i + 1..], v);
    assert keys[..i + 1] == p + [key] && keys[i..][0] == key && keys[i..][1..] == keys[i + 1..];
    SetStepsDown(sub, keys[i..], v);
    PutAtTwice(cur, p, sub', Put(sub', key, rest));
    assert Put(sub', key, rest) == Put(sub, key, rest);
    if cur' == cur {
      PathDown(cur, p, key);
    } else {
      PathDown(cur', p, key);
    }
  }

  lemma LocatedDescends(h0: Heap, root: nat, foot: set<nat>, keys: Path, h: Heap, cur: Json, i: nat, cursor: nat)
    requires Located(h0, root, foot, keys, h, cur, i, cursor) && i + 1 < |keys|
    requires keys[i] in h[cursor] && h[cursor][keys[i]].Ref?
    ensures At(cur, keys[..i]).fields.Keys == h[cursor].Keys && At(cur, keys[..i]).fields[keys[i]].Dict?
    ensures Located(h0, root, foot, keys, h, cur, i + 1, h[cursor][keys[i]].addr)
  {
    var p, key, sub := keys[..i], keys[i], At(cur, keys[..i]);
    assert keys[..i + 1] == p + [key];
    assert CellShows(h, h[cursor][key], sub.fields[key]);
    PathDown(cur, p, key);
    FollowDown(h, root, cur, p, key);
  }

  lemma MissingIsNull(h: Heap, a: nat, t: Json, key: string)
    requires Shows(h, a, t)
    ensures (key in h[a] ==> h[a][key] == Leaf(Null)) <==> Get(t, key) == Null
  {
    if key in h[a] { assert CellShows(h, h[a][key], t.fields[key]); }
  }

  lemma LocatedCreates(h0: Heap, root: nat, foot: set<nat>, keys: Path, h: Heap, cur: Json, i: nat, cursor: nat,
                       n: nat, h': Heap)
    requires Located(h0, root, foot, keys, h, cur, i, cursor) && i + 1 < |keys|
    requires n !in h && h' == h[cursor := h[cursor][keys[i] := Ref(n)]][n := map[]]
    ensures Located(h0, root, foot, keys, h', PutAt(cur, keys[..i], Put(At(cur, keys[..i]), keys[i], EMPTY)), i + 1, n)
  {
    var p, key, sub := keys[..i], keys[i], At(cur, keys[..i]);
    var cur' := PutAt(cur, p, Put(sub, key, EMPTY));
    assert keys[..i + 1] == p + [key];
    CursorInFoot(h, root, cur, p);
    AllocatedSeenFrom(h, h', root, cur, p, key, n);
    PutAtTwice(cur, p, Put(sub, key, EMPTY), EMPTY);
    FollowAfterWrite(h, h', root, cur, p, Put(sub, key, EMPTY));
    PathDown(cur', p, key);
    FollowDown(h', root, cur', p, key);
  }

  /** One turn of the loop at a missing parent. */
  lemma WalkCreates(h0: Heap, root: nat, foot: set<nat>, t: Json, keys: Path, v: string,
                    h: Heap, cur: Json, i: nat, cursor: nat, n: nat, h': Heap) returns (cur': Json)
    requires Walking(h0, root, foot, t, keys, v, h, cur, i, cursor) && i + 1 < |keys|
    requires keys[i] in h[cursor] ==> h[cursor][keys[i]] == Leaf(Null)
    requires n !in h && h' == h[cursor := h[cursor][keys[i] := Ref(n)]][n := map[]]
    ensures Walking(h0, root, foot, t, keys, v, h', cur', i + 1, n) && n in h'
  {
    AtTree(h, root, cur, keys[..i]);
    MissingIsNull(h, cursor, At(cur, keys[..i]), keys[i]);
    cur' := PutAt(cur, keys[..i], Put(At(cur, keys[..i]), keys[i], EMPTY));
    LocatedCreates(h0, root, foot, keys, h, cur, i, cursor, n, h');
    PendingBelow(t, keys, v, cur, i, cur');
  }

  /** One turn of the loop at a dict. */
  lemma WalkDescends(h0: Heap, root: nat, foot: set<nat>, t: Json, keys: Path, v: string,
                     h: Heap, cur: Json, i: nat, cursor: nat)
    requires Walking(h0, root, foot, t, keys, v, h, cur, i, cursor) && i + 1 < |keys|
    requires keys[i] in h[cursor] && h[cursor][keys[i]].Ref?
    ensures Walking(h0, root, foot, t, keys, v, h, cur, i + 1, h[cursor][keys[i]].addr) && h[cursor][keys[i]].addr in h
  {
    LocatedDescends(h0, root, foot, keys, h, cur, i, cursor);
    PendingBelow(t, keys, v, cur, i, cur);
  }

  lemma WalkStops(t: Json, keys: Path, v: string, h: Heap, cur: Json, i: nat, cursor: nat)
    requires Pending(t, keys, v, cur, i) && Shows(h, cursor, At(cur, keys[..i])) && keys[i] in h[cursor]
    requires if i + 1 < |keys| then h[cursor][keys[i]].Leaf? && h[cursor][keys[i]] != Leaf(Null)
             else h[cursor][keys[i]] == Leaf(Str(v))
    ensures SetPath(t, keys, v) == cur && !Applies(t, keys, v)
  {
    var sub := At(cur, keys[..i]);
    assert keys[i..][0] == keys[i];
    assert CellShows(h, h[cursor][keys[i]], sub.fields[keys[i]]);
    if i + 1 < |keys| { assert Blocked(sub, keys[i..]); }
    else { SettledLeaf(sub, keys[i..], v); }
    PutAtSelf(cur, keys[..i]);
  }

  /** The loop's early return at a parent that is neither a dict nor null. */
  lemma WalkBlocked(h0: Heap, root: nat, foot: set<nat>, t: Json, keys: Path, v: string,
                    h: Heap, cur: Json, i: nat, cursor: nat)
    requires Walking(h0, root, foot, t, keys, v, h, cur, i, cursor) && i + 1 < |keys|
    requires keys[i] in h[cursor] && h[cursor][keys[i]].Leaf? && h[cursor][keys[i]] != Leaf(Null)
    ensures SetPath(t, keys, v) == cur && !Applies(t, keys, v) && AddedInPlace(h0, root, foot, h, cur)
  {
    AtTree(h, root, cur, keys[..i]);
    WalkStops(t, keys, v, h, cur, i, cursor);
  }

  lemma PendingWrites(t: Json, keys: Path, v: string, h: Heap, cur: Json, i: nat, cursor: nat)
    requires Pending(t, keys, v, cur, i) && i + 1 == |keys| && Shows(h, cursor, At(cur, keys[..i]))
    requires !(keys[i] in h[cursor] && h[cursor][keys[i]] == Leaf(Str(v)))
    ensures SetPath(t, keys, v) == PutAt(cur, keys[..i], Put(At(cur, keys[..i]), keys[i], Str(v)))
    ensures Applies(t, keys, v)
  {
    var sub := At(cur, keys[..i]);
    assert keys[i..] == [keys[i]];
    if keys[i] in sub.fields { assert CellShows(h, h[cursor][keys[i]], sub.fields[keys[i]]); }
  }

  lemma LocatedWrites(h0: Heap, root: nat, foot: set<nat>, keys: Path, h: Heap, cur: Json, i: nat, cursor: nat, v: string, h': Heap)
    requires Located(h0, root, foot, keys, h, cur, i, cursor)
    requires h' == h[cursor := h[cursor][keys[i] := Leaf(Str(v))]]
    ensures AddedInPlace(h0, root, foot, h', PutAt(cur, keys[..i], Put(At(cur, keys[..i]), keys[i], Str(v))))
  {
    CursorInFoot(h, root, cur, keys[..i]);
    LeafSeenFrom(h, h', root, cur, keys[..i], keys[i], Str(v));
  }

  // ----- the scripts -----

  /** The dict objects of a running script. */
  class PyDicts {
    var dicts: Heap
    var next: nat

    ghost predicate Valid() reads this {
      forall a :: a in dicts ==> a < next
    }

    constructor ()
      ensures Valid() && dicts == map[]
    {
      dicts, next := map[], 0;
    }

    /** A new empty dict under `key`. */
    method NewNode(parent: nat, key: string) returns (node: nat)
      requires Valid() && parent in dicts
      modifies this
      ensures Valid() && node !in old(dicts)
      ensures dicts == old(dicts)[parent := old(dicts)[parent][key := Ref(node)]][node := map[]]
    {
      node := next;
      dicts := dicts[parent := dicts[parent][key := Ref(node)]][node := map[]];
      next := next + 1;
    }

    /** The loop of `_set_deep`: the cursor walks down to the last key's dict, creating
        missing parents, or stops at a parent that is not a dict. */
    method WalkToParent(root: nat, keys: Path, value: string, ghost t: Json)
      returns (found: bool, cursor: nat, ghost cur: Json)
      requires Valid() && Tree(dicts, root, t)
      modifies this
      ensures Valid()
      ensures found ==> Walking(old(dicts), root, old(Foot(dicts, root, t)), t, keys, value, dicts, cur, |keys| - 1, cursor)
      ensures !found ==> SetPath(t, keys, value) == cur && !Applies(t, keys, value)
      ensures !found ==> AddedInPlace(old(dicts), root, old(Foot(dicts, root, t)), dicts, cur)
    {
      var i := 0;
      cursor, cur := root, t;
      ghost var h0, foot := dicts, Foot(dicts, root, t);
      WalkStarts(root, t, keys, value, dicts);
      while i < |keys| - 1
        invariant i < |keys| && cursor in dicts
        invariant Valid() && Walking(h0, root, foot, t, keys, value, dicts, cur, i, cursor)
      {
        var node := if keys[i] in dicts[cursor] then dicts[cursor][keys[i]] else Leaf(Null);
        if node == Leaf(Null) {
          ghost var h := dicts;
          var node := NewNode(cursor, keys[i]);
          cur := WalkCreates(h0, root, foot, t, keys, value, h, cur, i, cursor, node, dicts);
          cursor := node;
        } else if node.Ref? {
          WalkDescends(h0, root, foot, t, keys, value, dicts, cur, i, cursor);
          cursor := node.addr;
        } else {
          WalkBlocked(h0, root, foot, t, keys, value, dicts, cur, i, cursor);
          return false, cursor, cur;
        }
        i := i + 1;
      }
      found := true;
    }

    /** `_set_deep`. */
    method SetDeep(root: nat, path: string, value: string, ghost t: Json) returns (modified: bool)
      requires Valid() && Tree(dicts, root, t)
      modifies this
      ensures Valid() && modified == Applies(t, SplitDots(path), value)
      ensures AddedInPlace(old(dicts), root, old(Foot(dicts, root, t)), dicts, SetPath(t, SplitDots(path), value))
    {
      var keys := SplitDots(path);
      var found, cursor, cur := WalkToParent(root, keys, value, t);
      if !found {
        return false;
      }
      var leaf := keys[|keys| - 1];
      if leaf in dicts[cursor] && dicts[cursor][leaf] == Leaf(Str(value)) {
        WalkStops(t, keys, value, dicts, cur, |keys| - 1, cursor);
        return false;
      }
      PendingWrites(t, keys, value, dicts, cur, |keys| - 1, cursor);
      ghost var h := dicts;
      dicts := dicts[cursor := dicts[cursor][leaf := Leaf(Str(value))]];
      LocatedWrites(old(dicts), root, old(Foot(dicts, root, t)), keys, h, cur, |keys| - 1, cursor, value, dicts);
      return true;
    }

    /** The loop of `main` over the additions of one locale: the flag it keeps says
        whether the file is written back. */
    method AddAllKeys(root: nat, additions: seq<(string, string)>, ghost t: Json) returns (changed: bool)
      requires Valid() && Tree(dicts, root, t)
      requires forall i, j :: 0 <= i < j < |additions| ==> additions[i].0 != additions[j].0
      modifies this
      ensures Valid() && Tree(dicts, root, AddAll(t, Additions(additions)))
      ensures changed <==> AddAll(t, Additions(additions)) != t
    {
      changed := false;
      var i := 0;
      ghost var adds, cur := Additions(additions), t;
      while i < |additions|
        invariant 0 <= i <= |additions| && Valid() && Tree(dicts, root, cur)
        invariant AddAll(cur, adds[i..]) == AddAll(t, adds)
        invariant (changed || AnyApplies(cur, adds[i..])) == AnyApplies(t, adds)
      {
        assert adds[i..][0] == adds[i] && adds[i..][1..] == adds[i + 1..];
        var modified := SetDeep(root, additions[i].0, additions[i].1, cur);
        cur := SetPath(cur, adds[i].path, adds[i].value);
        if modified {
          changed := true;
        }
        i := i + 1;
      }
      AdditionsDistinct(additions);
      ChangedFlagIsExact(t, adds);
    }
  }
}
