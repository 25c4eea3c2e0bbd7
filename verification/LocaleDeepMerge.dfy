/** `deep_merge` on dict objects: in place, where merged-in subtrees end up shared with
    the source (scripts/i18n_add_wave_c1_keys.py:205-211), and copying, where both
    arguments stay as they are (scripts/i18n_add_wave_c4_keys.py:47-58). */
module LocaleDeepMerge {
  import opened LocaleTrees
  import opened LocaleMerge
  import opened LocaleHeap

  /** The value at a source key of the merged dict. */
  function MergedAt(d: Json, s: Json, k: string): Json
    requires d.Dict? && s.Dict? && k in s.fields
  {
    if k in d.fields then Merge(d.fields[k], s.fields[k]) else s.fields[k]
  }

  lemma MergedFields(d: Json, s: Json)
    requires d.Dict? && s.Dict?
    ensures Merge(d, s).fields.Keys == d.fields.Keys + s.fields.Keys
    ensures forall k :: k in s.fields ==> Merge(d, s).fields[k] == MergedAt(d, s, k)
    ensures forall k :: k in d.fields && k !in s.fields ==> Merge(d, s).fields[k] == d.fields[k]
  {
  }

  // ----- in place -----

  ghost function KeyFoot(h: Heap, a: nat, t: Json, k: string): set<nat>
    requires Shows(h, a, t)
  {
    if k in t.fields then CellFoot(h, h[a][k], t.fields[k]) else {}
  }

  ghost predicate Apart(h: Heap, dst: nat, d: Json, src: nat, s: Json) {
    Tree(h, dst, d) && Tree(h, src, s) && Foot(h, dst, d) !! Foot(h, src, s)
  }

  /** The addresses that may end up below key `k`. */
  ghost function Bound(h: Heap, dst: nat, d: Json, src: nat, s: Json, k: string): set<nat>
    requires Apart(h, dst, d, src, s)
  {
    KeyFoot(h, dst, d, k) + KeyFoot(h, src, s, k)
  }

  lemma KeyFeet(h: Heap, a: nat, t: Json, j: string, k: string)
    requires Tree(h, a, t)
    ensures KeyFoot(h, a, t, k) <= Foot(h, a, t) && a !in KeyFoot(h, a, t, k)
    ensures j != k ==> KeyFoot(h, a, t, j) !! KeyFoot(h, a, t, k)
  {
    if k in t.fields { KidFoot(h, a, t, k); }
    if j in t.fields { KidFoot(h, a, t, j); }
  }

  lemma BoundsApart(h: Heap, dst: nat, d: Json, src: nat, s: Json, j: string, k: string)
    requires Apart(h, dst, d, src, s)
    ensures dst !in Bound(h, dst, d, src, s, k)
    ensures KeyFoot(h, src, s, k) !! Foot(h, dst, d)
    ensures j != k ==> Bound(h, dst, d, src, s, j) !! Bound(h, dst, d, src, s, k)
  {
    KeyFeet(h, dst, d, j, k);
    KeyFeet(h, dst, d, k, j);
    KeyFeet(h, src, s, j, k);
    KeyFeet(h, src, s, k, j);
    assert dst in Foot(h, dst, d);
  }

  ghost predicate CellGood(h: Heap, c: Cell, t: Json, bound: set<nat>) {
    CellShows(h, c, t) && CellTree(h, c, t) && CellFoot(h, c, t) <= bound
  }

  lemma GoodFrame(h: Heap, h': Heap, c: Cell, t: Json, bound: set<nat>)
    requires CellGood(h, c, t, bound)
    requires forall x :: x in bound && x in h ==> x in h' && h'[x] == h[x]
    ensures CellGood(h', c, t, bound)
  {
    if t.Dict? { FootInHeap(h, c.addr, t); }
    CellTreeFrame(h, h', c, t);
  }

  /** The loop over the source keys has handled those in `done`. */
  ghost predicate Merging(h0: Heap, dst: nat, d: Json, src: nat, s: Json, h: Heap, done: set<string>)
    requires Apart(h0, dst, d, src, s)
  {
    && done <= s.fields.Keys && h.Keys == h0.Keys && Untouched(h0, h, Foot(h0, dst, d))
    && dst in h && h[dst].Keys == d.fields.Keys + done
    && (forall k :: k in done ==> CellGood(h, h[dst][k], MergedAt(d, s, k), Bound(h0, dst, d, src, s, k)))
    && (forall k :: k in d.fields && k !in done ==>
          h[dst][k] == h0[dst][k] && CellGood(h, h0[dst][k], d.fields[k], KeyFoot(h0, dst, d, k)))
  }

  lemma MergingStarts(h: Heap, dst: nat, d: Json, src: nat, s: Json)
    requires Apart(h, dst, d, src, s)
    ensures src in h && h[src].Keys == s.fields.Keys && Merging(h, dst, d, src, s, h, {})
  {
  }

  lemma SourceKept(h0: Heap, dst: nat, d: Json, src: nat, s: Json, h: Heap, k: string)
    requires Apart(h0, dst, d, src, s) && h.Keys == h0.Keys && Untouched(h0, h, Foot(h0, dst, d)) && k in s.fields
    ensures src in h && h[src] == h0[src] && k in h[src]
    ensures CellGood(h, h[src][k], s.fields[k], KeyFoot(h0, src, s, k))
  {
    assert src in Foot(h0, src, s);
    BoundsApart(h0, dst, d, src, s, k, k);
    GoodFrame(h0, h, h0[src][k], s.fields[k], KeyFoot(h0, src, s, k));
  }

  /** A write to the destination dict itself disturbs no cell below it. */
  lemma CellsKept(h0: Heap, dst: nat, d: Json, src: nat, s: Json, h: Heap, done: set<string>, h': Heap)
    requires Apart(h0, dst, d, src, s) && Merging(h0, dst, d, src, s, h, done)
    requires forall x :: x in h && x != dst ==> x in h' && h'[x] == h[x]
    ensures forall j :: j in done ==> CellGood(h', h[dst][j], MergedAt(d, s, j), Bound(h0, dst, d, src, s, j))
    ensures forall j :: j in d.fields && j !in done ==> CellGood(h', h0[dst][j], d.fields[j], KeyFoot(h0, dst, d, j))
  {
    forall j | j in done ensures CellGood(h', h[dst][j], MergedAt(d, s, j), Bound(h0, dst, d, src, s, j)) {
      BoundsApart(h0, dst, d, src, s, j, j);
      GoodFrame(h, h', h[dst][j], MergedAt(d, s, j), Bound(h0, dst, d, src, s, j));
    }
    forall j | j in d.fields && j !in done ensures CellGood(h', h0[dst][j], d.fields[j], KeyFoot(h0, dst, d, j)) {
      KeyFeet(h0, dst, d, j, j);
      GoodFrame(h, h', h0[dst][j], d.fields[j], KeyFoot(h0, dst, d, j));
    }
  }

  lemma AssignedCell(h0: Heap, dst: nat, d: Json, src: nat, s: Json, h: Heap, done: set<string>, k: string, h': Heap)
    requires Apart(h0, dst, d, src, s) && Merging(h0, dst, d, src, s, h, done)
    requires k in s.fields && !(k in d.fields && d.fields[k].Dict? && s.fields[k].Dict?)
    requires src in h && k in h[src] && h' == h[dst := h[dst][k := h[src][k]]]
    ensures h'.Keys == h0.Keys && Untouched(h0, h', Foot(h0, dst, d))
    ensures CellGood(h', h[src][k], MergedAt(d, s, k), Bound(h0, dst, d, src, s, k))
  {
    assert dst in Foot(h0, dst, d);
    assert src in Foot(h0, src, s);
    SourceKept(h0, dst, d, src, s, h', k);
    assert MergedAt(d, s, k) == s.fields[k];
  }

  lemma MergingExtends(h0: Heap, dst: nat, d: Json, src: nat, s: Json, h: Heap, done: set<string>, k: string, c: Cell, h': Heap)
    requires Apart(h0, dst, d, src, s) && Merging(h0, dst, d, src, s, h, done)
    requires k in s.fields && h'.Keys == h0.Keys && Untouched(h0, h', Foot(h0, dst, d))
    requires dst in h' && h'[dst] == h[dst][k := c]
    requires CellGood(h', c, MergedAt(d, s, k), Bound(h0, dst, d, src, s, k))
    requires forall j :: j in done && j != k ==> CellGood(h', h[dst][j], MergedAt(d, s, j), Bound(h0, dst, d, src, s, j))
    requires forall j :: j in d.fields && j !in done && j != k ==>
               CellGood(h', h0[dst][j], d.fields[j], KeyFoot(h0, dst, d, j))
    ensures Merging(h0, dst, d, src, s, h', done + {k})
  {
  }

  /** A key that is not a dict on both sides takes the source cell itself. */
  lemma MergingAssigns(h0: Heap, dst: nat, d: Json, src: nat, s: Json, h: Heap, done: set<string>, k: string, h': Heap)
    requires Apart(h0, dst, d, src, s) && Merging(h0, dst, d, src, s, h, done)
    requires k in s.fields && k !in done && !(k in d.fields && d.fields[k].Dict? && s.fields[k].Dict?)
    requires src in h && k in h[src] && h' == h[dst := h[dst][k := h[src][k]]]
    ensures Merging(h0, dst, d, src, s, h', done + {k})
  {
    AssignedCell(h0, dst, d, src, s, h, done, k, h');
    CellsKept(h0, dst, d, src, s, h, done, h');
    MergingExtends(h0, dst, d, src, s, h, done, k, h[src][k], h');
  }

  /** Writes below one key of the destination disturb no cell of another. */
  lemma OthersKept(h0: Heap, dst: nat, d: Json, src: nat, s: Json, h: Heap, done: set<string>, k: string, h': Heap)
    requires Apart(h0, dst, d, src, s) && Merging(h0, dst, d, src, s, h, done)
    requires k in d.fields && k !in done && Untouched(h, h', KeyFoot(h0, dst, d, k))
    ensures forall j :: j in done ==> CellGood(h', h[dst][j], MergedAt(d, s, j), Bound(h0, dst, d, src, s, j))
    ensures forall j :: j in d.fields && j !in done && j != k ==>
              CellGood(h', h0[dst][j], d.fields[j], KeyFoot(h0, dst, d, j))
  {
    forall j | j in done ensures CellGood(h', h[dst][j], MergedAt(d, s, j), Bound(h0, dst, d, src, s, j)) {
      BoundsApart(h0, dst, d, src, s, j, k);
      GoodFrame(h, h', h[dst][j], MergedAt(d, s, j), Bound(h0, dst, d, src, s, j));
    }
    forall j | j in d.fields && j !in done && j != k
      ensures CellGood(h', h0[dst][j], d.fields[j], KeyFoot(h0, dst, d, j))
    {
      KeyFeet(h0, dst, d, j, k);
      GoodFrame(h, h', h0[dst][j], d.fields[j], KeyFoot(h0, dst, d, j));
    }
  }

  /** A key that is a dict on both sides was merged below. */
  lemma MergingRecurses(h0: Heap, dst: nat, d: Json, src: nat, s: Json, h: Heap, done: set<string>, k: string, h': Heap)
    requires Apart(h0, dst, d, src, s) && Merging(h0, dst, d, src, s, h, done)
    requires k in s.fields && k !in done && k in d.fields && d.fields[k].Dict? && s.fields[k].Dict?
    requires h'.Keys == h.Keys && Untouched(h, h', KeyFoot(h0, dst, d, k))
    requires CellGood(h', h[dst][k], Merge(d.fields[k], s.fields[k]), Bound(h0, dst, d, src, s, k))
    ensures Merging(h0, dst, d, src, s, h', done + {k})
  {
    KeyFeet(h0, dst, d, k, k);
    OthersKept(h0, dst, d, src, s, h, done, k, h');
    assert h'[dst] == h[dst];
  }

  /** What an in-place merge leaves behind. */
  ghost predicate MergedInPlace(h0: Heap, dst: nat, d: Json, src: nat, s: Json, h: Heap)
    requires Apart(h0, dst, d, src, s)
  {
    && h.Keys == h0.Keys && Untouched(h0, h, Foot(h0, dst, d))
    && Tree(h, dst, Merge(d, s)) && Foot(h, dst, Merge(d, s)) <= Foot(h0, dst, d) + Foot(h0, src, s)
  }

  /** The dicts each merged key may use: apart from each other and from `dst`. */
  ghost function Bounds(h: Heap, dst: nat, d: Json, src: nat, s: Json): map<string, set<nat>>
    requires Apart(h, dst, d, src, s)
  {
    map k | k in d.fields.Keys + s.fields.Keys :: Bound(h, dst, d, src, s, k)
  }

  lemma BoundsWithin(h: Heap, dst: nat, d: Json, src: nat, s: Json)
    requires Apart(h, dst, d, src, s)
    ensures var bound := Bounds(h, dst, d, src, s);
            && (forall k :: k in bound ==> dst !in bound[k] && bound[k] <= Foot(h, dst, d) + Foot(h, src, s))
            && (forall j, k :: j in bound && k in bound && j != k ==> bound[j] !! bound[k])
  {
    var bound := Bounds(h, dst, d, src, s);
    forall k | k in bound ensures dst !in bound[k] && bound[k] <= Foot(h, dst, d) + Foot(h, src, s) {
      BoundsApart(h, dst, d, src, s, k, k);
      KeyFeet(h, dst, d, k, k);
      KeyFeet(h, src, s, k, k);
    }
    forall j, k | j in bound && k in bound && j != k ensures bound[j] !! bound[k] {
      BoundsApart(h, dst, d, src, s, j, k);
    }
  }

  lemma MergingEnds(h0: Heap, dst: nat, d: Json, src: nat, s: Json, h: Heap)
    requires Apart(h0, dst, d, src, s) && Merging(h0, dst, d, src, s, h, s.fields.Keys)
    ensures MergedInPlace(h0, dst, d, src, s, h)
  {
    var m := Merge(d, s);
    MergedFields(d, s);
    var bound := Bounds(h0, dst, d, src, s);
    BoundsWithin(h0, dst, d, src, s);
    TreeFromKids(h, dst, m, bound);
    assert dst in Foot(h0, dst, d);
  }

  lemma KidsApart(h0: Heap, dst: nat, d: Json, src: nat, s: Json, h: Heap, done: set<string>, k: string)
    requires Apart(h0, dst, d, src, s) && Merging(h0, dst, d, src, s, h, done)
    requires k in s.fields && k !in done && k in d.fields && d.fields[k].Dict? && s.fields[k].Dict?
    ensures src in h && k in h[src] && h[src][k].Ref? && h[dst][k].Ref?
    ensures Apart(h, h[dst][k].addr, d.fields[k], h[src][k].addr, s.fields[k])
    ensures Foot(h, h[dst][k].addr, d.fields[k]) <= KeyFoot(h0, dst, d, k)
    ensures Foot(h, h[src][k].addr, s.fields[k]) <= KeyFoot(h0, src, s, k)
  {
    SourceKept(h0, dst, d, src, s, h, k);
    BoundsApart(h0, dst, d, src, s, k, k);
    KeyFeet(h0, dst, d, k, k);
  }

  // ----- merging what is already there -----

  /** The tree already has everything the source would bring. */
  predicate Contains(d: Json, s: Json) {
    d.Dict? && s.Dict? && Merge(d, s) == d
  }

  lemma ContainsKey(d: Json, s: Json, k: string)
    requires Contains(d, s) && k in s.fields
    ensures k in d.fields && Merge(d.fields[k], s.fields[k]) == d.fields[k]
    ensures if s.fields[k].Dict? then Contains(d.fields[k], s.fields[k]) else d.fields[k] == s.fields[k]
  {
    MergedFields(d, s);
    assert Merge(d, s).fields[k] == MergedAt(d, s, k);
  }

  /** The assignment then writes the cell that is there. */
  lemma AssignsTheSame(h: Heap, dst: nat, d: Json, src: nat, s: Json, k: string)
    requires Shows(h, dst, d) && Shows(h, src, s) && Contains(d, s) && k in s.fields
    requires !(k in d.fields && d.fields[k].Dict? && s.fields[k].Dict?)
    ensures k in h[src] && h[dst := h[dst][k := h[src][k]]] == h
  {
    ContainsKey(d, s, k);
    assert CellShows(h, h[dst][k], d.fields[k]) && CellShows(h, h[src][k], s.fields[k]);
    assert h[dst][k := h[src][k]] == h[dst];
  }

  /** Whatever an in-place merge leaves shared, the destination then has the source. */
  lemma MergedContains(h0: Heap, dst: nat, d: Json, src: nat, s: Json, h: Heap)
    requires Apart(h0, dst, d, src, s) && MergedInPlace(h0, dst, d, src, s, h)
    ensures Shows(h, dst, Merge(d, s)) && Shows(h, src, s) && Contains(Merge(d, s), s)
  {
    FootInHeap(h0, src, s);
    ShowsFrame(h0, h, src, s);
    MergeIsIdempotent(d, s);
  }

  /** The state of a merge after the keys in `done`, for trees apart and for a source
      that is there already, shared or not. */
  ghost predicate Underway(h0: Heap, dst: nat, d: Json, src: nat, s: Json, h: Heap, done: set<string>) {
    && Shows(h0, dst, d) && Shows(h0, src, s) && done <= s.fields.Keys
    && (Apart(h0, dst, d, src, s) || Contains(d, s))
    && (Apart(h0, dst, d, src, s) ==> Merging(h0, dst, d, src, s, h, done))
    && (Contains(d, s) ==> h == h0)
  }

  /** What the loop reads at a key. */
  lemma KeyUnderway(h0: Heap, dst: nat, d: Json, src: nat, s: Json, h: Heap, done: set<string>, k: string)
    requires Underway(h0, dst, d, src, s, h, done) && k in s.fields && k !in done
    ensures dst in h && src in h && k in h[src] && (h[src][k].Ref? <==> s.fields[k].Dict?)
    ensures k in h[dst] <==> k in d.fields
    ensures k in d.fields ==> (h[dst][k].Ref? <==> d.fields[k].Dict?)
  {
    if Apart(h0, dst, d, src, s) { SourceKept(h0, dst, d, src, s, h, k); }
    else {
      assert CellShows(h, h[src][k], s.fields[k]);
      if k in d.fields { assert CellShows(h, h[dst][k], d.fields[k]); }
    }
  }

  lemma KidsUnderway(h0: Heap, dst: nat, d: Json, src: nat, s: Json, h: Heap, done: set<string>, k: string)
    requires Underway(h0, dst, d, src, s, h, done) && k in s.fields && k !in done
    requires k in d.fields && d.fields[k].Dict? && s.fields[k].Dict?
    ensures dst in h && src in h && k in h[dst] && k in h[src] && h[dst][k].Ref? && h[src][k].Ref?
    ensures var a, b := h[dst][k].addr, h[src][k].addr;
            && Shows(h, a, d.fields[k]) && Shows(h, b, s.fields[k])
            && (Apart(h, a, d.fields[k], b, s.fields[k]) || Contains(d.fields[k], s.fields[k]))
            && (Apart(h0, dst, d, src, s) ==> Apart(h, a, d.fields[k], b, s.fields[k]))
            && (Contains(d, s) ==> Contains(d.fields[k], s.fields[k]))
  {
    if Apart(h0, dst, d, src, s) { KidsApart(h0, dst, d, src, s, h, done, k); }
    if Contains(d, s) {
      ContainsKey(d, s, k);
      assert CellShows(h, h[dst][k], d.fields[k]) && CellShows(h, h[src][k], s.fields[k]);
    }
  }

  /** One source key. */
  method MergeKeyInPlace(py: PyDicts, dst: nat, src: nat, k: string, ghost h0: Heap, ghost d: Json, ghost s: Json,
                         ghost done: set<string>)
    requires py.Valid() && Underway(h0, dst, d, src, s, py.dicts, done) && k in s.fields && k !in done
    modifies py
    ensures py.Valid() && Underway(h0, dst, d, src, s, py.dicts, done + {k})
    decreases s, 0
  {
    ghost var h := py.dicts;
    KeyUnderway(h0, dst, d, src, s, h, done, k);
    if k in py.dicts[dst] && py.dicts[dst][k].Ref? && py.dicts[src][k].Ref? {
      KidsUnderway(h0, dst, d, src, s, h, done, k);
      DeepMergeInPlace(py, py.dicts[dst][k].addr, py.dicts[src][k].addr, d.fields[k], s.fields[k]);
      RecursedUnderway(h0, dst, d, src, s, h, done, k, py.dicts);
    } else {
      py.dicts := py.dicts[dst := py.dicts[dst][k := py.dicts[src][k]]];
      AssignedUnderway(h0, dst, d, src, s, h, done, k, py.dicts);
    }
  }

  /** `deep_merge` of waves C1 to C3: only dicts of the destination are written, and none
      if the destination has the source already, even if it shares dicts with it. */
  method DeepMergeInPlace(py: PyDicts, dst: nat, src: nat, ghost d: Json, ghost s: Json)
    requires py.Valid() && Shows(py.dicts, dst, d) && Shows(py.dicts, src, s)
    requires Apart(py.dicts, dst, d, src, s) || Contains(d, s)
    modifies py
    ensures py.Valid()
    ensures old(Apart(py.dicts, dst, d, src, s)) ==> MergedInPlace(old(py.dicts), dst, d, src, s, py.dicts)
    ensures Contains(d, s) ==> py.dicts == old(py.dicts)
    decreases s, 1
  {
    ghost var h0, done := py.dicts, {};
    if Apart(h0, dst, d, src, s) { MergingStarts(h0, dst, d, src, s); }
    var todo := py.dicts[src].Keys;
    while todo != {}
      invariant py.Valid() && Underway(h0, dst, d, src, s, py.dicts, done)
      invariant todo + done == s.fields.Keys && todo !! done
      decreases todo
    {
      var k :| k in todo;
      MergeKeyInPlace(py, dst, src, k, h0, d, s, done);
      todo, done := todo - {k}, done + {k};
    }
    assert done == s.fields.Keys;
    if Apart(h0, dst, d, src, s) { MergingEnds(h0, dst, d, src, s, py.dicts); }
  }

  lemma RecursedUnderway(h0: Heap, dst: nat, d: Json, src: nat, s: Json, h: Heap, done: set<string>, k: string, h': Heap)
    requires Underway(h0, dst, d, src, s, h, done) && k in s.fields && k !in done
    requires k in d.fields && d.fields[k].Dict? && s.fields[k].Dict?
    requires dst in h && src in h && k in h[dst] && k in h[src] && h[dst][k].Ref? && h[src][k].Ref?
    requires var a, b := h[dst][k].addr, h[src][k].addr;
             && (Apart(h, a, d.fields[k], b, s.fields[k]) ==>
                   MergedInPlace(h, a, d.fields[k], b, s.fields[k], h'))
             && (Contains(d.fields[k], s.fields[k]) ==> h' == h)
    ensures Underway(h0, dst, d, src, s, h', done + {k})
  {
    if Apart(h0, dst, d, src, s) {
      KidsApart(h0, dst, d, src, s, h, done, k);
      MergingRecurses(h0, dst, d, src, s, h, done, k, h');
    }
    if Contains(d, s) { ContainsKey(d, s, k); }
  }

  lemma AssignedUnderway(h0: Heap, dst: nat, d: Json, src: nat, s: Json, h: Heap, done: set<string>, k: string, h': Heap)
    requires Underway(h0, dst, d, src, s, h, done) && k in s.fields && k !in done
    requires !(k in d.fields && d.fields[k].Dict? && s.fields[k].Dict?)
    requires dst in h && src in h && k in h[src] && h' == h[dst := h[dst][k := h[src][k]]]
    ensures Underway(h0, dst, d, src, s, h', done + {k})
  {
    if Apart(h0, dst, d, src, s) { MergingAssigns(h0, dst, d, src, s, h, done, k, h'); }
    if Contains(d, s) { AssignsTheSame(h0, dst, d, src, s, k); }
  }

  // ----- copying -----

  ghost predicate Grown(h: Heap, h': Heap) {
    forall x :: x in h ==> x in h' && h'[x] == h[x]
  }

  /** A shown cell made of dicts of the arguments and of dicts newer than `out`. */
  ghost predicate CellWithin(h: Heap, c: Cell, t: Json, args: set<nat>, out: nat) {
    CellShows(h, c, t) && forall x :: x in CellFoot(h, c, t) ==> x in args || x > out
  }

  lemma WithinFrame(h: Heap, h': Heap, c: Cell, t: Json, args: set<nat>, out: nat)
    requires CellWithin(h, c, t, args, out) && out !in args
    requires forall x :: x in h && x != out ==> x in h' && h'[x] == h[x]
    ensures CellWithin(h', c, t, args, out)
  {
    if t.Dict? {
      FootInHeap(h, c.addr, t);
      ShowsFrame(h, h', c.addr, t);
    }
  }

  /** The local copy `out` after the updates in `done`; older dicts are untouched. */
  ghost predicate Copying(h0: Heap, base: nat, d: Json, upd: nat, s: Json, h: Heap, out: nat, done: set<string>) {
    && Shows(h0, base, d) && Shows(h0, upd, s) && Grown(h0, h) && out !in h0 && out in h && done <= s.fields.Keys
    && h[out].Keys == d.fields.Keys + done
    && (forall k :: k in done ==>
          CellWithin(h, h[out][k], MergedAt(d, s, k), Foot(h0, base, d) + Foot(h0, upd, s), out))
    && (forall k :: k in d.fields && k !in done ==> h[out][k] == h0[base][k])
  }

  lemma CopyingSteps(h0: Heap, base: nat, d: Json, upd: nat, s: Json, h: Heap, out: nat, done: set<string>,
                     k: string, g: Heap, c: Cell, h': Heap)
    requires Copying(h0, base, d, upd, s, h, out, done) && k in s.fields && k !in done
    requires Grown(h, g) && h' == g[out := g[out][k := c]]
    requires CellWithin(g, c, MergedAt(d, s, k), Foot(h0, base, d) + Foot(h0, upd, s), out)
    ensures Copying(h0, base, d, upd, s, h', out, done + {k})
  {
    var args := Foot(h0, base, d) + Foot(h0, upd, s);
    FootInHeap(h0, base, d);
    FootInHeap(h0, upd, s);
    forall j | j in done + {k} ensures CellWithin(h', h'[out][j], MergedAt(d, s, j), args, out) {
      if j == k {
        WithinFrame(g, h', c, MergedAt(d, s, k), args, out);
      } else {
        WithinFrame(h, h', h[out][j], MergedAt(d, s, j), args, out);
      }
    }
  }

  lemma ArgumentCell(h0: Heap, a: nat, t: Json, k: string, h: Heap)
    requires Shows(h0, a, t) && Grown(h0, h) && k in t.fields
    ensures k in h0[a] && CellShows(h, h0[a][k], t.fields[k])
    ensures CellFoot(h, h0[a][k], t.fields[k]) <= Foot(h0, a, t)
  {
    KidFoot(h0, a, t, k);
    if t.fields[k].Dict? {
      FootInHeap(h0, h0[a][k].addr, t.fields[k]);
      ShowsFrame(h0, h, h0[a][k].addr, t.fields[k]);
    }
  }

  lemma CopyingEnds(h0: Heap, base: nat, d: Json, upd: nat, s: Json, h: Heap, out: nat)
    requires s.Dict? && Copying(h0, base, d, upd, s, h, out, s.fields.Keys)
    ensures Shows(h, out, Merge(d, s))
    ensures forall x :: x in Foot(h, out, Merge(d, s)) ==> x in Foot(h0, base, d) + Foot(h0, upd, s) || x >= out
  {
    MergedFields(d, s);
    forall k | k in d.fields && k !in s.fields
      ensures CellShows(h, h[out][k], d.fields[k]) && CellFoot(h, h[out][k], d.fields[k]) <= Foot(h0, base, d)
    {
      ArgumentCell(h0, base, d, k, h);
    }
  }

  /** One update key of the copy. */
  method MergeKeyCopy(py: PyDicts, out: nat, base: nat, updates: nat, k: string,
                      ghost h0: Heap, ghost d: Json, ghost s: Json, ghost done: set<string>)
    requires py.Valid() && Copying(h0, base, d, updates, s, py.dicts, out, done) && k in s.fields && k !in done
    modifies py
    ensures py.Valid() && Copying(h0, base, d, updates, s, py.dicts, out, done + {k})
    decreases s, 0
  {
    ghost var h := py.dicts;
    ArgumentCell(h0, updates, s, k, h);
    if k in d.fields { ArgumentCell(h0, base, d, k, h); }
    var value := py.dicts[updates][k];
    if k in py.dicts[out] && py.dicts[out][k].Ref? && value.Ref? {
      var merged := DeepMergeCopy(py, py.dicts[out][k].addr, value.addr, d.fields[k], s.fields[k]);
      value := Ref(merged);
    }
    assert CellWithin(py.dicts, value, MergedAt(d, s, k), Foot(h0, base, d) + Foot(h0, updates, s), out);
    ghost var g := py.dicts;
    py.dicts := py.dicts[out := py.dicts[out][k := value]];
    CopyingSteps(h0, base, d, updates, s, h, out, done, k, g, value, py.dicts);
  }

  /** `deep_merge` of wave C4: the result is a new dict and no existing dict changes. */
  method DeepMergeCopy(py: PyDicts, base: nat, updates: nat, ghost d: Json, ghost s: Json) returns (out: nat)
    requires py.Valid() && Shows(py.dicts, base, d) && Shows(py.dicts, updates, s)
    modifies py
    ensures py.Valid() && Grown(old(py.dicts), py.dicts) && out == old(py.next)
    ensures Shows(py.dicts, out, Merge(d, s))
    ensures forall x :: x in Foot(py.dicts, out, Merge(d, s)) ==>
              x in old(Foot(py.dicts, base, d) + Foot(py.dicts, updates, s)) || x >= old(py.next)
    decreases s, 1
  {
    ghost var h0, done := py.dicts, {};
    out := py.next;
    py.next := py.next + 1;
    py.dicts := py.dicts[out := py.dicts[base]];
    assert Copying(h0, base, d, updates, s, py.dicts, out, done);
    var todo := py.dicts[updates].Keys;
    while todo != {}
      invariant py.Valid() && Copying(h0, base, d, updates, s, py.dicts, out, done)
      invariant todo + done == s.fields.Keys && todo !! done
      decreases todo
    {
      var k :| k in todo;
      MergeKeyCopy(py, out, base, updates, k, h0, d, s, done);
      todo, done := todo - {k}, done + {k};
    }
    assert done == s.fields.Keys;
    CopyingEnds(h0, base, d, updates, s, py.dicts, out);
  }
}
