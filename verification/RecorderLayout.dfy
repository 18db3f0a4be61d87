/**
  How a list of per-event entries is laid out over the vectors of a stack: vector `p` holds
  the entries of the stretch of events between two cuts.
 */
module RecorderLayout {
  import opened Layers
  import opened RecorderRuns

  /** Event numbers in increasing order, all below `end`. */
  predicate Cuts(opens: seq<nat>, end: nat) {
    && (forall p :: 0 <= p < |opens| ==> opens[p] < end)
    && (forall p, q :: 0 <= p < q < |opens| ==> opens[p] < opens[q])
  }

  function Cut(opens: seq<nat>, end: nat, p: nat): (r: nat)
    requires p <= |opens| + 1 && Cuts(opens, end)
    ensures r <= end && (p <= |opens| ==> r <= Cut(opens, end, p + 1))
    decreases |opens| + 1 - p
  {
    if p == 0 then 0 else if p <= |opens| then opens[p - 1] else end
  }

  lemma CutsBelow(opens: seq<nat>, end: nat, p: nat, q: nat)
    requires Cuts(opens, end) && p <= q <= |opens|
    ensures Cut(opens, end, p) <= Cut(opens, end, q)
  {
  }

  function Stretch(c: seq<seq<Item>>, opens: seq<nat>, p: nat): seq<Item>
    requires Cuts(opens, |c|) && p <= |opens|
  {
    Concat(c[Cut(opens, |c|, p)..Cut(opens, |c|, p + 1)])
  }

  predicate Laid(f: seq<seq<Item>>, c: seq<seq<Item>>, opens: seq<nat>) {
    && |f| == |opens| + 1 && Cuts(opens, |c|)
    && forall p :: 0 <= p <= |opens| ==> f[p] == Stretch(c, opens, p)
  }

  /** A frame opens. */
  lemma LaidPush(f: seq<seq<Item>>, g: seq<seq<Item>>, c: seq<seq<Item>>, c': seq<seq<Item>>, opens: seq<nat>,
                 x: seq<Item>)
    requires Laid(f, c, opens) && Pushed(f, g, x) && Pushed(c, c', x)
    ensures Laid(g, c', opens + [|c|])
  {
    var opens' := opens + [|c|];
    forall p | 0 <= p <= |opens'| ensures g[p] == Stretch(c', opens', p) {
      var a, b := Cut(opens', |c'|, p), Cut(opens', |c'|, p + 1);
      if p <= |opens| {
        assert c'[a..b] == c[a..b];
      } else {
        ConcatPushed([], c'[a..b], x);
      }
    }
  }

  /** The running frame touches something. */
  lemma LaidGrow(f: seq<seq<Item>>, g: seq<seq<Item>>, c: seq<seq<Item>>, c': seq<seq<Item>>, opens: seq<nat>,
                 x: seq<Item>)
    requires Laid(f, c, opens) && TopIs(f, g, f[|opens|] + x) && Pushed(c, c', x)
    ensures Laid(g, c', opens)
  {
    forall p | 0 <= p <= |opens| ensures g[p] == Stretch(c', opens, p) {
      var a := Cut(opens, |c|, p);
      if p < |opens| {
        var b := Cut(opens, |c|, p + 1);
        assert c'[a..b] == c[a..b];
      } else {
        ConcatPushed(c[a..|c|], c'[a..|c'|], x);
      }
    }
  }

  /** Entries from `o` on are flagged. */
  predicate Flagged(c: seq<seq<Item>>, c': seq<seq<Item>>, o: nat) {
    && |c'| == |c|
    && forall i :: 0 <= i < |c| ==> c'[i] == if i >= o then MarkItems(c[i]) else c[i]
  }

  lemma {:induction false} ConcatFlagged(c: seq<seq<Item>>, d: seq<seq<Item>>)
    requires Flagged(c, d, 0)
    ensures Concat(d) == MarkItems(Concat(c))
  {
    if c != [] { ConcatFlagged(c[..|c| - 1], d[..|d| - 1]); }
  }

  lemma StretchKept(c: seq<seq<Item>>, c': seq<seq<Item>>, opens: seq<nat>, p: nat)
    requires Cuts(opens, |c|) && p < |opens| && Flagged(c, c', Cut(opens, |c|, |opens|))
    ensures Stretch(c', opens, p) == Stretch(c, opens, p)
  {
    CutsBelow(opens, |c|, p + 1, |opens|);
    var a, b := Cut(opens, |c|, p), Cut(opens, |c|, p + 1);
    assert c'[a..b] == c[a..b];
  }

  lemma FlaggedSlice(c: seq<seq<Item>>, c': seq<seq<Item>>, a: nat)
    requires a <= |c| && Flagged(c, c', a)
    ensures Flagged(c[a..|c|], c'[a..|c|], 0)
  {
    forall i | 0 <= i < |c| - a ensures c'[a..|c|][i] == MarkItems(c[a..|c|][i]) {
      assert c'[a + i] == MarkItems(c[a + i]);
    }
  }

  lemma StretchFlagged(c: seq<seq<Item>>, c': seq<seq<Item>>, opens: seq<nat>)
    requires Cuts(opens, |c|) && Flagged(c, c', Cut(opens, |c|, |opens|))
    ensures Stretch(c', opens, |opens|) == MarkItems(Stretch(c, opens, |opens|))
  {
    var a := Cut(opens, |c|, |opens|);
    FlaggedSlice(c, c', a);
    ConcatFlagged(c[a..|c|], c'[a..|c|]);
  }

  /** The running frame's entries are flagged. */
  lemma LaidFlag(f: seq<seq<Item>>, g: seq<seq<Item>>, c: seq<seq<Item>>, c': seq<seq<Item>>, opens: seq<nat>)
    requires Laid(f, c, opens) && Flagged(c, c', Cut(opens, |c|, |opens|)) && TopIs(f, g, MarkItems(f[|opens|]))
    ensures Laid(g, c', opens)
  {
    StretchFlagged(c, c', opens);
    forall p | 0 <= p < |opens| ensures g[p] == Stretch(c', opens, p) { StretchKept(c, c', opens, p); }
  }

  /** The running frame's vector is merged into the one below. */
  lemma LaidMerge(f: seq<seq<Item>>, g: seq<seq<Item>>, c: seq<seq<Item>>, opens: seq<nat>)
    requires Laid(f, c, opens) && opens != [] && Merged(f, g, f[|opens|])
    ensures Laid(g, c, opens[..|opens| - 1])
  {
    var k := |opens|;
    var opens' := opens[..k - 1];
    forall p | 0 <= p <= k - 1 ensures g[p] == Stretch(c, opens', p) {
      if p == k - 1 {
        CutsBelow(opens, |c|, p, k);
        ConcatSplit(c, Cut(opens, |c|, p), Cut(opens, |c|, k), |c|);
      }
    }
  }

  /** A frame ends: its entries are flagged if it reverted, its vector is merged into the one
      below, if any, and the exit itself adds no entry. */
  lemma LaidExit(f: seq<seq<Item>>, g: seq<seq<Item>>, c: seq<seq<Item>>, flagged: seq<seq<Item>>,
                 c': seq<seq<Item>>, opens: seq<nat>, reverted: bool)
    requires Laid(f, c, opens) && Pushed(flagged, c', [])
    requires if reverted then Flagged(c, flagged, Cut(opens, |c|, |opens|)) else flagged == c
    requires
      var last := if reverted then MarkItems(f[|opens|]) else f[|opens|];
      if opens == [] then TopIs(f, g, last) else Merged(f, g, last)
    ensures Laid(g, c', if opens == [] then [] else opens[..|opens| - 1])
  {
    var k := |opens|;
    var h := f[k := if reverted then MarkItems(f[k]) else f[k]];
    LaidMarked(f, h, c, flagged, opens, reverted);
    LaidIdle(h, flagged, c', opens);
    if k > 0 { LaidMerge(h, g, c', opens); } else { assert g == h; }
  }

  /** An event without an entry. */
  lemma LaidIdle(h: seq<seq<Item>>, c: seq<seq<Item>>, c': seq<seq<Item>>, opens: seq<nat>)
    requires Laid(h, c, opens) && Pushed(c, c', [])
    ensures Laid(h, c', opens)
  {
    assert h[|opens|] + [] == h[|opens|];
    LaidGrow(h, h, c, c', opens, []);
  }

  lemma LaidMarked(f: seq<seq<Item>>, h: seq<seq<Item>>, c: seq<seq<Item>>, flagged: seq<seq<Item>>,
                   opens: seq<nat>, reverted: bool)
    requires Laid(f, c, opens)
    requires if reverted then Flagged(c, flagged, Cut(opens, |c|, |opens|)) else flagged == c
    requires TopIs(f, h, if reverted then MarkItems(f[|opens|]) else f[|opens|])
    ensures Laid(h, flagged, opens)
  {
    if reverted { LaidFlag(f, h, c, flagged, opens); } else { assert h == f; }
  }

  lemma {:induction false} LaidAll(f: seq<seq<Item>>, c: seq<seq<Item>>, opens: seq<nat>, p: nat)
    requires Laid(f, c, opens) && p <= |f|
    ensures Concat(f[..p]) == Concat(c[..Cut(opens, |c|, p)])
  {
    if p > 0 {
      LaidAll(f, c, opens, p - 1);
      var a, b := Cut(opens, |c|, p - 1), Cut(opens, |c|, p);
      ConcatPushed(f[..p - 1], f[..p], f[p - 1]);
      ConcatSplit(c, 0, a, b);
    }
  }
}
