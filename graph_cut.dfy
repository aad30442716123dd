/*
 * The max-flow/min-cut denoisers, grey and colour. Each builds a directed network with
 * one node per pixel (row-major index i * w + j), a source node h * w and a sink node
 * h * w + 1: an arc from the source to every pixel and one from every pixel to the
 * sink, priced from the pixel's intensity, and an arc from every pixel to each of its
 * in-bounds axis neighbours, priced from their colour difference. The pixels on the
 * source side of a minimum cut are then labelled. The minimum cut itself is computed
 * by networkx; here it is a parameter that receives the finished network.
 */
module GraphCut {
  import opened Numeric
  import opened Grid
  import opened PixelGraph

  /** The part of a `networkx.DiGraph` the scripts use: `add_edge(u, v, capacity=c)`
      creates arc (u, v), or overwrites its capacity when it exists. */
  class FlowNetwork {
    var capacity: map<(nat, nat), real>

    constructor ()
      ensures capacity == map[]
    {
      capacity := map[];
    }

    method AddEdge(u: nat, v: nat, c: real)
      modifies this
      ensures capacity == old(capacity)[(u, v) := c]
    {
      capacity := capacity[(u, v) := c];
    }
  }

  /** The capacities after a sequence of `add_edge` calls, made in list order. */
  function Inserted(m: map<(nat, nat), real>, es: seq<Edge>): map<(nat, nat), real>
  {
    if es == [] then m
    else
      var e := es[|es| - 1];
      Inserted(m, es[..|es| - 1])[(e.src, e.dst) := e.weight]
  }

  /** Making the calls of a and then those of b is making the calls of a + b. */
  lemma {:induction false} InsertedAppend(m: map<(nat, nat), real>, a: seq<Edge>, b: seq<Edge>)
    ensures Inserted(m, a + b) == Inserted(Inserted(m, a), b)
  {
    if b == [] {
      assert a + b == a;
    } else {
      InsertedAppend(m, a, b[..|b| - 1]);
      assert (a + b)[..|a + b| - 1] == a + b[..|b| - 1];
      assert (a + b)[|a + b| - 1] == b[|b| - 1];
    }
  }

  /** Two calls in a row. */
  lemma {:induction false} InsertedPair(m: map<(nat, nat), real>, x: Edge, y: Edge)
    ensures Inserted(m, [x, y]) == m[(x.src, x.dst) := x.weight][(y.src, y.dst) := y.weight]
  {
    assert [x, y][..1] == [x];
    assert [x][..0] == [];
    assert Inserted(m, [x]) == m[(x.src, x.dst) := x.weight];
  }

  /** An arc no call names keeps what it had; an arc exactly one call names ends up with
      that call's capacity. */
  lemma {:induction false} InsertedAt(m: map<(nat, nat), real>, es: seq<Edge>, p: nat, q: nat)
    ensures Count(es, p, q) == 0 ==>
      Entry(es, p, q) == 0.0 && ((p, q) in Inserted(m, es) <==> (p, q) in m) &&
      ((p, q) in m ==> Inserted(m, es)[(p, q)] == m[(p, q)])
    ensures Count(es, p, q) == 1 ==> (p, q) in Inserted(m, es) && Inserted(m, es)[(p, q)] == Entry(es, p, q)
  {
    if es != [] {
      InsertedAt(m, es[..|es| - 1], p, q);
    }
  }

  /** Every arc of the network was in the starting map or named by a call. */
  lemma {:induction false} InsertedKeys(m: map<(nat, nat), real>, es: seq<Edge>, u: nat, v: nat)
    requires (u, v) in Inserted(m, es) && (u, v) !in m
    ensures exists k :: 0 <= k < |es| && es[k].src == u && es[k].dst == v
  {
    var e := es[|es| - 1];
    if (e.src, e.dst) != (u, v) {
      InsertedKeys(m, es[..|es| - 1], u, v);
      var k :| 0 <= k < |es| - 1 && es[..|es| - 1][k].src == u && es[..|es| - 1][k].dst == v;
      assert es[k] == es[..|es| - 1][k];
    }
  }

  /** An edge list joining pixels only never names an arc at a terminal. */
  lemma {:induction false} CountAtTerminal(es: seq<Edge>, n: nat, u: nat, v: nat)
    requires forall k :: 0 <= k < |es| ==> es[k].src < n && es[k].dst < n
    requires n <= u || n <= v
    ensures Count(es, u, v) == 0
  {
    if es != [] {
      CountAtTerminal(es[..|es| - 1], n, u, v);
    }
  }

  // ---------------------------------------------------------------------------
  // Terminal arcs.

  /** `data_weight * a**2 / 255**2`. */
  function ScaledSquare(dw: real, a: real): real
  {
    dw * (a * a) / 65025.0
  }

  /** `data_weight * (255 - intensity)**2 / 255**2`, the capacity of source -> pixel. */
  function SourceCapacity(dw: real, x: real): real
  {
    ScaledSquare(dw, 255.0 - x)
  }

  /** `data_weight * intensity**2 / 255**2`, the capacity of pixel -> sink. */
  function SinkCapacity(dw: real, x: real): real
  {
    ScaledSquare(dw, x)
  }

  lemma {:induction false} ScaledSquareWithin(dw: real, a: real)
    requires 0.0 <= dw && 0.0 <= a <= 255.0
    ensures 0.0 <= ScaledSquare(dw, a) <= dw
  {
    SquareAtMost(a, 255.0);
    MulMonotone(dw, 0.0, a * a);
    MulMonotone(dw, a * a, 65025.0);
  }

  /** For an intensity in [0, 255] both terminal capacities lie in [0, data_weight], and
      the two are mirror images: the source capacity at x is the sink capacity at 255 - x. */
  lemma {:induction false} TerminalCapacities(dw: real, x: real)
    requires 0.0 <= x <= 255.0
    ensures 0.0 <= dw ==> 0.0 <= SourceCapacity(dw, x) <= dw && 0.0 <= SinkCapacity(dw, x) <= dw
    ensures SourceCapacity(dw, x) == SinkCapacity(dw, 255.0 - x)
    ensures SinkCapacity(dw, x) == SourceCapacity(dw, 255.0 - x)
  {
    if 0.0 <= dw {
      ScaledSquareWithin(dw, 255.0 - x);
      ScaledSquareWithin(dw, x);
    }
    assert 255.0 - (255.0 - x) == x;
  }

  /** The two arcs the data loop adds for pixel p; the source is node n and the sink node
      n + 1, where n is the number of pixels. */
  function TerminalEdges(ints: seq<real>, dw: real, p: nat): seq<Edge>
    requires p < |ints|
  {
    [Edge(|ints|, p, SourceCapacity(dw, ints[p])), Edge(p, |ints| + 1, SinkCapacity(dw, ints[p]))]
  }

  /** The calls of the data loop for the first m pixels, in row-major order. */
  function DataEdges(ints: seq<real>, dw: real, m: nat): seq<Edge>
    requires m <= |ints|
  {
    if m == 0 then [] else DataEdges(ints, dw, m - 1) + TerminalEdges(ints, dw, m - 1)
  }

  /** The data loop's calls for pixel p extend the network of the pixels before it. */
  lemma {:induction false} DataEdgesNext(ints: seq<real>, dw: real, p: nat,
                                         before: map<(nat, nat), real>, after: map<(nat, nat), real>)
    requires p < |ints|
    requires before == Inserted(map[], DataEdges(ints, dw, p))
    requires after == Inserted(before, TerminalEdges(ints, dw, p))
    ensures after == Inserted(map[], DataEdges(ints, dw, p + 1))
  {
    InsertedAppend(map[], DataEdges(ints, dw, p), TerminalEdges(ints, dw, p));
  }

  /** Visiting pixel m - 1 sets its source arc and then its sink arc. */
  lemma {:induction false} DataEdgesLast(ints: seq<real>, dw: real, m: nat)
    requires 0 < m <= |ints|
    ensures var n := |ints|;
      Inserted(map[], DataEdges(ints, dw, m)) ==
      Inserted(map[], DataEdges(ints, dw, m - 1))[(n, m - 1) := SourceCapacity(dw, ints[m - 1])][(m - 1, n + 1) := SinkCapacity(dw, ints[m - 1])]
  {
    var prev, last := DataEdges(ints, dw, m - 1), TerminalEdges(ints, dw, m - 1);
    InsertedAppend(map[], prev, last);
    InsertedPair(Inserted(map[], prev), last[0], last[1]);
  }

  /** After the data loop has visited m pixels, the network holds exactly the arcs
      source -> p and p -> sink of those pixels, with their capacities. */
  lemma {:induction false} DataArcs(ints: seq<real>, dw: real, m: nat)
    requires m <= |ints|
    ensures HoldsDataArcs(Inserted(map[], DataEdges(ints, dw, m)), ints, dw, m)
  {
    if 0 < m {
      DataArcs(ints, dw, m - 1);
      DataEdgesLast(ints, dw, m);
      DataArcsStep(Inserted(map[], DataEdges(ints, dw, m - 1)), Inserted(map[], DataEdges(ints, dw, m)), ints, dw, m);
    }
  }

  /** The network holds exactly the arcs source -> p and p -> sink of the first m
      pixels, with their capacities. */
  ghost predicate HoldsDataArcs(cap: map<(nat, nat), real>, ints: seq<real>, dw: real, m: nat)
    requires m <= |ints|
  {
    var n := |ints|;
    (forall u: nat, v: nat :: (u, v) in cap <==> (u == n && v < m) || (u < m && v == n + 1)) &&
    (forall p :: 0 <= p < m ==> cap[(n, p)] == SourceCapacity(dw, ints[p]) && cap[(p, n + 1)] == SinkCapacity(dw, ints[p]))
  }

  lemma {:induction false} DataArcsStep(before: map<(nat, nat), real>, cap: map<(nat, nat), real>, ints: seq<real>, dw: real, m: nat)
    requires 0 < m <= |ints| && HoldsDataArcs(before, ints, dw, m - 1)
    requires cap == before[(|ints|, m - 1) := SourceCapacity(dw, ints[m - 1])][(m - 1, |ints| + 1) := SinkCapacity(dw, ints[m - 1])]
    ensures HoldsDataArcs(cap, ints, dw, m)
  {
    var n := |ints|;
    forall u: nat, v: nat
      ensures (u, v) in cap <==> (u == n && v < m) || (u < m && v == n + 1)
    {
      assert (u, v) in cap <==> (u, v) in before || (u, v) == (n, m - 1) || (u, v) == (m - 1, n + 1);
    }
    forall p | 0 <= p < m
      ensures cap[(n, p)] == SourceCapacity(dw, ints[p]) && cap[(p, n + 1)] == SinkCapacity(dw, ints[p])
    {
      if p < m - 1 {
        assert cap[(n, p)] == before[(n, p)] && cap[(p, n + 1)] == before[(p, n + 1)];
      }
    }
  }

  // ---------------------------------------------------------------------------
  // The network.

  /** Every offset of the scan yields an arc: the scripts test bounds and nothing else. */
  ghost predicate KeepsAll(s: Scan)
  {
    forall x: real :: s.keep(x)
  }

  lemma {:induction false} KeepsAt(s: Scan, x: real)
    requires KeepsAll(s)
    ensures s.keep(x)
  {
  }

  /** The network the two loops build: the terminal arcs of every pixel, then the
      neighbour arcs of the scan. */
  function Network(ints: seq<real>, dw: real, s: Scan): map<(nat, nat), real>
    requires |ints| == s.h * s.w
  {
    Inserted(Inserted(map[], DataEdges(ints, dw, |ints|)), AllEdges(s))
  }

  /** Pixel p of an n-pixel network has an arc from the source n costing `source` and an
      arc to the sink n + 1 costing `sink`. */
  ghost predicate TerminalArcs(cap: map<(nat, nat), real>, n: nat, p: nat, source: real, sink: real)
  {
    (n, p) in cap && cap[(n, p)] == source && (p, n + 1) in cap && cap[(p, n + 1)] == sink
  }

  /** Every pixel has its source arc and its sink arc, priced from its intensity. */
  lemma {:induction false} NetworkTerminals(ints: seq<real>, dw: real, s: Scan, p: nat)
    requires |ints| == s.h * s.w && p < |ints|
    ensures TerminalArcs(Network(ints, dw, s), |ints|, p, SourceCapacity(dw, ints[p]), SinkCapacity(dw, ints[p]))
  {
    var n, es := |ints|, AllEdges(s);
    DataArcs(ints, dw, n);
    AllSources(s);
    AllTargets(s);
    CountAtTerminal(es, n, n, p);
    CountAtTerminal(es, n, p, n + 1);
    InsertedAt(Inserted(map[], DataEdges(ints, dw, n)), es, n, p);
    InsertedAt(Inserted(map[], DataEdges(ints, dw, n)), es, p, n + 1);
  }

  /** Between two pixels there is an arc exactly when the scan links them, carrying the
      scan's weight. */
  lemma {:induction false} NetworkPixels(ints: seq<real>, dw: real, s: Scan, i: nat, j: nat, ni: nat, nj: nat)
    requires |ints| == s.h * s.w && DistinctOffsets(s.offs)
    requires InBounds(s.h, s.w, i, j) && InBounds(s.h, s.w, ni, nj)
    ensures var cap, p, q := Network(ints, dw, s), PixelIndex(s.w, i, j), PixelIndex(s.w, ni, nj);
      ((p, q) in cap <==> Linked(s, i, j, ni, nj)) &&
      ((p, q) in cap ==> cap[(p, q)] == s.wt(i, j, ni, nj))
  {
    var n, p, q := |ints|, PixelIndex(s.w, i, j), PixelIndex(s.w, ni, nj);
    PixelIndexBijection(s.h, s.w, i, j);
    PixelIndexBijection(s.h, s.w, ni, nj);
    DataArcs(ints, dw, n);
    MatrixEntry(s, i, j, ni, nj);
    InsertedAt(Inserted(map[], DataEdges(ints, dw, n)), AllEdges(s), p, q);
  }

  /** The network has no other arcs: each leaves the source for a pixel, leaves a pixel
      for the sink, or joins two pixels. */
  lemma {:induction false} NetworkOnlyArcs(ints: seq<real>, dw: real, s: Scan, u: nat, v: nat)
    requires |ints| == s.h * s.w && (u, v) in Network(ints, dw, s)
    ensures var n := |ints|; (u == n && v < n) || (u < n && v == n + 1) || (u < n && v < n)
  {
    var n, es, base := |ints|, AllEdges(s), Inserted(map[], DataEdges(ints, dw, |ints|));
    DataArcs(ints, dw, n);
    if (u, v) !in base {
      InsertedKeys(base, es, u, v);
      AllSources(s);
      AllTargets(s);
    }
  }

  // ---------------------------------------------------------------------------
  // Neighbour arcs.

  /** `smooth_weight * exp(-color_diff**2 / (2 sigma_color**2)) *
      exp(-spatial_dist**2 / (2 sigma_space**2))`, given the squared colour difference
      and the offset. */
  function SmoothCapacity(exp: real -> real, sw: real, sc: real, ss: real, d2: real, di: int, dj: int): real
    requires sc != 0.0 && ss != 0.0
  {
    SpreadPositive(sc);
    SpreadPositive(ss);
    sw * exp(-d2 / Spread(sc)) * exp(-(SpatialDiff((di, dj)) as real) / Spread(ss))
  }

  /** With a positive smooth weight every neighbour capacity lies in (0, smooth_weight].
      That it shrinks as the colour difference grows is `SmoothCapacityDecreasing`. */
  lemma {:induction false} SmoothCapacityBounds(exp: real -> real, sw: real, sc: real, ss: real, d2: real, di: int, dj: int)
    requires ExpLike(exp) && 0.0 < sw && 0.0 <= d2 && sc != 0.0 && ss != 0.0
    ensures 0.0 < SmoothCapacity(exp, sw, sc, ss, d2, di, dj) <= sw
  {
    SpreadPositive(sc);
    SpatialExponentNonPositive(di, dj, ss);
    DivSign(-d2, Spread(sc));
    var x, y := -d2 / Spread(sc), -(SpatialDiff((di, dj)) as real) / Spread(ss);
    FactorsInUnit(exp, exp, x, y);
    MulMonotone(sw, exp(x) * exp(y), 1.0);
    MulStrict(sw, 0.0, exp(x) * exp(y));
    assert SmoothCapacity(exp, sw, sc, ss, d2, di, dj) == sw * (exp(x) * exp(y));
  }

  /** A larger colour difference gives a strictly smaller capacity. */
  lemma {:induction false} SmoothCapacityDecreasing(exp: real -> real, sw: real, sc: real, ss: real, d2: real, e2: real, di: int, dj: int)
    requires ExpLike(exp) && 0.0 < sw && d2 < e2 && sc != 0.0 && ss != 0.0
    ensures SmoothCapacity(exp, sw, sc, ss, e2, di, dj) < SmoothCapacity(exp, sw, sc, ss, d2, di, dj)
  {
    SpreadPositive(sc);
    SpreadPositive(ss);
    var x, x', y := -d2 / Spread(sc), -e2 / Spread(sc), -(SpatialDiff((di, dj)) as real) / Spread(ss);
    QuotientStrict(-e2, -d2, Spread(sc));
    var a, b, c := exp(x'), exp(x), exp(y);
    assert a < b && 0.0 < c;
    MulStrict(sw, a, b);
    MulStrict(c, a * sw, b * sw);
    assert SmoothCapacity(exp, sw, sc, ss, e2, di, dj) == sw * a * c;
    assert SmoothCapacity(exp, sw, sc, ss, d2, di, dj) == sw * b * c;
  }

  /** The offset enters squared, so the capacity back along an arc is the same. */
  lemma {:induction false} SmoothCapacityReversed(exp: real -> real, sw: real, sc: real, ss: real, d2: real,
                                                  i: int, j: int, ni: int, nj: int)
    requires sc != 0.0 && ss != 0.0
    ensures SmoothCapacity(exp, sw, sc, ss, d2, ni - i, nj - j) == SmoothCapacity(exp, sw, sc, ss, d2, i - ni, j - nj)
  {
    assert SpatialDiff((ni - i, nj - j)) == SpatialDiff((i - ni, j - nj));
  }

  /** `min(abs(a - b), 50)`. */
  function CappedGap(a: real, b: real): (g: real)
    ensures 0.0 <= g <= 50.0
  {
    var d := if a < b then b - a else a - b;
    if d < 50.0 then d else 50.0
  }

  /** The squared capped gap, `min(abs(a - b), 50) ** 2`: in [0, 2500] and the same
      either way round. */
  function GapSquared(a: real, b: real): (d2: real)
    ensures 0.0 <= d2
    ensures d2 <= 2500.0
    ensures d2 == CappedGap(b, a) * CappedGap(b, a)
  {
    var g := CappedGap(a, b);
    assert g == CappedGap(b, a);
    SquareAtMost(g, 50.0);
    g * g
  }

  /** The grey network's neighbour capacity between two pixels of the flat float image. */
  function GreyCapacity(vals: seq<real>, w: nat, exp: real -> real, sw: real, sc: real, ss: real,
                        i: int, j: int, ni: int, nj: int): real
  {
    if 0 <= i && 0 <= j && 0 <= ni && 0 <= nj && PixelIndex(w, i, j) < |vals| && PixelIndex(w, ni, nj) < |vals| &&
       sc != 0.0 && ss != 0.0
    then SmoothCapacity(exp, sw, sc, ss, GapSquared(vals[PixelIndex(w, i, j)], vals[PixelIndex(w, ni, nj)]), ni - i, nj - j)
    else 0.0
  }

  /** The colour network's neighbour capacity: the squared Euclidean colour distance,
      uncapped. */
  function ColourCapacity(vals: seq<seq<real>>, w: nat, exp: real -> real, sw: real, sc: real, ss: real,
                          i: int, j: int, ni: int, nj: int): real
  {
    if 0 <= i && 0 <= j && 0 <= ni && 0 <= nj && PixelIndex(w, i, j) < |vals| && PixelIndex(w, ni, nj) < |vals| &&
       |vals[PixelIndex(w, i, j)]| == |vals[PixelIndex(w, ni, nj)]| && sc != 0.0 && ss != 0.0
    then
      var d := Sub(vals[PixelIndex(w, i, j)], vals[PixelIndex(w, ni, nj)]);
      SmoothCapacity(exp, sw, sc, ss, Dot(d, d), ni - i, nj - j)
    else 0.0
  }

  function GreyScan(vals: seq<real>, h: nat, w: nat, exp: real -> real, sw: real, sc: real, ss: real): Scan
  {
    Scan(h, w, AxisOffsets(),
         (i: int, j: int, ni: int, nj: int) => GreyCapacity(vals, w, exp, sw, sc, ss, i, j, ni, nj),
         (x: real) => true)
  }

  function ColourScan(vals: seq<seq<real>>, h: nat, w: nat, exp: real -> real, sw: real, sc: real, ss: real): Scan
  {
    Scan(h, w, AxisOffsets(),
         (i: int, j: int, ni: int, nj: int) => ColourCapacity(vals, w, exp, sw, sc, ss, i, j, ni, nj),
         (x: real) => true)
  }

  /** Between in-bounds pixels the grey capacity is symmetric, positive and at most the
      smooth weight. */
  lemma {:induction false} GreyCapacityPair(vals: seq<real>, h: nat, w: nat, exp: real -> real, sw: real, sc: real, ss: real,
                                            i: nat, j: nat, ni: nat, nj: nat)
    requires |vals| == h * w && sc != 0.0 && ss != 0.0
    requires InBounds(h, w, i, j) && InBounds(h, w, ni, nj)
    ensures GreyCapacity(vals, w, exp, sw, sc, ss, i, j, ni, nj) == GreyCapacity(vals, w, exp, sw, sc, ss, ni, nj, i, j)
    ensures ExpLike(exp) && 0.0 < sw ==> 0.0 < GreyCapacity(vals, w, exp, sw, sc, ss, i, j, ni, nj) <= sw
  {
    PixelIndexBound(h, w, i, j);
    PixelIndexBound(h, w, ni, nj);
    var d2 := GapSquared(vals[PixelIndex(w, i, j)], vals[PixelIndex(w, ni, nj)]);
    assert d2 == GapSquared(vals[PixelIndex(w, ni, nj)], vals[PixelIndex(w, i, j)]);
    SmoothCapacityReversed(exp, sw, sc, ss, d2, i, j, ni, nj);
    if ExpLike(exp) && 0.0 < sw {
      SmoothCapacityBounds(exp, sw, sc, ss, d2, ni - i, nj - j);
    }
  }

  /** Between in-bounds pixels the colour capacity is symmetric, positive and at most the
      smooth weight. */
  lemma {:induction false} ColourCapacityPair(vals: seq<seq<real>>, h: nat, w: nat, exp: real -> real, sw: real, sc: real, ss: real,
                                              i: nat, j: nat, ni: nat, nj: nat)
    requires Pixels(vals, h * w, 3) && sc != 0.0 && ss != 0.0
    requires InBounds(h, w, i, j) && InBounds(h, w, ni, nj)
    ensures ColourCapacity(vals, w, exp, sw, sc, ss, i, j, ni, nj) == ColourCapacity(vals, w, exp, sw, sc, ss, ni, nj, i, j)
    ensures ExpLike(exp) && 0.0 < sw ==> 0.0 < ColourCapacity(vals, w, exp, sw, sc, ss, i, j, ni, nj) <= sw
  {
    PixelIndexBound(h, w, i, j);
    PixelIndexBound(h, w, ni, nj);
    var a, b := vals[PixelIndex(w, i, j)], vals[PixelIndex(w, ni, nj)];
    SquaredNormSwap(a, b);
    SmoothCapacityReversed(exp, sw, sc, ss, Dot(Sub(a, b), Sub(a, b)), i, j, ni, nj);
    if ExpLike(exp) && 0.0 < sw {
      SquaresNonNegative(Sub(a, b));
      SmoothCapacityBounds(exp, sw, sc, ss, Dot(Sub(a, b), Sub(a, b)), ni - i, nj - j);
    }
  }

  // ---------------------------------------------------------------------------
  // The two networks.

  /** `np.clip(image[i, j], 0, 255)` for every pixel of the flat float image. */
  function GreyIntensities(vals: seq<real>): (ints: seq<real>)
    ensures |ints| == |vals|
    ensures forall p :: 0 <= p < |vals| ==> 0.0 <= ints[p] <= 255.0 && (0.0 <= vals[p] <= 255.0 ==> ints[p] == vals[p])
  {
    seq(|vals|, p requires 0 <= p < |vals| => Clip(vals[p], 0.0, 255.0))
  }

  /** `0.299 * image[i, j, 2] + 0.587 * image[i, j, 1] + 0.114 * image[i, j, 0]`: the
      BT.601 luma weights applied to a BGR pixel. They sum to one, so a grey pixel keeps
      its value and channels in [0, 255] give a luma in [0, 255]. */
  function Luma(px: seq<real>): (y: real)
    requires |px| == 3
    ensures (forall c :: 0 <= c < 3 ==> 0.0 <= px[c] <= 255.0) ==> 0.0 <= y <= 255.0
    ensures px[0] == px[1] == px[2] ==> y == px[0]
  {
    0.299 * px[2] + 0.587 * px[1] + 0.114 * px[0]
  }

  function ColourIntensities(vals: seq<seq<real>>): (ints: seq<real>)
    requires forall p :: 0 <= p < |vals| ==> |vals[p]| == 3
    ensures |ints| == |vals|
  {
    seq(|vals|, p requires 0 <= p < |vals| => Luma(vals[p]))
  }

  /** The network `image_denoising_bk_grayscale` hands to `minimum_cut`. */
  function GreyNetwork(image: seq<seq<int>>, h: nat, w: nat, exp: real -> real,
                       dw: real, sw: real, sc: real, ss: real): map<(nat, nat), real>
    requires IsGrid(image, h, w)
  {
    FlattenLength(image, h, w);
    var vals := Floats(Flatten(image));
    Network(GreyIntensities(vals), dw, GreyScan(vals, h, w, exp, sw, sc, ss))
  }

  /** The network `image_denoising_bk_color_optimized` hands to `minimum_cut`. */
  function ColourNetwork(image: seq<seq<seq<int>>>, h: nat, w: nat, exp: real -> real,
                         dw: real, sw: real, sc: real, ss: real): map<(nat, nat), real>
    requires IsImage(image, h, w, 3)
  {
    FlattenImage(image, h, w, 3);
    var vals := ToReals(Flatten(image));
    Network(ColourIntensities(vals), dw, ColourScan(vals, h, w, exp, sw, sc, ss))
  }

  /** `astype(np.float64)` of a flat grey image. */
  function Floats(flat: seq<int>): (vals: seq<real>)
    ensures |vals| == |flat| && forall p :: 0 <= p < |flat| ==> vals[p] == flat[p] as real
  {
    seq(|flat|, p requires 0 <= p < |flat| => flat[p] as real)
  }

  /** With the scripts' four axis offsets and no weight filter, two pixels are joined
      exactly when they are axis neighbours, and then in both directions. */
  lemma {:induction false} NetworkAxisArcs(ints: seq<real>, dw: real, s: Scan, i: nat, j: nat, ni: nat, nj: nat)
    requires |ints| == s.h * s.w && s.offs == AxisOffsets() && KeepsAll(s)
    requires InBounds(s.h, s.w, i, j) && InBounds(s.h, s.w, ni, nj)
    ensures var cap, p, q := Network(ints, dw, s), PixelIndex(s.w, i, j), PixelIndex(s.w, ni, nj);
      ((p, q) in cap <==> AxisNeighbour(i, j, ni, nj)) &&
      ((p, q) in cap ==> (q, p) in cap && cap[(p, q)] == s.wt(i, j, ni, nj) && cap[(q, p)] == s.wt(ni, nj, i, j))
  {
    AxisDistinct();
    AxisMembers(i, j, ni, nj);
    KeepsAt(s, s.wt(i, j, ni, nj));
    KeepsAt(s, s.wt(ni, nj, i, j));
    NetworkPixels(ints, dw, s, i, j, ni, nj);
    NetworkPixels(ints, dw, s, ni, nj, i, j);
  }

  /** In the grey network every pixel has a source arc and a sink arc priced from its
      clipped intensity, both within [0, data_weight]. */
  lemma {:induction false} GreyNetworkTerminals(image: seq<seq<int>>, h: nat, w: nat, exp: real -> real,
                                                dw: real, sw: real, sc: real, ss: real, i: nat, j: nat)
    requires IsGrid(image, h, w) && InBounds(h, w, i, j)
    ensures var cap, n, p := GreyNetwork(image, h, w, exp, dw, sw, sc, ss), h * w, PixelIndex(w, i, j);
      var x := Clip(image[i][j] as real, 0.0, 255.0);
      TerminalArcs(cap, n, p, SourceCapacity(dw, x), SinkCapacity(dw, x)) &&
      (0.0 <= dw ==> 0.0 <= SourceCapacity(dw, x) <= dw && 0.0 <= SinkCapacity(dw, x) <= dw)
  {
    var vals := Floats(Flatten(image));
    var ints, s := GreyIntensities(vals), GreyScan(vals, h, w, exp, sw, sc, ss);
    var p, x := PixelIndex(w, i, j), Clip(image[i][j] as real, 0.0, 255.0);
    var cap, n := GreyNetwork(image, h, w, exp, dw, sw, sc, ss), h * w;
    assert |ints| == n == s.h * s.w && p < n && ints[p] == x && cap == Network(ints, dw, s) by {
      FlattenLength(image, h, w);
      FlattenAt(image, h, w, i, j);
    }
    NetworkTerminals(ints, dw, s, p);
    if 0.0 <= dw {
      TerminalCapacities(dw, x);
    }
  }

  /** In the grey network a pixel has an arc to a second pixel exactly when that one is
      an axis neighbour; the arc back carries the same capacity, which lies in
      (0, smooth_weight]. */
  lemma {:induction false} GreyNetworkNeighbours(image: seq<seq<int>>, h: nat, w: nat, exp: real -> real,
                                                 dw: real, sw: real, sc: real, ss: real, i: nat, j: nat, ni: nat, nj: nat)
    requires IsGrid(image, h, w) && sc != 0.0 && ss != 0.0
    requires InBounds(h, w, i, j) && InBounds(h, w, ni, nj)
    ensures var cap, p, q := GreyNetwork(image, h, w, exp, dw, sw, sc, ss), PixelIndex(w, i, j), PixelIndex(w, ni, nj);
      ((p, q) in cap <==> AxisNeighbour(i, j, ni, nj)) &&
      ((p, q) in cap ==> (q, p) in cap && cap[(q, p)] == cap[(p, q)] &&
                         (ExpLike(exp) && 0.0 < sw ==> 0.0 < cap[(p, q)] <= sw))
  {
    FlattenLength(image, h, w);
    var vals := Floats(Flatten(image));
    var ints, s := GreyIntensities(vals), GreyScan(vals, h, w, exp, sw, sc, ss);
    NetworkAxisArcs(ints, dw, s, i, j, ni, nj);
    GreyCapacityPair(vals, h, w, exp, sw, sc, ss, i, j, ni, nj);
  }

  /** In the colour network every pixel has a source arc and a sink arc priced from its
      luma, within [0, data_weight] for a uint8 image. */
  lemma {:induction false} ColourNetworkTerminals(image: seq<seq<seq<int>>>, h: nat, w: nat, exp: real -> real,
                                                  dw: real, sw: real, sc: real, ss: real, i: nat, j: nat)
    requires IsImage(image, h, w, 3) && InBounds(h, w, i, j)
    ensures var cap, n, p := ColourNetwork(image, h, w, exp, dw, sw, sc, ss), h * w, PixelIndex(w, i, j);
      var x := Luma(ToReals([image[i][j]])[0]);
      TerminalArcs(cap, n, p, SourceCapacity(dw, x), SinkCapacity(dw, x)) &&
      (0.0 <= dw && ByteImage(image, h, w, 3) ==> 0.0 <= SourceCapacity(dw, x) <= dw && 0.0 <= SinkCapacity(dw, x) <= dw)
  {
    var vals := ToReals(Flatten(image));
    assert Pixels(vals, h * w, 3) by {
      FlattenImage(image, h, w, 3);
    }
    var ints, s := ColourIntensities(vals), ColourScan(vals, h, w, exp, sw, sc, ss);
    var p, x := PixelIndex(w, i, j), Luma(ToReals([image[i][j]])[0]);
    var cap, n := ColourNetwork(image, h, w, exp, dw, sw, sc, ss), h * w;
    assert |ints| == n == s.h * s.w && p < n && ints[p] == x && cap == Network(ints, dw, s) by {
      FlattenAt(image, h, w, i, j);
      assert vals[p] == ToReals([image[i][j]])[0];
    }
    NetworkTerminals(ints, dw, s, p);
    if 0.0 <= dw && ByteImage(image, h, w, 3) {
      assert 0.0 <= x <= 255.0 by {
        assert forall c :: 0 <= c < 3 ==> 0 <= image[i][j][c] <= 255;
      }
      TerminalCapacities(dw, x);
    }
  }

  /** In the colour network a pixel has an arc to a second pixel exactly when that one
      is an axis neighbour; the arc back carries the same capacity, which lies in
      (0, smooth_weight]. */
  lemma {:induction false} ColourNetworkNeighbours(image: seq<seq<seq<int>>>, h: nat, w: nat, exp: real -> real,
                                                   dw: real, sw: real, sc: real, ss: real, i: nat, j: nat, ni: nat, nj: nat)
    requires IsImage(image, h, w, 3) && sc != 0.0 && ss != 0.0
    requires InBounds(h, w, i, j) && InBounds(h, w, ni, nj)
    ensures var cap, p, q := ColourNetwork(image, h, w, exp, dw, sw, sc, ss), PixelIndex(w, i, j), PixelIndex(w, ni, nj);
      ((p, q) in cap <==> AxisNeighbour(i, j, ni, nj)) &&
      ((p, q) in cap ==> (q, p) in cap && cap[(q, p)] == cap[(p, q)] &&
                         (ExpLike(exp) && 0.0 < sw ==> 0.0 < cap[(p, q)] <= sw))
  {
    FlattenImage(image, h, w, 3);
    var vals := ToReals(Flatten(image));
    var ints, s := ColourIntensities(vals), ColourScan(vals, h, w, exp, sw, sc, ss);
    NetworkAxisArcs(ints, dw, s, i, j, ni, nj);
    ColourCapacityPair(vals, h, w, exp, sw, sc, ss, i, j, ni, nj);
  }

  /** Pixel node i * w + j differs from the source h * w and the sink h * w + 1. */
  lemma {:induction false} TerminalsApart(h: nat, w: nat, i: nat, j: nat)
    requires InBounds(h, w, i, j)
    ensures PixelIndex(w, i, j) != h * w && PixelIndex(w, i, j) != h * w + 1
  {
    PixelIndexBound(h, w, i, j);
  }

  // ---------------------------------------------------------------------------
  // Minimum cuts. `nx.minimum_cut(graph, source, sink)[1][0]` is the source side of a
  // cut of least capacity; the scripts label pixels by membership in it.

  /** The capacity of arc (u, v) if it leaves `side`, and 0 otherwise. */
  function Crossing(cap: map<(nat, nat), real>, side: set<nat>, u: nat, v: nat): real
  {
    if (u, v) in cap && u in side && v !in side then cap[(u, v)] else 0.0
  }

  /** The capacity leaving `side` along arcs from node u to nodes below m. */
  function RowCut(cap: map<(nat, nat), real>, side: set<nat>, u: nat, m: nat): real
  {
    if m == 0 then 0.0 else RowCut(cap, side, u, m - 1) + Crossing(cap, side, u, m - 1)
  }

  /** The capacity of the cut `side` in a network whose nodes are 0 .. n - 1: the sum of
      the capacities of the arcs leaving it. */
  function CutValue(cap: map<(nat, nat), real>, side: set<nat>, n: nat, m: nat): real
  {
    if m == 0 then 0.0 else CutValue(cap, side, n, m - 1) + RowCut(cap, side, m - 1, n)
  }

  /** `side` holds the source and not the sink, and no such set has a smaller cut. */
  ghost predicate IsMinimumCut(cap: map<(nat, nat), real>, n: nat, source: nat, sink: nat, side: set<nat>)
  {
    source in side && sink !in side &&
    forall other: set<nat> :: source in other && sink !in other ==> CutValue(cap, side, n, n) <= CutValue(cap, other, n, n)
  }

  /** The network of a single pixel has two arcs, source -> pixel and pixel -> sink. */
  lemma {:induction false} SinglePixelNetwork(ints: seq<real>, dw: real, s: Scan)
    requires |ints| == 1 && s.h == 1 && s.w == 1 && s.offs == AxisOffsets() && KeepsAll(s)
    ensures var cap := Network(ints, dw, s);
      (forall u: nat, v: nat :: (u, v) in cap <==> (u, v) == (1, 0) || (u, v) == (0, 2)) &&
      cap[(1, 0)] == SourceCapacity(dw, ints[0]) && cap[(0, 2)] == SinkCapacity(dw, ints[0])
  {
    var cap := Network(ints, dw, s);
    NetworkTerminals(ints, dw, s, 0);
    NetworkAxisArcs(ints, dw, s, 0, 0, 0, 0);
    assert PixelIndex(1, 0, 0) == 0;
    forall u: nat, v: nat | (u, v) in cap
      ensures (u, v) == (1, 0) || (u, v) == (0, 2)
    {
      NetworkOnlyArcs(ints, dw, s, u, v);
    }
  }

  /** With only those two arcs, a cut is paid by the source arc when the pixel is outside
      it and by the sink arc when the pixel is inside. */
  lemma {:induction false} SinglePixelCutValue(cap: map<(nat, nat), real>, side: set<nat>)
    requires forall u: nat, v: nat :: (u, v) in cap <==> (u, v) == (1, 0) || (u, v) == (0, 2)
    requires 1 in side && 2 !in side
    ensures CutValue(cap, side, 3, 3) == if 0 in side then cap[(0, 2)] else cap[(1, 0)]
  {
    assert (0, 0) !in cap && (0, 1) !in cap && (1, 1) !in cap && (1, 2) !in cap;
    assert (2, 0) !in cap && (2, 1) !in cap && (2, 2) !in cap;
    assert RowCut(cap, side, 0, 3) == Crossing(cap, side, 0, 2) by {
      assert RowCut(cap, side, 0, 1) == 0.0;
      assert RowCut(cap, side, 0, 2) == 0.0;
    }
    assert RowCut(cap, side, 1, 3) == Crossing(cap, side, 1, 0) by {
      assert RowCut(cap, side, 1, 1) == Crossing(cap, side, 1, 0);
      assert RowCut(cap, side, 1, 2) == Crossing(cap, side, 1, 0);
    }
    assert RowCut(cap, side, 2, 3) == 0.0 by {
      assert RowCut(cap, side, 2, 1) == 0.0;
      assert RowCut(cap, side, 2, 2) == 0.0;
    }
    assert CutValue(cap, side, 3, 1) == RowCut(cap, side, 0, 3);
    assert CutValue(cap, side, 3, 2) == RowCut(cap, side, 0, 3) + RowCut(cap, side, 1, 3);
  }

  /** A minimum cut of a single-pixel network puts the pixel on the source side only if
      its sink arc is the cheaper one to cut, and on the sink side only if its source arc
      is. */
  lemma {:induction false} SinglePixelCut(ints: seq<real>, dw: real, s: Scan, side: set<nat>)
    requires |ints| == 1 && s.h == 1 && s.w == 1 && s.offs == AxisOffsets() && KeepsAll(s)
    requires IsMinimumCut(Network(ints, dw, s), 3, 1, 2, side)
    ensures 0 in side ==> SinkCapacity(dw, ints[0]) <= SourceCapacity(dw, ints[0])
    ensures 0 !in side ==> SourceCapacity(dw, ints[0]) <= SinkCapacity(dw, ints[0])
  {
    var cap := Network(ints, dw, s);
    SinglePixelNetwork(ints, dw, s);
    var inside, outside := {0, 1}, {1};
    SinglePixelCutValue(cap, side);
    SinglePixelCutValue(cap, inside);
    SinglePixelCutValue(cap, outside);
    assert CutValue(cap, side, 3, 3) <= CutValue(cap, inside, 3, 3);
    assert CutValue(cap, side, 3, 3) <= CutValue(cap, outside, 3, 3);
  }

  /** The sink arc is the cheaper one exactly for intensities up to mid-grey, the source
      arc exactly for intensities from mid-grey up. */
  lemma {:induction false} TerminalOrder(dw: real, x: real)
    requires 0.0 < dw
    ensures SinkCapacity(dw, x) <= SourceCapacity(dw, x) <==> 2.0 * x <= 255.0
    ensures SourceCapacity(dw, x) <= SinkCapacity(dw, x) <==> 255.0 <= 2.0 * x
  {
    var d := 255.0 - 2.0 * x;
    assert SourceCapacity(dw, x) - SinkCapacity(dw, x) == dw * d / 255.0;
    if 0.0 <= d {
      MulMonotone(dw, 0.0, d);
    } else {
      MulStrict(dw, d, 0.0);
    }
    if d <= 0.0 {
      MulMonotone(dw, d, 0.0);
    } else {
      MulStrict(dw, 0.0, d);
    }
  }

  /** As written, the grey script prices a pixel's source arc by its darkness and its
      sink arc by its brightness, and then paints the source side white. For a single
      uint8 pixel, every minimum cut puts it on the source side exactly when it is at
      most 127: a black pixel comes out white and a white pixel black. */
  lemma {:induction false} GreySinglePixelInverted(x: int, exp: real -> real, dw: real, sw: real, sc: real, ss: real,
                                                   side: set<nat>)
    requires 0 <= x <= 255 && 0.0 < dw && sc != 0.0 && ss != 0.0
    requires IsMinimumCut(GreyNetwork([[x]], 1, 1, exp, dw, sw, sc, ss), 3, 1, 2, side)
    ensures 0 in side <==> x <= 127
  {
    FlattenLength([[x]], 1, 1);
    var vals := Floats(Flatten([[x]]));
    var ints, s := GreyIntensities(vals), GreyScan(vals, 1, 1, exp, sw, sc, ss);
    FlattenAt([[x]], 1, 1, 0, 0);
    assert ints[0] == x as real;
    SinglePixelCut(ints, dw, s, side);
    TerminalOrder(dw, x as real);
  }

  /** `255 - x` for every intensity. */
  function Mirrored(ints: seq<real>): (r: seq<real>)
    ensures |r| == |ints| && forall p :: 0 <= p < |ints| ==> r[p] + ints[p] == 255.0
  {
    seq(|ints|, p requires 0 <= p < |ints| => 255.0 - ints[p])
  }

  /** The grey network with the terminal capacities the labelling calls for: the source
      arc priced `data_weight * intensity**2 / 255**2` and the sink arc
      `data_weight * (255 - intensity)**2 / 255**2`. Pricing from 255 - x exchanges the
      two (TerminalCapacities). */
  function IntendedGreyNetwork(image: seq<seq<int>>, h: nat, w: nat, exp: real -> real,
                               dw: real, sw: real, sc: real, ss: real): map<(nat, nat), real>
    requires IsGrid(image, h, w)
  {
    FlattenLength(image, h, w);
    var vals := Floats(Flatten(image));
    Network(Mirrored(GreyIntensities(vals)), dw, GreyScan(vals, h, w, exp, sw, sc, ss))
  }

  /** In the intended network every pixel's source arc costs the sink capacity of its
      intensity and its sink arc the source capacity. */
  lemma {:induction false} IntendedGreyTerminals(image: seq<seq<int>>, h: nat, w: nat, exp: real -> real,
                                                 dw: real, sw: real, sc: real, ss: real, i: nat, j: nat)
    requires IsGrid(image, h, w) && InBounds(h, w, i, j)
    ensures var cap, n, p := IntendedGreyNetwork(image, h, w, exp, dw, sw, sc, ss), h * w, PixelIndex(w, i, j);
      var x := Clip(image[i][j] as real, 0.0, 255.0);
      TerminalArcs(cap, n, p, SinkCapacity(dw, x), SourceCapacity(dw, x))
  {
    var vals := Floats(Flatten(image));
    var ints, s := Mirrored(GreyIntensities(vals)), GreyScan(vals, h, w, exp, sw, sc, ss);
    var p, x := PixelIndex(w, i, j), Clip(image[i][j] as real, 0.0, 255.0);
    var cap, n := IntendedGreyNetwork(image, h, w, exp, dw, sw, sc, ss), h * w;
    assert |ints| == n == s.h * s.w && p < n && ints[p] == 255.0 - x && cap == Network(ints, dw, s) by {
      FlattenLength(image, h, w);
      FlattenAt(image, h, w, i, j);
    }
    NetworkTerminals(ints, dw, s, p);
    assert SourceCapacity(dw, 255.0 - x) == SinkCapacity(dw, x) && SinkCapacity(dw, 255.0 - x) == SourceCapacity(dw, x) by {
      TerminalCapacities(dw, x);
    }
  }

  /** With the intended capacities a single uint8 pixel lands on the source side, and is
      painted white, exactly when it is at least 128. */
  lemma {:induction false} IntendedGreySinglePixel(x: int, exp: real -> real, dw: real, sw: real, sc: real, ss: real,
                                                   side: set<nat>)
    requires 0 <= x <= 255 && 0.0 < dw && sc != 0.0 && ss != 0.0
    requires IsMinimumCut(IntendedGreyNetwork([[x]], 1, 1, exp, dw, sw, sc, ss), 3, 1, 2, side)
    ensures 0 in side <==> 128 <= x
  {
    FlattenLength([[x]], 1, 1);
    var vals := Floats(Flatten([[x]]));
    var ints, s := Mirrored(GreyIntensities(vals)), GreyScan(vals, 1, 1, exp, sw, sc, ss);
    FlattenAt([[x]], 1, 1, 0, 0);
    assert ints[0] == 255.0 - x as real;
    SinglePixelCut(ints, dw, s, side);
    TerminalOrder(dw, 255.0 - x as real);
  }

  /** The colour script has the same inversion, and blackens the sink side: a single
      pixel is kept exactly when its luma is at most mid-grey. */
  lemma {:induction false} ColourSinglePixelInverted(px: seq<int>, exp: real -> real, dw: real, sw: real, sc: real, ss: real,
                                                     side: set<nat>)
    requires |px| == 3 && 0.0 < dw && sc != 0.0 && ss != 0.0
    requires IsMinimumCut(ColourNetwork([[px]], 1, 1, exp, dw, sw, sc, ss), 3, 1, 2, side)
    ensures 0 in side ==> 2.0 * Luma(ToReals([px])[0]) <= 255.0
    ensures 0 !in side ==> 255.0 <= 2.0 * Luma(ToReals([px])[0])
  {
    FlattenImage([[px]], 1, 1, 3);
    var vals := ToReals(Flatten([[px]]));
    var ints, s := ColourIntensities(vals), ColourScan(vals, 1, 1, exp, sw, sc, ss);
    FlattenAt([[px]], 1, 1, 0, 0);
    assert vals[0] == ToReals([px])[0];
    SinglePixelCut(ints, dw, s, side);
    TerminalOrder(dw, ints[0]);
  }

  // ---------------------------------------------------------------------------
  // Building the network as the scripts do.

  /** The two `add_edge` calls of the data loop for pixel p. */
  method AddTerminalEdges(g: FlowNetwork, ints: seq<real>, dw: real, p: nat)
    requires p < |ints|
    modifies g
    ensures g.capacity == Inserted(old(g.capacity), TerminalEdges(ints, dw, p))
  {
    g.AddEdge(|ints|, p, SourceCapacity(dw, ints[p]));
    g.AddEdge(p, |ints| + 1, SinkCapacity(dw, ints[p]));
    InsertedPair(old(g.capacity), TerminalEdges(ints, dw, p)[0], TerminalEdges(ints, dw, p)[1]);
  }

  /** The data loop over the columns of row i. */
  method AddDataRow(g: FlowNetwork, ints: seq<real>, dw: real, h: nat, w: nat, i: nat)
    requires |ints| == h * w && i < h && PixelIndex(w, i + 1, 0) <= |ints|
    requires g.capacity == Inserted(map[], DataEdges(ints, dw, PixelIndex(w, i, 0)))
    modifies g
    ensures g.capacity == Inserted(map[], DataEdges(ints, dw, PixelIndex(w, i + 1, 0)))
  {
    var p := PixelIndex(w, i, 0);
    for j := 0 to w
      invariant p == PixelIndex(w, i, j) && p <= |ints|
      invariant g.capacity == Inserted(map[], DataEdges(ints, dw, p))
    {
      PixelIndexBound(h, w, i, j);
      ghost var before := g.capacity;
      AddTerminalEdges(g, ints, dw, p);
      DataEdgesNext(ints, dw, p, before, g.capacity);
      p := p + 1;
    }
    NextRow(w, i);
  }

  /** The `add_edge` call, if any, of pixel (i, j) for offset o. */
  method AddNeighbourEdge(g: FlowNetwork, s: Scan, i: nat, j: nat, o: (int, int))
    requires KeepsAll(s)
    modifies g
    ensures g.capacity == Inserted(old(g.capacity), EdgeTo(s, i, j, o))
  {
    var ni, nj := i + o.0, j + o.1;
    if 0 <= ni < s.h && 0 <= nj < s.w {
      KeepsAt(s, s.wt(i, j, ni, nj));
      g.AddEdge(PixelIndex(s.w, i, j), PixelIndex(s.w, ni, nj), s.wt(i, j, ni, nj));
    }
  }

  /** The loop over the four offsets of pixel (i, j). */
  method AddPixelEdges(g: FlowNetwork, s: Scan, i: nat, j: nat)
    requires KeepsAll(s)
    modifies g
    ensures g.capacity == Inserted(old(g.capacity), PixelEdges(s, i, j, |s.offs|))
  {
    for k := 0 to |s.offs|
      invariant g.capacity == Inserted(old(g.capacity), PixelEdges(s, i, j, k))
    {
      AddNeighbourEdge(g, s, i, j, s.offs[k]);
      InsertedAppend(old(g.capacity), PixelEdges(s, i, j, k), EdgeTo(s, i, j, s.offs[k]));
    }
  }

  /** The neighbour loop's calls for pixel (i, j) extend the network of the pixels
      before it. */
  lemma {:induction false} NeighbourEdgesNext(s: Scan, i: nat, j: nat, base: map<(nat, nat), real>,
                                              before: map<(nat, nat), real>, after: map<(nat, nat), real>)
    requires j < s.w
    requires before == Inserted(base, ScanEdges(s, PixelIndex(s.w, i, j)))
    requires after == Inserted(before, PixelEdges(s, i, j, |s.offs|))
    ensures after == Inserted(base, ScanEdges(s, PixelIndex(s.w, i, j + 1)))
  {
    ScanEdgesStep(s, i, j);
    InsertedAppend(base, ScanEdges(s, PixelIndex(s.w, i, j)), PixelEdges(s, i, j, |s.offs|));
  }

  /** One pass of the neighbour loop's inner body, at pixel (i, j). */
  method AddNeighbourPixel(g: FlowNetwork, s: Scan, i: nat, j: nat, ghost base: map<(nat, nat), real>)
    requires KeepsAll(s) && j < s.w
    requires g.capacity == Inserted(base, ScanEdges(s, PixelIndex(s.w, i, j)))
    modifies g
    ensures g.capacity == Inserted(base, ScanEdges(s, PixelIndex(s.w, i, j + 1)))
  {
    ghost var before := g.capacity;
    AddPixelEdges(g, s, i, j);
    NeighbourEdgesNext(s, i, j, base, before, g.capacity);
  }

  /** The neighbour loop over the columns of row i. */
  method AddNeighbourRow(g: FlowNetwork, s: Scan, i: nat, ghost base: map<(nat, nat), real>)
    requires KeepsAll(s) && 0 < s.w
    requires g.capacity == Inserted(base, ScanEdges(s, PixelIndex(s.w, i, 0)))
    modifies g
    ensures g.capacity == Inserted(base, ScanEdges(s, PixelIndex(s.w, i + 1, 0)))
  {
    for j := 0 to s.w
      invariant g.capacity == Inserted(base, ScanEdges(s, PixelIndex(s.w, i, j)))
    {
      AddNeighbourPixel(g, s, i, j, base);
    }
    NextRow(s.w, i);
  }

  /** Both loops of the scripts: the terminal arcs of every pixel, then the neighbour
      arcs, into a fresh network. */
  method BuildNetwork(ints: seq<real>, dw: real, s: Scan) returns (g: FlowNetwork)
    requires |ints| == s.h * s.w && KeepsAll(s)
    ensures fresh(g) && g.capacity == Network(ints, dw, s)
  {
    g := new FlowNetwork();
    for i := 0 to s.h
      invariant PixelIndex(s.w, i, 0) <= |ints|
      invariant g.capacity == Inserted(map[], DataEdges(ints, dw, PixelIndex(s.w, i, 0)))
    {
      RowStartBound(s.h, s.w, i + 1);
      AddDataRow(g, ints, dw, s.h, s.w, i);
    }
    ghost var base := g.capacity;
    for i := 0 to s.h
      invariant 0 < s.w ==> g.capacity == Inserted(base, ScanEdges(s, PixelIndex(s.w, i, 0)))
      invariant s.w == 0 ==> g.capacity == base
    {
      if 0 < s.w {
        AddNeighbourRow(g, s, i, base);
      }
    }
  }

  // ---------------------------------------------------------------------------
  // Labelling.

  /** The grey labelling loop over row i: 255 on the source side, 0 elsewhere. */
  method LabelGreyRow(out: array2<int>, reachable: set<nat>, i: nat)
    requires i < out.Length0
    modifies out
    ensures forall j :: 0 <= j < out.Length1 ==> out[i, j] == if PixelIndex(out.Length1, i, j) in reachable then 255 else 0
    ensures forall r, j :: 0 <= r < out.Length0 && 0 <= j < out.Length1 && r != i ==> out[r, j] == old(out[r, j])
  {
    for j := 0 to out.Length1
      invariant forall k :: 0 <= k < j ==> out[i, k] == if PixelIndex(out.Length1, i, k) in reachable then 255 else 0
      invariant forall r, k :: 0 <= r < out.Length0 && 0 <= k < out.Length1 && r != i ==> out[r, k] == old(out[r, k])
    {
      out[i, j] := if PixelIndex(out.Length1, i, j) in reachable then 255 else 0;
    }
  }

  /** `image_denoising_bk_grayscale(image, data_weight, smooth_weight, sigma_color,
      sigma_space)`: a binary image of the input's shape, white exactly on the pixels
      the minimum cut leaves on the source side of the network. */
  method ImageDenoisingBkGrayscale(image: seq<seq<int>>, h: nat, w: nat, exp: real -> real,
                                   dw: real, sw: real, sc: real, ss: real,
                                   minimumCut: (map<(nat, nat), real>, nat, nat) -> set<nat>)
    returns (out: array2<int>)
    requires IsGrid(image, h, w) && sc != 0.0 && ss != 0.0
    ensures fresh(out) && out.Length0 == h && out.Length1 == w
    ensures var reachable := minimumCut(GreyNetwork(image, h, w, exp, dw, sw, sc, ss), h * w, h * w + 1);
      forall i, j :: 0 <= i < h && 0 <= j < w ==> out[i, j] == if PixelIndex(w, i, j) in reachable then 255 else 0
  {
    FlattenLength(image, h, w);
    var vals := Floats(Flatten(image));
    var g := BuildNetwork(GreyIntensities(vals), dw, GreyScan(vals, h, w, exp, sw, sc, ss));
    var reachable := minimumCut(g.capacity, h * w, h * w + 1);
    out := new int[h, w];
    for i := 0 to h
      invariant forall r, j :: 0 <= r < i && 0 <= j < w ==> out[r, j] == if PixelIndex(w, r, j) in reachable then 255 else 0
    {
      LabelGreyRow(out, reachable, i);
    }
  }

  /** The colour labelling loop over row i: the original pixel on the source side,
      black elsewhere. */
  method LabelColourRow(out: array2<seq<int>>, image: seq<seq<seq<int>>>, reachable: set<nat>, i: nat)
    requires IsImage(image, out.Length0, out.Length1, 3) && i < out.Length0
    modifies out
    ensures forall j :: 0 <= j < out.Length1 ==>
      out[i, j] == if PixelIndex(out.Length1, i, j) in reachable then image[i][j] else [0, 0, 0]
    ensures forall r, j :: 0 <= r < out.Length0 && 0 <= j < out.Length1 && r != i ==> out[r, j] == old(out[r, j])
  {
    for j := 0 to out.Length1
      invariant forall k :: 0 <= k < j ==>
        out[i, k] == if PixelIndex(out.Length1, i, k) in reachable then image[i][k] else [0, 0, 0]
      invariant forall r, k :: 0 <= r < out.Length0 && 0 <= k < out.Length1 && r != i ==> out[r, k] == old(out[r, k])
    {
      if PixelIndex(out.Length1, i, j) in reachable {
        out[i, j] := image[i][j];
      } else {
        out[i, j] := [0, 0, 0];
      }
    }
  }

  /** `image_denoising_bk_color_optimized(image, data_weight, smooth_weight, sigma_color,
      sigma_space)`: an image of the input's shape that keeps the pixels the minimum cut
      leaves on the source side and blackens the rest. */
  method ImageDenoisingBkColorOptimized(image: seq<seq<seq<int>>>, h: nat, w: nat, exp: real -> real,
                                        dw: real, sw: real, sc: real, ss: real,
                                        minimumCut: (map<(nat, nat), real>, nat, nat) -> set<nat>)
    returns (out: array2<seq<int>>)
    requires IsImage(image, h, w, 3) && sc != 0.0 && ss != 0.0
    ensures fresh(out) && out.Length0 == h && out.Length1 == w
    ensures var reachable := minimumCut(ColourNetwork(image, h, w, exp, dw, sw, sc, ss), h * w, h * w + 1);
      forall i, j :: 0 <= i < h && 0 <= j < w ==>
        out[i, j] == if PixelIndex(w, i, j) in reachable then image[i][j] else [0, 0, 0]
  {
    FlattenImage(image, h, w, 3);
    var vals := ToReals(Flatten(image));
    var g := BuildNetwork(ColourIntensities(vals), dw, ColourScan(vals, h, w, exp, sw, sc, ss));
    var reachable := minimumCut(g.capacity, h * w, h * w + 1);
    out := new seq<int>[h, w]((i, j) => [0, 0, 0]);
    for i := 0 to h
      invariant forall r, j :: 0 <= r < i && 0 <= j < w ==>
        out[r, j] == if PixelIndex(w, r, j) in reachable then image[r][j] else [0, 0, 0]
    {
      LabelColourRow(out, image, reachable, i);
    }
  }
}
