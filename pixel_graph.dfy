/** The neighbour scan shared by the sparse-matrix builders and the graph-cut network:
    visit pixels row-major and, for each, a fixed list of offsets; emit an edge
    (p, q, weight) to each in-bounds neighbour whose weight passes a filter. Also the
    scipy-sparse view of such an edge list: a CSR row, a matrix entry (duplicates are
    summed), row sums and the matrix-vector product. */
module PixelGraph {
  import opened Grid
  import opened Numeric

  /** One stored (row, col, value) triplet, or one directed edge with its capacity. */
  datatype Edge = Edge(src: nat, dst: nat, weight: real)

  /** A scan over an h by w raster: the offsets visited per pixel, in order, the weight
      of the edge from pixel (i, j) to pixel (ni, nj), and the filter an edge weight
      must pass to be stored. */
  datatype Scan = Scan(h: nat, w: nat, offs: seq<(int, int)>,
                       wt: (int, int, int, int) -> real, keep: real -> bool)

  /** The edge, if any, that pixel (i, j) emits for offset o. */
  function EdgeTo(s: Scan, i: nat, j: nat, o: (int, int)): seq<Edge>
  {
    var ni, nj := i + o.0, j + o.1;
    if 0 <= ni < s.h && 0 <= nj < s.w && s.keep(s.wt(i, j, ni, nj))
    then [Edge(PixelIndex(s.w, i, j), PixelIndex(s.w, ni, nj), s.wt(i, j, ni, nj))]
    else []
  }

  /** Edges of pixel (i, j) after visiting its first n offsets. */
  function PixelEdges(s: Scan, i: nat, j: nat, n: nat): seq<Edge>
    requires n <= |s.offs|
  {
    if n == 0 then [] else PixelEdges(s, i, j, n - 1) + EdgeTo(s, i, j, s.offs[n - 1])
  }

  /** Edges of the pixel at flat index m. */
  function Block(s: Scan, m: nat): seq<Edge>
    requires 0 < s.w
  {
    PixelEdges(s, m / s.w, m % s.w, |s.offs|)
  }

  /** Edges of the first m pixels in row-major order: the list the nested loops have
      built when they reach flat index m. */
  function ScanEdges(s: Scan, m: nat): seq<Edge>
    requires 0 < s.w
  {
    if m == 0 then [] else ScanEdges(s, m - 1) + Block(s, m - 1)
  }

  /** Reaching pixel (i, j) in row-major order appends exactly that pixel's block. */
  lemma {:induction false} ScanEdgesNext(s: Scan, i: nat, j: nat)
    requires j < s.w
    ensures ScanEdges(s, PixelIndex(s.w, i, j) + 1) == ScanEdges(s, PixelIndex(s.w, i, j)) + PixelEdges(s, i, j, |s.offs|)
  {
    DivModUnique(i * s.w + j, s.w, i, j);
  }

  /** `ScanEdgesNext`, stated at the index of the next pixel of the row. */
  lemma {:induction false} ScanEdgesStep(s: Scan, i: nat, j: nat)
    requires j < s.w
    ensures ScanEdges(s, PixelIndex(s.w, i, j + 1)) == ScanEdges(s, PixelIndex(s.w, i, j)) + PixelEdges(s, i, j, |s.offs|)
  {
    ScanEdgesNext(s, i, j);
    assert PixelIndex(s.w, i, j + 1) == PixelIndex(s.w, i, j) + 1;
  }

  /** Everything the scan emits. */
  function AllEdges(s: Scan): seq<Edge>
  {
    if s.w == 0 then [] else ScanEdges(s, s.h * s.w)
  }

  /** No offset is listed twice. */
  ghost predicate DistinctOffsets(offs: seq<(int, int)>)
  {
    forall a, b :: 0 <= a < b < |offs| ==> offs[a] != offs[b]
  }

  /** The weight from (i, j) to an in-bounds neighbour equals the weight back. */
  ghost predicate SymmetricWeight(s: Scan)
  {
    forall i, j, ni, nj ::
      InBounds(s.h, s.w, i, j) && InBounds(s.h, s.w, ni, nj) ==>
        s.wt(i, j, ni, nj) == s.wt(ni, nj, i, j)
  }

  /** The scan links pixel (i, j) to pixel (ni, nj): their offset is listed and the
      weight passes the filter. */
  ghost predicate Linked(s: Scan, i: int, j: int, ni: int, nj: int)
  {
    (ni - i, nj - j) in s.offs && s.keep(s.wt(i, j, ni, nj))
  }

  /** The 4-neighbourhood the scripts visit, in their order: up, down, left, right. */
  function AxisOffsets(): (offs: seq<(int, int)>)
    ensures |offs| == 4
  {
    [(-1, 0), (1, 0), (0, -1), (0, 1)]
  }

  /** (ni, nj) is one of the four axis neighbours of (i, j). */
  predicate AxisNeighbour(i: int, j: int, ni: int, nj: int)
  {
    (ni == i && (nj == j - 1 || nj == j + 1)) || (nj == j && (ni == i - 1 || ni == i + 1))
  }

  lemma {:induction false} AxisMembers(i: int, j: int, ni: int, nj: int)
    ensures (ni - i, nj - j) in AxisOffsets() <==> AxisNeighbour(i, j, ni, nj)
    ensures (ni - i, nj - j) in AxisOffsets() <==> (i - ni, j - nj) in AxisOffsets()
  {
  }

  lemma {:induction false} AxisDistinct()
    ensures DistinctOffsets(AxisOffsets())
  {
  }

  /** The spatial exponent -(di^2 + dj^2) / (2 alpha^2) is never positive. */
  lemma {:induction false} SpatialExponentNonPositive(di: int, dj: int, alpha: real)
    requires alpha != 0.0
    ensures 0.0 < Spread(alpha) && -(SpatialDiff((di, dj)) as real) / Spread(alpha) <= 0.0
  {
    SpatialDiffSign(di, dj);
    SpreadPositive(alpha);
    DivSign(-(SpatialDiff((di, dj)) as real), Spread(alpha));
  }

  // ---------------------------------------------------------------------------
  // The scipy-sparse view of an edge list. scipy sums duplicate triplets, so a matrix
  // entry, a row sum and a matrix-vector product are all sums over the triplets.

  /** Sum of f over the triplets. */
  function Total(es: seq<Edge>, f: Edge -> real): real
  {
    if es == [] then 0.0 else Total(es[..|es| - 1], f) + f(es[|es| - 1])
  }

  /** Number of triplets satisfying f. */
  function Tally(es: seq<Edge>, f: Edge -> bool): nat
  {
    if es == [] then 0 else Tally(es[..|es| - 1], f) + (if f(es[|es| - 1]) then 1 else 0)
  }

  /** The per-triplet terms of the sums below. */
  function AtTest(p: nat, q: nat): Edge -> bool
  {
    (e: Edge) => e.src == p && e.dst == q
  }

  function InRow(p: nat): Edge -> bool
  {
    (e: Edge) => e.src == p
  }

  function EntryTerm(p: nat, q: nat): Edge -> real
  {
    (e: Edge) => if e.src == p && e.dst == q then e.weight else 0.0
  }

  function RowTerm(p: nat): Edge -> real
  {
    (e: Edge) => if e.src == p then e.weight else 0.0
  }

  function DotTerm(p: nat, v: seq<real>): Edge -> real
  {
    (e: Edge) => if e.src == p && e.dst < |v| then e.weight * v[e.dst] else 0.0
  }

  /** Matrix entry W[p, q]. */
  function Entry(es: seq<Edge>, p: nat, q: nat): real
  {
    Total(es, EntryTerm(p, q))
  }

  /** Number of triplets stored at (p, q). */
  function Count(es: seq<Edge>, p: nat, q: nat): nat
  {
    Tally(es, AtTest(p, q))
  }

  /** Number of triplets stored in row p. */
  function RowLength(es: seq<Edge>, p: nat): nat
  {
    Tally(es, InRow(p))
  }

  /** `W.sum(axis=1)[p]`. */
  function RowSum(es: seq<Edge>, p: nat): real
  {
    Total(es, RowTerm(p))
  }

  /** `(W @ v)[p]`. */
  function RowDot(es: seq<Edge>, p: nat, v: seq<real>): real
  {
    Total(es, DotTerm(p, v))
  }

  ghost predicate TargetsBelow(es: seq<Edge>, n: nat)
  {
    forall k :: 0 <= k < |es| ==> es[k].dst < n
  }

  lemma {:induction false} TotalAppend(a: seq<Edge>, b: seq<Edge>, f: Edge -> real)
    ensures Total(a + b, f) == Total(a, f) + Total(b, f)
  {
    if b == [] {
      assert a + b == a;
    } else {
      var n := |b| - 1;
      var ab := a + b;
      assert ab[..|ab| - 1] == a + b[..n];
      assert ab[|ab| - 1] == b[n];
      TotalAppend(a, b[..n], f);
    }
  }

  lemma {:induction false} TallyAppend(a: seq<Edge>, b: seq<Edge>, f: Edge -> bool)
    ensures Tally(a + b, f) == Tally(a, f) + Tally(b, f)
  {
    if b == [] {
      assert a + b == a;
    } else {
      var n := |b| - 1;
      var ab := a + b;
      assert ab[..|ab| - 1] == a + b[..n];
      assert ab[|ab| - 1] == b[n];
      TallyAppend(a, b[..n], f);
    }
  }

  /** f vanishes on every triplet outside row p. */
  ghost predicate RowLocal(f: Edge -> real, p: nat)
  {
    forall e: Edge :: e.src != p ==> f(e) == 0.0
  }

  ghost predicate RowLocalTest(f: Edge -> bool, p: nat)
  {
    forall e: Edge :: e.src != p ==> !f(e)
  }

  /** Every edge pixel (i, j) emits leaves from pixel (i, j). */
  lemma {:induction false} PixelEdgesSource(s: Scan, i: nat, j: nat, n: nat)
    requires n <= |s.offs|
    ensures forall k :: 0 <= k < |PixelEdges(s, i, j, n)| ==>
      PixelEdges(s, i, j, n)[k].src == PixelIndex(s.w, i, j)
  {
    if n > 0 {
      PixelEdgesSource(s, i, j, n - 1);
    }
  }

  /** A pixel emits at most one edge per offset, each towards a pixel of the grid. */
  lemma {:induction false} PixelEdgesTargets(s: Scan, i: nat, j: nat, n: nat)
    requires n <= |s.offs|
    ensures |PixelEdges(s, i, j, n)| <= n
    ensures TargetsBelow(PixelEdges(s, i, j, n), s.h * s.w)
  {
    if n > 0 {
      PixelEdgesTargets(s, i, j, n - 1);
      var o := s.offs[n - 1];
      if 0 <= i + o.0 < s.h && 0 <= j + o.1 < s.w {
        PixelIndexBijection(s.h, s.w, i + o.0, j + o.1);
      }
    }
  }

  lemma {:induction false} TotalNone(es: seq<Edge>, f: Edge -> real, p: nat)
    requires RowLocal(f, p) && forall k :: 0 <= k < |es| ==> es[k].src != p
    ensures Total(es, f) == 0.0
  {
    if es != [] {
      TotalNone(es[..|es| - 1], f, p);
    }
  }

  lemma {:induction false} TallyNone(es: seq<Edge>, f: Edge -> bool, p: nat)
    requires RowLocalTest(f, p) && forall k :: 0 <= k < |es| ==> es[k].src != p
    ensures Tally(es, f) == 0
  {
    if es != [] {
      TallyNone(es[..|es| - 1], f, p);
    }
  }

  lemma {:induction false} BlockSource(s: Scan, m: nat)
    requires 0 < s.w
    ensures forall k :: 0 <= k < |Block(s, m)| ==> Block(s, m)[k].src == m
  {
    assert PixelIndex(s.w, m / s.w, m % s.w) == m;
    PixelEdgesSource(s, m / s.w, m % s.w, |s.offs|);
  }

  /** A row-local quantity vanishes on the block of any other pixel. */
  lemma {:induction false} TotalOtherBlock(s: Scan, q: nat, f: Edge -> real, p: nat)
    requires 0 < s.w && RowLocal(f, p) && q != p
    ensures Total(Block(s, q), f) == 0.0
  {
    BlockSource(s, q);
    TotalNone(Block(s, q), f, p);
  }

  /** Summing a row-local quantity over the scan's first m pixels gives pixel p's own
      contribution once the scan has passed p, and nothing before. */
  lemma {:induction false} TotalScan(s: Scan, m: nat, f: Edge -> real, p: nat)
    requires 0 < s.w && RowLocal(f, p)
    ensures Total(ScanEdges(s, m), f) == if p < m then Total(Block(s, p), f) else 0.0
  {
    if m > 0 {
      TotalScan(s, m - 1, f, p);
      TotalAppend(ScanEdges(s, m - 1), Block(s, m - 1), f);
      if p != m - 1 {
        TotalOtherBlock(s, m - 1, f, p);
      }
    }
  }

  /** A row-local quantity vanishes on the block of any other pixel. */
  lemma {:induction false} TallyOtherBlock(s: Scan, q: nat, f: Edge -> bool, p: nat)
    requires 0 < s.w && RowLocalTest(f, p) && q != p
    ensures Tally(Block(s, q), f) == 0
  {
    BlockSource(s, q);
    TallyNone(Block(s, q), f, p);
  }

  lemma {:induction false} TallyScan(s: Scan, m: nat, f: Edge -> bool, p: nat)
    requires 0 < s.w && RowLocalTest(f, p)
    ensures Tally(ScanEdges(s, m), f) == if p < m then Tally(Block(s, p), f) else 0
  {
    if m > 0 {
      TallyScan(s, m - 1, f, p);
      TallyAppend(ScanEdges(s, m - 1), Block(s, m - 1), f);
      if p != m - 1 {
        TallyOtherBlock(s, m - 1, f, p);
      }
    }
  }

  /** Row (i, j) of the whole matrix is made of pixel (i, j)'s own triplets. */
  lemma {:induction false} TotalOfPixel(s: Scan, i: nat, j: nat, f: Edge -> real)
    requires InBounds(s.h, s.w, i, j) && RowLocal(f, PixelIndex(s.w, i, j))
    ensures Total(AllEdges(s), f) == Total(PixelEdges(s, i, j, |s.offs|), f)
  {
    PixelIndexBijection(s.h, s.w, i, j);
    TotalScan(s, s.h * s.w, f, PixelIndex(s.w, i, j));
  }

  lemma {:induction false} TallyOfPixel(s: Scan, i: nat, j: nat, f: Edge -> bool)
    requires InBounds(s.h, s.w, i, j) && RowLocalTest(f, PixelIndex(s.w, i, j))
    ensures Tally(AllEdges(s), f) == Tally(PixelEdges(s, i, j, |s.offs|), f)
  {
    PixelIndexBijection(s.h, s.w, i, j);
    TallyScan(s, s.h * s.w, f, PixelIndex(s.w, i, j));
  }

  /** The entry offset o of pixel (i, j) adds to column (ni, nj). */
  lemma {:induction false} EdgeEntry(s: Scan, i: nat, j: nat, o: (int, int), ni: nat, nj: nat)
    requires InBounds(s.h, s.w, ni, nj)
    ensures var hit := o == (ni - i, nj - j) && s.keep(s.wt(i, j, ni, nj));
      var p, q := PixelIndex(s.w, i, j), PixelIndex(s.w, ni, nj);
      Tally(EdgeTo(s, i, j, o), AtTest(p, q)) == (if hit then 1 else 0) &&
      Total(EdgeTo(s, i, j, o), EntryTerm(p, q)) == (if hit then s.wt(i, j, ni, nj) else 0.0)
  {
    var e := EdgeTo(s, i, j, o);
    if e != [] {
      assert e[..0] == [];
      PixelIndexInjective(s.h, s.w, ni, nj, i + o.0, j + o.1);
    }
  }

  /** Pixel (i, j) links to (ni, nj) through one of its first n offsets. */
  ghost predicate LinkedWithin(s: Scan, i: nat, j: nat, n: nat, ni: int, nj: int)
    requires n <= |s.offs|
  {
    (ni - i, nj - j) in s.offs[..n] && s.keep(s.wt(i, j, ni, nj))
  }

  /** Offset n - 1 is the link to (ni, nj) exactly when the first n offsets hold it and
      the first n - 1 do not. */
  lemma {:induction false} LinkedWithinStep(s: Scan, i: nat, j: nat, n: nat, ni: int, nj: int)
    requires 0 < n <= |s.offs| && DistinctOffsets(s.offs)
    ensures var hit := s.offs[n - 1] == (ni - i, nj - j) && s.keep(s.wt(i, j, ni, nj));
      (LinkedWithin(s, i, j, n, ni, nj) <==> LinkedWithin(s, i, j, n - 1, ni, nj) || hit) &&
      !(LinkedWithin(s, i, j, n - 1, ni, nj) && hit)
  {
    var o := s.offs[n - 1];
    assert s.offs[..n] == s.offs[..n - 1] + [o];
    if o == (ni - i, nj - j) {
      assert o !in s.offs[..n - 1];
    }
  }

  /** After its first n offsets, pixel (i, j) has stored one triplet at neighbour
      (ni, nj) exactly when that neighbour's offset is among them and its weight
      passes the filter. */
  lemma {:induction false} PixelCount(s: Scan, i: nat, j: nat, n: nat, ni: nat, nj: nat)
    requires n <= |s.offs| && DistinctOffsets(s.offs) && InBounds(s.h, s.w, ni, nj)
    ensures Tally(PixelEdges(s, i, j, n), AtTest(PixelIndex(s.w, i, j), PixelIndex(s.w, ni, nj))) ==
      if LinkedWithin(s, i, j, n, ni, nj) then 1 else 0
  {
    if n > 0 {
      var f := AtTest(PixelIndex(s.w, i, j), PixelIndex(s.w, ni, nj));
      var o := s.offs[n - 1];
      PixelCount(s, i, j, n - 1, ni, nj);
      TallyAppend(PixelEdges(s, i, j, n - 1), EdgeTo(s, i, j, o), f);
      EdgeEntry(s, i, j, o, ni, nj);
      LinkedWithinStep(s, i, j, n, ni, nj);
    }
  }

  /** The triplets pixel (i, j) stores at (ni, nj) after n offsets add up to the scan's
      weight when the two are linked, and to zero otherwise. */
  lemma {:induction false} PixelWeight(s: Scan, i: nat, j: nat, n: nat, ni: nat, nj: nat)
    requires n <= |s.offs| && DistinctOffsets(s.offs) && InBounds(s.h, s.w, ni, nj)
    ensures Total(PixelEdges(s, i, j, n), EntryTerm(PixelIndex(s.w, i, j), PixelIndex(s.w, ni, nj))) ==
      if LinkedWithin(s, i, j, n, ni, nj) then s.wt(i, j, ni, nj) else 0.0
  {
    if n > 0 {
      var f := EntryTerm(PixelIndex(s.w, i, j), PixelIndex(s.w, ni, nj));
      var o := s.offs[n - 1];
      PixelWeight(s, i, j, n - 1, ni, nj);
      TotalAppend(PixelEdges(s, i, j, n - 1), EdgeTo(s, i, j, o), f);
      EdgeEntry(s, i, j, o, ni, nj);
      LinkedWithinStep(s, i, j, n, ni, nj);
    }
  }

  /** Matrix entry (p, q) between two pixels: exactly one stored triplet, carrying the
      scan's weight, when the scan links them, and none otherwise. */
  lemma {:induction false} MatrixEntry(s: Scan, i: nat, j: nat, ni: nat, nj: nat)
    requires DistinctOffsets(s.offs)
    requires InBounds(s.h, s.w, i, j) && InBounds(s.h, s.w, ni, nj)
    ensures Count(AllEdges(s), PixelIndex(s.w, i, j), PixelIndex(s.w, ni, nj)) ==
      if Linked(s, i, j, ni, nj) then 1 else 0
    ensures Entry(AllEdges(s), PixelIndex(s.w, i, j), PixelIndex(s.w, ni, nj)) ==
      if Linked(s, i, j, ni, nj) then s.wt(i, j, ni, nj) else 0.0
  {
    var p, q := PixelIndex(s.w, i, j), PixelIndex(s.w, ni, nj);
    TallyOfPixel(s, i, j, AtTest(p, q));
    TotalOfPixel(s, i, j, EntryTerm(p, q));
    PixelCount(s, i, j, |s.offs|, ni, nj);
    PixelWeight(s, i, j, |s.offs|, ni, nj);
    assert s.offs[..|s.offs|] == s.offs;
  }

  /** When the offset list holds the offset between two pixels exactly when it holds
      the reverse offset, and the weight is symmetric, the matrix is symmetric at that
      pair: (p, q) is stored iff (q, p) is, with the same value. */
  lemma {:induction false} MatrixSymmetric(s: Scan, i: nat, j: nat, ni: nat, nj: nat)
    requires DistinctOffsets(s.offs) && SymmetricWeight(s)
    requires (ni - i, nj - j) in s.offs <==> (i - ni, j - nj) in s.offs
    requires InBounds(s.h, s.w, i, j) && InBounds(s.h, s.w, ni, nj)
    ensures Count(AllEdges(s), PixelIndex(s.w, i, j), PixelIndex(s.w, ni, nj)) ==
      Count(AllEdges(s), PixelIndex(s.w, ni, nj), PixelIndex(s.w, i, j))
    ensures Entry(AllEdges(s), PixelIndex(s.w, i, j), PixelIndex(s.w, ni, nj)) ==
      Entry(AllEdges(s), PixelIndex(s.w, ni, nj), PixelIndex(s.w, i, j))
  {
    MatrixEntry(s, i, j, ni, nj);
    MatrixEntry(s, ni, nj, i, j);
    assert s.wt(i, j, ni, nj) == s.wt(ni, nj, i, j);
  }

  /** Every triplet of the scan joins two pixels of the grid, and each row holds at
      most one triplet per offset. */
  lemma {:induction false} RowShape(s: Scan, i: nat, j: nat)
    requires InBounds(s.h, s.w, i, j)
    ensures RowLength(AllEdges(s), PixelIndex(s.w, i, j)) <= |s.offs|
  {
    var p := PixelIndex(s.w, i, j);
    TallyOfPixel(s, i, j, InRow(p));
    TallyAtMostLength(PixelEdges(s, i, j, |s.offs|), InRow(p));
    PixelEdgesTargets(s, i, j, |s.offs|);
  }

  lemma {:induction false} TallyAtMostLength(es: seq<Edge>, f: Edge -> bool)
    ensures Tally(es, f) <= |es|
  {
    if es != [] {
      TallyAtMostLength(es[..|es| - 1], f);
    }
  }

  lemma {:induction false} ScanTargets(s: Scan, m: nat)
    requires 0 < s.w
    ensures TargetsBelow(ScanEdges(s, m), s.h * s.w)
  {
    if m > 0 {
      var prev, block := ScanEdges(s, m - 1), Block(s, m - 1);
      assert TargetsBelow(prev, s.h * s.w) by { ScanTargets(s, m - 1); }
      assert TargetsBelow(block, s.h * s.w) by { BlockTargets(s, m - 1); }
      TargetsAppend(prev, block, s.h * s.w);
      assert ScanEdges(s, m) == prev + block;
    }
  }

  lemma {:induction false} BlockTargets(s: Scan, m: nat)
    requires 0 < s.w
    ensures TargetsBelow(Block(s, m), s.h * s.w)
  {
    PixelEdgesTargets(s, m / s.w, m % s.w, |s.offs|);
  }

  lemma {:induction false} TargetsAppend(a: seq<Edge>, b: seq<Edge>, n: nat)
    requires TargetsBelow(a, n) && TargetsBelow(b, n)
    ensures TargetsBelow(a + b, n)
  {
    assert forall k :: 0 <= k < |a + b| ==> (a + b)[k] == if k < |a| then a[k] else b[k - |a|];
  }

  /** Every column index the scan stores is a pixel index. */
  lemma {:induction false} AllTargets(s: Scan)
    ensures TargetsBelow(AllEdges(s), s.h * s.w)
  {
    if s.w > 0 {
      ScanTargets(s, s.h * s.w);
    }
  }

  lemma {:induction false} ScanSources(s: Scan, m: nat)
    requires 0 < s.w
    ensures forall k :: 0 <= k < |ScanEdges(s, m)| ==> ScanEdges(s, m)[k].src < m
  {
    if m > 0 {
      ScanSources(s, m - 1);
      BlockSource(s, m - 1);
      var a, b := ScanEdges(s, m - 1), Block(s, m - 1);
      assert forall k :: 0 <= k < |a + b| ==> (a + b)[k] == if k < |a| then a[k] else b[k - |a|];
    }
  }

  /** Every row index the scan stores is a pixel index. */
  lemma {:induction false} AllSources(s: Scan)
    ensures forall k :: 0 <= k < |AllEdges(s)| ==> AllEdges(s)[k].src < s.h * s.w
  {
    if s.w > 0 {
      ScanSources(s, s.h * s.w);
    }
  }

  // ---------------------------------------------------------------------------
  // Bounds on sums over triplets.

  lemma {:induction false} TotalMonotone(es: seq<Edge>, f: Edge -> real, g: Edge -> real)
    requires forall k :: 0 <= k < |es| ==> f(es[k]) <= g(es[k])
    ensures Total(es, f) <= Total(es, g)
  {
    if es != [] {
      TotalMonotone(es[..|es| - 1], f, g);
    }
  }

  lemma {:induction false} TotalScale(es: seq<Edge>, f: Edge -> real, g: Edge -> real, c: real)
    requires forall k :: 0 <= k < |es| ==> f(es[k]) == c * g(es[k])
    ensures Total(es, f) == c * Total(es, g)
  {
    if es != [] {
      TotalScale(es[..|es| - 1], f, g, c);
    }
  }

  /** f is g + c h on every triplet. */
  ghost predicate LinearTerms(es: seq<Edge>, f: Edge -> real, g: Edge -> real, h: Edge -> real, c: real)
  {
    forall k :: 0 <= k < |es| ==> f(es[k]) == g(es[k]) + c * h(es[k])
  }

  lemma {:induction false} TotalLinear(es: seq<Edge>, f: Edge -> real, g: Edge -> real, h: Edge -> real, c: real)
    requires LinearTerms(es, f, g, h, c)
    ensures Total(es, f) == Total(es, g) + c * Total(es, h)
  {
    if es != [] {
      var n := |es| - 1;
      var init := es[..n];
      assert LinearTerms(init, f, g, h, c) by {
        forall k | 0 <= k < |init|
          ensures f(init[k]) == g(init[k]) + c * h(init[k])
        {
          assert init[k] == es[k];
        }
      }
      TotalLinear(init, f, g, h, c);
      assert f(es[n]) == g(es[n]) + c * h(es[n]);
      Distribute(c, Total(init, h), h(es[n]));
    }
  }

  /** The sparse product is linear: `W @ (v + c u) == W @ v + c (W @ u)`. */
  lemma {:induction false} RowDotLinear(es: seq<Edge>, p: nat, c: real, u: seq<real>, v: seq<real>)
    requires |u| == |v|
    ensures RowDot(es, p, Axpy(c, u, v)) == RowDot(es, p, v) + c * RowDot(es, p, u)
  {
    DotTermsLinear(es, p, c, u, v);
    TotalLinear(es, DotTerm(p, Axpy(c, u, v)), DotTerm(p, v), DotTerm(p, u), c);
  }

  lemma {:induction false} DotTermsLinear(es: seq<Edge>, p: nat, c: real, u: seq<real>, v: seq<real>)
    requires |u| == |v|
    ensures LinearTerms(es, DotTerm(p, Axpy(c, u, v)), DotTerm(p, v), DotTerm(p, u), c)
  {
    forall k | 0 <= k < |es|
      ensures DotTerm(p, Axpy(c, u, v))(es[k]) == DotTerm(p, v)(es[k]) + c * DotTerm(p, u)(es[k])
    {
      DotTermLinear(es[k], p, c, u, v);
    }
  }

  lemma {:induction false} DotTermLinear(e: Edge, p: nat, c: real, u: seq<real>, v: seq<real>)
    requires |u| == |v|
    ensures DotTerm(p, Axpy(c, u, v))(e) == DotTerm(p, v)(e) + c * DotTerm(p, u)(e)
  {
    if e.src == p && e.dst < |v| {
      Distribute(e.weight, v[e.dst], c * u[e.dst]);
    }
  }

  ghost predicate NonNegativeWeights(es: seq<Edge>)
  {
    forall k :: 0 <= k < |es| ==> 0.0 <= es[k].weight
  }

  /** With non-negative weights an entry never exceeds its row sum. */
  lemma {:induction false} EntryAtMostRowSum(es: seq<Edge>, p: nat, q: nat)
    requires NonNegativeWeights(es)
    ensures 0.0 <= Entry(es, p, q) <= RowSum(es, p)
  {
    TotalMonotone(es, EntryTerm(p, q), RowTerm(p));
    TotalMonotone(es, (e: Edge) => 0.0, EntryTerm(p, q));
    TotalZeroTerm(es);
  }

  lemma {:induction false} TotalZeroTerm(es: seq<Edge>)
    ensures Total(es, (e: Edge) => 0.0) == 0.0
  {
    if es != [] {
      TotalZeroTerm(es[..|es| - 1]);
    }
  }

  /** Every triplet of row p points inside v, at a value in [lo, hi]: lo and hi bound the
      values of p's neighbours. */
  ghost predicate NeighboursWithin(es: seq<Edge>, p: nat, v: seq<real>, lo: real, hi: real)
  {
    forall k :: 0 <= k < |es| && es[k].src == p ==> es[k].dst < |v| && lo <= v[es[k].dst] <= hi
  }

  /** With non-negative weights, row p of W @ v lies between lo and hi times the row sum
      whenever lo and hi bound the values at p's neighbours. */
  lemma {:induction false} RowDotWithin(es: seq<Edge>, p: nat, v: seq<real>, lo: real, hi: real)
    requires NonNegativeWeights(es) && NeighboursWithin(es, p, v, lo, hi)
    ensures lo * RowSum(es, p) <= RowDot(es, p, v) <= hi * RowSum(es, p)
  {
    if es != [] {
      var n := |es| - 1;
      var e := es[n];
      assert NonNegativeWeights(es[..n]) && NeighboursWithin(es[..n], p, v, lo, hi);
      RowDotWithin(es[..n], p, v, lo, hi);
      if e.src == p {
        DotBoundsStep(lo, hi, RowSum(es[..n], p), RowDot(es[..n], p, v), e.weight, v[e.dst]);
      }
    }
  }

  /** With non-negative weights a row whose sum is zero holds only zero weights, so its
      product with any vector is zero. */
  lemma {:induction false} RowDotZeroSum(es: seq<Edge>, p: nat, v: seq<real>)
    requires NonNegativeWeights(es) && RowSum(es, p) == 0.0
    ensures RowDot(es, p, v) == 0.0
  {
    if es != [] {
      var n := |es| - 1;
      var e := es[n];
      assert NonNegativeWeights(es[..n]);
      TotalMonotone(es[..n], (e: Edge) => 0.0, RowTerm(p));
      TotalZeroTerm(es[..n]);
      assert RowSum(es[..n], p) == 0.0;
      RowDotZeroSum(es[..n], p, v);
    }
  }

  /** The degree is the row sum, so the Laplacian D - W maps every constant vector to
      zero. */
  lemma {:induction false} ConstantInKernel(es: seq<Edge>, p: nat, v: seq<real>, c: real)
    requires TargetsBelow(es, |v|) && Within(v, c, c) && p < |v|
    ensures RowDot(es, p, v) == c * RowSum(es, p)
    ensures RowSum(es, p) * v[p] - RowDot(es, p, v) == 0.0
  {
    TotalScale(es, DotTerm(p, v), RowTerm(p), c);
  }

  /** Every in-bounds pair gets a positive weight. */
  ghost predicate PositiveWeight(s: Scan)
  {
    forall i, j, ni, nj ::
      InBounds(s.h, s.w, i, j) && InBounds(s.h, s.w, ni, nj) ==> 0.0 < s.wt(i, j, ni, nj)
  }

  ghost predicate PositiveWeights(es: seq<Edge>)
  {
    forall k :: 0 <= k < |es| ==> 0.0 < es[k].weight
  }

  lemma {:induction false} PixelEdgesPositive(s: Scan, i: nat, j: nat, n: nat)
    requires n <= |s.offs| && PositiveWeight(s) && InBounds(s.h, s.w, i, j)
    ensures PositiveWeights(PixelEdges(s, i, j, n))
  {
    if n > 0 {
      PixelEdgesPositive(s, i, j, n - 1);
    }
  }

  lemma {:induction false} ScanPositive(s: Scan, m: nat)
    requires 0 < s.w && m <= s.h * s.w && PositiveWeight(s)
    ensures PositiveWeights(ScanEdges(s, m))
  {
    if m > 0 {
      ScanPositive(s, m - 1);
      BlockPositive(s, m - 1);
      PositiveAppend(ScanEdges(s, m - 1), Block(s, m - 1));
    }
  }

  lemma {:induction false} BlockPositive(s: Scan, m: nat)
    requires 0 < s.w && m < s.h * s.w && PositiveWeight(s)
    ensures PositiveWeights(Block(s, m))
  {
    PixelIndexOnto(s.h, s.w, m);
    PixelEdgesPositive(s, m / s.w, m % s.w, |s.offs|);
  }

  lemma {:induction false} PositiveAppend(a: seq<Edge>, b: seq<Edge>)
    requires PositiveWeights(a) && PositiveWeights(b)
    ensures PositiveWeights(a + b)
  {
    assert forall k :: 0 <= k < |a + b| ==> (a + b)[k] == if k < |a| then a[k] else b[k - |a|];
  }

  /** When every in-bounds pair has a positive weight, every stored triplet does. */
  lemma {:induction false} AllPositive(s: Scan)
    requires PositiveWeight(s)
    ensures PositiveWeights(AllEdges(s)) && NonNegativeWeights(AllEdges(s))
  {
    if s.w > 0 {
      ScanPositive(s, s.h * s.w);
    }
  }

  // ---------------------------------------------------------------------------
  // The scan written as the source's nested loops.

  /** The body of the offset loop: append the edge to the in-bounds neighbour when its
      weight passes the filter. */
  method VisitOffset(s: Scan, i: nat, j: nat, o: (int, int), edges: seq<Edge>) returns (extended: seq<Edge>)
    ensures extended == edges + EdgeTo(s, i, j, o)
  {
    var ni, nj := i + o.0, j + o.1;
    extended := edges;
    if 0 <= ni < s.h && 0 <= nj < s.w {
      var weight := s.wt(i, j, ni, nj);
      if s.keep(weight) {
        extended := extended + [Edge(PixelIndex(s.w, i, j), PixelIndex(s.w, ni, nj), weight)];
      }
    }
  }

  /** The loop over the offsets of pixel (i, j), in list order. */
  method VisitPixel(s: Scan, i: nat, j: nat) returns (edges: seq<Edge>)
    ensures edges == PixelEdges(s, i, j, |s.offs|)
  {
    edges := [];
    for k := 0 to |s.offs|
      invariant edges == PixelEdges(s, i, j, k)
    {
      edges := VisitOffset(s, i, j, s.offs[k], edges);
    }
  }

  /** The loop over j for row i: the row's edges follow those of the rows above. */
  method VisitRow(s: Scan, i: nat, edges: seq<Edge>) returns (extended: seq<Edge>)
    requires 0 < s.w ==> edges == ScanEdges(s, PixelIndex(s.w, i, 0))
    ensures 0 < s.w ==> extended == ScanEdges(s, PixelIndex(s.w, i + 1, 0))
    ensures s.w == 0 ==> extended == edges
  {
    extended := edges;
    ghost var m := PixelIndex(s.w, i, 0);
    for j := 0 to s.w
      invariant m == PixelIndex(s.w, i, j)
      invariant 0 < s.w ==> extended == ScanEdges(s, m)
      invariant s.w == 0 ==> extended == edges
    {
      var block := VisitPixel(s, i, j);
      extended := extended + block;
      ScanEdgesNext(s, i, j);
      m := m + 1;
    }
    NextRow(s.w, i);
  }

  /** The loops over i, j and the offsets: exactly the edges of the scan, in loop
      order. */
  method VisitAll(s: Scan) returns (edges: seq<Edge>)
    ensures edges == AllEdges(s)
  {
    edges := [];
    for i := 0 to s.h
      invariant 0 < s.w ==> edges == ScanEdges(s, PixelIndex(s.w, i, 0))
      invariant s.w == 0 ==> edges == []
    {
      edges := VisitRow(s, i, edges);
    }
  }
}
