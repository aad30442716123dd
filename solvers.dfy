/** The two iterative solvers of the accelerated denoiser, over the sparse affinity W
    (its triplets), the degree matrix D (its diagonal d) and the right-hand side b:
    preconditioned conjugate gradients with the Jacobi preconditioner D, and Nesterov's
    accelerated iteration. Arithmetic is exact; what a float64 division by zero would
    turn into inf or nan is reported as a failure instead. */
module Solvers {
  import opened Numeric
  import opened PixelGraph

  // ---------------------------------------------------------------------------
  // The Laplacian L = D - W and the diagonal solve.

  /** `(D - W) @ v` with D = diag(d) and W given by its triplets. */
  function Laplacian(es: seq<Edge>, d: seq<real>, v: seq<real>): (lv: seq<real>)
    requires |d| == |v|
    ensures |lv| == |v|
  {
    seq(|v|, p requires 0 <= p < |v| => d[p] * v[p] - RowDot(es, p, v))
  }

  /** L maps the zero vector to zero. */
  lemma {:induction false} LaplacianZero(es: seq<Edge>, d: seq<real>)
    ensures Laplacian(es, d, Zeros(|d|)) == Zeros(|d|)
  {
    var z := Zeros(|d|);
    forall p | 0 <= p < |d|
      ensures Laplacian(es, d, z)[p] == 0.0
    {
      TotalScale(es, DotTerm(p, z), RowTerm(p), 0.0);
    }
  }

  /** L is linear: `L @ (v + c u) == L @ v + c (L @ u)`. */
  lemma {:induction false} LaplacianLinear(es: seq<Edge>, d: seq<real>, c: real, u: seq<real>, v: seq<real>)
    requires |u| == |d| && |v| == |d|
    ensures Laplacian(es, d, Axpy(c, u, v)) == Axpy(c, Laplacian(es, d, u), Laplacian(es, d, v))
  {
    var a := Axpy(c, u, v);
    forall p | 0 <= p < |d|
      ensures Laplacian(es, d, a)[p] == Axpy(c, Laplacian(es, d, u), Laplacian(es, d, v))[p]
    {
      RowDotLinear(es, p, c, u, v);
      Distribute(d[p], v[p], c * u[p]);
    }
  }

  /** When d holds the row sums of W, L maps every constant vector to zero. */
  lemma {:induction false} LaplacianConstant(es: seq<Edge>, d: seq<real>, v: seq<real>, c: real)
    requires |d| == |v| && TargetsBelow(es, |v|) && Within(v, c, c)
    requires forall p :: 0 <= p < |d| ==> d[p] == RowSum(es, p)
    ensures Laplacian(es, d, v) == Zeros(|v|)
  {
    forall p | 0 <= p < |v|
      ensures Laplacian(es, d, v)[p] == 0.0
    {
      ConstantInKernel(es, p, v, c);
    }
  }

  /** D has no zero on its diagonal, so `spsolve(D, r)` is defined. */
  predicate Invertible(d: seq<real>)
  {
    forall k :: 0 <= k < |d| ==> d[k] != 0.0
  }

  /** `spla.spsolve(D, r)` for the diagonal D: the z with D z = r. */
  function DiagSolve(d: seq<real>, r: seq<real>): (z: seq<real>)
    requires |d| == |r| && Invertible(d)
    ensures |z| == |r| && forall k :: 0 <= k < |r| ==> d[k] * z[k] == r[k]
  {
    seq(|r|, k requires 0 <= k < |r| => r[k] / d[k])
  }

  /** The degrees of a bilateral graph are at least 1, so its D is invertible. */
  lemma {:induction false} DegreesInvertible(d: seq<real>)
    requires forall k :: 0 <= k < |d| ==> 1.0 <= d[k]
    ensures Invertible(d)
  {
  }

  // ---------------------------------------------------------------------------
  // Preconditioned conjugate gradients.

  /** The iterate x, the residual r, the preconditioned residual z, the search
      direction p and rs = r @ z carried from one pass to the next. */
  datatype Pcg = Pcg(x: seq<real>, r: seq<real>, z: seq<real>, p: seq<real>, rs: real)

  /** Where the loop stands: still running, stopped by the tolerance test, or broken
      down on a zero divisor. */
  datatype Outcome = Running(st: Pcg) | Stopped(st: Pcg) | Failed(msg: string)

  ghost predicate Shaped(st: Pcg, n: nat)
  {
    |st.x| == n && |st.r| == n && |st.z| == n && |st.p| == n
  }

  /** The state before the loop: x = 0, r = b - L x, z = D^-1 r, p = z, rs = r @ z. */
  function PcgStart(es: seq<Edge>, d: seq<real>, b: seq<real>): (st: Pcg)
    requires |d| == |b| && Invertible(d)
    ensures Shaped(st, |b|)
  {
    var x := Zeros(|b|);
    var r := Sub(b, Laplacian(es, d, x));
    var z := DiagSolve(d, r);
    Pcg(x, r, z, z, Dot(r, z))
  }

  /** Starting from x = 0, the first residual is b itself. */
  lemma {:induction false} PcgStartResidual(es: seq<Edge>, d: seq<real>, b: seq<real>)
    requires |d| == |b| && Invertible(d)
    ensures PcgStart(es, d, b).x == Zeros(|b|) && PcgStart(es, d, b).r == b
  {
    LaplacianZero(es, d);
  }

  /** One pass of the loop body. */
  function PcgPass(es: seq<Edge>, d: seq<real>, tol: real, st: Pcg): (o: Outcome)
    requires Invertible(d) && Shaped(st, |d|)
    ensures !o.Failed? ==> Shaped(o.st, |d|)
  {
    var ap := Laplacian(es, d, st.p);
    var pap := Dot(st.p, ap);
    if pap == 0.0 then Failed("p @ Ap is zero")
    else
      var alpha := st.rs / pap;
      var x := Axpy(alpha, st.p, st.x);
      var r := Axpy(-alpha, ap, st.r);
      var z := DiagSolve(d, r);
      var rsNew := Dot(r, z);
      if RootBelow(rsNew, tol) then Stopped(Pcg(x, r, z, st.p, st.rs))
      else if st.rs == 0.0 then Failed("rs_old is zero")
      else Running(Pcg(x, r, z, Axpy(rsNew / st.rs, st.p, z), rsNew))
  }

  /** The outcome after at most n passes from st0. */
  function PcgRun(es: seq<Edge>, d: seq<real>, tol: real, st0: Pcg, n: nat): (o: Outcome)
    requires Invertible(d) && Shaped(st0, |d|)
    ensures !o.Failed? ==> Shaped(o.st, |d|)
  {
    if n == 0 then Running(st0)
    else
      match PcgRun(es, d, tol, st0, n - 1)
      case Running(st) => PcgPass(es, d, tol, st)
      case o => o
  }

  /** `pcg_denoising(W, D, b, ..., tol, max_iter)`: x after the passes, clipped. */
  function PcgDenoise(es: seq<Edge>, d: seq<real>, b: seq<real>, tol: real, maxIter: nat): (res: Result<seq<real>>)
    requires |d| == |b|
  {
    if !Invertible(d) then Failure("D is singular")
    else
      match PcgRun(es, d, tol, PcgStart(es, d, b), maxIter)
      case Failed(msg) => Failure(msg)
      case o => Success(ClipVector(o.st.x))
  }

  /** Once the loop has stopped or failed, further passes change nothing: the `break`
      ends the iteration for good. */
  /** A running state takes one more pass. */
  lemma {:induction false} PcgRunNext(es: seq<Edge>, d: seq<real>, tol: real, st0: Pcg, n: nat)
    requires Invertible(d) && Shaped(st0, |d|)
    ensures var o := PcgRun(es, d, tol, st0, n);
      o.Running? ==> PcgRun(es, d, tol, st0, n + 1) == PcgPass(es, d, tol, o.st)
  {
  }

  lemma {:induction false} PcgRunSettled(es: seq<Edge>, d: seq<real>, tol: real, st0: Pcg, m: nat, n: nat)
    requires Invertible(d) && Shaped(st0, |d|) && m <= n
    requires !PcgRun(es, d, tol, st0, m).Running?
    ensures PcgRun(es, d, tol, st0, n) == PcgRun(es, d, tol, st0, m)
  {
    if m < n {
      PcgRunSettled(es, d, tol, st0, m, n - 1);
    }
  }

  /** The residual stays `b - L @ x`. */
  ghost predicate ResidualOf(es: seq<Edge>, d: seq<real>, b: seq<real>, st: Pcg)
    requires |d| == |b| && Shaped(st, |b|)
  {
    st.r == Sub(b, Laplacian(es, d, st.x))
  }

  /** `x += alpha p` together with `r -= alpha (L @ p)` keeps r the residual of x. */
  lemma {:induction false} PcgPassResidual(es: seq<Edge>, d: seq<real>, b: seq<real>, tol: real, st: Pcg)
    requires |d| == |b| && Invertible(d) && Shaped(st, |d|) && ResidualOf(es, d, b, st)
    ensures !PcgPass(es, d, tol, st).Failed? ==> ResidualOf(es, d, b, PcgPass(es, d, tol, st).st)
  {
    var ap := Laplacian(es, d, st.p);
    var pap := Dot(st.p, ap);
    if pap != 0.0 {
      var alpha := st.rs / pap;
      var x := Axpy(alpha, st.p, st.x);
      var r := Axpy(-alpha, ap, st.r);
      LaplacianLinear(es, d, alpha, st.p, st.x);
      var lx := Laplacian(es, d, x);
      forall k | 0 <= k < |b|
        ensures r[k] == Sub(b, lx)[k]
      {
      }
      assert r == Sub(b, lx);
    }
  }

  /** In exact arithmetic every iterate keeps r = b - L x. */
  lemma {:induction false} PcgResidual(es: seq<Edge>, d: seq<real>, b: seq<real>, tol: real, n: nat)
    requires |d| == |b| && Invertible(d)
    ensures !PcgRun(es, d, tol, PcgStart(es, d, b), n).Failed? ==>
              ResidualOf(es, d, b, PcgRun(es, d, tol, PcgStart(es, d, b), n).st)
  {
    var st0 := PcgStart(es, d, b);
    if n == 0 {
      PcgStartResidual(es, d, b);
      LaplacianZero(es, d);
    } else {
      PcgResidual(es, d, b, tol, n - 1);
      var o := PcgRun(es, d, tol, st0, n - 1);
      if o.Running? {
        PcgPassResidual(es, d, b, tol, o.st);
      }
    }
  }

  /** A successful result has one value per pixel, each in [0, 255]. */
  lemma {:induction false} PcgOutputRange(es: seq<Edge>, d: seq<real>, b: seq<real>, tol: real, maxIter: nat)
    requires |d| == |b|
    ensures PcgDenoise(es, d, b, tol, maxIter).Success? ==>
              |PcgDenoise(es, d, b, tol, maxIter).value| == |b| &&
              Within(PcgDenoise(es, d, b, tol, maxIter).value, 0.0, 255.0)
  {
  }

  /** `v += c u` in place. */
  method AddScaled(v: array<real>, c: real, u: seq<real>)
    requires v.Length == |u|
    modifies v
    ensures v[..] == Axpy(c, u, old(v[..]))
  {
    var k := 0;
    while k < v.Length
      invariant 0 <= k <= v.Length
      invariant v[k..] == old(v[k..])
      invariant forall l :: 0 <= l < k ==> v[l] == old(v[l]) + c * u[l]
    {
      v[k] := v[k] + c * u[k];
      k := k + 1;
    }
  }

  /** One pass of the loop body on the arrays x and r: `Ap = L @ p`,
      `alpha = rs_old / (p @ Ap)`, `x += alpha p`, `r -= alpha Ap`, `z = D^-1 r`,
      `rs_new = r @ z`, then the tolerance test and the new direction. */
  method PcgPassInPlace(es: seq<Edge>, d: seq<real>, tol: real, x: array<real>, r: array<real>,
                        z: seq<real>, p: seq<real>, rsOld: real)
    returns (o: Outcome)
    requires Invertible(d) && x != r && x.Length == |d| && r.Length == |d| && |z| == |d| && |p| == |d|
    modifies x, r
    ensures o == PcgPass(es, d, tol, Pcg(old(x[..]), old(r[..]), z, p, rsOld))
    ensures !o.Failed? ==> o.st.x == x[..] && o.st.r == r[..]
  {
    var ap := Laplacian(es, d, p);
    var pap := Dot(p, ap);
    if pap == 0.0 {
      return Failed("p @ Ap is zero");
    }
    var alpha := rsOld / pap;
    AddScaled(x, alpha, p);
    AddScaled(r, -alpha, ap);
    var z' := DiagSolve(d, r[..]);
    var rsNew := Dot(r[..], z');
    if RootBelow(rsNew, tol) {
      return Stopped(Pcg(x[..], r[..], z', p, rsOld));
    }
    if rsOld == 0.0 {
      return Failed("rs_old is zero");
    }
    o := Running(Pcg(x[..], r[..], z', Axpy(rsNew / rsOld, p, z'), rsNew));
  }

  /** The set-up before the loop: `x = zeros`, `r = b - L @ x`, `z = spsolve(D, r)`,
      `p = z`, `rs_old = r @ z`, with x and r fresh arrays. */
  method PcgInit(es: seq<Edge>, d: seq<real>, b: seq<real>)
    returns (x: array<real>, r: array<real>, z: seq<real>, p: seq<real>, rsOld: real)
    requires |d| == |b| && Invertible(d)
    ensures fresh(x) && fresh(r) && x != r
    ensures Pcg(x[..], r[..], z, p, rsOld) == PcgStart(es, d, b)
  {
    var n := |b|;
    x := new real[n](k => 0.0);
    var lx := Laplacian(es, d, x[..]);
    r := new real[n](k requires 0 <= k < n => b[k] - lx[k]);
    z := DiagSolve(d, r[..]);
    p := z;
    rsOld := Dot(r[..], z);
    assert x[..] == Zeros(n);
    assert r[..] == Sub(b, lx);
  }

  /** The `for i in range(max_iter)` loop: passes on x and r in place until the
      tolerance test breaks out, a divisor is zero, or max_iter passes are done. */
  method PcgLoop(es: seq<Edge>, d: seq<real>, tol: real, x: array<real>, r: array<real>,
                 z: seq<real>, p: seq<real>, rsOld: real, maxIter: nat)
    returns (o: Outcome)
    requires Invertible(d) && x != r && x.Length == |d| && r.Length == |d| && |z| == |d| && |p| == |d|
    modifies x, r
    ensures o == PcgRun(es, d, tol, Pcg(old(x[..]), old(r[..]), z, p, rsOld), maxIter)
    ensures !o.Failed? ==> o.st.x == x[..]
  {
    o := Running(Pcg(x[..], r[..], z, p, rsOld));
    ghost var st0 := o.st;
    var i := 0;
    while i < maxIter && o.Running?
      invariant 0 <= i <= maxIter
      invariant o == PcgRun(es, d, tol, st0, i)
      invariant !o.Failed? ==> o.st.x == x[..] && o.st.r == r[..]
    {
      PcgRunNext(es, d, tol, st0, i);
      o := PcgPassInPlace(es, d, tol, x, r, o.st.z, o.st.p, o.st.rs);
      i := i + 1;
    }
    if i < maxIter {
      PcgRunSettled(es, d, tol, st0, i, maxIter);
    }
  }

  /** `pcg_denoising`: x and r are arrays updated in place; z, p and rs_old are
      rebound each pass; the loop runs at most max_iter passes and breaks on the
      tolerance test. */
  method PcgDenoising(es: seq<Edge>, d: seq<real>, b: seq<real>, tol: real, maxIter: nat)
    returns (result: Result<seq<real>>)
    requires |d| == |b|
    ensures result == PcgDenoise(es, d, b, tol, maxIter)
  {
    if exists k :: 0 <= k < |d| && d[k] == 0.0 {
      return Failure("D is singular");
    }
    var x, r, z, p, rsOld := PcgInit(es, d, b);
    var o := PcgLoop(es, d, tol, x, r, z, p, rsOld, maxIter);
    if o.Failed? {
      result := Failure(o.msg);
    } else {
      result := Success(ClipVector(x[..]));
    }
  }

  // ---------------------------------------------------------------------------
  // Nesterov's accelerated iteration.

  /** The iterates x and y and the momentum parameter t. */
  datatype Momentum = Momentum(x: seq<real>, y: seq<real>, t: real)

  /** `t_new = (1 + sqrt(1 + 4 t^2)) / 2` grows by at least a half. */
  function NextT(sqrt: real -> real, t: real): (tNew: real)
    requires SqrtLike(sqrt) && 0.0 <= t
    ensures t + 0.5 <= tNew
  {
    SqrtAtLeast(sqrt, 1.0 + 4.0 * t * t, 2.0 * t);
    (1.0 + sqrt(1.0 + 4.0 * t * t)) / 2.0
  }

  /** `beta = (t - 1) / t_new` lies in [0, 1) once t >= 1. */
  lemma {:induction false} MomentumInUnit(sqrt: real -> real, t: real)
    requires SqrtLike(sqrt) && 1.0 <= t
    ensures 0.0 <= (t - 1.0) / NextT(sqrt, t) < 1.0
  {
    var tNew := NextT(sqrt, t);
    DivSign(t - 1.0, tNew);
    assert 1.0 - (t - 1.0) / tNew == (tNew - (t - 1.0)) / tNew;
    DivSign(tNew - (t - 1.0), tNew);
  }

  ghost predicate MomentumShaped(m: Momentum, n: nat)
  {
    |m.x| == n && |m.y| == n && 1.0 <= m.t
  }

  /** One pass: `x = y - (D - W) @ y`, then the momentum step
      `y = x + beta (x - x_old)`, then `t = t_new`. */
  function NesterovPass(es: seq<Edge>, d: seq<real>, sqrt: real -> real, m: Momentum): (next: Momentum)
    requires SqrtLike(sqrt) && MomentumShaped(m, |d|)
    ensures MomentumShaped(next, |d|) && m.t < next.t
  {
    var x := Sub(m.y, Laplacian(es, d, m.y));
    var tNew := NextT(sqrt, m.t);
    var beta := (m.t - 1.0) / tNew;
    Momentum(x, Axpy(beta, Sub(x, m.x), x), tNew)
  }

  /** The state after n passes from m. */
  function NesterovRun(es: seq<Edge>, d: seq<real>, sqrt: real -> real, m: Momentum, n: nat): (last: Momentum)
    requires SqrtLike(sqrt) && MomentumShaped(m, |d|)
    ensures MomentumShaped(last, |d|) && m.t <= last.t
    decreases n
  {
    if n == 0 then m else NesterovRun(es, d, sqrt, NesterovPass(es, d, sqrt, m), n - 1)
  }

  /** A pass from x = y = 0 stays at x = y = 0. */
  lemma {:induction false} NesterovPassZero(es: seq<Edge>, d: seq<real>, sqrt: real -> real, t: real)
    requires SqrtLike(sqrt) && 1.0 <= t
    ensures NesterovPass(es, d, sqrt, Momentum(Zeros(|d|), Zeros(|d|), t)).x == Zeros(|d|)
    ensures NesterovPass(es, d, sqrt, Momentum(Zeros(|d|), Zeros(|d|), t)).y == Zeros(|d|)
  {
    LaplacianZero(es, d);
  }

  /** From x = y = 0 the iterates never leave zero, whatever W, D and t. */
  lemma {:induction false} NesterovStaysZero(es: seq<Edge>, d: seq<real>, sqrt: real -> real, t: real, n: nat)
    requires SqrtLike(sqrt) && 1.0 <= t
    ensures NesterovRun(es, d, sqrt, Momentum(Zeros(|d|), Zeros(|d|), t), n).x == Zeros(|d|)
    decreases n
  {
    if n > 0 {
      var m := Momentum(Zeros(|d|), Zeros(|d|), t);
      NesterovPassZero(es, d, sqrt, t);
      var next := NesterovPass(es, d, sqrt, m);
      assert next == Momentum(Zeros(|d|), Zeros(|d|), next.t);
      NesterovStaysZero(es, d, sqrt, next.t, n - 1);
    }
  }

  /** The loop body of `nesterov_denoising`. */
  method NesterovStep(es: seq<Edge>, d: seq<real>, sqrt: real -> real, x: seq<real>, y: seq<real>, t: real)
    returns (x': seq<real>, y': seq<real>, t': real)
    requires SqrtLike(sqrt) && MomentumShaped(Momentum(x, y, t), |d|)
    ensures Momentum(x', y', t') == NesterovPass(es, d, sqrt, Momentum(x, y, t))
  {
    var xOld := x;
    x' := Sub(y, Laplacian(es, d, y));
    var tNew := NextT(sqrt, t);
    var beta := (t - 1.0) / tNew;
    y' := Axpy(beta, Sub(x', xOld), x');
    t' := tNew;
  }

  /** `nesterov_denoising`: max_iter passes from x = y = 0, t = 1, then x clipped.
      The result is the zero vector for every W, D, b and max_iter; b gives only the
      length. */
  method NesterovDenoising(es: seq<Edge>, d: seq<real>, b: seq<real>, sqrt: real -> real, maxIter: nat)
    returns (result: seq<real>)
    requires |d| == |b| && SqrtLike(sqrt)
    ensures result == ClipVector(NesterovRun(es, d, sqrt, Momentum(Zeros(|b|), Zeros(|b|), 1.0), maxIter).x)
    ensures result == Zeros(|b|)
  {
    var x := Zeros(|b|);
    var y := Zeros(|b|);
    var t := 1.0;
    ghost var m0 := Momentum(x, y, t);
    var k := 1;
    while k <= maxIter
      invariant 1 <= k <= maxIter + 1
      invariant MomentumShaped(Momentum(x, y, t), |d|)
      invariant NesterovRun(es, d, sqrt, m0, maxIter) == NesterovRun(es, d, sqrt, Momentum(x, y, t), maxIter + 1 - k)
    {
      x, y, t := NesterovStep(es, d, sqrt, x, y, t);
      k := k + 1;
    }
    NesterovStaysZero(es, d, sqrt, 1.0, maxIter);
    result := ClipVector(x);
  }
}
