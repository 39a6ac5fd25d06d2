/**
 Fixed-point CPU clock of gettime.c: the parameters computed at the end of
 `calibrate_cpu_clock` and the tick-to-nanosecond conversion of `__fio_gettime`.
 Numbers are unbounded here; that every intermediate value fits the 64 bits of
 the source is part of what is proved.
 */
module CpuClock {
  import opened Bits

  const U64_MAX: nat := 0xffff_ffff_ffff_ffff

  /** Ticks in MAX_CLOCK_SEC (one hour) per unit of cycles_per_msec. */
  const TICKS_FACTOR: nat := 3600 * 1000

  const NSEC_PER_MSEC: nat := 1_000_000
  const NSEC_PER_SEC: nat := 1_000_000_000

  /** clock_mult, clock_shift, max_cycles_shift, max_cycles_mask, nsecs_for_max_cycles */
  datatype Params = Params(mult: nat, shift: nat, cyclesShift: nat, mask: nat, nsecsForMax: nat)

  /** What the conversion relies on. */
  ghost predicate Usable(p: Params) {
    && p.mask == Pow2(p.cyclesShift) - 1
    && p.nsecsForMax == Shr(Pow2(p.cyclesShift) * p.mult, p.shift)
    && Pow2(p.cyclesShift) * p.mult <= U64_MAX
  }

  /** The design comments: the largest multiplier that cannot overflow within an
      hour of ticks, the greatest power of two within that hour, and products that
      fit 64 bits on the way. */
  ghost predicate Calibrated(p: Params, cyclesPerMsec: nat)
    requires cyclesPerMsec > 0
  {
    var maxTicks := TICKS_FACTOR * cyclesPerMsec;
    var maxMult := U64_MAX / maxTicks;
    && Usable(p)
    && maxMult * cyclesPerMsec <= U64_MAX && Pow2(p.shift) * NSEC_PER_MSEC <= U64_MAX
    && Pow2(p.shift) <= maxMult * cyclesPerMsec / NSEC_PER_MSEC < Pow2(p.shift + 1)
    && p.mult <= maxMult
    && p.mult * cyclesPerMsec <= Pow2(p.shift) * NSEC_PER_MSEC < (p.mult + 1) * cyclesPerMsec
    && Pow2(p.cyclesShift) <= maxTicks < Pow2(p.cyclesShift + 1)
  }

  // ---------------------------------------------------------------- arithmetic

  lemma FloorBounds(x: nat, d: nat)
    requires d > 0
    ensures (x / d) * d <= x < (x / d + 1) * d
  {
    var r := Floor(x, d);
  }

  lemma FloorMonotone(a: nat, b: nat, d: nat)
    requires d > 0 && a <= b
    ensures a / d <= b / d
  {
    FloorBounds(b, d);
    FloorBounds(a, d);
    if a / d >= b / d + 1 { Scale(b / d + 1, a / d, d); }
  }

  function Ceil(m: nat, d: nat): nat
    requires d > 0
  {
    (m + d - 1) / d
  }

  lemma FloorStep(x: nat, m: nat, d: nat)
    requires d > 0
    ensures x / d <= (x + m) / d <= x / d + Ceil(m, d)
  {
    FloorMonotone(x, x + m, d);
    FloorBounds(x, d);
    FloorBounds(m + d - 1, d);
    var a, c := x / d, Ceil(m, d);
    assert m <= c * d;
    var over := x + m - (a + c) * d;
    assert (a + c) * d == a * d + c * d;
    assert x + m < (a + c + 1) * d by { assert (a + c + 1) * d == a * d + c * d + d; }
    FloorBounds(x + m, d);
    if (x + m) / d >= a + c + 1 { Scale(a + c + 1, (x + m) / d, d); }
  }

  // --------------------------------------------------------------- calibration

  lemma FactorOut(m: nat, c: nat)
    ensures m * (TICKS_FACTOR * c) == TICKS_FACTOR * (m * c)
    ensures (m + 1) * (TICKS_FACTOR * c) == TICKS_FACTOR * (m * c) + TICKS_FACTOR * c
  {
  }

  lemma AtLeastOnce(m: nat, c: nat)
    requires m >= 1
    ensures c <= m * c
  {
    Scale(1, m, c);
  }

  /** The shift search always starts from a positive value: maxMult is the floor of
      the largest 64-bit number by the ticks of an hour. */
  lemma SearchStart(cpm: nat, maxMult: nat)
    requires 1 <= cpm && TICKS_FACTOR * cpm <= U64_MAX
    requires maxMult * (TICKS_FACTOR * cpm) <= U64_MAX < (maxMult + 1) * (TICKS_FACTOR * cpm)
    ensures NSEC_PER_MSEC <= maxMult * cpm <= U64_MAX
  {
    FactorOut(maxMult, cpm);
    if maxMult >= 1 { AtLeastOnce(maxMult, cpm); }
  }

  /** The multiplier, the floor of s * 10^6 by cpm, stays within its cap. */
  lemma MultWithinCap(cpm: nat, maxMult: nat, s: nat, mult: nat)
    requires cpm > 0 && s * NSEC_PER_MSEC <= maxMult * cpm && mult * cpm <= s * NSEC_PER_MSEC
    ensures mult <= maxMult
  {
    if mult >= maxMult + 1 {
      Scale(maxMult + 1, mult, cpm);
      Succ(maxMult, cpm);
    }
  }

  lemma ProductWithin(a: nat, b: nat, c: nat, d: nat)
    requires a <= c && b <= d
    ensures a * b <= c * d
  {
    Scale(a, c, b);
    assert c * b <= c * d by { Scale(b, d, c); }
  }

  lemma CapFits(a: nat, x: nat, ticks: nat, cap: nat)
    requires a <= ticks && x <= cap && cap * ticks <= U64_MAX
    ensures a * x <= U64_MAX
  {
    ProductWithin(a, x, ticks, cap);
  }

  /** Every product of the calibration fits 64 bits, for whatever power of two s the
      search settles on and whatever block of a ticks within the hour. */
  lemma ProductsFit(cpm: nat, maxMult: nat, s: nat, mult: nat, a: nat)
    requires 1 <= cpm && maxMult * (TICKS_FACTOR * cpm) <= U64_MAX
    requires s * NSEC_PER_MSEC <= maxMult * cpm && mult * cpm <= s * NSEC_PER_MSEC && a <= TICKS_FACTOR * cpm
    ensures maxMult * cpm <= U64_MAX && s * NSEC_PER_MSEC <= U64_MAX
    ensures mult <= maxMult && a * mult <= U64_MAX
  {
    MultWithinCap(cpm, maxMult, s, mult);
    CapFits(a, mult, TICKS_FACTOR * cpm, maxMult);
    FactorOut(maxMult, cpm);
  }

  /** The integer part of `calibrate_cpu_clock`, for every rate whose hour of ticks
      fits 64 bits. */
  method Calibrate(cyclesPerMsec: nat) returns (p: Params)
    requires 1 <= cyclesPerMsec && TICKS_FACTOR * cyclesPerMsec <= U64_MAX
    ensures Calibrated(p, cyclesPerMsec)
  {
    var maxTicks := TICKS_FACTOR * cyclesPerMsec;
    var maxMult := Floor(U64_MAX, maxTicks);
    SearchStart(cyclesPerMsec, maxMult);
    var start := Floor(maxMult * cyclesPerMsec, NSEC_PER_MSEC);
    var sft := FloorLog2(start);
    var cyclesShift := FloorLog2(maxTicks);
    var mult := Floor(Pow2(sft) * NSEC_PER_MSEC, cyclesPerMsec);
    ProductsFit(cyclesPerMsec, maxMult, Pow2(sft), mult, Pow2(cyclesShift));
    var nsecs := Shr(Pow2(cyclesShift) * mult, sft);
    var mask := LowMask(cyclesShift);
    p := Params(mult, sft, cyclesShift, mask, nsecs);
  }

  // ---------------------------------------------------------------- conversion

  /** `multiples * nsecs_for_max_cycles + (((t & mask) * mult) >> shift)` */
  function ToNsecs(p: Params, t: nat): nat {
    Shr(t, p.cyclesShift) * p.nsecsForMax + Shr(And(t, p.mask) * p.mult, p.shift)
  }

  lemma Split(p: Params, t: nat)
    requires Usable(p)
    ensures And(t, p.mask) == t % Pow2(p.cyclesShift) < Pow2(p.cyclesShift)
    ensures t == Shr(t, p.cyclesShift) * Pow2(p.cyclesShift) + And(t, p.mask)
  {
    var A := Pow2(p.cyclesShift);
    AndMask(t, p.cyclesShift);
    DivMod(t, A);
    assert Shr(t, p.cyclesShift) == t / A;
  }

  lemma DivMod(x: nat, d: nat)
    requires d > 0
    ensures x == (x / d) * d + x % d && x % d < d
  {
  }

  /** The product inside the conversion fits 64 bits for every t. */
  lemma RemainderProductFits(p: Params, t: nat)
    requires Usable(p)
    ensures And(t, p.mask) * p.mult <= U64_MAX
  {
    Split(p, t);
    Scale(And(t, p.mask), Pow2(p.cyclesShift), p.mult);
  }

  /** The result never exceeds t * mult / 2^shift and lags behind it by less than
      one nanosecond per completed block plus one. */
  lemma ConversionBounds(p: Params, t: nat)
    requires Usable(p)
    ensures ToNsecs(p, t) * Pow2(p.shift) <= t * p.mult
    ensures t * p.mult < (ToNsecs(p, t) + Shr(t, p.cyclesShift) + 1) * Pow2(p.shift)
  {
    var b, r := Shr(t, p.cyclesShift), And(t, p.mask);
    assert t == b * Pow2(p.cyclesShift) + r by { Split(p, t); }
    BlocksOf(t, b, Pow2(p.cyclesShift), r, p.mult, p.nsecsForMax, Shr(r * p.mult, p.shift), Pow2(p.shift));
  }

  lemma BlocksOf(t: nat, b: nat, A: nat, r: nat, m: nat, f: nat, g: nat, S: nat)
    requires t == b * A + r && f * S <= A * m < (f + 1) * S && g * S <= r * m < (g + 1) * S
    ensures (b * f + g) * S <= t * m < (b * f + g + b + 1) * S
  {
    Blocks(b, A * m, r * m, f, g, S);
    Distribute(b, A, r, m);
  }

  lemma Distribute(b: nat, A: nat, r: nat, m: nat)
    ensures (b * A + r) * m == b * (A * m) + r * m
  {
  }

  /** b blocks of x and a rest y, each rounded down to multiples of S. */
  lemma Blocks(b: nat, x: nat, y: nat, f: nat, g: nat, S: nat)
    requires f * S <= x < (f + 1) * S && g * S <= y < (g + 1) * S
    ensures (b * f + g) * S <= b * x + y < (b * f + g + b + 1) * S
  {
    Scale(f * S, x, b);
    Scale(x, (f + 1) * S, b);
    SumScaled(b, f, g, S);
  }

  lemma SumScaled(b: nat, f: nat, g: nat, S: nat)
    ensures (b * f + g) * S == (f * S) * b + g * S
    ensures (b * f + g + b + 1) * S == ((f + 1) * S) * b + (g + 1) * S
  {
    assert (b * f + g) * S == b * f * S + g * S;
    assert ((f + 1) * S) * b == f * S * b + S * b;
    assert (b * f + g + b + 1) * S == b * f * S + g * S + b * S + S;
  }

  lemma NextTick(t: nat, A: nat)
    requires A > 0
    ensures if t % A + 1 < A then (t + 1) / A == t / A && (t + 1) % A == t % A + 1
            else (t + 1) / A == t / A + 1 && (t + 1) % A == 0
  {
    assert t == (t / A) * A + t % A;
    if t % A + 1 < A {
      DivModUnique(t + 1, A, t / A, t % A + 1);
    } else {
      assert t + 1 == (t / A + 1) * A;
      DivModUnique(t + 1, A, t / A + 1, 0);
    }
  }

  /** The next tick, in terms of this tick's block: a completed block converts to
      exactly what its ticks would. */
  lemma NextNsecs(p: Params, t: nat)
    requires Usable(p)
    ensures ToNsecs(p, t + 1) ==
            Shr(t, p.cyclesShift) * p.nsecsForMax + Shr((t % Pow2(p.cyclesShift) + 1) * p.mult, p.shift)
  {
    var A, b, r := Pow2(p.cyclesShift), Shr(t, p.cyclesShift), t % Pow2(p.cyclesShift);
    Split(p, t + 1);
    NextTick(t, A);
    if r + 1 == A {
      assert And(t + 1, p.mask) * p.mult == 0;
      assert Shr(0, p.shift) == 0 by { DivModUnique(0, Pow2(p.shift), 0, 0); }
      Succ(b, p.nsecsForMax);
    }
  }

  /** One tick never moves the time back and never moves it by more than the
      rounded-up tick length, also across a block boundary. */
  lemma TickStep(p: Params, t: nat)
    requires Usable(p)
    ensures ToNsecs(p, t) <= ToNsecs(p, t + 1) <= ToNsecs(p, t) + Ceil(p.mult, Pow2(p.shift))
  {
    var r := t % Pow2(p.cyclesShift);
    assert ToNsecs(p, t) == Shr(t, p.cyclesShift) * p.nsecsForMax + Shr(r * p.mult, p.shift) by { Split(p, t); }
    NextNsecs(p, t);
    Succ(r, p.mult);
    FloorStep(r * p.mult, p.mult, Pow2(p.shift));
  }

  lemma Succ(r: nat, m: nat)
    ensures (r + 1) * m == r * m + m
  {
  }

  lemma {:induction false} ConversionMonotone(p: Params, t: nat, u: nat)
    requires Usable(p) && t <= u
    ensures ToNsecs(p, t) <= ToNsecs(p, u)
    decreases u
  {
    if t < u {
      ConversionMonotone(p, t, u - 1);
      TickStep(p, u - 1);
    }
  }

  /** A calibrated clock never runs ahead of real time: the result is at most
      t ticks at cyclesPerMsec. */
  lemma NeverFast(p: Params, cyclesPerMsec: nat, t: nat)
    requires cyclesPerMsec > 0 && Calibrated(p, cyclesPerMsec)
    ensures ToNsecs(p, t) * cyclesPerMsec <= t * NSEC_PER_MSEC
  {
    ConversionBounds(p, t);
    Chain(ToNsecs(p, t), Pow2(p.shift), t, p.mult, cyclesPerMsec, NSEC_PER_MSEC);
  }

  lemma Chain(n: nat, S: nat, t: nat, m: nat, c: nat, k: nat)
    requires S > 0 && n * S <= t * m && m * c <= S * k
    ensures n * c <= t * k
  {
    Scale(n * S, t * m, c);
    Scale(m * c, S * k, t);
    assert (n * S) * c == S * (n * c);
    assert (t * m) * c == (m * c) * t;
    assert (S * k) * t == S * (t * k);
    Cancel(S, n * c, t * k);
  }

  /** Nor does it fall behind by more than one nanosecond per completed block, one for
      the rest, and t / 2^shift for the rounding of the multiplier. */
  lemma NeverSlow(p: Params, cyclesPerMsec: nat, t: nat)
    requires cyclesPerMsec > 0 && t > 0 && Calibrated(p, cyclesPerMsec)
    ensures t * NSEC_PER_MSEC * Pow2(p.shift)
          < (ToNsecs(p, t) + Shr(t, p.cyclesShift) + 1) * cyclesPerMsec * Pow2(p.shift) + t * cyclesPerMsec
  {
    ConversionBounds(p, t);
    LagChain(ToNsecs(p, t) + Shr(t, p.cyclesShift) + 1, Pow2(p.shift), t, p.mult, cyclesPerMsec, NSEC_PER_MSEC);
  }

  lemma LagChain(n: nat, S: nat, t: nat, m: nat, c: nat, k: nat)
    requires t > 0 && c > 0 && t * m < n * S && S * k < (m + 1) * c
    ensures t * k * S < n * c * S + t * c
  {
    Scale(S * k + 1, (m + 1) * c, t);
    Scale(t * m + 1, n * S, c);
    assert (S * k + 1) * t == t * k * S + t;
    assert ((m + 1) * c) * t == (t * m) * c + t * c;
    assert (t * m + 1) * c == (t * m) * c + c;
    assert (n * S) * c == n * c * S;
  }

  lemma Cancel(S: nat, x: nat, y: nat)
    requires S > 0 && S * x <= S * y
    ensures x <= y
  {
    if x > y { Scale(y + 1, x, S); }
  }

  /** The 64-bit sum cannot wrap while t * mult / 2^shift fits 64 bits. */
  lemma NoWrap(p: Params, t: nat)
    requires Usable(p) && t * p.mult < (U64_MAX + 1) * Pow2(p.shift)
    ensures ToNsecs(p, t) <= U64_MAX
  {
    ConversionBounds(p, t);
    if ToNsecs(p, t) >= U64_MAX + 1 { Scale(U64_MAX + 1, ToNsecs(p, t), Pow2(p.shift)); }
  }

  lemma ModAdd(x: nat, y: nat, M: nat)
    requires M > 0
    ensures (x % M + y) % M == (x + y) % M
  {
    var q, q2, r2 := x / M, (x % M + y) / M, (x % M + y) % M;
    assert x + y == (q + q2) * M + r2 by { assert (q + q2) * M == q * M + q2 * M; }
    DivModUnique(x + y, M, q + q2, r2);
  }

  /** Unsigned 64-bit arithmetic. */
  function Wrap64(x: int): nat {
    x % (U64_MAX + 1)
  }

  lemma WrapSum(x: nat, y: nat)
    ensures Wrap64(Wrap64(x) + y) == Wrap64(x + y)
  {
    ModAdd(x, y, U64_MAX + 1);
  }

  /** The 64-bit sum of a 64-bit product and a smaller number. */
  method AddWrapped(product: nat, y: nat) returns (sum: nat)
    ensures sum == Wrap64(product + y)
  {
    sum := Wrap64(Wrap64(product) + y);
    WrapSum(product, y);
  }

  method MaskedProduct(p: Params, t: nat) returns (product: nat)
    requires Usable(p)
    ensures product == And(t, p.mask) * p.mult
  {
    product := Wrap64(And(t, p.mask) * p.mult);
    RemainderProductFits(p, t);
  }

  method Convert(p: Params, t: nat) returns (nsecs: nat)
    requires Usable(p)
    ensures nsecs == Wrap64(ToNsecs(p, t))
  {
    var whole := Shr(t, p.cyclesShift) * p.nsecsForMax;
    var product := MaskedProduct(p, t);
    var part := Shr(product, p.shift);
    nsecs := AddWrapped(whole, part);
  }

  /** The CS_CPUCLOCK branch, with the wrapping subtraction of the start tick. */
  method GetTime(p: Params, cyclesStart: nat, clock: nat) returns (sec: nat, nsec: nat)
    requires Usable(p) && cyclesStart <= U64_MAX && clock <= U64_MAX
    ensures nsec < NSEC_PER_SEC
    ensures sec * NSEC_PER_SEC + nsec == Wrap64(ToNsecs(p, Wrap64(clock - cyclesStart)))
  {
    var nsecs := Convert(p, Wrap64(clock - cyclesStart));
    sec, nsec := ToSeconds(nsecs);
  }

  method ToSeconds(nsecs: nat) returns (sec: nat, nsec: nat)
    ensures nsec < NSEC_PER_SEC && sec * NSEC_PER_SEC + nsec == nsecs
  {
    sec, nsec := nsecs / NSEC_PER_SEC, nsecs % NSEC_PER_SEC;
  }
}
