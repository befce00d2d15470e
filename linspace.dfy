/** meshgen::linspace: evenly spaced samples, in exact real arithmetic.

    Three call shapes:
    - step form: fill a destination range [first, last) with start, start + step, ...;
    - count form: write n samples from start to end, with the step the two ends imply;
    - returning form: the same n samples, as a new sequence.
    A destination range is a C++ iterator pair over a vector or a pointer pair
    over a raw buffer; both are modelled as a range [first, last) of an array. */
module Linspace {

  /** The samples of the step form: element i is start + i * step. */
  function StepSeq(start: real, step: real, n: nat): seq<real>
  {
    seq(n, i => start + i as real * step)
  }

  /** The step the count form derives from its two ends: (end - start) / (n - 1).
      With fewer than two samples no division happens and the step is unused. */
  function ImpliedStep(start: real, end: real, n: nat): real
  {
    if n > 1 then (end - start) / (n - 1) as real else 0.0
  }

  /** Returning form linspace(start, end, n): n samples running from start to end. */
  function Linspace(start: real, end: real, n: nat): (r: seq<real>)
    ensures |r| == n
    ensures n >= 1 ==> r[0] == start
    ensures n >= 2 ==> r[n - 1] == end
    ensures forall i :: 0 <= i < n - 1 ==> r[i + 1] - r[i] == ImpliedStep(start, end, n)
  {
    var h := ImpliedStep(start, end, n);
    StepSeqSpacing(start, h, n);
    ImpliedStepSpansRange(start, end, n);
    StepSeq(start, h, n)
  }

  /** Consecutive samples of the step form differ by exactly the step. */
  lemma StepSeqSpacing(start: real, step: real, n: nat)
    ensures forall i :: 0 <= i < n - 1 ==> StepSeq(start, step, n)[i + 1] - StepSeq(start, step, n)[i] == step
  {
    var r := StepSeq(start, step, n);
    forall i | 0 <= i < n - 1
      ensures r[i + 1] - r[i] == step
    {
      assert (i + 1) as real * step == i as real * step + step;
    }
  }

  /** n - 1 implied steps cover the interval from start to end exactly. */
  lemma ImpliedStepSpansRange(start: real, end: real, n: nat)
    ensures n >= 2 ==> (n - 1) as real * ImpliedStep(start, end, n) == end - start
  {
  }

  /** Step form linspace(first, last, start, step): writes StepSeq(start, step, last - first)
      into a[first..last] by naive accumulation, and nothing outside that range. */
  method FillStep(a: array<real>, first: nat, last: nat, start: real, step: real)
    requires first <= last <= a.Length
    modifies a
    ensures a[first..last] == StepSeq(start, step, last - first)
    ensures a[..first] == old(a[..first]) && a[last..] == old(a[last..])
  {
    var i := first;
    var x := start;
    while i < last
      invariant first <= i <= last
      invariant x == start + (i - first) as real * step
      invariant forall j :: first <= j < i ==> a[j] == start + (j - first) as real * step
      invariant forall j :: 0 <= j < first ==> a[j] == old(a[j])
      invariant forall j :: last <= j < a.Length ==> a[j] == old(a[j])
    {
      a[i] := x;
      x := x + step;
      i := i + 1;
    }
    assert forall j :: 0 <= j < last - first ==> a[first..last][j] == StepSeq(start, step, last - first)[j];
  }

  /** Count form linspace(first, start, end, n): writes Linspace(start, end, n) into
      a[first..first + n] through the step form, and nothing else. The C++ form takes
      no end iterator: the caller guarantees room for n values. */
  method FillCount(a: array<real>, first: nat, start: real, end: real, n: nat)
    requires first + n <= a.Length
    modifies a
    ensures a[first..first + n] == Linspace(start, end, n)
    ensures a[..first] == old(a[..first]) && a[first + n..] == old(a[first + n..])
  {
    FillStep(a, first, first + n, start, ImpliedStep(start, end, n));
  }

  // Facts about multiplying by a positive step.

  lemma MulMonotone(a: real, b: real, h: real)
    requires a <= b && h > 0.0
    ensures a * h <= b * h
  {
  }

  lemma MulStrictMonotone(a: real, b: real, h: real)
    requires a < b && h > 0.0
    ensures a * h < b * h
  {
  }

  lemma MulCancel(a: real, b: real, h: real)
    requires a * h <= b * h && h > 0.0
    ensures a <= b
  {
  }

  lemma MulStrictCancel(a: real, b: real, h: real)
    requires a * h < b * h && h > 0.0
    ensures a < b
  {
  }

  lemma StepCountBounds(d: real, h: real, q: real, lo: real, hi: real)
    requires h > 0.0 && q == d / h && lo <= q < hi
    ensures lo * h <= d < hi * h
  {
    assert q * h == d;
    MulMonotone(lo, q, h);
    MulStrictMonotone(q, hi, h);
  }

  lemma MulDivCancel(m: real, h: real)
    requires m != 0.0
    ensures (m * h) / m == h
  {
  }

  /** The test's sample count N = static_cast<size_t>((x2 - x1) / h) + 1; the cast
      truncates, which is the floor for the non-negative quotient. */
  function NumPoints(x1: real, x2: real, h: real): (n: nat)
    requires h > 0.0 && x1 <= x2
    ensures n >= 1
    ensures (n - 1) as real * h <= x2 - x1 < n as real * h
  {
    var q := (x2 - x1) / h;
    var f := q.Floor;
    var n: nat := f + 1;
    StepCountBounds(x2 - x1, h, q, (n - 1) as real, n as real);
    n
  }

  /** When the interval is m whole steps long, the count form with the test's N
      writes exactly what the step form writes with that step. */
  lemma CountFormMatchesStepForm(x1: real, x2: real, h: real, m: nat)
    requires h > 0.0 && x2 - x1 == m as real * h
    ensures NumPoints(x1, x2, h) == m + 1
    ensures Linspace(x1, x2, m + 1) == StepSeq(x1, h, m + 1)
  {
    var n := NumPoints(x1, x2, h);
    CountOfWholeSteps(x2 - x1, h, m, n);
    ImpliedStepOfWholeSteps(x1, x2, h, m);
    assert Linspace(x1, x2, m + 1) == StepSeq(x1, ImpliedStep(x1, x2, m + 1), m + 1);
  }

  lemma CountOfWholeSteps(d: real, h: real, m: nat, n: nat)
    requires h > 0.0 && d == m as real * h
    requires n >= 1 && (n - 1) as real * h <= d < n as real * h
    ensures n == m + 1
  {
    MulCancel((n - 1) as real, m as real, h);
    MulStrictCancel(m as real, n as real, h);
  }

  lemma ImpliedStepOfWholeSteps(x1: real, x2: real, h: real, m: nat)
    requires x2 - x1 == m as real * h
    ensures m == 0 || ImpliedStep(x1, x2, m + 1) == h
  {
    if m > 0 {
      var d := (m + 1 - 1) as real;
      assert d == m as real && ImpliedStep(x1, x2, m + 1) == (x2 - x1) / d;
      MulDivCancel(d, h);
    }
  }

  /** The test's step-form scenario: start 0.0, step 0.1, six samples. */
  lemma StepFormExample()
    ensures StepSeq(0.0, 0.1, 6) == [0.0, 0.1, 0.2, 0.3, 0.4, 0.5]
  {
  }

  /** The test's count-form and returning-form scenario: from 0.0 to 0.5 with
      N = (0.5 - 0.0) / 0.1 + 1 samples. */
  lemma CountFormExample()
    ensures NumPoints(0.0, 0.5, 0.1) == 6
    ensures Linspace(0.0, 0.5, 6) == [0.0, 0.1, 0.2, 0.3, 0.4, 0.5]
  {
    CountFormMatchesStepForm(0.0, 0.5, 0.1, 5);
    StepFormExample();
  }

  /** The test fills a whole vector (iterator pair) and a separate raw buffer
      (pointer pair) of the same length with the same parameters: both get the
      same samples. */
  method StepFormDestinationsAgree(v: array<real>, p: array<real>, start: real, step: real)
    requires v != p && v.Length == p.Length
    modifies v, p
    ensures v[..] == p[..] == StepSeq(start, step, v.Length)
  {
    FillStep(v, 0, v.Length, start, step);
    FillStep(p, 0, p.Length, start, step);
    assert v[..] == v[0..v.Length];
    assert p[..] == p[0..p.Length];
  }

  /** The test writes n samples through the count form into a vector and into
      a raw buffer, and asks the returning form for them: all three agree. */
  method CountFormDestinationsAgree(v: array<real>, p: array<real>, start: real, end: real, n: nat)
    returns (ret: seq<real>)
    requires v != p && n <= v.Length && n <= p.Length
    modifies v, p
    ensures v[..n] == p[..n] == ret == Linspace(start, end, n)
    ensures v[n..] == old(v[n..]) && p[n..] == old(p[n..])
  {
    FillCount(v, 0, start, end, n);
    FillCount(p, 0, start, end, n);
    ret := Linspace(start, end, n);
    assert v[..n] == v[0..n];
    assert p[..n] == p[0..n];
  }
}
