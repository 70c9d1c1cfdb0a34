/** Mount and unmount progress (src/array_components/array_mount_progress.cpp), in 32-bit arithmetic. */
module MountProgress {
  import opened Int32

  /** Division that truncates toward zero. */
  function Quotient(a: int, b: int): int
    requires b != 0
  {
    var q := (if a < 0 then -a else a) / (if b < 0 then -b else b);
    if (a < 0) == (b < 0) then q else -q
  }

  /** ArrayMountProgress::Get. */
  function Percent(progress: int, total: int): int {
    if progress < 0 || total == 0 then progress else Quotient(Wrap32(progress * 100), total)
  }

  function Sum(xs: seq<nat>): nat {
    if xs == [] then 0 else Sum(xs[..|xs| - 1]) + xs[|xs| - 1]
  }

  /** What is reported from Set on: 0 first, then after each update the share of the estimates seen so far. */
  function Reports(total: int, updates: seq<nat>): seq<int> {
    seq(|updates| + 1, k requires 0 <= k <= |updates| => Percent(Wrap32(Sum(updates[..k])), total))
  }

  /** One more update adds one more report. */
  lemma ReportsPush(total: int, updates: seq<nat>, x: nat)
    ensures Reports(total, updates + [x]) == Reports(total, updates) + [Percent(Wrap32(Sum(updates) + x), total)]
  {
    hide Percent, Wrap32;
    var more := updates + [x];
    assert more[..|more|] == more && more[..|more| - 1] == updates;
    assert forall k :: 0 <= k <= |updates| ==> more[..k] == updates[..k];
  }

  lemma WrapAdd(a: int, b: int)
    ensures Wrap32(Wrap32(a) + b) == Wrap32(a + b)
  {
  }

  lemma {:induction false} SumMonotone(xs: seq<nat>, a: nat, b: nat)
    requires a <= b <= |xs|
    ensures Sum(xs[..a]) <= Sum(xs[..b])
    decreases b
  {
    if a < b {
      assert xs[..b][..b - 1] == xs[..b - 1];
      SumMonotone(xs, a, b - 1);
    }
  }

  lemma {:induction false} SumAppend(xs: seq<nat>, ys: seq<nat>)
    ensures Sum(xs + ys) == Sum(xs) + Sum(ys)
    decreases ys
  {
    if ys == [] {
      assert xs + ys == xs;
    } else {
      assert (xs + ys)[..|xs + ys| - 1] == xs + ys[..|ys| - 1];
      SumAppend(xs, ys[..|ys| - 1]);
    }
  }

  lemma MulMonotone(x: nat, y: nat, t: nat)
    requires x <= y
    ensures x * t <= y * t
  {
  }

  lemma DivBounds(a: nat, t: nat)
    requires t > 0
    ensures (a / t) * t <= a < (a / t) * t + t
  {
    assert a == (a / t) * t + a % t;
  }

  /** `q` is the quotient of `a` by `t` when `a` lies between `q * t` and the next multiple. */
  lemma DivUnique(a: nat, t: nat, q: nat)
    requires t > 0 && q * t <= a < q * t + t
    ensures a / t == q
  {
    DivBounds(a, t);
    if a / t > q {
      MulMonotone(q + 1, a / t, t);
    } else if a / t < q {
      MulMonotone(a / t + 1, q, t);
    }
  }

  lemma DivMonotone(a: nat, b: nat, t: nat)
    requires a <= b && t > 0
    ensures a / t <= b / t
  {
    DivBounds(a, t);
    DivBounds(b, t);
    if a / t > b / t {
      MulMonotone(b / t + 1, a / t, t);
    }
  }

  lemma WrapFacts(x: nat)
    ensures x <= INT32_MAX ==> Wrap32(x) == x
    ensures x > INT32_MAX ==> Wrap32(x) < x
  {
  }

  lemma QuotientBelow(w: int, t: nat, q: nat)
    requires t > 0 && w < q * t
    ensures Quotient(w, t) < q || q == 0
  {
    if w >= 0 {
      DivBounds(w, t);
      if w / t >= q {
        MulMonotone(q, w / t, t);
      }
    } else {
      DivBounds(-w, t);
    }
  }

  lemma PercentExact(p: nat, total: nat)
    requires p <= total && 0 < total && total * 100 <= INT32_MAX
    ensures Percent(p, total) == p * 100 / total
    ensures 0 <= Percent(p, total) <= 100
  {
    hide Wrap32;
    WrapFacts(p * 100);
    DivMonotone(p * 100, 100 * total, total);
    DivUnique(100 * total, total, 100);
  }

  /**
   For any estimates whose total, times 100, fits a 32-bit integer: the reports never decrease and stay within
   0..100.
   */
  lemma ReportsMonotone(total: nat, updates: seq<nat>)
    requires 0 < total && total * 100 <= INT32_MAX && Sum(updates) <= total
    ensures var r := Reports(total, updates);
            && (forall k :: 0 <= k < |r| ==> 0 <= r[k] <= 100)
            && (forall a, b :: 0 <= a <= b < |r| ==> r[a] <= r[b])
  {
    hide Wrap32, Percent;
    var r := Reports(total, updates);
    assert updates[..|updates|] == updates;
    forall a, b | 0 <= a <= b < |r| ensures 0 <= r[a] <= r[b] <= 100 {
      SumMonotone(updates, a, b);
      SumMonotone(updates, b, |updates|);
      WrapFacts(Sum(updates[..a]));
      WrapFacts(Sum(updates[..b]));
      PercentExact(Sum(updates[..a]), total);
      PercentExact(Sum(updates[..b]), total);
      DivMonotone(Sum(updates[..a]) * 100, Sum(updates[..b]) * 100, total);
    }
    forall k | 0 <= k < |r| ensures 0 <= r[k] <= 100 {
      assert 0 <= r[k] <= r[k] <= 100;
    }
  }

  /** Once all estimates are in, the report is 100 exactly when the multiplication by 100 does not overflow. */
  lemma CompleteIs100Iff(total: nat)
    ensures var t := Wrap32(total); Percent(t, t) == 100 <==> 0 < t && t * 100 <= INT32_MAX
  {
    hide Wrap32, Quotient;
    var t := Wrap32(total);
    if t > 0 {
      WrapFacts(t * 100);
      if t * 100 <= INT32_MAX {
        PercentExact(t, t);
        DivUnique(100 * t, t, 100);
      } else {
        QuotientBelow(Wrap32(t * 100), t, 100);
      }
    }
  }

  /** The smallest total that overflows: a completed mount reports -99. */
  lemma OverflowExample()
    ensures Percent(21474837, 21474837) == -99
  {
    assert Wrap32(21474837 * 100) == -2147483596;
  }

  /** Within the int range 100 means done, and done only. */
  lemma PercentFull(p: nat, total: nat)
    requires p <= total && 0 < total && total * 100 <= INT32_MAX
    ensures Percent(p, total) == 100 <==> p == total
  {
    hide Percent;
    PercentExact(p, total);
    DivBounds(p * 100, total);
    if p == total {
      DivUnique(100 * total, total, 100);
    } else {
      QuotientBelow(p * 100, total, 100);
    }
  }

  class ArrayMountProgress {
    const total: int
    var progress: int
    /** The values reported so far. */
    ghost var reports: seq<int>

    constructor (total: int)
      ensures this.total == total && progress == -1 && reports == []
    {
      this.total, progress, reports := total, -1, [];
    }

    /** What a caller gets: -1 while idle; else, within the int range, the exact share, and 100 only when done. */
    method Get() returns (percent: int)
      ensures percent == Percent(progress, total)
      ensures progress < 0 ==> percent == progress
      ensures 0 <= progress <= total && 0 < total && total * 100 <= INT32_MAX ==>
                && percent == progress * 100 / total && 0 <= percent <= 100
                && (percent == 100 <==> progress == total)
    {
      hide Wrap32, Quotient;
      if 0 <= progress <= total && 0 < total && total * 100 <= INT32_MAX {
        PercentExact(progress, total);
        PercentFull(progress, total);
      }
      if progress < 0 || total == 0 {
        return progress;
      }
      return Quotient(Wrap32(progress * 100), total);
    }

    method UpdateProgress(prog: int)
      modifies this
      ensures progress == prog && reports == old(reports) + [Percent(prog, total)]
    {
      progress := prog;
      var percent := Get();
      reports := reports + [percent];
    }

    method Set()
      modifies this
      ensures progress == 0 && reports == old(reports) + [Percent(0, total)]
    {
      UpdateProgress(0);
    }

    method Update(prog: nat)
      modifies this
      ensures progress == Wrap32(old(progress) + prog) && reports == old(reports) + [Percent(progress, total)]
    {
      UpdateProgress(Wrap32(progress + prog));
    }

    method Reset()
      modifies this
      ensures progress == -1 && reports == old(reports)
    {
      progress := -1;
    }
  }
}
