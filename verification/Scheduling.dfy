/** Placing jobs on machines: any placement that always picks a least loaded machine, heaviest job
    first, has makespan at most 4/3 - 1/(3m) times that of any other placement. */
module Scheduling {

  /** Load of machine `s` from the first `k` jobs under a placement. */
  function Load(jobs: seq<int>, placed: seq<nat>, k: nat, s: nat): int
    requires k <= |jobs| && k <= |placed|
  {
    if k == 0 then 0 else Load(jobs, placed, k - 1, s) + if placed[k - 1] == s then jobs[k - 1] else 0
  }

  function Count(placed: seq<nat>, k: nat, s: nat): nat
    requires k <= |placed|
  {
    if k == 0 then 0 else Count(placed, k - 1, s) + if placed[k - 1] == s then 1 else 0
  }

  function Sum(jobs: seq<int>, k: nat): int
    requires k <= |jobs|
  {
    if k == 0 then 0 else Sum(jobs, k - 1) + jobs[k - 1]
  }

  ghost predicate Placement(placed: seq<nat>, m: nat) {
    forall i :: 0 <= i < |placed| ==> placed[i] < m
  }

  ghost predicate HeaviestFirst(jobs: seq<int>) {
    forall i, j :: 0 <= i <= j < |jobs| ==> jobs[i] >= jobs[j]
  }

  /** Each job went to a machine that was least loaded when it was placed. */
  ghost predicate Greedy(jobs: seq<int>, placed: seq<nat>, m: nat) {
    && |placed| == |jobs|
    && Placement(placed, m)
    && forall i :: 0 <= i < |jobs| ==> LeastLoaded(jobs, placed, i, placed[i], m)
  }

  ghost predicate LeastLoaded(jobs: seq<int>, placed: seq<nat>, k: nat, least: nat, m: nat)
    requires k <= |jobs| && k <= |placed|
  {
    forall s :: 0 <= s < m ==> Load(jobs, placed, k, least) <= Load(jobs, placed, k, s)
  }

  ghost predicate WithinCap(jobs: seq<int>, placed: seq<nat>, k: nat, m: nat, cap: int)
    requires k <= |jobs| && k <= |placed|
  {
    forall s :: 0 <= s < m ==> Load(jobs, placed, k, s) <= cap
  }

  // ------------------------------------------------------------------------------------------
  // Sums over machines.

  function TotalLoad(jobs: seq<int>, placed: seq<nat>, k: nat, m: nat): int
    requires k <= |jobs| && k <= |placed|
  {
    if m == 0 then 0 else TotalLoad(jobs, placed, k, m - 1) + Load(jobs, placed, k, m - 1)
  }

  function TotalCount(placed: seq<nat>, k: nat, m: nat): nat
    requires k <= |placed|
  {
    if m == 0 then 0 else TotalCount(placed, k, m - 1) + Count(placed, k, m - 1)
  }

  lemma {:induction false} TotalLoadStep(jobs: seq<int>, placed: seq<nat>, k: nat, m: nat)
    requires 0 < k <= |jobs| && k <= |placed|
    ensures TotalLoad(jobs, placed, k, m) ==
            TotalLoad(jobs, placed, k - 1, m) + if placed[k - 1] < m then jobs[k - 1] else 0
  {
    if m > 0 { TotalLoadStep(jobs, placed, k, m - 1); }
  }

  lemma {:induction false} TotalLoadIsSum(jobs: seq<int>, placed: seq<nat>, k: nat, m: nat)
    requires k <= |jobs| && k <= |placed| && Placement(placed, m)
    ensures TotalLoad(jobs, placed, k, m) == Sum(jobs, k)
    decreases k, m
  {
    if k > 0 {
      TotalLoadStep(jobs, placed, k, m);
      TotalLoadIsSum(jobs, placed, k - 1, m);
    } else {
      NoLoad(jobs, placed, m);
    }
  }

  lemma {:induction false} NoLoad(jobs: seq<int>, placed: seq<nat>, m: nat)
    ensures TotalLoad(jobs, placed, 0, m) == 0 && TotalCount(placed, 0, m) == 0
  {
    if m > 0 { NoLoad(jobs, placed, m - 1); }
  }

  lemma {:induction false} TotalCountStep(placed: seq<nat>, k: nat, m: nat)
    requires 0 < k <= |placed|
    ensures TotalCount(placed, k, m) == TotalCount(placed, k - 1, m) + if placed[k - 1] < m then 1 else 0
  {
    if m > 0 { TotalCountStep(placed, k, m - 1); }
  }

  lemma {:induction false} TotalCountIsAll(placed: seq<nat>, k: nat, m: nat)
    requires k <= |placed| && Placement(placed, m)
    ensures TotalCount(placed, k, m) == k
  {
    if k > 0 {
      TotalCountStep(placed, k, m);
      TotalCountIsAll(placed, k - 1, m);
    } else {
      NoLoad([], placed, m);
    }
  }


  // ------------------------------------------------------------------------------------------
  // One machine.

  lemma {:induction false} LoadGrows(jobs: seq<int>, placed: seq<nat>, k: nat, n: nat, s: nat)
    requires k <= n <= |jobs| && n <= |placed|
    requires forall i :: 0 <= i < |jobs| ==> jobs[i] >= 0
    ensures 0 <= Load(jobs, placed, k, s) <= Load(jobs, placed, n, s)
    decreases n
  {
    if k < n {
      LoadGrows(jobs, placed, k, n - 1, s);
    } else if k > 0 {
      LoadGrows(jobs, placed, k - 1, n - 1, s);
    }
  }

  lemma {:induction false} SumGrows(jobs: seq<int>, k: nat, n: nat)
    requires k <= n <= |jobs| && forall i :: 0 <= i < |jobs| ==> jobs[i] >= 0
    ensures Sum(jobs, k) <= Sum(jobs, n)
  {
    if k < n { SumGrows(jobs, k, n - 1); }
  }

  /** Each job weighs at least `x`. */
  lemma {:induction false} LoadOfCount(jobs: seq<int>, placed: seq<nat>, k: nat, s: nat, x: int)
    requires k <= |jobs| && k <= |placed| && forall i :: 0 <= i < k ==> jobs[i] >= x
    ensures Load(jobs, placed, k, s) >= Count(placed, k, s) * x
  {
    if k > 0 { LoadOfCount(jobs, placed, k - 1, s, x); }
  }

  lemma {:induction false} LoadWithJob(jobs: seq<int>, placed: seq<nat>, k: nat, s: nat, x: int, i: nat)
    requires i < k <= |jobs| && k <= |placed| && placed[i] == s
    requires forall j :: 0 <= j < k ==> jobs[j] >= x
    ensures Count(placed, k, s) >= 1
    ensures Load(jobs, placed, k, s) >= jobs[i] + (Count(placed, k, s) - 1) * x
  {
    if i < k - 1 {
      LoadWithJob(jobs, placed, k - 1, s, x, i);
    } else {
      LoadOfCount(jobs, placed, k - 1, s, x);
    }
  }

  /** A machine holding one job holds no more than that. */
  ghost function Sole(jobs: seq<int>, placed: seq<nat>, k: nat, s: nat): (i: nat)
    requires k <= |jobs| && k <= |placed| && Count(placed, k, s) == 1
    ensures i < k && placed[i] == s && Load(jobs, placed, k, s) == jobs[i]
  {
    if placed[k - 1] == s then NoJob(jobs, placed, k - 1, s); k - 1 else Sole(jobs, placed, k - 1, s)
  }

  lemma {:induction false} NoJob(jobs: seq<int>, placed: seq<nat>, k: nat, s: nat)
    requires k <= |jobs| && k <= |placed| && Count(placed, k, s) == 0
    ensures Load(jobs, placed, k, s) == 0
  {
    if k > 0 { NoJob(jobs, placed, k - 1, s); }
  }

  /** The last job a loaded machine received. */
  lemma {:induction false} LastJob(jobs: seq<int>, placed: seq<nat>, k: nat, s: nat) returns (j: nat)
    requires k <= |jobs| && k <= |placed| && Load(jobs, placed, k, s) != 0
    ensures j < k && placed[j] == s && Load(jobs, placed, k, s) == Load(jobs, placed, j, s) + jobs[j]
  {
    if placed[k - 1] == s { j := k - 1; } else { j := LastJob(jobs, placed, k - 1, s); }
  }

  // ------------------------------------------------------------------------------------------
  // Counting machines that hold at most one job.

  function Light(placed: seq<nat>, k: nat, m: nat): set<nat>
    requires k <= |placed|
  {
    set s | 0 <= s < m && Count(placed, k, s) <= 1
  }

  lemma {:induction false} CountLight(placed: seq<nat>, k: nat, m: nat)
    requires k <= |placed| && forall s :: 0 <= s < m ==> Count(placed, k, s) <= 2
    ensures TotalCount(placed, k, m) <= 2 * m - |Light(placed, k, m)|
    ensures (forall s :: 0 <= s < m ==> Count(placed, k, s) >= 1) ==>
              TotalCount(placed, k, m) == 2 * m - |Light(placed, k, m)|
  {
    if m > 0 {
      CountLight(placed, k, m - 1);
      assert Light(placed, k, m) == Light(placed, k, m - 1) + if Count(placed, k, m - 1) <= 1 then {m - 1} else {};
    }
  }

  lemma {:induction false} InjectionBound(from: set<nat>, to: set<nat>, f: map<nat, nat>)
    requires from <= f.Keys && forall x :: x in from ==> f[x] in to
    requires forall x, y :: x in from && y in from && f[x] == f[y] ==> x == y
    ensures |from| <= |to|
    decreases |from|
  {
    if from != {} {
      var x :| x in from;
      InjectionBound(from - {x}, to - {f[x]}, f);
    }
  }

  // ------------------------------------------------------------------------------------------
  // The bound.

  /** A split of the same jobs over `m` machines with no machine above `cap`. */
  ghost predicate FitsWithin(jobs: seq<int>, other: seq<nat>, m: nat, cap: int) {
    && |other| == |jobs| && Placement(other, m)
    && WithinCap(jobs, other, |jobs|, m, cap)
  }

  /** The first job whose placement overflows the cap cannot exceed a third of it: with jobs that
      big no split fits, for each machine with a single job would need a machine of its own. */
  lemma OverflowImpliesSmall(jobs: seq<int>, placed: seq<nat>, other: seq<nat>, m: nat, cap: int, j: nat)
    requires HeaviestFirst(jobs) && (forall i :: 0 <= i < |jobs| ==> jobs[i] >= 0)
    requires Greedy(jobs, placed, m) && FitsWithin(jobs, other, m, cap)
    requires j < |jobs| && WithinCap(jobs, placed, j, m, cap)
    requires Load(jobs, placed, j, placed[j]) + jobs[j] > cap
    ensures 3 * jobs[j] <= cap
  {
    if 3 * jobs[j] > cap {
      var x := jobs[j];
      forall s | 0 <= s < m ensures 1 <= Count(placed, j, s) <= 2 {
        LoadOfCount(jobs, placed, j, s, x);
        if Count(placed, j, s) == 0 {
          NoJob(jobs, placed, j, s);
          JobFits(jobs, other, m, cap, j);
        }
        if Count(placed, j, s) > 2 { TripleOverflows(Count(placed, j, s), x, cap); }
      }
      var n := j + 1;
      forall s | 0 <= s < m ensures Count(other, n, s) <= 2 {
        LoadOfCount(jobs, other, j + 1, s, x);
        LoadGrows(jobs, other, j + 1, |jobs|, s);
        if Count(other, j + 1, s) > 2 { TripleOverflows(Count(other, j + 1, s), x, cap); }
      }
      CountLight(placed, j, m);
      CountLight(other, j + 1, m);
      TotalCountIsAll(placed, j, m);
      TotalCountIsAll(other, j + 1, m);
      SingletonsNeedMachines(jobs, placed, other, m, cap, j);
    }
  }

  lemma TripleOverflows(count: nat, x: int, cap: int)
    requires count > 2 && 3 * x > cap && x >= 0
    ensures count * x > cap
  {
    assert count * x == 3 * x + (count - 3) * x;
    assert (count - 3) * x >= 0;
  }

  lemma JobFits(jobs: seq<int>, other: seq<nat>, m: nat, cap: int, j: nat)
    requires (forall i :: 0 <= i < |jobs| ==> jobs[i] >= 0) && FitsWithin(jobs, other, m, cap) && j < |jobs|
    ensures jobs[j] <= cap
  {
    LoadGrows(jobs, other, 0, j, other[j]);
    LoadGrows(jobs, other, j + 1, |jobs|, other[j]);
  }

  lemma SingletonsNeedMachines(jobs: seq<int>, placed: seq<nat>, other: seq<nat>, m: nat, cap: int, j: nat)
    requires HeaviestFirst(jobs) && (forall i :: 0 <= i < |jobs| ==> jobs[i] >= 0)
    requires Greedy(jobs, placed, m) && FitsWithin(jobs, other, m, cap) && j < |jobs|
    requires Load(jobs, placed, j, placed[j]) + jobs[j] > cap
    requires forall s :: 0 <= s < m ==> 1 <= Count(placed, j, s)
    ensures |Light(placed, j, m)| <= |Light(other, j + 1, m)|
  {
    var singles := Light(placed, j, m);
    var sole := map s | s in singles :: Sole(jobs, placed, j, s);
    var moved := map s | s in singles :: other[sole[s]];
    forall s | s in singles ensures moved[s] in Light(other, j + 1, m) {
      var i := sole[s];
      LoadWithJob(jobs, other, j + 1, other[i], jobs[j], i);
      LoadGrows(jobs, other, j + 1, |jobs|, other[i]);
      AtMostOne(Count(other, j + 1, other[i]), jobs[i], jobs[j], cap);
    }
    forall s, t | s in singles && t in singles && moved[s] == moved[t] ensures s == t {
      if s != t { HeavyJobsApart(jobs, other, m, cap, j, sole[s], sole[t]); }
    }
    InjectionBound(singles, Light(other, j + 1, m), moved);
  }

  lemma AtMostOne(count: nat, heavy: int, x: int, cap: int)
    requires count >= 1 && heavy + (count - 1) * x <= cap && heavy + x > cap && x >= 0
    ensures count == 1
  {
    ShareGrows(count, x);
  }

  lemma ShareGrows(count: nat, x: int)
    requires x >= 0
    ensures count > 1 ==> (count - 1) * x >= x
  {
    if count > 1 {
      assert (count - 1) * x == x + (count - 2) * x;
      assert (count - 2) * x >= 0;
    }
  }

  /** A job that shares a machine with no other within the cap. */
  lemma HeavyJobsApart(jobs: seq<int>, other: seq<nat>, m: nat, cap: int, j: nat, i: nat, k: nat)
    requires HeaviestFirst(jobs) && (forall i :: 0 <= i < |jobs| ==> jobs[i] >= 0)
    requires FitsWithin(jobs, other, m, cap) && i < j < |jobs| && k < j && i != k
    requires jobs[i] + jobs[j] > cap
    ensures other[i] != other[k]
  {
    var s := other[i];
    LoadWithJob(jobs, other, j, s, jobs[j], i);
    LoadGrows(jobs, other, j, |jobs|, s);
    AtMostOne(Count(other, j, s), jobs[i], jobs[j], cap);
    if other[k] == s { CountTwo(other, j, s, i, k); }
  }

  lemma {:induction false} CountTwo(placed: seq<nat>, k: nat, s: nat, i: nat, j: nat)
    requires i < k <= |placed| && j < k && i != j && placed[i] == s && placed[j] == s
    ensures Count(placed, k, s) >= 2
  {
    if i == k - 1 { CountOne(placed, k - 1, s, j); }
    else if j == k - 1 { CountOne(placed, k - 1, s, i); }
    else { CountTwo(placed, k - 1, s, i, j); }
  }

  lemma {:induction false} CountOne(placed: seq<nat>, k: nat, s: nat, i: nat)
    requires i < k <= |placed| && placed[i] == s
    ensures Count(placed, k, s) >= 1
  {
    if i < k - 1 { CountOne(placed, k - 1, s, i); }
  }

  /** Either no machine ever overflows the cap, or the overflowing job is found. */
  lemma {:induction false} FirstOverflow(jobs: seq<int>, placed: seq<nat>, m: nat, cap: int, n: nat) returns (j: nat)
    requires n <= |jobs| && |placed| == |jobs| && Placement(placed, m) && cap >= 0
    requires !WithinCap(jobs, placed, n, m, cap)
    ensures j < n && WithinCap(jobs, placed, j, m, cap)
    ensures Load(jobs, placed, j, placed[j]) + jobs[j] > cap
  {
    if n > 0 && !WithinCap(jobs, placed, n - 1, m, cap) {
      j := FirstOverflow(jobs, placed, m, cap, n - 1);
    } else {
      assert n > 0;
      j := n - 1;
      var s :| 0 <= s < m && Load(jobs, placed, n, s) > cap;
      assert Load(jobs, placed, n - 1, s) <= cap;
    }
  }

  /** The makespan bound of heaviest-first greedy placement. */
  lemma GreedyBound(jobs: seq<int>, placed: seq<nat>, other: seq<nat>, m: nat, cap: int, s: nat)
    requires HeaviestFirst(jobs) && (forall i :: 0 <= i < |jobs| ==> jobs[i] >= 0)
    requires Greedy(jobs, placed, m) && FitsWithin(jobs, other, m, cap) && s < m
    ensures 3 * m * Load(jobs, placed, |jobs|, s) <= (4 * m - 1) * cap
  {
    LoadGrows(jobs, other, 0, |jobs|, s);
    if Load(jobs, placed, |jobs|, s) <= cap {
      SmallArithmetic(m, Load(jobs, placed, |jobs|, s), cap);
    } else {
      OverloadedBound(jobs, placed, other, m, cap, s);
    }
  }

  lemma OverloadedBound(jobs: seq<int>, placed: seq<nat>, other: seq<nat>, m: nat, cap: int, s: nat)
    requires HeaviestFirst(jobs) && (forall i :: 0 <= i < |jobs| ==> jobs[i] >= 0)
    requires Greedy(jobs, placed, m) && FitsWithin(jobs, other, m, cap) && s < m
    requires Load(jobs, placed, |jobs|, s) > cap >= 0
    ensures 3 * m * Load(jobs, placed, |jobs|, s) <= (4 * m - 1) * cap
  {
    var n := |jobs|;
    var first := FirstOverflow(jobs, placed, m, cap, n);
    OverflowImpliesSmall(jobs, placed, other, m, cap, first);
    var j := LastJob(jobs, placed, n, s);
    if j < first { LoadGrows(jobs, placed, j + 1, first, s); }
    assert first <= j;
    LowestShare(jobs, placed, m, j);
    OtherHoldsAll(jobs, other, m, cap, j);
    BoundArithmetic(m, Load(jobs, placed, j, s), jobs[j], cap);
  }

  lemma SmallArithmetic(m: nat, load: int, cap: int)
    requires m > 0 && 0 <= cap && load <= cap
    ensures 3 * m * load <= (4 * m - 1) * cap
  {
    var c := m * cap;
    assert m * load <= c;
    assert 3 * m * load == 3 * (m * load);
    assert (4 * m - 1) * cap == 4 * c - cap;
    assert (m - 1) * cap >= 0;
    assert (m - 1) * cap == c - cap;
  }

  lemma LowestShare(jobs: seq<int>, placed: seq<nat>, m: nat, j: nat)
    requires Greedy(jobs, placed, m) && j < |jobs|
    ensures m * Load(jobs, placed, j, placed[j]) <= Sum(jobs, j)
  {
    TotalLoadIsSum(jobs, placed, j, m);
    var low := Load(jobs, placed, j, placed[j]);
    TotalLoadAbove(jobs, placed, j, m, low);
  }

  lemma {:induction false} TotalLoadAbove(jobs: seq<int>, placed: seq<nat>, k: nat, m: nat, low: int)
    requires k <= |jobs| && k <= |placed|
    requires forall s :: 0 <= s < m ==> low <= Load(jobs, placed, k, s)
    ensures m * low <= TotalLoad(jobs, placed, k, m)
  {
    if m > 0 {
      TotalLoadAbove(jobs, placed, k, m - 1, low);
      assert m * low == (m - 1) * low + low;
    }
  }

  lemma {:induction false} TotalLoadBelow(jobs: seq<int>, placed: seq<nat>, k: nat, m: nat, high: int)
    requires k <= |jobs| && k <= |placed|
    requires forall s :: 0 <= s < m ==> Load(jobs, placed, k, s) <= high
    ensures TotalLoad(jobs, placed, k, m) <= m * high
  {
    if m > 0 {
      TotalLoadBelow(jobs, placed, k, m - 1, high);
      assert m * high == (m - 1) * high + high;
    }
  }

  lemma OtherHoldsAll(jobs: seq<int>, other: seq<nat>, m: nat, cap: int, j: nat)
    requires (forall i :: 0 <= i < |jobs| ==> jobs[i] >= 0) && FitsWithin(jobs, other, m, cap) && j < |jobs|
    ensures Sum(jobs, j) + jobs[j] <= m * cap
  {
    SumGrows(jobs, j + 1, |jobs|);
    TotalLoadIsSum(jobs, other, |jobs|, m);
    TotalLoadBelow(jobs, other, |jobs|, m, cap);
  }

  lemma MulMonotone(n: nat, x: int, y: int)
    requires x <= y
    ensures n * x <= n * y
  {
  }

  lemma Distribute(n: int, x: int, y: int)
    ensures n * (x + y) == n * x + n * y
    ensures n * (x - y) == n * x - n * y
    ensures (n - 1) * x == n * x - x
  {
  }

  lemma BoundArithmetic(m: nat, before: int, x: int, cap: int)
    requires m > 0 && m * before + x <= m * cap && 3 * x <= cap
    ensures 3 * m * (before + x) <= (4 * m - 1) * cap
  {
    Distribute(m, before, x);
    MulMonotone(m - 1, 3 * x, cap);
    Distribute(m, 3 * x, 0);
    Distribute(m, cap, 0);
    var b, c := m * x, m * cap;
    assert (m - 1) * (3 * x) == m * (3 * x) - 3 * x;
    assert m * (3 * x) == 3 * b by { Triple(m, x); }
    assert 3 * m * (before + x) == 3 * (m * (before + x)) by { Scale(3, m, before + x); }
    assert (4 * m - 1) * cap == 4 * c - cap by { Distribute(4 * m, cap, 0); Scale(4, m, cap); }
  }

  lemma Triple(m: int, x: int)
    ensures m * (3 * x) == 3 * (m * x)
  {
  }

  lemma Scale(k: int, m: int, x: int)
    ensures k * m * x == k * (m * x)
  {
  }

  // ------------------------------------------------------------------------------------------
  // No machine stays idle when there are enough jobs of positive weight.

  lemma {:induction false} SomeIdle(placed: seq<nat>, k: nat, m: nat) returns (s: nat)
    requires k <= |placed| && TotalCount(placed, k, m) < m
    ensures s < m && Count(placed, k, s) == 0
  {
    if Count(placed, k, m - 1) == 0 { s := m - 1; } else { s := SomeIdle(placed, k, m - 1); }
  }

  lemma {:induction false} EarlyJobsApart(jobs: seq<int>, placed: seq<nat>, m: nat, k: nat, s: nat)
    requires Greedy(jobs, placed, m) && (forall i :: 0 <= i < |jobs| ==> jobs[i] > 0)
    requires k <= m && k <= |jobs| && s < m
    ensures Count(placed, k, s) <= 1
  {
    if k > 0 {
      EarlyJobsApart(jobs, placed, m, k - 1, s);
      TotalCountIsAll(placed, k - 1, m);
      var idle := SomeIdle(placed, k - 1, m);
      NoJob(jobs, placed, k - 1, idle);
      assert Load(jobs, placed, k - 1, placed[k - 1]) <= Load(jobs, placed, k - 1, idle);
      LoadOfCount(jobs, placed, k - 1, placed[k - 1], 1);
    }
  }

  lemma {:induction false} TotalCountBelow(placed: seq<nat>, k: nat, m: nat, idle: nat)
    requires k <= |placed| && (forall s :: 0 <= s < m ==> Count(placed, k, s) <= 1)
    ensures TotalCount(placed, k, m) <= m
    ensures idle < m && Count(placed, k, idle) == 0 ==> TotalCount(placed, k, m) < m
  {
    if m > 0 { TotalCountBelow(placed, k, m - 1, idle); }
  }

  lemma {:induction false} CountGrows(placed: seq<nat>, k: nat, n: nat, s: nat)
    requires k <= n <= |placed|
    ensures Count(placed, k, s) <= Count(placed, n, s)
  {
    if k < n { CountGrows(placed, k, n - 1, s); }
  }

  lemma NoneIdle(jobs: seq<int>, placed: seq<nat>, m: nat, s: nat)
    requires Greedy(jobs, placed, m) && (forall i :: 0 <= i < |jobs| ==> jobs[i] > 0)
    requires s < m <= |jobs|
    ensures Count(placed, |jobs|, s) >= 1
  {
    forall t | 0 <= t < m ensures Count(placed, m, t) <= 1 { EarlyJobsApart(jobs, placed, m, m, t); }
    TotalCountIsAll(placed, m, m);
    TotalCountBelow(placed, m, m, s);
    CountGrows(placed, m, |jobs|, s);
  }
}
