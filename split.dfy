/** `separateTrainingSet` of src/utils.py: shuffle the indices 0..N-1, cut
    them into a training prefix and a test suffix, and project the three
    parallel lists through both halves. The shuffle is an input here: any
    rearrangement of 0..N-1 that the random source could produce. */
module TrainTestSplit {

  /** `np.arange(n)`. */
  function Range(n: nat): seq<nat>
  {
    seq(n, i => i)
  }

  /** `perm` is a rearrangement of `np.arange(n)`, as `np.random.shuffle`
      leaves it. */
  ghost predicate IsShuffleOf(perm: seq<nat>, n: nat)
  {
    |perm| == n && multiset(perm) == multiset(Range(n))
  }

  /** Every index in `idx` is below `n`. */
  ghost predicate InBounds(idx: seq<nat>, n: nat)
  {
    forall i :: i in idx ==> i < n
  }

  /** `[xs[i] for i in idx]`. */
  function Project<T>(xs: seq<T>, idx: seq<nat>): seq<T>
    requires InBounds(idx, |xs|)
  {
    seq(|idx|, j requires 0 <= j < |idx| => assert idx[j] in idx; xs[idx[j]])
  }

  lemma InBoundsCut(q: seq<nat>, k: nat, n: nat)
    requires InBounds(q, n) && k <= |q|
    ensures InBounds(q[..k], n) && InBounds(q[k..], n)
  {
    forall i | i in q[..k] ensures i < n {
      var j :| 0 <= j < k && q[..k][j] == i;
      assert q[j] in q;
    }
    forall i | i in q[k..] ensures i < n {
      var j :| 0 <= j < |q| - k && q[k..][j] == i;
      assert q[k + j] in q;
    }
  }

  lemma {:induction false} RangeMultiplicity(n: nat, x: nat)
    ensures multiset(Range(n))[x] == if x < n then 1 else 0
  {
    if n > 0 {
      assert Range(n) == Range(n - 1) + [n - 1];
      RangeMultiplicity(n - 1, x);
    }
  }

  /** A shuffle of 0..n-1 has length n, holds only indices below n (stated
      both by position and by membership, the two forms its callers index
      with), holds every one of them, and none twice. */
  lemma ShuffleEntries(perm: seq<nat>, n: nat)
    requires IsShuffleOf(perm, n)
    ensures |perm| == n
    ensures forall j :: 0 <= j < |perm| ==> perm[j] < n
    ensures InBounds(perm, n)
    ensures forall i :: 0 <= i < n ==> i in perm
    ensures forall j1, j2 :: 0 <= j1 < j2 < |perm| ==> perm[j1] != perm[j2]
  {
    forall j | 0 <= j < |perm| ensures perm[j] < n {
      assert perm[j] in multiset(perm);
      RangeMultiplicity(n, perm[j]);
    }
    forall i | 0 <= i < n ensures i in perm {
      RangeMultiplicity(n, i);
      assert i in multiset(perm);
    }
    forall j1, j2 | 0 <= j1 < j2 < |perm| ensures perm[j1] != perm[j2] {
      if perm[j1] == perm[j2] {
        var x := perm[j1];
        assert perm == perm[..j1] + [x] + perm[j1 + 1..j2] + [x] + perm[j2 + 1..];
        assert multiset(perm)[x] >= 2;
        RangeMultiplicity(n, x);
        assert false;
      }
    }
  }

  /** The six lists `separateTrainingSet` returns. */
  datatype Separation<T> = Separation(
    dataTr: seq<T>, salesTr: seq<int>, customerTr: seq<int>,
    dataTe: seq<T>, salesTe: seq<int>, customerTe: seq<int>)

  /** The split with the shuffled indices `perm` and the cut `k`: position
      `j` of the training lists comes from original index `perm[j]`, and
      position `j` of the test lists from original index `perm[k + j]`. A
      cut of 0 leaves the training lists empty, a cut of N the test lists. */
  function SeparateTrainingSet<T>(data: seq<T>, sales: seq<int>, customers: seq<int>, perm: seq<nat>, k: nat): (r: Separation<T>)
    requires IsShuffleOf(perm, |data|)
    requires |sales| >= |data| && |customers| >= |data|
    requires k <= |data|
    ensures |r.dataTr| == k && |r.salesTr| == k && |r.customerTr| == k
    ensures |r.dataTe| == |data| - k && |r.salesTe| == |data| - k && |r.customerTe| == |data| - k
    ensures forall j :: 0 <= j < k ==>
      perm[j] < |data| &&
      r.dataTr[j] == data[perm[j]] && r.salesTr[j] == sales[perm[j]] && r.customerTr[j] == customers[perm[j]]
    ensures forall j :: 0 <= j < |data| - k ==>
      perm[k + j] < |data| &&
      r.dataTe[j] == data[perm[k + j]] && r.salesTe[j] == sales[perm[k + j]] && r.customerTe[j] == customers[perm[k + j]]
  {
    ShuffleEntries(perm, |data|);
    InBoundsCut(perm, k, |data|);
    var indicesTr := perm[..k];
    var indicesTe := perm[k..];
    Separation(
      Project(data, indicesTr), Project(sales, indicesTr), Project(customers, indicesTr),
      Project(data, indicesTe), Project(sales, indicesTe), Project(customers, indicesTe))
  }

  /** The training and test index slices partition 0..N-1: together they
      hold every index exactly once. */
  lemma IndicesPartition(perm: seq<nat>, n: nat, k: nat)
    requires IsShuffleOf(perm, n)
    requires k <= n
    ensures multiset(perm[..k]) + multiset(perm[k..]) == multiset(Range(n))
    ensures forall i :: 0 <= i < n ==> (i in perm[..k]) != (i in perm[k..])
    ensures forall i :: i in perm[..k] || i in perm[k..] ==> i < n
  {
    ShuffleEntries(perm, n);
    assert perm[..k] + perm[k..] == perm;
    forall i | 0 <= i < n ensures (i in perm[..k]) != (i in perm[k..]) {
      RangeMultiplicity(n, i);
      assert multiset(perm[..k])[i] + multiset(perm[k..])[i] == 1;
    }
    forall i | i in perm[..k] || i in perm[k..] ensures i < n {
      assert i in perm;
    }
  }

  /** One input row: an entry with its sales and customers outputs. */
  function Rows<T>(data: seq<T>, sales: seq<int>, customers: seq<int>): seq<(T, int, int)>
    requires |sales| >= |data| && |customers| >= |data|
  {
    seq(|data|, i requires 0 <= i < |data| => (data[i], sales[i], customers[i]))
  }

  lemma ProjectConcat<T>(xs: seq<T>, p: seq<nat>, q: seq<nat>)
    requires InBounds(p, |xs|) && InBounds(q, |xs|)
    ensures InBounds(p + q, |xs|)
    ensures Project(xs, p + q) == Project(xs, p) + Project(xs, q)
  {
  }

  /** Taking the index at position `m` out of `q` takes its value out of
      the projection. */
  lemma ProjectRemove<T>(xs: seq<T>, q: seq<nat>, m: nat)
    requires InBounds(q, |xs|)
    requires m < |q|
    ensures q[m] < |xs| && InBounds(q[..m] + q[m + 1..], |xs|)
    ensures multiset(q) == multiset(q[..m] + q[m + 1..]) + multiset{q[m]}
    ensures multiset(Project(xs, q)) == multiset(Project(xs, q[..m] + q[m + 1..])) + multiset{xs[q[m]]}
  {
    assert q[m] in q;
    InBoundsCut(q, m, |xs|);
    InBoundsCut(q, m + 1, |xs|);
    var a, b := q[..m], q[m + 1..];
    assert q == a + [q[m]] + b;
    ProjectConcat(xs, a, [q[m]]);
    ProjectConcat(xs, a + [q[m]], b);
    ProjectConcat(xs, a, b);
  }

  lemma MultisetCancel<T>(a: multiset<T>, b: multiset<T>, x: T)
    requires a + multiset{x} == b + multiset{x}
    ensures a == b
  {
    forall y ensures a[y] == b[y] {
      assert (a + multiset{x})[y] == (b + multiset{x})[y];
    }
  }

  /** Projecting through two rearrangements of the same indices gives two
      rearrangements of the same values. */
  lemma {:induction false} ProjectRearranged<T>(xs: seq<T>, p: seq<nat>, q: seq<nat>)
    requires InBounds(p, |xs|) && InBounds(q, |xs|)
    requires multiset(p) == multiset(q)
    ensures multiset(Project(xs, p)) == multiset(Project(xs, q))
    decreases |p|
  {
    if p != [] {
      var x := p[0];
      assert x in multiset(q);
      var m :| 0 <= m < |q| && q[m] == x;
      ProjectRemove(xs, q, m);
      ProjectRemove(xs, p, 0);
      var p', q' := p[..0] + p[1..], q[..m] + q[m + 1..];
      MultisetCancel(multiset(p'), multiset(q'), x);
      ProjectRearranged(xs, p', q');
    }
  }

  /** The split loses, duplicates and alters no row: the training rows
      followed by the test rows are a rearrangement of the input rows, each
      entry still paired with its own sales and customers. */
  lemma SeparationKeepsRows<T>(data: seq<T>, sales: seq<int>, customers: seq<int>, perm: seq<nat>, k: nat)
    requires IsShuffleOf(perm, |data|)
    requires |sales| >= |data| && |customers| >= |data|
    requires k <= |data|
    ensures var r := SeparateTrainingSet(data, sales, customers, perm, k);
      multiset(Rows(r.dataTr, r.salesTr, r.customerTr) + Rows(r.dataTe, r.salesTe, r.customerTe))
        == multiset(Rows(data, sales, customers))
  {
    var n := |data|;
    var r := SeparateTrainingSet(data, sales, customers, perm, k);
    var rows := Rows(data, sales, customers);
    ShuffleEntries(perm, n);
    assert InBounds(Range(n), n);
    assert Rows(r.dataTr, r.salesTr, r.customerTr) + Rows(r.dataTe, r.salesTe, r.customerTe) == Project(rows, perm);
    assert Project(rows, Range(n)) == rows;
    ProjectRearranged(rows, perm, Range(n));
  }

  /** The cut as the exact formula floor(N * pct / 100) for a percentage in
      0..100: always a valid cut, 0 for 0% and N for 100%. */
  function IdealCut(n: nat, pct: nat): (k: nat)
    requires pct <= 100
    ensures k <= n
    ensures pct == 0 ==> k == 0
    ensures pct == 100 ==> k == n
  {
    n * pct / 100
  }

  /** Cutting at the exact formula gives a training set of floor(N * pct / 100)
      entries and a test set of the rest. */
  lemma SplitAtIdealCut<T>(data: seq<T>, sales: seq<int>, customers: seq<int>, perm: seq<nat>, pct: nat)
    requires IsShuffleOf(perm, |data|)
    requires |sales| >= |data| && |customers| >= |data|
    requires pct <= 100
    ensures var r := SeparateTrainingSet(data, sales, customers, perm, IdealCut(|data|, pct));
      |r.dataTr| == |data| * pct / 100 && |r.dataTe| == |data| - |data| * pct / 100
  {
  }
}
