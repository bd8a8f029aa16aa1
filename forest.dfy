/**
 * The backend's classifier: decision trees over rows of real-valued
 * features, grown by recursive binary splits and read by descending on
 * `<=` comparisons, and a random forest whose trees each see their own
 * columns and vote on every row.
 */
module Forest {
  import opened Wrappers

  type Row = seq<real>

  /** A training row with its class label; labels are the non-negative integers `np.bincount` counts. */
  datatype Sample = Sample(features: Row, outcome: nat)

  /** A node with a value is a leaf; any other node tests `x[feature] <= threshold`. */
  datatype Tree =
    | Leaf(value: nat)
    | Node(feature: nat, threshold: real, left: Tree, right: Tree)

  datatype Split = Split(feature: nat, threshold: real)

  function LeafValues(t: Tree): set<nat> {
    match t
    case Leaf(v) => {v}
    case Node(_, _, l, r) => LeafValues(l) + LeafValues(r)
  }

  /** The number of tests on the longest path from the root to a leaf. */
  function Height(t: Tree): nat {
    match t
    case Leaf(_) => 0
    case Node(_, _, l, r) => 1 + if Height(l) < Height(r) then Height(r) else Height(l)
  }

  /** The columns the tree tests. */
  function Features(t: Tree): set<nat> {
    match t
    case Leaf(_) => {}
    case Node(f, _, l, r) => {f} + Features(l) + Features(r)
  }

  /** Every column the tree tests exists in a row of `width` columns. */
  predicate Fits(t: Tree, width: nat) {
    match t
    case Leaf(_) => true
    case Node(f, _, l, r) => f < width && Fits(l, width) && Fits(r, width)
  }

  lemma {:induction false} FitsBoundsFeatures(t: Tree, width: nat)
    requires Fits(t, width)
    ensures forall f :: f in Features(t) ==> f < width
  {
    match t
    case Leaf(_) =>
    case Node(_, _, l, r) =>
      FitsBoundsFeatures(l, width);
      FitsBoundsFeatures(r, width);
  }

  /**
   * `_predict`: a leaf answers its value; a test sends the row left when
   * its value in the tested column is at most the threshold, right
   * otherwise. The answer is always one of the tree's leaf values.
   */
  function PredictRow(t: Tree, x: Row): (v: nat)
    requires Fits(t, |x|)
    ensures v in LeafValues(t)
  {
    match t
    case Leaf(v) => v
    case Node(f, threshold, l, r) =>
      if x[f] <= threshold then PredictRow(l, x) else PredictRow(r, x)
  }

  /** Two rows that agree on every column the tree tests get the same answer. */
  lemma {:induction false} PredictReadsOnlyTestedColumns(t: Tree, x: Row, y: Row)
    requires Fits(t, |x|) && Fits(t, |y|)
    requires forall f :: f in Features(t) && f < |x| && f < |y| ==> x[f] == y[f]
    ensures PredictRow(t, x) == PredictRow(t, y)
  {
    match t
    case Leaf(_) =>
    case Node(f, _, l, r) =>
      assert f in Features(t);
      PredictReadsOnlyTestedColumns(l, x, y);
      PredictReadsOnlyTestedColumns(r, x, y);
  }

  /** `DecisionTree.predict`: one answer per row, in the order of the rows. */
  function TreePredict(t: Tree, rows: seq<Row>): (labels: seq<nat>)
    requires forall i :: 0 <= i < |rows| ==> Fits(t, |rows[i]|)
    ensures |labels| == |rows|
    ensures forall i :: 0 <= i < |rows| ==> labels[i] == PredictRow(t, rows[i]) && labels[i] in LeafValues(t)
  {
    seq(|rows|, i requires 0 <= i < |rows| => PredictRow(t, rows[i]))
  }

  // Voting

  /** How many times `c` occurs in `s`. */
  function Count(s: seq<nat>, c: nat): nat {
    multiset(s)[c]
  }

  function MaxOf(s: seq<nat>): (m: nat)
    requires |s| > 0
    ensures m in s && forall i :: 0 <= i < |s| ==> s[i] <= m
  {
    if |s| == 1 then s[0]
    else
      var m := MaxOf(s[..|s| - 1]);
      assert s == s[..|s| - 1] + [s[|s| - 1]];
      if s[|s| - 1] > m then s[|s| - 1] else m
  }

  /** `np.bincount(s)`: entry `c` counts the occurrences of `c`, up to the largest element. */
  function BinCount(s: seq<nat>): (counts: seq<nat>)
    requires |s| > 0
    ensures |counts| == MaxOf(s) + 1
    ensures forall c :: 0 <= c < |counts| ==> counts[c] == Count(s, c)
  {
    seq(MaxOf(s) + 1, c requires 0 <= c <= MaxOf(s) => Count(s, c))
  }

  /** `np.argmax`: the first index holding the largest entry. */
  function Argmax(s: seq<nat>): (i: nat)
    requires |s| > 0
    ensures i < |s|
    ensures forall j :: 0 <= j < |s| ==> s[j] <= s[i]
    ensures forall j :: 0 <= j < i ==> s[j] < s[i]
  {
    if |s| == 1 then 0
    else
      var k := Argmax(s[..|s| - 1]);
      if s[|s| - 1] > s[k] then |s| - 1 else k
  }

  /**
   * `np.argmax(np.bincount(votes))`: a label that was voted for, with no
   * label voted for more often, and every smaller label voted for strictly
   * less often; ties go to the smallest label.
   */
  function Majority(votes: seq<nat>): (m: nat)
    requires |votes| > 0
    ensures Count(votes, m) > 0 && m in votes
    ensures forall c :: Count(votes, c) <= Count(votes, m)
    ensures forall c: nat :: c < m ==> Count(votes, c) < Count(votes, m)
  {
    var counts := BinCount(votes);
    var m := Argmax(counts);
    var top := MaxOf(votes);
    assert counts[top] > 0;
    forall c | c >= |counts|
      ensures Count(votes, c) == 0
    {
      assert c !in votes;
    }
    m
  }

  /** Votes that all name one label elect that label. */
  lemma UnanimousVote(votes: seq<nat>, v: nat)
    requires |votes| > 0
    requires forall i :: 0 <= i < |votes| ==> votes[i] == v
    ensures Majority(votes) == v
  {
    var m := Majority(votes);
    assert m in votes;
  }

  // Growing a tree

  /** Every row has `width` columns, as in a two-dimensional array. */
  predicate Uniform(data: seq<Sample>, width: nat) {
    forall e :: e in data ==> |e.features| == width
  }

  function Labels(data: seq<Sample>): (labels: seq<nat>)
    ensures |labels| == |data|
    ensures forall i :: 0 <= i < |data| ==> labels[i] == data[i].outcome
  {
    seq(|data|, i requires 0 <= i < |data| => data[i].outcome)
  }

  /**
   * `X[left_idx]` (or `X[~left_idx]`): the rows on one side of the split,
   * in their original order.
   */
  function Side(data: seq<Sample>, s: Split, left: bool): (side: seq<Sample>)
    requires forall e :: e in data ==> s.feature < |e.features|
    ensures forall e :: e in side ==> e in data && (e.features[s.feature] <= s.threshold) == left
  {
    if data == [] then []
    else
      var here := if (data[0].features[s.feature] <= s.threshold) == left then [data[0]] else [];
      here + Side(data[1..], s, left)
  }

  /** The two sides of a split partition the rows: together they hold each row exactly as often. */
  lemma {:induction false} SidesPartition(data: seq<Sample>, s: Split)
    requires forall e :: e in data ==> s.feature < |e.features|
    ensures multiset(Side(data, s, true)) + multiset(Side(data, s, false)) == multiset(data)
  {
    if data != [] {
      var rest := data[1..];
      SidesPartition(rest, s);
      assert data == [data[0]] + rest;
      if data[0].features[s.feature] <= s.threshold {
        assert Side(data, s, true) == [data[0]] + Side(rest, s, true);
        assert Side(data, s, false) == Side(rest, s, false);
      } else {
        assert Side(data, s, true) == Side(rest, s, true);
        assert Side(data, s, false) == [data[0]] + Side(rest, s, false);
      }
    }
  }

  /**
   * Both sides of a split that leaves neither empty are strictly smaller
   * than the rows, keep their width, and hold only labels of the rows:
   * this is what lets the growth terminate.
   */
  lemma SplitHalves(data: seq<Sample>, width: nat, s: Split)
    requires Uniform(data, width) && s.feature < width
    requires |Side(data, s, true)| > 0 && |Side(data, s, false)| > 0
    ensures |Side(data, s, true)| < |data| && |Side(data, s, false)| < |data|
    ensures Uniform(Side(data, s, true), width) && Uniform(Side(data, s, false), width)
    ensures LabelSet(Side(data, s, true)) <= LabelSet(data) && LabelSet(Side(data, s, false)) <= LabelSet(data)
  {
    SidesPartition(data, s);
    assert |multiset(Side(data, s, true))| + |multiset(Side(data, s, false))| == |multiset(data)|;
  }

  /**
   * `_best_split` with its search left abstract: with `min_samples_split`
   * rows or fewer there is no split; otherwise `chooser` proposes one, and
   * as the search skips thresholds that send every row to the same side,
   * a proposal that does not divide the rows in two, or names a column the
   * rows lack, is no split.
   */
  function BestSplit(data: seq<Sample>, width: nat, minSamplesSplit: int, chooser: seq<Sample> -> Option<Split>): (r: Option<Split>)
    requires Uniform(data, width)
    ensures r.Some? ==> |data| > minSamplesSplit && r.value.feature < width
    ensures r.Some? ==> |Side(data, r.value, true)| > 0 && |Side(data, r.value, false)| > 0
  {
    if |data| <= minSamplesSplit then None
    else
      match chooser(data)
      case None => None
      case Some(s) =>
        if s.feature < width && |Side(data, s, true)| > 0 && |Side(data, s, false)| > 0 then Some(s)
        else None
  }

  function LabelSet(data: seq<Sample>): set<nat> {
    set e | e in data :: e.outcome
  }

  /** The leaf `_grow_tree` makes of the rows: their most frequent label. */
  function LeafFor(data: seq<Sample>): (t: Tree)
    requires |data| > 0
    ensures t.Leaf? && t.value in LabelSet(data)
  {
    var m := Majority(Labels(data));
    var i :| 0 <= i < |data| && Labels(data)[i] == m;
    assert data[i] in data;
    Leaf(m)
  }

  /**
   * `_grow_tree`. `maxDepth` 0 stands for a falsy `max_depth` (None or 0),
   * which never stops the growth. The tree tests only columns the rows
   * have, its leaves hold labels of the rows, a truthy depth limit bounds
   * every path, and rows too few to split become a single leaf.
   */
  function GrowTree(data: seq<Sample>, depth: nat, maxDepth: nat, minSamplesSplit: int, width: nat,
                    chooser: seq<Sample> -> Option<Split>): (t: Tree)
    requires |data| > 0 && Uniform(data, width)
    ensures Fits(t, width)
    ensures LeafValues(t) <= LabelSet(data)
    ensures maxDepth > 0 && depth <= maxDepth ==> depth + Height(t) <= maxDepth
    ensures |data| <= minSamplesSplit ==> t == LeafFor(data)
    decreases |data|
  {
    if maxDepth > 0 && depth >= maxDepth then LeafFor(data)
    else
      match BestSplit(data, width, minSamplesSplit, chooser)
      case None => LeafFor(data)
      case Some(s) =>
        SplitHalves(data, width, s);
        var l := GrowTree(Side(data, s, true), depth + 1, maxDepth, minSamplesSplit, width, chooser);
        var r := GrowTree(Side(data, s, false), depth + 1, maxDepth, minSamplesSplit, width, chooser);
        Node(s.feature, s.threshold, l, r)
  }

  // The forest

  /** `X[:, cols]` for one row: the row's values in the listed columns, in that order. */
  function Project(x: Row, cols: seq<nat>): (y: Row)
    requires forall j :: 0 <= j < |cols| ==> cols[j] < |x|
    ensures |y| == |cols| && forall j :: 0 <= j < |cols| ==> y[j] == x[cols[j]]
  {
    seq(|cols|, j requires 0 <= j < |cols| => x[cols[j]])
  }

  /** The rows and columns one tree is trained on, as drawn by `np.random.choice`. */
  datatype Draw = Draw(rows: seq<nat>, cols: seq<nat>)

  predicate ValidDraw(d: Draw, n: nat, width: nat) {
    && |d.rows| > 0
    && (forall k :: 0 <= k < |d.rows| ==> d.rows[k] < n)
    && (forall j :: 0 <= j < |d.cols| ==> d.cols[j] < width)
  }

  /** `X[sample_idx][:, feat_idx]` with `y[sample_idx]`. */
  function Resample(data: seq<Sample>, width: nat, d: Draw): (sample: seq<Sample>)
    requires Uniform(data, width) && ValidDraw(d, |data|, width)
    ensures |sample| == |d.rows| && Uniform(sample, |d.cols|)
    ensures forall k :: 0 <= k < |d.rows| ==> sample[k].outcome == data[d.rows[k]].outcome
    ensures forall k, j :: 0 <= k < |d.rows| && 0 <= j < |d.cols| ==>
      sample[k].features[j] == data[d.rows[k]].features[d.cols[j]]
  {
    seq(|d.rows|, k requires 0 <= k < |d.rows| =>
      Sample(Project(data[d.rows[k]].features, d.cols), data[d.rows[k]].outcome))
  }

  /** The tree `DecisionTree.fit` grows on one draw, paired with the draw's columns. */
  function Train(data: seq<Sample>, width: nat, d: Draw, maxDepth: nat, minSamplesSplit: int,
                 chooser: seq<Sample> -> Option<Split>): (entry: (Tree, seq<nat>))
    requires Uniform(data, width) && ValidDraw(d, |data|, width)
    ensures entry.1 == d.cols && Fits(entry.0, |d.cols|)
  {
    (GrowTree(Resample(data, width, d), 0, maxDepth, minSamplesSplit, |d.cols|, chooser), d.cols)
  }

  /** One trained tree per draw, in the order of the draws. */
  function TrainAll(data: seq<Sample>, width: nat, draws: seq<Draw>, maxDepth: nat, minSamplesSplit: int,
                    chooser: seq<Sample> -> Option<Split>): (entries: seq<(Tree, seq<nat>)>)
    requires Uniform(data, width) && forall i :: 0 <= i < |draws| ==> ValidDraw(draws[i], |data|, width)
    ensures |entries| == |draws|
  {
    if draws == [] then []
    else
      TrainAll(data, width, draws[..|draws| - 1], maxDepth, minSamplesSplit, chooser)
        + [Train(data, width, draws[|draws| - 1], maxDepth, minSamplesSplit, chooser)]
  }

  /** The loop of `fit`: one tree per draw, trained and kept in the order of the draws. */
  method TrainEach(data: seq<Sample>, width: nat, draws: seq<Draw>, maxDepth: nat, minSamplesSplit: int,
                   chooser: seq<Sample> -> Option<Split>) returns (grown: seq<(Tree, seq<nat>)>)
    requires Uniform(data, width) && forall i :: 0 <= i < |draws| ==> ValidDraw(draws[i], |data|, width)
    ensures grown == TrainAll(data, width, draws, maxDepth, minSamplesSplit, chooser)
  {
    grown := [];
    var i := 0;
    while i < |draws|
      invariant 0 <= i <= |draws|
      invariant grown == TrainAll(data, width, draws[..i], maxDepth, minSamplesSplit, chooser)
    {
      var entry := Train(data, width, draws[i], maxDepth, minSamplesSplit, chooser);
      var prefix := draws[..i + 1];
      assert prefix[..|prefix| - 1] == draws[..i] && prefix[|prefix| - 1] == draws[i];
      assert TrainAll(data, width, prefix, maxDepth, minSamplesSplit, chooser) == grown + [entry];
      grown := grown + [entry];
      i := i + 1;
    }
    assert draws[..i] == draws;
  }

  /** Every trained tree fits its draw's columns, all of them within `width`. */
  lemma {:induction false} TrainAllFits(data: seq<Sample>, width: nat, draws: seq<Draw>, maxDepth: nat,
                                        minSamplesSplit: int, chooser: seq<Sample> -> Option<Split>)
    requires Uniform(data, width) && forall i :: 0 <= i < |draws| ==> ValidDraw(draws[i], |data|, width)
    ensures AllFit(TrainAll(data, width, draws, maxDepth, minSamplesSplit, chooser), width)
  {
    if draws != [] {
      var last := draws[|draws| - 1];
      TrainAllFits(data, width, draws[..|draws| - 1], maxDepth, minSamplesSplit, chooser);
      AllFitAppend(TrainAll(data, width, draws[..|draws| - 1], maxDepth, minSamplesSplit, chooser),
                   [Train(data, width, last, maxDepth, minSamplesSplit, chooser)], width);
    }
  }

  /** Every tree tests only columns of its own column list, and those lie within `width`. */
  predicate AllFit(entries: seq<(Tree, seq<nat>)>, width: nat) {
    forall k :: 0 <= k < |entries| ==>
      Fits(entries[k].0, |entries[k].1|) && forall j :: 0 <= j < |entries[k].1| ==> entries[k].1[j] < width
  }

  lemma AllFitAppend(a: seq<(Tree, seq<nat>)>, b: seq<(Tree, seq<nat>)>, width: nat)
    requires AllFit(a, width) && AllFit(b, width)
    ensures AllFit(a + b, width)
  {
    forall k | 0 <= k < |a + b|
      ensures Fits((a + b)[k].0, |(a + b)[k].1|) && forall j :: 0 <= j < |(a + b)[k].1| ==> (a + b)[k].1[j] < width
    {
      if k < |a| {
        assert (a + b)[k] == a[k];
      } else {
        assert (a + b)[k] == b[k - |a|];
      }
    }
  }

  /** `all_preds[:, k] = column`: column `k` takes the answers, every other entry stays. */
  method FillColumn(a: array2<nat>, k: nat, column: seq<nat>)
    requires k < a.Length1 && |column| == a.Length0
    modifies a
    ensures forall q, c :: 0 <= q < a.Length0 && 0 <= c < a.Length1 ==>
      a[q, c] == if c == k then column[q] else old(a[q, c])
  {
    var r := 0;
    while r < a.Length0
      invariant 0 <= r <= a.Length0
      invariant forall q, c :: 0 <= q < a.Length0 && 0 <= c < a.Length1 ==>
        a[q, c] == if c == k && q < r then column[q] else old(a[q, c])
    {
      a[r, k] := column[r];
      r := r + 1;
    }
  }

  class RandomForest {
    var nTrees: nat
    var maxDepth: nat
    var minSamplesSplit: int
    var trees: seq<(Tree, seq<nat>)>

    constructor(nTrees: nat, maxDepth: nat, minSamplesSplit: int)
      ensures this.nTrees == nTrees && this.maxDepth == maxDepth && this.minSamplesSplit == minSamplesSplit
      ensures trees == []
    {
      this.nTrees := nTrees;
      this.maxDepth := maxDepth;
      this.minSamplesSplit := minSamplesSplit;
      trees := [];
    }

    /** Every tree tests only columns of its own column list, and those lie within `width`. */
    predicate Grown(width: nat)
      reads this
    {
      AllFit(trees, width)
    }

    /**
     * `fit` with the random draws given: one tree per draw, appended in
     * order after the trees already there.
     */
    method Fit(data: seq<Sample>, width: nat, draws: seq<Draw>, chooser: seq<Sample> -> Option<Split>)
      requires Uniform(data, width)
      requires |draws| == nTrees
      requires forall i :: 0 <= i < |draws| ==> ValidDraw(draws[i], |data|, width)
      modifies this`trees
      ensures trees == old(trees) + TrainAll(data, width, draws, maxDepth, minSamplesSplit, chooser)
      ensures old(Grown(width)) ==> Grown(width)
    {
      var grown := TrainEach(data, width, draws, maxDepth, minSamplesSplit, chooser);
      if Grown(width) {
        TrainAllFits(data, width, draws, maxDepth, minSamplesSplit, chooser);
        AllFitAppend(trees, grown, width);
      }
      trees := trees + grown;
    }

    /** The vote of column `k` of `all_preds` on row `x`: tree `k`'s answer, or 0 where there is no tree `k`. */
    function Vote(k: nat, x: Row): nat
      requires Grown(|x|)
      reads this
    {
      if k < |trees| then PredictRow(trees[k].0, Project(x, trees[k].1)) else 0
    }

    /** The row of `all_preds` for `x`: `n_trees` votes, zero-padded past the trained trees. */
    function Ballot(x: Row): (votes: seq<nat>)
      requires Grown(|x|)
      reads this
      ensures |votes| == nTrees && forall k :: 0 <= k < nTrees ==> votes[k] == Vote(k, x)
    {
      seq(nTrees, k requires 0 <= k < nTrees && Grown(|x|) reads this => Vote(k, x))
    }

    /**
     * `predict`: `all_preds` starts as zeros, column `k` is filled with tree
     * `k`'s answers on its own columns of every row, and each row's label is
     * the majority of its votes. More trees than `n_trees` would not fit in
     * `all_preds`, with no votes at all `argmax` has nothing to choose, and
     * `apply_along_axis` refuses an input with no rows.
     */
    method Predict(rows: seq<Row>, width: nat) returns (labels: seq<nat>)
      requires nTrees > 0 && |trees| <= nTrees && |rows| > 0
      requires Grown(width) && forall r :: 0 <= r < |rows| ==> |rows[r]| == width
      ensures |labels| == |rows|
      ensures forall r :: 0 <= r < |rows| ==> labels[r] == Majority(Ballot(rows[r]))
    {
      var allPreds := CollectVotes(rows, width);
      ghost var ballots := Ballots(rows, width);
      labels := [];
      var r := 0;
      while r < |rows|
        invariant 0 <= r <= |rows|
        invariant |labels| == r
        invariant forall q :: 0 <= q < r ==> labels[q] == Majority(ballots[q])
      {
        var n := nTrees;
        var votes := seq(n, c requires 0 <= c < n reads allPreds => allPreds[r, c]);
        assert votes == ballots[r];
        labels := labels + [Majority(votes)];
        r := r + 1;
      }
    }

    /**
     * `all_preds`: a row per input row and a column per tree slot, zero
     * where no tree was trained, tree `k`'s answer in column `k`.
     */
    method CollectVotes(rows: seq<Row>, width: nat) returns (allPreds: array2<nat>)
      requires |trees| <= nTrees
      requires Grown(width) && forall r :: 0 <= r < |rows| ==> |rows[r]| == width
      ensures allPreds.Length0 == |rows| && allPreds.Length1 == nTrees
      ensures forall q, c :: 0 <= q < |rows| && 0 <= c < nTrees ==> allPreds[q, c] == Ballots(rows, width)[q][c]
    {
      ghost var ballots := Ballots(rows, width);
      allPreds := new nat[|rows|, nTrees]((r, c) => 0);
      var k := 0;
      while k < |trees|
        invariant 0 <= k <= |trees|
        invariant forall q, c :: 0 <= q < |rows| && 0 <= c < nTrees ==>
          allPreds[q, c] == if c < k then ballots[q][c] else 0
      {
        var tree, cols := trees[k].0, trees[k].1;
        assert Fits(tree, |cols|) && forall j :: 0 <= j < |cols| ==> cols[j] < width;
        var projected := seq(|rows|, r requires 0 <= r < |rows| && forall j :: 0 <= j < |cols| ==> cols[j] < |rows[r]| =>
          Project(rows[r], cols));
        var column := TreePredict(tree, projected);
        forall q | 0 <= q < |rows|
          ensures column[q] == ballots[q][k]
        {
          assert ballots[q][k] == Vote(k, rows[q]);
        }
        FillColumn(allPreds, k, column);
        k := k + 1;
      }
      forall q, c | 0 <= q < |rows| && k <= c < nTrees
        ensures ballots[q][c] == 0
      {
        assert ballots[q][c] == Vote(c, rows[q]);
      }
    }

    /** The ballots of all rows. */
    ghost function Ballots(rows: seq<Row>, width: nat): (ballots: seq<seq<nat>>)
      requires Grown(width) && forall r :: 0 <= r < |rows| ==> |rows[r]| == width
      reads this
      ensures |ballots| == |rows|
      ensures forall r :: 0 <= r < |rows| ==> ballots[r] == Ballot(rows[r])
    {
      seq(|rows|, r requires 0 <= r < |rows| && Grown(width) && |rows[r]| == width reads this => Ballot(rows[r]))
    }

    /**
     * Tree `k` reads only its own columns, and of those only the ones it
     * tests: rows that agree there get the same vote from it.
     */
    lemma VoteReadsOwnColumns(k: nat, x: Row, y: Row)
      requires Grown(|x|) && Grown(|y|) && k < |trees|
      requires forall j :: j in Features(trees[k].0) && j < |trees[k].1| ==> x[trees[k].1[j]] == y[trees[k].1[j]]
      ensures Vote(k, x) == Vote(k, y)
    {
      var cols := trees[k].1;
      PredictReadsOnlyTestedColumns(trees[k].0, Project(x, cols), Project(y, cols));
    }
  }
}
