/**
 * Outline skeleton arithmetic: choosing the two "important" level-1 chapters, sharing a leaf
 * budget across level-1 and level-2 nodes, and building the `i` / `i.j` / `i.j.k` id skeleton
 * of one level-1 chapter.
 */
module OutlineUtil {
  import opened Wrappers
  import opened Strings
  import opened Outline

  // ---------------------------------------------------------------------------------------------
  // get_random_indexes

  /**
   * `get_random_indexes(max_index)`: two distinct indexes in `[0, max_index)`. The choices of
   * `random.sample` are the parameters `first` (any index) and `gap` (which of the other
   * `max_index - 1` indexes, counted cyclically after the first); every distinct pair is some
   * choice's result (see `EveryPairIsDrawn`).
   */
  function GetRandomIndexes(maxIndex: int, first: nat, gap: nat): (r: Result<(nat, nat), string>)
    requires maxIndex >= 2 ==> first < maxIndex && gap < maxIndex - 1
    ensures r.Err? <==> maxIndex < 2
    ensures r.Ok? ==> r.value.0 == first && r.value.1 < maxIndex && r.value.0 != r.value.1
  {
    if maxIndex < 2 then Err("max_index must be at least 2")
    else
      var second := first + 1 + gap;
      Ok((first, if second < maxIndex then second else second - maxIndex))
  }

  /** `random.sample(range(max_index), 2)` can return any ordered pair of distinct indexes. */
  lemma EveryPairIsDrawn(maxIndex: int, a: nat, b: nat) returns (gap: nat)
    requires 2 <= maxIndex && a < maxIndex && b < maxIndex && a != b
    ensures gap < maxIndex - 1 && GetRandomIndexes(maxIndex, a, gap) == Ok((a, b))
  {
    gap := if b > a then b - a - 1 else b + maxIndex - a - 1;
  }

  // ---------------------------------------------------------------------------------------------
  // calculate_nodes_distribution

  /**
   * Python's `round()` applied to the rational `num / den`: the nearest integer, ties to the
   * even one. The source rounds the binary float of the quotient; the two agree except where
   * the float error crosses a tie.
   */
  function RoundRatio(num: int, den: int): int
    requires den > 0
  {
    var f := num / den;
    var m := num % den;
    if 2 * m < den then f
    else if 2 * m > den then f + 1
    else if f % 2 == 0 then f
    else f + 1
  }

  /** `RoundRatio` is within half a unit of the exact quotient, and a tie goes to the even neighbour. */
  lemma RoundRatioNearest(num: int, den: int)
    requires den > 0
    ensures num / den <= RoundRatio(num, den) <= num / den + 1
    ensures -den <= 2 * (RoundRatio(num, den) * den - num) <= den
    ensures 2 * (RoundRatio(num, den) * den - num) in {-den, den} ==> RoundRatio(num, den) % 2 == 0
  {
    var f := num / den;
    var m := num % den;
    assert num == f * den + m;
    assert (f + 1) * den - num == den - m;
  }

  /** The weights `p_weight`, `s_weight`, `n_weight` (1.4, 1.2, 1.0), counted in fifths. */
  const PrimaryWeight: nat := 7
  const SecondaryWeight: nat := 6
  const NormalWeight: nat := 5

  /** `total_weight = (level1_count - 2) * n_weight + p_weight + s_weight`, in fifths. */
  function TotalWeight(level1Count: nat): (w: nat)
    requires level1Count >= 1
    ensures w == 5 * level1Count + 3
  {
    (level1Count - 2) * NormalWeight + PrimaryWeight + SecondaryWeight
  }

  /** `base_l2 = round(total_leaf_nodes / level1_count / 3)`. */
  function BaseL2(level1Count: nat, totalLeafNodes: nat): int
    requires level1Count >= 1
  {
    RoundRatio(totalLeafNodes, 3 * level1Count)
  }

  /**
   * `level2_nodes` after the two in-place updates: `base_l2` everywhere except the two important
   * positions (`round(base_l2 * 1.4)` and `round(base_l2 * 1.2)`); when both indexes coincide
   * the second assignment (secondary weight) wins.
   */
  function Level2Nodes(level1Count: nat, primary: nat, secondary: nat, totalLeafNodes: nat): (r: seq<int>)
    requires level1Count >= 1
    ensures |r| == level1Count
  {
    var base := BaseL2(level1Count, totalLeafNodes);
    seq(level1Count, k =>
      if k == secondary then RoundRatio(base * SecondaryWeight, 5)
      else if k == primary then RoundRatio(base * PrimaryWeight, 5)
      else base)
  }

  /** The weight of level-1 node `i` in the leaf share (`p_weight` is tested first), in fifths. */
  function Weight(i: nat, primary: nat, secondary: nat): nat
  {
    if i == primary then PrimaryWeight else if i == secondary then SecondaryWeight else NormalWeight
  }

  /** `round(total_leaf_nodes * weight / total_weight)`, the leaf target of every level-1 node but the last. */
  function RoundedTarget(level1Count: nat, i: nat, primary: nat, secondary: nat, totalLeafNodes: nat): int
    requires level1Count >= 1
  {
    RoundRatio(totalLeafNodes * Weight(i, primary, secondary), TotalWeight(level1Count))
  }

  function Sum(s: seq<int>): int
  {
    if s == [] then 0 else Sum(s[..|s| - 1]) + s[|s| - 1]
  }

  /**
   * `[l_per_l2 + (1 if j < extra else 0) for j in range(l2_count)]` with
   * `l_per_l2, extra = target // l2_count, target % l2_count` (floor division, as Dafny's for a
   * positive divisor).
   */
  function SplitEvenly(target: int, count: nat): (r: seq<int>)
    requires count > 0
    ensures |r| == count
  {
    seq(count, j => target / count + (if j < target % count then 1 else 0))
  }

  lemma {:induction false} SplitEvenlyPrefixSum(target: int, count: nat, k: nat)
    requires count > 0 && k <= count
    ensures Sum(SplitEvenly(target, count)[..k]) == k * (target / count) + (if k < target % count then k else target % count)
  {
    var s := SplitEvenly(target, count);
    if k > 0 {
      SplitEvenlyPrefixSum(target, count, k - 1);
      assert s[..k][..k - 1] == s[..k - 1];
      assert Sum(s[..k]) == Sum(s[..k - 1]) + s[k - 1];
    }
  }

  /** The leaves of one level-1 node are shared out so that nothing is lost or invented. */
  lemma SplitEvenlySum(target: int, count: nat)
    requires count > 0
    ensures Sum(SplitEvenly(target, count)) == target
  {
    var s := SplitEvenly(target, count);
    SplitEvenlyPrefixSum(target, count, count);
    assert s[..count] == s;
    assert target == count * (target / count) + target % count;
  }

  /** The share is balanced: non-increasing, and no two level-2 nodes differ by more than one leaf. */
  lemma SplitEvenlyBalanced(target: int, count: nat)
    requires count > 0
    ensures forall j1, j2 :: 0 <= j1 <= j2 < count ==>
      0 <= SplitEvenly(target, count)[j1] - SplitEvenly(target, count)[j2] <= 1
  {
  }

  datatype Distribution = Distribution(level2Nodes: seq<int>, leafNodes: seq<int>, leafPerLevel2: seq<seq<int>>)

  /** The `ZeroDivisionError` raised by `target // l2_count` for the first level-1 node with no level-2 nodes. */
  datatype DistributionError = ZeroDivision(index: nat)

  /** The distribution the loop of `calculate_nodes_distribution` computes, node by node. */
  ghost predicate IsDistribution(d: Distribution, level1Count: nat, primary: nat, secondary: nat, totalLeafNodes: nat)
    requires level1Count >= 1
  {
    && d.level2Nodes == Level2Nodes(level1Count, primary, secondary, totalLeafNodes)
    && |d.leafNodes| == level1Count
    && |d.leafPerLevel2| == level1Count
    && (forall i :: 0 <= i < level1Count - 1 ==>
          d.leafNodes[i] == RoundedTarget(level1Count, i, primary, secondary, totalLeafNodes))
    && (forall i :: 0 <= i < level1Count ==>
          d.level2Nodes[i] > 0 && d.leafPerLevel2[i] == SplitEvenly(d.leafNodes[i], d.level2Nodes[i]))
  }

  /** The list `level2_nodes`, built and then updated in place at the two important positions. */
  method NewLevel2Nodes(level1Count: nat, primary: nat, secondary: nat, totalLeafNodes: nat) returns (level2: array<int>)
    requires primary < level1Count && secondary < level1Count
    ensures fresh(level2) && level2[..] == Level2Nodes(level1Count, primary, secondary, totalLeafNodes)
  {
    var base := BaseL2(level1Count, totalLeafNodes);
    level2 := new int[level1Count](_ => base);
    level2[primary] := RoundRatio(base * PrimaryWeight, 5);
    level2[secondary] := RoundRatio(base * SecondaryWeight, 5);
  }

  /**
   * `calculate_nodes_distribution(level1_count, (primary, secondary), total_leaf_nodes)`. The
   * last level-1 node takes the remaining leaves, so the leaf counts always sum to the total,
   * whatever the rounded targets of the others were.
   */
  method CalculateNodesDistribution(level1Count: nat, primary: nat, secondary: nat, totalLeafNodes: nat)
    returns (r: Result<Distribution, DistributionError>)
    requires primary < level1Count && secondary < level1Count
    ensures r.Ok? ==> IsDistribution(r.value, level1Count, primary, secondary, totalLeafNodes)
    ensures r.Ok? ==> Sum(r.value.leafNodes) == totalLeafNodes
    ensures r.Ok? ==> forall i :: 0 <= i < level1Count ==>
      |r.value.leafPerLevel2[i]| == r.value.level2Nodes[i] && Sum(r.value.leafPerLevel2[i]) == r.value.leafNodes[i]
    ensures r.Err? <==> exists k :: 0 <= k < level1Count && Level2Nodes(level1Count, primary, secondary, totalLeafNodes)[k] == 0
    ensures r.Err? ==> (r.error.index < level1Count
      && Level2Nodes(level1Count, primary, secondary, totalLeafNodes)[r.error.index] == 0
      && forall k :: 0 <= k < r.error.index ==> Level2Nodes(level1Count, primary, secondary, totalLeafNodes)[k] != 0)
  {
    var n := level1Count;
    var level2 := NewLevel2Nodes(n, primary, secondary, totalLeafNodes);
    ghost var spec := Level2Nodes(n, primary, secondary, totalLeafNodes);
    Level2NonNegative(n, primary, secondary, totalLeafNodes);

    var remLeaves: int := totalLeafNodes;
    var leafNodes: seq<int> := seq(n, _ => 0);
    var leafPerL2: seq<seq<int>> := [];
    var i := 0;
    while i < n
      invariant 0 <= i <= n && |leafNodes| == n
      invariant level2[..] == spec
      invariant |leafPerL2| == i
      invariant forall k :: 0 <= k < i ==> spec[k] > 0 && leafPerL2[k] == SplitEvenly(leafNodes[k], spec[k])
      invariant forall k :: 0 <= k < i && k < n - 1 ==>
        leafNodes[k] == RoundedTarget(n, k, primary, secondary, totalLeafNodes)
      invariant remLeaves == totalLeafNodes - Sum(leafNodes[..i])
      invariant i == n ==> remLeaves == 0
    {
      var target := if i < n - 1 then RoundedTarget(n, i, primary, secondary, totalLeafNodes) else remLeaves;
      var l2Count := level2[i];
      if l2Count == 0 {
        assert spec[i] == 0;
        return Err(ZeroDivision(i));
      }
      SplitsSnoc(leafPerL2, leafNodes, spec, i, target);
      leafPerL2 := leafPerL2 + [SplitEvenly(target, l2Count)];
      SumSnoc(leafNodes, i, target);
      leafNodes := leafNodes[i := target];
      remLeaves := remLeaves - target;
      i := i + 1;
    }
    assert leafNodes[..n] == leafNodes;
    var d := Distribution(level2[..], leafNodes, leafPerL2);
    SplitsSum(d);
    r := Ok(d);
  }

  /** Recording the split of node `i` keeps the splits of nodes `0..i` in step with their targets. */
  lemma SplitsSnoc(splits: seq<seq<int>>, leafNodes: seq<int>, spec: seq<int>, i: nat, target: int)
    requires |splits| == i < |leafNodes| && i < |spec| && spec[i] > 0
    requires forall k :: 0 <= k < i ==> spec[k] > 0 && splits[k] == SplitEvenly(leafNodes[k], spec[k])
    ensures forall k :: 0 <= k < i + 1 ==>
      spec[k] > 0 && (splits + [SplitEvenly(target, spec[i])])[k] == SplitEvenly(leafNodes[i := target][k], spec[k])
  {
  }

  /** Setting entry `i` after the first `i` entries extends their sum by it. */
  lemma SumSnoc(xs: seq<int>, i: nat, x: int)
    requires i < |xs|
    ensures Sum(xs[i := x][..i + 1]) == Sum(xs[..i]) + x
  {
    var ys := xs[i := x][..i + 1];
    assert ys[..i] == xs[..i];
  }

  lemma SplitsSum(d: Distribution)
    requires |d.leafPerLevel2| == |d.level2Nodes| == |d.leafNodes|
    requires forall k :: 0 <= k < |d.level2Nodes| ==>
      d.level2Nodes[k] > 0 && d.leafPerLevel2[k] == SplitEvenly(d.leafNodes[k], d.level2Nodes[k])
    ensures forall k :: 0 <= k < |d.level2Nodes| ==>
      |d.leafPerLevel2[k]| == d.level2Nodes[k] && Sum(d.leafPerLevel2[k]) == d.leafNodes[k]
  {
    forall k | 0 <= k < |d.level2Nodes|
      ensures |d.leafPerLevel2[k]| == d.level2Nodes[k] && Sum(d.leafPerLevel2[k]) == d.leafNodes[k]
    {
      SplitEvenlySum(d.leafNodes[k], d.level2Nodes[k]);
    }
  }

  /** Every entry of `level2_nodes` is non-negative, so a non-zero one is a valid divisor. */
  lemma Level2NonNegative(level1Count: nat, primary: nat, secondary: nat, totalLeafNodes: nat)
    requires level1Count >= 1
    ensures forall k :: 0 <= k < level1Count ==> Level2Nodes(level1Count, primary, secondary, totalLeafNodes)[k] >= 0
  {
    var base := BaseL2(level1Count, totalLeafNodes);
    RoundRatioNonNegative(totalLeafNodes, 3 * level1Count);
    RoundRatioNonNegative(base * SecondaryWeight, 5);
    RoundRatioNonNegative(base * PrimaryWeight, 5);
  }

  lemma RoundRatioNonNegative(num: int, den: int)
    requires num >= 0 && den > 0
    ensures RoundRatio(num, den) >= 0
  {
  }

  /** The leaf budget `generate_outline_v2` passes: `max(150, len(level_l1) * 10)`. */
  function LeafBudget(level1Count: nat): nat
  {
    if 150 >= 10 * level1Count then 150 else 10 * level1Count
  }

  /**
   * With the budget `generate_outline_v2` passes (`max(150, 10 * n)` leaves), every level-1
   * node gets at least three level-2 nodes, so the distribution never divides by zero.
   */
  lemma CallerBudgetHasNoEmptyLevel1(level1Count: nat, primary: nat, secondary: nat)
    requires level1Count >= 1
    ensures forall k :: 0 <= k < level1Count ==> Level2Nodes(level1Count, primary, secondary, LeafBudget(level1Count))[k] >= 3
  {
    var n := level1Count;
    var total := LeafBudget(n);
    var base := BaseL2(n, total);
    assert base >= 3 by {
      assert total >= 3 * (3 * n);
      QuotientAtLeast(total, 3 * n, 3);
      RoundRatioNearest(total, 3 * n);
    }
    var hi := RoundRatio(base * SecondaryWeight, 5);
    var top := RoundRatio(base * PrimaryWeight, 5);
    assert hi >= 3 && top >= 3 by {
      RoundRatioNearest(base * SecondaryWeight, 5);
      RoundRatioNearest(base * PrimaryWeight, 5);
    }
    var l2 := Level2Nodes(n, primary, secondary, total);
    forall k | 0 <= k < n
      ensures l2[k] >= 3
    {
      assert l2[k] == base || l2[k] == hi || l2[k] == top;
    }
  }

  lemma QuotientAtLeast(num: int, den: int, c: int)
    requires den > 0 && num >= c * den
    ensures num / den >= c
  {
    var f := num / den;
    var m := num % den;
    assert num == f * den + m && m < den;
    if f < c {
      MulMonotone(f, c - 1, den);
      assert false;
    }
  }

  lemma MulMonotone(a: int, b: int, k: int)
    requires a <= b && k >= 0
    ensures a * k <= b * k
  {
  }

  // ---------------------------------------------------------------------------------------------
  // generate_one_outline_json_by_level1

  /** `range(n)` also accepts negative `n` and is then empty. */
  function RangeLen(n: int): nat
  {
    if n < 0 then 0 else n
  }

  function ChildId(level1Index: nat, j: nat): string
  {
    NatToString(level1Index) + "." + NatToString(j + 1)
  }

  function LeafId(level1Index: nat, j: nat, k: nat): string
  {
    ChildId(level1Index, j) + "." + NatToString(k + 1)
  }

  /**
   * `generate_one_outline_json_by_level1(title, level1_index, dist)`: the skeleton of level-1
   * chapter `level1_index` (1-based), with empty titles and descriptions below it.
   */
  function GenerateOutlineByLevel1(level1Title: string, level1Index: nat, dist: Distribution): (root: Node)
    requires 1 <= level1Index <= |dist.level2Nodes| && level1Index <= |dist.leafPerLevel2|
    requires RangeLen(dist.level2Nodes[level1Index - 1]) <= |dist.leafPerLevel2[level1Index - 1]|
    ensures root.id == NatToString(level1Index) && root.title == level1Title && root.description == ""
    ensures root.children.Present? && |root.children.nodes| == RangeLen(dist.level2Nodes[level1Index - 1])
    ensures root.content.None?
  {
    var l2Count := RangeLen(dist.level2Nodes[level1Index - 1]);
    var leafDist := dist.leafPerLevel2[level1Index - 1];
    Node(NatToString(level1Index), level1Title, "", Present(seq(l2Count, j requires 0 <= j < l2Count =>
      Node(ChildId(level1Index, j), "", "", Present(seq(RangeLen(leafDist[j]), k requires 0 <= k =>
        Node(LeafId(level1Index, j, k), "", "", Absent, None))), None))), None)
  }

  /**
   * The skeleton's shape: child `j` has id `i.(j+1)` and `leaf_dist[j]` leaves with ids
   * `i.(j+1).(k+1)`, and the leaves carry no `children` key.
   */
  lemma GeneratedShape(level1Title: string, level1Index: nat, dist: Distribution)
    requires 1 <= level1Index <= |dist.level2Nodes| && level1Index <= |dist.leafPerLevel2|
    requires RangeLen(dist.level2Nodes[level1Index - 1]) <= |dist.leafPerLevel2[level1Index - 1]|
    ensures var root := GenerateOutlineByLevel1(level1Title, level1Index, dist);
      var leafDist := dist.leafPerLevel2[level1Index - 1];
      forall j :: 0 <= j < |root.children.nodes| ==>
        var child := root.children.nodes[j];
        && child.id == ChildId(level1Index, j)
        && child.children.Present?
        && |child.children.nodes| == RangeLen(leafDist[j])
        && forall k :: 0 <= k < |child.children.nodes| ==>
             child.children.nodes[k].id == LeafId(level1Index, j, k)
             && child.children.nodes[k].children == Absent
  {
  }

  predicate NoDot(s: string)
  {
    forall i :: 0 <= i < |s| ==> s[i] != '.'
  }

  /** A dot-separated id splits uniquely at its first dot. */
  lemma SplitAtFirstDot(a: string, b: string, c: string, d: string)
    requires NoDot(a) && NoDot(c)
    requires a + "." + b == c + "." + d
    ensures a == c && b == d
  {
    var x := a + "." + b;
    assert |a| == |c| by {
      assert x[|a|] == '.';
      assert (c + "." + d)[|c|] == '.';
    }
    assert a == x[..|a|] == c;
    assert b == x[|a| + 1..] == d;
  }

  function Dots(s: string): nat
  {
    if s == [] then 0 else Dots(s[..|s| - 1]) + (if s[|s| - 1] == '.' then 1 else 0)
  }

  lemma {:induction false} DotsAppend(a: string, b: string)
    ensures Dots(a + b) == Dots(a) + Dots(b)
    decreases |b|
  {
    if b == [] {
      assert a + b == a;
    } else {
      DotsAppend(a, b[..|b| - 1]);
      assert (a + b)[..|a + b| - 1] == a + b[..|b| - 1];
    }
  }

  lemma {:induction false} NoDotHasNoDots(s: string)
    requires NoDot(s)
    ensures Dots(s) == 0
    decreases |s|
  {
    if s != [] {
      NoDotHasNoDots(s[..|s| - 1]);
    }
  }

  lemma NumberHasNoDot(n: nat)
    ensures NoDot(NatToString(n)) && Dots(NatToString(n)) == 0
  {
    NoDotHasNoDots(NatToString(n));
  }

  /** Chapter ids have one dot, leaf ids two; the root id has none. */
  lemma IdDots(i: nat, j: nat, k: nat)
    ensures Dots(ChildId(i, j)) == 1 && Dots(LeafId(i, j, k)) == 2
  {
    NumberHasNoDot(i);
    NumberHasNoDot(j + 1);
    NumberHasNoDot(k + 1);
    DotsAppend(NatToString(i), ".");
    DotsAppend(NatToString(i) + ".", NatToString(j + 1));
    DotsAppend(ChildId(i, j), ".");
    DotsAppend(ChildId(i, j) + ".", NatToString(k + 1));
  }

  lemma ChildIdInjective(i: nat, j1: nat, j2: nat)
    requires ChildId(i, j1) == ChildId(i, j2)
    ensures j1 == j2
  {
    NumberHasNoDot(i);
    SplitAtFirstDot(NatToString(i), NatToString(j1 + 1), NatToString(i), NatToString(j2 + 1));
    NatToStringInjective(j1 + 1, j2 + 1);
  }

  lemma Regroup(p: string, a: string, b: string)
    ensures p + "." + a + "." + b == p + "." + (a + "." + b)
  {
  }

  lemma LeafIdInjective(i: nat, j1: nat, k1: nat, j2: nat, k2: nat)
    requires LeafId(i, j1, k1) == LeafId(i, j2, k2)
    ensures j1 == j2 && k1 == k2
  {
    LeafIdParts(i, j1, k1);
    LeafIdParts(i, j2, k2);
    TwoDotsInjective(NatToString(i), NatToString(j1 + 1), NatToString(k1 + 1), NatToString(j2 + 1), NatToString(k2 + 1));
    NatToStringInjective(j1 + 1, j2 + 1);
    NatToStringInjective(k1 + 1, k2 + 1);
  }

  /** A leaf id splits back into its three numbers: the dots cannot come from the digits. */
  lemma LeafIdParts(i: nat, j: nat, k: nat)
    ensures NoDot(NatToString(i)) && NoDot(NatToString(j + 1))
    ensures LeafId(i, j, k) == NatToString(i) + "." + NatToString(j + 1) + "." + NatToString(k + 1)
  {
    NumberHasNoDot(i);
    NumberHasNoDot(j + 1);
  }

  lemma TwoDotsInjective(p: string, a1: string, b1: string, a2: string, b2: string)
    requires NoDot(p) && NoDot(a1) && NoDot(a2)
    requires p + "." + a1 + "." + b1 == p + "." + a2 + "." + b2
    ensures a1 == a2 && b1 == b2
  {
    Regroup(p, a1, b1);
    Regroup(p, a2, b2);
    SplitAtFirstDot(p, a1 + "." + b1, p, a2 + "." + b2);
    SplitAtFirstDot(a1, b1, a2, b2);
  }

  /**
   * All ids of a generated skeleton are distinct: the root's, the level-2 nodes' and the
   * leaves' ids never collide, within a level or across levels.
   */
  lemma GeneratedIdsDistinct(i: nat, j1: nat, k1: nat, j2: nat, k2: nat)
    ensures ChildId(i, j1) != NatToString(i) && LeafId(i, j1, k1) != NatToString(i)
    ensures LeafId(i, j1, k1) != ChildId(i, j2)
    ensures ChildId(i, j1) == ChildId(i, j2) ==> j1 == j2
    ensures LeafId(i, j1, k1) == LeafId(i, j2, k2) ==> j1 == j2 && k1 == k2
  {
    IdDots(i, j1, k1);
    IdDots(i, j2, k2);
    NumberHasNoDot(i);
    if ChildId(i, j1) == ChildId(i, j2) {
      ChildIdInjective(i, j1, j2);
    }
    if LeafId(i, j1, k1) == LeafId(i, j2, k2) {
      LeafIdInjective(i, j1, k1, j2, k2);
    }
  }
}
