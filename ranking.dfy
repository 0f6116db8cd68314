/**
 * Ranking cells by how much they changed: the descending order
 * `np.argsort(-values)`, the cells above a threshold, the
 * `_pair_moves` / `_fallback_pair_moves` pair pickers and the
 * top-k-above-threshold highlight loops.
 *
 * The order breaks ties by index (a stable sort).
 */
module Ranking {

  /** `a` comes before `b` in the descending order: larger value first, then smaller index. */
  predicate Before(x: seq<real>, a: int, b: int)
    requires 0 <= a < |x| && 0 <= b < |x|
  {
    x[a] > x[b] || (x[a] == x[b] && a < b)
  }

  predicate InRange(x: seq<real>, s: seq<int>)
  {
    forall k :: 0 <= k < |s| ==> 0 <= s[k] < |x|
  }

  /** `s` lists indices of `x` in strictly descending order. */
  predicate Ranked(x: seq<real>, s: seq<int>)
  {
    InRange(x, s) && forall j, k :: 0 <= j < k < |s| ==> Before(x, s[j], s[k])
  }

  /** Inserts index `i`, which is larger than every index in `s`, after the entries whose value is at least `x[i]`. */
  function Insert(x: seq<real>, i: int, s: seq<int>): (r: seq<int>)
    requires 0 <= i < |x| && InRange(x, s)
    ensures |r| == |s| + 1 && InRange(x, r)
    ensures forall v :: v in r <==> v == i || v in s
  {
    if s == [] then [i]
    else if x[s[0]] >= x[i] then [s[0]] + Insert(x, i, s[1..])
    else [i] + s
  }

  /** The indices `0 .. n-1` in descending order of value. */
  function SortPrefix(x: seq<real>, n: nat): (r: seq<int>)
    requires n <= |x|
    ensures |r| == n && InRange(x, r)
    ensures forall v :: v in r <==> 0 <= v < n
  {
    if n == 0 then [] else Insert(x, n - 1, SortPrefix(x, n - 1))
  }

  /** `np.argsort(-x)`, with ties in index order. */
  function ArgsortDesc(x: seq<real>): (order: seq<int>)
    ensures |order| == |x| && InRange(x, order)
  {
    SortPrefix(x, |x|)
  }

  lemma {:induction false} InsertRanked(x: seq<real>, i: int, s: seq<int>)
    requires 0 <= i < |x| && Ranked(x, s)
    requires forall k :: 0 <= k < |s| ==> s[k] < i
    ensures Ranked(x, Insert(x, i, s))
    decreases |s|
  {
    if s != [] {
      var r := Insert(x, i, s);
      if x[s[0]] >= x[i] {
        var t := s[1..];
        assert forall k :: 0 <= k < |t| ==> t[k] == s[k + 1];
        InsertRanked(x, i, t);
        forall k | 1 <= k < |r| ensures Before(x, r[0], r[k]) {
          assert r[k] in Insert(x, i, t);
          if r[k] != i {
            var p :| 0 <= p < |t| && t[p] == r[k];
            assert Before(x, s[0], s[p + 1]);
          }
        }
      } else {
        forall k | 1 <= k < |r| ensures Before(x, r[0], r[k]) {
          if k > 1 {
            assert Before(x, s[0], s[k - 1]);
          }
        }
      }
    }
  }

  lemma {:induction false} SortPrefixRanked(x: seq<real>, n: nat)
    requires n <= |x|
    ensures Ranked(x, SortPrefix(x, n))
  {
    if n > 0 {
      var s := SortPrefix(x, n - 1);
      SortPrefixRanked(x, n - 1);
      forall k | 0 <= k < |s| ensures s[k] < n - 1 {
        assert s[k] in s;
      }
      InsertRanked(x, n - 1, s);
    }
  }

  /** The order is a permutation of the indices, sorted by descending value with ties in index order. */
  lemma ArgsortRanked(x: seq<real>)
    ensures forall v :: v in ArgsortDesc(x) <==> 0 <= v < |x|
    ensures Ranked(x, ArgsortDesc(x))
  {
    SortPrefixRanked(x, |x|);
  }

  /** The first entry is the maximum (numpy's `argmax`: the first index holding it) and the second is the maximum of the rest. */
  lemma TopTwo(x: seq<real>)
    requires |x| >= 2
    ensures var o := ArgsortDesc(x);
      o[0] != o[1]
      && (forall k :: 0 <= k < |x| ==> x[k] <= x[o[0]])
      && (forall k :: 0 <= k < o[0] ==> x[k] < x[o[0]])
      && (forall k :: 0 <= k < |x| && k != o[0] ==> x[k] <= x[o[1]])
  {
    var o := ArgsortDesc(x);
    ArgsortRanked(x);
    assert Before(x, o[0], o[1]);
    forall k | 0 <= k < |x| ensures x[k] <= x[o[0]] && (k < o[0] ==> x[k] < x[o[0]]) && (k != o[0] ==> x[k] <= x[o[1]]) {
      assert k in o;
      var p :| 0 <= p < |o| && o[p] == k;
      if p > 0 {
        assert Before(x, o[0], o[p]);
      }
      if p > 1 {
        assert Before(x, o[1], o[p]);
      }
    }
  }

  /** `v > thr` for the strict pickers, `v >= thr` for the others. */
  predicate Qualifies(v: real, thr: real, strict: bool)
  {
    if strict then v > thr else v >= thr
  }

  /** The entries of `s` whose value qualifies, in the order of `s`. */
  function Above(x: seq<real>, s: seq<int>, thr: real, strict: bool): (r: seq<int>)
    requires InRange(x, s)
    ensures |r| <= |s| && InRange(x, r)
  {
    if s == [] then []
    else (if Qualifies(x[s[0]], thr, strict) then [s[0]] else []) + Above(x, s[1..], thr, strict)
  }

  /** Exactly the qualifying entries of `s` survive the filter. */
  lemma {:induction false} AboveMembers(x: seq<real>, s: seq<int>, thr: real, strict: bool)
    requires InRange(x, s)
    ensures forall v :: v in Above(x, s, thr, strict) <==> v in s && Qualifies(x[v], thr, strict)
  {
    if s != [] {
      AboveMembers(x, s[1..], thr, strict);
      assert forall v :: v in s <==> v == s[0] || v in s[1..];
    }
  }

  lemma {:induction false} AboveAppend(x: seq<real>, a: seq<int>, b: seq<int>, thr: real, strict: bool)
    requires InRange(x, a) && InRange(x, b)
    ensures InRange(x, a + b)
    ensures Above(x, a + b, thr, strict) == Above(x, a, thr, strict) + Above(x, b, thr, strict)
    decreases |a|
  {
    if a == [] {
      assert a + b == b;
    } else {
      var h := if Qualifies(x[a[0]], thr, strict) then [a[0]] else [];
      assert (a + b)[0] == a[0];
      assert (a + b)[1..] == a[1..] + b;
      AboveAppend(x, a[1..], b, thr, strict);
      calc {
        Above(x, a + b, thr, strict);
        h + Above(x, a[1..] + b, thr, strict);
        h + (Above(x, a[1..], thr, strict) + Above(x, b, thr, strict));
        (h + Above(x, a[1..], thr, strict)) + Above(x, b, thr, strict);
      }
    }
  }

  /** In a descending order the qualifying entries are a prefix, and the entry right after it does not qualify. */
  lemma {:induction false} AboveIsPrefix(x: seq<real>, s: seq<int>, thr: real, strict: bool)
    requires Ranked(x, s)
    ensures Above(x, s, thr, strict) == s[..|Above(x, s, thr, strict)|]
    ensures |Above(x, s, thr, strict)| < |s| ==> !Qualifies(x[s[|Above(x, s, thr, strict)|]], thr, strict)
    decreases |s|
  {
    if s != [] {
      RankedTail(x, s);
      AboveIsPrefix(x, s[1..], thr, strict);
      if Qualifies(x[s[0]], thr, strict) {
        PrefixHead(x, s, thr, strict);
      } else {
        PrefixEmpty(x, s, thr, strict);
      }
    }
  }

  /** A qualifying head extends the qualifying prefix of the rest. */
  lemma PrefixHead(x: seq<real>, s: seq<int>, thr: real, strict: bool)
    requires InRange(x, s) && s != [] && Qualifies(x[s[0]], thr, strict)
    requires var r := Above(x, s[1..], thr, strict);
      r == s[1..][..|r|] && (|r| < |s| - 1 ==> !Qualifies(x[s[1..][|r|]], thr, strict))
    ensures Above(x, s, thr, strict) == s[..|Above(x, s, thr, strict)|]
    ensures |Above(x, s, thr, strict)| < |s| ==> !Qualifies(x[s[|Above(x, s, thr, strict)|]], thr, strict)
  {
    var t := s[1..];
    var rest := Above(x, t, thr, strict);
    var m := |rest|;
    assert Above(x, s, thr, strict) == [s[0]] + rest;
    assert [s[0]] + t[..m] == s[..m + 1];
  }

  /** When the head of a descending order does not qualify, nothing does. */
  lemma PrefixEmpty(x: seq<real>, s: seq<int>, thr: real, strict: bool)
    requires Ranked(x, s) && s != [] && !Qualifies(x[s[0]], thr, strict)
    requires var r := Above(x, s[1..], thr, strict); r == s[1..][..|r|]
    ensures Above(x, s, thr, strict) == []
  {
    var t := s[1..];
    var rest := Above(x, t, thr, strict);
    assert Above(x, s, thr, strict) == rest;
    if |rest| > 0 {
      assert Before(x, s[0], s[1]);
      assert rest[0] == s[1];
      AboveMembers(x, t, thr, strict);
      assert false;
    }
  }

  /** The rest of a descending order descends. */
  lemma RankedTail(x: seq<real>, s: seq<int>)
    requires Ranked(x, s) && s != []
    ensures Ranked(x, s[1..])
  {
    var t := s[1..];
    forall j, k | 0 <= j < k < |t| ensures Before(x, t[j], t[k]) {
      assert Before(x, s[j + 1], s[k + 1]);
    }
  }

  /** `len(candidates)`: how many cells of the descending order qualify. */
  function CountAbove(x: seq<real>, thr: real, strict: bool): nat
  {
    |Above(x, ArgsortDesc(x), thr, strict)|
  }

  /** `_pair_moves`: the two leading cells strictly above the threshold, if there are two. */
  function PairMoves(norms: seq<real>, thr: real): seq<(int, int)>
  {
    var c := Above(norms, ArgsortDesc(norms), thr, true);
    if |c| < 2 then [] else [(c[0], c[1])]
  }

  /** The pair of the two highest cells, when there are two cells. */
  function TopPair(x: seq<real>): (r: seq<(int, int)>)
    ensures |r| <= 1
  {
    var o := ArgsortDesc(x);
    if |o| < 2 then [] else [(o[0], o[1])]
  }

  /**
   * `_pair_moves` finds a pair exactly when two distinct cells are
   * strictly above the threshold, and the pair it finds is always the
   * two highest cells.
   */
  lemma PairMovesIsTopPair(norms: seq<real>, thr: real)
    ensures PairMoves(norms, thr) != [] ==> PairMoves(norms, thr) == TopPair(norms)
    ensures PairMoves(norms, thr) == [] <==>
      !(exists i, j :: 0 <= i < j < |norms| && norms[i] > thr && norms[j] > thr)
  {
    var c := Above(norms, ArgsortDesc(norms), thr, true);
    if |c| >= 2 {
      PairFound(norms, thr);
    }
    if exists i, j :: 0 <= i < j < |norms| && norms[i] > thr && norms[j] > thr {
      var i, j :| 0 <= i < j < |norms| && norms[i] > thr && norms[j] > thr;
      PairNeeded(norms, thr, i, j);
    }
  }

  /** Two qualifying candidates are the two highest cells, two distinct cells above the threshold. */
  lemma PairFound(norms: seq<real>, thr: real)
    requires |Above(norms, ArgsortDesc(norms), thr, true)| >= 2
    ensures PairMoves(norms, thr) == TopPair(norms)
    ensures exists i, j :: 0 <= i < j < |norms| && norms[i] > thr && norms[j] > thr
  {
    var o := ArgsortDesc(norms);
    var c := Above(norms, o, thr, true);
    ArgsortRanked(norms);
    LeadingQualify(norms, thr, true);
    assert c[0] == o[0] && c[1] == o[1];
    assert Before(norms, o[0], o[1]);
    var i, j := if o[0] < o[1] then o[0] else o[1], if o[0] < o[1] then o[1] else o[0];
    assert 0 <= i < j < |norms| && norms[i] > thr && norms[j] > thr;
  }

  /** Two distinct cells above the threshold are both candidates. */
  lemma PairNeeded(norms: seq<real>, thr: real, i: int, j: int)
    requires 0 <= i < j < |norms| && norms[i] > thr && norms[j] > thr
    ensures |Above(norms, ArgsortDesc(norms), thr, true)| >= 2
  {
    var o := ArgsortDesc(norms);
    ArgsortRanked(norms);
    AboveMembers(norms, o, thr, true);
    assert i in o && j in o;
    TwoMembers(Above(norms, o, thr, true), i, j);
  }

  /** A list holding two different values has at least two entries. */
  lemma TwoMembers(c: seq<int>, i: int, j: int)
    requires i in c && j in c && i != j
    ensures |c| >= 2
  {
  }

  /**
   * The candidate list `_fallback_pair_moves` builds: the cells at or
   * above the threshold in descending order, at most four of them, or
   * the two highest cells when fewer than two qualify.
   */
  function FallbackCandidates(norms: seq<real>, thr: real): seq<int>
  {
    var o := ArgsortDesc(norms);
    var c := Above(norms, o, thr, false);
    var capped := Capped(c, 4);
    if |capped| < 2 then o[..if |o| < 2 then |o| else 2] else capped
  }

  /** The single pair made of the first two candidates, if there are two. */
  function FirstPair(c: seq<int>): (r: seq<(int, int)>)
    ensures |r| <= 1
  {
    if |c| >= 2 then [(c[0], c[1])] else []
  }

  /** The first `CountAbove` cells of the order qualify and the next one does not. */
  lemma LeadingQualify(x: seq<real>, thr: real, strict: bool)
    ensures var o := ArgsortDesc(x); var m := CountAbove(x, thr, strict);
      m <= |o|
      && (forall i :: 0 <= i < m ==> Qualifies(x[o[i]], thr, strict))
      && (m < |o| ==> !Qualifies(x[o[m]], thr, strict))
      && Above(x, o, thr, strict) == o[..m]
  {
    var o := ArgsortDesc(x);
    ArgsortRanked(x);
    AboveIsPrefix(x, o, thr, strict);
    AboveMembers(x, o, thr, strict);
    var c := Above(x, o, thr, strict);
    forall i | 0 <= i < |c| ensures Qualifies(x[o[i]], thr, strict) {
      assert c[i] == o[i] && c[i] in c;
    }
  }

  /** The candidates of `_fallback_pair_moves` always start with the two highest cells. */
  lemma FallbackCandidatesTop(norms: seq<real>, thr: real)
    ensures FirstPair(FallbackCandidates(norms, thr)) == TopPair(norms)
  {
    var o := ArgsortDesc(norms);
    LeadingQualify(norms, thr, false);
    var c := Above(norms, o, thr, false);
    var capped := Capped(c, 4);
    if |capped| >= 2 {
      assert capped[0] == o[0] && capped[1] == o[1];
    }
  }

  lemma AboveSnoc(x: seq<real>, s: seq<int>, v: int, thr: real)
    requires InRange(x, s) && 0 <= v < |x|
    ensures InRange(x, s + [v])
    ensures Above(x, s + [v], thr, false) == Above(x, s, thr, false) + (if x[v] >= thr then [v] else [])
  {
    AboveAppend(x, s, [v], thr, false);
    assert Above(x, [v], thr, false) == (if x[v] >= thr then [v] else []) + Above(x, [], thr, false);
  }

  /** The first `n` entries of `c`, or all of them. */
  function Capped(c: seq<int>, n: nat): (r: seq<int>)
    ensures |r| <= n && r <= c
  {
    if |c| > n then c[..n] else c
  }

  /** The candidate loop of `_fallback_pair_moves`: collect qualifying cells in order, stop once there are four. */
  method CollectCandidates(norms: seq<real>, order: seq<int>, thr: real) returns (cands: seq<int>)
    requires InRange(norms, order)
    ensures cands == Capped(Above(norms, order, thr, false), 4)
  {
    cands := [];
    var k := 0;
    while k < |order|
      invariant 0 <= k <= |order|
      invariant cands == Above(norms, order[..k], thr, false)
      invariant |cands| < 4
    {
      AboveSnoc(norms, order[..k], order[k], thr);
      assert order[..k + 1] == order[..k] + [order[k]];
      if norms[order[k]] >= thr {
        cands := cands + [order[k]];
      }
      if |cands| >= 4 {
        AboveAppend(norms, order[..k + 1], order[k + 1..], thr, false);
        assert order[..k + 1] + order[k + 1..] == order;
        var all := Above(norms, order, thr, false);
        assert all == cands + Above(norms, order[k + 1..], thr, false);
        assert all[..4] == cands;
        return;
      }
      k := k + 1;
    }
    assert order[..k] == order;
  }

  /** `_fallback_pair_moves`: the candidate loop with its cap of four, then the top-two fallback. */
  method FallbackPairMoves(norms: seq<real>, thr: real) returns (pairs: seq<(int, int)>)
    ensures pairs == FirstPair(FallbackCandidates(norms, thr))
    ensures pairs == TopPair(norms)
  {
    FallbackCandidatesTop(norms, thr);
    if |norms| == 0 {
      return [];
    }
    var order := ArgsortDesc(norms);
    var cands := CollectCandidates(norms, order, thr);
    if |cands| < 2 {
      cands := order[..if |order| < 2 then |order| else 2];
    }
    pairs := [];
    if |cands| >= 2 {
      pairs := [(cands[0], cands[1])];
    }
  }

  /** `min(max(k, 0), the number of qualifying cells)`: how many cells the highlight loops pick. */
  function PickCount(x: seq<real>, k: int, thr: real): nat
  {
    var q := CountAbove(x, thr, false);
    if k <= 0 then 0 else if k < q then k else q
  }

  /**
   * The highlight loops: walk the descending order, stop after `k`
   * picks or at the first value below the threshold.
   */
  method TopAbove(x: seq<real>, k: int, thr: real) returns (picks: seq<int>)
    ensures picks == ArgsortDesc(x)[..PickCount(x, k, thr)]
  {
    var order := ArgsortDesc(x);
    var m := CountAbove(x, thr, false);
    LeadingQualify(x, thr, false);
    picks := [];
    var i := 0;
    while i < |order|
      invariant 0 <= i <= m && i <= |order|
      invariant i <= k || (i == 0 && k <= 0)
      invariant picks == order[..i]
    {
      if |picks| >= k {
        break;
      }
      if x[order[i]] < thr {
        break;
      }
      assert i < m;
      picks := picks + [order[i]];
      i := i + 1;
    }
    assert i == PickCount(x, k, thr);
  }

  /**
   * What the highlight loops promise: at most `k` picks, all at or above
   * the threshold, in descending order, and when fewer than `k` were
   * picked every cell at or above the threshold is among them.
   */
  lemma PicksSpec(x: seq<real>, k: int, thr: real)
    ensures var p := ArgsortDesc(x)[..PickCount(x, k, thr)];
      |p| <= (if k < 0 then 0 else k)
      && (forall j :: 0 <= j < |p| ==> 0 <= p[j] < |x| && x[p[j]] >= thr)
      && (forall j :: 0 < j < |p| ==> x[p[j - 1]] >= x[p[j]])
      && (|p| < k ==> forall v :: 0 <= v < |x| && x[v] >= thr ==> v in p)
  {
    var o := ArgsortDesc(x);
    var m, n := CountAbove(x, thr, false), PickCount(x, k, thr);
    var p := o[..n];
    ArgsortRanked(x);
    LeadingQualify(x, thr, false);
    RankedPrefixDescends(x, o, p);
    QualifyingPrefix(x, o, p, m, thr);
    if |p| < k {
      AllQualifyingListed(x, o, m, thr);
    }
  }

  /** A prefix of a descending order descends. */
  lemma RankedPrefixDescends(x: seq<real>, o: seq<int>, p: seq<int>)
    requires Ranked(x, o) && p <= o
    ensures forall j :: 0 < j < |p| ==> x[p[j - 1]] >= x[p[j]]
  {
    forall j | 0 < j < |p| ensures x[p[j - 1]] >= x[p[j]] {
      assert p[j - 1] == o[j - 1] && p[j] == o[j];
      assert Before(x, o[j - 1], o[j]);
    }
  }

  /** A prefix of the `m` leading qualifying entries qualifies. */
  lemma QualifyingPrefix(x: seq<real>, o: seq<int>, p: seq<int>, m: int, thr: real)
    requires InRange(x, o) && p <= o && |p| <= m <= |o|
    requires forall i :: 0 <= i < m ==> Qualifies(x[o[i]], thr, false)
    ensures forall j :: 0 <= j < |p| ==> 0 <= p[j] < |x| && x[p[j]] >= thr
  {
    forall j | 0 <= j < |p| ensures 0 <= p[j] < |x| && x[p[j]] >= thr {
      assert p[j] == o[j];
    }
  }

  /** Every qualifying cell is among the leading qualifying entries of the order. */
  lemma AllQualifyingListed(x: seq<real>, o: seq<int>, m: int, thr: real)
    requires InRange(x, o) && 0 <= m <= |o| && Above(x, o, thr, false) == o[..m]
    requires forall v :: v in o <==> 0 <= v < |x|
    ensures forall v :: 0 <= v < |x| && x[v] >= thr ==> v in o[..m]
  {
    AboveMembers(x, o, thr, false);
  }
}
