/** Ranking candidates by composite score, `sorted(cands, key=lambda c: c.composite_score,
    reverse=True)`, as the pipeline (src/ai_investor/pipeline.py) and the deep-dive picker
    (src/ai_investor/research/top3_deep_dive.py) both do. */
module Ranking {
  import opened Sorting
  import opened Models

  /** The candidates paired with their composite scores, the key of the sort. */
  function ByComposite(cands: seq<Candidate>): (r: seq<(Candidate, real)>)
    reads cands`compositeScore
    ensures |r| == |cands|
    ensures forall i :: 0 <= i < |cands| ==> r[i] == (cands[i], cands[i].compositeScore)
  {
    if cands == [] then [] else [(cands[0], cands[0].compositeScore)] + ByComposite(cands[1..])
  }

  /** The candidates from the highest composite score down, equal scores in input order. */
  function RankByComposite(cands: seq<Candidate>): (r: seq<Candidate>)
    reads cands`compositeScore
    ensures |r| == |cands|
  {
    Items(SortByKey(ByComposite(cands), true))
  }

  lemma {:induction false} ItemsInsert<T>(x: (T, real), s: seq<(T, real)>, descending: bool)
    ensures multiset(Items(Insert(x, s, descending))) == multiset(Items(s)) + multiset{x.0}
  {
    if s != [] && Precedes(s[0].1, x.1, descending) {
      ItemsInsert(x, s[1..], descending);
      assert Items(s) == [s[0].0] + Items(s[1..]);
      assert Items(Insert(x, s, descending)) == [s[0].0] + Items(Insert(x, s[1..], descending));
    } else {
      assert Items([x] + s) == [x.0] + Items(s) by { assert ([x] + s)[1..] == s; }
    }
  }

  /** Sorting pairs rearranges their items. */
  lemma {:induction false} ItemsSorted<T>(xs: seq<(T, real)>, descending: bool)
    ensures multiset(Items(SortByKey(xs, descending))) == multiset(Items(xs))
  {
    if xs != [] {
      ItemsSorted(xs[1..], descending);
      ItemsInsert(xs[0], SortByKey(xs[1..], descending), descending);
      assert Items(xs) == [xs[0].0] + Items(xs[1..]);
    }
  }

  /** Every pair in the sorted sequence carries its candidate's composite score. */
  lemma {:induction false} SortedKeys(cands: seq<Candidate>)
    ensures forall p :: p in SortByKey(ByComposite(cands), true) ==> p.0 in cands && p.1 == p.0.compositeScore
  {
    var s := SortByKey(ByComposite(cands), true);
    forall p | p in s ensures p.0 in cands && p.1 == p.0.compositeScore {
      assert p in multiset(ByComposite(cands));
    }
  }

  /** The ranking is a rearrangement of the candidates. */
  lemma {:induction false} RankedIsPermutation(cands: seq<Candidate>)
    ensures multiset(RankByComposite(cands)) == multiset(cands)
  {
    var pairs := ByComposite(cands);
    ItemsSorted(pairs, true);
    assert Items(pairs) == cands;
  }

  /** Composite scores never increase along the ranking. */
  lemma {:induction false} RankedNonIncreasing(cands: seq<Candidate>)
    ensures var r := RankByComposite(cands);
      forall i, j :: 0 <= i < j < |r| ==> r[i].compositeScore >= r[j].compositeScore
  {
    var s := SortByKey(ByComposite(cands), true);
    SortedKeys(cands);
    forall i, j | 0 <= i < j < |s| ensures s[i].0.compositeScore >= s[j].0.compositeScore {
      assert s[i] in s && s[j] in s;
    }
  }

  /** When every composite score is the same, the ranking keeps the input order. */
  lemma {:induction false} RankedAllTied(cands: seq<Candidate>, v: real)
    requires forall i :: 0 <= i < |cands| ==> cands[i].compositeScore == v
    ensures RankByComposite(cands) == cands
  {
    var pairs := ByComposite(cands);
    SortAllTied(pairs, true, v);
    assert Items(pairs) == cands;
  }

  /** Any prefix of the ranking is its best part: a candidate left out of the prefix scores no
      higher than any candidate in it. */
  lemma {:induction false} RankedPrefixBest(cands: seq<Candidate>, m: nat)
    requires m <= |cands|
    ensures var p := RankByComposite(cands)[..m];
      forall c, s :: c in cands && c !in p && s in p ==> c.compositeScore <= s.compositeScore
  {
    var r := RankByComposite(cands);
    RankedIsPermutation(cands);
    RankedNonIncreasing(cands);
    forall c | c in cands ensures c in r {
      assert c in multiset(r);
    }
    PrefixBest(r, m);
  }

  /** In a list of non-increasing composite scores, an item after position `m` scores no higher
      than any item before it. */
  lemma {:induction false} PrefixBest(r: seq<Candidate>, m: nat)
    requires m <= |r|
    requires forall i, j :: 0 <= i < j < |r| ==> r[i].compositeScore >= r[j].compositeScore
    ensures forall c, s :: c in r && c !in r[..m] && s in r[..m] ==> c.compositeScore <= s.compositeScore
  {
    forall c, s | c in r && c !in r[..m] && s in r[..m] ensures c.compositeScore <= s.compositeScore {
      var j :| 0 <= j < |r| && r[j] == c;
      var i :| 0 <= i < m && r[..m][i] == s;
      assert r[i] == s && m <= j;
    }
  }

  /** Two different candidates with equal composite scores keep their input order. */
  lemma {:induction false} RankedTiesInInputOrder(cands: seq<Candidate>, i: nat, j: nat)
    requires Distinct(cands)
    requires i < j < |cands| && cands[i].compositeScore == cands[j].compositeScore
    ensures exists p, q ::
              && 0 <= p < q < |cands|
              && RankByComposite(cands)[p] == cands[i]
              && RankByComposite(cands)[q] == cands[j]
  {
    var pairs := ByComposite(cands);
    assert Distinct(pairs);
    StableTieOrder(pairs, true, i, j);
    var s := SortByKey(pairs, true);
    var p, q :| 0 <= p < q < |pairs| && s[p] == pairs[i] && s[q] == pairs[j];
    assert RankByComposite(cands)[p] == cands[i];
  }

  /** A candidate appears once in the ranking when it appears once in the input. */
  lemma {:induction false} RankedDistinct(cands: seq<Candidate>)
    requires Distinct(cands)
    ensures Distinct(RankByComposite(cands))
  {
    RankedIsPermutation(cands);
    DistinctPermutation(cands, RankByComposite(cands));
  }
}
