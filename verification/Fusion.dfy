/** Reciprocal-rank fusion of the vector ranking and the full-text ranking. */
module Fusion {
  import opened Wrappers
  import opened Sorting

  const RANK_CONSTANT := 60
  const NO_RANK := 1_000_000_000

  /** The place of a paper's first occurrence, counted from one. */
  function RankIn(ids: seq<int>, p: int): Option<nat> {
    if ids == [] then None
    else
      var earlier := RankIn(ids[..|ids| - 1], p);
      if earlier.Some? then earlier else if ids[|ids| - 1] == p then Some(|ids|) else None
  }

  function Share(rank: Option<nat>): real {
    if rank.Some? then 1.0 / (RANK_CONSTANT + rank.value) as real else 0.0
  }

  function FusedScore(v: seq<int>, f: seq<int>, p: int): real {
    Share(RankIn(v, p)) + Share(RankIn(f, p))
  }

  function OrNoRank(rank: Option<nat>): nat {
    if rank.Some? then rank.value else NO_RANK
  }

  function Lower(a: nat, b: nat): nat {
    if a <= b then a else b
  }

  /** What papers are sorted on; the id settles every tie. */
  datatype Key = Key(score: real, best: nat, paper: int)

  function KeyOf(v: seq<int>, f: seq<int>, p: int): Key {
    Key(FusedScore(v, f, p), Lower(OrNoRank(RankIn(v, p)), OrNoRank(RankIn(f, p))), p)
  }

  predicate KeyLeq(a: Key, b: Key) {
    a.score > b.score || (a.score == b.score && (a.best < b.best || (a.best == b.best && a.paper <= b.paper)))
  }

  /** The ids in the order they were first met. */
  function Extend(order: seq<int>, ids: seq<int>): seq<int> {
    if ids == [] then order
    else
      var before := Extend(order, ids[..|ids| - 1]);
      if ids[|ids| - 1] in before then before else before + [ids[|ids| - 1]]
  }

  function KeysOf(v: seq<int>, f: seq<int>, order: seq<int>): (keys: seq<Key>) {
    seq(|order|, i requires 0 <= i < |order| => KeyOf(v, f, order[i]))
  }

  function Ranked(v: seq<int>, f: seq<int>): seq<Key> {
    Sort(KeyLeq, KeysOf(v, f, Extend(Extend([], v), f)))
  }

  /** The papers, best first. */
  function Fused(v: seq<int>, f: seq<int>): seq<int> {
    seq(|Ranked(v, f)|, i requires 0 <= i < |Ranked(v, f)| => Ranked(v, f)[i].paper)
  }

  datatype Candidate = Candidate(paper: int, score: real, vectorRank: Option<nat>, ftsRank: Option<nat>)

  function CandidateOf(v: seq<int>, f: seq<int>, p: int): Candidate {
    Candidate(p, FusedScore(v, f, p), RankIn(v, p), RankIn(f, p))
  }

  // ---- the two loops -------------------------------------------------------

  lemma {:induction false} RankFacts(ids: seq<int>, p: int)
    ensures RankIn(ids, p).Some? <==> p in ids
    ensures RankIn(ids, p).Some? ==> var r := RankIn(ids, p).value;
              1 <= r <= |ids| && ids[r - 1] == p && p !in ids[..r - 1]
  {
    if ids != [] {
      var n := |ids| - 1;
      RankFacts(ids[..n], p);
      assert ids == ids[..n] + [ids[n]];
      if RankIn(ids[..n], p).Some? {
        var r := RankIn(ids[..n], p).value;
        assert ids[..r - 1] == ids[..n][..r - 1];
      }
    }
  }

  /** rank is the place, counted from one, where p first stands in the list. */
  ghost predicate FirstPlace(ids: seq<int>, p: int, rank: Option<nat>) {
    match rank
    case None => p !in ids
    case Some(r) => 1 <= r <= |ids| && ids[r - 1] == p && p !in ids[..r - 1]
  }

  function Contribution(rank: Option<nat>): real {
    match rank case None => 0.0 case Some(r) => 1.0 / (60 + r) as real
  }

  /** A candidate shows its paper's place in either list, and the score is made of the two. */
  lemma CandidateFacts(v: seq<int>, f: seq<int>, p: int)
    ensures var c := CandidateOf(v, f, p);
            && c.paper == p && FirstPlace(v, p, c.vectorRank) && FirstPlace(f, p, c.ftsRank)
            && c.score == Contribution(c.vectorRank) + Contribution(c.ftsRank)
  {
    RankFacts(v, p);
    RankFacts(f, p);
  }

  lemma {:induction false} ExtendFacts(order: seq<int>, ids: seq<int>)
    requires NoRepeats(order)
    ensures NoRepeats(Extend(order, ids))
    ensures forall p :: p in Extend(order, ids) <==> p in order || p in ids
  {
    if ids != [] {
      var n := |ids| - 1;
      ExtendFacts(order, ids[..n]);
      assert ids == ids[..n] + [ids[n]];
    }
  }

  /** The running score of a paper, zero before it is met. */
  function Held(scores: map<int, real>, p: int): real {
    if p in scores then scores[p] else 0.0
  }

  ghost predicate Tallied(ids: seq<int>, target: map<int, nat>, scores0: map<int, real>, scores: map<int, real>,
                          p: int) {
    && (p in target <==> p in ids)
    && (p in target ==> RankIn(ids, p) == Some(target[p]))
    && (p in scores <==> p in scores0 || p in ids)
    && Held(scores, p) == Held(scores0, p) + Share(RankIn(ids, p))
  }

  lemma TalliedStep(done: seq<int>, p: int, target0: map<int, nat>, target: map<int, nat>, scores0: map<int, real>,
                    before: map<int, real>, scores: map<int, real>, q: int)
    requires Tallied(done, target0, scores0, before, q) && Tallied(done, target0, scores0, before, p)
    requires target == if p in done then target0 else target0[p := |done| + 1]
    requires scores == if p in done then before
                       else before[p := Held(before, p) + 1.0 / (RANK_CONSTANT + |done| + 1) as real]
    ensures Tallied(done + [p], target, scores0, scores, q)
  {
    assert (done + [p])[..|done|] == done;
    RankFacts(done, q);
    RankFacts(done, p);
  }

  /** One ranked list: each paper's first rank, and its share added to the scores. The
      scores are a dictionary, which remembers in what order its keys were added. */
  method AddRanking(ids: seq<int>, scores0: map<int, real>, order0: seq<int>)
    returns (target: map<int, nat>, scores: map<int, real>, order: seq<int>)
    requires forall p :: p in scores0 <==> p in order0
    ensures forall p :: Tallied(ids, target, scores0, scores, p)
    ensures forall p :: p in scores <==> p in order
    ensures order == Extend(order0, ids)
  {
    target, scores, order := map[], scores0, order0;
    var seen: set<int> := {};
    assert forall p :: Tallied(ids[..0], target, scores0, scores, p);
    assert Extend(order0, ids[..0]) == order0;
    for i := 0 to |ids|
      invariant forall p :: p in seen <==> p in ids[..i]
      invariant forall p :: Tallied(ids[..i], target, scores0, scores, p)
      invariant forall p :: p in scores <==> p in order
      invariant order == Extend(order0, ids[..i])
    {
      var p := ids[i];
      ghost var done, next := ids[..i], ids[..i + 1];
      assert next[..i] == done && next == done + [p];
      ghost var target0, before := target, scores;
      assert Tallied(done, target0, scores0, before, p);
      assert Extend(order0, next) == if p in order then order else order + [p];
      if p !in seen {
        seen := seen + {p};
        target := target[p := i + 1];
        if p !in scores {
          order := order + [p];
        }
        scores := scores[p := Held(scores, p) + 1.0 / (RANK_CONSTANT + i + 1) as real];
      }
      forall q
        ensures Tallied(next, target, scores0, scores, q)
      {
        assert Tallied(done, target0, scores0, before, q);
        TalliedStep(done, p, target0, target, scores0, before, scores, q);
      }
    }
    assert ids[..|ids|] == ids;
  }

  /** Merge two ranked lists; the ranking on values is Ranked. */
  method ReciprocalRankFusion(v: seq<int>, f: seq<int>, limit: int) returns (r: seq<Candidate>)
    ensures |r| == if limit <= 0 then 0 else Lower(limit, |Fused(v, f)|)
    ensures forall i :: 0 <= i < |r| ==> r[i] == CandidateOf(v, f, Fused(v, f)[i])
  {
    var vectorRanks, scores, order := AddRanking(v, map[], []);
    ghost var half := scores;
    var ftsRanks;
    ftsRanks, scores, order := AddRanking(f, scores, order);
    forall p
      ensures Known(v, f, vectorRanks, ftsRanks, scores, p)
    {
      assert Tallied(v, vectorRanks, map[], half, p) && Tallied(f, ftsRanks, half, scores, p);
      RankFacts(v, p);
      RankFacts(f, p);
    }
    var ordered := InOrder(v, f, vectorRanks, ftsRanks, scores, order);
    RankedFacts(v, f);
    r := [];
    var n := if limit <= 0 then 0 else Lower(limit, |ordered|);
    for i := 0 to n
      invariant |r| == i && forall k :: 0 <= k < i ==> r[k] == CandidateOf(v, f, Fused(v, f)[k])
    {
      var p := ordered[i].paper;
      assert p == Fused(v, f)[i] && p in Fused(v, f);
      assert Known(v, f, vectorRanks, ftsRanks, scores, p);
      r := r + [Candidate(p, scores[p], Got(vectorRanks, p), Got(ftsRanks, p))];
    }
  }

  function Got(ranks: map<int, nat>, p: int): Option<nat> {
    if p in ranks then Some(ranks[p]) else None
  }

  ghost predicate Known(v: seq<int>, f: seq<int>, vectorRanks: map<int, nat>, ftsRanks: map<int, nat>,
                        scores: map<int, real>, p: int) {
    && Got(vectorRanks, p) == RankIn(v, p) && Got(ftsRanks, p) == RankIn(f, p)
    && (p in scores <==> p in v || p in f) && Held(scores, p) == FusedScore(v, f, p)
  }

  /** The dictionary's keys sorted by score, best rank and id. */
  method InOrder(ghost v: seq<int>, ghost f: seq<int>, vectorRanks: map<int, nat>, ftsRanks: map<int, nat>,
                 scores: map<int, real>,
                 order: seq<int>) returns (ordered: seq<Key>)
    requires forall p :: Known(v, f, vectorRanks, ftsRanks, scores, p)
    requires order == Extend(Extend([], v), f) && forall p :: p in order ==> p in scores
    ensures ordered == Ranked(v, f)
  {
    var keys := [];
    for i := 0 to |order|
      invariant keys == KeysOf(v, f, order)[..i]
    {
      var p := order[i];
      assert Known(v, f, vectorRanks, ftsRanks, scores, p);
      keys := keys + [Key(scores[p], Lower(OrNoRank(Got(vectorRanks, p)), OrNoRank(Got(ftsRanks, p))), p)];
      assert keys[i] == KeyOf(v, f, p);
    }
    assert keys == KeysOf(v, f, order);
    ordered := Sort(KeyLeq, keys);
  }

  // ---- what the ranking is -------------------------------------------------

  lemma KeyOrder()
    ensures TotalPreorder(KeyLeq) && Antisymmetric(KeyLeq)
  {
  }

  lemma KeysFacts(v: seq<int>, f: seq<int>, order: seq<int>)
    requires NoRepeats(order)
    ensures NoRepeats(KeysOf(v, f, order))
    ensures forall k :: k in KeysOf(v, f, order) <==> k.paper in order && k == KeyOf(v, f, k.paper)
  {
    var keys := KeysOf(v, f, order);
    forall k
      ensures k in keys <==> k.paper in order && k == KeyOf(v, f, k.paper)
    {
      if k.paper in order && k == KeyOf(v, f, k.paper) {
        var i :| 0 <= i < |order| && order[i] == k.paper;
        assert keys[i] == k;
      }
    }
  }

  /** The ranking is sorted and holds one key for each paper of either list. */
  lemma RankedFacts(v: seq<int>, f: seq<int>)
    ensures SortedBy(KeyLeq, Ranked(v, f)) && NoRepeats(Ranked(v, f))
    ensures forall k :: k in Ranked(v, f) <==> (k.paper in v || k.paper in f) && k == KeyOf(v, f, k.paper)
    ensures |Fused(v, f)| == |Ranked(v, f)|
    ensures forall p :: p in Fused(v, f) <==> p in v || p in f
  {
    KeyOrder();
    ExtendFacts([], v);
    ExtendFacts(Extend([], v), f);
    var order := Extend(Extend([], v), f);
    KeysFacts(v, f, order);
    SortFacts(KeyLeq, KeysOf(v, f, order));
    SortMembers(KeyLeq, KeysOf(v, f, order));
    SortNoRepeats(KeyLeq, KeysOf(v, f, order));
    forall p
      ensures p in Fused(v, f) <==> p in v || p in f
    {
      if p in v || p in f {
        var i :| 0 <= i < |Ranked(v, f)| && Ranked(v, f)[i] == KeyOf(v, f, p);
        assert Fused(v, f)[i] == p;
      }
    }
  }

  /** The union of the two lists, each paper once, scores never rising. */
  lemma FusedUnion(v: seq<int>, f: seq<int>)
    ensures NoRepeats(Fused(v, f))
    ensures forall p :: p in Fused(v, f) <==> p in v || p in f
    ensures forall i, j :: 0 <= i < j < |Fused(v, f)| ==>
              FusedScore(v, f, Fused(v, f)[i]) >= FusedScore(v, f, Fused(v, f)[j])
  {
    RankedFacts(v, f);
    var r := Ranked(v, f);
    forall i | 0 <= i < |r|
      ensures r[i] == KeyOf(v, f, Fused(v, f)[i])
    {
      assert r[i] in r;
    }
  }

  /** It does not matter which list comes first. */
  lemma FusedSymmetric(v: seq<int>, f: seq<int>)
    ensures Fused(v, f) == Fused(f, v)
  {
    RankedFacts(v, f);
    RankedFacts(f, v);
    KeyOrder();
    forall k
      ensures k in Ranked(v, f) <==> k in Ranked(f, v)
    {
      assert KeyOf(v, f, k.paper) == KeyOf(f, v, k.paper);
    }
    SameMembers(Ranked(v, f), Ranked(f, v));
    SortedUnique(KeyLeq, Ranked(v, f), Ranked(f, v));
  }

  ghost predicate Ahead(s: seq<int>, p: int, q: int) {
    exists i, j :: 0 <= i < j < |s| && s[i] == p && s[j] == q
  }

  /** One paper comes ahead of another exactly when its key is the smaller. */
  lemma AheadByKey(v: seq<int>, f: seq<int>, p: int, q: int)
    requires p in Fused(v, f) && q in Fused(v, f) && p != q
    ensures Ahead(Fused(v, f), p, q) <==> KeyLeq(KeyOf(v, f, p), KeyOf(v, f, q))
  {
    RankedFacts(v, f);
    KeyOrder();
    var r := Ranked(v, f);
    assert KeyOf(v, f, p) in r && KeyOf(v, f, q) in r;
    var i :| 0 <= i < |r| && r[i] == KeyOf(v, f, p);
    var j :| 0 <= j < |r| && r[j] == KeyOf(v, f, q);
    assert Fused(v, f)[i] == p && Fused(v, f)[j] == q;
    FusedUnion(v, f);
  }

  /** The better of a candidate's two places; a list it is not in counts as a billion. */
  function BestPlace(c: Candidate): nat {
    var a := if c.vectorRank.Some? then c.vectorRank.value else 1_000_000_000;
    var b := if c.ftsRank.Some? then c.ftsRank.value else 1_000_000_000;
    if a < b then a else b
  }

  /** One paper comes ahead of another exactly when it scores higher, or scores the same with
      a better best place, or has the smaller id where these are the same too. */
  lemma AheadExactly(v: seq<int>, f: seq<int>, p: int, q: int)
    requires p in Fused(v, f) && q in Fused(v, f) && p != q
    ensures var a, b := CandidateOf(v, f, p), CandidateOf(v, f, q);
            Ahead(Fused(v, f), p, q) <==>
            a.score > b.score
            || (a.score == b.score && (BestPlace(a) < BestPlace(b) || (BestPlace(a) == BestPlace(b) && p < q)))
  {
    AheadByKey(v, f, p, q);
  }

  /** Ranked at least as well in a list: not found there counts as last. */
  predicate NoWorse(ids: seq<int>, p: int, q: int) {
    RankIn(ids, q).None? || (RankIn(ids, p).Some? && RankIn(ids, p).value <= RankIn(ids, q).value)
  }

  lemma ShareOrder(ids: seq<int>, p: int, q: int)
    requires NoWorse(ids, p, q)
    ensures Share(RankIn(ids, p)) >= Share(RankIn(ids, q))
    ensures !NoWorse(ids, q, p) ==> Share(RankIn(ids, p)) > Share(RankIn(ids, q))
  {
    if RankIn(ids, q).Some? {
      Reciprocal(RANK_CONSTANT + RankIn(ids, p).value, RANK_CONSTANT + RankIn(ids, q).value);
    }
  }

  lemma Reciprocal(a: nat, b: nat)
    requires 0 < a <= b
    ensures 1.0 / a as real >= 1.0 / b as real
    ensures a < b ==> 1.0 / a as real > 1.0 / b as real
  {
    var x, y, p, q := 1.0 / a as real, 1.0 / b as real, a as real, b as real;
    assert x * p == 1.0 && y * q == 1.0;
    Signs(y, q);
    Products(x, y, p, q);
  }

  lemma Signs(y: real, q: real)
    requires y * q == 1.0 && q > 0.0
    ensures y > 0.0
  {
    assert y <= 0.0 ==> y * q <= 0.0;
  }

  lemma Products(x: real, y: real, p: real, q: real)
    requires x * p == 1.0 && y * q == 1.0 && y > 0.0 && 0.0 < p <= q
    ensures x >= y && (p < q ==> x > y)
  {
    assert y * (q - p) >= 0.0 && (p < q ==> y * (q - p) > 0.0);
    assert y * (q - p) == (x - y) * p;
    assert x < y ==> (x - y) * p < 0.0;
    assert x == y ==> (x - y) * p == 0.0;
  }

  /** A paper ranked no worse than another in both lists and better in one is ahead of it. */
  lemma FusedDominance(v: seq<int>, f: seq<int>, p: int, q: int)
    requires q in v || q in f
    requires NoWorse(v, p, q) && NoWorse(f, p, q) && !(NoWorse(v, q, p) && NoWorse(f, q, p))
    ensures Ahead(Fused(v, f), p, q)
  {
    RankFacts(v, p);
    RankFacts(v, q);
    RankFacts(f, p);
    RankFacts(f, q);
    ShareOrder(v, p, q);
    ShareOrder(f, p, q);
    RankedFacts(v, f);
    AheadByKey(v, f, p, q);
  }

  /** Papers found by both searches precede all papers found by one. */
  ghost predicate BothFirst(v: seq<int>, f: seq<int>) {
    forall p, q :: p in v && p in f && (q in v || q in f) && !(q in v && q in f) ==> Ahead(Fused(v, f), p, q)
  }

  lemma ShareBounds(ids: seq<int>, p: int)
    requires |ids| <= 61
    ensures p in ids ==> 1.0 / 121.0 <= Share(RankIn(ids, p)) <= 1.0 / 61.0
    ensures p !in ids ==> Share(RankIn(ids, p)) == 0.0
  {
    RankFacts(ids, p);
    if p in ids {
      var r := RankIn(ids, p).value;
      Reciprocal(RANK_CONSTANT + r, 121);
      Reciprocal(61, RANK_CONSTANT + r);
    }
  }

  lemma BothFirstWhenShort(v: seq<int>, f: seq<int>)
    requires |v| <= 61 && |f| <= 61
    ensures BothFirst(v, f)
  {
    RankedFacts(v, f);
    forall p, q | p in v && p in f && (q in v || q in f) && !(q in v && q in f)
      ensures Ahead(Fused(v, f), p, q)
    {
      ShareBounds(v, p);
      ShareBounds(f, p);
      ShareBounds(v, q);
      ShareBounds(f, q);
      AheadByKey(v, f, p, q);
    }
  }

  lemma RankOf(ids: seq<int>, k: nat)
    requires k < |ids| && NoRepeats(ids)
    ensures RankIn(ids, ids[k]) == Some(k + 1)
  {
    RankFacts(ids, ids[k]);
  }

  /** Two lists of 62 whose only common paper, last in both, ties with the first of one. */
  const VECTOR_62: seq<int> := seq(62, i => i)
  const TEXT_62: seq<int> := seq(62, i => if i == 61 then 61 else 100 + i)

  lemma NotBothFirstAt62()
    ensures |VECTOR_62| == 62 && |TEXT_62| == 62 && !BothFirst(VECTOR_62, TEXT_62)
  {
    var v, f := VECTOR_62, TEXT_62;
    assert v[61] == 61 && f[61] == 61 && v[0] == 0;
    assert 0 !in f;
    RankOf(v, 61);
    RankOf(f, 61);
    RankOf(v, 0);
    RankFacts(f, 0);
    assert FusedScore(v, f, 61) == 1.0 / 122.0 + 1.0 / 122.0 == 1.0 / 61.0 == FusedScore(v, f, 0);
    RankedFacts(v, f);
    AheadByKey(v, f, 61, 0);
    assert !KeyLeq(KeyOf(v, f, 61), KeyOf(v, f, 0));
    assert 61 in v && 61 in f && 0 in v && !Ahead(Fused(v, f), 61, 0);
  }

  /** 61 is the exact list length up to which agreement always wins. */
  lemma BothFirstExactly(n: nat)
    ensures (forall v, f :: |v| <= n && |f| <= n ==> BothFirst(v, f)) <==> n <= 61
  {
    if n <= 61 {
      forall v, f | |v| <= n && |f| <= n
        ensures BothFirst(v, f)
      {
        BothFirstWhenShort(v, f);
      }
    } else {
      NotBothFirstAt62();
    }
  }
}
