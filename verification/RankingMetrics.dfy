/** Discounted cumulative gain against its ideal (evals/run_embedding_eval.py). */
module RankingMetrics {
  type Id = string

  /** Position weights: positive and strictly decreasing, as 1 / log2(i + 2) is. */
  ghost predicate Discount(w: nat -> real) {
    (forall i :: w(i) > 0.0) && (forall i, j | i < j :: w(i) > w(j))
  }

  /** Weight of the relevant ids among the first n ranked. */
  function Gain(ranked: seq<Id>, gold: set<Id>, w: nat -> real, n: nat): real
    requires n <= |ranked|
  {
    if n == 0 then 0.0 else Gain(ranked, gold, w, n - 1) + (if ranked[n - 1] in gold then w(n - 1) else 0.0)
  }

  function Dcg(ranked: seq<Id>, gold: set<Id>, w: nat -> real): real {
    Gain(ranked, gold, w, |ranked|)
  }

  /** Ranking one more id adds the weight of the position it takes, if it is relevant. */
  lemma DcgAppend(ranked: seq<Id>, gold: set<Id>, w: nat -> real, id: Id)
    ensures Dcg([], gold, w) == 0.0
    ensures Dcg(ranked + [id], gold, w) == Dcg(ranked, gold, w) + if id in gold then w(|ranked|) else 0.0
  {
    GainPrefix(ranked, [id], gold, w, |ranked|);
  }

  lemma {:induction false} GainPrefix(ranked: seq<Id>, more: seq<Id>, gold: set<Id>, w: nat -> real, n: nat)
    requires n <= |ranked|
    ensures Gain(ranked + more, gold, w, n) == Gain(ranked, gold, w, n)
  {
    if n > 0 {
      GainPrefix(ranked, more, gold, w, n - 1);
    }
  }

  /** Weight of the first n positions. */
  function Ideal(w: nat -> real, n: nat): real {
    if n == 0 then 0.0 else Ideal(w, n - 1) + w(n - 1)
  }

  function Idcg(gold: set<Id>, w: nat -> real, k: nat): real {
    Ideal(w, if |gold| < k then |gold| else k)
  }

  function Relevant(ranked: seq<Id>, gold: set<Id>, n: nat): (c: nat)
    requires n <= |ranked|
    ensures c <= n
  {
    if n == 0 then 0 else Relevant(ranked, gold, n - 1) + (if ranked[n - 1] in gold then 1 else 0)
  }

  /** The relevant ids among the first n take exactly the leading positions. */
  predicate Leading(ranked: seq<Id>, gold: set<Id>, n: nat)
    requires n <= |ranked|
  {
    forall i | 0 <= i < n :: ranked[i] in gold <==> i < Relevant(ranked, gold, n)
  }

  predicate NoRepeats(ranked: seq<Id>) {
    forall i, j | 0 <= i < j < |ranked| :: ranked[i] != ranked[j]
  }

  /** Distinct ids cannot hit more relevant ones than there are. */
  lemma {:induction false} RelevantBound(ranked: seq<Id>, gold: set<Id>, n: nat)
    requires n <= |ranked| && NoRepeats(ranked)
    ensures Relevant(ranked, gold, n) <= |gold|
    decreases n
  {
    if n > 0 {
      if ranked[n - 1] in gold {
        RelevantBound(ranked, gold - {ranked[n - 1]}, n - 1);
        RelevantWithout(ranked, gold, n - 1, ranked[n - 1]);
      } else {
        RelevantBound(ranked, gold, n - 1);
      }
    }
  }

  lemma {:induction false} RelevantWithout(ranked: seq<Id>, gold: set<Id>, n: nat, id: Id)
    requires n <= |ranked| && forall i | 0 <= i < n :: ranked[i] != id
    ensures Relevant(ranked, gold - {id}, n) == Relevant(ranked, gold, n)
  {
    if n > 0 {
      RelevantWithout(ranked, gold, n - 1, id);
    }
  }

  /** The same number of relevant ids weighs most in the leading positions, and only there. */
  lemma {:induction false} LeadingIsBest(ranked: seq<Id>, gold: set<Id>, w: nat -> real, n: nat)
    requires Discount(w) && n <= |ranked|
    ensures Gain(ranked, gold, w, n) <= Ideal(w, Relevant(ranked, gold, n))
    ensures Gain(ranked, gold, w, n) == Ideal(w, Relevant(ranked, gold, n)) <==> Leading(ranked, gold, n)
  {
    if n > 0 {
      LeadingIsBest(ranked, gold, w, n - 1);
      var c := Relevant(ranked, gold, n - 1);
      if ranked[n - 1] in gold {
        assert c < n - 1 ==> w(n - 1) < w(c);
        if c == n - 1 {
          AllRelevant(ranked, gold, n - 1);
        } else {
          assert !Leading(ranked, gold, n);
        }
      }
    }
  }

  /** As many relevant ids as positions means every position is relevant. */
  lemma {:induction false} AllRelevant(ranked: seq<Id>, gold: set<Id>, n: nat)
    requires n <= |ranked|
    ensures Relevant(ranked, gold, n) == n <==> forall i | 0 <= i < n :: ranked[i] in gold
  {
    if n > 0 {
      AllRelevant(ranked, gold, n - 1);
    }
  }

  lemma {:induction false} IdealGrows(w: nat -> real, a: nat, b: nat)
    requires Discount(w) && a <= b
    ensures Ideal(w, a) <= Ideal(w, b)
    ensures Ideal(w, a) == Ideal(w, b) <==> a == b
    decreases b
  {
    if a < b {
      IdealGrows(w, a, b - 1);
    }
  }

  lemma {:induction false} LeadingPrefix(ranked: seq<Id>, gold: set<Id>, n: nat, m: nat)
    requires n <= |ranked| && m <= n && Relevant(ranked, gold, n) <= m
    requires forall i | 0 <= i < m :: ranked[i] in gold
    ensures Relevant(ranked, gold, n) == m && Leading(ranked, gold, n)
    decreases n
  {
    if n == m {
      AllRelevant(ranked, gold, n);
    } else {
      AllRelevant(ranked, gold, m);
      RelevantMonotone(ranked, gold, m, n - 1);
      LeadingPrefix(ranked, gold, n - 1, m);
    }
  }

  lemma {:induction false} RelevantMonotone(ranked: seq<Id>, gold: set<Id>, m: nat, n: nat)
    requires m <= n <= |ranked|
    ensures Relevant(ranked, gold, m) <= Relevant(ranked, gold, n)
    decreases n
  {
    if m < n {
      RelevantMonotone(ranked, gold, m, n - 1);
    }
  }

  /** nDCG never exceeds one, and is one exactly when the first min(|gold|, k) ranked ids exist and are all relevant. */
  lemma NdcgAtMostOne(ranked: seq<Id>, gold: set<Id>, w: nat -> real, k: nat)
    requires Discount(w) && NoRepeats(ranked) && |ranked| <= k
    ensures Dcg(ranked, gold, w) <= Idcg(gold, w, k)
    ensures var m := if |gold| < k then |gold| else k;
            Dcg(ranked, gold, w) == Idcg(gold, w, k) <==> m <= |ranked| && forall i | 0 <= i < m :: ranked[i] in gold
  {
    var n, c := |ranked|, Relevant(ranked, gold, |ranked|);
    var m := if |gold| < k then |gold| else k;
    RelevantBound(ranked, gold, n);
    LeadingIsBest(ranked, gold, w, n);
    IdealGrows(w, c, m);
    if m <= n && forall i | 0 <= i < m :: ranked[i] in gold {
      LeadingPrefix(ranked, gold, n, m);
    }
  }
}
