/**
  `select_random_quote`: weighted random choice of one quote.

  Each quote gets its effective weight; the quotes are scanned in query order,
  adding up weights, and the first one whose running sum reaches the drawn
  number `r` is chosen, the last one when none does. The draw itself is
  `random.uniform(0.0, total)`, which Python computes as `0.0 + total * u` from
  `u = random.random()`; `u` is a parameter here.
 */
module Services {
  import opened Wrappers
  import opened Models

  /** One `(id, weight)` pair of the scan. */
  datatype Candidate = Candidate(id: nat, weight: real)

  /** `order` is the query's listing of the store: every id it yields is stored,
      every stored quote is yielded, and none is yielded twice. */
  predicate ListsStore(quotes: map<nat, Quote>, order: seq<nat>) {
    && (forall i :: 0 <= i < |order| ==> order[i] in quotes)
    && (forall id :: id in quotes ==> id in order)
    && (forall i, j :: 0 <= i < j < |order| ==> order[i] != order[j])
  }

  /** The pairs the first loop builds: one per quote, in query order, each
      weighted by the quote's effective weight. */
  function Candidates(quotes: map<nat, Quote>, order: seq<nat>, w: Weights): (cs: seq<Candidate>)
    requires forall i :: 0 <= i < |order| ==> order[i] in quotes
    ensures |cs| == |order|
    ensures forall i :: 0 <= i < |order| ==>
              cs[i].id == order[i] && cs[i].weight == EffectiveWeight(quotes[order[i]], w)
    ensures forall i :: 0 <= i < |cs| ==> cs[i].weight >= w.minWeight
  {
    if order == [] then []
    else
      var last := order[|order| - 1];
      Candidates(quotes, order[..|order| - 1], w) + [Candidate(last, EffectiveWeight(quotes[last], w))]
  }

  /** Over a listing of the store, the candidates are the stored quotes, each
      exactly once. */
  lemma CandidatesCoverStore(quotes: map<nat, Quote>, order: seq<nat>, w: Weights)
    requires ListsStore(quotes, order)
    ensures var cs := Candidates(quotes, order, w);
            && (forall id :: id in quotes <==> exists i :: 0 <= i < |cs| && cs[i].id == id)
            && (forall i, j :: 0 <= i < j < |cs| ==> cs[i].id != cs[j].id)
  {
    var cs := Candidates(quotes, order, w);
    forall id | id in quotes ensures exists i :: 0 <= i < |cs| && cs[i].id == id {
      var i :| 0 <= i < |order| && order[i] == id;
      assert cs[i].id == id;
    }
  }

  /** `sum(w for _, w in pairs)`. */
  function Total(cs: seq<Candidate>): real {
    if cs == [] then 0.0 else Total(cs[..|cs| - 1]) + cs[|cs| - 1].weight
  }

  /** The running sum after candidate `k` has been added. */
  function CumWeight(cs: seq<Candidate>, k: nat): real
    requires k < |cs|
  {
    Total(cs[..k + 1])
  }

  /** Each step of the scan adds the next candidate's weight to the running sum. */
  lemma CumWeightStep(cs: seq<Candidate>, k: nat)
    requires k < |cs|
    ensures CumWeight(cs, k) == (if k == 0 then 0.0 else CumWeight(cs, k - 1)) + cs[k].weight
  {
    assert cs[..k + 1][..k] == cs[..k];
    assert Total(cs[..k + 1]) == Total(cs[..k]) + cs[k].weight;
    if k == 0 {
      assert cs[..k] == [];
    }
  }

  /** `random.uniform(a, b)` given the underlying draw `u = random.random()`. */
  function Uniform(a: real, b: real, u: real): real {
    a + (b - a) * u
  }

  /** The first index at or after `from` whose running sum reaches `r`, if any. */
  function FirstReaching(cs: seq<Candidate>, r: real, from: nat): (k: Option<nat>)
    requires from <= |cs|
    ensures k.Some? ==> from <= k.value < |cs| && r <= CumWeight(cs, k.value)
    ensures forall j :: from <= j < |cs| && (k.None? || j < k.value) ==> CumWeight(cs, j) < r
    decreases |cs| - from
  {
    if from == |cs| then None
    else if r <= CumWeight(cs, from) then Some(from)
    else FirstReaching(cs, r, from + 1)
  }

  /** The index the scan picks for draw `r`: the first candidate whose running
      sum reaches `r`, or the last candidate when no running sum does. */
  function PickIndex(cs: seq<Candidate>, r: real): (k: nat)
    requires cs != []
    ensures k < |cs|
    ensures forall j :: 0 <= j < k ==> CumWeight(cs, j) < r
    ensures r <= CumWeight(cs, k) || (k == |cs| - 1 && CumWeight(cs, k) < r)
  {
    match FirstReaching(cs, r, 0)
    case Some(k) => k
    case None => |cs| - 1
  }

  /** No candidate after one whose running sum already reaches `r` is picked. */
  lemma EarlierQualifierWins(cs: seq<Candidate>, r: real, j: nat)
    requires j < |cs| && r <= CumWeight(cs, j)
    ensures PickIndex(cs, r) <= j
  {
  }

  /** With a single candidate, that candidate is picked whatever the draw. */
  lemma SingleCandidatePicked(c: Candidate, r: real)
    ensures PickIndex([c], r) == 0
  {
  }

  /** The running sum after the last candidate is the total. */
  lemma LastCumWeightIsTotal(cs: seq<Candidate>)
    requires cs != []
    ensures CumWeight(cs, |cs| - 1) == Total(cs)
  {
    assert cs[..|cs|] == cs;
  }

  /** With exact arithmetic the fallback to the last candidate is never needed
      for a draw no larger than the total: some running sum reaches it. */
  lemma NoFallbackWithinTotal(cs: seq<Candidate>, r: real)
    requires cs != [] && r <= Total(cs)
    ensures FirstReaching(cs, r, 0).Some?
    ensures r <= CumWeight(cs, PickIndex(cs, r))
  {
    LastCumWeightIsTotal(cs);
  }

  /** With non-negative weights the running sums never decrease. */
  lemma {:induction false} CumWeightMonotone(cs: seq<Candidate>, i: nat, j: nat)
    requires i <= j < |cs|
    requires forall k :: 0 <= k < |cs| ==> cs[k].weight >= 0.0
    ensures CumWeight(cs, i) <= CumWeight(cs, j)
    decreases j - i
  {
    if i < j {
      CumWeightMonotone(cs, i, j - 1);
      CumWeightStep(cs, j);
    }
  }

  /** For a draw within the total and non-negative weights, candidate `k` is
      picked exactly when the draw falls into its own stretch of the running
      sum: above the sum before it and no higher than the sum including it.
      That stretch is `cs[k].weight` long, which is what makes the choice
      proportional to the weights when the draw is uniform. */
  lemma PickedIffDrawInStretch(cs: seq<Candidate>, r: real, k: nat)
    requires k < |cs| && r <= Total(cs)
    requires forall i :: 0 <= i < |cs| ==> cs[i].weight >= 0.0
    ensures PickIndex(cs, r) == k <==> (r <= CumWeight(cs, k) && (k == 0 || CumWeight(cs, k - 1) < r))
  {
    NoFallbackWithinTotal(cs, r);
    var p := PickIndex(cs, r);
    if r <= CumWeight(cs, k) && (k == 0 || CumWeight(cs, k - 1) < r) {
      if p < k {
        CumWeightMonotone(cs, p, k - 1);
      }
      assert p >= k;
      assert p <= k;
    }
  }

  /** The sum of weights that are each at least `m` is at least `m` per candidate. */
  lemma {:induction false} TotalAtLeast(cs: seq<Candidate>, m: real)
    requires forall i :: 0 <= i < |cs| ==> cs[i].weight >= m
    ensures Total(cs) >= (|cs| as real) * m
    decreases |cs|
  {
    if cs != [] {
      var init := cs[..|cs| - 1];
      TotalAtLeast(init, m);
      assert (|cs| as real) * m == (|init| as real) * m + m;
    }
  }

  /** A draw `u` in [0, 1] puts `Uniform(a, b, u)` between `a` and `b`. */
  lemma UniformWithin(a: real, b: real, u: real)
    requires a <= b && 0.0 <= u <= 1.0
    ensures a <= Uniform(a, b, u) <= b
  {
    MulNonNegative(b - a, u);
    MulNonNegative(b - a, 1.0 - u);
    assert (b - a) * (1.0 - u) == (b - a) - (b - a) * u;
  }

  /** With a positive floor, the candidates of a non-empty store have a positive
      total, and the draw of the scan always lands within it, so the scan never
      needs its fallback. */
  lemma DrawNeverFallsBack(quotes: map<nat, Quote>, order: seq<nat>, w: Weights, u: real)
    requires forall i :: 0 <= i < |order| ==> order[i] in quotes
    requires order != [] && w.minWeight > 0.0 && 0.0 <= u <= 1.0
    ensures var cs := Candidates(quotes, order, w);
            && Total(cs) > 0.0
            && FirstReaching(cs, Uniform(0.0, Total(cs), u), 0).Some?
  {
    var cs := Candidates(quotes, order, w);
    TotalAtLeast(cs, w.minWeight);
    assert (|cs| as real) * w.minWeight >= w.minWeight;
    UniformWithin(0.0, Total(cs), u);
    NoFallbackWithinTotal(cs, Uniform(0.0, Total(cs), u));
  }

  /** When the total is 0, every draw `uniform(0, total)` is 0, and the first
      candidate is picked whenever its weight is non-negative: the choice is not
      uniform among the candidates. */
  lemma ZeroDrawPicksFirst(cs: seq<Candidate>, u: real)
    requires cs != [] && cs[0].weight >= 0.0 && Total(cs) == 0.0
    ensures Uniform(0.0, Total(cs), u) == 0.0
    ensures PickIndex(cs, Uniform(0.0, Total(cs), u)) == 0
  {
    CumWeightStep(cs, 0);
  }

  /** With the default settings (floor 0.05), a non-empty store always has a
      positive total, and no draw in [0, 1] needs the fallback. */
  lemma DefaultsNeverFallBack(quotes: map<nat, Quote>, order: seq<nat>, u: real)
    requires forall i :: 0 <= i < |order| ==> order[i] in quotes
    requires order != [] && 0.0 <= u <= 1.0
    ensures var cs := Candidates(quotes, order, DefaultWeights);
            && Total(cs) > 0.0
            && FirstReaching(cs, Uniform(0.0, Total(cs), u), 0).Some?
  {
    DrawNeverFallsBack(quotes, order, DefaultWeights, u);
  }

  /** Candidates weighted 1 and 3: the second is picked exactly for the draws in
      (1, 4], three quarters of the range [0, 4] of the draw. */
  lemma OneToThreeSplit(r: real)
    requires 0.0 <= r <= 4.0
    ensures PickIndex([Candidate(1, 1.0), Candidate(2, 3.0)], r) == 1 <==> 1.0 < r
  {
    var cs := [Candidate(1, 1.0), Candidate(2, 3.0)];
    CumWeightStep(cs, 0);
    CumWeightStep(cs, 1);
    LastCumWeightIsTotal(cs);
    PickedIffDrawInStretch(cs, r, 1);
  }

  /** The first loop of `select_random_quote`: one `(id, clipped weight)` pair per
      quote the query yields, in the query's order. */
  method CandidatePairs(quotes: map<nat, Quote>, order: seq<nat>, w: Weights) returns (pairs: seq<Candidate>)
    requires forall i :: 0 <= i < |order| ==> order[i] in quotes
    ensures pairs == Candidates(quotes, order, w)
  {
    pairs := [];
    var i := 0;
    while i < |order|
      invariant 0 <= i <= |order|
      invariant pairs == Candidates(quotes, order[..i], w)
    {
      var q := quotes[order[i]];
      var raw := RawWeight(q, w);
      var weight := if w.minWeight > raw then w.minWeight else raw;
      assert order[..i + 1][..i] == order[..i];
      pairs := pairs + [Candidate(order[i], weight)];
      i := i + 1;
    }
    assert order[..i] == order;
  }

  /** The second loop: accumulate the weights and stop at the first candidate
      whose running sum reaches `r`; the last candidate when none does. */
  method Scan(pairs: seq<Candidate>, r: real) returns (chosenId: nat)
    requires pairs != []
    ensures chosenId == pairs[PickIndex(pairs, r)].id
  {
    var acc := 0.0;
    chosenId := pairs[|pairs| - 1].id;
    var k := 0;
    while k < |pairs|
      invariant 0 <= k <= |pairs|
      invariant acc == Total(pairs[..k])
      invariant forall j :: 0 <= j < k ==> CumWeight(pairs, j) < r
      invariant chosenId == pairs[|pairs| - 1].id
    {
      acc := acc + pairs[k].weight;
      assert pairs[..k + 1][..k] == pairs[..k];
      assert acc == CumWeight(pairs, k);
      if r <= acc {
        chosenId := pairs[k].id;
        break;
      }
      k := k + 1;
    }
  }

  /** `select_random_quote`: returns no quote for an empty store; otherwise the
      stored quote the scan picks for the draw `random.uniform(0, total)`. */
  method SelectRandomQuote(store: QuoteStore, order: seq<nat>, w: Weights, u: real)
    returns (chosen: Option<(nat, Quote)>)
    requires ListsStore(store.quotes, order)
    ensures chosen.None? <==> store.quotes == map[]
    ensures chosen.Some? ==>
              var cs := Candidates(store.quotes, order, w);
              && chosen.value.0 == cs[PickIndex(cs, Uniform(0.0, Total(cs), u))].id
              && chosen.value.0 in store.quotes
              && chosen.value.1 == store.quotes[chosen.value.0]
  {
    var pairs := CandidatePairs(store.quotes, order, w);
    if pairs == [] {
      assert store.quotes.Keys == {};
      return None;
    }
    var total := Total(pairs);
    var r := Uniform(0.0, total, u);
    var chosenId := Scan(pairs, r);
    chosen := Some((chosenId, store.quotes[chosenId]));
  }
}
