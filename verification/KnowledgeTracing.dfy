/**
 Bayesian knowledge tracing, over exact rational arithmetic.

 `Update` is one answer, `Trace` a whole history. The results say when more knowledge, more correct
 answers and more practice can only help, and give the exact parameter condition for each.
 */
module KnowledgeTracing {
  datatype BKTState = BKTState(
    pMastery: real, pLearn: real, pGuess: real, pSlip: real, evidenceCount: nat, credited: seq<string>)
  {
    predicate Valid() {
      0.0 <= pMastery <= 1.0 && 0.0 <= pLearn <= 1.0 && 0.0 <= pGuess <= 1.0 && 0.0 <= pSlip <= 1.0
    }
  }

  const DEFAULT_BKT := BKTState(0.0, 0.15, 0.2, 0.1, 0, [])
  const THRESHOLD := 0.85
  const MINIMUM_EVIDENCE := 3

  /** The posterior of `prior` when the answer has likelihood `known` if mastered, else `unknown`. */
  function Bayes(prior: real, known: real, unknown: real): real {
    var numerator := prior * known;
    var denominator := numerator + (1.0 - prior) * unknown;
    if denominator > 0.0 then numerator / denominator else prior
  }

  function Posterior(state: BKTState, isCorrect: bool): real {
    if isCorrect then Bayes(state.pMastery, 1.0 - state.pSlip, state.pGuess)
    else Bayes(state.pMastery, state.pSlip, 1.0 - state.pGuess)
  }

  /** Mastery after the answer and a chance to learn, before the clamp. */
  function Learned(state: BKTState, isCorrect: bool): real {
    var posterior := Posterior(state, isCorrect);
    posterior + (1.0 - posterior) * state.pLearn
  }

  function Clamp(x: real): real {
    if x < 0.0 then 0.0 else if x > 1.0 then 1.0 else x
  }

  function Update(state: BKTState, isCorrect: bool): BKTState {
    state.(pMastery := Clamp(Learned(state, isCorrect)), evidenceCount := state.evidenceCount + 1)
  }

  predicate MasteryIsStable(state: BKTState, qualitativeGate: bool, threshold: real, minimumEvidence: int) {
    qualitativeGate && state.evidenceCount >= minimumEvidence && state.pMastery >= threshold
  }

  /** A whole answer history, oldest first. */
  function Trace(state: BKTState, answers: seq<bool>): BKTState
    decreases answers
  {
    if answers == [] then state else Trace(Update(state, answers[0]), answers[1..])
  }

  // ---------------------------------------------------------------- one Bayes step

  /** Every use of a probability below: a product of non-negative numbers, a quotient of ordered ones. */
  lemma Product(a: real, b: real)
    requires a >= 0.0 && b >= 0.0
    ensures a * b >= 0.0
  {
  }

  lemma Positive(a: real, b: real)
    requires a > 0.0 && b > 0.0
    ensures a * b > 0.0
  {
  }

  lemma DivideOut(a: real, b: real, d: real)
    requires d > 0.0 && a * d <= b * d
    ensures a <= b
  {
    if a > b { ProductStrict(a - b, d, a, b); }
  }

  lemma ProductStrict(gap: real, d: real, a: real, b: real)
    requires gap > 0.0 && d > 0.0 && gap == a - b
    ensures a * d > b * d
  {
    Positive(gap, d);
    assert a * d - b * d == gap * d;
  }

  lemma PositiveFactor(a: real, b: real)
    requires a >= 0.0 && a * b > 0.0
    ensures b > 0.0
  {
  }

  lemma ProductUp(a: real, b: real, c: real)
    requires a <= b && c >= 0.0
    ensures a * c <= b * c
  {
  }

  lemma Cross(a: real, b: real, c: real, d: real)
    requires b > 0.0 && d > 0.0
    ensures a / b <= c / d <==> a * d <= c * b
  {
    var x, y := a / b, c / d;
    assert a == x * b && c == y * d;
    assert a * d == x * (b * d) && c * b == y * (b * d);
    assert b * d > 0.0;
    if x <= y { ProductUp(x, y, b * d); }
    if x > y { assert (x - y) * (b * d) > 0.0; }
  }

  lemma Quotient(a: real, b: real)
    requires 0.0 <= a <= b && b > 0.0
    ensures 0.0 <= a / b <= 1.0
  {
    Cross(0.0, 1.0, a, b);
    Cross(a, b, 1.0, 1.0);
  }

  lemma BayesIsProbability(p: real, a: real, b: real)
    requires 0.0 <= p <= 1.0 && a >= 0.0 && b >= 0.0
    ensures 0.0 <= Bayes(p, a, b) <= 1.0
  {
    Product(p, a);
    Product(1.0 - p, b);
    if p * a + (1.0 - p) * b > 0.0 { Quotient(p * a, p * a + (1.0 - p) * b); }
  }

  lemma BayesAtEnds(a: real, b: real)
    requires a >= 0.0
    ensures Bayes(0.0, a, b) == 0.0 && Bayes(1.0, a, b) == 1.0
  {
  }

  lemma Evidence(p: real, a: real, b: real)
    requires 0.0 < p < 1.0 && a >= 0.0 && b >= 0.0
    ensures p * a + (1.0 - p) * b > 0.0 <==> a + b > 0.0
  {
    Product(p, a);
    Product(1.0 - p, b);
    if a > 0.0 { assert p * a > 0.0; }
    if b > 0.0 { assert (1.0 - p) * b > 0.0; }
  }

  /** A higher prior never gives a lower posterior, whichever likelihoods vanish. */
  lemma BayesGrows(p: real, q: real, a: real, b: real)
    requires 0.0 <= p <= q <= 1.0 && a >= 0.0 && b >= 0.0
    ensures Bayes(p, a, b) <= Bayes(q, a, b)
  {
    BayesAtEnds(a, b);
    if p == 0.0 {
      BayesIsProbability(q, a, b);
    } else if q == 1.0 {
      BayesIsProbability(p, a, b);
    } else {
      Evidence(p, a, b);
      Evidence(q, a, b);
      if a + b > 0.0 {
        var m, n := p * a + (1.0 - p) * b, q * a + (1.0 - q) * b;
        Cross(p * a, m, q * a, n);
        Product(a, b);
        Product(q - p, a * b);
        assert (q * a) * m - (p * a) * n == (q - p) * (a * b);
      }
    }
  }

  /** Shifting likelihood from "not mastered" to "mastered" never lowers the posterior. */
  lemma BayesOrder(p: real, a: real, b: real, c: real, d: real)
    requires 0.0 <= p <= 1.0 && a >= 0.0 && b >= 0.0 && c >= 0.0 && d >= 0.0
    requires a + b > 0.0 && c + d > 0.0 && a * d <= c * b
    ensures Bayes(p, a, b) <= Bayes(p, c, d)
  {
    BayesAtEnds(a, b);
    BayesAtEnds(c, d);
    if 0.0 < p < 1.0 {
      var m, n := p * a + (1.0 - p) * b, p * c + (1.0 - p) * d;
      Evidence(p, a, b);
      Evidence(p, c, d);
      Cross(p * a, m, p * c, n);
      OrderIdentity(p, a, b, c, d);
      Product(p, 1.0 - p);
      Product(p * (1.0 - p), c * b - a * d);
    }
  }

  lemma OrderIdentity(p: real, a: real, b: real, c: real, d: real)
    ensures (p * c) * (p * a + (1.0 - p) * b) - (p * a) * (p * c + (1.0 - p) * d) == (p * (1.0 - p)) * (c * b - a * d)
  {
    var r := 1.0 - p;
    assert (p * c) * (r * b) == (p * r) * (c * b);
    assert (p * a) * (r * d) == (p * r) * (a * d);
    assert (p * c) * (p * a) == (p * a) * (p * c);
  }

  // ---------------------------------------------------------------- one answer

  predicate SameModel(s: BKTState, t: BKTState) {
    s.pLearn == t.pLearn && s.pGuess == t.pGuess && s.pSlip == t.pSlip
  }

  /** The clamp never acts: the learned value is a probability, at least `pLearn` and at least the posterior. */
  lemma ClampNeverActs(s: BKTState, isCorrect: bool)
    requires s.Valid()
    ensures Update(s, isCorrect).pMastery == Learned(s, isCorrect) && Update(s, isCorrect).Valid()
    ensures Learned(s, isCorrect) >= s.pLearn && Learned(s, isCorrect) >= Posterior(s, isCorrect)
  {
    hide Bayes;
    BayesIsProbability(s.pMastery, 1.0 - s.pSlip, s.pGuess);
    BayesIsProbability(s.pMastery, s.pSlip, 1.0 - s.pGuess);
    var q := Posterior(s, isCorrect);
    Product(1.0 - q, s.pLearn);
    Product(1.0 - q, 1.0 - s.pLearn);
    Product(q, 1.0 - s.pLearn);
    assert q + (1.0 - q) * s.pLearn == 1.0 - (1.0 - q) * (1.0 - s.pLearn) == s.pLearn + q * (1.0 - s.pLearn);
  }

  /** The posterior, in the odds: prior odds times the ratio of the likelihoods. */
  lemma BayesOdds(p: real, a: real, b: real)
    requires 0.0 <= p <= 1.0 && a >= 0.0 && b >= 0.0
    ensures Bayes(p, a, b) * ((1.0 - p) * b) == (1.0 - Bayes(p, a, b)) * (p * a)
    ensures p * a + (1.0 - p) * b == 0.0 ==> Bayes(p, a, b) == p
  {
    Product(p, a);
    Product(1.0 - p, b);
    var n, m := p * a, (1.0 - p) * b;
    if n + m > 0.0 {
      var q := n / (n + m);
      assert q * (n + m) == n;
      assert q * m == n - q * n;
    }
  }

  /**
   An answer multiplies the odds of mastery by the likelihood of that answer with mastery over its likelihood
   without, then the doubt left shrinks by the learn rate: with the learn step undone, `m - pLearn` against
   `1 - m` is the posterior against its doubt. An answer that was impossible leaves the prior.
   */
  lemma OddsTimesLikelihoods(s: BKTState, isCorrect: bool)
    requires s.Valid()
    ensures var p, m := s.pMastery, Update(s, isCorrect).pMastery;
            var known := if isCorrect then 1.0 - s.pSlip else s.pSlip;
            var unknown := if isCorrect then s.pGuess else 1.0 - s.pGuess;
            && (m - s.pLearn) * ((1.0 - p) * unknown) == (1.0 - m) * (p * known)
            && (p * known + (1.0 - p) * unknown == 0.0 ==> m == p + (1.0 - p) * s.pLearn)
  {
    hide Bayes, Update;
    ClampNeverActs(s, isCorrect);
    var p, m := s.pMastery, Update(s, isCorrect).pMastery;
    var known := if isCorrect then 1.0 - s.pSlip else s.pSlip;
    var unknown := if isCorrect then s.pGuess else 1.0 - s.pGuess;
    BayesOdds(p, known, unknown);
    LearnUndone(Bayes(p, known, unknown), s.pLearn, (1.0 - p) * unknown, p * known);
  }

  lemma LearnUndone(q: real, l: real, b: real, a: real)
    requires q * b == (1.0 - q) * a
    ensures var m := q + (1.0 - q) * l; (m - l) * b == (1.0 - m) * a
  {
    var m := q + (1.0 - q) * l;
    assert m - l == (1.0 - l) * q && 1.0 - m == (1.0 - l) * (1.0 - q);
    assert ((1.0 - l) * q) * b == (1.0 - l) * (q * b);
    assert ((1.0 - l) * (1.0 - q)) * a == (1.0 - l) * ((1.0 - q) * a);
  }

  /** Whether a wrong answer lowers the estimate, learning included: exactly when the learner knew more than that. */
  lemma WrongLowersIff(s: BKTState)
    requires s.Valid() && 0.0 < s.pMastery < 1.0 && s.pSlip + (1.0 - s.pGuess) > 0.0
    ensures Update(s, false).pMastery <= s.pMastery <==> s.pLearn * (1.0 - s.pGuess) <= s.pMastery * (1.0 - s.pGuess - s.pSlip)
    ensures Update(s, false).pMastery < s.pMastery <==> s.pLearn * (1.0 - s.pGuess) < s.pMastery * (1.0 - s.pGuess - s.pSlip)
  {
    hide Update;
    var p, m, l, slip, unknown := s.pMastery, Update(s, false).pMastery, s.pLearn, s.pSlip, 1.0 - s.pGuess;
    OddsTimesLikelihoods(s, false);
    Evidence(p, slip, unknown);
    MixtureGap(p, m, l, slip, unknown);
    var d, gap := p * slip + (1.0 - p) * unknown, p * (unknown - slip) - l * unknown;
    assert (p - m) * d == (1.0 - p) * gap;
    SameSign(p - m, d, 1.0 - p, gap);
  }

  lemma MixtureGap(p: real, m: real, l: real, a: real, b: real)
    requires (m - l) * ((1.0 - p) * b) == (1.0 - m) * (p * a)
    ensures (p - m) * (p * a + (1.0 - p) * b) == (1.0 - p) * (p * (b - a) - l * b)
  {
    var x, y := p * a, (1.0 - p) * b;
    assert m * (x + y) == x + l * y;
    assert p * (x + y) - x == p * y - (1.0 - p) * x;
    assert p * y == (1.0 - p) * (p * b);
    assert (1.0 - p) * x == (1.0 - p) * (p * a);
    assert l * y == (1.0 - p) * (l * b);
    assert (1.0 - p) * (p * (b - a) - l * b) == (1.0 - p) * (p * b) - (1.0 - p) * (p * a) - (1.0 - p) * (l * b);
  }

  lemma SameSign(x: real, d: real, r: real, gap: real)
    requires d > 0.0 && r > 0.0 && x * d == r * gap
    ensures (x >= 0.0 <==> gap >= 0.0) && (x > 0.0 <==> gap > 0.0)
  {
    if x > 0.0 { Positive(x, d); }
    if x < 0.0 { Positive(-x, d); }
    if gap > 0.0 { Positive(r, gap); }
    if gap < 0.0 { Positive(r, -gap); }
  }

  /** Without the learn step a wrong answer is evidence against mastery. */
  ghost predicate WrongNeverRaises(s: BKTState) {
    forall p | 0.0 <= p <= 1.0 :: Update(s.(pMastery := p, pLearn := 0.0), false).pMastery <= p
  }

  /** It is so at every prior exactly when slip + guess is at most 1, and strictly inside when it is below 1. */
  lemma WrongNeverRaisesIff(s: BKTState)
    requires s.Valid()
    ensures WrongNeverRaises(s) <==> s.pSlip + s.pGuess <= 1.0
    ensures s.pSlip + s.pGuess < 1.0 ==>
              forall p | 0.0 < p < 1.0 :: Update(s.(pMastery := p, pLearn := 0.0), false).pMastery < p
  {
    hide Update;
    forall p | 0.0 <= p <= 1.0
      ensures var m := Update(s.(pMastery := p, pLearn := 0.0), false).pMastery;
              && (s.pSlip + s.pGuess <= 1.0 ==> m <= p)
              && (s.pSlip + s.pGuess < 1.0 && 0.0 < p < 1.0 ==> m < p)
    {
      WrongAt(s.(pMastery := p, pLearn := 0.0));
    }
    if s.pSlip + s.pGuess > 1.0 {
      WrongAt(s.(pMastery := 0.5, pLearn := 0.0));
      assert !(Update(s.(pMastery := 0.5, pLearn := 0.0), false).pMastery <= 0.5);
    }
  }

  lemma WrongAt(s: BKTState)
    requires s.Valid() && s.pLearn == 0.0
    ensures var m := Update(s, false).pMastery;
            && (s.pSlip + s.pGuess <= 1.0 ==> m <= s.pMastery)
            && (0.0 < s.pMastery < 1.0 ==> (m < s.pMastery <==> s.pSlip + s.pGuess < 1.0) && (m <= s.pMastery <==> s.pSlip + s.pGuess <= 1.0))
  {
    hide Update;
    var p, gap := s.pMastery, 1.0 - s.pGuess - s.pSlip;
    if 0.0 < p < 1.0 && s.pSlip + (1.0 - s.pGuess) > 0.0 {
      WrongLowersIff(s);
      assert s.pLearn * (1.0 - s.pGuess) == 0.0;
      SameSign(p * gap, 1.0, p, gap);
    } else {
      WrongAtEnds(s);
    }
  }

  lemma WrongAtEnds(s: BKTState)
    requires s.Valid() && s.pLearn == 0.0 && (s.pMastery == 0.0 || s.pMastery == 1.0 || s.pSlip + (1.0 - s.pGuess) == 0.0)
    ensures Update(s, false).pMastery == s.pMastery
  {
    BayesAtEnds(s.pSlip, 1.0 - s.pGuess);
  }

  /** A learner believed stronger stays at least as strong, for every guess and slip. */
  lemma UpdateGrows(s: BKTState, t: BKTState, isCorrect: bool)
    requires s.Valid() && t.Valid() && SameModel(s, t) && s.pMastery <= t.pMastery
    ensures Update(s, isCorrect).pMastery <= Update(t, isCorrect).pMastery
  {
    hide Bayes;
    ClampNeverActs(s, isCorrect);
    ClampNeverActs(t, isCorrect);
    BayesGrows(s.pMastery, t.pMastery, 1.0 - s.pSlip, s.pGuess);
    BayesGrows(s.pMastery, t.pMastery, s.pSlip, 1.0 - s.pGuess);
    LearnedOrder(Posterior(s, isCorrect), Posterior(t, isCorrect), s.pLearn);
  }

  lemma LearnedOrder(p: real, q: real, learn: real)
    requires p <= q && learn <= 1.0
    ensures p + (1.0 - p) * learn <= q + (1.0 - q) * learn
    ensures p < q && learn < 1.0 ==> p + (1.0 - p) * learn < q + (1.0 - q) * learn
  {
    Product(q - p, 1.0 - learn);
    if p < q && learn < 1.0 { Positive(q - p, 1.0 - learn); }
    LearnedGap(p, q, learn);
  }

  lemma LearnedGap(p: real, q: real, learn: real)
    ensures (q + (1.0 - q) * learn) - (p + (1.0 - p) * learn) == (q - p) * (1.0 - learn)
  {
  }

  /** With slip + guess at most 1 a correct answer is worth at least a wrong one. */
  lemma CorrectIsWorthMore(s: BKTState)
    requires s.Valid() && (s.pSlip + s.pGuess <= 1.0 || s.pLearn == 1.0)
    ensures Update(s, false).pMastery <= Update(s, true).pMastery
  {
    hide Bayes;
    ClampNeverActs(s, false);
    ClampNeverActs(s, true);
    if s.pSlip + s.pGuess <= 1.0 {
      if s.pSlip + s.pGuess == 1.0 {
        Uninformative(s.pMastery, s.pSlip);
        Uninformative(s.pMastery, s.pGuess);
      } else {
        OddsProduct(s.pSlip, s.pGuess);
        BayesOrder(s.pMastery, s.pSlip, 1.0 - s.pGuess, 1.0 - s.pSlip, s.pGuess);
      }
      LearnedOrder(Posterior(s, false), Posterior(s, true), s.pLearn);
    }
  }

  lemma Uninformative(p: real, a: real)
    ensures Bayes(p, a, a) == p
  {
    assert p * a + (1.0 - p) * a == a;
  }

  lemma OddsProduct(slip: real, guess: real)
    requires slip + guess <= 1.0
    ensures slip * guess <= (1.0 - slip) * (1.0 - guess)
  {
    assert (1.0 - slip) * (1.0 - guess) == 1.0 - slip - guess + slip * guess;
  }

  ghost predicate CorrectNeverWorse(s: BKTState) {
    forall p | 0.0 <= p <= 1.0 ::
      var at := s.(pMastery := p); Update(at, false).pMastery <= Update(at, true).pMastery
  }

  /** Exactly then, over all priors: otherwise an even prior already rewards the wrong answer. */
  lemma CorrectNeverWorseIff(s: BKTState)
    requires s.Valid()
    ensures CorrectNeverWorse(s) <==> s.pSlip + s.pGuess <= 1.0 || s.pLearn == 1.0
  {
    hide Update;
    if s.pSlip + s.pGuess <= 1.0 || s.pLearn == 1.0 {
      forall p | 0.0 <= p <= 1.0
        ensures Update(s.(pMastery := p), false).pMastery <= Update(s.(pMastery := p), true).pMastery
      {
        CorrectIsWorthMore(s.(pMastery := p));
      }
    } else {
      EvenPriorRewardsWrong(s.(pMastery := 0.5));
      assert !(Update(s.(pMastery := 0.5), false).pMastery <= Update(s.(pMastery := 0.5), true).pMastery);
    }
  }

  lemma EvenPriorRewardsWrong(s: BKTState)
    requires s.Valid() && s.pMastery == 0.5 && s.pSlip + s.pGuess > 1.0 && s.pLearn < 1.0
    ensures Update(s, false).pMastery > Update(s, true).pMastery
  {
    hide Bayes;
    ClampNeverActs(s, false);
    ClampNeverActs(s, true);
    EvenPosteriors(s.pMastery, s.pSlip, s.pGuess);
    var p, q := Posterior(s, true), Posterior(s, false);
    LearnedOrder(p, q, s.pLearn);
  }

  lemma EvenPosteriors(p: real, slip: real, guess: real)
    requires p == 0.5 && 0.0 <= slip <= 1.0 && 0.0 <= guess <= 1.0 && slip + guess > 1.0
    ensures Bayes(p, 1.0 - slip, guess) < Bayes(p, slip, 1.0 - guess)
  {
    var a, b, c, d := 0.5 * slip, 0.5 * slip + 0.5 * (1.0 - guess), 0.5 * (1.0 - slip), 0.5 * (1.0 - slip) + 0.5 * guess;
    Cross(a, b, c, d);
    assert a * d - c * b == 0.25 * (slip + guess - 1.0);
  }

  ghost predicate CorrectNeverLowers(s: BKTState) {
    forall p | 0.0 <= p <= 1.0 :: Update(s.(pMastery := p), true).pMastery >= p
  }

  /** A correct answer never lowers mastery, whatever the prior, exactly when learning makes up for slips. */
  lemma CorrectNeverLowersIff(s: BKTState)
    requires s.Valid()
    ensures CorrectNeverLowers(s) <==> s.pGuess * (1.0 - s.pLearn) <= 1.0 - s.pSlip
  {
    hide Update;
    var excess := s.pGuess * (1.0 - s.pLearn) - (1.0 - s.pSlip);
    if excess <= 0.0 {
      forall p | 0.0 <= p <= 1.0 ensures Update(s.(pMastery := p), true).pMastery >= p {
        CorrectRaises(s.(pMastery := p));
      }
    } else {
      // close enough to certainty, the correct answer lowers the estimate
      var spread := s.pGuess - (1.0 - s.pSlip);
      assert spread == excess + s.pGuess * s.pLearn;
      Product(s.pGuess, s.pLearn);
      var edge := s.pGuess * s.pLearn / spread;
      assert edge * spread == s.pGuess * s.pLearn;
      assert edge < 1.0 by { if edge >= 1.0 { ProductUp(1.0, edge, spread); } }
      var p := (edge + 1.0) / 2.0;
      Quotient(s.pGuess * s.pLearn, spread);
      assert p * spread > s.pGuess * s.pLearn by {
        assert (p - edge) * spread > 0.0;
      }
      CorrectLowers(s.(pMastery := p));
      assert !(Update(s.(pMastery := p), true).pMastery >= p);
    }
  }

  /** What a correct answer leaves of the doubt `1 - p`, when the evidence is not impossible. */
  lemma DoubtAfterCorrect(s: BKTState)
    requires s.Valid() && 0.0 < s.pMastery < 1.0 && 1.0 - s.pSlip + s.pGuess > 0.0
    ensures var d := s.pMastery * (1.0 - s.pSlip) + (1.0 - s.pMastery) * s.pGuess;
            d > 0.0 && (1.0 - Update(s, true).pMastery) * d == (1.0 - s.pMastery) * (s.pGuess * (1.0 - s.pLearn))
  {
    var p, a, b := s.pMastery, 1.0 - s.pSlip, s.pGuess;
    var d := p * a + (1.0 - p) * b;
    Evidence(p, a, b);
    ClampNeverActs(s, true);
    var q := Posterior(s, true);
    assert q * d == p * a;
    assert (1.0 - q) * d == (1.0 - p) * b;
    assert 1.0 - Update(s, true).pMastery == (1.0 - q) * (1.0 - s.pLearn);
    assert ((1.0 - q) * (1.0 - s.pLearn)) * d == ((1.0 - q) * d) * (1.0 - s.pLearn);
    assert ((1.0 - p) * b) * (1.0 - s.pLearn) == (1.0 - p) * (b * (1.0 - s.pLearn));
  }

  lemma CorrectRaises(s: BKTState)
    requires s.Valid() && s.pGuess * (1.0 - s.pLearn) <= 1.0 - s.pSlip
    ensures Update(s, true).pMastery >= s.pMastery
  {
    hide Update, Posterior, Learned;
    var p, a, b, l := s.pMastery, 1.0 - s.pSlip, s.pGuess, s.pLearn;
    if p == 0.0 || p == 1.0 || a + b == 0.0 {
      NoDoubtOrNoEvidence(s);
    } else {
      DoubtAfterCorrect(s);
      var d, doubt, kept := p * a + (1.0 - p) * b, 1.0 - Update(s, true).pMastery, b * (1.0 - l);
      BelowMixture(p, kept, a, b, l);
      DoubtBelow(doubt, 1.0 - p, kept, d);
    }
  }

  lemma DoubtBelow(doubt: real, r: real, kept: real, d: real)
    requires d > 0.0 && r >= 0.0 && kept <= d && doubt * d == r * kept
    ensures doubt <= r
  {
    ProductUp(kept, d, r);
    DivideOut(doubt, r, d);
  }

  lemma NoDoubtOrNoEvidence(s: BKTState)
    requires s.Valid() && (s.pMastery == 0.0 || s.pMastery == 1.0 || 1.0 - s.pSlip + s.pGuess == 0.0)
    ensures Update(s, true).pMastery >= s.pMastery
  {
    ClampNeverActs(s, true);
    BayesAtEnds(1.0 - s.pSlip, s.pGuess);
  }

  /** The guess that learning leaves, below both likelihoods, is below their mixture. */
  lemma BelowMixture(p: real, kept: real, a: real, b: real, l: real)
    requires 0.0 <= p <= 1.0 && b >= 0.0 && l >= 0.0 && kept == b * (1.0 - l) <= a
    ensures kept <= p * a + (1.0 - p) * b
  {
    Product(b, l);
    assert kept == b - b * l;
    Product(p, a - kept);
    Product(1.0 - p, b - kept);
    assert p * a + (1.0 - p) * b - kept == p * (a - kept) + (1.0 - p) * (b - kept);
  }

  lemma CorrectLowers(s: BKTState)
    requires s.Valid() && 0.0 < s.pMastery < 1.0
    requires s.pMastery * (s.pGuess - (1.0 - s.pSlip)) > s.pGuess * s.pLearn
    ensures Update(s, true).pMastery < s.pMastery
  {
    hide Update, Posterior, Learned;
    var p, a, b, l := s.pMastery, 1.0 - s.pSlip, s.pGuess, s.pLearn;
    var d, doubt, kept := p * a + (1.0 - p) * b, 1.0 - Update(s, true).pMastery, b * (1.0 - l);
    AboveMixture(p, kept, a, b, l);
    DoubtAfterCorrect(s);
    Positive(1.0 - p, kept - d);
    assert (1.0 - p) * kept - (1.0 - p) * d == (1.0 - p) * (kept - d);
    if doubt <= 1.0 - p { ProductUp(doubt, 1.0 - p, d); }
  }

  lemma AboveMixture(p: real, kept: real, a: real, b: real, l: real)
    requires 0.0 < p < 1.0 && a >= 0.0 && b >= 0.0 && l >= 0.0 && kept == b * (1.0 - l) && p * (b - a) > b * l
    ensures kept > p * a + (1.0 - p) * b && a + b > 0.0
  {
    Product(b, l);
    PositiveFactor(p, b - a);
    assert kept - (p * a + (1.0 - p) * b) == p * (b - a) - b * l;
  }

  // ---------------------------------------------------------------- a whole history

  lemma {:induction false} TraceKeeps(s: BKTState, answers: seq<bool>)
    requires s.Valid()
    ensures var e := Trace(s, answers);
            && e.Valid() && SameModel(s, e) && e.credited == s.credited
            && e.evidenceCount == s.evidenceCount + |answers|
            && (answers != [] ==> e.pMastery >= s.pLearn)
    decreases answers
  {
    hide Update;
    if answers != [] {
      var t := Update(s, answers[0]);
      ClampNeverActs(s, answers[0]);
      UpdateKeeps(s, answers[0]);
      TraceKeeps(t, answers[1..]);
      if answers[1..] == [] { assert Trace(t, answers[1..]) == t; }
    }
  }

  lemma UpdateKeeps(s: BKTState, isCorrect: bool)
    ensures var t := Update(s, isCorrect);
            SameModel(s, t) && t.credited == s.credited && t.evidenceCount == s.evidenceCount + 1
  {
  }

  predicate NoWorse(answers: seq<bool>, better: seq<bool>) {
    |answers| == |better| && forall i | 0 <= i < |answers| :: answers[i] ==> better[i]
  }

  /**
   Stronger start, or wrong answers turned right anywhere in the history: the final mastery is no lower.
   With the same answers on both sides no condition on the parameters is needed.
   */
  lemma {:induction false} TraceGrows(s: BKTState, t: BKTState, answers: seq<bool>, better: seq<bool>)
    requires s.Valid() && t.Valid() && SameModel(s, t) && s.pMastery <= t.pMastery && NoWorse(answers, better)
    requires answers == better || s.pSlip + s.pGuess <= 1.0 || s.pLearn == 1.0
    ensures Trace(s, answers).pMastery <= Trace(t, better).pMastery
    decreases |answers|
  {
    hide Update;
    if answers != [] {
      UpdateGrows(s, t, answers[0]);
      ClampNeverActs(s, answers[0]);
      ClampNeverActs(t, better[0]);
      UpdateKeeps(s, answers[0]);
      UpdateKeeps(t, better[0]);
      if answers[0] != better[0] { CorrectIsWorthMore(t); }
      TraceGrows(Update(s, answers[0]), Update(t, better[0]), answers[1..], better[1..]);
    }
  }

  predicate AllCorrect(answers: seq<bool>) { forall a | a in answers :: a }

  /** A stable topic stays stable under further correct answers. */
  lemma {:induction false} StaysStable(s: BKTState, answers: seq<bool>, gate: bool, threshold: real, minimum: int)
    requires s.Valid() && s.pGuess * (1.0 - s.pLearn) <= 1.0 - s.pSlip && AllCorrect(answers)
    requires MasteryIsStable(s, gate, threshold, minimum)
    ensures MasteryIsStable(Trace(s, answers), gate, threshold, minimum)
    decreases answers
  {
    hide Update;
    if answers != [] {
      assert answers[0] in answers && forall a | a in answers[1..] :: a in answers;
      CorrectRaises(s);
      ClampNeverActs(s, true);
      UpdateKeeps(s, true);
      StaysStable(Update(s, true), answers[1..], gate, threshold, minimum);
    }
  }

  function Power(x: real, n: nat): real { if n == 0 then 1.0 else x * Power(x, n - 1) }

  /** Each correct answer leaves at most the fraction `1 - pLearn` of the remaining doubt. */
  lemma {:induction false} DoubtShrinks(s: BKTState, answers: seq<bool>)
    requires s.Valid() && s.pSlip + s.pGuess <= 1.0 && AllCorrect(answers)
    ensures 1.0 - Trace(s, answers).pMastery <= (1.0 - s.pMastery) * Power(1.0 - s.pLearn, |answers|)
    decreases answers
  {
    hide Update, Power;
    PowerSign(1.0 - s.pLearn, 0);
    if answers != [] {
      assert answers[0] in answers && forall a | a in answers[1..] :: a in answers;
      var t := Update(s, true);
      ClampNeverActs(s, true);
      UpdateKeeps(s, true);
      DoubtStep(s);
      DoubtShrinks(t, answers[1..]);
      DoubtProduct(1.0 - t.pMastery, 1.0 - s.pMastery, 1.0 - s.pLearn, |answers| - 1);
    }
  }

  lemma {:induction false} PowerSign(x: real, n: nat)
    requires x >= 0.0
    ensures Power(x, n) >= 0.0 && Power(x, 0) == 1.0
  {
    if n > 0 {
      PowerSign(x, n - 1);
      Product(x, Power(x, n - 1));
    }
  }

  lemma DoubtProduct(after: real, before: real, kept: real, n: nat)
    requires after <= before * kept && kept >= 0.0
    ensures after * Power(kept, n) <= before * Power(kept, n + 1)
  {
    PowerSign(kept, n);
    ProductUp(after, before * kept, Power(kept, n));
    assert (before * kept) * Power(kept, n) == before * (kept * Power(kept, n));
  }

  lemma DoubtStep(s: BKTState)
    requires s.Valid() && s.pSlip + s.pGuess <= 1.0
    ensures 1.0 - Update(s, true).pMastery <= (1.0 - s.pMastery) * (1.0 - s.pLearn)
  {
    hide Bayes;
    ClampNeverActs(s, true);
    if s.pSlip + s.pGuess == 1.0 {
      Uninformative(s.pMastery, s.pGuess);
    } else {
      Favourable(s.pMastery, 1.0 - s.pSlip, s.pGuess);
    }
    LearnedOrder(s.pMastery, Posterior(s, true), s.pLearn);
    assert s.pMastery + (1.0 - s.pMastery) * s.pLearn == 1.0 - (1.0 - s.pMastery) * (1.0 - s.pLearn);
  }

  lemma Favourable(p: real, a: real, b: real)
    requires 0.0 <= p <= 1.0 && 0.0 <= b < a
    ensures p <= Bayes(p, a, b)
  {
    var even := 1.0;
    Uninformative(p, even);
    assert even * b <= a * even;
    BayesOrder(p, even, even, a, b);
  }

  /** With the shipped parameters twelve correct answers make any topic stable, whatever came before. */
  lemma TwelveCorrectAnswersSuffice(history: seq<bool>, answers: seq<bool>)
    requires |answers| == 12 && AllCorrect(answers)
    ensures MasteryIsStable(Trace(Trace(DEFAULT_BKT, history), answers), true, THRESHOLD, MINIMUM_EVIDENCE)
  {
    hide Update, Trace;
    TraceKeeps(DEFAULT_BKT, history);
    var s := Trace(DEFAULT_BKT, history);
    TraceKeeps(s, answers);
    DoubtShrinks(s, answers);
    TwelfthPower();
    ProductUp(1.0 - s.pMastery, 1.0, Power(0.85, 12));
  }

  /** A new learner: three correct answers suffice under the shipped parameters, and no fewer answers do. */
  lemma ThreeAnswersForANewLearner(answers: seq<bool>)
    ensures MasteryIsStable(Trace(DEFAULT_BKT, [true, true, true]), true, THRESHOLD, MINIMUM_EVIDENCE)
    ensures |answers| < 3 ==> !MasteryIsStable(Trace(DEFAULT_BKT, answers), true, THRESHOLD, MINIMUM_EVIDENCE)
  {
    hide Trace, Update;
    TraceKeeps(DEFAULT_BKT, answers);
    TraceKeeps(DEFAULT_BKT, [true, true, true]);
    var s := Trace(DEFAULT_BKT, [true, true, true]);
    assert s.pMastery >= 0.85 by { ThirdMastery(); }
  }

  lemma ThirdMastery()
    ensures Trace(DEFAULT_BKT, [true, true, true]).pMastery >= 0.85
  {
    hide Update, Trace;
    var a := Update(DEFAULT_BKT, true);
    ThreeSteps(DEFAULT_BKT);
    UpdateKeeps(DEFAULT_BKT, true);
    FirstUpdate();
    DoubtAfterCorrect(a);
    var b := Update(a, true);
    UpdateKeeps(a, true);
    ClampNeverActs(a, true);
    assert 0.52 < b.pMastery < 0.53;
    DoubtAfterCorrect(b);
    ThirdStep(b.pMastery, Update(b, true).pMastery);
  }

  lemma ThirdStep(p: real, m: real)
    requires 0.52 < p < 0.53 && (1.0 - p) * 0.305 == 0.1445
    requires (1.0 - m) * (p * 0.9 + (1.0 - p) * 0.2) == (1.0 - p) * (0.2 * 0.85)
    ensures m >= 0.85
  {
    assert p == 1.0 - 0.1445 / 0.305;
  }

  lemma FirstUpdate()
    ensures Update(DEFAULT_BKT, true).pMastery == 0.15
  {
  }

  lemma ThreeSteps(s: BKTState)
    ensures Trace(s, [true, true, true]) == Update(Update(Update(s, true), true), true)
  {
    assert [true, true, true][1..] == [true, true] && [true, true][1..] == [true] && [true][1..] == [];
  }

  lemma TwelfthPower()
    ensures 0.0 <= Power(0.85, 12) <= 0.15
  {
    assert Power(0.85, 3) == 0.614125;
    assert Power(0.85, 6) <= 0.37715;
    assert Power(0.85, 9) <= 0.23162;
  }
}
