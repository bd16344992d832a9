/**
 Trust scoring: one evaluation as a function of an organisation's persisted scores, and bounds
 over arbitrarily long sequences of evaluations. Trust is counted in hundredths.
 */
module Trust {
  import opened Wrappers

  const FULL_TRUST := 100
  const MIN_TRUST := 30
  const MIN_ACCURACY: real := 0.5
  const MAX_ACCURACY_DROP: real := 0.15

  /** What the database keeps about one organisation between evaluations. */
  datatype Scores = Scores(trust: int, lastAccuracy: Option<real>)

  const ENROLLED := Scores(FULL_TRUST, None)

  /** What loading and scoring the uploaded booster came to. */
  datatype Scoring = Unloadable | NoValidationSet | PredictionFails | Accuracy(value: real)

  datatype Reason = LowTrust | InvalidStructure | EvaluationFailed | LowAccuracy | SuspiciousDrop | Validated

  datatype Evaluation = Evaluation(accepted: bool, trust: int, weight: int, accuracy: Option<real>, reason: Reason)

  function Clamp(v: int): int {
    if v < 0 then 0 else if v > FULL_TRUST then FULL_TRUST else v
  }

  predicate DropsTooFar(previous: Option<real>, accuracy: real) {
    previous.Some? && previous.value - accuracy > MAX_ACCURACY_DROP
  }

  /** The verdict before scores are touched. */
  function Verdict(s: Scores, scoring: Scoring): Reason {
    if s.trust < MIN_TRUST then LowTrust
    else match scoring
      case Unloadable => InvalidStructure
      case NoValidationSet => Validated
      case PredictionFails => EvaluationFailed
      case Accuracy(a) =>
        if a < MIN_ACCURACY then LowAccuracy
        else if DropsTooFar(s.lastAccuracy, a) then SuspiciousDrop
        else Validated
  }

  function Delta(reason: Reason): int {
    match reason
    case LowTrust => 0
    case InvalidStructure => -20
    case EvaluationFailed => -10
    case LowAccuracy => -15
    case SuspiciousDrop => -20
    case Validated => 2
  }

  function CappedExamples(numExamples: int, cap: int): int {
    var reported := if numExamples > 1 then numExamples else 1;
    if reported < cap then reported else cap
  }

  function NextScores(s: Scores, scoring: Scoring): Scores {
    var reason := Verdict(s, scoring);
    if reason == LowTrust then s
    else Scores(
      Clamp(s.trust + Delta(reason)),
      if reason == Validated && scoring.Accuracy? then Some(scoring.value) else s.lastAccuracy)
  }

  function Evaluate(s: Scores, scoring: Scoring, numExamples: int, cap: int): Evaluation {
    var reason := Verdict(s, scoring);
    var trust := NextScores(s, scoring).trust;
    Evaluation(
      reason == Validated,
      trust,
      if reason == Validated then trust * CappedExamples(numExamples, cap) else 0,
      if scoring.Accuracy? && reason != LowTrust then Some(scoring.value) else None,
      reason)
  }

  // ---------- An evaluation in numbers ----------

  /** What comes of an evaluation: the organisation's scores, and the answer. */
  ghost predicate Yields(s: Scores, scoring: Scoring, n: int, cap: int, next: Scores, e: Evaluation) {
    NextScores(s, scoring) == next && Evaluate(s, scoring, n, cap) == e
  }

  /**
   The whole table. Below 0.30 nothing is looked at. An upload that cannot be loaded costs 0.20, one that
   cannot be scored 0.10, one below 50% accuracy 0.15, and a drop of more than 0.15 from the last accepted
   accuracy 0.20; none of these weighs anything. Any other earns 0.02, up to 1.00, and moves the baseline.
   */
  lemma EvaluationTable(s: Scores, scoring: Scoring, n: int, cap: int)
    requires 0 <= s.trust <= 100
    ensures s.trust < 30 ==>
              Yields(s, scoring, n, cap, s, Evaluation(false, s.trust, 0, None, LowTrust))
    ensures s.trust >= 30 && scoring == Unloadable ==>
              Yields(s, scoring, n, cap, s.(trust := s.trust - 20),
                     Evaluation(false, s.trust - 20, 0, None, InvalidStructure))
    ensures s.trust >= 30 && scoring == PredictionFails ==>
              Yields(s, scoring, n, cap, s.(trust := s.trust - 10),
                     Evaluation(false, s.trust - 10, 0, None, EvaluationFailed))
    ensures s.trust >= 30 && scoring.Accuracy? && scoring.value < 0.5 ==>
              Yields(s, scoring, n, cap, s.(trust := s.trust - 15),
                     Evaluation(false, s.trust - 15, 0, Some(scoring.value), LowAccuracy))
    ensures s.trust >= 30 && scoring.Accuracy? && scoring.value >= 0.5
            && s.lastAccuracy.Some? && s.lastAccuracy.value - scoring.value > 0.15 ==>
              Yields(s, scoring, n, cap, s.(trust := s.trust - 20),
                     Evaluation(false, s.trust - 20, 0, Some(scoring.value), SuspiciousDrop))
    ensures s.trust >= 30 && scoring.Accuracy? && scoring.value >= 0.5
            && (s.lastAccuracy.None? || s.lastAccuracy.value - scoring.value <= 0.15) ==>
              Earned(s, scoring, n, cap, Some(scoring.value), Some(scoring.value))
    ensures s.trust >= 30 && scoring == NoValidationSet ==>
              Earned(s, scoring, n, cap, s.lastAccuracy, None)
  {
    if Evaluate(s, scoring, n, cap).accepted {
      AcceptedWeightIs(s, scoring, n, cap);
    }
  }

  /** Accepted: trust rises by 0.02 up to 1.00, and the weight is the new trust times the examples that count. */
  ghost predicate Earned(s: Scores, scoring: Scoring, n: int, cap: int, baseline: Option<real>,
                         accuracy: Option<real>)
  {
    var trust := if s.trust > 98 then 100 else s.trust + 2;
    && NextScores(s, scoring) == Scores(trust, baseline)
    && var e := Evaluate(s, scoring, n, cap);
       && e.accepted && e.trust == trust && e.accuracy == accuracy && e.reason == Validated
       && WeighsAs(e.weight, trust, n, cap)
  }

  /** The reported examples count, at least 1 and at most cap of them. */
  ghost predicate WeighsAs(weight: int, trust: int, n: int, cap: int) {
    && (1 <= n <= cap ==> weight == trust * n)
    && (n > cap >= 1 ==> weight == trust * cap)
    && (n < 1 <= cap ==> weight == trust)
    && (cap < 1 ==> weight == trust * cap)
  }

  lemma AcceptedWeightIs(s: Scores, scoring: Scoring, n: int, cap: int)
    requires Evaluate(s, scoring, n, cap).accepted
    ensures WeighsAs(Evaluate(s, scoring, n, cap).weight, NextScores(s, scoring).trust, n, cap)
  {
  }

  /** With equal examples, the upload of the more trusted organisation weighs more. */
  lemma MoreTrustedOutweighs(s: Scores, t: Scores, a: Scoring, b: Scoring, n: int, cap: int)
    requires cap > 0 && Evaluate(s, a, n, cap).accepted && Evaluate(t, b, n, cap).accepted
    ensures Evaluate(s, a, n, cap).weight < Evaluate(t, b, n, cap).weight
      <==> NextScores(s, a).trust < NextScores(t, b).trust
  {
    var x, y, c := NextScores(s, a).trust, NextScores(t, b).trust, CappedExamples(n, cap);
    AcceptedWeightIs(s, a, n, cap);
    AcceptedWeightIs(t, b, n, cap);
    if x < y {
      ProductsGrow(x, y, c);
    } else {
      ProductsGrow(y, x, c);
    }
  }

  lemma ProductsGrow(x: int, y: int, c: int)
    requires x <= y && c > 0
    ensures x * c <= y * c && (x < y ==> x * c < y * c)
  {
  }

  /** A distrusted organisation with twice the data does not outweigh a trusted one. */
  lemma TrustBeatsSize()
    ensures Evaluate(Scores(40, None), NoValidationSet, 1000, 10000).weight == 42000
    ensures Evaluate(Scores(100, None), NoValidationSet, 500, 10000).weight == 50000
  {
  }

  // ---------- Sequences of evaluations within one enrolment ----------

  function After(s: Scores, run: seq<Scoring>): Scores {
    if run == [] then s else NextScores(After(s, run[..|run| - 1]), run[|run| - 1])
  }

  function AcceptedIn(s: Scores, run: seq<Scoring>): nat {
    if run == [] then 0
    else
      var front := run[..|run| - 1];
      AcceptedIn(s, front) + if Verdict(After(s, front), run[|run| - 1]) == Validated then 1 else 0
  }

  function PenalisedIn(s: Scores, run: seq<Scoring>): nat {
    if run == [] then 0
    else
      var front := run[..|run| - 1];
      var verdict := Verdict(After(s, front), run[|run| - 1]);
      PenalisedIn(s, front) + if verdict != Validated && verdict != LowTrust then 1 else 0
  }

  /** Trust stays well inside [0, 1]: no penalty ever reaches the lower clamp. */
  lemma {:induction false} TrustStaysInRange(run: seq<Scoring>)
    ensures 10 <= After(ENROLLED, run).trust <= FULL_TRUST
    ensures forall scoring :: After(ENROLLED, run).trust + Delta(Verdict(After(ENROLLED, run), scoring)) >= 10
  {
    if run != [] {
      TrustStaysInRange(run[..|run| - 1]);
    }
  }

  lemma {:induction false} TrustBudget(run: seq<Scoring>)
    ensures After(ENROLLED, run).trust <= 100 + 2 * AcceptedIn(ENROLLED, run) - 10 * PenalisedIn(ENROLLED, run)
    ensures 10 * PenalisedIn(ENROLLED, run) <= 80 + 2 * AcceptedIn(ENROLLED, run)
  {
    if run != [] {
      TrustBudget(run[..|run| - 1]);
      TrustStaysInRange(run[..|run| - 1]);
    }
  }

  /** However long the run and whatever its mixture, eight penalties plus one per five acceptances is the most. */
  lemma PoisoningIsAmortised(run: seq<Scoring>)
    ensures PenalisedIn(ENROLLED, run) <= 8 + AcceptedIn(ENROLLED, run) / 5
  {
    TrustBudget(run);
  }

  function Times(scoring: Scoring, k: nat): seq<Scoring> {
    if k == 0 then [] else Times(scoring, k - 1) + [scoring]
  }

  /** A perfect upload, and one on which prediction fails: both need a validation set. */
  const PERFECT := Accuracy(1.0)

  const FAILS: nat := 7
  const CLIMB: nat := 5

  /** Failures down to the floor, then n rounds of climbing by perfect uploads and one failure back to it. */
  function WorstRun(n: nat): seq<Scoring> {
    if n == 0 then Times(PredictionFails, FAILS) else WorstRun(n - 1) + Times(PERFECT, CLIMB) + [PredictionFails]
  }

  /** What a trust manager can see that was built with a validation set. */
  ghost predicate WithValidationSet(run: seq<Scoring>) {
    forall i | 0 <= i < |run| :: !run[i].NoValidationSet?
  }

  lemma Extend(s: Scores, run: seq<Scoring>, next: Scoring)
    ensures After(s, run + [next]) == NextScores(After(s, run), next)
    ensures AcceptedIn(s, run + [next])
         == AcceptedIn(s, run) + if Verdict(After(s, run), next) == Validated then 1 else 0
    ensures PenalisedIn(s, run + [next]) == PenalisedIn(s, run)
      + if Verdict(After(s, run), next) != Validated && Verdict(After(s, run), next) != LowTrust then 1 else 0
  {
    assert (run + [next])[..|run + [next]| - 1] == run;
  }

  /** Baselines from which a perfect upload is no sudden drop. */
  predicate NoBetterThanPerfect(s: Scores) {
    s.lastAccuracy == None || s.lastAccuracy == Some(1.0)
  }

  /** `more` does what k acceptances do to the run before it. */
  ghost predicate Climbed(s: Scores, run: seq<Scoring>, more: seq<Scoring>, k: nat) {
    && After(s, more).trust == After(s, run).trust + 2 * k && NoBetterThanPerfect(After(s, more))
    && AcceptedIn(s, more) == AcceptedIn(s, run) + k && PenalisedIn(s, more) == PenalisedIn(s, run)
  }

  lemma RecoverOnce(s: Scores, run: seq<Scoring>, more: seq<Scoring>, k: nat)
    requires MIN_TRUST <= After(s, run).trust && After(s, run).trust + 2 * (k + 1) <= FULL_TRUST
    requires Climbed(s, run, more, k)
    ensures Climbed(s, run, more + [PERFECT], k + 1)
  {
    Extend(s, more, PERFECT);
  }

  lemma {:induction false} Recover(s: Scores, run: seq<Scoring>, k: nat)
    requires MIN_TRUST <= After(s, run).trust && After(s, run).trust + 2 * k <= FULL_TRUST
    requires NoBetterThanPerfect(After(s, run))
    ensures Climbed(s, run, run + Times(PERFECT, k), k)
  {
    if k == 0 {
      assert run + Times(PERFECT, 0) == run;
    } else {
      Recover(s, run, k - 1);
      RecoverOnce(s, run, run + Times(PERFECT, k - 1), k - 1);
      assert run + Times(PERFECT, k) == run + Times(PERFECT, k - 1) + [PERFECT];
    }
  }

  lemma {:induction false} Fail(k: nat)
    requires k <= 7
    ensures After(ENROLLED, Times(PredictionFails, k)) == Scores(100 - 10 * k, None)
    ensures AcceptedIn(ENROLLED, Times(PredictionFails, k)) == 0
    ensures PenalisedIn(ENROLLED, Times(PredictionFails, k)) == k
  {
    if k > 0 {
      Fail(k - 1);
      Extend(ENROLLED, Times(PredictionFails, k - 1), PredictionFails);
    }
  }

  lemma FailOnce(s: Scores, run: seq<Scoring>)
    requires MIN_TRUST <= After(s, run).trust <= FULL_TRUST
    ensures After(s, run + [PredictionFails]) == After(s, run).(trust := After(s, run).trust - 10)
    ensures AcceptedIn(s, run + [PredictionFails]) == AcceptedIn(s, run)
    ensures PenalisedIn(s, run + [PredictionFails]) == PenalisedIn(s, run) + 1
  {
    Extend(s, run, PredictionFails);
  }

  /** At the floor, with so many acceptances and penalties behind. */
  ghost predicate AtFloor(run: seq<Scoring>, accepted: nat, penalised: nat) {
    && After(ENROLLED, run).trust == MIN_TRUST && NoBetterThanPerfect(After(ENROLLED, run))
    && AcceptedIn(ENROLLED, run) == accepted && PenalisedIn(ENROLLED, run) == penalised
  }

  /** Climbing and failing once leads from the floor back to it. */
  lemma Cycle(run: seq<Scoring>, accepted: nat, penalised: nat)
    requires AtFloor(run, accepted, penalised)
    ensures AtFloor(run + Times(PERFECT, CLIMB) + [PredictionFails], accepted + CLIMB, penalised + 1)
  {
    Recover(ENROLLED, run, CLIMB);
    FailOnce(ENROLLED, run + Times(PERFECT, CLIMB));
  }

  lemma {:induction false} WorstRunIsAtFloor(n: nat)
    ensures AtFloor(WorstRun(n), CLIMB * n, FAILS + n)
  {
    if n == 0 {
      Fail(FAILS);
    } else {
      WorstRunIsAtFloor(n - 1);
      Cycle(WorstRun(n - 1), CLIMB * (n - 1), FAILS + (n - 1));
    }
  }

  lemma {:induction false} TimesHasOnly(scoring: Scoring, k: nat)
    ensures forall i | 0 <= i < |Times(scoring, k)| :: Times(scoring, k)[i] == scoring
  {
    if k > 0 {
      TimesHasOnly(scoring, k - 1);
    }
  }

  lemma {:induction false} WorstRunIsPossible(n: nat)
    ensures WithValidationSet(WorstRun(n))
  {
    TimesHasOnly(PredictionFails, FAILS);
    TimesHasOnly(PERFECT, CLIMB);
    if n > 0 {
      WorstRunIsPossible(n - 1);
    }
  }

  /**
   The bound cannot be improved: for every n there is a run with 5n acceptances that reaches it, and
   one trust manager with a validation set can see all of it.
   */
  lemma AmortisedBoundIsTight(n: nat) returns (run: seq<Scoring>)
    ensures WithValidationSet(run)
    ensures AcceptedIn(ENROLLED, run) == 5 * n
    ensures PenalisedIn(ENROLLED, run) == 8 + AcceptedIn(ENROLLED, run) / 5
  {
    WorstRunIsAtFloor(n);
    WorstRunIsPossible(n);
    FailOnce(ENROLLED, WorstRun(n));
    run := WorstRun(n) + [PredictionFails];
  }

  /** Below the floor nothing changes any more, whatever is submitted: neither scores nor acceptances. */
  lemma {:induction false} ExclusionIsAbsorbing(s: Scores, run: seq<Scoring>, more: seq<Scoring>)
    requires After(s, run).trust < MIN_TRUST
    ensures After(s, run + more) == After(s, run)
    ensures AcceptedIn(s, run + more) == AcceptedIn(s, run)
    ensures PenalisedIn(s, run + more) == PenalisedIn(s, run)
  {
    if more == [] {
      assert run + more == run;
    } else {
      var front := more[..|more| - 1];
      ExclusionIsAbsorbing(s, run, front);
      Extend(s, run + front, more[|more| - 1]);
      assert run + more == run + front + [more[|more| - 1]];
    }
  }

  /**
   The accuracy baseline cannot be talked down quickly: once there is one, n further acceptances
   lower it by at most 0.15 each, and it never passes below the minimum accuracy.
   */
  lemma {:induction false} BaselineDrift(s: Scores, run: seq<Scoring>)
    requires s.lastAccuracy.Some? && s.lastAccuracy.value >= MIN_ACCURACY
    ensures var b := After(s, run).lastAccuracy;
      && b.Some? && b.value >= MIN_ACCURACY
      && b.value >= s.lastAccuracy.value - MAX_ACCURACY_DROP * (AcceptedIn(s, run) as real)
  {
    if run != [] {
      BaselineDrift(s, run[..|run| - 1]);
      var n := AcceptedIn(s, run[..|run| - 1]);
      assert (n + 1) as real == n as real + 1.0;
      assert MAX_ACCURACY_DROP * (n as real + 1.0) == MAX_ACCURACY_DROP * (n as real) + MAX_ACCURACY_DROP;
    }
  }

  /** An accepted upload always weighs something, and never more than full trust in the capped size. */
  lemma AcceptedWeight(s: Scores, scoring: Scoring, numExamples: int, cap: int)
    requires cap > 0 && Evaluate(s, scoring, numExamples, cap).accepted
    ensures 0 < Evaluate(s, scoring, numExamples, cap).weight <= FULL_TRUST * cap
  {
    var trust, examples := NextScores(s, scoring).trust, CappedExamples(numExamples, cap);
    assert 0 < trust <= FULL_TRUST && 0 < examples <= cap;
    Products(trust, FULL_TRUST, examples, cap);
  }

  lemma Products(a: int, b: int, c: int, d: int)
    requires 0 < a <= b && 0 < c <= d
    ensures 0 < a * c <= b * d
  {
    assert a * c <= b * c <= b * d;
  }
}
