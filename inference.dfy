/**
 * Scoring a submission and packaging the classifier's answer (app.py:128-139).
 * The fitted scaler and classifier are opaque; the model sees them only
 * through the functions they compute.
 */
module Inference {
  import opened Dicts
  import opened Encoder

  /**
   * The loaded scaler and classifier. Each is called on a batch of one row,
   * so `predict` yields one label per row and `predictProba` one row of
   * class probabilities per row.
   */
  datatype Artifacts = Artifacts(
    transform: seq<Cell> -> seq<real>,
    predict: seq<real> -> seq<int>,
    predictProba: seq<real> -> seq<seq<real>>
  )

  /** The classifier's label for the row and its probability of class 1. */
  datatype Prediction = Prediction(classLabel: int, probability: real)

  /** The message shown under the probability. */
  datatype Verdict = HighRisk | LowRisk

  /**
   * `predict(x)[0]` and `predict_proba(x)[0][1]`, each raising IndexError when
   * the row is missing. Packaging succeeds exactly when the classifier returned
   * a label and a probability row with a class-1 entry, and then reports both
   * unchanged.
   */
  function Package(labels: seq<int>, probaRows: seq<seq<real>>): (r: Result<Prediction>)
    ensures r.Success? <==> |labels| > 0 && |probaRows| > 0 && |probaRows[0]| >= 2
    ensures r.Failure? ==> r.error == IndexError
    ensures r.Success? ==> r.value == Prediction(labels[0], probaRows[0][1])
  {
    if |labels| == 0 then Failure(IndexError)
    else if |probaRows| == 0 || |probaRows[0]| < 2 then Failure(IndexError)
    else Success(Prediction(labels[0], probaRows[0][1]))
  }

  /** The branch on the classifier's label: label 1 is high risk, any other label low risk. */
  function VerdictOf(p: Prediction): (v: Verdict)
    ensures v == HighRisk <==> p.classLabel == 1
    ensures v == LowRisk <==> p.classLabel != 1
  {
    if p.classLabel == 1 then HighRisk else LowRisk
  }

  /** Encode the answers, scale them, and query the classifier. */
  function Assess(a: Answers, m: Artifacts): Result<Prediction> {
    var v :- Encode(a);
    var x := m.transform(v);
    Package(m.predict(x), m.predictProba(x))
  }

  /**
   * The verdict is decided by the label alone: high exactly for label 1,
   * whatever probability accompanies it. No threshold is applied to the
   * probability here.
   */
  lemma VerdictFollowsLabel(p: Prediction, q: Prediction)
    ensures p.classLabel == q.classLabel ==> VerdictOf(p) == VerdictOf(q)
    ensures VerdictOf(p) != VerdictOf(q) ==> p.classLabel != q.classLabel
  {
  }

  /**
   * No prediction is made from an answer the form does not offer: such a
   * submission stops with the encoder's KeyError before the scaler or the
   * classifier is consulted. A submission whose every answer is offered is
   * scored by packaging the classifier's outputs on the scaled encoded vector.
   */
  lemma AssessSpec(a: Answers, m: Artifacts)
    ensures Assess(a, m).Success? ==> AnswersOffered(a)
    ensures !AnswersOffered(a) ==> Assess(a, m).Failure? && Assess(a, m).error.KeyError?
    ensures !AnswersOffered(a) ==> Assess(a, m) == Failure(Encode(a).error)
    ensures AnswersOffered(a) ==>
              && Encode(a).Success?
              && Assess(a, m) == Package(m.predict(m.transform(Encode(a).value)),
                                         m.predictProba(m.transform(Encode(a).value)))
  {
    EncodeSucceedsIffAnswersOffered(a);
  }

  /** A stand-in classifier that always answers label 1 with class probabilities 0.27 and 0.73. */
  const HighMock: Artifacts := Artifacts(
    (v: seq<Cell>) => [],
    (x: seq<real>) => [1],
    (x: seq<real>) => [[0.27, 0.73]]
  )

  /**
   * Against the stand-in, every submission whose answers the form offers is
   * reported with label 1, probability 0.73 unchanged, and the high-risk
   * verdict.
   */
  lemma MockedHighRisk(a: Answers)
    requires AnswersOffered(a)
    ensures Assess(a, HighMock) == Success(Prediction(1, 0.73))
    ensures VerdictOf(Assess(a, HighMock).value) == HighRisk
  {
    EncodeSucceedsIffAnswersOffered(a);
  }

  /**
   * A label of 0 is reported as low risk even when the class-1 probability
   * is 0.9: the probability never overrides the label.
   */
  lemma LowLabelHighProbability()
    ensures Package([0], [[0.1, 0.9]]) == Success(Prediction(0, 0.9))
    ensures VerdictOf(Package([0], [[0.1, 0.9]]).value) == LowRisk
  {
  }
}
