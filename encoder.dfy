/**
 * The survey-answer feature encoder (app.py:11-18, app.py:98-126): one
 * submission of the form becomes the 27-cell feature vector, in the column
 * order the fitted scaler and classifier expect.
 */
module Encoder {
  import opened Dicts
  import opened Tables

  /** The 27 columns of the feature vector. */
  datatype Column =
    | Sex | GeneralHealth | PhysicalHealthDays | MentalHealthDays | LastCheckupTime
    | PhysicalActivities | SleepHours | RemovedTeeth | HadAngina | HadStroke
    | HadAsthma | HadSkinCancer | HadCOPD | HadDepressiveDisorder | HadKidneyDisease
    | HadArthritis | HadDiabetes | DeafOrHardOfHearing | DifficultyConcentrating
    | DifficultyWalking | DifficultyDressingBathing | SmokerStatus | ChestScan
    | RaceEthnicityCategory | AgeCategory | BMI | AlcoholDrinkers

  /** The column order the scaler and classifier were fitted with. */
  const FeatureColumns: seq<Column> := [
    Sex, GeneralHealth, PhysicalHealthDays, MentalHealthDays, LastCheckupTime,
    PhysicalActivities, SleepHours, RemovedTeeth, HadAngina, HadStroke,
    HadAsthma, HadSkinCancer, HadCOPD, HadDepressiveDisorder, HadKidneyDisease,
    HadArthritis, HadDiabetes, DeafOrHardOfHearing, DifficultyConcentrating,
    DifficultyWalking, DifficultyDressingBathing, SmokerStatus, ChestScan,
    RaceEthnicityCategory, AgeCategory, BMI, AlcoholDrinkers
  ]

  /** The column's name as the data frame handed to the scaler spells it. */
  function Name(c: Column): string {
    match c
    case Sex => "Sex"
    case GeneralHealth => "GeneralHealth"
    case PhysicalHealthDays => "PhysicalHealthDays"
    case MentalHealthDays => "MentalHealthDays"
    case LastCheckupTime => "LastCheckupTime"
    case PhysicalActivities => "PhysicalActivities"
    case SleepHours => "SleepHours"
    case RemovedTeeth => "RemovedTeeth"
    case HadAngina => "HadAngina"
    case HadStroke => "HadStroke"
    case HadAsthma => "HadAsthma"
    case HadSkinCancer => "HadSkinCancer"
    case HadCOPD => "HadCOPD"
    case HadDepressiveDisorder => "HadDepressiveDisorder"
    case HadKidneyDisease => "HadKidneyDisease"
    case HadArthritis => "HadArthritis"
    case HadDiabetes => "HadDiabetes"
    case DeafOrHardOfHearing => "DeafOrHardOfHearing"
    case DifficultyConcentrating => "DifficultyConcentrating"
    case DifficultyWalking => "DifficultyWalking"
    case DifficultyDressingBathing => "DifficultyDressingBathing"
    case SmokerStatus => "SmokerStatus"
    case ChestScan => "ChestScan"
    case RaceEthnicityCategory => "RaceEthnicityCategory"
    case AgeCategory => "AgeCategory"
    case BMI => "BMI"
    case AlcoholDrinkers => "AlcoholDrinkers"
  }

  /** One cell of the feature vector: a Python int, or the BMI slider's float. */
  datatype Cell = Int(n: int) | Float(x: real)

  /** One submission of the form: a label per selectbox, a number per slider. */
  datatype Answers = Answers(
    sex: string,
    generalHealth: int,
    physicalHealthDays: int,
    mentalHealthDays: int,
    lastCheckupTime: string,
    physicalActivities: string,
    sleepHours: int,
    removedTeeth: string,
    hadAngina: string,
    hadStroke: string,
    hadAsthma: string,
    hadSkinCancer: string,
    hadCOPD: string,
    hadDepressiveDisorder: string,
    hadKidneyDisease: string,
    hadArthritis: string,
    hadDiabetes: string,
    deafOrHardOfHearing: string,
    difficultyConcentrating: string,
    difficultyWalking: string,
    difficultyDressingBathing: string,
    smokerStatus: string,
    chestScan: string,
    raceEthnicityCategory: string,
    ageCategory: string,
    bmi: real,
    alcoholDrinkers: string
  )

  /** One element of the `input_data` display: a label and the table it is looked up in, or a slider value. */
  datatype Raw = Categorical(answer: string, table: Dict) | Numeric(cell: Cell)

  /** Evaluating one element: `table[answer]` for a label, the number itself for a slider. */
  function EncodeRaw(raw: Raw): (r: Result<Cell>)
    ensures raw.Numeric? ==> r == Success(raw.cell)
    ensures r.Failure? ==> raw.Categorical? && r.error == KeyError(raw.answer)
    ensures r.Success? && raw.Categorical? ==> r.value.Int?
  {
    match raw
    case Categorical(answer, table) =>
      var code :- Subscript(table, answer);
      Success(Int(code))
    case Numeric(cell) => Success(cell)
  }

  /**
   * The elements of the `input_data` list display, in the order they are
   * written: each selectbox answer with the table it is looked up in, each
   * slider value as it is.
   */
  function InputData(a: Answers): (xs: seq<Raw>)
    ensures |xs| == |FeatureColumns|
  {
    [
      Categorical(a.sex, SexMap),
      Numeric(Int(a.generalHealth)),
      Numeric(Int(a.physicalHealthDays)),
      Numeric(Int(a.mentalHealthDays)),
      Categorical(a.lastCheckupTime, LastCheckupMap),
      Categorical(a.physicalActivities, YesNoMap),
      Numeric(Int(a.sleepHours)),
      Categorical(a.removedTeeth, RemovedTeethMap),
      Categorical(a.hadAngina, YesNoMap),
      Categorical(a.hadStroke, YesNoMap),
      Categorical(a.hadAsthma, YesNoMap),
      Categorical(a.hadSkinCancer, YesNoMap),
      Categorical(a.hadCOPD, YesNoMap),
      Categorical(a.hadDepressiveDisorder, YesNoMap),
      Categorical(a.hadKidneyDisease, YesNoMap),
      Categorical(a.hadArthritis, YesNoMap),
      Categorical(a.hadDiabetes, DiabetesMap),
      Categorical(a.deafOrHardOfHearing, YesNoMap),
      Categorical(a.difficultyConcentrating, YesNoMap),
      Categorical(a.difficultyWalking, YesNoMap),
      Categorical(a.difficultyDressingBathing, YesNoMap),
      Categorical(a.smokerStatus, SmokerMap),
      Categorical(a.chestScan, YesNoMap),
      Categorical(a.raceEthnicityCategory, RaceMap),
      Categorical(a.ageCategory, AgeMap),
      Numeric(Float(a.bmi)),
      Categorical(a.alcoholDrinkers, YesNoMap)
    ]
  }

  /**
   * Evaluating a list display left to right: the cells of its elements, or
   * the exception of the first element that raises.
   */
  function EvaluateList(xs: seq<Raw>): (r: Result<seq<Cell>>)
    ensures r.Success? <==> forall i :: 0 <= i < |xs| ==> EncodeRaw(xs[i]).Success?
    ensures r.Success? ==> |r.value| == |xs|
    ensures r.Success? ==> forall i :: 0 <= i < |xs| ==> r.value[i] == EncodeRaw(xs[i]).value
    ensures r.Failure? ==> exists j :: 0 <= j < |xs| && EncodeRaw(xs[j]) == Failure(r.error)
                                       && forall i :: 0 <= i < j ==> EncodeRaw(xs[i]).Success?
  {
    if xs == [] then Success([])
    else
      var head :- EncodeRaw(xs[0]);
      var tail :- EvaluateList(xs[1..]);
      Success([head] + tail)
  }

  /** `input_data`: the feature vector of one submission, or the KeyError raised while building it. */
  function Encode(a: Answers): (r: Result<seq<Cell>>)
    ensures r.Success? ==> |r.value| == |FeatureColumns|
    ensures r.Failure? ==> r.error.KeyError?
  {
    EvaluateList(InputData(a))
  }

  // ---------------------------------------------------------------------------
  // The same encoding stated column by column

  /** The answer collected for a column and the table the encoder reads it through. */
  function Answer(a: Answers, column: Column): Raw {
    match column
    case Sex => Categorical(a.sex, SexMap)
    case GeneralHealth => Numeric(Int(a.generalHealth))
    case PhysicalHealthDays => Numeric(Int(a.physicalHealthDays))
    case MentalHealthDays => Numeric(Int(a.mentalHealthDays))
    case LastCheckupTime => Categorical(a.lastCheckupTime, LastCheckupMap)
    case PhysicalActivities => Categorical(a.physicalActivities, YesNoMap)
    case SleepHours => Numeric(Int(a.sleepHours))
    case RemovedTeeth => Categorical(a.removedTeeth, RemovedTeethMap)
    case HadAngina => Categorical(a.hadAngina, YesNoMap)
    case HadStroke => Categorical(a.hadStroke, YesNoMap)
    case HadAsthma => Categorical(a.hadAsthma, YesNoMap)
    case HadSkinCancer => Categorical(a.hadSkinCancer, YesNoMap)
    case HadCOPD => Categorical(a.hadCOPD, YesNoMap)
    case HadDepressiveDisorder => Categorical(a.hadDepressiveDisorder, YesNoMap)
    case HadKidneyDisease => Categorical(a.hadKidneyDisease, YesNoMap)
    case HadArthritis => Categorical(a.hadArthritis, YesNoMap)
    case HadDiabetes => Categorical(a.hadDiabetes, DiabetesMap)
    case DeafOrHardOfHearing => Categorical(a.deafOrHardOfHearing, YesNoMap)
    case DifficultyConcentrating => Categorical(a.difficultyConcentrating, YesNoMap)
    case DifficultyWalking => Categorical(a.difficultyWalking, YesNoMap)
    case DifficultyDressingBathing => Categorical(a.difficultyDressingBathing, YesNoMap)
    case SmokerStatus => Categorical(a.smokerStatus, SmokerMap)
    case ChestScan => Categorical(a.chestScan, YesNoMap)
    case RaceEthnicityCategory => Categorical(a.raceEthnicityCategory, RaceMap)
    case AgeCategory => Categorical(a.ageCategory, AgeMap)
    case BMI => Numeric(Float(a.bmi))
    case AlcoholDrinkers => Categorical(a.alcoholDrinkers, YesNoMap)
  }

  /**
   * Where a column sits in the fitted order. FeatureColumnsListEachColumnOnce
   * proves that this agrees with FeatureColumns in both directions.
   */
  function Position(c: Column): nat {
    match c
    case Sex => 0
    case GeneralHealth => 1
    case PhysicalHealthDays => 2
    case MentalHealthDays => 3
    case LastCheckupTime => 4
    case PhysicalActivities => 5
    case SleepHours => 6
    case RemovedTeeth => 7
    case HadAngina => 8
    case HadStroke => 9
    case HadAsthma => 10
    case HadSkinCancer => 11
    case HadCOPD => 12
    case HadDepressiveDisorder => 13
    case HadKidneyDisease => 14
    case HadArthritis => 15
    case HadDiabetes => 16
    case DeafOrHardOfHearing => 17
    case DifficultyConcentrating => 18
    case DifficultyWalking => 19
    case DifficultyDressingBathing => 20
    case SmokerStatus => 21
    case ChestScan => 22
    case RaceEthnicityCategory => 23
    case AgeCategory => 24
    case BMI => 25
    case AlcoholDrinkers => 26
  }

  /** Position `i` of the list display is the answer of column FeatureColumns[i], through that column's table. */
  lemma InputDataFollowsFeatureColumns(a: Answers, i: nat)
    requires i < |FeatureColumns|
    ensures InputData(a)[i] == Answer(a, FeatureColumns[i])
    ensures Position(FeatureColumns[i]) == i
  {
    if i < 7 { PositionsAgree0(a, i); } else if i < 14 { PositionsAgree1(a, i); } else if i < 21 { PositionsAgree2(a, i); } else { PositionsAgree3(a, i); }
  }

  // The four range lemmas below only split the 27 positions into groups, and
  // each `if` ladder takes one position at a time, so that the solver unfolds
  // the list display and the column match a few cells at a time.

  lemma PositionsAgree0(a: Answers, i: nat)
    requires 0 <= i < 7
    ensures InputData(a)[i] == Answer(a, FeatureColumns[i])
    ensures Position(FeatureColumns[i]) == i
  {
    if i == 0 {} else if i == 1 {} else if i == 2 {} else if i == 3 {} else if i == 4 {} else
    if i == 5 {} else {}
  }

  lemma PositionsAgree1(a: Answers, i: nat)
    requires 7 <= i < 14
    ensures InputData(a)[i] == Answer(a, FeatureColumns[i])
    ensures Position(FeatureColumns[i]) == i
  {
    if i == 7 {} else if i == 8 {} else if i == 9 {} else if i == 10 {} else if i == 11 {} else
    if i == 12 {} else {}
  }

  lemma PositionsAgree2(a: Answers, i: nat)
    requires 14 <= i < 21
    ensures InputData(a)[i] == Answer(a, FeatureColumns[i])
    ensures Position(FeatureColumns[i]) == i
  {
    if i == 14 {} else if i == 15 {} else if i == 16 {} else if i == 17 {} else if i == 18 {} else
    if i == 19 {} else {}
  }

  lemma PositionsAgree3(a: Answers, i: nat)
    requires 21 <= i < 27
    ensures InputData(a)[i] == Answer(a, FeatureColumns[i])
    ensures Position(FeatureColumns[i]) == i
  {
    if i == 21 {} else if i == 22 {} else if i == 23 {} else if i == 24 {} else if i == 25 {} else
    {}
  }

  // ---------------------------------------------------------------------------
  // Properties of the encoding

  /** FeatureColumns lists every column exactly once: 27 columns, no omission, no repetition. */
  lemma FeatureColumnsListEachColumnOnce()
    ensures |FeatureColumns| == 27
    ensures forall c :: Position(c) < |FeatureColumns| && FeatureColumns[Position(c)] == c
    ensures forall i :: 0 <= i < |FeatureColumns| ==> Position(FeatureColumns[i]) == i
    ensures forall i, j :: 0 <= i < j < |FeatureColumns| ==> FeatureColumns[i] != FeatureColumns[j]
  {
    forall i | 0 <= i < |FeatureColumns| ensures Position(FeatureColumns[i]) == i {
      InputDataFollowsFeatureColumns(DefaultAnswers, i);
    }
  }

  /** A successful encoding has one cell per feature column, and cell `i` encodes column FeatureColumns[i]. */
  lemma EncodeFollowsColumnOrder(a: Answers)
    ensures Encode(a).Success? ==> |Encode(a).value| == |FeatureColumns| == 27
    ensures Encode(a).Success? ==> forall i :: 0 <= i < |FeatureColumns| ==>
              EncodeRaw(Answer(a, FeatureColumns[i])) == Success(Encode(a).value[i])
  {
    forall i | 0 <= i < |FeatureColumns| ensures InputData(a)[i] == Answer(a, FeatureColumns[i]) {
      InputDataFollowsFeatureColumns(a, i);
    }
  }

  /** The same, column by column: the cell at column `c`'s position is `c`'s answer, encoded. */
  lemma CellEncodesColumnAnswer(a: Answers, c: Column)
    requires Encode(a).Success?
    ensures Position(c) < |Encode(a).value|
    ensures EncodeRaw(Answer(a, c)) == Success(Encode(a).value[Position(c)])
  {
    FeatureColumnsListEachColumnOnce();
    EncodeFollowsColumnOrder(a);
  }

  /** A selectbox offers exactly the keys of its table; a slider value is always acceptable. */
  predicate Offered(r: Raw) {
    r.Categorical? ==> IsOption(r.table, r.answer)
  }

  /** Evaluating one element fails exactly for a label that is not a key, with KeyError naming that label. */
  lemma EncodeRawSpec(r: Raw)
    ensures EncodeRaw(r).Failure? <==> !Offered(r)
    ensures EncodeRaw(r).Failure? ==> EncodeRaw(r).error == KeyError(r.answer)
    ensures r.Numeric? ==> EncodeRaw(r) == Success(r.cell)
    ensures r.Categorical? && Offered(r) ==>
              EncodeRaw(r).value.Int? && exists i :: 0 <= i < |r.table| && r.table[i] == (r.answer, EncodeRaw(r).value.n)
  {
    if r.Categorical? {
      SubscriptSpec(r.table, r.answer);
    }
  }

  /**
   * A submission fails to encode exactly when some selectbox answer is not
   * a key of its table, and the KeyError names the first such answer in
   * column order; no default code is ever substituted.
   */
  lemma EncodeFailsOnUnknownLabel(a: Answers)
    ensures Encode(a).Failure? <==> exists i :: 0 <= i < |FeatureColumns| && !Offered(Answer(a, FeatureColumns[i]))
    ensures Encode(a).Failure? ==>
              exists j :: 0 <= j < |FeatureColumns| && !Offered(Answer(a, FeatureColumns[j]))
                          && Encode(a).error == KeyError(Answer(a, FeatureColumns[j]).answer)
                          && forall i :: 0 <= i < j ==> Offered(Answer(a, FeatureColumns[i]))
  {
    var xs := InputData(a);
    forall i | 0 <= i < |FeatureColumns|
      ensures xs[i] == Answer(a, FeatureColumns[i])
      ensures EncodeRaw(xs[i]).Failure? <==> !Offered(xs[i])
      ensures EncodeRaw(xs[i]).Failure? ==> EncodeRaw(xs[i]).error == KeyError(xs[i].answer)
    {
      InputDataFollowsFeatureColumns(a, i);
      EncodeRawSpec(xs[i]);
    }
  }

  // The answers the form produces

  /** The first option of a selectbox, which it shows until the user picks another. */
  function FirstOption(d: Dict): string
    requires |d| > 0
  {
    Keys(d)[0]
  }

  /** The submission of an untouched form: every selectbox on its first option, every slider at its default. */
  const DefaultAnswers: Answers := Answers(
    sex := FirstOption(SexMap),
    generalHealth := 2,
    physicalHealthDays := 0,
    mentalHealthDays := 0,
    lastCheckupTime := FirstOption(LastCheckupMap),
    physicalActivities := FirstOption(YesNoMap),
    sleepHours := 7,
    removedTeeth := FirstOption(RemovedTeethMap),
    hadAngina := FirstOption(YesNoMap),
    hadStroke := FirstOption(YesNoMap),
    hadAsthma := FirstOption(YesNoMap),
    hadSkinCancer := FirstOption(YesNoMap),
    hadCOPD := FirstOption(YesNoMap),
    hadDepressiveDisorder := FirstOption(YesNoMap),
    hadKidneyDisease := FirstOption(YesNoMap),
    hadArthritis := FirstOption(YesNoMap),
    hadDiabetes := FirstOption(DiabetesMap),
    deafOrHardOfHearing := FirstOption(YesNoMap),
    difficultyConcentrating := FirstOption(YesNoMap),
    difficultyWalking := FirstOption(YesNoMap),
    difficultyDressingBathing := FirstOption(YesNoMap),
    smokerStatus := FirstOption(SmokerMap),
    chestScan := FirstOption(YesNoMap),
    raceEthnicityCategory := FirstOption(RaceMap),
    ageCategory := FirstOption(AgeMap),
    bmi := 22.0,
    alcoholDrinkers := FirstOption(YesNoMap)
  )

  /** The cell of column `c` in a feature vector. */
  function CellFor(v: seq<Cell>, c: Column): Cell
    requires |v| == |FeatureColumns|
  {
    v[Position(c)]
  }

  /** Every selectbox answer is one of the options its selectbox offers. */
  predicate AnswersOffered(a: Answers) {
    && IsOption(SexMap, a.sex)
    && IsOption(LastCheckupMap, a.lastCheckupTime)
    && IsOption(YesNoMap, a.physicalActivities)
    && IsOption(RemovedTeethMap, a.removedTeeth)
    && IsOption(YesNoMap, a.hadAngina)
    && IsOption(YesNoMap, a.hadStroke)
    && IsOption(YesNoMap, a.hadAsthma)
    && IsOption(YesNoMap, a.hadSkinCancer)
    && IsOption(YesNoMap, a.hadCOPD)
    && IsOption(YesNoMap, a.hadDepressiveDisorder)
    && IsOption(YesNoMap, a.hadKidneyDisease)
    && IsOption(YesNoMap, a.hadArthritis)
    && IsOption(DiabetesMap, a.hadDiabetes)
    && IsOption(YesNoMap, a.deafOrHardOfHearing)
    && IsOption(YesNoMap, a.difficultyConcentrating)
    && IsOption(YesNoMap, a.difficultyWalking)
    && IsOption(YesNoMap, a.difficultyDressingBathing)
    && IsOption(SmokerMap, a.smokerStatus)
    && IsOption(YesNoMap, a.chestScan)
    && IsOption(RaceMap, a.raceEthnicityCategory)
    && IsOption(AgeMap, a.ageCategory)
    && IsOption(YesNoMap, a.alcoholDrinkers)
  }

  /** Checking the submission field by field is the same as checking it column by column. */
  lemma AnswersOfferedByColumn(a: Answers)
    ensures AnswersOffered(a) <==> forall c :: Offered(Answer(a, c))
  {
    if AnswersOffered(a) {
      forall c ensures Offered(Answer(a, c)) {
        OfferedColumn(a, c);
      }
    }
    if forall c :: Offered(Answer(a, c)) {
      OfferedFields0(a);
      OfferedFields1(a);
      OfferedFields2(a);
      OfferedFields3(a);
      OfferedFields4(a);
      OfferedFields5(a);
      OfferedFields6(a);
      OfferedFields7(a);
    }
  }

  lemma OfferedColumn(a: Answers, c: Column)
    requires AnswersOffered(a)
    ensures Offered(Answer(a, c))
  {
    match c
    case Sex =>
    case GeneralHealth =>
    case PhysicalHealthDays =>
    case MentalHealthDays =>
    case LastCheckupTime =>
    case PhysicalActivities =>
    case SleepHours =>
    case RemovedTeeth =>
    case HadAngina =>
    case HadStroke =>
    case HadAsthma =>
    case HadSkinCancer =>
    case HadCOPD =>
    case HadDepressiveDisorder =>
    case HadKidneyDisease =>
    case HadArthritis =>
    case HadDiabetes =>
    case DeafOrHardOfHearing =>
    case DifficultyConcentrating =>
    case DifficultyWalking =>
    case DifficultyDressingBathing =>
    case SmokerStatus =>
    case ChestScan =>
    case RaceEthnicityCategory =>
    case AgeCategory =>
    case BMI =>
    case AlcoholDrinkers =>
  }

  // OfferedFields0..7 read the field-wise conditions off three columns each;
  // the split only keeps each proof small for the solver.

  lemma OfferedFields0(a: Answers)
    requires forall c :: Offered(Answer(a, c))
    ensures IsOption(SexMap, a.sex)
    ensures IsOption(LastCheckupMap, a.lastCheckupTime)
    ensures IsOption(YesNoMap, a.physicalActivities)
  {
    assert Offered(Answer(a, Sex));
    assert Offered(Answer(a, LastCheckupTime));
    assert Offered(Answer(a, PhysicalActivities));
  }

  lemma OfferedFields1(a: Answers)
    requires forall c :: Offered(Answer(a, c))
    ensures IsOption(RemovedTeethMap, a.removedTeeth)
    ensures IsOption(YesNoMap, a.hadAngina)
    ensures IsOption(YesNoMap, a.hadStroke)
  {
    assert Offered(Answer(a, RemovedTeeth));
    assert Offered(Answer(a, HadAngina));
    assert Offered(Answer(a, HadStroke));
  }

  lemma OfferedFields2(a: Answers)
    requires forall c :: Offered(Answer(a, c))
    ensures IsOption(YesNoMap, a.hadAsthma)
    ensures IsOption(YesNoMap, a.hadSkinCancer)
    ensures IsOption(YesNoMap, a.hadCOPD)
  {
    assert Offered(Answer(a, HadAsthma));
    assert Offered(Answer(a, HadSkinCancer));
    assert Offered(Answer(a, HadCOPD));
  }

  lemma OfferedFields3(a: Answers)
    requires forall c :: Offered(Answer(a, c))
    ensures IsOption(YesNoMap, a.hadDepressiveDisorder)
    ensures IsOption(YesNoMap, a.hadKidneyDisease)
    ensures IsOption(YesNoMap, a.hadArthritis)
  {
    assert Offered(Answer(a, HadDepressiveDisorder));
    assert Offered(Answer(a, HadKidneyDisease));
    assert Offered(Answer(a, HadArthritis));
  }

  lemma OfferedFields4(a: Answers)
    requires forall c :: Offered(Answer(a, c))
    ensures IsOption(DiabetesMap, a.hadDiabetes)
    ensures IsOption(YesNoMap, a.deafOrHardOfHearing)
    ensures IsOption(YesNoMap, a.difficultyConcentrating)
  {
    assert Offered(Answer(a, HadDiabetes));
    assert Offered(Answer(a, DeafOrHardOfHearing));
    assert Offered(Answer(a, DifficultyConcentrating));
  }

  lemma OfferedFields5(a: Answers)
    requires forall c :: Offered(Answer(a, c))
    ensures IsOption(YesNoMap, a.difficultyWalking)
    ensures IsOption(YesNoMap, a.difficultyDressingBathing)
    ensures IsOption(SmokerMap, a.smokerStatus)
  {
    assert Offered(Answer(a, DifficultyWalking));
    assert Offered(Answer(a, DifficultyDressingBathing));
    assert Offered(Answer(a, SmokerStatus));
  }

  lemma OfferedFields6(a: Answers)
    requires forall c :: Offered(Answer(a, c))
    ensures IsOption(YesNoMap, a.chestScan)
    ensures IsOption(RaceMap, a.raceEthnicityCategory)
    ensures IsOption(AgeMap, a.ageCategory)
  {
    assert Offered(Answer(a, ChestScan));
    assert Offered(Answer(a, RaceEthnicityCategory));
    assert Offered(Answer(a, AgeCategory));
  }

  lemma OfferedFields7(a: Answers)
    requires forall c :: Offered(Answer(a, c))
    ensures IsOption(YesNoMap, a.alcoholDrinkers)
  {
    assert Offered(Answer(a, AlcoholDrinkers));
  }

  /** Encoding succeeds exactly for submissions whose every label is an option of its selectbox. */
  lemma EncodeSucceedsIffAnswersOffered(a: Answers)
    ensures Encode(a).Success? <==> AnswersOffered(a)
  {
    EncodeFailsOnUnknownLabel(a);
    FeatureColumnsListEachColumnOnce();
    AnswersOfferedByColumn(a);
    if !AnswersOffered(a) {
      var c :| !Offered(Answer(a, c));
      assert !Offered(Answer(a, FeatureColumns[Position(c)]));
    }
  }

  // The untouched form

  /** What an untouched form yields in each column: a slider's default, or code 0 for a selectbox's first option. */
  function DefaultCell(c: Column): Cell {
    match c
    case GeneralHealth => Int(2)
    case SleepHours => Int(7)
    case BMI => Float(22.0)
    case _ => Int(0)
  }

  /** A well-formed table codes its first option as 0. */
  lemma FirstOptionCodeZero(d: Dict)
    requires |d| > 0 && WellFormed(d)
    ensures Subscript(d, FirstOption(d)) == Success(0)
  {
    GetEntry(d, 0);
  }

  lemma DefaultAnswersColumn(c: Column)
    ensures EncodeRaw(Answer(DefaultAnswers, c)) == Success(DefaultCell(c))
  {
    AllTablesWellFormed();
    FirstOptionCodeZero(SexMap);
    FirstOptionCodeZero(LastCheckupMap);
    FirstOptionCodeZero(YesNoMap);
    FirstOptionCodeZero(RemovedTeethMap);
    FirstOptionCodeZero(DiabetesMap);
    FirstOptionCodeZero(SmokerMap);
    FirstOptionCodeZero(RaceMap);
    FirstOptionCodeZero(AgeMap);
  }

  /** The feature vector of an untouched form, in FeatureColumns order. */
  const DefaultVector: seq<Cell> := [
    Int(0), Int(2), Int(0), Int(0), Int(0), Int(0), Int(7), Int(0), Int(0), Int(0),
    Int(0), Int(0), Int(0), Int(0), Int(0), Int(0), Int(0), Int(0), Int(0), Int(0),
    Int(0), Int(0), Int(0), Int(0), Int(0), Float(22.0), Int(0)
  ]

  /** Cell `i` of DefaultVector is the default of column `i`; the nested `if` ladder goes position by position to keep each proof small. */
  lemma DefaultVectorCells(i: nat)
    requires i < |FeatureColumns|
    ensures DefaultVector[i] == DefaultCell(FeatureColumns[i])
  {
    if i < 9 {
      if i == 0 {} else if i == 1 {} else if i == 2 {} else if i == 3 {} else
      if i == 4 {} else if i == 5 {} else if i == 6 {} else if i == 7 {} else {}
    } else if i < 18 {
      if i == 9 {} else if i == 10 {} else if i == 11 {} else if i == 12 {} else
      if i == 13 {} else if i == 14 {} else if i == 15 {} else if i == 16 {} else {}
    } else {
      if i == 18 {} else if i == 19 {} else if i == 20 {} else if i == 21 {} else
      if i == 22 {} else if i == 23 {} else if i == 24 {} else if i == 25 {} else {}
    }
  }

  /**
   * A submission whose every column encodes to `cell(c)` encodes to the
   * vector listing those cells in FeatureColumns order.
   */
  lemma EncodeFromColumns(a: Answers, cell: Column -> Cell, w: seq<Cell>)
    requires |w| == |FeatureColumns|
    requires forall i :: 0 <= i < |w| ==> w[i] == cell(FeatureColumns[i])
    requires forall c :: EncodeRaw(Answer(a, c)) == Success(cell(c))
    ensures Encode(a) == Success(w)
  {
    forall c ensures Offered(Answer(a, c)) {
      EncodeRawSpec(Answer(a, c));
    }
    EncodeFailsOnUnknownLabel(a);
    EncodeFollowsColumnOrder(a);
    var v := Encode(a).value;
    forall i | 0 <= i < |w| ensures v[i] == w[i] {
      assert EncodeRaw(Answer(a, FeatureColumns[i])) == Success(v[i]);
    }
    assert v == w;
  }

  /**
   * Submitting the untouched form encodes every selectbox as 0 and keeps the
   * slider defaults: general health 2, no bad days, 7 hours of sleep, BMI 22.0.
   */
  lemma DefaultSubmissionEncoding()
    ensures Encode(DefaultAnswers) == Success(DefaultVector)
  {
    forall c ensures EncodeRaw(Answer(DefaultAnswers, c)) == Success(DefaultCell(c)) {
      DefaultAnswersColumn(c);
    }
    forall i | 0 <= i < |FeatureColumns| ensures DefaultVector[i] == DefaultCell(FeatureColumns[i]) {
      DefaultVectorCells(i);
    }
    EncodeFromColumns(DefaultAnswers, DefaultCell, DefaultVector);
  }

  /** The cells of an untouched form on which only physical activities is answered "Yes". */
  function ActiveDefaultCell(c: Column): Cell {
    if c == PhysicalActivities then Int(1) else DefaultCell(c)
  }

  /**
   * Answering "Yes" to the physical-activities question of an otherwise
   * untouched form changes only the sixth cell, to 1.
   */
  lemma ActiveDefaultSubmissionEncoding()
    ensures Encode(DefaultAnswers.(physicalActivities := "Yes")) == Success(DefaultVector[5 := Int(1)])
  {
    var a := DefaultAnswers.(physicalActivities := "Yes");
    forall c ensures EncodeRaw(Answer(a, c)) == Success(ActiveDefaultCell(c)) {
      if c == PhysicalActivities {
        YesNoCodes("Yes");
      } else {
        ChangedFieldOnly(c);
        DefaultAnswersColumn(c);
      }
    }
    FeatureColumnsListEachColumnOnce();
    var w := DefaultVector[5 := Int(1)];
    forall i | 0 <= i < |FeatureColumns| ensures w[i] == ActiveDefaultCell(FeatureColumns[i]) {
      DefaultVectorCells(i);
    }
    EncodeFromColumns(a, ActiveDefaultCell, w);
  }

  lemma ChangedFieldOnly(c: Column)
    requires c != PhysicalActivities
    ensures Answer(DefaultAnswers.(physicalActivities := "Yes"), c) == Answer(DefaultAnswers, c)
  {
  }

  // Column kinds

  /** The fifteen yes/no questions. */
  predicate IsYesNoColumn(c: Column) {
    match c
    case PhysicalActivities | HadAngina | HadStroke | HadAsthma | HadSkinCancer
      | HadCOPD | HadDepressiveDisorder | HadKidneyDisease | HadArthritis
      | DeafOrHardOfHearing | DifficultyConcentrating | DifficultyWalking
      | DifficultyDressingBathing | ChestScan | AlcoholDrinkers => true
    case _ => false
  }

  /** The five slider questions. */
  predicate IsSliderColumn(c: Column) {
    match c
    case GeneralHealth | PhysicalHealthDays | MentalHealthDays | SleepHours | BMI => true
    case _ => false
  }

  /** Exactly the yes/no questions are looked up in the yes/no table, and exactly the sliders are passed through. */
  lemma ColumnKinds(a: Answers, c: Column)
    ensures Answer(a, c).Categorical? && Answer(a, c).table == YesNoMap <==> IsYesNoColumn(c)
    ensures Answer(a, c).Numeric? <==> IsSliderColumn(c)
  {
    AllTablesWellFormed();
  }

  /** Every table a selectbox answer is looked up in is well formed. */
  lemma AnswerTableWellFormed(a: Answers, c: Column)
    ensures Answer(a, c).Categorical? ==> WellFormed(Answer(a, c).table)
    ensures Answer(a, c).Categorical? ==> 2 <= |Answer(a, c).table| <= 13
  {
    AllTablesWellFormed();
  }

  /**
   * A yes/no question encodes to 1 for "Yes" and 0 for "No"; on a
   * successful encoding its cell is one of the two.
   */
  lemma YesNoCell(a: Answers, c: Column)
    requires Encode(a).Success?
    requires IsYesNoColumn(c)
    ensures |Encode(a).value| == |FeatureColumns|
    ensures CellFor(Encode(a).value, c) == Int(1) <==> Answer(a, c).answer == "Yes"
    ensures CellFor(Encode(a).value, c) == Int(0) <==> Answer(a, c).answer == "No"
    ensures CellFor(Encode(a).value, c) in {Int(0), Int(1)}
  {
    EncodeFollowsColumnOrder(a);
    CellEncodesColumnAnswer(a, c);
    ColumnKinds(a, c);
    YesNoCodes(Answer(a, c).answer);
  }

  /** The sliders reach the vector unchanged: integers as integers, the BMI as a real. */
  lemma SliderCells(a: Answers)
    requires Encode(a).Success?
    ensures |Encode(a).value| == |FeatureColumns|
    ensures CellFor(Encode(a).value, GeneralHealth) == Int(a.generalHealth)
    ensures CellFor(Encode(a).value, PhysicalHealthDays) == Int(a.physicalHealthDays)
    ensures CellFor(Encode(a).value, MentalHealthDays) == Int(a.mentalHealthDays)
    ensures CellFor(Encode(a).value, SleepHours) == Int(a.sleepHours)
    ensures CellFor(Encode(a).value, BMI) == Float(a.bmi)
  {
    EncodeFollowsColumnOrder(a);
    SliderCell(a, GeneralHealth);
    SliderCell(a, PhysicalHealthDays);
    SliderCell(a, MentalHealthDays);
    SliderCell(a, SleepHours);
    SliderCell(a, BMI);
  }

  lemma SliderCell(a: Answers, c: Column)
    requires Encode(a).Success?
    requires IsSliderColumn(c)
    ensures |Encode(a).value| == |FeatureColumns|
    ensures CellFor(Encode(a).value, c) == Answer(a, c).cell
  {
    EncodeFollowsColumnOrder(a);
    CellEncodesColumnAnswer(a, c);
    ColumnKinds(a, c);
  }

  /**
   * A selectbox answer encodes to its table's code for it, an integer in
   * 0..n-1 for an n-entry table, and the code read back as a position in
   * the option list gives the answer again.
   */
  lemma CategoricalCell(a: Answers, c: Column)
    requires Encode(a).Success?
    requires Answer(a, c).Categorical?
    ensures |Encode(a).value| == |FeatureColumns|
    ensures CellFor(Encode(a).value, c).Int?
    ensures 0 <= CellFor(Encode(a).value, c).n < |Answer(a, c).table|
    ensures Keys(Answer(a, c).table)[CellFor(Encode(a).value, c).n] == Answer(a, c).answer
  {
    EncodeFollowsColumnOrder(a);
    CellEncodesColumnAnswer(a, c);
    AnswerTableWellFormed(a, c);
    EncodeRawSpec(Answer(a, c));
  }

  // What the form can submit

  /** The submissions the form can produce: every selectbox on one of its options, every slider within its range. */
  predicate FormAnswers(a: Answers) {
    && AnswersOffered(a)
    && 0 <= a.generalHealth <= 4
    && 0 <= a.physicalHealthDays <= 30
    && 0 <= a.mentalHealthDays <= 30
    && 0 <= a.sleepHours <= 24
    && 10.0 <= a.bmi <= 50.0
  }

  /** Within the slider ranges, a slider cell is an integer in 0..30 or the BMI in 10.0..50.0. */
  lemma SliderCellInRange(a: Answers, c: Column)
    requires FormAnswers(a)
    requires IsSliderColumn(c)
    ensures Answer(a, c).Numeric?
    ensures Answer(a, c).cell.Int? ==> 0 <= Answer(a, c).cell.n <= 30
    ensures Answer(a, c).cell.Float? <==> c == BMI
    ensures Answer(a, c).cell.Float? ==> 10.0 <= Answer(a, c).cell.x <= 50.0
  {
  }

  /**
   * Whatever the form submits encodes without KeyError to 27 cells: the BMI
   * is the only real, between 10.0 and 50.0; general health is in 0..4, the
   * two day counts in 0..30 and sleep hours in 0..24; every selectbox cell is
   * an integer code in 0..12.
   */
  lemma FormSubmissionEncodes(a: Answers)
    requires FormAnswers(a)
    ensures Encode(a).Success?
    ensures |Encode(a).value| == |FeatureColumns|
    ensures forall i :: 0 <= i < |FeatureColumns| ==>
              (Encode(a).value[i].Float? <==> FeatureColumns[i] == BMI)
    ensures forall i :: 0 <= i < |FeatureColumns| && Encode(a).value[i].Int? ==>
              0 <= Encode(a).value[i].n <= 30
    ensures forall i :: 0 <= i < |FeatureColumns| && Encode(a).value[i].Float? ==>
              10.0 <= Encode(a).value[i].x <= 50.0
    ensures forall i :: 0 <= i < |FeatureColumns| && !IsSliderColumn(FeatureColumns[i]) ==>
              Encode(a).value[i].Int? && 0 <= Encode(a).value[i].n <= 12
    ensures CellFor(Encode(a).value, GeneralHealth).Int? && 0 <= CellFor(Encode(a).value, GeneralHealth).n <= 4
    ensures CellFor(Encode(a).value, PhysicalHealthDays).Int? && 0 <= CellFor(Encode(a).value, PhysicalHealthDays).n <= 30
    ensures CellFor(Encode(a).value, MentalHealthDays).Int? && 0 <= CellFor(Encode(a).value, MentalHealthDays).n <= 30
    ensures CellFor(Encode(a).value, SleepHours).Int? && 0 <= CellFor(Encode(a).value, SleepHours).n <= 24
    ensures CellFor(Encode(a).value, BMI).Float? && 10.0 <= CellFor(Encode(a).value, BMI).x <= 50.0
  {
    EncodeSucceedsIffAnswersOffered(a);
    EncodeFollowsColumnOrder(a);
    FeatureColumnsListEachColumnOnce();
    SliderCells(a);
    var v := Encode(a).value;
    forall i | 0 <= i < |FeatureColumns|
      ensures v[i].Float? <==> FeatureColumns[i] == BMI
      ensures v[i].Int? ==> 0 <= v[i].n <= 30
      ensures v[i].Float? ==> 10.0 <= v[i].x <= 50.0
      ensures !IsSliderColumn(FeatureColumns[i]) ==> v[i].Int? && 0 <= v[i].n <= 12
    {
      var c := FeatureColumns[i];
      ColumnKinds(a, c);
      if IsSliderColumn(c) {
        SliderCell(a, c);
        SliderCellInRange(a, c);
      } else {
        CategoricalCell(a, c);
        AnswerTableWellFormed(a, c);
      }
    }
  }

  /**
   * Three positions spelled out: cell 16 is the diabetes answer looked up in
   * the diabetes table, cell 21 the smoking answer in the smoker table, and
   * cell 25 the BMI passed through as a real.
   */
  lemma NamedPositions(a: Answers)
    ensures Name(FeatureColumns[16]) == "HadDiabetes" && InputData(a)[16] == Categorical(a.hadDiabetes, DiabetesMap)
    ensures Name(FeatureColumns[21]) == "SmokerStatus" && InputData(a)[21] == Categorical(a.smokerStatus, SmokerMap)
    ensures Name(FeatureColumns[25]) == "BMI" && InputData(a)[25] == Numeric(Float(a.bmi))
  {
    InputDataFollowsFeatureColumns(a, 16);
    InputDataFollowsFeatureColumns(a, 21);
    InputDataFollowsFeatureColumns(a, 25);
  }
}
