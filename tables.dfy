/**
 * The eight fixed answer-to-code tables of the cardiovascular risk encoder
 * (app.py:21-59), each written as its dict literal in listing order.
 */
module Tables {
  import opened Dicts

  const SexMap: Dict := [("Female", 0), ("Male", 1)]

  const LastCheckupMap: Dict := [
    ("Within past year (anytime less than 12 months ago)", 0),
    ("Within past 2 years (1 year but less than 2 years ago)", 1),
    ("Within past 5 years (2 years but less than 5 years ago)", 2),
    ("5 or more years ago", 3)
  ]

  const YesNoMap: Dict := [("No", 0), ("Yes", 1)]

  const RemovedTeethMap: Dict := [
    ("None of them", 0),
    ("1 to 5", 1),
    ("6 or more, but not all", 2),
    ("All", 3)
  ]

  const DiabetesMap: Dict := [
    ("No", 0),
    ("Yes (other than pregnancy)", 1),
    ("Yes, but only during pregnancy (female)", 2),
    ("No, pre-diabetes or borderline diabetes", 3)
  ]

  const SmokerMap: Dict := [
    ("Never smoked", 0),
    ("Former smoker", 1),
    ("Current smoker - now smokes some days", 2),
    ("Current smoker - now smokes every day", 3)
  ]

  const RaceMap: Dict := [
    ("White only, Non-Hispanic", 0),
    ("Black only, Non-Hispanic", 1),
    ("Other race only, Non-Hispanic", 2),
    ("Multiracial, Non-Hispanic", 3),
    ("Hispanic", 4)
  ]

  const AgeMap: Dict := [
    ("Age 18 to 24", 0), ("Age 25 to 29", 1), ("Age 30 to 34", 2), ("Age 35 to 39", 3),
    ("Age 40 to 44", 4), ("Age 45 to 49", 5), ("Age 50 to 54", 6), ("Age 55 to 59", 7),
    ("Age 60 to 64", 8), ("Age 65 to 69", 9), ("Age 70 to 74", 10),
    ("Age 75 to 79", 11), ("Age 80 or older", 12)
  ]

  /** Distinct keys and codes equal to listing positions. */
  predicate WellFormed(d: Dict) {
    DistinctKeys(d) && CodesAreIndices(d)
  }

  lemma AllTablesWellFormed()
    ensures WellFormed(SexMap) && WellFormed(LastCheckupMap) && WellFormed(YesNoMap)
    ensures WellFormed(RemovedTeethMap) && WellFormed(DiabetesMap) && WellFormed(SmokerMap)
    ensures WellFormed(RaceMap) && WellFormed(AgeMap)
  {
  }

  /**
   * Each table is injective and its codes are exactly 0..n-1:
   * sex 0..1, last checkup 0..3, yes/no 0..1, removed teeth 0..3,
   * diabetes 0..3, smoker 0..3, race 0..4, age 0..12.
   */
  lemma TablesAreBijections()
    ensures BijectionOnto(SexMap, 2)
    ensures BijectionOnto(LastCheckupMap, 4)
    ensures BijectionOnto(YesNoMap, 2)
    ensures BijectionOnto(RemovedTeethMap, 4)
    ensures BijectionOnto(DiabetesMap, 4)
    ensures BijectionOnto(SmokerMap, 4)
    ensures BijectionOnto(RaceMap, 5)
    ensures BijectionOnto(AgeMap, 13)
  {
    AllTablesWellFormed();
    TableIsBijection(SexMap);
    TableIsBijection(LastCheckupMap);
    TableIsBijection(YesNoMap);
    TableIsBijection(RemovedTeethMap);
    TableIsBijection(DiabetesMap);
    TableIsBijection(SmokerMap);
    TableIsBijection(RaceMap);
    TableIsBijection(AgeMap);
  }

  /** The yes/no table: "No" is 0, "Yes" is 1, and nothing else has a code. */
  lemma YesNoCodes(answer: string)
    ensures Get(YesNoMap, answer) == Some(0) <==> answer == "No"
    ensures Get(YesNoMap, answer) == Some(1) <==> answer == "Yes"
    ensures Get(YesNoMap, answer).Some? <==> answer == "No" || answer == "Yes"
  {
    AllTablesWellFormed();
    GetEntry(YesNoMap, 0);
    GetEntry(YesNoMap, 1);
    GetSpec(YesNoMap, answer);
    if Get(YesNoMap, answer).Some? {
      var i :| 0 <= i < |YesNoMap| && YesNoMap[i] == (answer, Get(YesNoMap, answer).value);
    }
  }

  /** Both labels have codes and the first one's is smaller. */
  predicate Increasing(d: Dict, lower: string, higher: string) {
    Get(d, lower).Some? && Get(d, higher).Some? && Get(d, lower).value < Get(d, higher).value
  }

  /**
   * The ordinal tables list their labels in increasing order of magnitude:
   * a later age bracket, a longer time since the last checkup or more teeth
   * removed always has a larger code.
   */
  lemma OrdinalTablesIncrease(i: nat, j: nat)
    requires i < j
    ensures j < |AgeMap| ==> Increasing(AgeMap, AgeMap[i].0, AgeMap[j].0)
    ensures j < |LastCheckupMap| ==> Increasing(LastCheckupMap, LastCheckupMap[i].0, LastCheckupMap[j].0)
    ensures j < |RemovedTeethMap| ==> Increasing(RemovedTeethMap, RemovedTeethMap[i].0, RemovedTeethMap[j].0)
  {
    AllTablesWellFormed();
    if j < |AgeMap| { CodesFollowListingOrder(AgeMap, i, j); }
    if j < |LastCheckupMap| { CodesFollowListingOrder(LastCheckupMap, i, j); }
    if j < |RemovedTeethMap| { CodesFollowListingOrder(RemovedTeethMap, i, j); }
  }
}
