/**
 * Which plate the search prefers, spelt out in characters: how much likelier than any other plate a
 * returned one must be when its region was never issued or a group of its digits begins with zero.
 */
module DecoderPriors {
  import opened CtcSpec
  import opened CtcRun
  import opened CtcDecoder
  import opened PlateGrammar

  /** The region is written with a leading zero, or is one of the four codes between 10 and 99 that are not issued. */
  predicate Unissued(text: string)
    requires |text| == PLATE_LENGTH
  {
    || text[6] == '0' || (text[6] == '3' && text[7] == '9')
    || (text[7] == '0' && (text[6] == '7' || text[6] == '8' || text[6] == '9'))
  }

  /** How many of the three digit groups begin with zero. */
  function Zeros(text: string): nat
    requires |text| == PLATE_LENGTH
  {
    (if text[0] == '0' then 1 else 0) + (if text[3] == '0' then 1 else 0) + (if text[6] == '0' then 1 else 0)
  }

  predicate Clean(text: string)
    requires |text| == PLATE_LENGTH
  {
    Zeros(text) == 0 && !Unissued(text)
  }

  /** One chance in twenty for every such zero, and one in five for such a region. */
  function Odds(text: string): (odds: real)
    requires |text| == PLATE_LENGTH
    ensures 0.0 < odds <= 1.0 && (Clean(text) <==> odds == 1.0)
  {
    var n := Zeros(text);
    (if n == 0 then 1.0 else if n == 1 then 0.05 else if n == 2 then 0.0025 else 0.000125)
    * (if Unissued(text) then 0.2 else 1.0)
  }

  lemma RegionOdds(text: string)
    requires IsStandard(text)
    ensures RegionPrior(text[6..8]) == if Unissued(text) then 0.2 else 1.0
  {
    var code := text[6..8];
    assert code[0] == text[6] && code[1] == text[7];
    assert IsDigit(text[6]) && IsDigit(text[7]);
    assert code in {"39", "70", "80", "90"} <==>
      || (text[6] == '3' && text[7] == '9')
      || (text[7] == '0' && (text[6] == '7' || text[6] == '8' || text[6] == '9')) by {
      assert code == [text[6], text[7]];
    }
  }

  function ZeroOdds(zero: bool): real { if zero then 0.05 else 1.0 }

  /** Positions that do not begin a group weigh nothing. */
  lemma GroupOdds(text: string)
    requires |text| == PLATE_LENGTH
    ensures PositionPriors(text, PLATE_LENGTH)
      == (ZeroOdds(text[0] == '0') * ZeroOdds(text[3] == '0')) * ZeroOdds(text[6] == '0')
  {
    assert PositionPriors(text, 0) == 1.0;
    assert PositionPriors(text, 1) == ZeroOdds(text[0] == '0');
    assert PositionPriors(text, 3) == PositionPriors(text, 2) == PositionPriors(text, 1);
    assert PositionPriors(text, 4) == PositionPriors(text, 3) * ZeroOdds(text[3] == '0');
    assert PositionPriors(text, 6) == PositionPriors(text, 5) == PositionPriors(text, 4);
    assert PositionPriors(text, 7) == PositionPriors(text, 6) * ZeroOdds(text[6] == '0');
    assert PositionPriors(text, 8) == PositionPriors(text, 7);
  }

  lemma PriorIsOdds(text: string)
    requires IsStandard(text)
    ensures Prior(text) == Odds(text)
  {
    RegionOdds(text);
    GroupOdds(text);
  }

  // ---------------------------------------------------------------- what the best plate must be

  ghost function MassOfPlate(labels: string, rows: seq<Row>, prefix: Prefix): real {
    TotalMass(rows, |rows|, |labels|, prefix)
  }

  ghost function Spelt(labels: string, prefix: Prefix): (text: string)
    requires Complete(GrammarOf(labels), prefix)
    ensures |text| == PLATE_LENGTH && IsStandard(text)
  {
    CompleteIsStandard(labels, prefix);
    Text(labels, prefix)
  }

  /** The best plate of its mass against any other: weighed by the odds of both, it is at least as likely; so against a
      clean plate it must be likelier by the factor its own defects cost. */
  ghost predicate Outranks(b: string, mass: real, o: string, rival: real)
    requires |b| == |o| == PLATE_LENGTH
  {
    && rival * Odds(o) <= mass * Odds(b)
    && (Odds(o) == Odds(b) ==> rival <= mass)
    && (Clean(o) ==> rival <= mass)
    && (Clean(o) && Unissued(b) ==> 5.0 * rival <= mass)
    && (Clean(o) && Zeros(b) > 0 ==> 20.0 * rival <= mass)
    && (Clean(o) && b[6] == '0' ==> 100.0 * rival <= mass)
  }

  lemma OutranksWhen(b: string, mass: real, o: string, rival: real)
    requires |b| == |o| == PLATE_LENGTH && mass >= 0.0 && Weighed(rival, Odds(o)) <= Weighed(mass, Odds(b))
    ensures Outranks(b, mass, o, rival)
  {
    OddsAtMost(b);
    Outweighs(mass, Odds(b), rival, Odds(o));
    if Clean(o) { assert rival <= Weighed(mass, Odds(b)); }
  }

  ghost predicate Prefers(labels: string, rows: seq<Row>, best: Prefix, other: Prefix)
    requires Complete(GrammarOf(labels), best) && Complete(GrammarOf(labels), other)
  {
    Outranks(Spelt(labels, best), MassOfPlate(labels, rows, best),
             Spelt(labels, other), MassOfPlate(labels, rows, other))
  }

  /** Mass times prior is mass times odds. */
  lemma ScoreIsOdds(labels: string, rows: seq<Row>, prefix: Prefix)
    requires Complete(GrammarOf(labels), prefix)
    ensures PosteriorScore(labels, rows, prefix)
      == Weighed(MassOfPlate(labels, rows, prefix), Odds(Spelt(labels, prefix)))
  {
    PriorIsOdds(Spelt(labels, prefix));
  }

  lemma BestScores(labels: string, rows: seq<Row>, best: Prefix, other: Prefix)
    requires IsBestPlate(labels, rows, best) && Complete(GrammarOf(labels), other)
    ensures PosteriorScore(labels, rows, other) <= PosteriorScore(labels, rows, best)
  {
  }

  lemma BestPrefers(labels: string, rows: seq<Row>, best: Prefix, other: Prefix)
    requires IsBestPlate(labels, rows, best) && Complete(GrammarOf(labels), other)
    ensures Prefers(labels, rows, best, other)
  {
    ScoreIsOdds(labels, rows, best);
    ScoreIsOdds(labels, rows, other);
    BestScores(labels, rows, best, other);
    MassNotNegative(labels, rows, best);
    OutranksWhen(Spelt(labels, best), MassOfPlate(labels, rows, best),
                 Spelt(labels, other), MassOfPlate(labels, rows, other));
  }

  lemma OddsAtMost(text: string)
    requires |text| == PLATE_LENGTH
    ensures Unissued(text) ==> Odds(text) <= 0.2
    ensures Zeros(text) > 0 ==> Odds(text) <= 0.05
    ensures text[6] == '0' ==> Odds(text) <= 0.01
  {
  }

  lemma MassNotNegative(labels: string, rows: seq<Row>, prefix: Prefix)
    ensures MassOfPlate(labels, rows, prefix) >= 0.0
  {
    TotalIsBoth(rows, |rows|, |labels|, prefix);
    MassNonNegative(rows, |rows|, |labels|, prefix, true);
    MassNonNegative(rows, |rows|, |labels|, prefix, false);
  }

  lemma Outweighs(mass: real, odds: real, rival: real, other: real)
    requires mass >= 0.0 && odds > 0.0 && rival * other <= mass * odds
    ensures odds == other ==> rival <= mass
    ensures forall bound: real :: other == 1.0 && odds <= bound ==> rival <= Weighed(mass, bound)
  {
    if odds == other && rival > mass {
      LessTimes(mass, rival, odds);
    }
    forall bound: real | other == 1.0 && odds <= bound ensures rival <= Weighed(mass, bound) {
      AtMostTimes(mass, odds, bound);
    }
  }

  function Weighed(mass: real, bound: real): real { mass * bound }

  lemma LessTimes(mass: real, rival: real, odds: real)
    requires mass < rival && odds > 0.0
    ensures mass * odds < rival * odds
  {
  }

  lemma AtMostTimes(mass: real, odds: real, bound: real)
    requires mass >= 0.0 && odds <= bound
    ensures mass * odds <= mass * bound
  {
    assert mass * (bound - odds) >= 0.0;
    assert mass * (bound - odds) == mass * bound - mass * odds;
  }

  /** A plate returned with nothing cut or pruned is preferred to every plate of the grammar. */
  ghost predicate IsPreferred(labels: string, rows: seq<Row>, plate: string) {
    exists best ::
      Complete(GrammarOf(labels), best) && plate == Spelt(labels, best)
      && forall other :: Complete(GrammarOf(labels), other) ==> Prefers(labels, rows, best, other)
  }

  lemma WideDecodeIsPreferred(labels: string, rows: seq<Row>, prune: real, width: nat, nbest: nat, r: Decoded)
    requires IsSearchResult(labels, rows, prune, width, nbest, r) && NothingPruned(GrammarOf(labels), rows, prune)
    requires width >= |LegalPrefixes(GrammarOf(labels), PLATE_LENGTH)| && r.valid
    ensures IsPreferred(labels, rows, r.plate)
  {
    WideDecodeIsOptimal(labels, rows, prune, width, nbest, r);
    var best :| ReturnsBest(labels, rows, r, best);
    forall other | Complete(GrammarOf(labels), other) ensures Prefers(labels, rows, best, other) {
      BestPrefers(labels, rows, best, other);
    }
  }
}
