/**
 * What the fusion answers after every sequence of frames and resets: exactly when it locks, suggests and starts over,
 * and what the confidence of each character is, over the frames fused since the last reset.
 */
module FusionRuns {
  import opened EditDistance
  import opened FusionEvidence
  import opened Options
  import opened PlateFusion
  import opened PlateGrammar

  // ---------------------------------------------------------------- when it locks and suggests

  /** The fused plate is certain enough, and enough confident frames read it. */
  ghost predicate MeetsBars(cfg: Config, fused: seq<Candidate>, r: Reading) {
    && r.confidence >= cfg.lockConfidence
    && (CountAbove(fused, r.plate, cfg.minFrameConfidence) >= cfg.minAgreeingFrames
        || CountAbove(fused, r.plate, cfg.fastFrameConfidence) >= cfg.fastFrames)
  }

  /** It is locked, on its own reading, exactly if the bars are met; while it is not, a candidate has been suggested
      exactly if there were frames enough for one. */
  ghost predicate Settled(cfg: Config, m: Analysis, t: Traced)
    requires m.Valid() && t.state.Valid()
  {
    if t.state.frames == 0 then t.state.locked.None? && t.suggested == 0
    else
      var r := Current(m, t.state).value;
      && t.state.locked == (if MeetsBars(cfg, t.fused, r) then Some(r) else None)
      && (t.state.locked.None? ==> (t.suggested == 1 <==> |t.fused| >= cfg.maxFramesBeforeCandidate))
  }

  lemma DecidedReads(cfg: Config, m: Analysis, s: State)
    requires m.Valid() && s.Valid() && s.frames > 0
    ensures Current(m, Decided(cfg, m, s).0) == Current(m, s)
  {
  }

  /** What the answer is once the frame is counted. */
  ghost predicate Answers(cfg: Config, m: Analysis, fused: seq<Candidate>, suggested: nat, r: Reading, update: Update) {
    update ==
      if MeetsBars(cfg, fused, r) then Locked(r)
      else if |fused| >= cfg.maxFramesBeforeCandidate && suggested == 0 then Suggested(r)
      else Scanning(Some(r))
  }

  lemma MayLockIff(cfg: Config, hits: seq<Hit>, fused: seq<Candidate>, r: Reading)
    requires AllCounted(cfg, hits, fused)
    ensures MayLock(cfg, hits, r) <==> MeetsBars(cfg, fused, r)
  {
    assert CountsFrames(cfg, hits, fused, r.plate);
  }

  lemma DecideAnswers(cfg: Config, m: Analysis, t: Traced)
    requires m.Valid() && Sound(cfg, m, t) && t.state.frames > 0 && t.state.locked.None?
    ensures var (after, update) := Decided(cfg, m, t.state);
      && Answers(cfg, m, t.fused, t.suggested, Current(m, t.state).value, update)
      && after.locked == (if update.Locked? then Some(update.reading) else None)
      && after.disagreeStreak == t.state.disagreeStreak
  {
    MayLockIff(cfg, t.state.hits, t.fused, Current(m, t.state).value);
  }

  /** The traced state once the frame is counted and before the decision. */
  ghost function Counted(cfg: Config, m: Analysis, t: Traced, f: Candidate): Traced
    requires m.Valid() && t.state.Valid() && |f.positions| == PLATE_LENGTH
    ensures Counted(cfg, m, t, f).state.Valid() && Counted(cfg, m, t, f).state.frames > 0
  {
    var from := Rebased(m, t, f);
    from.(state := Added(cfg, m, from.state, f), fused := from.fused + [f])
  }

  lemma CountedIsSound(cfg: Config, m: Analysis, t: Traced, f: Candidate)
    requires m.Valid() && Sound(cfg, m, t) && t.state.locked.None? && Readable(Some(f))
    ensures Sound(cfg, m, Counted(cfg, m, t, f)) && Counted(cfg, m, t, f).state.locked.None?
  {
    RebasedIsSound(cfg, m, t, f);
    AddKeepsSound(cfg, m, Rebased(m, t, f), f);
  }

  lemma FrameIs(cfg: Config, m: Analysis, t: Traced, f: Candidate)
    requires m.Valid() && Sound(cfg, m, t) && t.state.locked.None? && Readable(Some(f))
    ensures var from := Counted(cfg, m, t, f);
      var (after, update) := Decided(cfg, m, from.state);
      && Pushed(cfg, m, t.state, Some(f)) == (after, update)
      && Step(cfg, m, t, Frame(Some(f)))
         == Traced(after, from.fused, from.suggested + if update.Suggested? then 1 else 0)
  {
    StepIs(cfg, m, t, f);
  }

  /** A new vehicle, as the current reading sees it. */
  ghost predicate ReadsAnother(m: Analysis, t: Traced, f: Candidate)
    requires m.Valid() && t.state.Valid()
  {
    t.state.frames > 0 && f.confidence > 0.8 && Distance(Current(m, t.state).value.plate, f.plate) >= 2.5
  }

  /** The frames kept and the candidates suggested for them: nothing of the past at the second such frame in a row. */
  lemma CountedIs(cfg: Config, m: Analysis, t: Traced, f: Candidate)
    requires m.Valid() && Sound(cfg, m, t) && t.state.locked.None? && Readable(Some(f))
    ensures var after := Counted(cfg, m, t, f);
      if ReadsAnother(m, t, f) && t.state.disagreeStreak == 1
      then after.fused == [f] && after.suggested == 0 && after.state.disagreeStreak == 0
      else after.fused == t.fused + [f] && after.suggested == t.suggested
           && after.state.disagreeStreak == (if ReadsAnother(m, t, f) then 1 else 0)
  {
  }

  lemma StepSettles(cfg: Config, m: Analysis, t: Traced, event: Event)
    requires m.Valid() && Sound(cfg, m, t) && Settled(cfg, m, t)
    ensures Settled(cfg, m, Step(cfg, m, t, event))
  {
    if event.Frame? && t.state.locked.None? && Readable(event.candidate) {
      var f := event.candidate.value;
      FrameSettles(cfg, m, t, f);
    }
  }

  lemma FrameSettles(cfg: Config, m: Analysis, t: Traced, f: Candidate)
    requires m.Valid() && Sound(cfg, m, t) && Settled(cfg, m, t) && t.state.locked.None? && Readable(Some(f))
    ensures Settled(cfg, m, Step(cfg, m, t, Frame(Some(f))))
  {
    var from := Counted(cfg, m, t, f);
    CountedIsSound(cfg, m, t, f);
    CountedIs(cfg, m, t, f);
    DecideAnswers(cfg, m, from);
    DecidedReads(cfg, m, from.state);
    FrameIs(cfg, m, t, f);
  }

  /** After every run the fusion is locked exactly if the bars are met, and has suggested exactly if it had to. */
  lemma {:induction false} RunIsSettled(cfg: Config, m: Analysis, events: seq<Event>)
    requires m.Valid()
    ensures Settled(cfg, m, After(cfg, m, events))
  {
    if events != [] {
      var before := events[..|events| - 1];
      RunIsSettled(cfg, m, before);
      RunIsSound(cfg, m, before);
      StepSettles(cfg, m, After(cfg, m, before), events[|events| - 1]);
    }
  }

  /** So the standard settings lock exactly at two frames of 0.8, or one of 0.97, on a plate fused at 0.8, and suggest a
      candidate at the fourth frame without a lock. */
  lemma StandardLock(m: Analysis, events: seq<Event>)
    requires m.Valid()
    ensures var t := After(DEFAULT_FUSION, m, events);
      t.state.frames > 0 ==>
        var r := Current(m, t.state).value;
        && (t.state.locked.Some? <==>
              r.confidence >= 0.8
              && (CountAbove(t.fused, r.plate, 0.8) >= 2 || CountAbove(t.fused, r.plate, 0.97) >= 1))
        && (t.state.locked.None? ==> (t.suggested == 1 <==> |t.fused| >= 4))
  {
    RunIsSettled(DEFAULT_FUSION, m, events);
  }

  /** A frame the fusion can read: the frames it then rests on, its streak, and its answer. */
  ghost predicate PushesFrame(cfg: Config, m: Analysis, t: Traced, f: Candidate, after: Traced, update: Update)
    requires m.Valid() && t.state.Valid() && after.state.Valid()
  {
    var again := ReadsAnother(m, t, f) && t.state.disagreeStreak == 1;
    && after.fused == (if again then [f] else t.fused + [f])
    && after.state.frames == |after.fused| > 0
    && after.state.disagreeStreak == (if ReadsAnother(m, t, f) && !again then 1 else 0)
    && Answers(cfg, m, after.fused, if again then 0 else t.suggested, Current(m, after.state).value, update)
  }

  lemma PushesReadable(cfg: Config, m: Analysis, t: Traced, f: Candidate)
    requires m.Valid() && Sound(cfg, m, t) && t.state.locked.None? && Readable(Some(f))
    ensures PushesFrame(cfg, m, t, f, Step(cfg, m, t, Frame(Some(f))), Pushed(cfg, m, t.state, Some(f)).1)
  {
    var from := Counted(cfg, m, t, f);
    CountedIsSound(cfg, m, t, f);
    CountedIs(cfg, m, t, f);
    DecideAnswers(cfg, m, from);
    DecidedReads(cfg, m, from.state);
    FrameIs(cfg, m, t, f);
  }

  /** After every run: a locked fusion repeats its reading, a frame without a whole valid plate is passed over, and any
      other is counted and answered. */
  lemma PushAnswers(cfg: Config, m: Analysis, events: seq<Event>, candidate: Option<Candidate>)
    requires m.Valid()
    ensures var t := After(cfg, m, events);
      var after, update := After(cfg, m, events + [Frame(candidate)]), Pushed(cfg, m, t.state, candidate).1;
      if t.state.locked.Some? then after == t && update == Locked(t.state.locked.value)
      else if candidate.None? || !candidate.value.valid || |candidate.value.positions| != 8
      then after == t && update == Scanning(Current(m, t.state))
      else PushesFrame(cfg, m, t, candidate.value, after, update)
  {
    var t := After(cfg, m, events);
    AfterSnoc(cfg, m, events, Frame(candidate));
    if t.state.locked.None? && Readable(candidate) {
      RunIsSound(cfg, m, events);
      PushesReadable(cfg, m, t, candidate.value);
    }
  }

  lemma AfterSnoc(cfg: Config, m: Analysis, events: seq<Event>, event: Event)
    requires m.Valid()
    ensures After(cfg, m, events + [event]) == Step(cfg, m, After(cfg, m, events), event)
  {
    assert (events + [event])[..|events|] == events;
  }

  // ---------------------------------------------------------------- what a frame says about a character

  ghost predicate LastListed(choices: seq<Choice>, i: int, c: char) {
    0 <= i < |choices| && choices[i].c == c && forall j :: i < j < |choices| ==> choices[j].c != c
  }

  function MassListed(choices: seq<Choice>): real {
    if choices == [] then 0.0 else choices[0].p + MassListed(choices[1..])
  }

  /** The probability last listed for the character, or else an even share of what the list leaves over, among ten
      digits or 22 letters; no less than a thousandth. */
  ghost function Likelihood(choices: seq<Choice>, pos: nat, c: char): real {
    var p :=
      if exists i :: LastListed(choices, i, c) then var i :| LastListed(choices, i, c); choices[i].p
      else (1.0 - MassListed(choices)) / (if pos == 2 then 22.0 else 10.0);
    if p < 0.001 then 0.001 else p
  }

  lemma {:induction false} ListedMass(choices: seq<Choice>)
    ensures Listed(choices) == MassListed(choices)
    decreases |choices|
  {
    if |choices| > 1 {
      var init, rest, last := choices[..|choices| - 1], choices[1..], choices[|choices| - 1];
      ListedMass(init);
      ListedMass(rest);
      ListedMass(init[1..]);
      assert rest[..|rest| - 1] == init[1..];
    }
  }

  lemma {:induction false} ProposedIsLast(choices: seq<Choice>, c: char)
    ensures Proposed(choices, c).None? ==> forall i :: 0 <= i < |choices| ==> choices[i].c != c
    ensures Proposed(choices, c).Some? ==>
              exists i :: LastListed(choices, i, c) && choices[i].p == Proposed(choices, c).value
  {
    if choices != [] {
      var n := |choices| - 1;
      ProposedIsLast(choices[..n], c);
      if choices[n].c == c {
        assert LastListed(choices, n, c);
      } else if Proposed(choices[..n], c).Some? {
        var i :| LastListed(choices[..n], i, c) && choices[..n][i].p == Proposed(choices[..n], c).value;
        assert LastListed(choices, i, c) && choices[i].p == Proposed(choices, c).value;
      } else {
        forall i | 0 <= i < |choices| ensures choices[i].c != c {
          if i < n { assert choices[..n][i] == choices[i]; }
        }
      }
    }
  }

  lemma TermIsLikelihood(m: Analysis, choices: seq<Choice>, pos: nat, c: char)
    ensures Term(m, choices, pos, c) == m.log(Likelihood(choices, pos, c))
  {
    ListedMass(choices);
    ProposedIsLast(choices, c);
  }

  /** One more frame decays a character's score and adds the logarithm of its likelihood, weighed by the frame's
      confidence but by no less than a twentieth. */
  lemma DenseStep(m: Analysis, decay: real, history: seq<Candidate>, f: Candidate, pos: nat, c: char)
    requires |f.positions| > pos && forall i :: 0 <= i < |history| ==> pos < |history[i].positions|
    ensures Dense(m, decay, history + [f], pos, c)
      == Dense(m, decay, history, pos, c) * decay
         + m.log(Likelihood(f.positions[pos], pos, c)) * (if f.confidence < 0.05 then 0.05 else f.confidence)
  {
    assert (history + [f])[..|history|] == history;
    TermIsLikelihood(m, f.positions[pos], pos, c);
  }

  // ---------------------------------------------------------------- what its confidence is

  /** What a character's score weighs beside the plate's own character. */
  ghost function Odds(cfg: Config, m: Analysis, fused: seq<Candidate>, pos: nat, own: char): char -> real
    requires AllWhole(fused) && pos < PLATE_LENGTH
  {
    c => m.exp(Dense(m, cfg.decay, fused, pos, c) - Dense(m, cfg.decay, fused, pos, own))
  }

  /** The characters proposed for a position, and as many others as make ten digits or 22 letters. */
  ghost predicate Fills(fused: seq<Candidate>, pos: nat, alphabet: string)
    requires AllWhole(fused) && pos < PLATE_LENGTH
  {
    var size := if pos == 2 then 22 else 10;
    && Distinct(alphabet) && |alphabet| >= size
    && (forall c :: ProposedBy(fused, pos, c) ==> c in alphabet)
    && (|alphabet| > size ==> forall c :: c in alphabet ==> ProposedBy(fused, pos, c))
  }

  lemma FillsEntries(entries: seq<Entry>, pos: nat, alphabet: string, fused: seq<Candidate>)
    requires AllWhole(fused) && pos < PLATE_LENGTH && Fills(fused, pos, alphabet)
    requires DistinctKeys(entries) && forall c :: Has(entries, c) <==> ProposedBy(fused, pos, c)
    ensures forall i :: 0 <= i < |entries| ==> entries[i].c in alphabet
    ensures |alphabet| == |entries| + Others(entries, pos)
  {
    forall i | 0 <= i < |entries| ensures entries[i].c in alphabet { assert Has(entries, entries[i].c); }
    AtMost(entries, alphabet);
    AllListedIff(entries, alphabet);
  }

  lemma {:induction false} SameSum(alphabet: string, f: char -> real, g: char -> real)
    requires forall c :: f(c) == g(c)
    ensures SumOver(alphabet, f) == SumOver(alphabet, g)
  {
    if alphabet != [] { SameSum(alphabet[..|alphabet| - 1], f, g); }
  }

  lemma TopHasTopScore(e: Evidence)
    requires DistinctKeys(e.entries) && e.entries != []
    ensures FusionEvidence.Value(e, TopCharacter(e)) == TopScore(e.entries)
  {
    var i :| 0 <= i < |e.entries| && e.entries[i] == TopEntry(e.entries);
    ValueAt(e, i);
  }

  lemma TotalIsOdds(cfg: Config, m: Analysis, e: Evidence, fused: seq<Candidate>, pos: nat, alphabet: string)
    requires m.Valid() && AllWhole(fused) && pos < PLATE_LENGTH && IsDense(cfg, m, e, fused, pos) && e.entries != []
    requires Fills(fused, pos, alphabet) && forall c :: Has(e.entries, c) <==> ProposedBy(fused, pos, c)
    ensures Total(m, e, pos) == SumOver(alphabet, Odds(cfg, m, fused, pos, TopCharacter(e)))
  {
    FillsEntries(e.entries, pos, alphabet, fused);
    TotalIsWhole(m, e, pos, alphabet);
    TopHasTopScore(e);
    SameSum(alphabet, ShareOf(m, e, TopScore(e.entries)), Odds(cfg, m, fused, pos, TopCharacter(e)));
  }

  /** After every run the confidence of a character is its share of the odds of all the characters that fill its
      position, and nothing where no frame proposed any; the plate's confidence is the product of the eight. */
  lemma ConfidenceIsPosterior(cfg: Config, m: Analysis, events: seq<Event>, pos: nat, alphabet: string)
    requires m.Valid() && pos < PLATE_LENGTH && AllWhole(After(cfg, m, events).fused)
    requires Fills(After(cfg, m, events).fused, pos, alphabet) && After(cfg, m, events).state.frames > 0
    ensures var t := After(cfg, m, events);
      var r := Current(m, t.state).value;
      && |r.plate| == |r.charConfidences| == 8
      && (r.charConfidences[pos]
            == if exists c :: ProposedBy(t.fused, pos, c)
               then m.exp(0.0) / NotZero(SumOver(alphabet, Odds(cfg, m, t.fused, pos, r.plate[pos])))
               else 0.0)
  {
    var t := After(cfg, m, events);
    var e := t.state.scores[pos];
    RunIsSound(cfg, m, events);
    RunListsProposed(cfg, m, events, pos);
    assert IsDense(cfg, m, e, t.fused, pos);
    if e.entries != [] {
      assert Has(e.entries, e.entries[0].c);
      TotalIsOdds(cfg, m, e, t.fused, pos, alphabet);
      TotalAbove(m, e, pos);
    }
  }

  function NotZero(total: real): (r: real)
    ensures r != 0.0 && (total > 0.0 ==> r == total)
  {
    if total > 0.0 then total else 1.0
  }

  ghost predicate IsProductOfEight(p: seq<real>, product: real) {
    |p| == 8 && product == FirstFour(p) * LastFour(p)
  }

  lemma ConfidenceIsProduct(m: Analysis, s: State)
    requires m.Valid() && s.Valid() && s.frames > 0
    ensures IsProductOfEight(Current(m, s).value.charConfidences, Current(m, s).value.confidence)
  {
    ProductOfEight(ConfidencesOf(m, s.scores));
  }

  lemma ProductOfEight(p: seq<real>)
    requires |p| == 8
    ensures IsProductOfEight(p, Product(p))
  {
    var four, five, six, seven := Product(p[..4]), Product(p[..5]), Product(p[..6]), Product(p[..7]);
    assert p[..8] == p;
    assert four == FirstFour(p) by { ProductOfFour(p); }
    assert five == Scale(four, p[4]) by { ProductOf(p, 5); }
    assert six == Scale(five, p[5]) by { ProductOf(p, 6); }
    assert seven == Scale(six, p[6]) by { ProductOf(p, 7); }
    assert Product(p) == Scale(seven, p[7]) by { ProductOf(p, 8); }
    FourMore(four, p[4], p[5], p[6], p[7]);
  }

  function FirstFour(p: seq<real>): real
    requires |p| == 8
  {
    p[0] * p[1] * p[2] * p[3]
  }

  function LastFour(p: seq<real>): real
    requires |p| == 8
  {
    p[4] * p[5] * p[6] * p[7]
  }

  lemma FourMore(x: real, a: real, b: real, c: real, d: real)
    ensures Scale(Scale(Scale(Scale(x, a), b), c), d) == x * (a * b * c * d)
  {
  }

  lemma ProductOfFour(p: seq<real>)
    requires |p| == 8
    ensures Product(p[..4]) == FirstFour(p)
  {
    ProductOf(p, 1);
    ProductOf(p, 2);
    ProductOf(p, 3);
    ProductOf(p, 4);
  }

  lemma ProductOf(p: seq<real>, n: nat)
    requires 0 < n <= |p|
    ensures Product(p[..n]) == Scale(Product(p[..n - 1]), p[n - 1])
    ensures n == 1 ==> Product(p[..n]) == p[0]
  {
    assert p[..n][..n - 1] == p[..n - 1];
  }

  // ---------------------------------------------------------------- the frame it rests on

  lemma {:induction false} MostSeenCounts(hits: seq<Hit>, i: nat)
    requires i < |hits|
    ensures hits[i].count <= MostSeen(hits).count
  {
    if |hits| > 1 {
      if i > 0 { MostSeenCounts(hits[1..], i - 1); }
    }
  }

  /** A plate read more often than any other, and the best of the frames that read it. */
  ghost predicate IsMostRead(fused: seq<Candidate>, best: Candidate) {
    IsBestFrame(fused, best.plate, best) && forall plate :: CountOf(fused, plate) <= CountOf(fused, best.plate)
  }

  lemma MostSeenIsMostRead(cfg: Config, hits: seq<Hit>, fused: seq<Candidate>)
    requires AllCounted(cfg, hits, fused) && hits != []
    ensures IsMostRead(fused, MostSeen(hits).best)
  {
    MostSeenIsHit(hits);
    var k :| 0 <= k < |hits| && hits[k] == MostSeen(hits);
    FindAt(hits, k);
    assert CountsFrames(cfg, hits, fused, hits[k].plate);
    forall plate ensures CountOf(fused, plate) <= CountOf(fused, hits[k].plate) {
      assert CountsFrames(cfg, hits, fused, plate);
      if Find(hits, plate).Some? { FoundCounts(hits, plate); }
    }
  }

  lemma FoundCounts(hits: seq<Hit>, plate: string)
    requires Find(hits, plate).Some?
    ensures Find(hits, plate).value.count <= MostSeen(hits).count
  {
    FoundIsHit(hits, plate);
    var i :| 0 <= i < |hits| && hits[i] == Find(hits, plate).value;
    MostSeenCounts(hits, i);
  }

  /** After every run: a fused plate that no frame read rests on the best frame of a plate read most often; and a plate
      that cannot be read has the type its frame was given. */
  lemma RestsOnMostRead(cfg: Config, m: Analysis, events: seq<Event>)
    requires m.Valid() && After(cfg, m, events).state.frames > 0
    ensures var t := After(cfg, m, events);
      var r := Current(m, t.state).value;
      && (r.agreeing == 0 ==> IsMostRead(t.fused, r.best))
      && (Normalize(r.plate).Invalid? ==> r.PlateType() == r.best.plateType)
  {
    var t := After(cfg, m, events);
    RunIsSound(cfg, m, events);
    MostSeenIsMostRead(cfg, t.state.hits, t.fused);
    assert CountsFrames(cfg, t.state.hits, t.fused, Current(m, t.state).value.plate);
  }
}
