/**
 * The fusion state machine: agreement counts, the lock, the candidate and the new-vehicle reset,
 * proved over every sequence of frames and resets.
 */
module PlateFusion {
  import opened EditDistance
  import opened FusionEvidence
  import opened Options
  import opened PlateGrammar
  import Tally

  datatype Config = Config(
    minAgreeingFrames: nat, lockConfidence: real, minFrameConfidence: real, fastFrames: nat,
    fastFrameConfidence: real, decay: real, maxFramesBeforeCandidate: nat)

  const DEFAULT_FUSION := Config(2, 0.8, 0.8, 1, 0.97, 0.85, 4)

  // ---------------------------------------------------------------- agreement counts

  /** The frames that read one plate, and how many of them cleared the two per-frame bars. */
  datatype Hit = Hit(plate: string, count: nat, strong: nat, certain: nat, best: Candidate)

  function NoHit(candidate: Candidate): Hit { Hit(candidate.plate, 0, 0, 0, candidate) }

  function Bump(cfg: Config, hit: Hit, candidate: Candidate): Hit {
    Hit(hit.plate, hit.count + 1,
        hit.strong + if candidate.confidence >= cfg.minFrameConfidence then 1 else 0,
        hit.certain + if candidate.confidence >= cfg.fastFrameConfidence then 1 else 0,
        if candidate.confidence > hit.best.confidence then candidate else hit.best)
  }

  /** A `Map` in insertion order: the plate's hit is updated in place, or appended. */
  function Record(cfg: Config, hits: seq<Hit>, candidate: Candidate): seq<Hit> {
    if hits == [] then [Bump(cfg, NoHit(candidate), candidate)]
    else if hits[0].plate == candidate.plate then [Bump(cfg, hits[0], candidate)] + hits[1..]
    else [hits[0]] + Record(cfg, hits[1..], candidate)
  }

  function Find(hits: seq<Hit>, plate: string): Option<Hit> {
    if hits == [] then None else if hits[0].plate == plate then Some(hits[0]) else Find(hits[1..], plate)
  }

  function SumCounts(hits: seq<Hit>): nat {
    if hits == [] then 0 else hits[0].count + SumCounts(hits[1..])
  }

  /** The first hit of the highest count: the head of a stable descending sort. */
  function MostSeen(hits: seq<Hit>): Hit
    requires hits != []
  {
    if |hits| == 1 then hits[0]
    else
      var rest := MostSeen(hits[1..]);
      if rest.count > hits[0].count then rest else hits[0]
  }

  // ---------------------------------------------------------------- state and transitions

  datatype Reading = Reading(
    plate: string, confidence: real, charConfidences: seq<real>, positions: seq<seq<Choice>>,
    agreeing: nat, frames: nat, alternatives: seq<Guess>, best: Candidate)
  {
    /** The type the plate's own text says, or else the one of the frame it rests on. */
    function PlateType(): Option<PlateType> {
      var own := TypeOf(Normalize(plate));
      if own.Some? then own else best.plateType
    }

    /** The colour of the frame it rests on. */
    function Color(): string { best.color }
  }

  /** A plate with its share of the frames. */
  type Guess = Tally.Share<string>

  const MAX_ALTERNATIVES: nat := 5

  datatype State = State(
    scores: seq<Evidence>, hits: seq<Hit>, frames: nat, locked: Option<Reading>,
    candidateEmitted: bool, disagreeStreak: nat)
  {
    ghost predicate Valid() { |scores| == PLATE_LENGTH && frames == SumCounts(hits) }
  }

  datatype Update = Scanning(fused: Option<Reading>) | Locked(reading: Reading) | Suggested(guess: Reading)

  function Blank(): seq<Evidence> { seq(PLATE_LENGTH, _ => NO_EVIDENCE) }

  /** A fresh fusion. */
  function Fresh(): State { State(Blank(), [], 0, None, false, 0) }

  function TopCharacter(e: Evidence): char { if e.entries == [] then '?' else TopEntry(e.entries).c }

  ghost function TopConfidence(m: Analysis, e: Evidence, pos: nat): real
    requires m.Valid()
  {
    if e.entries == [] then 0.0 else TotalAbove(m, e, pos); Share(m, 0.0, 0.0) / Total(m, e, pos)
  }

  function Scores(e: Evidence): seq<Tally.Share<char>> {
    seq(|e.entries|, i requires 0 <= i < |e.entries| => Tally.Share(e.entries[i].c, e.entries[i].v))
  }

  /** The probability that goes with a score. */
  ghost function PosteriorAt(m: Analysis, e: Evidence, pos: nat, v: real): real
    requires m.Valid() && e.entries != []
  {
    TotalAbove(m, e, pos);
    Share(m, v, TopScore(e.entries)) / Total(m, e, pos)
  }

  /** The three characters of the highest scores, with their rounded probabilities. */
  ghost function ChoicesAt(m: Analysis, e: Evidence, pos: nat): seq<Choice>
    requires m.Valid()
  {
    if e.entries == [] then []
    else
      var ranked := Tally.Take(Tally.Rank(Scores(e)), Tally.TOP_CHOICES);
      seq(|ranked|, i requires 0 <= i < |ranked| =>
        Tally.Choice(ranked[i].key, Tally.Round4(PosteriorAt(m, e, pos, ranked[i].weight))))
  }

  ghost function PositionsOf(m: Analysis, scores: seq<Evidence>): seq<seq<Choice>>
    requires m.Valid()
  {
    seq(|scores|, i requires 0 <= i < |scores| => ChoicesAt(m, scores[i], i))
  }

  function HitShares(hits: seq<Hit>): seq<Guess> {
    seq(|hits|, i requires 0 <= i < |hits| => Tally.Share(hits[i].plate, hits[i].count as real))
  }

  /** The plates read most often, with their rounded shares of the frames. */
  function Guesses(hits: seq<Hit>): seq<Guess> {
    var ranked := Tally.Take(Tally.Rank(HitShares(hits)), MAX_ALTERNATIVES);
    var total := if SumCounts(hits) == 0 then 1 else SumCounts(hits);
    seq(|ranked|, i requires 0 <= i < |ranked| =>
      Tally.Share(ranked[i].key, Tally.Round4(ranked[i].weight / total as real)))
  }

  function Agreeing(hits: seq<Hit>, plate: string): nat {
    var agree := Find(hits, plate);
    if agree.Some? then agree.value.count else 0
  }

  /** The best frame of the fused plate, or of the plate read most often. */
  function BestFrame(hits: seq<Hit>, plate: string): Candidate
    requires hits != []
  {
    var agree := Find(hits, plate);
    if agree.Some? then agree.value.best else MostSeen(hits).best
  }

  ghost function PlateOf(scores: seq<Evidence>): string {
    seq(|scores|, i requires 0 <= i < |scores| => TopCharacter(scores[i]))
  }

  ghost function ConfidencesOf(m: Analysis, scores: seq<Evidence>): seq<real>
    requires m.Valid()
  {
    seq(|scores|, i requires 0 <= i < |scores| => TopConfidence(m, scores[i], i))
  }

  function Product(s: seq<real>): real {
    if s == [] then 1.0 else Scale(Product(s[..|s| - 1]), s[|s| - 1])
  }

  /** What `current` reads off the state. */
  ghost function Current(m: Analysis, s: State): Option<Reading>
    requires m.Valid() && s.Valid()
  {
    if s.frames == 0 then None
    else
      var plate, confidences := PlateOf(s.scores), ConfidencesOf(m, s.scores);
      Some(Reading(plate, Product(confidences), confidences, PositionsOf(m, s.scores),
                   Agreeing(s.hits, plate), s.frames, Guesses(s.hits), BestFrame(s.hits, plate)))
  }

  predicate Readable(candidate: Option<Candidate>) {
    candidate.Some? && candidate.value.valid && |candidate.value.positions| == PLATE_LENGTH
  }

  /** A confident frame that reads a clearly different plate. */
  ghost predicate Disagrees(m: Analysis, s: State, candidate: Candidate)
    requires m.Valid() && s.Valid()
  {
    Current(m, s).Some? && candidate.confidence > 0.8 && Distance(Current(m, s).value.plate, candidate.plate) >= 2.5
  }

  /** The streak of disagreeing frames; the second one starts over. */
  ghost function Judged(m: Analysis, s: State, candidate: Candidate): State
    requires m.Valid() && s.Valid()
    ensures Judged(m, s, candidate).Valid()
  {
    if !Disagrees(m, s, candidate) then s.(disagreeStreak := 0)
    else if s.disagreeStreak >= 1 then Fresh()
    else s.(disagreeStreak := 1)
  }

  ghost function FusedScores(cfg: Config, m: Analysis, scores: seq<Evidence>, candidate: Candidate): seq<Evidence>
    requires |scores| == |candidate.positions|
  {
    seq(|scores|, i requires 0 <= i < |scores| =>
      Fused(m, cfg.decay, scores[i], candidate.positions[i], i, Weight(candidate)))
  }

  ghost function Added(cfg: Config, m: Analysis, s: State, candidate: Candidate): State
    requires s.Valid() && |candidate.positions| == PLATE_LENGTH
    ensures Added(cfg, m, s, candidate).Valid()
  {
    RecordCounts(cfg, s.hits, candidate);
    s.(frames := s.frames + 1, scores := FusedScores(cfg, m, s.scores, candidate),
       hits := Record(cfg, s.hits, candidate))
  }

  predicate MayLock(cfg: Config, hits: seq<Hit>, next: Reading) {
    var agree := Find(hits, next.plate);
    next.confidence >= cfg.lockConfidence
    && ((if agree.Some? then agree.value.strong else 0) >= cfg.minAgreeingFrames
        || (if agree.Some? then agree.value.certain else 0) >= cfg.fastFrames)
  }

  ghost function Decided(cfg: Config, m: Analysis, s: State): (State, Update)
    requires m.Valid() && s.Valid() && s.frames > 0
    ensures Decided(cfg, m, s).0.Valid()
  {
    var next := Current(m, s).value;
    if MayLock(cfg, s.hits, next) then (s.(locked := Some(next)), Locked(next))
    else if !s.candidateEmitted && s.frames >= cfg.maxFramesBeforeCandidate
    then (s.(candidateEmitted := true), Suggested(next))
    else (s, Scanning(Some(next)))
  }

  /** One call of `push`. */
  ghost function Pushed(cfg: Config, m: Analysis, s: State, candidate: Option<Candidate>): (State, Update)
    requires m.Valid() && s.Valid()
    ensures Pushed(cfg, m, s, candidate).0.Valid()
  {
    if s.locked.Some? then (s, Locked(s.locked.value))
    else if !Readable(candidate) then (s, Scanning(Current(m, s)))
    else Decided(cfg, m, Added(cfg, m, Judged(m, s, candidate.value), candidate.value))
  }

  lemma {:induction false} RecordCounts(cfg: Config, hits: seq<Hit>, candidate: Candidate)
    ensures SumCounts(Record(cfg, hits, candidate)) == SumCounts(hits) + 1
  {
    if hits != [] && hits[0].plate != candidate.plate { RecordCounts(cfg, hits[1..], candidate); }
  }

  // ---------------------------------------------------------------- the class

  class Fusion {
    const cfg: Config
    const m: Analysis
    var scores: seq<Evidence>
    var hits: seq<Hit>
    var frames: nat
    var locked: Option<Reading>
    var candidateEmitted: bool
    var disagreeStreak: nat

    ghost function Value(): State
      reads this
    {
      State(scores, hits, frames, locked, candidateEmitted, disagreeStreak)
    }

    ghost predicate Valid()
      reads this
    {
      m.Valid() && Value().Valid()
    }

    constructor (cfg: Config, m: Analysis)
      requires m.Valid()
      ensures Valid() && this.cfg == cfg && this.m == m && Value() == Fresh()
    {
      this.cfg, this.m := cfg, m;
      scores, hits, frames, locked, candidateEmitted, disagreeStreak := Blank(), [], 0, None, false, 0;
    }

    method Reset()
      modifies this
      requires m.Valid()
      ensures Valid() && Value() == Fresh()
    {
      scores, hits, frames, locked, candidateEmitted, disagreeStreak := Blank(), [], 0, None, false, 0;
    }

    method ReadCurrent() returns (r: Option<Reading>)
      requires Valid()
      ensures r == Current(m, Value())
    {
      if frames == 0 { return None; }
      var chars: string := [];
      var charConfidences: seq<real> := [];
      var positions: seq<seq<Choice>> := [];
      for pos := 0 to |scores|
        invariant |chars| == |charConfidences| == |positions| == pos
        invariant forall k :: 0 <= k < pos ==>
          chars[k] == PlateOf(scores)[k] && charConfidences[k] == ConfidencesOf(m, scores)[k]
          && positions[k] == PositionsOf(m, scores)[k]
      {
        var c, confidence, choices := ReadPosition(m, scores[pos], pos);
        chars, charConfidences, positions := chars + [c], charConfidences + [confidence], positions + [choices];
      }
      assert chars == PlateOf(scores) && charConfidences == ConfidencesOf(m, scores)
        && positions == PositionsOf(m, scores);
      var product := 1.0;
      for i := 0 to |charConfidences|
        invariant product == Product(charConfidences[..i])
      {
        assert charConfidences[..i + 1][..i] == charConfidences[..i];
        product := Scale(product, charConfidences[i]);
      }
      assert charConfidences[..|charConfidences|] == charConfidences;
      r := Some(Reading(chars, product, charConfidences, positions, Agreeing(hits, chars), frames, Guesses(hits),
                        BestFrame(hits, chars)));
    }

    method Push(candidate: Option<Candidate>) returns (update: Update)
      requires Valid()
      modifies this
      ensures Valid() && (Value(), update) == Pushed(cfg, m, old(Value()), candidate)
    {
      if locked.Some? { return Locked(locked.value); }
      if !Readable(candidate) {
        var fused := ReadCurrent();
        return Scanning(fused);
      }
      Judge(candidate.value);
      Fuse(candidate.value);
      update := Decide();
    }

    method Fuse(f: Candidate)
      requires Valid() && |f.positions| == PLATE_LENGTH
      modifies this
      ensures Valid() && Value() == Added(cfg, m, old(Value()), f)
    {
      frames := frames + 1;
      var fusedScores := FuseAll(cfg, m, scores, f);
      RecordCounts(cfg, hits, f);
      scores, hits := fusedScores, Record(cfg, hits, f);
    }

    method Decide() returns (update: Update)
      requires Valid() && frames > 0
      modifies this
      ensures Valid() && (Value(), update) == Decided(cfg, m, old(Value()))
    {
      var next := ReadCurrent();
      if MayLock(cfg, hits, next.value) {
        locked := next;
        return Locked(next.value);
      }
      if !candidateEmitted && frames >= cfg.maxFramesBeforeCandidate {
        candidateEmitted := true;
        return Suggested(next.value);
      }
      return Scanning(next);
    }

    method Judge(f: Candidate)
      requires Valid()
      modifies this
      ensures Valid() && Value() == Judged(m, old(Value()), f)
    {
      var fused := ReadCurrent();
      var distance := 0.0;
      if fused.Some? { distance := PlateDistance(fused.value.plate, f.plate); }
      if fused.Some? && f.confidence > 0.8 && distance >= 2.5 {
        disagreeStreak := disagreeStreak + 1;
        if disagreeStreak >= 2 { Reset(); }
      } else {
        disagreeStreak := 0;
      }
    }
  }

  /** One position of `current`: the ranked head, its share of the total, and the best choices. */
  method ReadPosition(m: Analysis, e: Evidence, pos: nat) returns (c: char, confidence: real, choices: seq<Choice>)
    requires m.Valid()
    ensures c == TopCharacter(e) && confidence == TopConfidence(m, e, pos) && choices == ChoicesAt(m, e, pos)
  {
    var top := TopScore(e.entries);
    var total := 0.0;
    for i := 0 to |e.entries|
      invariant total == ListedShare(m, e.entries[..i], top)
    {
      assert e.entries[..i + 1][..i] == e.entries[..i];
      total := total + Share(m, e.entries[i].v, top);
    }
    assert e.entries[..|e.entries|] == e.entries;
    total := total + Scale(Share(m, e.unseen, top), Others(e.entries, pos) as real);
    if e.entries == [] { return '?', 0.0, []; }
    TotalAbove(m, e, pos);
    var ranked := Tally.Take(Tally.Rank(Scores(e)), Tally.TOP_CHOICES);
    choices := [];
    for i := 0 to |ranked|
      invariant |choices| == i && forall k :: 0 <= k < i ==> choices[k] == ChoicesAt(m, e, pos)[k]
    {
      choices := choices + [Tally.Choice(ranked[i].key, Tally.Round4(Share(m, ranked[i].weight, top) / total))];
    }
    Tally.RankHead(Scores(e));
    HeaviestIsTop(e);
    c, confidence := Tally.Rank(Scores(e))[0].key, Share(m, top, top) / total;
  }

  lemma {:induction false} HeaviestIsTop(e: Evidence)
    requires e.entries != []
    ensures Tally.Heaviest(Scores(e)) == Tally.Share(TopEntry(e.entries).c, TopScore(e.entries))
    decreases |e.entries|
  {
    if |e.entries| > 1 {
      var before := Evidence(e.entries[..|e.entries| - 1], e.unseen);
      HeaviestIsTop(before);
      assert Scores(e)[..|e.entries| - 1] == Scores(before);
    }
  }

  /** The positions of one frame, each fused in turn. */
  method FuseAll(cfg: Config, m: Analysis, scores: seq<Evidence>, f: Candidate) returns (r: seq<Evidence>)
    requires |scores| == |f.positions|
    ensures r == FusedScores(cfg, m, scores, f)
  {
    r := [];
    for pos := 0 to |scores|
      invariant |r| == pos && forall k :: 0 <= k < pos ==> r[k] == FusedScores(cfg, m, scores, f)[k]
    {
      var e := FusePosition(m, cfg.decay, scores[pos], f.positions[pos], pos, Weight(f));
      r := r + [e];
    }
  }

  // ---------------------------------------------------------------- every run

  datatype Event = Restart | Frame(candidate: Option<Candidate>)

  /** A state together with the frames fused and the candidates suggested since the last reset. */
  datatype Traced = Traced(state: State, fused: seq<Candidate>, suggested: nat)

  ghost function Step(cfg: Config, m: Analysis, t: Traced, event: Event): Traced
    requires m.Valid() && t.state.Valid()
    ensures Step(cfg, m, t, event).state.Valid()
  {
    match event
    case Restart => Traced(Fresh(), [], 0)
    case Frame(candidate) =>
      var (after, update) := Pushed(cfg, m, t.state, candidate);
      if t.state.locked.Some? || !Readable(candidate) then t.(state := after)
      else
        var f := candidate.value;
        var from := if Disagrees(m, t.state, f) && t.state.disagreeStreak >= 1 then Traced(Fresh(), [], 0) else t;
        Traced(after, from.fused + [f], from.suggested + if update.Suggested? then 1 else 0)
  }

  ghost function After(cfg: Config, m: Analysis, events: seq<Event>): Traced
    requires m.Valid()
    ensures After(cfg, m, events).state.Valid()
  {
    if events == [] then Traced(Fresh(), [], 0)
    else Step(cfg, m, After(cfg, m, events[..|events| - 1]), events[|events| - 1])
  }

  /** How many of the frames read the plate with at least the given confidence. */
  ghost function CountAbove(fused: seq<Candidate>, plate: string, bar: real): nat {
    if fused == [] then 0
    else
      var f := fused[|fused| - 1];
      CountAbove(fused[..|fused| - 1], plate, bar) + if f.plate == plate && f.confidence >= bar then 1 else 0
  }

  ghost function CountOf(fused: seq<Candidate>, plate: string): nat {
    if fused == [] then 0
    else CountOf(fused[..|fused| - 1], plate) + if fused[|fused| - 1].plate == plate then 1 else 0
  }

  /** Of the frames that read the plate, one of the highest confidence. */
  ghost predicate IsBestFrame(fused: seq<Candidate>, plate: string, best: Candidate) {
    && best in fused && best.plate == plate
    && forall i :: 0 <= i < |fused| && fused[i].plate == plate ==> fused[i].confidence <= best.confidence
  }

  ghost predicate DistinctHits(hits: seq<Hit>) {
    forall i, j :: 0 <= i < j < |hits| ==> hits[i].plate != hits[j].plate
  }

  /** The hit of a plate counts its frames and keeps the best; a plate without frames has no hit. */
  ghost predicate CountsFrames(cfg: Config, hits: seq<Hit>, fused: seq<Candidate>, plate: string) {
    match Find(hits, plate)
    case None => CountOf(fused, plate) == 0 && CountAbove(fused, plate, cfg.minFrameConfidence) == 0
                 && CountAbove(fused, plate, cfg.fastFrameConfidence) == 0
    case Some(hit) => hit.count == CountOf(fused, plate) > 0
                      && hit.strong == CountAbove(fused, plate, cfg.minFrameConfidence)
                      && hit.certain == CountAbove(fused, plate, cfg.fastFrameConfidence)
                      && IsBestFrame(fused, plate, hit.best)
  }

  ghost predicate AllWhole(fused: seq<Candidate>) {
    forall i :: 0 <= i < |fused| ==> |fused[i].positions| == PLATE_LENGTH
  }

  /** Every character's score, seen or not, is the one of the dense recurrence over the fused frames. */
  ghost predicate IsDense(cfg: Config, m: Analysis, e: Evidence, fused: seq<Candidate>, pos: nat)
    requires AllWhole(fused) && pos < PLATE_LENGTH
  {
    DistinctKeys(e.entries) && forall c :: FusionEvidence.Value(e, c) == Dense(m, cfg.decay, fused, pos, c)
  }

  ghost predicate LockIsEarned(cfg: Config, fused: seq<Candidate>, locked: Option<Reading>) {
    locked.Some? ==>
      && locked.value.confidence >= cfg.lockConfidence
      && (CountAbove(fused, locked.value.plate, cfg.minFrameConfidence) >= cfg.minAgreeingFrames
          || CountAbove(fused, locked.value.plate, cfg.fastFrameConfidence) >= cfg.fastFrames)
  }

  ghost predicate AllCounted(cfg: Config, hits: seq<Hit>, fused: seq<Candidate>) {
    DistinctHits(hits) && forall plate :: CountsFrames(cfg, hits, fused, plate)
  }

  /** What holds after any run. */
  ghost predicate Sound(cfg: Config, m: Analysis, t: Traced) {
    && t.state.Valid() && AllWhole(t.fused)
    && t.state.frames == |t.fused|
    && AllCounted(cfg, t.state.hits, t.fused)
    && (forall pos :: 0 <= pos < PLATE_LENGTH ==> IsDense(cfg, m, t.state.scores[pos], t.fused, pos))
    && LockIsEarned(cfg, t.fused, t.state.locked)
    && t.suggested == (if t.state.candidateEmitted then 1 else 0)
    && t.state.disagreeStreak <= 1
  }

  lemma {:induction false} RecordFinds(cfg: Config, hits: seq<Hit>, f: Candidate, plate: string)
    ensures Find(Record(cfg, hits, f), plate)
      == if plate != f.plate then Find(hits, plate)
         else if Find(hits, plate).Some? then Some(Bump(cfg, Find(hits, plate).value, f))
         else Some(Bump(cfg, NoHit(f), f))
  {
    if hits != [] && hits[0].plate != f.plate { RecordFinds(cfg, hits[1..], f, plate); }
  }

  lemma RecordCountsFrames(cfg: Config, hits: seq<Hit>, fused: seq<Candidate>, f: Candidate, plate: string)
    requires CountsFrames(cfg, hits, fused, plate)
    ensures CountsFrames(cfg, Record(cfg, hits, f), fused + [f], plate)
  {
    RecordFinds(cfg, hits, f, plate);
    assert (fused + [f])[..|fused|] == fused;
    match Find(hits, plate)
    case None => NoneRead(fused, plate);
    case Some(hit) => BetterFrame(fused, f, plate, hit.best);
  }

  lemma {:induction false} NoneRead(fused: seq<Candidate>, plate: string)
    requires CountOf(fused, plate) == 0
    ensures forall i :: 0 <= i < |fused| ==> fused[i].plate != plate
  {
    if fused != [] { NoneRead(fused[..|fused| - 1], plate); }
  }

  lemma BetterFrame(fused: seq<Candidate>, f: Candidate, plate: string, best: Candidate)
    requires IsBestFrame(fused, plate, best)
    ensures IsBestFrame(fused + [f], plate, if f.plate == plate && f.confidence > best.confidence then f else best)
  {
    assert (fused + [f])[|fused|] == f;
    assert best in fused + [f];
  }

  lemma {:induction false} RecordKeepsDistinct(cfg: Config, hits: seq<Hit>, f: Candidate)
    requires DistinctHits(hits)
    ensures DistinctHits(Record(cfg, hits, f))
    ensures forall i :: 0 <= i < |Record(cfg, hits, f)| ==>
      Record(cfg, hits, f)[i].plate == f.plate || (i < |hits| && Record(cfg, hits, f)[i].plate == hits[i].plate)
  {
    if hits != [] && hits[0].plate != f.plate {
      RecordKeepsDistinct(cfg, hits[1..], f);
      assert [hits[0]] + hits[1..] == hits;
    }
  }

  lemma FuseKeepsDense(cfg: Config, m: Analysis, e: Evidence, fused: seq<Candidate>, f: Candidate, pos: nat)
    requires pos < PLATE_LENGTH && |f.positions| == PLATE_LENGTH && AllWhole(fused) && IsDense(cfg, m, e, fused, pos)
    ensures AllWhole(fused + [f])
    ensures IsDense(cfg, m, Fused(m, cfg.decay, e, f.positions[pos], pos, Weight(f)), fused + [f], pos)
  {
    var r := Fused(m, cfg.decay, e, f.positions[pos], pos, Weight(f));
    assert (fused + [f])[..|fused|] == fused;
    FusedIsDense(m, cfg.decay, e, f.positions[pos], pos, Weight(f), 'x');
    forall c ensures FusionEvidence.Value(r, c) == Dense(m, cfg.decay, fused + [f], pos, c) {
      FusedIsDense(m, cfg.decay, e, f.positions[pos], pos, Weight(f), c);
    }
  }

  /** Fusing one frame keeps the counts and the scores exact. */
  lemma AddKeepsSound(cfg: Config, m: Analysis, t: Traced, f: Candidate)
    requires Sound(cfg, m, t) && t.state.locked.None? && |f.positions| == PLATE_LENGTH
    ensures Sound(cfg, m, t.(state := Added(cfg, m, t.state, f), fused := t.fused + [f]))
  {
    var after := Added(cfg, m, t.state, f);
    RecordKeepsDistinct(cfg, t.state.hits, f);
    forall plate ensures CountsFrames(cfg, after.hits, t.fused + [f], plate) {
      RecordCountsFrames(cfg, t.state.hits, t.fused, f, plate);
    }
    forall pos | 0 <= pos < PLATE_LENGTH
      ensures AllWhole(t.fused + [f]) && IsDense(cfg, m, after.scores[pos], t.fused + [f], pos)
    {
      FuseKeepsDense(cfg, m, t.state.scores[pos], t.fused, f, pos);
    }
  }

  lemma DecideKeepsSound(cfg: Config, m: Analysis, t: Traced)
    requires m.Valid() && Sound(cfg, m, t) && t.state.frames > 0 && t.state.locked.None?
    ensures var (after, update) := Decided(cfg, m, t.state);
      Sound(cfg, m, t.(state := after, suggested := t.suggested + if update.Suggested? then 1 else 0))
  {
    var next := Current(m, t.state).value;
    assert CountsFrames(cfg, t.state.hits, t.fused, next.plate);
  }

  lemma RebasedIsSound(cfg: Config, m: Analysis, t: Traced, f: Candidate)
    requires m.Valid() && Sound(cfg, m, t) && t.state.locked.None?
    ensures Sound(cfg, m, Rebased(m, t, f)) && Rebased(m, t, f).state.locked.None?
  {
  }

  /** The traced state a readable frame is added to. */
  ghost function Rebased(m: Analysis, t: Traced, f: Candidate): Traced
    requires m.Valid() && t.state.Valid()
    ensures Rebased(m, t, f).state.Valid()
  {
    if Disagrees(m, t.state, f) && t.state.disagreeStreak >= 1 then Traced(Fresh(), [], 0)
    else t.(state := Judged(m, t.state, f))
  }

  lemma StepIs(cfg: Config, m: Analysis, t: Traced, f: Candidate)
    requires m.Valid() && t.state.Valid() && t.state.locked.None? && Readable(Some(f))
    ensures var from := Rebased(m, t, f);
      var (after, update) := Decided(cfg, m, Added(cfg, m, from.state, f));
      Step(cfg, m, t, Frame(Some(f)))
      == Traced(after, from.fused + [f], from.suggested + if update.Suggested? then 1 else 0)
  {
    assert Rebased(m, t, f).state == Judged(m, t.state, f);
    assert Pushed(cfg, m, t.state, Some(f)) == Decided(cfg, m, Added(cfg, m, Judged(m, t.state, f), f));
  }

  lemma DecidedScores(cfg: Config, m: Analysis, s: State)
    requires m.Valid() && s.Valid() && s.frames > 0
    ensures Decided(cfg, m, s).0.scores == s.scores
  {
  }

  lemma StepKeepsSound(cfg: Config, m: Analysis, t: Traced, event: Event)
    requires m.Valid() && Sound(cfg, m, t)
    ensures Sound(cfg, m, Step(cfg, m, t, event))
  {
    if event.Frame? && t.state.locked.None? && Readable(event.candidate) {
      var f := event.candidate.value;
      var from := Rebased(m, t, f);
      RebasedIsSound(cfg, m, t, f);
      AddKeepsSound(cfg, m, from, f);
      DecideKeepsSound(cfg, m, from.(state := Added(cfg, m, from.state, f), fused := from.fused + [f]));
      StepIs(cfg, m, t, f);
    }
  }

  /** The run theorem: after every sequence of frames and resets the state is sound. */
  lemma {:induction false} RunIsSound(cfg: Config, m: Analysis, events: seq<Event>)
    requires m.Valid()
    ensures Sound(cfg, m, After(cfg, m, events))
  {
    if events != [] {
      RunIsSound(cfg, m, events[..|events| - 1]);
      StepKeepsSound(cfg, m, After(cfg, m, events[..|events| - 1]), events[|events| - 1]);
    }
  }

  ghost predicate NoRestart(events: seq<Event>) { forall i :: 0 <= i < |events| ==> events[i].Frame? }

  /** A lock absorbs every frame until the next reset. */
  lemma {:induction false} LockIsAbsorbing(cfg: Config, m: Analysis, before: seq<Event>, more: seq<Event>)
    requires m.Valid() && After(cfg, m, before).state.locked.Some? && NoRestart(more)
    ensures After(cfg, m, before + more) == After(cfg, m, before)
  {
    if more == [] {
      assert before + more == before;
    } else {
      assert (before + more)[..|before + more| - 1] == before + more[..|more| - 1];
      LockIsAbsorbing(cfg, m, before, more[..|more| - 1]);
    }
  }

  /** The second disagreeing frame in a row leaves what a fresh fusion fed only that frame would be. */
  lemma SecondDisagreementRestarts(cfg: Config, m: Analysis, s: State, first: Candidate, second: Candidate)
    requires m.Valid() && s.Valid() && s.locked.None? && s.disagreeStreak == 0
    requires Readable(Some(first)) && Readable(Some(second))
    ensures var (after, _) := Pushed(cfg, m, s, Some(first));
      Disagrees(m, s, first) && after.locked.None? && Disagrees(m, after, second) ==>
        Pushed(cfg, m, after, Some(second)) == Pushed(cfg, m, Fresh(), Some(second))
  {
    var after := Pushed(cfg, m, s, Some(first)).0;
    assert Disagrees(m, s, first) ==> after.disagreeStreak == 1;
    assert Judged(m, Fresh(), second) == Fresh();
  }

  lemma {:induction false} ProductInRange(s: seq<real>)
    requires forall i :: 0 <= i < |s| ==> 0.0 <= s[i] <= 1.0
    ensures 0.0 <= Product(s) <= 1.0
  {
    if s != [] {
      ProductInRange(s[..|s| - 1]);
      ScaleInRange(Product(s[..|s| - 1]), s[|s| - 1]);
    }
  }

  lemma ScaleInRange(a: real, b: real)
    requires 0.0 <= a <= 1.0 && 0.0 <= b <= 1.0
    ensures 0.0 <= Scale(a, b) <= 1.0
  {
    TimesNonNegative(a, b);
    TimesNonNegative(a, 1.0 - b);
    assert a * (1.0 - b) == a - a * b;
  }

  lemma TimesNonNegative(a: real, b: real)
    requires a >= 0.0 && b >= 0.0
    ensures a * b >= 0.0
  {
  }

  lemma TopConfidenceInRange(m: Analysis, e: Evidence, pos: nat)
    requires m.Valid()
    ensures 0.0 <= TopConfidence(m, e, pos) <= 1.0 && (TopConfidence(m, e, pos) == 0.0 <==> e.entries == [])
  {
    if e.entries != [] {
      TotalAbove(m, e, pos);
      Fraction(Share(m, 0.0, 0.0), Total(m, e, pos));
    }
  }

  lemma Fraction(part: real, whole: real)
    requires 0.0 < part <= whole
    ensures 0.0 < part / whole <= 1.0
  {
  }

  /** The fused plate has one character per position, a proposed one of the highest score, and a confidence in range. */
  lemma CurrentIsBest(cfg: Config, m: Analysis, events: seq<Event>, pos: nat, c: char)
    requires m.Valid() && pos < PLATE_LENGTH
    ensures var t := After(cfg, m, events);
      t.state.frames > 0 ==>
        var r := Current(m, t.state).value;
        && |r.plate| == PLATE_LENGTH && 0.0 <= r.confidence <= 1.0
        && AllWhole(t.fused)
        && (Has(t.state.scores[pos].entries, c) ==>
              Has(t.state.scores[pos].entries, r.plate[pos])
              && Dense(m, cfg.decay, t.fused, pos, c) <= Dense(m, cfg.decay, t.fused, pos, r.plate[pos]))
  {
    var t := After(cfg, m, events);
    RunIsSound(cfg, m, events);
    ConfidenceInRange(m, t.state.scores);
    assert IsDense(cfg, m, t.state.scores[pos], t.fused, pos);
    if Has(t.state.scores[pos].entries, c) { TopIsBest(t.state.scores[pos], c); }
  }

  lemma ConfidenceInRange(m: Analysis, scores: seq<Evidence>)
    requires m.Valid()
    ensures 0.0 <= Product(ConfidencesOf(m, scores)) <= 1.0
  {
    var confidences := ConfidencesOf(m, scores);
    forall i | 0 <= i < |confidences| ensures 0.0 <= confidences[i] <= 1.0 { TopConfidenceInRange(m, scores[i], i); }
    ProductInRange(confidences);
  }

  lemma TopIsBest(e: Evidence, c: char)
    requires DistinctKeys(e.entries) && Has(e.entries, c)
    ensures Has(e.entries, TopCharacter(e)) && FusionEvidence.Value(e, c) <= FusionEvidence.Value(e, TopCharacter(e))
  {
    var i :| 0 <= i < |e.entries| && e.entries[i].c == c;
    ValueAt(e, i);
    var j :| 0 <= j < |e.entries| && e.entries[j] == TopEntry(e.entries);
    ValueAt(e, j);
  }

  // ---------------------------------------------------------------- what a reading lists

  /** The choices are at most three proposed characters with their rounded probabilities, in the order of their scores,
      and no proposed character left out scores higher. */
  ghost predicate ListsBest(m: Analysis, e: Evidence, pos: nat, score: char -> real, choices: seq<Choice>)
    requires m.Valid() && e.entries != []
  {
    && |choices| <= 3
    && (forall i :: 0 <= i < |choices| ==>
          Has(e.entries, choices[i].c) && choices[i].p == Tally.Round4(PosteriorAt(m, e, pos, score(choices[i].c))))
    && (forall i, j :: 0 <= i < j < |choices| ==>
          choices[i].c != choices[j].c && score(choices[i].c) >= score(choices[j].c))
    && (forall c :: Has(e.entries, c) && (forall i :: 0 <= i < |choices| ==> choices[i].c != c) ==>
          |choices| == 3 && forall i :: 0 <= i < |choices| ==> score(choices[i].c) >= score(c))
  }

  ghost predicate Scored(e: Evidence, top: seq<Tally.Share<char>>) {
    forall i :: 0 <= i < |top| ==> Has(e.entries, top[i].key) && top[i].weight == FusionEvidence.Value(e, top[i].key)
  }

  lemma ScoresAre(e: Evidence)
    requires DistinctKeys(e.entries)
    ensures Tally.Distinct(Scores(e)) && Scored(e, Scores(e))
    ensures forall c :: Has(e.entries, c) ==> Tally.Share(c, FusionEvidence.Value(e, c)) in Scores(e)
  {
    forall i | 0 <= i < |e.entries|
      ensures Has(e.entries, Scores(e)[i].key) && Scores(e)[i].weight == FusionEvidence.Value(e, Scores(e)[i].key)
    {
      ValueAt(e, i);
    }
    forall c | Has(e.entries, c) ensures Tally.Share(c, FusionEvidence.Value(e, c)) in Scores(e) {
      var i :| 0 <= i < |e.entries| && e.entries[i].c == c;
      ValueAt(e, i);
      assert Scores(e)[i] == Tally.Share(c, FusionEvidence.Value(e, c));
    }
  }

  lemma TopIsScored(e: Evidence, top: seq<Tally.Share<char>>)
    requires DistinctKeys(e.entries) && forall i :: 0 <= i < |top| ==> top[i] in Scores(e)
    ensures Scored(e, top)
  {
    ScoresAre(e);
  }

  ghost function ValueIn(e: Evidence): char -> real { c => FusionEvidence.Value(e, c) }

  ghost function DenseAt(cfg: Config, m: Analysis, fused: seq<Candidate>, pos: nat): char -> real
    requires AllWhole(fused) && pos < PLATE_LENGTH
  {
    c => Dense(m, cfg.decay, fused, pos, c)
  }

  lemma ChoicesList(m: Analysis, e: Evidence, pos: nat)
    requires m.Valid() && e.entries != [] && DistinctKeys(e.entries)
    ensures ListsBest(m, e, pos, ValueIn(e), ChoicesAt(m, e, pos))
  {
    var top := Tally.Take(Tally.Rank(Scores(e)), Tally.TOP_CHOICES);
    ScoresAre(e);
    Tally.TakeIsTop(Scores(e), Tally.TOP_CHOICES);
    TopIsScored(e, top);
    TopListsBest(m, e, pos, top, ChoicesAt(m, e, pos));
  }

  lemma TopListsBest(m: Analysis, e: Evidence, pos: nat, top: seq<Tally.Share<char>>, choices: seq<Choice>)
    requires m.Valid() && e.entries != [] && DistinctKeys(e.entries)
    requires Tally.AreTop(Scores(e), Tally.TOP_CHOICES, top) && Scored(e, top) && |choices| == |top|
    requires forall i :: 0 <= i < |top| ==>
      choices[i] == Tally.Choice(top[i].key, Tally.Round4(PosteriorAt(m, e, pos, top[i].weight)))
    ensures ListsBest(m, e, pos, ValueIn(e), choices)
  {
    ScoresAre(e);
    forall c | Has(e.entries, c) && (forall i :: 0 <= i < |choices| ==> choices[i].c != c)
      ensures |choices| == Tally.TOP_CHOICES && forall i :: 0 <= i < |choices| ==>
        ValueIn(e)(choices[i].c) >= ValueIn(e)(c)
    {
      forall i | 0 <= i < |top| ensures top[i].key != c { assert choices[i].c == top[i].key; }
      LeftOut(Scores(e), Tally.TOP_CHOICES, top, Tally.Share(c, FusionEvidence.Value(e, c)));
      forall i | 0 <= i < |choices| ensures ValueIn(e)(choices[i].c) >= ValueIn(e)(c) {
        assert choices[i].c == top[i].key && top[i].weight == FusionEvidence.Value(e, top[i].key);
      }
    }
  }

  /** What is left out of the top weighs no more than any of it. */
  lemma LeftOut<K(!new)>(pool: seq<Tally.Share<K>>, n: nat, top: seq<Tally.Share<K>>, s: Tally.Share<K>)
    requires Tally.AreTop(pool, n, top) && s in pool && forall i :: 0 <= i < |top| ==> top[i].key != s.key
    ensures |top| == n && Tally.AllAbove(top, s.weight)
  {
  }

  lemma SameScores(m: Analysis, e: Evidence, pos: nat, f: char -> real, g: char -> real, choices: seq<Choice>)
    requires m.Valid() && e.entries != [] && ListsBest(m, e, pos, f, choices) && forall c :: f(c) == g(c)
    ensures ListsBest(m, e, pos, g, choices)
  {
  }

  /** Each position lists the best characters under the dense scores of the fused frames, the plate's own first. */
  lemma ChoicesAreBest(cfg: Config, m: Analysis, events: seq<Event>, pos: nat)
    requires m.Valid() && pos < PLATE_LENGTH
    ensures var t := After(cfg, m, events);
      t.state.frames > 0 ==>
        var e, r := t.state.scores[pos], Current(m, t.state).value;
        if e.entries == [] then r.positions[pos] == [] && r.plate[pos] == '?'
        else
          AllWhole(t.fused) && ListsBest(m, e, pos, DenseAt(cfg, m, t.fused, pos), r.positions[pos])
          && r.positions[pos] != [] && r.positions[pos][0].c == r.plate[pos]
  {
    var t := After(cfg, m, events);
    RunIsSound(cfg, m, events);
    if t.state.scores[pos].entries != [] {
      DenseChoices(cfg, m, t.state.scores[pos], t.fused, pos);
      FirstChoice(m, t.state.scores[pos], pos);
    }
  }

  lemma DenseChoices(cfg: Config, m: Analysis, e: Evidence, fused: seq<Candidate>, pos: nat)
    requires m.Valid() && AllWhole(fused) && pos < PLATE_LENGTH && IsDense(cfg, m, e, fused, pos) && e.entries != []
    ensures ListsBest(m, e, pos, DenseAt(cfg, m, fused, pos), ChoicesAt(m, e, pos))
  {
    ChoicesList(m, e, pos);
    SameScores(m, e, pos, ValueIn(e), DenseAt(cfg, m, fused, pos), ChoicesAt(m, e, pos));
  }

  lemma FirstChoice(m: Analysis, e: Evidence, pos: nat)
    requires m.Valid() && e.entries != []
    ensures ChoicesAt(m, e, pos) != [] && ChoicesAt(m, e, pos)[0].c == TopCharacter(e)
  {
    Tally.RankHead(Scores(e));
    HeaviestIsTop(e);
  }

  /** The plates listed are those read most often since the last reset, with their rounded shares of the frames. */
  ghost predicate ListsMostRead(fused: seq<Candidate>, guesses: seq<Guess>) {
    && |guesses| <= 5
    && (forall i :: 0 <= i < |guesses| ==>
          CountOf(fused, guesses[i].key) > 0
          && guesses[i].weight == Tally.Round4(CountOf(fused, guesses[i].key) as real / |fused| as real))
    && (forall i, j :: 0 <= i < j < |guesses| ==>
          guesses[i].key != guesses[j].key && CountOf(fused, guesses[i].key) >= CountOf(fused, guesses[j].key))
    && (forall plate :: CountOf(fused, plate) > 0 && (forall i :: 0 <= i < |guesses| ==> guesses[i].key != plate) ==>
          |guesses| == 5
          && forall i :: 0 <= i < |guesses| ==> CountOf(fused, guesses[i].key) >= CountOf(fused, plate))
  }

  lemma {:induction false} FindAt(hits: seq<Hit>, i: nat)
    requires DistinctHits(hits) && i < |hits|
    ensures Find(hits, hits[i].plate) == Some(hits[i])
  {
    if i > 0 { FindAt(hits[1..], i - 1); }
  }

  lemma {:induction false} FoundIsHit(hits: seq<Hit>, plate: string)
    requires Find(hits, plate).Some?
    ensures Find(hits, plate).value in hits && Find(hits, plate).value.plate == plate
  {
    if hits[0].plate != plate { FoundIsHit(hits[1..], plate); }
  }

  ghost predicate Counted(fused: seq<Candidate>, shares: seq<Guess>) {
    forall i :: 0 <= i < |shares| ==> shares[i].weight == CountOf(fused, shares[i].key) as real > 0.0
  }

  lemma HitsAre(cfg: Config, hits: seq<Hit>, fused: seq<Candidate>)
    requires AllCounted(cfg, hits, fused)
    ensures Tally.Distinct(HitShares(hits)) && Counted(fused, HitShares(hits))
  {
    forall i | 0 <= i < |hits| ensures hits[i].count == CountOf(fused, hits[i].plate) > 0 {
      FindAt(hits, i);
      assert CountsFrames(cfg, hits, fused, hits[i].plate);
    }
  }

  lemma ReadIsHit(cfg: Config, hits: seq<Hit>, fused: seq<Candidate>, plate: string)
    requires AllCounted(cfg, hits, fused) && CountOf(fused, plate) > 0
    ensures Tally.Share(plate, CountOf(fused, plate) as real) in HitShares(hits)
  {
    assert CountsFrames(cfg, hits, fused, plate);
    FoundIsHit(hits, plate);
    var i :| 0 <= i < |hits| && hits[i] == Find(hits, plate).value;
    assert HitShares(hits)[i] == Tally.Share(plate, CountOf(fused, plate) as real);
  }

  lemma GuessesList(cfg: Config, hits: seq<Hit>, fused: seq<Candidate>)
    requires AllCounted(cfg, hits, fused) && SumCounts(hits) == |fused| > 0
    ensures ListsMostRead(fused, Guesses(hits))
  {
    var pool, guesses := HitShares(hits), Guesses(hits);
    var top := Tally.Take(Tally.Rank(pool), MAX_ALTERNATIVES);
    HitsAre(cfg, hits, fused);
    Tally.TakeIsTop(pool, MAX_ALTERNATIVES);
    TopIsCounted(fused, pool, top);
    CountedList(cfg, hits, fused, top, guesses);
  }

  lemma CountedList(cfg: Config, hits: seq<Hit>, fused: seq<Candidate>, top: seq<Guess>, guesses: seq<Guess>)
    requires AllCounted(cfg, hits, fused) && fused != [] && Counted(fused, top)
    requires Tally.AreTop(HitShares(hits), MAX_ALTERNATIVES, top) && |guesses| == |top|
    requires forall i :: 0 <= i < |top| ==>
      guesses[i] == Tally.Share(top[i].key, Tally.Round4(top[i].weight / |fused| as real))
    ensures ListsMostRead(fused, guesses)
  {
    forall plate | CountOf(fused, plate) > 0 && (forall i :: 0 <= i < |guesses| ==> guesses[i].key != plate)
      ensures |guesses| == MAX_ALTERNATIVES
        && forall i :: 0 <= i < |guesses| ==> CountOf(fused, guesses[i].key) >= CountOf(fused, plate)
    {
      ReadIsHit(cfg, hits, fused, plate);
      forall i | 0 <= i < |top| ensures top[i].key != plate { assert guesses[i].key == top[i].key; }
      LeftOut(HitShares(hits), MAX_ALTERNATIVES, top, Tally.Share(plate, CountOf(fused, plate) as real));
    }
  }

  lemma TopIsCounted(fused: seq<Candidate>, pool: seq<Guess>, top: seq<Guess>)
    requires Counted(fused, pool) && forall i :: 0 <= i < |top| ==> top[i] in pool
    ensures Counted(fused, top)
  {
  }

  /** The alternatives are the plates read most often, and a plate rests on the best of the frames that read it. */
  lemma AlternativesAreMostRead(cfg: Config, m: Analysis, events: seq<Event>)
    requires m.Valid()
    ensures var t := After(cfg, m, events);
      t.state.frames > 0 ==>
        var r := Current(m, t.state).value;
        && ListsMostRead(t.fused, r.alternatives)
        && r.agreeing == CountOf(t.fused, r.plate)
        && (r.agreeing > 0 ==> IsBestFrame(t.fused, r.plate, r.best))
  {
    var t := After(cfg, m, events);
    RunIsSound(cfg, m, events);
    if t.state.frames > 0 {
      GuessesList(cfg, t.state.hits, t.fused);
      assert CountsFrames(cfg, t.state.hits, t.fused, Current(m, t.state).value.plate);
    }
  }

  lemma {:induction false} MostSeenIsHit(hits: seq<Hit>)
    requires hits != []
    ensures MostSeen(hits) in hits
  {
    if |hits| > 1 { MostSeenIsHit(hits[1..]); }
  }

  /** Whatever the plate, the reading rests on a frame fused since the last reset, and shows that frame's colour. */
  lemma RestsOnFrame(cfg: Config, m: Analysis, events: seq<Event>)
    requires m.Valid()
    ensures var t := After(cfg, m, events);
      t.state.frames > 0 ==>
        var r := Current(m, t.state).value;
        r.best in t.fused && exists i :: 0 <= i < |t.fused| && t.fused[i].color == r.Color()
  {
    var t := After(cfg, m, events);
    if t.state.frames > 0 {
      RunIsSound(cfg, m, events);
      BestIsFused(cfg, t.state.hits, t.fused, PlateOf(t.state.scores));
      var i :| 0 <= i < |t.fused| && t.fused[i] == Current(m, t.state).value.best;
    }
  }

  lemma BestIsFused(cfg: Config, hits: seq<Hit>, fused: seq<Candidate>, plate: string)
    requires AllCounted(cfg, hits, fused) && hits != []
    ensures BestFrame(hits, plate) in fused
  {
    assert CountsFrames(cfg, hits, fused, plate);
    if Find(hits, plate).None? {
      MostSeenIsHit(hits);
      var k :| 0 <= k < |hits| && hits[k] == MostSeen(hits);
      FindAt(hits, k);
      assert CountsFrames(cfg, hits, fused, hits[k].plate);
    }
  }

  /** A fused plate that is complete has the type its letter says. */
  lemma TypeOfWholePlate(r: Reading)
    requires IsStandard(r.plate)
    ensures r.PlateType() == LetterType(r.plate[LETTER_POSITION])
  {
    StandardIsFixed(r.plate);
  }

  // ---------------------------------------------------------------- which characters the map lists

  ghost predicate ProposedBy(fused: seq<Candidate>, pos: nat, c: char)
    requires AllWhole(fused) && pos < PLATE_LENGTH
  {
    exists i :: 0 <= i < |fused| && Proposed(fused[i].positions[pos], c).Some?
  }

  /** A position's map lists exactly the characters proposed there. */
  ghost predicate KeysProposed(t: Traced, pos: nat)
    requires t.state.Valid() && AllWhole(t.fused) && pos < PLATE_LENGTH
  {
    forall c :: Has(t.state.scores[pos].entries, c) <==> ProposedBy(t.fused, pos, c)
  }

  lemma ProposedSnoc(fused: seq<Candidate>, f: Candidate, pos: nat, c: char)
    requires AllWhole(fused) && |f.positions| == PLATE_LENGTH && pos < PLATE_LENGTH
    ensures AllWhole(fused + [f])
    ensures ProposedBy(fused + [f], pos, c) <==> ProposedBy(fused, pos, c) || Proposed(f.positions[pos], c).Some?
  {
    if ProposedBy(fused, pos, c) {
      var i :| 0 <= i < |fused| && Proposed(fused[i].positions[pos], c).Some?;
      assert (fused + [f])[i] == fused[i];
    }
    if Proposed(f.positions[pos], c).Some? { assert (fused + [f])[|fused|] == f; }
  }

  lemma AddKeepsKeys(cfg: Config, m: Analysis, t: Traced, f: Candidate, pos: nat)
    requires t.state.Valid() && AllWhole(t.fused) && |f.positions| == PLATE_LENGTH && pos < PLATE_LENGTH
    requires DistinctKeys(t.state.scores[pos].entries) && KeysProposed(t, pos)
    ensures AllWhole(t.fused + [f])
    ensures KeysProposed(t.(state := Added(cfg, m, t.state, f), fused := t.fused + [f]), pos)
  {
    var e := t.state.scores[pos];
    forall c ensures Has(Added(cfg, m, t.state, f).scores[pos].entries, c) <==> ProposedBy(t.fused + [f], pos, c) {
      FusedKeys(m, cfg.decay, e, f.positions[pos], pos, Weight(f), c);
      ProposedSnoc(t.fused, f, pos, c);
    }
  }

  lemma StepKeepsKeys(cfg: Config, m: Analysis, t: Traced, event: Event, pos: nat)
    requires m.Valid() && t.state.Valid() && AllWhole(t.fused) && pos < PLATE_LENGTH && KeysProposed(t, pos)
    requires DistinctKeys(t.state.scores[pos].entries)
    ensures var after := Step(cfg, m, t, event); AllWhole(after.fused) && KeysProposed(after, pos)
  {
    if event.Frame? && t.state.locked.None? && Readable(event.candidate) {
      var f := event.candidate.value;
      var from := Rebased(m, t, f);
      AddKeepsKeys(cfg, m, from, f, pos);
      DecidedScores(cfg, m, Added(cfg, m, from.state, f));
      StepIs(cfg, m, t, f);
    }
  }

  /** After every run a position's map lists exactly the characters that frames since the last reset proposed there. */
  lemma {:induction false} RunListsProposed(cfg: Config, m: Analysis, events: seq<Event>, pos: nat)
    requires m.Valid() && pos < PLATE_LENGTH
    ensures var t := After(cfg, m, events); AllWhole(t.fused) && KeysProposed(t, pos)
  {
    if events != [] {
      RunListsProposed(cfg, m, events[..|events| - 1], pos);
      var before := After(cfg, m, events[..|events| - 1]);
      assert DistinctKeys(before.state.scores[pos].entries) by {
        RunIsSound(cfg, m, events[..|events| - 1]);
        assert IsDense(cfg, m, before.state.scores[pos], before.fused, pos);
      }
      StepKeepsKeys(cfg, m, before, events[|events| - 1], pos);
    }
  }

  /** Only letters were proposed for the letter. */
  ghost predicate LettersProposed(fused: seq<Candidate>)
    requires AllWhole(fused)
  {
    forall c :: ProposedBy(fused, LETTER_POSITION, c) ==> c in LETTERS
  }

  /** The total the letter's probabilities are divided by, and what all 25 letters together weigh. */
  ghost predicate LetterIsShort(m: Analysis, t: Traced)
    requires t.state.Valid()
  {
    var e := t.state.scores[LETTER_POSITION];
    Total(m, e, LETTER_POSITION) < SumOver(LETTERS, ShareOf(m, e, TopScore(e.entries)))
  }

  /** After every run whose frames propose letters, the letter's distribution misses mass exactly if some letter of the
      grammar was not proposed since the last reset. */
  lemma LetterIsShortIff(cfg: Config, m: Analysis, events: seq<Event>)
    requires m.Valid() && AllWhole(After(cfg, m, events).fused) && LettersProposed(After(cfg, m, events).fused)
    ensures var t := After(cfg, m, events);
      LetterIsShort(m, t) <==> exists c :: c in LETTERS && !ProposedBy(t.fused, LETTER_POSITION, c)
  {
    var t := After(cfg, m, events);
    var e := t.state.scores[LETTER_POSITION];
    RunListsProposed(cfg, m, events, LETTER_POSITION);
    assert DistinctKeys(e.entries) by {
      RunIsSound(cfg, m, events);
      assert IsDense(cfg, m, e, t.fused, LETTER_POSITION);
    }
    forall i | 0 <= i < |e.entries| ensures e.entries[i].c in LETTERS { assert Has(e.entries, e.entries[i].c); }
    LettersAreTheGrammar();
    TotalAtMost(m, e, LETTER_POSITION, LETTERS);
    LetterTotalFallsShort(m, e);
    AllListedIff(e.entries, LETTERS);
  }

  /** The characters listed for a position, frame after frame. */
  ghost function ListedAt(fused: seq<Candidate>, pos: nat): string
    requires AllWhole(fused) && pos < PLATE_LENGTH
  {
    if fused == [] then []
    else ListedAt(fused[..|fused| - 1], pos) + CharactersOf(fused[|fused| - 1].positions[pos])
  }

  function CharactersOf(choices: seq<Choice>): string {
    seq(|choices|, i requires 0 <= i < |choices| => choices[i].c)
  }

  lemma {:induction false} ProposedIsListed(choices: seq<Choice>, c: char)
    ensures Proposed(choices, c).Some? <==> c in CharactersOf(choices)
  {
    if choices != [] {
      ProposedIsListed(choices[..|choices| - 1], c);
      assert CharactersOf(choices) == CharactersOf(choices[..|choices| - 1]) + [choices[|choices| - 1].c];
    }
  }

  lemma {:induction false} ProposedInList(fused: seq<Candidate>, pos: nat, c: char)
    requires AllWhole(fused) && pos < PLATE_LENGTH && ProposedBy(fused, pos, c)
    ensures c in ListedAt(fused, pos)
  {
    var init, last := fused[..|fused| - 1], fused[|fused| - 1];
    assert fused == init + [last];
    ProposedSnoc(init, last, pos, c);
    if ProposedBy(init, pos, c) { ProposedInList(init, pos, c); } else { ProposedIsListed(last.positions[pos], c); }
  }

  /** So it does after every run whose frames list fewer than 25 characters for the letter together, as eight frames of
      three do. */
  lemma FewFramesFallShort(cfg: Config, m: Analysis, events: seq<Event>)
    requires m.Valid() && AllWhole(After(cfg, m, events).fused) && LettersProposed(After(cfg, m, events).fused)
    requires |ListedAt(After(cfg, m, events).fused, LETTER_POSITION)| < 25
    ensures LetterIsShort(m, After(cfg, m, events))
  {
    var fused := After(cfg, m, events).fused;
    assert Distinct(LETTERS) && |LETTERS| == 25 by { LettersDiffer(); }
    FewListedMissOne(fused, LETTER_POSITION, LETTERS);
    LetterIsShortIff(cfg, m, events);
  }

  lemma FewListedMissOne(fused: seq<Candidate>, pos: nat, alphabet: string)
    requires AllWhole(fused) && pos < PLATE_LENGTH && Distinct(alphabet) && |ListedAt(fused, pos)| < |alphabet|
    ensures exists c :: c in alphabet && !ProposedBy(fused, pos, c)
  {
    if forall c :: c in alphabet ==> ProposedBy(fused, pos, c) {
      forall i | 0 <= i < |alphabet| ensures alphabet[i] in ListedAt(fused, pos) {
        ProposedInList(fused, pos, alphabet[i]);
      }
      NoMore(alphabet, ListedAt(fused, pos));
    }
  }

  /** A first frame always leaves it short when it lists fewer than 25 letters there. */
  lemma FirstFrameFallsShort(cfg: Config, m: Analysis, f: Candidate)
    requires m.Valid() && Readable(Some(f)) && |f.positions[LETTER_POSITION]| < 25
    requires forall i :: 0 <= i < |f.positions[LETTER_POSITION]| ==> f.positions[LETTER_POSITION][i].c in LETTERS
    ensures After(cfg, m, [Frame(Some(f))]).fused == [f] && LetterIsShort(m, After(cfg, m, [Frame(Some(f))]))
  {
    var events := [Frame(Some(f))];
    var choices := f.positions[LETTER_POSITION];
    assert events[..0] == [] && After(cfg, m, []) == Traced(Fresh(), [], 0);
    StepIs(cfg, m, Traced(Fresh(), [], 0), f);
    assert [f][..0] == [] && ListedAt([f], LETTER_POSITION) == CharactersOf(choices);
    forall c | ProposedBy([f], LETTER_POSITION, c) ensures c in LETTERS { ProposedIsListed(choices, c); }
    FewFramesFallShort(cfg, m, events);
  }
}
