/**
 * Temporal fusion of plate reads, one position at a time: the sparse decayed score map with one
 * shared score for every character never proposed, proved to be a dense table of scores, and the
 * normalised distribution read off it.  `log` and `exp` are parameters.
 */
module FusionEvidence {
  import opened Options
  import opened PlateGrammar
  import Tally

  type Choice = Tally.Choice

  datatype Candidate = Candidate(
    plate: string, valid: bool, confidence: real, positions: seq<seq<Choice>>,
      plateType: Option<PlateType>, color: string)

  const MIN_P: real := 0.001

  function AlphabetSize(pos: nat): nat { if pos == LETTER_POSITION then 22 else 10 }

  function Scale(v: real, factor: real): real { v * factor }

  function MaxReal(a: real, b: real): real { if a >= b then a else b }

  /** The two transcendental functions, with the only facts used about them. */
  datatype Analysis = Analysis(log: real -> real, exp: real -> real) {
    ghost predicate Valid() { forall x :: exp(x) > 0.0 }
  }

  // ---------------------------------------------------------------- evidence at one position

  /** A `Map` from characters to scores, in insertion order. */
  datatype Entry = Entry(c: char, v: real)

  datatype Evidence = Evidence(entries: seq<Entry>, unseen: real)

  const NO_EVIDENCE := Evidence([], 0.0)

  predicate Has(entries: seq<Entry>, c: char) {
    exists i :: 0 <= i < |entries| && entries[i].c == c
  }

  ghost predicate DistinctKeys(entries: seq<Entry>) {
    forall i, j :: 0 <= i < j < |entries| ==> entries[i].c != entries[j].c
  }

  /** The score of a character: its entry, or the shared score of the characters never proposed. */
  ghost function Value(e: Evidence, c: char): real {
    if exists i :: 0 <= i < |e.entries| && e.entries[i].c == c
    then var i :| 0 <= i < |e.entries| && e.entries[i].c == c; e.entries[i].v
    else e.unseen
  }

  function Listed(choices: seq<Choice>): real {
    if choices == [] then 0.0 else Listed(choices[..|choices| - 1]) + choices[|choices| - 1].p
  }

  /** The probability proposed for a character: the last one listed wins. */
  function Proposed(choices: seq<Choice>, c: char): Option<real> {
    if choices == [] then None
    else if choices[|choices| - 1].c == c then Some(choices[|choices| - 1].p)
    else Proposed(choices[..|choices| - 1], c)
  }

  function FloorLog(m: Analysis, choices: seq<Choice>, pos: nat): real {
    m.log(MaxReal(MIN_P, (1.0 - Listed(choices)) / AlphabetSize(pos) as real))
  }

  /** The log-likelihood a frame gives to a character. */
  function Term(m: Analysis, choices: seq<Choice>, pos: nat, c: char): real {
    match Proposed(choices, c)
    case Some(p) => m.log(MaxReal(MIN_P, p))
    case None => FloorLog(m, choices, pos)
  }

  function Decayed(entries: seq<Entry>, decay: real): seq<Entry> {
    seq(|entries|, i requires 0 <= i < |entries| => Entry(entries[i].c, Scale(entries[i].v, decay)))
  }

  function AddMissing(entries: seq<Entry>, choices: seq<Choice>, v: real): seq<Entry> {
    if choices == [] then entries
    else
      var rest, c := AddMissing(entries, choices[..|choices| - 1], v), choices[|choices| - 1].c;
      if Has(rest, c) then rest else rest + [Entry(c, v)]
  }

  function Credited(m: Analysis, entries: seq<Entry>, choices: seq<Choice>, pos: nat, weight: real): seq<Entry> {
    seq(|entries|, i requires 0 <= i < |entries| =>
      Entry(entries[i].c, entries[i].v + Scale(Term(m, choices, pos, entries[i].c), weight)))
  }

  function Weight(candidate: Candidate): real { MaxReal(0.05, candidate.confidence) }

  /** One position after one frame. */
  function Fused(m: Analysis, decay: real, e: Evidence, choices: seq<Choice>, pos: nat, weight: real): Evidence {
    var unseen := Scale(e.unseen, decay);
    Evidence(Credited(m, AddMissing(Decayed(e.entries, decay), choices, unseen), choices, pos, weight),
             unseen + Scale(FloorLog(m, choices, pos), weight))
  }

  /** The loops over one position's map. */
  method FusePosition(m: Analysis, decay: real, e: Evidence, choices: seq<Choice>, pos: nat, weight: real)
    returns (r: Evidence)
    ensures r == Fused(m, decay, e, choices, pos, weight)
  {
    var entries: seq<Entry> := [];
    for i := 0 to |e.entries|
      invariant |entries| == i && forall k :: 0 <= k < i ==> entries[k] == Decayed(e.entries, decay)[k]
    {
      entries := entries + [Entry(e.entries[i].c, Scale(e.entries[i].v, decay))];
    }
    assert entries == Decayed(e.entries, decay);
    var unseen := Scale(e.unseen, decay);
    var listed := 0.0;
    for i := 0 to |choices|
      invariant listed == Listed(choices[..i])
    {
      assert choices[..i + 1][..i] == choices[..i];
      listed := listed + choices[i].p;
    }
    assert choices[..|choices|] == choices;
    var floorLog := m.log(MaxReal(MIN_P, (1.0 - listed) / AlphabetSize(pos) as real));
    for i := 0 to |choices|
      invariant entries == AddMissing(Decayed(e.entries, decay), choices[..i], unseen)
    {
      assert choices[..i + 1][..i] == choices[..i];
      if !Has(entries, choices[i].c) { entries := entries + [Entry(choices[i].c, unseen)]; }
    }
    var credited: seq<Entry> := [];
    for i := 0 to |entries|
      invariant |credited| == i && forall k :: 0 <= k < i ==>
        credited[k] == Credited(m, entries, choices, pos, weight)[k]
    {
      var logP := match Proposed(choices, entries[i].c) case Some(p) => m.log(MaxReal(MIN_P, p)) case None => floorLog;
      credited := credited + [Entry(entries[i].c, entries[i].v + Scale(logP, weight))];
    }
    assert credited == Credited(m, entries, choices, pos, weight);
    r := Evidence(credited, unseen + Scale(floorLog, weight));
    FusedParts(m, decay, e, choices, pos, weight);
  }

  lemma FusedParts(m: Analysis, decay: real, e: Evidence, choices: seq<Choice>, pos: nat, weight: real)
    ensures Fused(m, decay, e, choices, pos, weight).unseen
      == Scale(e.unseen, decay) + Scale(FloorLog(m, choices, pos), weight)
    ensures Fused(m, decay, e, choices, pos, weight).entries
      == Credited(m, AddMissing(Decayed(e.entries, decay), choices, Scale(e.unseen, decay)), choices, pos, weight)
  {
  }

  // ---------------------------------------------------------------- sparse equals dense

  /** The dense recurrence: every character keeps its own decayed score. */
  ghost function Dense(m: Analysis, decay: real, history: seq<Candidate>, pos: nat, c: char): real
    requires forall i :: 0 <= i < |history| ==> pos < |history[i].positions|
  {
    if history == [] then 0.0
    else
      var f := history[|history| - 1];
      Scale(Dense(m, decay, history[..|history| - 1], pos, c), decay)
        + Scale(Term(m, f.positions[pos], pos, c), Weight(f))
  }

  lemma ValueAt(e: Evidence, i: nat)
    requires DistinctKeys(e.entries) && i < |e.entries|
    ensures Value(e, e.entries[i].c) == e.entries[i].v
  {
  }

  /** Adding the missing characters at the shared score changes no character's score. */
  lemma {:induction false} AddMissingKeeps(entries: seq<Entry>, choices: seq<Choice>, v: real, c: char)
    requires DistinctKeys(entries)
    ensures var r := AddMissing(entries, choices, v);
      DistinctKeys(r) && Value(Evidence(r, v), c) == Value(Evidence(entries, v), c)
      && (Has(r, c) <==> Has(entries, c) || Proposed(choices, c).Some?)
  {
    if choices != [] {
      var init, last := choices[..|choices| - 1], choices[|choices| - 1].c;
      var rest := AddMissing(entries, init, v);
      AddMissingKeeps(entries, init, v, c);
      AddMissingKeeps(entries, init, v, last);
      if !Has(rest, last) { AppendKey(rest, last, v, c); }
    }
  }

  lemma AppendKey(entries: seq<Entry>, last: char, v: real, c: char)
    requires DistinctKeys(entries) && !Has(entries, last)
    ensures var r := entries + [Entry(last, v)];
      DistinctKeys(r) && Value(Evidence(r, v), c) == Value(Evidence(entries, v), c)
        && (Has(r, c) <==> Has(entries, c) || c == last)
  {
    var r := entries + [Entry(last, v)];
    if Has(entries, c) {
      var i :| 0 <= i < |entries| && entries[i].c == c;
      assert r[i] == entries[i];
      ValueAt(Evidence(r, v), i);
      ValueAt(Evidence(entries, v), i);
    } else if c == last {
      assert r[|entries|].c == c;
      ValueAt(Evidence(r, v), |entries|);
    }
  }

  /** One frame moves the score of every character, seen or not, by the dense recurrence. */
  lemma FusedIsDense(m: Analysis, decay: real, e: Evidence, choices: seq<Choice>, pos: nat, weight: real, c: char)
    requires DistinctKeys(e.entries)
    ensures var r := Fused(m, decay, e, choices, pos, weight);
      DistinctKeys(r.entries) && Value(r, c) == Scale(Value(e, c), decay) + Scale(Term(m, choices, pos, c), weight)
  {
    var unseen, decayed := Scale(e.unseen, decay), Decayed(e.entries, decay);
    var added := AddMissing(decayed, choices, unseen);
    DecayedValue(e, decay, c);
    AddMissingKeeps(decayed, choices, unseen, c);
    CreditedValue(m, Evidence(added, unseen), choices, pos, weight, c);
    FusedParts(m, decay, e, choices, pos, weight);
  }

  lemma DecayedValue(e: Evidence, decay: real, c: char)
    requires DistinctKeys(e.entries)
    ensures DistinctKeys(Decayed(e.entries, decay))
    ensures Value(Evidence(Decayed(e.entries, decay), Scale(e.unseen, decay)), c) == Scale(Value(e, c), decay)
  {
    var r := Evidence(Decayed(e.entries, decay), Scale(e.unseen, decay));
    if Has(e.entries, c) {
      var i :| 0 <= i < |e.entries| && e.entries[i].c == c;
      assert r.entries[i].c == c;
      ValueAt(r, i);
      ValueAt(e, i);
    }
  }

  lemma CreditedValue(m: Analysis, e: Evidence, choices: seq<Choice>, pos: nat, weight: real, c: char)
    requires DistinctKeys(e.entries) && (Proposed(choices, c).Some? ==> Has(e.entries, c))
    ensures var r := Evidence(Credited(m, e.entries, choices, pos, weight),
      e.unseen + Scale(FloorLog(m, choices, pos), weight));
      DistinctKeys(r.entries) && Value(r, c) == Value(e, c) + Scale(Term(m, choices, pos, c), weight)
  {
    var r := Evidence(Credited(m, e.entries, choices, pos, weight),
      e.unseen + Scale(FloorLog(m, choices, pos), weight));
    if Has(e.entries, c) {
      var i :| 0 <= i < |e.entries| && e.entries[i].c == c;
      assert r.entries[i].c == c;
      ValueAt(r, i);
      ValueAt(e, i);
    }
  }

  // ---------------------------------------------------------------- the fused distribution

  /** The first entry of the highest score: the head of a stable descending sort. */
  function TopEntry(entries: seq<Entry>): (top: Entry)
    requires entries != []
    ensures top in entries && forall i :: 0 <= i < |entries| ==> entries[i].v <= top.v
  {
    if |entries| == 1 then entries[0]
    else
      var before, last := TopEntry(entries[..|entries| - 1]), entries[|entries| - 1];
      if last.v > before.v then last else before
  }

  function TopScore(entries: seq<Entry>): real { if entries == [] then 0.0 else TopEntry(entries).v }

  function Share(m: Analysis, v: real, top: real): real { m.exp(v - top) }

  function ListedShare(m: Analysis, entries: seq<Entry>, top: real): real {
    if entries == [] then 0.0
    else ListedShare(m, entries[..|entries| - 1], top) + Share(m, entries[|entries| - 1].v, top)
  }

  /** How many characters the entries are taken to leave out. */
  function Others(entries: seq<Entry>, pos: nat): nat {
    if AlphabetSize(pos) > |entries| then AlphabetSize(pos) - |entries| else 0
  }

  function Total(m: Analysis, e: Evidence, pos: nat): real {
    var top := TopScore(e.entries);
    ListedShare(m, e.entries, top) + Scale(Share(m, e.unseen, top), Others(e.entries, pos) as real)
  }

  lemma {:induction false} ListedShareAbove(m: Analysis, entries: seq<Entry>, top: real)
    requires m.Valid()
    ensures ListedShare(m, entries, top) >= 0.0
    ensures forall i :: 0 <= i < |entries| ==> ListedShare(m, entries, top) >= Share(m, entries[i].v, top)
  {
    if entries != [] { ListedShareAbove(m, entries[..|entries| - 1], top); }
  }

  lemma TotalAbove(m: Analysis, e: Evidence, pos: nat)
    requires m.Valid() && e.entries != []
    ensures Total(m, e, pos) >= Share(m, 0.0, 0.0) > 0.0
  {
    var top := TopScore(e.entries);
    ListedShareAbove(m, e.entries, top);
    var i :| 0 <= i < |e.entries| && e.entries[i] == TopEntry(e.entries);
    assert Share(m, e.entries[i].v, top) == Share(m, 0.0, 0.0);
    assert Scale(Share(m, e.unseen, top), Others(e.entries, pos) as real) >= 0.0;
  }

  ghost predicate Distinct(alphabet: seq<char>) {
    forall i, j :: 0 <= i < j < |alphabet| ==> alphabet[i] != alphabet[j]
  }

  ghost function SumOver(alphabet: seq<char>, f: char -> real): real {
    if alphabet == [] then 0.0 else SumOver(alphabet[..|alphabet| - 1], f) + f(alphabet[|alphabet| - 1])
  }

  ghost function ShareOf(m: Analysis, e: Evidence, top: real): char -> real {
    c => Share(m, Value(e, c), top)
  }

  lemma {:induction false} SumChange(alphabet: seq<char>, f: char -> real, g: char -> real, k: char)
    requires Distinct(alphabet) && forall c :: c != k ==> f(c) == g(c)
    ensures SumOver(alphabet, g) == SumOver(alphabet, f) + if k in alphabet then g(k) - f(k) else 0.0
  {
    if alphabet != [] {
      var init, last := alphabet[..|alphabet| - 1], alphabet[|alphabet| - 1];
      SumChange(init, f, g, k);
      assert alphabet == init + [last];
    }
  }

  lemma {:induction false} SumSame(alphabet: seq<char>, f: char -> real, u: real)
    requires forall c :: f(c) == u
    ensures SumOver(alphabet, f) == Scale(u, |alphabet| as real)
  {
    if alphabet != [] { SumSame(alphabet[..|alphabet| - 1], f, u); }
  }

  /** Over any alphabet that contains the entries, the shares of all characters are those listed plus the rest. */
  lemma {:induction false} AlphabetShare(m: Analysis, e: Evidence, top: real, alphabet: seq<char>)
    requires DistinctKeys(e.entries) && Distinct(alphabet)
    requires forall i :: 0 <= i < |e.entries| ==> e.entries[i].c in alphabet
    ensures SumOver(alphabet, ShareOf(m, e, top))
      == ListedShare(m, e.entries, top) + Scale(Share(m, e.unseen, top), (|alphabet| - |e.entries|) as real)
    decreases |e.entries|
  {
    var u := Share(m, e.unseen, top);
    if e.entries == [] {
      SumSame(alphabet, ShareOf(m, e, top), u);
    } else {
      var before := Evidence(e.entries[..|e.entries| - 1], e.unseen);
      AlphabetShare(m, before, top, alphabet);
      LastEntryShare(m, e, top, alphabet);
      OneLess(u, |alphabet| - |e.entries|);
    }
  }

  /** The last entry moves one character's share from the shared score to its own. */
  lemma LastEntryShare(m: Analysis, e: Evidence, top: real, alphabet: seq<char>)
    requires e.entries != [] && DistinctKeys(e.entries) && Distinct(alphabet)
      && e.entries[|e.entries| - 1].c in alphabet
    ensures var before := Evidence(e.entries[..|e.entries| - 1], e.unseen);
      SumOver(alphabet, ShareOf(m, e, top))
      == SumOver(alphabet, ShareOf(m, before, top)) + Share(m, e.entries[|e.entries| - 1].v, top)
        - Share(m, e.unseen, top)
  {
    var last := e.entries[|e.entries| - 1];
    var before := Evidence(e.entries[..|e.entries| - 1], e.unseen);
    forall c | c != last.c ensures Value(before, c) == Value(e, c) { DropKey(e, c); }
    ValueAt(e, |e.entries| - 1);
    assert Value(before, last.c) == e.unseen;
    SumChange(alphabet, ShareOf(m, before, top), ShareOf(m, e, top), last.c);
  }

  lemma OneLess(u: real, n: int)
    ensures Scale(u, (n + 1) as real) == Scale(u, n as real) + u
  {
  }

  lemma DropKey(e: Evidence, c: char)
    requires e.entries != [] && DistinctKeys(e.entries) && c != e.entries[|e.entries| - 1].c
    ensures Value(Evidence(e.entries[..|e.entries| - 1], e.unseen), c) == Value(e, c)
  {
    var before := Evidence(e.entries[..|e.entries| - 1], e.unseen);
    if Has(e.entries, c) {
      var i :| 0 <= i < |e.entries| && e.entries[i].c == c;
      assert before.entries[i].c == c;
      ValueAt(before, i);
      ValueAt(e, i);
    }
  }

  /** `total` is the sum over a whole alphabet exactly when that alphabet has the size the code assumes. */
  lemma TotalIsWhole(m: Analysis, e: Evidence, pos: nat, alphabet: seq<char>)
    requires m.Valid() && DistinctKeys(e.entries) && Distinct(alphabet)
    requires forall i :: 0 <= i < |e.entries| ==> e.entries[i].c in alphabet
    ensures Total(m, e, pos) == SumOver(alphabet, ShareOf(m, e, TopScore(e.entries)))
      <==> |alphabet| == |e.entries| + Others(e.entries, pos)
  {
    var top := TopScore(e.entries);
    AlphabetShare(m, e, top, alphabet);
    SameScale(Share(m, e.unseen, top), Others(e.entries, pos), |alphabet| - |e.entries|);
  }

  lemma SameScale(u: real, a: int, b: int)
    requires u > 0.0
    ensures Scale(u, a as real) == Scale(u, b as real) <==> a == b
  {
    assert Scale(u, a as real) - Scale(u, b as real) == u * (a - b) as real;
  }

  ghost function Posterior(m: Analysis, e: Evidence, pos: nat): char -> real
    requires Total(m, e, pos) > 0.0
  {
    c => ShareOf(m, e, TopScore(e.entries))(c) / Total(m, e, pos)
  }

  lemma {:induction false} SumDivided(alphabet: seq<char>, f: char -> real, g: char -> real, t: real)
    requires t > 0.0 && forall c :: g(c) == f(c) / t
    ensures SumOver(alphabet, g) == SumOver(alphabet, f) / t
  {
    if alphabet != [] { SumDivided(alphabet[..|alphabet| - 1], f, g, t); }
  }

  /** Over an alphabet of the assumed size the fused probabilities sum to one. */
  lemma PosteriorSumsToOne(m: Analysis, e: Evidence, pos: nat, alphabet: seq<char>)
    requires m.Valid() && e.entries != [] && DistinctKeys(e.entries) && Distinct(alphabet)
    requires forall i :: 0 <= i < |e.entries| ==> e.entries[i].c in alphabet
    requires |alphabet| == |e.entries| + Others(e.entries, pos)
    ensures Total(m, e, pos) > 0.0 && SumOver(alphabet, Posterior(m, e, pos)) == 1.0
  {
    TotalAbove(m, e, pos);
    TotalIsWhole(m, e, pos, alphabet);
    SumDivided(alphabet, ShareOf(m, e, TopScore(e.entries)), Posterior(m, e, pos), Total(m, e, pos));
    SelfDivided(Total(m, e, pos));
  }

  lemma SelfDivided(t: real)
    requires t > 0.0
    ensures t / t == 1.0
  {
  }

  /** The plate letters, in code point order. */
  const LETTERS: string := ['ا', 'ب', 'ت', 'ث', 'ج', 'ح', 'د', 'ز', 'س', 'ش', 'ص', 'ط', 'ع', 'ف', 'ق', 'ل', 'م', 'ن',
                            'ه', 'و', 'پ', 'ژ', 'ک', 'گ', 'ی']

  /** The grammar has 25 letters, three more than the letter position is assumed to have. */
  lemma LettersAreTheGrammar()
    ensures Distinct(LETTERS) && |LETTERS| == 25 && (forall c :: c in LETTERS <==> IsLetter(c))
  {
    LettersDiffer();
    forall c ensures c in LETTERS <==> IsLetter(c) { LetterListed(c); }
  }

  lemma LettersDiffer()
    ensures Distinct(LETTERS) && |LETTERS| == 25
  {
    assert Ascending(LETTERS);
    AscendingIsDistinct(LETTERS);
  }

  ghost predicate Ascending(s: string) { forall i :: 0 < i < |s| ==> s[i - 1] < s[i] }

  lemma {:induction false} AscendingIsDistinct(s: string)
    requires Ascending(s)
    ensures Distinct(s) && forall i :: 0 <= i < |s| - 1 ==> s[i] < s[|s| - 1]
  {
    if |s| > 1 { AscendingIsDistinct(s[..|s| - 1]); }
  }

  lemma LetterListed(c: char)
    ensures c in LETTERS <==> IsLetter(c)
  {
  }

  /** So the letter's distribution misses mass unless every letter of the grammar has been proposed. */
  lemma LetterTotalFallsShort(m: Analysis, e: Evidence)
    requires m.Valid() && DistinctKeys(e.entries)
    requires forall i :: 0 <= i < |e.entries| ==> e.entries[i].c in LETTERS
    ensures Total(m, e, LETTER_POSITION) == SumOver(LETTERS, ShareOf(m, e, TopScore(e.entries))) <==> |e.entries| == 25
  {
    LettersAreTheGrammar();
    AtMost(e.entries, LETTERS);
    TotalIsWhole(m, e, LETTER_POSITION, LETTERS);
  }

  function Keys(entries: seq<Entry>): string {
    seq(|entries|, i requires 0 <= i < |entries| => entries[i].c)
  }

  /** Distinct characters drawn from a text are no more than its characters. */
  lemma {:induction false} NoMore(chars: seq<char>, text: seq<char>)
    requires Distinct(chars) && forall i :: 0 <= i < |chars| ==> chars[i] in text
    ensures |chars| <= |text|
    decreases |chars|
  {
    if chars != [] {
      var init, last := chars[..|chars| - 1], chars[|chars| - 1];
      var k :| 0 <= k < |text| && text[k] == last;
      var without := text[..k] + text[k + 1..];
      forall i | 0 <= i < |init| ensures init[i] in without {
        var j :| 0 <= j < |text| && text[j] == init[i];
        assert without[if j < k then j else j - 1] == init[i];
      }
      NoMore(init, without);
    }
  }

  lemma AtMost(entries: seq<Entry>, alphabet: seq<char>)
    requires DistinctKeys(entries) && forall i :: 0 <= i < |entries| ==> entries[i].c in alphabet
    ensures |entries| <= |alphabet|
  {
    NoMore(Keys(entries), alphabet);
  }

  /** As many entries as characters of the alphabet they are drawn from are one for each. */
  lemma AllListedIff(entries: seq<Entry>, alphabet: seq<char>)
    requires DistinctKeys(entries) && Distinct(alphabet) && forall i :: 0 <= i < |entries| ==> entries[i].c in alphabet
    ensures |entries| == |alphabet| <==> forall c :: c in alphabet ==> Has(entries, c)
  {
    if forall c :: c in alphabet ==> Has(entries, c) {
      forall i | 0 <= i < |alphabet| ensures alphabet[i] in Keys(entries) { HasKey(entries, alphabet[i]); }
      NoMore(alphabet, Keys(entries));
      NoMore(Keys(entries), alphabet);
    } else {
      var c :| c in alphabet && !Has(entries, c);
      OneMissing(entries, alphabet, c);
    }
  }

  lemma HasKey(entries: seq<Entry>, c: char)
    requires Has(entries, c)
    ensures c in Keys(entries)
  {
    var i :| 0 <= i < |entries| && entries[i].c == c;
    assert Keys(entries)[i] == c;
  }

  lemma OneMissing(entries: seq<Entry>, alphabet: seq<char>, c: char)
    requires DistinctKeys(entries) && (forall i :: 0 <= i < |entries| ==> entries[i].c in alphabet)
    requires c in alphabet && !Has(entries, c)
    ensures |entries| < |alphabet|
  {
    var chars := Keys(entries) + [c];
    assert forall i :: 0 <= i < |entries| ==> entries[i].c != c;
    NoMore(chars, alphabet);
  }

  /** One frame adds exactly the characters it proposes. */
  lemma FusedKeys(m: Analysis, decay: real, e: Evidence, choices: seq<Choice>, pos: nat, weight: real, c: char)
    requires DistinctKeys(e.entries)
    ensures Has(Fused(m, decay, e, choices, pos, weight).entries, c) <==>
      Has(e.entries, c) || Proposed(choices, c).Some?
  {
    var decayed, unseen := Decayed(e.entries, decay), Scale(e.unseen, decay);
    var added := AddMissing(decayed, choices, unseen);
    DecayedValue(e, decay, c);
    SameKeys(e.entries, decayed, c);
    AddMissingKeeps(decayed, choices, unseen, c);
    SameKeys(added, Credited(m, added, choices, pos, weight), c);
    FusedParts(m, decay, e, choices, pos, weight);
  }

  lemma SameKeys(before: seq<Entry>, after: seq<Entry>, c: char)
    requires |after| == |before| && forall i :: 0 <= i < |before| ==> after[i].c == before[i].c
    ensures Has(after, c) <==> Has(before, c)
  {
    if Has(before, c) {
      var i :| 0 <= i < |before| && before[i].c == c;
      assert after[i].c == c;
    }
  }

  /** `total` never exceeds the sum over a whole alphabet at least as large as assumed. */
  lemma TotalAtMost(m: Analysis, e: Evidence, pos: nat, alphabet: seq<char>)
    requires m.Valid() && DistinctKeys(e.entries) && Distinct(alphabet) && |alphabet| >= AlphabetSize(pos)
    requires forall i :: 0 <= i < |e.entries| ==> e.entries[i].c in alphabet
    ensures Total(m, e, pos) <= SumOver(alphabet, ShareOf(m, e, TopScore(e.entries)))
  {
    var top := TopScore(e.entries);
    var u := Share(m, e.unseen, top);
    AtMost(e.entries, alphabet);
    assert Scale(u, Others(e.entries, pos) as real) <= Scale(u, (|alphabet| - |e.entries|) as real) by {
      ScaleMonotone(u, Others(e.entries, pos), |alphabet| - |e.entries|);
    }
    AlphabetShare(m, e, top, alphabet);
  }

  lemma ScaleMonotone(u: real, a: int, b: int)
    requires u >= 0.0 && a <= b
    ensures Scale(u, a as real) <= Scale(u, b as real)
  {
    assert u * (b - a) as real >= 0.0;
    assert Scale(u, b as real) - Scale(u, a as real) == u * (b - a) as real;
  }
}
