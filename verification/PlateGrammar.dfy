/**
 * The plate grammar: canonical forms, the staged text normaliser that produces them, the
 * printer, and the priors the decoder uses.  Strings are sequences of Unicode scalars.
 */
module PlateGrammar {
  import opened Options

  const PLATE_LENGTH: nat := 8
  const LETTER_POSITION: nat := 2

  datatype PlateType =
    Private | Public | Taxi | Government | Police | Military | Disabled | Agricultural | OtherType | FreeZoneType

  function LetterType(c: char): Option<PlateType> {
    if c == 'ب' || c == 'ج' || c == 'د' || c == 'س' || c == 'ص' || c == 'ط' || c == 'ق' || c == 'ل' || c == 'م'
       || c == 'ن' || c == 'و' || c == 'ه' || c == 'ی' then Some(Private)
    else if c == 'ت' then Some(Taxi)
    else if c == 'ع' then Some(Public)
    else if c == 'ا' then Some(Government)
    else if c == 'پ' then Some(Police)
    else if c == 'ث' || c == 'ش' || c == 'ز' || c == 'ف' then Some(Military)
    else if c == 'ژ' then Some(Disabled)
    else if c == 'ک' then Some(Agricultural)
    else if c == 'ح' || c == 'گ' then Some(OtherType)
    else None
  }

  datatype Zone = Kish | Qeshm | Arvand | Anzali | Chabahar | Aras | Maku

  function Code(z: Zone): (code: string)
    ensures |code| >= 4 && forall i :: 0 <= i < |code| ==> 'A' <= code[i] <= 'Z'
  {
    match z
    case Kish => "KISH"
    case Qeshm => "QESHM"
    case Arvand => "ARVAND"
    case Anzali => "ANZALI"
    case Chabahar => "CHABAHAR"
    case Aras => "ARAS"
    case Maku => "MAKU"
  }

  /** Every character of a zone name is an Arabic-script letter. */
  function Name(z: Zone): (name: string)
    ensures |name| >= 3 && forall i :: 0 <= i < |name| ==> IsScript(name[i])
  {
    match z
    case Kish => "کیش"
    case Qeshm => "قشم"
    case Arvand => "اروند"
    case Anzali => "انزلی"
    case Chabahar => "چابهار"
    case Aras => "ارس"
    case Maku => "ماکو"
  }

  predicate IsScript(c: char) {
    '\U{0620}' <= c <= '\U{065F}' || '\U{066E}' <= c <= '\U{06CC}'
  }

  /** The zones in the order the normaliser tries their names. */
  const ZONES: seq<Zone> := [Kish, Qeshm, Arvand, Anzali, Chabahar, Aras, Maku]

  datatype Parts =
    | Standard(series: string, letter: char, middle: string, region: string)
    | FreeZone(zone: Zone, number: string)

  datatype Normalized = Invalid | Valid(plate: string, parts: Parts)

  // ---------------------------------------------------------------- canonical forms

  predicate IsDigit(c: char) { '0' <= c <= '9' }

  predicate AllDigits(s: string) { forall i :: 0 <= i < |s| ==> IsDigit(s[i]) }

  predicate IsLetter(c: char) { LetterType(c).Some? }

  /** Two digits, a plate letter, three digits, two digits. */
  predicate IsStandard(p: string) {
    |p| == PLATE_LENGTH && forall i :: 0 <= i < PLATE_LENGTH ==>
      if i == LETTER_POSITION then IsLetter(p[i]) else IsDigit(p[i])
  }

  function FreeZonePlate(zone: Zone, number: string): string {
    "FZ-" + Code(zone) + "-" + number
  }

  predicate IsZonePlate(zone: Zone, p: string) {
    |p| == |Code(zone)| + 9 && p == FreeZonePlate(zone, p[|p| - 5..]) && AllDigits(p[|p| - 5..])
  }

  predicate IsFreeZone(p: string) {
    exists zone: Zone :: IsZonePlate(zone, p)
  }

  predicate IsCanonical(p: string) { IsStandard(p) || IsFreeZone(p) }

  /** The zone of a free-zone plate is unique: no two codes agree in their first three letters. */
  lemma OneZone(p: string)
    ensures forall x: Zone, y: Zone :: IsZonePlate(x, p) && IsZonePlate(y, p) ==> x == y
  {
    forall x: Zone, y: Zone | IsZonePlate(x, p) && IsZonePlate(y, p) ensures x == y {
      CodeAt(x, p);
      CodeAt(y, p);
      CodesDiffer(x, y);
    }
  }

  lemma CodeAt(zone: Zone, p: string)
    requires IsZonePlate(zone, p)
    ensures |p| > 6 && p[3] == Code(zone)[0] && p[4] == Code(zone)[1] && p[5] == Code(zone)[2]
  {
    var tail := "-" + p[|p| - 5..];
    assert p == "FZ-" + (Code(zone) + tail);
    assert (Code(zone) + tail)[..3] == Code(zone)[..3];
  }

  lemma CodesDiffer(x: Zone, y: Zone)
    requires Code(x)[0] == Code(y)[0] && Code(x)[1] == Code(y)[1] && Code(x)[2] == Code(y)[2]
    ensures x == y
  {
  }

  /** Any digit of a canonical plate may be another one. */
  lemma DigitsAreFree(p: string, pos: nat, d: char)
    requires IsCanonical(p) && pos < |p| && IsDigit(p[pos]) && IsDigit(d)
    ensures IsCanonical(p[pos := d])
  {
    if IsStandard(p) {
      StandardDigit(p, pos, d);
    } else {
      var zone: Zone :| IsZonePlate(zone, p);
      ZoneDigit(zone, p, pos, d);
    }
  }

  lemma StandardDigit(p: string, pos: nat, d: char)
    requires IsStandard(p) && pos < |p| && IsDigit(p[pos]) && IsDigit(d)
    ensures IsStandard(p[pos := d])
  {
    if pos == LETTER_POSITION { LetterIsNoDigit(p[pos]); }
  }

  lemma LetterIsNoDigit(c: char)
    requires IsLetter(c)
    ensures !IsDigit(c)
  {
  }

  lemma ZoneDigit(zone: Zone, p: string, pos: nat, d: char)
    requires IsZonePlate(zone, p) && pos < |p| && IsDigit(p[pos]) && IsDigit(d)
    ensures IsZonePlate(zone, p[pos := d])
  {
    var q, n := p[pos := d], |p| - 5;
    var head := "FZ-" + Code(zone) + "-";
    assert p == head + p[n..] && |head| == n;
    assert forall k :: 0 <= k < n ==> p[k] == head[k] && !IsDigit(head[k]);
    assert q == head + q[n..];
  }

  // ---------------------------------------------------------------- text stages

  predicate IsSpace(c: char) {
    '\t' <= c <= '\r' || c == ' ' || c == '\U{00A0}' || c == '\U{1680}' || '\U{2000}' <= c <= '\U{200A}'
    || c == '\U{2028}' || c == '\U{2029}' || c == '\U{202F}' || c == '\U{205F}' || c == '\U{3000}' || c == '\U{FEFF}'
  }

  predicate IsSeparator(c: char) {
    IsSpace(c) || c == '-' || c == '_' || c == '|' || c == '.' || c == '/'
      || c == '\\' || c == ',' || c == ':' || c == ';'
  }

  function TrimLeft(s: string): string {
    if s != [] && IsSpace(s[0]) then TrimLeft(s[1..]) else s
  }

  function TrimRight(s: string): string {
    if s != [] && IsSpace(s[|s| - 1]) then TrimRight(s[..|s| - 1]) else s
  }

  function Trim(s: string): string { TrimRight(TrimLeft(s)) }


  function ToAsciiDigit(c: char): char {
    if '\U{06F0}' <= c <= '\U{06F9}' then "0123456789"[c as int - 0x06F0]
    else if '\U{0660}' <= c <= '\U{0669}' then "0123456789"[c as int - 0x0660]
    else c
  }

  function Alias(c: char): char {
    if c == 'آ' || c == 'أ' || c == 'إ' || c == 'ٱ' then 'ا'
    else if c == 'ي' || c == 'ى' || c == 'ئ' then 'ی'
    else if c == 'ك' then 'ک'
    else if c == 'ۀ' || c == 'ة' then 'ه'
    else c
  }

  /** `toUpperCase`, as far as its result can be a Latin letter: the 26 small letters, and the two others that have one
      as their capital, dotless i and long s. */
  function Upper(c: char): char {
    if 'a' <= c <= 'z' then "ABCDEFGHIJKLMNOPQRSTUVWXYZ"[c as int - 'a' as int]
    else if c == 'ı' then 'I'
    else if c == 'ſ' then 'S'
    else c
  }

  function Map(f: char -> char, s: string): (r: string)
    ensures |r| == |s| && forall i :: 0 <= i < |s| ==> r[i] == f(s[i])
  {
    seq(|s|, i requires 0 <= i < |s| => f(s[i]))
  }

  function Filter(keep: char -> bool, s: string): string {
    if s == [] then [] else (if keep(s[0]) then [s[0]] else []) + Filter(keep, s[1..])
  }

  /** One set of acceptable characters per pattern position, as a case-insensitive pattern needs. */
  type Pattern = seq<string>

  predicate MatchesAt(s: string, i: nat, pat: Pattern) {
    i + |pat| <= |s| && forall k :: 0 <= k < |pat| ==> s[i + k] in pat[k]
  }

  /** Replaces every match, scanning from the left and resuming after each match. */
  function ReplaceAll(s: string, pat: Pattern, rep: string): string
    requires pat != []
  {
    if s == [] then []
    else if MatchesAt(s, 0, pat) then rep + ReplaceAll(s[|pat|..], pat, rep)
    else [s[0]] + ReplaceAll(s[1..], pat, rep)
  }

  const IRAN_FA: Pattern := [['ا'], ['ی'], ['ر'], ['ا'], ['ن']]
  const IRAN_EN: Pattern := [['i', 'I'], ['r', 'R'], ['a', 'A'], ['n', 'N']]
  const ALEF: Pattern := [['ا'], ['ل'], ['ف']]

  predicate OccursAt(s: string, i: nat, sub: string) {
    i + |sub| <= |s| && s[i..i + |sub|] == sub
  }

  predicate Contains(s: string, sub: string) {
    exists i :: 0 <= i <= |s| && OccursAt(s, i, sub)
  }

  /** `text.replace(sub, '')` with a string pattern: the first occurrence only. */
  function RemoveFirst(s: string, sub: string): string {
    if |s| < |sub| then s
    else if s[..|sub|] == sub then s[|sub|..]
    else if s == [] then [] else [s[0]] + RemoveFirst(s[1..], sub)
  }

  /** The first listed zone whose name occurs in the text. */
  function ZoneNamed(text: string, zones: seq<Zone>): Option<Zone> {
    if zones == [] then None
    else if Contains(text, Name(zones[0])) then Some(zones[0])
    else ZoneNamed(text, zones[1..])
  }

  // ---------------------------------------------------------------- normalising

  function Normalize(raw: string): Normalized {
    if Trim(raw) == [] then Invalid
    else
      var text := Trim(Map(ToAsciiDigit, raw));
      if IsFreeZone(Map(Upper, text)) then
        var plate := Map(Upper, text);
        OneZone(plate);
        var zone: Zone :| IsZonePlate(zone, plate);
        Valid(plate, FreeZone(zone, plate[|plate| - 5..]))
      else
        match ZoneNamed(text, ZONES)
        case Some(zone) =>
          var digits := Filter(IsDigit, RemoveFirst(text, Name(zone)));
          if |digits| != 5 then Invalid
          else Valid(FreeZonePlate(zone, digits), FreeZone(zone, digits))
        case None =>
          var clean := Clean(text);
          if !IsStandard(clean) then Invalid
          else Valid(clean, Standard(clean[..2], clean[2], clean[3..6], clean[6..]))
  }

  function TypeOf(n: Normalized): Option<PlateType> {
    match n
    case Invalid => None
    case Valid(_, FreeZone(_, _)) => Some(FreeZoneType)
    case Valid(_, Standard(_, letter, _, _)) => LetterType(letter)
  }

  /** Drops the country name and separators, and folds letter variants. */
  function Clean(text: string): string {
    Filter(c => !IsSeparator(c), Map(Alias, Named(text)))
  }

  predicate IsRawSeparator(c: char) { IsSpace(c) || c == '-' || c == '_' || c == '|' }

  predicate LooksFreeZone(text: string) {
    |text| >= 3 && (text[0] == 'F' || text[0] == 'f') && (text[1] == 'Z' || text[1] == 'z') && text[2] == '-'
  }

  /** The canonical form, or for anything unreadable the text without country name and separators. */
  function CanonicalOrRaw(value: string): string {
    match Normalize(value)
    case Valid(plate, _) => plate
    case Invalid =>
      var text := Map(ToAsciiDigit, Trim(value));
      if LooksFreeZone(text) then Filter(c => !IsSpace(c), Map(Upper, text))
      else Filter(c => !IsRawSeparator(c), ReplaceAll(ReplaceAll(text, IRAN_FA, []), IRAN_EN, []))
  }

  function Display(plate: string): string {
    match Normalize(plate)
    case Invalid => plate
    case Valid(_, FreeZone(zone, number)) => Name(zone) + " " + number
    case Valid(_, Standard(series, letter, middle, region)) =>
      series + " " + (if letter == 'ا' then "الف" else [letter]) + " " + middle + "-" + region
  }

  // ---------------------------------------------------------------- stages that change nothing

  lemma {:induction false} FilterKeepsAll(keep: char -> bool, s: string)
    requires forall i :: 0 <= i < |s| ==> keep(s[i])
    ensures Filter(keep, s) == s
  {
    if s != [] { FilterKeepsAll(keep, s[1..]); }
  }

  lemma {:induction false} FilterKept(keep: char -> bool, s: string)
    ensures forall i :: 0 <= i < |Filter(keep, s)| ==> keep(Filter(keep, s)[i])
  {
    if s != [] { FilterKept(keep, s[1..]); }
  }

  lemma Assoc(a: string, b: string, c: string)
    ensures a + b + c == a + (b + c)
  {
  }

  lemma {:induction false} FilterConcat(keep: char -> bool, a: string, b: string)
    ensures Filter(keep, a + b) == Filter(keep, a) + Filter(keep, b)
  {
    if a == [] {
      assert a + b == b;
    } else {
      var head := if keep(a[0]) then [a[0]] else [];
      assert (a + b)[1..] == a[1..] + b && (a + b)[0] == a[0];
      FilterConcat(keep, a[1..], b);
      Assoc(head, Filter(keep, a[1..]), Filter(keep, b));
    }
  }

  lemma MatchShift(s: string, i: nat, pat: Pattern)
    requires s != [] && MatchesAt(s[1..], i, pat)
    ensures MatchesAt(s, i + 1, pat)
  {
    forall k | 0 <= k < |pat| ensures s[i + 1 + k] in pat[k] { assert s[1..][i + k] in pat[k]; }
  }

  lemma {:induction false} NothingToReplace(s: string, pat: Pattern, rep: string)
    requires pat != [] && forall i :: 0 <= i < |s| ==> !MatchesAt(s, i, pat)
    ensures ReplaceAll(s, pat, rep) == s
  {
    if s != [] {
      forall i | 0 <= i < |s| - 1 && MatchesAt(s[1..], i, pat) ensures false { MatchShift(s, i, pat); }
      NothingToReplace(s[1..], pat, rep);
    }
  }

  lemma MatchFirst(s: string, i: nat, pat: Pattern)
    requires pat != [] && MatchesAt(s, i, pat)
    ensures s[i] in pat[0] && (|pat| >= 2 ==> s[i + 1] in pat[1])
  {
    assert s[i + 0] in pat[0];
  }

  /** No character of `a` is followed by a character of `b`. */
  ghost predicate NoPair(s: string, a: string, b: string) {
    forall i :: 0 <= i < |s| - 1 ==> !(s[i] in a && s[i + 1] in b)
  }

  lemma NoPairNoMatch(s: string, pat: Pattern, rep: string)
    requires |pat| >= 2 && NoPair(s, pat[0], pat[1])
    ensures ReplaceAll(s, pat, rep) == s
  {
    forall i | 0 <= i < |s| && MatchesAt(s, i, pat) ensures false {
      MatchFirst(s, i, pat);
    }
    NothingToReplace(s, pat, rep);
  }

  lemma {:induction false} NoPairNoZone(s: string, zones: seq<Zone>)
    requires forall z: Zone :: NoPair(s, [Name(z)[0]], [Name(z)[1]])
    ensures ZoneNamed(s, zones) == None
  {
    if zones != [] {
      var name := Name(zones[0]);
      forall i | 0 <= i <= |s| && OccursAt(s, i, name) ensures false {}
      NoPairNoZone(s, zones[1..]);
    }
  }

  /** A character that can be part of a name or a word. */
  predicate IsWord(c: char) { !IsDigit(c) && !IsSeparator(c) }

  /** No two neighbouring word characters. */
  ghost predicate Lonely(s: string) {
    forall i :: 0 <= i < |s| - 1 ==> !IsWord(s[i]) || !IsWord(s[i + 1])
  }

  /** Nothing the cleaner looks for occurs in a text whose word characters stand alone. */
  lemma LonelyHasNoZone(s: string)
    requires Lonely(s)
    ensures ZoneNamed(s, ZONES) == None
  {
    forall z: Zone ensures NoPair(s, [Name(z)[0]], [Name(z)[1]]) {
      ScriptFacts(Name(z)[0]);
      ScriptFacts(Name(z)[1]);
    }
    NoPairNoZone(s, ZONES);
  }

  lemma LonelyHasNoWord(s: string, pat: Pattern, rep: string)
    requires Lonely(s) && |pat| >= 2 && (forall c :: c in pat[0] ==> IsWord(c)) && forall c :: c in pat[1] ==> IsWord(c)
    ensures ReplaceAll(s, pat, rep) == s
  {
    NoPairNoMatch(s, pat, rep);
  }

  /** The text with country names removed and `الف` folded to its letter. */
  function Named(text: string): string {
    ReplaceAll(ReplaceAll(ReplaceAll(text, IRAN_FA, []), IRAN_EN, []), ALEF, ['ا'])
  }

  lemma LonelyIsPlain(s: string)
    requires Lonely(s)
    ensures Named(s) == s
  {
    LonelyHasNoWord(s, IRAN_FA, []);
    LonelyHasNoWord(s, IRAN_EN, []);
    LonelyHasNoWord(s, ALEF, ['ا']);
  }

  lemma ScriptFacts(c: char)
    requires IsScript(c)
    ensures IsWord(c) && !IsSpace(c) && ToAsciiDigit(c) == c && Upper(c) == c
  {
  }

  lemma LetterFacts(c: char)
    requires IsLetter(c)
    ensures Alias(c) == c && !IsSeparator(c) && !IsSpace(c) && ToAsciiDigit(c) == c && Upper(c) == c && !IsDigit(c)
  {
  }

  lemma DigitFacts(c: char)
    requires IsDigit(c)
    ensures Alias(c) == c && !IsSeparator(c) && !IsSpace(c) && ToAsciiDigit(c) == c && Upper(c) == c
  {
  }

  // ---------------------------------------------------------------- canonical forms are exactly the valid results

  /** Whatever the input, a valid result is canonical, and its parts spell the plate. */
  lemma NormalizeIsCanonical(raw: string)
    requires Normalize(raw).Valid?
    ensures var n := Normalize(raw);
      match n.parts
      case FreeZone(zone, number) => n.plate == FreeZonePlate(zone, number) && IsFreeZone(n.plate)
      case Standard(series, letter, middle, region) =>
        n.plate == series + [letter] + middle + region && IsStandard(n.plate)
  {
    var text := Trim(Map(ToAsciiDigit, raw));
    if !IsFreeZone(Map(Upper, text)) {
      match ZoneNamed(text, ZONES)
      case Some(zone) =>
        var digits := Filter(IsDigit, RemoveFirst(text, Name(zone)));
        FilterKept(IsDigit, RemoveFirst(text, Name(zone)));
        if |digits| == 5 { ZonePlateIsCanonical(zone, digits); }
      case None =>
        var clean := Clean(text);
        if IsStandard(clean) { StandardParts(clean); }
    }
  }

  lemma StandardParts(p: string)
    requires |p| == PLATE_LENGTH
    ensures p == p[..2] + [p[2]] + p[3..6] + p[6..]
  {
  }

  lemma ZonePlateIsCanonical(zone: Zone, digits: string)
    requires |digits| == 5 && AllDigits(digits)
    ensures IsZonePlate(zone, FreeZonePlate(zone, digits))
  {
    var p := FreeZonePlate(zone, digits);
    assert p[|p| - 5..] == digits;
  }

  /** A canonical plate is its own normal form. */
  lemma CanonicalIsFixed(p: string)
    requires IsCanonical(p)
    ensures Normalize(p).Valid? && Normalize(p).plate == p
  {
    if IsStandard(p) { StandardIsFixed(p); } else { FreeZoneIsFixed(p); }
  }

  lemma StandardIsFixed(p: string)
    requires IsStandard(p)
    ensures Normalize(p) == Valid(p, Standard(p[..2], p[2], p[3..6], p[6..]))
  {
    forall i | 0 <= i < |p|
      ensures Alias(p[i]) == p[i] && !IsSeparator(p[i]) && !IsSpace(p[i]) && ToAsciiDigit(p[i]) == p[i]
    {
      if i == LETTER_POSITION { LetterFacts(p[i]); } else { DigitFacts(p[i]); }
    }
    assert Map(ToAsciiDigit, p) == p;
    LonelyHasNoZone(p);
    StandardIsClean(p);
  }

  lemma StandardIsClean(p: string)
    requires IsStandard(p)
    ensures Clean(p) == p
  {
    forall i | 0 <= i < |p| ensures Alias(p[i]) == p[i] && !IsSeparator(p[i]) {
      if i == LETTER_POSITION { LetterFacts(p[i]); } else { DigitFacts(p[i]); }
    }
    LonelyIsPlain(p);
    assert Map(Alias, p) == p;
    FilterKeepsAll(c => !IsSeparator(c), p);
  }

  lemma FreeZoneIsFixed(p: string)
    requires IsFreeZone(p)
    ensures var n := Normalize(p);
      n.Valid? && n.plate == p && n.parts.FreeZone? && p == FreeZonePlate(n.parts.zone, n.parts.number)
      && |n.parts.number| == 5 && AllDigits(n.parts.number)
  {
    var zone: Zone :| IsZonePlate(zone, p);
    forall i | 0 <= i < |p| ensures ToAsciiDigit(p[i]) == p[i] && Upper(p[i]) == p[i] && !IsSpace(p[i]) {
      ZonePlateChar(zone, p, i);
    }
    assert Map(ToAsciiDigit, p) == p && Map(Upper, p) == p;
    PlainZonePlate(p);
  }

  lemma PlainZonePlate(p: string)
    requires IsFreeZone(p) && Trim(p) == p && Map(ToAsciiDigit, p) == p && Map(Upper, p) == p
    ensures var n := Normalize(p);
      n.Valid? && n.plate == p && n.parts.FreeZone? && p == FreeZonePlate(n.parts.zone, n.parts.number)
      && |n.parts.number| == 5 && AllDigits(n.parts.number)
  {
  }

  lemma ZonePlateChar(zone: Zone, p: string, i: nat)
    requires IsZonePlate(zone, p) && i < |p|
    ensures ToAsciiDigit(p[i]) == p[i] && Upper(p[i]) == p[i] && !IsSpace(p[i])
  {
    var code, number := Code(zone), p[|p| - 5..];
    assert p == "FZ-" + code + "-" + number;
    if 3 <= i < 3 + |code| {
      assert p[i] == code[i - 3];
    } else if i >= |p| - 5 {
      assert p[i] == number[i - (|p| - 5)];
    }
  }

  /** A canonical plate is kept as it is. */
  lemma CanonicalIsKept(p: string)
    requires IsCanonical(p)
    ensures CanonicalOrRaw(p) == p
  {
    CanonicalIsFixed(p);
  }

  /** Normalising twice changes nothing, so the canonical plates are exactly the valid results. */
  lemma NormalizeIsIdempotent(raw: string)
    requires Normalize(raw).Valid?
    ensures Normalize(Normalize(raw).plate).Valid? && Normalize(Normalize(raw).plate).plate == Normalize(raw).plate
  {
    NormalizeIsCanonical(raw);
    CanonicalIsFixed(Normalize(raw).plate);
  }

  // ---------------------------------------------------------------- printing and reading back

  /** The printed form of a standard plate with its letter written as itself. */
  ghost function Spaced(p: string): string
    requires |p| == PLATE_LENGTH
  {
    p[..2] + " " + [p[2]] + " " + p[3..6] + "-" + p[6..]
  }

  ghost predicate AllKept(keep: char -> bool, s: string) {
    forall i :: 0 <= i < |s| ==> keep(s[i])
  }

  lemma FilterSpaced(keep: char -> bool, a: string, b: string, c: string, d: string)
    requires !keep(' ') && !keep('-') && AllKept(keep, a) && AllKept(keep, b) && AllKept(keep, c) && AllKept(keep, d)
    ensures Filter(keep, a + " " + (b + " " + (c + "-" + d))) == a + (b + (c + d))
  {
    FilterJoin(keep, c, "-", d);
    FilterJoin(keep, b, " ", c + "-" + d);
    FilterJoin(keep, a, " ", b + " " + (c + "-" + d));
    FilterKeepsAll(keep, a);
    FilterKeepsAll(keep, b);
    FilterKeepsAll(keep, c);
    FilterKeepsAll(keep, d);
  }

  lemma StandardChar(p: string, i: nat)
    requires IsStandard(p) && i < |p|
    ensures Alias(p[i]) == p[i] && !IsSeparator(p[i])
  {
    if i == LETTER_POSITION { LetterFacts(p[i]); } else { DigitFacts(p[i]); }
  }

  lemma SpacedCleans(p: string)
    requires IsStandard(p)
    ensures Filter(c => !IsSeparator(c), Map(Alias, Spaced(p))) == p
  {
    forall i | 0 <= i < |p| ensures Alias(p[i]) == p[i] && !IsSeparator(p[i]) { StandardChar(p, i); }
    assert Map(Alias, Spaced(p)) == Spaced(p);
    SpacedFilters(c => !IsSeparator(c), p);
  }

  lemma SpacedFilters(keep: char -> bool, p: string)
    requires |p| == PLATE_LENGTH && (forall i :: 0 <= i < |p| ==> keep(p[i])) && !keep(' ') && !keep('-')
    ensures Filter(keep, Spaced(p)) == p
  {
    FilterSpaced(keep, p[..2], [p[2]], p[3..6], p[6..]);
    assert Spaced(p) == p[..2] + " " + ([p[2]] + " " + (p[3..6] + "-" + p[6..]));
    assert p == p[..2] + ([p[2]] + (p[3..6] + p[6..]));
  }

  lemma FilterJoin(keep: char -> bool, a: string, sep: string, b: string)
    requires |sep| == 1 && !keep(sep[0])
    ensures Filter(keep, a + sep + b) == Filter(keep, a) + Filter(keep, b)
  {
    FilterConcat(keep, a + sep, b);
    FilterDropsLast(keep, a, sep);
  }

  lemma FilterDropsLast(keep: char -> bool, a: string, sep: string)
    requires |sep| == 1 && !keep(sep[0])
    ensures Filter(keep, a + sep) == Filter(keep, a)
  {
    FilterConcat(keep, a, sep);
  }

  /** One match between two stretches without a match is the only replacement. */
  lemma {:induction false} ReplaceOnce(a: string, mid: string, b: string, pat: Pattern, rep: string)
    requires pat != [] && |mid| == |pat| && MatchesAt(mid, 0, pat)
    requires forall i :: 0 <= i < |a| ==> a[i] !in pat[0]
    requires forall i :: 0 <= i < |b| ==> b[i] !in pat[0]
    ensures ReplaceAll(a + mid + b, pat, rep) == a + rep + b
  {
    if a == [] {
      assert a + mid + b == mid + b && a + rep + b == rep + b;
      ReplaceHead(mid, b, pat, rep);
    } else {
      var s := a + mid + b;
      if MatchesAt(s, 0, pat) { MatchFirst(s, 0, pat); }
      assert s[0] == a[0] && s[1..] == a[1..] + mid + b;
      ReplaceOnce(a[1..], mid, b, pat, rep);
      assert a + rep + b == [a[0]] + (a[1..] + rep + b);
    }
  }

  lemma ReplaceHead(mid: string, b: string, pat: Pattern, rep: string)
    requires pat != [] && |mid| == |pat| && MatchesAt(mid, 0, pat)
    requires forall i :: 0 <= i < |b| ==> b[i] !in pat[0]
    ensures ReplaceAll(mid + b, pat, rep) == rep + b
  {
    var s := mid + b;
    forall k | 0 <= k < |pat| ensures s[0 + k] in pat[k] { assert mid[0 + k] in pat[k]; }
    assert MatchesAt(s, 0, pat) && s[|pat|..] == b;
    forall i | 0 <= i < |b| && MatchesAt(b, i, pat) ensures false { MatchFirst(b, i, pat); }
    NothingToReplace(b, pat, rep);
  }

  lemma DisplayedStandard(p: string)
    requires IsStandard(p)
    ensures Display(p) == if p[2] == 'ا' then AlefSpaced(p) else Spaced(p)
  {
    StandardIsFixed(p);
  }

  /** The printed form when the letter is alef, whose name is written out. */
  ghost function AlefSpaced(p: string): string
    requires |p| == PLATE_LENGTH
  {
    p[..2] + " " + "الف" + " " + p[3..6] + "-" + p[6..]
  }

  lemma AlefHasNoZone(p: string)
    requires IsStandard(p)
    ensures ZoneNamed(AlefSpaced(p), ZONES) == None
  {
    forall z: Zone ensures NoPair(AlefSpaced(p), [Name(z)[0]], [Name(z)[1]]) {
      ScriptFacts(Name(z)[0]);
      ScriptFacts(Name(z)[1]);
    }
    NoPairNoZone(AlefSpaced(p), ZONES);
  }

  lemma AlefHasNoCountry(p: string)
    requires IsStandard(p)
    ensures ReplaceAll(AlefSpaced(p), IRAN_FA, []) == AlefSpaced(p)
      && ReplaceAll(AlefSpaced(p), IRAN_EN, []) == AlefSpaced(p)
  {
    NoPairNoMatch(AlefSpaced(p), IRAN_FA, []);
    AlefHasNoLatin(p);
    NoPairNoMatch(AlefSpaced(p), IRAN_EN, []);
  }

  lemma AlefHasNoLatin(p: string)
    requires IsStandard(p)
    ensures var s := AlefSpaced(p); forall i :: 0 <= i < |s| - 1 ==> !(s[i] in IRAN_EN[0] && s[i + 1] in IRAN_EN[1])
  {
  }

  lemma AlefIsFolded(p: string)
    requires IsStandard(p) && p[2] == 'ا'
    ensures Named(AlefSpaced(p)) == Spaced(p)
  {
    AlefHasNoCountry(p);
    AlefReplaced(p[..2] + " ", " " + p[3..6] + "-" + p[6..]);
    AlefParts(p);
  }

  lemma AlefParts(p: string)
    requires IsStandard(p) && p[2] == 'ا'
    ensures AlefSpaced(p) == (p[..2] + " ") + "الف" + (" " + p[3..6] + "-" + p[6..])
    ensures Spaced(p) == (p[..2] + " ") + ['ا'] + (" " + p[3..6] + "-" + p[6..])
  {
  }

  lemma AlefReplaced(a: string, b: string)
    requires forall i :: 0 <= i < |a| ==> !IsWord(a[i])
    requires forall i :: 0 <= i < |b| ==> !IsWord(b[i])
    ensures ReplaceAll(a + "الف" + b, ALEF, ['ا']) == a + ['ا'] + b
  {
    assert MatchesAt("الف", 0, ALEF);
    ReplaceOnce(a, "الف", b, ALEF, ['ا']);
  }

  lemma PlainText(s: string)
    requires s != [] && !IsSpace(s[0]) && !IsSpace(s[|s| - 1]) && s[0] != 'F' && Upper(s[0]) == s[0]
    requires forall i :: 0 <= i < |s| ==> ToAsciiDigit(s[i]) == s[i]
    ensures Trim(s) == s && Trim(Map(ToAsciiDigit, s)) == s && !IsFreeZone(Map(Upper, s))
  {
    assert Map(ToAsciiDigit, s) == s;
    forall zone: Zone ensures !IsZonePlate(zone, Map(Upper, s)) {
      assert Map(Upper, s)[0] != 'F';
    }
  }

  /** Reading either printed form. */
  lemma SpacedReads(p: string, s: string)
    requires IsStandard(p) && s == if p[2] == 'ا' then AlefSpaced(p) else Spaced(p)
    ensures Normalize(s) == Valid(p, Standard(p[..2], p[2], p[3..6], p[6..]))
  {
    SpacedIsPlain(p, s);
    SpacedCleans(p);
    if p[2] == 'ا' {
      AlefHasNoZone(p);
      AlefIsFolded(p);
    } else {
      SpacedIsLonely(p);
      LonelyHasNoZone(s);
      LonelyIsPlain(s);
    }
  }

  lemma SpacedIsLonely(p: string)
    requires IsStandard(p)
    ensures Lonely(Spaced(p))
  {
  }

  lemma SpacedIsPlain(p: string, s: string)
    requires IsStandard(p) && s == if p[2] == 'ا' then AlefSpaced(p) else Spaced(p)
    ensures Trim(s) == s && Trim(Map(ToAsciiDigit, s)) == s && !IsFreeZone(Map(Upper, s))
  {
    DigitFacts(p[0]);
    DigitFacts(p[7]);
    assert s[0] == p[0] && s[|s| - 1] == p[7];
    forall i | 0 <= i < |s| ensures ToAsciiDigit(s[i]) == s[i] { SpacedChar(p, s, i); }
    PlainText(s);
  }

  lemma SpacedChar(p: string, s: string, i: nat)
    requires IsStandard(p) && s == (if p[2] == 'ا' then AlefSpaced(p) else Spaced(p)) && i < |s|
    ensures ToAsciiDigit(s[i]) == s[i]
  {
    assert s[i] in p || s[i] in "- الف";
    if s[i] in p {
      var k :| 0 <= k < |p| && p[k] == s[i];
      if k == LETTER_POSITION { LetterFacts(p[k]); } else { DigitFacts(p[k]); }
    }
  }

  lemma StandardRoundTrip(p: string)
    requires IsStandard(p)
    ensures Normalize(Display(p)) == Valid(p, Standard(p[..2], p[2], p[3..6], p[6..]))
  {
    DisplayedStandard(p);
    SpacedReads(p, if p[2] == 'ا' then AlefSpaced(p) else Spaced(p));
  }

  /** No zone name occurs inside another: already their first three letters do not. */
  lemma NamesApart(x: Zone, y: Zone, i: nat)
    requires x != y && i + 3 <= |Name(y)|
    ensures !(Name(y)[i] == Name(x)[0] && Name(y)[i + 1] == Name(x)[1] && Name(y)[i + 2] == Name(x)[2])
  {
  }

  lemma OnlyOwnName(zone: Zone, other: Zone, number: string)
    requires AllDigits(number)
    ensures Contains(Name(zone) + " " + number, Name(other)) <==> zone == other
  {
    var name, sub := Name(zone), Name(other);
    var s := name + " " + number;
    if zone == other {
      assert OccursAt(s, 0, sub);
    } else {
      forall i | 0 <= i <= |s| && OccursAt(s, i, sub) ensures false {
        ScriptFacts(sub[2]);
        if i + 3 <= |name| { NamesApart(other, zone, i); }
      }
    }
  }

  lemma {:induction false} ZoneFound(zone: Zone, number: string, zones: seq<Zone>)
    requires AllDigits(number) && zone in zones
    ensures ZoneNamed(Name(zone) + " " + number, zones) == Some(zone)
  {
    OnlyOwnName(zone, zones[0], number);
    if zones[0] != zone { ZoneFound(zone, number, zones[1..]); }
  }

  lemma ZoneTextIsPlain(zone: Zone, number: string, s: string)
    requires |number| == 5 && AllDigits(number) && s == Name(zone) + " " + number
    ensures Trim(s) == s && Trim(Map(ToAsciiDigit, s)) == s && !IsFreeZone(Map(Upper, s))
  {
    var name := Name(zone);
    forall i | 0 <= i < |s| ensures ToAsciiDigit(s[i]) == s[i] {
      if i < |name| { ScriptFacts(name[i]); } else if i > |name| { DigitFacts(number[i - |name| - 1]); }
    }
    ScriptFacts(name[0]);
    DigitFacts(number[4]);
    PlainText(s);
  }

  lemma ZoneNumber(zone: Zone, number: string, s: string)
    requires AllDigits(number) && s == Name(zone) + " " + number
    ensures Filter(IsDigit, RemoveFirst(s, Name(zone))) == number
  {
    var name := Name(zone);
    assert s[..|name|] == name && s[|name|..] == " " + number;
    FilterJoin(IsDigit, [], " ", number);
    FilterKeepsAll(IsDigit, number);
    assert [] + " " + number == " " + number;
  }

  lemma ZoneRoundTrip(zone: Zone, number: string)
    requires |number| == 5 && AllDigits(number)
    ensures Normalize(Name(zone) + " " + number) == Valid(FreeZonePlate(zone, number), FreeZone(zone, number))
  {
    var s := Name(zone) + " " + number;
    ZoneTextIsPlain(zone, number, s);
    ZoneFound(zone, number, ZONES);
    ZoneNumber(zone, number, s);
  }

  /** Reading back what was printed gives the same plate, for every canonical plate. */
  lemma DisplayRoundTrip(p: string)
    requires IsCanonical(p)
    ensures Normalize(Display(p)).Valid? && Normalize(Display(p)).plate == p
  {
    if IsStandard(p) {
      StandardRoundTrip(p);
    } else {
      FreeZoneIsFixed(p);
      var n := Normalize(p);
      ZoneRoundTrip(n.parts.zone, n.parts.number);
    }
  }
}
