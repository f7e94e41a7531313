/**
 * Free-zone plates: the zones with their codes and names, and how their plates may be written and are shown.
 */
module ZoneOutcomes {
  import opened Options
  import opened PlateGrammar

  /** The seven zones. */
  lemma ZonesAre(zone: Zone)
    ensures zone in ZONES
    ensures zone == Kish ==> Code(zone) == "KISH" && Name(zone) == "کیش"
    ensures zone == Qeshm ==> Code(zone) == "QESHM" && Name(zone) == "قشم"
    ensures zone == Arvand ==> Code(zone) == "ARVAND" && Name(zone) == "اروند"
    ensures zone == Anzali ==> Code(zone) == "ANZALI" && Name(zone) == "انزلی"
    ensures zone == Chabahar ==> Code(zone) == "CHABAHAR" && Name(zone) == "چابهار"
    ensures zone == Aras ==> Code(zone) == "ARAS" && Name(zone) == "ارس"
    ensures zone == Maku ==> Code(zone) == "MAKU" && Name(zone) == "ماکو"
  {
    assert ZONES == [Kish, Qeshm, Arvand, Anzali, Chabahar, Aras, Maku];
    assert ZONES[0] == Kish && ZONES[1] == Qeshm && ZONES[2] == Arvand && ZONES[3] == Anzali && ZONES[4] == Chabahar
      && ZONES[5] == Aras && ZONES[6] == Maku;
  }

  /** A free-zone plate is shown as the zone's name and its number. */
  lemma ZoneIsShown(zone: Zone, number: string)
    requires |number| == 5 && AllDigits(number)
    ensures Display("FZ-" + Code(zone) + "-" + number) == Name(zone) + " " + number
  {
    var p := FreeZonePlate(zone, number);
    ZonePlateIsCanonical(zone, number);
    FreeZoneIsFixed(p);
    var n := Normalize(p);
    ZonePlateIsCanonical(n.parts.zone, n.parts.number);
    OneZone(p);
    assert p[|p| - 5..] == number;
  }

  // ---------------------------------------------------------------- reading zones

  /** Small Latin letters have the capitals 32 places before them, dotless i and long s have the capitals I and S, and
      nothing else becomes a Latin letter. */
  lemma CapitalsAre(c: char)
    ensures 'a' <= c <= 'z' ==> Upper(c) as int == c as int - 32
    ensures c == 'ı' ==> Upper(c) == 'I'
    ensures c == 'ſ' ==> Upper(c) == 'S'
    ensures !('a' <= c <= 'z') && c != 'ı' && c != 'ſ' ==> Upper(c) == c
  {
    if 'a' <= c <= 'z' { CapitalAt(c as int - 'a' as int); }
  }

  lemma CapitalAt(k: nat)
    requires k < 26
    ensures "ABCDEFGHIJKLMNOPQRSTUVWXYZ"[k] as int == 'A' as int + k
  {
  }

  /** The code may be in small letters, the number in either keyboard's digits, and blanks around it. */
  lemma AnyCaseIsRead(raw: string, p: string)
    requires IsFreeZone(p) && Map(Upper, Trim(Map(ToAsciiDigit, raw))) == p && Trim(raw) != []
    ensures Normalize(raw).Valid? && Normalize(raw).plate == p
  {
  }

  lemma {:induction false} NamedIs(text: string, zones: seq<Zone>, zone: Zone)
    requires zone in zones && Contains(text, Name(zone))
    requires forall other: Zone :: other != zone ==> !Contains(text, Name(other))
    ensures ZoneNamed(text, zones) == Some(zone)
  {
    if zones[0] != zone { NamedIs(text, zones[1..], zone); }
  }

  lemma {:induction false} NameHasNoDigits(text: string, name: string)
    requires (forall i :: 0 <= i < |name| ==> !IsDigit(name[i])) && name != []
    ensures Filter(IsDigit, RemoveFirst(text, name)) == Filter(IsDigit, text)
  {
    if |text| >= |name| {
      if text[..|name|] == name {
        assert text == name + text[|name|..];
        FilterConcat(IsDigit, name, text[|name|..]);
        NoneKept(name);
        assert [] + Filter(IsDigit, text[|name|..]) == Filter(IsDigit, text[|name|..]);
      } else if text != [] {
        NameHasNoDigits(text[1..], name);
        KeptStep(text, name);
      }
    }
  }

  lemma {:induction false} NoneKept(name: string)
    requires forall i :: 0 <= i < |name| ==> !IsDigit(name[i])
    ensures Filter(IsDigit, name) == []
  {
    if name != [] { NoneKept(name[1..]); }
  }

  lemma KeptStep(text: string, name: string)
    requires text != [] && |text| >= |name| && text[..|name|] != name
    requires Filter(IsDigit, RemoveFirst(text[1..], name)) == Filter(IsDigit, text[1..])
    ensures Filter(IsDigit, RemoveFirst(text, name)) == Filter(IsDigit, text)
  {
    var rest := RemoveFirst(text[1..], name);
    assert ([text[0]] + rest)[1..] == rest;
  }

  /** A text with the name of one zone is that zone's plate with the digits it has, exactly if it has five. */
  lemma ZoneIsRead(raw: string, zone: Zone)
    requires var text := Trim(Map(ToAsciiDigit, raw));
      Contains(text, Name(zone)) && (forall other: Zone :: other != zone ==> !Contains(text, Name(other)))
      && !IsFreeZone(Map(Upper, text)) && Trim(raw) != []
    ensures var digits := Filter(IsDigit, Trim(Map(ToAsciiDigit, raw)));
      if |digits| == 5
      then Normalize(raw) == Valid("FZ-" + Code(zone) + "-" + digits, FreeZone(zone, digits))
      else Normalize(raw).Invalid?
  {
    var text := Trim(Map(ToAsciiDigit, raw));
    assert ZoneNamed(text, ZONES) == Some(zone) by {
      ZonesAre(zone);
      NamedIs(text, ZONES, zone);
    }
    ZoneDigits(text, zone);
  }

  lemma ZoneDigits(text: string, zone: Zone)
    ensures Filter(IsDigit, RemoveFirst(text, Name(zone))) == Filter(IsDigit, text)
  {
    forall i | 0 <= i < |Name(zone)| ensures !IsDigit(Name(zone)[i]) { ScriptFacts(Name(zone)[i]); }
    NameHasNoDigits(text, Name(zone));
  }

  // ---------------------------------------------------------------- what cannot be read

  /** A value that cannot be read is filed without blanks, and unless it starts like a free-zone plate, without dashes,
      underscores and bars. */
  lemma RawHasNoMarks(value: string, i: nat)
    requires Normalize(value).Invalid? && i < |CanonicalOrRaw(value)|
    ensures !IsSpace(CanonicalOrRaw(value)[i])
    ensures !LooksFreeZone(Map(ToAsciiDigit, Trim(value))) ==> CanonicalOrRaw(value)[i] !in "-_|"
  {
    var text := Map(ToAsciiDigit, Trim(value));
    FilterKept(c => !IsSpace(c), Map(Upper, text));
    FilterKept(c => !IsRawSeparator(c), ReplaceAll(ReplaceAll(text, IRAN_FA, []), IRAN_EN, []));
  }

  lemma RawIs(value: string)
    requires Normalize(value).Invalid?
    ensures var text, raw := Map(ToAsciiDigit, Trim(value)), CanonicalOrRaw(value);
      if LooksFreeZone(text) then raw == Filter(c => !IsSpace(c), Map(Upper, text))
      else raw == Filter(c => !IsRawSeparator(c), ReplaceAll(ReplaceAll(text, IRAN_FA, []), IRAN_EN, []))
  {
  }

  /** One that starts like a free-zone plate is filed in capitals. */
  lemma RawZoneIsCapital(value: string, i: nat)
    requires Normalize(value).Invalid? && i < |CanonicalOrRaw(value)|
    requires LooksFreeZone(Map(ToAsciiDigit, Trim(value)))
    ensures Upper(CanonicalOrRaw(value)[i]) == CanonicalOrRaw(value)[i]
  {
    var text := Map(ToAsciiDigit, Trim(value));
    RawIs(value);
    FilterFrom(c => !IsSpace(c), Map(Upper, text));
    CapitalStays(text, CanonicalOrRaw(value)[i]);
  }

  lemma NothingNamed(text: string)
    requires Lonely(text)
    ensures ReplaceAll(ReplaceAll(text, IRAN_FA, []), IRAN_EN, []) == text
  {
    LonelyHasNoWord(text, IRAN_FA, []);
    LonelyHasNoWord(text, IRAN_EN, []);
  }

  /** Of any other in which no word occurs only those marks are dropped. */
  lemma RawKeepsRest(value: string, keep: char -> bool)
    requires Normalize(value).Invalid? && Lonely(Map(ToAsciiDigit, Trim(value)))
    requires !LooksFreeZone(Map(ToAsciiDigit, Trim(value))) && forall c :: keep(c) == (!IsSpace(c) && c !in "-_|")
    ensures CanonicalOrRaw(value) == Filter(keep, Map(ToAsciiDigit, Trim(value)))
  {
    var text := Map(ToAsciiDigit, Trim(value));
    assert CanonicalOrRaw(value) == Filter(c => !IsRawSeparator(c), text) by {
      RawIs(value);
      NothingNamed(text);
    }
    assert Filter(c => !IsRawSeparator(c), text) == Filter(keep, text) by {
      SameFilter(c => !IsRawSeparator(c), keep, text);
    }
  }

  lemma {:induction false} FilterFrom(keep: char -> bool, s: string)
    ensures forall i :: 0 <= i < |Filter(keep, s)| ==> Filter(keep, s)[i] in s
  {
    if s != [] { FilterFrom(keep, s[1..]); }
  }

  lemma {:induction false} SameFilter(keep: char -> bool, other: char -> bool, s: string)
    requires forall c :: keep(c) == other(c)
    ensures Filter(keep, s) == Filter(other, s)
  {
    if s != [] { SameFilter(keep, other, s[1..]); }
  }

  lemma CapitalStays(text: string, c: char)
    requires c in Map(Upper, text)
    ensures Upper(c) == c
  {
    var i :| 0 <= i < |text| && c == Upper(text[i]);
    CapitalsAre(text[i]);
    if 'a' <= text[i] <= 'z' { CapitalAt(text[i] as int - 'a' as int); }
  }
}
