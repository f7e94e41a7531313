/**
 * How a standard plate may be written: with the digits and letter variants of either keyboard, with separators
 * anywhere, and with the country's name; all of it reads as the same plate.
 */
module GrammarOutcomes {
  import opened Options
  import opened PlateGrammar

  /** What may stand between the characters. */
  predicate IsMark(c: char) { IsSpace(c) || c in "-_|./\\,:;" }

  /** One of the ways to write a plate's digit or letter: in Latin, Persian or Arabic digits, and with a variant of the
      letter. */
  predicate Writes(c: char, own: char) {
    || c == own
    || ('0' <= own <= '9' && c as int - 0x06F0 == own as int - '0' as int)
    || ('0' <= own <= '9' && c as int - 0x0660 == own as int - '0' as int)
    || IsVariant(c, own)
  }

  predicate IsVariant(c: char, own: char) {
    (own == 'ا' && c in "آأإٱ") || (own == 'ی' && c in "يىئ") || (own == 'ک' && c == 'ك') || (own == 'ه' && c in "ۀة")
  }

  /** The text writes these characters, in order, with nothing else but marks. */
  ghost predicate Spells(text: string, p: string) {
    if text == [] then p == []
    else
      (IsMark(text[0]) && Spells(text[1..], p))
      || (p != [] && Writes(text[0], p[0]) && Spells(text[1..], p[1..]))
  }

  /** Digits and letters, and no letter beside another. */
  ghost predicate PlateLike(p: string) {
    && (forall i :: 0 <= i < |p| ==> IsDigit(p[i]) || IsLetter(p[i]))
    && (forall i :: 0 <= i < |p| - 1 ==> IsDigit(p[i]) || IsDigit(p[i + 1]))
  }

  lemma StandardIsPlateLike(p: string)
    requires IsStandard(p)
    ensures PlateLike(p)
  {
    assert forall i :: 0 <= i < |p| && i != 2 ==> IsDigit(p[i]);
    assert IsLetter(p[2]);
  }

  lemma MarkIsSeparator(c: char)
    ensures IsMark(c) <==> IsSeparator(c)
  {
  }

  lemma WrittenDigit(c: char, own: char)
    requires Writes(c, own) && IsDigit(own)
    ensures ToAsciiDigit(c) == own && !IsMark(c) && !IsMark(own)
  {
    assert forall k: nat :: k < 10 ==> "0123456789"[k] as int == '0' as int + k;
  }

  lemma VariantFolds(c: char, own: char)
    requires IsVariant(c, own)
    ensures ToAsciiDigit(c) == c && Alias(c) == own && Upper(c) != 'F' && !IsSeparator(c)
  {
    assert own == 'ا' ==> c == 'آ' || c == 'أ' || c == 'إ' || c == 'ٱ';
    assert own == 'ی' ==> c == 'ي' || c == 'ى' || c == 'ئ';
    assert own == 'ه' ==> c == 'ۀ' || c == 'ة';
  }

  lemma LetterIsNoCode(c: char)
    requires IsLetter(c)
    ensures Upper(c) != 'F'
  {
  }

  lemma WrittenLetter(c: char, own: char)
    requires Writes(c, own) && IsLetter(own)
    ensures ToAsciiDigit(c) == c && Alias(c) == own && !IsMark(c) && !IsMark(own) && Upper(c) != 'F'
  {
    LetterFacts(own);
    LetterIsNoCode(own);
    MarkIsSeparator(own);
    MarkIsSeparator(c);
    if c != own { VariantFolds(c, own); }
  }

  lemma WrittenChar(c: char, own: char)
    requires Writes(c, own) && (IsDigit(own) || IsLetter(own))
    ensures !IsMark(c) && !IsMark(own) && Writes(ToAsciiDigit(c), own)
    ensures Alias(ToAsciiDigit(c)) == own && ToAsciiDigit(ToAsciiDigit(c)) == ToAsciiDigit(c)
    ensures IsDigit(own) ==> ToAsciiDigit(c) == own
    ensures Upper(ToAsciiDigit(c)) != 'F'
  {
    if IsDigit(own) {
      WrittenDigit(c, own);
      DigitFacts(own);
    } else {
      WrittenLetter(c, own);
    }
  }

  lemma MarkChar(c: char)
    requires IsMark(c)
    ensures ToAsciiDigit(c) == c && Alias(c) == c && Upper(c) != 'F' && !IsWord(c)
  {
  }

  /** With Latin digits for all others, the text spells the same. */
  lemma {:induction false} AsciiSpells(text: string, p: string)
    requires Spells(text, p) && PlateLike(p)
    ensures Spells(Map(ToAsciiDigit, text), p)
  {
    if text != [] {
      var more := Map(ToAsciiDigit, text);
      assert more[1..] == Map(ToAsciiDigit, text[1..]);
      if IsMark(text[0]) && Spells(text[1..], p) {
        MarkChar(text[0]);
        AsciiSpells(text[1..], p);
      } else {
        WrittenChar(text[0], p[0]);
        AsciiSpells(text[1..], p[1..]);
      }
    }
  }

  lemma {:induction false} TrimLeftSpells(text: string, p: string)
    requires Spells(text, p) && PlateLike(p)
    ensures Spells(TrimLeft(text), p)
  {
    if text != [] && IsSpace(text[0]) {
      if p != [] && Writes(text[0], p[0]) { WrittenChar(text[0], p[0]); }
      TrimLeftSpells(text[1..], p);
    }
  }

  lemma WithoutLastOf(text: string)
    requires |text| >= 2
    ensures var init := text[..|text| - 1];
      init != [] && init[0] == text[0] && init[1..] == text[1..][..|text| - 2] && text[1..] != []
      && text[1..][|text| - 2] == text[|text| - 1]
  {
  }

  lemma {:induction false} WithoutLast(text: string, p: string)
    requires text != [] && IsMark(text[|text| - 1]) && Spells(text, p) && PlateLike(p)
    ensures Spells(text[..|text| - 1], p)
    decreases |text|
  {
    if |text| == 1 {
      OneMark(text, p);
    } else {
      WithoutLastOf(text);
      if IsMark(text[0]) && Spells(text[1..], p) {
        WithoutLast(text[1..], p);
        MarkSpells(text[..|text| - 1], p);
      } else {
        RestIsPlateLike(p);
        WithoutLast(text[1..], p[1..]);
        CharSpells(text[..|text| - 1], p);
      }
    }
  }

  lemma OneMark(text: string, p: string)
    requires |text| == 1 && IsMark(text[0]) && Spells(text, p) && PlateLike(p)
    ensures Spells(text[..0], p)
  {
    if p != [] && Writes(text[0], p[0]) { WrittenChar(text[0], p[0]); }
  }

  lemma RestIsPlateLike(p: string)
    requires p != [] && PlateLike(p)
    ensures PlateLike(p[1..])
  {
  }

  lemma MarkSpells(text: string, p: string)
    requires text != [] && IsMark(text[0]) && Spells(text[1..], p)
    ensures Spells(text, p)
  {
  }

  lemma CharSpells(text: string, p: string)
    requires text != [] && p != [] && Writes(text[0], p[0]) && Spells(text[1..], p[1..])
    ensures Spells(text, p)
  {
  }

  lemma {:induction false} TrimRightSpells(text: string, p: string)
    requires Spells(text, p) && PlateLike(p)
    ensures Spells(TrimRight(text), p)
    decreases |text|
  {
    if text != [] && IsSpace(text[|text| - 1]) {
      WithoutLast(text, p);
      TrimRightSpells(text[..|text| - 1], p);
    }
  }

  lemma TrimSpells(text: string, p: string)
    requires Spells(text, p) && PlateLike(p)
    ensures Spells(Trim(text), p)
  {
    TrimLeftSpells(text, p);
    TrimRightSpells(TrimLeft(text), p);
  }

  ghost predicate Latin(text: string) { forall i :: 0 <= i < |text| ==> ToAsciiDigit(text[i]) == text[i] }

  lemma TrimIsPart(text: string)
    ensures forall i :: 0 <= i < |Trim(text)| ==> Trim(text)[i] in text
  {
    LeftIsPart(text);
    RightIsPart(TrimLeft(text));
  }

  lemma {:induction false} LeftIsPart(text: string)
    ensures forall i :: 0 <= i < |TrimLeft(text)| ==> TrimLeft(text)[i] in text
  {
    if text != [] && IsSpace(text[0]) { LeftIsPart(text[1..]); }
  }

  lemma {:induction false} RightIsPart(text: string)
    ensures forall i :: 0 <= i < |TrimRight(text)| ==> TrimRight(text)[i] in text
  {
    if text != [] && IsSpace(text[|text| - 1]) { RightIsPart(text[..|text| - 1]); }
  }

  /** Its word characters stand alone, as the plate's letter does. */
  lemma {:induction false} SpelledIsLonely(text: string, p: string)
    requires Spells(text, p) && PlateLike(p) && Latin(text)
    ensures Lonely(text)
    ensures text != [] && IsWord(text[0]) ==> p != [] && !IsDigit(p[0])
  {
    if text != [] {
      if IsMark(text[0]) && Spells(text[1..], p) {
        MarkChar(text[0]);
        SpelledIsLonely(text[1..], p);
      } else {
        WrittenChar(text[0], p[0]);
        assert p[1..] == [] || p[1..][0] == p[1];
        SpelledIsLonely(text[1..], p[1..]);
      }
      LonelyFrom(text);
    }
  }

  lemma LonelyFrom(text: string)
    requires text != [] && Lonely(text[1..]) && (|text| == 1 || !IsWord(text[0]) || !IsWord(text[1..][0]))
    ensures Lonely(text)
  {
    forall i | 0 <= i < |text| - 1 ensures !IsWord(text[i]) || !IsWord(text[i + 1]) {
      if i > 0 { assert text[1..][i - 1] == text[i] && text[1..][i] == text[i + 1]; }
    }
  }

  /** Without the marks, and with its variants folded, it is what it spells. */
  lemma {:induction false} SpelledCleans(text: string, p: string, keep: char -> bool)
    requires Spells(text, p) && PlateLike(p) && Latin(text) && forall c :: keep(c) <==> !IsMark(c)
    ensures Filter(keep, Map(Alias, text)) == p
  {
    if text != [] {
      var folded := Map(Alias, text);
      assert folded[1..] == Map(Alias, text[1..]);
      if IsMark(text[0]) && Spells(text[1..], p) {
        MarkChar(text[0]);
        SpelledCleans(text[1..], p, keep);
      } else {
        WrittenChar(text[0], p[0]);
        SpelledCleans(text[1..], p[1..], keep);
        assert p == [p[0]] + p[1..];
      }
    }
  }

  lemma SpelledIsClean(text: string, p: string)
    requires Spells(text, p) && PlateLike(p) && Latin(text) && Named(text) == text
    ensures Clean(text) == p
  {
    forall c ensures !IsSeparator(c) <==> !IsMark(c) { MarkIsSeparator(c); }
    SpelledCleans(text, p, c => !IsSeparator(c));
  }

  lemma SpelledIsNoZone(text: string, p: string)
    requires Spells(text, p) && PlateLike(p) && p != [] && Latin(text)
    ensures text != [] && !IsFreeZone(Map(Upper, text))
  {
    assert Upper(text[0]) != 'F' by {
      if IsMark(text[0]) { MarkChar(text[0]); } else { WrittenChar(text[0], p[0]); }
    }
    forall zone: Zone ensures !IsZonePlate(zone, Map(Upper, text)) { assert Map(Upper, text)[0] != 'F'; }
  }

  lemma ReadsClean(raw: string, text: string, p: string)
    requires Trim(raw) != [] && text == Trim(Map(ToAsciiDigit, raw)) && IsStandard(p)
    requires !IsFreeZone(Map(Upper, text)) && ZoneNamed(text, ZONES) == None && Clean(text) == p
    ensures Normalize(raw) == Valid(p, Standard(p[..2], p[2], p[3..6], p[6..]))
  {
  }

  /** However it is written, a standard plate is read. */
  lemma SpelledIsRead(raw: string, p: string)
    requires IsStandard(p) && Spells(raw, p)
    ensures Normalize(raw) == Valid(p, Standard(p[..2], p[2], p[3..6], p[6..]))
  {
    StandardIsPlateLike(p);
    var latin := Map(ToAsciiDigit, raw);
    var text := Trim(latin);
    assert Spells(text, p) by {
      AsciiSpells(raw, p);
      TrimSpells(latin, p);
    }
    assert Trim(raw) != [] by { TrimSpells(raw, p); }
    assert Latin(text) by {
      TrimIsPart(latin);
      LatinAll(raw);
    }
    SpelledIsNoZone(text, p);
    assert ZoneNamed(text, ZONES) == None && Clean(text) == p by {
      SpelledIsLonely(text, p);
      LonelyHasNoZone(text);
      LonelyIsPlain(text);
      SpelledIsClean(text, p);
    }
    ReadsClean(raw, text, p);
  }

  lemma LatinAll(raw: string)
    ensures forall c :: c in Map(ToAsciiDigit, raw) ==> ToAsciiDigit(c) == c
  {
    forall c | c in Map(ToAsciiDigit, raw) ensures ToAsciiDigit(c) == c {
      var i :| 0 <= i < |raw| && c == ToAsciiDigit(raw[i]);
      DigitOnce(raw[i]);
    }
  }

  lemma DigitOnce(c: char)
    ensures ToAsciiDigit(ToAsciiDigit(c)) == ToAsciiDigit(c)
  {
  }

  /** Which vehicles the letters stand for. */
  lemma TypesAre(c: char)
    ensures LetterType(c) == Some(Private) <==> c in "بجدسصطقلمنوهی"
    ensures LetterType(c) == Some(Taxi) <==> c == 'ت'
    ensures LetterType(c) == Some(Public) <==> c == 'ع'
    ensures LetterType(c) == Some(Government) <==> c == 'ا'
    ensures LetterType(c) == Some(Police) <==> c == 'پ'
    ensures LetterType(c) == Some(Military) <==> c in "ثشزف"
    ensures LetterType(c) == Some(Disabled) <==> c == 'ژ'
    ensures LetterType(c) == Some(Agricultural) <==> c == 'ک'
    ensures LetterType(c) == Some(OtherType) <==> c in "حگ"
  {
  }

  // ---------------------------------------------------------------- with the country's name

  /** The country's name, in Persian or in Latin letters of either case. */
  predicate IsCountry(name: string) {
    name == "ایران"
    || (|name| == 4 && name[0] in "iI" && name[1] in "rR" && name[2] in "aA" && name[3] in "nN")
  }

  /** Parts that stand apart from a word between them. */
  ghost predicate Apart(left: string, right: string) {
    && Lonely(left) && Lonely(right)
    && (left != [] ==> !IsWord(left[|left| - 1])) && (right != [] ==> !IsWord(right[0]))
  }

  lemma CountryChar(name: string, i: nat)
    requires IsCountry(name) && i < |name|
    ensures IsWord(name[i]) && !IsSpace(name[i]) && ToAsciiDigit(name[i]) == name[i] && Upper(name[i]) != 'F'
  {
  }

  lemma FirstReplaced(mid: string, right: string, pat: Pattern)
    requires pat != [] && |mid| == |pat| && MatchesAt(mid, 0, pat) && ReplaceAll(right, pat, []) == right
    ensures ReplaceAll(mid + right, pat, []) == right
  {
    var text := mid + right;
    forall k | 0 <= k < |pat| ensures text[0 + k] in pat[k] { assert mid[0 + k] in pat[k]; }
    assert MatchesAt(text, 0, pat) && text[|pat|..] == right && text != [];
    assert [] + right == right;
  }

  lemma NoMatchAfter(left: string, mid: string, right: string, pat: Pattern)
    requires left != [] && forall i :: 0 <= i < |left| ==> !MatchesAt(left + mid + right, i, pat)
    ensures (left + mid + right)[1..] == left[1..] + mid + right && (left + mid + right)[0] == left[0]
    ensures forall i :: 0 <= i < |left[1..]| ==> !MatchesAt(left[1..] + mid + right, i, pat)
  {
    var text, more := left + mid + right, left[1..] + mid + right;
    assert text[1..] == more;
    forall i | 0 <= i < |left| - 1 ensures !MatchesAt(more, i, pat) {
      if MatchesAt(more, i, pat) { MatchShift(text, i, pat); }
    }
  }

  lemma ReplaceStep(text: string, pat: Pattern)
    requires pat != [] && text != [] && !MatchesAt(text, 0, pat)
    ensures ReplaceAll(text, pat, []) == [text[0]] + ReplaceAll(text[1..], pat, [])
  {
  }

  lemma Rejoin(left: string, right: string)
    requires left != []
    ensures [left[0]] + (left[1..] + right) == left + right
  {
  }

  ghost predicate Drops(left: string, mid: string, right: string, pat: Pattern)
    requires pat != []
  {
    ReplaceAll(left + mid + right, pat, []) == left + right
  }

  lemma {:induction false} ReplaceBetween(left: string, mid: string, right: string, pat: Pattern)
    requires |pat| >= 2 && |mid| == |pat| && MatchesAt(mid, 0, pat) && ReplaceAll(right, pat, []) == right
    requires forall i :: 0 <= i < |left| ==> !MatchesAt(left + mid + right, i, pat)
    ensures Drops(left, mid, right, pat)
  {
    if left == [] {
      assert left + mid + right == mid + right && left + right == right;
      FirstReplaced(mid, right, pat);
    } else {
      NoMatchAfter(left, mid, right, pat);
      ReplaceBetween(left[1..], mid, right, pat);
      DropsMore(left, mid, right, pat);
    }
  }

  lemma DropsMore(left: string, mid: string, right: string, pat: Pattern)
    requires left != [] && pat != [] && Drops(left[1..], mid, right, pat)
    requires !MatchesAt(left + mid + right, 0, pat)
    requires (left + mid + right)[1..] == left[1..] + mid + right && (left + mid + right)[0] == left[0]
    ensures Drops(left, mid, right, pat)
  {
    ReplaceStep(left + mid + right, pat);
    Rejoin(left, right);
  }

  lemma WordPairIsInside(left: string, mid: string, right: string, i: nat)
    requires Apart(left, right) && i + 1 < |left + mid + right|
    ensures IsWord((left + mid + right)[i]) && IsWord((left + mid + right)[i + 1]) ==>
              |left| <= i && i + 1 < |left| + |mid|
  {
    var text := left + mid + right;
    if i + 1 < |left| {
      assert text[i] == left[i] && text[i + 1] == left[i + 1];
    } else if i < |left| {
      assert text[i] == left[|left| - 1];
    } else if i + 1 >= |left| + |mid| {
      var k := i + 1 - |left| - |mid|;
      assert text[i + 1] == right[k] && (k > 0 ==> text[i] == right[k - 1]);
    }
  }

  lemma CountryDropped(left: string, mid: string, right: string, pat: Pattern)
    requires Apart(left, right) && |pat| >= 2 && |mid| == |pat| && MatchesAt(mid, 0, pat)
    requires (forall c :: c in pat[0] ==> IsWord(c)) && forall c :: c in pat[1] ==> IsWord(c)
    ensures ReplaceAll(left + mid + right, pat, []) == left + right
  {
    forall i | 0 <= i < |left| ensures !MatchesAt(left + mid + right, i, pat) {
      if MatchesAt(left + mid + right, i, pat) {
        MatchFirst(left + mid + right, i, pat);
        WordPairIsInside(left, mid, right, i);
      }
    }
    LonelyHasNoWord(right, pat, []);
    ReplaceBetween(left, mid, right, pat);
  }

  lemma LatinKeepsPersian(left: string, mid: string, right: string)
    requires Apart(left, right) && IsCountry(mid) && mid != "ایران"
    ensures ReplaceAll(left + mid + right, IRAN_FA, []) == left + mid + right
  {
    var text := left + mid + right;
    forall i | 0 <= i < |text| - 1 ensures !(text[i] in IRAN_FA[0] && text[i + 1] in IRAN_FA[1]) {
      WordPairIsInside(left, mid, right, i);
      if |left| <= i < |left| + |mid| { assert text[i] == mid[i - |left|]; }
    }
    NoPairNoMatch(text, IRAN_FA, []);
  }

  lemma CountryIsDropped(left: string, mid: string, right: string)
    requires Apart(left, right) && Lonely(left + right) && IsCountry(mid)
    ensures Named(left + mid + right) == left + right
  {
    LonelyHasNoWord(left + right, IRAN_EN, []);
    LonelyHasNoWord(left + right, ALEF, ['ا']);
    if mid == "ایران" {
      CountryDropped(left, mid, right, IRAN_FA);
    } else {
      LatinKeepsPersian(left, mid, right);
      CountryDropped(left, mid, right, IRAN_EN);
    }
  }

  /** Three word characters in a row are part of the name. */
  lemma ThreeWords(left: string, mid: string, right: string, i: nat)
    requires Apart(left, right) && i + 2 < |left + mid + right|
    ensures var text := left + mid + right;
      IsWord(text[i]) && IsWord(text[i + 1]) && IsWord(text[i + 2]) ==>
        && |left| <= i && i + 2 < |left| + |mid|
        && text[i] == mid[i - |left|] && text[i + 1] == mid[i - |left| + 1]
  {
    WordPairIsInside(left, mid, right, i);
    WordPairIsInside(left, mid, right, i + 1);
  }

  predicate StartsAs(text: string, i: nat, name: string)
    requires i + 2 < |text| && |name| >= 3
  {
    text[i] == name[0] && text[i + 1] == name[1] && text[i + 2] == name[2]
  }

  lemma CountryHasNoZone(mid: string, k: nat, zone: Zone)
    requires IsCountry(mid) && k + 2 < |mid|
    ensures mid[k] != Name(zone)[0] || mid[k + 1] != Name(zone)[1]
  {
  }

  lemma NoZoneStart(left: string, mid: string, right: string, i: nat, zone: Zone)
    requires Apart(left, right) && IsCountry(mid) && i + 2 < |left + mid + right|
    ensures !StartsAs(left + mid + right, i, Name(zone))
  {
    ScriptFacts(Name(zone)[0]);
    ScriptFacts(Name(zone)[1]);
    ScriptFacts(Name(zone)[2]);
    ThreeWords(left, mid, right, i);
    if |left| <= i && i + 2 < |left| + |mid| { CountryHasNoZone(mid, i - |left|, zone); }
  }

  lemma NoZoneAt(left: string, mid: string, right: string, i: nat, zone: Zone)
    requires Apart(left, right) && IsCountry(mid)
    ensures !OccursAt(left + mid + right, i, Name(zone))
  {
    var text, name := left + mid + right, Name(zone);
    if i + |name| <= |text| {
      NoZoneStart(left, mid, right, i, zone);
      var part := text[i..i + |name|];
      assert part[0] == text[i] && part[1] == text[i + 1] && part[2] == text[i + 2];
    }
  }

  lemma {:induction false} NoZoneNamed(left: string, mid: string, right: string, zones: seq<Zone>)
    requires Apart(left, right) && IsCountry(mid)
    ensures ZoneNamed(left + mid + right, zones) == None
  {
    if zones != [] {
      forall i | 0 <= i <= |left + mid + right| ensures !OccursAt(left + mid + right, i, Name(zones[0])) {
        NoZoneAt(left, mid, right, i, zones[0]);
      }
      NoZoneNamed(left, mid, right, zones[1..]);
    }
  }

  // ---------------------------------------------------------------- and blanks around it

  lemma {:induction false} TrimLeftOf(left: string, rest: string)
    requires rest != [] && !IsSpace(rest[0])
    ensures TrimLeft(left + rest) == TrimLeft(left) + rest
  {
    if left == [] {
      assert left + rest == rest;
    } else {
      assert (left + rest)[1..] == left[1..] + rest && (left + rest)[0] == left[0];
      if IsSpace(left[0]) { TrimLeftOf(left[1..], rest); }
    }
  }

  lemma {:induction false} TrimRightOf(rest: string, right: string)
    requires rest != [] && !IsSpace(rest[|rest| - 1])
    ensures TrimRight(rest + right) == rest + TrimRight(right)
    decreases |right|
  {
    if right == [] {
      assert rest + right == rest;
    } else {
      var n := |right| - 1;
      assert (rest + right)[..|rest| + n] == rest + right[..n] && (rest + right)[|rest| + n] == right[n];
      if IsSpace(right[n]) { TrimRightOf(rest, right[..n]); }
    }
  }

  lemma {:induction false} LeftBlanks(left: string, right: string, p: string)
    requires Spells(left + right, p) && PlateLike(p)
    ensures Spells(TrimLeft(left) + right, p)
    ensures TrimLeft(left) != [] ==> TrimLeft(left)[|TrimLeft(left)| - 1] == left[|left| - 1]
  {
    if left != [] && IsSpace(left[0]) {
      OneBlank(left, right, p);
      LeftBlanks(left[1..], right, p);
    }
  }

  lemma OneBlank(left: string, right: string, p: string)
    requires left != [] && IsSpace(left[0]) && Spells(left + right, p) && PlateLike(p)
    ensures Spells(left[1..] + right, p)
  {
    assert (left + right)[1..] == left[1..] + right;
    if p != [] && Writes(left[0], p[0]) { WrittenChar(left[0], p[0]); }
  }

  lemma {:induction false} RightBlanks(left: string, right: string, p: string)
    requires Spells(left + right, p) && PlateLike(p)
    ensures Spells(left + TrimRight(right), p)
    ensures TrimRight(right) != [] ==> TrimRight(right)[0] == right[0]
    decreases |right|
  {
    if right != [] && IsSpace(right[|right| - 1]) {
      var n := |right| - 1;
      WithoutLast(left + right, p);
      assert (left + right)[..|left| + n] == left + right[..n];
      RightBlanks(left, right[..n], p);
    }
  }

  lemma TrimAround(left: string, mid: string, right: string)
    requires IsCountry(mid)
    ensures Trim(left + mid + right) == TrimLeft(left) + mid + TrimRight(right)
  {
    CountryChar(mid, 0);
    CountryChar(mid, |mid| - 1);
    var kept := TrimLeft(left) + mid;
    assert left + mid + right == left + (mid + right);
    TrimLeftOf(left, mid + right);
    assert TrimLeft(left) + (mid + right) == kept + right;
    TrimRightOf(kept, right);
  }

  lemma MapAround(left: string, mid: string, right: string)
    requires IsCountry(mid)
    ensures Map(ToAsciiDigit, left + mid + right) == Map(ToAsciiDigit, left) + mid + Map(ToAsciiDigit, right)
  {
    forall i | 0 <= i < |mid| ensures ToAsciiDigit(mid[i]) == mid[i] { CountryChar(mid, i); }
  }

  lemma LonelyParts(left: string, right: string)
    requires Lonely(left + right)
    ensures Lonely(left) && Lonely(right)
  {
    forall i | 0 <= i < |left| - 1 ensures !IsWord(left[i]) || !IsWord(left[i + 1]) {
      assert (left + right)[i] == left[i] && (left + right)[i + 1] == left[i + 1];
    }
    forall i | 0 <= i < |right| - 1 ensures !IsWord(right[i]) || !IsWord(right[i + 1]) {
      assert (left + right)[|left| + i] == right[i] && (left + right)[|left| + i + 1] == right[i + 1];
    }
  }

  lemma ReadsAround(left: string, mid: string, right: string, p: string)
    requires IsStandard(p) && IsCountry(mid) && Spells(left + right, p) && Latin(left + right)
    requires left != [] ==> IsMark(left[|left| - 1])
    requires right != [] ==> IsMark(right[0])
    ensures ZoneNamed(left + mid + right, ZONES) == None && Clean(left + mid + right) == p
    ensures !IsFreeZone(Map(Upper, left + mid + right))
  {
    StandardIsPlateLike(p);
    SpelledIsLonely(left + right, p);
    LonelyParts(left, right);
    if left != [] { MarkChar(left[|left| - 1]); }
    if right != [] { MarkChar(right[0]); }
    NoZoneNamed(left, mid, right, ZONES);
    CountryIsDropped(left, mid, right);
    LonelyIsPlain(left + right);
    SpelledIsClean(left + right, p);
    FirstIsNoCode(left, mid, right, p);
  }

  lemma FirstIsNoCode(left: string, mid: string, right: string, p: string)
    requires PlateLike(p) && p != [] && IsCountry(mid) && Spells(left + right, p) && Latin(left + right)
    ensures !IsFreeZone(Map(Upper, left + mid + right))
  {
    var text := left + mid + right;
    assert Upper(text[0]) != 'F' by {
      if left == [] {
        CountryChar(mid, 0);
        assert text[0] == mid[0];
      } else {
        assert text[0] == left[0] == (left + right)[0];
        if IsMark(left[0]) { MarkChar(left[0]); } else { WrittenChar(left[0], p[0]); }
      }
    }
    forall zone: Zone ensures !IsZonePlate(zone, Map(Upper, text)) { assert Map(Upper, text)[0] != 'F'; }
  }

  /** The country's name may stand anywhere in it, if it is set apart by marks. */
  lemma CountryIsRead(left: string, mid: string, right: string, p: string)
    requires IsStandard(p) && IsCountry(mid) && Spells(left + right, p)
    requires left != [] ==> IsMark(left[|left| - 1])
    requires right != [] ==> IsMark(right[0])
    ensures Normalize(left + mid + right) == Valid(p, Standard(p[..2], p[2], p[3..6], p[6..]))
  {
    var raw, text := left + mid + right, Trim(Map(ToAsciiDigit, left) + mid + Map(ToAsciiDigit, right));
    assert Trim(Map(ToAsciiDigit, raw)) == text by { MapAround(left, mid, right); }
    NotBlank(left, mid, right);
    LatinIsRead(left, mid, right, p);
    ReadsClean(raw, text, p);
  }

  lemma NotBlank(left: string, mid: string, right: string)
    requires IsCountry(mid)
    ensures Trim(left + mid + right) != []
  {
    TrimAround(left, mid, right);
  }

  lemma MapConcat(left: string, right: string)
    ensures Map(ToAsciiDigit, left + right) == Map(ToAsciiDigit, left) + Map(ToAsciiDigit, right)
  {
  }

  lemma LatinIsRead(left: string, mid: string, right: string, p: string)
    requires IsStandard(p) && IsCountry(mid) && Spells(left + right, p)
    requires (left != [] ==> IsMark(left[|left| - 1])) && (right != [] ==> IsMark(right[0]))
    ensures var text := Trim(Map(ToAsciiDigit, left) + mid + Map(ToAsciiDigit, right));
      ZoneNamed(text, ZONES) == None && Clean(text) == p && !IsFreeZone(Map(Upper, text))
  {
    StandardIsPlateLike(p);
    AsciiSpells(left + right, p);
    MapConcat(left, right);
    MarksStay(left, right);
    LatinParts(left, right);
    TrimmedAround(Map(ToAsciiDigit, left), mid, Map(ToAsciiDigit, right), p);
  }

  lemma MarksStay(left: string, right: string)
    requires (left != [] ==> IsMark(left[|left| - 1])) && (right != [] ==> IsMark(right[0]))
    ensures left != [] ==> IsMark(Map(ToAsciiDigit, left)[|left| - 1])
    ensures right != [] ==> IsMark(Map(ToAsciiDigit, right)[0])
  {
    if left != [] { MarkChar(left[|left| - 1]); }
    if right != [] { MarkChar(right[0]); }
  }

  lemma TrimmedAround(l: string, mid: string, r: string, p: string)
    requires IsStandard(p) && IsCountry(mid) && Spells(l + r, p) && Latin(TrimLeft(l) + TrimRight(r))
    requires (l != [] ==> IsMark(l[|l| - 1])) && (r != [] ==> IsMark(r[0]))
    ensures var text := Trim(l + mid + r);
      ZoneNamed(text, ZONES) == None && Clean(text) == p && !IsFreeZone(Map(Upper, text))
  {
    StandardIsPlateLike(p);
    LeftBlanks(l, r, p);
    RightBlanks(TrimLeft(l), r, p);
    TrimAround(l, mid, r);
    ReadsAround(TrimLeft(l), mid, TrimRight(r), p);
  }

  lemma LatinParts(left: string, right: string)
    ensures Latin(TrimLeft(Map(ToAsciiDigit, left)) + TrimRight(Map(ToAsciiDigit, right)))
  {
    LeftIsPart(Map(ToAsciiDigit, left));
    RightIsPart(Map(ToAsciiDigit, right));
    LatinAll(left);
    LatinAll(right);
  }
}
