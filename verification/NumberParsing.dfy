/**
  Reading amounts back from words, and the round trip: the printers lose nothing, so distinct amounts never print alike.
 */
module NumberParsing {
  import opened Common
  import opened Rounding
  import opened NumberWords

  // ---------------------------------------------------------------- what words mean

  datatype Meaning = Add(value: nat) | And | Hundredfold | Thousandfold | Thousands | Millions | Milliards | Billions | Topmost | Unknown

  function EsMeaning(w: string): Meaning {
    match w
    case "CERO" => Add(0)
    case "UN" => Add(1)
    case "DOS" => Add(2)
    case "TRES" => Add(3)
    case "CUATRO" => Add(4)
    case "CINCO" => Add(5)
    case "SEIS" => Add(6)
    case "SIETE" => Add(7)
    case "OCHO" => Add(8)
    case "NUEVE" => Add(9)
    case "DIEZ" => Add(10)
    case "ONCE" => Add(11)
    case "DOCE" => Add(12)
    case "TRECE" => Add(13)
    case "CATORCE" => Add(14)
    case "QUINCE" => Add(15)
    case "DIECISÉIS" => Add(16)
    case "DIECISIETE" => Add(17)
    case "DIECIOCHO" => Add(18)
    case "DIECINUEVE" => Add(19)
    case "VEINTE" => Add(20)
    case "VEINTIUNO" => Add(21)
    case "VEINTIÚN" => Add(21)
    case "VEINTIDÓS" => Add(22)
    case "VEINTITRÉS" => Add(23)
    case "VEINTICUATRO" => Add(24)
    case "VEINTICINCO" => Add(25)
    case "VEINTISÉIS" => Add(26)
    case "VEINTISIETE" => Add(27)
    case "VEINTIOCHO" => Add(28)
    case "VEINTINUEVE" => Add(29)
    case "TREINTA" => Add(30)
    case "CUARENTA" => Add(40)
    case "CINCUENTA" => Add(50)
    case "SESENTA" => Add(60)
    case "SETENTA" => Add(70)
    case "OCHENTA" => Add(80)
    case "NOVENTA" => Add(90)
    case "CIEN" => Add(100)
    case "CIENTO" => Add(100)
    case "DOSCIENTOS" => Add(200)
    case "TRESCIENTOS" => Add(300)
    case "CUATROCIENTOS" => Add(400)
    case "QUINIENTOS" => Add(500)
    case "SEISCIENTOS" => Add(600)
    case "SETECIENTOS" => Add(700)
    case "OCHOCIENTOS" => Add(800)
    case "NOVECIENTOS" => Add(900)
    case "Y" => And
    case "MIL" => Thousandfold
    case "MILLÓN" => Millions
    case "MILLONES" => Millions
    case "BILLÓN" => Billions
    case "BILLONES" => Billions
    case _ => Unknown
  }

  function EnMeaning(w: string): Meaning {
    match w
    case "ZERO" => Add(0)
    case "ONE" => Add(1)
    case "TWO" => Add(2)
    case "THREE" => Add(3)
    case "FOUR" => Add(4)
    case "FIVE" => Add(5)
    case "SIX" => Add(6)
    case "SEVEN" => Add(7)
    case "EIGHT" => Add(8)
    case "NINE" => Add(9)
    case "TEN" => Add(10)
    case "ELEVEN" => Add(11)
    case "TWELVE" => Add(12)
    case "THIRTEEN" => Add(13)
    case "FOURTEEN" => Add(14)
    case "FIFTEEN" => Add(15)
    case "SIXTEEN" => Add(16)
    case "SEVENTEEN" => Add(17)
    case "EIGHTEEN" => Add(18)
    case "NINETEEN" => Add(19)
    case "TWENTY" => Add(20)
    case "THIRTY" => Add(30)
    case "FORTY" => Add(40)
    case "FIFTY" => Add(50)
    case "SIXTY" => Add(60)
    case "SEVENTY" => Add(70)
    case "EIGHTY" => Add(80)
    case "NINETY" => Add(90)
    case "HUNDRED" => Hundredfold
    case "THOUSAND" => Thousands
    case "MILLION" => Millions
    case "BILLION" => Milliards
    case "TRILLION" => Topmost
    case _ => Unknown
  }

  function MeaningIn(lang: Language, w: string): Meaning {
    if lang.Spanish? then EsMeaning(w) else EnMeaning(w)
  }

  /** The closed groups read so far, and the group being read. */
  datatype Reading = Reading(total: nat, group: nat)

  function Hear(r: Reading, m: Meaning): Reading {
    match m
    case Add(v) => r.(group := r.group + v)
    case And => r
    case Hundredfold => r.(group := r.group * 100)
    case Thousandfold => r.(group := r.group * 1000)
    case Thousands => Reading(r.total + r.group * 1000, 0)
    case Millions => Reading(r.total + r.group * 1_000_000, 0)
    case Milliards => Reading(r.total + r.group * 1_000_000_000, 0)
    case Billions => Reading(r.total + r.group * 1_000_000_000_000, 0)
    case Topmost => Reading((r.total + r.group) * 1_000_000_000_000, 0)
    case Unknown => r
  }

  function Read(lang: Language, r: Reading, words: Words): Reading
    decreases |words|
  {
    if words == [] then r else Read(lang, Hear(r, MeaningIn(lang, words[0])), words[1..])
  }

  predicate AllKnown(lang: Language, words: Words) {
    forall w :: w in words ==> MeaningIn(lang, w) != Unknown
  }

  /** The words are known and take the reading from one state to another. */
  predicate ReadsTo(lang: Language, from: Reading, words: Words, last: Reading) {
    AllKnown(lang, words) && Read(lang, from, words) == last
  }

  lemma {:induction false} ReadConcat(lang: Language, r: Reading, a: Words, b: Words)
    ensures Read(lang, r, a + b) == Read(lang, Read(lang, r, a), b)
    decreases |a|
  {
    if a == [] {
      assert a + b == b;
    } else {
      assert (a + b)[1..] == a[1..] + b;
      ReadConcat(lang, Hear(r, MeaningIn(lang, a[0])), a[1..], b);
    }
  }

  lemma ReadOne(lang: Language, r: Reading, w: string)
    ensures Read(lang, r, [w]) == Hear(r, MeaningIn(lang, w))
  {
    assert [w][1..] == [];
  }

  lemma ReadLast(lang: Language, r: Reading, a: Words, w: string)
    ensures Read(lang, r, a + [w]) == Hear(Read(lang, r, a), MeaningIn(lang, w))
  {
    ReadConcat(lang, r, a, [w]);
    ReadOne(lang, Read(lang, r, a), w);
  }

  // ---------------------------------------------------------------- the tables

  lemma EsLowUnits(n: nat)
    requires 1 <= n < 15
    ensures EsMeaning(TABLE_UNITS_ES[n]) == Add(n)
  {
  }

  lemma EsHighUnits(n: nat)
    requires 15 <= n < 30
    ensures EsMeaning(TABLE_UNITS_ES[n]) == Add(n)
  {
  }

  lemma EsUnits(n: nat)
    requires 1 <= n < 30
    ensures EsMeaning(TABLE_UNITS_ES[n]) == Add(n)
  {
    if n < 15 { EsLowUnits(n); } else { EsHighUnits(n); }
  }

  lemma EsTens(n: nat)
    requires 3 <= n < 10
    ensures EsMeaning(TABLE_TENS_ES[n]) == Add(10 * n)
  {
  }

  lemma EsHundreds(n: nat)
    requires 1 <= n < 10
    ensures EsMeaning(TABLE_HUNDREDS_ES[n]) == Add(100 * n)
  {
  }

  lemma EnUnits(n: nat)
    requires 1 <= n < 20
    ensures EnMeaning(TABLE_UNITS_EN[n]) == Add(n)
  {
  }

  lemma EnTens(n: nat)
    requires 2 <= n < 10
    ensures EnMeaning(TABLE_TENS_EN[n]) == Add(10 * n)
  {
  }

  /** The words are known and add `num` to the group being read. */
  predicate Adds(lang: Language, words: Words, num: nat, r: Reading) {
    AllKnown(lang, words) && Read(lang, r, words) == Reading(r.total, r.group + num)
  }

  lemma AddsOne(lang: Language, w: string, v: nat, r: Reading)
    requires MeaningIn(lang, w) == Meaning.Add(v)
    ensures Adds(lang, [w], v, r)
  {
    ReadOne(lang, r, w);
  }

  lemma AddsBoth(lang: Language, a: Words, x: nat, b: Words, y: nat, r: Reading)
    requires Adds(lang, a, x, r) && Adds(lang, b, y, Reading(r.total, r.group + x))
    ensures Adds(lang, a + b, x + y, r)
  {
    ReadConcat(lang, r, a, b);
  }

  lemma AddsToEmpty(lang: Language, a: Words, x: nat, b: Words, y: nat, t: nat)
    requires Adds(lang, a, x, Reading(t, 0)) && Adds(lang, b, y, Reading(t, x))
    ensures Adds(lang, a + b, x + y, Reading(t, 0))
  {
    AddsBoth(lang, a, x, b, y, Reading(t, 0));
  }

  // ---------------------------------------------------------------- Spanish

  lemma EsTwoDigitsAdds(num: nat, apocope: bool, r: Reading)
    requires num < 100
    ensures Adds(Spanish, EsTwoDigits(num, apocope), num, r)
  {
    if 0 < num < 30 {
      EsUnits(num);
      AddsOne(Spanish, if num == 21 && apocope then "VEINTIÚN" else TABLE_UNITS_ES[num], num, r);
    } else if num >= 30 {
      var tens, units := num / 10, num % 10;
      EsTens(tens);
      AddsOne(Spanish, TABLE_TENS_ES[tens], 10 * tens, r);
      if units != 0 { EsTensAndUnits(tens, units, r); }
    }
  }

  lemma EsTensAndUnits(tens: nat, units: nat, r: Reading)
    requires 3 <= tens < 10 && 1 <= units < 10
    ensures Adds(Spanish, [TABLE_TENS_ES[tens], "Y", TABLE_UNITS_ES[units]], 10 * tens + units, r)
  {
    var t, u := TABLE_TENS_ES[tens], TABLE_UNITS_ES[units];
    EsTens(tens);
    EsUnits(units);
    AddsOne(Spanish, t, 10 * tens, r);
    var mid := Reading(r.total, r.group + 10 * tens);
    ReadOne(Spanish, mid, "Y");
    AddsBoth(Spanish, [t], 10 * tens, ["Y"], 0, r);
    AddsOne(Spanish, u, units, mid);
    AddsBoth(Spanish, [t] + ["Y"], 10 * tens, [u], units, r);
    assert [t] + ["Y"] + [u] == [t, "Y", u];
  }

  lemma WordAndRest(lang: Language, w: string, v: nat, suffix: Words, rest: nat, r: Reading)
    requires MeaningIn(lang, w) == Meaning.Add(v) && Adds(lang, suffix, rest, Reading(r.total, r.group + v))
    ensures Adds(lang, [w] + suffix, v + rest, r)
  {
    AddsOne(lang, w, v, r);
    AddsBoth(lang, [w], v, suffix, rest, r);
  }

  lemma EsHundredsAndRest(hundreds: nat, suffix: Words, rest: nat, r: Reading)
    requires 1 <= hundreds < 10 && Adds(Spanish, suffix, rest, Reading(r.total, r.group + 100 * hundreds))
    ensures Adds(Spanish, [TABLE_HUNDREDS_ES[hundreds]] + suffix, 100 * hundreds + rest, r)
  {
    EsHundreds(hundreds);
    WordAndRest(Spanish, TABLE_HUNDREDS_ES[hundreds], 100 * hundreds, suffix, rest, r);
  }

  lemma EsThreeDigitsAdds(num: nat, apocope: bool, r: Reading)
    requires num < 1000
    ensures EsThreeDigits(num, apocope).Ok? && Adds(Spanish, EsThreeDigits(num, apocope).value, num, r)
    ensures num > 0 ==> EsThreeDigits(num, apocope).value != []
  {
    if num == 0 {
    } else if num == 100 {
      AddsOne(Spanish, "CIEN", 100, r);
    } else if num < 100 {
      EsTwoDigitsAdds(num, apocope, r);
      assert [] + EsTwoDigits(num, apocope) == EsTwoDigits(num, apocope);
    } else {
      var hundreds, rest := num / 100, num % 100;
      EsTwoDigitsAdds(rest, apocope, Reading(r.total, r.group + 100 * hundreds));
      EsHundredsAndRest(hundreds, EsTwoDigits(rest, apocope), rest, r);
    }
  }

  /** A scale word after words that fill an empty group. */
  lemma ScaleAfter(lang: Language, words: Words, count: nat, w: string, t: nat)
    requires Adds(lang, words, count, Reading(t, 0)) && MeaningIn(lang, w) != Unknown
    ensures AllKnown(lang, words + [w])
    ensures Read(lang, Reading(t, 0), words + [w]) == Hear(Reading(t, count), MeaningIn(lang, w))
  {
    ReadLast(lang, Reading(t, 0), words, w);
  }

  lemma EsThousandsAdd(prefix: Words, thousands: nat, t: nat)
    requires Adds(Spanish, prefix, thousands, Reading(t, 0))
    ensures Adds(Spanish, prefix + ["MIL"], 1000 * thousands, Reading(t, 0))
  {
    ScaleAfter(Spanish, prefix, thousands, "MIL", t);
  }

  lemma EsThousandsAndRest(prefix: Words, thousands: nat, suffix: Words, rest: nat, t: nat)
    requires Adds(Spanish, prefix, thousands, Reading(t, 0)) && Adds(Spanish, suffix, rest, Reading(t, 1000 * thousands))
    ensures Adds(Spanish, prefix + ["MIL"] + suffix, 1000 * thousands + rest, Reading(t, 0))
  {
    EsThousandsAdd(prefix, thousands, t);
    AddsToEmpty(Spanish, prefix + ["MIL"], 1000 * thousands, suffix, rest, t);
  }

  /** Counts below a million can be printed, and read as the group they fill. */
  lemma EsMultiplierAdds(num: nat, t: nat)
    requires num < 1_000_000
    ensures EsMultiplier(num).Ok? && Adds(Spanish, EsMultiplier(num).value, num, Reading(t, 0))
    ensures num > 0 ==> EsMultiplier(num).value != []
  {
    if num < 1000 {
      EsThreeDigitsAdds(num, true, Reading(t, 0));
    } else {
      var thousands, rest := num / 1000, num % 1000;
      var prefix, suffix := if thousands == 1 then Ok(["UN"]) else EsThreeDigits(thousands, true), EsThreeDigits(rest, true);
      EsThreeDigitsAdds(thousands, true, Reading(t, 0));
      EsThreeDigitsAdds(rest, true, Reading(t, 1000 * thousands));
      AddsOne(Spanish, "UN", 1, Reading(t, 0));
      EsThousandsAndRest(prefix.value, thousands, suffix.value, rest, t);
    }
  }

  /** Larger counts run past the end of the hundreds table. */
  lemma EsMultiplierFails(num: nat)
    requires num >= 1_000_000
    ensures EsMultiplier(num).Err?
  {
    assert num / 1000 >= 1000;
  }

  lemma EsScaleMeaning(k: nat)
    requires k < |SCALES_ES|
    ensures EsMeaning(SCALES_ES[k].plural) == EsMeaning(SCALES_ES[k].one[1])
         == if k == 0 then Billions else if k == 1 then Millions else Thousandfold
    ensures |SCALES_ES[k].one| == 2 && SCALES_ES[k].one[0] == "UN"
  {
  }

  /** The reading a scale leaves behind: a closed group for billions and millions, thousands in the open group. */
  function AfterScale(k: nat, count: nat, t: nat): Reading
    requires k < |SCALES_ES|
  {
    if k == 0 then Reading(t + count * 1_000_000_000_000, 0)
    else if k == 1 then Reading(t + count * 1_000_000, 0)
    else Reading(t, count * 1000)
  }

  lemma EsScalePartReads(k: nat, count: nat, t: nat)
    requires k < |SCALES_ES| && count < 1_000_000
    ensures EsScalePart(SCALES_ES[k], count).Ok? && AllKnown(Spanish, EsScalePart(SCALES_ES[k], count).value)
    ensures Read(Spanish, Reading(t, 0), EsScalePart(SCALES_ES[k], count).value) == AfterScale(k, count, t)
    ensures count > 0 ==> EsScalePart(SCALES_ES[k], count).value != []
  {
    var scale := SCALES_ES[k];
    EsScaleMeaning(k);
    if count == 1 {
      AddsOne(Spanish, "UN", 1, Reading(t, 0));
      ScaleAfter(Spanish, ["UN"], 1, scale.one[1], t);
      assert scale.one == ["UN"] + [scale.one[1]];
    } else if count > 1 {
      EsMultiplierAdds(count, t);
      ScaleAfter(Spanish, EsMultiplier(count).value, count, scale.plural, t);
    }
  }

  lemma EsUnfolds(k: nat, num: nat, count: nat, left: nat)
    requires k < |SCALES_ES| && count == num / SCALES_ES[k].value && left == num % SCALES_ES[k].value
    requires EsScalePart(SCALES_ES[k], count).Ok? && EsFrom(k + 1, left).Ok?
    ensures EsFrom(k, num) == Ok(EsScalePart(SCALES_ES[k], count).value + EsFrom(k + 1, left).value)
  {
  }

  function Value(r: Reading): nat {
    r.total + r.group
  }

  /** Numbers below this are printed from scale k on. */
  function EsBound(k: nat): nat {
    match k
    case 0 => 1_000_000_000_000_000_000
    case 1 => 1_000_000_000_000
    case 2 => 1_000_000
    case _ => 1000
  }

  /** Dividing by a scale leaves a printable count, a printable rest and nothing else. */
  lemma EsDivide(k: nat, num: nat, t: nat)
    requires k < |SCALES_ES| && num < EsBound(k)
    ensures var count, left := num / SCALES_ES[k].value, num % SCALES_ES[k].value;
            && count < 1_000_000 && left < EsBound(k + 1)
            && Value(AfterScale(k, count, t)) + left == t + num && (num > 0 ==> count > 0 || left > 0)
  {
    if k == 0 {
      assert num == num / 1_000_000_000_000 * 1_000_000_000_000 + num % 1_000_000_000_000;
    } else if k == 1 {
      assert num == num / 1_000_000 * 1_000_000 + num % 1_000_000;
    } else {
      assert num == num / 1000 * 1000 + num % 1000;
    }
  }

  /** From scale k on the words add the number; only the last three digits may find an open group. */
  lemma {:induction false} EsFromReads(k: nat, num: nat, r: Reading)
    requires k <= |SCALES_ES| && num < EsBound(k) && (k == |SCALES_ES| || r.group == 0)
    ensures EsFrom(k, num).Ok? && AllKnown(Spanish, EsFrom(k, num).value) && (num > 0 ==> EsFrom(k, num).value != [])
    ensures Value(Read(Spanish, r, EsFrom(k, num).value)) == Value(r) + num
    decreases |SCALES_ES| - k
  {
    if k == |SCALES_ES| {
      EsThreeDigitsAdds(num, false, r);
    } else {
      var count, left := num / SCALES_ES[k].value, num % SCALES_ES[k].value;
      EsDivide(k, num, r.total);
      EsScalePartReads(k, count, r.total);
      EsFromReads(k + 1, left, AfterScale(k, count, r.total));
      EsUnfolds(k, num, count, left);
      ReadConcat(Spanish, r, EsScalePart(SCALES_ES[k], count).value, EsFrom(k + 1, left).value);
    }
  }

  lemma EsTooLarge(num: nat)
    requires num >= 1_000_000_000_000_000_000
    ensures EsWords(num).Err?
  {
    var count := num / 1_000_000_000_000;
    assert count >= 1_000_000;
    EsMultiplierFails(count);
    assert EsScalePart(SCALES_ES[0], count).Err?;
  }

  lemma EsPositive(num: nat)
    requires 0 < num < 1_000_000_000_000_000_000
    ensures EsFrom(0, num).Ok? && AllKnown(Spanish, EsFrom(0, num).value) && EsFrom(0, num).value != []
    ensures Value(Read(Spanish, Reading(0, 0), EsFrom(0, num).value)) == num
  {
    EsFromReads(0, num, Reading(0, 0));
  }

  lemma EsZero()
    ensures AllKnown(Spanish, ["CERO"]) && Value(Read(Spanish, Reading(0, 0), ["CERO"])) == 0
  {
    AddsOne(Spanish, "CERO", 0, Reading(0, 0));
  }

  /** Spanish prints exactly the integers below 10^18. */
  lemma SpanishPrintsIff(num: nat)
    ensures EsWords(num).Ok? <==> num < 1_000_000_000_000_000_000
  {
    if 0 < num < 1_000_000_000_000_000_000 {
      EsPositive(num);
    } else if num > 0 {
      EsTooLarge(num);
    }
  }

  /** The words read back as the number. */
  lemma SpanishReadsBack(num: nat)
    requires num < 1_000_000_000_000_000_000
    ensures EsWords(num).Ok? && EsWords(num).value != [] && AllKnown(Spanish, EsWords(num).value)
    ensures Value(Read(Spanish, Reading(0, 0), EsWords(num).value)) == num
  {
    if num == 0 {
      EsZero();
    } else {
      EsPositive(num);
    }
  }

  // ---------------------------------------------------------------- English

  lemma EnTwoDigitsAdds(num: nat, r: Reading)
    requires num < 100
    ensures Adds(English, EnTwoDigits(num), num, r)
  {
    if 0 < num < 20 {
      EnUnits(num);
      AddsOne(English, TABLE_UNITS_EN[num], num, r);
    } else if num >= 20 {
      var tens, units := num / 10, num % 10;
      EnTens(tens);
      AddsOne(English, TABLE_TENS_EN[tens], 10 * tens, r);
      if units != 0 {
        EnUnits(units);
        AddsOne(English, TABLE_UNITS_EN[units], units, Reading(r.total, r.group + 10 * tens));
        AddsBoth(English, [TABLE_TENS_EN[tens]], 10 * tens, [TABLE_UNITS_EN[units]], units, r);
      }
    }
  }

  lemma EnHundredsAndRest(hundreds: nat, suffix: Words, rest: nat, t: nat)
    requires 1 <= hundreds < 10 && Adds(English, suffix, rest, Reading(t, 100 * hundreds))
    ensures Adds(English, [TABLE_UNITS_EN[hundreds], "HUNDRED"] + suffix, 100 * hundreds + rest, Reading(t, 0))
  {
    var u := TABLE_UNITS_EN[hundreds];
    EnUnits(hundreds);
    AddsOne(English, u, hundreds, Reading(t, 0));
    ScaleAfter(English, [u], hundreds, "HUNDRED", t);
    assert [u] + ["HUNDRED"] == [u, "HUNDRED"];
    AddsBoth(English, [u, "HUNDRED"], 100 * hundreds, suffix, rest, Reading(t, 0));
  }

  lemma EnThreeDigitsAdds(num: nat, t: nat)
    requires num < 1000
    ensures Adds(English, EnThreeDigits(num), num, Reading(t, 0))
    ensures num > 0 ==> EnThreeDigits(num) != []
  {
    var hundreds, rest := num / 100, num % 100;
    EnThreeDigitsShape(num, hundreds, rest);
    if hundreds == 0 {
      EnTwoDigitsAdds(rest, Reading(t, 0));
    } else {
      EnTwoDigitsAdds(rest, Reading(t, 100 * hundreds));
      EnHundredsAndRest(hundreds, EnTwoDigits(rest), rest, t);
    }
  }

  lemma EnThreeDigitsShape(num: nat, hundreds: nat, rest: nat)
    requires num < 1000 && hundreds == num / 100 && rest == num % 100
    ensures hundreds < 10 && num == 100 * hundreds + rest
    ensures hundreds == 0 ==> EnThreeDigits(num) == EnTwoDigits(rest)
    ensures hundreds > 0 ==> EnThreeDigits(num) == [TABLE_UNITS_EN[hundreds], "HUNDRED"] + EnTwoDigits(rest)
  {
    assert [] + EnTwoDigits(rest) == EnTwoDigits(rest);
  }

  lemma EnScaleMeaning(k: nat)
    requires k < |SCALES_EN|
    ensures EnMeaning(SCALES_EN[k].plural) == match k case 0 => Topmost case 1 => Milliards case 2 => Millions case _ => Thousands
    ensures SCALES_EN[k].one == ["ONE", SCALES_EN[k].plural]
  {
  }

  /** Below a thousand only digits are printed. */
  lemma EnSmall(num: nat, k: nat)
    requires num < 1000 && k <= |SCALES_EN|
    ensures EnFrom(k, num) == EnThreeDigits(num)
    decreases |SCALES_EN| - k
  {
    if k < |SCALES_EN| {
      EnSmall(num, k + 1);
      EnSkip(k, num);
    }
  }

  /** What is printed for a scale: the words of the count, then the scale. */
  function EnScaleWords(k: nat, count: nat): Words
    requires k < |SCALES_EN|
  {
    if count == 0 then [] else if count == 1 then SCALES_EN[k].one else EnFrom(0, count) + [SCALES_EN[k].plural]
  }

  /** What `count` units of a scale are worth. */
  function EnWorth(k: nat, count: nat): nat {
    match k
    case 0 => count * 1_000_000_000_000
    case 1 => count * 1_000_000_000
    case 2 => count * 1_000_000
    case _ => count * 1000
  }

  /** A scale below the topmost closes a group of at most three digits. */
  lemma EnScaleReads(k: nat, count: nat, t: nat)
    requires 1 <= k < |SCALES_EN| && count < 1000
    ensures AllKnown(English, EnScaleWords(k, count))
    ensures Read(English, Reading(t, 0), EnScaleWords(k, count)) == Reading(t + EnWorth(k, count), 0)
  {
    EnScaleMeaning(k);
    if count == 1 {
      AddsOne(English, "ONE", 1, Reading(t, 0));
      ScaleAfter(English, ["ONE"], 1, SCALES_EN[k].plural, t);
      assert ["ONE"] + [SCALES_EN[k].plural] == SCALES_EN[k].one;
    } else if count > 1 {
      EnSmall(count, 0);
      EnThreeDigitsAdds(count, t);
      ScaleAfter(English, EnThreeDigits(count), count, SCALES_EN[k].plural, t);
    }
  }

  lemma EnUnfolds(k: nat, num: nat, count: nat, rest: nat)
    requires k < |SCALES_EN| && count == num / SCALES_EN[k].value && rest == num % SCALES_EN[k].value
    ensures k + 1 == |SCALES_EN| ==> rest < 1000
    ensures EnFrom(k, num) == EnScaleWords(k, count) + EnFrom(k + 1, rest)
  {
  }

  /** The number is printed as the count of scale k and the rest. */
  predicate Unfolds(k: nat, num: nat, count: nat, rest: nat)
    requires k < |SCALES_EN|
  {
    (k + 1 == |SCALES_EN| ==> rest < 1000) && EnFrom(k, num) == EnScaleWords(k, count) + EnFrom(k + 1, rest)
  }

  function EnBound(k: nat): nat {
    match k
    case 1 => 1_000_000_000_000
    case 2 => 1_000_000_000
    case 3 => 1_000_000
    case _ => 1000
  }

  lemma EnDivide(k: nat, num: nat)
    requires 1 <= k < |SCALES_EN| && num < EnBound(k)
    ensures var count, rest := num / SCALES_EN[k].value, num % SCALES_EN[k].value;
            count < 1000 && rest < EnBound(k + 1) && EnWorth(k, count) + rest == num
  {
    if k == 1 {
      assert num == num / 1_000_000_000 * 1_000_000_000 + num % 1_000_000_000;
    } else if k == 2 {
      assert num == num / 1_000_000 * 1_000_000 + num % 1_000_000;
    } else {
      assert num == num / 1000 * 1000 + num % 1000;
    }
  }

  lemma EnStep(k: nat, num: nat, count: nat, rest: nat, t: nat)
    requires 1 <= k < |SCALES_EN| && count < 1000 && Unfolds(k, num, count, rest)
    requires AllKnown(English, EnFrom(k + 1, rest))
    ensures AllKnown(English, EnFrom(k, num))
    ensures Read(English, Reading(t, 0), EnFrom(k, num))
         == Read(English, Reading(t + EnWorth(k, count), 0), EnFrom(k + 1, rest))
  {
    EnScaleReads(k, count, t);
    ReadConcat(English, Reading(t, 0), EnScaleWords(k, count), EnFrom(k + 1, rest));
  }

  lemma EnStepTo(k: nat, num: nat, count: nat, rest: nat, t: nat, last: Reading)
    requires 1 <= k < |SCALES_EN| && count < 1000 && Unfolds(k, num, count, rest)
    requires ReadsTo(English, Reading(t + EnWorth(k, count), 0), EnFrom(k + 1, rest), last)
    ensures ReadsTo(English, Reading(t, 0), EnFrom(k, num), last)
  {
    EnStep(k, num, count, rest, t);
  }

  /** Splitting off one scale. */
  lemma EnSplitScale(k: nat, num: nat) returns (count: nat, rest: nat)
    requires 1 <= k < |SCALES_EN| && num < EnBound(k)
    ensures count < 1000 && Unfolds(k, num, count, rest)
    ensures rest < EnBound(k + 1) && EnWorth(k, count) + rest == num
  {
    count, rest := num / SCALES_EN[k].value, num % SCALES_EN[k].value;
    EnDivide(k, num);
    EnUnfolds(k, num, count, rest);
  }

  lemma EnLastDigits(k: nat, num: nat, t: nat)
    requires k == |SCALES_EN| && num < 1000
    ensures ReadsTo(English, Reading(t, 0), EnFrom(k, num), Reading(t, num))
  {
    EnThreeDigitsAdds(num, t);
  }

  /** From the billions down every count has at most three digits. */
  lemma {:induction false} EnFromReads(k: nat, num: nat, t: nat) returns (last: Reading)
    requires 1 <= k <= |SCALES_EN| && num < EnBound(k)
    ensures ReadsTo(English, Reading(t, 0), EnFrom(k, num), last) && Value(last) == t + num
    decreases |SCALES_EN| - k, 1
  {
    if k == |SCALES_EN| {
      EnLastDigits(k, num, t);
      last := Reading(t, num);
    } else {
      last := EnScalesRead(k, num, t);
    }
  }

  lemma {:induction false} EnScalesRead(k: nat, num: nat, t: nat) returns (last: Reading)
    requires 1 <= k < |SCALES_EN| && num < EnBound(k)
    ensures ReadsTo(English, Reading(t, 0), EnFrom(k, num), last) && Value(last) == t + num
    decreases |SCALES_EN| - k, 0
  {
    var count, rest := EnSplitScale(k, num);
    last := EnFromReads(k + 1, rest, t + EnWorth(k, count));
    EnStepTo(k, num, count, rest, t, last);
  }

  /** Nothing read leaves the reading where it was, so words that add something are not empty. */
  lemma WordsAreNotEmpty(words: Words, num: nat)
    requires num > 0 && Value(Read(English, Reading(0, 0), words)) == num
    ensures words != []
  {
  }

  /** English prints every positive integer; the count of trillions is smaller and read back the same way. */
  lemma {:induction false} EnglishReadsPositive(num: nat)
    requires num > 0
    ensures EnFrom(0, num) != [] && AllKnown(English, EnFrom(0, num))
    ensures Value(Read(English, Reading(0, 0), EnFrom(0, num))) == num
    decreases num, 1
  {
    var count, rest := num / 1_000_000_000_000, num % 1_000_000_000_000;
    EnTrillions(num, count);
    var last := EnFromReads(1, rest, count * 1_000_000_000_000);
    EnUnfolds(0, num, count, rest);
    ReadConcat(English, Reading(0, 0), EnScaleWords(0, count), EnFrom(1, rest));
    WordsAreNotEmpty(EnFrom(0, num), num);
  }

  lemma EnTrillions(num: nat, count: nat)
    requires num > 0 && count == num / SCALES_EN[0].value
    ensures AllKnown(English, EnScaleWords(0, count))
    ensures Read(English, Reading(0, 0), EnScaleWords(0, count)) == Reading(count * 1_000_000_000_000, 0)
    decreases num, 0
  {
    EnScaleMeaning(0);
    if count == 1 {
      AddsOne(English, "ONE", 1, Reading(0, 0));
      ScaleAfter(English, ["ONE"], 1, "TRILLION", 0);
      assert ["ONE"] + ["TRILLION"] == SCALES_EN[0].one;
    } else if count > 1 {
      EnglishReadsPositive(count);
      ReadLast(English, Reading(0, 0), EnFrom(0, count), "TRILLION");
    }
  }

  lemma EnZero()
    ensures AllKnown(English, ["ZERO"]) && Value(Read(English, Reading(0, 0), ["ZERO"])) == 0
  {
    AddsOne(English, "ZERO", 0, Reading(0, 0));
  }

  lemma EnglishReadsBack(num: nat)
    ensures EnWords(num) != [] && AllKnown(English, EnWords(num))
    ensures Value(Read(English, Reading(0, 0), EnWords(num))) == num
  {
    if num == 0 {
      EnZero();
    } else {
      EnglishReadsPositive(num);
    }
  }

  // ---------------------------------------------------------------- words and text

  function FirstSpace(s: string): (k: nat)
    ensures k <= |s| && (k < |s| ==> s[k] == ' ') && ' ' !in s[..k]
  {
    if s == "" || s[0] == ' ' then 0
    else
      var k := FirstSpace(s[1..]);
      assert s[..k + 1] == [s[0]] + s[1..][..k];
      k + 1
  }

  /** The words of a text. */
  function Split(s: string): Words
    decreases |s|
  {
    var k := FirstSpace(s);
    if k == |s| then [s] else [s[..k]] + Split(s[k + 1..])
  }

  lemma {:induction false} FirstSpaceAfterWord(w: string, rest: string)
    requires ' ' !in w
    ensures FirstSpace(w) == |w| && FirstSpace(w + " " + rest) == |w|
  {
    if w != "" {
      FirstSpaceAfterWord(w[1..], rest);
      assert (w + " " + rest)[1..] == w[1..] + " " + rest;
    }
  }

  predicate Plain(words: Words) {
    forall w :: w in words ==> ' ' !in w
  }

  lemma {:induction false} SplitJoin(words: Words)
    requires words != [] && Plain(words)
    ensures Split(Join(words)) == words
  {
    var w, rest := words[0], words[1..];
    assert ' ' !in w;
    if |words| == 1 {
      FirstSpaceAfterWord(w, "");
    } else {
      var text := Join(rest);
      FirstSpaceAfterWord(w, text);
      assert (w + " " + text)[..|w|] == w && (w + " " + text)[|w| + 1..] == text;
      SplitJoin(rest);
    }
  }

  lemma EsSmallIsPlain(w: string)
    requires EsMeaning(w).Add? && EsMeaning(w).value < 20
    ensures ' ' !in w
  {
  }

  lemma EsLargeIsPlain(w: string)
    requires EsMeaning(w).Add? && 20 <= EsMeaning(w).value
    ensures ' ' !in w
  {
  }

  lemma EsMillionsIsPlain(w: string)
    requires EsMeaning(w).Millions? || EsMeaning(w).Billions?
    ensures ' ' !in w
  {
  }

  lemma EsScaleIsPlain(w: string)
    requires !EsMeaning(w).Add? && EsMeaning(w) != Unknown
    ensures ' ' !in w
  {
    if EsMeaning(w).Millions? || EsMeaning(w).Billions? { EsMillionsIsPlain(w); }
  }

  lemma EsKnownIsPlain(w: string)
    requires EsMeaning(w) != Unknown
    ensures ' ' !in w
  {
    var m := EsMeaning(w);
    if !m.Add? {
      EsScaleIsPlain(w);
    } else if m.value < 20 {
      EsSmallIsPlain(w);
    } else {
      EsLargeIsPlain(w);
    }
  }

  lemma EnKnownIsPlain(w: string)
    requires EnMeaning(w) != Unknown
    ensures ' ' !in w
  {
  }

  lemma KnownIsPlain(lang: Language, words: Words)
    requires AllKnown(lang, words)
    ensures Plain(words)
  {
    forall w | w in words ensures ' ' !in w {
      if lang.Spanish? { EsKnownIsPlain(w); } else { EnKnownIsPlain(w); }
    }
  }

  lemma MinusIsNoNumber(lang: Language)
    ensures MeaningIn(lang, lang.Minus()) == Unknown && ' ' !in lang.Minus()
  {
  }

  /** An integer is printed when the language is English or it is below 10^18, in known words that read back as it. */
  lemma IntegerReadsBack(lang: Language, num: nat)
    ensures lang.Integer(num).Ok? <==> lang.English? || num < 1_000_000_000_000_000_000
    ensures lang.Integer(num).Ok? ==>
      && lang.Integer(num).value != [] && AllKnown(lang, lang.Integer(num).value)
      && Value(Read(lang, Reading(0, 0), lang.Integer(num).value)) == num
  {
    if lang.Spanish? {
      SpanishPrintsIff(num);
      if num < 1_000_000_000_000_000_000 { SpanishReadsBack(num); }
    } else {
      EnglishReadsBack(num);
    }
  }

  // ---------------------------------------------------------------- amounts

  function DigitValue(c: char): int {
    if '0' <= c <= '9' then c as int - '0' as int else 0
  }

  /** The number of cents a text stands for, given the currency label it was printed with. */
  function ParseAmount(lang: Language, text: string, currency: string): int {
    var tail := |Suffix(lang, currency, 0)|;
    if |text| < tail then 0
    else
      var words := Split(text[..|text| - tail]);
      var cents := 10 * DigitValue(text[|text| - 6]) + DigitValue(text[|text| - 5]);
      if words[0] == lang.Minus() then -(100 * Value(Read(lang, Reading(0, 0), words[1..])) + cents)
      else 100 * Value(Read(lang, Reading(0, 0), words)) + cents
  }

  lemma DigitReads(n: nat)
    requires n < 10
    ensures DigitValue(DIGITS[n]) == n
  {
  }

  lemma SuffixShape(lang: Language, currency: string, cents: nat, front: string)
    requires cents < 100
    ensures var suffix := Suffix(lang, currency, cents);
            var text := front + suffix;
            && |suffix| == |Suffix(lang, currency, 0)| >= 6
            && text[..|text| - |suffix|] == front
            && 10 * DigitValue(text[|text| - 6]) + DigitValue(text[|text| - 5]) == cents
  {
    var suffix := Suffix(lang, currency, cents);
    var digits := [DIGITS[cents / 10], DIGITS[cents % 10]];
    var head := (if currency == "" then "" else " " + currency) + " " + lang.Connector() + " ";
    assert suffix == head + digits + "/100";
    assert |digits| == 2 && |"/100"| == 4;
    assert suffix[|head|] == digits[0] && suffix[|head| + 1] == digits[1];
    var text := front + suffix;
    assert text[|text| - 6] == suffix[|head|] && text[|text| - 5] == suffix[|head| + 1];
    DigitReads(cents / 10);
    DigitReads(cents % 10);
  }

  /** Whole units and cents of an amount of whole cents: the carry to a further unit never happens. */
  lemma QuantizedParts(cents: nat)
    ensures Parts(cents as real / 100.0) == (cents / 100, cents % 100)
    ensures var num := cents as real / 100.0; RoundHalfEven((num - num.Floor as real) * 100.0) != 100
  {
    var num := cents as real / 100.0;
    var whole, part := cents / 100, cents % 100;
    assert cents == 100 * whole + part;
    assert num == whole as real + part as real / 100.0;
    assert num.Floor == whole;
    assert (num - whole as real) * 100.0 == part as real;
  }

  /** The carry branch runs exactly when the fraction is at least 99.5 cents. */
  lemma CarryIff(num: real)
    requires num >= 0.0
    ensures RoundHalfEven((num - num.Floor as real) * 100.0) == 100 <==> num - num.Floor as real >= 0.995
  {
    var x := (num - num.Floor as real) * 100.0;
    assert x < 100.0;
  }

  function Magnitude(n: int): nat {
    if n < 0 then -n else n
  }

  /** The text of an amount of whole cents: sign, units and cents. */
  function Printed(lang: Language, cents: int, currency: string): Result<string> {
    Signed(lang, cents < 0, Text(lang, Magnitude(cents) / 100, Magnitude(cents) % 100, currency))
  }

  lemma FormatFromParts(lang: Language, num: real, size: real, whole: nat, cents: nat, currency: string)
    requires size == (if num < 0.0 then -num else num) && Parts(size) == (whole, cents)
    ensures cents < 100 && FormatAmount(lang, num, currency) == Signed(lang, num < 0.0, Text(lang, whole, cents, currency))
  {
  }

  /** On whole cents the printer prints exactly those cents. */
  lemma FormatIsPrinted(lang: Language, cents: int, currency: string)
    ensures FormatAmount(lang, InUnits(cents), currency) == Printed(lang, cents, currency)
  {
    QuantizedParts(Magnitude(cents));
    FormatFromParts(lang, InUnits(cents), InUnits(Magnitude(cents)), Magnitude(cents) / 100, Magnitude(cents) % 100, currency);
  }

  /** An amount is printed as its value rounded to cents. */
  lemma AmountIsPrintedInCents(lang: Language, amount: real, currency: string)
    ensures Num2Words(lang, amount, currency) == Printed(lang, Quantized(amount), currency)
  {
    FormatIsPrinted(lang, Quantized(amount), currency);
  }

  /** Parsing separates the words from the suffix and looks at the first word for the sign. */
  lemma ParseText(lang: Language, words: Words, currency: string, cents: nat)
    requires words != [] && Plain(words) && cents < 100
    ensures ParseAmount(lang, Join(words) + Suffix(lang, currency, cents), currency)
         == if words[0] == lang.Minus() then -(100 * Value(Read(lang, Reading(0, 0), words[1..])) + cents)
            else 100 * Value(Read(lang, Reading(0, 0), words)) + cents
  {
    SuffixShape(lang, currency, cents, Join(words));
    SplitJoin(words);
  }

  lemma JoinMinus(minus: string, words: Words, suffix: string)
    requires words != []
    ensures minus + " " + (Join(words) + suffix) == Join([minus] + words) + suffix
  {
    var signed := [minus] + words;
    assert signed[1..] == words;
    assert Join(signed) == minus + " " + Join(words);
  }

  /** The words of an integer, with or without the word for minus in front. */
  function SignedWords(lang: Language, negative: bool, words: Words): Words {
    if negative then [lang.Minus()] + words else words
  }

  lemma SignedText(lang: Language, negative: bool, whole: nat, cents: nat, currency: string)
    requires cents < 100 && lang.Integer(whole).Ok? && lang.Integer(whole).value != []
    ensures Signed(lang, negative, Text(lang, whole, cents, currency))
         == Ok(Join(SignedWords(lang, negative, lang.Integer(whole).value)) + Suffix(lang, currency, cents))
  {
    if negative { JoinMinus(lang.Minus(), lang.Integer(whole).value, Suffix(lang, currency, cents)); }
  }

  lemma SignedWordsReadBack(lang: Language, negative: bool, words: Words, currency: string, cents: nat, whole: nat)
    requires words != [] && AllKnown(lang, words) && cents < 100 && Value(Read(lang, Reading(0, 0), words)) == whole
    ensures ParseAmount(lang, Join(SignedWords(lang, negative, words)) + Suffix(lang, currency, cents), currency)
         == if negative then -(100 * whole + cents) else 100 * whole + cents
  {
    var signed := SignedWords(lang, negative, words);
    KnownIsPlain(lang, words);
    MinusIsNoNumber(lang);
    ParseText(lang, signed, currency, cents);
    assert words[0] in words;
    assert negative ==> signed[1..] == words;
  }

  lemma PartsReadBack(lang: Language, negative: bool, whole: nat, cents: nat, currency: string)
    requires cents < 100 && lang.Integer(whole).Ok?
    ensures var text := Signed(lang, negative, Text(lang, whole, cents, currency));
            text.Ok? && ParseAmount(lang, text.value, currency) == if negative then -(100 * whole + cents) else 100 * whole + cents
  {
    IntegerReadsBack(lang, whole);
    SignedText(lang, negative, whole, cents, currency);
    SignedWordsReadBack(lang, negative, lang.Integer(whole).value, currency, cents, whole);
  }

  lemma SplitCents(n: nat)
    ensures n == 100 * (n / 100) + n % 100 && n % 100 < 100
    ensures n / 100 < 1_000_000_000_000_000_000 <==> n < 100_000_000_000_000_000_000
  {
  }

  /** Every amount of cents is printed, Spanish up to 10^18 units, and the text determines it, sign included. */
  lemma PrintedAmountReadsBack(lang: Language, cents: int, currency: string)
    requires lang.English? || -100_000_000_000_000_000_000 < cents < 100_000_000_000_000_000_000
    ensures Printed(lang, cents, currency).Ok?
    ensures ParseAmount(lang, Printed(lang, cents, currency).value, currency) == cents
  {
    SplitCents(Magnitude(cents));
    var whole, part := Magnitude(cents) / 100, Magnitude(cents) % 100;
    IntegerReadsBack(lang, whole);
    PartsReadBack(lang, cents < 0, whole, part, currency);
  }

  /** Printing fails exactly in Spanish from 10^18 units on. */
  lemma PrintsIff(lang: Language, cents: int, currency: string)
    ensures Printed(lang, cents, currency).Ok?
       <==> lang.English? || -100_000_000_000_000_000_000 < cents < 100_000_000_000_000_000_000
  {
    SplitCents(Magnitude(cents));
    IntegerReadsBack(lang, Magnitude(cents) / 100);
  }

  /** Amounts of cents that print alike are the same. */
  lemma DistinctAmountsPrintDistinctly(lang: Language, x: int, y: int, currency: string)
    requires Printed(lang, x, currency).Ok? && Printed(lang, x, currency) == Printed(lang, y, currency)
    ensures x == y
  {
    PrintsIff(lang, x, currency);
    PrintsIff(lang, y, currency);
    PrintedAmountReadsBack(lang, x, currency);
    PrintedAmountReadsBack(lang, y, currency);
  }
}
