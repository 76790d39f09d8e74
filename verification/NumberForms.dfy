/**
  The forms of amounts in words: which words stand where in a group of three digits, how groups and scales follow each
  other, and how sign, currency and cents are put around them.
 */
module NumberForms {
  import opened Common
  import opened Rounding
  import opened NumberWords
  import opened NumberParsing

  // ---------------------------------------------------------------- Spanish groups

  /** One word, of the given number, that is no form of twenty-one. */
  predicate NamesNumber(w: string, n: nat) {
    EsMeaning(w) == Add(n) && w != "VEINTIUNO" && w != "VEINTIÚN" && w != "UNO" && w != "CIEN"
  }

  /** A number below a hundred: one word up to twenty-nine and for whole tens, else tens and units joined by "Y". */
  predicate IsTwoDigits(words: Words, n: nat, short: bool) {
    if n == 0 then words == []
    else if n == 21 then words == [if short then "VEINTIÚN" else "VEINTIUNO"]
    else if n < 30 || n % 10 == 0 then |words| == 1 && NamesNumber(words[0], n)
    else |words| == 3 && words[1] == "Y" && NamesNumber(words[0], n - n % 10) && NamesNumber(words[2], n % 10)
  }

  lemma TensAndUnits(n: nat)
    requires 30 <= n < 100
    ensures 3 <= n / 10 < 10 && n - n % 10 == 10 * (n / 10) && n % 10 < 10
  {
  }

  lemma UnitNames(n: nat)
    requires 1 <= n < 30 && n != 21
    ensures NamesNumber(TABLE_UNITS_ES[n], n)
  {
    EsUnits(n);
  }

  lemma TensNames(n: nat)
    requires 3 <= n < 10
    ensures NamesNumber(TABLE_TENS_ES[n], 10 * n)
  {
    EsTens(n);
  }

  lemma TwoDigitsForm(n: nat, short: bool)
    requires n < 100
    ensures IsTwoDigits(EsTwoDigits(n, short), n, short)
  {
    if 0 < n < 30 && n != 21 {
      UnitNames(n);
    } else if 30 <= n {
      TensAndUnits(n);
      TensNames(n / 10);
      if n % 10 != 0 { UnitNames(n % 10); }
    }
  }

  /** A number below a thousand: "CIEN" stands alone, "CIENTO" before a rest, other hundreds have a word of their own. */
  predicate IsGroup(words: Words, n: nat, short: bool) {
    if n == 100 then words == ["CIEN"]
    else if n < 100 then IsTwoDigits(words, n, short)
    else
      && words != [] && (if n < 200 then words[0] == "CIENTO" else NamesNumber(words[0], n - n % 100))
      && IsTwoDigits(words[1..], n % 100, short)
  }

  lemma GroupForm(n: nat, short: bool)
    requires n < 1000
    ensures EsThreeDigits(n, short).Ok? && IsGroup(EsThreeDigits(n, short).value, n, short)
  {
    var hundreds, rest := n / 100, n % 100;
    TwoDigitsForm(rest, short);
    if 0 < n < 100 {
      assert [] + EsTwoDigits(n, short) == EsTwoDigits(n, short);
    } else if n > 100 {
      var words := EsThreeDigits(n, short).value;
      assert words[0] == TABLE_HUNDREDS_ES[hundreds] && words[1..] == EsTwoDigits(rest, short);
      if hundreds > 1 { HundredNames(hundreds); }
    }
  }

  lemma HundredNames(hundreds: nat)
    requires 2 <= hundreds < 10
    ensures NamesNumber(TABLE_HUNDREDS_ES[hundreds], 100 * hundreds)
  {
    EsHundreds(hundreds);
  }

  // ---------------------------------------------------------------- Spanish scales

  /** What a scale shows: nothing, its form for one, or its count, in short forms and with its own thousands, and its name. */
  predicate IsScale(words: Words, count: nat, one: Words, name: string) {
    if count == 0 then words == []
    else if count == 1 then words == one
    else words != [] && words[|words| - 1] == name && IsCount(words[..|words| - 1], count)
  }

  predicate IsCount(words: Words, count: nat) {
    if count < 1000 then IsGroup(words, count, true)
    else exists k :: 0 <= k < |words| && SplitsAtThousand(words, k, count)
  }

  predicate SplitsAtThousand(words: Words, k: nat, count: nat)
    requires k < |words|
  {
    && words[k] == "MIL" && IsGroup(words[k + 1..], count % 1000, true)
    && if count / 1000 == 1 then words[..k] == ["UN"] else IsGroup(words[..k], count / 1000, true)
  }

  lemma CountForm(count: nat)
    requires count < 1_000_000
    ensures EsMultiplier(count).Ok? && IsCount(EsMultiplier(count).value, count)
  {
    if count < 1000 {
      GroupForm(count, true);
    } else {
      var thousands, rest := count / 1000, count % 1000;
      GroupForm(thousands, true);
      GroupForm(rest, true);
      var prefix := if thousands == 1 then ["UN"] else EsThreeDigits(thousands, true).value;
      var suffix := EsThreeDigits(rest, true).value;
      ThousandBetween(prefix, suffix, count);
      assert EsMultiplier(count).value == prefix + ["MIL"] + suffix;
    }
  }

  lemma ThousandBetween(prefix: Words, suffix: Words, count: nat)
    requires count >= 1000 && IsGroup(suffix, count % 1000, true)
    requires if count / 1000 == 1 then prefix == ["UN"] else IsGroup(prefix, count / 1000, true)
    ensures IsCount(prefix + ["MIL"] + suffix, count)
  {
    var words := prefix + ["MIL"] + suffix;
    assert words[..|prefix|] == prefix && words[|prefix| + 1..] == suffix && words[|prefix|] == "MIL";
    assert SplitsAtThousand(words, |prefix|, count);
  }

  lemma ScaleForm(scale: Scale, count: nat)
    requires count < 1_000_000
    ensures EsScalePart(scale, count).Ok? && IsScale(EsScalePart(scale, count).value, count, scale.one, scale.plural)
  {
    if count > 1 {
      CountForm(count);
      var words := EsMultiplier(count).value;
      assert (words + [scale.plural])[..|words|] == words;
    }
  }

  /** Billions, millions, thousands and the last group, in that order; zero has a word of its own. */
  predicate IsSpanish(words: Words, n: nat, billions: Words, millions: Words, thousands: Words, last: Words) {
    if n == 0 then words == ["CERO"]
    else
      && words == billions + (millions + (thousands + last))
      && IsScale(billions, n / 1_000_000_000_000, ["UN", "BILLÓN"], "BILLONES")
      && IsScale(millions, n % 1_000_000_000_000 / 1_000_000, ["UN", "MILLÓN"], "MILLONES")
      && IsScale(thousands, n % 1_000_000 / 1000, ["UN", "MIL"], "MIL")
      && IsGroup(last, n % 1000, false)
  }

  lemma EsUnfolds(k: nat, rest: nat)
    requires k < |SCALES_ES| && EsScalePart(SCALES_ES[k], rest / SCALES_ES[k].value).Ok?
    requires EsFrom(k + 1, rest % SCALES_ES[k].value).Ok?
    ensures EsFrom(k, rest) == Ok(EsScalePart(SCALES_ES[k], rest / SCALES_ES[k].value).value + EsFrom(k + 1, rest % SCALES_ES[k].value).value)
  {
  }

  lemma UpperParts(n: nat)
    requires n < 1_000_000_000_000_000_000
    ensures n / 1_000_000_000_000 < 1_000_000 && n % 1_000_000_000_000 / 1_000_000 < 1_000_000 && n % 1_000_000 / 1000 < 1000
  {
  }

  lemma MillionsLeft(n: nat)
    ensures n % 1_000_000_000_000 % 1_000_000 == n % 1_000_000
  {
    var q, r := n / 1_000_000_000_000, n % 1_000_000_000_000;
    var p, s := r / 1_000_000, r % 1_000_000;
    assert n == 1_000_000 * (1_000_000 * q + p) + s;
  }

  lemma ThousandsLeft(n: nat)
    ensures n % 1_000_000 % 1000 == n % 1000
  {
    var q, r := n / 1_000_000, n % 1_000_000;
    var p, s := r / 1000, r % 1000;
    assert n == 1000 * (1000 * q + p) + s;
  }

  lemma LastGroup(rest: nat, k: nat)
    requires k == |SCALES_ES| && rest < 1000
    ensures EsFrom(k, rest).Ok? && IsGroup(EsFrom(k, rest).value, rest, false)
  {
    GroupForm(rest, false);
  }

  /** Spanish words of a number below 10^18. */
  lemma SpanishForm(n: nat)
    requires n < 1_000_000_000_000_000_000
    ensures EsWords(n).Ok?
    ensures exists billions, millions, thousands, last :: IsSpanish(EsWords(n).value, n, billions, millions, thousands, last)
  {
    if n == 0 {
      assert IsSpanish(EsWords(n).value, n, [], [], [], []);
    } else {
      UpperParts(n);
      MillionsLeft(n);
      ThousandsLeft(n);
      var b, m, t := n / 1_000_000_000_000, n % 1_000_000_000_000 / 1_000_000, n % 1_000_000 / 1000;
      ScaleForm(SCALES_ES[0], b);
      ScaleForm(SCALES_ES[1], m);
      ScaleForm(SCALES_ES[2], t);
      var last := LastWords(n % 1000);
      var thousands := ThousandWords(n % 1_000_000, last);
      var millions := MillionWords(n % 1_000_000_000_000, thousands + last);
      var billions := BillionWords(n, millions + (thousands + last));
      assert IsSpanish(EsWords(n).value, n, billions, millions, thousands, last);
    }
  }

  lemma LastWords(rest: nat) returns (last: Words)
    requires rest < 1000
    ensures EsFrom(3, rest) == Ok(last) && IsGroup(last, rest, false)
  {
    LastGroup(rest, 3);
    last := EsFrom(3, rest).value;
  }

  lemma ThousandWords(rest: nat, last: Words) returns (words: Words)
    requires rest < 1_000_000 && EsFrom(3, rest % 1000) == Ok(last)
    ensures EsFrom(2, rest) == Ok(words + last) && IsScale(words, rest / 1000, ["UN", "MIL"], "MIL")
  {
    ScaleForm(SCALES_ES[2], rest / 1000);
    words := EsScalePart(SCALES_ES[2], rest / 1000).value;
    EsUnfolds(2, rest);
  }

  lemma MillionWords(rest: nat, after: Words) returns (words: Words)
    requires rest < 1_000_000_000_000 && EsFrom(2, rest % 1_000_000) == Ok(after)
    ensures EsFrom(1, rest) == Ok(words + after) && IsScale(words, rest / 1_000_000, ["UN", "MILLÓN"], "MILLONES")
  {
    ScaleForm(SCALES_ES[1], rest / 1_000_000);
    words := EsScalePart(SCALES_ES[1], rest / 1_000_000).value;
    EsUnfolds(1, rest);
  }

  lemma BillionWords(rest: nat, after: Words) returns (words: Words)
    requires rest < 1_000_000_000_000_000_000 && EsFrom(1, rest % 1_000_000_000_000) == Ok(after)
    ensures EsFrom(0, rest) == Ok(words + after) && IsScale(words, rest / 1_000_000_000_000, ["UN", "BILLÓN"], "BILLONES")
  {
    assert rest / 1_000_000_000_000 < 1_000_000;
    ScaleForm(SCALES_ES[0], rest / 1_000_000_000_000);
    words := EsScalePart(SCALES_ES[0], rest / 1_000_000_000_000).value;
    EsUnfolds(0, rest);
  }

  // ---------------------------------------------------------------- English

  predicate EnNames(w: string, n: nat) {
    EnMeaning(w) == Add(n) && n > 0
  }

  /** A number below a thousand: units and "HUNDRED", then one word up to nineteen and for whole tens, else tens and units. */
  predicate IsEnglishGroup(words: Words, n: nat) {
    if n >= 100 then
      |words| >= 2 && EnNames(words[0], n / 100) && words[1] == "HUNDRED" && IsEnglishTwoDigits(words[2..], n % 100)
    else IsEnglishTwoDigits(words, n)
  }

  predicate IsEnglishTwoDigits(words: Words, n: nat) {
    if n == 0 then words == []
    else if n < 20 || n % 10 == 0 then |words| == 1 && EnNames(words[0], n)
    else |words| == 2 && EnNames(words[0], n - n % 10) && EnNames(words[1], n % 10)
  }

  lemma EnglishTwoDigitsForm(n: nat)
    requires n < 100
    ensures IsEnglishTwoDigits(EnTwoDigits(n), n)
  {
    if 0 < n < 20 {
      EnUnits(n);
    } else if n >= 20 {
      EnTens(n / 10);
      if n % 10 != 0 { EnUnits(n % 10); }
    }
  }

  lemma EnglishGroupForm(n: nat)
    requires n < 1000
    ensures IsEnglishGroup(EnThreeDigits(n), n)
  {
    var hundreds, rest := n / 100, n % 100;
    EnglishTwoDigitsForm(rest);
    EnThreeDigitsShape(n, hundreds, rest);
    if hundreds > 0 {
      EnUnits(hundreds);
      var words := EnThreeDigits(n);
      assert words[2..] == EnTwoDigits(rest);
    }
  }

  /** The number of scale k and its name. */
  function EnglishScale(k: nat): (nat, string) {
    match k
    case 0 => (1_000_000_000_000, "TRILLION")
    case 1 => (1_000_000_000, "BILLION")
    case 2 => (1_000_000, "MILLION")
    case _ => (1000, "THOUSAND")
  }

  /** What a scale shows of its count: nothing, one, or the count in words of its own; then its name. */
  function EnglishScaleWords(k: nat, count: nat): Words {
    if count == 0 then []
    else (if count == 1 then ["ONE"] else EnWords(count)) + [EnglishScale(k).1]
  }

  lemma EnglishScaleIs(k: nat)
    requires k < 4
    ensures |SCALES_EN| == 4 && SCALES_EN[k] == Scale(EnglishScale(k).0, ["ONE", EnglishScale(k).1], EnglishScale(k).1)
  {
  }

  lemma EnglishTurn(k: nat, rest: nat)
    requires k < 4
    ensures EnFrom(k, rest) == EnglishScaleWords(k, rest / EnglishScale(k).0) + EnFrom(k + 1, rest % EnglishScale(k).0)
  {
    EnglishScaleIs(k);
    var count := rest / EnglishScale(k).0;
    assert ["ONE"] + [EnglishScale(k).1] == ["ONE", EnglishScale(k).1];
  }

  /** Trillions, billions, millions, thousands and the last group, in that order; zero has a word of its own. */
  predicate IsEnglish(words: Words, n: nat, last: Words) {
    if n == 0 then words == ["ZERO"]
    else
      var b := n % 1_000_000_000_000;
      var m := b % 1_000_000_000;
      var t := m % 1_000_000;
      && IsEnglishGroup(last, t % 1000)
      && words == EnglishScaleWords(0, n / 1_000_000_000_000)
                  + (EnglishScaleWords(1, b / 1_000_000_000)
                     + (EnglishScaleWords(2, m / 1_000_000) + (EnglishScaleWords(3, t / 1000) + last)))
  }

  /** English words of any number. */
  lemma EnglishForm(n: nat)
    ensures exists last :: IsEnglish(EnWords(n), n, last)
  {
    if n == 0 {
      assert IsEnglish(EnWords(n), n, []);
    } else {
      EnglishTurn(0, n);
      var last := BillionsForm(n % 1_000_000_000_000);
      assert IsEnglish(EnWords(n), n, last);
    }
  }

  lemma ThousandsForm(t: nat) returns (last: Words)
    ensures IsEnglishGroup(last, t % 1000) && EnFrom(3, t) == EnglishScaleWords(3, t / 1000) + last
  {
    EnglishTurn(3, t);
    EnglishLast(t % 1000);
    last := EnThreeDigits(t % 1000);
  }

  lemma MillionsForm(m: nat) returns (last: Words)
    ensures IsEnglishGroup(last, m % 1_000_000 % 1000)
    ensures EnFrom(2, m) == EnglishScaleWords(2, m / 1_000_000) + (EnglishScaleWords(3, m % 1_000_000 / 1000) + last)
  {
    EnglishTurn(2, m);
    last := ThousandsForm(m % 1_000_000);
  }

  lemma BillionsForm(b: nat) returns (last: Words)
    ensures IsEnglishGroup(last, b % 1_000_000_000 % 1_000_000 % 1000)
    ensures EnFrom(1, b)
         == EnglishScaleWords(1, b / 1_000_000_000)
            + (EnglishScaleWords(2, b % 1_000_000_000 / 1_000_000)
               + (EnglishScaleWords(3, b % 1_000_000_000 % 1_000_000 / 1000) + last))
  {
    EnglishTurn(1, b);
    last := MillionsForm(b % 1_000_000_000);
  }

  lemma EnglishLast(rest: nat)
    requires rest < 1000
    ensures EnFrom(4, rest) == EnThreeDigits(rest) && IsEnglishGroup(EnThreeDigits(rest), rest)
  {
    EnglishGroupForm(rest);
  }

  // ---------------------------------------------------------------- the text of an amount

  /** Words with one blank between them. */
  function Spaced(words: Words): string {
    if words == [] then ""
    else if |words| == 1 then words[0]
    else Spaced(words[..|words| - 1]) + " " + words[|words| - 1]
  }

  lemma {:induction false} SpacedFromFront(words: Words)
    requires |words| > 1
    ensures Spaced(words) == words[0] + " " + Spaced(words[1..])
    decreases |words|
  {
    var front, last := words[..|words| - 1], words[|words| - 1];
    assert words[1..][..|words| - 2] == front[1..];
    if |words| == 2 {
      assert front == [words[0]] && words[1..] == [last];
    } else {
      SpacedFromFront(front);
      assert front[0] == words[0];
    }
  }

  lemma {:induction false} JoinIsSpaced(words: Words)
    ensures Join(words) == Spaced(words)
  {
    if |words| > 1 {
      JoinIsSpaced(words[1..]);
      SpacedFromFront(words);
    }
  }

  function CentDigit(n: nat): char
    requires n < 10
  {
    ('0' as int + n) as char
  }

  /** Sign, words, currency, connector and two digits of cents over a hundred. */
  function AmountText(lang: Language, negative: bool, words: Words, currency: string, cents: nat): string
    requires cents < 100
  {
    (if !negative then "" else if lang.Spanish? then "MENOS " else "MINUS ")
    + (Spaced(words)
       + ((if currency == "" then "" else " " + currency)
          + ((if lang.Spanish? then " CON " else " AND ") + ([CentDigit(cents / 10), CentDigit(cents % 10)] + "/100"))))
  }

  function WordsOf(lang: Language, n: nat): Result<Words> {
    if lang.Spanish? then EsWords(n) else Ok(EnWords(n))
  }

  lemma SuffixText(lang: Language, currency: string, cents: nat)
    requires cents < 100
    ensures Suffix(lang, currency, cents)
         == (if currency == "" then "" else " " + currency)
            + ((if lang.Spanish? then " CON " else " AND ") + ([CentDigit(cents / 10), CentDigit(cents % 10)] + "/100"))
  {
    assert DIGITS[cents / 10] == CentDigit(cents / 10) && DIGITS[cents % 10] == CentDigit(cents % 10);
    assert " " + lang.Connector() + " " == if lang.Spanish? then " CON " else " AND ";
    var tag := if currency == "" then "" else " " + currency;
    var digits := [DIGITS[cents / 10], DIGITS[cents % 10]];
    Regroup(tag, lang.Connector(), digits, "/100");
  }

  lemma Regroup(tag: string, word: string, digits: string, last: string)
    ensures tag + " " + word + " " + digits + last == tag + ((" " + word + " ") + (digits + last))
  {
  }

  lemma SignedIs(lang: Language, negative: bool, whole: nat, cents: nat, currency: string)
    requires cents < 100
    ensures Signed(lang, negative, Text(lang, whole, cents, currency))
         == match WordsOf(lang, whole)
            case Err(e) => Err(e)
            case Ok(words) => Ok(AmountText(lang, negative, words, currency, cents))
  {
    assert lang.Integer(whole) == WordsOf(lang, whole);
    if WordsOf(lang, whole).Ok? {
      var words := WordsOf(lang, whole).value;
      SuffixText(lang, currency, cents);
      JoinIsSpaced(words);
      SignFirst(lang, negative, Spaced(words) + Suffix(lang, currency, cents));
    }
  }

  lemma SignFirst(lang: Language, negative: bool, text: string)
    ensures (if negative then lang.Minus() + " " + text else text)
         == (if !negative then "" else if lang.Spanish? then "MENOS " else "MINUS ") + text
  {
    assert lang.Minus() + " " == if lang.Spanish? then "MENOS " else "MINUS ";
  }

  lemma NearestEvenCents(amount: real)
    ensures NearestEven(amount * 100.0, Quantized(amount))
  {
  }

  predicate NearestEven(x: real, n: int) {
    -0.5 <= x - n as real <= 0.5 && (x - n as real == 0.5 || x - n as real == -0.5 ==> n % 2 == 0)
  }

  lemma Shifted(x: real, even: int, n: int)
    requires even % 2 == 0 && NearestEven(x - even as real, n)
    ensures NearestEven(x, even + n)
  {
    assert x - even as real - n as real == x - (even + n) as real;
  }

  /** Units and cents of any amount are those of the nearest number of cents, the even one of two. */
  lemma PartsAreNearest(num: real)
    requires num >= 0.0
    ensures Parts(num).1 < 100 && NearestEven(num * 100.0, 100 * Parts(num).0 + Parts(num).1)
  {
    var whole := num.Floor;
    assert (num - whole as real) * 100.0 == num * 100.0 - (100 * whole) as real;
    Shifted(num * 100.0, 100 * whole, RoundHalfEven((num - whole as real) * 100.0));
  }

  function Size(n: int): nat {
    if n < 0 then -n else n
  }

  /**
    An amount is printed as its sign, the words of its whole units, the currency if there is one, and its cents, rounded to
    the nearest and to the even one of two; or not at all when the whole units have no words.
   */
  lemma AmountIsPrinted(lang: Language, amount: real, currency: string) returns (n: int)
    ensures NearestEven(amount * 100.0, n)
    ensures Num2Words(lang, amount, currency)
         == match WordsOf(lang, Size(n) / 100)
            case Err(e) => Err(e)
            case Ok(words) => Ok(AmountText(lang, n < 0, words, currency, Size(n) % 100))
  {
    n := Quantized(amount);
    NearestEvenCents(amount);
    AmountIsPrintedInCents(lang, amount, currency);
    SignedIs(lang, n < 0, Size(n) / 100, Size(n) % 100, currency);
    assert Size(n) == Magnitude(n);
  }
}
