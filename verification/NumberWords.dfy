/**
  Amounts in words: the Spanish and English printers, and the composition of sign, currency label and cents.
 */
module NumberWords {
  import opened Common
  import opened Rounding

  /** A printed number is a list of words, joined by single spaces in the text. */
  type Words = seq<string>

  const TABLE_UNITS_ES: seq<string> := ["", "UN", "DOS", "TRES", "CUATRO", "CINCO", "SEIS", "SIETE", "OCHO", "NUEVE", "DIEZ",
    "ONCE", "DOCE", "TRECE", "CATORCE", "QUINCE", "DIECISÉIS", "DIECISIETE", "DIECIOCHO", "DIECINUEVE", "VEINTE", "VEINTIUNO",
    "VEINTIDÓS", "VEINTITRÉS", "VEINTICUATRO", "VEINTICINCO", "VEINTISÉIS", "VEINTISIETE", "VEINTIOCHO", "VEINTINUEVE"]

  const TABLE_TENS_ES: seq<string> := ["", "", "", "TREINTA", "CUARENTA", "CINCUENTA", "SESENTA", "SETENTA", "OCHENTA", "NOVENTA"]

  const TABLE_HUNDREDS_ES: seq<string> := ["", "CIENTO", "DOSCIENTOS", "TRESCIENTOS", "CUATROCIENTOS", "QUINIENTOS", "SEISCIENTOS",
    "SETECIENTOS", "OCHOCIENTOS", "NOVECIENTOS"]

  const TABLE_UNITS_EN: seq<string> := ["", "ONE", "TWO", "THREE", "FOUR", "FIVE", "SIX", "SEVEN", "EIGHT", "NINE", "TEN",
    "ELEVEN", "TWELVE", "THIRTEEN", "FOURTEEN", "FIFTEEN", "SIXTEEN", "SEVENTEEN", "EIGHTEEN", "NINETEEN"]

  const TABLE_TENS_EN: seq<string> := ["", "", "TWENTY", "THIRTY", "FORTY", "FIFTY", "SIXTY", "SEVENTY", "EIGHTY", "NINETY"]

  datatype Scale = Scale(value: nat, one: Words, plural: string)

  const SCALES_ES: seq<Scale> := [
    Scale(1_000_000_000_000, ["UN", "BILLÓN"], "BILLONES"),
    Scale(1_000_000, ["UN", "MILLÓN"], "MILLONES"),
    Scale(1_000, ["UN", "MIL"], "MIL")]

  const SCALES_EN: seq<Scale> := [
    Scale(1_000_000_000_000, ["ONE", "TRILLION"], "TRILLION"),
    Scale(1_000_000_000, ["ONE", "BILLION"], "BILLION"),
    Scale(1_000_000, ["ONE", "MILLION"], "MILLION"),
    Scale(1_000, ["ONE", "THOUSAND"], "THOUSAND")]

  // ---------------------------------------------------------------- Spanish

  function EsTwoDigits(num: nat, apocope: bool): Words
    requires num < 100
  {
    if num == 0 then []
    else if num < 30 then [if num == 21 && apocope then "VEINTIÚN" else TABLE_UNITS_ES[num]]
    else if num % 10 == 0 then [TABLE_TENS_ES[num / 10]]
    else [TABLE_TENS_ES[num / 10], "Y", TABLE_UNITS_ES[num % 10]]
  }

  /** The hundreds table ends at nine hundred: beyond it the lookup fails. */
  function EsThreeDigits(num: nat, apocope: bool): Result<Words> {
    if num == 0 then Ok([])
    else if num == 100 then Ok(["CIEN"])
    else if num / 100 >= |TABLE_HUNDREDS_ES| then Err("index out of range")
    else Ok((if num / 100 == 0 then [] else [TABLE_HUNDREDS_ES[num / 100]]) + EsTwoDigits(num % 100, apocope))
  }

  /** The count in front of a scale. */
  function EsMultiplier(num: nat): Result<Words> {
    if num < 1000 then EsThreeDigits(num, true)
    else
      var prefix := if num / 1000 == 1 then Ok(["UN"]) else EsThreeDigits(num / 1000, true);
      var suffix := EsThreeDigits(num % 1000, true);
      if prefix.Err? then prefix
      else if suffix.Err? then suffix
      else Ok(prefix.value + ["MIL"] + suffix.value)
  }

  /** One scale of the Spanish printer: the words for `count` units of it. */
  function EsScalePart(scale: Scale, count: nat): Result<Words> {
    if count == 0 then Ok([])
    else if count == 1 then Ok(scale.one)
    else
      var words :- EsMultiplier(count);
      Ok(words + [scale.plural])
  }

  /** What is printed for `rest` from scale k on. */
  function EsFrom(k: nat, rest: nat): Result<Words>
    requires k <= |SCALES_ES|
    decreases |SCALES_ES| - k
  {
    if k == |SCALES_ES| then EsThreeDigits(rest, false)
    else
      var words :- EsScalePart(SCALES_ES[k], rest / SCALES_ES[k].value);
      var more :- EsFrom(k + 1, rest % SCALES_ES[k].value);
      Ok(words + more)
  }

  function EsWords(num: nat): Result<Words> {
    if num == 0 then Ok(["CERO"]) else EsFrom(0, num)
  }

  lemma NothingBefore(rest: Result<Words>)
    ensures Prepend([], rest) == rest
  {
    if rest.Ok? { assert [] + rest.value == rest.value; }
  }

  lemma Division(rest: nat, value: nat)
    requires value > 0
    ensures rest / value >= 0 && rest % value >= 0
  {
  }

  lemma SmallDivision(rest: nat, value: nat)
    requires rest < value
    ensures rest / value == 0 && rest % value == rest
  {
  }

  /** A scale that prints `words`. */
  lemma EsTurn(k: nat, rest: nat, parts: Words, words: Words)
    requires k < |SCALES_ES| && EsScalePart(SCALES_ES[k], rest / SCALES_ES[k].value) == Ok(words)
    ensures Prepend(parts + words, EsFrom(k + 1, rest % SCALES_ES[k].value)) == Prepend(parts, EsFrom(k, rest))
  {
    PrependTwice(parts, words, EsFrom(k + 1, rest % SCALES_ES[k].value));
  }

  /** A scale that is too large prints nothing. */
  lemma EsSkip(k: nat, rest: nat)
    requires k < |SCALES_ES| && rest < SCALES_ES[k].value
    ensures EsFrom(k + 1, rest) == EsFrom(k, rest)
  {
    SmallDivision(rest, SCALES_ES[k].value);
    NothingBefore(EsFrom(k + 1, rest));
  }

  /** A scale that cannot be printed. */
  lemma EsFails(k: nat, rest: nat, parts: Words)
    requires k < |SCALES_ES| && EsScalePart(SCALES_ES[k], rest / SCALES_ES[k].value).Err?
    ensures Prepend(parts, EsFrom(k, rest)) == EsScalePart(SCALES_ES[k], rest / SCALES_ES[k].value)
  {
  }

  /** The Spanish resolver: a loop over the scales that shrinks the remainder. */
  method EsResolver(num: nat) returns (r: Result<Words>)
    ensures r == EsWords(num)
  {
    if num == 0 { return Ok(["CERO"]); }
    var parts: Words := [];
    var rest: nat := num;
    ghost var whole := EsWords(num);
    NothingBefore(whole);
    for k := 0 to |SCALES_ES|
      invariant Prepend(parts, EsFrom(k, rest)) == whole
    {
      var scale := SCALES_ES[k];
      if rest >= scale.value {
        Division(rest, scale.value);
        var words := EsScalePart(scale, rest / scale.value);
        if words.Err? {
          EsFails(k, rest, parts);
          return words;
        }
        EsTurn(k, rest, parts, words.value);
        parts, rest := parts + words.value, rest % scale.value;
      } else {
        EsSkip(k, rest);
      }
    }
    r := Prepend(parts, EsThreeDigits(rest, false));
  }

  // ---------------------------------------------------------------- English

  function EnTwoDigits(num: nat): Words
    requires num < 100
  {
    if num == 0 then []
    else if num < 20 then [TABLE_UNITS_EN[num]]
    else if num % 10 == 0 then [TABLE_TENS_EN[num / 10]]
    else [TABLE_TENS_EN[num / 10], TABLE_UNITS_EN[num % 10]]
  }

  function EnThreeDigits(num: nat): Words
    requires num < 1000
  {
    (if num / 100 == 0 then [] else [TABLE_UNITS_EN[num / 100], "HUNDRED"]) + EnTwoDigits(num % 100)
  }

  /** What is printed for `rest` from scale k on; the count of a scale is printed by the whole printer. */
  function EnFrom(k: nat, rest: nat): Words
    requires k <= |SCALES_EN| && (k == |SCALES_EN| ==> rest < 1000)
    decreases rest, |SCALES_EN| - k
  {
    if k == |SCALES_EN| then EnThreeDigits(rest)
    else
      var scale := SCALES_EN[k];
      var count := rest / scale.value;
      assert rest % scale.value <= rest;
      (if count == 0 then [] else if count == 1 then scale.one else EnFrom(0, count) + [scale.plural])
      + EnFrom(k + 1, rest % scale.value)
  }

  function EnWords(num: nat): Words {
    if num == 0 then ["ZERO"] else EnFrom(0, num)
  }

  lemma Assoc(a: Words, b: Words, c: Words)
    ensures (a + b) + c == a + (b + c)
  {
  }

  lemma EnTurn(k: nat, rest: nat, done: Words, words: Words)
    requires k < |SCALES_EN|
    requires words == var count := rest / SCALES_EN[k].value;
                      if count == 0 then [] else if count == 1 then SCALES_EN[k].one else EnFrom(0, count) + [SCALES_EN[k].plural]
    ensures (done + words) + EnFrom(k + 1, rest % SCALES_EN[k].value) == done + EnFrom(k, rest)
  {
    Assoc(done, words, EnFrom(k + 1, rest % SCALES_EN[k].value));
  }

  /** A scale that is too large prints nothing. */
  lemma EnSkip(k: nat, rest: nat)
    requires k < |SCALES_EN| && rest < SCALES_EN[k].value
    ensures k + 1 == |SCALES_EN| ==> rest < 1000
    ensures EnFrom(k + 1, rest) == EnFrom(k, rest)
  {
    SmallDivision(rest, SCALES_EN[k].value);
    assert [] + EnFrom(k + 1, rest) == EnFrom(k + 1, rest);
  }

  /** The count of a scale is smaller than the number, so the printer can print it. */
  lemma CountIsSmaller(k: nat, rest: nat)
    requires k < |SCALES_EN| && rest >= SCALES_EN[k].value
    ensures 0 < rest / SCALES_EN[k].value < rest
    ensures rest % SCALES_EN[k].value < rest
    ensures k + 1 == |SCALES_EN| ==> rest % SCALES_EN[k].value < 1000
  {
  }

  /** The words of one scale, which follow those done so far. */
  method EnScalePart(k: nat, rest: nat, ghost done: Words) returns (words: Words)
    requires k < |SCALES_EN| && rest >= SCALES_EN[k].value
    ensures k + 1 == |SCALES_EN| ==> rest % SCALES_EN[k].value < 1000
    ensures (done + words) + EnFrom(k + 1, rest % SCALES_EN[k].value) == done + EnFrom(k, rest)
    decreases rest, 0
  {
    CountIsSmaller(k, rest);
    var scale := SCALES_EN[k];
    var count := rest / scale.value;
    words := scale.one;
    if count != 1 {
      words := EnResolver(count);
      words := words + [scale.plural];
    }
    EnTurn(k, rest, done, words);
  }

  /** One turn of the loop: what the scale prints, and what is left for the smaller ones. */
  method EnNextScale(k: nat, rest: nat, ghost done: Words) returns (words: Words, left: nat)
    requires k < |SCALES_EN|
    ensures left <= rest && (k + 1 == |SCALES_EN| ==> left < 1000)
    ensures (done + words) + EnFrom(k + 1, left) == done + EnFrom(k, rest)
    decreases rest, 1
  {
    if rest >= SCALES_EN[k].value {
      CountIsSmaller(k, rest);
      words := EnScalePart(k, rest, done);
      left := rest % SCALES_EN[k].value;
    } else {
      EnSkip(k, rest);
      words, left := [], rest;
      assert done + [] == done;
    }
  }

  /** The English resolver: the same loop, calling itself for the count of a scale. */
  method EnResolver(num: nat) returns (r: Words)
    ensures r == EnWords(num)
    decreases num, 2
  {
    if num == 0 { return ["ZERO"]; }
    r := [];
    var rest: nat := num;
    ghost var whole := EnWords(num);
    assert [] + whole == whole;
    for k := 0 to |SCALES_EN|
      invariant rest <= num && (k == |SCALES_EN| ==> rest < 1000)
      invariant r + EnFrom(k, rest) == whole
    {
      var words, left := EnNextScale(k, rest, r);
      r, rest := r + words, left;
    }
    r := r + EnThreeDigits(rest);
  }

  // ---------------------------------------------------------------- amounts

  datatype Language = Spanish | English {
    function Minus(): string {
      if this.Spanish? then "MENOS" else "MINUS"
    }

    function Connector(): string {
      if this.Spanish? then "CON" else "AND"
    }

    function Integer(num: nat): Result<Words> {
      if this.Spanish? then EsWords(num) else Ok(EnWords(num))
    }
  }

  function Join(words: Words): string {
    if words == [] then ""
    else if |words| == 1 then words[0]
    else words[0] + " " + Join(words[1..])
  }

  const DIGITS: string := "0123456789"

  /** The currency label, the connector and the cents. */
  function Suffix(lang: Language, currency: string, cents: nat): string
    requires cents < 100
  {
    (if currency == "" then "" else " " + currency) + " " + lang.Connector() + " " + [DIGITS[cents / 10], DIGITS[cents % 10]] + "/100"
  }

  /** Whole units and cents of an amount that is not negative, with the carry of a fraction that rounds to one. */
  function Parts(num: real): (p: (nat, nat))
    requires num >= 0.0
    ensures p.1 < 100
  {
    var whole := num.Floor;
    var cents := RoundHalfEven((num - whole as real) * 100.0);
    if cents == 100 then (whole + 1, 0) else (whole, cents)
  }

  /** Integer words and suffix of an amount that is not negative. */
  function Text(lang: Language, whole: nat, cents: nat, currency: string): Result<string>
    requires cents < 100
  {
    var words :- lang.Integer(whole);
    Ok(Join(words) + Suffix(lang, currency, cents))
  }

  function Signed(lang: Language, negative: bool, text: Result<string>): Result<string> {
    if negative && text.Ok? then Ok(lang.Minus() + " " + text.value) else text
  }

  /** A negative amount is the word for minus and the text of its absolute value. */
  function FormatAmount(lang: Language, num: real, currency: string): Result<string> {
    var (whole, cents) := Parts(if num < 0.0 then -num else num);
    Signed(lang, num < 0.0, Text(lang, whole, cents, currency))
  }

  /** The amount rounded to cents. */
  function Quantized(amount: real): int {
    RoundHalfEven(amount * 100.0)
  }

  /** The decimal with two places that stands for a number of cents. */
  function InUnits(cents: int): real {
    cents as real / 100.0
  }

  /** `currency` is the currency without surrounding space and in capitals, empty when there is none. */
  function Num2Words(lang: Language, amount: real, currency: string): Result<string> {
    FormatAmount(lang, InUnits(Quantized(amount)), currency)
  }
}
