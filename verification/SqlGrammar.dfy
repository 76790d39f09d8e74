/**
  Statements as they are written (code, quoted regions, comments of every kind) and what stripping makes of each part.
 */
module SqlGrammar {
  import opened Common
  import opened SqlLexer
  import opened SqlLexerTheorems

  // ---------------------------------------------------------------- what opens a part

  predicate SpeaksMySql(d: Dialect) {
    d == MySql || d == MariaDb
  }

  /** The character at k, with the one after it, opens neither a comment nor a quoted region. */
  predicate OpensNothing(t: string, k: nat, d: Dialect)
    requires k < |t|
  {
    && t[k] != '\'' && t[k] != '"' && t[k] != '`'
    && !(t[k] == '-' && k + 1 < |t| && t[k + 1] == '-')
    && !(t[k] == '/' && k + 1 < |t| && t[k + 1] == '*')
    && !(t[k] == '#' && SpeaksMySql(d))
    && !(t[k] == '$' && d == PostgreSql)
  }

  predicate IsLetterDigitOrUnderscore(c: char) {
    'a' <= c <= 'z' || 'A' <= c <= 'Z' || '0' <= c <= '9' || c == '_'
  }

  /** The text ends in an `e` that stands alone: the prefix of an escape string. */
  predicate EndsInLoneE(before: string) {
    var n := |before|;
    n > 0 && (before[n - 1] == 'e' || before[n - 1] == 'E') && (n > 1 ==> !IsLetterDigitOrUnderscore(before[n - 2]))
  }

  /** Backslashes escape in MySQL and MariaDB, and in escape strings of PostgreSQL. */
  predicate Escapes(before: string, quote: char, d: Dialect) {
    SpeaksMySql(d) || (d == PostgreSql && quote == '\'' && EndsInLoneE(before))
  }

  lemma EscapesIff(before: string, quote: char, d: Dialect)
    ensures BackslashEscapes(before, quote, d) <==> Escapes(before, quote, d)
  {
    if |before| > 1 { assert before[..|before| - 1][|before| - 2] == before[|before| - 2]; }
  }

  // ---------------------------------------------------------------- one part after the other

  lemma Piece(before: string, x: string, rest: string, d: Dialect, p: Piece)
    requires x != "" && NextPiece(before, x + rest, d) == p && p.n == |x|
    ensures Strip(before, x + rest, d)
         == (match p case Copy(_, _) => x case Blank(_) => " " case Inline(body, _) => Strip("", body, d)) + Strip(before + x, rest, d)
  {
    Cuts(x, rest);
    StripUnfolds(before, x + rest, d);
  }

  lemma NotVersioned(t: string)
    requires !StartsWith(t, "/*")
    ensures !IsVersioned(t)
  {
    if IsVersioned(t) { VersionedOpensComment(t); }
  }

  /** A character of code is kept. */
  lemma CodeCharacter(before: string, t: string, d: Dialect)
    requires t != "" && OpensNothing(t, 0, d)
    ensures Strip(before, t, d) == t[..1] + Strip(before + t[..1], t[1..], d)
  {
    StartsWithTwo(t, "/*");
    StartsWithTwo(t, "--");
    NotVersioned(t);
    assert t == t[..1] + t[1..];
    Piece(before, t[..1], t[1..], d, Copy(1, false));
  }

  /** Code: nothing in it opens a comment or a quoted region. */
  predicate IsCode(code: string, rest: string, d: Dialect) {
    forall k :: 0 <= k < |code| ==> OpensNothing(code + rest, k, d)
  }

  /** Code is kept as it is. */
  lemma {:induction false} CodeIsKept(before: string, code: string, rest: string, d: Dialect)
    requires IsCode(code, rest, d)
    ensures Strip(before, code + rest, d) == code + Strip(before + code, rest, d)
    decreases |code|
  {
    if code == "" {
      NoCode(before, rest, d);
    } else {
      CodeSplits(before, code, rest);
      CodeShrinks(code, rest, d);
      CodeIsKept(before + code[..1], code[1..], rest, d);
      CodeFollows(before, code, rest, d, Strip(before + code, rest, d));
    }
  }

  lemma NoCode(before: string, rest: string, d: Dialect)
    ensures Strip(before, "" + rest, d) == "" + Strip(before + "", rest, d)
  {
    assert "" + rest == rest && before + "" == before;
    Nothing(Strip(before, rest, d));
  }

  lemma CodeShrinks(code: string, rest: string, d: Dialect)
    requires code != "" && IsCode(code, rest, d)
    ensures IsCode(code[1..], rest, d)
  {
    forall k | 0 <= k < |code[1..]| ensures OpensNothing(code[1..] + rest, k, d) {
      assert OpensNothing(code + rest, k + 1, d);
      SameCharacters(code, rest, k, d);
    }
  }

  lemma CodeFollows(before: string, code: string, rest: string, d: Dialect, stripped: string)
    requires code != "" && IsCode(code, rest, d)
    requires Strip(before + code[..1], code[1..] + rest, d) == code[1..] + stripped
    ensures Strip(before, code + rest, d) == code + stripped
  {
    CodeSplits(before, code, rest);
    assert OpensNothing(code + rest, 0, d);
    CodeCharacter(before, code + rest, d);
    Assoc(code[..1], code[1..], stripped);
  }

  lemma CodeSplits(before: string, code: string, rest: string)
    requires code != ""
    ensures (code + rest)[..1] == code[..1] && (code + rest)[1..] == code[1..] + rest
    ensures code[..1] + code[1..] == code && (before + code[..1]) + code[1..] == before + code
  {
  }

  lemma SameCharacters(code: string, rest: string, k: nat, d: Dialect)
    requires code != "" && k < |code[1..]| && OpensNothing(code + rest, k + 1, d)
    ensures OpensNothing(code[1..] + rest, k, d)
  {
    assert (code + rest)[1..] == code[1..] + rest;
    assert (code[1..] + rest)[k] == (code + rest)[k + 1];
    assert k + 1 < |code[1..] + rest| ==> (code[1..] + rest)[k + 1] == (code + rest)[k + 2];
  }

  lemma Nothing(s: string)
    ensures "" + s == s
  {
  }

  /** A quoted region is kept, whatever its text: quotes are written twice in it, and backslashes where they escape. */
  lemma QuotedIsKept(before: string, quote: char, content: string, rest: string, d: Dialect)
    requires quote == '\'' || quote == '"' || quote == '`'
    requires rest == "" || rest[0] != quote
    ensures var region := [quote] + Escape(content, quote, Escapes(before, quote, d)) + [quote];
            Strip(before, region + rest, d) == region + Strip(before + region, rest, d)
  {
    var region := [quote] + Escape(content, quote, Escapes(before, quote, d)) + [quote];
    var t := region + rest;
    QuotedValueIsOneRegion(content, quote, Escapes(before, quote, d), rest);
    EscapesIff(before, quote, d);
    StartsWithTwo(t, "/*");
    StartsWithTwo(t, "--");
    NotVersioned(t);
    Piece(before, region, rest, d, Copy(|region|, true));
  }

  /** A tag: letters, digits and underscores, the first one no digit; it may be empty. */
  predicate IsTag(tag: string) {
    (forall k :: 0 <= k < |tag| ==> IsLetterDigitOrUnderscore(tag[k])) && (tag != "" ==> !('0' <= tag[0] <= '9'))
  }

  /** A dollar may open a quote here. */
  predicate DollarMayOpen(before: string) {
    before == "" || !(IsLetterDigitOrUnderscore(before[|before| - 1]) || before[|before| - 1] == '$')
  }

  lemma TagDelimits(tag: string)
    requires IsTag(tag)
    ensures IsDelimiter("$" + tag + "$")
  {
    var delimiter := "$" + tag + "$";
    forall j | 1 <= j < |delimiter| - 1 ensures IsWord(delimiter[j]) {
      assert delimiter[j] == tag[j - 1];
    }
    if tag != "" { assert delimiter[1] == tag[0]; }
  }

  lemma DollarPiece(before: string, t: string, d: Dialect)
    requires t != "" && t[0] == '$' && d == PostgreSql
    ensures NextPiece(before, t, d) == match DollarLen(t, !DollarMayOpen(before)) case None => Copy(1, false) case Some(n) => Copy(n, true)
  {
    StartsWithTwo(t, "/*");
    StartsWithTwo(t, "--");
  }

  /** Between the first delimiter and the next one. */
  predicate NotInside(delimiter: string, content: string, rest: string) {
    forall k :: 0 <= k < |content| ==> !StartsWith((content + delimiter + rest)[k..], delimiter)
  }

  /** In PostgreSQL a dollar-quoted region is kept, unless a letter, digit, underscore or dollar stands before it. */
  lemma DollarQuotedIsKept(before: string, tag: string, content: string, rest: string)
    requires DollarMayOpen(before) && IsTag(tag) && NotInside("$" + tag + "$", content, rest)
    ensures var region := ("$" + tag + "$") + content + ("$" + tag + "$");
            Strip(before, region + rest, PostgreSql) == region + Strip(before + region, rest, PostgreSql)
  {
    var delimiter := "$" + tag + "$";
    var region := delimiter + content + delimiter;
    TagDelimits(tag);
    DollarQuoteIsOneRegion(delimiter, content, rest);
    assert (region + rest)[0] == '$';
    DollarPiece(before, region + rest, PostgreSql);
    Piece(before, region, rest, PostgreSql, Copy(|region|, true));
  }

  /** One that is not closed is kept to the end. */
  lemma OpenDollarQuoteIsKept(before: string, tag: string, content: string)
    requires DollarMayOpen(before) && IsTag(tag)
    requires forall k :: 0 <= k < |content| ==> !StartsWith(content[k..], "$" + tag + "$")
    ensures var t := ("$" + tag + "$") + content; Strip(before, t, PostgreSql) == t
  {
    var delimiter := "$" + tag + "$";
    var t := delimiter + content;
    TagDelimits(tag);
    DelimiterIsRead(delimiter, content);
    FindIsFirst(t, delimiter, |delimiter|);
    forall k | 0 <= k <= |content| ensures t[|delimiter| + k..] == content[k..] {
    }
    assert Find(t, delimiter, |delimiter|).None? by {
      var found := Find(t, delimiter, |delimiter|);
      assert found.Some? ==> t[|delimiter| + (found.value - |delimiter|)..] == content[found.value - |delimiter|..];
    }
    DollarPiece(before, t, PostgreSql);
    assert t + "" == t;
    Piece(before, t, "", PostgreSql, Copy(|t|, true));
  }

  /** Where no quote may open, or no tag and second dollar follow, a dollar is code. */
  lemma DollarIsKept(before: string, word: string, rest: string)
    requires forall k :: 0 <= k < |word| ==> IsLetterDigitOrUnderscore(word[k])
    requires || !DollarMayOpen(before) || (word != "" && '0' <= word[0] <= '9') || rest == ""
             || !(IsLetterDigitOrUnderscore(rest[0]) || rest[0] == '$')
    ensures Strip(before, "$" + (word + rest), PostgreSql) == "$" + Strip(before + "$", word + rest, PostgreSql)
  {
    var t := "$" + (word + rest);
    if DollarMayOpen(before) { NoDelimiter(word, rest); }
    DollarPiece(before, t, PostgreSql);
    Piece(before, "$", word + rest, PostgreSql, Copy(1, false));
  }

  lemma NoDelimiter(word: string, rest: string)
    requires forall k :: 0 <= k < |word| ==> IsLetterDigitOrUnderscore(word[k])
    requires (word != "" && '0' <= word[0] <= '9') || rest == "" || !(IsLetterDigitOrUnderscore(rest[0]) || rest[0] == '$')
    ensures DelimiterLen("$" + (word + rest)) == 0
  {
    var t := "$" + (word + rest);
    if word != "" { assert t[1] == word[0]; } else if rest != "" { assert t[1] == rest[0]; }
    if rest == "" || !(IsLetterDigitOrUnderscore(rest[0]) || rest[0] == '$') { NoTagEnd(word, rest, 0); }
  }

  lemma {:induction false} NoTagEnd(word: string, rest: string, k: nat)
    requires k <= |word| && forall j :: 0 <= j < |word| ==> IsLetterDigitOrUnderscore(word[j])
    requires rest == "" || !(IsLetterDigitOrUnderscore(rest[0]) || rest[0] == '$')
    ensures TagEnd("$" + (word + rest), k + 1) == 0
    decreases |word| - k
  {
    var t := "$" + (word + rest);
    if k < |word| {
      assert t[k + 1] == word[k];
      NoTagEnd(word, rest, k + 1);
    } else if rest != "" {
      assert t[k + 1] == rest[0];
    }
  }

  // ---------------------------------------------------------------- comments

  /** A block comment, nested to any depth, becomes one space; in MySQL and MariaDB unless it is a versioned one. */
  lemma BlockCommentIsBlanked(before: string, b: Body, rest: string, d: Dialect)
    requires Plain(b)
    requires SpeaksMySql(d) ==> var w := Written(b) + "*/" + rest; w[0] != '!' && !(|w| > 1 && (w[0] == 'm' || w[0] == 'M') && w[1] == '!')
    ensures var comment := "/*" + Written(b) + "*/";
            Strip(before, comment + rest, d) == " " + Strip(before + comment, rest, d)
  {
    var comment, w := "/*" + Written(b) + "*/", Written(b) + "*/" + rest;
    var t := comment + rest;
    assert t == "/*" + w;
    NestedCommentIsOneRegion(b, rest);
    StartsWithTwo(t, "/*");
    if SpeaksMySql(d) { NoVersionMark(t, w); }
    Piece(before, comment, rest, d, Blank(|comment|));
  }

  lemma NoVersionMark(t: string, w: string)
    requires t == "/*" + w && w != "" && w[0] != '!' && !(|w| > 1 && (w[0] == 'm' || w[0] == 'M') && w[1] == '!')
    ensures !IsVersioned(t)
  {
    assert t[2] == w[0] && (|w| > 1 ==> t[3] == w[1]);
    StartsWithThree(t, "/*!");
    StartsWithFour(t, "/*m!");
    StartsWithFour(t, "/*M!");
  }

  lemma StartsWithThree(t: string, pattern: string)
    requires |pattern| == 3
    ensures StartsWith(t, pattern) <==> |t| >= 3 && t[0] == pattern[0] && t[1] == pattern[1] && t[2] == pattern[2]
  {
    if |t| >= 3 { assert t[..3] == [t[0], t[1], t[2]]; }
    assert pattern == [pattern[0], pattern[1], pattern[2]];
  }

  lemma StartsWithFour(t: string, pattern: string)
    requires |pattern| == 4
    ensures StartsWith(t, pattern)
       <==> |t| >= 4 && t[0] == pattern[0] && t[1] == pattern[1] && t[2] == pattern[2] && t[3] == pattern[3]
  {
    if |t| >= 4 { assert t[..4] == [t[0], t[1], t[2], t[3]]; }
    assert pattern == [pattern[0], pattern[1], pattern[2], pattern[3]];
  }

  /** One character is found where it first stands. */
  lemma {:induction false} FirstNewline(t: string, from: nat, n: nat)
    requires from <= n < |t| && t[n] == '\n' && forall k :: from <= k < n ==> t[k] != '\n'
    ensures Find(t, "\n", from) == Some(n)
    decreases n - from
  {
    assert t[from..][..1] == [t[from]];
    if from < n { FirstNewline(t, from + 1, n); }
  }

  lemma {:induction false} NoNewline(t: string, from: nat)
    requires from <= |t| && forall k :: from <= k < |t| ==> t[k] != '\n'
    ensures Find(t, "\n", from) == None
    decreases |t| - from
  {
    if from < |t| {
      assert t[from..][..1] == [t[from]];
      NoNewline(t, from + 1);
    }
  }

  /** The marks of line comments: two dashes everywhere, and a hash in MySQL and MariaDB. */
  predicate MarksLine(mark: string, d: Dialect) {
    mark == "--" || (mark == "#" && SpeaksMySql(d))
  }

  lemma LineMark(before: string, mark: string, t: string, d: Dialect)
    requires MarksLine(mark, d) && |mark| <= |t| && t[..|mark|] == mark
    ensures NextPiece(before, t, d) == Blank(LineLen(t))
  {
    assert t[0] == mark[0];
    StartsWithTwo(t, "/*");
    StartsWithTwo(t, "--");
    NotVersioned(t);
  }

  /** A line comment, through the end of its line, becomes one space. */
  lemma LineCommentIsBlanked(before: string, mark: string, text: string, rest: string, d: Dialect)
    requires MarksLine(mark, d) && '\n' !in text
    ensures var comment := mark + text + "\n";
            Strip(before, comment + rest, d) == " " + Strip(before + comment, rest, d)
  {
    var comment := mark + text + "\n";
    var t, n := comment + rest, |mark| + |text|;
    assert t[..|mark|] == mark && t[n] == '\n';
    forall k | 0 <= k < n ensures t[k] != '\n' {
      if k >= |mark| { assert t[k] == text[k - |mark|]; } else { assert t[k] == mark[k]; }
    }
    FirstNewline(t, 0, n);
    LineMark(before, mark, t, d);
    Piece(before, comment, rest, d, Blank(|comment|));
  }

  /** In the last line it ends with the statement. */
  lemma LastLineCommentIsBlanked(before: string, mark: string, text: string, d: Dialect)
    requires MarksLine(mark, d) && '\n' !in text
    ensures Strip(before, mark + text, d) == " "
  {
    var t := mark + text;
    assert t[..|mark|] == mark;
    forall k | 0 <= k < |t| ensures t[k] != '\n' {
      if k >= |mark| { assert t[k] == text[k - |mark|]; } else { assert t[k] == mark[k]; }
    }
    NoNewline(t, 0);
    LineMark(before, mark, t, d);
    assert t + "" == t;
    Piece(before, t, "", d, Blank(|t|));
  }

  // ---------------------------------------------------------------- executable comments

  /** The marks of executable comments. */
  predicate MarksVersion(mark: string) {
    mark == "/*!" || mark == "/*m!" || mark == "/*M!"
  }

  predicate AllSpaces(s: string) {
    forall k :: 0 <= k < |s| ==> s[k] == ' ' || 9 <= s[k] as int <= 13 || 28 <= s[k] as int <= 31
  }

  predicate AllDigits(s: string) {
    forall k :: 0 <= k < |s| ==> '0' <= s[k] <= '9'
  }

  /** The text begins with neither white space nor a digit. */
  predicate BeginsCode(code: string) {
    code == "" || !(AllSpaces(code[..1]) || AllDigits(code[..1]))
  }

  lemma {:induction false} SpacesAreSkipped(spaces: string, rest: string)
    requires AllSpaces(spaces) && (rest == "" || !AllSpaces(rest[..1]))
    ensures SkipSpaces(spaces + rest) == rest
  {
    if spaces == "" {
      assert spaces + rest == rest;
      assert rest != "" ==> rest[..1] == [rest[0]];
    } else {
      assert (spaces + rest)[1..] == spaces[1..] + rest;
      SpacesAreSkipped(spaces[1..], rest);
    }
  }

  lemma {:induction false} DigitsAreSkipped(digits: string, rest: string)
    requires AllDigits(digits) && (rest == "" || !AllDigits(rest[..1]))
    ensures SkipDigits(digits + rest) == rest
  {
    if digits == "" {
      assert digits + rest == rest;
      assert rest != "" ==> rest[..1] == [rest[0]];
    } else {
      assert (digits + rest)[1..] == digits[1..] + rest;
      DigitsAreSkipped(digits[1..], rest);
    }
  }

  lemma DigitIsNoSpace(digits: string, rest: string)
    requires AllDigits(digits) && digits != ""
    ensures !AllSpaces((digits + rest)[..1])
  {
    var first := (digits + rest)[..1];
    assert first[0] == digits[0];
  }

  /** A version number and the spaces around it become one space; the code after it is kept. */
  lemma NumberIsDropped(spaces: string, digits: string, gap: string, code: string)
    requires AllSpaces(spaces) && AllDigits(digits) && digits != "" && AllSpaces(gap) && BeginsCode(code)
    ensures DropVersion(spaces + digits + gap + code) == " " + code
  {
    var body := spaces + digits + gap + code;
    var numbered, spaced := digits + (gap + code), gap + code;
    assert body == spaces + numbered;
    DigitIsNoSpace(digits, gap + code);
    assert spaced != "" ==> spaced[..1] == if gap != "" then gap[..1] else code[..1];
    SpacesAreSkipped(spaces, numbered);
    DigitsAreSkipped(digits, spaced);
    SpacesAreSkipped(gap, code);
  }

  /** Without a number the text is kept as it is. */
  lemma NothingIsDropped(spaces: string, code: string)
    requires AllSpaces(spaces) && BeginsCode(code)
    ensures DropVersion(spaces + code) == spaces + code
  {
    SpacesAreSkipped(spaces, code);
    assert code != "" ==> code[..1] == [code[0]];
  }

  lemma {:induction false} ClosingIsFound(t: string, from: nat, n: nat)
    requires from <= n && n + 2 <= |t| && t[n..n + 2] == "*/"
    requires forall k :: from <= k < n ==> !(t[k] == '*' && t[k + 1] == '/')
    ensures Find(t, "*/", from) == Some(n)
    decreases n - from
  {
    StartsWithTwo(t[from..], "*/");
    if from < n { ClosingIsFound(t, from + 1, n); }
  }

  lemma VersionMark(mark: string, t: string)
    requires MarksVersion(mark) && |mark| <= |t| && t[..|mark|] == mark
    ensures IsVersioned(t)
    ensures StartsWith(t, "/*!") <==> mark == "/*!"
  {
    assert t[2] == t[..|mark|][2] == mark[2];
    StartsWithThree(t, "/*!");
  }

  /** An executable comment is read up to its first `*` and `/`, and gives the text between, less its version number. */
  lemma VersionedIsRead(mark: string, body: string, rest: string)
    requires MarksVersion(mark) && ClosesOnlyAtEnd(body)
    ensures var comment := mark + body + "*/";
            IsVersioned(comment + rest) && Versioned(comment + rest) == (DropVersion(body), |comment|)
  {
    var comment := mark + body + "*/";
    var t, n := comment + rest, |mark| + |body|;
    assert t[..|mark|] == mark && t[n..n + 2] == "*/" && t[|mark|..n] == body;
    VersionMark(mark, t);
    forall k | |mark| <= k < n ensures !(t[k] == '*' && t[k + 1] == '/') {
      assert t[k] == (body + "*/")[k - |mark|] && t[k + 1] == (body + "*/")[k + 1 - |mark|];
    }
    ClosingIsFound(t, |mark|, n);
  }

  /** The first `*` and `/` after the body are those that close the comment. */
  predicate ClosesOnlyAtEnd(body: string) {
    forall k :: 0 <= k < |body| ==> !((body + "*/")[k] == '*' && (body + "*/")[k + 1] == '/')
  }

  /** In MySQL and MariaDB the code of an executable comment takes its place, stripped itself. */
  lemma VersionedCodeIsInlined(before: string, mark: string, spaces: string, digits: string, gap: string, code: string,
      rest: string, d: Dialect)
    requires SpeaksMySql(d) && MarksVersion(mark) && AllSpaces(spaces) && AllDigits(digits) && AllSpaces(gap) && BeginsCode(code)
    requires digits == "" ==> gap == ""
    requires ClosesOnlyAtEnd(spaces + digits + gap + code)
    ensures var comment := mark + (spaces + digits + gap + code) + "*/";
            var inlined := if digits == "" then spaces + code else " " + code;
            Strip(before, comment + rest, d) == Strip("", inlined, d) + Strip(before + comment, rest, d)
  {
    var body := spaces + digits + gap + code;
    var comment := mark + body + "*/";
    VersionedIsRead(mark, body, rest);
    if digits == "" {
      assert body == spaces + code;
      NothingIsDropped(spaces, code);
    } else {
      NumberIsDropped(spaces, digits, gap, code);
    }
    Piece(before, comment, rest, d, Inline(DropVersion(body), |comment|));
  }

  /** Elsewhere it is a comment like any other. */
  lemma VersionedIsCommentElsewhere(before: string, b: Body, rest: string, d: Dialect)
    requires !SpeaksMySql(d) && Plain(b)
    ensures Strip(before, ("/*!" + Written(b) + "*/") + rest, d) == " " + Strip(before + ("/*!" + Written(b) + "*/"), rest, d)
  {
    BlockCommentIsBlanked(before, Words("!", b), rest, d);
    assert "/*" + Written(Words("!", b)) + "*/" == "/*!" + Written(b) + "*/";
  }

  lemma {:induction false} ClosingIsMissing(t: string, from: nat)
    requires from <= |t| && forall k :: from <= k < |t| - 1 ==> !(t[k] == '*' && t[k + 1] == '/')
    ensures Find(t, "*/", from) == None
    decreases |t| - from
  {
    StartsWithTwo(t[from..], "*/");
    if from < |t| { ClosingIsMissing(t, from + 1); }
  }

  /** An executable comment that is not closed takes the rest of the statement with it. */
  lemma UnclosedVersionedIsDropped(before: string, mark: string, body: string, d: Dialect)
    requires SpeaksMySql(d) && MarksVersion(mark)
    requires forall k :: 0 <= k < |body| - 1 ==> !(body[k] == '*' && body[k + 1] == '/')
    ensures Strip(before, mark + body, d) == ""
  {
    var t := mark + body;
    assert t[..|mark|] == mark;
    VersionMark(mark, t);
    forall k | |mark| <= k < |t| - 1 ensures !(t[k] == '*' && t[k + 1] == '/') {
      assert t[k] == body[k - |mark|] && t[k + 1] == body[k + 1 - |mark|];
    }
    ClosingIsMissing(t, |mark|);
    assert t + "" == t;
    Piece(before, t, "", d, Inline("", |t|));
  }

  // ---------------------------------------------------------------- whole statements

  datatype Part =
    | CodePart(text: string)
    | QuotedPart(quote: char, content: string)
    | DollarPart(tag: string, content: string)
    | BlockPart(body: Body)
    | LinePart(mark: string, text: string)
    | VersionedPart(mark: string, spaces: string, digits: string, gap: string, code: string)

  /** A part as it stands in a statement, after the text before it. */
  function Spelled(before: string, p: Part, d: Dialect): string {
    match p
    case CodePart(text) => text
    case QuotedPart(quote, content) => [quote] + Escape(content, quote, Escapes(before, quote, d)) + [quote]
    case DollarPart(tag, content) => ("$" + tag + "$") + content + ("$" + tag + "$")
    case BlockPart(body) => "/*" + Written(body) + "*/"
    case LinePart(mark, text) => mark + text + "\n"
    case VersionedPart(mark, spaces, digits, gap, code) => mark + (spaces + digits + gap + code) + "*/"
  }

  /** What is left of it: code and quoted regions, a space for a comment, and the code of an executable comment. */
  function Left(before: string, p: Part, d: Dialect): string {
    match p
    case CodePart(text) => text
    case QuotedPart(_, _) => Spelled(before, p, d)
    case DollarPart(_, _) => Spelled(before, p, d)
    case BlockPart(_) => " "
    case LinePart(_, _) => " "
    case VersionedPart(_, spaces, digits, _, code) => StripComments(if digits == "" then spaces + code else " " + code, d)
  }

  /** The part can stand between the two texts and be read as such. */
  predicate Stands(before: string, p: Part, rest: string, d: Dialect) {
    match p
    case CodePart(text) => IsCode(text, rest, d)
    case QuotedPart(quote, _) => (quote == '\'' || quote == '"' || quote == '`') && (rest == "" || rest[0] != quote)
    case DollarPart(tag, content) =>
      d == PostgreSql && DollarMayOpen(before) && IsTag(tag) && NotInside("$" + tag + "$", content, rest)
    case BlockPart(body) =>
      && Plain(body)
      && (SpeaksMySql(d) ==> var w := Written(body) + "*/" + rest;
                             w[0] != '!' && !(|w| > 1 && (w[0] == 'm' || w[0] == 'M') && w[1] == '!'))
    case LinePart(mark, text) => MarksLine(mark, d) && '\n' !in text
    case VersionedPart(mark, spaces, digits, gap, code) =>
      && SpeaksMySql(d) && MarksVersion(mark) && AllSpaces(spaces) && AllDigits(digits) && AllSpaces(gap) && BeginsCode(code)
      && (digits == "" ==> gap == "") && ClosesOnlyAtEnd(spaces + digits + gap + code)
  }

  lemma PartIsStripped(before: string, p: Part, rest: string, d: Dialect)
    requires Stands(before, p, rest, d)
    ensures Strip(before, Spelled(before, p, d) + rest, d) == Left(before, p, d) + Strip(before + Spelled(before, p, d), rest, d)
  {
    match p
    case CodePart(text) => CodeIsKept(before, text, rest, d);
    case QuotedPart(quote, content) => QuotedIsKept(before, quote, content, rest, d);
    case DollarPart(tag, content) => DollarQuotedIsKept(before, tag, content, rest);
    case BlockPart(body) => BlockCommentIsBlanked(before, body, rest, d);
    case LinePart(mark, text) => LineCommentIsBlanked(before, mark, text, rest, d);
    case VersionedPart(mark, spaces, digits, gap, code) =>
      VersionedCodeIsInlined(before, mark, spaces, digits, gap, code, rest, d);
  }

  function SpelledAll(before: string, parts: seq<Part>, d: Dialect): string
    decreases |parts|
  {
    if parts == [] then ""
    else Spelled(before, parts[0], d) + SpelledAll(before + Spelled(before, parts[0], d), parts[1..], d)
  }

  function LeftAll(before: string, parts: seq<Part>, d: Dialect): string
    decreases |parts|
  {
    if parts == [] then ""
    else Left(before, parts[0], d) + LeftAll(before + Spelled(before, parts[0], d), parts[1..], d)
  }

  predicate AllStand(before: string, parts: seq<Part>, d: Dialect)
    decreases |parts|
  {
    parts == [] ||
    var after := before + Spelled(before, parts[0], d);
    Stands(before, parts[0], SpelledAll(after, parts[1..], d), d) && AllStand(after, parts[1..], d)
  }

  /** A statement written from such parts is stripped to what is left of each of them. */
  lemma {:induction false} StatementIsStripped(before: string, parts: seq<Part>, d: Dialect)
    requires AllStand(before, parts, d)
    ensures Strip(before, SpelledAll(before, parts, d), d) == LeftAll(before, parts, d)
    decreases |parts|
  {
    if parts != [] {
      var x := Spelled(before, parts[0], d);
      var rest := SpelledAll(before + x, parts[1..], d);
      PartIsStripped(before, parts[0], rest, d);
      StatementIsStripped(before + x, parts[1..], d);
      RestFollows(before, x, rest, Left(before, parts[0], d), LeftAll(before + x, parts[1..], d), d);
      assert SpelledAll(before, parts, d) == x + rest;
    }
  }

  lemma RestFollows(before: string, x: string, rest: string, kept: string, left: string, d: Dialect)
    requires Strip(before, x + rest, d) == kept + Strip(before + x, rest, d) && Strip(before + x, rest, d) == left
    ensures Strip(before, x + rest, d) == kept + left
  {
  }

  // ---------------------------------------------------------------- the values that are removed, and the regions that are listed

  lemma Removal(before: string, x: string, rest: string, d: Dialect)
    requires x != "" && |x| == ValueLen(before, x + rest, d).GetOr(1)
    ensures RemoveLiterals(before, x + rest, d)
         == (if ValueLen(before, x + rest, d).Some? then " " else x) + RemoveLiterals(before + x, rest, d)
  {
    Cuts(x, rest);
    assert (x + rest)[..1] == x[..1];
  }

  /** A value in single quotes, whatever its text, becomes one space. */
  lemma ValueIsRemoved(before: string, content: string, rest: string, d: Dialect)
    requires rest == "" || rest[0] != '\''
    ensures var region := "'" + Escape(content, '\'', Escapes(before, '\'', d)) + "'";
            RemoveLiterals(before, region + rest, d) == " " + RemoveLiterals(before + region, rest, d)
  {
    QuotedValueIsOneRegion(content, '\'', Escapes(before, '\'', d), rest);
    EscapesIff(before, '\'', d);
    var region := "'" + Escape(content, '\'', Escapes(before, '\'', d)) + "'";
    assert (region + rest)[0] == '\'';
    Removal(before, region, rest, d);
  }

  /** So does a dollar-quoted value of PostgreSQL. */
  lemma DollarValueIsRemoved(before: string, tag: string, content: string, rest: string)
    requires DollarMayOpen(before) && IsTag(tag) && NotInside("$" + tag + "$", content, rest)
    ensures var region := ("$" + tag + "$") + content + ("$" + tag + "$");
            RemoveLiterals(before, region + rest, PostgreSql) == " " + RemoveLiterals(before + region, rest, PostgreSql)
  {
    var delimiter := "$" + tag + "$";
    var region := delimiter + content + delimiter;
    TagDelimits(tag);
    DollarQuoteIsOneRegion(delimiter, content, rest);
    assert (region + rest)[0] == '$';
    Removal(before, region, rest, PostgreSql);
  }

  /** Any other character stays, double quotes and backticks included. */
  lemma OtherCharacterStays(before: string, c: char, rest: string, d: Dialect)
    requires c != '\'' && !(c == '$' && d == PostgreSql)
    ensures RemoveLiterals(before, [c] + rest, d) == [c] + RemoveLiterals(before + [c], rest, d)
  {
    Removal(before, [c], rest, d);
  }

  lemma Listing(before: string, x: string, rest: string, d: Dialect, p: Piece)
    requires x != "" && NextPiece(before, x + rest, d) == p && p.n == |x|
    ensures Literals(before, x + rest, d) == (if p.Copy? && p.literal then [x] else []) + Literals(before + x, rest, d)
  {
    Cuts(x, rest);
  }

  /** A quoted region is listed as a literal of the statement. */
  lemma QuotedIsListed(before: string, quote: char, content: string, rest: string, d: Dialect)
    requires quote == '\'' || quote == '"' || quote == '`'
    requires rest == "" || rest[0] != quote
    ensures var region := [quote] + Escape(content, quote, Escapes(before, quote, d)) + [quote];
            Literals(before, region + rest, d) == [region] + Literals(before + region, rest, d)
  {
    var region := [quote] + Escape(content, quote, Escapes(before, quote, d)) + [quote];
    var t := region + rest;
    QuotedValueIsOneRegion(content, quote, Escapes(before, quote, d), rest);
    EscapesIff(before, quote, d);
    StartsWithTwo(t, "/*");
    StartsWithTwo(t, "--");
    NotVersioned(t);
    Listing(before, region, rest, d, Copy(|region|, true));
  }

  /** So is a dollar-quoted one of PostgreSQL. */
  lemma DollarQuotedIsListed(before: string, tag: string, content: string, rest: string)
    requires DollarMayOpen(before) && IsTag(tag) && NotInside("$" + tag + "$", content, rest)
    ensures var region := ("$" + tag + "$") + content + ("$" + tag + "$");
            Literals(before, region + rest, PostgreSql) == [region] + Literals(before + region, rest, PostgreSql)
  {
    var delimiter := "$" + tag + "$";
    var region := delimiter + content + delimiter;
    TagDelimits(tag);
    DollarQuoteIsOneRegion(delimiter, content, rest);
    assert (region + rest)[0] == '$';
    DollarPiece(before, region + rest, PostgreSql);
    Listing(before, region, rest, PostgreSql, Copy(|region|, true));
  }
}
