/**
  What comment stripping promises: on statements without versioned comments it keeps every quoted region, leaves no
  comment behind and changes nothing when it runs again. Text inlined from a versioned comment can open a new comment.
 */
module SqlLexerTheorems {
  import opened Common
  import opened SqlLexer

  // ---------------------------------------------------------------- where comments end

  lemma {:induction false} BlockEndsInSlash(t: string, depth: nat, k: nat)
    requires k <= |t| && 0 < depth
    ensures BlockLen(t, depth, k) == |t| || t[BlockLen(t, depth, k) - 1] == '/'
    decreases |t| - k
  {
    if k < |t| {
      if StartsWith(t[k..], "/*") {
        BlockEndsInSlash(t, depth + 1, k + 2);
      } else if StartsWith(t[k..], "*/") {
        assert t[k..][1] == '/';
        if depth > 1 { BlockEndsInSlash(t, depth - 1, k + 2); }
      } else {
        BlockEndsInSlash(t, depth, k + 1);
      }
    }
  }

  lemma CommentEndsInSeparator(before: string, t: string, d: Dialect)
    requires t != "" && NextPiece(before, t, d).Blank?
    ensures var n := NextPiece(before, t, d).n;
            n == |t| || t[n - 1] == '/' || t[n - 1] == '\n'
  {
    if StartsWith(t, "/*") {
      BlockEndsInSlash(t, 1, 2);
    } else {
      FindIsFirst(t, "\n", 0);
      match Find(t, "\n", 0)
      case None =>
      case Some(p) => assert t[p..][..1][0] == t[p];
    }
  }

  // ---------------------------------------------------------------- what the scanner sees of the text before

  /** Two texts before a position that no scanner rule can tell apart. */
  predicate SameContext(a: string, b: string) {
    && EndsInWord(a) == EndsInWord(b)
    && BlocksDollar(a) == BlocksDollar(b)
    && EndsInEscapePrefix(a) == EndsInEscapePrefix(b)
  }

  lemma SameContextAfter(a: string, b: string, x: string)
    requires SameContext(a, b) && x != ""
    ensures SameContext(a + x, b + x)
  {
    var last := x[|x| - 1];
    assert (a + x)[|a + x| - 1] == last && (b + x)[|b + x| - 1] == last;
    assert (a + x)[..|a + x| - 1] == a + x[..|x| - 1];
    assert (b + x)[..|b + x| - 1] == b + x[..|x| - 1];
    if |x| == 1 {
      assert a + x[..0] == a && b + x[..0] == b;
    } else {
      assert (a + x[..|x| - 1])[|a| + |x| - 2] == x[|x| - 2] == (b + x[..|x| - 1])[|b| + |x| - 2];
    }
  }

  lemma SameContextAfterComment(a: string, b: string, comment: string)
    requires comment != "" && (comment[|comment| - 1] == '/' || comment[|comment| - 1] == '\n')
    ensures SameContext(a + comment, b + " ")
  {
    assert (a + comment)[|a + comment| - 1] == comment[|comment| - 1];
    assert (b + " ")[|b + " "| - 1] == ' ';
  }

  // ---------------------------------------------------------------- scanners on a text with a changed rest

  lemma {:induction false} QuoteLenAgrees(t: string, u: string, escapes: bool, k: nat)
    requires t != "" && 0 < k
    requires var n := QuoteLen(t, escapes, k);
             n < |t| && n < |u| && t[..n] == u[..n] && (u[n] == t[0] ==> t[n] == t[0])
    ensures QuoteLen(u, escapes, k) == QuoteLen(t, escapes, k)
    decreases |t| - k
  {
    var n := QuoteLen(t, escapes, k);
    assert k < n;
    assert forall j | 0 <= j < n :: t[j] == t[..n][j] == u[j];
    if escapes && t[k] == '\\' {
      QuoteLenAgrees(t, u, escapes, k + 2);
    } else if t[k] == t[0] {
      if k + 1 < |t| && t[k + 1] == t[0] { QuoteLenAgrees(t, u, escapes, k + 2); }
    } else {
      QuoteLenAgrees(t, u, escapes, k + 1);
    }
  }

  lemma {:induction false} TagEndAgrees(t: string, u: string, k: nat)
    requires k <= |t| && TagEnd(t, k) != 0
    requires TagEnd(t, k) <= |u| && t[..TagEnd(t, k)] == u[..TagEnd(t, k)]
    ensures TagEnd(u, k) == TagEnd(t, k)
    decreases |t| - k
  {
    var n := TagEnd(t, k);
    assert t[k] == t[..n][k] == u[k];
    if t[k] != '$' { TagEndAgrees(t, u, k + 1); }
  }

  lemma SameWindow(t: string, u: string, e: nat, k: nat, n: nat)
    requires e <= |t| && e <= |u| && t[..e] == u[..e] && k + n <= e
    ensures t[k..][..n] == u[k..][..n]
  {
    assert t[k..][..n] == t[..e][k..k + n];
    assert u[k..][..n] == u[..e][k..k + n];
  }

  lemma FindAgrees(t: string, u: string, pattern: string, from: nat)
    requires from <= |t| && from <= |u| && Find(t, pattern, from).Some?
    requires var e := Find(t, pattern, from).value + |pattern|; e <= |u| && t[..e] == u[..e]
    ensures Find(u, pattern, from) == Find(t, pattern, from)
  {
    var p := Find(t, pattern, from).value;
    var e := p + |pattern|;
    forall k | from <= k <= p ensures t[k..][..|pattern|] == u[k..][..|pattern|] {
      SameWindow(t, u, e, k, |pattern|);
    }
    FindIsFirst(t, pattern, from);
    FindIsFirst(u, pattern, from);
    assert StartsWith(u[p..], pattern);
    assert Find(u, pattern, from).Some?;
    var q := Find(u, pattern, from).value;
    assert StartsWith(u[q..], pattern) && q <= p;
    assert StartsWith(t[q..], pattern);
  }

  /** A dollar-quoted region is read alike whatever follows it. */
  lemma DollarLenAgrees(t: string, u: string, blocked: bool)
    requires t != "" && t[0] == '$' && DollarLen(t, blocked).Some?
    requires var n := DollarLen(t, blocked).value; n < |t| && n <= |u| && t[..n] == u[..n]
    requires u != "" && u[0] == '$'
    ensures DollarLen(u, blocked) == DollarLen(t, blocked)
  {
    var n := DollarLen(t, blocked).value;
    var m := DelimiterLen(t);
    assert t[..m] == t[..n][..m] == u[..n][..m] == u[..m];
    assert t[1] == t[..n][1] == u[1];
    TagEndAgrees(t, u, 1);
    FindAgrees(t, u, t[..m], m);
  }

  // ---------------------------------------------------------------- regions are read as they are written

  lemma StartsWithTwo(t: string, pattern: string)
    requires |pattern| == 2
    ensures StartsWith(t, pattern) <==> |t| >= 2 && t[0] == pattern[0] && t[1] == pattern[1]
  {
    if |t| >= 2 { assert t[..2] == [t[0], t[1]]; }
    assert pattern == [pattern[0], pattern[1]];
  }

  /** A content as it is written inside quotes: quotes doubled, and backslashes where they escape. */
  function Escape(content: string, quote: char, escapes: bool): string {
    if content == "" then ""
    else (if content[0] == quote || (escapes && content[0] == '\\') then [content[0], content[0]] else [content[0]])
         + Escape(content[1..], quote, escapes)
  }

  /** Reading on past a part of the text. */
  lemma Advance(t: string, k: nat, x: string, rest: string)
    requires k <= |t| && t[k..] == x + rest
    ensures k + |x| <= |t| && t[k + |x|..] == rest && forall j :: 0 <= j < |x| ==> t[k + j] == x[j]
  {
    assert t[k + |x|..] == t[k..][|x|..];
    forall j | 0 <= j < |x| ensures t[k + j] == x[j] {
      assert t[k + j] == t[k..][j];
    }
  }

  lemma ClosingQuoteIsRead(t: string, k: nat, escapes: bool, rest: string)
    requires t != "" && 0 < k <= |t| && t[k..] == [t[0]] + rest && (rest == "" || rest[0] != t[0])
    requires escapes ==> t[0] != '\\'
    ensures QuoteLen(t, escapes, k) == k + 1
  {
    Advance(t, k, [t[0]], rest);
    assert k < |t| && t[k + 0] == t[0];
    assert k + 1 < |t| ==> t[k + 1] == t[k + 1..][0];
  }

  lemma {:induction false} EscapedContentIsRead(t: string, k: nat, content: string, escapes: bool, rest: string)
    requires t != "" && 0 < k <= |t| && t[k..] == Escape(content, t[0], escapes) + ([t[0]] + rest)
    requires rest == "" || rest[0] != t[0]
    requires escapes ==> t[0] != '\\'
    ensures QuoteLen(t, escapes, k) == k + |Escape(content, t[0], escapes)| + 1
    decreases |content|
  {
    var e := Escape(content, t[0], escapes);
    if content == "" {
      assert t[k..] == [t[0]] + rest;
      ClosingQuoteIsRead(t, k, escapes, rest);
    } else {
      var tail := Escape(content[1..], t[0], escapes);
      var head := e[..|e| - |tail|];
      Advance(t, k, head, tail + ([t[0]] + rest));
      EscapedContentIsRead(t, k + |head|, content[1..], escapes, rest);
    }
  }

  /** Any value, written with its quotes doubled, is read as one region, whatever follows but another quote. */
  lemma QuotedValueIsOneRegion(content: string, quote: char, escapes: bool, rest: string)
    requires rest == "" || rest[0] != quote
    requires escapes ==> quote != '\\'
    ensures var region := [quote] + Escape(content, quote, escapes) + [quote];
            QuoteLen(region + rest, escapes, 1) == |region|
  {
    var e := Escape(content, quote, escapes);
    var t := [quote] + (e + ([quote] + rest));
    assert [quote] + e + [quote] + rest == t;
    assert t[1..] == e + ([quote] + rest);
    EscapedContentIsRead(t, 1, content, escapes, rest);
  }

  /** The text of a comment: words without slashes and stars, and comments inside it. */
  datatype Body = End | Words(text: string, after: Body) | Nested(inner: Body, after: Body)

  predicate Plain(b: Body) {
    match b
    case End => true
    case Words(text, after) => '/' !in text && '*' !in text && Plain(after)
    case Nested(inner, after) => Plain(inner) && Plain(after)
  }

  function Written(b: Body): string {
    match b
    case End => ""
    case Words(text, after) => text + Written(after)
    case Nested(inner, after) => "/*" + Written(inner) + "*/" + Written(after)
  }

  lemma {:induction false} WordsAreSkipped(t: string, depth: nat, k: nat, n: nat)
    requires k + n <= |t| && 0 < depth
    requires forall j :: k <= j < k + n ==> t[j] != '/' && t[j] != '*'
    ensures BlockLen(t, depth, k) == BlockLen(t, depth, k + n)
    decreases n
  {
    if n > 0 {
      assert t[k..][0] == t[k];
      StartsWithTwo(t[k..], "/*");
      StartsWithTwo(t[k..], "*/");
      WordsAreSkipped(t, depth, k + 1, n - 1);
    }
  }

  lemma OpenAt(t: string, depth: nat, k: nat, rest: string)
    requires k <= |t| && t[k..] == "/*" + rest && 0 < depth
    ensures k + 2 <= |t| && t[k + 2..] == rest && BlockLen(t, depth, k) == BlockLen(t, depth + 1, k + 2)
  {
    Advance(t, k, "/*", rest);
    StartsWithTwo(t[k..], "/*");
  }

  lemma CloseAt(t: string, depth: nat, k: nat, rest: string)
    requires k <= |t| && t[k..] == "*/" + rest && 0 < depth
    ensures k + 2 <= |t| && t[k + 2..] == rest && BlockLen(t, depth, k) == BlockLen(t, depth - 1, k + 2)
  {
    Advance(t, k, "*/", rest);
    StartsWithTwo(t[k..], "/*");
    StartsWithTwo(t[k..], "*/");
  }

  lemma TextIsSkipped(t: string, depth: nat, k: nat, text: string, rest: string)
    requires '/' !in text && '*' !in text && 0 < depth && k <= |t| && t[k..] == text + rest
    ensures k + |text| <= |t| && t[k + |text|..] == rest && BlockLen(t, depth, k) == BlockLen(t, depth, k + |text|)
  {
    Advance(t, k, text, rest);
    forall j | k <= j < k + |text| ensures t[j] != '/' && t[j] != '*' {
      assert t[k + (j - k)] == text[j - k];
    }
    WordsAreSkipped(t, depth, k, |text|);
  }

  /** A body leaves the depth where it was; `end` is the position after it. */
  lemma {:induction false} BodyIsSkipped(t: string, depth: nat, k: nat, b: Body, rest: string, end: nat)
    requires Plain(b) && 0 < depth && k <= |t| && t[k..] == Written(b) + rest && end == k + |Written(b)|
    ensures end <= |t| && t[end..] == rest
    ensures BlockLen(t, depth, k) == BlockLen(t, depth, end)
    decreases b, 0
  {
    match b
    case End =>
      NothingWritten(t, k, rest);
    case Words(text, after) =>
      WordsAfter(text, after, rest);
      TextIsSkipped(t, depth, k, text, Written(after) + rest);
      BodyIsSkipped(t, depth, k + |text|, after, rest, end);
    case Nested(inner, after) =>
      NestedAfter(inner, after, rest);
      var m := k + 4 + |Written(inner)|;
      NestedIsSkipped(t, depth, k, inner, Written(after) + rest, m);
      BodyIsSkipped(t, depth, m, after, rest, end);
  }

  lemma NothingWritten(t: string, k: nat, rest: string)
    requires k <= |t| && t[k..] == Written(End) + rest
    ensures |Written(End)| == 0 && t[k..] == rest
  {
  }

  lemma WordsAfter(text: string, after: Body, rest: string)
    ensures Written(Words(text, after)) + rest == text + (Written(after) + rest)
    ensures |Written(Words(text, after))| == |text| + |Written(after)|
  {
  }

  lemma NestedAfter(inner: Body, after: Body, rest: string)
    ensures Written(Nested(inner, after)) + rest == "/*" + (Written(inner) + ("*/" + (Written(after) + rest)))
    ensures |Written(Nested(inner, after))| == 4 + |Written(inner)| + |Written(after)|
  {
  }

  /** A comment inside a comment is skipped as a whole. */
  lemma {:induction false} NestedIsSkipped(t: string, depth: nat, k: nat, inner: Body, rest: string, end: nat)
    requires Plain(inner) && 0 < depth && k <= |t| && t[k..] == "/*" + (Written(inner) + ("*/" + rest))
    requires end == k + 4 + |Written(inner)|
    ensures end <= |t| && t[end..] == rest
    ensures BlockLen(t, depth, k) == BlockLen(t, depth, end)
    decreases inner, 1
  {
    var closing := end - 2;
    OpenAt(t, depth, k, Written(inner) + ("*/" + rest));
    BodyIsSkipped(t, depth + 1, k + 2, inner, "*/" + rest, closing);
    CloseAt(t, depth + 1, closing, rest);
  }

  lemma {:induction false} ClosedIsDone(t: string, k: nat)
    requires k <= |t|
    ensures BlockLen(t, 0, k) == k
  {
  }

  /** Comments nested to any depth are read as one comment, whatever follows. */
  lemma NestedCommentIsOneRegion(b: Body, rest: string)
    requires Plain(b)
    ensures var region := "/*" + Written(b) + "*/";
            BlockLen(region + rest, 1, 2) == |region|
  {
    var w := Written(b);
    var t := "/*" + (w + ("*/" + rest));
    assert "/*" + w + "*/" + rest == t;
    assert t[2..] == w + ("*/" + rest);
    BodyIsSkipped(t, 1, 2, b, "*/" + rest, 2 + |w|);
    CloseAt(t, 1, 2 + |w|, rest);
    ClosedIsDone(t, 4 + |w|);
  }

  /** A dollar-quote delimiter with an optional tag. */
  predicate IsDelimiter(s: string) {
    && |s| >= 2 && s[0] == '$' && s[|s| - 1] == '$'
    && (|s| > 2 ==> IsTagStart(s[1])) && forall j :: 1 <= j < |s| - 1 ==> IsWord(s[j])
  }

  lemma {:induction false} TagIsRead(t: string, k: nat, n: nat)
    requires k < n <= |t| && t[n - 1] == '$' && forall j :: k <= j < n - 1 ==> IsWord(t[j])
    ensures TagEnd(t, k) == n
    decreases n - k
  {
    if k < n - 1 { TagIsRead(t, k + 1, n); }
  }

  /** A dollar-quoted region ends at the first repetition of its delimiter. */
  lemma DollarQuoteIsOneRegion(delimiter: string, content: string, rest: string)
    requires IsDelimiter(delimiter)
    requires forall k :: 0 <= k < |content| ==> !StartsWith((content + delimiter + rest)[k..], delimiter)
    ensures var region := delimiter + content + delimiter;
            DollarLen(region + rest, false) == Some(|region|)
  {
    var inside := content + delimiter + rest;
    var t := delimiter + inside;
    assert delimiter + content + delimiter + rest == t;
    DelimiterIsRead(delimiter, inside);
    RepetitionIsFound(delimiter, content, rest);
  }

  lemma DelimiterIsRead(delimiter: string, inside: string)
    requires IsDelimiter(delimiter)
    ensures DelimiterLen(delimiter + inside) == |delimiter| && (delimiter + inside)[..|delimiter|] == delimiter
  {
    var t := delimiter + inside;
    assert forall j :: 0 <= j < |delimiter| ==> t[j] == delimiter[j];
    TagIsRead(t, 1, |delimiter|);
  }

  lemma RepetitionIsFound(delimiter: string, content: string, rest: string)
    requires forall k :: 0 <= k < |content| ==> !StartsWith((content + delimiter + rest)[k..], delimiter)
    ensures Find(delimiter + (content + delimiter + rest), delimiter, |delimiter|) == Some(|delimiter| + |content|)
  {
    var inside := content + delimiter + rest;
    var t, n := delimiter + inside, |delimiter|;
    FindIsFirst(t, delimiter, n);
    forall k | 0 <= k <= |inside| ensures t[n + k..] == inside[k..] {
    }
    assert inside[|content|..] == delimiter + rest;
    assert StartsWith(inside[|content|..], delimiter);
    assert t[n + |content|..] == inside[|content|..];
    var found := Find(t, delimiter, n);
    assert found.Some? && found.value <= n + |content|;
    assert t[n + (found.value - n)..] == inside[found.value - n..];
  }

  // ---------------------------------------------------------------- the head of the stripped text

  /** The scanner meets no versioned comment. */
  predicate Unversioned(before: string, t: string, d: Dialect)
    decreases |t|
  {
    t == "" ||
    var p := NextPiece(before, t, d);
    !p.Inline? && Unversioned(before + t[..p.n], t[p.n..], d)
  }

  /** There are none outside MySQL and MariaDB. */
  lemma {:induction false} OthersHaveNoVersions(before: string, t: string, d: Dialect)
    requires !MySqlLike(d)
    ensures Unversioned(before, t, d)
    decreases |t|
  {
    if t != "" {
      var n := NextPiece(before, t, d).n;
      OthersHaveNoVersions(before + t[..n], t[n..], d);
    }
  }

  lemma VersionedOpensComment(t: string)
    requires IsVersioned(t)
    ensures StartsWith(t, "/*")
  {
    var n := if StartsWith(t, "/*!") then 3 else 4;
    assert t[..2] == t[..n][..2];
  }

  /** Characters that can open a comment. */
  predicate OpensComment(c: char) {
    c == '/' || c == '-' || c == '#'
  }

  /** Stripping replaces a first character only when it opens a comment. */
  lemma HeadOfStrip(a: string, t: string, d: Dialect)
    requires t != "" && Unversioned(a, t, d)
    ensures Strip(a, t, d) != ""
    ensures NextPiece(a, t, d).Blank? ==> Strip(a, t, d)[0] == ' ' && OpensComment(t[0])
    ensures NextPiece(a, t, d).Copy? ==> Strip(a, t, d)[0] == t[0]
  {
    StripUnfolds(a, t, d);
  }

  lemma {:induction false} TagEndShifts(t: string, k: nat, u: string, m: nat)
    requires k <= |t| && m <= |u| && t[k..] == u[m..]
    ensures (TagEnd(t, k) == 0) == (TagEnd(u, m) == 0)
    decreases |t| - k
  {
    if k < |t| {
      assert t[k] == t[k..][0] == u[m];
      assert t[k + 1..] == t[k..][1..] == u[m + 1..];
      TagEndShifts(t, k + 1, u, m + 1);
    }
  }

  /** Stripping neither creates nor destroys the tag of a dollar quote. */
  lemma {:induction false} TagSurvives(a: string, t: string, d: Dialect)
    requires d.PostgreSql?
    ensures (TagEnd(Strip(a, t, d), 0) == 0) == (TagEnd(t, 0) == 0)
    decreases |t|
  {
    if t != "" {
      OthersHaveNoVersions(a, t, d);
      HeadOfStrip(a, t, d);
      if IsWord(t[0]) {
        StripUnfolds(a, t, d);
        TagSurvives(a + t[..1], t[1..], d);
        TagEndShifts(Strip(a, t, d), 1, Strip(a + t[..1], t[1..], d), 0);
        TagEndShifts(t, 1, t[1..], 0);
      }
    }
  }

  // ---------------------------------------------------------------- the second pass, piece by piece

  lemma CloserSurvives(a: string, t: string, d: Dialect)
    requires t != "" && Unversioned(a, t, d)
    requires var p := NextPiece(a, t, d); p.Copy? && p.n < |t|
    ensures var n, u := NextPiece(a, t, d).n, Strip(a, t, d);
            && n < |u| && u[..n] == t[..n]
            && (u[n] == t[n] || (u[n] == ' ' && OpensComment(t[n])))
  {
    var n := NextPiece(a, t, d).n;
    StripUnfolds(a, t, d);
    HeadOfStrip(a + t[..n], t[n..], d);
  }

  lemma LiteralStaysLiteral(a: string, t: string, o: string, d: Dialect)
    requires t != "" && Unversioned(a, t, d) && SameContext(a, o)
    requires var p := NextPiece(a, t, d); p.Copy? && p.literal && p.n < |t|
    ensures Strip(a, t, d) != "" && NextPiece(o, Strip(a, t, d), d) == NextPiece(a, t, d)
  {
    var u := Strip(a, t, d);
    CloserSurvives(a, t, d);
    assert t[0] == u[..NextPiece(a, t, d).n][0] == u[0];
    if IsVersioned(u) { VersionedOpensComment(u); }
    StartsWithTwo(u, "/*");
    StartsWithTwo(u, "--");
    if d.PostgreSql? && t[0] == '$' {
      DollarLenAgrees(t, u, BlocksDollar(a));
    } else {
      QuoteLenAgrees(t, u, BackslashEscapes(a, t[0], d), 1);
    }
  }

  lemma NoDelimiterAppears(a: string, t: string, d: Dialect)
    requires |t| > 1 && d.PostgreSql? && t[0] == '$' && NextPiece(a, t, d) == Copy(1, false)
    ensures Strip(a, t, d) != "" && Strip(a, t, d)[0] == '$'
    ensures DollarLen(Strip(a, t, d), BlocksDollar(a)).None?
  {
    var u := Strip(a, t, d);
    OthersHaveNoVersions(a, t, d);
    CloserSurvives(a, t, d);
    assert t[0] == u[..1][0] == u[0];
    StripUnfolds(a, t, d);
    TagSurvives(a + t[..1], t[1..], d);
    TagEndShifts(u, 1, Strip(a + t[..1], t[1..], d), 0);
    TagEndShifts(t, 1, t[1..], 0);
    StartsWithTwo(t, "/*");
    StartsWithTwo(t, "--");
  }

  lemma PlainStaysPlain(a: string, t: string, o: string, d: Dialect)
    requires |t| > 1 && Unversioned(a, t, d) && SameContext(a, o) && NextPiece(a, t, d) == Copy(1, false)
    ensures Strip(a, t, d) != "" && NextPiece(o, Strip(a, t, d), d) == Copy(1, false)
  {
    var u := Strip(a, t, d);
    CloserSurvives(a, t, d);
    assert t[0] == u[..1][0] == u[0];
    if IsVersioned(u) { VersionedOpensComment(u); }
    StartsWithTwo(t, "/*");
    StartsWithTwo(u, "/*");
    StartsWithTwo(t, "--");
    StartsWithTwo(u, "--");
    if d.PostgreSql? && t[0] == '$' { NoDelimiterAppears(a, t, d); }
  }

  lemma ContextDecides(a: string, b: string, t: string, d: Dialect)
    requires SameContext(a, b) && t != ""
    ensures NextPiece(a, t, d) == NextPiece(b, t, d)
  {
  }

  lemma LastPieceStays(a: string, t: string, d: Dialect)
    requires t != "" && NextPiece(a, t, d).Copy? && NextPiece(a, t, d).n == |t|
    ensures Strip(a, t, d) == t
  {
    StripUnfolds(a, t, d);
  }

  lemma SpaceIsPlain(o: string, u: string, d: Dialect)
    requires u != "" && u[0] == ' '
    ensures NextPiece(o, u, d) == Copy(1, false)
  {
    if IsVersioned(u) { VersionedOpensComment(u); }
    StartsWithTwo(u, "/*");
    StartsWithTwo(u, "--");
  }

  /** What the scanner reads in the output is what it read in the input, comments having become spaces. */
  lemma SecondPassPiece(a: string, t: string, o: string, d: Dialect)
    requires t != "" && Unversioned(a, t, d) && SameContext(a, o)
    ensures Strip(a, t, d) != ""
    ensures var p := NextPiece(a, t, d); NextPiece(o, Strip(a, t, d), d) == if p.Copy? then p else Copy(1, false)
  {
    var p := NextPiece(a, t, d);
    HeadOfStrip(a, t, d);
    if p.Copy? {
      if p.n == |t| {
        LastPieceStays(a, t, d);
        ContextDecides(a, o, t, d);
      } else if p.literal {
        LiteralStaysLiteral(a, t, o, d);
      } else {
        PlainStaysPlain(a, t, o, d);
      }
    } else {
      SpaceIsPlain(o, Strip(a, t, d), d);
    }
  }

  lemma ContextAfterPiece(a: string, t: string, o: string, d: Dialect)
    requires t != "" && Unversioned(a, t, d) && SameContext(a, o) && NextPiece(a, t, d).n < |t|
    ensures SameContext(a + t[..NextPiece(a, t, d).n], o + Rendered(a, t, d))
  {
    var p := NextPiece(a, t, d);
    if p.Copy? {
      SameContextAfter(a, o, t[..p.n]);
    } else {
      CommentEndsInSeparator(a, t, d);
      SameContextAfterComment(a, o, t[..p.n]);
    }
  }

  lemma Cuts(x: string, r: string)
    ensures (x + r)[..|x|] == x && (x + r)[|x|..] == r
  {
  }

  /** One scanner step that copies `x`. */
  lemma CopyStep(o: string, x: string, r: string, literal: bool, d: Dialect)
    requires x != "" && NextPiece(o, x + r, d) == Copy(|x|, literal)
    ensures Strip(o, x + r, d) == x + Strip(o + x, r, d)
    ensures Literals(o, x + r, d) == (if literal then [x] else []) + Literals(o + x, r, d)
    ensures CommentFree(o, x + r, d) == CommentFree(o + x, r, d)
  {
    Cuts(x, r);
  }

  /** Scanning the output of a scan, after any text that looks the same, repeats that scan. */
  lemma {:induction false} SecondPass(a: string, t: string, o: string, d: Dialect)
    requires Unversioned(a, t, d) && (t != "" ==> SameContext(a, o))
    ensures var u := Strip(a, t, d);
            Strip(o, u, d) == u && Literals(o, u, d) == Literals(a, t, d) && CommentFree(o, u, d)
    decreases |t|
  {
    if t != "" {
      var p := NextPiece(a, t, d);
      var x, r := Rendered(a, t, d), Strip(a + t[..p.n], t[p.n..], d);
      StripUnfolds(a, t, d);
      SecondPassPiece(a, t, o, d);
      CopyStep(o, x, r, p.Copy? && p.literal, d);
      if p.n < |t| { ContextAfterPiece(a, t, o, d); }
      SecondPass(a + t[..p.n], t[p.n..], o + x, d);
    }
  }

  // ---------------------------------------------------------------- theorems

  /** Idempotent, keeps every quoted region, leaves no comment, in every dialect, unless there are versioned comments. */
  lemma UnversionedStrippingIsIdempotent(s: string, d: Dialect)
    requires Unversioned("", s, d)
    ensures StripComments(StripComments(s, d), d) == StripComments(s, d)
    ensures Literals("", StripComments(s, d), d) == Literals("", s, d)
    ensures CommentFree("", StripComments(s, d), d)
  {
    SecondPass("", s, "", d);
  }

  /** So it is for every statement outside MySQL and MariaDB. */
  lemma StrippingIsIdempotent(s: string, d: Dialect)
    requires !MySqlLike(d)
    ensures StripComments(StripComments(s, d), d) == StripComments(s, d)
    ensures Literals("", StripComments(s, d), d) == Literals("", s, d)
    ensures CommentFree("", StripComments(s, d), d)
  {
    OthersHaveNoVersions("", s, d);
    UnversionedStrippingIsIdempotent(s, d);
  }

  lemma InlinedIsShorter(t: string)
    requires IsVersioned(t)
    ensures |Versioned(t).0| < Versioned(t).1
  {
  }

  lemma {:induction false} StripNeverGrows(a: string, t: string, d: Dialect)
    ensures |Strip(a, t, d)| <= |t|
    decreases |t|
  {
    if t != "" {
      var p := NextPiece(a, t, d);
      StripUnfolds(a, t, d);
      if p.Inline? {
        InlinedIsShorter(t);
        StripNeverGrows("", p.body, d);
      }
      StripNeverGrows(a + t[..p.n], t[p.n..], d);
    }
  }

  lemma DropBoth(x: string, a: string, b: string)
    ensures x + a == x + b <==> a == b
  {
    Cuts(x, a);
    Cuts(x, b);
  }

  /** A comment does not survive stripping: it becomes a space, or shorter text. */
  lemma CommentChanges(a: string, t: string, d: Dialect)
    requires t != "" && !NextPiece(a, t, d).Copy?
    ensures Strip(a, t, d) != t
  {
    var p := NextPiece(a, t, d);
    StripUnfolds(a, t, d);
    if p.Inline? {
      InlinedIsShorter(t);
      StripNeverGrows("", p.body, d);
      StripNeverGrows(a + t[..p.n], t[p.n..], d);
    } else {
      BlankOpens(a, t, d);
      assert Strip(a, t, d)[0] == ' ';
    }
  }

  lemma BlankOpens(a: string, t: string, d: Dialect)
    requires t != "" && NextPiece(a, t, d).Blank?
    ensures OpensComment(t[0])
  {
    StartsWithTwo(t, "/*");
    StartsWithTwo(t, "--");
  }

  lemma {:induction false} UnchangedIffCommentFree(a: string, t: string, d: Dialect)
    ensures Strip(a, t, d) == t <==> CommentFree(a, t, d)
    decreases |t|
  {
    if t != "" {
      var p := NextPiece(a, t, d);
      if p.Copy? {
        var x, r := t[..p.n], t[p.n..];
        UnchangedIffCommentFree(a + x, r, d);
        assert t == x + r;
        CopyStep(a, x, r, p.literal, d);
        DropBoth(x, Strip(a + x, r, d), r);
      } else {
        CommentChanges(a, t, d);
      }
    }
  }

  /** In every dialect a statement is a fixed point of stripping exactly when the scanner meets no comment in it. */
  lemma FixedPointIffCommentFree(s: string, d: Dialect)
    ensures StripComments(s, d) == s <==> CommentFree("", s, d)
  {
    UnchangedIffCommentFree("", s, d);
  }

  /** So stripping is idempotent on a statement exactly when its own output contains no comment. */
  lemma IdempotentIffCommentFree(s: string, d: Dialect)
    ensures StripComments(StripComments(s, d), d) == StripComments(s, d) <==> CommentFree("", StripComments(s, d), d)
  {
    FixedPointIffCommentFree(StripComments(s, d), d);
  }

  /** No single quote, hence no string value, survives in the text the inspector matches table names against. */
  lemma {:induction false} NoQuoteSurvives(before: string, t: string, d: Dialect)
    ensures '\'' !in RemoveLiterals(before, t, d)
    decreases |t|
  {
    if t != "" {
      var n := ValueLen(before, t, d).GetOr(1);
      NoQuoteSurvives(before + t[..n], t[n..], d);
    }
  }

  lemma SqlCodeHasNoQuote(s: string, d: Dialect)
    ensures '\'' !in SqlCode(s, d)
  {
    NoQuoteSurvives("", StripComments(s, d), d);
  }

  lemma FirstOfPattern(t: string, pattern: string)
    requires pattern != "" && StartsWith(t, pattern)
    ensures t[0] == pattern[0]
  {
    assert t[..|pattern|][0] == t[0];
  }

  lemma PlainPiece(a: string, t: string, d: Dialect)
    requires t != "" && !StartsWith(t, "--") && (IsWord(t[0]) || t[0] == '-')
    ensures NextPiece(a, t, d) == Copy(1, false)
  {
    if StartsWith(t, "/*") { FirstOfPattern(t, "/*"); }
    if StartsWith(t, "/*!") { FirstOfPattern(t, "/*!"); }
    if StartsWith(t, "/*m!") { FirstOfPattern(t, "/*m!"); }
    if StartsWith(t, "/*M!") { FirstOfPattern(t, "/*M!"); }
  }

  lemma PlainTail(a: string, t: string, d: Dialect)
    requires t != "" && !StartsWith(t, "--") && (IsWord(t[0]) || t[0] == '-')
    ensures Strip(a, t, d) == t[..1] + Strip(a + t[..1], t[1..], d)
  {
    PlainPiece(a, t, d);
    StripUnfolds(a, t, d);
  }

  lemma VersionedExample()
    ensures IsVersioned("/*!-*/-x") && Versioned("/*!-*/-x") == ("-", 6)
  {
    var s := "/*!-*/-x";
    StartsWithTwo(s[3..], "*/");
    StartsWithTwo(s[4..], "*/");
    assert s[..3] == "/*!" && s[3..4] == "-";
    assert Find(s, "*/", 4) == Some(4);
    assert Find(s, "*/", 3) == Find(s, "*/", 4);
    assert SkipSpaces("-") == "-";
  }

  lemma StripOne(a: string, t: string, d: Dialect)
    requires t == "-" || t == "x"
    ensures Strip(a, t, d) == t
  {
    StartsWithTwo(t, "--");
    PlainTail(a, t, d);
    assert t[..1] == t && t[1..] == "";
  }

  lemma StripTwo(a: string, d: Dialect)
    ensures Strip(a, "-x", d) == "-x"
  {
    StartsWithTwo("-x", "--");
    assert "-x"[1..] == "x" && "-x"[..1] == "-" && "-" + "x" == "-x";
    PlainTail(a, "-x", d);
    StripOne(a + "-", "x", d);
  }

  lemma InlineStep(s: string, body: string, n: nat, d: Dialect)
    requires MySqlLike(d)
    requires s != "" && IsVersioned(s) && Versioned(s) == (body, n)
    ensures StripComments(s, d) == StripComments(body, d) + Strip(s[..n], s[n..], d)
  {
    StripUnfolds("", s, d);
    assert "" + s[..n] == s[..n];
  }

  lemma LineCommentExample(d: Dialect)
    ensures StripComments("--x", d) == " "
  {
    var t := "--x";
    assert t[..2] == "--";
    if StartsWith(t, "/*") { FirstOfPattern(t, "/*"); }
    if StartsWith(t, "/*!") { FirstOfPattern(t, "/*!"); }
    if StartsWith(t, "/*m!") { FirstOfPattern(t, "/*m!"); }
    if StartsWith(t, "/*M!") { FirstOfPattern(t, "/*M!"); }
    FindIsFirst(t, "\n", 0);
    if Find(t, "\n", 0).Some? { FirstOfPattern(t[Find(t, "\n", 0).value..], "\n"); }
    StripUnfolds("", t, d);
  }

  /** In MySQL and MariaDB the text inlined from a versioned comment can open a comment with the text around it. */
  lemma MySqlStrippingIsNotIdempotent(d: Dialect)
    requires MySqlLike(d)
    ensures StripComments("/*!-*/-x", d) == "--x"
    ensures StripComments("--x", d) == " "
  {
    var s := "/*!-*/-x";
    VersionedExample();
    InlineStep(s, "-", 6, d);
    StripOne("", "-", d);
    assert s[6..] == "-x";
    StripTwo(s[..6], d);
    LineCommentExample(d);
  }
}
