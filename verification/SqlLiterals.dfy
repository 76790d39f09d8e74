/**
  What literal removal blanks: exactly the string values, unless a quoted identifier contains what opens one.
 */
module SqlLiterals {
  import opened Common
  import opened SqlLexer
  import opened SqlLexerTheorems

  /** Does the region that begins with this character hold a value, rather than an identifier? */
  predicate OpensValue(c: char) {
    c == '\'' || c == '$'
  }

  /** The text with the string values the comment scanner reads replaced by spaces, and nothing else. */
  function RemoveValues(before: string, t: string, d: Dialect): string
    decreases |t|
  {
    if t == "" then ""
    else
      var p := NextPiece(before, t, d);
      (if p.Copy? && p.literal && OpensValue(t[0]) then " " else t[..p.n]) + RemoveValues(before + t[..p.n], t[p.n..], d)
  }

  /** No string value begins among the next n characters. */
  predicate NoOpener(before: string, t: string, n: nat, d: Dialect)
    requires n <= |t|
  {
    forall k :: 0 <= k < n ==> ValueLen(before + t[..k], t[k..], d).None?
  }

  /** No quoted identifier contains a single quote or the opening of a dollar quote. */
  predicate QuietIdentifiers(before: string, t: string, d: Dialect)
    decreases |t|
  {
    t == "" ||
    var p := NextPiece(before, t, d);
    && (p.Copy? && p.literal && !OpensValue(t[0]) ==> NoOpener(before, t, p.n, d))
    && QuietIdentifiers(before + t[..p.n], t[p.n..], d)
  }

  // ---------------------------------------------------------------- piece by piece

  lemma Shift(before: string, t: string, k: nat)
    requires k < |t|
    ensures (before + t[..k]) + t[k..][..1] == before + t[..k + 1] && t[k..][1..] == t[k + 1..]
    ensures t[..k] + t[k..][..1] == t[..k + 1]
  {
  }

  /** Characters at which no value begins are kept. */
  lemma {:induction false} RunIsKept(before: string, t: string, k: nat, d: Dialect)
    requires k <= |t| && NoOpener(before, t, k, d)
    ensures RemoveLiterals(before, t, d) == t[..k] + RemoveLiterals(before + t[..k], t[k..], d)
  {
    if k == 0 {
      assert before + t[..0] == before && t[0..] == t && t[..0] == "";
      NothingInFront(RemoveLiterals(before, t, d));
    } else {
      RunIsKept(before, t, k - 1, d);
      Shift(before, t, k - 1);
      RemoveUnfolds(before + t[..k - 1], t[k - 1..], d, before + t[..k], t[k..]);
      Assoc(t[..k - 1], t[k - 1..][..1], RemoveLiterals(before + t[..k], t[k..], d));
    }
  }

  lemma NothingInFront(s: string)
    ensures "" + s == s
  {
  }

  /** The first position, if any, at which a value begins. */
  lemma {:induction false} FirstOpener(before: string, t: string, n: nat, d: Dialect) returns (k: nat)
    requires n <= |t| && !NoOpener(before, t, n, d)
    ensures k < n && NoOpener(before, t, k, d) && ValueLen(before + t[..k], t[k..], d).Some?
  {
    if NoOpener(before, t, n - 1, d) {
      k := n - 1;
    } else {
      k := FirstOpener(before, t, n - 1, d);
    }
  }

  lemma ValueOpener(before: string, t: string, d: Dialect)
    requires t != "" && ValueLen(before, t, d).Some?
    ensures OpensValue(t[0])
  {
  }

  lemma DifferAt(x: string, c: char, u: string, y: string, v: string, k: nat)
    requires k < |y| && x == y[..k] && y[k] != c
    ensures x + ([c] + u) != y + v
  {
    assert (x + ([c] + u))[k] == c;
    assert (y + v)[k] == y[k];
  }

  /** A value that begins inside an identifier is blanked, so the outcome differs from the reference there. */
  lemma OpenerSpoils(before: string, t: string, n: nat, d: Dialect, rest: string)
    requires n <= |t| && !NoOpener(before, t, n, d)
    ensures RemoveLiterals(before, t, d) != t[..n] + rest
  {
    var k := FirstOpener(before, t, n, d);
    var m := ValueLen(before + t[..k], t[k..], d).value;
    RunIsKept(before, t, k, d);
    ValueOpener(before + t[..k], t[k..], d);
    RemoveUnfolds(before + t[..k], t[k..], d, (before + t[..k]) + t[k..][..m], t[k..][m..]);
    assert t[..n][..k] == t[..k] && t[..n][k] == t[k..][0];
    DifferAt(t[..k], ' ', RemoveLiterals((before + t[..k]) + t[k..][..m], t[k..][m..], d), t[..n], rest, k);
  }

  /** Both scanners read a value, or a character outside every literal, alike. */
  lemma SamePiece(before: string, t: string, d: Dialect)
    requires t != "" && NextPiece(before, t, d).Copy? && (NextPiece(before, t, d).literal ==> OpensValue(t[0]))
    ensures var p := NextPiece(before, t, d);
            ValueLen(before, t, d) == if p.literal then Some(p.n) else None
    ensures !NextPiece(before, t, d).literal ==> NextPiece(before, t, d).n == 1
  {
  }

  lemma {:induction false} RemovalFrom(before: string, t: string, d: Dialect)
    requires CommentFree(before, t, d)
    ensures RemoveLiterals(before, t, d) == RemoveValues(before, t, d) <==> QuietIdentifiers(before, t, d)
    decreases |t|
  {
    if t != "" {
      var p := NextPiece(before, t, d);
      var after, rest := before + t[..p.n], t[p.n..];
      RemovalFrom(after, rest, d);
      if p.literal && !OpensValue(t[0]) {
        if NoOpener(before, t, p.n, d) {
          RunIsKept(before, t, p.n, d);
          DropBoth(t[..p.n], RemoveLiterals(after, rest, d), RemoveValues(after, rest, d));
        } else {
          OpenerSpoils(before, t, p.n, d, RemoveValues(after, rest, d));
        }
      } else {
        SamePiece(before, t, d);
        RemoveUnfolds(before, t, d, after, rest);
        DropBoth(if p.literal then " " else t[..1], RemoveLiterals(after, rest, d), RemoveValues(after, rest, d));
      }
    }
  }

  // ---------------------------------------------------------------- theorems

  /**
    When stripping has left no comment, exactly the string values are removed if and only if no quoted identifier in the
    stripped text contains a single quote or opens a dollar quote.
   */
  lemma OnlyValuesAreRemovedIff(s: string, d: Dialect)
    requires CommentFree("", StripComments(s, d), d)
    ensures SqlCode(s, d) == RemoveValues("", StripComments(s, d), d) <==> QuietIdentifiers("", StripComments(s, d), d)
  {
    RemovalFrom("", StripComments(s, d), d);
  }

  lemma {:induction false} NothingToEscape(content: string, quote: char, escapes: bool)
    requires quote !in content && '\\' !in content
    ensures Escape(content, quote, escapes) == content
  {
    if content != "" {
      NothingToEscape(content[1..], quote, escapes);
      assert content == [content[0]] + content[1..];
    }
  }

  /** A region whose text needs no escaping, and what follows it. */
  lemma PlainRegion(content: string, quote: char, escapes: bool, rest: string)
    requires quote !in content && '\\' !in content && quote != '\\' && (rest == "" || rest[0] != quote)
    ensures QuoteLen(([quote] + content + [quote]) + rest, escapes, 1) == |content| + 2
  {
    NothingToEscape(content, quote, escapes);
    QuotedValueIsOneRegion(content, quote, escapes, rest);
  }

  /** The identifier `"'"`, then code, then a single quote. */
  function AfterQuoteIdentifier(code: string): string {
    ['"', '\'', '"'] + (code + ['\''])
  }

  lemma IdentifierIsOnePiece(code: string, d: Dialect)
    requires code == "" || code[0] != '"'
    ensures NextPiece("", AfterQuoteIdentifier(code), d) == Copy(3, true)
  {
    var t := AfterQuoteIdentifier(code);
    PlainRegion(['\''], '"', BackslashEscapes("", '"', d), code + ['\'']);
    assert (['"'] + ['\''] + ['"']) + (code + ['\'']) == t;
    if IsVersioned(t) { VersionedOpensComment(t); }
    StartsWithTwo(t, "/*");
    StartsWithTwo(t, "--");
  }

  lemma CodeIsReadAsValue(code: string, d: Dialect)
    requires '\'' !in code && '\\' !in code
    ensures RemoveLiterals("", AfterQuoteIdentifier(code), d) == ['"', ' ']
  {
    var t, value := AfterQuoteIdentifier(code), ['\''] + (['"'] + code) + ['\''];
    PlainRegion(['"'] + code, '\'', BackslashEscapes(['"'], '\'', d), "");
    assert value + "" == value && t[1..] == value && t[..1] == ['"'] && value[|value|..] == "";
    RemoveUnfolds("", t, d, ['"'], value);
    RemoveUnfolds(['"'], value, d, ['"'] + value[..|value|], "");
  }

  /** After the identifier `"'"` any code up to the next single quote is blanked as if it were a string value. */
  lemma QuotedIdentifierHidesCode(code: string, d: Dialect)
    requires '\'' !in code && '\\' !in code && (code == "" || code[0] != '"')
    ensures NextPiece("", AfterQuoteIdentifier(code), d) == Copy(3, true)
    ensures RemoveLiterals("", AfterQuoteIdentifier(code), d) == ['"', ' ']
    ensures CommentFree("", AfterQuoteIdentifier(code), d) ==> SqlCode(AfterQuoteIdentifier(code), d) == ['"', ' ']
  {
    IdentifierIsOnePiece(code, d);
    CodeIsReadAsValue(code, d);
    FixedPointIffCommentFree(AfterQuoteIdentifier(code), d);
  }
}
