/**
  The lexical half of the raw-SQL inspector: quoted strings and identifiers, escape strings, dollar quotes,
  nested block comments, line comments and executable versioned comments.
 */
module SqlLexer {
  import opened Common

  datatype Dialect = MySql | MariaDb | PostgreSql | Other

  predicate MySqlLike(d: Dialect) {
    d.MySql? || d.MariaDb?
  }

  predicate IsDigit(c: char) {
    '0' <= c <= '9'
  }

  predicate IsLetter(c: char) {
    'a' <= c <= 'z' || 'A' <= c <= 'Z'
  }

  predicate IsWord(c: char) {
    IsLetter(c) || IsDigit(c) || c == '_'
  }

  /** White space of ASCII: blank, tab to carriage return, and the four separators. */
  predicate IsSpace(c: char) {
    c == ' ' || 9 <= c as int <= 13 || 28 <= c as int <= 31
  }

  predicate IsQuote(c: char) {
    c == '\'' || c == '"' || c == '`'
  }

  predicate StartsWith(t: string, pattern: string) {
    |pattern| <= |t| && t[..|pattern|] == pattern
  }

  /** The first position of `pattern` in `t` at or after `from`. */
  function Find(t: string, pattern: string, from: nat): (r: Option<nat>)
    requires from <= |t|
    ensures r.Some? ==> from <= r.value && r.value + |pattern| <= |t|
    decreases |t| - from
  {
    if StartsWith(t[from..], pattern) then Some(from)
    else if from == |t| then None
    else Find(t, pattern, from + 1)
  }

  /** It is a position of the pattern, and no earlier one is; without a result there is none. */
  lemma {:induction false} FindIsFirst(t: string, pattern: string, from: nat)
    requires from <= |t|
    ensures var r := Find(t, pattern, from);
            && (r.Some? ==> StartsWith(t[r.value..], pattern))
            && forall k :: from <= k < (if r.Some? then r.value else |t| + 1) ==> !StartsWith(t[k..], pattern)
    decreases |t| - from
  {
    if !StartsWith(t[from..], pattern) && from < |t| { FindIsFirst(t, pattern, from + 1); }
  }

  // ---------------------------------------------------------------- context of a position

  /** Does the text before a position end in a letter, digit or underscore? */
  predicate EndsInWord(before: string) {
    before != "" && IsWord(before[|before| - 1])
  }

  /** Does it end in a stand-alone `e` or `E`, the prefix of an escape string? */
  predicate EndsInEscapePrefix(before: string) {
    && before != "" && (before[|before| - 1] == 'e' || before[|before| - 1] == 'E')
    && !EndsInWord(before[..|before| - 1])
  }

  /** A dollar sign after such text cannot open a dollar quote. */
  predicate BlocksDollar(before: string) {
    EndsInWord(before) || (before != "" && before[|before| - 1] == '$')
  }

  predicate BackslashEscapes(before: string, quote: char, d: Dialect) {
    MySqlLike(d) || (d.PostgreSql? && quote == '\'' && EndsInEscapePrefix(before))
  }

  // ---------------------------------------------------------------- the scanners, on the text from a position on

  /** Length of the quoted region `t` starts with, having read `k` characters of it. */
  function QuoteLen(t: string, escapes: bool, k: nat): (n: nat)
    requires t != "" && 0 < k
    ensures k <= |t| ==> k <= n <= |t|
    ensures k > |t| ==> n == |t|
    decreases if k < |t| then |t| - k else 0
  {
    if k >= |t| then |t|
    else if escapes && t[k] == '\\' then QuoteLen(t, escapes, k + 2)
    else if t[k] == t[0] then
      if k + 1 < |t| && t[k + 1] == t[0] then QuoteLen(t, escapes, k + 2) else k + 1
    else QuoteLen(t, escapes, k + 1)
  }

  predicate IsTagStart(c: char) {
    IsLetter(c) || c == '_'
  }

  /** End of a dollar-quote tag whose characters up to `k` were read; 0 when there is none. */
  function TagEnd(t: string, k: nat): (n: nat)
    requires k <= |t|
    ensures n != 0 ==> k < n <= |t|
    decreases |t| - k
  {
    if k == |t| then 0
    else if t[k] == '$' then k + 1
    else if IsWord(t[k]) then TagEnd(t, k + 1)
    else 0
  }

  /** Length of the dollar-quote delimiter `t` starts with; 0 when it starts with none. */
  function DelimiterLen(t: string): (n: nat)
    requires t != "" && t[0] == '$'
    ensures n != 0 ==> 2 <= n <= |t|
  {
    if |t| >= 2 && (t[1] == '$' || IsTagStart(t[1])) then TagEnd(t, 1) else 0
  }

  /** Length of the dollar-quoted region `t` starts with, if a quote may open there at all. */
  function DollarLen(t: string, blocked: bool): (r: Option<nat>)
    requires t != "" && t[0] == '$'
    ensures r.Some? ==> 2 <= r.value <= |t|
  {
    var n := DelimiterLen(t);
    if blocked || n == 0 then None
    else match Find(t, t[..n], n)
         case None => Some(|t|)
         case Some(p) => Some(p + n)
  }

  /** Length of a block comment, nested `depth` deep after `k` characters. */
  function BlockLen(t: string, depth: nat, k: nat): (n: nat)
    requires k <= |t|
    ensures k <= n <= |t|
    decreases |t| - k
  {
    if k == |t| || depth == 0 then k
    else if StartsWith(t[k..], "/*") then BlockLen(t, depth + 1, k + 2)
    else if StartsWith(t[k..], "*/") then BlockLen(t, depth - 1, k + 2)
    else BlockLen(t, depth, k + 1)
  }

  function LineLen(t: string): (n: nat)
    requires t != ""
    ensures 0 < n <= |t|
  {
    match Find(t, "\n", 0)
    case None => |t|
    case Some(p) => p + 1
  }

  function SkipSpaces(t: string): (r: string)
    ensures |r| <= |t|
  {
    if t != "" && IsSpace(t[0]) then SkipSpaces(t[1..]) else t
  }

  function SkipDigits(t: string): (r: string)
    ensures |r| <= |t|
    ensures t != "" && IsDigit(t[0]) ==> |r| < |t|
  {
    if t != "" && IsDigit(t[0]) then SkipDigits(t[1..]) else t
  }

  /** Replace a leading version number and the spaces around it by one space. */
  function DropVersion(body: string): (r: string)
    ensures |r| <= |body|
  {
    var t := SkipSpaces(body);
    if t != "" && IsDigit(t[0]) then " " + SkipSpaces(SkipDigits(t)) else body
  }

  predicate IsVersioned(t: string) {
    StartsWith(t, "/*!") || StartsWith(t, "/*m!") || StartsWith(t, "/*M!")
  }

  /** The executable text of a versioned comment and the length of the comment. */
  function Versioned(t: string): (r: (string, nat))
    requires IsVersioned(t)
    ensures |r.0| < |t| && 3 <= r.1 <= |t|
  {
    var prefix := if StartsWith(t, "/*!") then 3 else 4;
    match Find(t, "*/", prefix)
    case None => ("", |t|)
    case Some(p) => (DropVersion(t[prefix..p]), p + 2)
  }

  // ---------------------------------------------------------------- comment stripping

  /** What the scanner does next: copy some characters (a literal or not), blank a comment, or inline one. */
  datatype Piece = Copy(n: nat, literal: bool) | Blank(n: nat) | Inline(body: string, n: nat)

  function NextPiece(before: string, t: string, d: Dialect): (p: Piece)
    requires t != ""
    ensures 0 < p.n <= |t|
    ensures p.Inline? ==> MySqlLike(d) && |p.body| < |t|
  {
    if MySqlLike(d) && IsVersioned(t) then Inline(Versioned(t).0, Versioned(t).1)
    else if StartsWith(t, "/*") then Blank(BlockLen(t, 1, 2))
    else if StartsWith(t, "--") || (MySqlLike(d) && t[0] == '#') then Blank(LineLen(t))
    else if d.PostgreSql? && t[0] == '$' then
      match DollarLen(t, BlocksDollar(before))
      case None => Copy(1, false)
      case Some(n) => Copy(n, true)
    else if IsQuote(t[0]) then Copy(QuoteLen(t, BackslashEscapes(before, t[0], d), 1), true)
    else Copy(1, false)
  }

  /** The text `t`, which follows `before`, with every comment replaced. */
  function Strip(before: string, t: string, d: Dialect): string
    decreases |t|
  {
    if t == "" then ""
    else
      var p := NextPiece(before, t, d);
      (match p
       case Copy(n, _) => t[..n]
       case Blank(_) => " "
       case Inline(body, _) => Strip("", body, d)) + Strip(before + t[..p.n], t[p.n..], d)
  }

  function StripComments(s: string, d: Dialect): string {
    Strip("", s, d)
  }

  /** The quoted and dollar-quoted regions the scanner meets. */
  function Literals(before: string, t: string, d: Dialect): seq<string>
    decreases |t|
  {
    if t == "" then []
    else
      var p := NextPiece(before, t, d);
      (if p.Copy? && p.literal then [t[..p.n]] else []) + Literals(before + t[..p.n], t[p.n..], d)
  }

  /** Does the scanner meet no comment? */
  predicate CommentFree(before: string, t: string, d: Dialect)
    decreases |t|
  {
    t == "" ||
    var p := NextPiece(before, t, d);
    p.Copy? && CommentFree(before + t[..p.n], t[p.n..], d)
  }

  /** Length of the string value `t` starts with, if it starts with one. */
  function ValueLen(before: string, t: string, d: Dialect): (r: Option<nat>)
    requires t != ""
    ensures r.Some? ==> 0 < r.value <= |t|
  {
    var dollar := if d.PostgreSql? && t[0] == '$' then DollarLen(t, BlocksDollar(before)) else None;
    if dollar.Some? then dollar
    else if t[0] == '\'' then Some(QuoteLen(t, BackslashEscapes(before, '\'', d), 1))
    else None
  }

  /** Replace single-quoted and dollar-quoted values, keeping quoted identifiers. */
  function RemoveLiterals(before: string, t: string, d: Dialect): string
    decreases |t|
  {
    if t == "" then ""
    else
      var v := ValueLen(before, t, d);
      var n := v.GetOr(1);
      (if v.Some? then " " else t[..1]) + RemoveLiterals(before + t[..n], t[n..], d)
  }

  /** SQL with comments and string values removed. */
  function SqlCode(s: string, d: Dialect): string {
    RemoveLiterals("", StripComments(s, d), d)
  }

  // ---------------------------------------------------------------- the scanners as loops

  method QuotedSqlEnd(s: string, start: nat, d: Dialect) returns (end: nat)
    requires start < |s|
    ensures end == start + QuoteLen(s[start..], BackslashEscapes(s[..start], s[start], d), 1)
  {
    var escapes := BackslashEscapes(s[..start], s[start], d);
    var quote := s[start];
    ghost var t := s[start..];
    var index := start + 1;
    while index < |s|
      invariant start < index
      invariant QuoteLen(t, escapes, index - start) == QuoteLen(t, escapes, 1)
    {
      assert s[index] == t[index - start];
      if escapes && s[index] == '\\' {
        index := index + 2;
      } else if s[index] == quote {
        assert index + 1 < |s| ==> s[index + 1] == t[index + 1 - start];
        if index + 1 < |s| && s[index + 1] == quote {
          index := index + 2;
        } else {
          return index + 1;
        }
      } else {
        index := index + 1;
      }
    }
    end := |s|;
  }

  method BlockCommentEnd(s: string, start: nat) returns (end: nat)
    requires start + 2 <= |s|
    ensures end == start + BlockLen(s[start..], 1, 2)
  {
    var depth: nat := 1;
    ghost var t := s[start..];
    ghost var whole := BlockLen(t, 1, 2);
    end := start + 2;
    while end < |s| && depth > 0
      invariant start + 2 <= end <= |s|
      invariant BlockLen(t, depth, end - start) == whole
      decreases |s| - end
    {
      assert t[end - start..] == s[end..];
      if StartsWith(s[end..], "/*") {
        depth := depth + 1;
        end := end + 2;
      } else if StartsWith(s[end..], "*/") {
        depth := depth - 1;
        end := end + 2;
      } else {
        end := end + 1;
      }
    }
  }

  /** The text the next piece is replaced by. */
  function Rendered(before: string, t: string, d: Dialect): string
    requires t != ""
  {
    match NextPiece(before, t, d)
    case Copy(n, _) => t[..n]
    case Blank(_) => " "
    case Inline(body, _) => StripComments(body, d)
  }

  lemma StripUnfolds(before: string, t: string, d: Dialect)
    requires t != ""
    ensures var n := NextPiece(before, t, d).n;
            Strip(before, t, d) == Rendered(before, t, d) + Strip(before + t[..n], t[n..], d)
  {
  }

  lemma Assoc(a: string, b: string, c: string)
    ensures (a + b) + c == a + (b + c)
  {
  }

  lemma CutAt(s: string, i: nat, n: nat)
    requires i + n <= |s|
    ensures s[..i] + s[i..][..n] == s[..i + n] && s[i..][n..] == s[i + n..]
  {
  }

  lemma StripTurn(done: string, before: string, t: string, d: Dialect, after: string, rest: string)
    requires t != "" && after == before + t[..NextPiece(before, t, d).n] && rest == t[NextPiece(before, t, d).n..]
    ensures (done + Rendered(before, t, d)) + Strip(after, rest, d) == done + Strip(before, t, d)
  {
    StripUnfolds(before, t, d);
    Assoc(done, Rendered(before, t, d), Strip(after, rest, d));
  }

  /** One turn of the stripping loop: the next piece of output and the position after what it replaces. */
  method StripNext(s: string, index: nat, d: Dialect) returns (piece: string, end: nat)
    requires index < |s|
    ensures piece == Rendered(s[..index], s[index..], d)
    ensures end == index + NextPiece(s[..index], s[index..], d).n
    decreases |s|, 0
  {
    var t := s[index..];
    if MySqlLike(d) && IsVersioned(t) {
      var (body, n) := Versioned(t);
      piece := StripCommentsLoop(body, d);
      end := index + n;
    } else if StartsWith(t, "/*") {
      piece := " ";
      end := BlockCommentEnd(s, index);
    } else if StartsWith(t, "--") || (MySqlLike(d) && t[0] == '#') {
      piece := " ";
      end := index + LineLen(t);
    } else if d.PostgreSql? && t[0] == '$' {
      end := index + DollarLen(t, BlocksDollar(s[..index])).GetOr(1);
      piece := s[index..end];
    } else if IsQuote(t[0]) {
      end := QuotedSqlEnd(s, index, d);
      piece := s[index..end];
    } else {
      piece := [s[index]];
      end := index + 1;
    }
  }

  /** The stripping loop; it calls itself on the text of a versioned comment. */
  method StripCommentsLoop(s: string, d: Dialect) returns (result: string)
    ensures result == StripComments(s, d)
    decreases |s|, 1
  {
    result := "";
    var index := 0;
    ghost var whole := StripComments(s, d);
    assert s[..0] == "" && s[0..] == s && "" + whole == whole;
    while index < |s|
      invariant 0 <= index <= |s|
      invariant result + Strip(s[..index], s[index..], d) == whole
    {
      var piece, end := StripNext(s, index, d);
      CutAt(s, index, end - index);
      StripTurn(result, s[..index], s[index..], d, s[..end], s[end..]);
      result, index := result + piece, end;
    }
    assert result + "" == result;
  }

  lemma RemoveUnfolds(before: string, t: string, d: Dialect, after: string, rest: string)
    requires t != "" && var n := ValueLen(before, t, d).GetOr(1); after == before + t[..n] && rest == t[n..]
    ensures RemoveLiterals(before, t, d)
         == (if ValueLen(before, t, d).Some? then " " else t[..1]) + RemoveLiterals(after, rest, d)
  {
  }

  lemma RemoveTurn(done: string, s: string, i: nat, d: Dialect, piece: string, end: nat)
    requires i < |s| && end == i + ValueLen(s[..i], s[i..], d).GetOr(1)
    requires piece == if ValueLen(s[..i], s[i..], d).Some? then " " else [s[i]]
    ensures (done + piece) + RemoveLiterals(s[..end], s[end..], d) == done + RemoveLiterals(s[..i], s[i..], d)
  {
    CutAt(s, i, end - i);
    assert s[i..][..1] == [s[i]];
    RemoveUnfolds(s[..i], s[i..], d, s[..end], s[end..]);
    Assoc(done, piece, RemoveLiterals(s[..end], s[end..], d));
  }

  /** The literal-removing loop. */
  method RemoveStringLiterals(s: string, d: Dialect) returns (result: string)
    ensures result == RemoveLiterals("", s, d)
  {
    result := "";
    var index := 0;
    assert s[..0] == "" && s[0..] == s;
    while index < |s|
      invariant 0 <= index <= |s|
      invariant result + RemoveLiterals(s[..index], s[index..], d) == RemoveLiterals("", s, d)
    {
      var dollar := if d.PostgreSql? && s[index] == '$' then DollarLen(s[index..], BlocksDollar(s[..index])) else None;
      var piece, end;
      if dollar.Some? {
        piece, end := " ", index + dollar.value;
      } else if s[index] == '\'' {
        end := QuotedSqlEnd(s, index, d);
        piece := " ";
      } else {
        piece, end := [s[index]], index + 1;
      }
      RemoveTurn(result, s, index, d, piece, end);
      result, index := result + piece, end;
    }
    assert result + "" == result;
  }
}
