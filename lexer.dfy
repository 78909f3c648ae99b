/**
 * The slice of the template lexer that the stream filter relies on: the
 * token record and the newline counter. The lexer itself (jinja2/lexer.py)
 * is not part of this model.
 */
module Lexer {
  import opened Wrappers

  /** A tag of the lexer other than the seven the stream filter reads or writes. */
  type OtherTag = tag: string
    | tag !in {"data", "variable_begin", "variable_end", "name", "lparen", "rparen", "string"}
    witness "block_begin"

  /**
   * The type tag of a token. The tags the stream filter reads or writes get a
   * constructor each, and `Other` carries every remaining tag of the lexer
   * ("block_begin", "operator", ...).
   */
  datatype TokenKind =
    | Data | VariableBegin | VariableEnd | Name | LParen | RParen | StringLit
    | Other(tag: OtherTag)

  /** The lexer's string for a token type, as a token carries it. */
  function Tag(k: TokenKind): string
  {
    match k
    case Data => "data"
    case VariableBegin => "variable_begin"
    case VariableEnd => "variable_end"
    case Name => "name"
    case LParen => "lparen"
    case RParen => "rparen"
    case StringLit => "string"
    case Other(tag) => tag
  }

  /** Each token type has its own tag, so the kinds stand for the tags one to one. */
  lemma {:induction false} TagInjective(a: TokenKind, b: TokenKind)
    ensures Tag(a) == Tag(b) <==> a == b
  {
  }

  /** The test `token.type == 'data'` holds exactly for Data tokens. */
  lemma {:induction false} DataTag(k: TokenKind)
    ensures Tag(k) == "data" <==> k == Data
  {
    TagInjective(k, Data);
  }

  /**
   * One lexical unit: the line it starts on, its type and its optional text,
   * in the order of `Token(lineno, type, value)`; the type field cannot be
   * called `type` in Dafny.
   */
  datatype Token = Token(lineno: nat, kind: TokenKind, value: Option<string>)

  /**
   * `count_newlines`: the number of line breaks in `s`, where "\r\n", a lone
   * '\r' and a lone '\n' each count once (leftmost alternative first).
   */
  function CountNewlines(s: string): (r: nat)
    ensures r <= |s|
    ensures s == [] ==> r == 0
    decreases |s|
  {
    if s == [] then 0
    else if |s| >= 2 && s[0] == '\r' && s[1] == '\n' then 1 + CountNewlines(s[2..])
    else if s[0] == '\r' || s[0] == '\n' then 1 + CountNewlines(s[1..])
    else CountNewlines(s[1..])
  }

  /** Number of '\n' characters in `s`. */
  function LineFeeds(s: string): nat
    decreases |s|
  {
    if s == [] then 0 else (if s[0] == '\n' then 1 else 0) + LineFeeds(s[1..])
  }

  /** Without carriage returns, counting line breaks is counting '\n'. */
  lemma {:induction false} CountNewlinesIsLineFeeds(s: string)
    requires forall i :: 0 <= i < |s| ==> s[i] != '\r'
    ensures CountNewlines(s) == LineFeeds(s)
    decreases |s|
  {
    if s != [] {
      CountNewlinesIsLineFeeds(s[1..]);
    }
  }

  /** Text with neither kind of line-break character counts no line break. */
  lemma {:induction false} NoBreaks(s: string)
    requires forall i :: 0 <= i < |s| ==> s[i] != '\r' && s[i] != '\n'
    ensures CountNewlines(s) == 0
    decreases |s|
  {
    if s != [] {
      assert forall i :: 0 <= i < |s[1..]| ==> s[1..][i] == s[i + 1];
      NoBreaks(s[1..]);
    }
  }

  /** Text without line-break characters adds nothing to the count of what follows it. */
  lemma {:induction false} NoBreaksBefore(p: string, q: string)
    requires forall i :: 0 <= i < |p| ==> p[i] != '\r' && p[i] != '\n'
    ensures CountNewlines(p + q) == CountNewlines(q)
    decreases |p|
  {
    if p != [] {
      assert (p + q)[0] == p[0] && (p + q)[1..] == p[1..] + q;
      assert forall i :: 0 <= i < |p[1..]| ==> p[1..][i] == p[i + 1];
      NoBreaksBefore(p[1..], q);
    } else {
      assert p + q == q;
    }
  }
}
