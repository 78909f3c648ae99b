/**
 * `StreamFilterExtension`: a token-stream hook that splits every Data
 * token at its gettext markers `_(...)` and splices in, for each marker, the
 * tokens of the expression `{{ gettext("...") }}`.
 */
module StreamFilter {
  import opened Wrappers
  import opened Lexer
  import opened GettextSearch

  /** The six tokens that one marker with inner text `text` becomes. */
  function GettextCall(lineno: nat, text: string): seq<Token>
  {
    [ Token(lineno, VariableBegin, None),
      Token(lineno, Name, Some("gettext")),
      Token(lineno, LParen, None),
      Token(lineno, StringLit, Some(text)),
      Token(lineno, RParen, None),
      Token(lineno, VariableEnd, None) ]
  }

  /** A Data token for `text`, or nothing when `text` is empty. */
  function DataIfAny(lineno: nat, text: string): seq<Token>
  {
    if |text| > 0 then [Token(lineno, Data, Some(text))] else []
  }

  /**
   * What `interpolate` yields from position `pos` of the token text `s`
   * onwards, when the current line number is `lineno` and every match adds
   * `step` to it.
   */
  function InterpolateFrom(s: string, pos: nat, lineno: nat, step: nat): seq<Token>
    requires pos <= |s|
    decreases |s| - pos
  {
    match Search(s, pos)
    case None => if pos < |s| then [Token(lineno, Data, Some(s[pos..]))] else []
    case Some(m) =>
      DataIfAny(lineno, s[pos..m.start])
      + GettextCall(lineno + step, s[m.start + 2..m.close])
      + InterpolateFrom(s, m.close + 1, lineno + step, step)
  }

  /**
   * Everything `interpolate(token)` yields. Each match adds the newline count
   * of the WHOLE token text to the line number, as the source does.
   */
  function Interpolation(token: Token): seq<Token>
    requires token.value.Some?
  {
    InterpolateFrom(token.value.value, 0, token.lineno, CountNewlines(token.value.value))
  }

  /** A match at or after `pos`: the text before it, its call, then the rest. */
  lemma {:induction false} UnfoldMatch(s: string, pos: nat, lineno: nat, step: nat, m: Match)
    requires pos <= |s| && Search(s, pos) == Some(m)
    ensures pos <= m.start && m.start + 2 <= m.close < |s|
    ensures s[m.start] == '_' && s[m.start + 1] == '(' && s[m.close] == ')'
    ensures InterpolateFrom(s, pos, lineno, step)
         == DataIfAny(lineno, s[pos..m.start]) + GettextCall(lineno + step, s[m.start + 2..m.close])
            + InterpolateFrom(s, m.close + 1, lineno + step, step)
  {
  }

  /** Concatenation regrouped: what was yielded so far against the rest. */
  lemma {:induction false} Regroup(acc: seq<Token>, a: seq<Token>, b: seq<Token>, c: seq<Token>, next: seq<Token>, rest: seq<Token>)
    requires next == acc + a + b && rest == a + b + c
    ensures acc + rest == next + c
  {
  }

  /**
   * One turn of the loop of `interpolate` keeps what is yet to come: after
   * the text before the match (if any) and the six call tokens, the rest of
   * the scan starts behind the ')' on the next line number.
   */
  lemma {:induction false} LoopTurn(s: string, pos: nat, lineno: nat, step: nat, acc: seq<Token>, m: Match,
                 pos': nat, lineno': nat, next: seq<Token>)
    requires pos <= |s| && Search(s, pos) == Some(m)
    requires pos' == m.close + 1 && lineno' == lineno + step
    requires next == (if |s[pos..m.start]| > 0 then acc + [Token(lineno, Data, Some(s[pos..m.start]))] else acc)
                     + GettextCall(lineno', s[m.start + 2..m.close])
    ensures pos' <= |s|
    ensures acc + InterpolateFrom(s, pos, lineno, step) == next + InterpolateFrom(s, pos', lineno', step)
  {
    var a := DataIfAny(lineno, s[pos..m.start]);
    var b := GettextCall(lineno', s[m.start + 2..m.close]);
    var c := InterpolateFrom(s, pos', lineno', step);
    UnfoldMatch(s, pos, lineno, step, m);
    assert next == acc + a + b by {
      if |s[pos..m.start]| == 0 {
        assert acc + [] == acc;
      }
    }
    Regroup(acc, a, b, c, next, InterpolateFrom(s, pos, lineno, step));
  }

  /** The loop's exit: whatever text is left becomes one last Data token. */
  lemma {:induction false} LoopExit(s: string, pos: nat, lineno: nat, step: nat, acc: seq<Token>)
    requires pos <= |s| && Search(s, pos).None?
    ensures acc + InterpolateFrom(s, pos, lineno, step)
         == if pos < |s| then acc + [Token(lineno, Data, Some(s[pos..]))] else acc
  {
    if pos == |s| {
      assert acc + [] == acc;
    }
  }

  /** One turn of the loop of `interpolate`, for the match `m` at or after `pos`. */
  method Turn(value: string, pos: nat, lineno: nat, newlines: nat, out: seq<Token>, m: Match)
    returns (pos': nat, lineno': nat, out': seq<Token>)
    requires pos <= |value| && Search(value, pos) == Some(m)
    ensures pos < pos' <= |value| && lineno' == lineno + newlines
    ensures pos' == m.close + 1
    ensures out' == out + DataIfAny(lineno, value[pos..m.start]) + GettextCall(lineno', value[m.start + 2..m.close])
    ensures out + InterpolateFrom(value, pos, lineno, newlines) == out' + InterpolateFrom(value, pos', lineno', newlines)
  {
    out' := out;
    var text := value[pos..m.start];
    if |text| > 0 {
      out' := out' + [Token(lineno, Data, Some(text))];
    }
    ghost var withText := out';
    var group := value[m.start + 2..m.close];
    lineno' := lineno + newlines;
    out' := out' + [ Token(lineno', VariableBegin, None),
                   Token(lineno', Name, Some("gettext")),
                   Token(lineno', LParen, None),
                   Token(lineno', StringLit, Some(group)),
                   Token(lineno', RParen, None),
                   Token(lineno', VariableEnd, None) ];
    pos' := m.close + 1;
    assert withText == out + DataIfAny(lineno, text);
    assert out' == withText + GettextCall(lineno', group);
    LoopTurn(value, pos, lineno, newlines, out, m, pos', lineno', out');
  }

  /** `interpolate`: the generator, with its yields collected in order. */
  method Interpolate(token: Token) returns (out: seq<Token>)
    requires token.value.Some?
    ensures out == Interpolation(token)
  {
    var value := token.value.value;
    var pos: nat := 0;
    var lineno: nat := token.lineno;
    var newlines: nat := CountNewlines(value);
    out := [];
    assert out + InterpolateFrom(value, pos, lineno, newlines) == Interpolation(token);
    while true
      invariant pos <= |value|
      invariant out + InterpolateFrom(value, pos, lineno, newlines) == Interpolation(token)
      decreases |value| - pos
    {
      var found := Search(value, pos);
      if found.None? {
        break;
      }
      pos, lineno, out := Turn(value, pos, lineno, newlines, out, found.value);
    }
    LoopExit(value, pos, lineno, newlines, out);
    if pos < |value| {
      out := out + [Token(lineno, Data, Some(value[pos..]))];
    }
  }

  /** Every Data token of the stream carries text. */
  predicate DataHasText(stream: seq<Token>)
  {
    forall i :: 0 <= i < |stream| && stream[i].kind == Data ==> stream[i].value.Some?
  }

  /** What `filter_stream` yields for one upstream token. */
  function Expand(token: Token): seq<Token>
    requires token.kind == Data ==> token.value.Some?
  {
    if token.kind == Data then Interpolation(token) else [token]
  }

  /** What `filter_stream` yields for a whole upstream stream, in order. */
  function Filtered(stream: seq<Token>): seq<Token>
    requires DataHasText(stream)
    decreases |stream|
  {
    if stream == [] then []
    else Filtered(stream[..|stream| - 1]) + Expand(stream[|stream| - 1])
  }

  /** `filter_stream`: the generator, with its yields collected in order. */
  method FilterStream(stream: seq<Token>) returns (out: seq<Token>)
    requires DataHasText(stream)
    ensures out == Filtered(stream)
  {
    out := [];
    for i := 0 to |stream|
      invariant out == Filtered(stream[..i])
    {
      var token := stream[i];
      assert stream[..i + 1][..i] == stream[..i];
      if token.kind == Data {
        var pieces := Interpolate(token);
        out := out + pieces;
      } else {
        out := out + [token];
      }
    }
    assert stream[..|stream|] == stream;
  }
}
