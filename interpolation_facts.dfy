/**
 * `interpolate` loses no text: reading its output back token by token
 * gives the token's text, each call reading back as the marker it
 * replaced.
 */
module InterpolationFacts {
  import opened Wrappers
  import opened Lexer
  import opened GettextSearch
  import opened StreamFilter
  import opened ReadBack

  /** A "data" token for `text` (if any) reads back as `text`. */
  lemma {:induction false} ReassembleData(lineno: nat, text: string)
    ensures Reassemble(DataIfAny(lineno, text)) == text
  {
    if |text| > 0 {
      ReassembleOne(Token(lineno, Data, Some(text)));
    }
  }

  /** The six call tokens read back as the marker they replaced. */
  lemma {:induction false} ReassembleCall(lineno: nat, group: string)
    ensures Reassemble(GettextCall(lineno, group)) == "_(" + group + ")"
  {
    var ts := GettextCall(lineno, group);
    assert ts == [ts[0], ts[1], ts[2]] + [ts[3], ts[4], ts[5]];
    ReassembleAppend([ts[0], ts[1], ts[2]], [ts[3], ts[4], ts[5]]);
    ReassembleThree(ts[0], ts[1], ts[2]);
    ReassembleThree(ts[3], ts[4], ts[5]);
  }

  /** The text up to a marker's ')' is the text before it, then the marker. */
  lemma {:induction false} CutAtMarker(s: string, pos: nat, start: nat, close: nat)
    requires pos <= start && start + 2 <= close < |s|
    requires s[start] == '_' && s[start + 1] == '(' && s[close] == ')'
    ensures s[..close + 1] == s[..pos] + s[pos..start] + ("_(" + s[start + 2..close] + ")")
  {
    assert s[..close + 1] == s[..close] + ")";
    assert s[..close] == s[..start + 2] + s[start + 2..close];
    assert s[..start + 2] == s[..start] + "_(";
    assert s[..start] == s[..pos] + s[pos..start];
  }

  /**
   * One match: if the tokens so far read back as the text before `pos`, then
   * with the text before the match and its call they read back as the text
   * up to and including its ')'.
   */
  lemma {:induction false} ReassembleTurn(s: string, pos: nat, lineno: nat, callLine: nat, start: nat, close: nat,
                                          acc: seq<Token>)
    requires pos <= start && start + 2 <= close < |s|
    requires s[start] == '_' && s[start + 1] == '(' && s[close] == ')'
    requires Reassemble(acc) == s[..pos]
    ensures Reassemble(acc + DataIfAny(lineno, s[pos..start]) + GettextCall(callLine, s[start + 2..close])) == s[..close + 1]
  {
    var a := DataIfAny(lineno, s[pos..start]);
    var b := GettextCall(callLine, s[start + 2..close]);
    ReassembleAppend(acc + a, b);
    ReassembleAppend(acc, a);
    ReassembleData(lineno, s[pos..start]);
    ReassembleCall(callLine, s[start + 2..close]);
    CutAtMarker(s, pos, start, close);
  }

  /** No match from `pos` on: the last Data token (if any) completes the text. */
  lemma {:induction false} ReassembleTail(s: string, pos: nat, lineno: nat, step: nat, acc: seq<Token>)
    requires pos <= |s| && Search(s, pos).None?
    requires Reassemble(acc) == s[..pos]
    ensures Reassemble(acc + InterpolateFrom(s, pos, lineno, step)) == s
  {
    LoopExit(s, pos, lineno, step, acc);
    if pos < |s| {
      ReassembleAppend(acc, [Token(lineno, Data, Some(s[pos..]))]);
      ReassembleOne(Token(lineno, Data, Some(s[pos..])));
      assert s == s[..pos] + s[pos..];
    } else {
      assert s[..pos] == s;
    }
  }

  /**
   * One turn of the scan, for the match `m` at or after `pos`: the tokens
   * so far grow by the text before the match and its call, still read back
   * as a prefix of the text (now up to the ')'), and still precede the rest
   * of the scan.
   */
  lemma {:induction false} Advance(s: string, pos: nat, lineno: nat, step: nat, acc: seq<Token>, m: Match)
      returns (pos': nat, lineno': nat, next: seq<Token>)
    requires pos <= |s| && Search(s, pos) == Some(m)
    requires Reassemble(acc) == s[..pos]
    ensures pos < pos' <= |s| && lineno' == lineno + step
    ensures pos' == m.close + 1
    ensures next == acc + DataIfAny(lineno, s[pos..m.start]) + GettextCall(lineno', s[m.start + 2..m.close])
    ensures Reassemble(next) == s[..pos']
    ensures acc + InterpolateFrom(s, pos, lineno, step) == next + InterpolateFrom(s, pos', lineno', step)
  {
    var a := DataIfAny(lineno, s[pos..m.start]);
    var b := GettextCall(lineno + step, s[m.start + 2..m.close]);
    UnfoldMatch(s, pos, lineno, step, m);
    ReassembleTurn(s, pos, lineno, lineno + step, m.start, m.close, acc);
    pos', lineno', next := m.close + 1, lineno + step, acc + a + b;
    Regroup(acc, a, b, InterpolateFrom(s, pos', lineno', step), next, InterpolateFrom(s, pos, lineno, step));
  }

  /** Round trip: the output of `interpolate` reads back as the token's text. */
  lemma {:induction false} ReassembleInterpolation(token: Token)
    requires token.value.Some?
    ensures Reassemble(Interpolation(token)) == token.value.value
  {
    var s := token.value.value;
    var step := CountNewlines(s);
    var pos: nat, lineno: nat, acc: seq<Token> := 0, token.lineno, [];
    assert acc + InterpolateFrom(s, pos, lineno, step) == Interpolation(token);
    assert Reassemble(acc) == s[..pos];
    while Search(s, pos).Some?
      invariant pos <= |s|
      invariant acc + InterpolateFrom(s, pos, lineno, step) == Interpolation(token)
      invariant Reassemble(acc) == s[..pos]
      decreases |s| - pos
    {
      pos, lineno, acc := Advance(s, pos, lineno, step, acc, Search(s, pos).value);
    }
    ReassembleTail(s, pos, lineno, step, acc);
  }
}
