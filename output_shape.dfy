/**
 * The shape of what `interpolate` yields: every Data token carries
 * non-empty text that holds no marker, every string token carries a group
 * without ')', every gettext call is the complete six-token group on one
 * line, and text without a marker passes through as one token.
 */
module OutputShape {
  import opened Wrappers
  import opened Lexer
  import opened GettextSearch
  import opened StreamFilter

  /** A Data token carries text, that text is not empty, and it holds no marker. */
  predicate CleanData(t: Token)
  {
    t.kind == Data ==> t.value.Some? && t.value.value != [] && NoMarker(t.value.value)
  }

  /** `text` holds no ')'. */
  predicate NoClose(text: string)
  {
    forall k :: 0 <= k < |text| ==> text[k] != ')'
  }

  /** A string token carries text without a ')'. */
  predicate CleanString(t: Token)
  {
    t.kind == StringLit ==> t.value.Some? && NoClose(t.value.value)
  }

  /** Every token of `ts` is clean in both senses. */
  predicate Clean(ts: seq<Token>)
  {
    forall i :: 0 <= i < |ts| ==> CleanData(ts[i]) && CleanString(ts[i])
  }

  /** Every VariableBegin of `ts` opens a complete gettext call on its own line. */
  predicate CallsComplete(ts: seq<Token>)
  {
    forall i :: 0 <= i < |ts| && ts[i].kind == VariableBegin ==>
      i + 6 <= |ts| && ts[i + 3].value.Some? && ts[i..i + 6] == GettextCall(ts[i].lineno, ts[i + 3].value.value)
  }

  /** Cleanliness is a property of each token, so it survives concatenation. */
  lemma {:induction false} CleanAppend(xs: seq<Token>, ys: seq<Token>)
    requires Clean(xs) && Clean(ys)
    ensures Clean(xs + ys)
  {
    forall i | 0 <= i < |xs + ys|
      ensures CleanData((xs + ys)[i]) && CleanString((xs + ys)[i])
    {
      if i < |xs| {
        assert (xs + ys)[i] == xs[i];
      } else {
        assert (xs + ys)[i] == ys[i - |xs|];
      }
    }
  }

  /** Complete calls stay complete when more tokens are put on either side. */
  lemma {:induction false} CallsCompleteAppend(xs: seq<Token>, ys: seq<Token>)
    requires CallsComplete(xs) && CallsComplete(ys)
    ensures CallsComplete(xs + ys)
  {
    var zs := xs + ys;
    forall i | 0 <= i < |zs| && zs[i].kind == VariableBegin
      ensures i + 6 <= |zs| && zs[i + 3].value.Some? && zs[i..i + 6] == GettextCall(zs[i].lineno, zs[i + 3].value.value)
    {
      if i < |xs| {
        assert zs[i] == xs[i];
        assert zs[i..i + 6] == xs[i..i + 6];
      } else {
        var j := i - |xs|;
        assert zs[i] == ys[j];
        assert zs[i..i + 6] == ys[j..j + 6];
      }
    }
  }

  /** The six call tokens: one VariableBegin, at the front, and a group without ')'. */
  lemma {:induction false} CallIsClean(lineno: nat, group: string)
    requires NoClose(group)
    ensures Clean(GettextCall(lineno, group)) && CallsComplete(GettextCall(lineno, group))
  {
    var ts := GettextCall(lineno, group);
    assert ts[0..6] == ts;
  }

  /** A Data token for marker-free text is clean, and opens no call. */
  lemma {:induction false} DataIsClean(lineno: nat, text: string)
    requires NoMarker(text)
    ensures Clean(DataIfAny(lineno, text)) && CallsComplete(DataIfAny(lineno, text))
  {
  }

  /**
   * One turn of the scan keeps the yielded tokens clean and their calls
   * complete: the text before the leftmost match holds no marker, and the
   * lazy group holds no ')'.
   */
  lemma {:induction false} ShapeAdvance(s: string, pos: nat, lineno: nat, step: nat, acc: seq<Token>, m: Match)
      returns (pos': nat, lineno': nat, next: seq<Token>)
    requires pos <= |s| && Search(s, pos) == Some(m)
    requires Clean(acc) && CallsComplete(acc)
    ensures pos < pos' <= |s| && lineno' == lineno + step
    ensures pos' == m.close + 1
    ensures next == acc + DataIfAny(lineno, s[pos..m.start]) + GettextCall(lineno', s[m.start + 2..m.close])
    ensures Clean(next) && CallsComplete(next)
    ensures acc + InterpolateFrom(s, pos, lineno, step) == next + InterpolateFrom(s, pos', lineno', step)
  {
    var a := DataIfAny(lineno, s[pos..m.start]);
    var group := s[m.start + 2..m.close];
    var b := GettextCall(lineno + step, group);
    UnfoldMatch(s, pos, lineno, step, m);
    SearchIsLeftmost(s, pos);
    NoMarkerInSlice(s, pos, m.start);
    DataIsClean(lineno, s[pos..m.start]);
    forall k | 0 <= k < |group|
      ensures group[k] != ')'
    {
      assert group[k] == s[m.start + 2 + k];
    }
    CallIsClean(lineno + step, group);
    CleanAppend(acc, a);
    CleanAppend(acc + a, b);
    CallsCompleteAppend(acc, a);
    CallsCompleteAppend(acc + a, b);
    pos', lineno', next := m.close + 1, lineno + step, acc + a + b;
    Regroup(acc, a, b, InterpolateFrom(s, pos', lineno', step), next, InterpolateFrom(s, pos, lineno, step));
  }

  /** No match from `pos` on: the rest of the text, if any, is one clean Data token. */
  lemma {:induction false} ShapeTail(s: string, pos: nat, lineno: nat, step: nat, acc: seq<Token>)
    requires pos <= |s| && Search(s, pos).None?
    requires Clean(acc) && CallsComplete(acc)
    ensures Clean(acc + InterpolateFrom(s, pos, lineno, step))
    ensures CallsComplete(acc + InterpolateFrom(s, pos, lineno, step))
  {
    LoopExit(s, pos, lineno, step, acc);
    SearchIsLeftmost(s, pos);
    NoMarkerInSlice(s, pos, |s|);
    assert s[pos..|s|] == s[pos..];
    DataIsClean(lineno, s[pos..]);
    CleanAppend(acc, DataIfAny(lineno, s[pos..]));
    CallsCompleteAppend(acc, DataIfAny(lineno, s[pos..]));
  }

  /**
   * What `interpolate` yields is clean: no empty or marker-holding Data
   * token, no ')' in a string token, and every call a complete six-token
   * group on one line.
   */
  lemma {:induction false} InterpolationShape(token: Token)
    requires token.value.Some?
    ensures Clean(Interpolation(token)) && CallsComplete(Interpolation(token))
  {
    var s := token.value.value;
    var step := CountNewlines(s);
    var pos: nat, lineno: nat, acc: seq<Token> := 0, token.lineno, [];
    assert acc + InterpolateFrom(s, pos, lineno, step) == Interpolation(token);
    while Search(s, pos).Some?
      invariant pos <= |s|
      invariant acc + InterpolateFrom(s, pos, lineno, step) == Interpolation(token)
      invariant Clean(acc) && CallsComplete(acc)
      decreases |s| - pos
    {
      pos, lineno, acc := ShapeAdvance(s, pos, lineno, step, acc, Search(s, pos).value);
    }
    ShapeTail(s, pos, lineno, step, acc);
  }

  /**
   * Text without a marker passes through as one Data token on the token's
   * line (nothing for empty text); and only such text does.
   */
  lemma {:induction false} NoMatchPassesThrough(token: Token)
    requires token.value.Some?
    ensures NoMarker(token.value.value) <==>
      Interpolation(token) == DataIfAny(token.lineno, token.value.value)
  {
    var s := token.value.value;
    var step := CountNewlines(s);
    SearchIsLeftmost(s, 0);
    match Search(s, 0)
    case None =>
      LoopExit(s, 0, token.lineno, step, []);
      assert s[0..] == s;
      assert [] + Interpolation(token) == Interpolation(token);
    case Some(m) =>
      assert MatchesAt(s, m.start);
      UnfoldMatch(s, 0, token.lineno, step, m);
      assert |Interpolation(token)| >= 6;
  }

  /**
   * `ts` is made of nothing but pieces `interpolate` yields, front to back:
   * a non-empty, marker-free Data token that no Data token follows, or the
   * six tokens of a call whose group holds no ')'.
   */
  predicate Pieces(ts: seq<Token>)
    decreases |ts|
  {
    ts == []
    || (ts[0].kind == Data && CleanData(ts[0]) && (|ts| == 1 || ts[1].kind != Data) && Pieces(ts[1..]))
    || (|ts| >= 6 && ts[3].value.Some? && NoClose(ts[3].value.value)
        && ts[..6] == GettextCall(ts[0].lineno, ts[3].value.value) && Pieces(ts[6..]))
  }

  /** A call whose group holds no ')' in front of pieces gives pieces. */
  lemma {:induction false} PiecesCall(lineno: nat, group: string, rest: seq<Token>)
    requires NoClose(group) && Pieces(rest)
    ensures Pieces(GettextCall(lineno, group) + rest)
  {
    var ts := GettextCall(lineno, group) + rest;
    assert ts[..6] == GettextCall(lineno, group);
    assert ts[6..] == rest;
  }

  /** Marker-free text in front of a call gives pieces: the Data token is followed by a VariableBegin. */
  lemma {:induction false} PiecesDataCall(lineno: nat, text: string, callLine: nat, group: string, rest: seq<Token>)
    requires NoMarker(text) && NoClose(group) && Pieces(rest)
    ensures Pieces(DataIfAny(lineno, text) + GettextCall(callLine, group) + rest)
  {
    PiecesCall(callLine, group, rest);
    var tail := GettextCall(callLine, group) + rest;
    if |text| > 0 {
      var ts := [Token(lineno, Data, Some(text))] + tail;
      assert ts[1..] == tail;
      assert ts[1] == tail[0];
      assert DataIfAny(lineno, text) + GettextCall(callLine, group) + rest == ts;
    } else {
      assert DataIfAny(lineno, text) + GettextCall(callLine, group) + rest == tail;
    }
  }

  /** One match: pieces from behind its ')' give pieces from `pos`. */
  lemma {:induction false} PiecesAdvance(s: string, pos: nat, lineno: nat, step: nat, m: Match)
    requires pos <= |s| && Search(s, pos) == Some(m)
    requires Pieces(InterpolateFrom(s, m.close + 1, lineno + step, step))
    ensures Pieces(InterpolateFrom(s, pos, lineno, step))
  {
    var group := s[m.start + 2..m.close];
    UnfoldMatch(s, pos, lineno, step, m);
    SearchIsLeftmost(s, pos);
    NoMarkerInSlice(s, pos, m.start);
    forall k | 0 <= k < |group|
      ensures group[k] != ')'
    {
      assert group[k] == s[m.start + 2 + k];
    }
    PiecesDataCall(lineno, s[pos..m.start], lineno + step, group, InterpolateFrom(s, m.close + 1, lineno + step, step));
  }

  /** No match from `pos` on: the rest of the text, if any, is one clean Data token. */
  lemma {:induction false} PiecesTail(s: string, pos: nat, lineno: nat, step: nat)
    requires pos <= |s| && Search(s, pos).None?
    ensures Pieces(InterpolateFrom(s, pos, lineno, step))
  {
    SearchIsLeftmost(s, pos);
    NoMarkerInSlice(s, pos, |s|);
    assert s[pos..|s|] == s[pos..];
    if pos < |s| {
      var ts := [Token(lineno, Data, Some(s[pos..]))];
      assert ts[1..] == [];
    }
  }

  /** What `interpolate` yields from `pos` on is made of pieces only. */
  lemma {:induction false} PiecesFrom(s: string, pos: nat, lineno: nat, step: nat)
    requires pos <= |s|
    ensures Pieces(InterpolateFrom(s, pos, lineno, step))
    decreases |s| - pos
  {
    match Search(s, pos)
    case None =>
      PiecesTail(s, pos, lineno, step);
    case Some(m) =>
      PiecesFrom(s, m.close + 1, lineno + step, step);
      PiecesAdvance(s, pos, lineno, step, m);
  }

  /**
   * `interpolate` yields nothing but non-empty, marker-free Data tokens, never
   * two in a row, and whole six-token calls whose string holds no ')'.
   */
  lemma {:induction false} InterpolationPieces(token: Token)
    requires token.value.Some?
    ensures Pieces(Interpolation(token))
  {
    PiecesFrom(token.value.value, 0, token.lineno, CountNewlines(token.value.value));
  }
}
