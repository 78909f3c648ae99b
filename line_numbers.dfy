/**
 * The line numbers `interpolate` stamps on its output. The current line
 * starts at the token's own and grows by the newline count of the WHOLE
 * token text at every match, so each token sits on the token's line plus
 * that count times the number of gettext calls opened up to it.
 */
module LineNumbers {
  import opened Wrappers
  import opened Lexer
  import opened GettextSearch
  import opened StreamFilter

  /** 1 when `t` opens a gettext call, 0 otherwise. */
  function Opens(t: Token): nat
  {
    if t.kind == VariableBegin then 1 else 0
  }

  /** The number of gettext calls opened in `ts`, i.e. of its VariableBegin tokens. */
  function Begins(ts: seq<Token>): nat
    decreases |ts|
  {
    if ts == [] then 0 else Begins(ts[..|ts| - 1]) + Opens(ts[|ts| - 1])
  }

  /**
   * Every token of `ts` sits `step` lines past `base` for every call opened
   * up to and including it.
   */
  predicate Stamped(ts: seq<Token>, base: nat, step: nat)
    decreases |ts|
  {
    ts == [] || (Stamped(ts[..|ts| - 1], base, step) && ts[|ts| - 1].lineno == base + step * Begins(ts))
  }

  /** Counting calls distributes over concatenation. */
  lemma {:induction false} BeginsAppend(xs: seq<Token>, ys: seq<Token>)
    ensures Begins(xs + ys) == Begins(xs) + Begins(ys)
    decreases |ys|
  {
    if ys == [] {
      assert xs + ys == xs;
    } else {
      var zs := xs + ys;
      assert zs[..|zs| - 1] == xs + ys[..|ys| - 1];
      BeginsAppend(xs, ys[..|ys| - 1]);
    }
  }

  /** The calls opened in a prefix are never more than those opened in a longer one. */
  lemma {:induction false} BeginsPrefix(ts: seq<Token>, i: nat, j: nat)
    requires i <= j <= |ts|
    ensures Begins(ts[..i]) <= Begins(ts[..j])
  {
    assert ts[..j] == ts[..i] + ts[i..j];
    BeginsAppend(ts[..i], ts[i..j]);
  }

  /** A step per call: multiplying by the line step keeps the order of call counts. */
  lemma {:induction false} MulMono(step: nat, a: nat, b: nat)
    requires a <= b
    ensures step * a <= step * b
  {
    assert step * b == step * a + step * (b - a);
  }

  /** One more token, stamped for the calls opened up to and including it. */
  lemma {:induction false} StampedSnoc(xs: seq<Token>, t: Token, base: nat, step: nat)
    requires Stamped(xs, base, step)
    requires t.lineno == base + step * (Begins(xs) + Opens(t))
    ensures Begins(xs + [t]) == Begins(xs) + Opens(t)
    ensures Stamped(xs + [t], base, step)
  {
    assert (xs + [t])[..|xs|] == xs;
  }

  /** A stamped sequence is stamped up to any of its tokens. */
  lemma {:induction false} StampedPrefix(ts: seq<Token>, k: nat, base: nat, step: nat)
    requires Stamped(ts, base, step) && k <= |ts|
    ensures Stamped(ts[..k], base, step)
    decreases |ts| - k
  {
    if k < |ts| {
      StampedPrefix(ts, k + 1, base, step);
      assert ts[..k + 1][..k] == ts[..k];
    } else {
      assert ts[..k] == ts;
    }
  }

  /** Token `i` of a stamped sequence, in the terms of the calls opened up to it. */
  lemma {:induction false} StampedAt(ts: seq<Token>, i: nat, base: nat, step: nat)
    requires Stamped(ts, base, step) && i < |ts|
    ensures ts[i].lineno == base + step * Begins(ts[..i + 1])
  {
    StampedPrefix(ts, i + 1, base, step);
    assert ts[..i + 1][i] == ts[i];
  }

  /** The text before a match stays on the current line. */
  lemma {:induction false} DataStamped(xs: seq<Token>, lineno: nat, text: string, base: nat, step: nat)
    requires Stamped(xs, base, step) && lineno == base + step * Begins(xs)
    ensures Begins(xs + DataIfAny(lineno, text)) == Begins(xs)
    ensures Stamped(xs + DataIfAny(lineno, text), base, step)
  {
    if text == [] {
      assert xs + DataIfAny(lineno, text) == xs;
    } else {
      StampedSnoc(xs, Token(lineno, Data, Some(text)), base, step);
    }
  }

  /** Three tokens on one line, of which only the first may open a call. */
  lemma {:induction false} TripleStamped(xs: seq<Token>, t0: Token, t1: Token, t2: Token, base: nat, step: nat)
    requires Stamped(xs, base, step)
    requires t0.lineno == base + step * (Begins(xs) + Opens(t0))
    requires t1.lineno == t0.lineno && t1.kind != VariableBegin
    requires t2.lineno == t0.lineno && t2.kind != VariableBegin
    ensures Begins(xs + [t0, t1, t2]) == Begins(xs) + Opens(t0)
    ensures Stamped(xs + [t0, t1, t2], base, step)
  {
    StampedSnoc(xs, t0, base, step);
    StampedSnoc(xs + [t0], t1, base, step);
    StampedSnoc(xs + [t0] + [t1], t2, base, step);
    assert xs + [t0] + [t1] + [t2] == xs + [t0, t1, t2];
  }

  /** A call opens one more call, and all six of its tokens sit on the new line. */
  lemma {:induction false} CallStamped(xs: seq<Token>, lineno: nat, group: string, base: nat, step: nat)
    requires Stamped(xs, base, step) && lineno == base + step * (Begins(xs) + 1)
    ensures Begins(xs + GettextCall(lineno, group)) == Begins(xs) + 1
    ensures Stamped(xs + GettextCall(lineno, group), base, step)
  {
    var c := GettextCall(lineno, group);
    TripleStamped(xs, c[0], c[1], c[2], base, step);
    TripleStamped(xs + [c[0], c[1], c[2]], c[3], c[4], c[5], base, step);
    assert xs + [c[0], c[1], c[2]] + [c[3], c[4], c[5]] == xs + c;
  }

  /**
   * One turn of the scan: the text before the match stays on the current
   * line, and the call (and everything after it) moves `step` lines on.
   */
  lemma {:induction false} StampAdvance(s: string, pos: nat, lineno: nat, step: nat, acc: seq<Token>, m: Match,
                                        base: nat, calls: nat)
      returns (pos': nat, lineno': nat, next: seq<Token>)
    requires pos <= |s| && Search(s, pos) == Some(m)
    requires Stamped(acc, base, step) && Begins(acc) == calls && lineno == base + step * calls
    ensures pos < pos' <= |s| && pos' == m.close + 1
    ensures next == acc + DataIfAny(lineno, s[pos..m.start]) + GettextCall(lineno + step, s[m.start + 2..m.close])
    ensures Stamped(next, base, step) && Begins(next) == calls + 1 && lineno' == base + step * (calls + 1)
    ensures acc + InterpolateFrom(s, pos, lineno, step) == next + InterpolateFrom(s, pos', lineno', step)
  {
    var a := DataIfAny(lineno, s[pos..m.start]);
    var b := GettextCall(lineno + step, s[m.start + 2..m.close]);
    UnfoldMatch(s, pos, lineno, step, m);
    DataStamped(acc, lineno, s[pos..m.start], base, step);
    assert step * (calls + 1) == step * calls + step;
    CallStamped(acc + a, lineno + step, s[m.start + 2..m.close], base, step);
    pos', lineno', next := m.close + 1, lineno + step, acc + a + b;
    Regroup(acc, a, b, InterpolateFrom(s, pos', lineno', step), next, InterpolateFrom(s, pos, lineno, step));
  }

  /** No match from `pos` on: the last Data token stays on the current line. */
  lemma {:induction false} StampTail(s: string, pos: nat, lineno: nat, step: nat, acc: seq<Token>, base: nat, calls: nat)
    requires pos <= |s| && Search(s, pos).None?
    requires Stamped(acc, base, step) && Begins(acc) == calls && lineno == base + step * calls
    ensures Stamped(acc + InterpolateFrom(s, pos, lineno, step), base, step)
  {
    LoopExit(s, pos, lineno, step, acc);
    DataStamped(acc, lineno, s[pos..], base, step);
  }

  /**
   * Every token `interpolate` yields sits on the token's line plus the
   * newline count of its whole text times the number of calls opened up to
   * and including it: after k matches the current line is lineno + k * count.
   */
  lemma {:induction false} InterpolationLines(token: Token)
    requires token.value.Some?
    ensures Stamped(Interpolation(token), token.lineno, CountNewlines(token.value.value))
  {
    var s := token.value.value;
    var step := CountNewlines(s);
    var pos: nat, lineno: nat, acc: seq<Token> := 0, token.lineno, [];
    ghost var calls: nat := 0;
    assert acc + InterpolateFrom(s, pos, lineno, step) == Interpolation(token);
    while Search(s, pos).Some?
      invariant pos <= |s|
      invariant acc + InterpolateFrom(s, pos, lineno, step) == Interpolation(token)
      invariant Stamped(acc, token.lineno, step) && Begins(acc) == calls && lineno == token.lineno + step * calls
      decreases |s| - pos
    {
      pos, lineno, acc := StampAdvance(s, pos, lineno, step, acc, Search(s, pos).value, token.lineno, calls);
      calls := calls + 1;
    }
    StampTail(s, pos, lineno, step, acc, token.lineno, calls);
  }

  /** Stamped line numbers never go down and never fall below the base line. */
  lemma {:induction false} StampedMonotone(ts: seq<Token>, base: nat, step: nat)
    requires Stamped(ts, base, step)
    ensures forall i, j :: 0 <= i <= j < |ts| ==> base <= ts[i].lineno <= ts[j].lineno
  {
    forall i, j | 0 <= i <= j < |ts|
      ensures base <= ts[i].lineno <= ts[j].lineno
    {
      StampedAt(ts, i, base, step);
      StampedAt(ts, j, base, step);
      BeginsPrefix(ts, i + 1, j + 1);
      MulMono(step, Begins(ts[..i + 1]), Begins(ts[..j + 1]));
    }
  }

  /** Within what one token becomes, line numbers never go down nor below its own. */
  lemma {:induction false} InterpolationLinesMonotone(token: Token)
    requires token.value.Some?
    ensures forall i, j :: 0 <= i <= j < |Interpolation(token)| ==>
      token.lineno <= Interpolation(token)[i].lineno <= Interpolation(token)[j].lineno
  {
    InterpolationLines(token);
    StampedMonotone(Interpolation(token), token.lineno, CountNewlines(token.value.value));
  }
}
