/**
 * Reading a token sequence back as the template text it stands for. This is
 * the inverse the stream filter's output is checked against: tokens are read
 * one by one, so the reading of a concatenation is the concatenation of the
 * readings.
 */
module ReadBack {
  import opened Wrappers
  import opened Lexer

  /**
   * The piece of template text a token of `interpolate`'s output stands for:
   * a Data token its value, the VariableBegin and RParen of a call the
   * "_(" and ")" of the marker, the StringLit of a call the text inside it,
   * and the other call tokens nothing.
   */
  function TokenText(t: Token): string
  {
    if t.kind == VariableBegin then "_("
    else if t.kind == RParen then ")"
    else if (t.kind == Data || t.kind == StringLit) && t.value.Some? then t.value.value
    else []
  }

  /** The text a token sequence stands for, read back token by token. */
  function Reassemble(ts: seq<Token>): string
    decreases |ts|
  {
    if ts == [] then [] else Reassemble(ts[..|ts| - 1]) + TokenText(ts[|ts| - 1])
  }

  /** Reading back distributes over concatenation. */
  lemma {:induction false} ReassembleAppend(xs: seq<Token>, ys: seq<Token>)
    ensures Reassemble(xs + ys) == Reassemble(xs) + Reassemble(ys)
    decreases |ys|
  {
    if ys == [] {
      assert xs + ys == xs;
    } else {
      var zs := xs + ys;
      assert zs[..|zs| - 1] == xs + ys[..|ys| - 1];
      ReassembleAppend(xs, ys[..|ys| - 1]);
      assert Reassemble(xs) + Reassemble(ys[..|ys| - 1]) + TokenText(ys[|ys| - 1]) == Reassemble(xs) + (Reassemble(ys[..|ys| - 1]) + TokenText(ys[|ys| - 1]));
    }
  }

  /** A single token reads back as its own text. */
  lemma {:induction false} ReassembleOne(t: Token)
    ensures Reassemble([t]) == TokenText(t)
  {
    assert [t][..0] == [];
  }

  /** Three tokens read back as their three texts in order. */
  lemma {:induction false} ReassembleThree(x: Token, y: Token, z: Token)
    ensures Reassemble([x, y, z]) == TokenText(x) + TokenText(y) + TokenText(z)
  {
    assert [x, y, z][..2] == [x, y];
    assert [x, y][..1] == [x];
    ReassembleOne(x);
  }
}
