/**
 * `TestExtension._dump`: the four values the `{% test %}` tag passes to it,
 * each already turned into its text by `%s`, joined by '|'.
 */
module Dump {

  /** The number of bars inside the parts themselves. */
  function BarsWithin(parts: seq<string>): nat
    decreases |parts|
  {
    if parts == [] then 0 else multiset(parts[0])['|'] + BarsWithin(parts[1..])
  }

  /** The total length of the parts. */
  function TotalLength(parts: seq<string>): nat
    decreases |parts|
  {
    if parts == [] then 0 else |parts[0]| + TotalLength(parts[1..])
  }

  /**
   * Joins `parts` with '|' in between, as `'|'.join(parts)`: the parts'
   * characters and one bar per gap, nothing else.
   */
  function JoinBars(parts: seq<string>): (r: string)
    ensures parts == [] ==> r == []
    ensures parts != [] ==> |r| == TotalLength(parts) + |parts| - 1
    decreases |parts|
  {
    if parts == [] then []
    else if |parts| == 1 then parts[0]
    else parts[0] + "|" + JoinBars(parts[1..])
  }

  /** The join holds the parts' own bars and one more between each two parts. */
  lemma {:induction false} JoinBarsCount(parts: seq<string>)
    ensures parts == [] ==> JoinBars(parts) == []
    ensures parts != [] ==> multiset(JoinBars(parts))['|'] == BarsWithin(parts) + |parts| - 1
    decreases |parts|
  {
    if |parts| > 1 {
      JoinBarsCount(parts[1..]);
    }
  }

  /** `s.split('|')`: the pieces between the bars, at least one. */
  function SplitBars(s: string): (r: seq<string>)
    ensures |r| >= 1
    decreases |s|
  {
    if s == [] then [[]]
    else
      var rest := SplitBars(s[1..]);
      if s[0] == '|' then [[]] + rest
      else [[s[0]] + rest[0]] + rest[1..]
  }

  /** No '|' in `s`. */
  predicate BarFree(s: string)
  {
    forall i :: 0 <= i < |s| ==> s[i] != '|'
  }

  /** `'%s|%s|%s|%s' % (sandboxed, ext_attr, imported_object, context.blocks)`. */
  function DumpText(sandboxed: string, extAttr: string, importedObject: string, blocks: string): string
  {
    sandboxed + "|" + extAttr + "|" + importedObject + "|" + blocks
  }

  /** Text without a bar is a single piece. */
  lemma {:induction false} SplitBarFree(s: string)
    requires BarFree(s)
    ensures SplitBars(s) == [s]
    decreases |s|
  {
    if s != [] {
      assert BarFree(s[1..]) by {
        forall i | 0 <= i < |s[1..]|
          ensures s[1..][i] != '|'
        {
          assert s[1..][i] == s[i + 1];
        }
      }
      SplitBarFree(s[1..]);
      assert [s[0]] + s[1..] == s;
    }
  }

  /** A piece without a bar, then a bar: the split starts with that piece. */
  lemma {:induction false} SplitPrepend(t: string, s: string)
    requires BarFree(t)
    ensures SplitBars(t + "|" + s) == [t] + SplitBars(s)
    decreases |t|
  {
    var u := t + "|" + s;
    if t == [] {
      assert u == "|" + s;
      assert u[1..] == s;
    } else {
      var t' := t[1..];
      assert BarFree(t') by {
        forall i | 0 <= i < |t'|
          ensures t'[i] != '|'
        {
          assert t'[i] == t[i + 1];
        }
      }
      assert u[1..] == t' + "|" + s;
      SplitPrepend(t', s);
      assert [t[0]] + t' == t;
      assert ([t'] + SplitBars(s))[1..] == SplitBars(s);
    }
  }

  /** Splitting undoes joining, when no part holds a bar. */
  lemma {:induction false} SplitJoin(parts: seq<string>)
    requires |parts| >= 1
    requires forall i :: 0 <= i < |parts| ==> BarFree(parts[i])
    ensures SplitBars(JoinBars(parts)) == parts
    decreases |parts|
  {
    if |parts| == 1 {
      SplitBarFree(parts[0]);
    } else {
      var rest := parts[1..];
      assert forall i :: 0 <= i < |rest| ==> BarFree(rest[i]) by {
        forall i | 0 <= i < |rest|
          ensures BarFree(rest[i])
        {
          assert rest[i] == parts[i + 1];
        }
      }
      SplitJoin(rest);
      SplitPrepend(parts[0], JoinBars(rest));
      assert [parts[0]] + rest == parts;
    }
  }

  /** Joining undoes splitting, for any text. */
  lemma {:induction false} JoinSplit(s: string)
    ensures JoinBars(SplitBars(s)) == s
    decreases |s|
  {
    if s != [] {
      var rest := SplitBars(s[1..]);
      JoinSplit(s[1..]);
      if s[0] == '|' {
        assert ([[]] + rest)[1..] == rest;
        assert [s[0]] + s[1..] == s;
      } else {
        var r := [[s[0]] + rest[0]] + rest[1..];
        assert r[1..] == rest[1..];
        if |rest| > 1 {
          assert JoinBars(rest) == rest[0] + "|" + JoinBars(rest[1..]);
        }
        assert [s[0]] + s[1..] == s;
      }
    }
  }

  /** The dump is the four values joined by bars. */
  lemma {:induction false} DumpIsJoin(sandboxed: string, extAttr: string, importedObject: string, blocks: string)
    ensures DumpText(sandboxed, extAttr, importedObject, blocks) == JoinBars([sandboxed, extAttr, importedObject, blocks])
  {
    var parts := [sandboxed, extAttr, importedObject, blocks];
    assert parts[1..][1..][1..] == [blocks];
    assert JoinBars(parts[1..][1..]) == importedObject + "|" + blocks;
    assert JoinBars(parts[1..]) == extAttr + "|" + (importedObject + "|" + blocks);
    assert JoinBars(parts) == sandboxed + "|" + (extAttr + "|" + (importedObject + "|" + blocks));
  }

  /** The four values can be read back from the dump when none of them holds a bar. */
  lemma {:induction false} DumpFields(sandboxed: string, extAttr: string, importedObject: string, blocks: string)
    requires BarFree(sandboxed) && BarFree(extAttr) && BarFree(importedObject) && BarFree(blocks)
    ensures SplitBars(DumpText(sandboxed, extAttr, importedObject, blocks)) == [sandboxed, extAttr, importedObject, blocks]
  {
    DumpIsJoin(sandboxed, extAttr, importedObject, blocks);
    SplitJoin([sandboxed, extAttr, importedObject, blocks]);
  }
}
