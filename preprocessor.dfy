/**
 * `PreprocessorExtension`: before lexing, every `[[TEST]]` in the template
 * source becomes `({{ foo }})`, with the left-to-right, non-overlapping
 * scan of Python's `str.replace`.
 */
module Preprocessor {
  import opened Wrappers

  /** The text the preprocessor looks for. */
  const Marker: string := "[[TEST]]"

  /** The text it puts in its place. */
  const Substitute: string := "({{ foo }})"

  /** `Marker` occurs in `s` starting at index `k`. */
  predicate MarkerAt(s: string, k: int)
  {
    0 <= k && k + |Marker| <= |s| && s[k..k + |Marker|] == Marker
  }

  /** `Marker` occurs nowhere in `s`. */
  predicate MarkerFree(s: string)
  {
    forall k :: 0 <= k < |s| ==> !MarkerAt(s, k)
  }

  /**
   * `s.replace(Marker, Substitute)`: at each position, either the marker
   * starts there and is replaced as a whole, or one character is kept.
   */
  function ReplaceMarkers(s: string): string
    decreases |s|
  {
    if |s| < |Marker| then s
    else if s[..|Marker|] == Marker then Substitute + ReplaceMarkers(s[|Marker|..])
    else [s[0]] + ReplaceMarkers(s[1..])
  }

  /** How many markers the scan of `ReplaceMarkers` replaces. */
  function Replacements(s: string): nat
    decreases |s|
  {
    if |s| < |Marker| then 0
    else if s[..|Marker|] == Marker then 1 + Replacements(s[|Marker|..])
    else Replacements(s[1..])
  }

  /**
   * `preprocess(source, name, filename)`: the template name (absent for a
   * template made from a string) and the file name play no part in the result.
   */
  function Preprocess(source: string, name: Option<string>, filename: Option<string>): string
  {
    ReplaceMarkers(source)
  }

  /** Where no marker starts, the scan keeps one character and moves on. */
  lemma {:induction false} KeepHead(s: string)
    requires s != [] && !MarkerAt(s, 0)
    ensures ReplaceMarkers(s) == [s[0]] + ReplaceMarkers(s[1..])
  {
    if |s| >= |Marker| {
      assert s[0..|Marker|] == s[..|Marker|];
    }
  }

  /** No marker starting in the first `n + 1` positions of `s` means none in the first `n` of `s[1..]`. */
  lemma {:induction false} NoMarkerShift(s: string, n: nat)
    requires s != [] && n < |s|
    requires forall k :: 0 <= k < n + 1 ==> !MarkerAt(s, k)
    ensures forall k :: 0 <= k < n ==> !MarkerAt(s[1..], k)
  {
    forall k | 0 <= k < n
      ensures !MarkerAt(s[1..], k)
    {
      assert !MarkerAt(s, k + 1);
      if k + |Marker| <= |s[1..]| {
        ShiftedWindow(s, 1, k + 1, |Marker|);
      }
    }
  }

  /**
   * The first marker is replaced and everything around it is kept: the
   * text before it comes out as it was, and the scan goes on behind it.
   */
  lemma {:induction false} ReplaceFirst(p: string, q: string)
    requires forall k :: 0 <= k < |p| ==> !MarkerAt(p + Marker + q, k)
    ensures ReplaceMarkers(p + Marker + q) == p + Substitute + ReplaceMarkers(q)
    decreases |p|
  {
    var s := p + Marker + q;
    if p == [] {
      assert s == Marker + q;
      assert s[..|Marker|] == Marker;
      assert s[|Marker|..] == q;
    } else {
      var p' := p[1..];
      KeepHead(s);
      NoMarkerShift(s, |p'|);
      assert s[1..] == p' + Marker + q;
      ReplaceFirst(p', q);
      assert [p[0]] + p' == p;
    }
  }

  /** The two constants share no character, and the substitute is longer by three. */
  lemma {:induction false} ConstantsApart()
    ensures |Marker| == 8 && |Substitute| == 11
    ensures forall i, j :: 0 <= i < |Substitute| && 0 <= j < |Marker| ==> Substitute[i] != Marker[j]
  {
  }

  /** A window of `s` seen from a later start: the same characters. */
  lemma {:induction false} ShiftedWindow(s: string, d: nat, k: nat, n: nat)
    requires d <= k && k + n <= |s|
    ensures s[d..][k - d..k - d + n] == s[k..k + n]
  {
    var seen, window := s[d..][k - d..k - d + n], s[k..k + n];
    forall i | 0 <= i < n
      ensures seen[i] == window[i]
    {
      assert seen[i] == s[k + i];
    }
  }

  /** Every replacement lengthens the text by three characters. */
  lemma {:induction false} ReplaceLength(s: string)
    ensures |ReplaceMarkers(s)| == |s| + 3 * Replacements(s)
    decreases |s|
  {
    ConstantsApart();
    if |s| >= |Marker| {
      if s[..|Marker|] == Marker {
        ReplaceLength(s[|Marker|..]);
      } else {
        ReplaceLength(s[1..]);
      }
    }
  }

  /** Text without a marker comes out unchanged. */
  lemma {:induction false} MarkerFreeUnchanged(s: string)
    requires MarkerFree(s)
    ensures ReplaceMarkers(s) == s
    decreases |s|
  {
    if |s| >= |Marker| {
      assert !MarkerAt(s, 0);
      assert MarkerFree(s[1..]) by {
        forall k | 0 <= k < |s[1..]|
          ensures !MarkerAt(s[1..], k)
        {
          assert !MarkerAt(s, k + 1);
          if k + |Marker| <= |s[1..]| {
            ShiftedWindow(s, 1, k + 1, |Marker|);
          }
        }
      }
      MarkerFreeUnchanged(s[1..]);
    }
  }

  /** The scan replaces nothing only when there is no marker to replace. */
  lemma {:induction false} NoReplacementMarkerFree(s: string)
    requires Replacements(s) == 0
    ensures MarkerFree(s)
    decreases |s|
  {
    ConstantsApart();
    if |s| >= |Marker| {
      assert s[..|Marker|] != Marker;
      NoReplacementMarkerFree(s[1..]);
      forall k | 0 <= k < |s|
        ensures !MarkerAt(s, k)
      {
        if k > 0 && k + |Marker| <= |s| {
          ShiftedWindow(s, 1, k, |Marker|);
          assert !MarkerAt(s[1..], k - 1);
        }
      }
    }
  }

  /** Preprocessing leaves the source as it is exactly when it holds no marker. */
  lemma {:induction false} PreprocessIdentity(source: string, name: Option<string>, filename: Option<string>)
    ensures Preprocess(source, name, filename) == source <==> MarkerFree(source)
  {
    ReplaceLength(source);
    if Preprocess(source, name, filename) == source {
      NoReplacementMarkerFree(source);
    } else if MarkerFree(source) {
      MarkerFreeUnchanged(source);
    }
  }

  /** No character of the substitute appears in `t`. */
  predicate Kept(t: string)
  {
    forall i :: 0 <= i < |t| ==> t[i] !in Substitute
  }

  /**
   * Where the output holds no character of the substitute, it is the input
   * as it was: every replacement starts with one.
   */
  lemma {:induction false} KeptPrefix(s: string, n: nat)
    requires n <= |ReplaceMarkers(s)|
    ensures Kept(ReplaceMarkers(s)[..n]) ==> n <= |s| && ReplaceMarkers(s)[..n] == s[..n]
    decreases |s|
  {
    var r := ReplaceMarkers(s);
    if n > 0 && |s| >= |Marker| {
      if s[..|Marker|] == Marker {
        assert r[..n][0] == Substitute[0];
      } else {
        var r' := ReplaceMarkers(s[1..]);
        var head, rest := r[..n], r'[..n - 1];
        assert r == [s[0]] + r';
        assert head == [s[0]] + rest;
        if Kept(head) {
          assert Kept(rest) by {
            forall i | 0 <= i < |rest|
              ensures rest[i] !in Substitute
            {
              assert rest[i] == head[i + 1];
            }
          }
          KeptPrefix(s[1..], n - 1);
          assert s[..n] == [s[0]] + s[1..][..n - 1];
        }
      }
    }
  }

  /** After preprocessing no marker is left, not even one made of kept and inserted text. */
  lemma {:induction false} NoMarkerLeft(s: string)
    ensures MarkerFree(ReplaceMarkers(s))
    decreases |s|
  {
    ConstantsApart();
    var r := ReplaceMarkers(s);
    if |s| >= |Marker| {
      if s[..|Marker|] == Marker {
        var r' := ReplaceMarkers(s[|Marker|..]);
        NoMarkerLeft(s[|Marker|..]);
        forall k | 0 <= k < |r|
          ensures !MarkerAt(r, k)
        {
          if k < |Substitute| && k + |Marker| <= |r| {
            assert r[k..k + |Marker|][0] == Substitute[k];
          } else if MarkerAt(r, k) {
            assert r[k..k + |Marker|] == r'[k - |Substitute|..k - |Substitute| + |Marker|];
            assert MarkerAt(r', k - |Substitute|);
          }
        }
      } else {
        var r' := ReplaceMarkers(s[1..]);
        NoMarkerLeft(s[1..]);
        forall k | 0 <= k < |r|
          ensures !MarkerAt(r, k)
        {
          if MarkerAt(r, k) {
            if k == 0 {
              assert Kept(r[..|Marker|]) by {
                forall i | 0 <= i < |Marker|
                  ensures r[..|Marker|][i] !in Substitute
                {
                  assert r[..|Marker|][i] == Marker[i];
                }
              }
              KeptPrefix(s, |Marker|);
            } else {
              assert r[k..k + |Marker|] == r'[k - 1..k - 1 + |Marker|];
              assert MarkerAt(r', k - 1);
            }
          }
        }
      }
    }
  }

  /** Preprocessing twice is preprocessing once. */
  lemma {:induction false} PreprocessIdempotent(source: string, name: Option<string>, filename: Option<string>)
    ensures Preprocess(Preprocess(source, name, filename), name, filename) == Preprocess(source, name, filename)
  {
    NoMarkerLeft(source);
    MarkerFreeUnchanged(ReplaceMarkers(source));
  }

  /** The template of the preprocessor test: `{[[TEST]]}` becomes `{({{ foo }})}`. */
  lemma {:induction false} PreprocessTemplate(name: Option<string>, filename: Option<string>)
    ensures Preprocess("{[[TEST]]}", name, filename) == "{({{ foo }})}"
  {
    var s := "{[[TEST]]}";
    assert s[..|Marker|][0] != Marker[0];
    assert s[1..][..|Marker|] == Marker;
    assert s[1..][|Marker|..] == "}";
  }
}
