/**
 * What `filter_stream` promises: its output is the in-order concatenation of
 * what each upstream token becomes, a stream whose Data tokens hold no
 * marker (in particular one without Data tokens) passes through unchanged,
 * and so filtering twice is filtering once.
 */
module FilterFacts {
  import opened Wrappers
  import opened Lexer
  import opened GettextSearch
  import opened StreamFilter
  import opened OutputShape

  /** Every Data token of `ts` carries non-empty text that holds no marker. */
  predicate AllCleanData(ts: seq<Token>)
  {
    forall i :: 0 <= i < |ts| ==> CleanData(ts[i])
  }

  /** `ts` holds no Data token at all. */
  predicate NoData(ts: seq<Token>)
  {
    forall i :: 0 <= i < |ts| ==> ts[i].kind != Data
  }

  /** Every Data token carrying text is a property of each token, so it survives concatenation. */
  lemma {:induction false} DataHasTextAppend(xs: seq<Token>, ys: seq<Token>)
    requires DataHasText(xs) && DataHasText(ys)
    ensures DataHasText(xs + ys)
  {
    forall i | 0 <= i < |xs + ys| && (xs + ys)[i].kind == Data
      ensures (xs + ys)[i].value.Some?
    {
      if i >= |xs| {
        assert (xs + ys)[i] == ys[i - |xs|];
      } else {
        assert (xs + ys)[i] == xs[i];
      }
    }
  }

  /** ... and survives dropping the last token. */
  lemma {:induction false} DataHasTextInit(ts: seq<Token>)
    requires DataHasText(ts) && ts != []
    ensures DataHasText(ts[..|ts| - 1])
  {
    var init := ts[..|ts| - 1];
    forall i | 0 <= i < |init| && init[i].kind == Data
      ensures init[i].value.Some?
    {
      assert init[i] == ts[i];
    }
  }

  /** Filtering a concatenation is concatenating the filtered parts. */
  lemma {:induction false} FilteredAppend(xs: seq<Token>, ys: seq<Token>)
    requires DataHasText(xs) && DataHasText(ys)
    ensures DataHasText(xs + ys)
    ensures Filtered(xs + ys) == Filtered(xs) + Filtered(ys)
    decreases |ys|
  {
    DataHasTextAppend(xs, ys);
    if ys == [] {
      assert xs + ys == xs;
    } else {
      var zs, init := xs + ys, ys[..|ys| - 1];
      DataHasTextInit(ys);
      FilteredAppend(xs, init);
      var last := ys[|ys| - 1];
      assert zs[..|zs| - 1] == xs + init;
      assert zs[|zs| - 1] == last;
      var a, b, c := Filtered(xs), Filtered(init), Expand(last);
      assert Filtered(ys) == b + c;
      assert Filtered(zs) == (a + b) + c;
      assert (a + b) + c == a + (b + c);
    }
  }

  /** A token whose text (if Data) holds no marker becomes itself. */
  lemma {:induction false} ExpandClean(t: Token)
    requires CleanData(t)
    ensures Expand(t) == [t]
  {
    if t.kind == Data {
      NoMatchPassesThrough(t);
    }
  }

  /** A stream whose Data tokens hold no marker passes through unchanged. */
  lemma {:induction false} FilteredFixed(ts: seq<Token>)
    requires AllCleanData(ts)
    ensures DataHasText(ts) && Filtered(ts) == ts
    decreases |ts|
  {
    if ts != [] {
      var init := ts[..|ts| - 1];
      assert AllCleanData(init) by {
        forall i | 0 <= i < |init|
          ensures CleanData(init[i])
        {
          assert init[i] == ts[i];
        }
      }
      FilteredFixed(init);
      ExpandClean(ts[|ts| - 1]);
      assert init + [ts[|ts| - 1]] == ts;
    }
  }

  /** A stream without Data tokens passes through unchanged. */
  lemma {:induction false} FilteredWithoutData(ts: seq<Token>)
    requires NoData(ts)
    ensures DataHasText(ts) && Filtered(ts) == ts
  {
    FilteredFixed(ts);
  }

  /** The Data tokens `filter_stream` yields carry non-empty text that holds no marker. */
  lemma {:induction false} FilteredClean(stream: seq<Token>)
    requires DataHasText(stream)
    ensures AllCleanData(Filtered(stream))
    decreases |stream|
  {
    if stream != [] {
      var init := stream[..|stream| - 1];
      var last := stream[|stream| - 1];
      FilteredClean(init);
      var xs, ys := Filtered(init), Expand(last);
      if last.kind == Data {
        InterpolationShape(last);
      }
      assert AllCleanData(ys);
      forall i | 0 <= i < |xs + ys|
        ensures CleanData((xs + ys)[i])
      {
        if i >= |xs| {
          assert (xs + ys)[i] == ys[i - |xs|];
        } else {
          assert (xs + ys)[i] == xs[i];
        }
      }
    }
  }

  /** Filtering twice is filtering once. */
  lemma {:induction false} FilterIdempotent(stream: seq<Token>)
    requires DataHasText(stream)
    ensures DataHasText(Filtered(stream))
    ensures Filtered(Filtered(stream)) == Filtered(stream)
  {
    FilteredClean(stream);
    FilteredFixed(Filtered(stream));
  }

  /** A token text with two markers and a trailing newline. */
  const TwoMarkers: string := "_(a)_(b)\n"

  /** `TwoMarkers` holds one line break. */
  lemma {:induction false} TwoMarkersNewlines()
    ensures CountNewlines(TwoMarkers) == 1
  {
    var p, q := "_(a)_(b)", "\n";
    assert TwoMarkers == p + q;
    NoBreaksBefore(p, q);
  }

  /** Where the scan over `TwoMarkers` finds its matches. */
  lemma {:induction false} TwoMarkersScan()
    ensures Search(TwoMarkers, 0) == Some(Match(0, 3))
    ensures Search(TwoMarkers, 4) == Some(Match(4, 7))
    ensures Search(TwoMarkers, 8) == None
  {
    var s := TwoMarkers;
    assert FindClose(s, 2) == Some(3);
    assert FindClose(s, 6) == Some(7);
  }

  /** `TwoMarkers` on line 1 yields two calls, on lines 2 and 3, then a Data token on line 3. */
  lemma {:induction false} TwoMarkersInterpolation()
    ensures |Interpolation(Token(1, Data, Some(TwoMarkers)))| == 13
    ensures Interpolation(Token(1, Data, Some(TwoMarkers)))[12] == Token(3, Data, Some("\n"))
  {
    var s := TwoMarkers;
    TwoMarkersNewlines();
    TwoMarkersScan();
    assert InterpolateFrom(s, 8, 3, 1) == [Token(3, Data, Some(s[8..]))];
    assert s[8..] == "\n";
    UnfoldMatch(s, 4, 2, 1, Match(4, 7));
    assert s[4..4] == [];
    assert |InterpolateFrom(s, 4, 2, 1)| == 7;
    UnfoldMatch(s, 0, 1, 1, Match(0, 3));
    assert s[0..0] == [];
  }

  /** The text of the stream filter test template. */
  const FooBarBaz: string := "Foo _(bar) Baz"

  /** `FooBarBaz` holds no line break. */
  lemma {:induction false} FooBarBazNewlines()
    ensures CountNewlines(FooBarBaz) == 0
  {
    NoBreaks(FooBarBaz);
  }

  /** The scan over `FooBarBaz` finds its one marker at index 4, closed at index 9. */
  lemma {:induction false} FooBarBazMatch()
    ensures Search(FooBarBaz, 0) == Some(Match(4, 9))
  {
    var s := FooBarBaz;
    assert Search(s, 0) == Search(s, 1) == Search(s, 2) == Search(s, 3) == Search(s, 4);
    assert FindClose(s, 6) == Some(9);
  }

  /** Behind the ')' of that marker, the scan finds nothing more. */
  lemma {:induction false} FooBarBazRest()
    ensures Search(FooBarBaz, 10) == None
  {
    var s := FooBarBaz;
    assert Search(s, 10) == Search(s, 11) == Search(s, 12) == Search(s, 13) == None;
  }

  /**
   * Text on a single line with exactly one marker, and text behind it:
   * the text before the marker (if any), the call, and the text behind it,
   * all on the token's own line.
   */
  lemma {:induction false} OneMarker(s: string, lineno: nat, m: Match)
    requires Search(s, 0) == Some(m) && CountNewlines(s) == 0
    requires m.close + 1 < |s| && Search(s, m.close + 1).None?
    ensures Interpolation(Token(lineno, Data, Some(s)))
         == DataIfAny(lineno, s[..m.start]) + GettextCall(lineno, s[m.start + 2..m.close])
            + [Token(lineno, Data, Some(s[m.close + 1..]))]
  {
    UnfoldMatch(s, 0, lineno, 0, m);
    assert s[0..m.start] == s[..m.start];
  }

  /** The pieces of `FooBarBaz` around its marker. */
  lemma {:induction false} FooBarBazPieces()
    ensures FooBarBaz[..4] == "Foo " && FooBarBaz[6..9] == "bar" && FooBarBaz[10..] == " Baz"
  {
  }

  /**
   * The test template `Foo _(bar) Baz` on line 1 becomes the text before
   * the marker, the call `gettext("bar")`, and the text after it, all on
   * line 1.
   */
  lemma {:induction false} FooBarBazInterpolation()
    ensures Interpolation(Token(1, Data, Some(FooBarBaz)))
         == [Token(1, Data, Some("Foo "))] + GettextCall(1, "bar") + [Token(1, Data, Some(" Baz"))]
  {
    FooBarBazNewlines();
    FooBarBazMatch();
    FooBarBazRest();
    FooBarBazPieces();
    OneMarker(FooBarBaz, 1, Match(4, 9));
  }

  /** A Data token followed by another kind of token: the pieces of the first, then the second. */
  lemma {:induction false} FilteredPair(t: Token, u: Token)
    requires t.kind == Data && t.value.Some? && u.kind != Data
    ensures DataHasText([t, u]) && Filtered([t, u]) == Interpolation(t) + [u]
  {
    assert [t, u][..1] == [t];
    assert [t][..0] == [];
    assert Filtered([t]) == Filtered([]) + Expand(t);
    assert Filtered([t, u]) == Filtered([t]) + Expand(u);
  }

  /**
   * Across a stream, line numbers can go down: `TwoMarkers` on line 1 has
   * its trailing Data token stamped on line 3, and the upstream token on
   * line 2 that follows it keeps line 2.
   */
  lemma {:induction false} LinesCanDecrease()
    ensures var out := Filtered([Token(1, Data, Some(TwoMarkers)), Token(2, VariableBegin, None)]);
      |out| == 14 && out[12].lineno == 3 && out[13].lineno == 2
  {
    TwoMarkersInterpolation();
    FilteredPair(Token(1, Data, Some(TwoMarkers)), Token(2, VariableBegin, None));
  }
}
