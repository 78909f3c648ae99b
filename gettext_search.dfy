/**
 * The marker search of the stream filter: `_gettext_re.search(value, pos)`
 * for the pattern `_\((.*?)\)` compiled with DOTALL, written out without a
 * regular-expression engine. A match starts at the leftmost "_(" at or after
 * `pos` that has a ')' somewhere after it, and the lazy group stops at the
 * first such ')'.
 */
module GettextSearch {
  import opened Wrappers

  /** "_(" starts at index k of s. */
  predicate OpenAt(s: string, k: int)
  {
    0 <= k && k + 1 < |s| && s[k] == '_' && s[k + 1] == '('
  }

  /** The pattern can match starting at index k: "_(" there and a ')' later. */
  predicate MatchesAt(s: string, k: int)
  {
    OpenAt(s, k) && exists j :: k + 2 <= j < |s| && s[j] == ')'
  }

  /** s holds no gettext marker at all. */
  predicate NoMarker(s: string)
  {
    forall k :: 0 <= k < |s| ==> !MatchesAt(s, k)
  }

  /**
   * A match: `start` is `match.start()` (the index of '_'), `close` the index
   * of the closing ')', so `match.end()` is close + 1 and `match.group(1)` is
   * s[start + 2..close].
   */
  datatype Match = Match(start: nat, close: nat)

  /** Index of the first ')' at or after `from`. */
  function FindClose(s: string, from: nat): (r: Option<nat>)
    requires from <= |s|
    ensures r.Some? ==> from <= r.value < |s| && s[r.value] == ')'
    decreases |s| - from
  {
    if from == |s| then None
    else if s[from] == ')' then Some(from)
    else FindClose(s, from + 1)
  }

  /** `FindClose` finds the first ')', and reports none only when there is none. */
  lemma {:induction false} FindCloseIsFirst(s: string, from: nat)
    requires from <= |s|
    ensures FindClose(s, from).Some? ==> forall k :: from <= k < FindClose(s, from).value ==> s[k] != ')'
    ensures FindClose(s, from).None? ==> forall k :: from <= k < |s| ==> s[k] != ')'
    decreases |s| - from
  {
    if from < |s| && s[from] != ')' {
      FindCloseIsFirst(s, from + 1);
    }
  }

  /**
   * `_gettext_re.search(s, pos)`: scan for the first "_(" at or after pos; if
   * a ')' follows it, the match ends at the first one, otherwise there is no
   * match at all.
   */
  function Search(s: string, pos: nat): (r: Option<Match>)
    requires pos <= |s|
    ensures r.Some? ==> pos <= r.value.start && OpenAt(s, r.value.start)
    ensures r.Some? ==> r.value.start + 2 <= r.value.close < |s| && s[r.value.close] == ')'
    decreases |s| - pos
  {
    if pos + 1 >= |s| then None
    else if s[pos] == '_' && s[pos + 1] == '(' then
      match FindClose(s, pos + 2)
      case None => None
      case Some(j) => Some(Match(pos, j))
    else Search(s, pos + 1)
  }

  /**
   * The match `Search` reports is the leftmost one at or after pos and its
   * group holds no ')'; when it reports none, the pattern matches nowhere at
   * or after pos.
   */
  lemma {:induction false} SearchIsLeftmost(s: string, pos: nat)
    requires pos <= |s|
    ensures Search(s, pos).Some? ==> MatchesAt(s, Search(s, pos).value.start)
    ensures Search(s, pos).Some? ==>
      forall k :: Search(s, pos).value.start + 2 <= k < Search(s, pos).value.close ==> s[k] != ')'
    ensures Search(s, pos).Some? ==> forall k :: pos <= k < Search(s, pos).value.start ==> !MatchesAt(s, k)
    ensures Search(s, pos).None? ==> forall k :: pos <= k ==> !MatchesAt(s, k)
    decreases |s| - pos
  {
    if pos + 1 < |s| {
      if s[pos] == '_' && s[pos + 1] == '(' {
        FindCloseIsFirst(s, pos + 2);
      } else {
        SearchIsLeftmost(s, pos + 1);
      }
    }
  }

  /** A match inside a slice of s is a match of s itself. */
  lemma {:induction false} MatchInSlice(s: string, a: nat, b: nat, k: nat)
    requires a <= b <= |s|
    requires MatchesAt(s[a..b], k)
    ensures MatchesAt(s, a + k)
  {
    var t := s[a..b];
    var j :| k + 2 <= j < |t| && t[j] == ')';
    assert s[a + j] == ')';
  }

  /** A slice of s that lies before every match of s holds no marker. */
  lemma {:induction false} NoMarkerInSlice(s: string, a: nat, b: nat)
    requires a <= b <= |s|
    requires forall k :: a <= k < b ==> !MatchesAt(s, k)
    ensures NoMarker(s[a..b])
  {
    forall k | 0 <= k < b - a ensures !MatchesAt(s[a..b], k) {
      if MatchesAt(s[a..b], k) {
        MatchInSlice(s, a, b, k);
      }
    }
  }
}
