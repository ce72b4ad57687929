/**
 The one regular-expression shape the id extractors use, written out as
 explicit predicates instead of a regex engine:

     /(?:alts[0]|alts[1]|…)([c]+)/      with String.prototype.match

 A non-global `match` returns the leftmost match. At one start position
 the alternatives are tried in order, and the greedy `+` takes the longest
 run of characters of class `c`; the group needs at least one character,
 so a prefix followed by a character outside the class (or by nothing)
 does not match there and the search moves on to the next position.
 */
module Patterns {
  import opened Options
  import opened Text

  /**
   The class `\s` of an ECMAScript regular expression: the WhiteSpace and
   LineTerminator code points.
   */
  predicate IsJsWhitespace(c: char) {
    || c == '\t' || c == '\n' || c == '\U{000B}' || c == '\U{000C}' || c == '\r'
    || c == ' ' || c == '\U{00A0}' || c == '\U{1680}'
    || ('\U{2000}' <= c <= '\U{200A}')
    || c == '\U{2028}' || c == '\U{2029}' || c == '\U{202F}' || c == '\U{205F}'
    || c == '\U{3000}' || c == '\U{FEFF}'
  }

  /** Where a match lies: it begins at `at`, and the captured group is s[start..end]. */
  datatype Span = Span(at: nat, start: nat, end: nat)

  /** Alternative `p` matches at `i`, with at least one character for the group. */
  predicate MatchesAt(s: string, i: nat, p: string, ok: char -> bool) {
    HasAt(s, i, p) && i + |p| < |s| && ok(s[i + |p|])
  }

  /** No alternative matches at any position in [from, to). */
  ghost predicate NoMatchBetween(s: string, from: nat, to: nat, alts: seq<string>, ok: char -> bool) {
    forall i: nat, k :: from <= i < to && 0 <= k < |alts| ==> !MatchesAt(s, i, alts[k], ok)
  }

  /** The pattern matches somewhere in `s`. */
  ghost predicate AnyMatch(s: string, alts: seq<string>, ok: char -> bool) {
    exists i: nat, k :: 0 <= k < |alts| && MatchesAt(s, i, alts[k], ok)
  }

  /**
   `sp` is the match the engine reports when it starts at `sp.at`: the
   first alternative that matches there, followed by the longest run of
   class characters.
   */
  ghost predicate IsMatchAt(s: string, alts: seq<string>, ok: char -> bool, sp: Span) {
    && (exists k :: 0 <= k < |alts| && MatchesAt(s, sp.at, alts[k], ok) && sp.start == sp.at + |alts[k]|
                    && forall j :: 0 <= j < k ==> !MatchesAt(s, sp.at, alts[j], ok))
    && sp.start < sp.end <= |s|
    && (forall m :: sp.start <= m < sp.end ==> ok(s[m]))
    && (sp.end == |s| || !ok(s[sp.end]))
  }

  /** `sp` is what a non-global `match` returns: the leftmost match. */
  ghost predicate IsLeftmostMatch(s: string, alts: seq<string>, ok: char -> bool, sp: Span) {
    NoMatchBetween(s, 0, sp.at, alts, ok) && IsMatchAt(s, alts, ok, sp)
  }

  /**
   No alternative can match where the text does not hold its first
   character.
   */
  lemma NoMatchAwayFromFirstChar(s: string, from: nat, to: nat, alts: seq<string>, ok: char -> bool)
    requires from <= to <= |s|
    requires forall k :: 0 <= k < |alts| ==> |alts[k]| > 0
    requires forall i, k :: from <= i < to && 0 <= k < |alts| ==> s[i] != alts[k][0]
    ensures NoMatchBetween(s, from, to, alts, ok)
  {
    forall i: nat, k | from <= i < to && 0 <= k < |alts| ensures !HasAt(s, i, alts[k]) {
      if i + |alts[k]| <= |s| {
        assert s[i..i + |alts[k]|][0] == s[i];
      }
    }
  }

  /**
   The leftmost match in `pre + alts[k] + id + rest`, when `pre` holds no
   first character of an alternative, no earlier alternative matches after
   `pre`, `id` is a run of class characters and `rest` does not continue it.
   */
  lemma MatchOfJoin(pre: string, alts: seq<string>, k: nat, id: string, rest: string, ok: char -> bool)
    requires k < |alts|
    requires forall j :: 0 <= j < |alts| ==> |alts[j]| > 0
    requires forall i, j :: 0 <= i < |pre| && 0 <= j < |alts| ==> pre[i] != alts[j][0]
    requires forall j :: 0 <= j < k ==> !MatchesAt(pre + alts[k] + id + rest, |pre|, alts[j], ok)
    requires |id| > 0 && forall m :: 0 <= m < |id| ==> ok(id[m])
    requires rest == [] || !ok(rest[0])
    ensures IsLeftmostMatch(pre + alts[k] + id + rest, alts, ok,
                            Span(|pre|, |pre| + |alts[k]|, |pre| + |alts[k]| + |id|))
  {
    var s := pre + alts[k] + id + rest;
    var start := |pre| + |alts[k]|;
    assert HasAt(s, |pre|, alts[k]) by {
      assert s == pre + alts[k] + (id + rest);
      HasAtJoin(pre, alts[k], id + rest);
    }
    assert forall m :: 0 <= m < |id| ==> s[start + m] == id[m];
    assert forall m :: start <= m < start + |id| ==> ok(s[m]) by {
      forall m | start <= m < start + |id| ensures ok(s[m]) {
        assert s[m] == id[m - start];
      }
    }
    assert MatchesAt(s, |pre|, alts[k], ok) by {
      assert s[start] == id[0];
    }
    if rest != [] {
      assert s[start + |id|] == rest[0];
    }
    NoMatchAwayFromFirstChar(s, 0, |pre|, alts, ok);
  }

  /** The index of the first alternative, from `k` on, that matches at `i`. */
  function FirstAlternative(s: string, i: nat, alts: seq<string>, ok: char -> bool, k: nat): (r: Option<nat>)
    requires k <= |alts|
    ensures r.Some? ==> k <= r.value < |alts| && MatchesAt(s, i, alts[r.value], ok)
    ensures r.Some? ==> forall j :: k <= j < r.value ==> !MatchesAt(s, i, alts[j], ok)
    ensures r.None? ==> forall j :: k <= j < |alts| ==> !MatchesAt(s, i, alts[j], ok)
    decreases |alts| - k
  {
    if k == |alts| then None
    else if MatchesAt(s, i, alts[k], ok) then Some(k)
    else FirstAlternative(s, i, alts, ok, k + 1)
  }

  /** Where the greedy run of class characters starting at `j` ends. */
  function RunEnd(s: string, j: nat, ok: char -> bool): (e: nat)
    requires j <= |s|
    ensures j <= e <= |s|
    ensures forall m :: j <= m < e ==> ok(s[m])
    ensures e == |s| || !ok(s[e])
    decreases |s| - j
  {
    if j < |s| && ok(s[j]) then RunEnd(s, j + 1, ok) else j
  }

  /** The engine's scan over start positions `i`, `i + 1`, …, `|s|`. */
  function SearchFrom(s: string, i: nat, alts: seq<string>, ok: char -> bool): (r: Option<Span>)
    requires i <= |s|
    ensures r.None? ==> NoMatchBetween(s, i, |s| + 1, alts, ok)
    ensures r.Some? ==> i <= r.value.at && NoMatchBetween(s, i, r.value.at, alts, ok)
    ensures r.Some? ==> IsMatchAt(s, alts, ok, r.value)
    decreases |s| - i
  {
    match FirstAlternative(s, i, alts, ok, 0)
    case Some(k) =>
      var start := i + |alts[k]|;
      Some(Span(i, start, RunEnd(s, start, ok)))
    case None =>
      if i == |s| then None else SearchFrom(s, i + 1, alts, ok)
  }

  /** `s.match(pattern)?.[1] ?? null`: the captured group of the leftmost match. */
  function Capture(s: string, alts: seq<string>, ok: char -> bool): (r: Option<string>)
    ensures r.None? <==> !AnyMatch(s, alts, ok)
    ensures r.Some? ==> exists sp :: IsLeftmostMatch(s, alts, ok, sp) && r.value == s[sp.start..sp.end]
  {
    match SearchFrom(s, 0, alts, ok)
    case None => None
    case Some(sp) => Some(s[sp.start..sp.end])
  }

  /** The leftmost match is unique, so the contract of Capture determines its result. */
  lemma LeftmostMatchUnique(s: string, alts: seq<string>, ok: char -> bool, a: Span, b: Span)
    requires IsLeftmostMatch(s, alts, ok, a) && IsLeftmostMatch(s, alts, ok, b)
    ensures a == b
  {
    var ka :| 0 <= ka < |alts| && MatchesAt(s, a.at, alts[ka], ok) && a.start == a.at + |alts[ka]|
               && forall j :: 0 <= j < ka ==> !MatchesAt(s, a.at, alts[j], ok);
    var kb :| 0 <= kb < |alts| && MatchesAt(s, b.at, alts[kb], ok) && b.start == b.at + |alts[kb]|
               && forall j :: 0 <= j < kb ==> !MatchesAt(s, b.at, alts[j], ok);
    assert a.at == b.at;
    assert ka == kb;
    assert a.end == b.end;
  }
}
