/** `String.prototype.split` with a non-empty separator, as the preset text
    is cut into passages (`"\n\n"`) and lines (`"\n"`) in src/Main.tsx:318-320. */
module Splitting {
  import opened Base

  /** `sep` occurs in `s` starting at index `k`. */
  predicate OccursAt(s: string, sep: string, k: nat)
  {
    k + |sep| <= |s| && s[k..k + |sep|] == sep
  }

  /** The first index at or after `from` where `sep` occurs. */
  function FindFrom(s: string, sep: string, from: nat): (r: Option<nat>)
    requires |sep| > 0
    ensures r.Some? ==> from <= r.value && OccursAt(s, sep, r.value)
                        && forall k :: from <= k < r.value ==> !OccursAt(s, sep, k)
    ensures r.None? ==> forall k :: from <= k ==> !OccursAt(s, sep, k)
    decreases |s| - from
  {
    if from + |sep| > |s| then None
    else if OccursAt(s, sep, from) then Some(from)
    else FindFrom(s, sep, from + 1)
  }

  /** `s.split(sep)`: the pieces between occurrences, searched left to right. */
  function Split(s: string, sep: string): (parts: seq<string>)
    requires |sep| > 0
    ensures |parts| >= 1
    decreases |s|
  {
    match FindFrom(s, sep, 0)
    case None => [s]
    case Some(k) => [s[..k]] + Split(s[k + |sep|..], sep)
  }

  /** Joining the pieces with the separator gives back the text. */
  lemma {:induction false} SplitJoin(s: string, sep: string)
    requires |sep| > 0
    ensures Join(Split(s, sep), sep) == s
    decreases |s|
  {
    match FindFrom(s, sep, 0)
    case None =>
    case Some(k) =>
      var tail := s[k + |sep|..];
      SplitJoin(tail, sep);
      JoinCons(s[..k], Split(tail, sep), sep);
      CutAround(s, k, |sep|);
  }

  lemma JoinCons(a: string, rest: seq<string>, sep: string)
    requires |rest| > 0
    ensures Join([a] + rest, sep) == a + sep + Join(rest, sep)
  {
    assert ([a] + rest)[1..] == rest;
  }

  lemma CutAround(s: string, k: nat, n: nat)
    requires k + n <= |s|
    ensures s == s[..k] + s[k..k + n] + s[k + n..]
  {
  }

  /** The text before the first occurrence holds no occurrence. */
  lemma BeforeFirstIsFree(s: string, sep: string, k: nat)
    requires |sep| > 0 && FindFrom(s, sep, 0) == Some(k)
    ensures forall m :: !OccursAt(s[..k], sep, m)
  {
    var head := s[..k];
    forall m: nat ensures !OccursAt(head, sep, m) {
      if m + |sep| <= k {
        assert m < k && !OccursAt(s, sep, m);
        assert head[m..m + |sep|] == s[m..m + |sep|];
      }
    }
  }

  /** No piece contains the separator. */
  lemma {:induction false} SplitPartsFree(s: string, sep: string)
    requires |sep| > 0
    ensures forall i, m :: 0 <= i < |Split(s, sep)| ==> !OccursAt(Split(s, sep)[i], sep, m)
    decreases |s|
  {
    match FindFrom(s, sep, 0)
    case None =>
    case Some(k) =>
      var tail := s[k + |sep|..];
      SplitPartsFree(tail, sep);
      BeforeFirstIsFree(s, sep, k);
      var parts := Split(s, sep);
      forall i, m | 0 <= i < |parts| ensures !OccursAt(parts[i], sep, m) {
        if i > 0 { assert parts[i] == Split(tail, sep)[i - 1]; }
      }
  }
}
