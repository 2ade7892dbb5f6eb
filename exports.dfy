/** The enumeration exports (src/Main.tsx:356-389): one line per small rhyme
    (音韻地位), the distinct syllables every position derives to, and those
    syllables with the number of positions giving each. */
module Exports {
  import opened Base
  import opened Deriver
  import opened FirstOccurrence
  import opened Representatives

  // ---------------------------------------------------------------------
  // exportAllSmallRhymes

  /** One line of the small-rhyme export: the position's description, every
      scheme's reading joined with " / ", and the representative characters. */
  datatype SmallRhyme = SmallRhyme(description: string, readings: string, representatives: string)

  /** `代表字s[0]`: undefined, like a null headword, when the position has no entry. */
  function FirstOf(reps: seq<string>): Option<string>
  {
    if |reps| == 0 then None else Some(reps[0])
  }

  /** The headword of the first dictionary entry of a position, if any. */
  function FirstHeadword(es: seq<DictEntry>): Option<string>
  {
    if |es| == 0 then None else Some(es[0].headword)
  }

  function SmallRhymeOf(sv: Services, schemes: seq<Scheme>, p: Position): Result<SmallRhyme, Failure>
  {
    var reps := Representatives.Representatives(sv.queryPosition(p));
    match CallDeriver(schemes, p, FirstOf(reps), sv.describe)
    case Err(f) => Err(f)
    case Ok(v) => Ok(SmallRhyme(sv.describe(p), Join(v, " / "), Join(reps, "")))
  }

  function SmallRhymeWith(sv: Services, schemes: seq<Scheme>): Position -> Result<SmallRhyme, Failure>
  {
    (p: Position) => SmallRhymeOf(sv, schemes, p)
  }

  /** `exportAllSmallRhymes`: a line per position, in store order. */
  function AllSmallRhymes(sv: Services, schemes: seq<Scheme>): Result<seq<SmallRhyme>, Failure>
  {
    TryMap(sv.allPositions, SmallRhymeWith(sv, schemes))
  }

  /** The character a small rhyme is derived with is the headword of the
      position's first entry: that entry always opens the first spelling. */
  lemma FirstRepresentative(es: seq<DictEntry>)
    ensures FirstOf(Representatives.Representatives(es)) == FirstHeadword(es)
  {
    if |es| > 0 {
      RepresentativesAreFirstPerSpelling(es);
      var ix := FirstIndices(es, Spelling, |es|);
      assert IsFirst(es, Spelling, 0);
      assert 0 in ix;
      assert ix[0] == 0 by {
        var m :| 0 <= m < |ix| && ix[m] == 0;
        assert ix[0] <= ix[m];
      }
    }
  }

  /** What a small-rhyme line says about its position. */
  predicate DescribesRhyme(sv: Services, schemes: seq<Scheme>, p: Position, line: SmallRhyme)
  {
    var h := FirstHeadword(sv.queryPosition(p));
    && line.description == sv.describe(p)
    && line.representatives == Join(Representatives.Representatives(sv.queryPosition(p)), "")
    && CallDeriver(schemes, p, h, sv.describe).Ok?
    && line.readings == Join(CallDeriver(schemes, p, h, sv.describe).value, " / ")
  }

  /** The line of one position, or the throw of its derivation with the
      headword of its first entry. */
  lemma SmallRhymeOfPosition(sv: Services, schemes: seq<Scheme>, p: Position)
    ensures var r := SmallRhymeOf(sv, schemes, p);
            && (r.Ok? ==> DescribesRhyme(sv, schemes, p, r.value))
            && (r.Err? ==> CallDeriver(schemes, p, FirstHeadword(sv.queryPosition(p)), sv.describe) == Err(r.error))
  {
    FirstRepresentative(sv.queryPosition(p));
  }

  /** Every position gets its line, in order, derived with the headword of
      its first entry (or none); otherwise the first position whose
      derivation throws decides the failure. */
  lemma SmallRhymeLines(sv: Services, schemes: seq<Scheme>)
    ensures var r := AllSmallRhymes(sv, schemes);
            var ps := sv.allPositions;
            && (r.Ok? ==> |r.value| == |ps| && forall k :: 0 <= k < |ps| ==> DescribesRhyme(sv, schemes, ps[k], r.value[k]))
            && (r.Err? ==>
                  exists k :: (0 <= k < |ps|
                    && CallDeriver(schemes, ps[k], FirstHeadword(sv.queryPosition(ps[k])), sv.describe) == Err(r.error)
                    && forall j :: 0 <= j < k ==> SmallRhymeOf(sv, schemes, ps[j]).Ok?))
  {
    var ps := sv.allPositions;
    var r := AllSmallRhymes(sv, schemes);
    forall k | 0 <= k < |ps|
      ensures SmallRhymeWith(sv, schemes)(ps[k]) == SmallRhymeOf(sv, schemes, ps[k])
    {
    }
    if r.Ok? {
      forall k | 0 <= k < |ps| ensures DescribesRhyme(sv, schemes, ps[k], r.value[k]) {
        SmallRhymeOfPosition(sv, schemes, ps[k]);
      }
    } else {
      var k :| 0 <= k < |ps| && SmallRhymeWith(sv, schemes)(ps[k]) == Err(r.error)
               && forall j :: 0 <= j < k ==> SmallRhymeWith(sv, schemes)(ps[j]).Ok?;
      SmallRhymeOfPosition(sv, schemes, ps[k]);
    }
  }

  // ---------------------------------------------------------------------
  // exportAllSyllables

  function Identity(s: string): string
  {
    s
  }

  /** `callDeriver(音韻地位, null).join(" / ")`. */
  function SyllableOf(sv: Services, schemes: seq<Scheme>, p: Position): Result<string, Failure>
  {
    match CallDeriver(schemes, p, None, sv.describe)
    case Err(f) => Err(f)
    case Ok(v) => Ok(Join(v, " / "))
  }

  function SyllableWith(sv: Services, schemes: seq<Scheme>): Position -> Result<string, Failure>
  {
    (p: Position) => SyllableOf(sv, schemes, p)
  }

  /** The syllable of every position, in store order. */
  function DerivedSyllables(sv: Services, schemes: seq<Scheme>): Result<seq<string>, Failure>
  {
    TryMap(sv.allPositions, SyllableWith(sv, schemes))
  }

  /** `exportAllSyllables`: `Array.from(new Set(...))` of the syllables. */
  function AllSyllables(sv: Services, schemes: seq<Scheme>): Result<seq<string>, Failure>
  {
    match DerivedSyllables(sv, schemes)
    case Err(f) => Err(f)
    case Ok(ss) => Ok(DedupBy(ss, Identity))
  }

  lemma InIdentityKeys(xs: seq<string>, s: string)
    ensures s in KeySet(xs, Identity) <==> s in xs
  {
    if s in xs {
      var i :| 0 <= i < |xs| && xs[i] == s;
      assert Identity(xs[i]) in KeySet(xs, Identity);
    }
  }

  /** A string is a derived syllable exactly when some position derives to it. */
  lemma DerivedSyllableOf(sv: Services, schemes: seq<Scheme>, s: string)
    requires DerivedSyllables(sv, schemes).Ok?
    ensures var ps := sv.allPositions;
            s in DerivedSyllables(sv, schemes).value <==> exists k :: 0 <= k < |ps| && SyllableOf(sv, schemes, ps[k]) == Ok(s)
  {
    var ps := sv.allPositions;
    var ss := DerivedSyllables(sv, schemes).value;
    if s in ss {
      var k :| 0 <= k < |ss| && ss[k] == s;
      assert SyllableWith(sv, schemes)(ps[k]) == Ok(ss[k]);
    }
    if exists k :: 0 <= k < |ps| && SyllableOf(sv, schemes, ps[k]) == Ok(s) {
      var k :| 0 <= k < |ps| && SyllableOf(sv, schemes, ps[k]) == Ok(s);
      assert SyllableWith(sv, schemes)(ps[k]) == Ok(ss[k]);
    }
  }

  /** The exported syllables are pairwise distinct, are exactly the
      syllables some position derives to, and come in order of first
      appearance over the positions. */
  lemma AllSyllablesDistinct(sv: Services, schemes: seq<Scheme>)
    ensures var r := AllSyllables(sv, schemes);
            var ps := sv.allPositions;
            r.Ok? ==>
              && (forall i, j :: 0 <= i < j < |r.value| ==> r.value[i] != r.value[j])
              && (forall s :: s in r.value <==> exists k :: 0 <= k < |ps| && SyllableOf(sv, schemes, ps[k]) == Ok(s))
              && r.value == Pick(DerivedSyllables(sv, schemes).value, FirstIndices(DerivedSyllables(sv, schemes).value, Identity, |ps|))
    ensures AllSyllables(sv, schemes).Err? <==> DerivedSyllables(sv, schemes).Err?
  {
    var ps := sv.allPositions;
    var d := DerivedSyllables(sv, schemes);
    if d.Ok? {
      var ss := d.value;
      var out := DedupBy(ss, Identity);
      DedupByDistinct(ss, Identity);
      DedupByKeys(ss, Identity);
      DedupByIsFirstOccurrences(ss, Identity, |ss|);
      assert ss[..|ss|] == ss;
      forall s ensures s in out <==> exists k :: 0 <= k < |ps| && SyllableOf(sv, schemes, ps[k]) == Ok(s) {
        InIdentityKeys(out, s);
        InIdentityKeys(ss, s);
        DerivedSyllableOf(sv, schemes, s);
      }
    }
  }

  // ---------------------------------------------------------------------
  // exportAllSyllablesWithCount

  /** An entry of the counting Map: a syllable and how often it was seen. */
  datatype Counted = Counted(syllable: string, count: nat)

  /** Where `x` sits among the counted syllables, if it is there. */
  function FindSyllable(t: seq<Counted>, x: string): (r: Option<nat>)
    ensures r.Some? ==> r.value < |t| && t[r.value].syllable == x
    ensures r.None? ==> forall j :: 0 <= j < |t| ==> t[j].syllable != x
    decreases |t|
  {
    if |t| == 0 then None
    else
      match FindSyllable(t[..|t| - 1], x)
      case Some(j) => Some(j)
      case None => if t[|t| - 1].syllable == x then Some(|t| - 1) else None
  }

  /** `counter.set(x, -~counter.get(x))`: a seen syllable counts one more, a
      new one is added at the end of the Map with count 1. */
  function Bump(t: seq<Counted>, x: string): seq<Counted>
  {
    match FindSyllable(t, x)
    case Some(j) => t[j := Counted(x, t[j].count + 1)]
    case None => t + [Counted(x, 1)]
  }

  /** The Map the `reduce` leaves, in insertion order. */
  function Tally(xs: seq<string>): seq<Counted>
    decreases |xs|
  {
    if |xs| == 0 then [] else Bump(Tally(xs[..|xs| - 1]), xs[|xs| - 1])
  }

  function KeysOf(t: seq<Counted>): (ks: seq<string>)
    ensures |ks| == |t| && forall j :: 0 <= j < |t| ==> ks[j] == t[j].syllable
  {
    seq(|t|, j requires 0 <= j < |t| => t[j].syllable)
  }

  function Total(t: seq<Counted>): nat
    decreases |t|
  {
    if |t| == 0 then 0 else t[0].count + Total(t[1..])
  }

  /** The counted syllables are the syllables in order of first appearance. */
  lemma {:induction false} TallyOrder(xs: seq<string>)
    ensures KeysOf(Tally(xs)) == DedupBy(xs, Identity)
    decreases |xs|
  {
    if |xs| > 0 {
      var init, x := xs[..|xs| - 1], xs[|xs| - 1];
      TallyOrder(init);
      var t := Tally(init);
      var d := DedupBy(init, Identity);
      assert x in KeySet(d, Identity) <==> FindSyllable(t, x).Some? by {
        if x in KeySet(d, Identity) {
          var i :| 0 <= i < |d| && Identity(d[i]) == x;
          assert t[i].syllable == x;
        }
        if FindSyllable(t, x).Some? {
          var j := FindSyllable(t, x).value;
          assert Identity(d[j]) == x;
        }
      }
      match FindSyllable(t, x)
      case Some(j) =>
        assert KeysOf(Bump(t, x)) == KeysOf(t);
      case None =>
        assert KeysOf(Bump(t, x)) == KeysOf(t) + [x];
    }
  }

  /** Counting one more syllable bumps the tally of the ones before it. */
  lemma TallySnoc(xs: seq<string>, x: string)
    ensures Tally(xs + [x]) == Bump(Tally(xs), x)
  {
    assert (xs + [x])[..|xs|] == xs;
  }

  /** Each syllable is counted once, and exactly the syllables seen are counted. */
  lemma TallyShape(xs: seq<string>)
    ensures var t := Tally(xs);
            && (forall i, j :: 0 <= i < j < |t| ==> t[i].syllable != t[j].syllable)
            && (forall x :: x in xs <==> x in KeysOf(t))
  {
    var t := Tally(xs);
    TallyOrder(xs);
    DedupByDistinct(xs, Identity);
    DedupByKeys(xs, Identity);
    forall x ensures x in xs <==> x in KeysOf(t) {
      InIdentityKeys(xs, x);
      InIdentityKeys(KeysOf(t), x);
    }
  }

  /** Each count is the number of times its syllable occurs. */
  lemma {:induction false} TallyOccurrences(xs: seq<string>)
    ensures var t := Tally(xs);
            forall j :: 0 <= j < |t| ==> t[j].count == multiset(xs)[t[j].syllable]
    decreases |xs|
  {
    if |xs| > 0 {
      var init, x := xs[..|xs| - 1], xs[|xs| - 1];
      assert xs == init + [x];
      TallyOccurrences(init);
      TallyShape(init);
      var t0 := Tally(init);
      var t := Tally(xs);
      assert multiset(xs) == multiset(init) + multiset{x};
      match FindSyllable(t0, x)
      case Some(j) =>
        assert t == t0[j := Counted(x, t0[j].count + 1)];
        forall k | 0 <= k < |t| ensures t[k].count == multiset(xs)[t[k].syllable] {
          if k < j {
            assert t0[k].syllable != t0[j].syllable;
          } else if k > j {
            assert t0[j].syllable != t0[k].syllable;
          }
        }
      case None =>
        assert t == t0 + [Counted(x, 1)];
        assert x !in KeysOf(t0);
        assert x !in init;
        forall k | 0 <= k < |t| ensures t[k].count == multiset(xs)[t[k].syllable] {
          if k < |t0| { assert t[k] == t0[k] && t0[k].syllable != x; }
        }
    }
  }

  /** Each syllable is counted once, with the number of times it occurs; so
      every count is at least 1. */
  lemma TallyCounts(xs: seq<string>)
    ensures var t := Tally(xs);
            && (forall i, j :: 0 <= i < j < |t| ==> t[i].syllable != t[j].syllable)
            && (forall x :: x in xs <==> x in KeysOf(t))
            && forall j :: 0 <= j < |t| ==> t[j].count == multiset(xs)[t[j].syllable] && t[j].count >= 1
  {
    var t := Tally(xs);
    TallyShape(xs);
    TallyOccurrences(xs);
    forall j | 0 <= j < |t| ensures t[j].count >= 1 {
      var y := t[j].syllable;
      assert KeysOf(t)[j] == y;
      assert y in KeysOf(t);
      assert y in xs;
      assert y in multiset(xs);
    }
  }

  lemma TotalCons(c: Counted, t: seq<Counted>)
    ensures Total([c] + t) == c.count + Total(t)
  {
    assert ([c] + t)[1..] == t;
  }

  lemma {:induction false} TotalAppend(t: seq<Counted>, c: Counted)
    ensures Total(t + [c]) == Total(t) + c.count
    decreases |t|
  {
    if |t| > 0 {
      assert (t + [c])[1..] == t[1..] + [c];
      TotalAppend(t[1..], c);
    }
  }

  lemma {:induction false} TotalUpdate(t: seq<Counted>, j: nat, c: Counted)
    requires j < |t|
    ensures Total(t[j := c]) == Total(t) - t[j].count + c.count
    decreases |t|
  {
    if j == 0 {
      assert t[j := c][1..] == t[1..];
    } else {
      assert t[j := c][1..] == t[1..][j - 1 := c];
      TotalUpdate(t[1..], j - 1, c);
    }
  }

  /** The counts add up to the number of syllables counted. */
  lemma {:induction false} TallyTotal(xs: seq<string>)
    ensures Total(Tally(xs)) == |xs|
    decreases |xs|
  {
    if |xs| > 0 {
      var init, x := xs[..|xs| - 1], xs[|xs| - 1];
      TallyTotal(init);
      var t := Tally(init);
      match FindSyllable(t, x)
      case Some(j) => TotalUpdate(t, j, Counted(x, t[j].count + 1));
      case None => TotalAppend(t, Counted(x, 1));
    }
  }

  /** Places `c` before the first entry counted no more often: the step of a
      stable sort on `(a, b) => b[1] - a[1]`. */
  function Insert(c: Counted, t: seq<Counted>): seq<Counted>
    decreases |t|
  {
    if |t| == 0 || c.count >= t[0].count then [c] + t else [t[0]] + Insert(c, t[1..])
  }

  /** `.sort((a, b) => b[1] - a[1])`; Array.prototype.sort is stable. */
  function SortByCount(t: seq<Counted>): seq<Counted>
    decreases |t|
  {
    if |t| == 0 then [] else Insert(t[0], SortByCount(t[1..]))
  }

  predicate Descending(t: seq<Counted>)
  {
    forall a, b :: 0 <= a < b < |t| ==> t[a].count >= t[b].count
  }

  /** The entries with count `n`, in their order. */
  function WithCount(t: seq<Counted>, n: nat): seq<Counted>
    decreases |t|
  {
    if |t| == 0 then [] else (if t[0].count == n then [t[0]] else []) + WithCount(t[1..], n)
  }

  lemma WithCountCons(c: Counted, t: seq<Counted>, n: nat)
    ensures WithCount([c] + t, n) == (if c.count == n then [c] else []) + WithCount(t, n)
  {
    assert ([c] + t)[1..] == t;
  }

  lemma {:induction false} InsertPermutes(c: Counted, t: seq<Counted>)
    ensures multiset(Insert(c, t)) == multiset([c] + t)
    ensures Total(Insert(c, t)) == c.count + Total(t)
    decreases |t|
  {
    TotalCons(c, t);
    if |t| > 0 && c.count < t[0].count {
      InsertPermutes(c, t[1..]);
      TotalCons(t[0], Insert(c, t[1..]));
      TotalCons(t[0], t[1..]);
      assert t == [t[0]] + t[1..];
    }
  }

  predicate AllAtMost(t: seq<Counted>, m: nat)
  {
    forall k :: 0 <= k < |t| ==> t[k].count <= m
  }

  lemma {:induction false} InsertAtMost(c: Counted, t: seq<Counted>, m: nat)
    requires AllAtMost(t, m) && c.count <= m
    ensures AllAtMost(Insert(c, t), m)
    decreases |t|
  {
    if |t| > 0 && c.count < t[0].count {
      InsertAtMost(c, t[1..], m);
      var ins := [t[0]] + Insert(c, t[1..]);
      forall k | 0 < k < |ins| ensures ins[k].count <= m {
        assert ins[k] == Insert(c, t[1..])[k - 1];
      }
    }
  }

  lemma ConsDescending(x: Counted, t: seq<Counted>)
    requires Descending(t) && AllAtMost(t, x.count)
    ensures Descending([x] + t)
  {
    var xt := [x] + t;
    forall a, b | 0 <= a < b < |xt| ensures xt[a].count >= xt[b].count {
      assert xt[b] == t[b - 1];
      if a > 0 { assert xt[a] == t[a - 1]; }
    }
  }

  lemma {:induction false} InsertDescending(c: Counted, t: seq<Counted>)
    requires Descending(t)
    ensures Descending(Insert(c, t))
    decreases |t|
  {
    if |t| == 0 || c.count >= t[0].count {
      ConsDescending(c, t);
    } else {
      var rest := t[1..];
      assert Descending(rest) by {
        forall a, b | 0 <= a < b < |rest| ensures rest[a].count >= rest[b].count {
          assert rest[a] == t[a + 1] && rest[b] == t[b + 1];
        }
      }
      assert AllAtMost(rest, t[0].count) by {
        forall k | 0 <= k < |rest| ensures rest[k].count <= t[0].count {
          assert rest[k] == t[k + 1];
        }
      }
      InsertDescending(c, rest);
      InsertAtMost(c, rest, t[0].count);
      ConsDescending(t[0], Insert(c, rest));
    }
  }

  lemma {:induction false} InsertKeepsTies(c: Counted, t: seq<Counted>, n: nat)
    requires Descending(t)
    ensures WithCount(Insert(c, t), n) == WithCount([c] + t, n)
    decreases |t|
  {
    if |t| > 0 && c.count < t[0].count {
      var rest := t[1..];
      InsertKeepsTies(c, rest, n);
      WithCountCons(t[0], Insert(c, rest), n);
      WithCountCons(c, rest, n);
      WithCountCons(c, t, n);
      WithCountCons(t[0], rest, n);
      assert t == [t[0]] + rest;
    }
  }

  /** The sort orders by non-increasing count, is a permutation, keeps the
      total, and keeps entries with equal counts in their order. */
  lemma {:induction false} SortByCountCorrect(t: seq<Counted>)
    ensures Descending(SortByCount(t))
    ensures multiset(SortByCount(t)) == multiset(t)
    ensures Total(SortByCount(t)) == Total(t)
    ensures forall n :: WithCount(SortByCount(t), n) == WithCount(t, n)
    decreases |t|
  {
    if |t| > 0 {
      var s := SortByCount(t[1..]);
      SortByCountCorrect(t[1..]);
      InsertDescending(t[0], s);
      InsertPermutes(t[0], s);
      TotalCons(t[0], t[1..]);
      assert t == [t[0]] + t[1..];
      forall n ensures WithCount(SortByCount(t), n) == WithCount(t, n) {
        InsertKeepsTies(t[0], s, n);
        WithCountCons(t[0], s, n);
        WithCountCons(t[0], t[1..], n);
      }
    }
  }

  /** `exportAllSyllablesWithCount` before rendering: the counted syllables,
      most frequent first. */
  function SyllableCounts(sv: Services, schemes: seq<Scheme>): Result<seq<Counted>, Failure>
  {
    match DerivedSyllables(sv, schemes)
    case Err(f) => Err(f)
    case Ok(ss) => Ok(SortByCount(Tally(ss)))
  }

  /** The sorted tally of `ss`: its counts add up to `|ss|` and are all at
      least 1; it is most frequent first, a permutation of the tally, and
      keeps syllables with equal counts in order of first appearance. */
  lemma SortedTallyMeaning(ss: seq<string>)
    ensures var t := Tally(ss);
            var r := SortByCount(t);
            && Total(r) == |ss|
            && (forall j :: 0 <= j < |r| ==> r[j].count >= 1)
            && Descending(r)
            && multiset(r) == multiset(t)
            && KeysOf(t) == DedupBy(ss, Identity)
            && forall n :: WithCount(r, n) == WithCount(t, n)
  {
    var t := Tally(ss);
    var r := SortByCount(t);
    SortByCountCorrect(t);
    TallyTotal(ss);
    TallyCounts(ss);
    TallyOrder(ss);
    forall j | 0 <= j < |r| ensures r[j].count >= 1 {
      assert r[j] in multiset(t);
      var k :| 0 <= k < |t| && t[k] == r[j];
    }
  }

  /** The counts add up to the number of positions and are all at least 1;
      the list is most frequent first, and syllables with equal counts stay
      in order of first appearance. */
  lemma SyllableCountsMeaning(sv: Services, schemes: seq<Scheme>)
    ensures var r := SyllableCounts(sv, schemes);
            var d := DerivedSyllables(sv, schemes);
            r.Ok? ==>
              && d.Ok?
              && Total(r.value) == |sv.allPositions|
              && (forall j :: 0 <= j < |r.value| ==> r.value[j].count >= 1)
              && Descending(r.value)
              && multiset(r.value) == multiset(Tally(d.value))
              && KeysOf(Tally(d.value)) == DedupBy(d.value, Identity)
              && forall n :: WithCount(r.value, n) == WithCount(Tally(d.value), n)
    ensures SyllableCounts(sv, schemes).Err? <==> DerivedSyllables(sv, schemes).Err?
  {
    var d := DerivedSyllables(sv, schemes);
    if d.Ok? {
      SortedTallyMeaning(d.value);
    }
  }

  /** The JavaScript Map of the `reduce`, as its insertion order `keys` and
      its contents `counter`, mirrors the tally `t`. */
  predicate Mirrors(keys: seq<string>, counter: map<string, nat>, t: seq<Counted>)
  {
    && |keys| == |t|
    && (forall j :: 0 <= j < |t| ==> keys[j] == t[j].syllable && keys[j] in counter && counter[keys[j]] == t[j].count)
    && (forall k :: k in counter ==> k in keys)
    && (forall a, b :: 0 <= a < b < |keys| ==> keys[a] != keys[b])
  }

  /** The Map's entries, in insertion order, are the tally. */
  lemma MirroredEntries(keys: seq<string>, counter: map<string, nat>, t: seq<Counted>)
    requires Mirrors(keys, counter, t)
    ensures seq(|keys|, j requires 0 <= j < |keys| && keys[j] in counter => Counted(keys[j], counter[keys[j]])) == t
  {
  }

  /** One `counter.set(擬音, -~counter.get(擬音))`. */
  method CountOne(keys: seq<string>, counter: map<string, nat>, x: string, ghost t: seq<Counted>)
    returns (keys': seq<string>, counter': map<string, nat>)
    requires Mirrors(keys, counter, t)
    ensures Mirrors(keys', counter', Bump(t, x))
  {
    var found := FindSyllable(t, x);
    if x in counter {
      var i :| 0 <= i < |keys| && keys[i] == x;
      assert t[i].syllable == x;
      assert found.value == i;
      counter' := counter[x := counter[x] + 1];  // -~n is n + 1
      keys' := keys;
    } else {
      assert forall j :: 0 <= j < |keys| ==> keys[j] != x;
      counter' := counter[x := 1];  // -~undefined is 1
      keys' := keys + [x];
    }
  }

  /** The first `|ss|` positions derive to the syllables `ss`. */
  predicate DerivesTo(sv: Services, schemes: seq<Scheme>, ss: seq<string>)
  {
    |ss| <= |sv.allPositions| && forall j :: 0 <= j < |ss| ==> SyllableOf(sv, schemes, sv.allPositions[j]) == Ok(ss[j])
  }

  lemma DerivesToSnoc(sv: Services, schemes: seq<Scheme>, ss: seq<string>, s: string)
    requires DerivesTo(sv, schemes, ss) && |ss| < |sv.allPositions|
    requires SyllableOf(sv, schemes, sv.allPositions[|ss|]) == Ok(s)
    ensures DerivesTo(sv, schemes, ss + [s])
  {
    var ss' := ss + [s];
    forall j | 0 <= j < |ss'| ensures SyllableOf(sv, schemes, sv.allPositions[j]) == Ok(ss'[j]) {
      if j < |ss| { assert ss'[j] == ss[j]; }
    }
  }

  /** The first position whose derivation throws ends the count with that failure. */
  lemma CountingStopsAt(sv: Services, schemes: seq<Scheme>, ss: seq<string>)
    requires |ss| < |sv.allPositions| && SyllableOf(sv, schemes, sv.allPositions[|ss|]).Err?
    requires DerivesTo(sv, schemes, ss)
    ensures SyllableCounts(sv, schemes) == Err(SyllableOf(sv, schemes, sv.allPositions[|ss|]).error)
  {
    forall j | 0 <= j <= |ss| ensures SyllableWith(sv, schemes)(sv.allPositions[j]) == SyllableOf(sv, schemes, sv.allPositions[j]) { }
    TryMapFirstErr(sv.allPositions, SyllableWith(sv, schemes), |ss|);
  }

  /** When every position derives, the count is over all their syllables. */
  lemma CountingCompletes(sv: Services, schemes: seq<Scheme>, ss: seq<string>)
    requires |ss| == |sv.allPositions| && DerivesTo(sv, schemes, ss)
    ensures SyllableCounts(sv, schemes) == Ok(SortByCount(Tally(ss)))
  {
    forall j | 0 <= j < |ss| ensures SyllableWith(sv, schemes)(sv.allPositions[j]) == Ok(ss[j]) { }
    TryMapAllOk(sv.allPositions, SyllableWith(sv, schemes), ss);
  }

  /** One call of the `reduce` callback: the syllable of the next position,
      counted into the Map unless its derivation throws. */
  method CountNext(sv: Services, schemes: seq<Scheme>, i: nat, keys: seq<string>, counter: map<string, nat>, ghost ss: seq<string>)
    returns (s: Result<string, Failure>, keys': seq<string>, counter': map<string, nat>)
    requires i == |ss| < |sv.allPositions| && Mirrors(keys, counter, Tally(ss))
    ensures s == SyllableOf(sv, schemes, sv.allPositions[|ss|])
    ensures s.Ok? ==> Mirrors(keys', counter', Tally(ss + [s.value]))
  {
    s := SyllableOf(sv, schemes, sv.allPositions[i]);
    keys', counter' := keys, counter;
    if s.Ok? {
      keys', counter' := CountOne(keys, counter, s.value, Tally(ss));
      TallySnoc(ss, s.value);
    }
  }

  /** `exportAllSyllablesWithCount` as written: the `reduce` over the
      positions fills the Map, then its entries are sorted by count. */
  method ExportAllSyllablesWithCount(sv: Services, schemes: seq<Scheme>) returns (r: Result<seq<Counted>, Failure>)
    ensures r == SyllableCounts(sv, schemes)
  {
    var keys: seq<string> := [];
    var counter: map<string, nat> := map[];
    ghost var ss: seq<string> := [];
    for i := 0 to |sv.allPositions|
      invariant |ss| == i && DerivesTo(sv, schemes, ss)
      invariant Mirrors(keys, counter, Tally(ss))
    {
      var s;
      s, keys, counter := CountNext(sv, schemes, i, keys, counter, ss);
      if s.Err? {
        CountingStopsAt(sv, schemes, ss);
        return Err(s.error);
      }
      DerivesToSnoc(sv, schemes, ss, s.value);
      ss := ss + [s.value];
    }
    CountingCompletes(sv, schemes, ss);
    var entries := seq(|keys|, j requires 0 <= j < |keys| && keys[j] in counter => Counted(keys[j], counter[keys[j]]));
    MirroredEntries(keys, counter, Tally(ss));
    r := Ok(SortByCount(entries));
  }
}
