/** `get代表字` (src/Main.tsx:16-24): the representative characters of a
    position, one headword per distinct 反切 (spelling), taken from the first
    entry with that spelling, in order of first appearance. */
module Representatives {
  import opened Base
  import opened FirstOccurrence

  function Spelling(e: DictEntry): Option<string>
  {
    e.spelling
  }

  /** The entries that are the first to carry their spelling, in order. */
  function FirstPerSpelling(es: seq<DictEntry>): seq<DictEntry>
  {
    DedupBy(es, Spelling)
  }

  function Headwords(es: seq<DictEntry>): (hs: seq<string>)
    ensures |hs| == |es| && forall k :: 0 <= k < |es| ==> hs[k] == es[k].headword
  {
    seq(|es|, k requires 0 <= k < |es| => es[k].headword)
  }

  /** The representative characters, as get代表字 returns them. */
  function Representatives(es: seq<DictEntry>): seq<string>
  {
    Headwords(FirstPerSpelling(es))
  }

  /** The loop of get代表字: a Map from 反切 to 字頭 that only the first entry
      with a spelling writes to; `order` is the Map's insertion order, which
      `by反切.values()` follows. */
  method GetRepresentatives(sv: Services, p: Position) returns (reps: seq<string>)
    ensures reps == Representatives(sv.queryPosition(p))
  {
    var es := sv.queryPosition(p);
    var byFanqie: map<Option<string>, string> := map[];
    var order: seq<Option<string>> := [];
    for i := 0 to |es|
      invariant var d := DedupBy(es[..i], Spelling);
                |order| == |d| && byFanqie.Keys == KeySet(d, Spelling)
                && forall k :: 0 <= k < |d| ==> order[k] == d[k].spelling && order[k] in byFanqie
                                                && byFanqie[order[k]] == d[k].headword
    {
      assert es[..i + 1][..i] == es[..i];
      var e := es[i];
      if e.spelling !in byFanqie {
        KeySetAppend(DedupBy(es[..i], Spelling), e, Spelling);
        byFanqie := byFanqie[e.spelling := e.headword];
        order := order + [e.spelling];
      }
    }
    assert es[..|es|] == es;
    reps := seq(|order|, k requires 0 <= k < |order| && order[k] in byFanqie => byFanqie[order[k]]);
  }

  /** The entries kept are exactly the first entry of every spelling, in
      increasing index order, and there is one per distinct spelling. */
  lemma RepresentativesAreFirstPerSpelling(es: seq<DictEntry>)
    ensures FirstPerSpelling(es) == Pick(es, FirstIndices(es, Spelling, |es|))
    ensures |Representatives(es)| == |KeySet(es, Spelling)|
    ensures var d := FirstPerSpelling(es);
            forall i, j :: 0 <= i < j < |d| ==> d[i].spelling != d[j].spelling
  {
    DedupByIsFirstOccurrences(es, Spelling, |es|);
    assert es[..|es|] == es;
    DedupByOnePerKey(es, Spelling);
    DedupByDistinct(es, Spelling);
  }
}
