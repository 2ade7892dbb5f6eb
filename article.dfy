/** `convertArticle` (src/Main.tsx:257-315): one annotation record per
    character visited, with the character's dictionary entries grouped by
    derived output and an optional inline `(description)` marker that pins a
    position. */
module Article {
  import opened Base
  import opened Deriver
  import opened Grouping

  /** The `<Entry>` element of one character: the character, its groups and
      the preselected group index. */
  datatype Record = Record(ch: char, groups: seq<Group>, preselect: Option<nat>)

  /** `[ch, null].concat(Yitizi.get(ch))`: the headword, the null sentinel,
      then the variants. */
  function Candidates(sv: Services, c: char): seq<Option<string>>
  {
    var vs := sv.variants([c]);
    [Some([c]), None] + seq(|vs|, k requires 0 <= k < |vs| => Some(vs[k]))
  }

  /** The headwords the query loop actually looks up: the character itself,
      then its variants when variant conversion is on or the character has no
      entry of its own. */
  function QueriedHeadwords(sv: Services, c: char, convertVariant: bool): seq<string>
  {
    [[c]] + (if convertVariant || |sv.queryHeadword([c])| == 0 then sv.variants([c]) else [])
  }

  /** Entries found under `h`, recorded with `h` as their 字頭. */
  function Retag(h: string, es: seq<DictEntry>): (r: seq<DictEntry>)
    ensures |r| == |es|
    ensures forall k :: 0 <= k < |es| ==> r[k] == DictEntry(h, es[k].spelling, es[k].gloss, es[k].position)
  {
    seq(|es|, k requires 0 <= k < |es| => DictEntry(h, es[k].spelling, es[k].gloss, es[k].position))
  }

  /** The entries of the headwords `hs`, headword after headword. */
  function Tagged(sv: Services, hs: seq<string>): seq<DictEntry>
    decreases |hs|
  {
    if |hs| == 0 then []
    else Tagged(sv, hs[..|hs| - 1]) + Retag(hs[|hs| - 1], sv.queryHeadword(hs[|hs| - 1]))
  }

  /** The groups of one character after the query loop (lines 265-282). */
  function QueryGroups(sv: Services, schemes: seq<Scheme>, c: char, convertVariant: bool): Result<seq<Group>, Failure>
  {
    GroupAll(schemes, sv.describe, Tagged(sv, QueriedHeadwords(sv, c, convertVariant)))
  }

  lemma {:induction false} TaggedConcat(sv: Services, a: seq<string>, b: seq<string>)
    ensures Tagged(sv, a + b) == Tagged(sv, a) + Tagged(sv, b)
    decreases |b|
  {
    if |b| == 0 {
      assert a + b == a;
    } else {
      TaggedConcat(sv, a, b[..|b| - 1]);
      assert (a + b)[..|a + b| - 1] == a + b[..|b| - 1];
    }
  }

  /** A throw while grouping a prefix of the entries is the result of the whole loop. */
  lemma GroupAllErrPrefix(schemes: seq<Scheme>, describe: Position -> string, a: seq<DictEntry>, b: seq<DictEntry>)
    requires GroupAll(schemes, describe, a).Err?
    ensures GroupAll(schemes, describe, a + b) == GroupAll(schemes, describe, a)
  {
    FoldAppend(schemes, describe, Ok([]), a, b);
    FoldErr(schemes, describe, GroupAll(schemes, describe, a).error, b);
  }

  /** Lines 275-281 for one headword `h`: every entry found under it is
      derived and placed, continuing from the groups `entries0`. */
  method PlaceEntries(sv: Services, schemes: seq<Scheme>, entries0: seq<Group>, h: string)
    returns (r: Result<seq<Group>, Failure>)
    ensures r == Fold(schemes, sv.describe, Ok(entries0), Retag(h, sv.queryHeadword(h)))
  {
    var es := sv.queryHeadword(h);
    ghost var tagged := Retag(h, es);
    var entries := entries0;
    for j := 0 to |es|
      invariant Fold(schemes, sv.describe, Ok(entries0), tagged[..j]) == Ok(entries)
    {
      var e := DictEntry(h, es[j].spelling, es[j].gloss, es[j].position);
      assert tagged[..j + 1][..j] == tagged[..j];
      var derived := CallDeriver(schemes, e.position, Some(h), sv.describe);
      if derived.Err? {
        FoldAppend(schemes, sv.describe, Ok(entries0), tagged[..j + 1], tagged[j + 1..]);
        FoldErr(schemes, sv.describe, derived.error, tagged[j + 1..]);
        assert tagged[..j + 1] + tagged[j + 1..] == tagged;
        return Err(derived.error);
      }
      var found := FindGroup(entries, derived.value);
      if found.Some? {
        entries := entries[found.value := entries[found.value].(members := entries[found.value].members + [e])];
      } else {
        entries := entries + [Group(derived.value, [e])];
      }
    }
    assert tagged[..|es|] == tagged;
    r := Ok(entries);
  }

  /** At the null sentinel the groups so far are those of the character
      itself, and they are empty exactly when it has no entry. */
  lemma SentinelSeesOwnEntries(sv: Services, schemes: seq<Scheme>, c: char, entries: seq<Group>)
    requires GroupAll(schemes, sv.describe, Tagged(sv, [[c]])) == Ok(entries)
    ensures |entries| == 0 <==> |sv.queryHeadword([c])| == 0
  {
    assert [[c]][..0] == [];
    GroupAllCorrect(schemes, sv.describe, Tagged(sv, [[c]]));
  }

  /** Looking up one more headword `h` continues the grouping of the ones
      before it; a throw there is the result of the whole query loop, whatever
      headwords `rest` were still to come. */
  lemma HeadwordStep(sv: Services, schemes: seq<Scheme>, done: seq<string>, h: string, rest: seq<string>,
                     entries: seq<Group>, placed: Result<seq<Group>, Failure>)
    requires GroupAll(schemes, sv.describe, Tagged(sv, done)) == Ok(entries)
    requires placed == Fold(schemes, sv.describe, Ok(entries), Retag(h, sv.queryHeadword(h)))
    ensures placed.Ok? ==> GroupAll(schemes, sv.describe, Tagged(sv, done + [h])) == placed
    ensures placed.Err? ==> GroupAll(schemes, sv.describe, Tagged(sv, done + [h] + rest)) == placed
  {
    var tagged := Retag(h, sv.queryHeadword(h));
    FoldAppend(schemes, sv.describe, Ok([]), Tagged(sv, done), tagged);
    assert (done + [h])[..|done|] == done;
    assert Tagged(sv, done + [h]) == Tagged(sv, done) + tagged;
    if placed.Err? {
      TaggedConcat(sv, done + [h], rest);
      GroupAllErrPrefix(schemes, sv.describe, Tagged(sv, done) + tagged, Tagged(sv, rest));
    }
  }

  /** The headwords looked up before candidate `k`. */
  function Consumed(sv: Services, c: char, k: nat): seq<string>
  {
    var vs := sv.variants([c]);
    if k == 0 then [] else [[c]] + vs[..if 2 <= k <= |vs| + 2 then k - 2 else 0]
  }

  /** The headwords still to be looked up after candidate `k`. */
  function Pending(sv: Services, c: char, convertVariant: bool, k: nat): seq<string>
  {
    var vs := sv.variants([c]);
    if k == 0 then (if convertVariant || |sv.queryHeadword([c])| == 0 then vs else [])
    else if k - 1 <= |vs| then vs[k - 1..] else []
  }

  /** Candidate `k` is the next headword looked up, after `Consumed` and
      before `Pending`. */
  lemma CandidateStep(sv: Services, c: char, convertVariant: bool, k: nat)
    requires k < |Candidates(sv, c)| && Candidates(sv, c)[k].Some?
    requires k >= 2 ==> convertVariant || |sv.queryHeadword([c])| == 0
    ensures var h := Candidates(sv, c)[k].value;
            Consumed(sv, c, k) + [h] == Consumed(sv, c, k + 1)
            && QueriedHeadwords(sv, c, convertVariant) == Consumed(sv, c, k) + [h] + Pending(sv, c, convertVariant, k)
  {
    var vs := sv.variants([c]);
    var h := Candidates(sv, c)[k].value;
    if k == 0 {
      assert h == [c] && vs[..0] == [];
    } else {
      assert h == vs[k - 2];
      assert vs[..k - 1] == vs[..k - 2] + [vs[k - 2]];
      assert vs == vs[..k - 2] + [vs[k - 2]] + vs[k - 1..];
    }
  }

  /** When the candidates run out, every queried headword was looked up. */
  lemma CandidatesDone(sv: Services, c: char, convertVariant: bool)
    requires convertVariant || |sv.queryHeadword([c])| == 0
    ensures Consumed(sv, c, |Candidates(sv, c)|) == QueriedHeadwords(sv, c, convertVariant)
  {
    var vs := sv.variants([c]);
    assert vs[..|vs|] == vs;
  }

  /** The query loop (lines 265-282) as written: the null sentinel continues
      into the variants when variant conversion is on or nothing was found,
      and otherwise breaks. */
  method CollectGroups(sv: Services, schemes: seq<Scheme>, convertVariant: bool, c: char)
    returns (r: Result<seq<Group>, Failure>)
    ensures r == QueryGroups(sv, schemes, c, convertVariant)
  {
    var candidates := Candidates(sv, c);
    var entries: seq<Group> := [];
    var k := 0;
    while k < |candidates|
      invariant 0 <= k <= |candidates|
      invariant k >= 2 ==> convertVariant || |sv.queryHeadword([c])| == 0
      invariant GroupAll(schemes, sv.describe, Tagged(sv, Consumed(sv, c, k))) == Ok(entries)
    {
      if candidates[k].None? {
        assert k == 1 && Consumed(sv, c, k) == [[c]];
        SentinelSeesOwnEntries(sv, schemes, c, entries);
        if convertVariant || |entries| == 0 {
          assert Consumed(sv, c, k + 1) == [[c]];
          k := k + 1;
          continue;
        } else {
          assert QueriedHeadwords(sv, c, convertVariant) == [[c]];
          return Ok(entries);
        }
      }
      var h := candidates[k].value;
      CandidateStep(sv, c, convertVariant, k);
      var placed := PlaceEntries(sv, schemes, entries, h);
      HeadwordStep(sv, schemes, Consumed(sv, c, k), h, Pending(sv, c, convertVariant, k), entries, placed);
      if placed.Err? {
        return placed;
      }
      entries := placed.value;
      k := k + 1;
    }
    CandidatesDone(sv, c, convertVariant);
    r := Ok(entries);
  }

  /** What the scan for `)` finds after a character. */
  datatype Marker =
    | NoParen                 // chs[i + 1] is not "("
    | Unclosed(stop: nat)     // no ")" up to index i + 8: the scan stopped at `stop`
    | Closed(close: nat)      // the first ")" in the window, at index `close`

  /** `while (iLast <= i + 8 && iLast < chs.length && chs[iLast] !== ")") iLast++`
      started at `j`: where it stops. */
  function ScanStop(chs: seq<char>, i: nat, j: nat): (k: nat)
    requires j <= i + 9
    ensures j <= k <= i + 9 && (j <= |chs| ==> k <= |chs|)
    ensures forall m :: j <= m < k ==> m < |chs| && chs[m] != ')'
    ensures k <= i + 8 && k < |chs| ==> chs[k] == ')'
    decreases i + 9 - j
  {
    if j <= i + 8 && j < |chs| && chs[j] != ')' then ScanStop(chs, i, j + 1) else j
  }

  /** The marker after `chs[i]` (lines 285-288): "(" at i + 1 and a ")" at most
      at i + 8, so a description of at most 6 characters. */
  function FindMarker(chs: seq<char>, i: nat): Marker
    requires i < |chs|
  {
    if i + 1 < |chs| && chs[i + 1] == '(' then
      var stop := ScanStop(chs, i, i + 2);
      if stop <= i + 8 && stop < |chs| && chs[stop] == ')' then Closed(stop) else Unclosed(stop)
    else NoParen
  }

  /** The scan recognises a marker exactly when "(" follows the character,
      closes it at the first ")" of the window, and otherwise stops at the
      window's end or the text's end. */
  lemma MarkerIsFirstClose(chs: seq<char>, i: nat)
    requires i < |chs|
    ensures var m := FindMarker(chs, i);
            && (m.NoParen? <==> !(i + 1 < |chs| && chs[i + 1] == '('))
            && (m.Closed? ==> chs[i + 1] == '(' && i + 2 <= m.close <= i + 8 && m.close < |chs| && chs[m.close] == ')'
                              && forall k :: i + 2 <= k < m.close ==> chs[k] != ')')
            && (m.Unclosed? ==> chs[i + 1] == '(' && m.stop == (if i + 9 < |chs| then i + 9 else |chs|)
                                && forall k :: i + 2 <= k < m.stop ==> chs[k] != ')')
  {
  }

  /** `entries.findIndex(...)`: the first group holding an entry at position `p`. */
  function FindPosition(gs: seq<Group>, p: Position): (r: Option<nat>)
    ensures r.Some? ==> r.value < |gs| && (exists m :: m in gs[r.value].members && m.position == p)
                        && forall j, m :: 0 <= j < r.value && m in gs[j].members ==> m.position != p
    ensures r.None? ==> forall j, m :: 0 <= j < |gs| && m in gs[j].members ==> m.position != p
    decreases |gs|
  {
    if |gs| == 0 then None
    else if exists m :: m in gs[0].members && m.position == p then Some(0)
    else
      match FindPosition(gs[1..], p)
      case None => None
      case Some(k) => Some(k + 1)
  }

  /** Lines 297-305: select the group holding the pinned position, or derive
      it for the character and append a new singleton group
      `{字頭: ch, 反切: null, 解釋: ""}`. Gives the groups and the index. */
  function Pin(sv: Services, schemes: seq<Scheme>, c: char, gs: seq<Group>, p: Position)
    : Result<(seq<Group>, nat), Failure>
  {
    match FindPosition(gs, p)
    case Some(k) => Ok((gs, k))
    case None =>
      match CallDeriver(schemes, p, Some([c]), sv.describe)
      case Err(f) => Err(f)
      case Ok(v) => Ok((gs + [Group(v, [DictEntry([c], None, "", p)])], |gs|))
  }

  /** The selected group holds an entry at the pinned position; the groups
      are kept, and a singleton group for the character is appended only when
      no group holds that position; only that derivation can fail. */
  lemma PinSelectsPosition(sv: Services, schemes: seq<Scheme>, c: char, gs: seq<Group>, p: Position)
    ensures var r := Pin(sv, schemes, c, gs, p);
            && (r.Ok? ==> r.value.1 < |r.value.0| && exists m :: m in r.value.0[r.value.1].members && m.position == p)
            && (r.Ok? ==> Extends(gs, r.value.0) && |gs| <= |r.value.0| <= |gs| + 1)
            && (r.Ok? && |r.value.0| == |gs| ==> r.value.0 == gs)
            && (r.Ok? && |r.value.0| > |gs| ==>
                  r.value.0 == gs + [r.value.0[|gs|]]
                  && r.value.1 == |gs| && r.value.0[|gs|].members == [DictEntry([c], None, "", p)]
                  && Vector(schemes, sv.describe, DictEntry([c], None, "", p)) == Ok(r.value.0[|gs|].key)
                  && forall j, m :: 0 <= j < |gs| && m in gs[j].members ==> m.position != p)
            && (r.Err? ==> FindPosition(gs, p).None?)
  {
    match FindPosition(gs, p)
    case Some(k) =>
    case None =>
      var r := Pin(sv, schemes, c, gs, p);
      if r.Ok? {
        assert r.value.0[|gs|].members[0] in r.value.0[r.value.1].members;
      }
  }

  /** The record made for `chs[i]`, and `iLast`: the cursor resumes at `iLast + 1`. */
  datatype Step = Step(record: Record, last: nat)

  /** One turn of the outer loop (lines 262-312). */
  function AnnotateChar(sv: Services, schemes: seq<Scheme>, convertVariant: bool, chs: seq<char>, i: nat)
    : Result<Step, Failure>
    requires i < |chs|
  {
    match QueryGroups(sv, schemes, chs[i], convertVariant)
    case Err(f) => Err(f)
    case Ok(gs) =>
      match FindMarker(chs, i)
      case NoParen => Ok(Step(Record(chs[i], gs, None), i))
      case Unclosed(stop) => Ok(Step(Record(chs[i], gs, None), stop))
      case Closed(close) =>
        match ParseStrict(sv, chs[i + 2..close])
        case Threw => Ok(Step(Record(chs[i], gs, None), i))
        case Undefined => Ok(Step(Record(chs[i], gs, None), close))
        case Pinned(p) =>
          match Pin(sv, schemes, chs[i], gs, p)
          case Err(f) => Err(f)
          case Ok(pinned) => Ok(Step(Record(chs[i], pinned.0, Some(pinned.1)), close))
  }

  /** The outcome of the turn at every index of the text. */
  function Turns(sv: Services, schemes: seq<Scheme>, convertVariant: bool, chs: seq<char>)
    : (t: seq<Result<Step, Failure>>)
    ensures |t| == |chs| && forall j :: 0 <= j < |chs| ==> t[j] == AnnotateChar(sv, schemes, convertVariant, chs, j)
  {
    seq(|chs|, j requires 0 <= j < |chs| => AnnotateChar(sv, schemes, convertVariant, chs, j))
  }

  /** A turn never moves the cursor back, nor past the end of the text. */
  predicate Advances(turns: seq<Result<Step, Failure>>)
  {
    forall j :: 0 <= j < |turns| && turns[j].Ok? ==> j <= turns[j].value.last <= |turns|
  }

  /** The cursor loop over given turns, from cursor `i`: the record of the
      turn at `i`, then the records from its `iLast + 1`; a throw ends it. */
  function Walk(turns: seq<Result<Step, Failure>>, i: nat): Result<seq<Record>, Failure>
    requires Advances(turns)
    decreases |turns| - i
  {
    if i >= |turns| then Ok([])
    else
      match turns[i]
      case Err(f) => Err(f)
      case Ok(st) => Prepend([st.record], Walk(turns, st.last + 1))
  }

  /** What `convertArticle` renders for the article `chs`. */
  function Annotate(sv: Services, schemes: seq<Scheme>, convertVariant: bool, chs: seq<char>): Result<seq<Record>, Failure>
  {
    TurnsAdvance(sv, schemes, convertVariant, chs);
    Walk(Turns(sv, schemes, convertVariant, chs), 0)
  }

  lemma TurnsAdvance(sv: Services, schemes: seq<Scheme>, convertVariant: bool, chs: seq<char>)
    ensures Advances(Turns(sv, schemes, convertVariant, chs))
  {
    forall j | 0 <= j < |chs| && AnnotateChar(sv, schemes, convertVariant, chs, j).Ok?
      ensures j <= AnnotateChar(sv, schemes, convertVariant, chs, j).value.last <= |chs|
    {
      PreselectIffParsedMarker(sv, schemes, convertVariant, chs, j);
    }
  }

  /** One turn of the outer loop as written (lines 263-311): the query loop,
      the scan for the closing parenthesis, and the parse of the description. */
  method AnnotateOne(sv: Services, schemes: seq<Scheme>, convertVariant: bool, chs: seq<char>, i: nat)
    returns (r: Result<Step, Failure>)
    requires i < |chs|
    ensures r == AnnotateChar(sv, schemes, convertVariant, chs, i)
    ensures r.Ok? ==> i <= r.value.last <= |chs|
  {
    var c := chs[i];
    var iLast := i;
    ghost var marker := FindMarker(chs, i);
    var collected := CollectGroups(sv, schemes, convertVariant, c);
    if collected.Err? {
      return Err(collected.error);
    }
    var entries := collected.value;
    var preselect: Option<nat> := None;
    if i + 1 < |chs| && chs[i + 1] == '(' {
      iLast := i + 2;
      while iLast <= i + 8 && iLast < |chs| && chs[iLast] != ')'
        invariant i + 2 <= iLast <= i + 9
        invariant ScanStop(chs, i, iLast) == ScanStop(chs, i, i + 2)
        decreases i + 9 - iLast
      {
        iLast := iLast + 1;
      }
      assert marker == if iLast <= i + 8 && iLast < |chs| && chs[iLast] == ')' then Closed(iLast) else Unclosed(iLast);
      if iLast <= i + 8 && iLast < |chs| && chs[iLast] == ')' {
        var parsed := ParseStrict(sv, chs[i + 2..iLast]);
        if parsed.Threw? {
          iLast := i;
        } else if parsed.Pinned? {
          var index := FindPosition(entries, parsed.position);
          if index.None? {
            var derived := CallDeriver(schemes, parsed.position, Some([c]), sv.describe);
            if derived.Err? {
              return Err(derived.error);
            }
            entries := entries + [Group(derived.value, [DictEntry([c], None, "", parsed.position)])];
            preselect := Some(|entries| - 1);
          } else {
            preselect := index;
          }
        }
      }
    }
    r := Ok(Step(Record(c, entries, preselect), iLast));
  }

  /** `convertArticle` as written: the cursor loop over the code points of
      the article, resuming after `iLast`. */
  method ConvertArticle(sv: Services, schemes: seq<Scheme>, convertVariant: bool, article: string)
    returns (r: Result<seq<Record>, Failure>)
    ensures r == Annotate(sv, schemes, convertVariant, article)
  {
    var chs := article;
    ghost var turns := Turns(sv, schemes, convertVariant, chs);
    TurnsAdvance(sv, schemes, convertVariant, chs);
    var res: seq<Record> := [];
    var i := 0;
    PrependNothing(Walk(turns, 0));
    while i < |chs|
      invariant i <= |chs| + 1
      invariant Walk(turns, 0) == Prepend(res, Walk(turns, i))
      decreases |chs| + 1 - i
    {
      var step := AnnotateOne(sv, schemes, convertVariant, chs, i);
      assert step == turns[i];
      if step.Err? {
        return Err(step.error);
      }
      PrependTwice(res, [step.value.record], Walk(turns, step.value.last + 1));
      res := res + [step.value.record];
      i := step.value.last + 1;
    }
    assert res + [] == res;
    r := Ok(res);
  }

  /** An entry of the headwords `hs` is an entry the dictionary gives for
      one of them, recorded under that headword. */
  lemma {:induction false} TaggedMember(sv: Services, hs: seq<string>, m: DictEntry)
    requires m in Tagged(sv, hs)
    ensures m.headword in hs
    ensures exists e :: e in sv.queryHeadword(m.headword) && m == DictEntry(m.headword, e.spelling, e.gloss, e.position)
    decreases |hs|
  {
    var init, h := hs[..|hs| - 1], hs[|hs| - 1];
    var es := sv.queryHeadword(h);
    if m in Tagged(sv, init) {
      TaggedMember(sv, init, m);
    } else {
      var k :| 0 <= k < |es| && Retag(h, es)[k] == m;
      assert es[k] in es;
    }
  }

  /** Every grouped entry was found under a queried headword and keeps the
      spelling, gloss and position the dictionary gives it; with variant
      conversion off and entries of its own, a character shows only those. */
  lemma GroupedEntriesAreQueried(sv: Services, schemes: seq<Scheme>, c: char, convertVariant: bool)
    requires QueryGroups(sv, schemes, c, convertVariant).Ok?
    ensures var gs := QueryGroups(sv, schemes, c, convertVariant).value;
            forall k, m :: 0 <= k < |gs| && m in gs[k].members ==>
              && m.headword in QueriedHeadwords(sv, c, convertVariant)
              && (exists e :: e in sv.queryHeadword(m.headword) && m == DictEntry(m.headword, e.spelling, e.gloss, e.position))
              && (!convertVariant && |sv.queryHeadword([c])| > 0 ==> m.headword == [c])
  {
    var items := Tagged(sv, QueriedHeadwords(sv, c, convertVariant));
    var gs := QueryGroups(sv, schemes, c, convertVariant).value;
    GroupAllCorrect(schemes, sv.describe, items);
    forall k, m | 0 <= k < |gs| && m in gs[k].members
      ensures m.headword in QueriedHeadwords(sv, c, convertVariant)
      ensures exists e :: e in sv.queryHeadword(m.headword) && m == DictEntry(m.headword, e.spelling, e.gloss, e.position)
    {
      MemberListed(gs, k, m);
      assert m in multiset(Members(gs));
      TaggedMember(sv, QueriedHeadwords(sv, c, convertVariant), m);
    }
  }

  /** Turning variant conversion on never loses or reorders what the
      character shows without it: its groups are kept, in order, each with
      its entries first, and the variants' entries come after. */
  lemma EnablingVariantsOnlyAdds(sv: Services, schemes: seq<Scheme>, c: char)
    requires QueryGroups(sv, schemes, c, true).Ok?
    ensures QueryGroups(sv, schemes, c, false).Ok?
    ensures Extends(QueryGroups(sv, schemes, c, false).value, QueryGroups(sv, schemes, c, true).value)
  {
    var vs := sv.variants([c]);
    var off := QueriedHeadwords(sv, c, false);
    var extra := if |sv.queryHeadword([c])| == 0 then [] else vs;
    assert QueriedHeadwords(sv, c, true) == off + extra;
    TaggedConcat(sv, off, extra);
    GroupAllPrefix(schemes, sv.describe, Tagged(sv, off), Tagged(sv, extra));
  }

  /** A marker whose description fails to parse is ignored: the record and
      the cursor are those of a character with no marker, so the marker's
      characters are annotated one by one as ordinary text. */
  lemma FailedParseIsInert(sv: Services, schemes: seq<Scheme>, convertVariant: bool, chs: seq<char>, i: nat)
    requires i < |chs| && FindMarker(chs, i).Closed?
    requires ParseStrict(sv, chs[i + 2..FindMarker(chs, i).close]).Threw?
    ensures AnnotateChar(sv, schemes, convertVariant, chs, i) == AnnotateChar(sv, schemes, convertVariant, chs[..i + 1], i)
    ensures var r := AnnotateChar(sv, schemes, convertVariant, chs, i);
            r.Ok? ==> r.value.last == i && r.value.record.preselect.None?
  {
    assert chs[..i + 1][i] == chs[i];
  }

  /** A "(" with no ")" in the window swallows the text: the cursor resumes
      at min(i + 9, |chs|) + 1, so the characters from i + 1 to that stop get
      no record of their own, and nothing is preselected. */
  lemma UnclosedMarkerSkips(sv: Services, schemes: seq<Scheme>, convertVariant: bool, chs: seq<char>, i: nat)
    requires i + 1 < |chs| && chs[i + 1] == '('
    requires forall k :: i + 2 <= k < |chs| && k <= i + 8 ==> chs[k] != ')'
    ensures var stop := if i + 9 < |chs| then i + 9 else |chs|;
            var turns := Turns(sv, schemes, convertVariant, chs);
            && FindMarker(chs, i) == Unclosed(stop)
            && (turns[i].Ok? ==> turns[i].value.last == stop && turns[i].value.record.preselect.None?)
            && Advances(turns)
            && (turns[i].Ok? ==> Walk(turns, i) == Prepend([turns[i].value.record], Walk(turns, stop + 1)))
  {
    MarkerIsFirstClose(chs, i);
    TurnsAdvance(sv, schemes, convertVariant, chs);
  }

  /** A group is preselected exactly when a closed marker's description
      parses to a position, and the preselected group holds an entry at that
      position; the cursor skips the marker only when it is closed and parsed
      or left unclosed. */
  lemma PreselectIffParsedMarker(sv: Services, schemes: seq<Scheme>, convertVariant: bool, chs: seq<char>, i: nat)
    requires i < |chs| && AnnotateChar(sv, schemes, convertVariant, chs, i).Ok?
    ensures var st := AnnotateChar(sv, schemes, convertVariant, chs, i).value;
            var marker := FindMarker(chs, i);
            && (st.record.preselect.Some? <==> marker.Closed? && ParseStrict(sv, chs[i + 2..marker.close]).Pinned?)
            && (st.record.preselect.Some? ==>
                  st.record.preselect.value < |st.record.groups| && st.last == marker.close
                  && exists m :: m in st.record.groups[st.record.preselect.value].members
                                 && m.position == ParseStrict(sv, chs[i + 2..marker.close]).position)
            && st.record.ch == chs[i] && i <= st.last <= |chs|
            && (st.last > i ==> i + 1 < |chs| && chs[i + 1] == '(')
  {
    MarkerIsFirstClose(chs, i);
    var marker := FindMarker(chs, i);
    if marker.Closed? && ParseStrict(sv, chs[i + 2..marker.close]).Pinned? {
      var gs := QueryGroups(sv, schemes, chs[i], convertVariant).value;
      PinSelectsPosition(sv, schemes, chs[i], gs, ParseStrict(sv, chs[i + 2..marker.close]).position);
    }
  }

  /** The record of one character is well formed: every group is non-empty
      and its entries derive its key, the preselected index is a group, and
      keys are distinct except that a group appended for a pinned position
      may repeat one. */
  predicate RecordOk(schemes: seq<Scheme>, describe: Position -> string, r: Record)
  {
    && MembersMatchKeys(schemes, describe, r.groups)
    && (r.preselect.Some? ==> r.preselect.value < |r.groups|)
    && (DistinctKeys(r.groups)
        || (|r.groups| > 0 && r.preselect == Some(|r.groups| - 1) && DistinctKeys(r.groups[..|r.groups| - 1])))
  }

  /** The groups of one character are well grouped. */
  lemma QueryGroupsWellGrouped(sv: Services, schemes: seq<Scheme>, c: char, convertVariant: bool)
    requires QueryGroups(sv, schemes, c, convertVariant).Ok?
    ensures WellGrouped(schemes, sv.describe, QueryGroups(sv, schemes, c, convertVariant).value)
  {
    GroupAllCorrect(schemes, sv.describe, Tagged(sv, QueriedHeadwords(sv, c, convertVariant)));
  }

  /** Pinning a position into well-grouped groups gives a well-formed record. */
  lemma PinnedRecordOk(sv: Services, schemes: seq<Scheme>, c: char, gs: seq<Group>, p: Position)
    requires WellGrouped(schemes, sv.describe, gs) && Pin(sv, schemes, c, gs, p).Ok?
    ensures var pinned := Pin(sv, schemes, c, gs, p).value;
            RecordOk(schemes, sv.describe, Record(c, pinned.0, Some(pinned.1)))
  {
    PinSelectsPosition(sv, schemes, c, gs, p);
    var pinned := Pin(sv, schemes, c, gs, p).value;
    if |pinned.0| > |gs| {
      assert pinned.0[..|gs|] == gs;
    }
  }

  lemma AnnotateCharOk(sv: Services, schemes: seq<Scheme>, convertVariant: bool, chs: seq<char>, i: nat)
    requires i < |chs| && AnnotateChar(sv, schemes, convertVariant, chs, i).Ok?
    ensures RecordOk(schemes, sv.describe, AnnotateChar(sv, schemes, convertVariant, chs, i).value.record)
  {
    QueryGroupsWellGrouped(sv, schemes, chs[i], convertVariant);
    var gs := QueryGroups(sv, schemes, chs[i], convertVariant).value;
    var marker := FindMarker(chs, i);
    if marker.Closed? && ParseStrict(sv, chs[i + 2..marker.close]).Pinned? {
      PinnedRecordOk(sv, schemes, chs[i], gs, ParseStrict(sv, chs[i + 2..marker.close]).position);
    }
  }

  /** What every turn of the article guarantees: a turn at `j` makes the
      record of `chs[j]`, moves the cursor past `j` only over a marker opened
      by "(" at `j + 1`, and makes a well-formed record. */
  predicate TurnsFit(schemes: seq<Scheme>, describe: Position -> string, chs: seq<char>, turns: seq<Result<Step, Failure>>)
  {
    && |turns| == |chs|
    && Advances(turns)
    && forall j :: 0 <= j < |turns| ==> TurnFits(schemes, describe, chs, j, turns[j])
  }

  predicate TurnFits(schemes: seq<Scheme>, describe: Position -> string, chs: seq<char>, j: nat, turn: Result<Step, Failure>)
  {
    turn.Ok? ==>
      && j < |chs| && turn.value.record.ch == chs[j]
      && (turn.value.last > j || turn.value.record.preselect.Some? ==> j + 1 < |chs| && chs[j + 1] == '(')
      && RecordOk(schemes, describe, turn.value.record)
  }

  lemma FitAt(schemes: seq<Scheme>, describe: Position -> string, chs: seq<char>, turns: seq<Result<Step, Failure>>, j: nat)
    requires TurnsFit(schemes, describe, chs, turns) && j < |turns| && turns[j].Ok?
    ensures var st := turns[j].value;
            && st.record.ch == chs[j] && j <= st.last <= |chs|
            && (st.last > j || st.record.preselect.Some? ==> j + 1 < |chs| && chs[j + 1] == '(')
            && RecordOk(schemes, describe, st.record)
  {
    assert TurnFits(schemes, describe, chs, j, turns[j]);
  }

  lemma TurnsOfArticleFit(sv: Services, schemes: seq<Scheme>, convertVariant: bool, chs: seq<char>)
    ensures TurnsFit(schemes, sv.describe, chs, Turns(sv, schemes, convertVariant, chs))
  {
    TurnsAdvance(sv, schemes, convertVariant, chs);
    forall j | 0 <= j < |chs|
      ensures TurnFits(schemes, sv.describe, chs, j, AnnotateChar(sv, schemes, convertVariant, chs, j))
    {
      if AnnotateChar(sv, schemes, convertVariant, chs, j).Ok? {
        PreselectIffParsedMarker(sv, schemes, convertVariant, chs, j);
        AnnotateCharOk(sv, schemes, convertVariant, chs, j);
      }
    }
  }

  lemma {:induction false} WalkWellFormed(schemes: seq<Scheme>, describe: Position -> string, chs: seq<char>,
                                          turns: seq<Result<Step, Failure>>, i: nat)
    requires TurnsFit(schemes, describe, chs, turns) && Walk(turns, i).Ok?
    ensures forall r :: r in Walk(turns, i).value ==> RecordOk(schemes, describe, r)
    decreases |turns| - i
  {
    if i < |turns| {
      var st := turns[i].value;
      WalkWellFormed(schemes, describe, chs, turns, st.last + 1);
      var rs := Walk(turns, st.last + 1).value;
      assert Walk(turns, i).value == [st.record] + rs;
      FitAt(schemes, describe, chs, turns, i);
      forall r | r in [st.record] + rs ensures RecordOk(schemes, describe, r) {
        if r != st.record { assert r in rs; }
      }
    }
  }

  /** Every record of the article is well formed. */
  lemma RecordsWellFormed(sv: Services, schemes: seq<Scheme>, convertVariant: bool, chs: seq<char>)
    requires Annotate(sv, schemes, convertVariant, chs).Ok?
    ensures forall r :: r in Annotate(sv, schemes, convertVariant, chs).value ==> RecordOk(schemes, sv.describe, r)
  {
    TurnsOfArticleFit(sv, schemes, convertVariant, chs);
    WalkWellFormed(schemes, sv.describe, chs, Turns(sv, schemes, convertVariant, chs), 0);
  }

  lemma {:induction false} WalkFollowsText(schemes: seq<Scheme>, describe: Position -> string, chs: seq<char>,
                                           turns: seq<Result<Step, Failure>>, i: nat)
    returns (ix: seq<nat>)
    requires TurnsFit(schemes, describe, chs, turns) && Walk(turns, i).Ok?
    ensures var rs := Walk(turns, i).value;
            && |ix| == |rs|
            && (forall k :: 0 <= k < |ix| ==> i <= ix[k] < |chs| && rs[k].ch == chs[ix[k]])
            && (forall k :: 0 < k < |ix| ==> ix[k - 1] < ix[k])
            && (forall k :: 0 < k < |ix| && ix[k - 1] + 1 < ix[k] ==> chs[ix[k - 1] + 1] == '(')
            && (i < |chs| <==> |ix| > 0)
            && (|ix| > 0 ==> ix[0] == i)
    decreases |turns| - i
  {
    if i >= |turns| {
      ix := [];
    } else {
      var st := turns[i].value;
      FitAt(schemes, describe, chs, turns, i);
      var rest := WalkFollowsText(schemes, describe, chs, turns, st.last + 1);
      var rs := Walk(turns, st.last + 1).value;
      assert Walk(turns, i).value == [st.record] + rs;
      ix := [i] + rest;
      forall k | 0 < k < |ix| && ix[k - 1] + 1 < ix[k] ensures chs[ix[k - 1] + 1] == '(' {
        if k == 1 {
          assert rest[0] == st.last + 1;
        } else {
          assert ix[k - 1] == rest[k - 2] && ix[k] == rest[k - 1];
        }
      }
    }
  }

  /** The records follow the text: record `k` is for the character at index
      `ix[k]`, the indices increase from the start, and a character is
      skipped only after a "(" that opened a marker. */
  lemma RecordsFollowText(sv: Services, schemes: seq<Scheme>, convertVariant: bool, chs: seq<char>)
    returns (ix: seq<nat>)
    requires Annotate(sv, schemes, convertVariant, chs).Ok?
    ensures var rs := Annotate(sv, schemes, convertVariant, chs).value;
            && |ix| == |rs|
            && (forall k :: 0 <= k < |ix| ==> ix[k] < |chs| && rs[k].ch == chs[ix[k]])
            && (forall k :: 0 < k < |ix| ==> ix[k - 1] < ix[k])
            && (forall k :: 0 < k < |ix| && ix[k - 1] + 1 < ix[k] ==> chs[ix[k - 1] + 1] == '(')
            && (|chs| > 0 <==> |ix| > 0)
            && (|ix| > 0 ==> ix[0] == 0)
  {
    TurnsOfArticleFit(sv, schemes, convertVariant, chs);
    ix := WalkFollowsText(schemes, sv.describe, chs, Turns(sv, schemes, convertVariant, chs), 0);
  }

  lemma {:induction false} WalkPlainText(schemes: seq<Scheme>, describe: Position -> string, chs: seq<char>,
                                         turns: seq<Result<Step, Failure>>, i: nat)
    requires TurnsFit(schemes, describe, chs, turns) && Walk(turns, i).Ok? && i <= |chs|
    requires forall k :: i < k < |chs| ==> chs[k] != '('
    ensures var rs := Walk(turns, i).value;
            |rs| == |chs| - i && forall k :: 0 <= k < |rs| ==> rs[k].ch == chs[i + k] && rs[k].preselect.None?
    decreases |turns| - i
  {
    if i < |turns| {
      var st := turns[i].value;
      FitAt(schemes, describe, chs, turns, i);
      if i + 1 < |chs| { assert chs[i + 1] != '('; }
      assert st.last == i && st.record.preselect.None? && st.record.ch == chs[i];
      WalkPlainText(schemes, describe, chs, turns, i + 1);
      var rs := Walk(turns, i + 1).value;
      var all := [st.record] + rs;
      assert Walk(turns, i).value == all;
      forall k | 0 < k < |all| ensures all[k].ch == chs[i + k] && all[k].preselect.None? {
        assert all[k] == rs[k - 1];
      }
    }
  }

  /** A text in which no "(" follows a character gets one record per
      character, in order, none preselected. */
  lemma PlainTextOneRecordEach(sv: Services, schemes: seq<Scheme>, convertVariant: bool, chs: seq<char>)
    requires forall k :: 0 < k < |chs| ==> chs[k] != '('
    requires Annotate(sv, schemes, convertVariant, chs).Ok?
    ensures var rs := Annotate(sv, schemes, convertVariant, chs).value;
            |rs| == |chs| && forall k :: 0 <= k < |rs| ==> rs[k].ch == chs[k] && rs[k].preselect.None?
  {
    TurnsOfArticleFit(sv, schemes, convertVariant, chs);
    WalkPlainText(schemes, sv.describe, chs, Turns(sv, schemes, convertVariant, chs), 0);
  }
}
