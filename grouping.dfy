/** The grouping of dictionary entries by derived output in `convertArticle`
    (src/Main.tsx:276-281): every entry is derived with all schemes and joins
    the first group whose key matches its output vector, or opens a new group
    at the end. */
module Grouping {
  import opened Base
  import opened Deriver

  /** `[推導結果, 條目s]`: an output vector and the entries that produce it. */
  datatype Group = Group(key: seq<string>, members: seq<DictEntry>)

  /** `key.every((pronunciation, i) => pronunciation === 推導結果[i])`: every
      string of the key equals the output's string at the same index (an index
      past the output's end reads `undefined` and fails). */
  predicate Matches(key: seq<string>, v: seq<string>)
  {
    |key| <= |v| && key == v[..|key|]
  }

  /** `entries.find(...)`: the first group whose key matches `v`. */
  function FindGroup(gs: seq<Group>, v: seq<string>): (r: Option<nat>)
    ensures r.Some? ==> r.value < |gs| && Matches(gs[r.value].key, v)
                        && forall j :: 0 <= j < r.value ==> !Matches(gs[j].key, v)
    ensures r.None? ==> forall j :: 0 <= j < |gs| ==> !Matches(gs[j].key, v)
    decreases |gs|
  {
    if |gs| == 0 then None
    else if Matches(gs[0].key, v) then Some(0)
    else
      match FindGroup(gs[1..], v)
      case None => None
      case Some(k) => Some(k + 1)
  }

  /** Lines 278-280: append `e` to the matching group, or open a new one. */
  function Place(gs: seq<Group>, v: seq<string>, e: DictEntry): seq<Group>
  {
    match FindGroup(gs, v)
    case Some(k) => gs[k := gs[k].(members := gs[k].members + [e])]
    case None => gs + [Group(v, [e])]
  }

  /** `callDeriver(音韻地位, 字頭)` for an entry. */
  function Vector(schemes: seq<Scheme>, describe: Position -> string, e: DictEntry): Result<seq<string>, Failure>
  {
    CallDeriver(schemes, e.position, Some(e.headword), describe)
  }

  /** One turn of the query loop; a throw ends the run. */
  function AddEntry(schemes: seq<Scheme>, describe: Position -> string,
                    acc: Result<seq<Group>, Failure>, e: DictEntry): Result<seq<Group>, Failure>
  {
    match acc
    case Err(f) => Err(f)
    case Ok(gs) =>
      match Vector(schemes, describe, e)
      case Err(f) => Err(f)
      case Ok(v) => Ok(Place(gs, v, e))
  }

  /** The query loop over `items`, in order, starting from `acc`. */
  function Fold(schemes: seq<Scheme>, describe: Position -> string,
                acc: Result<seq<Group>, Failure>, items: seq<DictEntry>): Result<seq<Group>, Failure>
    decreases |items|
  {
    if |items| == 0 then acc
    else AddEntry(schemes, describe, Fold(schemes, describe, acc, items[..|items| - 1]), items[|items| - 1])
  }

  function GroupAll(schemes: seq<Scheme>, describe: Position -> string, items: seq<DictEntry>): Result<seq<Group>, Failure>
  {
    Fold(schemes, describe, Ok([]), items)
  }

  /** All members of all groups, group by group. */
  function Members(gs: seq<Group>): seq<DictEntry>
    decreases |gs|
  {
    if |gs| == 0 then [] else gs[0].members + Members(gs[1..])
  }

  /** Every group is non-empty and each of its members derives exactly its key. */
  predicate MembersMatchKeys(schemes: seq<Scheme>, describe: Position -> string, gs: seq<Group>)
  {
    forall i :: 0 <= i < |gs| ==>
      |gs[i].members| > 0 && forall m :: m in gs[i].members ==> Vector(schemes, describe, m) == Ok(gs[i].key)
  }

  predicate DistinctKeys(gs: seq<Group>)
  {
    forall i, j :: 0 <= i < j < |gs| ==> gs[i].key != gs[j].key
  }

  predicate WellGrouped(schemes: seq<Scheme>, describe: Position -> string, gs: seq<Group>)
  {
    MembersMatchKeys(schemes, describe, gs) && DistinctKeys(gs)
  }

  /** `b` grew from `a` by appending: the same groups in the same order, with
      each group's members extended at the end, then possibly new groups. */
  predicate Extends(a: seq<Group>, b: seq<Group>)
  {
    |a| <= |b| && forall k :: 0 <= k < |a| ==> b[k].key == a[k].key && a[k].members <= b[k].members
  }

  lemma ExtendsTransitive(a: seq<Group>, b: seq<Group>, c: seq<Group>)
    requires Extends(a, b) && Extends(b, c)
    ensures Extends(a, c)
  {
    forall k | 0 <= k < |a| ensures a[k].members <= c[k].members {
      assert a[k].members == b[k].members[..|a[k].members|];
    }
  }

  /** Placing an entry keeps the grouping sound: with equal-length vectors a
      match is an equal key, so a new group never repeats a key. */
  lemma PlaceWellGrouped(schemes: seq<Scheme>, describe: Position -> string, gs: seq<Group>, v: seq<string>, e: DictEntry)
    requires WellGrouped(schemes, describe, gs)
    requires Vector(schemes, describe, e) == Ok(v)
    ensures WellGrouped(schemes, describe, Place(gs, v, e))
    ensures Extends(gs, Place(gs, v, e))
  {
    forall i | 0 <= i < |gs| ensures |gs[i].key| == |v| {
      var m := gs[i].members[0];
      assert m in gs[i].members;
    }
    match FindGroup(gs, v)
    case Some(k) =>
      assert gs[k].key == v;
      var r := Place(gs, v, e);
      forall i | 0 <= i < |r| ensures forall m :: m in r[i].members ==> Vector(schemes, describe, m) == Ok(r[i].key) {
        if i == k {
          forall m | m in r[i].members ensures Vector(schemes, describe, m) == Ok(r[i].key) {
            if m != e { assert m in gs[k].members; }
          }
        }
      }
      assert Extends(gs, r) by {
        forall j | 0 <= j < |gs| ensures gs[j].members <= r[j].members {
          if j == k { assert r[j].members == gs[j].members + [e]; }
        }
      }
    case None =>
      forall i | 0 <= i < |gs| ensures gs[i].key != v {
        if gs[i].key == v { assert Matches(gs[i].key, v); }
      }
  }

  lemma {:induction false} MembersConcat(a: seq<Group>, b: seq<Group>)
    ensures Members(a + b) == Members(a) + Members(b)
    decreases |a|
  {
    if |a| > 0 {
      MembersConcat(a[1..], b);
      assert (a + b)[1..] == a[1..] + b;
    } else {
      assert a + b == b;
    }
  }

  lemma {:induction false} MembersAround(gs: seq<Group>, k: nat)
    requires k < |gs|
    ensures Members(gs) == Members(gs[..k]) + gs[k].members + Members(gs[k + 1..])
    decreases k
  {
    if k == 0 {
      assert gs[..0] == [] && gs[1..] == gs[k + 1..];
    } else {
      var tail := gs[1..];
      MembersAround(tail, k - 1);
      assert tail[k..] == gs[k + 1..] && tail[k - 1] == gs[k];
      assert gs[..k][1..] == tail[..k - 1];
      assert gs[..k][0] == gs[0];
    }
  }

  lemma MemberListed(gs: seq<Group>, k: nat, m: DictEntry)
    requires k < |gs| && m in gs[k].members
    ensures m in Members(gs)
  {
    MembersAround(gs, k);
  }

  /** Placing an entry adds exactly that entry to the members. */
  lemma PlaceMembers(gs: seq<Group>, v: seq<string>, e: DictEntry)
    ensures multiset(Members(Place(gs, v, e))) == multiset(Members(gs)) + multiset{e}
  {
    match FindGroup(gs, v)
    case Some(k) =>
      var r := gs[k := gs[k].(members := gs[k].members + [e])];
      assert Place(gs, v, e) == r;
      MembersAround(gs, k);
      MembersAround(r, k);
      assert r[..k] == gs[..k] && r[k + 1..] == gs[k + 1..];
    case None =>
      assert Place(gs, v, e) == gs + [Group(v, [e])];
      MembersConcat(gs, [Group(v, [e])]);
      assert Members([Group(v, [e])]) == [e] + Members([]);
  }

  /** A throw is final: nothing after it runs. */
  lemma {:induction false} FoldErr(schemes: seq<Scheme>, describe: Position -> string, f: Failure, items: seq<DictEntry>)
    ensures Fold(schemes, describe, Err(f), items) == Err(f)
    decreases |items|
  {
    if |items| > 0 { FoldErr(schemes, describe, f, items[..|items| - 1]); }
  }

  /** Processing `a + b` is processing `a`, then `b` from where `a` left off. */
  lemma {:induction false} FoldAppend(schemes: seq<Scheme>, describe: Position -> string,
                                      acc: Result<seq<Group>, Failure>, a: seq<DictEntry>, b: seq<DictEntry>)
    ensures Fold(schemes, describe, acc, a + b) == Fold(schemes, describe, Fold(schemes, describe, acc, a), b)
    decreases |b|
  {
    if |b| == 0 {
      assert a + b == a;
    } else {
      var ab, init := a + b, b[..|b| - 1];
      assert ab[..|ab| - 1] == a + init && ab[|ab| - 1] == b[|b| - 1];
      FoldAppend(schemes, describe, acc, a, init);
    }
  }

  /** Grouping invariants of the query loop (src/Main.tsx:276-281): every
      entry lands in exactly one group, every member derives its group's key,
      no two groups share a key, and earlier groups are only appended to. */
  lemma {:induction false} FoldInvariant(schemes: seq<Scheme>, describe: Position -> string,
                                         gs: seq<Group>, items: seq<DictEntry>)
    requires WellGrouped(schemes, describe, gs)
    requires Fold(schemes, describe, Ok(gs), items).Ok?
    ensures var r := Fold(schemes, describe, Ok(gs), items).value;
            WellGrouped(schemes, describe, r) && Extends(gs, r)
            && multiset(Members(r)) == multiset(Members(gs)) + multiset(items)
    decreases |items|
  {
    if |items| > 0 {
      var init, e := items[..|items| - 1], items[|items| - 1];
      assert items == init + [e];
      var acc := Fold(schemes, describe, Ok(gs), init);
      FoldInvariant(schemes, describe, gs, init);
      var v := Vector(schemes, describe, e).value;
      PlaceWellGrouped(schemes, describe, acc.value, v, e);
      PlaceMembers(acc.value, v, e);
      ExtendsTransitive(gs, acc.value, Place(acc.value, v, e));
    }
  }

  /** Grouping is by output: two entries share a group exactly
      when their output vectors are equal. */
  lemma GroupAllCorrect(schemes: seq<Scheme>, describe: Position -> string, items: seq<DictEntry>)
    requires GroupAll(schemes, describe, items).Ok?
    ensures var gs := GroupAll(schemes, describe, items).value;
            && WellGrouped(schemes, describe, gs)
            && multiset(Members(gs)) == multiset(items)
            && (forall i, j, a, b :: 0 <= i < |gs| && 0 <= j < |gs| && a in gs[i].members && b in gs[j].members ==>
                  (Vector(schemes, describe, a) == Vector(schemes, describe, b) <==> i == j))
            && (|gs| == 0 <==> |items| == 0)
  {
    FoldInvariant(schemes, describe, [], items);
    var gs := GroupAll(schemes, describe, items).value;
    if |gs| > 0 {
      assert gs[0].members[0] in multiset(Members(gs));
    }
  }

  /** Entries processed later never disturb what earlier ones built: the
      groups of a prefix are extended, in place and order, by the rest. */
  lemma GroupAllPrefix(schemes: seq<Scheme>, describe: Position -> string, a: seq<DictEntry>, b: seq<DictEntry>)
    requires GroupAll(schemes, describe, a + b).Ok?
    ensures GroupAll(schemes, describe, a).Ok?
    ensures Extends(GroupAll(schemes, describe, a).value, GroupAll(schemes, describe, a + b).value)
  {
    FoldAppend(schemes, describe, Ok([]), a, b);
    var acc := GroupAll(schemes, describe, a);
    if acc.Err? {
      FoldErr(schemes, describe, acc.error, b);
    } else {
      FoldInvariant(schemes, describe, [], a);
      FoldInvariant(schemes, describe, acc.value, b);
    }
  }
}
