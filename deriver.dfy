/** `callDeriver` (src/Main.tsx:234-246): runs every compiled scheme on one
    position and headword; on a throw it reports a message naming the
    character or the position and rethrows. */
module Deriver {
  import opened Base

  /** What `callDeriver` reports to notifyError: the headword it was given
      and the description (音韻地位.描述) of the position. `Message` renders
      the text. */
  datatype Notice = Notice(headword: Option<string>, description: string)

  /** Why a run stopped. `DerivationFailed` is what `callDeriver` rethrows,
      together with what it reported; `DescriptionFailed` is a throw of
      音韻地位.from描述 in the preset-text mode, which nothing reports. */
  datatype Failure =
    | DerivationFailed(notice: Notice, cause: Thrown)
    | DescriptionFailed(description: string)

  /** JavaScript truthiness of `字頭`: null, undefined and "" are false. */
  predicate Truthy(h: Option<string>)
  {
    h.Some? && h.value != ""
  }

  /** The message handed to notifyError before the rethrow. */
  function Message(n: Notice): string
  {
    if Truthy(n.headword) then "推導「" + n.headword.value + "」字（音韻地位：" + n.description + "）時發生錯誤"
    else "推導「" + n.description + "」音韻地位（字為 null）時發生錯誤"
  }

  /** `userInputs.map(input => input(音韻地位, 字頭))`. */
  function DeriveAll(schemes: seq<Scheme>, p: Position, h: Option<string>): Result<seq<string>, Thrown>
  {
    TryMap(schemes, (s: Scheme) => s(p, h))
  }

  function CallDeriver(schemes: seq<Scheme>, p: Position, h: Option<string>, describe: Position -> string)
    : (r: Result<seq<string>, Failure>)
    ensures r.Ok? <==> forall k :: 0 <= k < |schemes| ==> schemes[k](p, h).Ok?
    ensures r.Ok? ==> |r.value| == |schemes| && forall k :: 0 <= k < |schemes| ==> schemes[k](p, h) == Ok(r.value[k])
    ensures r.Err? ==> r.error.DerivationFailed? && r.error.notice == Notice(h, describe(p))
    ensures r.Err? ==> exists k :: 0 <= k < |schemes| && schemes[k](p, h) == Err(r.error.cause)
                                   && forall j :: 0 <= j < k ==> schemes[j](p, h).Ok?
  {
    match DeriveAll(schemes, p, h)
    case Ok(v) => Ok(v)
    case Err(t) => Err(DerivationFailed(Notice(h, describe(p)), t))
  }

  /** Colons counted around pieces that hold none. */
  lemma ColonsBetween(before: string, mid: string, after: string)
    requires '：' !in before && '：' !in after
    ensures multiset(before + mid + after)['：'] == multiset(mid)['：']
  {
    assert multiset(before + mid + after) == multiset(before) + multiset(mid) + multiset(after);
  }

  /** Colons of the known-headword message, piece by piece. */
  lemma ColonsOfFive(open: string, h: string, middle: string, d: string, tail: string)
    requires '：' !in open && '：' !in tail && multiset(middle)['：'] == 1
    ensures multiset(open + h + middle + d + tail)['：'] == multiset(h)['：'] + 1 + multiset(d)['：']
  {
    assert multiset(open + h + middle + d + tail)
        == multiset(open) + multiset(h) + multiset(middle) + multiset(d) + multiset(tail);
  }

  lemma OpeningHasNoColon()
    ensures '：' !in "推導「"
  {
  }

  lemma ClosingHasNoColon()
    ensures '：' !in "）時發生錯誤"
  {
  }

  lemma KnownMiddleHasOneColon()
    ensures multiset("」字（音韻地位：")['：'] == 1
  {
  }

  lemma NullEndingHasNoColon()
    ensures '：' !in "」音韻地位（字為 null）時發生錯誤"
  {
  }

  /** The message for a known headword holds one more full-width colon
      than the headword and the description together. */
  lemma KnownMessageColons(h: string, d: string)
    requires h != ""
    ensures multiset(Message(Notice(Some(h), d)))['：'] == multiset(h)['：'] + 1 + multiset(d)['：']
  {
    OpeningHasNoColon();
    ClosingHasNoColon();
    KnownMiddleHasOneColon();
    ColonsOfFive("推導「", h, "」字（音韻地位：", d, "）時發生錯誤");
  }

  /** The message for a null headword holds only the description's colons. */
  lemma NullMessageColons(d: string)
    ensures multiset(Message(Notice(None, d)))['：'] == multiset(d)['：']
  {
    OpeningHasNoColon();
    NullEndingHasNoColon();
    assert Message(Notice(None, d)) == "推導「" + d + "」音韻地位（字為 null）時發生錯誤";
    ColonsBetween("推導「", d, "」音韻地位（字為 null）時發生錯誤");
  }

  /** The two messages never coincide: the one for a known headword holds
      one more full-width colon than the one for a null headword. */
  lemma MessagesDiffer(h: string, d: string)
    requires h != ""
    ensures Message(Notice(Some(h), d)) != Message(Notice(None, d))
  {
    KnownMessageColons(h, d);
    NullMessageColons(d);
  }
}
