/** Values shared by every part of the engine, and the services it consumes.
    Everything outside src/Main.tsx (the qieyun data, the yitizi variant table,
    the compiled derivation schemes) is a parameter of the model. */
module Base {

  datatype Option<+T> = None | Some(value: T)

  datatype Result<+T, +E> = Ok(value: T) | Err(error: E)

  /** A phonological position (音韻地位). The engine never looks inside one:
      it compares positions with `==` (the library's 等於), describes them and
      hands them to schemes. */
  type Position(==)

  /** Whatever a scheme or a library function throws. */
  type Thrown

  /** One dictionary entry: 字頭, 反切 (null for some entries), 解釋, 音韻地位. */
  datatype DictEntry = DictEntry(headword: string, spelling: Option<string>, gloss: string, position: Position)

  /** A compiled derivation function: (音韻地位, 字頭 or null) to a transcription, or a throw. */
  type Scheme = (Position, Option<string>) -> Result<string, Thrown>

  /** What `適配分析體系.v2extStrict(音韻地位.from描述(text))` gives: a position,
      `undefined`, or a throw from either call. */
  datatype Parsed = Pinned(position: Position) | Undefined | Threw

  /** The library services the engine calls. */
  datatype Services = Services(
    queryHeadword: string -> seq<DictEntry>,     // 資料.query字頭
    variants: string -> seq<string>,             // Yitizi.get
    allPositions: seq<Position>,                 // 資料.iter音韻地位(), in store order
    queryPosition: Position -> seq<DictEntry>,   // 資料.query音韻地位
    fromDescription: string -> Option<Position>, // 音韻地位.from描述; None when it throws
    adaptStrict: Position -> Parsed,             // 適配分析體系.v2extStrict
    describe: Position -> string)                // 音韻地位.描述

  /** `v2extStrict(from描述(text))`, a throw of from描述 included. */
  function ParseStrict(sv: Services, text: string): Parsed
  {
    match sv.fromDescription(text)
    case None => Threw
    case Some(p) => sv.adaptStrict(p)
  }

  /** `xs.map(f)` where `f` may throw: every element in order, the first throw
      ends the map and is what escapes. */
  function TryMap<A, B, E>(xs: seq<A>, f: A -> Result<B, E>): (r: Result<seq<B>, E>)
    ensures r.Ok? <==> forall k :: 0 <= k < |xs| ==> f(xs[k]).Ok?
    ensures r.Ok? ==> |r.value| == |xs| && forall k :: 0 <= k < |xs| ==> f(xs[k]) == Ok(r.value[k])
    ensures r.Err? ==> exists k :: 0 <= k < |xs| && f(xs[k]) == Err(r.error) && forall j :: 0 <= j < k ==> f(xs[j]).Ok?
    decreases |xs|
  {
    if |xs| == 0 then Ok([])
    else
      match f(xs[0])
      case Err(e) => Err(e)
      case Ok(y) =>
        var rest := TryMap(xs[1..], f);
        assert forall k :: 1 <= k < |xs| ==> xs[1..][k - 1] == xs[k];
        match rest
        case Err(e) =>
          assert exists k :: 0 <= k < |xs| && f(xs[k]) == Err(e) && forall j :: 0 <= j < k ==> f(xs[j]).Ok? by {
            var k' :| 0 <= k' < |xs[1..]| && f(xs[1..][k']) == Err(e) && forall j :: 0 <= j < k' ==> f(xs[1..][j]).Ok?;
            assert f(xs[k' + 1]) == Err(e);
          }
          Err(e)
        case Ok(ys) => Ok([y] + ys)
  }

  /** When every element maps, the map is exactly those values. */
  lemma TryMapAllOk<A, B, E>(xs: seq<A>, f: A -> Result<B, E>, out: seq<B>)
    requires |out| == |xs| && forall k :: 0 <= k < |xs| ==> f(xs[k]) == Ok(out[k])
    ensures TryMap(xs, f) == Ok(out)
  {
    var r := TryMap(xs, f);
    assert r.Ok? ==> r.value == out;
  }

  /** The first element that throws decides the map's error. */
  lemma TryMapFirstErr<A, B, E>(xs: seq<A>, f: A -> Result<B, E>, k: nat)
    requires k < |xs| && f(xs[k]).Err? && forall j :: 0 <= j < k ==> f(xs[j]).Ok?
    ensures TryMap(xs, f) == Err(f(xs[k]).error)
  {
    var r := TryMap(xs, f);
    var k' :| 0 <= k' < |xs| && f(xs[k']) == Err(r.error) && forall j :: 0 <= j < k' ==> f(xs[j]).Ok?;
    assert k' == k;
  }

  /** `out` is what `f` gives for the first `|out|` elements of `xs`: the
      state of a loop that maps `xs` one element at a time. */
  ghost predicate MapsPrefix<A, B, E>(xs: seq<A>, f: A -> Result<B, E>, out: seq<B>)
  {
    |out| <= |xs| && forall j :: 0 <= j < |out| ==> f(xs[j]) == Ok(out[j])
  }

  lemma MapsPrefixSnoc<A, B, E>(xs: seq<A>, f: A -> Result<B, E>, out: seq<B>, y: B)
    requires MapsPrefix(xs, f, out) && |out| < |xs| && f(xs[|out|]) == Ok(y)
    ensures MapsPrefix(xs, f, out + [y])
  {
    var out' := out + [y];
    forall j | 0 <= j < |out'| ensures f(xs[j]) == Ok(out'[j]) {
      if j < |out| { assert out'[j] == out[j]; }
    }
  }

  /** A loop that stops at the first throw yields the map's error. */
  lemma MapsPrefixErr<A, B, E>(xs: seq<A>, f: A -> Result<B, E>, out: seq<B>)
    requires MapsPrefix(xs, f, out) && |out| < |xs| && f(xs[|out|]).Err?
    ensures TryMap(xs, f) == Err(f(xs[|out|]).error)
  {
    TryMapFirstErr(xs, f, |out|);
  }

  /** A loop that got through every element yields the map. */
  lemma MapsPrefixDone<A, B, E>(xs: seq<A>, f: A -> Result<B, E>, out: seq<B>)
    requires MapsPrefix(xs, f, out) && |out| == |xs|
    ensures TryMap(xs, f) == Ok(out)
  {
    TryMapAllOk(xs, f, out);
  }

  /** Puts the records already produced in front of what the rest of a run
      yields; a throw in the rest wins. */
  function Prepend<T, E>(done: seq<T>, rest: Result<seq<T>, E>): Result<seq<T>, E>
  {
    match rest
    case Ok(ys) => Ok(done + ys)
    case Err(e) => Err(e)
  }

  lemma PrependNothing<T, E>(r: Result<seq<T>, E>)
    ensures Prepend([], r) == r
  {
    if r.Ok? { assert [] + r.value == r.value; }
  }

  lemma PrependTwice<T, E>(a: seq<T>, b: seq<T>, r: Result<seq<T>, E>)
    ensures Prepend(a, Prepend(b, r)) == Prepend(a + b, r)
  {
    if r.Ok? { assert a + (b + r.value) == (a + b) + r.value; }
  }

  /** `parts.join(sep)`. */
  function Join(parts: seq<string>, sep: string): string
  {
    if |parts| == 0 then ""
    else if |parts| == 1 then parts[0]
    else parts[0] + sep + Join(parts[1..], sep)
  }
}
