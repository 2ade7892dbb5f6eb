/** `convertPresetArticle` (src/Main.tsx:317-354): the preset text is cut
    into passages at blank lines and into lines; in a line, a character
    followed by `(description)` is shown with the pronunciations every scheme
    derives for the described position, every other character as itself. The
    first line of a passage is a heading. */
module Preset {
  import opened Base
  import opened Deriver
  import opened Splitting

  /** What a line is made of: a plain character, or a character with the
      description of its position in parentheses. */
  datatype Segment = Plain(c: char) | Marked(head: char, description: string)

  /** What is rendered for a segment: the character itself, or a ruby with
      one pronunciation per scheme. */
  datatype Token = Text(c: char) | Ruby(head: char, readings: seq<string>)

  /** A rendered line: `h3` for the first line of a passage, `p` otherwise. */
  datatype Line = Line(heading: bool, tokens: seq<Token>)

  /** Where `while (chs[++i] !== ")" && i < chs.length);` stops when it
      reaches index `m`: the first ")" at or after `m`, or the end of the line. */
  function CloseFrom(chs: seq<char>, m: nat): (k: nat)
    requires m <= |chs|
    ensures m <= k <= |chs|
    decreases |chs| - m
  {
    if m < |chs| && chs[m] != ')' then CloseFrom(chs, m + 1) else m
  }

  /** The scan stops at the first ")" from `m` on, or at the end of the line. */
  lemma {:induction false} CloseFromIsFirstClose(chs: seq<char>, m: nat)
    requires m <= |chs|
    ensures var k := CloseFrom(chs, m);
            && (forall j :: m <= j < k ==> chs[j] != ')')
            && (k < |chs| ==> chs[k] == ')')
    decreases |chs| - m
  {
    if m < |chs| && chs[m] != ')' {
      CloseFromIsFirstClose(chs, m + 1);
    }
  }

  /** What remains of the line after the closing parenthesis at `k`. */
  function After(chs: seq<char>, k: nat): seq<char>
  {
    if k < |chs| then chs[k + 1..] else []
  }

  /** The segments of a line, read from its start (the loop of lines 323-342):
      a character followed by "(" takes everything up to the next ")" as its
      description, or up to the end of the line when none follows. */
  function Segments(chs: seq<char>): seq<Segment>
    decreases |chs|
  {
    if |chs| == 0 then []
    else if 1 < |chs| && chs[1] == '(' then
      var k := CloseFrom(chs, 2);
      [Marked(chs[0], chs[2..k])] + Segments(After(chs, k))
    else [Plain(chs[0])] + Segments(chs[1..])
  }

  function RenderOne(s: Segment): string
  {
    match s
    case Plain(c) => [c]
    case Marked(h, d) => [h, '('] + d + [')']
  }

  /** The text of segments, markers written out in full. */
  function Render(segs: seq<Segment>): string
    decreases |segs|
  {
    if |segs| == 0 then [] else RenderOne(segs[0]) + Render(segs[1..])
  }

  function Head(s: Segment): char
  {
    match s
    case Plain(c) => c
    case Marked(h, _) => h
  }

  /** Segments that read back as themselves: no description holds ")", and
      no plain character is followed by a "(" that would open a marker. */
  predicate WellFormed(segs: seq<Segment>)
  {
    && (forall k :: 0 <= k < |segs| && segs[k].Marked? ==> ')' !in segs[k].description)
    && (forall k :: 0 < k < |segs| && segs[k - 1].Plain? ==> Head(segs[k]) != '(')
  }

  /** A plain character not followed by "(" reads back as itself. */
  lemma SegmentsOfPlain(c: char, tail: string)
    requires |tail| > 0 ==> tail[0] != '('
    ensures Segments([c] + tail) == [Plain(c)] + Segments(tail)
  {
    assert ([c] + tail)[1..] == tail;
  }

  /** A written-out marker whose description holds no ")" reads back as itself. */
  lemma SegmentsOfMarked(h: char, d: string, tail: string)
    requires ')' !in d
    ensures Segments([h, '('] + d + [')'] + tail) == [Marked(h, d)] + Segments(tail)
  {
    var chs := [h, '('] + d + [')'] + tail;
    var k := 2 + |d|;
    assert chs[k] == ')';
    assert forall j :: 2 <= j < k ==> chs[j] == d[j - 2];
    CloseFromIsFirstClose(chs, 2);
    assert CloseFrom(chs, 2) == k;
    assert chs[2..k] == d;
    assert After(chs, k) == tail;
  }

  /** Reading a rendered line gives back its segments. */
  lemma {:induction false} SegmentsOfRender(segs: seq<Segment>)
    requires WellFormed(segs)
    ensures Segments(Render(segs)) == segs
    decreases |segs|
  {
    if |segs| > 0 {
      var rest := segs[1..];
      assert WellFormed(rest) by {
        forall k | 0 < k < |rest| && rest[k - 1].Plain? ensures Head(rest[k]) != '(' {
          assert rest[k - 1] == segs[k] && rest[k] == segs[k + 1];
        }
      }
      SegmentsOfRender(rest);
      var tail := Render(rest);
      match segs[0]
      case Plain(c) =>
        if |rest| > 0 {
          assert tail == RenderOne(rest[0]) + Render(rest[1..]);
          assert tail[0] == Head(rest[0]);
        }
        SegmentsOfPlain(c, tail);
      case Marked(h, d) =>
        SegmentsOfMarked(h, d, tail);
    }
  }

  /** The first segment of a line starts with its first character. */
  lemma SegmentsHead(chs: seq<char>)
    requires |chs| > 0
    ensures |Segments(chs)| > 0 && Head(Segments(chs)[0]) == chs[0]
  {
  }

  /** Reading a line always gives well-formed segments. */
  lemma {:induction false} SegmentsWellFormed(chs: seq<char>)
    ensures WellFormed(Segments(chs))
    decreases |chs|
  {
    if |chs| > 0 {
      var segs := Segments(chs);
      var marked := 1 < |chs| && chs[1] == '(';
      var rest := if marked then After(chs, CloseFrom(chs, 2)) else chs[1..];
      SegmentsWellFormed(rest);
      assert segs[1..] == Segments(rest);
      if marked {
        var k := CloseFrom(chs, 2);
        CloseFromIsFirstClose(chs, 2);
        assert ')' !in chs[2..k] by {
          forall j | 0 <= j < k - 2 ensures chs[2..k][j] != ')' { assert chs[2..k][j] == chs[j + 2]; }
        }
      } else if |rest| > 0 {
        SegmentsHead(rest);
      }
      forall k | 0 < k < |segs| && segs[k - 1].Plain? ensures Head(segs[k]) != '(' {
        if k > 1 { assert segs[k - 1] == Segments(rest)[k - 2] && segs[k] == Segments(rest)[k - 1]; }
      }
    }
  }

  lemma RenderCons(s: Segment, rest: seq<Segment>)
    ensures Render([s] + rest) == RenderOne(s) + Render(rest)
  {
    assert ([s] + rest)[1..] == rest;
  }

  /** Rendering the segments of `chs` gives `chs` back, with a ")" added
      when the last marker runs to the end of the line. */
  predicate RendersBack(chs: seq<char>)
  {
    Render(Segments(chs)) == chs || Render(Segments(chs)) == chs + [')']
  }

  lemma RenderPlainStep(chs: seq<char>)
    requires |chs| > 0 && !(1 < |chs| && chs[1] == '(') && RendersBack(chs[1..])
    ensures RendersBack(chs)
  {
    var rest := chs[1..];
    assert Segments(chs) == [Plain(chs[0])] + Segments(rest);
    RenderCons(Plain(chs[0]), Segments(rest));
    assert chs == [chs[0]] + rest;
  }

  /** A marker at the start of the line, written out again, is the line up
      to its close, then ")". */
  lemma MarkedRendering(chs: seq<char>)
    requires 1 < |chs| && chs[1] == '('
    ensures var k := CloseFrom(chs, 2);
            RenderOne(Marked(chs[0], chs[2..k])) == chs[..k] + [')']
  {
    var k := CloseFrom(chs, 2);
    assert chs[..k] == [chs[0], '('] + chs[2..k];
  }

  lemma MarkedParts(chs: seq<char>)
    requires 1 < |chs| && chs[1] == '('
    ensures var k := CloseFrom(chs, 2);
            Render(Segments(chs)) == chs[..k] + [')'] + Render(Segments(After(chs, k)))
  {
    var k := CloseFrom(chs, 2);
    var first := Marked(chs[0], chs[2..k]);
    assert Segments(chs) == [first] + Segments(After(chs, k));
    RenderCons(first, Segments(After(chs, k)));
    MarkedRendering(chs);
  }

  lemma CutAtClose(chs: seq<char>, k: nat)
    requires k < |chs| && chs[k] == ')'
    ensures chs == chs[..k] + [')'] + chs[k + 1..]
  {
    assert chs == chs[..k] + chs[k..];
    assert chs[k..] == [')'] + chs[k + 1..];
  }

  /** Closing a marker before the end of the line puts back the ")" that
      was read. */
  lemma ClosedMarkerText(chs: seq<char>, k: nat, rr: seq<char>)
    requires k < |chs| && chs[k] == ')'
    requires rr == chs[k + 1..] || rr == chs[k + 1..] + [')']
    ensures chs[..k] + [')'] + rr == chs || chs[..k] + [')'] + rr == chs + [')']
  {
    CutAtClose(chs, k);
    if rr != chs[k + 1..] {
      assert chs[..k] + [')'] + rr == (chs[..k] + [')'] + chs[k + 1..]) + [')'];
    }
  }

  lemma RenderMarkedStep(chs: seq<char>)
    requires 1 < |chs| && chs[1] == '(' && RendersBack(After(chs, CloseFrom(chs, 2)))
    ensures RendersBack(chs)
  {
    var k := CloseFrom(chs, 2);
    var rr := Render(Segments(After(chs, k)));
    MarkedParts(chs);
    CloseFromIsFirstClose(chs, 2);
    if k < |chs| {
      ClosedMarkerText(chs, k, rr);
    } else {
      assert chs[..k] == chs;
    }
  }

  /** Rendering the segments of a line gives the line back, with a ")" added
      when the last marker runs to the end of the line. */
  lemma {:induction false} RenderOfSegments(chs: seq<char>)
    ensures RendersBack(chs)
    decreases |chs|
  {
    if |chs| == 0 {
      assert Segments(chs) == [];
    } else if 1 < |chs| && chs[1] == '(' {
      RenderOfSegments(After(chs, CloseFrom(chs, 2)));
      RenderMarkedStep(chs);
    } else {
      RenderOfSegments(chs[1..]);
      RenderPlainStep(chs);
    }
  }

  /** The token of one segment: `class音韻地位.from描述` and `callDeriver`
      for a marked character. */
  function Realize(sv: Services, schemes: seq<Scheme>, s: Segment): Result<Token, Failure>
  {
    match s
    case Plain(c) => Ok(Text(c))
    case Marked(h, d) =>
      match sv.fromDescription(d)
      case None => Err(DescriptionFailed(d))
      case Some(p) =>
        match CallDeriver(schemes, p, Some([h]), sv.describe)
        case Err(f) => Err(f)
        case Ok(v) => Ok(Ruby(h, v))
  }

  /** A ruby shows, for the marked character, what every scheme derives for
      the described position, in scheme order; an undescribable position
      stops the run with its description. */
  lemma RealizeMarked(sv: Services, schemes: seq<Scheme>, h: char, d: string)
    ensures sv.fromDescription(d).None? ==> Realize(sv, schemes, Marked(h, d)) == Err(DescriptionFailed(d))
    ensures var r := Realize(sv, schemes, Marked(h, d));
            r.Ok? ==> && r.value.Ruby? && r.value.head == h && sv.fromDescription(d).Some?
                      && |r.value.readings| == |schemes|
                      && forall k :: 0 <= k < |schemes| ==>
                           schemes[k](sv.fromDescription(d).value, Some([h])) == Ok(r.value.readings[k])
  {
  }

  /** The tokens of a line as the loop builds them (lines 323-342). */
  function LineTokens(sv: Services, schemes: seq<Scheme>, chs: seq<char>): Result<seq<Token>, Failure>
    decreases |chs|
  {
    if |chs| == 0 then Ok([])
    else if 1 < |chs| && chs[1] == '(' then
      var k := CloseFrom(chs, 2);
      match Realize(sv, schemes, Marked(chs[0], chs[2..k]))
      case Err(f) => Err(f)
      case Ok(t) => Prepend([t], LineTokens(sv, schemes, After(chs, k)))
    else Prepend([Text(chs[0])], LineTokens(sv, schemes, chs[1..]))
  }

  function RealizeWith(sv: Services, schemes: seq<Scheme>): Segment -> Result<Token, Failure>
  {
    (s: Segment) => Realize(sv, schemes, s)
  }

  /** The loop realises the segments of the line one by one, in order; the
      first failure is the result. */
  lemma {:induction false} LineTokensRealizeSegments(sv: Services, schemes: seq<Scheme>, chs: seq<char>)
    ensures LineTokens(sv, schemes, chs) == TryMap(Segments(chs), RealizeWith(sv, schemes))
    decreases |chs|
  {
    var segs := Segments(chs);
    if |chs| > 0 {
      var rest := if 1 < |chs| && chs[1] == '(' then After(chs, CloseFrom(chs, 2)) else chs[1..];
      LineTokensRealizeSegments(sv, schemes, rest);
      assert segs[1..] == Segments(rest);
    }
  }

  /** A line's tokens follow its segments: the same characters, a ruby
      exactly where there is a marker. */
  lemma TokensFollowSegments(sv: Services, schemes: seq<Scheme>, chs: seq<char>)
    requires LineTokens(sv, schemes, chs).Ok?
    ensures var ts := LineTokens(sv, schemes, chs).value;
            var segs := Segments(chs);
            |ts| == |segs| && forall k :: 0 <= k < |ts| ==>
              (ts[k].Ruby? <==> segs[k].Marked?) && (if ts[k].Ruby? then ts[k].head else ts[k].c) == Head(segs[k])
  {
    LineTokensRealizeSegments(sv, schemes, chs);
    var segs := Segments(chs);
    forall k | 0 <= k < |segs| ensures RealizeWith(sv, schemes)(segs[k]) == Realize(sv, schemes, segs[k]) { }
  }

  /** The remainder of the line from index `i`; past the end it is empty. */
  function Suffix(chs: seq<char>, i: nat): seq<char>
  {
    if i <= |chs| then chs[i..] else []
  }

  /** A turn of the loop from index `i` that yields `r` and resumes at
      `next` agrees with the tokens of the rest of the line: a failure is
      the line's failure, a token is the first of the rest's tokens. */
  predicate Advances(sv: Services, schemes: seq<Scheme>, chs: seq<char>, i: nat, r: Result<Token, Failure>, next: nat)
  {
    && (r.Err? ==> LineTokens(sv, schemes, Suffix(chs, i)) == Err(r.error))
    && (r.Ok? ==> LineTokens(sv, schemes, Suffix(chs, i)) == Prepend([r.value], LineTokens(sv, schemes, Suffix(chs, next))))
  }

  /** A character not followed by "(" is emitted as itself. */
  lemma PlainLineStep(sv: Services, schemes: seq<Scheme>, chs: seq<char>, i: nat)
    requires i < |chs| && !(i + 1 < |chs| && chs[i + 1] == '(')
    ensures Advances(sv, schemes, chs, i, Ok(Text(chs[i])), i + 1)
  {
    var suffix := chs[i..];
    assert suffix[1..] == Suffix(chs, i + 1);
  }

  /** A marker from `j` whose scan stopped at `i` is realised from the text
      between the parentheses, and the line goes on after `i`. */
  lemma MarkedLineStep(sv: Services, schemes: seq<Scheme>, chs: seq<char>, j: nat, i: nat, t: Result<Token, Failure>, next: nat)
    requires j + 2 <= |chs| && chs[j + 1] == '(' && i == CloseFrom(chs, j + 2)
    requires t == Realize(sv, schemes, Marked(chs[j], chs[j + 2..i]))
    requires next == i + 1
    ensures Advances(sv, schemes, chs, j, t, next)
  {
    CloseFromIsFirstClose(chs, j + 2);
    var suffix := chs[j..];
    var k := CloseFrom(suffix, 2);
    CloseFromIsFirstClose(suffix, 2);
    assert forall m :: 0 <= m < |suffix| ==> suffix[m] == chs[j + m];
    assert k == i - j;
    assert After(suffix, k) == Suffix(chs, i + 1);
    assert suffix[2..k] == chs[j + 2..i];
  }

  /** `while (chs[++i] !== ")" && i < chs.length);` from the "(" at `j + 1`:
      the index of the first ")" after it, or the end of the line. */
  method ScanToClose(chs: seq<char>, j: nat) returns (i: nat)
    requires j + 1 < |chs|
    ensures i == CloseFrom(chs, j + 2)
  {
    i := j + 2;  // the first `++i` passes the "(" at j + 1, which is never ")"
    while i < |chs| && chs[i] != ')'
      invariant j + 2 <= i <= |chs|
      invariant CloseFrom(chs, i) == CloseFrom(chs, j + 2)
    {
      i := i + 1;
    }
  }

  /** A turn of the loop at a character followed by "(": the ruby of the
      marker, resuming after its ")". */
  method ConvertMarkerAt(sv: Services, schemes: seq<Scheme>, chs: seq<char>, i: nat)
    returns (r: Result<Token, Failure>, next: nat)
    requires i + 1 < |chs| && chs[i + 1] == '('
    ensures i < next <= |chs| + 1
    ensures Advances(sv, schemes, chs, i, r, next)
  {
    var close := ScanToClose(chs, i);
    r := Realize(sv, schemes, Marked(chs[i], chs[i + 2..close]));
    next := close + 1;
    MarkedLineStep(sv, schemes, chs, i, close, r, next);
  }

  /** One turn of the loop at index `i`: the token emitted there and the
      index the next turn starts from, or the failure that ends the line. */
  method ConvertAt(sv: Services, schemes: seq<Scheme>, chs: seq<char>, i: nat)
    returns (r: Result<Token, Failure>, next: nat)
    requires i < |chs|
    ensures i < next <= |chs| + 1
    ensures Advances(sv, schemes, chs, i, r, next)
  {
    if i + 1 < |chs| && chs[i + 1] == '(' {
      r, next := ConvertMarkerAt(sv, schemes, chs, i);
    } else {
      PlainLineStep(sv, schemes, chs, i);
      r := Ok(Text(chs[i]));
      next := i + 1;
    }
  }

  /** The loop over one line as written. */
  method ConvertLine(sv: Services, schemes: seq<Scheme>, line: string) returns (r: Result<seq<Token>, Failure>)
    ensures r == LineTokens(sv, schemes, line)
  {
    var chs := line;
    var output: seq<Token> := [];
    var i := 0;
    assert Suffix(chs, 0) == chs;
    PrependNothing(LineTokens(sv, schemes, chs));
    while i < |chs|
      invariant i <= |chs| + 1
      invariant LineTokens(sv, schemes, chs) == Prepend(output, LineTokens(sv, schemes, Suffix(chs, i)))
      decreases |chs| + 1 - i
    {
      var token, next := ConvertAt(sv, schemes, chs, i);
      if token.Err? {
        return Err(token.error);
      }
      PrependTwice(output, [token.value], LineTokens(sv, schemes, Suffix(chs, next)));
      output := output + [token.value];
      i := next;
    }
    assert Suffix(chs, i) == [];
    assert output + [] == output;
    r := Ok(output);
  }

  function LineWith(sv: Services, schemes: seq<Scheme>): string -> Result<seq<Token>, Failure>
  {
    (l: string) => LineTokens(sv, schemes, l)
  }

  /** One passage: its lines, the first one a heading. */
  function PassageOf(sv: Services, schemes: seq<Scheme>, passage: string): (r: Result<seq<Line>, Failure>)
    ensures var lines := Split(passage, "\n");
            && (r.Ok? <==> forall k :: 0 <= k < |lines| ==> LineTokens(sv, schemes, lines[k]).Ok?)
            && (r.Ok? ==> |r.value| == |lines| && forall k :: 0 <= k < |lines| ==>
                  (r.value[k].heading <==> k == 0) && LineTokens(sv, schemes, lines[k]) == Ok(r.value[k].tokens))
  {
    var lines := Split(passage, "\n");
    match TryMap(lines, LineWith(sv, schemes))
    case Err(f) => Err(f)
    case Ok(tss) => Ok(Headed(tss))
  }

  /** The lines of a passage from their tokens: the first is the heading. */
  function Headed(tss: seq<seq<Token>>): seq<Line>
  {
    seq(|tss|, k requires 0 <= k < |tss| => Line(k == 0, tss[k]))
  }

  lemma HeadedSnoc(tss: seq<seq<Token>>, ts: seq<Token>)
    ensures Headed(tss + [ts]) == Headed(tss) + [Line(|tss| == 0, ts)]
  {
  }

  function PassageWith(sv: Services, schemes: seq<Scheme>): string -> Result<seq<Line>, Failure>
  {
    (p: string) => PassageOf(sv, schemes, p)
  }

  /** The whole preset text: its passages, in order; the first failing line
      decides the error. */
  function PresetOf(sv: Services, schemes: seq<Scheme>, text: string): Result<seq<seq<Line>>, Failure>
  {
    TryMap(Split(text, "\n\n"), PassageWith(sv, schemes))
  }

  /** One passage of `convertPresetArticle` as written: its lines in order,
      each through its loop, the first one a heading (`key ? "p" : "h3"`). */
  method ConvertPassage(sv: Services, schemes: seq<Scheme>, text: string)
    returns (r: Result<seq<Line>, Failure>)
    ensures r == PassageOf(sv, schemes, text)
  {
    var lines := Split(text, "\n");
    var passage: seq<Line> := [];
    ghost var tss: seq<seq<Token>> := [];
    for k := 0 to |lines|
      invariant |tss| == k && MapsPrefix(lines, LineWith(sv, schemes), tss)
      invariant passage == Headed(tss)
    {
      var tokens := ConvertLine(sv, schemes, lines[k]);
      if tokens.Err? {
        MapsPrefixErr(lines, LineWith(sv, schemes), tss);
        return Err(tokens.error);
      }
      MapsPrefixSnoc(lines, LineWith(sv, schemes), tss, tokens.value);
      HeadedSnoc(tss, tokens.value);
      passage := passage + [Line(k == 0, tokens.value)];
      tss := tss + [tokens.value];
    }
    MapsPrefixDone(lines, LineWith(sv, schemes), tss);
    r := Ok(passage);
  }

  /** `convertPresetArticle` as written: the passages in order. */
  method ConvertPresetArticle(sv: Services, schemes: seq<Scheme>, text: string)
    returns (r: Result<seq<seq<Line>>, Failure>)
    ensures r == PresetOf(sv, schemes, text)
  {
    var passages := Split(text, "\n\n");
    var out: seq<seq<Line>> := [];
    for i := 0 to |passages|
      invariant |out| == i && MapsPrefix(passages, PassageWith(sv, schemes), out)
    {
      var passage := ConvertPassage(sv, schemes, passages[i]);
      if passage.Err? {
        MapsPrefixErr(passages, PassageWith(sv, schemes), out);
        return Err(passage.error);
      }
      MapsPrefixSnoc(passages, PassageWith(sv, schemes), out, passage.value);
      out := out + [passage.value];
    }
    MapsPrefixDone(passages, PassageWith(sv, schemes), out);
    r := Ok(out);
  }

  /** Nothing of the text is lost between the passages and lines: joining
      the lines of every passage with "\n" and the passages with "\n\n" gives
      back the text, and no line holds a line break. */
  lemma PresetCoversText(text: string)
    ensures var passages := Split(text, "\n\n");
            && Join(passages, "\n\n") == text
            && forall i :: 0 <= i < |passages| ==>
                 Join(Split(passages[i], "\n"), "\n") == passages[i]
                 && forall k, m :: 0 <= k < |Split(passages[i], "\n")| ==> !OccursAt(Split(passages[i], "\n")[k], "\n", m)
  {
    var passages := Split(text, "\n\n");
    SplitJoin(text, "\n\n");
    forall i | 0 <= i < |passages|
      ensures Join(Split(passages[i], "\n"), "\n") == passages[i]
      ensures forall k, m :: 0 <= k < |Split(passages[i], "\n")| ==> !OccursAt(Split(passages[i], "\n")[k], "\n", m)
    {
      SplitJoin(passages[i], "\n");
      SplitPartsFree(passages[i], "\n");
    }
  }
}
