# Qieyun auto-deriver: the derivation engine

This project models the engine behind the "run" button of the qieyun
auto-deriver (`src/Main.tsx`). The user keeps a list of derivation schemas.
Each schema is program text plus default options, and compiles to a function
from a phonological position (音韻地位) and a headword (字頭) to a
transcription. One run compiles every schema. It then runs the handler of the
chosen option:

- **convertArticle** annotates every character of a text with the groups of
  its dictionary entries that derive the same transcriptions. A marker such as
  `字(幫三東平)` pins the reading.
- **convertPresetArticle** renders a fetched, pre-annotated text. It is split
  into passages at blank lines and into lines at newlines; `X(description)`
  becomes a ruby.
- **exportAllSmallRhymes** gives one line per position: its description, its
  transcriptions and its representative characters (get代表字).
- **exportAllSyllables** gives the distinct transcriptions of all positions, in
  order of first appearance.
- **exportAllSyllablesWithCount** gives each transcription with the number of
  positions that produce it, most frequent first.

The Dafny modules follow that structure:

- `Base` holds Option and Result, the services the engine consumes and
  `TryMap`. `TryMap` models a JavaScript `map` whose callback may throw.
- `Deriver` models `callDeriver` and its error message.
- `FirstOccurrence` is "keep the first element per key". Both get代表字's Map
  and `new Set` behave this way.
- `Representatives` models get代表字.
- `Grouping` models the grouping of entries by derived output.
- `Article` models convertArticle.
- `Splitting` models `String.prototype.split` and `join`.
- `Preset` models convertPresetArticle.
- `Exports` models the three export handlers.
- `App` models the compile step, the dispatch, and the component state that a
  run updates.

Loops in the source are methods with loop invariants. Each method is proved
equal to a specification function, and the properties the engine promises are
lemmas about those functions.

The library services are parameters of the model (the `Base.Services` record
and the `App.Compiler` type). These are: the dictionary (query字頭,
query音韻地位, iter音韻地位), the variant table (Yitizi.get), the
description parser and describer (音韻地位.from描述, .描述), 適配分析體系.v2extStrict
and `new Function` compilation. Positions and thrown values are abstract
types, and positions are compared with `==` (the library's 等於).

## Model

| member | source | states |
|---|---|---|
| Base.TryMap | src/Main.tsx:236 | `xs.map(f)` with a throwing `f`: it succeeds iff every element maps, and then gives one value per element in order. Otherwise it gives the error of the first element that throws, and every earlier element mapped. |
| Deriver.CallDeriver | src/Main.tsx:234-246 | Succeeds iff every scheme returns on (position, headword). Then it gives one transcription per scheme, in scheme order. On a throw, the rethrown cause is that of the first throwing scheme, and the notice carries the headword and the position's description. |
| Deriver.KnownMessageColons | src/Main.tsx:239-240 | The message for a non-empty headword has exactly one full-width colon besides those of the headword and the description. |
| Deriver.NullMessageColons | src/Main.tsx:241 | The message for a null headword has only the description's colons. |
| Deriver.MessagesDiffer | src/Main.tsx:238-242 | The known-headword and null-headword messages for the same description never coincide. |
| FirstOccurrence.DedupByIsFirstOccurrences | src/Main.tsx:17-23 | Keeping the first element per key picks exactly the elements whose key does not occur earlier, in increasing index order. |
| FirstOccurrence.DedupByKeys | src/Main.tsx:17-23 | The kept elements carry exactly the keys of the input. |
| FirstOccurrence.DedupByDistinct | src/Main.tsx:17-23 | The kept elements have pairwise distinct keys. |
| FirstOccurrence.DedupByKeepsFirst | src/Main.tsx:19-20 | Every kept element is an input element that no earlier element shares a key with: the first of its key. |
| FirstOccurrence.DedupByOnePerKey | src/Main.tsx:17-23 | As many elements are kept as there are distinct keys. |
| Representatives.GetRepresentatives | src/Main.tsx:16-24 | The Map loop returns the headword of the first entry of every distinct 反切, in order of first appearance. |
| Representatives.RepresentativesAreFirstPerSpelling | src/Main.tsx:16-24 | The kept entries are exactly those whose 反切 does not occur earlier. There is one per distinct 反切 (null counts as one), and no two share a 反切. |
| Grouping.FindGroup | src/Main.tsx:278 | `entries.find`: the index of the first group whose key matches the output vector, or none when no group matches. |
| Grouping.PlaceWellGrouped | src/Main.tsx:277-280 | Placing an entry whose output is the vector keeps the groups well grouped: non-empty, every member deriving its group's key, keys distinct. Existing groups keep their key and place and are only appended to. |
| Grouping.PlaceMembers | src/Main.tsx:279-280 | Placing an entry adds exactly that entry to the members of all groups together. |
| Grouping.FoldErr | src/Main.tsx:277 | Once a derivation throws, the rest of the entries change nothing and the throw escapes. |
| Grouping.FoldAppend | src/Main.tsx:276-281 | Grouping `a + b` is grouping `b` on top of the result for `a`. |
| Grouping.FoldInvariant | src/Main.tsx:276-281 | A successful fold keeps its groups well grouped and only appends to the starting groups. Its members are the old members plus the new entries, as a multiset. |
| Grouping.GroupAllCorrect | src/Main.tsx:276-281 | Two entries share a group exactly when their output vectors are equal. The members are a permutation of the entries, and there are no groups iff there are no entries. |
| Grouping.GroupAllPrefix | src/Main.tsx:276-281 | The groups built for a prefix of the entries are kept, in place and order, by later entries. |
| Article.PlaceEntries | src/Main.tsx:276-281 | The query loop for one headword equals grouping that headword's entries on top of the groups so far. |
| Article.SentinelSeesOwnEntries | src/Main.tsx:269-274 | When the null sentinel is reached, the groups are empty exactly when the character itself has no entries. |
| Article.HeadwordStep | src/Main.tsx:268-282 | One headword of the variant loop extends the grouping of the headwords before it. A throw in it is the result for the whole candidate list. |
| Article.CandidateStep | src/Main.tsx:265-275 | A candidate headword reached by the loop (the character itself, or a variant when variants are enabled or the character has no entries) is the next one queried: the queried list is those before it, then it, then those pending. |
| Article.CandidatesDone | src/Main.tsx:265-275 | A loop that runs to its end has queried exactly `QueriedHeadwords`: the character, then its variants. |
| Article.CollectGroups | src/Main.tsx:265-282 | The variant loop, with its `continue` and `break` at the null sentinel, yields the grouping of the character, its variants when enabled, and its variants when the character has no entries. |
| Article.MarkerIsFirstClose | src/Main.tsx:285-288 | A marker is seen iff `(` follows the character. It is closed at the first `)` within index i+2..i+8. When it is not closed, the scan stops at min(i+9, length) and no `)` lies before the stop. |
| Article.ScanStop | src/Main.tsx:287 | The scan stops within the 9-character window and before the text's end. Nothing before the stop is `)`, and inside the window the stop is a `)`. |
| Article.FindPosition | src/Main.tsx:298 | `findIndex` of the first group with a member at the pinned position, or none if no group has one. |
| Article.PinSelectsPosition | src/Main.tsx:297-305 | A pinned position selects a group that holds it. Either the groups are unchanged, or exactly one new group is appended after the unchanged groups for the character with a null 反切 and its derived key, because no group held the position. A throw happens only when the position was not found. |
| Article.AnnotateOne | src/Main.tsx:262-312 | One turn of the character loop gives the record for character i and the index where the scan ended, at or after i. |
| Article.TurnsAdvance | src/Main.tsx:312 | Every successful turn ends at or after its own index and within the text, so `i = iLast` followed by `i++` moves forward. |
| Article.ConvertArticle | src/Main.tsx:257-315 | The character loop equals the whole-text specification `Annotate`, throws included. |
| Article.TaggedMember | src/Main.tsx:276-279 | Every recorded entry is an entry that the dictionary returns for a queried headword. |
| Article.GroupedEntriesAreQueried | src/Main.tsx:265-281 | Every grouped entry comes from a queried headword. Without variant conversion, the entries of a character that has entries are its own. |
| Article.EnablingVariantsOnlyAdds | src/Main.tsx:268-274 | Enabling variant conversion only extends the groups: the groups of the character alone keep their place. |
| Article.FailedParseIsInert | src/Main.tsx:289-296 | When the description inside a closed marker throws, the character is annotated as if no marker followed it: iLast is reset to i and nothing is preselected. |
| Article.UnclosedMarkerSkips | src/Main.tsx:285-312 | A `(` with no `)` within index i+2..i+8 leaves iLast at min(i+9, length). The next record is for the character after that stop, so the characters in between get no record, and nothing is preselected. |
| Article.PreselectIffParsedMarker | src/Main.tsx:284-305 | A group is preselected iff a closed marker parses to a position. The preselected group holds that position and the loop resumes after the `)`. A character is skipped only after a `(`. |
| Article.QueryGroupsWellGrouped | src/Main.tsx:276-281 | The groups of one character are non-empty, their members derive their keys, and the keys are distinct. |
| Article.PinnedRecordOk | src/Main.tsx:297-305 | Pinning keeps the record well formed. A repeated key can appear only in the group appended for the pinned position. |
| Article.AnnotateCharOk | src/Main.tsx:262-310 | Every record a turn produces is well formed. |
| Article.TurnsOfArticleFit | src/Main.tsx:261-313 | Every turn of a text is for its own character, ends within the text, and jumps ahead only after a `(`. |
| Article.RecordsWellFormed | src/Main.tsx:257-315 | Every record of a converted text is well formed. |
| Article.RecordsFollowText | src/Main.tsx:261-313 | The records are for characters of the text at strictly increasing indices, starting at 0. A character is skipped only right after a `(`, and there are records iff the text is non-empty. |
| Article.PlainTextOneRecordEach | src/Main.tsx:261-313 | A text with no `(` after a character gets one record per character, in order, none preselected. |
| Splitting.FindFrom | src/Main.tsx:318 | The first occurrence of the separator at or after an index, or none. |
| Splitting.SplitJoin | src/Main.tsx:318 | Joining `split(sep)` with `sep` gives back the text. |
| Splitting.SplitPartsFree | src/Main.tsx:320 | No part of `split(sep)` contains the separator. |
| Preset.CloseFromIsFirstClose | src/Main.tsx:327 | `while (chs[++i] !== ")" && i < chs.length)` stops at the first `)` from i+2 on, or at the end of the line. |
| Preset.ScanToClose | src/Main.tsx:326-327 | The scan loop ends where `CloseFrom` says. |
| Preset.RealizeMarked | src/Main.tsx:329-332 | A marker whose description does not parse fails with that description. Otherwise it becomes a ruby on its head character, with one reading per scheme, derived from the parsed position and that character. |
| Preset.MarkedLineStep | src/Main.tsx:325-332 | A marker turn gives the marker's segment and resumes after its close. |
| Preset.PlainLineStep | src/Main.tsx:342 | A plain turn gives the character as text and resumes at the next one. |
| Preset.ConvertMarkerAt | src/Main.tsx:325-341 | A marker turn of the line loop produces the next segment's token and moves past it. |
| Preset.ConvertAt | src/Main.tsx:324-342 | Every turn of the line loop produces the token of the segment that starts there, and moves forward. |
| Preset.ConvertLine | src/Main.tsx:322-343 | The line loop equals `LineTokens`, throws included. |
| Preset.SegmentsOfRender | src/Main.tsx:324-342 | Segmenting the rendering of well-formed segments gives them back. |
| Preset.SegmentsWellFormed | src/Main.tsx:324-342 | Segmenting any line gives well-formed segments. |
| Preset.RenderOfSegments | src/Main.tsx:324-342 | Rendering the segments of a line gives the line back, possibly with a `)` added at the end for an unclosed final marker. |
| Preset.LineTokensRealizeSegments | src/Main.tsx:324-342 | A line's tokens are its segments realized in order, and the first throw wins. |
| Preset.TokensFollowSegments | src/Main.tsx:324-342 | There is one token per segment, a ruby exactly for a marked segment, on the segment's head character. |
| Preset.PassageOf | src/Main.tsx:320-351 | A passage succeeds iff every line does. Then there is one line per `\n`-separated line, the first one a heading (`h3`) and the rest paragraphs. |
| Preset.ConvertPassage | src/Main.tsx:320-351 | The passage loop equals `PassageOf`. |
| Preset.ConvertPresetArticle | src/Main.tsx:317-354 | The passage loop over the text split at blank lines equals `PresetOf`. |
| Preset.PresetCoversText | src/Main.tsx:318-320 | The passages rejoin to the text and their lines rejoin to the passages. No line contains a newline. |
| Exports.FirstRepresentative | src/Main.tsx:358-361 | `代表字s[0]` is the headword of the position's first entry, or none when it has none. |
| Exports.SmallRhymeOfPosition | src/Main.tsx:357-365 | A small-rhyme line holds the position's description, its representatives, and one transcription per scheme derived with the first representative. On a throw, the failure is that derivation's. |
| Exports.SmallRhymeLines | src/Main.tsx:356-366 | There is one line per position in store order. Otherwise the error is the first position's derivation failure. |
| Exports.DerivedSyllableOf | src/Main.tsx:371 | A string is a derived syllable iff some position derives it (null headword, joined with " / "). |
| Exports.AllSyllablesDistinct | src/Main.tsx:368-374 | The syllables are pairwise distinct. They are exactly those some position derives, each at its first appearance. The handler fails iff some derivation does. |
| Exports.FindSyllable | src/Main.tsx:380-381 | `counter.get`: the index of the syllable's entry, or none when it has none. |
| Exports.TallyOrder | src/Main.tsx:379-383 | The counter's keys are the syllables in order of first appearance (Map insertion order). |
| Exports.TallyCounts | src/Main.tsx:379-383 | The counter has distinct keys, exactly the derived syllables, and each count is the number of occurrences, at least 1. |
| Exports.TallyTotal | src/Main.tsx:379-383 | The counts add up to the number of syllables counted. |
| Exports.InsertPermutes | src/Main.tsx:385 | Inserting into the sorted list is a permutation that preserves the total. |
| Exports.InsertDescending | src/Main.tsx:385 | Inserting keeps the list in descending count order. |
| Exports.InsertKeepsTies | src/Main.tsx:385 | Inserting keeps entries of equal count in their original relative order. |
| Exports.SortByCountCorrect | src/Main.tsx:385 | `.sort((a, b) => b[1] - a[1])` is descending, a permutation, preserves the total, and is stable. |
| Exports.SortedTallyMeaning | src/Main.tsx:379-385 | The sorted counter totals the syllables, is descending, and is a stable permutation of the counter in first-appearance order. |
| Exports.SyllableCountsMeaning | src/Main.tsx:376-389 | The counts add up to the number of positions and are each at least 1. The list is descending and stable, and the handler fails iff some derivation does. |
| Exports.MirroredEntries | src/Main.tsx:384 | `Array.from(counter)` lists the counter's entries in insertion order. |
| Exports.CountOne | src/Main.tsx:381 | `counter.set(x, -~counter.get(x))` increments x's count, starting from 1 for a new key, which is appended at the end. |
| Exports.CountingStopsAt | src/Main.tsx:379-380 | A derivation that throws ends the reduce, and its failure is the handler's. |
| Exports.CountingCompletes | src/Main.tsx:379-385 | A reduce that got through every position gives the sorted tally. |
| Exports.ExportAllSyllablesWithCount | src/Main.tsx:376-389 | The reduce-and-sort computes `SyllableCounts`, throws included. |
| App.RunOutcomes | src/Main.tsx:248-405 | Covers the fetch guard (lines 248-254) and the compile-and-dispatch blocks (lines 392-405). A run fetches exactly when preset mode lacks its text. A compile error is some schema's error. Output is applied only when every schema compiled, and it has the shape of the chosen option. |
| App.CompileErrorIgnoresInput | src/Main.tsx:392-402 | A compile error ends the run with that error, whatever the option, the text and the services. |
| App.FetchBeforeCompile | src/Main.tsx:248-254 | In preset mode, a missing or empty preset text is fetched first, even when a schema does not compile. |
| App.MainComponent.HandlePredefinedOptions | src/Main.tsx:228-406 | One run: its outcome is `Run`'s. Output and isApplied change only when the handler completes, and nothing else changes. |

## Left out

- Rendering is not modelled: the React/JSX elements (`Entry`, `ruby`, `rp`/`rt`, `p`/`h3`, hidden spans, `joinWithBr`), the `` `${k} (${v})` `` text of a counted syllable and the `", "` joins of the two syllable exports. The model stops at the syllable list and the counted list those strings are built from. The strings inside them are modelled: the `" / "` join of each syllable, and on a small-rhyme line the description, the `" / "` join of the transcriptions and `代表字s.join("")`.
- Deriver.CallDeriver: notifyError and the SweetAlert dialog are user interface. The message is modelled as a `Notice` record together with its text (`Message`), and the rethrow as the `Err` result.
- App.MainComponent.HandlePredefinedOptions: the fetch of the preset text is asynchronous network I/O. It is modelled as the `FetchPreset` outcome; the re-run after the download is a new call with the text.
- App.MainComponent.HandlePredefinedOptions: the `+new Date()` key prefix is only used in React keys, so it is left out.
- The library, the compilation of schema text (`new Function`, `推導方案`) and its options are parameters of the model. The `Services` record and the `Compiler` type stand for them, and their own behaviour is not part of this model.
- A headword of `undefined` (`代表字s[0]` of a position without entries) and `null` are both `None`. The source treats them alike.
- `Array.from(text)` splits a string into code points; the model treats a string as a sequence of characters, one per code point.
- Schema editing, option storage in localStorage, copying to the clipboard and the rest of the component's interface are not part of this model.
