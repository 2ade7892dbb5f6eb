/** Run control of `handlePredefinedOptions` (src/Main.tsx:228-405): the
    preset text is fetched first when it is needed and missing, then every
    schema is compiled, then the handler of the chosen option runs; the
    output area changes only when that handler completes. */
module App {
  import opened Base
  import opened Deriver
  import Article
  import Preset
  import Exports

  /** The option chosen in the interface, one per handler. */
  datatype Mode =
    | ConvertArticle
    | ConvertPresetArticle
    | ExportAllSmallRhymes
    | ExportAllSyllables
    | ExportAllSyllablesWithCount

  /** The options a schema is compiled with (`settings.預設選項`); the engine
      never looks inside them. */
  type Options

  /** A schema as the user keeps it: its source text and its default options. */
  datatype Schema = Schema(input: string, defaults: Options)

  /** `new 推導方案(new Function(..., input))(options)`: a compiled scheme, or
      what the compilation throws. */
  type Compiler = (string, Options) -> Result<Scheme, Thrown>

  /** What a handler puts in the output area. */
  datatype Output =
    | Blank
    | Records(records: seq<Article.Record>)
    | Passages(passages: seq<seq<Preset.Line>>)
    | RhymeLines(lines: seq<Exports.SmallRhyme>)
    | SyllableList(syllables: seq<string>)
    | CountList(counts: seq<Exports.Counted>)

  /** How a run ended. */
  datatype Outcome =
    | FetchPreset                  // the preset text is fetched and the run started again
    | CompileError(cause: Thrown)  // reported as 程式碼錯誤
    | HandlerThrew(failure: Failure)
    | Applied(output: Output)

  function CompileWith(compile: Compiler): Schema -> Result<Scheme, Thrown>
  {
    (s: Schema) => compile(s.input, s.defaults)
  }

  /** Lines 392-398: every schema compiled, in order; the first throw wins. */
  function CompileAll(compile: Compiler, schemas: seq<Schema>): Result<seq<Scheme>, Thrown>
  {
    TryMap(schemas, CompileWith(compile))
  }

  function Wrap<T>(r: Result<T, Failure>, make: T -> Output): Result<Output, Failure>
  {
    match r
    case Err(f) => Err(f)
    case Ok(v) => Ok(make(v))
  }

  /** `handles[option]()`, each handler as the function that specifies it. */
  function Dispatch(sv: Services, schemes: seq<Scheme>, mode: Mode, article: string, convertVariant: bool, preset: string)
    : Result<Output, Failure>
  {
    match mode
    case ConvertArticle =>
      Wrap(Article.Annotate(sv, schemes, convertVariant, article), (rs: seq<Article.Record>) => Records(rs))
    case ConvertPresetArticle =>
      Wrap(Preset.PresetOf(sv, schemes, preset), (ps: seq<seq<Preset.Line>>) => Passages(ps))
    case ExportAllSmallRhymes =>
      Wrap(Exports.AllSmallRhymes(sv, schemes), (ls: seq<Exports.SmallRhyme>) => RhymeLines(ls))
    case ExportAllSyllables =>
      Wrap(Exports.AllSyllables(sv, schemes), (ss: seq<string>) => SyllableList(ss))
    case ExportAllSyllablesWithCount =>
      Wrap(Exports.SyllableCounts(sv, schemes), (cs: seq<Exports.Counted>) => CountList(cs))
  }

  /** A whole run. `preset` is the memoised preset text (`presetArticle`),
      None before it was fetched; JavaScript's `!presetArticle` also holds
      for an empty text. */
  function Run(sv: Services, compile: Compiler, schemas: seq<Schema>, mode: Mode, article: string,
               convertVariant: bool, preset: Option<string>): Outcome
  {
    if mode == ConvertPresetArticle && !Truthy(preset) then FetchPreset
    else
      match CompileAll(compile, schemas)
      case Err(t) => CompileError(t)
      case Ok(schemes) =>
        match Dispatch(sv, schemes, mode, article, convertVariant, if preset.Some? then preset.value else "")
        case Err(f) => HandlerThrew(f)
        case Ok(o) => Applied(o)
  }

  /** The output a handler gives has the shape of its option. */
  predicate ShapeOf(mode: Mode, o: Output)
  {
    match mode
    case ConvertArticle => o.Records?
    case ConvertPresetArticle => o.Passages?
    case ExportAllSmallRhymes => o.RhymeLines?
    case ExportAllSyllables => o.SyllableList?
    case ExportAllSyllablesWithCount => o.CountList?
  }

  /** A run applies output only when every schema compiled and the chosen
      handler returned, and the output is the handler's; in preset mode
      nothing is compiled before the preset text is there. */
  lemma RunOutcomes(sv: Services, compile: Compiler, schemas: seq<Schema>, mode: Mode, article: string,
                    convertVariant: bool, preset: Option<string>)
    ensures var out := Run(sv, compile, schemas, mode, article, convertVariant, preset);
            && (out.FetchPreset? <==> mode == ConvertPresetArticle && (preset.None? || preset.value == ""))
            && (out.CompileError? ==> exists k :: 0 <= k < |schemas| && compile(schemas[k].input, schemas[k].defaults) == Err(out.cause))
            && (out.Applied? ==>
                  && (forall k :: 0 <= k < |schemas| ==> compile(schemas[k].input, schemas[k].defaults).Ok?)
                  && ShapeOf(mode, out.output))
  {
    var out := Run(sv, compile, schemas, mode, article, convertVariant, preset);
    var c := CompileAll(compile, schemas);
    forall k | 0 <= k < |schemas|
      ensures CompileWith(compile)(schemas[k]) == compile(schemas[k].input, schemas[k].defaults)
    {
    }
    if out.CompileError? {
      var k :| 0 <= k < |schemas| && CompileWith(compile)(schemas[k]) == Err(c.error)
               && forall j :: 0 <= j < k ==> CompileWith(compile)(schemas[j]).Ok?;
    }
  }

  /** A compile error ends the run before any handler: the outcome is the
      same whatever the services, the option and the article are, as long
      as the preset text needs no fetching. */
  lemma CompileErrorIgnoresInput(sv: Services, sv': Services, compile: Compiler, schemas: seq<Schema>,
                                 mode: Mode, mode': Mode, article: string, article': string,
                                 convertVariant: bool, convertVariant': bool, preset: Option<string>)
    requires CompileAll(compile, schemas).Err?
    requires Truthy(preset)
    ensures Run(sv, compile, schemas, mode, article, convertVariant, preset)
            == Run(sv', compile, schemas, mode', article', convertVariant', preset)
            == CompileError(CompileAll(compile, schemas).error)
  {
  }

  /** A missing preset text is fetched before anything is compiled: even a
      schema that does not compile does not stop the fetch. */
  lemma FetchBeforeCompile(sv: Services, compile: Compiler, schemas: seq<Schema>, article: string, convertVariant: bool)
    ensures Run(sv, compile, schemas, ConvertPresetArticle, article, convertVariant, None) == FetchPreset
    ensures Run(sv, compile, schemas, ConvertPresetArticle, article, convertVariant, Some("")) == FetchPreset
  {
  }

  /** The state of the `Main` component that handlePredefinedOptions reads and writes. */
  class MainComponent {
    var schemas: seq<Schema>
    var option: Mode
    var article: string
    var convertVariant: bool
    var output: Output
    var isApplied: bool

    constructor(schemas: seq<Schema>, option: Mode, article: string, convertVariant: bool)
      ensures this.schemas == schemas && this.option == option && this.article == article
      ensures this.convertVariant == convertVariant
      ensures output == Blank && !isApplied
    {
      this.schemas := schemas;
      this.option := option;
      this.article := article;
      this.convertVariant := convertVariant;
      output := Blank;
      isApplied := false;
    }

    /** One press of the run button. The output and `isApplied` change only
        when the run applies; everything else is left as it was. */
    method HandlePredefinedOptions(sv: Services, compile: Compiler, preset: Option<string>) returns (outcome: Outcome)
      modifies this
      ensures outcome == Run(sv, compile, schemas, option, article, convertVariant, preset)
      ensures schemas == old(schemas) && option == old(option) && article == old(article)
      ensures convertVariant == old(convertVariant)
      ensures outcome.Applied? ==> output == outcome.output && isApplied
      ensures !outcome.Applied? ==> output == old(output) && isApplied == old(isApplied)
    {
      if option == ConvertPresetArticle && !Truthy(preset) {
        return FetchPreset;
      }
      var compiled := CompileAll(compile, schemas);
      if compiled.Err? {
        return CompileError(compiled.error);
      }
      var schemes := compiled.value;
      var result: Result<Output, Failure>;
      match option {  // handles[this.state.option]()
        case ConvertArticle =>
          var r := Article.ConvertArticle(sv, schemes, convertVariant, article);
          result := Wrap(r, (rs: seq<Article.Record>) => Records(rs));
        case ConvertPresetArticle =>
          var r := Preset.ConvertPresetArticle(sv, schemes, preset.value);
          result := Wrap(r, (ps: seq<seq<Preset.Line>>) => Passages(ps));
        case ExportAllSmallRhymes =>
          result := Wrap(Exports.AllSmallRhymes(sv, schemes), (ls: seq<Exports.SmallRhyme>) => RhymeLines(ls));
        case ExportAllSyllables =>
          result := Wrap(Exports.AllSyllables(sv, schemes), (ss: seq<string>) => SyllableList(ss));
        case ExportAllSyllablesWithCount =>
          var r := Exports.ExportAllSyllablesWithCount(sv, schemes);
          result := Wrap(r, (cs: seq<Exports.Counted>) => CountList(cs));
      }
      if result.Err? {
        return HandlerThrew(result.error);  // swallowed by the empty catch
      }
      output := result.value;
      isApplied := true;
      return Applied(result.value);
    }
  }
}
