/**
 * The sequential set-up of `joshua.decoder.Decoder`: reading feature weights
 * (from a weights file and from the configuration), the `BLEU` default,
 * choosing a grammar implementation per `tm` line, creating one phrase model
 * per grammar owner, looking up feature-function classes by name, and the
 * verbosity test. File contents, `Float.parseFloat`, `Integer.parseInt`,
 * `File.isDirectory`, `Class.forName` and `FeatureVector.isDense` are
 * parameters.
 */
module DecoderInit {
  import opened Wrappers
  import opened Text

  /** How set-up can end early: `System.exit(status)` or an unchecked exception. */
  datatype InitError =
    | Exit(status: int)
    | NumberFormatException(text: string)
    | ArrayIndexOutOfBounds(index: int)

  // ---------------------------------------------------------------------------
  // Weights
  // ---------------------------------------------------------------------------

  /** A feature name and its weight, in the order they are stored. */
  type Entry = (string, real)

  /** The weight vector after `put`-ing each entry in turn: a later entry for the same feature replaces an earlier one. */
  function Assign(m: map<string, real>, es: seq<Entry>): map<string, real> {
    if es == [] then m
    else
      var e := es[|es| - 1];
      Assign(m, es[..|es| - 1])[e.0 := e.1]
  }

  /** The names of the entries, in order, repeats included. */
  function Keys(es: seq<Entry>): seq<string> {
    if es == [] then [] else Keys(es[..|es| - 1]) + [es[|es| - 1].0]
  }

  /** The names satisfying `p`, in order. */
  function Filter(p: string -> bool, names: seq<string>): seq<string> {
    if names == [] then []
    else Filter(p, names[..|names| - 1]) + (if p(names[|names| - 1]) then [names[|names| - 1]] else [])
  }

  /** Where weight lines come from: the weights file, or the `weights` lines of the configuration. */
  datatype WeightSource = WeightsFile | ConfigWeights

  /** What reading one weight line does: store a weight, record a feature name, and/or stop with an error. */
  datatype LineEffect = LineEffect(entry: Option<Entry>, name: Option<string>, error: Option<InitError>)

  /** An empty line, a comment, or a line without a space. */
  predicate SkippedWeightLine(line: string) {
    line == "" || StartsWith(line, "#") || StartsWith(line, "//") || ' ' !in line
  }

  /**
   * One line of the weights file: whitespace runs become single spaces;
   * empty lines, comments (`#`, `//`) and lines without a space are skipped;
   * otherwise the first field is the feature and the second its weight.
   */
  function FileLineEffect(parseFloat: string -> Option<real>, raw: string): (eff: LineEffect)
    ensures eff.entry.Some? <==> eff.name.Some?
    ensures eff.entry.Some? ==> eff.name.value == eff.entry.value.0 && eff.error.None?
    ensures SkippedWeightLine(CollapseSpaces(raw)) ==> eff == LineEffect(None, None, None)
  {
    var line := CollapseSpaces(raw);
    if SkippedWeightLine(line) then
      LineEffect(None, None, None)
    else
      var tokens := JavaSplitSpaces(line);
      if |tokens| < 2 then LineEffect(None, None, Some(ArrayIndexOutOfBounds(|tokens|)))
      else
        match parseFloat(tokens[1])
        case None => LineEffect(None, None, Some(NumberFormatException(tokens[1])))
        case Some(v) => LineEffect(Some((tokens[0], v)), Some(tokens[0]), None)
  }

  /**
   * One weight line of the configuration: it must split into exactly two
   * fields (otherwise exit status 17); the feature name is recorded before
   * its weight is parsed.
   */
  function ConfigLineEffect(parseFloat: string -> Option<real>, w: string): (eff: LineEffect)
    ensures eff.error == Some(Exit(17)) <==> |JavaSplitSpaces(w)| != 2
    ensures eff.entry.Some? ==> eff.name == Some(eff.entry.value.0) && eff.error.None?
    ensures eff.name.Some? ==> |JavaSplitSpaces(w)| == 2 && eff.name.value == JavaSplitSpaces(w)[0]
  {
    var pair := JavaSplitSpaces(w);
    if |pair| != 2 then LineEffect(None, None, Some(Exit(17)))
    else
      match parseFloat(pair[1])
      case None => LineEffect(None, Some(pair[0]), Some(NumberFormatException(pair[1])))
      case Some(v) => LineEffect(Some((pair[0], v)), Some(pair[0]), None)
  }

  function Effect(source: WeightSource, parseFloat: string -> Option<real>, line: string): LineEffect {
    match source
    case WeightsFile => FileLineEffect(parseFloat, line)
    case ConfigWeights => ConfigLineEffect(parseFloat, line)
  }

  function OptionSeq<T>(o: Option<T>): seq<T> {
    if o.Some? then [o.value] else []
  }

  /** The entries stored and the names recorded by a run of lines, and the error that stopped it, if any. */
  datatype Scan = Scan(entries: seq<Entry>, names: seq<string>, error: Option<InitError>)

  /** The effect of each line from the given source. */
  function EffectFn(source: WeightSource, parseFloat: string -> Option<real>): string -> LineEffect {
    line => Effect(source, parseFloat, line)
  }

  function ScanLines(lines: seq<string>, effect: string -> LineEffect): Scan {
    if lines == [] then Scan([], [], None)
    else
      var sc := ScanLines(lines[..|lines| - 1], effect);
      if sc.error.Some? then sc
      else
        var eff := effect(lines[|lines| - 1]);
        Scan(sc.entries + OptionSeq(eff.entry), sc.names + OptionSeq(eff.name), eff.error)
  }

  /** What `readWeights` reads: nothing for an empty file name, exit status 1 for a missing file. */
  function WeightsFileScan(fileName: string, fileLines: Option<seq<string>>, parseFloat: string -> Option<real>): Scan {
    if fileName == "" then Scan([], [], None)
    else if fileLines.None? then Scan([], [], Some(Exit(1)))
    else ScanLines(fileLines.value, EffectFn(WeightsFile, parseFloat))
  }

  /** `BLEU` gets weight 0 unless it already has one. */
  function WithBleu(m: map<string, real>): (r: map<string, real>)
    ensures r.Keys == m.Keys + {"BLEU"}
    ensures forall k :: k in m ==> r[k] == m[k]
    ensures "BLEU" !in m ==> r["BLEU"] == 0.0
  {
    if "BLEU" in m then m else m["BLEU" := 0.0]
  }

  // ---------------------------------------------------------------------------
  // Grammars and phrase models
  // ---------------------------------------------------------------------------

  /** The grammar implementation chosen for a `tm` line. */
  datatype GrammarKind = Packed | PhraseTable | MemoryBased(format: string)

  datatype Grammar = Grammar(kind: GrammarKind, file: string, owner: string, spanLimit: int)

  /** `packed` or a directory gives a packed grammar; `phrase` and `moses` a phrase table; anything else a memory-based grammar of that format. */
  function TmKind(format: string, isDirectory: bool): (kind: GrammarKind)
    ensures kind.Packed? <==> format == "packed" || isDirectory
    ensures kind.PhraseTable? ==> format == "phrase" || format == "moses"
    ensures kind.MemoryBased? ==> kind.format == format
  {
    if format == "packed" || isDirectory then Packed
    else if format == "phrase" || format == "moses" then PhraseTable
    else MemoryBased(format)
  }

  /** A `tm` line `FORMAT OWNER SPAN_LIMIT FILE`, or the exception reading its fields raises. */
  function ParseTmLine(tmLine: string, isDirectory: string -> bool, parseInt: string -> Option<int>): (r: Result<Grammar, InitError>)
    ensures var fields := JavaSplitSpaces(JavaTrim(tmLine));
      r.Success? <==> |fields| >= 4 && parseInt(fields[2]).Some?
    ensures var fields := JavaSplitSpaces(JavaTrim(tmLine));
      r.Success? ==> r.value.owner == fields[1] && r.value.file == fields[3] && r.value.spanLimit == parseInt(fields[2]).value
  {
    var tokens := JavaSplitSpaces(JavaTrim(tmLine));
    if |tokens| < 3 then Failure(ArrayIndexOutOfBounds(|tokens|))
    else
      match parseInt(tokens[2])
      case None => Failure(NumberFormatException(tokens[2]))
      case Some(spanLimit) =>
        if |tokens| < 4 then Failure(ArrayIndexOutOfBounds(3))
        else Success(Grammar(TmKind(tokens[0], isDirectory(tokens[3])), tokens[3], tokens[1], spanLimit))
  }

  /** What reading one `tm` line gives. */
  type TmParser = string -> Result<Grammar, InitError>

  /** The parser of `tm` lines, given the file system's directory test and `Integer.parseInt`. */
  function TmLineParser(isDirectory: string -> bool, parseInt: string -> Option<int>): TmParser {
    tmLine => ParseTmLine(tmLine, isDirectory, parseInt)
  }

  /** The grammars built from the `tm` lines, up to the first line that raises an exception. */
  function ParseTmLines(tms: seq<string>, parse: TmParser): (seq<Grammar>, Option<InitError>) {
    if tms == [] then ([], None)
    else
      var (gs, err) := ParseTmLines(tms[..|tms| - 1], parse);
      if err.Some? then (gs, err)
      else
        match parse(tms[|tms| - 1])
        case Success(g) => (gs + [g], None)
        case Failure(e) => (gs, Some(e))
  }

  /** Whether one of the grammars is a phrase table. */
  predicate HasPhraseTable(gs: seq<Grammar>) {
    gs != [] && (HasPhraseTable(gs[..|gs| - 1]) || gs[|gs| - 1].kind.PhraseTable?)
  }

  /** The glue grammar used when no `tm` line is given; an unset `JOSHUA` prints as `null`. */
  function GlueGrammar(joshuaHome: Option<string>): Grammar {
    var home := if joshuaHome.Some? then joshuaHome.value else "null";
    Grammar(MemoryBased("thrax"), home + "/data/glue-grammar", "glue", -1)
  }

  function Owners(gs: seq<Grammar>): seq<string> {
    if gs == [] then [] else Owners(gs[..|gs| - 1]) + [gs[|gs| - 1].owner]
  }

  /** The first occurrence of each element, in order of first occurrence. */
  function Distinct(s: seq<string>): (d: seq<string>)
    ensures |d| <= |s|
    ensures forall i :: 0 <= i < |d| ==> d[i] in s
  {
    if s == [] then []
    else
      var d := Distinct(s[..|s| - 1]);
      if s[|s| - 1] in s[..|s| - 1] then d else d + [s[|s| - 1]]
  }

  /** The position of the first occurrence of `x` in `s`. */
  function FirstIndex(s: seq<string>, x: string): nat
    requires x in s
  {
    if x in s[..|s| - 1] then FirstIndex(s[..|s| - 1], x) else |s| - 1
  }

  /** A feature function the decoder creates; only phrase models are created in this model. */
  datatype FeatureFunction = PhraseModel(args: seq<string>)

  function PhraseModelFor(owner: string): FeatureFunction {
    PhraseModel(["tm", "-owner", owner])
  }

  function PhraseModels(owners: seq<string>): seq<FeatureFunction> {
    if owners == [] then [] else PhraseModels(owners[..|owners| - 1]) + [PhraseModelFor(owners[|owners| - 1])]
  }

  // ---------------------------------------------------------------------------
  // Feature-function classes
  // ---------------------------------------------------------------------------

  /** The packages searched for feature-function classes, in order. */
  const FeaturePackages: seq<string> := ["joshua.decoder.ff", "joshua.decoder.ff.lm", "joshua.decoder.ff.phrase"]

  /** The class names tried: in each package the bare name, then the name with `FF` appended. */
  function Candidates(packages: seq<string>, featureName: string): (names: seq<string>)
    ensures |names| == 2 * |packages|
  {
    if packages == [] then []
    else
      var p := packages[|packages| - 1];
      Candidates(packages[..|packages| - 1], featureName) + [p + "." + featureName, p + "." + featureName + "FF"]
  }

  /** The first name for which `exists` holds. */
  function FirstHit(names: seq<string>, exists_: string -> bool): (hit: Option<string>)
    ensures hit.Some? ==> hit.value in names && exists_(hit.value)
  {
    if names == [] then None
    else if exists_(names[0]) then Some(names[0])
    else FirstHit(names[1..], exists_)
  }

  // ---------------------------------------------------------------------------
  // The decoder
  // ---------------------------------------------------------------------------

  /**
   * The decoder's state. The source keeps the weights, the feature names and
   * the verbosity in static fields; here they are fields of the object.
   */
  class Decoder {
    var weights: map<string, real>
    var featureNames: seq<string>
    var denseFeatureNames: seq<string>
    var verbose: int
    var grammars: seq<Grammar>
    var featureFunctions: seq<FeatureFunction>
    var searchAlgorithm: string

    /** An uninitialised decoder: no grammars, no weights, verbosity 1. */
    constructor (searchAlgorithm: string)
      ensures weights == map[] && featureNames == [] && denseFeatureNames == []
      ensures verbose == 1 && grammars == [] && featureFunctions == []
      ensures this.searchAlgorithm == searchAlgorithm
    {
      weights := map[];
      featureNames := [];
      denseFeatureNames := [];
      verbose := 1;
      grammars := [];
      featureFunctions := [];
      this.searchAlgorithm := searchAlgorithm;
    }

    /** Whether a message of level `i` is logged. */
    function Verbose(i: int): (r: bool)
      reads this
      ensures r <==> i <= verbose
    {
      i <= verbose
    }

    /**
     * Reads weight lines in order, storing each weight and recording each
     * feature name (and, if dense, in the dense list), until a line raises
     * an error.
     */
    method AddWeightLines(lines: seq<string>, effect: string -> LineEffect, isDense: string -> bool)
      returns (error: Option<InitError>)
      modifies this`weights, this`featureNames, this`denseFeatureNames
      ensures var sc := ScanLines(lines, effect);
        weights == Assign(old(weights), sc.entries)
        && featureNames == old(featureNames) + sc.names
        && denseFeatureNames == old(denseFeatureNames) + Filter(isDense, sc.names)
        && error == sc.error
    {
      ghost var sc := Scan([], [], None);
      ghost var w0, f0, d0 := weights, featureNames, denseFeatureNames;
      assert f0 + [] == f0 && d0 + [] == d0;
      var i := 0;
      while i < |lines|
        invariant 0 <= i <= |lines|
        invariant sc == ScanLines(lines[..i], effect) && sc.error.None?
        invariant weights == Assign(w0, sc.entries)
        invariant featureNames == f0 + sc.names
        invariant denseFeatureNames == d0 + Filter(isDense, sc.names)
      {
        var eff := effect(lines[i]);
        WeightLineNext(lines, i, effect, isDense, sc, w0, f0, d0);
        Apply(eff, isDense);
        sc := Scan(sc.entries + OptionSeq(eff.entry), sc.names + OptionSeq(eff.name), eff.error);
        if eff.error.Some? {
          return eff.error;
        }
        i := i + 1;
      }
      assert lines[..i] == lines;
      error := None;
    }

    /**
     * What the weight loop does with one line: store its weight, record its
     * feature name, and record the name as dense too when it is dense.
     */
    method Apply(eff: LineEffect, isDense: string -> bool)
      modifies this`weights, this`featureNames, this`denseFeatureNames
      ensures weights == Assign(old(weights), OptionSeq(eff.entry))
      ensures featureNames == old(featureNames) + OptionSeq(eff.name)
      ensures denseFeatureNames == old(denseFeatureNames) + Filter(isDense, OptionSeq(eff.name))
    {
      FilterOption(isDense, eff.name);
      if eff.entry.Some? {
        weights := weights[eff.entry.value.0 := eff.entry.value.1];
        assert OptionSeq(eff.entry)[..0] == [];
      }
      if eff.name.Some? {
        featureNames := featureNames + [eff.name.value];
        if isDense(eff.name.value) {
          denseFeatureNames := denseFeatureNames + [eff.name.value];
        }
      }
    }

    /**
     * `readWeights(fileName)`: starts a new, empty weight vector and, unless
     * the file name is empty, adds the weights read from the file. The
     * feature-name lists are not reset.
     */
    method ReadWeights(fileName: string, fileLines: Option<seq<string>>,
                       parseFloat: string -> Option<real>, isDense: string -> bool)
      returns (error: Option<InitError>)
      modifies this`weights, this`featureNames, this`denseFeatureNames
      ensures var sc := WeightsFileScan(fileName, fileLines, parseFloat);
        weights == Assign(map[], sc.entries)
        && featureNames == old(featureNames) + sc.names
        && denseFeatureNames == old(denseFeatureNames) + Filter(isDense, sc.names)
        && error == sc.error
    {
      weights := map[];
      if fileName == "" {
        assert featureNames + [] == featureNames && denseFeatureNames + [] == denseFeatureNames;
        return None;
      }
      if fileLines.None? {
        assert featureNames + [] == featureNames && denseFeatureNames + [] == denseFeatureNames;
        return Some(Exit(1));
      }
      error := AddWeightLines(fileLines.value, EffectFn(WeightsFile, parseFloat), isDense);
    }

    /** Adds `BLEU` with weight 0 when no weight for it has been read. */
    method AddBleuDefault()
      modifies this`weights
      ensures weights == WithBleu(old(weights))
    {
      if "BLEU" !in weights {
        weights := weights["BLEU" := 0.0];
      }
    }

    /**
     * The weight part of `initialize`: the weights file, then the weight
     * lines of the configuration (which therefore override the file), then
     * `show_weights_and_quit` (exit status 0), then the `BLEU` default.
     */
    method InitializeWeights(weightsFile: string, fileLines: Option<seq<string>>, configWeights: seq<string>,
                             showWeightsAndQuit: bool,
                             parseFloat: string -> Option<real>, isDense: string -> bool)
      returns (error: Option<InitError>)
      modifies this`weights, this`featureNames, this`denseFeatureNames
      ensures var f := WeightsFileScan(weightsFile, fileLines, parseFloat);
        f.error.Some? ==>
          error == f.error && weights == Assign(map[], f.entries)
          && featureNames == old(featureNames) + f.names
          && denseFeatureNames == old(denseFeatureNames) + Filter(isDense, f.names)
      ensures var f := WeightsFileScan(weightsFile, fileLines, parseFloat);
        var c := ScanLines(configWeights, EffectFn(ConfigWeights, parseFloat));
        f.error.None? ==>
          featureNames == old(featureNames) + f.names + c.names
          && denseFeatureNames == old(denseFeatureNames) + Filter(isDense, f.names + c.names)
          && (c.error.Some? ==> error == c.error && weights == Assign(map[], f.entries + c.entries))
          && (c.error.None? && showWeightsAndQuit ==> error == Some(Exit(0)) && weights == Assign(map[], f.entries + c.entries))
          && (c.error.None? && !showWeightsAndQuit ==> error == None && weights == WithBleu(Assign(map[], f.entries + c.entries)))
    {
      error := ReadWeights(weightsFile, fileLines, parseFloat, isDense);
      if error.Some? {
        return;
      }
      ghost var f := WeightsFileScan(weightsFile, fileLines, parseFloat);
      error := AddWeightLines(configWeights, EffectFn(ConfigWeights, parseFloat), isDense);
      ghost var c := ScanLines(configWeights, EffectFn(ConfigWeights, parseFloat));
      AssignAppend(map[], f.entries, c.entries);
      FilterAppend(isDense, f.names, c.names);
      AppendAssoc(old(denseFeatureNames), Filter(isDense, f.names), Filter(isDense, c.names));
      if error.Some? {
        return;
      }
      if showWeightsAndQuit {
        return Some(Exit(0));
      }
      AddBleuDefault();
    }

    /**
     * The `tm` part of `initializeTranslationGrammars`: one grammar per `tm`
     * line (a phrase table also switches the search to `stack`), or the glue
     * grammar when there is no `tm` line.
     */
    method LoadGrammars(tms: seq<string>, isDirectory: string -> bool, parseInt: string -> Option<int>,
                        joshuaHome: Option<string>)
      returns (error: Option<InitError>)
      modifies this`grammars, this`searchAlgorithm
      ensures tms == [] ==>
        grammars == old(grammars) + [GlueGrammar(joshuaHome)] && searchAlgorithm == old(searchAlgorithm) && error.None?
      ensures tms != [] ==>
        var parsed := ParseTmLines(tms, TmLineParser(isDirectory, parseInt));
        grammars == old(grammars) + parsed.0 && error == parsed.1
        && searchAlgorithm == (if HasPhraseTable(parsed.0) then "stack" else old(searchAlgorithm))
    {
      if |tms| == 0 {
        grammars := grammars + [GlueGrammar(joshuaHome)];
        return None;
      }
      error := AddTmGrammars(tms, TmLineParser(isDirectory, parseInt));
    }

    /**
     * The `tm` loop: each line in turn becomes a grammar (a phrase table also
     * switches the search to `stack`) until a line raises an exception.
     */
    method AddTmGrammars(tms: seq<string>, parse: TmParser)
      returns (error: Option<InitError>)
      modifies this`grammars, this`searchAlgorithm
      ensures var parsed := ParseTmLines(tms, parse);
        grammars == old(grammars) + parsed.0 && error == parsed.1
        && searchAlgorithm == (if HasPhraseTable(parsed.0) then "stack" else old(searchAlgorithm))
    {
      ghost var gs: seq<Grammar> := [];
      ghost var g0 := grammars;
      ghost var s0 := searchAlgorithm;
      var i := 0;
      while i < |tms|
        invariant 0 <= i <= |tms|
        invariant ParseTmLines(tms[..i], parse) == (gs, None)
        invariant grammars == g0 + gs
        invariant searchAlgorithm == (if HasPhraseTable(gs) then "stack" else s0)
      {
        var r := parse(tms[i]);
        ParseTmLinesNext(tms, i, parse, gs, r, g0);
        if r.Failure? {
          return Some(r.error);
        }
        var g := r.value;
        if g.kind.PhraseTable? {
          searchAlgorithm := "stack";
        }
        grammars := grammars + [g];
        gs := gs + [g];
        i := i + 1;
      }
      assert tms[..i] == tms;
      error := None;
    }

    /** The owner loop: one phrase model per distinct grammar owner, in order of first appearance. */
    method CreatePhraseModels()
      modifies this`featureFunctions
      ensures featureFunctions == old(featureFunctions) + PhraseModels(Distinct(Owners(grammars)))
    {
      var owners := Owners(grammars);
      OwnersLength(grammars);
      ghost var f0 := featureFunctions;
      var ownersSeen: set<string> := {};
      var i := 0;
      while i < |grammars|
        invariant 0 <= i <= |grammars|
        invariant forall x :: x in ownersSeen <==> x in owners[..i]
        invariant featureFunctions == f0 + PhraseModels(Distinct(owners[..i]))
      {
        var owner := grammars[i].owner;
        OwnerNext(grammars, i, f0);
        if owner !in ownersSeen {
          featureFunctions := featureFunctions + [PhraseModelFor(owner)];
          ownersSeen := ownersSeen + {owner};
        }
        i := i + 1;
      }
      assert owners[..i] == owners;
    }

    /**
     * `initializeTranslationGrammars`: the grammars, then one phrase model
     * per distinct owner over all the decoder's grammars.
     */
    method InitializeTranslationGrammars(tms: seq<string>, isDirectory: string -> bool,
                                         parseInt: string -> Option<int>, joshuaHome: Option<string>)
      returns (error: Option<InitError>)
      modifies this`grammars, this`searchAlgorithm, this`featureFunctions
      ensures error == (if tms == [] then None else ParseTmLines(tms, TmLineParser(isDirectory, parseInt)).1)
      ensures grammars == old(grammars)
        + (if tms == [] then [GlueGrammar(joshuaHome)] else ParseTmLines(tms, TmLineParser(isDirectory, parseInt)).0)
      ensures error.None? ==> featureFunctions == old(featureFunctions) + PhraseModels(Distinct(Owners(grammars)))
      ensures error.Some? ==> featureFunctions == old(featureFunctions)
    {
      error := LoadGrammars(tms, isDirectory, parseInt, joshuaHome);
      if error.Some? {
        return;
      }
      CreatePhraseModels();
    }

    /**
     * `getClass(featureName)`: tries each package in order, the bare name
     * before the name with `FF`, and gives the first class that exists.
     */
    method GetClass(featureName: string, classExists: string -> bool) returns (clas: Option<string>)
      ensures clas == FirstHit(Candidates(FeaturePackages, featureName), classExists)
    {
      var packages := FeaturePackages;
      var i := 0;
      while i < |packages|
        invariant 0 <= i <= |packages|
        invariant FirstHit(Candidates(packages[..i], featureName), classExists) == None
      {
        var path := packages[i];
        CandidatesStep(packages, i, featureName);
        FirstHitAppend(Candidates(packages[..i], featureName), [path + "." + featureName, path + "." + featureName + "FF"], classExists);
        if classExists(path + "." + featureName) {
          clas := Some(path + "." + featureName);
          CandidatesRest(packages, i + 1, featureName, classExists);
          return;
        }
        if classExists(path + "." + featureName + "FF") {
          clas := Some(path + "." + featureName + "FF");
          CandidatesRest(packages, i + 1, featureName, classExists);
          return;
        }
        FirstHitPair(path + "." + featureName, path + "." + featureName + "FF", classExists);
        i := i + 1;
      }
      assert packages[..i] == packages;
      clas := None;
    }
  }

  // ---------------------------------------------------------------------------
  // Lemmas: weights
  // ---------------------------------------------------------------------------

  /**
   * One more weight line, in the terms the weight loop updates its fields:
   * the entry is stored, the name recorded (in the dense list too if it is
   * dense), and an error ends the scan of all the lines.
   */
  lemma WeightLineNext(lines: seq<string>, i: nat, effect: string -> LineEffect, isDense: string -> bool,
                       sc: Scan, w0: map<string, real>, f0: seq<string>, d0: seq<string>)
    requires i < |lines| && sc == ScanLines(lines[..i], effect) && sc.error.None?
    ensures var eff := effect(lines[i]);
      var next := Scan(sc.entries + OptionSeq(eff.entry), sc.names + OptionSeq(eff.name), eff.error);
      && ScanLines(lines[..i + 1], effect) == next
      && Assign(w0, next.entries) == Assign(Assign(w0, sc.entries), OptionSeq(eff.entry))
      && f0 + next.names == f0 + sc.names + OptionSeq(eff.name)
      && d0 + Filter(isDense, next.names) == d0 + Filter(isDense, sc.names) + Filter(isDense, OptionSeq(eff.name))
      && (eff.error.Some? ==> ScanLines(lines, effect) == next)
  {
    var eff := effect(lines[i]);
    var named := OptionSeq(eff.name);
    ScanLinesStep(lines, i, effect);
    AssignAppend(w0, sc.entries, OptionSeq(eff.entry));
    FilterAppend(isDense, sc.names, named);
    AppendAssoc(f0, sc.names, named);
    AppendAssoc(d0, Filter(isDense, sc.names), Filter(isDense, named));
    if eff.error.Some? {
      ScanLinesStops(lines, i + 1, effect);
    }
  }

  lemma AppendAssoc<T>(a: seq<T>, b: seq<T>, c: seq<T>)
    ensures a + b + c == a + (b + c)
  {
  }

  lemma FilterOption(p: string -> bool, o: Option<string>)
    ensures Filter(p, OptionSeq(o)) == if o.Some? && p(o.value) then [o.value] else []
  {
    if o.Some? {
      assert OptionSeq(o)[..0] == [];
    }
  }

  lemma ScanLinesStep(lines: seq<string>, i: nat, effect: string -> LineEffect)
    requires i < |lines|
    ensures var sc := ScanLines(lines[..i], effect);
      var eff := effect(lines[i]);
      ScanLines(lines[..i + 1], effect)
        == if sc.error.Some? then sc
           else Scan(sc.entries + OptionSeq(eff.entry), sc.names + OptionSeq(eff.name), eff.error)
  {
    assert lines[..i + 1][..i] == lines[..i];
  }

  /** After an error, the remaining lines change nothing. */
  lemma {:induction false} ScanLinesStops(lines: seq<string>, j: nat, effect: string -> LineEffect)
    requires j <= |lines|
    requires ScanLines(lines[..j], effect).error.Some?
    ensures ScanLines(lines, effect) == ScanLines(lines[..j], effect)
    decreases |lines| - j
  {
    if j < |lines| {
      var p := lines[..|lines| - 1];
      assert p[..j] == lines[..j];
      ScanLinesStops(p, j, effect);
    } else {
      assert lines[..j] == lines;
    }
  }

  /** Storing two runs of entries one after the other is storing their concatenation. */
  lemma {:induction false} AssignAppend(m: map<string, real>, a: seq<Entry>, b: seq<Entry>)
    ensures Assign(m, a + b) == Assign(Assign(m, a), b)
  {
    if b == [] {
      assert a + b == a;
    } else {
      var n := |b| - 1;
      assert (a + b)[..|a + b| - 1] == a + b[..n];
      AssignAppend(m, a, b[..n]);
    }
  }

  lemma {:induction false} FilterAppend(p: string -> bool, a: seq<string>, b: seq<string>)
    ensures Filter(p, a + b) == Filter(p, a) + Filter(p, b)
  {
    if b == [] {
      assert a + b == a;
    } else {
      var n := |b| - 1;
      assert (a + b)[..|a + b| - 1] == a + b[..n];
      FilterAppend(p, a, b[..n]);
    }
  }

  /** The feature of the last entry that names it has that entry's weight. */
  lemma {:induction false} AssignLastWins(m: map<string, real>, es: seq<Entry>, i: nat)
    requires i < |es|
    requires forall j :: i < j < |es| ==> es[j].0 != es[i].0
    ensures es[i].0 in Assign(m, es) && Assign(m, es)[es[i].0] == es[i].1
  {
    var n := |es| - 1;
    if i < n {
      AssignLastWins(m, es[..n], i);
    }
  }

  /** A feature no entry names keeps its old weight, or stays absent. */
  lemma {:induction false} AssignUntouched(m: map<string, real>, es: seq<Entry>, k: string)
    requires forall j :: 0 <= j < |es| ==> es[j].0 != k
    ensures k in Assign(m, es) <==> k in m
    ensures k in m ==> Assign(m, es)[k] == m[k]
  {
    if es != [] {
      AssignUntouched(m, es[..|es| - 1], k);
    }
  }

  /**
   * Configuration weights override the weights file: after both, a feature
   * named by a configuration line has the weight of the last such line, and
   * a feature named only in the file has the weight of the file's last line
   * for it.
   */
  lemma ConfigOverridesFile(fileEntries: seq<Entry>, configEntries: seq<Entry>, k: string)
    ensures forall i ::
              (0 <= i < |configEntries| && configEntries[i].0 == k
               && (forall j :: i < j < |configEntries| ==> configEntries[j].0 != k)) ==>
              (k in Assign(map[], fileEntries + configEntries)
               && Assign(map[], fileEntries + configEntries)[k] == configEntries[i].1)
    ensures (forall j :: 0 <= j < |configEntries| ==> configEntries[j].0 != k) ==>
      (k in Assign(map[], fileEntries + configEntries) <==> k in Assign(map[], fileEntries))
      && (k in Assign(map[], fileEntries) ==> Assign(map[], fileEntries + configEntries)[k] == Assign(map[], fileEntries)[k])
  {
    AssignAppend(map[], fileEntries, configEntries);
    forall i | 0 <= i < |configEntries| && configEntries[i].0 == k
               && (forall j :: i < j < |configEntries| ==> configEntries[j].0 != k)
      ensures k in Assign(map[], fileEntries + configEntries)
              && Assign(map[], fileEntries + configEntries)[k] == configEntries[i].1
    {
      AssignLastWins(Assign(map[], fileEntries), configEntries, i);
    }
    if forall j :: 0 <= j < |configEntries| ==> configEntries[j].0 != k {
      AssignUntouched(Assign(map[], fileEntries), configEntries, k);
    }
  }

  /** After the default, `BLEU` always has a weight: 0 unless one was read; nothing else changes. */
  lemma BleuDefault(m: map<string, real>)
    ensures "BLEU" in WithBleu(m)
    ensures WithBleu(m)["BLEU"] == if "BLEU" in m then m["BLEU"] else 0.0
    ensures forall k :: k != "BLEU" ==> (k in WithBleu(m) <==> k in m)
    ensures forall k :: k != "BLEU" && k in m ==> WithBleu(m)[k] == m[k]
  {
  }

  /**
   * Every feature read is recorded once per line that names it: a repeated
   * feature keeps only its last weight but appears in the name list again.
   * Only a configuration line whose weight does not parse records a name
   * without a weight, and that line stops set-up.
   */
  lemma {:induction false} NamesAreKeys(lines: seq<string>, source: WeightSource, parseFloat: string -> Option<real>)
    ensures var sc := ScanLines(lines, EffectFn(source, parseFloat));
      source.WeightsFile? || sc.error.None? ==> sc.names == Keys(sc.entries)
  {
    if lines != [] {
      var p := lines[..|lines| - 1];
      NamesAreKeys(p, source, parseFloat);
      var sc := ScanLines(p, EffectFn(source, parseFloat));
      var eff := Effect(source, parseFloat, lines[|lines| - 1]);
      if sc.error.None? {
        EffectConsistent(source, parseFloat, lines[|lines| - 1]);
        KeysSnoc(sc.entries, OptionSeq(eff.entry));
      }
    }
  }

  /** A line records a feature name exactly when it stores that feature's weight, unless it stops set-up after recording the name. */
  lemma EffectConsistent(source: WeightSource, parseFloat: string -> Option<real>, raw: string)
    ensures var eff := Effect(source, parseFloat, raw);
      source.WeightsFile? || eff.error.None? ==>
        (eff.entry.Some? <==> eff.name.Some?) && (eff.entry.Some? ==> eff.name.value == eff.entry.value.0)
    ensures var eff := Effect(source, parseFloat, raw);
      eff.error.Some? ==> eff.entry.None?
  {
  }

  lemma KeysSnoc(es: seq<Entry>, more: seq<Entry>)
    requires |more| <= 1
    ensures Keys(es + more) == Keys(es) + (if more == [] then [] else [more[0].0])
  {
    if more == [] {
      assert es + more == es;
    } else {
      assert (es + more)[..|es|] == es;
    }
  }

  /**
   * A configuration weight line that does not split into exactly two fields
   * stops set-up with exit status 17 before anything is recorded; a
   * two-field line records its name and, if the weight parses, stores it.
   */
  lemma ConfigLineCases(parseFloat: string -> Option<real>, w: string)
    ensures var eff := ConfigLineEffect(parseFloat, w);
      var pair := JavaSplitSpaces(w);
      (|pair| != 2 <==> eff.error == Some(Exit(17)))
      && (|pair| != 2 ==> eff.entry.None? && eff.name.None?)
      && (|pair| == 2 ==>
            eff.name == Some(pair[0])
            && (eff.error.None? <==> parseFloat(pair[1]).Some?)
            && (eff.entry.Some? <==> parseFloat(pair[1]).Some?)
            && (eff.entry.Some? ==> eff.entry.value == (pair[0], parseFloat(pair[1]).value)))
  {
  }

  /**
   * A weights-file line is skipped exactly when, after collapsing
   * whitespace, it is empty, a comment, or has no space.
   */
  lemma FileLineSkipped(parseFloat: string -> Option<real>, raw: string)
    ensures FileLineEffect(parseFloat, raw) == LineEffect(None, None, None) <==> SkippedWeightLine(CollapseSpaces(raw))
  {
  }

  // ---------------------------------------------------------------------------
  // Lemmas: grammars and owners
  // ---------------------------------------------------------------------------

  /**
   * The format names are tested in order: `packed` (or a directory) before
   * `phrase`/`moses`, and every other format is kept for the memory-based
   * grammar.
   */
  lemma TmKindCases(format: string, isDirectory: bool)
    ensures TmKind(format, isDirectory).Packed? <==> format == "packed" || isDirectory
    ensures TmKind(format, isDirectory).PhraseTable? <==>
      !isDirectory && (format == "phrase" || format == "moses")
    ensures TmKind(format, isDirectory).MemoryBased? ==> TmKind(format, isDirectory).format == format
  {
  }

  /** The glue grammar is a `thrax` grammar owned by `glue` without a span limit. */
  lemma GlueGrammarShape(joshuaHome: string)
    ensures GlueGrammar(Some(joshuaHome)).file == joshuaHome + "/data/glue-grammar"
    ensures GlueGrammar(None).file == "null/data/glue-grammar"
    ensures GlueGrammar(Some(joshuaHome)).owner == "glue" && GlueGrammar(Some(joshuaHome)).spanLimit == -1
  {
  }

  lemma ParseTmLinesStep(tms: seq<string>, i: nat, parse: TmParser)
    requires i < |tms|
    ensures var (gs, err) := ParseTmLines(tms[..i], parse);
      ParseTmLines(tms[..i + 1], parse)
        == if err.Some? then (gs, err)
           else match parse(tms[i])
             case Success(g) => (gs + [g], None)
             case Failure(e) => (gs, Some(e))
  {
    assert tms[..i + 1][..i] == tms[..i];
  }

  /** One more `tm` line: its grammar is added, or its exception ends the parse of all the lines. */
  lemma ParseTmLinesNext(tms: seq<string>, i: nat, parse: TmParser,
                         gs: seq<Grammar>, r: Result<Grammar, InitError>, before: seq<Grammar>)
    requires i < |tms| && ParseTmLines(tms[..i], parse) == (gs, None)
    requires r == parse(tms[i])
    ensures r.Success? ==> ParseTmLines(tms[..i + 1], parse) == (gs + [r.value], None)
    ensures r.Success? ==> (HasPhraseTable(gs + [r.value]) <==> HasPhraseTable(gs) || r.value.kind.PhraseTable?)
    ensures r.Success? ==> before + gs + [r.value] == before + (gs + [r.value])
    ensures r.Failure? ==> ParseTmLines(tms, parse) == (gs, Some(r.error))
  {
    ParseTmLinesStep(tms, i, parse);
    if r.Failure? {
      ParseTmLinesStops(tms, i + 1, parse);
    } else {
      HasPhraseTableSnoc(gs, r.value);
    }
  }

  /** After a line raises an exception, the remaining lines are not read. */
  lemma {:induction false} ParseTmLinesStops(tms: seq<string>, j: nat, parse: TmParser)
    requires j <= |tms|
    requires ParseTmLines(tms[..j], parse).1.Some?
    ensures ParseTmLines(tms, parse) == ParseTmLines(tms[..j], parse)
    decreases |tms| - j
  {
    if j < |tms| {
      var p := tms[..|tms| - 1];
      assert p[..j] == tms[..j];
      ParseTmLinesStops(p, j, parse);
    } else {
      assert tms[..j] == tms;
    }
  }

  lemma HasPhraseTableSnoc(gs: seq<Grammar>, g: Grammar)
    ensures HasPhraseTable(gs + [g]) <==> HasPhraseTable(gs) || g.kind.PhraseTable?
  {
    assert (gs + [g])[..|gs|] == gs;
  }

  /** A phrase table is among the grammars exactly when some grammar is one. */
  lemma {:induction false} HasPhraseTableSpec(gs: seq<Grammar>)
    ensures HasPhraseTable(gs) <==> exists k :: 0 <= k < |gs| && gs[k].kind.PhraseTable?
  {
    if gs != [] {
      var p := gs[..|gs| - 1];
      HasPhraseTableSpec(p);
      if HasPhraseTable(p) {
        var k :| 0 <= k < |p| && p[k].kind.PhraseTable?;
        assert gs[k] == p[k];
      }
      if exists k :: 0 <= k < |gs| && gs[k].kind.PhraseTable? {
        var k :| 0 <= k < |gs| && gs[k].kind.PhraseTable?;
        if k < |p| {
          assert p[k] == gs[k];
        }
      }
    }
  }

  /** One more grammar in the owner loop: a new owner adds its phrase model, a seen one adds nothing. */
  lemma OwnerNext(gs: seq<Grammar>, i: nat, before: seq<FeatureFunction>)
    requires i < |gs| && |Owners(gs)| == |gs|
    ensures var owners := Owners(gs);
      && owners[..i + 1] == owners[..i] + [gs[i].owner]
      && (gs[i].owner in owners[..i] ==> Distinct(owners[..i + 1]) == Distinct(owners[..i]))
      && (gs[i].owner !in owners[..i] ==>
            before + PhraseModels(Distinct(owners[..i + 1]))
              == before + PhraseModels(Distinct(owners[..i])) + [PhraseModelFor(gs[i].owner)])
  {
    var owners := Owners(gs);
    OwnersAt(gs, i);
    var p := owners[..i + 1];
    assert p == owners[..i] + [gs[i].owner];
    assert p[..i] == owners[..i];
    var d := Distinct(owners[..i]);
    if gs[i].owner !in owners[..i] {
      assert Distinct(p) == d + [gs[i].owner];
      var q := d + [gs[i].owner];
      assert q[..|q| - 1] == d;
      AppendAssoc(before, PhraseModels(d), [PhraseModelFor(gs[i].owner)]);
    }
  }

  lemma {:induction false} OwnersLength(gs: seq<Grammar>)
    ensures |Owners(gs)| == |gs|
  {
    if gs != [] {
      OwnersLength(gs[..|gs| - 1]);
    }
  }

  lemma {:induction false} OwnersAt(gs: seq<Grammar>, i: nat)
    requires i < |gs|
    ensures |Owners(gs)| == |gs| && Owners(gs)[i] == gs[i].owner
  {
    OwnersLength(gs);
    var n := |gs| - 1;
    if i < n {
      OwnersAt(gs[..n], i);
    }
  }

  /** No owner gets two phrase models. */
  lemma {:induction false} DistinctNoDuplicates(s: seq<string>)
    ensures forall i, j :: 0 <= i < j < |Distinct(s)| ==> Distinct(s)[i] != Distinct(s)[j]
  {
    if s != [] {
      var p := s[..|s| - 1];
      DistinctNoDuplicates(p);
      DistinctElements(p);
    }
  }

  /** Every owner, and only the owners, gets a phrase model. */
  lemma {:induction false} DistinctElements(s: seq<string>)
    ensures forall x :: x in Distinct(s) <==> x in s
  {
    if s != [] {
      var p := s[..|s| - 1];
      DistinctElements(p);
      assert s == p + [s[|s| - 1]];
    }
  }

  /** The phrase models come in the order in which their owners first appear. */
  lemma {:induction false} DistinctFirstSeen(s: seq<string>)
    ensures forall x :: x in Distinct(s) ==> x in s
    ensures forall i, j :: 0 <= i < j < |Distinct(s)| ==>
      FirstIndex(s, Distinct(s)[i]) < FirstIndex(s, Distinct(s)[j])
  {
    DistinctElements(s);
    if s != [] {
      var n := |s| - 1;
      var p := s[..n];
      var d := Distinct(p);
      DistinctFirstSeen(p);
      DistinctElements(p);
      forall x | x in p
        ensures FirstIndex(s, x) == FirstIndex(p, x) < n
      {
        FirstIndexBound(p, x);
      }
      if s[n] !in p {
        assert FirstIndex(s, s[n]) == n;
      }
    }
  }

  lemma {:induction false} FirstIndexBound(s: seq<string>, x: string)
    requires x in s
    ensures FirstIndex(s, x) < |s| && s[FirstIndex(s, x)] == x
    ensures forall k :: 0 <= k < FirstIndex(s, x) ==> s[k] != x
  {
    var n := |s| - 1;
    if x in s[..n] {
      FirstIndexBound(s[..n], x);
    } else {
      assert forall k :: 0 <= k < n ==> s[k] == s[..n][k];
    }
  }

  // ---------------------------------------------------------------------------
  // Lemmas: class lookup
  // ---------------------------------------------------------------------------

  lemma CandidatesStep(packages: seq<string>, i: nat, featureName: string)
    requires i < |packages|
    ensures Candidates(packages[..i + 1], featureName)
         == Candidates(packages[..i], featureName)
            + [packages[i] + "." + featureName, packages[i] + "." + featureName + "FF"]
  {
    assert packages[..i + 1][..i] == packages[..i];
  }

  lemma {:induction false} FirstHitAppend(a: seq<string>, b: seq<string>, exists_: string -> bool)
    ensures FirstHit(a + b, exists_) == if FirstHit(a, exists_).Some? then FirstHit(a, exists_) else FirstHit(b, exists_)
  {
    if a != [] {
      assert (a + b)[0] == a[0];
      assert (a + b)[1..] == a[1..] + b;
      FirstHitAppend(a[1..], b, exists_);
    } else {
      assert a + b == b;
    }
  }

  lemma FirstHitPair(a: string, b: string, exists_: string -> bool)
    ensures FirstHit([a, b], exists_) == if exists_(a) then Some(a) else if exists_(b) then Some(b) else None
  {
    assert [b][1..] == [];
    assert FirstHit([b], exists_) == if exists_(b) then Some(b) else None;
    assert [a, b][1..] == [b];
  }

  /** Once a hit is found among the first packages, the later packages do not matter. */
  lemma CandidatesRest(packages: seq<string>, j: nat, featureName: string, exists_: string -> bool)
    requires j <= |packages|
    ensures FirstHit(Candidates(packages[..j], featureName), exists_).Some? ==>
      FirstHit(Candidates(packages, featureName), exists_) == FirstHit(Candidates(packages[..j], featureName), exists_)
  {
    CandidatesAppend(packages[..j], packages[j..], featureName);
    assert packages[..j] + packages[j..] == packages;
    FirstHitAppend(Candidates(packages[..j], featureName), Candidates(packages[j..], featureName), exists_);
  }

  lemma {:induction false} CandidatesAppend(a: seq<string>, b: seq<string>, featureName: string)
    ensures Candidates(a + b, featureName) == Candidates(a, featureName) + Candidates(b, featureName)
  {
    if b == [] {
      assert a + b == a;
    } else {
      var n := |b| - 1;
      assert (a + b)[..|a + b| - 1] == a + b[..n];
      CandidatesAppend(a, b[..n], featureName);
    }
  }

  /**
   * The class found is a candidate that exists and every earlier candidate
   * does not; no class is found exactly when no candidate exists.
   */
  lemma {:induction false} FirstHitSpec(names: seq<string>, exists_: string -> bool)
    ensures var r := FirstHit(names, exists_);
      r.None? <==> forall k :: 0 <= k < |names| ==> !exists_(names[k])
    ensures var r := FirstHit(names, exists_);
      r.Some? ==>
        exists i :: 0 <= i < |names| && names[i] == r.value && exists_(names[i])
                    && forall k :: 0 <= k < i ==> !exists_(names[k])
  {
    if names != [] && !exists_(names[0]) {
      FirstHitSpec(names[1..], exists_);
      var r := FirstHit(names, exists_);
      if r.Some? {
        var i :| 0 <= i < |names[1..]| && names[1..][i] == r.value && exists_(names[1..][i])
          && forall k :: 0 <= k < i ==> !exists_(names[1..][k]);
        assert names[i + 1] == r.value;
        assert forall k :: 0 <= k < i + 1 ==> !exists_(names[k]) by {
          forall k | 0 <= k < i + 1
            ensures !exists_(names[k])
          {
            if k > 0 {
              assert names[k] == names[1..][k - 1];
            }
          }
        }
      } else {
        assert forall k :: 1 <= k < |names| ==> names[k] == names[1..][k - 1];
      }
    }
  }

  /** The six names tried for a feature, in order. */
  lemma FeatureCandidates(featureName: string)
    ensures Candidates(FeaturePackages, featureName) == [
      "joshua.decoder.ff" + "." + featureName, "joshua.decoder.ff" + "." + featureName + "FF",
      "joshua.decoder.ff.lm" + "." + featureName, "joshua.decoder.ff.lm" + "." + featureName + "FF",
      "joshua.decoder.ff.phrase" + "." + featureName, "joshua.decoder.ff.phrase" + "." + featureName + "FF"]
  {
    var ps := FeaturePackages;
    assert ps[..0] == [];
    CandidatesStep(ps, 0, featureName);
    CandidatesStep(ps, 1, featureName);
    CandidatesStep(ps, 2, featureName);
    assert ps[..3] == ps;
  }

  /** A raised verbosity threshold logs everything a lower one does. */
  lemma VerboseMonotone(d: Decoder, i: int, j: int)
    requires j <= i
    ensures d.Verbose(i) ==> d.Verbose(j)
  {
  }
}
