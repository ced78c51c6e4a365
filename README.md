# Joshua decoder support code in Dafny

This project models the sequential pieces of the Joshua machine-translation
toolkit that sit around its multithreaded decoder, and proves what they do:

- **1-best extraction** (`ExtractTopCand.extractOneBest`, module
  `ExtractTopCand`, `extract_top_cand.dfy`). The method reads n-best lines
  `id ||| translation ||| ...` and writes the translation of the first line
  of every run of equal consecutive segment IDs. It stops at the first
  malformed line. It is proved against `OneBest`, a specification built from
  the run heads of the ID sequence.
- **Bundle config rewriting** (`scripts/support/run-bundler.py`, module
  `RunBundler`, `run_bundler.dfy`). This covers:
  - splitting a line into command tokens and a comment, and joining them back;
  - classifying a line as plain, copy, LM-binarize or grammar-pack;
  - resolving the source path and deriving the destination name
    (`.gz` → `.kenlm` / `.packed`);
  - `result()`, which overwrites the last command token in place.

  `ConfigLine` is a class, because `result()` mutates `line_parts`.
- **The grammar rule record** (`MonolingualRule`, module `Rules`,
  `monolingual_rule.dfy`). A class with the feature scores in an `array<real>`
  and in-place column updates. It caches the estimated cost, which is a sum of
  `estimate(rule) * weight` over the feature functions.
- **The stateful feature-function base class** (`DefaultStatefulFF`, module
  `Features`, `default_stateful_ff.dfy`). It holds the weight and the feature
  ID, says it is stateful, and its edge-aware transitions forward to the
  edge-free ones.
- **Decoder set-up** (`Decoder.java`, modules `DecoderInit` in `decoder.dfy`
  and `ConfigRewrite` in `write_config.dfy`). This covers:
  - `writeConfigFile`, which rewrites the weights of a config template;
  - `readWeights`, and the weight-line loop and `BLEU` default of `initialize`;
  - the `tm`-line loop, the glue-grammar fallback and the owner loop of
    `initializeTranslationGrammars`;
  - `getClass` and `VERBOSE(int)`.

  The static weight vector and feature-name lists become fields of a
  `Decoder` class that the methods update.

Shared pieces:

- `text.dfy` (module `Text`) models the string library calls the code relies
  on: Python's `str.split()`, `str.strip()`, `str.partition`, `" ".join` and
  `os.path.basename`/`join`, and Java's `split("\\s+")`, `trim()` and
  `replaceAll("\\s+", " ")`.
- `wrappers.dfy` (module `Wrappers`) holds `Option` (null/None) and `Result`
  (a value or the exception thrown).

Exceptions and `System.exit` calls are modelled as error values that end the
operation. File and process I/O becomes sequences of lines. Library
predicates whose code is not part of this model become function parameters:
the `joshua.util.Regex` patterns, `Float.parseFloat`, `Integer.parseInt`,
`File.isDirectory`/`os.path.isdir`, `Class.forName`, `FeatureVector.isDense`
and `FeatureFunction.estimate`.

## Model

| member | source | states |
|---|---|---|
| ExtractTopCand.ExtractOneBest | src/joshua/util/ExtractTopCand.java:142-178 | On well-formed input the lines written are `OneBest`, the translations at the run heads. At the first malformed line the method reports that line's error, and what was written (and flushed) before it is `OneBest` of the lines before it. |
| ExtractTopCand.LineError | src/joshua/util/ExtractTopCand.java:146-168 | A line is accepted if and only if it splits into at least three columns and its trimmed first column is neither empty nor starts with three bars. Every error carries the offending line. |
| ExtractTopCand.ReadLine | src/joshua/util/ExtractTopCand.java:146-168 | The checks on one line, in the source's order: a missing first column, then an empty trimmed ID or one starting with three bars, then fewer than three columns. A line that passes gives its trimmed ID and its untrimmed second column. |
| ExtractTopCand.ExtractNext | src/joshua/util/ExtractTopCand.java:171-177 | A well-formed line adds its translation exactly when its ID differs from the previous one (or there is none yet); otherwise the output is unchanged. |
| ExtractTopCand.FirstMalformed | src/joshua/util/ExtractTopCand.java:157-168 | Gives the index of the first malformed line: every line before it is well-formed. |
| ExtractTopCand.FirstMalformedAt | src/joshua/util/ExtractTopCand.java:157-168 | A malformed line after a well-formed prefix is the first malformed line. |
| ExtractTopCand.FirstMalformedAll | src/joshua/util/ExtractTopCand.java:144-178 | When all lines are well-formed, the whole input is processed. |
| ExtractTopCand.Ids | src/joshua/util/ExtractTopCand.java:151 | One segment ID per line. |
| ExtractTopCand.IdsAt | src/joshua/util/ExtractTopCand.java:148-151 | The `i`-th ID is line `i`'s first column, trimmed; any string is accepted, numeric or not. |
| ExtractTopCand.TranslationsAt | src/joshua/util/ExtractTopCand.java:172 | The `i`-th translation is line `i`'s second column. |
| ExtractTopCand.RunHeads | src/joshua/util/ExtractTopCand.java:121-126 | The run heads are positions of the input at which the ID differs from the one before (or which are first). |
| ExtractTopCand.OneBestStep | src/joshua/util/ExtractTopCand.java:171-177 | One more line adds its translation to the specification exactly when its ID differs from the previous line's. |
| ExtractTopCand.FirstsLength | src/joshua/util/ExtractTopCand.java:171-177 | One output per run head. |
| ExtractTopCand.FirstsAt | src/joshua/util/ExtractTopCand.java:171-177 | The `j`-th output is the translation at the `j`-th run head. |
| ExtractTopCand.OneBestLength | src/joshua/util/ExtractTopCand.java:121-126 | The number of lines written is the number of maximal runs of equal consecutive IDs. |
| ExtractTopCand.OneBestAt | src/joshua/util/ExtractTopCand.java:116-120 | The `j`-th line written is the second column of the line starting the `j`-th run. Neither the ID nor any other column is written, and the order is kept. |
| ExtractTopCand.FirstsStart | src/joshua/util/ExtractTopCand.java:143 | The first position always contributes its translation. |
| ExtractTopCand.OneBestStartsWithFirstLine | src/joshua/util/ExtractTopCand.java:143-177 | Because `prevID` starts as null, the first line always produces the first output. |
| ExtractTopCand.FirstsOneRun | src/joshua/util/ExtractTopCand.java:124-125 | A single run contributes only its first translation. |
| ExtractTopCand.OneBestSingleSegment | src/joshua/util/ExtractTopCand.java:124-125 | All lines of one segment yield only the first line's translation, which is the 1-best. |
| ExtractTopCand.RunHeadsSortedComplete | src/joshua/util/ExtractTopCand.java:116-117 | The run heads are in increasing order (outputs follow the first occurrence of each run) and all of them are listed. |
| ExtractTopCand.RunHeadsCount | src/joshua/util/ExtractTopCand.java:121-126 | At most one output per line, and exactly one per line if and only if all adjacent IDs differ. |
| RunBundler.ExtractLineParts | scripts/support/run-bundler.py:273-279 | The command is made of whitespace-free tokens, and a line without '#' has an empty comment. |
| RunBundler.JoinCommandComment | scripts/support/run-bundler.py:94-111 | The joined line has no whitespace at either end, whatever the overrides. |
| RunBundler.AbsFilePath | scripts/support/run-bundler.py:50-56 | An absolute token, or one already under the directory, is returned as it is. Every result ends with the token and starts with the directory or with '/'. |
| RunBundler.Classify | scripts/support/run-bundler.py:282-314 | Only a line whose first token is in `FILE_TYPE_TOKENS` is a file line. A binarized line starts with `lm`, and a packed line starts with `tm`. |
| RunBundler.ExtractOfJoin | scripts/support/run-bundler.py:94-111 | `extract_line_parts` after `join_command_comment` gives back the tokens and the comment, so joining loses nothing. |
| RunBundler.PlainLineRoundTrip | scripts/support/run-bundler.py:94-117 | A line in joined form (blank, comment-only, or tokens with an optional comment) comes out of a plain `ConfigLine` unchanged. |
| RunBundler.JoinCommentOnly | scripts/support/run-bundler.py:105-111 | A comment-only line is joined as `#comment`, without the separating space, because of the strip. |
| RunBundler.JoinCommandOnly | scripts/support/run-bundler.py:101-111 | Tokens without a comment are joined with single spaces and nothing else. |
| RunBundler.JoinCommandAndComment | scripts/support/run-bundler.py:101-111 | Tokens and a comment are joined as `tokens #comment`. |
| RunBundler.BlankLineKept | scripts/support/run-bundler.py:94-111 | A blank line stays blank. |
| RunBundler.RewriteKeepsOtherTokens | scripts/support/run-bundler.py:166-177 | Rewriting the last token of a file line keeps every other token and the comment: the rewritten line reads back as the original parts with only the last token replaced. |
| RunBundler.BasenameOfToken | scripts/support/run-bundler.py:175 | For a token not ending in '/', the basename written into a copy line is again a single token without '#', so it cannot split the line. |
| RunBundler.ClassifyPlain | scripts/support/run-bundler.py:282-314 | A line is plain if and only if it has no tokens or its first token is not in `FILE_TYPE_TOKENS`. |
| RunBundler.ClassifyByToken | scripts/support/run-bundler.py:295-312 | An `lm*` line is binarized exactly when its token ends in `.gz`. Otherwise a `tm*` line is packed exactly when its source is not a directory. A weights file is copied. |
| RunBundler.ConfigLineFactory | scripts/support/run-bundler.py:282-314 | Builds a fresh line object of the class `Classify` picks, holding the line's tokens and comment. A file line also holds the two directories and the fields its constructor sets (`FileFields`): the last token as file token, its resolved source path, and the copy destination, or the new name and its path in the destination directory. |
| RunBundler.ConfigLine.Plain | scripts/support/run-bundler.py:86-92 | A plain line object keeps the line parts it was given. |
| RunBundler.ConfigLine.FileLine | scripts/support/run-bundler.py:120-152 | The file token is the last command token and the source path is `abs_file_path(orig_dir, token)`. A copy goes to `dest_dir` under the token's basename; a binarized or packed file goes there under its renamed name. |
| RunBundler.ConfigLine.DetermineRenamedDestPath | scripts/support/run-bundler.py:199-210 | Sets `new_name` to the renamed basename of the last command token (suffix `.kenlm` or `.packed`) and returns that name joined onto the destination directory. |
| RunBundler.ConfigLine.Result | scripts/support/run-bundler.py:166-177 | A plain line is re-joined as it is. A file line first overwrites its last command token in place (basename of the copy destination, or `new_name`) and then re-joins. |
| RunBundler.AbsFilePathKeepsToken | scripts/support/run-bundler.py:50-56 | The token is kept exactly when it starts with '/' or with the directory; otherwise it is joined after the directory and a '/'. |
| RunBundler.AbsFilePathExamples | scripts/support/run-bundler.py:908-936 | The script's own three `abs_file_path` cases. |
| RunBundler.RenamedFileInverse | scripts/support/run-bundler.py:205-210 | The new name ends in the suffix and keeps the stem: a trailing `.gz` is replaced, and otherwise the suffix is appended. |
| RunBundler.RenamedFileExamples | scripts/support/run-bundler.py:199-210 | The renamings the script's tests expect: `lm.gz` → `lm.kenlm`, `grammar.gz` → `grammar.packed`, `another_grammar` → `another_grammar.packed`. |
| RunBundler.EndsWithGzTransfers | scripts/support/run-bundler.py:298-299 | The resolved source path ends in `.gz` exactly when the token does, so the classification can be read off the token. |
| RunBundler.CopyDestinationBasename | scripts/support/run-bundler.py:145-152 | The copy destination drops the token's directories: its basename is the token's basename. |
| RunBundler.RenamedDestinationBasename | scripts/support/run-bundler.py:245-256 | A renamed file lies directly in the destination directory, under its new name. |
| Rules.MonolingualRule.constructor | src/joshua/decoder/ff/tm/MonolingualRule.java:97-105 | Stores every given field, shares the given arrays, and sets the estimated cost to 0. |
| Rules.MonolingualRule.WithDummyIds | src/joshua/decoder/ff/tm/MonolingualRule.java:110-120 | Sets lattice cost 0, rule ID `DUMMY_RULE_ID` (1) and owner `DUMMY_OWNER` (1). |
| Rules.MonolingualRule.SetRuleID | src/joshua/decoder/ff/tm/MonolingualRule.java:127-129 | Round-trips with `getRuleID` and changes only that field. |
| Rules.MonolingualRule.SetArity | src/joshua/decoder/ff/tm/MonolingualRule.java:132-134 | Round-trips with `getArity` and changes only that field. |
| Rules.MonolingualRule.SetOwner | src/joshua/decoder/ff/tm/MonolingualRule.java:137-139 | Round-trips with `getOwner` and changes only that field. |
| Rules.MonolingualRule.SetLHS | src/joshua/decoder/ff/tm/MonolingualRule.java:142-144 | Round-trips with `getLHS` and changes only that field. |
| Rules.MonolingualRule.SetEnglish | src/joshua/decoder/ff/tm/MonolingualRule.java:147-149 | Changes nothing. |
| Rules.MonolingualRule.GetEnglish | src/joshua/decoder/ff/tm/MonolingualRule.java:151-154 | Always null. |
| Rules.MonolingualRule.SetFrench | src/joshua/decoder/ff/tm/MonolingualRule.java:157-159 | Round-trips with `getFrench` and changes only that field. |
| Rules.MonolingualRule.SetFeatureScores | src/joshua/decoder/ff/tm/MonolingualRule.java:162-168 | Stores the given array itself, not a copy, and changes only that field. |
| Rules.MonolingualRule.SetLatticeCost | src/joshua/decoder/ff/tm/MonolingualRule.java:171-173 | Round-trips with `getLatticeCost` and changes only that field. |
| Rules.MonolingualRule.EstimateRuleCost | src/joshua/decoder/ff/tm/MonolingualRule.java:188-202 | With a null list: returns 0 and keeps the cached cost. Otherwise: returns the sum of `estimate(rule) * getWeight()` over the list, and `getEstCost` returns it afterwards. |
| Rules.MonolingualRule.IncrementFeatureScore | src/joshua/decoder/ff/tm/MonolingualRule.java:209-214 | Adds `score` to one column, returns the new value, and leaves every other column unchanged. |
| Rules.MonolingualRule.SetFeatureScore | src/joshua/decoder/ff/tm/MonolingualRule.java:217-228 | `getFeatureScore(column)` then returns `score`, and every other column is unchanged. |
| Rules.EstimateSumAppend | src/joshua/decoder/ff/tm/MonolingualRule.java:192-196 | The estimate over two lists, one after the other, is the sum of their estimates. |
| Rules.EstimateSumSmall | src/joshua/decoder/ff/tm/MonolingualRule.java:192-196 | An empty list estimates 0, and one feature function contributes `estimate * weight`. |
| Rules.EstimateSumWeightChange | src/joshua/decoder/ff/tm/MonolingualRule.java:193-195 | Changing one function's weight by `delta` changes the estimate by `delta` times that function's estimate. |
| Rules.EstimateSumZeroWeights | src/joshua/decoder/ff/tm/MonolingualRule.java:193-195 | Feature functions with weight 0 contribute nothing. |
| Features.DefaultStatefulFF.constructor | src/joshua/decoder/ff/DefaultStatefulFF.java:37-40 | Stores the given weight and feature ID. |
| Features.DefaultStatefulFF.IsStateful | src/joshua/decoder/ff/DefaultStatefulFF.java:42-44 | Always true. |
| Features.DefaultStatefulFF.SetWeight | src/joshua/decoder/ff/DefaultStatefulFF.java:46-52 | `getWeight` then returns the new weight, and the feature ID is unchanged. |
| Features.DefaultStatefulFF.SetFeatureID | src/joshua/decoder/ff/DefaultStatefulFF.java:54-60 | `getFeatureID` then returns the new ID, and the weight is unchanged. |
| Features.TransitionIgnoresEdge | src/joshua/decoder/ff/DefaultStatefulFF.java:62-72 | Both edge-aware transitions give the edge-free result for every edge, so the edge never matters. |
| ConfigRewrite.WriteConfigFile | src/joshua/decoder/Decoder.java:297-353 | The lines written and the exception thrown are those of `WriteConfig`: each template line is rewritten in order, and the run stops at the first exception. |
| ConfigRewrite.RewriteOne | src/joshua/decoder/Decoder.java:306-338 | One pass of the loop body gives the outcome `RewriteLine` specifies. |
| ConfigRewrite.AppendFields | src/joshua/decoder/Decoder.java:324-330 | The field loops append each field followed by one space. |
| ConfigRewrite.WriteLinesNext | src/joshua/decoder/Decoder.java:305-340 | One more template line either appends its output (and advances `columnID` when a weight is used) or ends the whole run with its exception. |
| ConfigRewrite.WriteLinesStops | src/joshua/decoder/Decoder.java:341-344 | After an exception the remaining template lines change nothing. |
| ConfigRewrite.WriteLinesPrefix | src/joshua/decoder/Decoder.java:305-340 | A run without an exception had none on any prefix. |
| ConfigRewrite.WrittenLength | src/joshua/decoder/Decoder.java:305-340 | Without an exception, exactly one line is written per template line. |
| ConfigRewrite.WrittenAt | src/joshua/decoder/Decoder.java:305-340 | Without an exception, output line `i` is template line `i` rewritten with the weights used by the lines before it. |
| ConfigRewrite.WriteLinesAt | src/joshua/decoder/Decoder.java:332-333 | Output line `i` carries weight number k, where k is the number of model lines before it: weights are assigned to model lines in file order. |
| ConfigRewrite.WriteLinesSucceeds | src/joshua/decoder/Decoder.java:313-335 | The line loop completes exactly when every model line ends in a number and there are enough weights. It then uses exactly one weight per model line. |
| ConfigRewrite.WriteConfigSucceeds | src/joshua/decoder/Decoder.java:313-348 | `writeConfigFile` completes without an exception exactly when every model line ends in a number and, if weights are given, there is exactly one per model line. |
| ConfigRewrite.CopiedLine | src/joshua/decoder/Decoder.java:305-311 | Comments, empty lines and lines with '=' are written trimmed and otherwise unchanged, and use no weight. |
| ConfigRewrite.ModelLine | src/joshua/decoder/Decoder.java:320-335 | A model line becomes its kept fields and its weight, joined by single spaces. The weight is the `column`-th new one (an exception if there are too few), or the old last field when no new weights are given. |
| ConfigRewrite.NonNumericModelLine | src/joshua/decoder/Decoder.java:313-318 | A model line without a numeric last field raises an exception naming that field, whatever the weights. |
| ConfigRewrite.KeptFieldsCases | src/joshua/decoder/Decoder.java:320-331 | An ordinary line keeps all its fields but the last. A `discriminative` line, when a new model is given, gets that model in place of its second field. |
| ConfigRewrite.RewriteLine | src/joshua/decoder/Decoder.java:306-338 | A comment, an empty line or a line with '=' is copied trimmed and uses no weight. A line uses a weight only when there is a new weight at its column. Running out of weights is the only reason for an index exception. |
| ConfigRewrite.WriteConfig | src/joshua/decoder/Decoder.java:297-353 | When no exception is thrown, one line is written per template line, and with new weights every one of them was used. |
| ConfigRewrite.RewriteLineNeverEmptySplit | src/joshua/decoder/Decoder.java:313-315 | With `Regex.spaces` splitting at runs of whitespace, `fds[fds.length - 1]` is always in bounds, so no line fails for having no field. |
| ConfigRewrite.TrimmedFieldsNonEmpty | src/joshua/decoder/Decoder.java:306-313 | Splitting a trimmed line at whitespace gives at least one field, so `fds[fds.length - 1]` is in bounds. |
| DecoderInit.Decoder.constructor | src/joshua/decoder/Decoder.java:113-118 | A new decoder has no grammars, no weights, empty feature-name lists and verbosity 1. |
| DecoderInit.Decoder.Verbose | src/joshua/decoder/Decoder.java:635-637 | A level is logged if and only if it is at most the verbosity. |
| DecoderInit.VerboseMonotone | src/joshua/decoder/Decoder.java:635-642 | Whatever is logged at one level is also logged at every lower level. |
| DecoderInit.Decoder.AddWeightLines | src/joshua/decoder/Decoder.java:376-396 | The loop over weight lines stores each weight (a later one replaces an earlier one), appends each name, and also appends it to the dense list when it is dense, until a line raises an error. |
| DecoderInit.Decoder.Apply | src/joshua/decoder/Decoder.java:391-395 | The effect of one line on the three fields. |
| DecoderInit.WeightLineNext | src/joshua/decoder/Decoder.java:538-553 | One more weight line extends the scan by its entry and its name, and an error ends the scan of all the lines. |
| DecoderInit.ScanLinesStops | src/joshua/decoder/Decoder.java:380-389 | After an error the remaining weight lines change nothing. |
| DecoderInit.Decoder.ReadWeights | src/joshua/decoder/Decoder.java:529-565 | Starts a new empty weight vector. An empty file name reads nothing and a missing file exits with status 1. Otherwise the file's lines are applied. The feature-name lists are not reset. |
| DecoderInit.FileLineSkipped | src/joshua/decoder/Decoder.java:539-543 | A weights-file line is skipped exactly when, after collapsing whitespace, it is empty, a comment (`#`, `//`) or has no space. |
| DecoderInit.FileLineEffect | src/joshua/decoder/Decoder.java:538-553 | A weights-file line stores a weight exactly when it records a feature name, that name is the weight's feature, and such a line raises nothing. A skipped line has no effect. |
| DecoderInit.ConfigLineEffect | src/joshua/decoder/Decoder.java:376-395 | Set-up exits with status 17 exactly when the line does not split into two fields. A stored weight comes with its name and no error, and a recorded name is the first field. |
| DecoderInit.ConfigLineCases | src/joshua/decoder/Decoder.java:377-395 | A config weight line that does not split into exactly two fields exits with status 17 and records nothing. A two-field line records its name and, if the weight parses, stores it. |
| DecoderInit.EffectConsistent | src/joshua/decoder/Decoder.java:545-552 | A line records a feature name exactly when it stores that feature's weight, except when it stops set-up after recording the name. |
| DecoderInit.NamesAreKeys | src/joshua/decoder/Decoder.java:391-395 | The names recorded are the names of the stored entries, in order and with repeats: always for the weights file, and for the config lines unless a weight failed to parse, which records a name without a weight. |
| DecoderInit.AssignAppend | src/joshua/decoder/Decoder.java:373-395 | Storing the file's weights and then the config's is storing their concatenation. |
| DecoderInit.FilterAppend | src/joshua/decoder/Decoder.java:391-393 | The dense list of two runs is the concatenation of their dense lists. |
| DecoderInit.AssignLastWins | src/joshua/decoder/Decoder.java:549 | A feature has the weight of the last entry that names it. |
| DecoderInit.AssignUntouched | src/joshua/decoder/Decoder.java:395 | A feature no entry names keeps its old weight, or stays absent. |
| DecoderInit.ConfigOverridesFile | src/joshua/decoder/Decoder.java:370-395 | After both sources, a feature named by a config line has the last config weight for it. A feature named only in the file has the file's last weight for it. |
| DecoderInit.Decoder.AddBleuDefault | src/joshua/decoder/Decoder.java:405-406 | `BLEU` gets weight 0 unless it already has one. |
| DecoderInit.WithBleu | src/joshua/decoder/Decoder.java:405-406 | The features are the old ones plus `BLEU`. Every old weight is kept, and a missing `BLEU` gets 0. |
| DecoderInit.BleuDefault | src/joshua/decoder/Decoder.java:405-406 | Afterwards `BLEU` always has a weight (0 unless one was read), and no other weight changes. |
| DecoderInit.Decoder.InitializeWeights | src/joshua/decoder/Decoder.java:370-406 | The sequence is: the weights file, then the config lines (which override it), then `show_weights_and_quit` (exit 0), then the `BLEU` default. Each early exit keeps what was read up to that point. |
| DecoderInit.TmKindCases | src/joshua/decoder/Decoder.java:474-492 | `packed` or a directory gives a packed grammar; otherwise `phrase`/`moses` gives a phrase table; anything else gives a memory-based grammar of that format. |
| DecoderInit.TmKind | src/joshua/decoder/Decoder.java:474-492 | A grammar is packed exactly when the format is `packed` or the file is a directory. A phrase table comes only from `phrase` or `moses`, and a memory-based grammar keeps the format it was given. |
| DecoderInit.ParseTmLine | src/joshua/decoder/Decoder.java:466-471 | A `tm` line gives a grammar exactly when it has at least four fields and the third parses as an integer. The owner is the second field, the span limit the third and the file the fourth. |
| DecoderInit.ParseTmLinesNext | src/joshua/decoder/Decoder.java:464-495 | One more `tm` line adds its grammar, or its exception ends the reading of all the lines. |
| DecoderInit.ParseTmLinesStops | src/joshua/decoder/Decoder.java:464-495 | After a `tm` line raises an exception, the remaining lines are not read. |
| DecoderInit.HasPhraseTableSnoc | src/joshua/decoder/Decoder.java:483-486 | Adding a grammar adds a phrase table exactly when that grammar is one. |
| DecoderInit.HasPhraseTableSpec | src/joshua/decoder/Decoder.java:483-486 | The search switches to `stack` if and only if some grammar is a phrase table. |
| DecoderInit.Decoder.AddTmGrammars | src/joshua/decoder/Decoder.java:464-495 | Adds one grammar per `tm` line, in order, up to the first exception. The search algorithm becomes `stack` exactly when a phrase table was added. |
| DecoderInit.Decoder.LoadGrammars | src/joshua/decoder/Decoder.java:461-505 | With `tm` lines, their grammars are added. Without, a single glue grammar is added and the search algorithm is kept. |
| DecoderInit.GlueGrammarShape | src/joshua/decoder/Decoder.java:501-503 | The glue grammar is a `thrax` grammar at `$JOSHUA/data/glue-grammar` (`null/...` when unset), owned by `glue`, with span limit -1. |
| DecoderInit.Decoder.CreatePhraseModels | src/joshua/decoder/Decoder.java:507-517 | Appends one phrase model `tm -owner OWNER` per distinct grammar owner, in order of first appearance. |
| DecoderInit.Distinct | src/joshua/decoder/Decoder.java:508-517 | There are never more phrase models than grammars, and each is for an owner of a grammar. |
| DecoderInit.OwnerNext | src/joshua/decoder/Decoder.java:510-517 | In the owner loop, a new owner adds its phrase model and an owner already seen adds nothing. |
| DecoderInit.OwnersAt | src/joshua/decoder/Decoder.java:511 | The `i`-th owner is grammar `i`'s owner. |
| DecoderInit.DistinctNoDuplicates | src/joshua/decoder/Decoder.java:508-517 | No owner gets two phrase models. |
| DecoderInit.DistinctElements | src/joshua/decoder/Decoder.java:508-517 | Every owner gets a phrase model, and only owners do. |
| DecoderInit.DistinctFirstSeen | src/joshua/decoder/Decoder.java:508-517 | The phrase models come in the order in which their owners first appear. |
| DecoderInit.FirstIndexBound | src/joshua/decoder/Decoder.java:508-517 | The first-appearance index of an owner is the position of its first occurrence. |
| DecoderInit.Decoder.InitializeTranslationGrammars | src/joshua/decoder/Decoder.java:459-521 | The grammars, then one phrase model per distinct owner over all grammars. An exception while reading `tm` lines creates no phrase model. |
| DecoderInit.Decoder.GetClass | src/joshua/decoder/Decoder.java:616-633 | Gives the first existing class among the candidates, or null when none exists. |
| DecoderInit.FeatureCandidates | src/joshua/decoder/Decoder.java:618-625 | The six names tried, in order: for each of the three packages, the bare name before the name with `FF`. |
| DecoderInit.Candidates | src/joshua/decoder/Decoder.java:618-625 | Two class names are tried per package. |
| DecoderInit.FirstHit | src/joshua/decoder/Decoder.java:619-632 | A class found is one of the candidates and exists. |
| DecoderInit.FirstHitSpec | src/joshua/decoder/Decoder.java:619-632 | The class found is a candidate that exists, and every earlier candidate does not. Nothing is found if and only if no candidate exists. |
| DecoderInit.FirstHitAppend | src/joshua/decoder/Decoder.java:619-631 | Searching two lists of candidates in turn is searching their concatenation. |
| DecoderInit.CandidatesRest | src/joshua/decoder/Decoder.java:619-631 | Once a class is found in the first packages, the later packages are never tried. |
| Text.Tokens | scripts/support/run-bundler.py:279 | Python's `str.split()` gives whitespace-free, non-empty tokens. |
| Text.JavaSplitSpaces | src/joshua/decoder/Decoder.java:377 | Java's `split("\\s+")`: every field is a whitespace-free token, except a leading empty field, which appears only for an empty string or one starting with whitespace. |
| Text.Strip | scripts/support/run-bundler.py:111 | Python's `strip()` leaves no whitespace at either end and never lengthens the string. |
| Text.JavaTrim | src/joshua/util/ExtractTopCand.java:151 | Java's `trim()` leaves no character up to U+0020 at either end and never lengthens the string. |
| Text.CollapseSpaces | src/joshua/decoder/Decoder.java:539 | `replaceAll("\\s+", " ")` leaves no whitespace but single spaces, never two spaces in a row, keeps a leading non-space character, and never lengthens the string. |
| Text.Basename | scripts/support/run-bundler.py:152 | `os.path.basename` has no '/' and is no longer than the path. |
| Text.PathJoin | scripts/support/run-bundler.py:151-152 | `os.path.join` gives an absolute name as it is. Otherwise the result starts with the directory and ends with the name. |
| Text.Partition | scripts/support/run-bundler.py:278 | `str.partition('#')` splits at the first '#': the part before has no '#', and the parts rebuild the line. |
| Text.TokensOfUnwords | scripts/support/run-bundler.py:101-104 | Splitting tokens joined by single spaces gives the tokens back. |
| Text.BasenameIsLastComponent | scripts/support/run-bundler.py:152 | `os.path.basename` is the slash-free tail after the last '/'. |
| Text.BasenameOfPathJoin | scripts/support/run-bundler.py:151-152 | The basename of `join(dir, name)` is `name` for a slash-free name. |
| Text.PathJoinEnds | scripts/support/run-bundler.py:50-56 | `join(dir, name)` ends in `/name`, or is `name` when that is absolute. |
| Text.StripNoop | scripts/support/run-bundler.py:111 | Stripping a string without whitespace at its ends leaves it unchanged. |
| Text.StripTrailingSpace | scripts/support/run-bundler.py:111 | A single space left by joining with an empty comment is stripped. |
| Text.TrimStartSuffix | src/joshua/util/ExtractTopCand.java:151 | Trimming the front keeps a suffix and drops only blank characters. |
| Text.TrimEndPrefix | src/joshua/util/ExtractTopCand.java:151 | Trimming the end keeps a prefix and drops only blank characters. |

## Left out

- The thread pool and the request pipeline of `Decoder.java` (`RequestHandler`, `DecoderThreadRunner`, `decode`, `decodeAll`, `cleanUp`): they are concurrency plumbing, and the thread classes are not part of this model.
- The rest of `initialize` after the `BLEU` default is not modelled (sorting grammars, feature-function instantiation, creating the threads). The same goes for the `LOG` messages and the reset of `featureFunctions`. `getClass` is the only modelled piece of feature-function loading.
- Building grammars (`PackedGrammar`, `MemoryBasedBatchGrammar`, `PhraseTable`): a grammar is modelled as its kind, file, owner and span limit. The exit with status 2 when a packed grammar fails to load is not modelled, because it depends on reading the file.
- The `Vocabulary.word(grammar.getOwner())` round trip: an owner is kept as its string.
- `show_weights_and_quit` printing: only its exit with status 0 is modelled.
- File, stream and process I/O: the files become sequences of lines, and the writers become the sequences written. This covers `LineReader`, `BufferedWriter`, `IndexedReader`, closing, `ExtractTopCand.main`, and the script's `process()` methods, `make_dest_dir`, `clear_non_empty_dir`, `filter_through_copy_config_script`, argument handling and `main`.
- The `joshua.util.Regex` patterns, `Float.parseFloat`, `Integer.parseInt`, `File.isDirectory`/`os.path.isdir`, `Class.forName`, `FeatureVector.isDense` and the feature functions' `estimate` and `getWeight` are parameters, because their code is not part of this model.
- Java `float`/`double` rounding: weights, scores and costs are reals, and the number formatting of new weights is a parameter.
- RunBundler.AbsFilePath: `os.path.abspath` is not applied. A relative directory such as `./testdestdir` is not prefixed with the working directory, and `.` and `..` components are not removed, so the resolved path stays relative where the script's is absolute. Joined paths are plain concatenation with one '/'.
- RunBundler.ConfigLine.FileLine: the source and destination paths are not made absolute, for the same reason as `RunBundler.AbsFilePath`; the copy and renamed destinations are `os.path.join` results only.
- RunBundler.ConfigLine.Result: a copy token whose basename is empty (a token ending in '/', such as `grammar/`), `.` or `..` is written as that literal basename (for `grammar/` the token disappears from the line). The script writes the basename of the `abspath`-normalised destination instead, which is the last component of the normalised directory.
- `abs_file_path`'s regex prefix test on the directory is modelled as a literal prefix test.
- The `synchronized` blocks of `MonolingualRule`: only their sequential meaning is modelled.
- Rules.MonolingualRule.IncrementFeatureScore: requires a column inside `feat_scores`. The source throws an `ArrayIndexOutOfBoundsException` for any other column and a `NullPointerException` when `feat_scores` is null; neither exception is modelled, and `feat_scores` is never null here.
- Rules.MonolingualRule.SetFeatureScore: requires a column inside `feat_scores`, for the same reason as `IncrementFeatureScore`; the source's out-of-bounds and null exceptions are not modelled.
- Rules.MonolingualRule.GetFeatureScore: requires a column inside `feat_scores`, for the same reason as `IncrementFeatureScore`; the source's out-of-bounds and null exceptions are not modelled.
- The `toString` variants of `MonolingualRule`: they depend on `SymbolTable` and on float formatting, neither of which is modelled.
- The negative-infinity diagnostic print in `getEstCost`.
- The static fields `weights`, `feature_names`, `dense_feature_names` and `VERBOSE` are fields of the `Decoder` object. The weight vector is the empty map until `readWeights` replaces it.
- `DefaultStatefulFF` is abstract and implements an interface. Here it is a generic class whose edge-free transitions are functions given to its constructor.
- `WithModelCostsHyperEdge` and `TrivialInsideOutside`: their base classes are not part of this model.
- Features.TransitionIgnoresEdge: Dafny proves this forwarding fact without a proof body, since the defaults are plain calls.
