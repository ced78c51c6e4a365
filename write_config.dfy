/**
 * `Decoder.writeConfigFile`: copies a configuration template line by line,
 * replacing the weight at the end of every model line with the next entry of
 * `newWeights` and, optionally, the file name of the `discriminative` model.
 * Reading the template and writing the output file are replaced by a
 * sequence of input lines and a sequence of written lines.
 */
module ConfigRewrite {
  import opened Wrappers
  import opened Text

  /**
   * The pieces of `joshua.util.Regex` and of Java's number formatting this
   * code relies on: `commentOrEmptyLine.matches`, `spaces.split`,
   * `floatingNumber.matches` and `StringBuffer.append(double)`.
   */
  datatype ConfigSyntax = ConfigSyntax(
    commentOrEmptyLine: string -> bool,
    spaces: string -> seq<string>,
    floatingNumber: string -> bool,
    formatDouble: real -> string)

  /** The exceptions `writeConfigFile` lets escape. */
  datatype WriteError =
    | EmptySplit                                // fds[fds.length - 1] on a line that splits into no field
    | LastFieldNotANumber(field: string)        // IllegalArgumentException: last field is not a number
    | WeightIndexOutOfBounds(index: nat)        // newWeights[columnID++] past the end of the array
    | CountMismatch(models: nat, weights: nat)  // IllegalArgumentException after the whole file

  /** A trimmed line that is copied unchanged: a comment, an empty line or a `key = value` parameter. */
  predicate IsCopied(syn: ConfigSyntax, line: string) {
    syn.commentOrEmptyLine(line) || '=' in line
  }

  /**
   * With `Regex.spaces` the pattern `\s+`, a trimmed line always splits into
   * at least one field, so `EmptySplit` cannot happen.
   */
  lemma TrimmedFieldsNonEmpty(raw: string)
    ensures |JavaSplitSpaces(JavaTrim(raw))| >= 1
  {
    var t := JavaTrim(raw);
    if t != [] {
      var s := TrimStart(raw, IsJavaBlank);
      TrimEndPrefix(s, IsJavaBlank);
      assert t[0] == s[0];
      assert !IsSpace(t[0]);
    }
  }

  /** The fields of a trimmed line, as `Regex.spaces.split` gives them. */
  function Fields(syn: ConfigSyntax, raw: string): seq<string> {
    syn.spaces(JavaTrim(raw))
  }

  function LastField(fds: seq<string>): string
    requires |fds| >= 1
  {
    fds[|fds| - 1]
  }

  /**
   * The fields a model line keeps in front of its weight: all but the last,
   * except that a `discriminative` line gets the new model file in place of
   * its second field when one is given.
   */
  function KeptFields(fds: seq<string>, newDiscriminativeModel: Option<string>): seq<string>
    requires |fds| >= 1
  {
    if newDiscriminativeModel.Some? && fds[0] == "discriminative" then
      [fds[0], newDiscriminativeModel.value] + (if |fds| > 2 then fds[2..|fds| - 1] else [])
    else
      fds[..|fds| - 1]
  }

  /** Each field followed by one space, the way the `StringBuffer` is filled. */
  function SpaceAfterEach(ts: seq<string>): string {
    if ts == [] then "" else SpaceAfterEach(ts[..|ts| - 1]) + ts[|ts| - 1] + " "
  }

  /** What one template line becomes: an output line (which may consume a weight), or an exception. */
  datatype LineOutcome = Emit(text: string, usesWeight: bool) | Fail(error: WriteError)

  /** One template line, when `column` weights have been used so far. */
  function RewriteLine(raw: string, column: nat, newWeights: Option<seq<real>>,
                       newDiscriminativeModel: Option<string>, syn: ConfigSyntax): (out: LineOutcome)
    ensures IsCopied(syn, JavaTrim(raw)) ==> out == Emit(JavaTrim(raw), false)
    ensures out.Emit? && out.usesWeight ==> newWeights.Some? && column < |newWeights.value|
    ensures out.Fail? && out.error.WeightIndexOutOfBounds? ==> newWeights.Some? && column >= |newWeights.value|
  {
    var line := JavaTrim(raw);
    if IsCopied(syn, line) then Emit(line, false)
    else
      var fds := Fields(syn, raw);
      if fds == [] then Fail(EmptySplit)
      else
      var last := LastField(fds);
      if !syn.floatingNumber(last) then Fail(LastFieldNotANumber(last))
      else
        var prefix := SpaceAfterEach(KeptFields(fds, newDiscriminativeModel));
        match newWeights
        case None => Emit(prefix + last, false)
        case Some(ws) =>
          if column < |ws| then Emit(prefix + syn.formatDouble(ws[column]), true)
          else Fail(WeightIndexOutOfBounds(column))
  }

  /** The output written so far, the weights used so far, and the exception, if one was thrown. */
  datatype WriteState = WriteState(written: seq<string>, columnID: nat, error: Option<WriteError>)

  /** What a template line becomes, given the number of weights used before it. */
  type LineRewrite = (string, nat) -> LineOutcome

  /** The rewriting of one line that `writeConfigFile` does for the given new weights and model. */
  function LineRewriter(newWeights: Option<seq<real>>, newDiscriminativeModel: Option<string>,
                        syn: ConfigSyntax): LineRewrite
  {
    (raw: string, column: nat) => RewriteLine(raw, column, newWeights, newDiscriminativeModel, syn)
  }

  /**
   * When `Regex.spaces` splits at runs of whitespace, a line is never
   * rejected for splitting into no fields.
   */
  lemma RewriteLineNeverEmptySplit(raw: string, column: nat, newWeights: Option<seq<real>>,
                                   newDiscriminativeModel: Option<string>, syn: ConfigSyntax)
    requires syn.spaces == JavaSplitSpaces
    ensures RewriteLine(raw, column, newWeights, newDiscriminativeModel, syn) != Fail(EmptySplit)
  {
    TrimmedFieldsNonEmpty(raw);
  }

  /** The state after the given template lines; after an exception nothing more happens. */
  function WriteLines(template: seq<string>, rewrite: LineRewrite): WriteState {
    if template == [] then WriteState([], 0, None)
    else
      var st := WriteLines(template[..|template| - 1], rewrite);
      if st.error.Some? then st
      else
        var out := rewrite(template[|template| - 1], st.columnID);
        if out.Fail? then st.(error := Some(out.error))
        else WriteState(st.written + [out.text], if out.usesWeight then st.columnID + 1 else st.columnID, None)
  }

  /** The whole of `writeConfigFile`: the lines, then the final count check. */
  function WriteConfig(template: seq<string>, newWeights: Option<seq<real>>,
                       newDiscriminativeModel: Option<string>, syn: ConfigSyntax): (st: WriteState)
    ensures st.error.None? && newWeights.Some? ==> st.columnID == |newWeights.value|
    ensures st.error.None? ==> |st.written| == |template|
  {
    var st := WriteLines(template, LineRewriter(newWeights, newDiscriminativeModel, syn));
    WrittenLength(template, LineRewriter(newWeights, newDiscriminativeModel, syn));
    if st.error.None? && newWeights.Some? && st.columnID != |newWeights.value| then
      st.(error := Some(CountMismatch(st.columnID, |newWeights.value|)))
    else st
  }

  /** Appends each field followed by a space, as the source's `for` loops do. */
  method AppendFields(sb: string, fields: seq<string>) returns (r: string)
    ensures r == sb + SpaceAfterEach(fields)
  {
    r := sb;
    var i := 0;
    while i < |fields|
      invariant i <= |fields|
      invariant r == sb + SpaceAfterEach(fields[..i])
    {
      assert fields[..i + 1][..i] == fields[..i];
      r := r + fields[i] + " ";
      i := i + 1;
    }
    assert fields[..i] == fields;
  }

  /**
   * The body of the source's line loop for one template line: trims it and
   * either copies it or builds the rewritten model line in a buffer.
   */
  method RewriteOne(raw: string, columnID: nat, newWeights: Option<seq<real>>,
                    newDiscriminativeModel: Option<string>, syn: ConfigSyntax)
    returns (out: LineOutcome)
    ensures out == RewriteLine(raw, columnID, newWeights, newDiscriminativeModel, syn)
  {
    var line := JavaTrim(raw);
    if syn.commentOrEmptyLine(line) || '=' in line {
      return Emit(line, false);
    }
    var fds := syn.spaces(line);
    if |fds| == 0 {
      return Fail(EmptySplit);
    }
    var last := fds[|fds| - 1];
    if !syn.floatingNumber(last) {
      return Fail(LastFieldNotANumber(last));
    }
    var newSent := "";
    if newDiscriminativeModel.Some? && "discriminative" == fds[0] {
      newSent := newSent + fds[0] + " ";
      newSent := newSent + newDiscriminativeModel.value + " ";
      if |fds| > 2 {
        newSent := AppendFields(newSent, fds[2..|fds| - 1]);
      }
      SpaceAfterEachAppend([fds[0], newDiscriminativeModel.value], if |fds| > 2 then fds[2..|fds| - 1] else []);
      SpaceAfterEachPair(fds[0], newDiscriminativeModel.value);
    } else {
      newSent := AppendFields(newSent, fds[..|fds| - 1]);
    }
    assert newSent == SpaceAfterEach(KeptFields(fds, newDiscriminativeModel));
    if newWeights.Some? {
      if columnID >= |newWeights.value| {
        return Fail(WeightIndexOutOfBounds(columnID));
      }
      newSent := newSent + syn.formatDouble(newWeights.value[columnID]);
      out := Emit(newSent, true);
    } else {
      newSent := newSent + last;
      out := Emit(newSent, false);
    }
  }

  /**
   * `writeConfigFile(newWeights, template, outputFile, newDiscriminativeModel)`:
   * returns the lines written to the output file and the exception thrown, if any.
   */
  method WriteConfigFile(newWeights: Option<seq<real>>, template: seq<string>,
                         newDiscriminativeModel: Option<string>, syn: ConfigSyntax)
    returns (written: seq<string>, error: Option<WriteError>)
    ensures var st := WriteConfig(template, newWeights, newDiscriminativeModel, syn);
      written == st.written && error == st.error
  {
    ghost var rewrite := LineRewriter(newWeights, newDiscriminativeModel, syn);
    var columnID := 0;
    written := [];
    var i := 0;
    while i < |template|
      invariant 0 <= i <= |template|
      invariant WriteLines(template[..i], rewrite) == WriteState(written, columnID, None)
    {
      var out := RewriteOne(template[i], columnID, newWeights, newDiscriminativeModel, syn);
      WriteLinesNext(template, i, rewrite, written, columnID, out);
      if out.Fail? {
        return written, Some(out.error);
      }
      written := written + [out.text];
      if out.usesWeight {
        columnID := columnID + 1;
      }
      i := i + 1;
    }
    assert template[..i] == template;
    if newWeights.Some? && columnID != |newWeights.value| {
      error := Some(CountMismatch(columnID, |newWeights.value|));
    } else {
      error := None;
    }
  }

  // ---------------------------------------------------------------------------
  // Lemmas
  // ---------------------------------------------------------------------------

  /** Once an exception is thrown, the remaining template lines change nothing. */
  lemma {:induction false} WriteLinesStops(template: seq<string>, j: nat, rewrite: LineRewrite)
    requires j <= |template|
    requires WriteLines(template[..j], rewrite).error.Some?
    ensures WriteLines(template, rewrite) == WriteLines(template[..j], rewrite)
    decreases |template| - j
  {
    if j < |template| {
      var p := template[..|template| - 1];
      assert p[..j] == template[..j];
      WriteLinesStops(p, j, rewrite);
    } else {
      assert template[..j] == template;
    }
  }

  /** The loop's step: the next line either extends the output or ends the run with its exception. */
  lemma WriteLinesNext(template: seq<string>, i: nat, rewrite: LineRewrite,
                       written: seq<string>, columnID: nat, out: LineOutcome)
    requires i < |template|
    requires WriteLines(template[..i], rewrite) == WriteState(written, columnID, None)
    requires out == rewrite(template[i], columnID)
    ensures out.Emit? ==>
      WriteLines(template[..i + 1], rewrite)
        == WriteState(written + [out.text], if out.usesWeight then columnID + 1 else columnID, None)
    ensures out.Fail? ==> WriteLines(template, rewrite) == WriteState(written, columnID, Some(out.error))
  {
    assert template[..i + 1][..i] == template[..i];
    if out.Fail? {
      WriteLinesStops(template, i + 1, rewrite);
    }
  }

  /** A run without an exception has no exception on any prefix either. */
  lemma WriteLinesPrefix(template: seq<string>, i: nat, rewrite: LineRewrite)
    requires i <= |template|
    requires WriteLines(template, rewrite).error.None?
    ensures WriteLines(template[..i], rewrite).error.None?
  {
    if WriteLines(template[..i], rewrite).error.Some? {
      WriteLinesStops(template, i, rewrite);
    }
  }

  /**
   * Without an exception, output line `i` is what template line `i` becomes
   * with the weights used by the lines before it.
   */
  lemma {:induction false} WrittenAt(template: seq<string>, i: nat, rewrite: LineRewrite)
    requires i < |template|
    requires WriteLines(template, rewrite).error.None?
    ensures var st := WriteLines(template, rewrite);
      var out := rewrite(template[i], WriteLines(template[..i], rewrite).columnID);
      i < |st.written| && out.Emit? && st.written[i] == out.text
  {
    var n := |template| - 1;
    var p := template[..n];
    WrittenLength(p, rewrite);
    if i < n {
      assert p[..i] == template[..i];
      WrittenAt(p, i, rewrite);
    } else {
      assert template[..i] == p;
    }
  }

  /** Without an exception, one line is written per template line. */
  lemma {:induction false} WrittenLength(template: seq<string>, rewrite: LineRewrite)
    ensures var st := WriteLines(template, rewrite);
      st.error.None? ==> |st.written| == |template|
  {
    if template != [] {
      WrittenLength(template[..|template| - 1], rewrite);
    }
  }

  lemma SpaceAfterEachPair(a: string, b: string)
    ensures SpaceAfterEach([a, b]) == a + " " + b + " "
  {
    assert [a, b][..1] == [a];
    assert [a][..0] == [];
    assert SpaceAfterEach([a]) == a + " ";
  }

  /** Filling the buffer with two lists one after the other is filling it with their concatenation. */
  lemma {:induction false} SpaceAfterEachAppend(a: seq<string>, b: seq<string>)
    ensures SpaceAfterEach(a + b) == SpaceAfterEach(a) + SpaceAfterEach(b)
  {
    if b == [] {
      assert a + b == a;
    } else {
      var n := |b| - 1;
      assert (a + b)[..|a + b| - 1] == a + b[..n];
      SpaceAfterEachAppend(a, b[..n]);
    }
  }

  /** The kept fields, each followed by a space, and then the weight: the fields joined by single spaces. */
  lemma {:induction false} SpaceAfterEachThen(ts: seq<string>, w: string)
    ensures SpaceAfterEach(ts) + w == Unwords(ts + [w])
  {
    if ts == [] {
      assert ts + [w] == [w];
    } else {
      SpaceAfterEachAppend([ts[0]], ts[1..]);
      assert [ts[0]] + ts[1..] == ts;
      assert [ts[0]][..0] == [];
      assert (ts + [w])[1..] == ts[1..] + [w];
      SpaceAfterEachThen(ts[1..], w);
    }
  }

  /** The number of template lines that are model lines rather than copied lines. */
  function ModelCount(template: seq<string>, syn: ConfigSyntax): nat {
    if template == [] then 0
    else ModelCount(template[..|template| - 1], syn) + (if IsCopied(syn, JavaTrim(template[|template| - 1])) then 0 else 1)
  }

  /** The line has at least one field and its last field is a number. */
  predicate NumericLastField(syn: ConfigSyntax, raw: string) {
    var fds := Fields(syn, raw);
    fds != [] && syn.floatingNumber(LastField(fds))
  }

  /** The line is copied, or it is a model line ending in a number. */
  predicate LineOk(syn: ConfigSyntax, raw: string) {
    IsCopied(syn, JavaTrim(raw)) || NumericLastField(syn, raw)
  }

  /** Every model line of the template ends in a number. */
  predicate NumericLastFields(template: seq<string>, syn: ConfigSyntax) {
    forall i :: 0 <= i < |template| ==> LineOk(syn, template[i])
  }

  lemma NumericLastFieldsSnoc(template: seq<string>, syn: ConfigSyntax)
    requires template != []
    ensures NumericLastFields(template, syn) <==>
      NumericLastFields(template[..|template| - 1], syn) && LineOk(syn, template[|template| - 1])
  {
    var p := template[..|template| - 1];
    if NumericLastFields(p, syn) && LineOk(syn, template[|template| - 1]) {
      forall i | 0 <= i < |template|
        ensures LineOk(syn, template[i])
      {
        if i < |p| {
          assert template[i] == p[i];
        }
      }
    }
  }

  /** When a line raises an exception, and whether it consumes a weight. */
  lemma RewriteLineOutcome(raw: string, column: nat, newWeights: Option<seq<real>>,
                           newDiscriminativeModel: Option<string>, syn: ConfigSyntax)
    ensures var out := RewriteLine(raw, column, newWeights, newDiscriminativeModel, syn);
      (out.Fail? <==> !LineOk(syn, raw) || (!IsCopied(syn, JavaTrim(raw)) && newWeights.Some? && column >= |newWeights.value|))
      && (out.Emit? ==> out.usesWeight == (newWeights.Some? && !IsCopied(syn, JavaTrim(raw))))
  {
  }

  /** The weights consumed: one per model line, and none when no new weights are given. */
  function Used(template: seq<string>, newWeights: Option<seq<real>>, syn: ConfigSyntax): nat {
    if newWeights.Some? then ModelCount(template, syn) else 0
  }

  /**
   * The lines go through without an exception exactly when every model line
   * ends in a number and there are enough new weights; then one line is
   * written per template line and one weight is used per model line.
   */
  lemma {:induction false} WriteLinesSucceeds(template: seq<string>, newWeights: Option<seq<real>>,
                                              newDiscriminativeModel: Option<string>, syn: ConfigSyntax)
    ensures var st := WriteLines(template, LineRewriter(newWeights, newDiscriminativeModel, syn));
      st.error.None? <==>
        NumericLastFields(template, syn) && (newWeights.Some? ==> ModelCount(template, syn) <= |newWeights.value|)
    ensures var st := WriteLines(template, LineRewriter(newWeights, newDiscriminativeModel, syn));
      st.error.None? ==> |st.written| == |template| && st.columnID == Used(template, newWeights, syn)
  {
    if template != [] {
      var n := |template| - 1;
      var p := template[..n];
      WriteLinesSucceeds(p, newWeights, newDiscriminativeModel, syn);
      NumericLastFieldsSnoc(template, syn);
      var st := WriteLines(p, LineRewriter(newWeights, newDiscriminativeModel, syn));
      RewriteLineOutcome(template[n], st.columnID, newWeights, newDiscriminativeModel, syn);
    }
  }

  /**
   * Without an exception, line `i` of the output is template line `i`
   * rewritten with the weight numbered by the model lines before it.
   */
  lemma WriteLinesAt(template: seq<string>, i: nat, newWeights: Option<seq<real>>,
                     newDiscriminativeModel: Option<string>, syn: ConfigSyntax)
    requires i < |template|
    requires WriteLines(template, LineRewriter(newWeights, newDiscriminativeModel, syn)).error.None?
    ensures var st := WriteLines(template, LineRewriter(newWeights, newDiscriminativeModel, syn));
      var out := RewriteLine(template[i], Used(template[..i], newWeights, syn), newWeights, newDiscriminativeModel, syn);
      i < |st.written| && out.Emit? && st.written[i] == out.text
  {
    var rewrite := LineRewriter(newWeights, newDiscriminativeModel, syn);
    WrittenAt(template, i, rewrite);
    WriteLinesPrefix(template, i, rewrite);
    WriteLinesSucceeds(template[..i], newWeights, newDiscriminativeModel, syn);
  }

  /**
   * `writeConfigFile` completes without an exception exactly when every model
   * line ends in a number and, if new weights are given, there is exactly one
   * per model line.
   */
  lemma WriteConfigSucceeds(template: seq<string>, newWeights: Option<seq<real>>,
                            newDiscriminativeModel: Option<string>, syn: ConfigSyntax)
    ensures WriteConfig(template, newWeights, newDiscriminativeModel, syn).error.None? <==>
      NumericLastFields(template, syn) && (newWeights.Some? ==> ModelCount(template, syn) == |newWeights.value|)
  {
    WriteLinesSucceeds(template, newWeights, newDiscriminativeModel, syn);
  }

  /** Comments, empty lines and parameter lines are written out trimmed and otherwise unchanged. */
  lemma CopiedLine(raw: string, column: nat, newWeights: Option<seq<real>>,
                   newDiscriminativeModel: Option<string>, syn: ConfigSyntax)
    requires IsCopied(syn, JavaTrim(raw))
    ensures RewriteLine(raw, column, newWeights, newDiscriminativeModel, syn) == Emit(JavaTrim(raw), false)
  {
  }

  /**
   * A model line ending in a number becomes its kept fields and its weight,
   * joined by single spaces: the new weight numbered `column` when new
   * weights are given (an exception when there are too few), its old last
   * field otherwise.
   */
  lemma ModelLine(raw: string, column: nat, newWeights: Option<seq<real>>,
                  newDiscriminativeModel: Option<string>, syn: ConfigSyntax)
    requires !IsCopied(syn, JavaTrim(raw))
    requires NumericLastField(syn, raw)
    ensures var kept := KeptFields(Fields(syn, raw), newDiscriminativeModel);
      match newWeights
      case None =>
        RewriteLine(raw, column, newWeights, newDiscriminativeModel, syn)
          == Emit(Unwords(kept + [LastField(Fields(syn, raw))]), false)
      case Some(ws) =>
        RewriteLine(raw, column, newWeights, newDiscriminativeModel, syn)
          == if column < |ws| then Emit(Unwords(kept + [syn.formatDouble(ws[column])]), true)
             else Fail(WeightIndexOutOfBounds(column))
  {
    var kept := KeptFields(Fields(syn, raw), newDiscriminativeModel);
    SpaceAfterEachThen(kept, LastField(Fields(syn, raw)));
    if newWeights.Some? && column < |newWeights.value| {
      SpaceAfterEachThen(kept, syn.formatDouble(newWeights.value[column]));
    }
  }

  /**
   * A model line without a numeric last field raises an exception, whatever
   * the weights: `IllegalArgumentException` naming the field, or an index
   * exception when the line splits into no field at all.
   */
  lemma NonNumericModelLine(raw: string, column: nat, newWeights: Option<seq<real>>,
                            newDiscriminativeModel: Option<string>, syn: ConfigSyntax)
    requires !IsCopied(syn, JavaTrim(raw))
    requires !NumericLastField(syn, raw)
    ensures var fds := Fields(syn, raw);
      RewriteLine(raw, column, newWeights, newDiscriminativeModel, syn)
        == if fds == [] then Fail(EmptySplit) else Fail(LastFieldNotANumber(LastField(fds)))
  {
  }

  /**
   * The kept fields of an ordinary model line are its fields but the last; a
   * `discriminative` line, when a new model is given, keeps its first field,
   * the new model, and its fields from the third up to the last.
   */
  lemma KeptFieldsCases(fds: seq<string>, newDiscriminativeModel: Option<string>)
    requires |fds| >= 1
    ensures newDiscriminativeModel.None? || fds[0] != "discriminative" ==>
      KeptFields(fds, newDiscriminativeModel) + [LastField(fds)] == fds
    ensures newDiscriminativeModel.Some? && fds[0] == "discriminative" && |fds| >= 3 ==>
      KeptFields(fds, newDiscriminativeModel) + [LastField(fds)]
        == fds[1 := newDiscriminativeModel.value]
  {
    if newDiscriminativeModel.Some? && fds[0] == "discriminative" && |fds| >= 3 {
      var r := KeptFields(fds, newDiscriminativeModel) + [LastField(fds)];
      assert |r| == |fds|;
      forall k | 0 <= k < |fds|
        ensures r[k] == fds[1 := newDiscriminativeModel.value][k]
      {
      }
    }
  }
}
