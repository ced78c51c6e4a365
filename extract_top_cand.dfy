/**
 * Extraction of 1-best translations from an n-best list
 * (`joshua.util.ExtractTopCand.extractOneBest`).
 *
 * Each input line has the shape `id ||| translation ||| ...`. The extractor
 * writes the translation of the first line of every run of consecutive lines
 * with equal (trimmed) segment IDs, and stops at the first malformed line;
 * what it wrote before that line has already been flushed.
 */
module ExtractTopCand {
  import opened Wrappers
  import opened Text

  /** `Regex.threeBarsWithSpace.split`, whose pattern is not part of this model. */
  type Splitter = string -> seq<string>

  datatype ExtractError =
    | NoColumns(line: string)           // the split yields no column, so `columns[0]` is out of bounds
    | MissingSegmentId(line: string)    // "Malformed line, missing segment ID"
    | MissingTranslation(line: string)  // "Malformed line, should have at least two ' ||| '"

  /** The error the extractor raises on `line`, checked in the source's order. */
  function LineError(split: Splitter, line: string): (err: Option<ExtractError>)
    ensures err.None? <==> |split(line)| >= 3 && JavaTrim(split(line)[0]) != "" && !StartsWith(JavaTrim(split(line)[0]), "|||")
    ensures err.Some? ==> err.value.line == line
  {
    var columns := split(line);
    if |columns| == 0 then Some(NoColumns(line))
    else if JavaTrim(columns[0]) == "" || StartsWith(JavaTrim(columns[0]), "|||") then Some(MissingSegmentId(line))
    else if |columns| < 3 then Some(MissingTranslation(line))
    else None
  }

  predicate WellFormed(split: Splitter, line: string) {
    LineError(split, line).None?
  }

  predicate AllWellFormed(split: Splitter, lines: seq<string>) {
    forall i :: 0 <= i < |lines| ==> WellFormed(split, lines[i])
  }

  /**
   * The segment ID of a line: its first column, trimmed (non-numeric IDs are
   * allowed). Only consulted on well-formed lines; "" stands in otherwise.
   */
  function SegmentId(split: Splitter, line: string): string {
    var columns := split(line);
    if |columns| == 0 then "" else JavaTrim(columns[0])
  }

  /** The translation of a line: its second column, untrimmed ("" when there is none). */
  function Translation(split: Splitter, line: string): string {
    var columns := split(line);
    if |columns| < 2 then "" else columns[1]
  }

  /** The segment IDs of well-formed lines, in order. */
  function Ids(split: Splitter, lines: seq<string>): (ids: seq<string>)
    ensures |ids| == |lines|
  {
    if lines == [] then []
    else
      var n := |lines| - 1;
      Ids(split, lines[..n]) + [SegmentId(split, lines[n])]
  }

  /** Index of the first malformed line, or `|lines|` when there is none. */
  function FirstMalformed(split: Splitter, lines: seq<string>): (k: nat)
    ensures k <= |lines|
    ensures AllWellFormed(split, lines[..k])
    ensures k < |lines| ==> !WellFormed(split, lines[k])
  {
    if lines == [] then 0
    else if !WellFormed(split, lines[0]) then 0
    else
      var k := 1 + FirstMalformed(split, lines[1..]);
      assert forall i :: 1 <= i < k ==> lines[..k][i] == lines[1..][..k - 1][i - 1];
      k
  }

  /** The translations of the lines, in order. */
  function Translations(split: Splitter, lines: seq<string>): (trs: seq<string>)
    ensures |trs| == |lines|
  {
    if lines == [] then []
    else
      var n := |lines| - 1;
      Translations(split, lines[..n]) + [Translation(split, lines[n])]
  }

  /** `i` starts a maximal run of equal consecutive IDs. */
  predicate IsRunHead(ids: seq<string>, i: nat)
    requires i < |ids|
  {
    i == 0 || ids[i] != ids[i - 1]
  }

  /**
   * An independent description of the output positions: the indices that
   * start a run, in increasing order, and all of them.
   */
  function RunHeads(ids: seq<string>): (hs: seq<nat>)
    ensures |hs| <= |ids|
    ensures forall j :: 0 <= j < |hs| ==> hs[j] < |ids| && IsRunHead(ids, hs[j])
  {
    if ids == [] then []
    else
      var n := |ids| - 1;
      var prefix := ids[..n];
      assert forall i :: 0 <= i < n ==> (IsRunHead(prefix, i) <==> IsRunHead(ids, i));
      RunHeads(prefix) + (if IsRunHead(ids, n) then [n] else [])
  }

  /**
   * The translations at the run heads: position `n` contributes its
   * translation exactly when its ID differs from the one before it (the first
   * position always contributes).
   */
  function Firsts(ids: seq<string>, trs: seq<string>): seq<string>
    requires |ids| == |trs|
  {
    if ids == [] then []
    else
      var n := |ids| - 1;
      Firsts(ids[..n], trs[..n]) + (if IsRunHead(ids, n) then [trs[n]] else [])
  }

  /** The specification of the extractor's output on well-formed lines. */
  function OneBest(split: Splitter, lines: seq<string>): seq<string> {
    Firsts(Ids(split, lines), Translations(split, lines))
  }

  /** Every consecutive pair of IDs differs: each line is its own run. */
  predicate AllAdjacentDiffer(ids: seq<string>) {
    forall i :: 0 < i < |ids| ==> ids[i] != ids[i - 1]
  }

  // ---------------------------------------------------------------------------
  // The extractor
  // ---------------------------------------------------------------------------

  /**
   * `extractOneBest`: reads `lines` in order, keeping the previous segment ID,
   * and appends the translation of each line whose ID differs from it. Stops at
   * the first malformed line, reporting its error; `written` is what had
   * already been written and flushed by then.
   */
  method ExtractOneBest(split: Splitter, lines: seq<string>) returns (written: seq<string>, err: Option<ExtractError>)
    ensures var k := FirstMalformed(split, lines);
      && written == OneBest(split, lines[..k])
      && err == (if k < |lines| then LineError(split, lines[k]) else None)
  {
    var prevId: Option<string> := None;
    written := [];
    var i := 0;
    while i < |lines|
      invariant 0 <= i <= |lines|
      invariant AllWellFormed(split, lines[..i])
      invariant written == OneBest(split, lines[..i])
      invariant prevId == if i == 0 then None else Some(SegmentId(split, lines[i - 1]))
    {
      var newId, translation, lineErr := ReadLine(split, lines[i]);
      if lineErr.Some? {
        err := lineErr;
        FirstMalformedAt(split, lines, i);
        return;
      }
      ExtractNext(split, lines, i, written, prevId, newId, translation);
      if prevId.None? || prevId.value != newId {
        written := written + [translation];
        prevId := Some(newId);
      }
      i := i + 1;
    }
    assert lines[..i] == lines;
    FirstMalformedAll(split, lines);
    err := None;
  }

  /**
   * The checks the extractor makes on one line, in order: the first column
   * (trimmed) is the segment ID, which must be non-empty and must not start
   * with `|||`; then there must be at least three columns, the second being
   * the translation.
   */
  method ReadLine(split: Splitter, line: string) returns (id: string, translation: string, err: Option<ExtractError>)
    ensures err == LineError(split, line)
    ensures err.None? ==> id == SegmentId(split, line) && translation == Translation(split, line)
  {
    var columns := split(line);
    if |columns| == 0 {
      return "", "", Some(NoColumns(line));
    }
    id := JavaTrim(columns[0]);
    if id == "" || StartsWith(id, "|||") {
      return id, "", Some(MissingSegmentId(line));
    }
    if |columns| < 3 {
      return id, "", Some(MissingTranslation(line));
    }
    translation := columns[1];
    err := None;
  }

  // ---------------------------------------------------------------------------
  // Lemmas
  // ---------------------------------------------------------------------------

  /** A well-formed line extends the well-formed prefix, and the output exactly when its ID differs from the previous one. */
  lemma ExtractNext(split: Splitter, lines: seq<string>, i: nat, written: seq<string>, prevId: Option<string>,
                    newId: string, translation: string)
    requires i < |lines|
    requires AllWellFormed(split, lines[..i]) && written == OneBest(split, lines[..i])
    requires prevId == if i == 0 then None else Some(SegmentId(split, lines[i - 1]))
    requires WellFormed(split, lines[i])
    requires newId == SegmentId(split, lines[i]) && translation == Translation(split, lines[i])
    ensures AllWellFormed(split, lines[..i + 1])
    ensures prevId.None? || prevId.value != newId ==> written + [translation] == OneBest(split, lines[..i + 1])
    ensures !(prevId.None? || prevId.value != newId) ==> written == OneBest(split, lines[..i + 1])
  {
    assert lines[..i + 1] == lines[..i] + [lines[i]];
    OneBestStep(split, lines, i);
  }

  /** The first malformed line is the one after a well-formed prefix. */
  lemma {:induction false} FirstMalformedAt(split: Splitter, lines: seq<string>, i: nat)
    requires i < |lines|
    requires AllWellFormed(split, lines[..i]) && !WellFormed(split, lines[i])
    ensures FirstMalformed(split, lines) == i
  {
    if i > 0 {
      assert WellFormed(split, lines[..i][0]);
      assert lines[1..][..i - 1] == lines[..i][1..];
      FirstMalformedAt(split, lines[1..], i - 1);
    }
  }

  lemma {:induction false} FirstMalformedAll(split: Splitter, lines: seq<string>)
    requires AllWellFormed(split, lines)
    ensures FirstMalformed(split, lines) == |lines|
  {
    if lines != [] {
      FirstMalformedAll(split, lines[1..]);
    }
  }

  lemma {:induction false} IdsAt(split: Splitter, lines: seq<string>, i: nat)
    requires i < |lines|
    ensures Ids(split, lines)[i] == SegmentId(split, lines[i])
  {
    var n := |lines| - 1;
    if i < n {
      IdsAt(split, lines[..n], i);
    }
  }

  lemma {:induction false} TranslationsAt(split: Splitter, lines: seq<string>, i: nat)
    requires i < |lines|
    ensures Translations(split, lines)[i] == Translation(split, lines[i])
  {
    var n := |lines| - 1;
    if i < n {
      TranslationsAt(split, lines[..n], i);
    }
  }

  /** Extending the input by one line extends the output by at most that line's translation. */
  lemma OneBestStep(split: Splitter, lines: seq<string>, i: nat)
    requires i < |lines|
    ensures OneBest(split, lines[..i + 1]) == OneBest(split, lines[..i]) +
      (if i == 0 || SegmentId(split, lines[i]) != SegmentId(split, lines[i - 1])
       then [Translation(split, lines[i])] else [])
  {
    var p := lines[..i + 1];
    assert p[..i] == lines[..i] && p[i] == lines[i];
    var ids := Ids(split, p);
    var trs := Translations(split, p);
    assert ids[..i] == Ids(split, lines[..i]) && ids[i] == SegmentId(split, lines[i]);
    assert trs[..i] == Translations(split, lines[..i]) && trs[i] == Translation(split, lines[i]);
    if i > 0 {
      IdsAt(split, lines[..i], i - 1);
      assert ids[i - 1] == SegmentId(split, lines[i - 1]);
    }
  }

  /** There is one output per run head. */
  lemma {:induction false} FirstsLength(ids: seq<string>, trs: seq<string>)
    requires |ids| == |trs|
    ensures |Firsts(ids, trs)| == |RunHeads(ids)|
  {
    if ids != [] {
      var n := |ids| - 1;
      FirstsLength(ids[..n], trs[..n]);
    }
  }

  /** The `j`-th output is the translation at the `j`-th run head. */
  lemma {:induction false} FirstsAt(ids: seq<string>, trs: seq<string>, j: nat)
    requires |ids| == |trs| && j < |RunHeads(ids)|
    ensures RunHeads(ids)[j] < |trs| && j < |Firsts(ids, trs)|
    ensures Firsts(ids, trs)[j] == trs[RunHeads(ids)[j]]
  {
    var n := |ids| - 1;
    var hs := RunHeads(ids[..n]);
    FirstsLength(ids[..n], trs[..n]);
    FirstsLength(ids, trs);
    if j < |hs| {
      FirstsAt(ids[..n], trs[..n], j);
      assert RunHeads(ids)[j] == hs[j];
    }
  }

  /** The output has one entry per run of equal consecutive segment IDs. */
  lemma OneBestLength(split: Splitter, lines: seq<string>)
    ensures |OneBest(split, lines)| == |RunHeads(Ids(split, lines))|
  {
    FirstsLength(Ids(split, lines), Translations(split, lines));
  }

  /**
   * The `j`-th output is the translation of the line starting the `j`-th run:
   * no segment ID and no other column is ever emitted, and the order is kept.
   */
  lemma OneBestAt(split: Splitter, lines: seq<string>, j: nat)
    requires j < |RunHeads(Ids(split, lines))|
    ensures var k := RunHeads(Ids(split, lines))[j];
      && k < |lines| && j < |OneBest(split, lines)|
      && OneBest(split, lines)[j] == Translation(split, lines[k])
  {
    FirstsAt(Ids(split, lines), Translations(split, lines), j);
    TranslationsAt(split, lines, RunHeads(Ids(split, lines))[j]);
  }

  /** The first position is always a run head, so its translation comes first. */
  lemma {:induction false} FirstsStart(ids: seq<string>, trs: seq<string>)
    requires |ids| == |trs| && ids != []
    ensures |Firsts(ids, trs)| >= 1 && Firsts(ids, trs)[0] == trs[0]
  {
    var n := |ids| - 1;
    if n > 0 {
      FirstsStart(ids[..n], trs[..n]);
    }
  }

  /** The first line always produces output, since there is no previous ID yet. */
  lemma OneBestStartsWithFirstLine(split: Splitter, lines: seq<string>)
    requires lines != []
    ensures |OneBest(split, lines)| >= 1
    ensures OneBest(split, lines)[0] == Translation(split, lines[0])
  {
    FirstsStart(Ids(split, lines), Translations(split, lines));
    TranslationsAt(split, lines, 0);
  }

  /** A single run yields only its first translation. */
  lemma {:induction false} FirstsOneRun(ids: seq<string>, trs: seq<string>)
    requires |ids| == |trs| && ids != []
    requires forall i :: 0 <= i < |ids| ==> ids[i] == ids[0]
    ensures Firsts(ids, trs) == [trs[0]]
  {
    var n := |ids| - 1;
    if n > 0 {
      FirstsOneRun(ids[..n], trs[..n]);
    }
  }

  /** `RunHeads` lists the run heads in strictly increasing order, and all of them. */
  lemma {:induction false} RunHeadsSortedComplete(ids: seq<string>)
    ensures forall j, k :: 0 <= j < k < |RunHeads(ids)| ==> RunHeads(ids)[j] < RunHeads(ids)[k]
    ensures forall i :: 0 <= i < |ids| && IsRunHead(ids, i) ==> i in RunHeads(ids)
  {
    if ids != [] {
      var n := |ids| - 1;
      var prefix := ids[..n];
      RunHeadsSortedComplete(prefix);
      assert forall i :: 0 <= i < n ==> (IsRunHead(prefix, i) <==> IsRunHead(ids, i));
    }
  }

  /**
   * The number of outputs equals the number of runs; it never exceeds the
   * number of lines, and equals it exactly when all adjacent IDs differ.
   */
  lemma {:induction false} RunHeadsCount(ids: seq<string>)
    ensures |RunHeads(ids)| <= |ids|
    ensures |RunHeads(ids)| == |ids| <==> AllAdjacentDiffer(ids)
  {
    if ids != [] {
      var n := |ids| - 1;
      RunHeadsCount(ids[..n]);
      assert AllAdjacentDiffer(ids) <==> AllAdjacentDiffer(ids[..n]) && IsRunHead(ids, n);
    }
  }

  /** When every line repeats the first line's ID, only the first translation is written. */
  lemma OneBestSingleSegment(split: Splitter, lines: seq<string>)
    requires lines != []
    requires forall i :: 0 <= i < |lines| ==> SegmentId(split, lines[i]) == SegmentId(split, lines[0])
    ensures OneBest(split, lines) == [Translation(split, lines[0])]
  {
    var ids := Ids(split, lines);
    forall i | 0 <= i < |ids|
      ensures ids[i] == ids[0]
    {
      IdsAt(split, lines, i);
      IdsAt(split, lines, 0);
    }
    FirstsOneRun(ids, Translations(split, lines));
    TranslationsAt(split, lines, 0);
  }
}
