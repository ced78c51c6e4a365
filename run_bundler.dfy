/**
 * Config-line rewriting of the bundler script (`scripts/support/run-bundler.py`).
 *
 * A Joshua config line is split at its first '#' into whitespace-separated
 * command tokens and a comment. Lines whose first token names a file
 * (`lm`, `lmfile`, `tm`, `tmfile`, `weights-file`) refer to a file that is
 * copied into the bundle, binarized (language models ending in `.gz`) or
 * packed (grammars that are not directories); their last token is rewritten
 * to the file's name in the bundle. Every other line is re-joined unchanged.
 */
module RunBundler {
  import opened Text

  /** `FILE_TYPE_TOKENS`: first tokens of lines that refer to a file. */
  const FileTypeTokens: set<string> := {"lm", "lmfile", "tmfile", "tm", "weights-file"}

  /** The `line_parts` dictionary: the command tokens and the comment (without its '#'). */
  datatype LineParts = LineParts(command: seq<string>, comment: string)

  /** The four config-line classes of the script. */
  datatype LineKind =
    | Plain        // ConfigLine
    | CopyFile     // CopyFileConfigLine
    | BinarizeLm   // BinarizeLmFileConfigLine
    | PackGrammar  // PackGrammarFileConfigLine

  /** `extract_line_parts`: the tokens before the first '#', and the text after it. */
  function ExtractLineParts(line: string): (parts: LineParts)
    ensures AllTokens(parts.command)
    ensures '#' !in line ==> parts.comment == ""
  {
    var (config, _, comment) := Partition(line, '#');
    LineParts(Tokens(config), comment)
  }

  /**
   * `ConfigLine.join_command_comment`: the overrides count only when non-empty
   * (Python truthiness); a non-empty comment gets its '#' back; the result is
   * stripped.
   */
  function JoinCommandComment(parts: LineParts, customCommand: seq<string>, customComment: string): (line: string)
    ensures line == [] || (!IsSpace(line[0]) && !IsSpace(line[|line| - 1]))
  {
    var command := Unwords(if customCommand != [] then customCommand else parts.command);
    var comment := if customComment != "" then customComment else parts.comment;
    var commentText := if comment != "" then "#" + comment else "";
    Strip(command + " " + commentText)
  }

  /**
   * `abs_file_path`: a token that is absolute, or already starts with the
   * origin directory, is kept; any other token is joined onto the directory.
   */
  function AbsFilePath(dir: string, token: string): (path: string)
    ensures StartsWith(token, "/") || StartsWith(token, dir) ==> path == token
    ensures EndsWith(path, token)
    ensures StartsWith(path, dir) || StartsWith(path, "/")
  {
    if StartsWith(token, "/") || StartsWith(token, dir) then token
    else PathJoin(dir, token)
  }

  /** The name of a binarized or packed file: a trailing `.gz` is replaced by `suffix`, otherwise `suffix` is appended. */
  function RenamedFile(name: string, suffix: string): string {
    if EndsWith(name, ".gz") then name[..|name| - 3] + suffix else name + suffix
  }

  /** The suffix a renaming kind gives its output file. */
  function RenameSuffix(kind: LineKind): string
    requires kind.BinarizeLm? || kind.PackGrammar?
  {
    if kind.BinarizeLm? then ".kenlm" else ".packed"
  }

  /** The class `config_line_factory` picks for a line with these command tokens. */
  function Classify(tokens: seq<string>, origDir: string, isDir: string -> bool): (kind: LineKind)
    ensures !kind.Plain? ==> tokens != [] && tokens[0] in FileTypeTokens
    ensures kind.BinarizeLm? ==> StartsWith(tokens[0], "lm")
    ensures kind.PackGrammar? ==> StartsWith(tokens[0], "tm")
  {
    if tokens == [] || tokens[0] !in FileTypeTokens then Plain
    else
      var source := AbsFilePath(origDir, tokens[|tokens| - 1]);
      if StartsWith(tokens[0], "lm") && EndsWith(source, ".gz") then BinarizeLm
      else if StartsWith(tokens[0], "tm") && !isDir(source) then PackGrammar
      else CopyFile
  }

  /**
   * A config line object. `command` is `line_parts["command"]`, which
   * `Result` rewrites in place; the file fields are meaningful for file kinds
   * only, and `newName` (absent in Python for the other kinds) is "" unless
   * the file is binarized or packed.
   */
  class ConfigLine {
    var command: seq<string>
    const comment: string
    const kind: LineKind
    const origDir: string
    const destDir: string
    const fileToken: string
    const sourceFilePath: string
    var destFilePath: string
    var newName: string

    /** A file line always has a last token to rewrite. */
    predicate Valid()
      reads this
    {
      !kind.Plain? ==> |command| > 0
    }

    /**
     * The fields the file-line constructors set: the file token is the last
     * command token, the source is resolved against `origDir`, and the
     * destination is the token's basename in `destDir` (copies) or the
     * renamed file in `destDir` (binarized and packed files).
     */
    predicate FileFields()
      reads this
    {
      && |command| > 0
      && fileToken == command[|command| - 1]
      && sourceFilePath == AbsFilePath(origDir, fileToken)
      && (kind.CopyFile? ==> newName == "" && destFilePath == PathJoin(destDir, Basename(fileToken)))
      && (kind.BinarizeLm? || kind.PackGrammar? ==>
            && newName == RenamedFile(Basename(fileToken), RenameSuffix(kind))
            && destFilePath == PathJoin(destDir, newName))
    }

    /** `ConfigLine(line_parts)`: a line that is re-joined unchanged. */
    constructor Plain(parts: LineParts)
      ensures command == parts.command && comment == parts.comment && kind.Plain?
      ensures Valid()
    {
      command := parts.command;
      comment := parts.comment;
      kind := LineKind.Plain;
      origDir := "";
      destDir := "";
      fileToken := "";
      sourceFilePath := "";
      destFilePath := "";
      newName := "";
    }

    /**
     * The constructors of the file-line classes, which set `FileFields`.
     * Python raises an IndexError on a line without tokens.
     */
    constructor FileLine(k: LineKind, parts: LineParts, origDir: string, destDir: string)
      requires !k.Plain? && |parts.command| > 0
      ensures command == parts.command && comment == parts.comment && kind == k
      ensures this.origDir == origDir && this.destDir == destDir
      ensures fileToken == parts.command[|parts.command| - 1]
      ensures sourceFilePath == AbsFilePath(origDir, fileToken)
      ensures k.CopyFile? ==> newName == "" && destFilePath == PathJoin(destDir, Basename(fileToken))
      ensures !k.CopyFile? ==>
        && newName == RenamedFile(Basename(fileToken), RenameSuffix(k))
        && destFilePath == PathJoin(destDir, newName)
      ensures Valid() && FileFields()
    {
      command := parts.command;
      comment := parts.comment;
      kind := k;
      this.origDir := origDir;
      this.destDir := destDir;
      var token := parts.command[|parts.command| - 1];
      fileToken := token;
      sourceFilePath := AbsFilePath(origDir, token);
      destFilePath := PathJoin(destDir, Basename(token));
      newName := "";
      new;
      if !k.CopyFile? {
        destFilePath := DetermineRenamedDestPath();
      }
    }

    /**
     * `__determine_copy_dest_path` of the binarizing and packing classes:
     * names the output after the last command token and returns its path in
     * the destination directory.
     */
    method DetermineRenamedDestPath() returns (path: string)
      requires Valid() && (kind.BinarizeLm? || kind.PackGrammar?)
      modifies this`newName
      ensures newName == RenamedFile(Basename(command[|command| - 1]), RenameSuffix(kind))
      ensures path == PathJoin(destDir, newName)
    {
      var fileName := Basename(command[|command| - 1]);
      newName := RenamedFile(fileName, RenameSuffix(kind));
      path := PathJoin(destDir, newName);
    }

    /** The token `Result` puts in place of the last command token of a file line. */
    function Replacement(): string
      reads this
    {
      if kind.CopyFile? then Basename(destFilePath) else newName
    }

    /**
     * `result()`: a plain line is re-joined as it is; a file line first
     * overwrites its last command token with the file's name in the bundle.
     */
    method Result() returns (r: string)
      requires Valid()
      modifies this`command
      ensures Valid()
      ensures kind.Plain? ==> command == old(command)
      ensures !kind.Plain? ==> command == old(command)[..|old(command)| - 1] + [Replacement()]
      ensures r == JoinCommandComment(LineParts(command, comment), [], "")
    {
      if kind.Plain? {
        r := JoinCommandComment(LineParts(command, comment), [], "");
      } else {
        var commandParts := command;
        commandParts := commandParts[|commandParts| - 1 := Replacement()];
        command := commandParts;
        r := JoinCommandComment(LineParts(command, comment), commandParts, "");
      }
    }
  }

  /** `config_line_factory`: builds the object of the class `Classify` picks. */
  method ConfigLineFactory(line: string, origDir: string, destDir: string, isDir: string -> bool)
    returns (cl: ConfigLine)
    ensures fresh(cl) && cl.Valid()
    ensures cl.kind == Classify(ExtractLineParts(line).command, origDir, isDir)
    ensures cl.command == ExtractLineParts(line).command && cl.comment == ExtractLineParts(line).comment
    ensures !cl.kind.Plain? ==> cl.origDir == origDir && cl.destDir == destDir && cl.FileFields()
  {
    var parts := ExtractLineParts(line);
    var tokens := parts.command;
    if tokens != [] && tokens[0] in FileTypeTokens {
      var sourceFilePath := AbsFilePath(origDir, tokens[|tokens| - 1]);
      if StartsWith(tokens[0], "lm") && EndsWith(sourceFilePath, ".gz") {
        cl := new ConfigLine.FileLine(BinarizeLm, parts, origDir, destDir);
        return;
      }
      if StartsWith(tokens[0], "tm") && !isDir(sourceFilePath) {
        cl := new ConfigLine.FileLine(PackGrammar, parts, origDir, destDir);
        return;
      }
      cl := new ConfigLine.FileLine(CopyFile, parts, origDir, destDir);
    } else {
      cl := new ConfigLine.Plain(parts);
    }
  }

  // ---------------------------------------------------------------------------
  // Lemmas
  // ---------------------------------------------------------------------------

  /** No command token holds a '#', so the tokens cannot run into the comment. */
  predicate HashFree(ts: seq<string>) {
    forall i :: 0 <= i < |ts| ==> '#' !in ts[i]
  }

  /** The lines `join_command_comment` can produce: a comment does not end in whitespace. */
  predicate Joinable(parts: LineParts) {
    && AllTokens(parts.command)
    && HashFree(parts.command)
    && (parts.comment == [] || !IsSpace(parts.comment[|parts.comment| - 1]))
  }

  /** A comment-only line `#c` is joined without the separating space. */
  lemma JoinCommentOnly(c: string)
    requires c != [] && !IsSpace(c[|c| - 1])
    ensures JoinCommandComment(LineParts([], c), [], "") == "#" + c
  {
    var line := "#" + c;
    assert Unwords([]) + " " + line == " " + line;
    StripLeadingSpace(" " + line);
    assert (" " + line)[1..] == line;
    StripNoop(line);
  }

  /** Tokens without a comment are joined with single spaces and nothing else. */
  lemma JoinCommandOnly(ts: seq<string>)
    requires AllTokens(ts) && ts != []
    ensures JoinCommandComment(LineParts(ts, []), [], "") == Unwords(ts)
  {
    var u := Unwords(ts);
    UnwordsEnds(ts);
    StripTrailingSpace(u);
    assert u + " " + "" == u + " ";
  }

  /** Tokens and a comment are joined as `tokens #comment`. */
  lemma JoinCommandAndComment(ts: seq<string>, c: string)
    requires AllTokens(ts) && ts != []
    requires c != [] && !IsSpace(c[|c| - 1])
    ensures JoinCommandComment(LineParts(ts, c), [], "") == Unwords(ts) + " " + ['#'] + c
  {
    var u := Unwords(ts);
    var line := u + " " + ("#" + c);
    UnwordsEnds(ts);
    assert line[0] == u[0] && line[|line| - 1] == c[|c| - 1];
    StripNoop(line);
    assert u + " " + ['#'] + c == line;
  }

  /**
   * Splitting a joined line gives back its tokens and its comment: joining
   * loses nothing that `extract_line_parts` reads.
   */
  lemma ExtractOfJoin(parts: LineParts)
    requires Joinable(parts)
    ensures ExtractLineParts(JoinCommandComment(parts, [], "")) == parts
  {
    var ts, c := parts.command, parts.comment;
    if ts == [] && c == [] {
      assert JoinCommandComment(parts, [], "") == Strip(" ") == "";
    } else if ts == [] {
      JoinCommentOnly(c);
      PartitionAt("", '#', c);
      assert "" + ['#'] + c == "#" + c;
    } else if c == [] {
      JoinCommandOnly(ts);
      UnwordsAvoids(ts, '#');
      TokensOfUnwords(ts, "");
      assert Unwords(ts) + "" == Unwords(ts);
    } else {
      JoinCommandAndComment(ts, c);
      UnwordsAvoids(ts, '#');
      assert '#' !in Unwords(ts) + " ";
      PartitionAt(Unwords(ts) + " ", '#', c);
      TokensOfUnwords(ts, " ");
    }
  }

  /**
   * A line in joined form (blank, comment-only, or tokens with an optional
   * comment) comes out of a plain `ConfigLine` unchanged.
   */
  lemma PlainLineRoundTrip(parts: LineParts)
    requires Joinable(parts)
    ensures var line := JoinCommandComment(parts, [], "");
      JoinCommandComment(ExtractLineParts(line), [], "") == line
  {
    ExtractOfJoin(parts);
  }

  /**
   * Rewriting the last token of a file line keeps every other token and the
   * comment: reading the rewritten line back gives exactly the original
   * parts with the last token replaced.
   */
  lemma RewriteKeepsOtherTokens(parts: LineParts, replacement: string)
    requires Joinable(parts) && parts.command != []
    requires IsToken(replacement) && '#' !in replacement
    ensures var n := |parts.command| - 1;
      var rewritten := LineParts(parts.command[..n] + [replacement], parts.comment);
      ExtractLineParts(JoinCommandComment(rewritten, [], "")) == rewritten
  {
    var n := |parts.command| - 1;
    var ts := parts.command[..n] + [replacement];
    assert forall i :: 0 <= i < n ==> ts[i] == parts.command[i];
    ExtractOfJoin(LineParts(ts, parts.comment));
  }

  /** The basename of a token that does not end in '/' is again a token, and brings no '#'. */
  lemma BasenameOfToken(t: string)
    requires IsToken(t) && '#' !in t && t[|t| - 1] != '/'
    ensures IsToken(Basename(t)) && '#' !in Basename(t)
  {
    BasenameIsLastComponent(t);
    var b := Basename(t);
    assert b == t[|t| - |b|..];
    assert forall i :: 0 <= i < |b| ==> b[i] == t[|t| - |b| + i];
  }

  /** A blank line is kept blank (the script's blank-line test). */
  lemma BlankLineKept()
    ensures JoinCommandComment(ExtractLineParts(""), [], "") == ""
  {
    assert ExtractLineParts("") == LineParts([], "");
    assert JoinCommandComment(LineParts([], ""), [], "") == Strip(" ");
  }

  /** The first token alone decides whether a line refers to a file. */
  lemma ClassifyPlain(tokens: seq<string>, origDir: string, isDir: string -> bool)
    ensures Classify(tokens, origDir, isDir).Plain? <==> tokens == [] || tokens[0] !in FileTypeTokens
  {
  }

  /**
   * A language-model line is binarized exactly when its file token ends in
   * `.gz`, whatever the origin directory; a weights file is always copied.
   */
  lemma ClassifyByToken(tokens: seq<string>, origDir: string, isDir: string -> bool)
    requires tokens != []
    ensures tokens[0] in {"lm", "lmfile"} ==>
      (Classify(tokens, origDir, isDir).BinarizeLm? <==> EndsWith(tokens[|tokens| - 1], ".gz"))
    ensures tokens[0] == "weights-file" ==> Classify(tokens, origDir, isDir).CopyFile?
    ensures tokens[0] in {"tm", "tmfile"} ==>
      (Classify(tokens, origDir, isDir).PackGrammar? <==> !isDir(AbsFilePath(origDir, tokens[|tokens| - 1])))
  {
    var t := tokens[|tokens| - 1];
    var source := AbsFilePath(origDir, t);
    AbsFilePathKeepsToken(origDir, t);
    EndsWithGzTransfers(source, t);
    assert StartsWith("lm", "lm") && StartsWith("lmfile", "lm");
    assert StartsWith("tm", "tm") && StartsWith("tmfile", "tm");
    assert "weights-file"[0] == 'w' && "tm"[0] == 't' && "tmfile"[0] == 't';
  }

  /**
   * `abs_file_path` keeps the token exactly when it is absolute or already
   * starts with the directory; otherwise the token follows a '/'.
   */
  lemma AbsFilePathKeepsToken(dir: string, token: string)
    ensures var p := AbsFilePath(dir, token);
      && (p == token <==> StartsWith(token, "/") || StartsWith(token, dir))
      && (p == token || EndsWith(p, "/" + token))
  {
    PathJoinEnds(dir, token);
  }

  /**
   * Renaming is undone by removing the suffix (and restoring `.gz` if the
   * name had it): the new name ends in the suffix and keeps the stem.
   */
  lemma RenamedFileInverse(name: string, suffix: string)
    ensures var r := RenamedFile(name, suffix);
      && EndsWith(r, suffix)
      && r[..|r| - |suffix|] + (if EndsWith(name, ".gz") then ".gz" else "") == name
  {
    var r := RenamedFile(name, suffix);
    if EndsWith(name, ".gz") {
      assert r[..|r| - |suffix|] == name[..|name| - 3];
      assert name[..|name| - 3] + ".gz" == name;
    } else {
      assert r[..|r| - |suffix|] == name;
    }
  }

  /**
   * A path that is `token`, or ends in "/" + `token`, ends in `.gz` exactly
   * when `token` does: the '/' can never be part of a `.gz` ending.
   */
  lemma EndsWithGzTransfers(p: string, token: string)
    requires p == token || EndsWith(p, "/" + token)
    ensures EndsWith(p, ".gz") <==> EndsWith(token, ".gz")
  {
    if p != token {
      var k := |p| - |token| - 1;
      assert p[k] == '/';
      if |token| >= 3 {
        assert p[|p| - 3..] == token[|token| - 3..];
      } else if |p| >= 3 {
        assert p[|p| - 3..][k - (|p| - 3)] == '/';
      }
    }
  }

  /**
   * The copy destination drops the token's directories: its basename, which
   * `Result` writes into the line, is the basename of the token.
   */
  lemma CopyDestinationBasename(destDir: string, token: string)
    ensures Basename(PathJoin(destDir, Basename(token))) == Basename(token)
  {
    BasenameIsLastComponent(token);
    BasenameOfPathJoin(destDir, Basename(token));
  }

  /** A renamed file lives directly in the destination directory, under its new name. */
  lemma RenamedDestinationBasename(destDir: string, token: string, suffix: string)
    requires '/' !in suffix
    ensures Basename(PathJoin(destDir, RenamedFile(Basename(token), suffix))) == RenamedFile(Basename(token), suffix)
  {
    var b := Basename(token);
    var r := RenamedFile(b, suffix);
    BasenameIsLastComponent(token);
    assert '/' !in r by {
      if EndsWith(b, ".gz") {
        assert r == b[..|b| - 3] + suffix;
        assert forall i :: 0 <= i < |b| - 3 ==> r[i] == b[i];
      } else {
        assert r == b + suffix;
      }
    }
    BasenameOfPathJoin(destDir, r);
  }

  /** The unit tests' `abs_file_path` cases. */
  lemma AbsFilePathExamples()
    ensures AbsFilePath("/foo", "/bar/file.txt") == "/bar/file.txt"
    ensures AbsFilePath("/bar", "/bar/file.txt") == "/bar/file.txt"
    ensures AbsFilePath("/foo", "bar/file.txt") == "/foo/bar/file.txt"
  {
    assert "bar/file.txt"[0] == 'b';
  }

  /** The unit tests' renamings: `lm.gz` → `lm.kenlm`, `grammar.gz` → `grammar.packed`, `another_grammar` → `another_grammar.packed`. */
  lemma RenamedFileExamples()
    ensures RenamedFile("lm.gz", ".kenlm") == "lm.kenlm"
    ensures RenamedFile("grammar.gz", ".packed") == "grammar.packed"
    ensures RenamedFile("another_grammar", ".packed") == "another_grammar.packed"
  {
    assert EndsWith("lm.gz", ".gz") && EndsWith("grammar.gz", ".gz");
    assert !EndsWith("another_grammar", ".gz");
  }
}
