/**
 * String helpers shared by the modelled Java and Python code: whitespace
 * tokenising (Python's `str.split()`, Java's `split("\\s+")`), trimming
 * (Python's `str.strip()`, Java's `String.trim()`), `" ".join`, prefix and
 * suffix tests, `str.partition` and `os.path.basename`.
 */
module Text {

  /** The whitespace of Java's `\s` and of Python 2's byte-string `split`/`strip`:
      space, tab, newline, vertical tab, form feed and carriage return. */
  predicate IsSpace(c: char) {
    c == ' ' || '\t' <= c <= '\r'
  }

  /** The characters Java's `String.trim()` removes: everything up to U+0020. */
  predicate IsJavaBlank(c: char) {
    c <= ' '
  }

  /** A token as produced by whitespace splitting: non-empty, no whitespace inside. */
  predicate IsToken(t: string) {
    |t| > 0 && forall i :: 0 <= i < |t| ==> !IsSpace(t[i])
  }

  predicate AllTokens(ts: seq<string>) {
    forall i :: 0 <= i < |ts| ==> IsToken(ts[i])
  }

  function StartsWith(s: string, prefix: string): bool {
    prefix <= s
  }

  function EndsWith(s: string, suffix: string): bool {
    |suffix| <= |s| && s[|s| - |suffix|..] == suffix
  }

  /** Length of the maximal whitespace-free prefix of `s`. */
  function WordLength(s: string): (n: nat)
    ensures n <= |s|
    ensures forall i :: 0 <= i < n ==> !IsSpace(s[i])
    ensures n < |s| ==> IsSpace(s[n])
  {
    if s == [] || IsSpace(s[0]) then 0 else 1 + WordLength(s[1..])
  }

  /** Python's `s.split()`: the maximal whitespace-free runs of `s`, in order. */
  function Tokens(s: string): (ts: seq<string>)
    ensures AllTokens(ts)
    decreases |s|
  {
    if s == [] then []
    else if IsSpace(s[0]) then Tokens(s[1..])
    else
      var n := WordLength(s);
      [s[..n]] + Tokens(s[n..])
  }

  /**
   * Java's `s.split("\\s+")`: like `Tokens`, except that a string starting
   * with whitespace (and holding a token) yields a leading empty field, and
   * the empty string yields one empty field. Trailing empty fields are dropped,
   * so an all-whitespace string yields no field at all.
   */
  function JavaSplitSpaces(s: string): (fields: seq<string>)
    ensures forall i :: 0 < i < |fields| ==> IsToken(fields[i])
    ensures fields != [] && !IsToken(fields[0]) ==> fields[0] == "" && (s == [] || IsSpace(s[0]))
  {
    if s == [] then [""]
    else if IsSpace(s[0]) && Tokens(s) != [] then [""] + Tokens(s)
    else Tokens(s)
  }

  /** `" ".join(ts)` (Python) or the single-space join the Java code builds by hand. */
  function Unwords(ts: seq<string>): string {
    if ts == [] then ""
    else if |ts| == 1 then ts[0]
    else ts[0] + " " + Unwords(ts[1..])
  }

  /** Removes the characters satisfying `blank` from the front of `s`. */
  function TrimStart(s: string, blank: char -> bool): (r: string)
    ensures |r| <= |s|
    ensures r == [] || !blank(r[0])
  {
    if s != [] && blank(s[0]) then TrimStart(s[1..], blank) else s
  }

  /** Removes the characters satisfying `blank` from the end of `s`. */
  function TrimEnd(s: string, blank: char -> bool): (r: string)
    ensures |r| <= |s|
    ensures r == [] || !blank(r[|r| - 1])
  {
    if s != [] && blank(s[|s| - 1]) then TrimEnd(s[..|s| - 1], blank) else s
  }

  /** Trimming the front keeps a suffix of the input, and drops only blank characters. */
  lemma {:induction false} TrimStartSuffix(s: string, blank: char -> bool)
    ensures var r := TrimStart(s, blank);
      r == s[|s| - |r|..] && forall i :: 0 <= i < |s| - |r| ==> blank(s[i])
  {
    if s != [] && blank(s[0]) {
      TrimStartSuffix(s[1..], blank);
    }
  }

  /** Trimming the end keeps a prefix of the input, and drops only blank characters. */
  lemma {:induction false} TrimEndPrefix(s: string, blank: char -> bool)
    ensures var r := TrimEnd(s, blank);
      r == s[..|r|] && forall i :: |r| <= i < |s| ==> blank(s[i])
  {
    if s != [] && blank(s[|s| - 1]) {
      TrimEndPrefix(s[..|s| - 1], blank);
    }
  }

  /** Python's `s.strip()`. */
  function Strip(s: string): (r: string)
    ensures |r| <= |s|
    ensures r == [] || (!IsSpace(r[0]) && !IsSpace(r[|r| - 1]))
  {
    var t := TrimStart(s, IsSpace);
    TrimEndPrefix(t, IsSpace);
    TrimEnd(t, IsSpace)
  }

  /** Java's `s.trim()`. */
  function JavaTrim(s: string): (r: string)
    ensures |r| <= |s|
    ensures r == [] || (!IsJavaBlank(r[0]) && !IsJavaBlank(r[|r| - 1]))
  {
    var t := TrimStart(s, IsJavaBlank);
    TrimEndPrefix(t, IsJavaBlank);
    TrimEnd(t, IsJavaBlank)
  }

  /** Java's `s.replaceAll("\\s+", " ")`: every whitespace run becomes one space. */
  function CollapseSpaces(s: string): (r: string)
    ensures |r| <= |s|
    ensures forall i :: 0 <= i < |r| ==> IsSpace(r[i]) ==> r[i] == ' '
    ensures forall i :: 0 < i < |r| ==> !(r[i - 1] == ' ' && r[i] == ' ')
    ensures s != [] && !IsSpace(s[0]) ==> r != [] && r[0] == s[0]
    decreases |s|
  {
    if s == [] then ""
    else if IsSpace(s[0]) then " " + CollapseSpaces(TrimStart(s[1..], IsSpace))
    else [s[0]] + CollapseSpaces(s[1..])
  }

  /**
   * Python's `s.partition(sep)`: the text before the first `sep`, whether
   * `sep` occurs, and the text after it.
   */
  function Partition(s: string, sep: char): (r: (string, bool, string))
    ensures r.0 + (if r.1 then [sep] else []) + r.2 == s
    ensures sep !in r.0
    ensures r.1 <==> sep in s
    ensures !r.1 ==> r.2 == []
  {
    if s == [] then ([], false, [])
    else if s[0] == sep then ([], true, s[1..])
    else
      var (before, found, after) := Partition(s[1..], sep);
      assert s == [s[0]] + s[1..];
      ([s[0]] + before, found, after)
  }

  /** `os.path.basename(p)`: the text after the last '/'. */
  function Basename(p: string): (b: string)
    ensures '/' !in b
    ensures |b| <= |p|
  {
    if p == [] then []
    else if p[|p| - 1] == '/' then []
    else Basename(p[..|p| - 1]) + [p[|p| - 1]]
  }

  /** `os.path.join(dir, name)` for two components: an absolute `name` wins. */
  function PathJoin(dir: string, name: string): (p: string)
    ensures StartsWith(name, "/") ==> p == name
    ensures !StartsWith(name, "/") ==> StartsWith(p, dir) && EndsWith(p, name)
  {
    if StartsWith(name, "/") then name
    else if dir == [] || dir[|dir| - 1] == '/' then dir + name
    else dir + "/" + name
  }

  // ---------------------------------------------------------------------------
  // Lemmas
  // ---------------------------------------------------------------------------

  /** The basename is the slash-free tail of the path after its last '/'. */
  lemma {:induction false} BasenameIsLastComponent(p: string)
    ensures var b := Basename(p);
      && '/' !in b
      && EndsWith(p, b)
      && (|b| < |p| ==> p[|p| - |b| - 1] == '/')
  {
    if p != [] && p[|p| - 1] != '/' {
      var init := p[..|p| - 1];
      var c := p[|p| - 1];
      BasenameIsLastComponent(init);
      var b0 := Basename(init);
      var b := b0 + [c];
      assert Basename(p) == b;
      assert p == init + [c];
      assert p[|p| - |b|..] == init[|init| - |b0|..] + [c];
      assert |b| < |p| ==> p[|p| - |b| - 1] == init[|init| - |b0| - 1];
    }
  }

  /** The joined path ends with "/" + `name` (or is `name` itself, when absolute or under an empty directory). */
  lemma PathJoinEnds(dir: string, name: string)
    ensures PathJoin(dir, name) == name || EndsWith(PathJoin(dir, name), "/" + name)
    ensures StartsWith(name, "/") ==> PathJoin(dir, name) == name
  {
    var p := PathJoin(dir, name);
    if !StartsWith(name, "/") && dir != [] {
      if dir[|dir| - 1] == '/' {
        assert p[|p| - |name| - 1..] == [dir[|dir| - 1]] + name;
      } else {
        assert p[|p| - |name| - 1..] == "/" + name;
      }
    }
  }

  /** Whatever ends in '/' (or is empty), followed by a slash-free `name`, has `name` as basename. */
  lemma {:induction false} BasenameAfterSlash(dir: string, name: string)
    requires dir == [] || dir[|dir| - 1] == '/'
    requires '/' !in name
    ensures Basename(dir + name) == name
  {
    if name != [] {
      var init := name[..|name| - 1];
      assert (dir + name)[..|dir + name| - 1] == dir + init;
      BasenameAfterSlash(dir, init);
      assert name == init + [name[|name| - 1]];
    }
  }

  /** `os.path.basename(os.path.join(dir, name)) == name` for a slash-free `name`. */
  lemma BasenameOfPathJoin(dir: string, name: string)
    requires '/' !in name
    ensures Basename(PathJoin(dir, name)) == name
  {
    assert !StartsWith(name, "/") by {
      if name != [] {
        assert name[0] in name;
      }
    }
    if dir == [] || dir[|dir| - 1] == '/' {
      assert PathJoin(dir, name) == dir + name;
      BasenameAfterSlash(dir, name);
    } else {
      var slashed := dir + "/";
      assert slashed[|slashed| - 1] == '/';
      assert PathJoin(dir, name) == slashed + name;
      BasenameAfterSlash(slashed, name);
    }
  }

  /** Splitting a word followed by whitespace takes the word as the first token. */
  lemma TokensOfWordThen(w: string, rest: string)
    requires IsToken(w)
    requires rest == [] || IsSpace(rest[0])
    ensures Tokens(w + rest) == [w] + Tokens(rest)
  {
    var s := w + rest;
    var n := WordLength(s);
    assert n == |w| by {
      assert forall i :: 0 <= i < |w| ==> s[i] == w[i];
      assert |w| < |s| ==> s[|w|] == rest[0];
    }
    assert s[..n] == w && s[n..] == rest;
  }

  /** Python splitting undoes `" ".join` on well-formed tokens, also with one trailing space. */
  lemma {:induction false} TokensOfUnwords(ts: seq<string>, tail: string)
    requires AllTokens(ts)
    requires tail == "" || tail == " "
    ensures Tokens(Unwords(ts) + tail) == ts
  {
    if ts == [] {
      assert Unwords(ts) + tail == tail;
    } else if |ts| == 1 {
      TokensOfWordThen(ts[0], tail);
    } else {
      TokensOfUnwords(ts[1..], tail);
      TokensOfUnwordsCons(ts, tail);
    }
  }

  lemma TokensOfUnwordsCons(ts: seq<string>, tail: string)
    requires |ts| > 1 && AllTokens(ts)
    requires Tokens(Unwords(ts[1..]) + tail) == ts[1..]
    ensures Tokens(Unwords(ts) + tail) == ts
  {
    var rest := Unwords(ts[1..]);
    assert Unwords(ts) + tail == ts[0] + (" " + (rest + tail));
    TokensOfWordThen(ts[0], " " + (rest + tail));
    assert Tokens(" " + (rest + tail)) == Tokens(rest + tail) by {
      assert (" " + (rest + tail))[1..] == rest + tail;
    }
    assert ts == [ts[0]] + ts[1..];
  }

  /** A character that is not a space and occurs in no token does not occur in their join. */
  lemma {:induction false} UnwordsAvoids(ts: seq<string>, c: char)
    requires c != ' '
    requires forall i :: 0 <= i < |ts| ==> c !in ts[i]
    ensures c !in Unwords(ts)
  {
    if |ts| > 1 {
      UnwordsAvoids(ts[1..], c);
    }
  }

  /** `s.partition(sep)` splits at the first occurrence of `sep`. */
  lemma {:induction false} PartitionAt(before: string, sep: char, after: string)
    requires sep !in before
    ensures Partition(before + [sep] + after, sep) == (before, true, after)
  {
    var s := before + [sep] + after;
    if before == [] {
      assert s[0] == sep && s[1..] == after;
    } else {
      assert s[0] == before[0] && s[1..] == before[1..] + [sep] + after;
      PartitionAt(before[1..], sep, after);
      assert [before[0]] + before[1..] == before;
    }
  }

  /** A string made of tokens and single spaces has no whitespace at either end. */
  lemma {:induction false} UnwordsEnds(ts: seq<string>)
    requires AllTokens(ts) && ts != []
    ensures Unwords(ts) != []
    ensures !IsSpace(Unwords(ts)[0]) && !IsSpace(Unwords(ts)[|Unwords(ts)| - 1])
  {
    if |ts| > 1 {
      UnwordsEnds(ts[1..]);
      var u := Unwords(ts[1..]);
      assert Unwords(ts)[|Unwords(ts)| - 1] == u[|u| - 1];
      assert Unwords(ts)[0] == ts[0][0];
    }
  }

  /** Stripping a string that does not start or end with whitespace leaves it unchanged. */
  lemma StripNoop(s: string)
    requires s == [] || (!IsSpace(s[0]) && !IsSpace(s[|s| - 1]))
    ensures Strip(s) == s
  {
  }

  /** Stripping a string with one trailing space, and no whitespace at its ends otherwise, drops that space. */
  lemma StripTrailingSpace(s: string)
    requires s != [] && !IsSpace(s[0]) && !IsSpace(s[|s| - 1])
    ensures Strip(s + " ") == s
  {
    var t := s + " ";
    assert TrimStart(t, IsSpace) == t;
    assert t[..|t| - 1] == s;
    assert TrimEnd(t, IsSpace) == TrimEnd(s, IsSpace) == s;
  }

  /** Stripping removes leading whitespace one character at a time. */
  lemma {:induction false} StripLeadingSpace(s: string)
    requires s != [] && IsSpace(s[0])
    ensures Strip(s) == Strip(s[1..])
  {
  }
}
