/**
 * The Django backend's `VideoMerger`: locating ffmpeg, the concat file
 * list handed to it, the raw concatenation fallback and the choice
 * between the two.
 *
 * What ffmpeg and the file system do is passed in: a `Probe` per
 * candidate binary, a `Run` saying how the ffmpeg run ended and what it
 * left at the output path, and `Faults` saying which `open` or
 * `makedirs` call raises.
 */
module VideoMerger {
  import opened Wrappers
  import opened Text
  import opened Bytes
  import opened Files

  /** The binaries `_find_ffmpeg` tries, in order. */
  const Candidates: seq<string> :=
    ["ffmpeg", "/usr/bin/ffmpeg", "/usr/local/bin/ffmpeg", "/opt/homebrew/bin/ffmpeg"]

  /** Bytes read from a segment per `read` call of the raw concatenation. */
  const ChunkSize: nat := 8192

  /** Appended to the output path to name the concat file list. */
  const ListSuffix: string := ".filelist.txt"

  // ---------------------------------------------------------------------
  // Locating ffmpeg
  // ---------------------------------------------------------------------

  /** How running `<candidate> -version` ended. */
  datatype Probe = Exited(code: int) | TimedOut | NotFound | Raised

  /**
   * The outcome of the search: a binary, none, or an exception other than
   * a timeout or a missing file, which Python lets escape the constructor.
   */
  datatype Search = Found(path: string) | Absent | SearchRaised

  /** The probes after which the search moves on to the next candidate. */
  predicate Skipped(p: Probe) {
    (p.Exited? && p.code != 0) || p.TimedOut? || p.NotFound?
  }

  /** The first candidate whose probe exits with 0. */
  function FirstWorking(cands: seq<string>, probe: string -> Probe): (r: Search)
    ensures r.Found? ==> r.path in cands && probe(r.path) == Exited(0)
  {
    if |cands| == 0 then Absent
    else match probe(cands[0])
      case Exited(code) => if code == 0 then Found(cands[0]) else FirstWorking(cands[1..], probe)
      case Raised => SearchRaised
      case _ => FirstWorking(cands[1..], probe)
  }

  /** A candidate that works after skipped ones is the one found. */
  lemma {:induction false} FirstWorkingAt(cands: seq<string>, probe: string -> Probe, k: nat)
    requires k < |cands| && probe(cands[k]) == Exited(0)
    requires forall j :: 0 <= j < k ==> Skipped(probe(cands[j]))
    ensures FirstWorking(cands, probe) == Found(cands[k])
  {
    if k > 0 {
      assert Skipped(probe(cands[0]));
      FirstWorkingAt(cands[1..], probe, k - 1);
    }
  }

  /** Nothing is found, without an exception, exactly when every candidate is skipped. */
  lemma {:induction false} FirstWorkingAbsent(cands: seq<string>, probe: string -> Probe)
    ensures FirstWorking(cands, probe) == Absent <==> forall j :: 0 <= j < |cands| ==> Skipped(probe(cands[j]))
  {
    if |cands| > 0 {
      FirstWorkingAbsent(cands[1..], probe);
      if Skipped(probe(cands[0])) {
        forall j | 0 <= j < |cands| && forall i :: 0 <= i < |cands| - 1 ==> Skipped(probe(cands[1..][i]))
          ensures Skipped(probe(cands[j]))
        {
          if j > 0 { assert cands[j] == cands[1..][j - 1]; }
        }
      }
    }
  }

  /** `_find_ffmpeg`: the loop over the candidates. */
  method FindFfmpeg(probe: string -> Probe) returns (r: Search)
    ensures r == FirstWorking(Candidates, probe)
  {
    for i := 0 to |Candidates|
      invariant FirstWorking(Candidates[i..], probe) == FirstWorking(Candidates, probe)
    {
      assert Candidates[i..][1..] == Candidates[i + 1..];
      match probe(Candidates[i])
      case Exited(code) =>
        if code == 0 {
          return Found(Candidates[i]);
        }
      case Raised =>
        return SearchRaised;
      case _ =>
    }
    assert Candidates[|Candidates|..] == [];
    return Absent;
  }

  // ---------------------------------------------------------------------
  // The concat file list
  // ---------------------------------------------------------------------

  /**
   * The escaping the source applies to a segment path: every `'` becomes
   * `'"'"'`, the idiom of the POSIX shell.
   */
  function ShellStyleEscape(p: string): (r: string)
    ensures '\'' !in p ==> r == p
  {
    if |p| == 0 then ""
    else (if p[0] == '\'' then "'\"'\"'" else [p[0]]) + ShellStyleEscape(p[1..])
  }

  /**
   * The escaping ffmpeg's own quoting rules call for: every `'` becomes
   * `'\''` (close the quote, an escaped quote, reopen).
   */
  function Escape(p: string): (r: string)
    ensures '\'' !in p ==> r == p
  {
    if |p| == 0 then ""
    else (if p[0] == '\'' then "'\\''" else [p[0]]) + Escape(p[1..])
  }

  predicate IsFfSpace(c: char) {
    c == ' ' || c == '\n' || c == '\t' || c == '\r'
  }

  /**
   * ffmpeg's `av_get_token` with white space as terminator: outside quotes
   * a backslash takes the next character literally, `'` opens a quoted
   * run, and unquoted white space ends the token.
   */
  function Token(s: string): string
    decreases |s|, 1
  {
    if |s| == 0 then ""
    else if IsFfSpace(s[0]) then ""
    else if s[0] == '\\' && |s| > 1 then [s[1]] + Token(s[2..])
    else if s[0] == '\'' then Quoted(s[1..])
    else [s[0]] + Token(s[1..])
  }

  /** The rest of a token inside a quoted run, which only `'` closes. */
  function Quoted(s: string): string
    decreases |s|, 0
  {
    if |s| == 0 then ""
    else if s[0] == '\'' then Token(s[1..])
    else [s[0]] + Quoted(s[1..])
  }

  /** One line of the list as the source writes it, without its line break. */
  function ListLine(p: string): string {
    "file '" + ShellStyleEscape(p) + "'"
  }

  /** One line of the list with the escaping ffmpeg expects. */
  function CorrectedListLine(p: string): string {
    "file '" + Escape(p) + "'"
  }

  /** The argument of a `file` directive, as ffmpeg's concat demuxer reads it. */
  function FileArgument(line: string): string {
    if StartsWith(line, "file ") then Token(line[5..]) else ""
  }

  /** The list file's contents: one line per segment, in the given order. */
  function FileList(paths: seq<string>): string {
    if |paths| == 0 then "" else ListLine(paths[0]) + "\n" + FileList(paths[1..])
  }

  lemma TokenOpens(s: string)
    ensures Token("'" + s) == Quoted(s)
  {
    assert ("'" + s)[1..] == s;
  }

  lemma TokenPlain(c: char, s: string)
    requires !IsFfSpace(c) && c != '\\' && c != '\''
    ensures Token([c] + s) == [c] + Token(s)
  {
    assert ([c] + s)[1..] == s;
  }

  lemma TokenEscaped(c: char, s: string)
    ensures Token(['\\', c] + s) == [c] + Token(s)
  {
    assert (['\\', c] + s)[2..] == s;
  }

  lemma QuotedCloses(s: string)
    ensures Quoted("'" + s) == Token(s)
  {
    assert ("'" + s)[1..] == s;
  }

  lemma QuotedPlain(c: char, s: string)
    requires c != '\''
    ensures Quoted([c] + s) == [c] + Quoted(s)
  {
    assert ([c] + s)[1..] == s;
  }

  lemma {:induction false} QuotedEscape(p: string, s: string)
    ensures Quoted(Escape(p) + s) == p + Quoted(s)
    decreases |p|
  {
    if |p| > 0 {
      QuotedEscape(p[1..], s);
      if p[0] == '\'' {
        QuotedEscapeQuote(p, s);
      } else {
        QuotedEscapePlain(p, s);
      }
    } else {
      assert Escape(p) + s == s;
      assert p + Quoted(s) == Quoted(s);
    }
  }

  /** The step of QuotedEscape past a quote, which the escape closes, escapes and reopens. */
  lemma QuotedEscapeQuote(p: string, s: string)
    requires |p| > 0 && p[0] == '\''
    requires Quoted(Escape(p[1..]) + s) == p[1..] + Quoted(s)
    ensures Quoted(Escape(p) + s) == p + Quoted(s)
  {
    var rest := Escape(p[1..]) + s;
    assert Escape(p) + s == "'\\''" + rest by {
      assert Escape(p) == "'\\''" + Escape(p[1..]);
    }
    EscapedQuoteReadsBack(rest);
    assert ['\''] + (p[1..] + Quoted(s)) == p + Quoted(s) by {
      assert p == ['\''] + p[1..];
    }
  }

  /** Inside a quoted run, `'\''` reads back as one quote and the run goes on. */
  lemma EscapedQuoteReadsBack(rest: string)
    ensures Quoted("'\\''" + rest) == ['\''] + Quoted(rest)
  {
    var x := ['\\', '\''] + ("'" + rest);
    assert "'\\''" + rest == "'" + x;
    assert Quoted("'" + x) == Token(x) by { QuotedCloses(x); }
    assert Token(x) == ['\''] + Token("'" + rest) by { TokenEscaped('\'', "'" + rest); }
    assert Token("'" + rest) == Quoted(rest) by { TokenOpens(rest); }
  }

  /** The step of QuotedEscape past any other character, which is copied. */
  lemma QuotedEscapePlain(p: string, s: string)
    requires |p| > 0 && p[0] != '\''
    requires Quoted(Escape(p[1..]) + s) == p[1..] + Quoted(s)
    ensures Quoted(Escape(p) + s) == p + Quoted(s)
  {
    var c := p[0];
    var rest := Escape(p[1..]) + s;
    assert Escape(p) + s == [c] + rest by {
      assert Escape(p) == [c] + Escape(p[1..]);
    }
    assert Quoted([c] + rest) == [c] + Quoted(rest) by {
      QuotedPlain(c, rest);
    }
    assert [c] + (p[1..] + Quoted(s)) == p + Quoted(s) by {
      assert p == [c] + p[1..];
    }
  }

  /** ffmpeg reads back from every corrected list line exactly the path it was written for. */
  lemma ListLineNamesPath(p: string)
    ensures FileArgument(CorrectedListLine(p)) == p
  {
    assert CorrectedListLine(p)[..5] == "file ";
    assert CorrectedListLine(p)[5..] == "'" + (Escape(p) + "'");
    assert ("'" + (Escape(p) + "'"))[1..] == Escape(p) + "'";
    QuotedEscape(p, "'");
    assert "'"[1..] == "";
  }

  /**
   * A quote-free path needs no escaping in either form, so the list line
   * the source writes for it is the corrected one and is read back as it.
   */
  lemma QuoteFreePathsAgree(p: string)
    requires '\'' !in p
    ensures ShellStyleEscape(p) == Escape(p) == p
    ensures ListLine(p) == CorrectedListLine(p)
    ensures FileArgument(ListLine(p)) == p
  {
    ListLineNamesPath(p);
  }

  lemma ShellStyleEscapeOfQuoted()
    ensures ShellStyleEscape("a'b") == "a'\"'\"'b"
  {
    assert "a'b"[1..] == "'b" && "'b"[1..] == "b" && "b"[1..] == "";
  }

  lemma TokenOfShellIdiom()
    ensures Token("'a'\"'\"'b'") == "a\"\"b"
  {
    calc {
      Token("'a'\"'\"'b'");
      { assert "'a'\"'\"'b'"[1..] == "a'\"'\"'b'"; }
      Quoted("a'\"'\"'b'");
      { assert "a'\"'\"'b'"[1..] == "'\"'\"'b'"; }
      "a" + Quoted("'\"'\"'b'");
      { assert "'\"'\"'b'"[1..] == "\"'\"'b'"; }
      "a" + Token("\"'\"'b'");
      { assert "\"'\"'b'"[1..] == "'\"'b'"; }
      "a\"" + Token("'\"'b'");
      { assert "'\"'b'"[1..] == "\"'b'"; }
      "a\"" + Quoted("\"'b'");
      { assert "\"'b'"[1..] == "'b'"; }
      "a\"\"" + Quoted("'b'");
      { assert "'b'"[1..] == "b'"; }
      "a\"\"" + Token("b'");
      { assert "b'"[1..] == "'"; }
      "a\"\"b" + Token("'");
      { assert "'"[1..] == ""; }
      "a\"\"b";
    }
  }

  /** With the source's escaping, ffmpeg reads the list line of the path `a'b` as `a""b`. */
  lemma ShellStyleEscapeMisread()
    ensures FileArgument(ListLine("a'b")) == "a\"\"b"
  {
    ShellStyleEscapeOfQuoted();
    var line := ListLine("a'b");
    assert line == "file 'a'\"'\"'b'";
    assert line[..5] == "file " && line[5..] == "'a'\"'\"'b'";
    TokenOfShellIdiom();
  }

  lemma SplitAtFirst(a: string, b: string, d: char)
    requires d !in a
    ensures Split(a + [d] + b, d) == [a] + Split(b, d)
  {
    var s := a + [d] + b;
    var i := IndexOfChar(s, d);
    assert s[|a|] == d;
    assert forall j :: 0 <= j < |a| ==> s[j] == a[j] && s[j] != d;
    assert i == |a|;
    assert s[..i] == a;
    assert s[i + 1..] == b;
  }

  /** The list's lines, one per path. */
  function ListLines(paths: seq<string>): (r: seq<string>)
    ensures |r| == |paths|
    ensures forall k :: 0 <= k < |paths| ==> r[k] == ListLine(paths[k])
  {
    if |paths| == 0 then [] else [ListLine(paths[0])] + ListLines(paths[1..])
  }

  lemma ListLineHasNoBreak(p: string)
    requires '\n' !in p
    ensures '\n' !in ListLine(p)
  {
    var e := ShellStyleEscape(p);
    assert ListLine(p) == "file '" + e + "'";
    ShellStyleEscapeAddsOnlyQuotes(p, '\n');
  }

  /** The source's escaping adds only single and double quotes: any other character absent from the path stays absent. */
  lemma {:induction false} ShellStyleEscapeAddsOnlyQuotes(p: string, c: char)
    requires c != '\'' && c != '"' && c !in p
    ensures c !in ShellStyleEscape(p)
    decreases |p|
  {
    if |p| > 0 {
      ShellStyleEscapeAddsOnlyQuotes(p[1..], c);
      assert c !in (if p[0] == '\'' then "'\"'\"'" else [p[0]]);
    }
  }

  /** Escaping adds only quotes and backslashes: any other character absent from the path stays absent. */
  lemma {:induction false} EscapeAddsOnlyQuotes(p: string, c: char)
    requires c != '\'' && c != '\\' && c !in p
    ensures c !in Escape(p)
    decreases |p|
  {
    if |p| > 0 {
      EscapeAddsOnlyQuotes(p[1..], c);
      assert c !in (if p[0] == '\'' then "'\\''" else [p[0]]);
    }
  }

  /** Read line by line, the list holds one line per segment and nothing else. */
  lemma {:induction false} FileListLines(paths: seq<string>)
    requires forall k :: 0 <= k < |paths| ==> '\n' !in paths[k]
    ensures Split(FileList(paths), '\n') == ListLines(paths) + [""]
  {
    if |paths| == 0 {
      assert Split("", '\n') == [""];
    } else {
      FileListLines(paths[1..]);
      ListLineHasNoBreak(paths[0]);
      SplitAtFirst(ListLine(paths[0]), FileList(paths[1..]), '\n');
    }
  }

  // ---------------------------------------------------------------------
  // Raw concatenation
  // ---------------------------------------------------------------------

  /** The contents of the existing files among `paths`, in list order. */
  function ConcatExisting(files: map<string, bytes>, paths: seq<string>): bytes {
    if |paths| == 0 then []
    else
      var last := paths[|paths| - 1];
      ConcatExisting(files, paths[..|paths| - 1]) + (if last in files then files[last] else [])
  }

  /** Concatenation splits along the list. */
  lemma {:induction false} ConcatExistingAppend(files: map<string, bytes>, a: seq<string>, b: seq<string>)
    ensures ConcatExisting(files, a + b) == ConcatExisting(files, a) + ConcatExisting(files, b)
    decreases |b|
  {
    if |b| > 0 {
      var b' := b[..|b| - 1];
      assert (a + b)[..|a + b| - 1] == a + b';
      ConcatExistingAppend(files, a, b');
    } else {
      assert a + b == a;
    }
  }

  /** Missing and empty files contribute nothing. */
  lemma {:induction false} ConcatExistingOfEmpty(files: map<string, bytes>, paths: seq<string>)
    requires forall k :: 0 <= k < |paths| ==> paths[k] !in files || files[paths[k]] == []
    ensures ConcatExisting(files, paths) == []
  {
    if |paths| > 0 {
      ConcatExistingOfEmpty(files, paths[..|paths| - 1]);
    }
  }

  /** A single file contributes its contents. */
  lemma ConcatExistingOne(files: map<string, bytes>, p: string)
    requires p in files
    ensures ConcatExisting(files, [p]) == files[p]
  {
    assert [p][..0] == [];
  }

  /** The inner loop: copies `data` onto `out` `ChunkSize` bytes at a time. */
  method AppendInChunks(out: bytes, data: bytes) returns (r: bytes)
    ensures r == out + data
  {
    r := out;
    var pos := 0;
    while true
      invariant 0 <= pos <= |data|
      invariant r == out + data[..pos]
      decreases |data| - pos
    {
      var end := if pos + ChunkSize <= |data| then pos + ChunkSize else |data|;
      var chunk := data[pos..end];
      if |chunk| == 0 {
        break;
      }
      assert data[..end] == data[..pos] + chunk;
      r := r + chunk;
      pos := end;
    }
    assert pos == |data|;
    assert data[..pos] == data;
  }

  /** Which `open` or `makedirs` call raises. */
  datatype Faults = Faults(dirFails: bool, listFails: bool, outputFails: bool)

  /** A merge's return value and the files after it. */
  datatype Merged = Merged(ok: bool, files: map<string, bytes>)

  /**
   * `_merge_simple_concat`: the output, opened (and so emptied) first, ends
   * up holding the existing segments in order.
   */
  function SimpleConcatSpec(files: map<string, bytes>, paths: seq<string>, output: string, f: Faults): Merged {
    if f.outputFails then Merged(false, files)
    else Merged(true, files[output := ConcatExisting(files[output := []], paths)])
  }

  method MergeSimpleConcat(disk: Disk, paths: seq<string>, output: string, f: Faults) returns (ok: bool)
    modifies disk
    ensures Merged(ok, disk.files) == SimpleConcatSpec(old(disk.files), paths, output, f)
  {
    if f.outputFails {
      return false;
    }
    disk.Write(output, []);
    var out: bytes := [];
    for i := 0 to |paths|
      invariant disk.files == old(disk.files)[output := []]
      invariant out == ConcatExisting(disk.files, paths[..i])
    {
      assert paths[..i + 1][..i] == paths[..i];
      if disk.Exists(paths[i]) {
        out := AppendInChunks(out, disk.files[paths[i]]);
      }
    }
    assert paths[..|paths|] == paths;
    disk.Write(output, out);
    ok := true;
  }

  // ---------------------------------------------------------------------
  // ffmpeg and the choice of strategy
  // ---------------------------------------------------------------------

  /** How `subprocess.run` of ffmpeg ended. */
  datatype Outcome = Exit(code: int) | Timeout | Error

  /** An ffmpeg run: how it ended and what it left at the output path. */
  datatype Run = Run(outcome: Outcome, left: Option<bytes>)

  /**
   * `_merge_with_ffmpeg`: write the list, run ffmpeg, remove the list once
   * ffmpeg has exited, then keep its output or fall back to concatenation.
   */
  function FfmpegSpec(files: map<string, bytes>, paths: seq<string>, output: string,
                      encode: string -> bytes, run: Run, f: Faults): Merged
  {
    if f.listFails then SimpleConcatSpec(files, paths, output, f)
    else
      var list := output + ListSuffix;
      var written := files[list := encode(FileList(paths))];
      var ran := if run.left.Some? then written[output := run.left.value] else written;
      match run.outcome
      case Exit(code) =>
        if code == 0 then Merged(true, ran - {list})
        else SimpleConcatSpec(ran - {list}, paths, output, f)
      case Timeout => Merged(false, ran)
      case Error => SimpleConcatSpec(ran, paths, output, f)
  }

  method MergeWithFfmpeg(disk: Disk, paths: seq<string>, output: string,
                         encode: string -> bytes, run: Run, f: Faults) returns (ok: bool)
    modifies disk
    ensures Merged(ok, disk.files) == FfmpegSpec(old(disk.files), paths, output, encode, run, f)
  {
    if f.listFails {
      ok := MergeSimpleConcat(disk, paths, output, f);
      return;
    }
    var list := output + ListSuffix;
    disk.Write(list, encode(FileList(paths)));
    if run.left.Some? {
      disk.Write(output, run.left.value);
    }
    match run.outcome
    case Exit(code) =>
      assert list != output by { assert |list| > |output|; }
      disk.Remove(list);
      if code == 0 {
        ok := true;
      } else {
        ok := MergeSimpleConcat(disk, paths, output, f);
      }
    case Timeout =>
      ok := false;
    case Error =>
      ok := MergeSimpleConcat(disk, paths, output, f);
  }

  /** `os.path.dirname(output) == ""`, for which `os.makedirs` raises. */
  predicate NoDirectory(output: string) {
    LastIndexOfChar(output, '/') < 0
  }

  /**
   * `merge_segments`: create the output's directory, then merge with
   * ffmpeg when one was found and by concatenation otherwise.
   */
  function MergeSpec(files: map<string, bytes>, ffmpegPath: Option<string>, paths: seq<string>,
                     output: string, encode: string -> bytes, run: Run, f: Faults): Merged
  {
    if NoDirectory(output) || f.dirFails then Merged(false, files)
    else if ffmpegPath.Some? then FfmpegSpec(files, paths, output, encode, run, f)
    else SimpleConcatSpec(files, paths, output, f)
  }

  method MergeSegments(disk: Disk, ffmpegPath: Option<string>, paths: seq<string>,
                       output: string, encode: string -> bytes, run: Run, f: Faults) returns (ok: bool)
    modifies disk
    ensures Merged(ok, disk.files) == MergeSpec(old(disk.files), ffmpegPath, paths, output, encode, run, f)
  {
    if LastIndexOfChar(output, '/') < 0 || f.dirFails {
      return false;
    }
    if ffmpegPath.Some? {
      ok := MergeWithFfmpeg(disk, paths, output, encode, run, f);
    } else {
      ok := MergeSimpleConcat(disk, paths, output, f);
    }
  }

  // ---------------------------------------------------------------------
  // Properties of the merge
  // ---------------------------------------------------------------------

  /** Without ffmpeg, the output is the existing segments in order, and the merge succeeds. */
  lemma WithoutFfmpegConcatenates(files: map<string, bytes>, paths: seq<string>, output: string,
                                  encode: string -> bytes, run: Run, f: Faults)
    requires !NoDirectory(output) && !f.dirFails && !f.outputFails
    ensures MergeSpec(files, None, paths, output, encode, run, f).ok
    ensures MergeSpec(files, None, paths, output, encode, run, f).files
         == files[output := ConcatExisting(files[output := []], paths)]
  {
  }

  /** A bare file name as output path fails before anything is written. */
  lemma BareOutputNameFails(files: map<string, bytes>, ffmpegPath: Option<string>, paths: seq<string>,
                            encode: string -> bytes, run: Run, f: Faults)
    ensures MergeSpec(files, ffmpegPath, paths, "video.mp4", encode, run, f) == Merged(false, files)
  {
    assert forall j :: 0 <= j < |"video.mp4"| ==> "video.mp4"[j] != '/';
    assert LastIndexOfChar("video.mp4", '/') == -1;
  }

  /** A timed-out ffmpeg fails the merge without falling back, and its list file stays. */
  lemma TimeoutFailsAndKeepsList(files: map<string, bytes>, paths: seq<string>, output: string,
                                 encode: string -> bytes, left: Option<bytes>, f: Faults)
    requires !f.listFails
    ensures !FfmpegSpec(files, paths, output, encode, Run(Timeout, left), f).ok
    ensures var r := FfmpegSpec(files, paths, output, encode, Run(Timeout, left), f);
      output + ListSuffix in r.files && r.files[output + ListSuffix] == encode(FileList(paths))
  {
    assert output + ListSuffix != output by { assert |output + ListSuffix| > |output|; }
  }

  /** Once ffmpeg has exited, its list file is gone, whatever the exit code. */
  lemma ExitRemovesList(files: map<string, bytes>, paths: seq<string>, output: string,
                        encode: string -> bytes, code: int, left: Option<bytes>, f: Faults)
    requires !f.listFails
    ensures output + ListSuffix !in FfmpegSpec(files, paths, output, encode, Run(Exit(code), left), f).files
  {
    assert output + ListSuffix != output by { assert |output + ListSuffix| > |output|; }
  }

  /**
   * A failed exit falls back to concatenation: the result is that of a
   * raw merge over the files ffmpeg left behind.
   */
  lemma FailedExitFallsBack(files: map<string, bytes>, paths: seq<string>, output: string,
                            encode: string -> bytes, code: int, left: Option<bytes>, f: Faults)
    requires !f.listFails && code != 0
    ensures var list := output + ListSuffix;
      var written := files[list := encode(FileList(paths))];
      var ran := if left.Some? then written[output := left.value] else written;
      FfmpegSpec(files, paths, output, encode, Run(Exit(code), left), f)
        == SimpleConcatSpec(ran - {list}, paths, output, f)
  {
  }

  /** The concatenation fallback succeeds exactly when the output can be opened, even with every segment missing. */
  lemma SimpleConcatSucceedsUnlessOutputFails(files: map<string, bytes>, paths: seq<string>, output: string, f: Faults)
    requires forall k :: 0 <= k < |paths| ==> paths[k] !in files
    ensures SimpleConcatSpec(files, paths, output, f).ok <==> !f.outputFails
    ensures !f.outputFails ==> SimpleConcatSpec(files, paths, output, f).files == files[output := []]
  {
    if !f.outputFails {
      ConcatExistingOfEmpty(files[output := []], paths);
    }
  }
}
