/**
 * The batch conversion of a directory tree of `.min` files into a flat output
 * directory of `.txt` files, with the minimum-count acceptance policy
 * (`convert_all_minutiae_files`).
 *
 * The file system is modelled as values: the walk of the source directory is the
 * sequence of files it yields (in walk order), and the output directory is a map
 * from output path to file contents.
 */
module MinutiaeStore {
  import opened Wrappers
  import opened Text
  import opened MinutiaeCodec
  import opened Paths

  /** The default `min_minutiae_count`. */
  const DefaultMinMinutiaeCount := 5

  /**
   * One file met by the walk: the directory it sits in, its name, and its
   * contents, or None when opening or reading it fails.
   */
  datatype MinFile = MinFile(root: string, name: string, text: Option<string>)

  function FilePath(f: MinFile): string {
    JoinPath(f.root, f.name)
  }

  /** The output name: the `.min` file's stem with `.txt`. */
  function TxtName(path: string): string {
    SplitExtRoot(BaseName(path)) + ".txt"
  }

  /** Where the converted file of `path` is written. */
  function OutputPath(outDir: string, path: string): string {
    JoinPath(outDir, TxtName(path))
  }

  /** `<root>/<stem>.min` is written to `<outDir>/<stem>.txt`, whatever directory it came from. */
  lemma OutputPathOfMin(outDir: string, root: string, stem: string, j: nat)
    requires j < |stem| && stem[j] != '.' && '/' !in stem
    ensures OutputPath(outDir, JoinPath(root, stem + ".min")) == JoinPath(outDir, stem + ".txt")
  {
    var name := stem + ".min";
    assert name == stem + "." + "min";
    assert forall i :: 0 <= i < |name| ==> name[i] == (if i < |stem| then stem[i] else ".min"[i - |stem|]);
    BaseNameOfJoin(root, name);
    StemOfExtension(stem, j, "min");
  }

  // ---------------------------------------------------------------------------
  // one conversion

  predicate IsMinFile(f: MinFile) {
    EndsWith(f.name, ".min")
  }

  /** The `.min` files among the files walked, in walk order. */
  function MinFiles(found: seq<MinFile>): seq<MinFile> {
    if found == [] then []
    else MinFiles(found[..|found| - 1]) + (if IsMinFile(found[|found| - 1]) then [found[|found| - 1]] else [])
  }

  /** Exactly the `.min` files are kept, none is invented, and none is lost. */
  lemma {:induction false} MinFilesSpec(found: seq<MinFile>)
    ensures |MinFiles(found)| <= |found|
    ensures forall f :: f in MinFiles(found) <==> f in found && IsMinFile(f)
    decreases |found|
  {
    if found != [] {
      var init := found[..|found| - 1];
      MinFilesSpec(init);
      assert found == init + [found[|found| - 1]];
    }
  }

  /** What `convert_min_to_txt` writes for one file, or None when it writes nothing. */
  function Written(f: MinFile, threshold: real, terminator: string): Option<string> {
    if f.text.Some? then Converted(f.text.value, threshold, terminator) else None
  }

  /** Whether converting the file writes an output at all. */
  predicate Converts(f: MinFile, threshold: real) {
    f.text.Some? && |Records(f.text.value, threshold)| > 0
  }

  /** `sum(1 for line in f if line.strip())` over the written contents. */
  function LineCount(content: string): nat {
    NonBlankCount(Lines(content))
  }

  /** Whether the file is converted and its output has at least `minCount` non-blank lines. */
  predicate Accepted(f: MinFile, threshold: real, minCount: int, terminator: string) {
    var w := Written(f, threshold, terminator);
    w.Some? && LineCount(w.value) >= minCount
  }

  /** The output directory after one file: untouched, the new output kept, or that path removed. */
  function StepDir(out: map<string, string>, f: MinFile, outDir: string,
                   threshold: real, minCount: int, terminator: string): map<string, string>
  {
    var key := OutputPath(outDir, FilePath(f));
    match Written(f, threshold, terminator)
    case None => out
    case Some(c) => if LineCount(c) >= minCount then out[key := c] else out - {key}
  }

  /** The output directory after converting `files` in order. */
  function BatchDir(files: seq<MinFile>, outDir: string, out: map<string, string>,
                    threshold: real, minCount: int, terminator: string): map<string, string>
  {
    if files == [] then out
    else
      StepDir(BatchDir(files[..|files| - 1], outDir, out, threshold, minCount, terminator),
              files[|files| - 1], outDir, threshold, minCount, terminator)
  }

  /** The number of accepted files. */
  function AcceptedCount(files: seq<MinFile>, threshold: real, minCount: int, terminator: string): (n: nat)
    ensures n <= |files|
  {
    if files == [] then 0
    else
      AcceptedCount(files[..|files| - 1], threshold, minCount, terminator)
      + (if Accepted(files[|files| - 1], threshold, minCount, terminator) then 1 else 0)
  }

  /** Whether some file of `files` writes an output at `key`. */
  predicate Touched(files: seq<MinFile>, outDir: string, threshold: real, key: string) {
    files != [] &&
    (Touched(files[..|files| - 1], outDir, threshold, key) ||
     (Converts(files[|files| - 1], threshold) && OutputPath(outDir, FilePath(files[|files| - 1])) == key))
  }

  // ---------------------------------------------------------------------------
  // the batch

  /**
   * `convert_all_minutiae_files`: walk, convert every `.min` file, re-count the
   * non-blank lines of each output and delete the outputs below `minCount`.
   * Each record is written followed by `terminator`.
   */
  method ConvertAllMinutiaeFiles(found: seq<MinFile>, outDir: string, out0: map<string, string>,
                                 qualityThreshold: real, minCount: int, terminator: string)
    returns (successful: nat, total: nat, out: map<string, string>)
    ensures total == |MinFiles(found)|
    ensures successful == AcceptedCount(MinFiles(found), qualityThreshold, minCount, terminator)
    ensures out == BatchDir(MinFiles(found), outDir, out0, qualityThreshold, minCount, terminator)
  {
    var minFiles := CollectMinFiles(found);
    successful, total, out := 0, 0, out0;
    for i := 0 to |minFiles|
      invariant total == i
      invariant successful == AcceptedCount(minFiles[..i], qualityThreshold, minCount, terminator)
      invariant out == BatchDir(minFiles[..i], outDir, out0, qualityThreshold, minCount, terminator)
    {
      BatchStep(minFiles, i, outDir, out0, qualityThreshold, minCount, terminator);
      total := total + 1;
      var accepted;
      accepted, out := ConvertAndCheck(minFiles[i], outDir, out, qualityThreshold, minCount, terminator);
      if accepted {
        successful := successful + 1;
      }
    }
    assert minFiles[..|minFiles|] == minFiles;
  }

  /** One more file converted. */
  lemma BatchStep(files: seq<MinFile>, i: nat, outDir: string, out0: map<string, string>,
                  threshold: real, minCount: int, terminator: string)
    requires i < |files|
    ensures BatchDir(files[..i + 1], outDir, out0, threshold, minCount, terminator)
         == StepDir(BatchDir(files[..i], outDir, out0, threshold, minCount, terminator),
                    files[i], outDir, threshold, minCount, terminator)
    ensures AcceptedCount(files[..i + 1], threshold, minCount, terminator)
         == AcceptedCount(files[..i], threshold, minCount, terminator)
            + (if Accepted(files[i], threshold, minCount, terminator) then 1 else 0)
  {
    assert files[..i + 1][..i] == files[..i];
  }

  /** The walk's filter: the files whose name ends in `.min`. */
  method CollectMinFiles(found: seq<MinFile>) returns (minFiles: seq<MinFile>)
    ensures minFiles == MinFiles(found)
  {
    minFiles := [];
    for i := 0 to |found|
      invariant minFiles == MinFiles(found[..i])
    {
      assert found[..i + 1][..i] == found[..i];
      if EndsWith(found[i].name, ".min") {
        minFiles := minFiles + [found[i]];
      }
    }
    assert found[..|found|] == found;
  }

  /**
   * One round of the batch: convert the file, re-count the output's non-blank
   * lines, and delete the output when they fall short of `minCount`.
   */
  method ConvertAndCheck(f: MinFile, outDir: string, out0: map<string, string>,
                         qualityThreshold: real, minCount: int, terminator: string)
    returns (accepted: bool, out: map<string, string>)
    ensures accepted == Accepted(f, qualityThreshold, minCount, terminator)
    ensures out == StepDir(out0, f, outDir, qualityThreshold, minCount, terminator)
  {
    var key := OutputPath(outDir, FilePath(f));
    var txt := ConvertFile(f, qualityThreshold, terminator);
    match txt
    case None =>
      accepted, out := false, out0;
    case Some(content) =>
      accepted, out := KeepIfLongEnough(out0, key, content, minCount);
  }

  /** Write `content` at `key`, then delete it again when it has fewer than `minCount` non-blank lines. */
  method KeepIfLongEnough(out0: map<string, string>, key: string, content: string, minCount: int)
    returns (accepted: bool, out: map<string, string>)
    ensures accepted == (LineCount(content) >= minCount)
    ensures out == if accepted then out0[key := content] else out0 - {key}
  {
    out := out0[key := content];
    var lineCount := CountNonBlankLines(content);
    accepted := lineCount >= minCount;
    if !accepted {
      RemoveWritten(out0, key, content);
      out := out - {key};
    }
  }

  /** Writing a path and then deleting it leaves no trace of the write. */
  lemma RemoveWritten(out: map<string, string>, key: string, content: string)
    ensures out[key := content] - {key} == out - {key}
  {
  }

  /** `convert_min_to_txt` on one walked file; an unreadable file converts to nothing. */
  method ConvertFile(f: MinFile, qualityThreshold: real, terminator: string) returns (txt: Option<string>)
    ensures txt == Written(f, qualityThreshold, terminator)
  {
    txt := None;
    if f.text.Some? {
      txt := ConvertMinToTxt(f.text.value, qualityThreshold, terminator);
    }
  }

  /** The re-count of an output's non-blank lines. */
  method CountNonBlankLines(content: string) returns (count: nat)
    ensures count == LineCount(content)
  {
    var lines := Lines(content);
    count := 0;
    for i := 0 to |lines|
      invariant count == NonBlankCount(lines[..i])
    {
      assert lines[..i + 1][..i] == lines[..i];
      if !IsBlank(lines[i]) {
        count := count + 1;
      }
    }
    assert lines[..|lines|] == lines;
  }

  // ---------------------------------------------------------------------------
  // properties of the batch

  /**
   * An output this batch wrote is either gone or has at least `minCount`
   * non-blank lines.
   */
  lemma {:induction false} ThresholdInvariant(files: seq<MinFile>, outDir: string, out0: map<string, string>,
                                              threshold: real, minCount: int, terminator: string)
    ensures var out := BatchDir(files, outDir, out0, threshold, minCount, terminator);
            forall key :: key in out && Touched(files, outDir, threshold, key) ==> LineCount(out[key]) >= minCount
    decreases |files|
  {
    if files != [] {
      var init, f := files[..|files| - 1], files[|files| - 1];
      var prev := BatchDir(init, outDir, out0, threshold, minCount, terminator);
      var out := BatchDir(files, outDir, out0, threshold, minCount, terminator);
      ThresholdInvariant(init, outDir, out0, threshold, minCount, terminator);
      assert out == StepDir(prev, f, outDir, threshold, minCount, terminator);
      forall key | key in out && Touched(files, outDir, threshold, key)
        ensures LineCount(out[key]) >= minCount
      {
        StepDirFrame(prev, f, outDir, threshold, minCount, terminator, key);
        if !(Converts(f, threshold) && OutputPath(outDir, FilePath(f)) == key) {
          assert Touched(init, outDir, threshold, key);
        }
      }
    }
  }

  /** A path no file of the batch wrote is as it was before the batch. */
  lemma {:induction false} UntouchedUnchanged(files: seq<MinFile>, outDir: string, out0: map<string, string>,
                                              threshold: real, minCount: int, terminator: string, key: string)
    requires !Touched(files, outDir, threshold, key)
    ensures var out := BatchDir(files, outDir, out0, threshold, minCount, terminator);
            (key in out <==> key in out0) && (key in out0 ==> out[key] == out0[key])
    decreases |files|
  {
    if files != [] {
      var init, f := files[..|files| - 1], files[|files| - 1];
      UntouchedUnchanged(init, outDir, out0, threshold, minCount, terminator, key);
      StepDirFrame(BatchDir(init, outDir, out0, threshold, minCount, terminator),
                   f, outDir, threshold, minCount, terminator, key);
    }
  }

  /** What one round does to one path. */
  lemma StepDirFrame(out: map<string, string>, f: MinFile, outDir: string,
                     threshold: real, minCount: int, terminator: string, key: string)
    ensures var next := StepDir(out, f, outDir, threshold, minCount, terminator);
            if Converts(f, threshold) && OutputPath(outDir, FilePath(f)) == key
            then key in next ==> LineCount(next[key]) >= minCount
            else (key in next <==> key in out) && (key in out ==> next[key] == out[key])
  {
    var next := StepDir(out, f, outDir, threshold, minCount, terminator);
    var written := OutputPath(outDir, FilePath(f));
    WrittenIffConverts(f, threshold, terminator);
    match Written(f, threshold, terminator)
    case None =>
      assert next == out;
    case Some(c) =>
      if LineCount(c) >= minCount {
        assert next == out[written := c];
      } else {
        assert next == out - {written};
      }
  }

  /** Whether a file writes an output does not depend on the terminator. */
  lemma WrittenIffConverts(f: MinFile, threshold: real, terminator: string)
    ensures Written(f, threshold, terminator).Some? <==> Converts(f, threshold)
  {
  }

  /** With a real line break, an output has one non-blank line per record. */
  lemma ConvertedLineCount(text: string, threshold: real)
    requires Converted(text, threshold, LineTerminator).Some?
    ensures LineCount(Converted(text, threshold, LineTerminator).value) == |Records(text, threshold)|
  {
    var records := FormatAll(Records(text, threshold));
    forall i | 0 <= i < |records|
      ensures '\n' !in records[i] && !IsBlank(records[i])
    {
      FormatRecordIsOneLine(Records(text, threshold)[i]);
    }
    RenderLines(records);
    NonBlankCountAll(records);
  }

  /**
   * With a real line break a file counts as successful exactly when it has at
   * least one record above the threshold and at least `minCount` of them.
   */
  lemma AcceptedMeaning(f: MinFile, threshold: real, minCount: int)
    ensures Accepted(f, threshold, minCount, LineTerminator) <==>
            f.text.Some? && |Records(f.text.value, threshold)| > 0 && |Records(f.text.value, threshold)| >= minCount
  {
    if f.text.Some? && Converted(f.text.value, threshold, LineTerminator).Some? {
      ConvertedLineCount(f.text.value, threshold);
    }
  }

  /**
   * Two `.min` files with the same name in different directories of the walk
   * share one output path, and the later one's output replaces the earlier one's.
   */
  lemma SameStemOverwrite(first: MinFile, second: MinFile, outDir: string, out0: map<string, string>,
                          threshold: real, minCount: int)
    requires first.name == second.name && first.name != [] && '/' !in first.name
    requires Accepted(second, threshold, minCount, LineTerminator)
    ensures OutputPath(outDir, FilePath(first)) == OutputPath(outDir, FilePath(second))
    ensures var key := OutputPath(outDir, FilePath(second));
            var out := BatchDir([first, second], outDir, out0, threshold, minCount, LineTerminator);
            key in out && out[key] == Written(second, threshold, LineTerminator).value
  {
    BaseNameOfJoin(first.root, first.name);
    BaseNameOfJoin(second.root, second.name);
    assert [first, second][..1] == [first];
    assert [first][..0] == [];
  }

  // ---------------------------------------------------------------------------
  // the terminator as written

  /** With the source's terminator a written file is one non-blank line, however many records it holds. */
  lemma AsWrittenLineCount(text: string, threshold: real)
    requires Converted(text, threshold, SourceTerminator).Some?
    ensures LineCount(Converted(text, threshold, SourceTerminator).value) == 1
  {
    var ms := Records(text, threshold);
    var records := FormatAll(ms);
    var s := Render(records, SourceTerminator);
    forall i | 0 <= i < |records|
      ensures '\n' !in records[i]
    {
      FormatRecordIsOneLine(ms[i]);
    }
    AsWrittenHasNoLineBreak(records);
    RenderFront(records, SourceTerminator);
    FormatRecordChars(ms[0]);
    assert s[0] == records[0][0];
    SingleLine(s);
    assert !IsBlank(s) by { assert !IsSpace(s[0]); }
    assert [s][..0] == [];
  }

  /**
   * With the source's terminator and a minimum count above 1, the batch accepts
   * nothing and every output it wrote is deleted again.
   */
  lemma {:induction false} AsWrittenBatchKeepsNothing(files: seq<MinFile>, outDir: string, out0: map<string, string>,
                                                      threshold: real, minCount: int)
    requires minCount > 1
    ensures AcceptedCount(files, threshold, minCount, SourceTerminator) == 0
    ensures forall key :: Touched(files, outDir, threshold, key) ==>
              key !in BatchDir(files, outDir, out0, threshold, minCount, SourceTerminator)
    decreases |files|
  {
    if files != [] {
      var f := files[|files| - 1];
      AsWrittenBatchKeepsNothing(files[..|files| - 1], outDir, out0, threshold, minCount);
      if f.text.Some? && Converted(f.text.value, threshold, SourceTerminator).Some? {
        AsWrittenLineCount(f.text.value, threshold);
      }
    }
  }
}
