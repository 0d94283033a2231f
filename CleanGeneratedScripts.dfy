/**
 * The older cleanup script: every source file whose first bytes are the
 * generated-file header is unlinked. Folders are left alone.
 */
module CleanGeneratedScripts {
  import opened Utf8
  import opened Strings
  import opened OrderedMaps
  import opened Globs
  import opened FileSystems
  import Bin = CleanGeneratedScriptsBin

  /** The extensions the source glob lists. */
  const SOURCE_EXTENSIONS: seq<string> := ["js", "ts", "jsonc", "json5"]

  /** What the glob returns: such files below "src", outside test folders, no declaration files. */
  predicate Source(p: string) {
    UnderSrc(p, SOURCE_EXTENSIONS) && !InFolder(p, "__tests__") && !IsDeclarationFile(p)
  }

  /** A file is generated when it starts with the header bytes. */
  predicate StartsGenerated(header: seq<byte>, contents: seq<byte>) {
    |header| <= |contents| && contents[..|header|] == header
  }

  /** The test `StartsGenerated` as the function value deletion is specified with. */
  function Detector(header: seq<byte>): (isGenerated: seq<byte> -> bool)
    ensures forall c :: isGenerated(c) == StartsGenerated(header, c)
  {
    c => StartsGenerated(header, c)
  }

  /**
   * `readFirstBytes`: a read stream over the bytes `0` to `length - 1`, so
   * the first `length` bytes, or the whole file when it is shorter.
   */
  method ReadFirstBytes(fs: FileSystem, p: string, length: nat) returns (bytes: seq<byte>)
    requires p in fs.files && length > 0
    ensures |bytes| == if length <= |fs.files[p]| then length else |fs.files[p]|
    ensures bytes <= fs.files[p]
  {
    var contents := fs.ReadFile(p);
    if length <= |contents| {
      bytes := contents[..length];
    } else {
      bytes := contents;
    }
  }

  /** `isGeneratedScript`: the size test, then a comparison of the file's first bytes with the header. */
  method IsGeneratedScript(fs: FileSystem, header: seq<byte>, p: string) returns (generated: bool)
    requires p in fs.files && |header| > 0
    ensures generated == StartsGenerated(header, fs.files[p])
  {
    var size := fs.Size(p);
    if size < |header| {
      return false;
    }
    var fileHeaderBuffer := ReadFirstBytes(fs, p, |header|);
    return fileHeaderBuffer == header;
  }

  /**
   * The script: every listed source that starts with the header is
   * unlinked; every other file keeps its contents. The script passes
   * `GENERATED_HEADER_BUFFER` as `header`.
   */
  method Run(fs: FileSystem, header: seq<byte>, sourceFilePaths: seq<string>)
    requires fs.Valid() && |header| > 0
    requires GlobResult(fs.files.Keys, Source, sourceFilePaths)
    modifies fs
    ensures fs.Valid() && fs.dirs == old(fs.dirs)
    ensures fs.files == Cleaned(old(fs.files), Detector(header), sourceFilePaths)
  {
    for i := 0 to |sourceFilePaths|
      invariant fs.Valid() && fs.dirs == old(fs.dirs)
      invariant fs.files == Cleaned(old(fs.files), Detector(header), sourceFilePaths[..i])
    {
      var p := sourceFilePaths[i];
      assert p in sourceFilePaths && p !in sourceFilePaths[..i];
      CleanedSnoc(old(fs.files), Detector(header), sourceFilePaths[..i], p);
      var isGenerated := IsGeneratedScript(fs, header, p);
      if isGenerated {
        fs.Unlink(p);
      }
      assert sourceFilePaths[..i + 1] == sourceFilePaths[..i] + [p];
    }
    assert sourceFilePaths[..|sourceFilePaths|] == sourceFilePaths;
  }

  // ---------------------------------------------------------------------------
  // Properties.

  /** A file that starts with the header contains it, so the newer script deletes it too. */
  lemma PrefixImpliesSubstring(header: seq<byte>, contents: seq<byte>)
    requires StartsGenerated(header, contents)
    ensures Bin.Generated(header, contents)
  {
    assert OccursAt(contents, header, 0);
  }

  /** The converse fails: a header after the first byte makes a file generated only for the newer script. */
  lemma SubstringNotPrefix()
    ensures Bin.Generated([1], [0, 1]) && !StartsGenerated([1], [0, 1])
  {
    var contents: seq<byte> := [0, 1];
    assert OccursAt(contents, [1], 1);
    assert contents[..1][0] == 0;
  }

  /** A file shorter than the header is never generated. */
  lemma ShortNeverGenerated(header: seq<byte>, contents: seq<byte>)
    requires |contents| < |header|
    ensures !StartsGenerated(header, contents)
  {
  }

  /** Module scripts (`.cjs`, `.mjs`) are never candidates of this script. */
  lemma ModuleScriptsNotSources(name: string)
    requires EndsWith(name, ".cjs") || EndsWith(name, ".mjs")
    ensures !MatchesExtensions(name, SOURCE_EXTENSIONS)
  {
    var n := |name|;
    assert name[n - 4] == '.' && name[n - 1] == 's';
    forall k | 0 <= k < |SOURCE_EXTENSIONS|
      ensures !EndsWith(name, "." + SOURCE_EXTENSIONS[k])
    {
      if k == 0 || k == 1 {
        assert name[n - 3] != '.';
      } else {
        assert name[n - 1] != SOURCE_EXTENSIONS[k][|SOURCE_EXTENSIONS[k]| - 1];
      }
    }
  }
}
