/** The filesystem underneath TypedFile: java.io.File pathnames, a map from
    pathname to contents, the okio Source opened over a file and the sink a
    file is written to. Whether the platform lets a file be opened, what
    closing it reports, whether a rename is performed, and where a sink
    fails are oracles fixed in advance. */
module Files {
  import opened JavaIO

  /** A java.io.File: an abstract pathname, equal to another exactly when
      their path strings are equal (the Unix rule). */
  datatype File = File(path: string) {

    /** hashCode(): the String hash of the path XOR 1234321, as the Unix
        file system computes it. */
    function HashCode(): Int32
    {
      ToInt32(StringHash(path) ^ 1234321)
    }
  }

  /** java.lang.String.hashCode(): h = 31 * h + c over the characters, in
      32-bit arithmetic. */
  function StringHash(s: string): bv32
    decreases |s|
  {
    if s == [] then 0 else StringHash(s[..|s| - 1]) * 31 + (s[|s| - 1] as int as bv32)
  }

  /** The two's-complement reading of 32 bits. */
  function ToInt32(x: bv32): Int32
  {
    var v := x as int;
    if v < 0x8000_0000 then v as Int32 else (v - 0x1_0000_0000) as Int32
  }

  /** getName(): the part of the path after its last separator '/'. */
  function NameOf(path: string): (name: string)
    ensures '/' !in name
    ensures |name| <= |path| && path[|path| - |name|..] == name
    ensures |name| < |path| ==> path[|path| - |name| - 1] == '/'
    decreases |path|
  {
    if path == [] || path[|path| - 1] == '/' then []
    else NameOf(path[..|path| - 1]) + [path[|path| - 1]]
  }

  /** An okio Source opened over a file: the bytes it delivers and what
      closing it will report. */
  class FileSource {
    const file: File
    const data: seq<Byte>
    const closeResult: Outcome<()>

    constructor (file: File, data: seq<Byte>, closeResult: Outcome<()>)
      ensures this.file == file && this.data == data && this.closeResult == closeResult
    {
      this.file := file;
      this.data := data;
      this.closeResult := closeResult;
    }
  }

  /** The contents after a rename of `from` to `to` that the platform
      performed: `to` holds what `from` held, `from` is gone, nothing else
      changes. */
  function Renamed(files: map<File, seq<Byte>>, from: File, to: File): (r: map<File, seq<Byte>>)
    requires from in files
    ensures to in r && r[to] == files[from]
    ensures from != to ==> from !in r
    ensures forall p :: p != from && p != to ==> (p in r <==> p in files)
    ensures forall p :: p != from && p != to && p in r ==> r[p] == files[p]
  {
    (files - {from})[to := files[from]]
  }

  class FileSystem {
    var files: map<File, seq<Byte>>
    /** Oracle: whether an existing file may be opened for reading. */
    const readable: File -> bool
    /** Oracle: what closing a source over a file reports. */
    const closeOutcome: File -> Outcome<()>
    /** Oracle: whether the platform performs a rename of an existing file
        (it may refuse a cross-device move, a permission or a conflict). */
    const renameAccepted: (File, File) -> bool
    /** Sources opened and not yet closed. */
    ghost var openHandles: set<FileSource>
    /** Every close, in order. */
    ghost var closeLog: seq<FileSource>
    /** Every rename attempted, in order. */
    ghost var renameLog: seq<(File, File)>

    constructor (files: map<File, seq<Byte>>, readable: File -> bool,
                 closeOutcome: File -> Outcome<()>, renameAccepted: (File, File) -> bool)
      ensures this.files == files && this.readable == readable
      ensures this.closeOutcome == closeOutcome && this.renameAccepted == renameAccepted
      ensures openHandles == {} && closeLog == [] && renameLog == []
    {
      this.files := files;
      this.readable := readable;
      this.closeOutcome := closeOutcome;
      this.renameAccepted := renameAccepted;
      openHandles := {};
      closeLog := [];
      renameLog := [];
    }

    /** Okio.source(file): fails when the file is missing or unreadable. */
    method Open(f: File) returns (r: Outcome<FileSource>)
      modifies this
      ensures files == old(files) && closeLog == old(closeLog) && renameLog == old(renameLog)
      ensures r.Ok? <==> f in files && readable(f)
      ensures r.Ok? ==> fresh(r.value) && r.value.file == f && r.value.data == files[f] &&
                        r.value.closeResult == closeOutcome(f) &&
                        openHandles == old(openHandles) + {r.value}
      ensures r.Fail? ==> fresh(r.error) && openHandles == old(openHandles)
      ensures !r.Unchecked?
    {
      if f in files && readable(f) {
        var s := new FileSource(f, files[f], closeOutcome(f));
        openHandles := openHandles + {s};
        r := Ok(s);
      } else {
        var e := new IOException("FileNotFoundException");
        r := Fail(e);
      }
    }

    /** Source.close(): releases the handle, whatever it reports. */
    method Close(s: FileSource) returns (r: Outcome<()>)
      modifies this
      ensures files == old(files) && renameLog == old(renameLog)
      ensures openHandles == old(openHandles) - {s} && closeLog == old(closeLog) + [s]
      ensures r == s.closeResult
    {
      openHandles := openHandles - {s};
      closeLog := closeLog + [s];
      r := s.closeResult;
    }

    /** File.renameTo: true when the platform moved the file. */
    method RenameTo(from: File, to: File) returns (ok: bool)
      modifies this
      ensures openHandles == old(openHandles) && closeLog == old(closeLog)
      ensures renameLog == old(renameLog) + [(from, to)]
      ensures ok <==> from in old(files) && renameAccepted(from, to)
      ensures files == if ok then Renamed(old(files), from, to) else old(files)
    {
      ok := from in files && renameAccepted(from, to);
      if ok {
        files := Renamed(files, from, to);
      }
      renameLog := renameLog + [(from, to)];
    }
  }

  /** Oracle for a sink that fails: it takes `after` bytes, then throws an
      IOException or an unchecked exception (a closed okio sink throws
      IllegalStateException). */
  datatype SinkFailure =
    | Throws(after: nat, error: IOException)
    | ThrowsUnchecked(after: nat, exception: RuntimeException)

  /** What a sink keeps of `data`: everything, or the part before it fails. */
  function Delivered(data: seq<Byte>, failure: Option<SinkFailure>): (d: seq<Byte>)
    ensures |d| <= |data| && d == data[..|d|]
    ensures failure == None ==> d == data
    ensures failure.Some? ==> |d| == if failure.value.after < |data| then failure.value.after else |data|
  {
    match failure
    case None => data
    case Some(f) => if f.after < |data| then data[..f.after] else data
  }

  /** How writeAll ends for a sink: it returns, or throws its failure. */
  function WriteAllResult(failure: Option<SinkFailure>): (r: Outcome<()>)
    ensures r.Ok? <==> failure == None
    ensures failure.Some? && failure.value.Throws? ==> r == Fail(failure.value.error)
    ensures failure.Some? && failure.value.ThrowsUnchecked? ==> r == Unchecked(failure.value.exception)
  {
    match failure
    case None => Ok(())
    case Some(Throws(_, e)) => Fail(e)
    case Some(ThrowsUnchecked(_, x)) => Unchecked(x)
  }

  /** The okio BufferedSink a file is written to. */
  class Sink {
    var written: seq<Byte>
    const failure: Option<SinkFailure>

    constructor (failure: Option<SinkFailure>)
      ensures written == [] && this.failure == failure
    {
      written := [];
      this.failure := failure;
    }

    /** BufferedSink.writeAll(source): copies the source into the sink. */
    method WriteAll(source: FileSource) returns (r: Outcome<()>)
      modifies this
      ensures written == old(written) + Delivered(source.data, failure)
      ensures r == WriteAllResult(failure)
    {
      written := written + Delivered(source.data, failure);
      r := WriteAllResult(failure);
    }
  }
}
