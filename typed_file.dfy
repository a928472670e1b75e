/** retrofit.mime.TypedFile: a file paired with its mime type. The two fields
    are final, so a TypedFile is a value; its destructors `mimeType` and
    `file` are the accessors mimeType() and file(). Reading, writing and
    moving act on a FileSystem. */
module Mime {
  import opened JavaIO
  import opened Files

  /** The NullPointerException the constructor throws, as a value: `Create`
      is a function and cannot allocate a `RuntimeException` object, which
      the methods `WriteTo` and `MoveTo` do. */
  datatype NullPointerException = NullPointerException(message: string)

  /** How `new TypedFile(mimeType, file)` ends. */
  datatype Construction = Constructed(typedFile: TypedFile) | Thrown(npe: NullPointerException)

  /** The argument of equals(Object): a TypedFile, or anything else
      (null included). */
  datatype JavaObject = TypedFileObject(typedFile: TypedFile) | OtherObject

  /** How moveTo ends: the contents of the filesystem afterwards, the message
      of the IOException it throws (None when it returns), and whether it
      asked the filesystem for a rename. */
  datatype Move = Move(files: map<File, seq<Byte>>, failure: Option<string>, renameAttempted: bool)

  /** A try block whose finally clause closed a source: an exception thrown by
      close replaces whatever the block did; otherwise the block's outcome
      stands. */
  function Finally(body: Outcome<()>, close: Outcome<()>): (r: Outcome<()>)
    ensures r.Ok? <==> body.Ok? && close.Ok?
    ensures !close.Ok? ==> r == close
    ensures close.Ok? ==> r == body
  {
    if !close.Ok? then close else body
  }

  datatype TypedFile = TypedFile(mimeType: string, file: File) {

    /** The constructor: mimeType is checked for null first, then file; when
        both are present they are stored as given. */
    static function Create(mimeType: Option<string>, file: Option<File>): (r: Construction)
      ensures r.Constructed? <==> mimeType.Some? && file.Some?
      ensures r.Constructed? ==> r.typedFile.mimeType == mimeType.value && r.typedFile.file == file.value
      ensures mimeType == None ==> r == Thrown(NullPointerException("mimeType"))
      ensures mimeType.Some? && file == None ==> r == Thrown(NullPointerException("file"))
    {
      if mimeType == None then Thrown(NullPointerException("mimeType"))
      else if file == None then Thrown(NullPointerException("file"))
      else Constructed(TypedFile(mimeType.value, file.value))
    }

    /** length(): the size of the file, 0 when it does not exist. */
    function Length(files: map<File, seq<Byte>>): (n: nat)
      ensures file in files ==> n == |files[file]|
      ensures file !in files ==> n == 0
    {
      if file in files then |files[file]| else 0
    }

    /** fileName(): the last component of the file's path, as `NameOf`
        characterises it. */
    function FileName(): (name: string)
      ensures name == NameOf(file.path)
    {
      NameOf(file.path)
    }

    /** toString(): the absolute path, then the mime type in parentheses.
        How a path is made absolute is given as `absolutePath`. */
    function ToString(absolutePath: File -> string): (s: string)
      ensures |s| == |absolutePath(file)| + |mimeType| + 3
      ensures s[..|absolutePath(file)|] == absolutePath(file)
      ensures s[|absolutePath(file)|..] == " (" + mimeType + ")"
    {
      absolutePath(file) + " (" + mimeType + ")"
    }

    /** equals(Object): true for this very object, otherwise exactly for a
        TypedFile with an equal file, whatever its mime type. */
    function Equals(o: JavaObject): (r: bool)
      ensures o == TypedFileObject(this) ==> r
      ensures r <==> o.TypedFileObject? && o.typedFile.file == file
    {
      if o == TypedFileObject(this) then true
      else match o
           case TypedFileObject(rhs) => file == rhs.file
           case OtherObject => false
    }

    /** hashCode(): the file's hash code. */
    function HashCode(): (h: Int32)
      ensures h == file.HashCode()
    {
      file.HashCode()
    }

    /** in(): a buffered source over the file. */
    method In(fs: FileSystem) returns (r: Outcome<FileSource>)
      modifies fs
      ensures fs.files == old(fs.files) && fs.closeLog == old(fs.closeLog) && fs.renameLog == old(fs.renameLog)
      ensures r.Ok? <==> file in fs.files && fs.readable(file)
      ensures r.Ok? ==> fresh(r.value) && r.value.file == file && r.value.data == fs.files[file] &&
                        r.value.closeResult == fs.closeOutcome(file) &&
                        fs.openHandles == old(fs.openHandles) + {r.value}
      ensures r.Fail? ==> fresh(r.error) && fs.openHandles == old(fs.openHandles)
      ensures !r.Unchecked?
    {
      r := fs.Open(file);
    }

    /** writeTo(sink): opens the file, copies it into the sink and, in a
        finally clause, closes the source if it was opened. A null sink
        throws a NullPointerException inside the try block, after the open. */
    method WriteTo(fs: FileSystem, sink: Sink?) returns (r: Outcome<()>)
      modifies fs, sink
      ensures fs.openHandles == old(fs.openHandles)
      ensures fs.files == old(fs.files) && fs.renameLog == old(fs.renameLog)
      ensures !(file in old(fs.files) && fs.readable(file)) ==>
                r.Fail? && fresh(r.error) && fs.closeLog == old(fs.closeLog) &&
                (sink != null ==> sink.written == old(sink.written))
      ensures file in old(fs.files) && fs.readable(file) ==>
                |fs.closeLog| == |old(fs.closeLog)| + 1 &&
                fs.closeLog[..|old(fs.closeLog)|] == old(fs.closeLog) &&
                fresh(fs.closeLog[|old(fs.closeLog)|]) &&
                fs.closeLog[|old(fs.closeLog)|].file == file
      ensures file in old(fs.files) && fs.readable(file) && sink != null ==>
                sink.written == old(sink.written) + Delivered(old(fs.files)[file], sink.failure) &&
                r == Finally(WriteAllResult(sink.failure), fs.closeOutcome(file))
      ensures file in old(fs.files) && fs.readable(file) && sink == null ==>
                if fs.closeOutcome(file).Ok? then r.Unchecked? && fresh(r.exception)
                else r == fs.closeOutcome(file)
    {
      var source: Option<FileSource> := None;
      var body: Outcome<()>;
      var opening := fs.Open(file);
      if opening.Ok? {
        source := Some(opening.value);
        if sink == null {
          var npe := new RuntimeException("NullPointerException");
          body := Unchecked(npe);
        } else {
          body := sink.WriteAll(opening.value);
        }
      } else {
        body := Fail(opening.error);
      }
      // finally
      if source.Some? {
        var closed := fs.Close(source.value);
        r := Finally(body, closed);
      } else {
        r := body;
      }
    }

    /** What moveTo(destination) does to `files` when the platform would
        answer `accepted` to the rename. */
    function MoveEffect(files: map<File, seq<Byte>>, destination: TypedFile, accepted: bool): (m: Move)
      ensures mimeType != destination.mimeType ==>
                m == Move(files, Some("Type mismatch."), false)
      ensures mimeType == destination.mimeType ==> m.renameAttempted
      ensures m.failure == None <==>
                mimeType == destination.mimeType && file in files && accepted
      ensures mimeType == destination.mimeType && !(file in files && accepted) ==>
                m.failure == Some("Rename failed!") && m.files == files
      ensures m.failure == None ==>
                destination.file in m.files && m.files[destination.file] == files[file] &&
                (file != destination.file ==> file !in m.files) &&
                forall p :: p != file && p != destination.file ==>
                  (p in m.files <==> p in files) && (p in m.files ==> m.files[p] == files[p])
    {
      if mimeType != destination.mimeType then Move(files, Some("Type mismatch."), false)
      else if !(file in files && accepted) then Move(files, Some("Rename failed!"), true)
      else Move(Renamed(files, file, destination.file), None, true)
    }

    /** moveTo(destination): refuses a different mime type before touching
        the filesystem, then renames the file and turns a refused rename
        into an IOException. A null destination throws a NullPointerException
        when its mime type is asked for, before any rename. */
    method MoveTo(destination: Option<TypedFile>, fs: FileSystem) returns (r: Outcome<()>)
      modifies fs
      ensures fs.openHandles == old(fs.openHandles) && fs.closeLog == old(fs.closeLog)
      ensures destination == None ==>
                r.Unchecked? && fresh(r.exception) &&
                fs.files == old(fs.files) && fs.renameLog == old(fs.renameLog)
      ensures destination.Some? ==>
                var d := destination.value;
                var m := MoveEffect(old(fs.files), d, fs.renameAccepted(file, d.file));
                fs.files == m.files &&
                (r.Ok? <==> m.failure == None) && !r.Unchecked? &&
                (r.Fail? ==> fresh(r.error) && m.failure == Some(r.error.message)) &&
                fs.renameLog == old(fs.renameLog) + if m.renameAttempted then [(file, d.file)] else []
    {
      if destination == None {
        var npe := new RuntimeException("NullPointerException");
        return Unchecked(npe);
      }
      var destination := destination.value;
      if mimeType != destination.mimeType {
        var e := new IOException("Type mismatch.");
        return Fail(e);
      }
      var renamed := fs.RenameTo(file, destination.file);
      if !renamed {
        var e := new IOException("Rename failed!");
        return Fail(e);
      }
      r := Ok(());
    }
  }

  /** Equal TypedFiles have equal hash codes. */
  lemma EqualsAgreesWithHashCode(a: TypedFile, b: TypedFile)
    requires a.Equals(TypedFileObject(b))
    ensures a.HashCode() == b.HashCode()
  {
  }

  /** equals is an equivalence on TypedFiles that ignores the mime type. */
  lemma EqualsIsEquivalence(a: TypedFile, b: TypedFile, c: TypedFile)
    ensures a.Equals(TypedFileObject(a))
    ensures a.Equals(TypedFileObject(b)) <==> b.Equals(TypedFileObject(a))
    ensures a.Equals(TypedFileObject(b)) && b.Equals(TypedFileObject(c)) ==> a.Equals(TypedFileObject(c))
    ensures a.Equals(TypedFileObject(TypedFile(c.mimeType, a.file)))
  {
  }

  /** After a successful move, the destination has the length the source
      had, and the source no longer exists unless it is the destination. */
  lemma MovedFileKeepsLength(files: map<File, seq<Byte>>, source: TypedFile, destination: TypedFile, accepted: bool)
    requires source.MoveEffect(files, destination, accepted).failure == None
    ensures destination.Length(source.MoveEffect(files, destination, accepted).files) == source.Length(files)
    ensures source.file != destination.file ==> source.Length(source.MoveEffect(files, destination, accepted).files) == 0
  {
  }
}
