# Retrofit typed content: the fault-recording stream and TypedFile

This project models two stateful classes of Retrofit,
`retrofit.ExceptionCatchingTypedInput` and `retrofit.mime.TypedFile`, and
proves properties of the model.

- **`ExceptionCatchingTypedInput`** wraps the `TypedInput` of a response
  body. Its constructor opens the delegate's `BufferedSource` once and wraps
  it in an `ExceptionCatchingSource`. That wrapper forwards every stream call.
  When a call throws an `IOException`, the wrapper stores the exception in
  its field `thrownException` and rethrows it. Afterwards,
  `getThrownException()` and `threwException()` tell the caller whether
  reading the body failed in the transport, as opposed to in the converter.
- **`TypedFile`** pairs a file with its mime type. It has:
  - a null-checking constructor;
  - `equals` and `hashCode` that use the file only;
  - `fileName`, `length` and `toString`;
  - `writeTo`, which closes the file source on every exit path;
  - `moveTo`, which refuses a mime-type mismatch before it tries a rename.

Layout:

- `java_io.dfy` (module `JavaIO`): Java's `byte`/`int`/`long`, nullable
  references as `Option`, and `IOException` and `RuntimeException` as
  classes. Being a class, an exception is "the same" only when it is the
  same object. `Outcome` is how a call declared `throws IOException` ends:
  it returns a value, throws an `IOException`, or throws an unchecked
  exception.
- `okio_source.dfy` (module `Okio`): the delegate `BufferedSource` as a
  scripted oracle. It counts the I/O calls it answers. A `Script` fixes what
  a call of each kind returns or throws when it is the k-th I/O call
  overall.
- `fault_record.dfy` (module `FaultRecord`): the value of `thrownException`
  as a function of the faults of the tracked calls so far, and the lemmas
  about it.
- `exception_catching_typed_input.dfy` (module `ExceptionCatching`): the
  decorator as two classes. It also holds the delegate `TypedInput` as an
  oracle, and two client methods. In `TwoBytesThenFault` two bytes are
  read, the third read throws, then `close` throws. In
  `ReadAfterCloseIsNotRecorded` a read after `close` throws an unchecked
  exception, which passes through and leaves no fault recorded.
- `files.dfy` (module `Files`): `java.io.File` and a filesystem. The
  filesystem is a map from file to bytes plus oracles. It keeps ghost logs
  of open handles, closes and renames. The file also holds the okio source
  opened over a file and the sink that `writeTo` fills.
- `typed_file.dfy` (module `Mime`): `TypedFile` as a datatype, since both
  of its fields are final. Its destructors `mimeType` and `file` are the
  Java accessors `mimeType()` and `file()`.

The fault record keeps the latest fault. Every catch block assigns
`thrownException = e`, so a later failure overwrites an earlier one, and
`FaultRecord.Recorded` is the last fault of the history
(`RecordedIsLatestFault`, `LaterFaultReplacesEarlier`). The catch blocks
catch `IOException` only: an unchecked exception from the delegate passes
through and is not recorded. The `TypedFile` constructor checks the mime
type for null only, so an empty mime type is accepted.

## Model

| member | source | states |
|---|---|---|
| `FaultRecord.FaultOf` | retrofit/src/main/java/retrofit/ExceptionCatchingTypedInput.java:54-61 | a tracked call adds a fault exactly when it threw an IOException, and the fault is that exception; a return or an unchecked exception adds none |
| `FaultRecord.RecordFromSnoc` | retrofit/src/main/java/retrofit/ExceptionCatchingTypedInput.java:57-59 | one more tracked call applies one more catch block to the record |
| `FaultRecord.TrackedCallEffect` | retrofit/src/main/java/retrofit/ExceptionCatchingTypedInput.java:54-61 | after a failing call the record is that call's exception, whatever it was before; after a succeeding call it is unchanged |
| `FaultRecord.NoFaultIff` | retrofit/src/main/java/retrofit/ExceptionCatchingTypedInput.java:38-44 | the record is null exactly when no tracked call has thrown an IOException, so it starts out null |
| `FaultRecord.RecordedIsLatestFault` | retrofit/src/main/java/retrofit/ExceptionCatchingTypedInput.java:58 | the record holds `e` exactly when `e` was thrown by the latest failing tracked call (last fault wins) |
| `FaultRecord.RecordedConcat` | retrofit/src/main/java/retrofit/ExceptionCatchingTypedInput.java:58-76 | after two runs of calls the record is the second run's if that run failed, else the first run's: never cleared, overwritten by any later fault, kept by later successes |
| `FaultRecord.LaterFaultReplacesEarlier` | retrofit/src/main/java/retrofit/ExceptionCatchingTypedInput.java:58 | a second, distinct fault replaces the first one in the record |
| `ExceptionCatching.ExceptionCatchingTypedInput.Open` | retrofit/src/main/java/retrofit/ExceptionCatchingTypedInput.java:17-20 | opens the delegate's stream exactly once; if that throws (an IOException or an unchecked exception), the same exception propagates and no decorator exists; otherwise the new decorator wraps that stream and has no fault recorded |
| `ExceptionCatching.ExceptionCatchingTypedInput.constructor` | retrofit/src/main/java/retrofit/ExceptionCatchingTypedInput.java:17-20 | a fresh wrapper around the opened stream, with an empty fault history |
| `ExceptionCatching.ExceptionCatchingTypedInput.MimeType` | retrofit/src/main/java/retrofit/ExceptionCatchingTypedInput.java:22-24 | the delegate's mime type, unchanged; being a function, it cannot touch the record |
| `ExceptionCatching.ExceptionCatchingTypedInput.Length` | retrofit/src/main/java/retrofit/ExceptionCatchingTypedInput.java:26-28 | the delegate's length, unchanged; being a function, it cannot touch the record |
| `ExceptionCatching.ExceptionCatchingTypedInput.In` | retrofit/src/main/java/retrofit/ExceptionCatchingTypedInput.java:30-32 | always the one wrapper made at construction |
| `ExceptionCatching.ExceptionCatchingTypedInput.GetThrownException` | retrofit/src/main/java/retrofit/ExceptionCatchingTypedInput.java:34-36 | the record of the tracked calls so far; null before any tracked call |
| `ExceptionCatching.ExceptionCatchingTypedInput.ThrewException` | retrofit/src/main/java/retrofit/ExceptionCatchingTypedInput.java:38-40 | true exactly when `GetThrownException` is non-null, which is exactly when some tracked call threw an IOException |
| `ExceptionCatching.ExceptionCatchingSource.constructor` | retrofit/src/main/java/retrofit/ExceptionCatchingTypedInput.java:43-48 | wraps the given delegate; the record starts null |
| `ExceptionCatching.ExceptionCatchingSource.Buffer` | retrofit/src/main/java/retrofit/ExceptionCatchingTypedInput.java:50-52 | the delegate's buffer; untracked, so it cannot change the record |
| `ExceptionCatching.ExceptionCatchingSource.InputStream` | retrofit/src/main/java/retrofit/ExceptionCatchingTypedInput.java:325-327 | the delegate's input stream; untracked, so it cannot change the record |
| `ExceptionCatching.ExceptionCatchingSource.Timeout` | retrofit/src/main/java/retrofit/ExceptionCatchingTypedInput.java:338-340 | the delegate's timeout; untracked, so it cannot change the record |
| `ExceptionCatching.ExceptionCatchingSource.Catch` | retrofit/src/main/java/retrofit/ExceptionCatchingTypedInput.java:57-59 | the shared catch block: gives back the very outcome it got; stores a thrown IOException, keeps the record on success or on an unchecked exception, which passes through; keeps the record equal to `Recorded` of the history |
| `ExceptionCatching.ExceptionCatchingSource.Exhausted` | retrofit/src/main/java/retrofit/ExceptionCatchingTypedInput.java:54-61 | exactly the delegate's answer, value or the same exception; the record becomes that exception when it is an IOException and is unchanged otherwise |
| `ExceptionCatching.ExceptionCatchingSource.Require` | retrofit/src/main/java/retrofit/ExceptionCatchingTypedInput.java:63-70 | as `Exhausted`, for `require(byteCount)` |
| `ExceptionCatching.ExceptionCatchingSource.ReadByte` | retrofit/src/main/java/retrofit/ExceptionCatchingTypedInput.java:81-88 | as `Exhausted`, for `readByte()` |
| `ExceptionCatching.ExceptionCatchingSource.ReadUtf8` | retrofit/src/main/java/retrofit/ExceptionCatchingTypedInput.java:234-241 | as `Exhausted`, for `readUtf8()` |
| `ExceptionCatching.ExceptionCatchingSource.IndexOf` | retrofit/src/main/java/retrofit/ExceptionCatchingTypedInput.java:297-304 | as `Exhausted`, for `indexOf(b, fromIndex)` |
| `ExceptionCatching.ExceptionCatchingSource.Close` | retrofit/src/main/java/retrofit/ExceptionCatchingTypedInput.java:342-349 | as `Exhausted`, for `close()`: a failing close is recorded like any read |
| `Mime.TypedFile.Create` | retrofit/src/main/java/retrofit/mime/TypedFile.java:41-50 | a null mime type throws NullPointerException("mimeType") whatever the file; only then a null file throws NullPointerException("file"); otherwise both are stored as given |
| `Mime.TypedFile.Length` | retrofit/src/main/java/retrofit/mime/TypedFile.java:61-63 | the number of bytes in the file, 0 when the file does not exist |
| `Mime.TypedFile.FileName` | retrofit/src/main/java/retrofit/mime/TypedFile.java:65-67 | the last component of the file's path, as `Files.NameOf` characterises it |
| `Files.NameOf` | retrofit/src/main/java/retrofit/mime/TypedFile.java:65-67 | the longest suffix of the path without a '/': no separator in it, and a separator or the start of the path just before it, proved by recursion over the path |
| `Mime.TypedFile.ToString` | retrofit/src/main/java/retrofit/mime/TypedFile.java:100-102 | the absolute path, then " (", the mime type and ")" |
| `Mime.TypedFile.Equals` | retrofit/src/main/java/retrofit/mime/TypedFile.java:104-111 | true for this very object; otherwise true exactly for a TypedFile with an equal file, whatever its mime type; false for anything else |
| `Mime.TypedFile.HashCode` | retrofit/src/main/java/retrofit/mime/TypedFile.java:113-115 | the file's hash code, so it depends on the file alone |
| `Mime.EqualsAgreesWithHashCode` | retrofit/src/main/java/retrofit/mime/TypedFile.java:104-115 | TypedFiles that are equal have equal hash codes |
| `Mime.EqualsIsEquivalence` | retrofit/src/main/java/retrofit/mime/TypedFile.java:104-111 | equals is reflexive, symmetric and transitive on TypedFiles, and ignores the mime type |
| `Mime.TypedFile.In` | retrofit/src/main/java/retrofit/mime/TypedFile.java:69-71 | opens a new source over this file and its current bytes, recorded as open and closing as the platform reports for the file, or throws a new IOException when the file is missing or unreadable; the filesystem's contents are unchanged |
| `Mime.TypedFile.WriteTo` | retrofit/src/main/java/retrofit/mime/TypedFile.java:73-83 | no handle is left open on any path; if opening failed, nothing is closed and the sink is untouched; if it succeeded, the newly opened source is closed exactly once, the sink got the file's bytes up to where it failed, and an exception from close replaces the write's outcome, which may be a return, an IOException or an unchecked exception from the sink; a null sink throws a new NullPointerException after the open, and the source is still closed |
| `Mime.Finally` | retrofit/src/main/java/retrofit/mime/TypedFile.java:78-82 | a finally clause that closed a source: the call succeeds exactly when the body and the close both do, and any exception from close wins |
| `Mime.TypedFile.MoveEffect` | retrofit/src/main/java/retrofit/mime/TypedFile.java:91-98 | a different mime type (String equality) fails with "Type mismatch." before any rename, changing nothing; with equal types a rename is attempted, and a refused one fails with "Rename failed!" and changes nothing; on success the destination holds the source's bytes, the source path is gone and no other path changes |
| `Mime.TypedFile.MoveTo` | retrofit/src/main/java/retrofit/mime/TypedFile.java:91-98 | a null destination throws a new NullPointerException and changes nothing, with no rename asked for; otherwise the filesystem ends as `MoveEffect` says, the rename is asked for exactly once and only when the types match, and a failure throws a new IOException with `MoveEffect`'s message |
| `Mime.MovedFileKeepsLength` | retrofit/src/main/java/retrofit/mime/TypedFile.java:91-98 | after a successful move the destination has the source's old length, and a distinct source path has length 0 |
| `Files.Renamed` | retrofit/src/main/java/retrofit/mime/TypedFile.java:95 | a rename the platform performs: the destination holds the old bytes, the source path is gone, every other path is unchanged |
| `Files.FileSystem.RenameTo` | retrofit/src/main/java/retrofit/mime/TypedFile.java:95 | reports true exactly when the file exists and the platform accepts the rename; only then do the contents change, as `Renamed` says; every call is logged |
| `Files.FileSystem.Open` | retrofit/src/main/java/retrofit/mime/TypedFile.java:76 | a new handle over the file's bytes when it exists and is readable, recorded as open; otherwise a new IOException and no handle |
| `Files.FileSystem.Close` | retrofit/src/main/java/retrofit/mime/TypedFile.java:80 | releases the handle whatever close reports, and logs the close |

## Left out

- The other tracked forwarders of `ExceptionCatchingSource` are not modelled one by one. They follow the same forward, record and rethrow pattern as the six that are modelled: `request`, `readShort`, `readShortLe`, `readInt`, `readIntLe`, `readLong`, `readLongLe`, `skip`, both `readByteString`, both `readByteArray`, both `read(byte[]…)`, both `readFully`, `readAll`, `readUtf8(long)`, `readUtf8Line`, `readUtf8LineStrict`, both `readString`, `indexOf(byte)`, both `indexOfElement` and `read(Buffer, long)`.
- What the okio stream operations mean is not modelled. That covers byte order, UTF-8 and charset decoding, searching, and `Buffer`, `InputStream` and `Timeout`. That code is a library outside this model, so every delegate call is an oracle answer that depends only on how many calls came before and on the call's own arguments.
- The filesystem is modelled by oracles. Whether a file may be read, what closing it reports, and whether a rename is accepted are fixed in advance. Rename atomicity, cross-device moves and concurrent changes to files are not modelled.
- Java's `File` normalises its path on construction, and `getAbsolutePath` resolves against the working directory. Neither is modelled: a path is taken as given. `Mime.TypedFile.ToString` receives the absolute-path resolution as a parameter.
- `Files.File.HashCode` follows the Unix `java.io.File` rule (String hash of the path XOR 1234321). It hashes Dafny characters, which are Unicode scalar values, not UTF-16 code units. So it differs from Java on paths with characters outside the Basic Multilingual Plane.
- `Mime.TypedFile.Length` is an unbounded `nat`, not Java's `long`.
- The sink is an oracle that takes some bytes and then may throw an IOException or an unchecked exception. A read error of the file part-way through the copy shows up only as that sink failure.
- The byte count that `writeAll` returns is not modelled, because `writeTo` discards it.
- The specific exception classes are not modelled. `FileNotFoundException` is an `IOException` with a message, and `NullPointerException` is a `RuntimeException` with a message. `Errors` (such as `OutOfMemoryError`) are not modelled.
- Concurrency is not modelled. These classes are single-threaded.
