/** The QFS metaserver as the file facade sees it through its KfsAccess
    wrapper. The native library is not part of this model: the server is an
    abstract map from path to the stat record it reports, plus the listing it
    returns for each directory, and every call that can fail returns a code
    chosen nondeterministically. Every call is appended, with its answer, to
    `calls`, so that a facade operation can state exactly which backend calls
    it issued and how it reacted to their answers. */
module KfsBackend {
  import opened Wrappers
  import opened Commons
  import opened Reflection

  /** The fields of a KfsFileAttr that the facade reads. `mode` is the Java
      int as its 32 bits. */
  datatype KfsFileAttr = KfsFileAttr(
    filename: string,
    isDirectory: bool,
    modificationTime: int,
    filesize: int,
    mode: bv32,
    ownerName: string,
    groupName: string)

  /** A `new KfsFileAttr()` that the server did not fill in: Java defaults.
      A null filename concatenates into a path as the four letters "null";
      null owner and group names are represented by the empty string. */
  const Unfilled := KfsFileAttr("null", false, 0, 0, 0, "", "")

  /** One call into the backend, with the answer it gave. */
  datatype KfsCall =
    | CreateCall(path: string, hasChannel: bool)
    | AppendCall(path: string, answer: Result<bool, FileError>)
    | IsDirectoryCall(path: string, isDir: bool)
    | MkdirsCall(path: string, ret: int)
    | RmdirsCall(path: string, ret: int)
    | RemoveCall(path: string, ret: int)
    | RenameCall(src: string, dst: string, ret: int)
    | SetModificationTimeCall(path: string, time: int, ret: int)
    | ChmodCall(path: string, mode: bv32, ret: int)
    | RetToIOExceptionCall(ret: int, path: string, outcome: Outcome<FileError>)
    | GetAttributesCall(path: string, stat: Result<KfsFileAttr, FileError>)
    | StatCall(path: string, filled: KfsFileAttr)
    | ReadDirPlusCall(path: string, listing: Result<seq<KfsFileAttr>, FileError>)
    | OpenCall(path: string)

  /** True for the failures that the wrapper rethrows as IOException. */
  predicate IsIOFailure(e: FileError) {
    e == IOError || e == AuthError
  }

  const CANT_READ_LOCATION := Throwable(IOExceptionKind("java.io.IOException"), None)

  /** kfs_readdirplus as written: the IOException for a null listing is
      thrown inside the try block, so the shared catch block sees a failure
      without an IOException cause and wraps it in a RuntimeException. */
  function ReadDirPlusAsWritten(inv: Invocation<Option<seq<KfsFileAttr>>>): (r: Result<seq<KfsFileAttr>, Throwable>)
    ensures inv.Returned? && inv.value.Some? ==> r == Ok(inv.value.value)
    ensures inv.Threw? ==> r == Err(Translate(inv.failure))
  {
    match inv
    case Returned(Some(objs)) => Ok(objs)
    case Returned(None) => Err(Translate(CANT_READ_LOCATION))
    case Threw(e) => Err(Translate(e))
  }

  /** A null listing escapes kfs_readdirplus as a RuntimeException, which
      the `throws IOException` of ls does not announce. */
  lemma NullListingEscapesUnchecked()
    ensures ReadDirPlusAsWritten(Returned(None)).Err?
    ensures !IsIOException(ReadDirPlusAsWritten(Returned(None)).error)
    ensures ReadDirPlusAsWritten(Returned(None)).error.kind.Unchecked?
  {
  }

  /** kfs_readdirplus as evidently intended: a null listing is reported as
      the IOException "Can't read location". */
  function ReadDirPlusIntended(inv: Invocation<Option<seq<KfsFileAttr>>>): (r: Result<seq<KfsFileAttr>, Throwable>)
    ensures inv.Returned? && inv.value.Some? ==> r == Ok(inv.value.value)
    ensures inv.Threw? ==> r == Err(Translate(inv.failure))
  {
    match inv
    case Returned(Some(objs)) => Ok(objs)
    case Returned(None) => Err(CANT_READ_LOCATION)
    case Threw(e) => Err(Translate(e))
  }

  /** With the intended reading, whatever the library returns, a failure
      is an IOException; only a thrown failure without an IOException
      cause escapes unchecked. */
  lemma IntendedReadDirPlusFailsWithIOException(inv: Invocation<Option<seq<KfsFileAttr>>>)
    ensures ReadDirPlusIntended(inv).Err? && inv.Returned? ==> IsIOException(ReadDirPlusIntended(inv).error)
    ensures ReadDirPlusIntended(inv).Err? && !IsIOException(ReadDirPlusIntended(inv).error) ==>
      inv.Threw? && !(inv.failure.cause.Some? && IsIOException(inv.failure.cause.value))
  {
  }

  /** The two readings differ exactly on a null listing. */
  lemma ReadDirPlusReadingsDifferOnlyOnNull(inv: Invocation<Option<seq<KfsFileAttr>>>)
    ensures ReadDirPlusAsWritten(inv) != ReadDirPlusIntended(inv) <==> inv == Returned(None)
  {
  }

  class KfsAccess {
    /** The stat record the server reports for each existing path. */
    var files: map<string, KfsFileAttr>
    /** What readdirplus returns for each listable directory, "." and ".." included. */
    var listings: map<string, seq<KfsFileAttr>>
    /** Every call issued so far, oldest first. */
    var calls: seq<KfsCall>

    constructor (files: map<string, KfsFileAttr>, listings: map<string, seq<KfsFileAttr>>)
      ensures this.files == files && this.listings == listings && calls == []
    {
      this.files, this.listings, calls := files, listings, [];
    }

    /** kfs_create: the wrapper always hands back a wrapper object and
        declares no IOException. The object holds whatever the library
        returned; `hasChannel` says whether that was a channel or null.
        The server state may change. */
    method Create(path: string) returns (hasChannel: bool)
      modifies this
      ensures calls == old(calls) + [CreateCall(path, hasChannel)]
    {
      hasChannel := *;
      files, listings := *, *;
      calls := calls + [CreateCall(path, hasChannel)];
    }

    /** kfs_append_ex: may throw an IOException. Otherwise, like kfs_create,
        it hands back a wrapper object around what the library returned,
        and `answer` carries whether that was a channel or null. */
    method AppendEx(path: string) returns (answer: Result<bool, FileError>)
      modifies this
      ensures answer.Err? ==> IsIOFailure(answer.error)
      ensures calls == old(calls) + [AppendCall(path, answer)]
    {
      var ok: bool := *;
      var auth: bool := *;
      var hasChannel: bool := *;
      answer := if ok then Ok(hasChannel) else Err(if auth then AuthError else IOError);
      files, listings := *, *;
      calls := calls + [AppendCall(path, answer)];
    }

    /** kfs_isDirectory: answers from the server's records. */
    method IsDirectory(path: string) returns (isDir: bool)
      modifies this
      ensures files == old(files) && listings == old(listings)
      ensures isDir == (path in files && files[path].isDirectory)
      ensures calls == old(calls) + [IsDirectoryCall(path, isDir)]
    {
      isDir := path in files && files[path].isDirectory;
      calls := calls + [IsDirectoryCall(path, isDir)];
    }

    method Mkdirs(path: string) returns (ret: int)
      modifies this
      ensures calls == old(calls) + [MkdirsCall(path, ret)]
    {
      ret := *;
      files, listings := *, *;
      calls := calls + [MkdirsCall(path, ret)];
    }

    method Rmdirs(path: string) returns (ret: int)
      modifies this
      ensures calls == old(calls) + [RmdirsCall(path, ret)]
    {
      ret := *;
      files, listings := *, *;
      calls := calls + [RmdirsCall(path, ret)];
    }

    method Remove(path: string) returns (ret: int)
      modifies this
      ensures calls == old(calls) + [RemoveCall(path, ret)]
    {
      ret := *;
      files, listings := *, *;
      calls := calls + [RemoveCall(path, ret)];
    }

    method Rename(src: string, dst: string) returns (ret: int)
      modifies this
      ensures calls == old(calls) + [RenameCall(src, dst, ret)]
    {
      ret := *;
      files, listings := *, *;
      calls := calls + [RenameCall(src, dst, ret)];
    }

    method SetModificationTime(path: string, time: int) returns (ret: int)
      modifies this
      ensures calls == old(calls) + [SetModificationTimeCall(path, time, ret)]
    {
      ret := *;
      files, listings := *, *;
      calls := calls + [SetModificationTimeCall(path, time, ret)];
    }

    method Chmod(path: string, mode: bv32) returns (ret: int)
      modifies this
      ensures calls == old(calls) + [ChmodCall(path, mode, ret)]
    {
      ret := *;
      files, listings := *, *;
      calls := calls + [ChmodCall(path, mode, ret)];
    }

    /** kfs_retToIOException: the library decides which codes are errors. */
    method RetToIOException(ret: int, path: string) returns (outcome: Outcome<FileError>)
      modifies this
      ensures files == old(files) && listings == old(listings)
      ensures outcome.Fail? ==> IsIOFailure(outcome.error)
      ensures calls == old(calls) + [RetToIOExceptionCall(ret, path, outcome)]
    {
      var ok: bool := *;
      var auth: bool := *;
      outcome := if ok then Pass else Fail(if auth then AuthError else IOError);
      calls := calls + [RetToIOExceptionCall(ret, path, outcome)];
    }

    /** getFileAttributes: a stat whose failure code is turned into an
        IOException. Success reports the server's record; a path the server
        does not know always fails. */
    method GetFileAttributes(path: string) returns (stat: Result<KfsFileAttr, FileError>)
      modifies this
      ensures files == old(files) && listings == old(listings)
      ensures stat.Ok? ==> path in files && stat.value == files[path]
      ensures stat.Err? ==> IsIOFailure(stat.error)
      ensures path !in files ==> stat.Err?
      ensures calls == old(calls) + [GetAttributesCall(path, stat)]
    {
      var ok: bool := *;
      var auth: bool := *;
      if ok && path in files {
        stat := Ok(files[path]);
      } else {
        stat := Err(if auth then AuthError else IOError);
      }
      calls := calls + [GetAttributesCall(path, stat)];
    }

    /** kfs_stat into a fresh record, return code left to the caller: the
        record is either the server's or still unfilled. */
    method Stat(path: string) returns (filled: KfsFileAttr)
      modifies this
      ensures files == old(files) && listings == old(listings)
      ensures filled == Unfilled || (path in files && filled == files[path])
      ensures path !in files ==> filled == Unfilled
      ensures calls == old(calls) + [StatCall(path, filled)]
    {
      var ok: bool := *;
      filled := if ok && path in files then files[path] else Unfilled;
      calls := calls + [StatCall(path, filled)];
    }

    /** kfs_readdirplus, read as ReadDirPlusIntended: a directory the
        server cannot list (a null listing) fails with an IOException, so
        success always carries a listing. */
    method ReadDirPlus(path: string) returns (listing: Result<seq<KfsFileAttr>, FileError>)
      modifies this
      ensures files == old(files) && listings == old(listings)
      ensures listing.Ok? ==> path in listings && listing.value == listings[path]
      ensures listing.Err? ==> IsIOFailure(listing.error)
      ensures path !in listings ==> listing.Err?
      ensures calls == old(calls) + [ReadDirPlusCall(path, listing)]
    {
      var ok: bool := *;
      var auth: bool := *;
      if ok && path in listings {
        listing := Ok(listings[path]);
      } else {
        listing := Err(if auth then AuthError else IOError);
      }
      calls := calls + [ReadDirPlusCall(path, listing)];
    }

    /** kfs_open: a read channel on the file. */
    method Open(path: string) returns (channel: KfsInputChannel)
      modifies this
      ensures files == old(files) && listings == old(listings)
      ensures fresh(channel)
      ensures calls == old(calls) + [OpenCall(path)]
    {
      channel := new KfsInputChannel();
      calls := calls + [OpenCall(path)];
    }
  }

  /** A read channel of the native library. Its position is not modelled. */
  class KfsInputChannel {
    constructor () {}

    /** read(ByteBuffer.wrap(b, off, len)), following the NIO channel
        contract: the number of bytes stored from b[off] on (possibly zero),
        or -1 at end of stream; nothing outside b[off..off+len] changes. */
    method Read(b: array<bv8>, off: int, len: int) returns (res: int)
      requires 0 <= off && 0 <= len && off + len <= b.Length
      modifies b
      ensures -1 <= res <= len
      ensures forall i :: 0 <= i < b.Length && !(off <= i < off + len) ==> b[i] == old(b[i])
    {
      res := *;
      if res < -1 || res > len {
        res := -1;
      }
      var bytes: seq<bv8> := *;
      if |bytes| == len {
        forall i | off <= i < off + len {
          b[i] := bytes[i - off];
        }
      }
    }
  }
}
