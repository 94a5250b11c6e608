/** The QFS file facade (QFSFile and its inner QFSFileAttributes): a file
    object that caches the attributes of one remote path, keeps them in step
    with its own local writes, renames, deletes and permission or date
    changes, and refreshes them from the metaserver only while no write
    stream is open on it. Wall-clock time is passed in as `now`. */
module Qfs {
  import opened Wrappers
  import opened Commons
  import opened KfsBackend

  /** Marker of the current directory in a listing. */
  const DOT := "."
  /** Marker of the parent directory in a listing. */
  const DOTDOT := ".."
  /** Permissions substituted when the server cannot stat the file: octal 0664. */
  const DEFAULT_PERMISSIONS: bv32 := 0x1B4

  // ---------------------------------------------------------------------
  // Attribute synchronisation, as functions of the server's answer
  // ---------------------------------------------------------------------

  /** setAttributes followed by setExists(true): the record a successful
      stat (or a directory listing) yields. */
  function Fetched(k: KfsFileAttr): (a: Attrs)
    ensures a.present && a.isDirectory == k.isDirectory && a.date == k.modificationTime
    ensures a.isDirectory ==> a.size == 0
    ensures !a.isDirectory ==> a.size == k.filesize
    ensures a.owner == k.ownerName && a.group == k.groupName
  {
    Attrs(true, k.isDirectory, k.modificationTime,
          if k.isDirectory then 0 else k.filesize,
          k.mode & FULL_PERMISSION_INT, k.ownerName, k.groupName)
  }

  /** The cached permissions are the server's mode cut down to its low
      nine bits: nothing above octal 0777 survives, nothing below is lost. */
  lemma FetchedPermissions(k: KfsFileAttr)
    ensures WithinFullPermissions(Fetched(k).permissions)
    ensures Fetched(k).permissions & FULL_PERMISSION_INT == k.mode & FULL_PERMISSION_INT
  {
  }

  /** setExists(false) followed by setDefaultFileAttributes: owner and group
      are emptied and the permissions reset, the rest of the record is kept. */
  function Absent(before: Attrs): (a: Attrs)
    ensures !a.present && a.owner == "" && a.group == "" && a.permissions == DEFAULT_PERMISSIONS
    ensures a.isDirectory == before.isDirectory && a.date == before.date && a.size == before.size
  {
    before.(present := false, owner := "", group := "", permissions := DEFAULT_PERMISSIONS)
  }

  /** What a successful delete, or the source of a successful rename,
      records locally: gone, not a directory, empty; date, permissions, owner
      and group are kept. */
  function Removed(before: Attrs): (a: Attrs)
    ensures !a.present && !a.isDirectory && a.size == 0
    ensures a.date == before.date && a.permissions == before.permissions
    ensures a.owner == before.owner && a.group == before.group
  {
    before.(present := false, isDirectory := false, size := 0)
  }

  /** The destination of a rename once its optional delete went through:
      removed when it existed, untouched otherwise. */
  function AfterDestinationDelete(before: Attrs): (a: Attrs)
    ensures !a.present
  {
    if before.present then Removed(before) else before
  }

  /** The attributes fetchAttributes leaves behind, given the server's answer. */
  function AfterFetch(before: Attrs, stat: Result<KfsFileAttr, FileError>): (a: Attrs)
    ensures a.present <==> stat.Ok?
    ensures stat.Err? ==> a.isDirectory == before.isDirectory && a.date == before.date && a.size == before.size
    ensures stat.Err? ==> a.owner == "" && a.group == "" && a.permissions == DEFAULT_PERMISSIONS
  {
    match stat
    case Ok(k) => Fetched(k)
    case Err(_) => Absent(before)
  }

  /** What fetchAttributes throws: an AuthException is rethrown, every other
      failure is swallowed and reported as absence. */
  function FetchOutcome(stat: Result<KfsFileAttr, FileError>): (r: Outcome<FileError>)
    ensures r.Fail? <==> stat == Err(AuthError)
    ensures r.Fail? ==> r.error == AuthError
  {
    if stat == Err(AuthError) then Fail(AuthError) else Pass
  }

  /** Fetching twice with the same answer from the server is the same as
      fetching once. */
  lemma AfterFetchIdempotent(before: Attrs, stat: Result<KfsFileAttr, FileError>)
    ensures AfterFetch(AfterFetch(before, stat), stat) == AfterFetch(before, stat)
  {
  }

  /** Whichever way a fetch goes, the cached permissions never carry a bit
      above octal 0777. */
  lemma AfterFetchPermissionsBounded(before: Attrs, stat: Result<KfsFileAttr, FileError>)
    ensures WithinFullPermissions(AfterFetch(before, stat).permissions)
    ensures stat.Err? ==> AfterFetch(before, stat).permissions == DEFAULT_PERMISSIONS
  {
  }

  // ---------------------------------------------------------------------
  // Writing through the counting stream
  // ---------------------------------------------------------------------

  /** What opening an output stream records locally. */
  function Opened(before: Attrs, now: int): (a: Attrs)
    ensures a.present && a.date == now && a.size == 0
    ensures a.isDirectory == before.isDirectory && a.permissions == before.permissions
    ensures a.owner == before.owner && a.group == before.group
  {
    before.(present := true, date := now, size := 0)
  }

  /** One byte-counter notification. */
  datatype Notification = Notification(nbBytes: nat, now: int)

  /** addToSize followed by setDate: the attributes after one notification. */
  function Counted(before: Attrs, n: Notification): (a: Attrs)
    ensures a.size == before.size + n.nbBytes && a.size >= before.size && a.date == n.now
    ensures a.present == before.present && a.isDirectory == before.isDirectory
  {
    before.(size := before.size + n.nbBytes, date := n.now)
  }

  /** The attributes after a run of notifications, oldest first. */
  function CountAll(before: Attrs, ns: seq<Notification>): (a: Attrs)
    ensures a.size >= before.size && a.present == before.present
  {
    if ns == [] then before else Counted(CountAll(before, ns[..|ns| - 1]), ns[|ns| - 1])
  }

  function TotalBytes(ns: seq<Notification>): nat
  {
    if ns == [] then 0 else TotalBytes(ns[..|ns| - 1]) + ns[|ns| - 1].nbBytes
  }

  /** Notifications only grow the size, by exactly the bytes reported, and
      stamp the date of the last one; nothing else changes. */
  lemma {:induction false} CountAllAdds(before: Attrs, ns: seq<Notification>)
    ensures CountAll(before, ns).size == before.size + TotalBytes(ns)
    ensures ns != [] ==> CountAll(before, ns).date == ns[|ns| - 1].now
    ensures CountAll(before, ns).(size := before.size, date := before.date) == before
    decreases |ns|
  {
    if ns != [] {
      CountAllAdds(before, ns[..|ns| - 1]);
    }
  }

  /** After a stream is opened and k bytes are reported, the file exists
      and its size is k. */
  lemma {:induction false} SizeAfterWriting(before: Attrs, openedAt: int, ns: seq<Notification>)
    ensures CountAll(Opened(before, openedAt), ns).size == TotalBytes(ns)
    ensures CountAll(Opened(before, openedAt), ns).present
  {
    CountAllAdds(Opened(before, openedAt), ns);
  }

  /** What getOutputStream makes of the wrapper's answer, as written.
      `answer` is whether the library handed back a channel (Ok(true)) or
      null (Ok(false)), or the IOException the append raised. The null test
      looks at the wrapper object, which is never null, so a null channel
      goes on to Channels.newOutputStream and fails there with a
      NullPointerException, before any attribute is touched. */
  function OpenStreamAsWritten(answer: Result<bool, FileError>): (r: Outcome<FileError>)
    ensures r.Pass? <==> answer == Ok(true)
    ensures answer.Err? ==> r == Fail(answer.error)
  {
    match answer
    case Ok(hasChannel) => if hasChannel then Pass else Fail(NullPointer)
    case Err(e) => Fail(e)
  }

  /** As written, a null channel escapes as an unchecked exception that the
      `throws IOException` of getOutputStream does not announce. */
  lemma NullChannelEscapesUnchecked()
    ensures OpenStreamAsWritten(Ok(false)) == Fail(NullPointer)
    ensures !IsIOFailure(OpenStreamAsWritten(Ok(false)).error)
  {
  }

  /** getOutputStream as evidently intended: a null channel is reported as
      the IOException "Can't write! Write-protected?". */
  function OpenStreamIntended(answer: Result<bool, FileError>): (r: Outcome<FileError>)
    ensures r.Pass? <==> answer == Ok(true)
    ensures answer.Err? ==> r == Fail(answer.error)
  {
    match answer
    case Ok(hasChannel) => if hasChannel then Pass else Fail(IOError)
    case Err(e) => Fail(e)
  }

  /** With the intended reading, opening a stream fails only with an
      IOException, whatever the wrapper answers. */
  lemma IntendedOpenFailsWithIOException(answer: Result<bool, FileError>)
    requires answer.Err? ==> IsIOFailure(answer.error)
    ensures OpenStreamIntended(answer).Fail? ==> IsIOFailure(OpenStreamIntended(answer).error)
  {
  }

  /** The two readings differ exactly on a null channel. */
  lemma OpenStreamReadingsDifferOnlyOnNull(answer: Result<bool, FileError>)
    ensures OpenStreamAsWritten(answer) != OpenStreamIntended(answer) <==> answer == Ok(false)
  {
  }

  // ---------------------------------------------------------------------
  // Permission bits
  // ---------------------------------------------------------------------

  /** `permission << (access * 3)` with Java int arithmetic (the shift
      distance is taken modulo 32). */
  function PermissionMask(access: bv32, permission: bv32): (mask: bv32)
    ensures access < 3 && permission < 8 ==> WithinFullPermissions(mask)
  {
    permission << ((access * 3) & 31)
  }

  /** ByteUtils.setBit: turn the bits of `bit` on or off in `value`. */
  function SetBit(value: bv32, bit: bv32, on: bool): (r: bv32)
  {
    if on then value | bit else value & !bit
  }

  /** Setting turns every bit of the mask on and leaves the others alone. */
  lemma SetBitOn(value: bv32, bit: bv32)
    ensures SetBit(value, bit, true) & bit == bit
    ensures SetBit(value, bit, true) & !bit == value & !bit
  {
  }

  /** Clearing turns every bit of the mask off and leaves the others alone. */
  lemma SetBitOff(value: bv32, bit: bv32)
    ensures SetBit(value, bit, false) & bit == 0
    ensures SetBit(value, bit, false) & !bit == value & !bit
  {
  }

  /** Whichever way the bit goes, the bits outside the mask are kept. */
  lemma SetBitKeepsOthers(value: bv32, bit: bv32, on: bool)
    ensures SetBit(value, bit, on) & !bit == value & !bit
  {
    if on {
      SetBitOn(value, bit);
    } else {
      SetBitOff(value, bit);
    }
  }

  // ---------------------------------------------------------------------
  // Directory listing
  // ---------------------------------------------------------------------

  /** A child handed to FileFactory.getFile: its path and the stat record
      its attributes are built from. */
  datatype Child = Child(path: string, status: KfsFileAttr)

  predicate IsDotEntry(name: string) {
    name == DOT || name == DOTDOT
  }

  predicate EndsWithSlash(s: string) {
    |s| > 0 && s[|s| - 1] == '/'
  }

  /** The parent path with a trailing "/" ensured. */
  function ParentPrefix(path: string): (p: string)
    ensures EndsWithSlash(p)
    ensures path <= p && |p| <= |path| + 1
    ensures EndsWithSlash(path) ==> p == path
  {
    if EndsWithSlash(path) then path else path + "/"
  }

  /** The children ls builds from the statuses, in order, skipping "." and "..". */
  function ListChildren(prefix: string, statuses: seq<KfsFileAttr>): seq<Child>
    decreases |statuses|
  {
    if statuses == [] then []
    else
      var last := statuses[|statuses| - 1];
      ListChildren(prefix, statuses[..|statuses| - 1])
        + (if IsDotEntry(last.filename) then [] else [Child(prefix + last.filename, last)])
  }

  /** Listing a concatenation lists each part in turn, so the order of the
      server's listing is kept. */
  lemma {:induction false} ListChildrenAppend(prefix: string, a: seq<KfsFileAttr>, b: seq<KfsFileAttr>)
    ensures ListChildren(prefix, a + b) == ListChildren(prefix, a) + ListChildren(prefix, b)
    decreases |b|
  {
    if b == [] {
      assert a + b == a;
    } else {
      var b' := b[..|b| - 1];
      assert (a + b)[..|a + b| - 1] == a + b';
      assert (a + b)[|a + b| - 1] == b[|b| - 1];
      ListChildrenAppend(prefix, a, b');
    }
  }

  /** A child is listed exactly when a status other than "." or ".." gives
      it, under the parent prefix followed by the status's file name. */
  lemma {:induction false} ListChildrenMembers(prefix: string, statuses: seq<KfsFileAttr>, c: Child)
    ensures c in ListChildren(prefix, statuses) <==>
      c.status in statuses && !IsDotEntry(c.status.filename) && c.path == prefix + c.status.filename
    decreases |statuses|
  {
    if statuses != [] {
      var init := statuses[..|statuses| - 1];
      var last := statuses[|statuses| - 1];
      assert statuses == init + [last];
      ListChildrenMembers(prefix, init, c);
    }
  }

  /** No listed child is "." or "..", and each one's path is the prefix
      followed by its name. */
  lemma {:induction false} ListChildrenWellFormed(prefix: string, statuses: seq<KfsFileAttr>)
    ensures forall c :: c in ListChildren(prefix, statuses) ==>
      !IsDotEntry(c.status.filename) && c.path == prefix + c.status.filename
  {
    forall c | c in ListChildren(prefix, statuses)
      ensures !IsDotEntry(c.status.filename) && c.path == prefix + c.status.filename
    {
      ListChildrenMembers(prefix, statuses, c);
    }
  }

  // ---------------------------------------------------------------------
  // The file object
  // ---------------------------------------------------------------------

  class QFSFile {
    /** The file's path on the server (fileURL.getPath()). */
    const path: string
    /** The shared connection to the metaserver. */
    const kfs: KfsAccess
    /** The cached attributes (QFSFileAttributes). */
    const attrs: FileAttributes
    /** True while an output stream on this file is open. */
    var isWriting: bool

    /** The object the inner QFSFileAttributes() constructor starts from,
        before its first fetch. */
    constructor Unsynced(path: string, kfs: KfsAccess)
      ensures this.path == path && this.kfs == kfs && !isWriting
      ensures fresh(attrs) && attrs.Snapshot() == Attrs(false, false, 0, 0, 0, "", "")
    {
      this.path, this.kfs := path, kfs;
      attrs := new FileAttributes();
      isWriting := false;
    }

    /** The constructor ls uses (through FileFactory): attributes are taken
        from the listing, and the file is known to exist. */
    constructor FromListing(path: string, kfs: KfsAccess, status: KfsFileAttr)
      ensures this.path == path && this.kfs == kfs && !isWriting
      ensures fresh(attrs) && attrs.Snapshot() == Fetched(status)
    {
      this.path, this.kfs := path, kfs;
      isWriting := false;
      attrs := new FileAttributes();
      new;
      SetAttributes(status);
      attrs.present := true;
    }

    /** The constructor taking a URL: the attributes are fetched from the
        server at once, and an AuthException aborts the construction. */
    static method Open(path: string, kfs: KfsAccess)
      returns (r: Result<QFSFile, FileError>, ghost stat: Result<KfsFileAttr, FileError>)
      modifies kfs
      ensures kfs.calls == old(kfs.calls) + [GetAttributesCall(path, stat)]
      ensures r.Err? <==> stat == Err(AuthError)
      ensures r.Err? ==> r.error == AuthError
      ensures stat.Ok? ==> path in kfs.files && stat.value == kfs.files[path]
      ensures r.Ok? ==> fresh(r.value) && fresh(r.value.attrs) && r.value.path == path && r.value.kfs == kfs
      ensures r.Ok? ==> !r.value.isWriting
      ensures r.Ok? ==> r.value.attrs.Snapshot() == AfterFetch(Attrs(false, false, 0, 0, 0, "", ""), stat)
    {
      var f := new QFSFile.Unsynced(path, kfs);
      var outcome, s := f.FetchAttributes();
      stat := s.value;
      if outcome.Fail? {
        r := Err(outcome.error);
      } else {
        r := Ok(f);
      }
    }

    /** setAttributes: copy a stat record into the cache, leaving `present` alone. */
    method SetAttributes(k: KfsFileAttr)
      modifies attrs
      ensures attrs.Snapshot() == Fetched(k).(present := old(attrs.present))
    {
      var fetched := Fetched(k);
      attrs.isDirectory := fetched.isDirectory;
      attrs.date := fetched.date;
      attrs.size := fetched.size;
      attrs.permissions := fetched.permissions;
      attrs.owner := fetched.owner;
      attrs.group := fetched.group;
    }

    /** setDefaultFileAttributes of QFSFileAttributes. */
    method SetDefaultFileAttributes()
      modifies attrs
      ensures attrs.Snapshot() == old(attrs.Snapshot()).(owner := "", group := "", permissions := DEFAULT_PERMISSIONS)
    {
      attrs.owner := "";
      attrs.group := "";
      attrs.permissions := DEFAULT_PERMISSIONS;
    }

    /** fetchAttributes: nothing happens while the file is being written;
        otherwise one stat, whose answer decides the new attributes.
        `stat` is the server's answer, None when no call was made. */
    method FetchAttributes() returns (r: Outcome<FileError>, ghost stat: Option<Result<KfsFileAttr, FileError>>)
      modifies attrs, kfs
      ensures kfs.files == old(kfs.files) && kfs.listings == old(kfs.listings)
      ensures stat.None? <==> isWriting
      ensures stat.None? ==> r.Pass? && attrs.Snapshot() == old(attrs.Snapshot()) && kfs.calls == old(kfs.calls)
      ensures stat.Some? ==> kfs.calls == old(kfs.calls) + [GetAttributesCall(path, stat.value)]
      ensures stat.Some? ==> attrs.Snapshot() == AfterFetch(old(attrs.Snapshot()), stat.value)
      ensures stat.Some? ==> r == FetchOutcome(stat.value)
      ensures stat.Some? && stat.value.Ok? ==> path in kfs.files && stat.value.value == kfs.files[path]
      ensures stat.Some? && path !in kfs.files ==> !attrs.present
    {
      if isWriting {
        return Pass, None;
      }
      var s := kfs.GetFileAttributes(path);
      stat := Some(s);
      match s {
        case Ok(k) =>
          SetAttributes(k);
          attrs.present := true;
          r := Pass;
        case Err(e) =>
          attrs.present := false;
          SetDefaultFileAttributes();
          r := if e == AuthError then Fail(AuthError) else Pass;
      }
    }

    /** updateAttributes: a fetch whose failures never reach the caller. */
    method UpdateAttributes() returns (ghost stat: Option<Result<KfsFileAttr, FileError>>)
      modifies attrs, kfs
      ensures kfs.files == old(kfs.files) && kfs.listings == old(kfs.listings)
      ensures stat.None? <==> isWriting
      ensures stat.None? ==> attrs.Snapshot() == old(attrs.Snapshot()) && kfs.calls == old(kfs.calls)
      ensures stat.Some? ==> kfs.calls == old(kfs.calls) + [GetAttributesCall(path, stat.value)]
      ensures stat.Some? ==> attrs.Snapshot() == AfterFetch(old(attrs.Snapshot()), stat.value)
    {
      var _, s := FetchAttributes();
      stat := s;
    }

    /** getOutputStream(append): open a channel, wrap it in a counting
        stream, and record locally that the file now exists, is empty, was
        modified now and is being written. `answer` is the wrapper's answer
        (always Ok when creating). A null library channel fails as the
        null check evidently intends, with an IOException
        (OpenStreamIntended); failures leave the file untouched. */
    method GetOutputStream(append: bool, now: int)
      returns (r: Result<CounterOutputStream, FileError>, ghost answer: Result<bool, FileError>)
      modifies this, attrs, kfs
      ensures !append ==> answer.Ok? && kfs.calls == old(kfs.calls) + [CreateCall(path, answer.value)]
      ensures append ==> kfs.calls == old(kfs.calls) + [AppendCall(path, answer)]
      ensures r.Ok? <==> answer == Ok(true)
      ensures r.Err? ==> Fail(r.error) == OpenStreamIntended(answer) && IsIOFailure(r.error)
      ensures r.Err? ==> attrs.Snapshot() == old(attrs.Snapshot()) && isWriting == old(isWriting)
      ensures r.Ok? ==> fresh(r.value) && r.value.file == this && isWriting
      ensures r.Ok? ==> attrs.Snapshot() == Opened(old(attrs.Snapshot()), now)
    {
      var opening: Result<bool, FileError>;
      if append {
        opening := kfs.AppendEx(path);
      } else {
        var hasChannel := kfs.Create(path);
        opening := Ok(hasChannel);
      }
      answer := opening;
      IntendedOpenFailsWithIOException(opening);
      var outcome := OpenStreamIntended(opening);
      if outcome.Fail? {
        return Err(outcome.error), answer;
      }
      var out := new CounterOutputStream(this);
      attrs.present := true;
      attrs.date := now;
      attrs.size := 0;
      isWriting := true;
      r := Ok(out);
    }

    /** mkdir: refused when the file already exists (no backend call) or
        when the server answers non-zero. */
    method Mkdir(now: int) returns (r: Outcome<FileError>, ghost ret: Option<int>)
      modifies attrs, kfs
      ensures ret.None? <==> old(attrs.present)
      ensures kfs.calls == old(kfs.calls) + (if ret.Some? then [MkdirsCall(path, ret.value)] else [])
      ensures r.Pass? <==> ret == Some(0)
      ensures r.Fail? ==> r.error == IOError && attrs.Snapshot() == old(attrs.Snapshot())
      ensures r.Pass? ==> attrs.Snapshot() == old(attrs.Snapshot()).(present := true, isDirectory := true, date := now, size := 0)
    {
      if attrs.present {
        return Fail(IOError), None;
      }
      var code := kfs.Mkdirs(path);
      ret := Some(code);
      if code != 0 {
        return Fail(IOError), ret;
      }
      attrs.present := true;
      attrs.isDirectory := true;
      attrs.date := now;
      attrs.size := 0;
      r := Pass;
    }

    /** delete: rmdirs when the server says the path is a directory, remove
        otherwise; a non-zero answer leaves the cache untouched. */
    method Delete() returns (r: Outcome<FileError>, ghost wasDir: bool, ghost ret: int)
      modifies attrs, kfs
      ensures wasDir == (path in old(kfs.files) && old(kfs.files)[path].isDirectory)
      ensures kfs.calls == old(kfs.calls) + [IsDirectoryCall(path, wasDir), if wasDir then RmdirsCall(path, ret) else RemoveCall(path, ret)]
      ensures r.Pass? <==> ret == 0
      ensures r.Fail? ==> r.error == IOError && attrs.Snapshot() == old(attrs.Snapshot())
      ensures r.Pass? ==> attrs.Snapshot() == Removed(old(attrs.Snapshot()))
    {
      var isDir := kfs.IsDirectory(path);
      var code: int;
      if isDir {
        code := kfs.Rmdirs(path);
      } else {
        code := kfs.Remove(path);
      }
      wasDir, ret := isDir, code;
      if code != 0 {
        return Fail(IOError), wasDir, ret;
      }
      attrs.present := false;
      attrs.isDirectory := false;
      attrs.size := 0;
      r := Pass;
    }

    /** renameTo: after the prerequisites (decided by code not part of this
        model and passed in as their outcome), an existing destination is
        deleted first, then the server renames, then the destination is
        re-fetched and the source marked removed. The steps are not atomic:
        a refused delete of the destination stops before the rename, and a
        failing rename leaves the destination deleted and the source
        untouched. `renameRet` is the server's answer to the rename (None
        when it was not reached); `deleteCalls` and `fetchCalls` are the
        calls issued before and after it. */
    method RenameTo(dest: QFSFile, prerequisites: Outcome<FileError>)
      returns (r: Outcome<FileError>, ghost renameRet: Option<int>,
               ghost deleteCalls: seq<KfsCall>, ghost fetchCalls: seq<KfsCall>)
      requires dest != this && dest.kfs == kfs && dest.attrs != attrs
      modifies attrs, dest.attrs, kfs
      ensures prerequisites.Fail? ==> r == prerequisites && renameRet.None? && kfs.calls == old(kfs.calls)
      ensures prerequisites.Fail? ==> dest.attrs.Snapshot() == old(dest.attrs.Snapshot())
      ensures r.Fail? ==> attrs.Snapshot() == old(attrs.Snapshot())
      ensures r.Pass? ==> renameRet == Some(0) && attrs.Snapshot() == Removed(old(attrs.Snapshot()))
      ensures renameRet.None? ==> r.Fail?
      ensures renameRet.Some? ==>
        kfs.calls == old(kfs.calls) + deleteCalls + [RenameCall(path, dest.path, renameRet.value)] + fetchCalls
      ensures renameRet.Some? && old(dest.attrs.present) ==> DeletedFirst(deleteCalls, dest.path)
      ensures renameRet.Some? && !old(dest.attrs.present) ==> deleteCalls == []
      ensures prerequisites.Pass? && renameRet.None? ==>
        && old(dest.attrs.present) && r == Fail(IOError) && DeleteRefused(deleteCalls, dest.path)
        && kfs.calls == old(kfs.calls) + deleteCalls
        && dest.attrs.Snapshot() == old(dest.attrs.Snapshot())
      ensures renameRet.Some? && renameRet.value != 0 ==> r == Fail(IOError) && fetchCalls == []
      ensures renameRet.Some? && fetchCalls == [] ==>
        dest.attrs.Snapshot() == AfterDestinationDelete(old(dest.attrs.Snapshot()))
      ensures renameRet == Some(0) ==> (fetchCalls == [] <==> dest.isWriting)
      ensures renameRet == Some(0) && fetchCalls == [] ==> r == Pass
      ensures renameRet == Some(0) && fetchCalls != [] ==>
        && |fetchCalls| == 1 && fetchCalls[0].GetAttributesCall? && fetchCalls[0].path == dest.path
        && r == FetchOutcome(fetchCalls[0].stat)
        && dest.attrs.Snapshot() == AfterFetch(
             AfterDestinationDelete(old(dest.attrs.Snapshot())), fetchCalls[0].stat)
    {
      deleteCalls, fetchCalls := [], [];
      if prerequisites.Fail? {
        return prerequisites, None, deleteCalls, fetchCalls;
      }
      ghost var start := kfs.calls;
      if dest.attrs.present {
        var deleted, _, _ := dest.Delete();
        deleteCalls := kfs.calls[|start|..];
        if deleted.Fail? {
          return deleted, None, deleteCalls, fetchCalls;
        }
      }
      assert kfs.calls == start + deleteCalls;
      var code := kfs.Rename(path, dest.path);
      renameRet := Some(code);
      if code != 0 {
        return Fail(IOError), renameRet, deleteCalls, fetchCalls;
      }
      ghost var afterRename := kfs.calls;
      var fetched, stat := dest.FetchAttributes();
      fetchCalls := kfs.calls[|afterRename|..];
      assert kfs.calls == afterRename + fetchCalls;
      if fetched.Fail? {
        return fetched, renameRet, deleteCalls, fetchCalls;
      }
      attrs.present := false;
      attrs.isDirectory := false;
      attrs.size := 0;
      r := Pass;
    }

    /** changeDate: the server's answer is ignored and the date is always
        recorded locally. */
    method ChangeDate(lastModified: int) returns (ghost ret: int)
      modifies attrs, kfs
      ensures kfs.calls == old(kfs.calls) + [SetModificationTimeCall(path, lastModified, ret)]
      ensures attrs.Snapshot() == old(attrs.Snapshot()).(date := lastModified)
    {
      ret := kfs.SetModificationTime(path, lastModified);
      attrs.date := lastModified;
    }

    /** changePermissions: chmod, whose code the library turns into an
        IOException or not; the cache changes only when no exception is raised. */
    method ChangePermissions(permissions: bv32) returns (r: Outcome<FileError>, ghost ret: int)
      modifies attrs, kfs
      ensures kfs.calls == old(kfs.calls) + [ChmodCall(path, permissions, ret), RetToIOExceptionCall(ret, path, r)]
      ensures r.Fail? ==> IsIOFailure(r.error) && attrs.Snapshot() == old(attrs.Snapshot())
      ensures r.Pass? ==> attrs.Snapshot() == old(attrs.Snapshot()).(permissions := permissions)
    {
      var code := kfs.Chmod(path, permissions);
      ret := code;
      r := kfs.RetToIOException(code, path);
      if r.Fail? {
        return;
      }
      attrs.permissions := permissions;
    }

    /** changePermission: switch one permission bit of one access class,
        starting from the cached permissions. */
    method ChangePermission(access: bv32, permission: bv32, enabled: bool)
      returns (r: Outcome<FileError>, ghost ret: int)
      modifies attrs, kfs
      ensures kfs.calls == old(kfs.calls) + [
        ChmodCall(path, SetBit(old(attrs.permissions), PermissionMask(access, permission), enabled), ret),
        RetToIOExceptionCall(ret, path, r)]
      ensures r.Fail? ==> attrs.Snapshot() == old(attrs.Snapshot())
      ensures r.Pass? ==> attrs.Snapshot() == old(attrs.Snapshot()).(
        permissions := SetBit(old(attrs.permissions), PermissionMask(access, permission), enabled))
    {
      var p := SetBit(attrs.permissions, PermissionMask(access, permission), enabled);
      r, ret := ChangePermissions(p);
    }

    /** ls(filter): the filter argument is ignored by the source, so it is
        not modelled. Refused unless the cache says the file exists and is a
        directory; then one raw stat (its return code ignored) decides
        between the server's listing and the stat record itself. `single` is
        the stat record, `listing` the readdirplus answer when one was asked for. */
    method Ls() returns (r: Result<seq<Child>, FileError>, ghost single: Option<KfsFileAttr>,
                         ghost listing: Option<Result<seq<KfsFileAttr>, FileError>>)
      modifies kfs
      ensures kfs.files == old(kfs.files) && kfs.listings == old(kfs.listings)
      ensures !(attrs.present && attrs.isDirectory) ==> r == Err(IOError) && single.None? && kfs.calls == old(kfs.calls)
      ensures attrs.present && attrs.isDirectory ==> single.Some?
      ensures single.Some? ==> (listing.Some? <==> single.value.isDirectory)
      ensures single.Some? ==> single.value == Unfilled || (path in kfs.files && single.value == kfs.files[path])
      ensures single.Some? ==>
        kfs.calls == old(kfs.calls) + [StatCall(path, single.value)] + (if listing.Some? then [ReadDirPlusCall(path, listing.value)] else [])
      ensures listing.Some? && listing.value.Err? ==> r == Err(listing.value.error)
      ensures listing.Some? && listing.value.Ok? ==> r == Ok(ListChildren(ParentPrefix(path), listing.value.value))
      ensures single.Some? && listing.None? ==> r == Ok(ListChildren(ParentPrefix(path), [single.value]))
      ensures r.Ok? ==> forall i :: 0 <= i < |r.value| ==>
        !IsDotEntry(r.value[i].status.filename) && r.value[i].path == ParentPrefix(path) + r.value[i].status.filename
    {
      if !attrs.present || !attrs.isDirectory {
        return Err(IOError), None, None;
      }
      var statuses: seq<KfsFileAttr>;
      var singleAttr := kfs.Stat(path);
      single := Some(singleAttr);
      if singleAttr.isDirectory {
        var answer := kfs.ReadDirPlus(path);
        listing := Some(answer);
        if answer.Err? {
          return Err(answer.error), single, listing;
        }
        statuses := answer.value;
      } else {
        listing := None;
        statuses := [singleAttr];
      }
      var parentPath := ParentPrefix(path);
      var children: seq<Child> := [];
      for i := 0 to |statuses|
        invariant children == ListChildren(parentPath, statuses[..i])
      {
        assert statuses[..i + 1][..i] == statuses[..i];
        var filename := statuses[i].filename;
        if filename == DOT || filename == DOTDOT {
          continue;
        }
        children := children + [Child(parentPath + filename, statuses[i])];
      }
      assert statuses[..|statuses|] == statuses;
      ListChildrenWellFormed(parentPath, statuses);
      r := Ok(children);
    }

    /** getRandomAccessInputStream: its length is the cached size, not the
        server's. */
    method GetRandomAccessInputStream() returns (s: QFSRandomAccessInputStream)
      modifies kfs
      ensures fresh(s) && s.length == attrs.size
      ensures kfs.calls == old(kfs.calls) + [OpenCall(path)]
    {
      s := new QFSRandomAccessInputStream(kfs, path, attrs.size);
    }

    /** getAppendOutputStream: not supported, refused before any backend call. */
    method GetAppendOutputStream() returns (r: Result<CounterOutputStream, FileError>)
      ensures r == Err(Unsupported(AppendFile))
    {
      r := Err(Unsupported(AppendFile));
    }

    /** getRandomAccessOutputStream: not supported. */
    method GetRandomAccessOutputStream() returns (r: Outcome<FileError>)
      ensures r == Fail(Unsupported(RandomWriteFile))
    {
      r := Fail(Unsupported(RandomWriteFile));
    }

    /** copyRemotelyTo: not supported. */
    method CopyRemotelyTo(dest: QFSFile) returns (r: Outcome<FileError>)
      ensures r == Fail(Unsupported(CopyRemotely))
    {
      r := Fail(Unsupported(CopyRemotely));
    }

    /** getFreeSpace: not supported. */
    method GetFreeSpace() returns (r: Result<int, FileError>)
      ensures r == Err(Unsupported(FileOperation.GetFreeSpace))
    {
      r := Err(Unsupported(FileOperation.GetFreeSpace));
    }

    /** getTotalSpace: not supported. */
    method GetTotalSpace() returns (r: Result<int, FileError>)
      ensures r == Err(Unsupported(FileOperation.GetTotalSpace))
    {
      r := Err(Unsupported(FileOperation.GetTotalSpace));
    }
  }

  /** The calls of a successful delete of `p`: the directory probe, then
      rmdirs or remove answering 0. */
  ghost predicate DeletedFirst(calls: seq<KfsCall>, p: string) {
    |calls| == 2 && calls[0].IsDirectoryCall? && calls[0].path == p
    && (calls[1] == RmdirsCall(p, 0) || calls[1] == RemoveCall(p, 0))
  }

  /** The calls of a refused delete of `p`: the directory probe, then
      rmdirs or remove answering non-zero. */
  ghost predicate DeleteRefused(calls: seq<KfsCall>, p: string) {
    |calls| == 2 && calls[0].IsDirectoryCall? && calls[0].path == p
    && (calls[1].RmdirsCall? || calls[1].RemoveCall?) && calls[1].path == p && calls[1].ret != 0
  }

  /** The CounterOutputStream returned by getOutputStream, reduced to its two
      hooks into the file: the byte counter and the close override. */
  class CounterOutputStream {
    const file: QFSFile

    constructor (file: QFSFile)
      ensures this.file == file
    {
      this.file := file;
    }

    /** ByteCounter.add: grow the cached size by the bytes just written and
        stamp the date. */
    method Add(nbBytes: nat, now: int)
      modifies file.attrs
      ensures file.attrs.Snapshot() == Counted(old(file.attrs.Snapshot()), Notification(nbBytes, now))
    {
      file.attrs.size := file.attrs.size + nbBytes;
      file.attrs.date := now;
    }

    /** close: the underlying channel stream is closed first, and only
        when that succeeds is the file no longer being written. A close
        that throws an IOException leaves the flag set, so later fetches
        of the attributes are still skipped. Whether the channel's close
        succeeds is chosen nondeterministically. */
    method Close() returns (r: Outcome<FileError>)
      modifies file
      ensures r.Fail? ==> r.error == IOError && file.isWriting == old(file.isWriting)
      ensures r.Pass? ==> !file.isWriting
    {
      var closed: bool := *;
      if !closed {
        return Fail(IOError);
      }
      file.isWriting := false;
      r := Pass;
    }
  }

  /** What read(b, off, len) returns for the channel's answer `res`, as
      written: a channel answer of 0 is turned into end of stream (-1),
      whatever `len` is. */
  function ReadCountAsWritten(len: nat, res: int): (r: int)
    requires -1 <= res <= len
    ensures r == -1 || 1 <= r <= len
    ensures res > 0 ==> r == res
  {
    if res == 0 then -1 else res
  }

  /** A request for zero bytes reports end of stream, even in the middle of
      a file; InputStream's contract asks for 0 there. */
  lemma ZeroLengthReadReportsEndOfStream(res: int)
    requires -1 <= res <= 0
    ensures ReadCountAsWritten(0, res) == -1
  {
  }

  /** read(b, off, len) as evidently intended: a zero-length request
      returns 0, and otherwise a channel answer of 0 means end of stream. */
  function ReadCountIntended(len: nat, res: int): (r: int)
    requires -1 <= res <= len
    ensures len == 0 ==> r == 0
    ensures len > 0 ==> r == -1 || 1 <= r <= len
    ensures res > 0 ==> r == res
  {
    if len == 0 then 0 else if res == 0 then -1 else res
  }

  /** The two readings differ exactly on zero-length requests. */
  lemma ReadCountReadingsDifferOnlyOnZeroLength(len: nat, res: int)
    requires -1 <= res <= len
    ensures ReadCountAsWritten(len, res) != ReadCountIntended(len, res) <==> len == 0
  {
  }

  /** `b & 0xff` on a Java byte: the byte is sign-extended to an int, and
      the mask keeps its low eight bits, giving the unsigned value. */
  function UnsignedByte(b: bv8): (v: int)
    ensures 0 <= v <= 255
    ensures v == b as int
  {
    var u := b as int;
    var signed := if u < 128 then u else u - 256;
    signed % 256
  }

  /** QFSRandomAccessInputStream: reads through a native channel. */
  class QFSRandomAccessInputStream {
    const channel: KfsInputChannel
    const length: int

    constructor (kfs: KfsAccess, path: string, length: int)
      modifies kfs
      ensures this.length == length && fresh(channel)
      ensures kfs.calls == old(kfs.calls) + [OpenCall(path)]
    {
      var ch := kfs.Open(path);
      channel := ch;
      this.length := length;
    }

    /** read(b, off, len), following ReadCountIntended: a zero-length
        request returns 0, otherwise a channel answer of 0 is reported as
        end of stream (-1), so a non-empty request never returns 0.
        `res` is the channel's answer. */
    method ReadInto(b: array<bv8>, off: int, len: int) returns (r: int, ghost res: int)
      requires 0 <= off && 0 <= len && off + len <= b.Length
      modifies b
      ensures -1 <= res <= len
      ensures r == ReadCountIntended(len, res)
      ensures len == 0 ==> r == 0
      ensures len > 0 ==> r == -1 || 1 <= r <= len
      ensures forall i :: 0 <= i < b.Length && !(off <= i < off + len) ==> b[i] == old(b[i])
    {
      var n := channel.Read(b, off, len);
      res := n;
      r := if len == 0 then 0 else if n == 0 then -1 else n;
    }

    /** read(): a one-byte read; the byte as 0..255 when it delivered one
        byte, -1 otherwise. `res` is the one-byte read's result and `byte`
        the byte it left in the buffer. */
    method Read() returns (r: int, ghost res: int, ghost byte: bv8)
      ensures res == -1 || res == 1
      ensures r == (if res == 1 then UnsignedByte(byte) else -1)
      ensures -1 <= r <= 255
    {
      var b := new bv8[1];
      var n, _ := ReadInto(b, 0, 1);
      res, byte := n, b[0];
      if n == 1 {
        return UnsignedByte(b[0]), res, byte;
      }
      return -1, res, byte;
    }
  }

  /** A writer's view of the facade: create an output stream, write some
      bytes, let another party poll the attributes while the stream is
      open, then close. The poll does not reach the server and cannot
      overwrite the locally counted size. When the close fails, the file
      stays marked as being written. */
  method WriteAndPoll(f: QFSFile, nbBytes: nat, now: int) returns (r: Outcome<FileError>, ghost hasChannel: bool)
    modifies f, f.attrs, f.kfs
    ensures f.kfs.calls == old(f.kfs.calls) + [CreateCall(f.path, hasChannel)]
    ensures !hasChannel ==> r == Fail(IOError)
    ensures !hasChannel ==> f.attrs.Snapshot() == old(f.attrs.Snapshot()) && f.isWriting == old(f.isWriting)
    ensures hasChannel ==> f.attrs.present && f.attrs.size == nbBytes && f.attrs.date == now
    ensures hasChannel ==> (r.Pass? <==> !f.isWriting)
  {
    var stream, answer := f.GetOutputStream(false, now);
    hasChannel := answer.value;
    if stream.Err? {
      return Fail(stream.error), hasChannel;
    }
    var out := stream.value;
    out.Add(nbBytes, now);
    var _ := f.UpdateAttributes();
    r := out.Close();
  }
}
