# QFS and HDFS file adapters of muCommander, modelled in Dafny

This project models the core of muCommander's adapters for the Quantcast
File System (QFS) and the Hadoop Distributed File System (HDFS). It covers
four parts:

- **The QFS file facade** (`Qfs`, in `qfs_file.dfy`). A `QFSFile` caches the
  attributes of one remote path: exists, directory, date, size, permissions,
  owner and group. It keeps them in step with its own writes, mkdir, delete,
  rename, date and permission changes. It re-reads them from the metaserver
  only while no output stream is open. Directory listings skip `.` and `..`
  and build each child's path under the parent path.
- **The QFS backend** (`KfsBackend`, in `kfs_access.dfy`). The metaserver, as
  the facade sees it through its `KfsAccess` wrapper, is an abstract map from
  path to stat record, plus a listing per directory. Return codes and
  failures are chosen nondeterministically. Every call is logged with its
  answer in `calls`, so each facade operation states which calls it made and
  how it reacted to each answer.
- **The Hadoop wrapper and HDFS identity** (`Reflection`, `HadoopWrapper`,
  `Hdfs`).
  - The wrapper's shared catch block: an invocation failure whose cause is
    an IOException is rethrown as that cause; anything else is wrapped in a
    RuntimeException.
  - The boolean pass-through of mkdirs, delete and rename.
  - Both `listStatus` overloads, which keep null and copy the array element
    by element.
  - How HDFS picks the default user and group, the per-URL user, and the
    default attributes.
  - The `hadoop.job.ugi` property set before the FileSystem is obtained.
- **Jar discovery** (`JarLoader`, in `jar_class_loader.dfy`). A recursive walk
  over a file tree fills a name-keyed map in place with the locations of
  `.jar` files (case-insensitive). A later file of the same name overwrites
  an earlier one.

Objects the source updates in place are classes in the model:

- `QFSFile` and its attributes
- the backend
- the counting output stream
- `Configuration`
- the jar location map

Their methods are proved against specification functions: `Fetched`,
`AfterFetch`, `Opened`, `Counted`, `Removed`, `ListChildren`, `JarNodes` and
`PutAll`. The lemmas beside those functions state what the source promises.

Wall-clock time is passed in as `now`. The native QFS library, the Hadoop
library and the file system are inputs: the backend's nondeterministic
answers, the `Backend` record of abstract functions, and the `Node` tree.

## Model

| member | source | states |
|---|---|---|
| Commons.FileAttributes.constructor | src/main/com/mucommander/commons/file/impl/qfs/QFSFile.java:385-387 | attributes start absent, not a directory, zero date and size, no permissions, empty owner and group |
| Qfs.Fetched | src/main/com/mucommander/commons/file/impl/qfs/QFSFile.java:429-438 | a successful stat makes the file exist, copies directory flag, date, owner and group, and gives directories size 0 and files the server's size |
| Qfs.FetchedPermissions | src/main/com/mucommander/commons/file/impl/qfs/QFSFile.java:434-435 | cached permissions are the mode cut to its nine low bits: none above octal 0777, none below lost |
| Qfs.Absent | src/main/com/mucommander/commons/file/impl/qfs/QFSFile.java:413-416 | setExists(false) then setDefaultFileAttributes: not existing, owner and group "", permissions 0664; directory flag, date and size kept |
| Qfs.Removed | src/main/com/mucommander/commons/file/impl/qfs/QFSFile.java:233-236 | a removed file: not existing, not a directory, size 0; date, permissions, owner and group kept |
| Qfs.AfterDestinationDelete | src/main/com/mucommander/commons/file/impl/qfs/QFSFile.java:245-248 | the rename destination after its optional delete: removed when it existed, unchanged otherwise, and never existing |
| Qfs.AfterFetch | src/main/com/mucommander/commons/file/impl/qfs/QFSFile.java:409-421 | after a fetch the file exists exactly when the stat succeeded; a failed fetch keeps directory flag, date and size, and resets owner and group to "" and permissions to 0664 |
| Qfs.FetchOutcome | src/main/com/mucommander/commons/file/impl/qfs/QFSFile.java:413-421 | a fetch fails exactly when the stat failed with an AuthException, and then rethrows it |
| Qfs.AfterFetchIdempotent | src/main/com/mucommander/commons/file/impl/qfs/QFSFile.java:402-422 | fetching twice with the same answer is the same as fetching once |
| Qfs.AfterFetchPermissionsBounded | src/main/com/mucommander/commons/file/impl/qfs/QFSFile.java:429-444 | whichever way a fetch goes, the cached permissions stay within octal 0777, and a failed fetch leaves exactly 0664 |
| Qfs.Opened | src/main/com/mucommander/commons/file/impl/qfs/QFSFile.java:120-125 | opening a stream: the file exists, is dated now and is empty; directory flag, permissions, owner and group kept |
| Qfs.OpenStreamAsWritten | src/main/com/mucommander/commons/file/impl/qfs/QFSFile.java:93-103 | as written, only a channel lets the stream open; an append failure is passed on; a null channel fails with a NullPointerException |
| Qfs.NullChannelEscapesUnchecked | src/main/com/mucommander/commons/file/impl/qfs/QFSFile.java:98-102 | as written, a null library channel escapes as an unchecked NullPointerException, not an IOException |
| Qfs.OpenStreamIntended | src/main/com/mucommander/commons/file/impl/qfs/QFSFile.java:93-103 | only a channel lets the stream open; an append failure is passed on; a null channel fails with an IOException |
| Qfs.IntendedOpenFailsWithIOException | src/main/com/mucommander/commons/file/impl/qfs/QFSFile.java:98-100 | with the intended reading, opening a stream fails only with an IOException |
| Qfs.OpenStreamReadingsDifferOnlyOnNull | src/main/com/mucommander/commons/file/impl/qfs/QFSFile.java:98-102 | the two readings differ exactly on a null library channel |
| Qfs.Counted | src/main/com/mucommander/commons/file/impl/qfs/QFSFile.java:107-110 | one byte-count notification: the size grows by exactly the bytes reported, the date becomes its time, existence and directory flag are kept |
| Qfs.CountAll | src/main/com/mucommander/commons/file/impl/qfs/QFSFile.java:107-110 | a run of notifications never shrinks the size and keeps existence |
| Qfs.CountAllAdds | src/main/com/mucommander/commons/file/impl/qfs/QFSFile.java:107-110 | byte-count notifications grow the size by exactly the bytes reported, stamp the last date, and change nothing else |
| Qfs.SizeAfterWriting | src/main/com/mucommander/commons/file/impl/qfs/QFSFile.java:107-125 | after opening a stream and reporting k bytes, the file exists and its size is k |
| Qfs.PermissionMask | src/main/com/mucommander/commons/file/impl/qfs/QFSFile.java:272-276 | for access 0..2 and a 3-bit permission, the Java-int shifted mask lies within octal 0777 |
| Qfs.SetBit | src/main/com/mucommander/commons/file/impl/qfs/QFSFile.java:273-274 | the ByteUtils.setBit stand-in: or-in the mask when enabling, and-out its complement when disabling (properties in SetBitOn, SetBitOff and SetBitKeepsOthers) |
| Qfs.SetBitOn | src/main/com/mucommander/commons/file/impl/qfs/QFSFile.java:273-274 | enabling turns every mask bit on and keeps the other bits |
| Qfs.SetBitOff | src/main/com/mucommander/commons/file/impl/qfs/QFSFile.java:273-274 | disabling turns every mask bit off and keeps the other bits |
| Qfs.SetBitKeepsOthers | src/main/com/mucommander/commons/file/impl/qfs/QFSFile.java:273-274 | whichever way the bit goes, bits outside the mask are unchanged |
| Qfs.ParentPrefix | src/main/com/mucommander/commons/file/impl/qfs/QFSFile.java:350-353 | the parent prefix ends with "/", extends the path by at most that slash, and is the path itself when it already ends with "/" |
| Qfs.ListChildren | src/main/com/mucommander/commons/file/impl/qfs/QFSFile.java:357-366 | the loop of ls over the listing: one child per status other than "." and "..", in order, path = prefix + filename (properties in ListChildrenAppend, ListChildrenMembers and ListChildrenWellFormed) |
| Qfs.ListChildrenAppend | src/main/com/mucommander/commons/file/impl/qfs/QFSFile.java:357-366 | listing a concatenation lists each part in turn, so the server's order is kept |
| Qfs.ListChildrenMembers | src/main/com/mucommander/commons/file/impl/qfs/QFSFile.java:357-366 | a child is listed exactly when some status other than "." or ".." gives it, with path = prefix + filename |
| Qfs.ListChildrenWellFormed | src/main/com/mucommander/commons/file/impl/qfs/QFSFile.java:359-364 | no listed child is "." or "..", and every child path is prefix + its name |
| Qfs.QFSFile.Unsynced | src/main/com/mucommander/commons/file/impl/qfs/QFSFile.java:385-387 | a new file, before its first fetch, keeps its path and connection, is not being written, and has fresh attributes that are absent, empty and without permissions |
| Qfs.QFSFile.FromListing | src/main/com/mucommander/commons/file/impl/qfs/QFSFile.java:393-400 | a file built from a listing entry has exactly the fetched attributes of that entry and exists |
| Qfs.QFSFile.Open | src/main/com/mucommander/commons/file/impl/qfs/QFSFile.java:63-91 | construction issues one stat, fails exactly on an AuthException, and otherwise yields a file whose attributes are the fetch result |
| Qfs.QFSFile.SetAttributes | src/main/com/mucommander/commons/file/impl/qfs/QFSFile.java:429-438 | copies a stat record into the cache as `Fetched` does, leaving `present` alone |
| Qfs.QFSFile.SetDefaultFileAttributes | src/main/com/mucommander/commons/file/impl/qfs/QFSFile.java:440-444 | owner and group become "", permissions 0664, nothing else changes |
| Qfs.QFSFile.FetchAttributes | src/main/com/mucommander/commons/file/impl/qfs/QFSFile.java:402-422 | while writing, no call and no change; otherwise one stat, attributes become AfterFetch of the answer, only an AuthException is rethrown, and a path unknown to the server ends absent |
| Qfs.QFSFile.UpdateAttributes | src/main/com/mucommander/commons/file/impl/qfs/QFSFile.java:460-468 | the same state change as a fetch, with no failure reaching the caller |
| Qfs.QFSFile.GetOutputStream | src/main/com/mucommander/commons/file/impl/qfs/QFSFile.java:93-126 | create or append_ex is called; the stream opens exactly when a channel comes back; an append failure or a null channel fails with an IOException (the intended reading, see Findings) and changes nothing; success leaves the file existing, empty, dated now and being written |
| Qfs.CounterOutputStream.constructor | src/main/com/mucommander/commons/file/impl/qfs/QFSFile.java:104-118 | the stream counts into the file it was opened on |
| Qfs.CounterOutputStream.Add | src/main/com/mucommander/commons/file/impl/qfs/QFSFile.java:107-110 | one notification of n bytes: size grows by n and the date becomes now |
| Qfs.CounterOutputStream.Close | src/main/com/mucommander/commons/file/impl/qfs/QFSFile.java:113-117 | when the channel stream closes, the writing flag is cleared; when its close throws an IOException, the flag is left as it was |
| Qfs.WriteAndPoll | src/main/com/mucommander/commons/file/impl/qfs/QFSFile.java:93-126 | create, write n bytes, poll, close: the only server call is the create and the poll makes none; without a channel it fails with nothing changed; with one the file ends existing, of size n, dated now, and no longer being written exactly when the close succeeds |
| Qfs.QFSFile.Mkdir | src/main/com/mucommander/commons/file/impl/qfs/QFSFile.java:214-223 | an existing file fails with no call; otherwise mkdirs is called and only a 0 answer succeeds, leaving an existing empty directory dated now; failure changes nothing |
| Qfs.QFSFile.Delete | src/main/com/mucommander/commons/file/impl/qfs/QFSFile.java:225-237 | rmdirs when the server says directory, remove otherwise; non-zero fails with nothing changed; success leaves the file absent, not a directory, size 0 |
| Qfs.QFSFile.RenameTo | src/main/com/mucommander/commons/file/impl/qfs/QFSFile.java:239-262 | prerequisites first; an existing destination is deleted before the rename, and a refused delete fails with no rename and both files unchanged; a non-zero rename fails with the source untouched and the destination deleted; success re-fetches the destination unless it is being written, when it stays as the delete left it, and marks the source removed; the source is unchanged on every failure |
| Qfs.QFSFile.ChangeDate | src/main/com/mucommander/commons/file/impl/qfs/QFSFile.java:264-269 | the server's answer is ignored and the date is always set locally |
| Qfs.QFSFile.ChangePermissions | src/main/com/mucommander/commons/file/impl/qfs/QFSFile.java:373-378 | chmod then the library's code check; on failure nothing changes, on success the permissions are the ones given |
| Qfs.QFSFile.ChangePermission | src/main/com/mucommander/commons/file/impl/qfs/QFSFile.java:271-276 | chmod is asked for the cached permissions with the shifted bit set or cleared, and only that value is cached on success |
| Qfs.QFSFile.Ls | src/main/com/mucommander/commons/file/impl/qfs/QFSFile.java:331-371 | refused unless existing and a directory; otherwise stat, then readdirplus when the stat says directory or the stat record alone; children are ListChildren of the parent prefix, with no "." or ".." |
| Qfs.QFSFile.GetRandomAccessInputStream | src/main/com/mucommander/commons/file/impl/qfs/QFSFile.java:288-291 | opens the file, and the stream's length is the cached size |
| Qfs.QFSFile.GetAppendOutputStream | src/main/com/mucommander/commons/file/impl/qfs/QFSFile.java:299-303 | always Unsupported(append), before any backend call |
| Qfs.QFSFile.GetRandomAccessOutputStream | src/main/com/mucommander/commons/file/impl/qfs/QFSFile.java:305-309 | always Unsupported(random write) |
| Qfs.QFSFile.CopyRemotelyTo | src/main/com/mucommander/commons/file/impl/qfs/QFSFile.java:311-315 | always Unsupported(remote copy) |
| Qfs.QFSFile.GetFreeSpace | src/main/com/mucommander/commons/file/impl/qfs/QFSFile.java:317-320 | always Unsupported(free space) |
| Qfs.QFSFile.GetTotalSpace | src/main/com/mucommander/commons/file/impl/qfs/QFSFile.java:322-325 | always Unsupported(total space) |
| Qfs.QFSRandomAccessInputStream.constructor | src/main/com/mucommander/commons/file/impl/qfs/QFSFile.java:476-480 | opens the path once and keeps the given length |
| Qfs.ReadCountAsWritten | src/main/com/mucommander/commons/file/impl/qfs/QFSFile.java:507-515 | as written, a channel answer of 0 becomes -1 whatever the length asked for; a positive answer is passed on |
| Qfs.ZeroLengthReadReportsEndOfStream | src/main/com/mucommander/commons/file/impl/qfs/QFSFile.java:510-513 | as written, a zero-length request reports end of stream |
| Qfs.ReadCountIntended | src/main/com/mucommander/commons/file/impl/qfs/QFSFile.java:507-515 | a zero-length request returns 0; otherwise a channel answer of 0 is end of stream and a positive answer is passed on |
| Qfs.ReadCountReadingsDifferOnlyOnZeroLength | src/main/com/mucommander/commons/file/impl/qfs/QFSFile.java:507-515 | the two readings differ exactly on zero-length requests |
| Qfs.UnsignedByte | src/main/com/mucommander/commons/file/impl/qfs/QFSFile.java:501-502 | `b & 0xff` of a sign-extended Java byte is its unsigned value 0..255 |
| Qfs.QFSRandomAccessInputStream.ReadInto | src/main/com/mucommander/commons/file/impl/qfs/QFSFile.java:507-515 | follows ReadCountIntended: a zero-length request returns 0; otherwise a channel answer of 0 becomes -1, so the result is -1 or 1..len; bytes outside b[off..off+len) are untouched |
| Qfs.QFSRandomAccessInputStream.Read | src/main/com/mucommander/commons/file/impl/qfs/QFSFile.java:497-505 | the byte read, as its unsigned value, exactly when the one-byte read returned 1, and -1 otherwise |
| KfsBackend.KfsAccess.constructor | src/main/com/mucommander/commons/file/impl/qfs/wrapper/KfsAccess.java:84-96 | a connection to a server with the given records and an empty call log |
| KfsBackend.KfsAccess.Create | src/main/com/mucommander/commons/file/impl/qfs/wrapper/KfsAccess.java:164-173 | logs the create with whether the library handed back a channel or null; the wrapper object itself is always there |
| KfsBackend.KfsAccess.AppendEx | src/main/com/mucommander/commons/file/impl/qfs/wrapper/KfsAccess.java:148-162 | logs the append with its answer: an IOException, or whether the library handed back a channel or null |
| KfsBackend.KfsAccess.IsDirectory | src/main/com/mucommander/commons/file/impl/qfs/wrapper/KfsAccess.java:175-182 | answers from the server's records, changing nothing |
| KfsBackend.KfsAccess.Mkdirs | src/main/com/mucommander/commons/file/impl/qfs/wrapper/KfsAccess.java:184-191 | logs the call and its return code |
| KfsBackend.KfsAccess.Rmdirs | src/main/com/mucommander/commons/file/impl/qfs/wrapper/KfsAccess.java:193-200 | logs the call and its return code |
| KfsBackend.KfsAccess.Remove | src/main/com/mucommander/commons/file/impl/qfs/wrapper/KfsAccess.java:202-209 | logs the call and its return code |
| KfsBackend.KfsAccess.Rename | src/main/com/mucommander/commons/file/impl/qfs/wrapper/KfsAccess.java:211-218 | logs the call and its return code |
| KfsBackend.KfsAccess.SetModificationTime | src/main/com/mucommander/commons/file/impl/qfs/wrapper/KfsAccess.java:220-227 | logs the call and its return code |
| KfsBackend.KfsAccess.Chmod | src/main/com/mucommander/commons/file/impl/qfs/wrapper/KfsAccess.java:274-281 | logs the call and its return code |
| KfsBackend.KfsAccess.RetToIOException | src/main/com/mucommander/commons/file/impl/qfs/wrapper/KfsAccess.java:260-272 | the library decides; a failure is an IOException, and the server is unchanged |
| KfsBackend.KfsAccess.GetFileAttributes | src/main/com/mucommander/commons/file/impl/qfs/wrapper/KfsAccess.java:292-296 | success reports the server's record; a path the server does not know always fails with an IOException |
| KfsBackend.KfsAccess.Stat | src/main/com/mucommander/commons/file/impl/qfs/wrapper/KfsAccess.java:229-236 | the record is the server's or still unfilled (filename "null"); the return code is not looked at |
| KfsBackend.KfsAccess.ReadDirPlus | src/main/com/mucommander/commons/file/impl/qfs/wrapper/KfsAccess.java:238-258 | success carries the directory's listing; an unlistable path fails with an IOException (the intended reading, see Findings) |
| KfsBackend.KfsAccess.Open | src/main/com/mucommander/commons/file/impl/qfs/wrapper/KfsAccess.java:283-290 | a fresh read channel; the server is unchanged |
| KfsBackend.KfsInputChannel.Read | src/main/com/mucommander/commons/file/impl/qfs/wrapper/KfsInputChannel.java:86-98 | returns -1..len and writes only b[off..off+len) |
| KfsBackend.ReadDirPlusAsWritten | src/main/com/mucommander/commons/file/impl/qfs/wrapper/KfsAccess.java:238-258 | a listing is passed through; a thrown failure goes through the shared translation |
| KfsBackend.NullListingEscapesUnchecked | src/main/com/mucommander/commons/file/impl/qfs/wrapper/KfsAccess.java:241-256 | as written, a null listing comes out as an unchecked RuntimeException, not an IOException |
| KfsBackend.ReadDirPlusIntended | src/main/com/mucommander/commons/file/impl/qfs/wrapper/KfsAccess.java:238-258 | same as written for listings and thrown failures |
| KfsBackend.IntendedReadDirPlusFailsWithIOException | src/main/com/mucommander/commons/file/impl/qfs/wrapper/KfsAccess.java:241-243 | when intended, every failure after a returned answer is an IOException; only a thrown failure without an IOException cause escapes unchecked |
| KfsBackend.ReadDirPlusReadingsDifferOnlyOnNull | src/main/com/mucommander/commons/file/impl/qfs/wrapper/KfsAccess.java:238-258 | the two readings differ exactly on a null listing |
| Reflection.WrapInRuntime | src/main/com/mucommander/commons/file/impl/hadoop/wrapper/FileSystem.java:104-106 | the wrapper is an unchecked exception whose cause is the original failure |
| Reflection.Translate | src/main/com/mucommander/commons/file/impl/hadoop/wrapper/FileSystem.java:100-106 | the result is an IOException exactly when the failure's cause is one, and then it is that very cause; otherwise it is the failure wrapped |
| Reflection.TranslateOnlyIOOrUnchecked | src/main/com/mucommander/commons/file/impl/hadoop/wrapper/FileSystem.java:100-106 | only IOExceptions or unchecked exceptions come out of the catch block |
| Reflection.TranslateKeepsFailure | src/main/com/mucommander/commons/file/impl/hadoop/wrapper/FileSystem.java:100-106 | the thrown exception is the failure's own cause or carries the failure as its cause |
| Reflection.TranslateWrapsCauselessIOException | src/main/com/mucommander/commons/file/impl/hadoop/wrapper/FileSystem.java:100-106 | an IOException without a cause is not unwrapped but wrapped |
| Reflection.Call | src/main/com/mucommander/commons/file/impl/hadoop/wrapper/FileSystem.java:96-108 | a bound call succeeds exactly when the invocation returns, with its value; otherwise it fails with the translated failure |
| Reflection.CallBoolean | src/main/com/mucommander/commons/file/impl/hadoop/wrapper/FileSystem.java:134-146 | a returned boolean passes unchanged; a null answer fails with a wrapped NullPointerException; a thrown failure is translated |
| Reflection.CallBooleanAgreesWithCall | src/main/com/mucommander/commons/file/impl/hadoop/wrapper/FileSystem.java:134-146 | when the library answers with a boolean or throws, the boolean pass-through agrees with the plain bound call |
| HadoopWrapper.Configuration.constructor | src/main/com/mucommander/commons/file/impl/hadoop/wrapper/Configuration.java:36-43 | a new configuration has no properties set through the wrapper |
| HadoopWrapper.Configuration.SetStrings | src/main/com/mucommander/commons/file/impl/hadoop/wrapper/Configuration.java:80-87 | the property holds exactly the given values; others are kept |
| HadoopWrapper.FileSystem.constructor | src/main/com/mucommander/commons/file/impl/hadoop/wrapper/FileSystem.java:64-77 | the wrapper holds the library object |
| HadoopWrapper.FileSystem.Get | src/main/com/mucommander/commons/file/impl/hadoop/wrapper/FileSystem.java:68-77 | a returned object is wrapped in a fresh FileSystem; every failure is wrapped in a RuntimeException, never unwrapped |
| HadoopWrapper.FileSystem.Mkdirs | src/main/com/mucommander/commons/file/impl/hadoop/wrapper/FileSystem.java:134-146 | the library's boolean unchanged; a thrown failure translated |
| HadoopWrapper.FileSystem.Delete | src/main/com/mucommander/commons/file/impl/hadoop/wrapper/FileSystem.java:157-169 | the library's boolean unchanged; a thrown failure translated |
| HadoopWrapper.FileSystem.Rename | src/main/com/mucommander/commons/file/impl/hadoop/wrapper/FileSystem.java:175-187 | the library's boolean unchanged; a thrown failure translated |
| HadoopWrapper.FileSystem.ListStatus | src/main/com/mucommander/commons/file/impl/hadoop/wrapper/FileSystem.java:241-261 | null exactly when the library answers null; otherwise a new array of the same length whose element i wraps library element i; failures translated |
| HadoopWrapper.FileSystem.ListStatusFiltered | src/main/com/mucommander/commons/file/impl/hadoop/wrapper/FileSystem.java:276-297 | the same for the filtered overload |
| HadoopWrapper.WrapListing | src/main/com/mucommander/commons/file/impl/hadoop/wrapper/FileSystem.java:243-251 | null kept, failure translated, array wrapped element by element in order |
| HadoopWrapper.WrapsAllUnwraps | src/main/com/mucommander/commons/file/impl/hadoop/wrapper/FileSystem.java:247-250 | unwrapping the result gives back the library's array, one for one |
| Hdfs.DefaultUsername | src/main/com/mucommander/commons/file/impl/hadoop/HDFSFile.java:64-81 | the modern short name when the legacy class is absent, the legacy login name when present, the OS user name when the chosen call throws |
| Hdfs.DefaultUsernameConsultsOneApi | src/main/com/mucommander/commons/file/impl/hadoop/HDFSFile.java:66-76 | the API not chosen has no influence on the default user |
| Hdfs.DefaultGroup | src/main/com/mucommander/commons/file/impl/hadoop/HDFSFile.java:83 | the configured superuser group, or "supergroup" when none is configured |
| Hdfs.StaticIdentity | src/main/com/mucommander/commons/file/impl/hadoop/HDFSFile.java:61-85 | the static initialiser sets the default user and the default group as above |
| Hdfs.GetUsername | src/main/com/mucommander/commons/file/impl/hadoop/HDFSFile.java:103-110 | the URL's login when credentials are present and the login is non-empty, the default user otherwise |
| Hdfs.GetUsernameNonEmpty | src/main/com/mucommander/commons/file/impl/hadoop/HDFSFile.java:103-110 | the user is never empty unless the default user is |
| Hdfs.PasswordIrrelevant | src/main/com/mucommander/commons/file/impl/hadoop/HDFSFile.java:103-110 | the password never influences the user |
| Hdfs.GetGroup | src/main/com/mucommander/commons/file/impl/hadoop/HDFSFile.java:112-121 | always the default group |
| Hdfs.GroupIgnoresUrl | src/main/com/mucommander/commons/file/impl/hadoop/HDFSFile.java:112-121 | any two URLs get the same group |
| Hdfs.DefaultPermissionsMasked | src/main/com/mucommander/commons/file/impl/hadoop/HDFSFile.java:57-59 | the default permissions fit in octal 0777 and keep the nine low bits of the umasked value |
| Hdfs.DefaultPermissions | src/main/com/mucommander/commons/file/impl/hadoop/HDFSFile.java:57-59 | the umasked short widened to an int and masked with octal 0777 (properties in DefaultPermissionsMasked) |
| Hdfs.SetDefaultFileAttributes | src/main/com/mucommander/commons/file/impl/hadoop/HDFSFile.java:149-154 | owner is the per-URL user, group the default group, permissions the defaults; nothing else changes |
| Hdfs.GetHadoopFileSystem | src/main/com/mucommander/commons/file/impl/hadoop/HDFSFile.java:128-147 | FileSystem.get receives a fresh configuration whose UGI property is exactly [user, group], and its outcome is returned |
| JarLoader.Accept | src/main/com/mucommander/commons/file/util/JarClassLoader.java:25-33 | the filter: directories pass, and other files pass when their name ends with ".jar" ignoring case (properties in AcceptIsLoweredSuffix and AcceptsAnyCaseOfJar) |
| JarLoader.EndsWithIgnoreCase | src/main/com/mucommander/commons/file/util/JarClassLoader.java:31 | the suffix test of the filter: the last |suffix| characters match the suffix ignoring ASCII case |
| JarLoader.Lowered | src/main/com/mucommander/commons/file/util/JarClassLoader.java:31 | lowering keeps the length and lowers each character in place |
| JarLoader.AcceptIsLoweredSuffix | src/main/com/mucommander/commons/file/util/JarClassLoader.java:25-33 | a non-directory passes exactly when its lowered name ends with ".jar" |
| JarLoader.AcceptsAnyCaseOfJar | src/main/com/mucommander/commons/file/util/JarClassLoader.java:25-33 | any name ending in ".jar" in any mix of case passes, whatever precedes it |
| JarLoader.Filter | src/main/com/mucommander/commons/file/util/JarClassLoader.java:66 | the listed entries are exactly the accepted ones |
| JarLoader.ListFiles | src/main/com/mucommander/commons/file/util/JarClassLoader.java:66-69 | only a listable directory gives a listing, and it is the filtered entries |
| JarLoader.JarNodes | src/main/com/mucommander/commons/file/util/JarClassLoader.java:58-78 | the nodes the walk stores, in order: a root file itself, nothing for an unlistable root, and for a directory what its loop collects |
| JarLoader.CollectEntries | src/main/com/mucommander/commons/file/util/JarClassLoader.java:70-77 | the loop over a directory's accepted entries: walk a subdirectory, store anything else, in listing order |
| JarLoader.PutAll | src/main/com/mucommander/commons/file/util/JarClassLoader.java:62-75 | a run of HashMap.put calls keyed by file name, in order |
| JarLoader.PutAllAppend | src/main/com/mucommander/commons/file/util/JarClassLoader.java:58-78 | storing two runs of nodes is storing the first, then the second |
| JarLoader.PutAllKeys | src/main/com/mucommander/commons/file/util/JarClassLoader.java:52-78 | the keys are the old keys plus the stored names |
| JarLoader.PutAllLastWins | src/main/com/mucommander/commons/file/util/JarClassLoader.java:52-78 | a name maps to the location of the last node stored under it |
| JarLoader.PutAllKeepsOthers | src/main/com/mucommander/commons/file/util/JarClassLoader.java:52-78 | a name no stored node carries keeps its location |
| JarLoader.CollectEntriesMembers | src/main/com/mucommander/commons/file/util/JarClassLoader.java:70-77 | the loop stores exactly the non-directory entries and what the walks of the directory entries store |
| JarLoader.JarNodesAreJars | src/main/com/mucommander/commons/file/util/JarClassLoader.java:61-77 | everything stored is a non-directory; below a directory it is also named like a jar |
| JarLoader.DirectoryCollects | src/main/com/mucommander/commons/file/util/JarClassLoader.java:66-77 | below a directory, a node is stored exactly when it is a jar-named non-directory entry, or is stored by the walk of a subdirectory |
| JarLoader.LocationStore.constructor | src/main/com/mucommander/commons/file/util/JarClassLoader.java:53 | the map starts empty |
| JarLoader.LocationStore.Put | src/main/com/mucommander/commons/file/util/JarClassLoader.java:62-75 | put overwrites the key's location |
| JarLoader.GetJarLocationsInto | src/main/com/mucommander/commons/file/util/JarClassLoader.java:58-78 | the map after the walk is the map before with the walk's nodes stored in order |
| JarLoader.GetJarLocations | src/main/com/mucommander/commons/file/util/JarClassLoader.java:52-56 | the locations are the values of the map a walk from an empty map fills |
| JarLoader.RootFileIsKept | src/main/com/mucommander/commons/file/util/JarClassLoader.java:61-64 | a regular file as root is its own single location, whatever its extension |
| JarLoader.UnlistableRootYieldsNothing | src/main/com/mucommander/commons/file/util/JarClassLoader.java:66-69 | a root that is neither a file nor a listable directory yields nothing, without an error |

## Findings

| source | as written | input that shows it | evidently intended | confidence | as-written member | corrected member |
|---|---|---|---|---|---|---|
| src/main/com/mucommander/commons/file/impl/qfs/wrapper/KfsAccess.java:238-258 | the IOException("Can't read location") for a null listing is thrown inside the try block. The catch block sees a failure whose cause is null, not an IOException, and wraps it in a RuntimeException, which `ls` does not declare. | the library's readdirplus returns null for a directory it cannot read | a null listing fails `ls` with the IOException "Can't read location" | high (not executed) | KfsBackend.ReadDirPlusAsWritten, KfsBackend.NullListingEscapesUnchecked | KfsBackend.ReadDirPlusIntended, KfsBackend.IntendedReadDirPlusFailsWithIOException |
| src/main/com/mucommander/commons/file/impl/qfs/QFSFile.java:93-103 | the null test looks at the `KfsOutputChannel` wrapper, which `kfs_create` and `kfs_append_ex` always build. A null library channel therefore reaches `Channels.newOutputStream`, which throws a NullPointerException: unchecked, and not the IOException the test was written to raise. | the library's create returns null for a path it will not write | a null channel fails `getOutputStream` with the IOException "Can't write! Write-protected?" and changes nothing | medium (not executed; assumes the library answers null on refusal) | Qfs.OpenStreamAsWritten, Qfs.NullChannelEscapesUnchecked | Qfs.OpenStreamIntended, Qfs.IntendedOpenFailsWithIOException |
| src/main/com/mucommander/commons/file/impl/qfs/QFSFile.java:507-515 | a channel answer of 0 is returned as -1, whatever `len` is | `read(b, off, 0)` in the middle of a file: the channel reads nothing and answers 0, so the stream reports end of stream | a zero-length request returns 0, as InputStream's contract asks | medium (not executed) | Qfs.ReadCountAsWritten, Qfs.ZeroLengthReadReportsEndOfStream | Qfs.ReadCountIntended, Qfs.QFSRandomAccessInputStream.ReadInto |

`KfsAccess.ReadDirPlus`, and so `QFSFile.Ls`, follow the intended reading of
the first row. `QFSFile.GetOutputStream` and
`QFSRandomAccessInputStream.ReadInto` follow the intended readings of the
second and third rows.
Because of this, the `statuses == null` branch of `ls` (zero children) is
unreachable in both readings: the wrapper never returns null.

## Left out

- Reflection and class loading: the static initialisers of the wrappers and `ClassLoaderUtils` are not modelled. Library calls are nondeterministic answers or the abstract `Backend` functions.
- Unchecked failures out of the `KfsAccess` wrappers are not modelled. Every wrapper turns a library failure whose cause is not an IOException into a RuntimeException; this includes `kfs_append_ex`, `kfs_readdirplus` and `kfs_retToIOException`. The wrappers that declare no IOException (create, isDirectory, mkdirs, stat, open, ...) do so for every failure. In the model those calls either return or fail with an IOException.
- `Qfs.QFSFile.GetOutputStream`: follows the intended reading of the null check (see Findings). As written, a null library channel escapes as a NullPointerException, with the file unchanged.
- `Qfs.QFSRandomAccessInputStream.ReadInto`: follows the intended reading for zero-length requests (see Findings). As written, it returns -1 there.
- Network I/O: `KfsAccess.checkServer`, the connection in `FileSystem.get`, and the byte transfer in the streams. Seek, tell and close of the random-access stream are not modelled. The output channel is not modelled either: whether its close succeeds is a nondeterministic choice in `Qfs.CounterOutputStream.Close`.
- Concurrency: the synchronized byte counter and the unsynchronised `isWriting` flag are modelled as sequential calls.
- TTL expiry of `SyncedFileAttributes` is not part of this model. A getter can trigger a refresh there; here the cached values are read directly.
- The attribute getters (`exists`, `getSize`, ...) and `getInputStream` are one-line delegations, and `isSymlink` is a constant. They are not modelled separately.
- `getParent`/`setParent` cache the parent file behind a flag and resolve it through `FileFactory`, which is not part of this model.
- `Qfs.QFSFile.RenameTo`: `checkRenamePrerequisites` is not part of this model; its outcome is a parameter. The destination must share the source's `KfsAccess` connection and be a different file.
- `Qfs.QFSFile.ChangePermission`: `ByteUtils.setBit` is not part of this model; it is taken to set the mask bits when enabled and clear them otherwise.
- `Qfs.QFSFile.Ls`: the filename filter argument is ignored by the source and so is not a parameter. `FileFactory.getFile` is reduced to the child's path and stat record.
- `Qfs.QFSFile.Open`: opening the `KfsAccess` connection from the URL's host and port is not modelled; the connection is a parameter.
- `Qfs.CounterOutputStream.Add`: sizes are unbounded integers; Java `long` overflow is not modelled.
- `JarLoader.EndsWithIgnoreCase`: `StringUtils.endsWithIgnoreCase` is not part of this model; case folding is ASCII only.
- `JarLoader.GetJarLocationsInto`: the file system is a finite tree, so a directory that reaches itself through a symbolic link cannot be expressed. The source follows `isDirectory()` through links and keeps no set of visited directories, so on such a cycle it recurses until a StackOverflowError. The model promises termination for trees only.
- `JarLoader.GetJarLocations`: the locations are a set, since `HashMap.values()` has no defined order. File URLs are the node paths. Creating the `URLClassLoader` in `load` is not modelled.
- Thread context class loader swapping in `getHadoopFileSystem` is thread-global state and is not modelled. The realm's textual form is a parameter.
- `Hdfs.DefaultPermissions`: the Hadoop umask computation is not part of this model; the umasked short is an input.
- The remaining `FileSystem` wrapper methods (append, create, open, setTimes, setPermission, getFileStatus) follow the same translation as `Reflection.Call` and are not modelled separately. The other wrappers (`FileStatus`, `Path`, `FsPermission`, the streams) are identity wrappers.
- `QFSProtocolProvider` is not modelled.
- Code differing from the documented behaviour, where the model follows the code:
  - `changeDate` records the date even when the server refuses it.
  - `ls` ignores the return code of its stat. A failed stat lists one child built from an unfilled record, named "null".
  - A failed fetch keeps the cached directory flag, date and size.
