/** The parts of the muCommander commons-file API that the two backends share:
    the cached attribute record, the permission constants and the
    failures a file operation can raise. */
module Commons {

  /** PermissionBits.FULL_PERMISSION_INT, octal 0777. */
  const FULL_PERMISSION_INT: bv32 := 0x1FF

  /** Operations a protocol may refuse with UnsupportedFileOperationException. */
  datatype FileOperation = AppendFile | RandomWriteFile | CopyRemotely | GetFreeSpace | GetTotalSpace

  /** The failures a file operation surfaces to its caller: IOException,
      its subclass AuthException, UnsupportedFileOperationException, and an
      unchecked NullPointerException. */
  datatype FileError = IOError | AuthError | Unsupported(op: FileOperation) | NullPointer

  /** A value snapshot of the cached attributes, used in specifications.
      `present` is the `exists` attribute (`exists` is a Dafny keyword). */
  datatype Attrs = Attrs(
    present: bool,
    isDirectory: bool,
    date: int,
    size: int,
    permissions: bv32,
    owner: string,
    group: string)

  /** True when no permission bit above octal 0777 is set. */
  predicate WithinFullPermissions(p: bv32) {
    p & !FULL_PERMISSION_INT == 0
  }

  /** The mutable attribute holder (FileAttributes / SyncedFileAttributes):
      each setter of the Java class is an assignment to one field here. */
  class FileAttributes {
    var present: bool
    var isDirectory: bool
    var date: int
    var size: int
    var permissions: bv32
    var owner: string
    var group: string

    /** Zero and empty values; the base class is not part of this model,
        and every path that reads the holder first overwrites what matters. */
    constructor ()
      ensures Snapshot() == Attrs(false, false, 0, 0, 0, "", "")
    {
      present, isDirectory, date, size := false, false, 0, 0;
      permissions, owner, group := 0, "", "";
    }

    function Snapshot(): Attrs
      reads this
    {
      Attrs(present, isDirectory, date, size, permissions, owner, group)
    }
  }
}
