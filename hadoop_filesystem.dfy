/** The reflection-based wrapper around org.apache.hadoop.fs.FileSystem.
    The Hadoop library itself is not part of this model: each bound method
    is an abstract function from its arguments to an Invocation (a
    returned value or a thrown failure), collected in a Backend. Library
    objects are known only by identity. */
module HadoopWrapper {
  import opened Wrappers
  import opened Reflection

  /** An object of the Hadoop library. */
  datatype RawObject = RawObject(id: nat)

  /** The Path wrapper: the library path it hands to every call. */
  datatype Path = Path(path: RawObject)

  /** The FileStatus wrapper around one library status object. */
  datatype FileStatus = FileStatus(fileStatus: RawObject)

  /** The reflectively bound library methods this wrapper calls. A
      Configuration is passed by its properties. */
  datatype Backend = Backend(
    get: (string, map<string, seq<string>>) -> Invocation<RawObject>,
    mkdirs: (RawObject, RawObject) -> Invocation<Option<bool>>,
    delete: (RawObject, RawObject, bool) -> Invocation<Option<bool>>,
    rename: (RawObject, RawObject, RawObject) -> Invocation<Option<bool>>,
    listStatus: (RawObject, RawObject) -> Invocation<Option<seq<RawObject>>>,
    listStatusFiltered: (RawObject, RawObject, RawObject) -> Invocation<Option<seq<RawObject>>>)

  /** The Configuration wrapper, reduced to the properties set through it. */
  class Configuration {
    var properties: map<string, seq<string>>

    constructor ()
      ensures properties == map[]
    {
      properties := map[];
    }

    /** setStrings: the property holds exactly the given values. */
    method SetStrings(name: string, values: seq<string>)
      modifies this
      ensures properties == old(properties)[name := values]
    {
      properties := properties[name := values];
    }
  }

  class FileSystem {
    /** The bound library methods. */
    const backend: Backend
    /** The wrapped library FileSystem object. */
    const fileSystem: RawObject

    constructor (backend: Backend, fileSystem: RawObject)
      ensures this.backend == backend && this.fileSystem == fileSystem
    {
      this.backend := backend;
      this.fileSystem := fileSystem;
    }

    /** get: unlike every other call, a failure is never unwrapped; it is
        always wrapped in a RuntimeException, even when its cause is an
        IOException. */
    static method Get(backend: Backend, uri: string, conf: Configuration) returns (r: Result<FileSystem, Throwable>)
      ensures backend.get(uri, conf.properties).Threw? ==>
        r == Err(WrapInRuntime(backend.get(uri, conf.properties).failure))
      ensures backend.get(uri, conf.properties).Returned? ==>
        r.Ok? && fresh(r.value) && r.value.backend == backend && r.value.fileSystem == backend.get(uri, conf.properties).value
    {
      match backend.get(uri, conf.properties) {
        case Returned(raw) =>
          var fs := new FileSystem(backend, raw);
          r := Ok(fs);
        case Threw(e) =>
          r := Err(WrapInRuntime(e));
      }
    }

    /** mkdirs: the library's boolean, passed through unchanged. */
    function Mkdirs(f: Path): (r: Result<bool, Throwable>)
      ensures backend.mkdirs(fileSystem, f.path) == Returned(Some(true)) ==> r == Ok(true)
      ensures backend.mkdirs(fileSystem, f.path) == Returned(Some(false)) ==> r == Ok(false)
      ensures backend.mkdirs(fileSystem, f.path).Threw? ==> r == Err(Translate(backend.mkdirs(fileSystem, f.path).failure))
    {
      CallBoolean(backend.mkdirs(fileSystem, f.path))
    }

    /** delete: the library's boolean, passed through unchanged. */
    function Delete(f: Path, recursive: bool): (r: Result<bool, Throwable>)
      ensures backend.delete(fileSystem, f.path, recursive) == Returned(Some(true)) ==> r == Ok(true)
      ensures backend.delete(fileSystem, f.path, recursive) == Returned(Some(false)) ==> r == Ok(false)
      ensures backend.delete(fileSystem, f.path, recursive).Threw? ==>
        r == Err(Translate(backend.delete(fileSystem, f.path, recursive).failure))
    {
      CallBoolean(backend.delete(fileSystem, f.path, recursive))
    }

    /** rename: the library's boolean, passed through unchanged. */
    function Rename(src: Path, dst: Path): (r: Result<bool, Throwable>)
      ensures backend.rename(fileSystem, src.path, dst.path) == Returned(Some(true)) ==> r == Ok(true)
      ensures backend.rename(fileSystem, src.path, dst.path) == Returned(Some(false)) ==> r == Ok(false)
      ensures backend.rename(fileSystem, src.path, dst.path).Threw? ==>
        r == Err(Translate(backend.rename(fileSystem, src.path, dst.path).failure))
    {
      CallBoolean(backend.rename(fileSystem, src.path, dst.path))
    }

    /** listStatus(f): null exactly when the library answers null;
        otherwise a new array of the same length whose element i wraps the
        library's element i. */
    method ListStatus(f: Path) returns (r: Result<Option<array<FileStatus>>, Throwable>)
      ensures var inv := backend.listStatus(fileSystem, f.path);
        inv.Threw? ==> r == Err(Translate(inv.failure))
      ensures var inv := backend.listStatus(fileSystem, f.path);
        inv == Returned(None) ==> r == Ok(None)
      ensures var inv := backend.listStatus(fileSystem, f.path);
        inv.Returned? && inv.value.Some? ==> r.Ok? && r.value.Some? && fresh(r.value.value) && WrapsAll(r.value.value[..], inv.value.value)
    {
      r := WrapListing(backend.listStatus(fileSystem, f.path));
    }

    /** listStatus(f, filter): the same translation over the filtered call. */
    method ListStatusFiltered(f: Path, filter: RawObject) returns (r: Result<Option<array<FileStatus>>, Throwable>)
      ensures var inv := backend.listStatusFiltered(fileSystem, f.path, filter);
        inv.Threw? ==> r == Err(Translate(inv.failure))
      ensures var inv := backend.listStatusFiltered(fileSystem, f.path, filter);
        inv == Returned(None) ==> r == Ok(None)
      ensures var inv := backend.listStatusFiltered(fileSystem, f.path, filter);
        inv.Returned? && inv.value.Some? ==> r.Ok? && r.value.Some? && fresh(r.value.value) && WrapsAll(r.value.value[..], inv.value.value)
    {
      r := WrapListing(backend.listStatusFiltered(fileSystem, f.path, filter));
    }
  }

  /** Element i of `statuses` wraps element i of `objs`, and nothing else
      is there. */
  predicate WrapsAll(statuses: seq<FileStatus>, objs: seq<RawObject>) {
    |statuses| == |objs| && forall i :: 0 <= i < |objs| ==> statuses[i] == FileStatus(objs[i])
  }

  /** The body both listStatus overloads share: keep null, translate a
      failure, and wrap a returned array element by element. */
  method WrapListing(inv: Invocation<Option<seq<RawObject>>>) returns (r: Result<Option<array<FileStatus>>, Throwable>)
    ensures inv.Threw? ==> r == Err(Translate(inv.failure))
    ensures inv == Returned(None) ==> r == Ok(None)
    ensures inv.Returned? && inv.value.Some? ==>
      r.Ok? && r.value.Some? && fresh(r.value.value) && WrapsAll(r.value.value[..], inv.value.value)
  {
    match inv {
      case Threw(e) =>
        r := Err(Translate(e));
      case Returned(None) =>
        r := Ok(None);
      case Returned(Some(objs)) =>
        var result := new FileStatus[|objs|];
        for i := 0 to |objs|
          invariant forall j :: 0 <= j < i ==> result[j] == FileStatus(objs[j])
        {
          result[i] := FileStatus(objs[i]);
        }
        r := Ok(Some(result));
    }
  }

  /** Wrapping keeps the library's order: the raw objects can be read back
      from the wrappers, one for one. */
  lemma WrapsAllUnwraps(statuses: seq<FileStatus>, objs: seq<RawObject>)
    requires WrapsAll(statuses, objs)
    ensures seq(|statuses|, i requires 0 <= i < |statuses| => statuses[i].fileStatus) == objs
  {
  }
}
