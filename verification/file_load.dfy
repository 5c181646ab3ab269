/**
 The loader's acceptance rule for one input file: it opens, its size is
 exactly the requested byte count, and the read completes; only then does
 the buffer hold the file's bytes.
 */
module FileLoad {
  import opened Wrappers
  import opened Image

  /** A file on disk: its bytes, and whether a read of them completes. */
  datatype DiskFile = DiskFile(contents: seq<byte>, readable: bool)

  /** The file system as the program sees it: a missing path cannot be opened. */
  type Disk = map<string, DiskFile>

  /** Why a load was refused. */
  datatype LoadError =
    | CannotOpen                               // fopen returned NULL
    | WrongSize(actual: int, expected: int)    // the size reported differs from cbImage
    | ReadError                                // fread did not deliver the whole block

  /** The file at `path`, if the path can be opened. */
  function Lookup(disk: Disk, path: string): (f: Option<DiskFile>)
    ensures f.Some? <==> path in disk
    ensures f.Some? ==> f.value == disk[path]
  {
    if path in disk then Some(disk[path]) else None
  }

  /** Loads exactly `cbImage` bytes from `file`. */
  function LoadFile(file: Option<DiskFile>, cbImage: int): (r: Result<seq<byte>, LoadError>)
    ensures r.Success? <==> file.Some? && |file.value.contents| == cbImage && file.value.readable
    ensures r.Success? ==> r.value == file.value.contents && |r.value| == cbImage
    ensures r.Failure? && file.None? ==> r.error == CannotOpen
    ensures r.Failure? && file.Some? && |file.value.contents| != cbImage ==> r.error == WrongSize(|file.value.contents|, cbImage)
    ensures r.Failure? && file.Some? && |file.value.contents| == cbImage ==> r.error == ReadError
  {
    match file
    case None => Failure(CannotOpen)
    case Some(f) =>
      if |f.contents| != cbImage then Failure(WrongSize(|f.contents|, cbImage))
      else if !f.readable then Failure(ReadError)
      else Success(f.contents)
  }

  /** Whether the file at `path` loads at `cbImage` bytes. */
  predicate Loads(disk: Disk, path: string, cbImage: int)
  {
    LoadFile(Lookup(disk, path), cbImage).Success?
  }

  /** A load never yields a partial buffer: a wrong-sized file is always refused. */
  lemma WrongSizeNeverLoads(disk: Disk, path: string, cbImage: int)
    requires path in disk && |disk[path].contents| != cbImage
    ensures LoadFile(Lookup(disk, path), cbImage) == Failure(WrongSize(|disk[path].contents|, cbImage))
    ensures !Loads(disk, path, cbImage)
  {
  }
}
