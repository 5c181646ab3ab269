/**
 The load phase of the program: turning a classified input source into the
 256 KiB image, or into the reason there is none.
 */
module Assembly {
  import opened Wrappers
  import opened Image
  import opened InputSource
  import opened FileLoad

  /** Why no image was assembled. */
  datatype AssemblyError =
    | UnknownFileType                            // the argument's extension is not ".ic3"
    | LoadFailed(path: string, reason: LoadError) // a named file was refused by the loader

  /** The image a source denotes on `disk`: the reference the load phase must meet. */
  function SourceImage(src: Source, disk: Disk): (r: Result<seq<byte>, AssemblyError>)
    ensures r.Success? ==> |r.value| == ImageSize
    ensures src.Unknown? <==> r == Failure(UnknownFileType)
    ensures src.Combined? ==> (r.Success? <==> Loads(disk, src.path, ImageSize))
    ensures src.Combined? && r.Success? ==> r.value == disk[src.path].contents
    ensures src.Split? ==> (r.Success? <==> Loads(disk, src.lowPath, HalfSize) && Loads(disk, src.highPath, HalfSize))
    ensures src.Split? && r.Success? ==>
      forall i :: 0 <= i < HalfSize ==>
        r.value[2 * i] == disk[src.lowPath].contents[i] && r.value[2 * i + 1] == disk[src.highPath].contents[i]
    ensures src.Split? && r.Failure? && !Loads(disk, src.lowPath, HalfSize) ==> r.error.LoadFailed? && r.error.path == src.lowPath
  {
    match src
    case Unknown => Failure(UnknownFileType)
    case Combined(path) =>
      var whole := LoadFile(Lookup(disk, path), ImageSize);
      if whole.Failure? then Failure(LoadFailed(path, whole.error)) else Success(whole.value)
    case Split(lowPath, highPath) =>
      var low := LoadFile(Lookup(disk, lowPath), HalfSize);
      var high := LoadFile(Lookup(disk, highPath), HalfSize);
      if low.Failure? then Failure(LoadFailed(lowPath, low.error))
      else if high.Failure? then Failure(LoadFailed(highPath, high.error))
      else Success(Interleave(low.value, high.value))
  }

  /** The paths the load phase opens, in order: the high half only after the low half loaded. */
  function OpenedPaths(src: Source, disk: Disk): (paths: seq<string>)
    ensures src.Unknown? ==> paths == []
    ensures src.Combined? ==> paths == [src.path]
    ensures src.Split? ==> |paths| >= 1 && paths[0] == src.lowPath
    ensures src.Split? ==> (|paths| == 2 <==> Loads(disk, src.lowPath, HalfSize))
    ensures src.Split? && |paths| == 2 ==> paths[1] == src.highPath
    ensures src.Split? && src.lowPath != src.highPath ==>
      (src.highPath in paths <==> Loads(disk, src.lowPath, HalfSize))
  {
    match src
    case Unknown => []
    case Combined(path) => [path]
    case Split(lowPath, highPath) =>
      if Loads(disk, lowPath, HalfSize) then [lowPath, highPath] else [lowPath]
  }

  /**
   The load phase as the program performs it: the low half is woven into the
   even addresses of a zeroed 256 KiB buffer before the high half is opened,
   and the high half then fills the odd addresses.
   */
  method LoadImage(src: Source, disk: Disk) returns (r: Result<seq<byte>, AssemblyError>, paths: seq<string>)
    ensures r == SourceImage(src, disk)
    ensures paths == OpenedPaths(src, disk)
  {
    match src
    case Unknown =>
      return Failure(UnknownFileType), [];
    case Combined(path) =>
      var loaded := LoadFile(Lookup(disk, path), ImageSize);
      if loaded.Failure? {
        return Failure(LoadFailed(path, loaded.error)), [path];
      }
      return Success(loaded.value), [path];
    case Split(lowPath, highPath) =>
      var image := new byte[ImageSize](_ => 0);
      paths := [lowPath];
      var half := LoadFile(Lookup(disk, lowPath), HalfSize);
      if half.Failure? {
        return Failure(LoadFailed(lowPath, half.error)), paths;
      }
      var low := half.value;
      var i := 0;
      while i < HalfSize
        invariant 0 <= i <= HalfSize
        invariant forall j :: 0 <= j < i ==> image[2 * j] == low[j]
      {
        image[i * 2] := low[i];
        i := i + 1;
      }
      paths := paths + [highPath];
      half := LoadFile(Lookup(disk, highPath), HalfSize);
      if half.Failure? {
        return Failure(LoadFailed(highPath, half.error)), paths;
      }
      var high := half.value;
      i := 0;
      while i < HalfSize
        invariant 0 <= i <= HalfSize
        invariant forall j :: 0 <= j < HalfSize ==> image[2 * j] == low[j]
        invariant forall j :: 0 <= j < i ==> image[2 * j + 1] == high[j]
      {
        image[i * 2 + 1] := high[i];
        i := i + 1;
      }
      WovenImage(image[..], low, high);
      return Success(image[..]), paths;
  }

  /** A buffer holding `low` at even and `high` at odd addresses is their interleaving. */
  lemma WovenImage(img: seq<byte>, low: seq<byte>, high: seq<byte>)
    requires |low| == |high| && |img| == 2 * |low|
    requires forall j :: 0 <= j < |low| ==> img[2 * j] == low[j]
    requires forall j :: 0 <= j < |high| ==> img[2 * j + 1] == high[j]
    ensures img == Interleave(low, high)
  {
    var w := Interleave(low, high);
    forall k | 0 <= k < |img|
      ensures img[k] == w[k]
    {
      var j := k / 2;
      if k % 2 == 0 {
        assert k == 2 * j && img[2 * j] == low[j] == w[2 * j];
      } else {
        assert k == 2 * j + 1 && j < |high| && img[2 * j + 1] == high[j] == w[2 * j + 1];
      }
    }
  }
}
