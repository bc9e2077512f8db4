/**
  `uavcan_posix::BasicFileSeverBackend` (the class name keeps the source's
  spelling): the POSIX back end of the uavcan file server. It answers
  GetInfo and Read requests for files kept under the firmware cache root
  derived from its one field, the base directory.
 */
module FileServerBackend {
  import opened CTypes
  import opened UavcanFile
  import opened Posix
  import FirmwareCommon

  /**
    The guard shared by `getInfo` and `read`: the request path is not empty
    and appending it to the cache root stays within the path capacity.
   */
  predicate PathFits(cacheRoot: string, path: string, maxSize: nat)
  {
    |path| > 0 && |cacheRoot| + |path| <= maxSize
  }

  /**
    Path resolution: the request path appended to the cache root when the
    guard admits it, and nothing otherwise. The append never truncates.
   */
  function Resolve(cacheRoot: string, path: string, maxSize: nat): (r: Option<string>)
    ensures r.Some? <==> PathFits(cacheRoot, path, maxSize)
    ensures r.Some? ==> |r.value| == |cacheRoot| + |path| <= maxSize
    ensures r.Some? ==> r.value[..|cacheRoot|] == cacheRoot && r.value[|cacheRoot|..] == path
  {
    if PathFits(cacheRoot, path, maxSize) then Some(cacheRoot + path) else None
  }

  /**
    Two requests that resolve to the same path under one cache root are the
    same request: no two request paths are mapped onto one resolved path.
   */
  lemma ResolveInjective(cacheRoot: string, p1: string, p2: string, maxSize: nat)
    requires Resolve(cacheRoot, p1, maxSize).Some?
    requires Resolve(cacheRoot, p1, maxSize) == Resolve(cacheRoot, p2, maxSize)
    ensures p1 == p2
  {
  }

  /**
    The name `open` receives is the resolved path cut at its first NUL, so
    distinct request paths that agree up to a NUL open the same file: under
    a NUL-free cache root, "a\0b" and "a\0c" both resolve, to different
    paths, and both open the cache root followed by "a".
   */
  lemma NulPathsOpenSameName(cacheRoot: string, maxSize: nat)
    requires '\0' !in cacheRoot && |cacheRoot| + 3 <= maxSize
    ensures Resolve(cacheRoot, "a\0b", maxSize).Some? && Resolve(cacheRoot, "a\0c", maxSize).Some?
    ensures Resolve(cacheRoot, "a\0b", maxSize) != Resolve(cacheRoot, "a\0c", maxSize)
    ensures CStr(Resolve(cacheRoot, "a\0b", maxSize).value) == cacheRoot + "a"
    ensures CStr(Resolve(cacheRoot, "a\0c", maxSize).value) == cacheRoot + "a"
  {
    assert cacheRoot + "a\0b" == (cacheRoot + "a") + ['\0'] + "b";
    assert cacheRoot + "a\0c" == (cacheRoot + "a") + ['\0'] + "c";
    CStrStopsAtNul(cacheRoot + "a", "b");
    CStrStopsAtNul(cacheRoot + "a", "c");
  }

  /**
    What a transport reading a whole file collects: `read` calls at
    increasing offsets with a fixed chunk size `k`, stopping at the first
    short reply. Each reply is the `Chunk` the backend delivers.
   */
  function ReadToEof(data: seq<byte>, offset: nat, k: nat): seq<byte>
    requires k > 0
    decreases |data| - offset
  {
    var c := Chunk(data, offset, k);
    if |c| < k then c else c + ReadToEof(data, offset + k, k)
  }

  /**
    Because every reply is exact unless it reaches the end of the file,
    reading chunk after chunk reproduces the file from the first offset on.
   */
  lemma {:induction false} ReadToEofReassembles(data: seq<byte>, offset: nat, k: nat)
    requires k > 0 && offset <= |data|
    ensures ReadToEof(data, offset, k) == data[offset..]
    decreases |data| - offset
  {
    var c := Chunk(data, offset, k);
    if |c| == k {
      ReadToEofReassembles(data, offset + k, k);
      assert data[offset..] == c + data[offset + k..];
    }
  }

  class BasicFileSeverBackend {
    /** The `FirmwareCommon` helpers and constants this back end relies on. */
    const fw: FirmwareCommon.Api
    /** `base_path`, the back end's only state. */
    var basePath: string

    /** A back end before `init`: `base_path` is the empty string. */
    constructor (fw: FirmwareCommon.Api)
      ensures this.fw == fw && basePath == ""
    {
      this.fw := fw;
      basePath := "";
    }

    /** The firmware cache root that request paths are resolved against. */
    function CacheRoot(): string
      reads this
    {
      fw.getFirmwareCachePath(basePath)
    }

    /** The file name a request path stands for, if the guard admits it. */
    function ResolvedPath(path: string): Option<string>
      reads this
    {
      Resolve(CacheRoot(), path, fw.pathMaxSize)
    }

    /**
      `getInfo(path, out_crc64, out_size, out_type)`. The out-parameters are
      passed in with their values on entry and returned with their values on
      exit. A rejected path yields `INVALID_VALUE` and leaves them as they
      were; an accepted one yields 0 and the descriptor that `getFileInfo`
      left, whatever status it reported, with the fixed flags file and
      readable.
     */
    method GetInfo(os: Os, path: string, outCrc64: uint64, outSize: uint32, outType: EntryType)
      returns (rv: Status, crc64: uint64, size: uint32, entryType: EntryType)
      ensures ResolvedPath(path).None? ==>
        rv == INVALID_VALUE && crc64 == outCrc64 && size == outSize && entryType == outType
      ensures ResolvedPath(path).Some? ==>
        var d := fw.getFileInfo(os.files, ResolvedPath(path).value).descriptor;
        rv == 0 && crc64 == d.imageCrc && size == d.imageSize &&
        entryType.flags == {FlagFile, FlagReadable}
      ensures rv == 0 <==> ResolvedPath(path).Some?
    {
      rv := INVALID_VALUE;
      crc64, size, entryType := outCrc64, outSize, outType;
      var fwFullPath := fw.getFirmwareCachePath(basePath);
      if PathFits(fwFullPath, path, fw.pathMaxSize) {
        fwFullPath := fwFullPath + path;
        var info := fw.getFileInfo(os.files, fwFullPath);
        crc64 := info.descriptor.imageCrc;
        size := info.descriptor.imageSize;
        entryType := entryType.(flags := {FlagFile, FlagReadable});
        rv := 0;
      }
    }

    /**
      `read(path, offset, out_buffer, inout_size)`. The request starts with
      `inoutSize` bytes asked for, and `size` is `inout_size` on exit. A
      rejected path yields `INVALID_VALUE` and makes no system call. An
      accepted one opens its resolved path (as a C string), seeks to `offset`,
      reads once and closes the descriptor, stopping at the first failing
      call, whose `errno` it returns; the descriptor is closed on every path
      after a successful open. On success `size` is the number of bytes
      delivered, which are the file's `Chunk` at `offset`.
     */
    method Read(os: Os, path: string, offset: uint32, outBuffer: array<byte>, inoutSize: uint16)
      returns (rv: Status, size: uint16)
      requires os.Valid() && inoutSize <= outBuffer.Length
      modifies os, outBuffer
      ensures os.Valid()
      ensures os.files == old(os.files) && os.faults == old(os.faults)
      ensures os.handles == old(os.handles)
      ensures size <= inoutSize
      ensures rv != 0 ==> size == inoutSize && outBuffer[..] == old(outBuffer[..])
      ensures rv == 0 <==>
        ResolvedPath(path).Some? &&
        var p := CStr(ResolvedPath(path).value);
        os.OpenError(p).None? && os.FaultsOf(p).onSeek.None? && os.FaultsOf(p).onRead.None?
      ensures os.nextFd == old(os.nextFd) +
        (if ResolvedPath(path).Some? && os.OpenError(CStr(ResolvedPath(path).value)).None? then 1 else 0)
      ensures ResolvedPath(path).Some? && rv != 0 ==> os.errno == rv
      ensures ResolvedPath(path).None? || rv == 0 ==> os.errno == old(os.errno)
      ensures ResolvedPath(path).None? ==> rv == INVALID_VALUE && os.calls == old(os.calls)
      ensures ResolvedPath(path).Some? ==>
        var p := CStr(ResolvedPath(path).value);
        var fd := old(os.nextFd);
        var started := [Open(p), Lseek(fd, offset)];
        if os.OpenError(p).Some? then
          rv == os.OpenError(p).value && os.calls == old(os.calls) + [Open(p)]
        else if os.FaultsOf(p).onSeek.Some? then
          rv == os.FaultsOf(p).onSeek.value && os.calls == old(os.calls) + started + [Syscall.Close(fd)]
        else if os.FaultsOf(p).onRead.Some? then
          rv == os.FaultsOf(p).onRead.value &&
          os.calls == old(os.calls) + started + [Syscall.Read(fd, inoutSize), Syscall.Close(fd)]
        else
          var c := Chunk(os.files[p], offset, inoutSize);
          rv == 0 && size == |c| && outBuffer[..size] == c && outBuffer[size..] == old(outBuffer[size..]) &&
          os.calls == old(os.calls) + started + [Syscall.Read(fd, inoutSize), Syscall.Close(fd)]
    {
      rv := INVALID_VALUE;
      size := inoutSize;
      var fwFullPath := fw.getFirmwareCachePath(basePath);
      if PathFits(fwFullPath, path, fw.pathMaxSize) {
        fwFullPath := fwFullPath + path;
        var fd := os.OpenRead(CStr(fwFullPath));
        if fd < 0 {
          rv := os.errno;
        } else {
          var pos := os.LseekSet(fd, offset);
          if pos < 0 {
            rv := os.errno;
          } else {
            var len := os.ReadInto(fd, outBuffer, inoutSize);
            if len < 0 {
              rv := os.errno;
            } else {
              size := len;
              rv := 0;
            }
          }
          os.Close(fd);
        }
      }
    }

    /**
      `init(path)`: records the base directory and returns the status of
      `create_fw_paths` for it unchanged.
     */
    method Init(path: string) returns (rv: int)
      modifies this
      ensures basePath == path
      ensures rv == fw.createFwPaths(path)
    {
      basePath := path;
      rv := fw.createFwPaths(basePath);
    }
  }
}
