/**
  The interface of `FirmwareCommon`, the firmware-image helper the backend
  calls. Its implementation is not part of this model, so each operation is
  a field of `Api`: every property proved about the backend holds for every
  choice of these functions and of the path capacity.
 */
module FirmwareCommon {
  import opened CTypes

  /** `FirmwareCommon::descriptor`: what the image header parser extracted. */
  datatype Descriptor = Descriptor(imageCrc: uint64, imageSize: uint32)

  /**
    The effect of `fw.getFileInfo(path)` on a fresh `FirmwareCommon`: the
    status it returns and the descriptor it leaves behind (filled in or not).
   */
  datatype FileInfo = FileInfo(status: int, descriptor: Descriptor)

  datatype Api = Api(
    /** `FirmwareCommon::PathString::MaxSize`, the capacity of a path string. */
    pathMaxSize: nat,
    /** `getFirmwareCachePath(PathString(base.c_str()))`: the cache root derived from a base directory. */
    getFirmwareCachePath: string -> string,
    /** `getFileInfo(path)`, which reads the file system. */
    getFileInfo: (map<string, seq<byte>>, string) -> FileInfo,
    /** `create_fw_paths(base)`: the status of creating the cache directories. */
    createFwPaths: string -> int
  )
}
