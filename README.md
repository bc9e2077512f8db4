# uavcan POSIX file server back end

A Dafny model of `uavcan_posix::BasicFileSeverBackend`, the back end that
serves the uavcan file protocol's GetInfo and Read requests from a firmware
image cache on a POSIX file system. The class keeps one field, the base
directory `base_path`. Each request path is checked and resolved against
the firmware cache root derived from that directory. `getInfo` then reports
the image descriptor. `read` does one open, one seek, one read and one close
and passes any `errno` straight back to the caller.

Files:

- `ctypes.dfy` (module `CTypes`): the fixed-width integer types at the
  interface, and `Option`.
- `uavcan_file.dfy` (module `UavcanFile`): the `int16_t` status,
  `INVALID_VALUE` and the `EntryType` flags.
- `firmware_common.dfy` (module `FirmwareCommon`): the interface of the
  `FirmwareCommon` helper. `getFirmwareCachePath`, `getFileInfo`,
  `create_fw_paths` and `PathString::MaxSize` are fields of a datatype
  `Api`. The back end is built with one `Api` value, so every result holds
  for every choice of them.
- `posix.dfy` (module `Posix`): `open`, `lseek`, `read` and `close`. They
  work on a map from path to bytes. Failures are injected per path. The
  model also keeps the table of open descriptors, `errno`, and a log of
  every call made.
- `basic_file_server_backend.dfy` (module `FileServerBackend`): the guard,
  path resolution, and the class with `GetInfo`, `Read` and `Init`.

Modelling choices:

- Out-parameters passed by C++ reference (`out_crc64`, `out_size`,
  `out_type`, `inout_size`) are passed in with their entry values and
  returned with their exit values. "Left untouched" is then a plain
  equality in the contracts.
- `out_buffer` is an `array<byte>` that `Read` modifies.
- `open` is given `fw_full_path.c_str()`, so the name it sees ends at the
  first NUL character of the resolved path (`CStr`). A request path that
  contains a NUL opens a shorter name.
- `|` of two `EntryType` flags is modelled as the union of two sets of
  distinct bits.
- `INVALID_VALUE` and `ENOENT` are declared without a value. Their types
  state all the model relies on: they are nonzero and fit in `int16_t`.
- `getFileInfo`'s status is discarded (lines 64-70): once the path is
  accepted, `rv` is set to 0, so a missing or corrupt image still yields 0.
  `GetInfo` returns 0 on every accepted path and copies whatever descriptor
  `getFileInfo` left behind.
- A rejected or failed `read` leaves `inout_size` at its entry value: the
  code writes it only on success (line 121). In `Read`, `size` keeps its
  entry value on those paths.
- `open` receives the resolved path cut at its first NUL, so request paths
  that differ only after a NUL open the same file (`NulPathsOpenSameName`).

## Model

| member | source | states |
|---|---|---|
| `FileServerBackend.Resolve` | libuavcan_drivers/posix/include/uavcan_posix/basic_file_server_backend.hpp:56-62 | Covers the guard `PathFits` (lines 59 and 91) and the append (lines 62 and 94). They are applied to the cache root that `CacheRoot` derives from `base_path` (lines 56-57 and 88-89). `ResolvedPath` applies them for both `GetInfo` and `Read`. A path resolves exactly when it is non-empty and the cache root plus the path fit in `MaxSize`. The resolved path is the cache root followed by the request path, with length equal to their sum and at most `MaxSize`, so nothing is truncated. |
| `FileServerBackend.ResolveInjective` | libuavcan_drivers/posix/include/uavcan_posix/basic_file_server_backend.hpp:88-94 | Under one cache root, two request paths that resolve to the same path are equal. |
| `FileServerBackend.NulPathsOpenSameName` | libuavcan_drivers/posix/include/uavcan_posix/basic_file_server_backend.hpp:94-96 | Under a NUL-free cache root, the distinct request paths `"a\0b"` and `"a\0c"` both resolve, to different paths, and `open` receives the same name for both: the cache root followed by `"a"`. |
| `FileServerBackend.BasicFileSeverBackend.constructor` | libuavcan_drivers/posix/include/uavcan_posix/basic_file_server_backend.hpp:39 | A new back end has an empty `base_path` and the given `FirmwareCommon` helpers. |
| `FileServerBackend.BasicFileSeverBackend.GetInfo` | libuavcan_drivers/posix/include/uavcan_posix/basic_file_server_backend.hpp:49-73 | A rejected path returns `INVALID_VALUE` and leaves `out_crc64`, `out_size` and `out_type` as they were. An accepted path returns 0, whatever `getFileInfo` reported. The outputs are the descriptor's `image_crc` and `image_size`, and the flags are exactly file and readable. The result is 0 if and only if the path is accepted. |
| `FileServerBackend.BasicFileSeverBackend.Read` | libuavcan_drivers/posix/include/uavcan_posix/basic_file_server_backend.hpp:83-129 | A rejected path returns `INVALID_VALUE` and makes no system call. An accepted path makes the calls open, then seek, then read, stopping at the first failure, and closes the descriptor after every successful open. The open descriptors after the call are those before it. The descriptor counter advances only when the open succeeds. `errno` holds the returned error after a failed call and is unchanged otherwise. A failure returns the failing call's nonzero `errno` and leaves `inout_size` and the buffer untouched. Success returns 0 and sets `inout_size` to the bytes delivered, never more than requested. The buffer then starts with the file's `Chunk` at `offset`, and the rest of it is unchanged. The result is 0 exactly when the path is accepted and no call fails. `base_path` is not in the frame. |
| `FileServerBackend.BasicFileSeverBackend.Init` | libuavcan_drivers/posix/include/uavcan_posix/basic_file_server_backend.hpp:136-142 | `base_path` becomes the argument, and the result is the status of `create_fw_paths` for that path, unchanged. |
| `FileServerBackend.ReadToEofReassembles` | libuavcan_drivers/posix/include/uavcan_posix/basic_file_server_backend.hpp:75-81 | A reader that asks for fixed-size chunks at increasing offsets and stops at the first short one gets back exactly the file's bytes from the starting offset. This follows from the exact-unless-end-of-file rule for `read`. |
| `Posix.Chunk` | libuavcan_drivers/posix/include/uavcan_posix/basic_file_server_backend.hpp:78-79 | The bytes one read delivers at an offset are never more than requested. They are the file's own bytes from that offset. There are exactly as many as requested unless the end of the file comes first. An offset at or past the end delivers nothing. |
| `Posix.CStr` | libuavcan_drivers/posix/include/uavcan_posix/basic_file_server_backend.hpp:96 | The name that `open` receives from `c_str()` is the prefix of the path before its first NUL. It holds no NUL, and it is shorter than the path only where the path has a NUL. |
| `Posix.CStrOfNulFree` | libuavcan_drivers/posix/include/uavcan_posix/basic_file_server_backend.hpp:96 | A resolved path without NUL characters reaches `open` whole. |
| `Posix.CStrStopsAtNul` | libuavcan_drivers/posix/include/uavcan_posix/basic_file_server_backend.hpp:96 | Whatever follows the first NUL of a path never reaches `open`. |
| `Posix.Os.OpenError` | libuavcan_drivers/posix/include/uavcan_posix/basic_file_server_backend.hpp:96-101 | Opening a name that the file system does not hold always fails. |
| `Posix.Os.OpenRead` | libuavcan_drivers/posix/include/uavcan_posix/basic_file_server_backend.hpp:96-101 | `open(O_RDONLY)` either returns a fresh descriptor at offset 0, or returns -1 with the open error in `errno` and the descriptor table unchanged. The call is logged. |
| `Posix.Os.LseekSet` | libuavcan_drivers/posix/include/uavcan_posix/basic_file_server_backend.hpp:105-108 | `lseek(SEEK_SET)` either moves the descriptor to the offset and returns it, or returns -1 with the seek error in `errno`. The call is logged. |
| `Posix.Os.ReadInto` | libuavcan_drivers/posix/include/uavcan_posix/basic_file_server_backend.hpp:112-117 | `read` either places the `Chunk` at the descriptor's offset at the start of the buffer, advances the offset and returns the byte count, or returns -1 with the read error in `errno` and the buffer untouched. The call is logged. |
| `Posix.Os.Close` | libuavcan_drivers/posix/include/uavcan_posix/basic_file_server_backend.hpp:125 | `close` removes the descriptor, and only that one, from the table. The call is logged. |

## Left out

- Real POSIX behaviour: concrete `errno` values, permissions, and the reasons a call fails. A failure of `open`, `lseek` or `read` is an error number injected for the path being accessed.
- Short reads before the end of the file, and `EAGAIN` (the todo at line 111). The one `read` delivers exactly the amount requested unless the end of the file comes first, as the doc-comment at lines 78-79 requires.
- The width of `off_t`. The `uint32_t` offset is assumed to convert to `off_t` without change. Seek failures that depend on the offset, such as offsets of 2^31 and above on a platform with a 32-bit `off_t`, are not modelled: injected failures are keyed by path only.
- `errno` only takes values from 1 to 0x7fff, so narrowing `int rv` to the `int16_t` result never changes it. Larger error numbers are not modelled.
- `FirmwareCommon` internals: the cache-path rule, the image-descriptor parsing of `getFileInfo`, the value of `PathString::MaxSize`, and the capacity of `BasePathString`. They are parameters, and the model assumes nothing about them. The file accesses that `getFileInfo` makes itself are not in the call log.
- Init: the directories that `create_fw_paths` creates on disk are not modelled. Only the status it returns is.
- The numeric values of `Error::INVALID_VALUE` and of the `EntryType::FLAG_*` bits. They come from generated headers that are not part of this model.
- The length bound of the protocol's `Path` type. Request paths are strings of any length, and the guard alone decides.
- ReadToEofReassembles: offsets are unbounded, so the lemma does not capture that the protocol's `uint32_t` offset cannot reach past 4 GiB.
- The unused enums `FilePermissions` (line 37) and `MaxBufferLength` (line 52), and the `optimize("O0")` attributes, which carry no meaning.
- The transport layer that calls the back end, and concurrent calls.
