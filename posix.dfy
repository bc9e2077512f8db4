/**
  The POSIX calls the backend makes (`open`, `lseek`, `read`, `close`),
  modelled against an abstract file system: a map from path to contents,
  per-path injected failures, a table of open descriptors, `errno`, and a
  log of the calls made.
 */
module Posix {
  import opened CTypes

  /** An error number as `errno` holds it after a failed call: positive, and small enough for `int16_t`. */
  type Errno = e: int | 0 < e < 0x8000 witness 1

  /** "No such file or directory". Only its being an `Errno` matters here. */
  const ENOENT: Errno

  /** Failures the environment injects for one path (permissions, I/O errors, a narrow `off_t`, ...). */
  datatype Faults = Faults(onOpen: Option<Errno>, onSeek: Option<Errno>, onRead: Option<Errno>)

  const NoFaults := Faults(None, None, None)

  /** An open file description: which file, and the current file offset. */
  datatype Handle = Handle(path: string, pos: nat)

  /** One system call, as the log records it. */
  datatype Syscall = Open(path: string) | Lseek(fd: int, offset: int) | Read(fd: int, count: nat) | Close(fd: int)

  /**
    The string a C function sees when handed `s.c_str()`: everything before
    the first NUL character.
   */
  function CStr(s: string): (r: string)
    ensures r <= s
    ensures '\0' !in r
    ensures |r| < |s| ==> s[|r|] == '\0'
  {
    if s == [] || s[0] == '\0' then [] else [s[0]] + CStr(s[1..])
  }

  /** A string without NUL characters passes through `c_str()` whole. */
  lemma CStrOfNulFree(s: string)
    requires '\0' !in s
    ensures CStr(s) == s
  {
  }

  /** Whatever follows the first NUL never reaches a C function. */
  lemma {:induction false} CStrStopsAtNul(s: string, t: string)
    requires '\0' !in s
    ensures CStr(s + ['\0'] + t) == s
  {
    if s != [] {
      assert (s + ['\0'] + t)[1..] == s[1..] + ['\0'] + t;
      CStrStopsAtNul(s[1..], t);
    }
  }

  /**
    The bytes one `read(fd, buf, count)` delivers from a file holding `data`
    whose offset is `offset`: never more than requested, the file's own bytes
    from `offset` on, and exactly `count` of them unless the end of the file
    comes first. An offset at or past the end delivers nothing.
   */
  function Chunk(data: seq<byte>, offset: nat, count: nat): (r: seq<byte>)
    ensures |r| <= count
    ensures offset <= |data| ==> offset + |r| <= |data| && r == data[offset..offset + |r|]
    ensures |r| < count ==> offset + |r| >= |data|
    ensures offset >= |data| ==> r == []
  {
    if offset >= |data| then []
    else if offset + count <= |data| then data[offset..offset + count]
    else data[offset..]
  }

  /**
    The operating system as the backend sees it. Files are never written
    here, so `files` and `faults` stay fixed while descriptors come and go.
   */
  class Os {
    var files: map<string, seq<byte>>
    var faults: map<string, Faults>
    var handles: map<int, Handle>
    var nextFd: nat
    var errno: int
    var calls: seq<Syscall>

    /** Every open descriptor was handed out before and names an existing file. */
    ghost predicate Valid()
      reads this
    {
      forall fd :: fd in handles ==> 0 <= fd < nextFd && handles[fd].path in files
    }

    function FaultsOf(path: string): Faults
      reads this
    {
      if path in faults then faults[path] else NoFaults
    }

    /** Why `open(path, O_RDONLY)` fails, if it does. */
    function OpenError(path: string): (e: Option<Errno>)
      reads this
      ensures path !in files ==> e.Some?
    {
      if FaultsOf(path).onOpen.Some? then FaultsOf(path).onOpen
      else if path !in files then Some(ENOENT)
      else None
    }

    constructor (files: map<string, seq<byte>>, faults: map<string, Faults>)
      ensures Valid()
      ensures this.files == files && this.faults == faults
      ensures handles == map[] && calls == []
    {
      this.files := files;
      this.faults := faults;
      handles := map[];
      nextFd := 0;
      errno := 0;
      calls := [];
    }

    /** `open(path, O_RDONLY)`: a new descriptor at offset 0, or -1 and `errno`. */
    method OpenRead(path: string) returns (fd: int)
      requires Valid()
      modifies this
      ensures Valid()
      ensures files == old(files) && faults == old(faults)
      ensures calls == old(calls) + [Open(path)]
      ensures OpenError(path).Some? ==>
        fd == -1 && errno == OpenError(path).value && handles == old(handles) && nextFd == old(nextFd)
      ensures OpenError(path).None? ==>
        fd == old(nextFd) && fd !in old(handles) && handles == old(handles)[fd := Handle(path, 0)] &&
        nextFd == old(nextFd) + 1 && errno == old(errno)
    {
      calls := calls + [Open(path)];
      var e := OpenError(path);
      if e.Some? {
        fd := -1;
        errno := e.value;
      } else {
        fd := nextFd;
        handles := handles[fd := Handle(path, 0)];
        nextFd := nextFd + 1;
      }
    }

    /** `lseek(fd, offset, SEEK_SET)`: the new offset, or -1 and `errno`. */
    method LseekSet(fd: int, offset: nat) returns (r: int)
      requires Valid() && fd in handles
      modifies this
      ensures Valid()
      ensures files == old(files) && faults == old(faults) && nextFd == old(nextFd)
      ensures calls == old(calls) + [Lseek(fd, offset)]
      ensures var e := FaultsOf(old(handles)[fd].path).onSeek;
        (e.Some? ==> r == -1 && errno == e.value && handles == old(handles)) &&
        (e.None? ==> r == offset && errno == old(errno) &&
                     handles == old(handles)[fd := old(handles)[fd].(pos := offset)])
    {
      calls := calls + [Lseek(fd, offset)];
      var e := FaultsOf(handles[fd].path).onSeek;
      if e.Some? {
        r := -1;
        errno := e.value;
      } else {
        handles := handles[fd := handles[fd].(pos := offset)];
        r := offset;
      }
    }

    /**
      `read(fd, buf, count)`: the number of bytes placed at the start of
      `buf`, which is the `Chunk` at the descriptor's offset, or -1 and `errno`
      with `buf` untouched.
     */
    method ReadInto(fd: int, buf: array<byte>, count: nat) returns (len: int)
      requires Valid() && fd in handles && count <= buf.Length
      modifies this, buf
      ensures Valid()
      ensures files == old(files) && faults == old(faults) && nextFd == old(nextFd)
      ensures calls == old(calls) + [Read(fd, count)]
      ensures var h := old(handles)[fd];
        var e := FaultsOf(h.path).onRead;
        (e.Some? ==> len == -1 && errno == e.value && handles == old(handles) && buf[..] == old(buf[..])) &&
        (e.None? ==>
          var c := Chunk(files[h.path], h.pos, count);
          len == |c| && buf[..len] == c && buf[len..] == old(buf[len..]) && errno == old(errno) &&
          handles == old(handles)[fd := h.(pos := h.pos + len)])
    {
      calls := calls + [Read(fd, count)];
      var h := handles[fd];
      var e := FaultsOf(h.path).onRead;
      if e.Some? {
        len := -1;
        errno := e.value;
      } else {
        var c := Chunk(files[h.path], h.pos, count);
        forall i | 0 <= i < |c| {
          buf[i] := c[i];
        }
        len := |c|;
        handles := handles[fd := h.(pos := h.pos + len)];
      }
    }

    /** `close(fd)`: the descriptor is released. */
    method Close(fd: int)
      requires Valid() && fd in handles
      modifies this
      ensures Valid()
      ensures files == old(files) && faults == old(faults) && nextFd == old(nextFd) && errno == old(errno)
      ensures calls == old(calls) + [Syscall.Close(fd)]
      ensures handles == old(handles) - {fd}
    {
      calls := calls + [Syscall.Close(fd)];
      handles := handles - {fd};
    }
  }
}
