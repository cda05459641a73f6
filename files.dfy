/**
 * The file handlers of the portal agent (pkg/portal/file.go) over an
 * abstract filesystem: a map from path to content and mode.  Reading a path
 * fails exactly when it is absent; a write may fail for reasons of its own
 * (a missing directory, permissions), given as an input.  os.WriteFile
 * replaces the content and keeps the mode of an existing file, and gives a
 * new file mode 0644.  os.Chmod keeps the permission bits of the requested
 * mode and maps Go's setuid, setgid and sticky mode bits to the Unix ones.
 */
module Files {
  import opened Wrappers

  datatype File = File(content: string, mode: nat)

  /** The response state; the file handlers only ever answer UNKNOWN. */
  datatype State = Unknown | Changed

  datatype FileReadResponse = FileReadResponse(state: State, content: string)
  datatype FileCpResponse = FileCpResponse(state: State, content: string)
  datatype FileChmodResponse = FileChmodResponse(state: State)

  datatype FileCpRequest = FileCpRequest(src: string, dst: string, content: string, remoteSrc: bool, remoteDst: bool)

  const NewFileMode: nat := 0x1a4  // 0644

  const ModeSetuid: nat := 0x80_0000   // 1 << 23 in io/fs
  const ModeSetgid: nat := 0x40_0000   // 1 << 22
  const ModeSticky: nat := 0x10_0000   // 1 << 20

  function NoSuchFile(op: string, path: string): string
  {
    op + " " + path + ": no such file or directory"
  }

  predicate HasBit(m: nat, bit: nat)
    requires bit > 0
  {
    (m / bit) % 2 == 1
  }

  /**
   * The Unix mode os.Chmod asks for: the nine permission bits of `m`, plus
   * 04000, 02000 and 01000 for Go's setuid, setgid and sticky bits.
   */
  function SyscallMode(m: nat): (r: nat)
    ensures r < 0x1000
    ensures r % 0x200 == m % 0x200
    ensures (r / 0x800) % 2 == 1 <==> HasBit(m, ModeSetuid)
    ensures (r / 0x400) % 2 == 1 <==> HasBit(m, ModeSetgid)
    ensures (r / 0x200) % 2 == 1 <==> HasBit(m, ModeSticky)
  {
    m % 0x200
    + (if HasBit(m, ModeSetuid) then 0x800 else 0)
    + (if HasBit(m, ModeSetgid) then 0x400 else 0)
    + (if HasBit(m, ModeSticky) then 0x200 else 0)
  }

  class FileSystem {
    var files: map<string, File>

    constructor (files: map<string, File>)
      ensures this.files == files
    {
      this.files := files;
    }

    /** os.ReadFile */
    function ReadFile(path: string): (r: Result<string>)
      reads this
      ensures r.Ok? <==> path in files
      ensures r.Ok? ==> r.value == files[path].content
      ensures r.Err? ==> r.error == NoSuchFile("open", path)
    {
      if path in files then Ok(files[path].content) else Err(NoSuchFile("open", path))
    }

    /** os.WriteFile(path, content, 0644) */
    method WriteFile(path: string, content: string, writeErr: Option<string>) returns (err: Option<string>)
      modifies this
      ensures err == writeErr
      ensures writeErr.Some? ==> files == old(files)
      ensures writeErr.None? ==>
        files == old(files)[path := File(content, NewModeOf(old(files), path))]
    {
      if writeErr.Some? {
        return writeErr;
      }
      var mode := if path in files then files[path].mode else NewFileMode;
      files := files[path := File(content, mode)];
      return None;
    }

    /** FileRead: the content verbatim, state UNKNOWN. */
    function FileRead(path: string): (r: Result<FileReadResponse>)
      reads this
      ensures r.Ok? <==> path in files
      ensures r.Ok? ==> r.value == FileReadResponse(Unknown, files[path].content)
    {
      var content := ReadFile(path);
      if content.Err? then Err(content.error) else Ok(FileReadResponse(Unknown, content.value))
    }

    /**
     * FileCp, by which sides are remote: both, a copy on this host; only
     * the destination, the request's content written; only the source, its
     * content returned; neither, nothing.
     */
    method FileCp(req: FileCpRequest, writeErr: Option<string>) returns (r: Result<FileCpResponse>)
      modifies this
      ensures req.remoteSrc && req.remoteDst && req.src !in old(files) ==>
        r == Err(NoSuchFile("open", req.src)) && files == old(files)
      ensures req.remoteSrc && req.remoteDst && req.src in old(files) && writeErr.Some? ==>
        r == Err(writeErr.value) && files == old(files)
      ensures req.remoteSrc && req.remoteDst && req.src in old(files) && writeErr.None? ==>
        r == Ok(FileCpResponse(Unknown, ""))
        && files == old(files)[req.dst := File(old(files)[req.src].content, NewModeOf(old(files), req.dst))]
      ensures !req.remoteSrc && req.remoteDst && writeErr.Some? ==>
        r == Err(writeErr.value) && files == old(files)
      ensures !req.remoteSrc && req.remoteDst && writeErr.None? ==>
        r == Ok(FileCpResponse(Unknown, ""))
        && files == old(files)[req.dst := File(req.content, NewModeOf(old(files), req.dst))]
      ensures req.remoteSrc && !req.remoteDst ==>
        files == old(files)
        && (r.Ok? <==> req.src in old(files))
        && (r.Ok? ==> r.value == FileCpResponse(Unknown, old(files)[req.src].content))
        && (r.Err? ==> r == Err(NoSuchFile("open", req.src)))
      ensures !req.remoteSrc && !req.remoteDst ==> r == Ok(FileCpResponse(Unknown, "")) && files == old(files)
    {
      if req.remoteSrc && req.remoteDst {
        var content := ReadFile(req.src);
        if content.Err? {
          return Err(content.error);
        }
        var err := WriteFile(req.dst, content.value, writeErr);
        if err.Some? {
          return Err(err.value);
        }
      } else if req.remoteDst {
        var err := WriteFile(req.dst, req.content, writeErr);
        if err.Some? {
          return Err(err.value);
        }
      } else if req.remoteSrc {
        var content := ReadFile(req.src);
        if content.Err? {
          return Err(content.error);
        }
        return Ok(FileCpResponse(Unknown, content.value));
      }
      return Ok(FileCpResponse(Unknown, ""));
    }

    /** FileChmod: the mode becomes SyscallMode of the request's bits. */
    method FileChmod(path: string, filemode: nat) returns (r: Result<FileChmodResponse>)
      modifies this
      ensures r.Ok? <==> path in old(files)
      ensures r.Ok? ==>
        r.value == FileChmodResponse(Unknown)
        && files == old(files)[path := old(files)[path].(mode := SyscallMode(filemode))]
      ensures r.Err? ==> r == Err(NoSuchFile("chmod", path)) && files == old(files)
    {
      if path !in files {
        return Err(NoSuchFile("chmod", path));
      }
      files := files[path := files[path].(mode := SyscallMode(filemode))];
      return Ok(FileChmodResponse(Unknown));
    }
  }

  /** The mode os.WriteFile leaves: the old one for an existing file, 0644 for a new one. */
  function NewModeOf(files: map<string, File>, path: string): (m: nat)
    ensures path in files ==> m == files[path].mode
    ensures path !in files ==> m == NewFileMode
  {
    if path in files then files[path].mode else NewFileMode
  }

  /** Plain permission requests (below 01000) are applied exactly. */
  lemma PermissionBitsExact(m: nat)
    requires m < 0x200
    ensures SyscallMode(m) == m
  {
  }

  /** Mode 644 (decimal) asks for 01204 and yields 0204: write for the owner, read for others. */
  lemma DecimalModeBits()
    ensures SyscallMode(644) == 0x84
  {
  }
}
