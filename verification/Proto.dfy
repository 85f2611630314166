/** The request and response messages, one of each per filesystem operation. */
module Proto {
  import opened Prelude
  import opened VfsCore

  const PROTOCOL_VERSION: u32 := 1

  datatype Request =
    | Hello(protocolVersion: u32)
    | Stat(path: Path)
    | List(path: Path)
    | Read(path: Path, offset: u64, len: u32)
    | Write(path: Path, offset: u64, data: seq<byte>)
    | Create(path: Path, mode: u32)
    | Mkdir(path: Path, mode: u32)
    | Remove(path: Path)
    | Rmdir(path: Path)
    | Rename(from: Path, to: Path)
    | Truncate(path: Path, size: u64)

  datatype Response =
    | RHello(protocolVersion: u32)
    | RStat(attr: VfsResult<FileAttr>)
    | RList(entries: VfsResult<seq<DirEntry>>)
    | RRead(data: VfsResult<seq<byte>>)
    | RWrite(count: VfsResult<u32>)
    | RCreate(attr: VfsResult<FileAttr>)
    | RMkdir(attr: VfsResult<FileAttr>)
    | RRemove(done: VfsResult<()>)
    | RRmdir(done: VfsResult<()>)
    | RRename(done: VfsResult<()>)
    | RTruncate(done: VfsResult<()>)
}
