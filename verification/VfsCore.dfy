/** The types that cross the RPC boundary, and the user-supplied filesystem. */
module VfsCore {
  import opened Prelude
  import opened Utf8

  /** A `Path` is any byte string; a Rust `String` is always valid UTF-8. */
  type Path = seq<byte>
  type Str = s: seq<byte> | ValidUtf8(s) witness []

  datatype FsKind = File | Dir | Symlink

  datatype FileAttr = FileAttr(
    size: u64, mode: u32, kind: FsKind, mtimeSecs: i64, atimeSecs: i64, ctimeSecs: i64)

  datatype DirEntry = DirEntry(name: Str, kind: FsKind)

  datatype VfsError =
    | NotFound
    | PermissionDenied
    | AlreadyExists
    | NotADirectory
    | IsADirectory
    | Io(msg: Str)

  datatype VfsResult<+T> = Ok(value: T) | Err(error: VfsError)

  /** A filesystem over an arbitrary state `S`. `S` may hold anything the answers
      depend on (files, a clock, a source of randomness), so a record of total
      functions covers every implementation of the trait. */
  datatype Vfs<!S> = Vfs(
    stat: (S, Path) -> (S, VfsResult<FileAttr>),
    list: (S, Path) -> (S, VfsResult<seq<DirEntry>>),
    read: (S, Path, u64, u32) -> (S, VfsResult<seq<byte>>),
    write: (S, Path, u64, seq<byte>) -> (S, VfsResult<u32>),
    create: (S, Path, u32) -> (S, VfsResult<FileAttr>),
    mkdir: (S, Path, u32) -> (S, VfsResult<FileAttr>),
    remove: (S, Path) -> (S, VfsResult<()>),
    rmdir: (S, Path) -> (S, VfsResult<()>),
    rename: (S, Path, Path) -> (S, VfsResult<()>),
    truncate: (S, Path, u64) -> (S, VfsResult<()>))
}
