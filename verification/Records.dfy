/** Scan records: what one file looked like when it was found. */
module Records {
  type Path = string

  /** Stable identity of one physical file: volume serial and file id. */
  datatype Identity = Identity(volume: nat, fileId: nat)

  /** The selected root that authorized a record's discovery. */
  datatype Scope = Scope(rootPath: Path, rootIdentity: Identity, rootIsFile: bool)

  datatype FileRecord = FileRecord(
    path: Path,
    size: nat,
    createdAt: int,
    modifiedAt: int,
    category: string,
    identity: Identity,
    linkCount: nat,
    namedStreams: nat,
    scope: Scope)

  datatype DuplicateGroup = DuplicateGroup(size: nat, hash: string, files: seq<FileRecord>)

  const NO_IDENTITY := Identity(0, 0)
}
