/**
 An abstract volume set: directory names bound to objects, objects addressed by
 their stable identity, and the handles this process holds. Everybody else is
 the environment, limited only by the share modes of the held handles.
 */
module FileSystem {
  import opened Bytes
  import opened Records

  type Content = seq<byte>

  datatype Object = Object(bytes: Content, modifiedAt: int, namedStreams: nat)

  datatype Handle = Handle(owner: Identity, deleteAccess: bool, shareWrite: bool, shareDelete: bool)

  datatype World = World(
    names: map<Path, Identity>,
    objects: map<Identity, Object>,
    handles: set<Handle>,
    deletePending: set<Identity>)

  datatype Snapshot = Snapshot(size: nat, modifiedAt: int, identity: Identity, linkCount: nat, namedStreams: nat)

  const NO_OBJECT := Object([], 0, 0)

  ghost predicate WorldOk(w: World) {
    && (forall p :: p in w.names ==> w.names[p] in w.objects)
    && (forall h :: h in w.handles ==> h.owner in w.objects)
  }

  predicate Bound(w: World, p: Path, id: Identity) {
    p in w.names && w.names[p] == id
  }

  function Links(w: World, id: Identity): set<Path> {
    set p | p in w.names && w.names[p] == id
  }

  lemma SoleLink(w: World, id: Identity, p: Path)
    requires |Links(w, id)| == 1 && Bound(w, p, id)
    ensures Links(w, id) == {p}
  {
    assert p in Links(w, id);
    assert |Links(w, id) - {p}| == 0;
    assert Links(w, id) == {p} + (Links(w, id) - {p});
  }

  /** The object behind an identity; a held handle keeps its object alive. */
  function Look(w: World, id: Identity): Object {
    if id in w.objects then w.objects[id] else NO_OBJECT
  }

  function SnapshotOf(w: World, id: Identity): Snapshot {
    Snapshot(|Look(w, id).bytes|, Look(w, id).modifiedAt, id, |Links(w, id)|, Look(w, id).namedStreams)
  }

  /** Read handle denying write and delete sharing: the verified keeper. */
  function ReadHandle(id: Identity): Handle { Handle(id, false, false, false) }

  /** Read and delete handle denying write and delete sharing: the candidate. */
  function DeleteHandle(id: Identity): Handle { Handle(id, true, false, false) }

  /** Windows share-mode check of a new handle against those already held. */
  predicate CanOpen(w: World, h: Handle) {
    forall g <- w.handles :: g.owner == h.owner ==>
      (h.deleteAccess ==> g.shareDelete) && (g.deleteAccess ==> h.shareDelete)
  }

  function Open(w: World, h: Handle): World { w.(handles := w.handles + {h}) }

  function Rename(w: World, from: Path, to: Path): World
    requires from in w.names
  {
    w.(names := (w.names - {from})[to := w.names[from]])
  }

  function Link(w: World, existing: Path, added: Path): World
    requires existing in w.names
  {
    w.(names := w.names[added := w.names[existing]])
  }

  function MarkDelete(w: World, id: Identity): World { w.(deletePending := w.deletePending + {id}) }

  /** Closing the last handle of a delete-pending object removes the name the
      handle was opened by, and the object once no other name is left. */
  function Close(w: World, h: Handle, name: Path): World {
    var released := w.(handles := w.handles - {h}, deletePending := w.deletePending - {h.owner});
    if h.owner !in w.deletePending then released
    else
      var unlinked := released.(names := w.names - {name});
      if Links(unlinked, h.owner) == {} then unlinked.(objects := w.objects - {h.owner}) else unlinked
  }

  /** What other processes may have done between two of our calls: anything at
      all, except what the share modes of our handles forbid. A handle keeps
      its object in existence; one that denies write sharing freezes the bytes;
      one that denies delete sharing freezes every name of the object.
      Timestamps, streams and additional names stay unprotected. */
  ghost predicate Interferes(w: World, w': World) {
    && WorldOk(w')
    && w'.handles == w.handles
    && w'.deletePending == w.deletePending
    && (forall h :: h in w.handles && !h.shareWrite ==> Look(w', h.owner).bytes == Look(w, h.owner).bytes)
    && (forall h, p :: h in w.handles && !h.shareDelete && Bound(w, p, h.owner) ==> Bound(w', p, h.owner))
  }
}
