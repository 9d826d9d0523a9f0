/** The staging area (index) of StagingArea.java: two maps from file name to blob id,
    one for files staged for addition and one for files staged for removal. The empty
    string is the marker value the source stores when it has no blob id to record. */
module Staging {
  import opened Common

  /** The value `add(f)` and `remove(f)` store when no blob id is given. */
  const EmptyMarker: string := ""

  class StagingArea {
    /** Files staged for addition: file name to blob id. */
    var addFile: map<string, string>
    /** Files staged for removal: file name to blob id or the empty marker. */
    var removeFile: map<string, string>

    /** Both maps start empty. */
    constructor ()
      ensures addFile == map[] && removeFile == map[]
    {
      addFile := map[];
      removeFile := map[];
    }

    /** Nothing is staged at all. */
    predicate IsEmpty()
      reads this
    {
      |addFile| == 0 && |removeFile| == 0
    }

    /** `add(fileName, shaCode)`: stage `fileName` for addition with that blob id. */
    method Add(fileName: string, shaCode: string)
      modifies this`addFile
      ensures addFile == old(addFile)[fileName := shaCode]
      ensures fileName in addFile && addFile[fileName] == shaCode
      ensures forall f :: f != fileName ==> Get(addFile, f) == Get(old(addFile), f)
      ensures removeFile == old(removeFile)
    {
      addFile := addFile[fileName := shaCode];
    }

    /** `add(fileName)`: stage `fileName` for addition with the empty marker as blob id. */
    method AddEmpty(fileName: string)
      modifies this`addFile
      ensures addFile == old(addFile)[fileName := EmptyMarker]
      ensures removeFile == old(removeFile)
    {
      addFile := addFile[fileName := EmptyMarker];
    }

    /** `remove(fileName, shaCode)`: stage `fileName` for removal, recording that blob id. */
    method Remove(fileName: string, shaCode: string)
      modifies this`removeFile
      ensures removeFile == old(removeFile)[fileName := shaCode]
      ensures forall f :: f != fileName ==> Get(removeFile, f) == Get(old(removeFile), f)
      ensures addFile == old(addFile)
    {
      removeFile := removeFile[fileName := shaCode];
    }

    /** `remove(fileName)`: stage `fileName` for removal with the empty marker. */
    method RemoveEmpty(fileName: string)
      modifies this`removeFile
      ensures removeFile == old(removeFile)[fileName := EmptyMarker]
      ensures addFile == old(addFile)
    {
      removeFile := removeFile[fileName := EmptyMarker];
    }

    /** `removeAdd(fileName)`: unstage `fileName` from addition; other keys keep their values. */
    method RemoveAdd(fileName: string)
      modifies this`addFile
      ensures addFile == old(addFile) - {fileName}
      ensures fileName !in addFile
      ensures forall f :: f != fileName ==> Get(addFile, f) == Get(old(addFile), f)
      ensures removeFile == old(removeFile)
    {
      addFile := addFile - {fileName};
    }

    /** `removeRemove(fileName)`: unstage `fileName` from removal; other keys keep their values. */
    method RemoveRemove(fileName: string)
      modifies this`removeFile
      ensures removeFile == old(removeFile) - {fileName}
      ensures fileName !in removeFile
      ensures forall f :: f != fileName ==> Get(removeFile, f) == Get(old(removeFile), f)
      ensures addFile == old(addFile)
    {
      removeFile := removeFile - {fileName};
    }

    /** `clear()`: both maps are replaced by empty ones. */
    method Clear()
      modifies this
      ensures addFile == map[] && removeFile == map[]
    {
      addFile := map[];
      removeFile := map[];
    }
  }

  /** Unstaging the same file twice leaves what unstaging it once leaves: `removeAdd`
      and `removeRemove` are idempotent. */
  method UnstageTwice(s: StagingArea, fileName: string)
    modifies s
    ensures s.addFile == old(s.addFile) - {fileName}
    ensures s.removeFile == old(s.removeFile) - {fileName}
  {
    s.RemoveAdd(fileName);
    ghost var once := s.addFile;
    s.RemoveAdd(fileName);
    assert s.addFile == once;
    s.RemoveRemove(fileName);
    s.RemoveRemove(fileName);
  }
}
