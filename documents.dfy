/**
 * The file and document stores (`CaseCore::Actions::Files` and
 * `CaseCore::Actions::Documents`): `Files.create` stores a body under a
 * fresh id, `Documents.create` appends a document record.
 */
module Documents {
  import opened Values

  datatype FileRecord = FileRecord(id: nat, content: string)

  datatype DocumentRecord = DocumentRecord(
    providedAs: string,
    direction: string,
    provided: bool,
    caseId: CaseId,
    fsId: nat,
    mimeType: Value,
    filename: Value,
    createdAt: string)

  class Store {
    var files: seq<FileRecord>
    var documents: seq<DocumentRecord>
    var nextFileId: nat

    ghost predicate Valid()
      reads this
    {
      forall i :: 0 <= i < |files| ==> files[i].id < nextFileId
    }

    constructor ()
      ensures Valid() && files == [] && documents == []
    {
      files := [];
      documents := [];
      nextFileId := 1;
    }

    /** `Files.create(content)`: the new file's id, never used before. */
    method CreateFile(content: string) returns (id: nat)
      requires Valid()
      modifies this
      ensures Valid()
      ensures id == old(nextFileId) && nextFileId == id + 1
      ensures forall i :: 0 <= i < |old(files)| ==> old(files)[i].id != id
      ensures files == old(files) + [FileRecord(id, content)] && documents == old(documents)
    {
      id := nextFileId;
      files := files + [FileRecord(id, content)];
      nextFileId := nextFileId + 1;
    }

    /** `Documents.create(attributes)`. */
    method CreateDocument(d: DocumentRecord)
      modifies this
      ensures documents == old(documents) + [d]
      ensures files == old(files) && nextFileId == old(nextFileId)
    {
      documents := documents + [d];
    }
  }
}
