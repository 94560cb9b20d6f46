/**
 * `Base::MessageDrivenFSA::OutputFilesExtractor`: stores the files a reply
 * attaches and links each one to the case as an output document. Each
 * attachment names a file of the file storage by `fs_id`; its body arrives
 * as a data URL, and the text after the first `base64,` is decoded. The
 * storage request and Base64 decoding are parameters (`fetch`, `decode64`).
 */
module OutputFilesExtractor {
  import opened Wrappers
  import opened Values
  import opened Errors
  import opened ResponseDataSchema
  import opened Documents

  const Marker: string := "base64,"

  /** The marker starts at position `j` of `s`. */
  predicate MarkerAt(s: string, j: int)
  {
    0 <= j && j + 7 <= |s|
    && s[j] == 'b' && s[j + 1] == 'a' && s[j + 2] == 's' && s[j + 3] == 'e'
    && s[j + 4] == '6' && s[j + 5] == '4' && s[j + 6] == ','
  }

  /** The first position at or after `k` where the marker starts. */
  function SearchFrom(s: string, k: nat): (r: Option<nat>)
    requires k <= |s|
    ensures r.Some? ==> k <= r.value && MarkerAt(s, r.value)
    ensures r.Some? ==> forall j :: k <= j < r.value ==> !MarkerAt(s, j)
    ensures r.None? ==> forall j :: k <= j ==> !MarkerAt(s, j)
    decreases |s| - k
  {
    if k + |Marker| > |s| then None
    else if MarkerAt(s, k) then Some(k)
    else SearchFrom(s, k + 1)
  }

  /**
   * `decode_file_body`: the text after the first marker, decoded. Without a
   * marker `index` gives nil and `nil + 7` raises.
   */
  function DecodeFileBody(content: string, decode64: string -> string): Result<string, Error>
  {
    var i := SearchFrom(content, 0);
    if i.None? then Failure(NoMethod("+")) else Success(decode64(content[i.value + |Marker|..]))
  }

  /**
   * Decoding fails exactly when the body holds no marker, and otherwise
   * decodes what follows the first one.
   */
  lemma DecodeFileBodyAfterFirstMarker(content: string, decode64: string -> string)
    ensures var r := DecodeFileBody(content, decode64);
      && (r.Failure? <==> forall j :: !MarkerAt(content, j))
      && (r.Failure? ==> r.error == NoMethod("+"))
      && (r.Success? ==> exists j :: MarkerAt(content, j) && (forall k :: 0 <= k < j ==> !MarkerAt(content, k))
                                      && r.value == decode64(content[j + |Marker|..]))
  {
    var i := SearchFrom(content, 0);
    if i.Some? {
      assert MarkerAt(content, i.value);
    }
  }

  /**
   * A data URL `prefix + "base64," + payload` whose prefix holds no marker
   * decodes to its payload, whatever the payload contains.
   */
  lemma DataUrlDecoded(prefix: string, payload: string, decode64: string -> string)
    requires forall j :: !MarkerAt(prefix, j)
    ensures DecodeFileBody(prefix + Marker + payload, decode64) == Success(decode64(payload))
  {
    var s := prefix + Marker + payload;
    var n := |prefix|;
    assert s[..n] == prefix;
    assert s[n..n + |Marker|] == Marker;
    assert MarkerAt(s, n);
    forall j | 0 <= j < n
      ensures !MarkerAt(s, j)
    {
      if j + |Marker| <= n {
        MarkerInPrefix(s, prefix, j);
      } else {
        // The comma that ends a marker at `j` would fall among the first six
        // characters of the marker copy at `n`, none of which is a comma.
        assert s[j + 6] == s[n..n + |Marker|][j + 6 - n];
      }
    }
    var i := SearchFrom(s, 0);
    assert i == Some(n);
    assert s[n + |Marker|..] == payload;
  }

  /** A marker wholly inside a prefix of `s` is a marker of that prefix. */
  lemma MarkerInPrefix(s: string, prefix: string, j: nat)
    requires |prefix| <= |s| && s[..|prefix|] == prefix
    requires j + |Marker| <= |prefix|
    ensures MarkerAt(s, j) == MarkerAt(prefix, j)
  {
    assert forall t :: j <= t < j + |Marker| ==> s[t] == s[..|prefix|][t];
  }

  /** One attachment the extractor stored: its entry and its decoded body. */
  datatype Saved = Saved(entry: Attachment, body: string)

  /**
   * `save_output_file` for one entry, before it writes: `None` when the
   * entry is nil or has no `fs_id` and is skipped, otherwise the fetched and
   * decoded body or the error that fetching or decoding raises.
   */
  function SaveOne(entry: Option<Attachment>, fetch: string -> Option<string>, decode64: string -> string): (r: Option<Result<Saved, Error>>)
    ensures r.None? <==> entry.None? || entry.value.fsId.None?
    ensures r.Some? && r.value.Success? ==> r.value.value.entry == entry.value
  {
    if entry.None? || entry.value.fsId.None? then None
    else
      var a := entry.value;
      var body := fetch(a.fsId.value);
      if body.None? then Some(Failure(FileFetchFailed(a.fsId.value)))
      else
        var decoded := DecodeFileBody(body.value, decode64);
        if decoded.Failure? then Some(Failure(decoded.error)) else Some(Success(Saved(a, decoded.value)))
  }

  /** The entries `save_output_file` does not skip, in list order. */
  function Kept(atts: seq<Option<Attachment>>): (r: seq<Attachment>)
    ensures |r| <= |atts|
  {
    if atts == [] then []
    else (if atts[0].Some? && atts[0].value.fsId.Some? then [atts[0].value] else []) + Kept(atts[1..])
  }

  /** An entry is kept exactly when it is non-nil and carries a file id. */
  lemma {:induction false} KeptMembers(atts: seq<Option<Attachment>>)
    ensures forall a :: a in Kept(atts) <==> Some(a) in atts && a.fsId.Some?
    decreases |atts|
  {
    if atts != [] {
      KeptMembers(atts[1..]);
      assert atts == [atts[0]] + atts[1..];
    }
  }

  /** Keeping distributes over concatenation, so the kept entries keep their relative order. */
  lemma {:induction false} KeptAppend(a: seq<Option<Attachment>>, b: seq<Option<Attachment>>)
    ensures Kept(a + b) == Kept(a) + Kept(b)
    decreases |a|
  {
    if a == [] {
      assert a + b == b;
    } else {
      var head := if a[0].Some? && a[0].value.fsId.Some? then [a[0].value] else [];
      assert (a + b)[0] == a[0];
      assert (a + b)[1..] == a[1..] + b;
      KeptAppend(a[1..], b);
      calc {
        Kept(a + b);
        head + Kept(a[1..] + b);
        head + (Kept(a[1..]) + Kept(b));
        (head + Kept(a[1..])) + Kept(b);
      }
    }
  }

  /** What `extract` stores, in list order, and the error that stops it. */
  function Saving(atts: seq<Option<Attachment>>, fetch: string -> Option<string>, decode64: string -> string): (seq<Saved>, Option<Error>)
    decreases |atts|
  {
    if atts == [] then ([], None)
    else
      match SaveOne(atts[0], fetch, decode64)
      case None => Saving(atts[1..], fetch, decode64)
      case Some(Failure(e)) => ([], Some(e))
      case Some(Success(s)) =>
        var rest := Saving(atts[1..], fetch, decode64);
        ([s] + rest.0, rest.1)
  }

  /** `attachments&.each`: a nil list is no list. */
  function Entries(attachments: Option<seq<Option<Attachment>>>): seq<Option<Attachment>>
  {
    if attachments.None? then [] else attachments.value
  }

  /** `DOCUMENT_ATTRS` completed by `document_params`. */
  function DocumentFor(caseId: CaseId, fsId: nat, a: Attachment, createdAt: string): DocumentRecord
  {
    DocumentRecord("original", "output", true, caseId, fsId, a.mimeType, a.filename, createdAt)
  }

  /** The file records for `saved`, numbered from `firstId`. */
  function NewFiles(saved: seq<Saved>, firstId: nat): (r: seq<FileRecord>)
    ensures |r| == |saved|
    ensures forall i :: 0 <= i < |saved| ==> r[i] == FileRecord(firstId + i, saved[i].body)
  {
    seq(|saved|, i requires 0 <= i < |saved| => FileRecord(firstId + i, saved[i].body))
  }

  /** The document records for `saved`, each pointing at its own new file. */
  function NewDocuments(saved: seq<Saved>, firstId: nat, caseId: CaseId, createdAt: string): (r: seq<DocumentRecord>)
    ensures |r| == |saved|
    ensures forall i :: 0 <= i < |saved| ==> r[i] == DocumentFor(caseId, firstId + i, saved[i].entry, createdAt)
  {
    seq(|saved|, i requires 0 <= i < |saved| => DocumentFor(caseId, firstId + i, saved[i].entry, createdAt))
  }

  /** `save_output_file(document)` against the stores. */
  method SaveOutputFile(caseId: CaseId, entry: Option<Attachment>, fetch: string -> Option<string>, decode64: string -> string,
                        createdAt: string, store: Store) returns (r: Outcome<Error>)
    requires store.Valid()
    modifies store
    ensures store.Valid()
    ensures var one := SaveOne(entry, fetch, decode64);
      && (one.None? ==> r == Pass && unchanged(store))
      && (one.Some? && one.value.Failure? ==> r == Fail(one.value.error) && unchanged(store))
      && (one.Some? && one.value.Success? ==>
            r == Pass
            && store.files == old(store.files) + [FileRecord(old(store.nextFileId), one.value.value.body)]
            && store.documents == old(store.documents) + [DocumentFor(caseId, old(store.nextFileId), one.value.value.entry, createdAt)]
            && store.nextFileId == old(store.nextFileId) + 1)
  {
    if entry.None? || entry.value.fsId.None? {
      return Pass;
    }
    var a := entry.value;
    var body := fetch(a.fsId.value);
    if body.None? {
      return Fail(FileFetchFailed(a.fsId.value));
    }
    var decoded := DecodeFileBody(body.value, decode64);
    if decoded.Failure? {
      return Fail(decoded.error);
    }
    var fsId := store.CreateFile(decoded.value);
    store.CreateDocument(DocumentFor(caseId, fsId, a, createdAt));
    r := Pass;
  }

  /**
   * `extract`: the entries in list order; the first failure ends the loop
   * and is raised, and the files and documents stored before it remain.
   */
  method Extract(caseId: CaseId, attachments: Option<seq<Option<Attachment>>>, fetch: string -> Option<string>,
                 decode64: string -> string, createdAt: string, store: Store) returns (r: Outcome<Error>)
    requires store.Valid()
    modifies store
    ensures store.Valid()
    ensures var (saved, err) := Saving(Entries(attachments), fetch, decode64);
      && store.files == old(store.files) + NewFiles(saved, old(store.nextFileId))
      && store.documents == old(store.documents) + NewDocuments(saved, old(store.nextFileId), caseId, createdAt)
      && store.nextFileId == old(store.nextFileId) + |saved|
      && (err.None? ==> r == Pass)
      && (err.Some? ==> r == Fail(err.value))
  {
    var atts := Entries(attachments);
    var firstId := store.nextFileId;
    var i := 0;
    ghost var saved: seq<Saved> := [];
    assert atts[0..] == atts;
    assert [] + Saving(atts, fetch, decode64).0 == Saving(atts, fetch, decode64).0;
    assert Then(saved, Saving(atts[0..], fetch, decode64)) == Saving(atts, fetch, decode64);
    while i < |atts|
      invariant 0 <= i <= |atts|
      invariant store.Valid()
      invariant Saving(atts, fetch, decode64) == Then(saved, Saving(atts[i..], fetch, decode64))
      invariant store.files == old(store.files) + NewFiles(saved, firstId)
      invariant store.documents == old(store.documents) + NewDocuments(saved, firstId, caseId, createdAt)
      invariant store.nextFileId == firstId + |saved|
    {
      ghost var one := SaveOne(atts[i], fetch, decode64);
      SavingAdvances(atts, i, saved, fetch, decode64);
      r := SaveOutputFile(caseId, atts[i], fetch, decode64, createdAt, store);
      if r.Fail? {
        return;
      }
      if one.Some? {
        NewRecordsAppend(saved, one.value.value, firstId, caseId, createdAt);
        saved := saved + [one.value.value];
      }
      i := i + 1;
    }
    assert atts[i..] == [];
    r := Pass;
  }

  /** `saved` followed by what remains to be stored. */
  function Then(saved: seq<Saved>, rest: (seq<Saved>, Option<Error>)): (seq<Saved>, Option<Error>)
  {
    (saved + rest.0, rest.1)
  }

  /** One step of `extract`'s loop, as `Saving` sees it. */
  lemma SavingAdvances(atts: seq<Option<Attachment>>, i: nat, saved: seq<Saved>,
                       fetch: string -> Option<string>, decode64: string -> string)
    requires i < |atts|
    requires Saving(atts, fetch, decode64) == Then(saved, Saving(atts[i..], fetch, decode64))
    ensures var one := SaveOne(atts[i], fetch, decode64);
      && (one.None? ==> Saving(atts, fetch, decode64) == Then(saved, Saving(atts[i + 1..], fetch, decode64)))
      && (one.Some? && one.value.Failure? ==> Saving(atts, fetch, decode64) == (saved, Some(one.value.error)))
      && (one.Some? && one.value.Success? ==>
            Saving(atts, fetch, decode64) == Then(saved + [one.value.value], Saving(atts[i + 1..], fetch, decode64)))
  {
    var tail := atts[i..];
    assert tail[0] == atts[i];
    assert tail[1..] == atts[i + 1..];
    SavingStep(tail, fetch, decode64);
    var one := SaveOne(atts[i], fetch, decode64);
    if one.Some? && one.value.Success? {
      var rest := Saving(atts[i + 1..], fetch, decode64);
      assert saved + ([one.value.value] + rest.0) == (saved + [one.value.value]) + rest.0;
    } else if one.Some? {
      assert saved + [] == saved;
    }
  }

  /** One step of `Saving` at the head of the list. */
  lemma SavingStep(atts: seq<Option<Attachment>>, fetch: string -> Option<string>, decode64: string -> string)
    requires atts != []
    ensures var one := SaveOne(atts[0], fetch, decode64);
      && (one.None? ==> Saving(atts, fetch, decode64) == Saving(atts[1..], fetch, decode64))
      && (one.Some? && one.value.Failure? ==> Saving(atts, fetch, decode64) == ([], Some(one.value.error)))
      && (one.Some? && one.value.Success? ==>
            Saving(atts, fetch, decode64) == Then([one.value.value], Saving(atts[1..], fetch, decode64)))
  {
  }

  lemma NewRecordsAppend(saved: seq<Saved>, s: Saved, firstId: nat, caseId: CaseId, createdAt: string)
    ensures NewFiles(saved + [s], firstId) == NewFiles(saved, firstId) + [FileRecord(firstId + |saved|, s.body)]
    ensures NewDocuments(saved + [s], firstId, caseId, createdAt)
      == NewDocuments(saved, firstId, caseId, createdAt) + [DocumentFor(caseId, firstId + |saved|, s.entry, createdAt)]
  {
  }

  /**
   * The stored entries are the first kept entries, in list order: all of
   * them when nothing fails, and never the entry that fails.
   */
  lemma {:induction false} StoredArePrefixOfKept(atts: seq<Option<Attachment>>, fetch: string -> Option<string>, decode64: string -> string)
    ensures var (saved, err) := Saving(atts, fetch, decode64);
      && |saved| <= |Kept(atts)|
      && (forall i :: 0 <= i < |saved| ==> saved[i].entry == Kept(atts)[i])
      && (err.None? ==> |saved| == |Kept(atts)|)
      && (err.Some? ==> |saved| < |Kept(atts)|)
    decreases |atts|
  {
    if atts != [] {
      StoredArePrefixOfKept(atts[1..], fetch, decode64);
      var one := SaveOne(atts[0], fetch, decode64);
      if one.Some? && one.value.Success? {
        var rest := Saving(atts[1..], fetch, decode64);
        assert Saving(atts, fetch, decode64).0 == [one.value.value] + rest.0;
        assert Kept(atts) == [atts[0].value] + Kept(atts[1..]);
      }
    }
  }

  /** A nil attachment list, or one of nil entries only, stores nothing and raises nothing. */
  lemma {:induction false} NothingKeptNothingStored(atts: seq<Option<Attachment>>, fetch: string -> Option<string>, decode64: string -> string)
    requires forall i :: 0 <= i < |atts| ==> atts[i].None? || atts[i].value.fsId.None?
    ensures Saving(atts, fetch, decode64) == ([], None)
  {
    if atts != [] {
      NothingKeptNothingStored(atts[1..], fetch, decode64);
    }
  }

  /**
   * Every new document belongs to the case and names the file stored for
   * it, and every new file id is one the store had not used.
   */
  lemma DocumentsNameTheirFiles(saved: seq<Saved>, firstId: nat, caseId: CaseId, createdAt: string, earlier: seq<FileRecord>)
    requires forall i :: 0 <= i < |earlier| ==> earlier[i].id < firstId
    ensures forall i :: 0 <= i < |saved| ==>
      NewDocuments(saved, firstId, caseId, createdAt)[i].fsId == NewFiles(saved, firstId)[i].id
      && NewDocuments(saved, firstId, caseId, createdAt)[i].caseId == caseId
      && NewDocuments(saved, firstId, caseId, createdAt)[i].providedAs == "original"
      && NewDocuments(saved, firstId, caseId, createdAt)[i].direction == "output"
      && NewDocuments(saved, firstId, caseId, createdAt)[i].provided
    ensures forall i, j :: 0 <= i < |saved| && 0 <= j < |earlier| ==> NewFiles(saved, firstId)[i].id != earlier[j].id
    ensures forall i, j :: 0 <= i < j < |saved| ==> NewFiles(saved, firstId)[i].id != NewFiles(saved, firstId)[j].id
  {
  }
}
