/**
 * The document chamber: an ordered list of uploaded documents with a
 * status each, a pending-upload list, a signing dialog, a delete
 * confirmation, and a filtered, searched, newest-first view of the list.
 */
module DocumentChamber {
  import opened Wrappers
  import opened JsString
  import opened JsArray

  datatype DocStatus = Draft | InReview | Signed

  /** The status tabs above the list: "All" or one status. */
  datatype StatusFilter = All | Only(status: DocStatus)

  /** A document record; `uploadedAt` is a timestamp, `signatureData` the signature image's data URL. */
  datatype Document = Document(id: string, name: string, mime: Option<string>, status: DocStatus,
                               uploadedAt: int, signatureData: Option<string>)

  /** A file picked or dropped by the user: its name and its (possibly empty) MIME type. */
  datatype PickedFile = PickedFile(name: string, mimeType: string)

  /** JavaScript truthiness of a nullable id: null and the empty string are both falsy. */
  predicate Truthy(id: Option<string>) { id.Some? && id.value != "" }

  function StatusIs(status: DocStatus): Document -> bool { (d: Document) => d.status == status }
  function IdIs(id: string): Document -> bool { (d: Document) => d.id == id }
  function IdIsNot(id: string): Document -> bool { (d: Document) => d.id != id }
  function SameTime(t: int): Document -> bool { (d: Document) => d.uploadedAt == t }

  /** `d.name.toLowerCase().includes(search.toLowerCase())`. */
  function NameMatches(search: string): Document -> bool {
    (d: Document) => Includes(Lower(d.name), Lower(search))
  }

  // ---------------------------------------------------------------------
  // The visible list
  // ---------------------------------------------------------------------

  /** The tab filter: every document for "All", else those with that status. */
  function ByStatus(docs: seq<Document>, filter: StatusFilter): seq<Document> {
    if filter.All? then docs else Filter(StatusIs(filter.status), docs)
  }

  /** The search filter, applied only when the trimmed search is non-empty; the search itself is not trimmed. */
  function BySearch(docs: seq<Document>, search: string): seq<Document> {
    if Trim(search) == "" then docs else Filter(NameMatches(search), docs)
  }

  /** A document passes both filters. */
  predicate Shown(d: Document, filter: StatusFilter, search: string) {
    (filter.Only? ==> d.status == filter.status) &&
    (Trim(search) != "" ==> Includes(Lower(d.name), Lower(search)))
  }

  /** Sorted by upload time, newest first. */
  predicate NewestFirst(docs: seq<Document>) {
    forall i, j :: 0 <= i < j < |docs| ==> docs[i].uploadedAt >= docs[j].uploadedAt
  }

  /** A document no older than the head of a newest-first list can go in front of it. */
  lemma PrependNewest(d: Document, docs: seq<Document>)
    requires NewestFirst(docs)
    requires docs != [] ==> docs[0].uploadedAt <= d.uploadedAt
    ensures NewestFirst([d] + docs)
  {
    var r := [d] + docs;
    forall i, j | 0 <= i < j < |r| ensures r[i].uploadedAt >= r[j].uploadedAt {
      if i == 0 {
        assert r[j] == docs[j - 1];
        assert docs[0].uploadedAt >= docs[j - 1].uploadedAt;
      } else {
        assert r[i] == docs[i - 1] && r[j] == docs[j - 1];
      }
    }
  }

  lemma NewestFirstTail(docs: seq<Document>)
    requires NewestFirst(docs) && docs != []
    ensures NewestFirst(docs[1..])
  {
    forall i, j | 0 <= i < j < |docs| - 1 ensures docs[1..][i].uploadedAt >= docs[1..][j].uploadedAt {
      assert docs[1..][i] == docs[i + 1] && docs[1..][j] == docs[j + 1];
    }
  }

  /** Inserts `d` before the first document that is not newer than it. */
  function Insert(d: Document, docs: seq<Document>): (r: seq<Document>)
    requires NewestFirst(docs)
    ensures multiset(r) == multiset(docs) + multiset{d}
    ensures NewestFirst(r)
    ensures r[0] == d || (docs != [] && r[0] == docs[0])
  {
    if docs == [] then [d]
    else if d.uploadedAt >= docs[0].uploadedAt then
      PrependNewest(d, docs);
      [d] + docs
    else
      NewestFirstTail(docs);
      var rest := Insert(d, docs[1..]);
      assert docs[1..] != [] ==> docs[1].uploadedAt <= docs[0].uploadedAt;
      PrependNewest(docs[0], rest);
      assert docs == [docs[0]] + docs[1..];
      [docs[0]] + rest
  }

  /**
   * `list.sort((a, b) => b.uploadedAt - a.uploadedAt)`: a stable sort by
   * upload time, newest first (`Array.prototype.sort` is stable).
   */
  function SortNewestFirst(docs: seq<Document>): (r: seq<Document>)
    ensures multiset(r) == multiset(docs)
    ensures NewestFirst(r)
  {
    if docs == [] then []
    else
      assert docs == [docs[0]] + docs[1..];
      Insert(docs[0], SortNewestFirst(docs[1..]))
  }

  lemma {:induction false} InsertStable(d: Document, docs: seq<Document>, t: int)
    requires NewestFirst(docs)
    ensures Filter(SameTime(t), Insert(d, docs)) == Filter(SameTime(t), [d] + docs)
  {
    if docs != [] && d.uploadedAt < docs[0].uploadedAt {
      var head, tail := docs[0], docs[1..];
      assert docs == [head] + tail;
      InsertStable(d, tail, t);
      FilterAppend(SameTime(t), [head], Insert(d, tail));
      FilterAppend(SameTime(t), [d], tail);
      FilterAppend(SameTime(t), [d], docs);
      FilterAppend(SameTime(t), [head], tail);
    }
  }

  /** The sort is stable: documents uploaded at the same time keep their relative order. */
  lemma {:induction false} SortStable(docs: seq<Document>, t: int)
    ensures Filter(SameTime(t), SortNewestFirst(docs)) == Filter(SameTime(t), docs)
  {
    if docs != [] {
      var head, tail := docs[0], docs[1..];
      assert docs == [head] + tail;
      SortStable(tail, t);
      InsertStable(head, SortNewestFirst(tail), t);
      FilterAppend(SameTime(t), [head], SortNewestFirst(tail));
      FilterAppend(SameTime(t), [head], tail);
    }
  }

  /** Two sequences with the same multiset have the same members. */
  lemma SameMembers(a: seq<Document>, b: seq<Document>)
    requires multiset(a) == multiset(b)
    ensures forall d :: d in a <==> d in b
  {
    forall d ensures d in a <==> d in b {
      assert d in a <==> d in multiset(a);
      assert d in b <==> d in multiset(b);
    }
  }

  /** The two filters together keep exactly the documents that are shown. */
  lemma FilteredMembers(documents: seq<Document>, filter: StatusFilter, search: string)
    ensures forall d :: d in BySearch(ByStatus(documents, filter), search) <==> d in documents && Shown(d, filter, search)
  {
  }

  /**
   * `visibleDocs`: the documents that pass the status tab and the search,
   * newest first. It is a value computed from the list; the list is not changed.
   */
  function VisibleDocs(documents: seq<Document>, filter: StatusFilter, search: string): (r: seq<Document>)
    ensures forall d :: d in r <==> d in documents && Shown(d, filter, search)
    ensures multiset(r) == multiset(BySearch(ByStatus(documents, filter), search))
    ensures NewestFirst(r)
  {
    var filtered := BySearch(ByStatus(documents, filter), search);
    var sorted := SortNewestFirst(filtered);
    FilteredMembers(documents, filter, search);
    SameMembers(sorted, filtered);
    sorted
  }

  /** A search of whitespace only (trim gives "") filters nothing: it shows what the empty search shows. */
  lemma BlankSearchIgnored(documents: seq<Document>, filter: StatusFilter, search: string)
    requires IsBlank(search)
    ensures VisibleDocs(documents, filter, search) == VisibleDocs(documents, filter, "")
  {
    TrimEmptyIffBlank(search);
  }

  /** A search with a character trim keeps is not blank. */
  lemma NotBlank(search: string, i: nat)
    requires i < |search| && !IsTrimmable(search[i])
    ensures Trim(search) != ""
  {
    TrimEmptyIffBlank(search);
  }

  lemma SpaceSearchMissesName()
    ensures Trim(" ab") != "" && Lower(" ab") == " ab" && !Includes("ab", " ab")
  {
    LowerNoCapitals(" ab");
    NotBlank(" ab", 1);
    assert !Includes("", " ab");
    assert !Includes("b", " ab") by { assert "b"[1..] == ""; }
    assert "ab"[1..] == "b";
  }

  lemma PlainSearchFindsName()
    ensures Trim("ab") != "" && Lower("ab") == "ab" && Includes("ab", "ab")
  {
    LowerNoCapitals("ab");
    NotBlank("ab", 0);
  }

  /** The visible list of a one-document list is that document when it is shown, and empty otherwise. */
  lemma VisibleSingle(d: Document, filter: StatusFilter, search: string)
    ensures VisibleDocs([d], filter, search) == if Shown(d, filter, search) then [d] else []
  {
    var filtered := BySearch(ByStatus([d], filter), search);
    assert filtered == if Shown(d, filter, search) then [d] else [] by {
      assert d in [d];
      assert [d][1..] == [];
    }
    var r := VisibleDocs([d], filter, search);
    assert multiset(r) == multiset(filtered);
    if Shown(d, filter, search) {
      assert |r| == 1;
      assert r[0] in multiset(r);
      assert r == [r[0]];
    }
  }

  /** A non-blank search is matched untrimmed: a leading space must occur in the name. */
  lemma SearchIsNotTrimmed(d: Document)
    requires d.name == "ab"
    ensures VisibleDocs([d], All, "ab") == [d]
    ensures VisibleDocs([d], All, " ab") == []
  {
    PlainSearchFindsName();
    SpaceSearchMissesName();
    assert Lower(d.name) == "ab";
    VisibleSingle(d, All, "ab");
    VisibleSingle(d, All, " ab");
  }

  // ---------------------------------------------------------------------
  // Updates of the document list
  // ---------------------------------------------------------------------

  /** The records `uploadPending` builds: one Draft per file, in order, with the file's name and MIME type. */
  function NewDrafts(files: seq<PickedFile>, ids: seq<string>, times: seq<int>): (r: seq<Document>)
    requires |ids| == |files| && |times| == |files|
    ensures |r| == |files|
    ensures forall i :: 0 <= i < |r| ==>
              r[i].id == ids[i] && r[i].name == files[i].name && r[i].uploadedAt == times[i] &&
              r[i].status == Draft && r[i].signatureData == None
    ensures forall i :: 0 <= i < |r| ==>
              (r[i].mime == None <==> files[i].mimeType == "") &&
              (r[i].mime.Some? ==> r[i].mime.value == files[i].mimeType)
  {
    seq(|files|, i requires 0 <= i < |files| =>
      Document(ids[i], files[i].name, if files[i].mimeType == "" then None else Some(files[i].mimeType),
               Draft, times[i], None))
  }

  /** `changeStatus`: documents with the id take the status; nothing else changes. */
  function SetStatus(docs: seq<Document>, id: string, status: DocStatus): (r: seq<Document>)
    ensures |r| == |docs|
    ensures forall i :: 0 <= i < |r| ==> r[i].(status := docs[i].status) == docs[i]
    ensures forall i :: 0 <= i < |r| ==> r[i].status == if docs[i].id == id then status else docs[i].status
  {
    seq(|docs|, i requires 0 <= i < |docs| => if docs[i].id == id then docs[i].(status := status) else docs[i])
  }

  /** Changing the status of an id no document carries changes nothing. */
  lemma SetStatusAbsent(docs: seq<Document>, id: string, status: DocStatus)
    requires forall i :: 0 <= i < |docs| ==> docs[i].id != id
    ensures SetStatus(docs, id, status) == docs
  {
  }

  /** A status change is idempotent, and the later of two changes to one id wins. */
  lemma SetStatusTwice(docs: seq<Document>, id: string, first: DocStatus, second: DocStatus)
    ensures SetStatus(SetStatus(docs, id, first), id, second) == SetStatus(docs, id, second)
  {
  }

  /** `saveSignature`'s update: documents with the id get the signature and become Signed; nothing else changes. */
  function AttachSignature(docs: seq<Document>, id: string, dataUrl: string): (r: seq<Document>)
    ensures |r| == |docs|
    ensures forall i :: 0 <= i < |r| ==> r[i].(status := docs[i].status, signatureData := docs[i].signatureData) == docs[i]
    ensures forall i :: 0 <= i < |r| && docs[i].id == id ==> r[i].status == Signed && r[i].signatureData == Some(dataUrl)
    ensures forall i :: 0 <= i < |r| && docs[i].id != id ==> r[i] == docs[i]
  {
    seq(|docs|, i requires 0 <= i < |docs| =>
      if docs[i].id == id then docs[i].(signatureData := Some(dataUrl), status := Signed) else docs[i])
  }

  /** `doDelete`'s update: exactly the documents with the id are gone, the rest keep their order. */
  function RemoveDocument(docs: seq<Document>, id: string): (r: seq<Document>)
    ensures forall d :: d in r <==> d in docs && d.id != id
    ensures |r| + |Filter(IdIs(id), docs)| == |docs|
  {
    FilterPartition(IdIsNot(id), IdIs(id), docs);
    Filter(IdIsNot(id), docs)
  }

  /** Removal distributes over concatenation, so the documents that stay keep their relative order. */
  lemma RemoveDocumentAppend(s: seq<Document>, t: seq<Document>, id: string)
    ensures RemoveDocument(s + t, id) == RemoveDocument(s, id) + RemoveDocument(t, id)
  {
    FilterAppend(IdIsNot(id), s, t);
  }

  // ---------------------------------------------------------------------
  // Status counts shown above the list
  // ---------------------------------------------------------------------

  /** `documents.filter((d) => d.status === status).length`. */
  function StatusCount(docs: seq<Document>, status: DocStatus): (n: nat)
    ensures n <= |docs|
    ensures n == 0 <==> forall i :: 0 <= i < |docs| ==> docs[i].status != status
  {
    var kept := Filter(StatusIs(status), docs);
    assert kept != [] ==> kept[0] in kept;
    assert (exists i :: 0 <= i < |docs| && docs[i].status == status) ==> kept != [] by {
      if exists i :: 0 <= i < |docs| && docs[i].status == status {
        var i :| 0 <= i < |docs| && docs[i].status == status;
        assert docs[i] in kept;
      }
    }
    |kept|
  }

  /** The three status counts add up to the total. */
  lemma {:induction false} StatusCountsSum(docs: seq<Document>)
    ensures StatusCount(docs, Draft) + StatusCount(docs, InReview) + StatusCount(docs, Signed) == |docs|
  {
    if docs != [] {
      StatusCountsSum(docs[1..]);
    }
  }

  /** Uploading adds one Draft per file and leaves the In Review and Signed counts as they were. */
  lemma UploadCounts(files: seq<PickedFile>, ids: seq<string>, times: seq<int>, docs: seq<Document>)
    requires |ids| == |files| && |times| == |files|
    ensures var after := NewDrafts(files, ids, times) + docs;
            StatusCount(after, Draft) == |files| + StatusCount(docs, Draft) &&
            StatusCount(after, InReview) == StatusCount(docs, InReview) &&
            StatusCount(after, Signed) == StatusCount(docs, Signed)
  {
    var drafts := NewDrafts(files, ids, times);
    FilterAppend(StatusIs(Draft), drafts, docs);
    FilterAppend(StatusIs(InReview), drafts, docs);
    FilterAppend(StatusIs(Signed), drafts, docs);
    FilterKeepsAll(StatusIs(Draft), drafts);
    FilterDropsAll(StatusIs(InReview), drafts);
    FilterDropsAll(StatusIs(Signed), drafts);
  }

  /** Signing never lowers the Signed count. */
  lemma {:induction false} SigningNeverUnsigns(docs: seq<Document>, id: string, dataUrl: string)
    ensures StatusCount(AttachSignature(docs, id, dataUrl), Signed) >= StatusCount(docs, Signed)
  {
    if docs != [] {
      var after := AttachSignature(docs, id, dataUrl);
      assert after[1..] == AttachSignature(docs[1..], id, dataUrl);
      SigningNeverUnsigns(docs[1..], id, dataUrl);
    }
  }

  // ---------------------------------------------------------------------
  // The PDF check of the preview panel
  // ---------------------------------------------------------------------

  /** The name ends in ".pdf" in any mix of ASCII case. */
  predicate PdfExtension(name: string) {
    var n := |name|;
    n >= 4 && name[n - 4] == '.' && name[n - 3] in "pP" && name[n - 2] in "dD" && name[n - 1] in "fF"
  }

  /** `name.toLowerCase().endsWith(".pdf")` holds exactly for a ".pdf" extension in any ASCII case. */
  lemma LowerEndsWithPdf(name: string)
    ensures EndsWith(Lower(name), ".pdf") <==> PdfExtension(name)
  {
    var low := Lower(name);
    var n := |name|;
    if n >= 4 {
      var tail := low[n - 4..];
      assert tail == [low[n - 4], low[n - 3], low[n - 2], low[n - 1]];
      assert ".pdf" == ['.', 'p', 'd', 'f'];
      assert low[n - 4] == LowerChar(name[n - 4]) && low[n - 3] == LowerChar(name[n - 3]);
      assert low[n - 2] == LowerChar(name[n - 2]) && low[n - 1] == LowerChar(name[n - 1]);
    }
  }

  /**
   * `isPDF(doc)`: a document previews as a PDF exactly when its MIME type
   * mentions "pdf" or its name has a ".pdf" extension in any ASCII case;
   * a missing document (null) never does.
   */
  function IsPdf(doc: Option<Document>): (r: bool)
    ensures r <==> doc.Some? && ((doc.value.mime.Some? && Includes(doc.value.mime.value, "pdf")) ||
                                 PdfExtension(doc.value.name))
  {
    match doc
    case None => false
    case Some(d) =>
      LowerEndsWithPdf(d.name);
      (d.mime.Some? && Includes(d.mime.value, "pdf")) || EndsWith(Lower(d.name), ".pdf")
  }

  /** The extension test ignores ASCII case: a name ending in ".PDF" is a PDF whatever its MIME type. */
  lemma UpperCaseExtension(d: Document)
    requires EndsWith(d.name, ".PDF")
    ensures IsPdf(Some(d))
  {
    var k := |d.name| - 4;
    assert d.name[k..] == ".PDF";
    assert d.name[k] == '.' && d.name[k + 1] == 'P' && d.name[k + 2] == 'D' && d.name[k + 3] == 'F';
  }

  /** A Word document whose name has no ".pdf" extension is not shown as a PDF. */
  lemma WordDocumentIsNotPdf(d: Document)
    requires d.mime == Some("application/msword") && d.name == "report.docx"
    ensures !IsPdf(Some(d))
  {
    assert !PdfExtension("report.docx") by {
      assert "report.docx"[10] == 'x';
    }
    assert !Includes("application/msword", "pdf") by {
      NoPdfIn("application/msword");
    }
  }

  /** A string without the letter 'f' does not contain "pdf". */
  lemma {:induction false} NoPdfIn(s: string)
    requires forall i :: 0 <= i < |s| ==> s[i] != 'f'
    ensures !Includes(s, "pdf")
    decreases |s|
  {
    if |s| >= 3 {
      assert s[2] != "pdf"[2];
    }
    if s != [] {
      NoPdfIn(s[1..]);
    }
  }

  /** Whether a document previews as a PDF depends only on its name and MIME type. */
  lemma IsPdfIgnoresStatus(d: Document, status: DocStatus, signature: Option<string>)
    ensures IsPdf(Some(d.(status := status, signatureData := signature))) == IsPdf(Some(d))
  {
  }

  // ---------------------------------------------------------------------
  // The page state
  // ---------------------------------------------------------------------

  class DocumentChamberPage {
    var documents: seq<Document>
    var search: string
    var filter: StatusFilter
    /** The document shown in the preview panel: a snapshot taken when it was clicked. */
    var activeDoc: Option<Document>
    var isSignOpen: bool
    var signDocId: Option<string>
    var deleteId: Option<string>
    var dragOver: bool
    var pendingFiles: seq<PickedFile>

    constructor ()
      ensures documents == [] && search == "" && filter == All && activeDoc == None
      ensures !isSignOpen && signDocId == None && deleteId == None
      ensures !dragOver && pendingFiles == []
    {
      documents := [];
      search := "";
      filter := All;
      activeDoc := None;
      isSignOpen := false;
      signDocId := None;
      deleteId := None;
      dragOver := false;
      pendingFiles := [];
    }

    /** `setSearch` from the search box. */
    method SetSearch(text: string)
      modifies this`search
      ensures search == text
    {
      search := text;
    }

    /** `setFilter` from the status tabs. */
    method SetFilter(tab: StatusFilter)
      modifies this`filter
      ensures filter == tab
    {
      filter := tab;
    }

    /** `setActiveDoc(doc)` when a list item is clicked. */
    method SelectDocument(doc: Document)
      modifies this`activeDoc
      ensures activeDoc == Some(doc)
    {
      activeDoc := Some(doc);
    }

    /** `onPickFiles`: a non-empty pick replaces the pending list; an empty or null one is ignored. */
    method OnPickFiles(files: seq<PickedFile>)
      modifies this`pendingFiles
      ensures pendingFiles == if files == [] then old(pendingFiles) else files
    {
      if files == [] {
        return;
      }
      pendingFiles := files;
    }

    method OnDragOver()
      modifies this`dragOver
      ensures dragOver
    {
      dragOver := true;
    }

    method OnDragLeave()
      modifies this`dragOver
      ensures !dragOver
    {
      dragOver := false;
    }

    /** `onDrop`: ends the drag highlight; a non-empty drop replaces the pending list. */
    method OnDrop(files: seq<PickedFile>)
      modifies this`dragOver, this`pendingFiles
      ensures !dragOver
      ensures pendingFiles == if files == [] then old(pendingFiles) else files
    {
      dragOver := false;
      if files == [] {
        return;
      }
      pendingFiles := files;
    }

    /** The "Clear" button of the pending list. */
    method ClearPending()
      modifies this`pendingFiles
      ensures pendingFiles == []
    {
      pendingFiles := [];
    }

    /**
     * `uploadPending`: prepends one Draft per pending file and empties the
     * pending list; with nothing pending it does nothing. `ids[i]` and
     * `times[i]` stand for the id and upload time generated for file `i`.
     */
    method UploadPending(ids: seq<string>, times: seq<int>)
      requires |ids| == |pendingFiles| && |times| == |pendingFiles|
      modifies this`documents, this`pendingFiles
      ensures old(pendingFiles) == [] ==> documents == old(documents) && pendingFiles == []
      ensures documents == NewDrafts(old(pendingFiles), ids, times) + old(documents)
      ensures documents[|old(pendingFiles)|..] == old(documents)
      ensures pendingFiles == []
    {
      if pendingFiles == [] {
        return;
      }
      var drafts := NewDrafts(pendingFiles, ids, times);
      documents := drafts + documents;
      pendingFiles := [];
    }

    /** `changeStatus(id, status)`. */
    method ChangeStatus(id: string, status: DocStatus)
      modifies this`documents
      ensures documents == SetStatus(old(documents), id, status)
    {
      documents := SetStatus(documents, id, status);
    }

    /** `openSign(id)`; clearing the signature pad is not part of this model. */
    method OpenSign(id: string)
      modifies this`signDocId, this`isSignOpen
      ensures signDocId == Some(id) && isSignOpen
    {
      signDocId := Some(id);
      isSignOpen := true;
    }

    /** `closeSign`. */
    method CloseSign()
      modifies this`signDocId, this`isSignOpen
      ensures signDocId == None && !isSignOpen
    {
      isSignOpen := false;
      signDocId := None;
    }

    /**
     * `saveSignature`: `padEmpty` is "no pad, or the pad is empty" and
     * `dataUrl` is the pad's image. Nothing happens for an empty pad or a
     * falsy `signDocId`; otherwise the document is signed and the dialog closes.
     */
    method SaveSignature(padEmpty: bool, dataUrl: string)
      modifies this`documents, this`signDocId, this`isSignOpen
      ensures padEmpty || !Truthy(old(signDocId)) ==>
                documents == old(documents) && signDocId == old(signDocId) && isSignOpen == old(isSignOpen)
      ensures !padEmpty && Truthy(old(signDocId)) ==>
                documents == AttachSignature(old(documents), old(signDocId).value, dataUrl) &&
                signDocId == None && !isSignOpen
    {
      if padEmpty {
        return;
      }
      if !Truthy(signDocId) {
        return;
      }
      documents := AttachSignature(documents, signDocId.value, dataUrl);
      CloseSign();
    }

    /** `confirmDelete(id)`: asks for confirmation of deleting `id`. */
    method ConfirmDelete(id: string)
      modifies this`deleteId
      ensures deleteId == Some(id)
    {
      deleteId := Some(id);
    }

    /** The "Cancel" button of the delete confirmation. */
    method CancelDelete()
      modifies this`deleteId
      ensures deleteId == None
    {
      deleteId := None;
    }

    /**
     * `doDelete`: with a falsy `deleteId` nothing happens; otherwise the
     * documents with that id are removed, the preview is cleared if it showed
     * one of them, and the confirmation is dismissed.
     */
    method DoDelete()
      modifies this`documents, this`activeDoc, this`deleteId
      ensures !Truthy(old(deleteId)) ==>
                documents == old(documents) && activeDoc == old(activeDoc) && deleteId == old(deleteId)
      ensures Truthy(old(deleteId)) ==>
                documents == RemoveDocument(old(documents), old(deleteId).value) &&
                activeDoc == (if old(activeDoc).Some? && old(activeDoc).value.id == old(deleteId).value
                              then None else old(activeDoc)) &&
                deleteId == None
    {
      if !Truthy(deleteId) {
        return;
      }
      var id := deleteId.value;
      documents := RemoveDocument(documents, id);
      if activeDoc.Some? && activeDoc.value.id == id {
        activeDoc := None;
      }
      deleteId := None;
    }
  }
}
