/**
 * The admin document-verification list: users with their submitted documents,
 * a selected document on which the approve and reject dialogs act, and the
 * list's filter by a search text, a document type and a status. Statuses,
 * types and filter values are the source's strings ("all" switches a filter
 * off). The initial user list is a parameter.
 */
module DocumentVerification {
  import opened Wrappers
  import opened Text

  datatype Document = Document(docType: string, status: string, filename: string, reason: Option<string>)

  datatype User = User(id: string, name: string, email: string, submittedAt: string, documents: seq<Document>)

  /** The document a view, approve or reject button was pressed on. */
  datatype Selection = Selection(userId: string, userName: string, documentType: string, filename: string, status: string)

  datatype Verdict = Approve | Reject(reason: string)

  /** What a verdict does to the selected document. */
  function Judged(d: Document, v: Verdict): Document {
    match v
    case Approve => d.(status := "approved")
    case Reject(reason) => d.(status := "rejected", reason := Some(reason))
  }

  /** The documents of the selected user after the verdict: every document of the selected type is judged. */
  function JudgedDocuments(docs: seq<Document>, docType: string, v: Verdict): (r: seq<Document>)
    ensures |r| == |docs|
    ensures forall j :: 0 <= j < |r| ==> r[j].docType == docs[j].docType && r[j].filename == docs[j].filename
    ensures forall j :: 0 <= j < |r| && docs[j].docType != docType ==> r[j] == docs[j]
    ensures forall j :: 0 <= j < |r| && docs[j].docType == docType ==> r[j].status == if v.Approve? then "approved" else "rejected"
  {
    seq(|docs|, j requires 0 <= j < |docs| => if docs[j].docType == docType then Judged(docs[j], v) else docs[j])
  }

  /** `users.map(...)` in `approveDocument` and `rejectDocument`. */
  function WithVerdict(users: seq<User>, sel: Selection, v: Verdict): seq<User> {
    seq(|users|, i requires 0 <= i < |users| =>
      if users[i].id == sel.userId then users[i].(documents := JudgedDocuments(users[i].documents, sel.documentType, v))
      else users[i])
  }

  /**
   * A verdict changes only documents of the selected type held by the selected
   * user: those get the verdict's status (and a rejection its reason), and
   * every other user and document, and every user's details, stay as they were.
   */
  lemma VerdictTouchesOnlySelected(users: seq<User>, sel: Selection, v: Verdict)
    ensures |WithVerdict(users, sel, v)| == |users|
    ensures forall i :: 0 <= i < |users| ==>
      var u, u' := users[i], WithVerdict(users, sel, v)[i];
      u'.(documents := u.documents) == u && |u'.documents| == |u.documents|
    ensures forall i :: 0 <= i < |users| && users[i].id != sel.userId ==> WithVerdict(users, sel, v)[i] == users[i]
    ensures forall i, j :: 0 <= i < |users| && users[i].id == sel.userId && 0 <= j < |users[i].documents| ==>
      var d, d' := users[i].documents[j], WithVerdict(users, sel, v)[i].documents[j];
      if d.docType == sel.documentType then d' == Judged(d, v) else d' == d
  {
  }

  /** Approval sets "approved"; rejection sets "rejected" and the reason; nothing else about the document changes. */
  lemma VerdictStatus(d: Document, v: Verdict)
    ensures v.Approve? ==> Judged(d, v).status == "approved" && Judged(d, v).reason == d.reason
    ensures v.Reject? ==> Judged(d, v).status == "rejected" && Judged(d, v).reason == Some(v.reason)
    ensures Judged(d, v).(status := d.status, reason := d.reason) == d
  {
  }

  /** Giving the same verdict twice is giving it once. */
  lemma VerdictIdempotent(users: seq<User>, sel: Selection, v: Verdict)
    ensures WithVerdict(WithVerdict(users, sel, v), sel, v) == WithVerdict(users, sel, v)
  {
    var once := WithVerdict(users, sel, v);
    forall i | 0 <= i < |users| ensures WithVerdict(once, sel, v)[i] == once[i] {
      if users[i].id == sel.userId {
        assert JudgedDocuments(once[i].documents, sel.documentType, v) == once[i].documents;
      }
    }
  }

  /** Approving a rejected document keeps the old rejection reason beside the new status. */
  lemma ApprovalKeepsRejectionReason(d: Document, reason: string)
    ensures Judged(Judged(d, Reject(reason)), Approve).status == "approved"
    ensures Judged(Judged(d, Reject(reason)), Approve).reason == Some(reason)
  {
  }

  /** `getDocumentTypeName`: the four known types have display names, anything else shows its raw key. */
  function DocumentTypeName(docType: string): (r: string)
    ensures r == docType <==> docType !in {"aadhar", "photo", "10th_marksheet", "12th_marksheet"}
  {
    if docType == "aadhar" then assert "Aadhar Card"[0] != "aadhar"[0]; "Aadhar Card"
    else if docType == "photo" then assert "Photo"[0] != "photo"[0]; "Photo"
    else if docType == "10th_marksheet" then assert "10th Marksheet"[4] != "10th_marksheet"[4]; "10th Marksheet"
    else if docType == "12th_marksheet" then assert "12th Marksheet"[4] != "12th_marksheet"[4]; "12th Marksheet"
    else docType
  }

  /** A type is shown as its own key exactly when it is not one of the four known types. */
  lemma UnknownTypesShowKey(docType: string)
    ensures DocumentTypeName(docType) == docType <==> docType !in {"aadhar", "photo", "10th_marksheet", "12th_marksheet"}
  {
    if docType == "aadhar" { assert "Aadhar Card"[0] != "aadhar"[0]; }
    if docType == "photo" { assert "Photo"[0] != "photo"[0]; }
    if docType == "10th_marksheet" { assert |"10th Marksheet"| != |"10th_marksheet"| || "10th Marksheet"[4] != "10th_marksheet"[4]; }
    if docType == "12th_marksheet" { assert |"12th Marksheet"| != |"12th_marksheet"| || "12th Marksheet"[4] != "12th_marksheet"[4]; }
  }

  /** The search: a case-insensitive substring of the name or the e-mail. */
  predicate MatchesSearch(u: User, query: string) {
    Contains(ToLower(u.name), ToLower(query)) || Contains(ToLower(u.email), ToLower(query))
  }

  /** A document passes the type and status filters. */
  predicate DocumentMatches(d: Document, documentFilter: string, statusFilter: string) {
    (documentFilter == "all" || d.docType == documentFilter) && (statusFilter == "all" || d.status == statusFilter)
  }

  /** `user.documents.some(...)`, written as the loop-free recursion it stands for. */
  predicate SomeDocumentMatches(docs: seq<Document>, documentFilter: string, statusFilter: string) {
    docs != [] && (DocumentMatches(docs[0], documentFilter, statusFilter) || SomeDocumentMatches(docs[1..], documentFilter, statusFilter))
  }

  lemma {:induction false} SomeDocumentMatchesExists(docs: seq<Document>, documentFilter: string, statusFilter: string)
    ensures SomeDocumentMatches(docs, documentFilter, statusFilter) <==>
      exists j :: 0 <= j < |docs| && DocumentMatches(docs[j], documentFilter, statusFilter)
  {
    if docs != [] {
      SomeDocumentMatchesExists(docs[1..], documentFilter, statusFilter);
      if DocumentMatches(docs[0], documentFilter, statusFilter) {
        assert 0 < |docs|;
      } else {
        forall j | 1 <= j < |docs| ensures docs[j] == docs[1..][j - 1] { }
      }
    }
  }

  predicate Listed(u: User, query: string, documentFilter: string, statusFilter: string): (r: bool)
    ensures r ==> MatchesSearch(u, query)
    ensures statusFilter == "all" ==> (r <==> MatchesSearch(u, query))
    ensures r && statusFilter != "all" ==> exists j :: 0 <= j < |u.documents| && u.documents[j].status == statusFilter
  {
    SomeDocumentMatchesExists(u.documents, documentFilter, statusFilter);
    MatchesSearch(u, query) && (statusFilter == "all" || SomeDocumentMatches(u.documents, documentFilter, statusFilter))
  }

  /** A user is listed iff the search matches and either every status is shown or some document passes both filters. */
  lemma ListedIff(u: User, query: string, documentFilter: string, statusFilter: string)
    ensures Listed(u, query, documentFilter, statusFilter) <==>
      MatchesSearch(u, query) &&
      (statusFilter == "all" ||
       exists j :: 0 <= j < |u.documents| && (documentFilter == "all" || u.documents[j].docType == documentFilter)
                                          && u.documents[j].status == statusFilter)
  {
    SomeDocumentMatchesExists(u.documents, documentFilter, statusFilter);
  }

  /** With every status shown the document-type filter has no effect. */
  lemma TypeFilterIgnoredForAllStatuses(u: User, query: string, documentFilter: string)
    ensures Listed(u, query, documentFilter, "all") == MatchesSearch(u, query)
  {
  }

  /** `filteredUsers`: the listed users, in their order. */
  function FilteredUsers(users: seq<User>, query: string, documentFilter: string, statusFilter: string): (r: seq<User>)
    ensures |r| <= |users|
    ensures forall u :: u in r <==> u in users && Listed(u, query, documentFilter, statusFilter)
  {
    if users == [] then []
    else
      var rest := FilteredUsers(users[1..], query, documentFilter, statusFilter);
      assert forall u :: u in users <==> u == users[0] || u in users[1..];
      if Listed(users[0], query, documentFilter, statusFilter) then [users[0]] + rest else rest
  }

  /** The list's component state. */
  class VerificationList {
    var users: seq<User>
    var searchQuery: string
    var documentFilter: string
    var statusFilter: string
    var selected: Option<Selection>
    var viewDialogOpen: bool
    var approveDialogOpen: bool
    var rejectDialogOpen: bool

    function Shown(): seq<User>
      reads this
    {
      FilteredUsers(users, searchQuery, documentFilter, statusFilter)
    }

    /** The list opens on every type and on pending documents, with nothing selected. */
    constructor(initial: seq<User>)
      ensures users == initial && searchQuery == "" && documentFilter == "all" && statusFilter == "pending"
      ensures selected.None? && !viewDialogOpen && !approveDialogOpen && !rejectDialogOpen
    {
      users := initial;
      searchQuery := "";
      documentFilter := "all";
      statusFilter := "pending";
      selected := None;
      viewDialogOpen := false;
      approveDialogOpen := false;
      rejectDialogOpen := false;
    }

    method HandleViewDocument(sel: Selection)
      modifies this
      ensures selected == Some(sel) && viewDialogOpen
      ensures users == old(users) && approveDialogOpen == old(approveDialogOpen) && rejectDialogOpen == old(rejectDialogOpen)
      ensures searchQuery == old(searchQuery) && documentFilter == old(documentFilter) && statusFilter == old(statusFilter)
    {
      selected := Some(sel);
      viewDialogOpen := true;
    }

    method HandleApproveDocument(sel: Selection)
      modifies this
      ensures selected == Some(sel) && approveDialogOpen
      ensures users == old(users) && viewDialogOpen == old(viewDialogOpen) && rejectDialogOpen == old(rejectDialogOpen)
      ensures searchQuery == old(searchQuery) && documentFilter == old(documentFilter) && statusFilter == old(statusFilter)
    {
      selected := Some(sel);
      approveDialogOpen := true;
    }

    method HandleRejectDocument(sel: Selection)
      modifies this
      ensures selected == Some(sel) && rejectDialogOpen
      ensures users == old(users) && viewDialogOpen == old(viewDialogOpen) && approveDialogOpen == old(approveDialogOpen)
      ensures searchQuery == old(searchQuery) && documentFilter == old(documentFilter) && statusFilter == old(statusFilter)
    {
      selected := Some(sel);
      rejectDialogOpen := true;
    }

    /** `approveDocument`: without a selection nothing happens; with one the verdict is applied and the dialog closes. */
    method ApproveDocument()
      modifies this
      ensures old(selected).None? ==> users == old(users) && approveDialogOpen == old(approveDialogOpen)
      ensures old(selected).Some? ==> users == WithVerdict(old(users), old(selected).value, Approve) && !approveDialogOpen
      ensures selected == old(selected) && viewDialogOpen == old(viewDialogOpen) && rejectDialogOpen == old(rejectDialogOpen)
      ensures searchQuery == old(searchQuery) && documentFilter == old(documentFilter) && statusFilter == old(statusFilter)
    {
      if selected.None? {
        return;
      }
      users := WithVerdict(users, selected.value, Approve);
      approveDialogOpen := false;
    }

    /** `rejectDocument(reason)`: as approval, with the rejected status and the reason. */
    method RejectDocument(reason: string)
      modifies this
      ensures old(selected).None? ==> users == old(users) && rejectDialogOpen == old(rejectDialogOpen)
      ensures old(selected).Some? ==> users == WithVerdict(old(users), old(selected).value, Reject(reason)) && !rejectDialogOpen
      ensures selected == old(selected) && viewDialogOpen == old(viewDialogOpen) && approveDialogOpen == old(approveDialogOpen)
      ensures searchQuery == old(searchQuery) && documentFilter == old(documentFilter) && statusFilter == old(statusFilter)
    {
      if selected.None? {
        return;
      }
      users := WithVerdict(users, selected.value, Reject(reason));
      rejectDialogOpen := false;
    }

    method SetFilters(query: string, documentType: string, status: string)
      modifies this
      ensures searchQuery == query && documentFilter == documentType && statusFilter == status
      ensures users == old(users) && selected == old(selected)
      ensures viewDialogOpen == old(viewDialogOpen) && approveDialogOpen == old(approveDialogOpen) && rejectDialogOpen == old(rejectDialogOpen)
    {
      searchQuery := query;
      documentFilter := documentType;
      statusFilter := status;
    }
  }
}
