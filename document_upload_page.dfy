/**
 * The document-upload page: the status of each of the user's four documents,
 * the verification progress shown in the header, and the merge of an upload
 * card's report into the status of its document. The status request is a
 * parameter (its reply, or none when it failed).
 */
module DocumentUploadPage {
  import opened Wrappers
  import FileUpload

  datatype DocStatus = DocStatus(uploaded: bool, verified: bool, rejected: bool, rejectionReason: string, fileUrl: Option<string>)

  const NOT_UPLOADED := DocStatus(false, false, false, "", None)

  /** The status the mock request answers with: all four documents, none uploaded. */
  const INITIAL_STATUS: map<string, DocStatus> :=
    map["aadhar" := NOT_UPLOADED, "marksheet11" := NOT_UPLOADED, "marksheet12" := NOT_UPLOADED, "photo" := NOT_UPLOADED]

  lemma InitialStatusNothingUploaded()
    ensures INITIAL_STATUS.Keys == {"aadhar", "marksheet11", "marksheet12", "photo"}
    ensures forall k :: k in INITIAL_STATUS ==> !INITIAL_STATUS[k].uploaded && !INITIAL_STATUS[k].verified
  {
  }

  /** The documents whose status says verified. */
  function Verified(ds: map<string, DocStatus>): (r: set<string>)
    ensures r <= ds.Keys
    ensures forall k :: k in r <==> k in ds && ds[k].verified
  {
    set k | k in ds && ds[k].verified
  }

  lemma SubsetNoLarger(a: set<string>, b: set<string>)
    requires a <= b
    ensures |a| <= |b|
  {
    if a != {} {
      var x :| x in a;
      SubsetNoLarger(a - {x}, b - {x});
    }
  }

  lemma MulMono(d: int, a: int, b: int)
    requires d >= 0 && a <= b
    ensures d * a <= d * b
  {
    assert d * b - d * a == d * (b - a);
  }

  /** A quotient is at most `k` when the dividend is below `d * (k + 1)`. */
  lemma QuotientAtMost(n: int, d: int, k: int)
    requires d > 0 && 0 <= n < d * (k + 1)
    ensures n / d <= k
  {
    var q := n / d;
    assert d * q <= n;
    if q > k {
      MulMono(d, k + 1, q);
    }
  }

  /** `Math.round(verified / total * 100)` on exact fractions: the nearest whole percent, halves rounded up. */
  function RoundedPercent(verified: nat, total: nat): (p: int)
    requires 0 < total && verified <= total
    ensures 0 <= p <= 100
    ensures 2 * total * p <= 200 * verified + total < 2 * total * p + 2 * total
  {
    var n, d := 200 * verified + total, 2 * total;
    QuotientAtMost(n, d, 100);
    n / d
  }

  /** The rounding is the unique whole number within half a percent. */
  lemma RoundedPercentUnique(verified: nat, total: nat, p: int)
    requires 0 < total && verified <= total
    requires 2 * total * p <= 200 * verified + total < 2 * total * p + 2 * total
    ensures RoundedPercent(verified, total) == p
  {
    var r := RoundedPercent(verified, total);
    if r < p {
      MulMono(2 * total, r + 1, p);
    } else if r > p {
      MulMono(2 * total, p + 1, r);
    }
  }

  /**
   * `calculateProgress`: 0 before the status has arrived, else the verified
   * share as a whole percent; `None` stands for the NaN an empty status gives.
   */
  function CalculateProgress(documentStatus: Option<map<string, DocStatus>>): (p: Option<int>)
    ensures p.None? <==> documentStatus.Some? && |documentStatus.value| == 0
    ensures p.Some? ==> 0 <= p.value <= 100
  {
    match documentStatus
    case None => Some(0)
    case Some(ds) =>
      if |ds| == 0 then None
      else
        SubsetNoLarger(Verified(ds), ds.Keys);
        Some(RoundedPercent(|Verified(ds)|, |ds|))
  }

  /** Nothing verified shows 0 %, everything verified shows 100 %. */
  lemma ProgressEnds(ds: map<string, DocStatus>)
    requires |ds| > 0
    ensures (forall k :: k in ds ==> !ds[k].verified) ==> CalculateProgress(Some(ds)) == Some(0)
    ensures (forall k :: k in ds ==> ds[k].verified) ==> CalculateProgress(Some(ds)) == Some(100)
  {
    if forall k :: k in ds ==> !ds[k].verified {
      assert Verified(ds) == {};
      RoundedPercentUnique(0, |ds|, 0);
    }
    if forall k :: k in ds ==> ds[k].verified {
      assert Verified(ds) == ds.Keys;
      RoundedPercentUnique(|ds|, |ds|, 100);
    }
  }

  /** The freshly loaded page shows 0 %. */
  lemma InitialProgressIsZero()
    ensures CalculateProgress(Some(INITIAL_STATUS)) == Some(0)
  {
    assert "aadhar" in INITIAL_STATUS;
    ProgressEnds(INITIAL_STATUS);
  }

  /** One more verified document never lowers the percentage. */
  lemma ProgressMonotone(v: nat, w: nat, total: nat)
    requires 0 < total && v <= w <= total
    ensures RoundedPercent(v, total) <= RoundedPercent(w, total)
  {
    var p, q := RoundedPercent(v, total), RoundedPercent(w, total);
    if p > q {
      MulMono(2 * total, q + 1, p);
    }
  }

  /**
   * `onUploadSuccess`: the report's fields overwrite those of the one
   * document; a document missing from the status starts from falsy fields.
   */
  function Merged(ds: map<string, DocStatus>, key: string, report: FileUpload.StatusUpdate): (r: map<string, DocStatus>)
    ensures r.Keys == ds.Keys + {key}
    ensures forall k :: k in ds && k != key ==> r[k] == ds[k]
    ensures r[key].uploaded == report.uploaded && r[key].fileUrl == report.fileUrl
    ensures key in ds ==> r[key].verified == ds[key].verified && r[key].rejected == ds[key].rejected
  {
    var before := if key in ds then ds[key] else NOT_UPLOADED;
    ds[key := before.(uploaded := report.uploaded, fileUrl := report.fileUrl)]
  }

  /** The merge changes only the reported document, and only its upload fields; its verdict is kept. */
  lemma MergeTouchesOneDocument(ds: map<string, DocStatus>, key: string, report: FileUpload.StatusUpdate)
    ensures Merged(ds, key, report).Keys == ds.Keys + {key}
    ensures forall k :: k in ds && k != key ==> Merged(ds, key, report)[k] == ds[k]
    ensures Merged(ds, key, report)[key].uploaded == report.uploaded
    ensures Merged(ds, key, report)[key].fileUrl == report.fileUrl
    ensures key in ds ==> Merged(ds, key, report)[key].(uploaded := ds[key].uploaded, fileUrl := ds[key].fileUrl) == ds[key]
  {
  }

  /** An upload does not change the percentage: only verification does. */
  lemma MergeKeepsProgress(ds: map<string, DocStatus>, key: string, report: FileUpload.StatusUpdate)
    requires key in ds
    ensures CalculateProgress(Some(Merged(ds, key, report))) == CalculateProgress(Some(ds))
  {
    var m := Merged(ds, key, report);
    assert m.Keys == ds.Keys;
    assert Verified(m) == Verified(ds);
  }

  /** The page's state. */
  class UploadPage {
    var documentStatus: Option<map<string, DocStatus>>
    var isLoading: bool

    constructor()
      ensures documentStatus.None? && isLoading
    {
      documentStatus := None;
      isLoading := true;
    }

    /** `fetchDocumentStatus`: asked only for a signed-in user with a (truthy) id; loading ends either way. */
    method FetchDocumentStatus(userId: Option<int>, reply: Option<map<string, DocStatus>>)
      modifies this
      ensures !isLoading
      ensures documentStatus == if userId.Some? && userId.value != 0 && reply.Some? then reply else old(documentStatus)
    {
      if userId.Some? && userId.value != 0 && reply.Some? {
        documentStatus := reply;
      }
      isLoading := false;
    }

    /**
     * An upload card's report as the page's handler applies it: merged into
     * `rendered`, the status the handler captured when the page rendered, and
     * written over the current status; a type error while that status was
     * still missing.
     */
    method OnUploadSuccessAsWritten(rendered: Option<map<string, DocStatus>>, key: string, report: FileUpload.StatusUpdate)
      returns (threw: bool)
      modifies this
      ensures threw <==> rendered.None?
      ensures threw ==> documentStatus == old(documentStatus)
      ensures !threw ==> documentStatus == Some(Merged(rendered.value, key, report))
      ensures isLoading == old(isLoading)
    {
      if rendered.None? {
        return true;
      }
      documentStatus := Some(Merged(rendered.value, key, report));
      return false;
    }

    /**
     * An upload card's report applied as a functional update: merged into the
     * current status, or a type error while the status is still missing.
     */
    method OnUploadSuccess(key: string, report: FileUpload.StatusUpdate) returns (threw: bool)
      modifies this
      ensures threw <==> old(documentStatus).None?
      ensures threw ==> documentStatus == old(documentStatus)
      ensures !threw ==> documentStatus == Some(Merged(old(documentStatus).value, key, report))
      ensures isLoading == old(isLoading)
    {
      if documentStatus.None? {
        return true;
      }
      documentStatus := Some(Merged(documentStatus.value, key, report));
      return false;
    }
  }

  /**
   * Two uploads whose handlers come from the same render, applied as written:
   * the photo's handler writes over the Aadhar card's report, which is lost.
   */
  method LostUploadAsWritten() returns (page: UploadPage)
    ensures page.documentStatus.Some? && "aadhar" in page.documentStatus.value && "photo" in page.documentStatus.value
    ensures !page.documentStatus.value["aadhar"].uploaded
    ensures page.documentStatus.value["photo"].uploaded
  {
    page := new UploadPage();
    page.FetchDocumentStatus(Some(1), Some(INITIAL_STATUS));
    var rendered := page.documentStatus;
    var aadharThrew := page.OnUploadSuccessAsWritten(rendered, "aadhar", FileUpload.StatusUpdate(true, Some("aadhar-url")));
    var photoThrew := page.OnUploadSuccessAsWritten(rendered, "photo", FileUpload.StatusUpdate(true, Some("photo-url")));
  }

  /** The same two uploads applied as functional updates: both reports are kept. */
  method BothUploadsKept() returns (page: UploadPage)
    ensures page.documentStatus.Some? && "aadhar" in page.documentStatus.value && "photo" in page.documentStatus.value
    ensures page.documentStatus.value["aadhar"].uploaded && page.documentStatus.value["aadhar"].fileUrl == Some("aadhar-url")
    ensures page.documentStatus.value["photo"].uploaded && page.documentStatus.value["photo"].fileUrl == Some("photo-url")
  {
    page := new UploadPage();
    page.FetchDocumentStatus(Some(1), Some(INITIAL_STATUS));
    var aadharThrew := page.OnUploadSuccess("aadhar", FileUpload.StatusUpdate(true, Some("aadhar-url")));
    var photoThrew := page.OnUploadSuccess("photo", FileUpload.StatusUpdate(true, Some("photo-url")));
  }

  /** Reports for two different documents, merged one after the other, both survive with their own fields. */
  lemma SuccessiveMergesKeepBoth(ds: map<string, DocStatus>, k1: string, r1: FileUpload.StatusUpdate,
                                 k2: string, r2: FileUpload.StatusUpdate)
    requires k1 != k2
    ensures var m := Merged(Merged(ds, k1, r1), k2, r2);
      && m[k1].uploaded == r1.uploaded && m[k1].fileUrl == r1.fileUrl
      && m[k2].uploaded == r2.uploaded && m[k2].fileUrl == r2.fileUrl
  {
  }
}
