/**
 * The upload card for one document: choosing a file (checked against the
 * accepted types and the size limit before it is kept), the simulated
 * progress bar while the upload runs, and removing the chosen file. The timer
 * that drives the progress bar is reduced to the number of times it fired,
 * the browser's file reader to the data URL it produces, and the server call
 * to its reply.
 */
module FileUpload {
  import opened Wrappers
  import opened Text
  import Upload

  /** `type.replace('.', '')`: the first dot, if any, removed. */
  function WithoutFirstDot(t: string): (r: string)
    ensures IndexOf(t, ".").None? ==> r == t
    ensures IndexOf(t, ".").Some? ==> |r| == |t| - 1 && r == t[..IndexOf(t, ".").value] + t[IndexOf(t, ".").value + 1..]
  {
    match IndexOf(t, ".")
    case None => t
    case Some(i) => t[..i] + t[i + 1..]
  }

  /** The accepted extensions, `", "`-separated in the prop, without their dots. */
  function ValidTypes(acceptedFileTypes: string): (r: seq<string>)
    ensures |r| == |Split(acceptedFileTypes, ", ")|
  {
    var pieces := Split(acceptedFileTypes, ", ");
    seq(|pieces|, k requires 0 <= k < |pieces| => WithoutFirstDot(pieces[k]))
  }

  /** The MIME type contains one of the accepted extensions (lower-cased). */
  predicate TypeAccepted(mimeType: string, acceptedFileTypes: string) {
    var types := ValidTypes(acceptedFileTypes);
    exists k :: 0 <= k < |types| && Contains(mimeType, ToLower(types[k]))
  }

  /** At most the limit, in mebibytes: a file of exactly the limit passes. */
  predicate SizeAccepted(size: nat, maxFileSizeMB: nat) {
    size <= maxFileSizeMB * 1024 * 1024
  }

  const INVALID_TYPE := "Invalid file type"
  const TOO_LARGE := "File too large"

  /** The checks of `handleFileChange`, type first. */
  function CheckFile(f: Upload.FileInfo, acceptedFileTypes: string, maxFileSizeMB: nat): (r: Option<string>)
    ensures r.None? <==> TypeAccepted(f.mimeType, acceptedFileTypes) && SizeAccepted(f.size, maxFileSizeMB)
    ensures !TypeAccepted(f.mimeType, acceptedFileTypes) ==> r == Some(INVALID_TYPE)
    ensures TypeAccepted(f.mimeType, acceptedFileTypes) && !SizeAccepted(f.size, maxFileSizeMB) ==> r == Some(TOO_LARGE)
  {
    if !TypeAccepted(f.mimeType, acceptedFileTypes) then Some(INVALID_TYPE)
    else if f.size > maxFileSizeMB * 1024 * 1024 then Some(TOO_LARGE)
    else None
  }

  /** The size limit is inclusive: one byte over is refused, the exact limit is not. */
  lemma SizeLimitInclusive(f: Upload.FileInfo, acceptedFileTypes: string, maxFileSizeMB: nat)
    requires TypeAccepted(f.mimeType, acceptedFileTypes)
    ensures f.size == maxFileSizeMB * 1048576 ==> CheckFile(f, acceptedFileTypes, maxFileSizeMB).None?
    ensures f.size == maxFileSizeMB * 1048576 + 1 ==> CheckFile(f, acceptedFileTypes, maxFileSizeMB) == Some(TOO_LARGE)
  {
  }

  /** An extension accepted without a dot is accepted by every MIME type that mentions it. */
  lemma MentionedExtensionAccepted(mimeType: string, acceptedFileTypes: string, k: nat)
    requires k < |ValidTypes(acceptedFileTypes)|
    requires Contains(mimeType, ToLower(ValidTypes(acceptedFileTypes)[k]))
    ensures TypeAccepted(mimeType, acceptedFileTypes)
  {
  }

  /** One tick of the progress timer: five more, held at 95. */
  function Tick(p: int): int {
    if p >= 95 then 95 else p + 5
  }

  /** The bar after `k` ticks from zero. */
  function ProgressAfter(k: nat): (p: int)
    ensures 0 <= p <= 95
  {
    if 5 * k >= 95 then 95 else 5 * k
  }

  /** Ticks only raise the bar, by five at a time, and it never passes 95 before the reply. */
  lemma TickAdvances(k: nat)
    ensures Tick(ProgressAfter(k)) == ProgressAfter(k + 1)
    ensures ProgressAfter(k) <= ProgressAfter(k + 1) <= ProgressAfter(k) + 5
  {
  }

  /** What the card tells its page after a successful upload. */
  datatype StatusUpdate = StatusUpdate(uploaded: bool, fileUrl: Option<string>)

  /** The server action's outcome: a reply, or an exception. */
  datatype Reply = Replied(response: Upload.UploadResponse) | Threw

  /** The state of one upload card. */
  class UploadCard {
    var file: Option<Upload.FileInfo>
    var previewUrl: Option<string>
    var uploading: bool
    var uploadProgress: int

    constructor()
      ensures file.None? && previewUrl.None? && !uploading && uploadProgress == 0
    {
      file := None;
      previewUrl := None;
      uploading := false;
      uploadProgress := 0;
    }

    /**
     * `handleFileChange`: a chosen file is kept only when it passes both
     * checks; an image gets the reader's data URL as its preview, anything else
     * none. A refused file leaves the card as it was.
     */
    method HandleFileChange(chosen: Option<Upload.FileInfo>, acceptedFileTypes: string, maxFileSizeMB: nat, dataUrl: string)
      returns (error: Option<string>)
      modifies this
      ensures chosen.None? ==> error.None? && file == old(file) && previewUrl == old(previewUrl)
      ensures chosen.Some? ==> error == CheckFile(chosen.value, acceptedFileTypes, maxFileSizeMB)
      ensures chosen.Some? && error.Some? ==> file == old(file) && previewUrl == old(previewUrl)
      ensures chosen.Some? && error.None? ==>
        file == chosen && previewUrl == (if Contains(chosen.value.mimeType, "image") then Some(dataUrl) else None)
      ensures uploading == old(uploading) && uploadProgress == old(uploadProgress)
    {
      if chosen.None? {
        return None;
      }
      var f := chosen.value;
      if !TypeAccepted(f.mimeType, acceptedFileTypes) {
        return Some(INVALID_TYPE);
      }
      if f.size > maxFileSizeMB * 1024 * 1024 {
        return Some(TOO_LARGE);
      }
      file := chosen;
      if Contains(f.mimeType, "image") {
        previewUrl := Some(dataUrl);
      } else {
        previewUrl := None;
      }
      return None;
    }

    /**
     * `handleUpload`: the bar restarts at zero and the timer fires `ticks`
     * times while the request runs; a reply completes the bar, an exception
     * leaves it where the timer left it. Only a successful reply is reported
     * to the page, from the delayed callback that then ends the upload;
     * `handlerThrows` says whether the page's report handler throws there
     * (it does while the page holds no status), in which case the callback
     * stops before ending the upload and the card stays uploading.
     */
    method HandleUpload(ticks: nat, reply: Reply, handlerThrows: bool) returns (reported: Option<StatusUpdate>)
      modifies this
      ensures old(file).None? ==> reported.None? && uploading == old(uploading) && uploadProgress == old(uploadProgress)
      ensures old(file).Some? ==> (uploading <==> reported.Some? && handlerThrows)
      ensures old(file).Some? ==> uploadProgress == if reply.Replied? then 100 else ProgressAfter(ticks)
      ensures reported.Some? <==> old(file).Some? && reply.Replied? && reply.response.Uploaded?
      ensures reported.Some? ==> reported.value == StatusUpdate(true, Some(reply.response.fileUrl))
      ensures file == old(file) && previewUrl == old(previewUrl)
    {
      if file.None? {
        return None;
      }
      uploading := true;
      uploadProgress := 0;
      var i := 0;
      while i < ticks
        invariant 0 <= i <= ticks
        invariant uploadProgress == ProgressAfter(i)
        invariant file == old(file) && previewUrl == old(previewUrl) && uploading
      {
        TickAdvances(i);
        uploadProgress := Tick(uploadProgress);
        i := i + 1;
      }
      reported := None;
      if reply.Replied? {
        uploadProgress := 100;
        if reply.response.Uploaded? {
          reported := Some(StatusUpdate(true, Some(reply.response.fileUrl)));
          if handlerThrows {
            return;
          }
        }
      }
      uploading := false;
    }

    /** `handleRemoveFile`: the file and its preview are dropped. */
    method HandleRemoveFile()
      modifies this
      ensures file.None? && previewUrl.None?
      ensures uploading == old(uploading) && uploadProgress == old(uploadProgress)
    {
      file := None;
      previewUrl := None;
    }
  }
}
