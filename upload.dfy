/**
 * The document upload action: the caller must be a signed-in 'user' with a
 * non-zero id, the form must carry a file and a document type, and the file
 * name must end in a non-empty extension. The file is then put into object
 * storage under a generated key, the document type is classified into one
 * of five categories, and a row describing the upload is inserted. Storage
 * and the database are reduced to whether they succeeded (and the error the
 * database reported).
 */
module Upload {
  import opened Wrappers
  import opened Text
  import Dal
  import S3

  /** The uploaded file as the form hands it over. */
  datatype FileInfo = FileInfo(name: string, mimeType: string, size: nat)

  /** What the page is told about the stored document. */
  datatype DocumentInfo = DocumentInfo(documentType: string, fileUrl: string, fileName: string, uploaded: bool, verified: bool, rejected: bool)

  /** The row inserted into the `upload_files` table. */
  datatype UploadRow = UploadRow(userId: int, documentType: string, fileUrl: string, fileName: string, fileKey: string,
                                 fileSize: string, mimeType: string, verified: bool, rejected: bool)

  datatype UploadResponse = Uploaded(fileUrl: string, info: DocumentInfo) | UploadFailed(error: string)

  // ---------------------------------------------------------------- the extension

  /** The text after the last dot (all of it when there is no dot). */
  function AfterLastDot(s: string): (r: string)
    ensures |r| <= |s| && r == s[|s| - |r|..]
    ensures forall i :: 0 <= i < |r| ==> r[i] != '.'
    ensures |r| < |s| ==> s[|s| - |r| - 1] == '.'
  {
    if s == [] || s[|s| - 1] == '.' then []
    else AfterLastDot(s[..|s| - 1]) + [s[|s| - 1]]
  }

  /** `fileName.split('.').pop()?.toLowerCase()`. */
  function Extension(fileName: string): (r: string)
    ensures r == ToLower(AfterLastDot(fileName))
  {
    LastPieceIsAfterLastDot(fileName);
    ToLower(Last(Split(fileName, ".")))
  }

  lemma OccursDot(s: string, i: nat)
    requires i < |s|
    ensures OccursAt(s, ".", i) <==> s[i] == '.'
  {
    if s[i] == '.' { assert s[i..i + 1] == ['.']; }
  }

  /** `.` occurring in `s` means some character of `s` is a dot. */
  lemma ContainsDot(s: string)
    ensures Contains(s, ".") <==> exists i :: 0 <= i < |s| && s[i] == '.'
  {
    if Contains(s, ".") {
      var i: nat :| i <= |s| && OccursAt(s, ".", i);
      OccursDot(s, i);
    }
    if exists i :: 0 <= i < |s| && s[i] == '.' {
      var i :| 0 <= i < |s| && s[i] == '.';
      OccursDot(s, i);
    }
  }

  /** A string without a dot is its own text after the last dot. */
  lemma {:induction false} AfterLastDotOfDotFree(s: string)
    requires forall i :: 0 <= i < |s| ==> s[i] != '.'
    ensures AfterLastDot(s) == s
  {
    if s != [] {
      AfterLastDotOfDotFree(s[..|s| - 1]);
    }
  }

  /** What follows a dot is all that matters to the text after the last dot. */
  lemma {:induction false} AfterLastDotSkipsDot(p: string, q: string)
    ensures AfterLastDot(p + "." + q) == AfterLastDot(q)
    decreases |q|
  {
    var s := p + "." + q;
    if q == [] {
      assert s[|s| - 1] == '.';
    } else {
      assert s[..|s| - 1] == p + "." + q[..|q| - 1];
      assert s[|s| - 1] == q[|q| - 1];
      AfterLastDotSkipsDot(p, q[..|q| - 1]);
    }
  }

  /** The last piece of a split at dots is the text after the last dot. */
  lemma {:induction false} LastPieceIsAfterLastDot(s: string)
    ensures Last(Split(s, ".")) == AfterLastDot(s)
    decreases |s|
  {
    match IndexOf(s, ".")
    case None =>
      NoDotIsOnePiece(s);
    case Some(i) =>
      var rest := s[i + 1..];
      LastPieceIsAfterLastDot(rest);
      SplitAtFirstDot(s, i);
  }

  lemma NoDotIsOnePiece(s: string)
    requires IndexOf(s, ".").None?
    ensures Last(Split(s, ".")) == AfterLastDot(s)
  {
    assert Split(s, ".") == [s];
    ContainsDot(s);
    AfterLastDotOfDotFree(s);
  }

  /** Splitting at the first dot: the last piece and the text after the last dot both come from what follows it. */
  lemma SplitAtFirstDot(s: string, i: nat)
    requires IndexOf(s, ".") == Some(i)
    ensures Last(Split(s, ".")) == Last(Split(s[i + 1..], "."))
    ensures AfterLastDot(s) == AfterLastDot(s[i + 1..])
  {
    LastPieceAfterFirstDot(s, i);
    OccursDot(s, i);
    assert s == s[..i] + "." + s[i + 1..];
    AfterLastDotSkipsDot(s[..i], s[i + 1..]);
  }

  lemma LastPieceAfterFirstDot(s: string, i: nat)
    requires IndexOf(s, ".") == Some(i)
    ensures Last(Split(s, ".")) == Last(Split(s[i + 1..], "."))
  {
    var rest := Split(s[i + |"."|..], ".");
    assert Split(s, ".") == [s[..i]] + rest;
    assert ([s[..i]] + rest)[|rest|] == rest[|rest| - 1];
  }

  /**
   * The extension is the text after the last dot, lower-cased: it holds no
   * dot, and it is empty exactly when the name is empty or ends with a dot.
   * A name without a dot is all extension.
   */
  lemma ExtensionIsAfterLastDot(fileName: string)
    ensures Extension(fileName) == ToLower(AfterLastDot(fileName))
    ensures forall i :: 0 <= i < |Extension(fileName)| ==> Extension(fileName)[i] != '.'
    ensures Extension(fileName) == "" <==> fileName == "" || fileName[|fileName| - 1] == '.'
    ensures (forall i :: 0 <= i < |fileName| ==> fileName[i] != '.') ==> Extension(fileName) == ToLower(fileName)
  {
    LastPieceIsAfterLastDot(fileName);
    if forall i :: 0 <= i < |fileName| ==> fileName[i] != '.' {
      AfterLastDotOfDotFree(fileName);
    }
  }

  // ---------------------------------------------------------------- classification

  /** The category key stored for a document type: the first rule that matches the lower-cased type wins. */
  function Classify(documentType: string): (key: string)
    ensures key in {"aadhar", "10th_marksheet", "12th_marksheet", "profile_pic", "other"}
  {
    var t := ToLower(documentType);
    if Contains(t, "aadhar") then "aadhar"
    else if Contains(t, "10th") || Contains(t, "marksheet10") then "10th_marksheet"
    else if Contains(t, "12th") || Contains(t, "marksheet12") then "12th_marksheet"
    else if Contains(t, "photo") || t == "profile photo" then "profile_pic"
    else "other"
  }

  /** The classification rules in order of precedence: the keywords of each category and its key. */
  const CATEGORY_RULES: seq<(seq<string>, string)> := [
    (["aadhar"], "aadhar"),
    (["10th", "marksheet10"], "10th_marksheet"),
    (["12th", "marksheet12"], "12th_marksheet"),
    (["photo"], "profile_pic")
  ]

  predicate MentionsAny(t: string, keywords: seq<string>) {
    exists k :: 0 <= k < |keywords| && Contains(t, keywords[k])
  }

  /** The key of the first rule one of whose keywords the text contains, or "other". */
  function FirstMatch(rules: seq<(seq<string>, string)>, t: string): string {
    if rules == [] then "other"
    else if MentionsAny(t, rules[0].0) then rules[0].1
    else FirstMatch(rules[1..], t)
  }

  lemma ProfilePhotoMentionsPhoto()
    ensures Contains("profile photo", "photo")
  {
    assert "profile photo"[8..13] == "photo";
    assert OccursAt("profile photo", "photo", 8);
  }

  /**
   * Classification is the first matching rule: a type naming several
   * categories gets the earliest, and the exact `profile photo` test adds
   * nothing to the `photo` test before it.
   */
  lemma ClassifyIsFirstMatch(documentType: string)
    ensures Classify(documentType) == FirstMatch(CATEGORY_RULES, ToLower(documentType))
  {
    var t := ToLower(documentType);
    if t == "profile photo" {
      ProfilePhotoMentionsPhoto();
    }
    var r1 := CATEGORY_RULES[1..];
    var r2 := r1[1..];
    var r3 := r2[1..];
    MentionsOne(t, "aadhar");
    MentionsTwo(t, "10th", "marksheet10");
    MentionsTwo(t, "12th", "marksheet12");
    MentionsOne(t, "photo");
    assert FirstMatch(r3[1..], t) == "other";
    assert FirstMatch(r3, t) == if Contains(t, "photo") then "profile_pic" else "other";
    assert FirstMatch(r2, t) == if Contains(t, "12th") || Contains(t, "marksheet12") then "12th_marksheet" else FirstMatch(r3, t);
    assert FirstMatch(r1, t) == if Contains(t, "10th") || Contains(t, "marksheet10") then "10th_marksheet" else FirstMatch(r2, t);
  }

  lemma MentionsOne(t: string, a: string)
    ensures MentionsAny(t, [a]) <==> Contains(t, a)
  {
    if Contains(t, a) { assert [a][0] == a; }
  }

  lemma MentionsTwo(t: string, a: string, b: string)
    ensures MentionsAny(t, [a, b]) <==> Contains(t, a) || Contains(t, b)
  {
    if Contains(t, a) { assert [a, b][0] == a; }
    if Contains(t, b) { assert [a, b][1] == b; }
  }

  // ---------------------------------------------------------------- the action

  /**
   * `uploadDocument`. `session` is the caller as `verifyAuth('user')` finds
   * it; `file` and `documentType` are the form fields; `timestamp` is the
   * clock; `putSucceeded` and `insertError` are what storage and the
   * database answered. The row inserted is returned beside the response.
   */
  function UploadDocument(session: Option<Dal.Payload>, file: Option<FileInfo>, documentType: Option<string>, timestamp: nat,
                          env: S3.Env, putSucceeded: bool, insertError: Option<string>): (r: (UploadResponse, Option<UploadRow>))
    ensures r.0.Uploaded? ==> r.1.Some? && insertError.None?
    ensures r.1.Some? ==> putSucceeded && !r.1.value.verified && !r.1.value.rejected
    ensures r.0.Uploaded? ==> r.0.info.uploaded && !r.0.info.verified && !r.0.info.rejected && r.0.info.fileUrl == r.0.fileUrl
  {
    if session.None? then (UploadFailed("User not authenticated"), None)
    else if session.value.userId == 0 then (UploadFailed("User ID not found"), None)
    else if file.None? then (UploadFailed("No file provided"), None)
    else if documentType.None? || documentType.value == "" then (UploadFailed("Document type not provided"), None)
    else
      var ext := Extension(file.value.name);
      if ext == "" then (UploadFailed("Invalid file extension"), None)
      else
        var key := S3.GenerateS3Key(session.value.userId, documentType.value, ext, timestamp);
        match S3.UploadToS3(env, key, putSucceeded)
        case Failure(e) => (UploadFailed(e), None)
        case Success(url) =>
          var category := Classify(documentType.value);
          var row := UploadRow(session.value.userId, category, url, file.value.name, key,
                               NatToString(file.value.size), file.value.mimeType, false, false);
          if insertError.Some? then (UploadFailed(insertError.value), Some(row))
          else (Uploaded(url, DocumentInfo(category, url, file.value.name, true, false, false)), Some(row))
  }

  /** Each missing input is reported, in the order the action checks them, and nothing is stored. */
  lemma UploadInputChecks(session: Option<Dal.Payload>, file: Option<FileInfo>, documentType: Option<string>, timestamp: nat,
                          env: S3.Env, putSucceeded: bool, insertError: Option<string>)
    ensures var r := UploadDocument(session, file, documentType, timestamp, env, putSucceeded, insertError);
      && (session.None? ==> r == (UploadFailed("User not authenticated"), None))
      && (session.Some? && session.value.userId == 0 ==> r == (UploadFailed("User ID not found"), None))
      && (session.Some? && session.value.userId != 0 && file.None? ==> r == (UploadFailed("No file provided"), None))
      && (session.Some? && session.value.userId != 0 && file.Some? && (documentType.None? || documentType.value == "") ==>
            r == (UploadFailed("Document type not provided"), None))
      && (session.Some? && session.value.userId != 0 && file.Some? && documentType.Some? && documentType.value != ""
          && (file.value.name == "" || file.value.name[|file.value.name| - 1] == '.') ==>
            r == (UploadFailed("Invalid file extension"), None))
  {
    if file.Some? {
      ExtensionIsAfterLastDot(file.value.name);
    }
  }

  /**
   * A successful upload stores the file under the generated key, records the
   * classified type with both review flags cleared, and reports the same.
   */
  lemma UploadSuccessRecordsDocument(session: Option<Dal.Payload>, file: Option<FileInfo>, documentType: Option<string>, timestamp: nat,
                                     env: S3.Env, putSucceeded: bool, insertError: Option<string>)
    requires UploadDocument(session, file, documentType, timestamp, env, putSucceeded, insertError).0.Uploaded?
    ensures var r := UploadDocument(session, file, documentType, timestamp, env, putSucceeded, insertError);
      var key := S3.GenerateS3Key(session.value.userId, documentType.value, Extension(file.value.name), timestamp);
      && putSucceeded && insertError.None?
      && r.0.fileUrl == S3.FileUrl(env, key)
      && r.0.info == DocumentInfo(Classify(documentType.value), r.0.fileUrl, file.value.name, true, false, false)
      && r.1 == Some(UploadRow(session.value.userId, Classify(documentType.value), r.0.fileUrl, file.value.name, key,
                               NatToString(file.value.size), file.value.mimeType, false, false))
  {
  }

  /** When the database refuses the row the file has already been put into storage. */
  lemma InsertFailureLeavesStoredFile(session: Option<Dal.Payload>, file: Option<FileInfo>, documentType: Option<string>, timestamp: nat,
                                      env: S3.Env, insertError: Option<string>)
    requires insertError.Some?
    requires UploadDocument(session, file, documentType, timestamp, env, true, insertError).1.Some?
    ensures UploadDocument(session, file, documentType, timestamp, env, true, insertError).0 == UploadFailed(insertError.value)
  {
  }
}
