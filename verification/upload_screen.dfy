/** The upload screen: a selection of PDF files built up from the file picker and
    from drag-and-drop, and a sequential upload of that selection that records one
    result per file. */
module UploadScreen {
  import opened Wrappers
  import opened JsArrays

  const PDF_TYPE: string := "application/pdf"
  const UNKNOWN_ERROR: string := "Unknown error"

  /** A browser file handle, reduced to what the screen looks at. */
  datatype File = File(name: string, mimeType: string)

  /** What the backend's file-ingestion call produced for one file: its response
      body, or the thrown error with the optional `response.data.detail` and
      `message` fields. */
  datatype Outcome =
    | Uploaded(chunks: int, validation: string)
    | Thrown(detail: Option<string>, message: Option<string>)

  /** One entry of `uploadResults`: `status: 'success'` or `status: 'error'`. */
  datatype UploadResult =
    | Success(name: string, chunks: int, validation: string)
    | Error(name: string, errorMessage: string)

  /** The dialogs the screen raises. */
  datatype Alert =
    | InvalidFiles
    | UploadComplete
    | UploadFailed(failed: seq<UploadResult>)

  predicate IsPdf(f: File) {
    f.mimeType == PDF_TYPE
  }

  predicate IsError(r: UploadResult) {
    r.Error?
  }

  /** The PDFs of an incoming batch, in batch order. */
  function PdfsOf(batch: seq<File>): (pdfs: seq<File>)
    ensures forall f :: f in pdfs ==> f in batch && f.mimeType == "application/pdf"
    ensures forall i :: 0 <= i < |batch| && batch[i].mimeType == "application/pdf" ==> batch[i] in pdfs
    ensures pdfs == [] <==> forall i :: 0 <= i < |batch| ==> batch[i].mimeType != "application/pdf"
  {
    Filter(IsPdf, batch)
  }

  /** The selection after a batch arrives: `None` (selection unchanged, "Invalid
      files" raised) when the batch holds no PDF; otherwise the old selection
      followed by the batch's PDFs, the other files of a mixed batch dropped. */
  function AddPdfs(selection: seq<File>, batch: seq<File>): (r: Option<seq<File>>)
    ensures r.None? <==> forall i :: 0 <= i < |batch| ==> batch[i].mimeType != "application/pdf"
    ensures r.Some? ==> |r.value| > |selection| && r.value[..|selection|] == selection
    ensures r.Some? ==> forall f :: f in r.value[|selection|..] ==> f in batch && IsPdf(f)
    ensures r.Some? ==> forall i :: 0 <= i < |batch| && IsPdf(batch[i]) ==> batch[i] in r.value[|selection|..]
    ensures r.Some? ==> r.value == selection + PdfsOf(batch)
  {
    var pdfs := PdfsOf(batch);
    if pdfs == [] then None
    else
      assert (selection + pdfs)[|selection|..] == pdfs;
      Some(selection + pdfs)
  }

  /** The message an error entry carries: JavaScript's `detail || message || "Unknown error"`,
      where a missing field and the empty string both fall through. It is never empty. */
  function ErrorMessage(detail: Option<string>, message: Option<string>): (m: string)
    ensures m != ""
    ensures detail.Some? && detail.value != "" ==> m == detail.value
    ensures (detail.None? || detail.value == "") && message.Some? && message.value != "" ==> m == message.value
    ensures (detail.None? || detail.value == "") && (message.None? || message.value == "") ==> m == "Unknown error"
  {
    if detail.Some? && detail.value != "" then detail.value
    else if message.Some? && message.value != "" then message.value
    else UNKNOWN_ERROR
  }

  /** The result recorded for one file: its name, and success or error according
      to what the backend did with it. */
  function ResultFor(file: File, outcome: Outcome): (r: UploadResult)
    ensures r.name == file.name
    ensures r.Success? <==> outcome.Uploaded?
    ensures r.Success? ==> r.chunks == outcome.chunks && r.validation == outcome.validation
    ensures r.Error? ==> r.errorMessage == ErrorMessage(outcome.detail, outcome.message)
  {
    match outcome
    case Uploaded(chunks, validation) => Success(file.name, chunks, validation)
    case Thrown(detail, message) => Error(file.name, ErrorMessage(detail, message))
  }

  /** The results of uploading `files` in order, the i-th backend call having
      produced `outcomes[i]`: one entry per file, in selection order. */
  function ResultsFor(files: seq<File>, outcomes: seq<Outcome>): (rs: seq<UploadResult>)
    requires |outcomes| == |files|
    ensures |rs| == |files|
    ensures forall i :: 0 <= i < |files| ==> rs[i].name == files[i].name
    ensures forall i :: 0 <= i < |files| ==> (rs[i].Success? <==> outcomes[i].Uploaded?)
    ensures forall i :: 0 <= i < |files| ==> rs[i] == ResultFor(files[i], outcomes[i])
  {
    if files == [] then []
    else ResultsFor(files[..|files| - 1], outcomes[..|outcomes| - 1])
         + [ResultFor(files[|files| - 1], outcomes[|outcomes| - 1])]
  }

  /** `results.filter(r => r.status === 'error')`. */
  function FailedFiles(results: seq<UploadResult>): (failed: seq<UploadResult>)
    ensures forall r :: r in failed ==> r in results && r.Error?
    ensures forall i :: 0 <= i < |results| && results[i].Error? ==> results[i] in failed
    ensures failed == [] <==> forall i :: 0 <= i < |results| ==> results[i].Success?
  {
    Filter(IsError, results)
  }

  /** The dialog that closes an upload: "all uploaded" exactly when nothing failed,
      otherwise the list of failures. */
  function CompletionAlert(results: seq<UploadResult>): (a: Alert)
    ensures a == UploadComplete <==> forall i :: 0 <= i < |results| ==> results[i].Success?
    ensures a != UploadComplete ==> a == UploadFailed(FailedFiles(results)) && a.failed != []
  {
    var failed := FailedFiles(results);
    if failed == [] then UploadComplete else UploadFailed(failed)
  }

  /** The screen's state: `files`, `loading` and `uploadResults`. */
  class Screen {
    var files: seq<File>
    var loading: bool
    var uploadResults: seq<UploadResult>

    /** Only PDFs ever enter the selection. */
    ghost predicate Valid()
      reads this
    {
      forall f :: f in files ==> IsPdf(f)
    }

    constructor ()
      ensures Valid()
      ensures files == [] && !loading && uploadResults == []
    {
      files, loading, uploadResults := [], false, [];
    }

    /** The file picker's change handler. */
    method HandleFileChange(picked: seq<File>) returns (alert: Option<Alert>)
      requires Valid()
      modifies this
      ensures Valid()
      ensures AddPdfs(old(files), picked).None? ==> files == old(files) && alert == Some(InvalidFiles)
      ensures AddPdfs(old(files), picked).Some? ==> files == AddPdfs(old(files), picked).value && alert == None
      ensures loading == old(loading) && uploadResults == old(uploadResults)
    {
      var selected := PdfsOf(picked);
      if |selected| == 0 {
        alert := Some(InvalidFiles);
      } else {
        files := files + selected;
        alert := None;
      }
    }

    /** The drop zone's handler: the same filter and append as the picker. */
    method HandleDrop(dropped: seq<File>) returns (alert: Option<Alert>)
      requires Valid()
      modifies this
      ensures Valid()
      ensures AddPdfs(old(files), dropped).None? ==> files == old(files) && alert == Some(InvalidFiles)
      ensures AddPdfs(old(files), dropped).Some? ==> files == AddPdfs(old(files), dropped).value && alert == None
      ensures loading == old(loading) && uploadResults == old(uploadResults)
    {
      var droppedFiles := PdfsOf(dropped);
      if |droppedFiles| == 0 {
        alert := Some(InvalidFiles);
      } else {
        files := files + droppedFiles;
        alert := None;
      }
    }

    /** `handleUpload`: sends the selected files one at a time, the i-th call
        resolving with `outcomes[i]`, then replaces `uploadResults`, clears
        `loading` and raises the closing dialog. The selection is kept. */
    method HandleUpload(outcomes: seq<Outcome>) returns (alert: Alert)
      requires Valid()
      requires |outcomes| == |files|
      modifies this
      ensures Valid()
      ensures files == old(files) && !loading
      ensures uploadResults == ResultsFor(old(files), outcomes)
      ensures alert == CompletionAlert(uploadResults)
    {
      loading := true;
      var results: seq<UploadResult> := [];
      for i := 0 to |files|
        invariant files == old(files) && loading
        invariant results == ResultsFor(files[..i], outcomes[..i])
      {
        var outcome := outcomes[i];
        match outcome {
          case Uploaded(chunks, validation) =>
            results := results + [Success(files[i].name, chunks, validation)];
          case Thrown(detail, message) =>
            results := results + [Error(files[i].name, ErrorMessage(detail, message))];
        }
        assert files[..i + 1][..i] == files[..i];
        assert outcomes[..i + 1][..i] == outcomes[..i];
      }
      assert files[..|files|] == files && outcomes[..|outcomes|] == outcomes;
      uploadResults := results;
      loading := false;
      var failedFiles := FailedFiles(results);
      if |failedFiles| == 0 {
        alert := UploadComplete;
      } else {
        alert := UploadFailed(failedFiles);
      }
    }
  }

  /** Two batches in a row select the same files as one batch holding both, as
      long as each batch holds a PDF: batch order is kept across calls. */
  lemma AddPdfsTwice(selection: seq<File>, b1: seq<File>, b2: seq<File>)
    requires AddPdfs(selection, b1).Some?
    requires AddPdfs(AddPdfs(selection, b1).value, b2).Some?
    ensures AddPdfs(selection, b1 + b2) == AddPdfs(AddPdfs(selection, b1).value, b2)
  {
    var p1, p2 := PdfsOf(b1), PdfsOf(b2);
    FilterAppend(IsPdf, b1, b2);
    AppendAssociative(selection, p1, p2);
  }

  lemma AppendAssociative(a: seq<File>, b: seq<File>, c: seq<File>)
    ensures a + (b + c) == (a + b) + c
  {
  }

  /** A batch made only of PDFs is appended whole and in order. */
  lemma AddPdfsAllPdf(selection: seq<File>, batch: seq<File>)
    requires batch != [] && forall i :: 0 <= i < |batch| ==> IsPdf(batch[i])
    ensures AddPdfs(selection, batch) == Some(selection + batch)
  {
  }

  /** Uploading a selection in two parts gives the results of uploading it whole:
      each file's entry depends only on that file and its own outcome. */
  lemma ResultsForAppend(f1: seq<File>, o1: seq<Outcome>, f2: seq<File>, o2: seq<Outcome>)
    requires |o1| == |f1| && |o2| == |f2|
    ensures ResultsFor(f1 + f2, o1 + o2) == ResultsFor(f1, o1) + ResultsFor(f2, o2)
  {
    var whole := ResultsFor(f1 + f2, o1 + o2);
    var parts := ResultsFor(f1, o1) + ResultsFor(f2, o2);
    assert |whole| == |parts|;
    forall i | 0 <= i < |whole|
      ensures whole[i] == parts[i]
    {
      if i < |f1| {
        assert (f1 + f2)[i] == f1[i] && (o1 + o2)[i] == o1[i];
      } else {
        assert (f1 + f2)[i] == f2[i - |f1|] && (o1 + o2)[i] == o2[i - |f1|];
      }
    }
  }

  /** The failure list names exactly the files whose upload threw, in selection
      order, each with its fallback-resolved message. */
  lemma FailedFilesOfResults(files: seq<File>, outcomes: seq<Outcome>)
    requires |outcomes| == |files|
    ensures FailedFiles(ResultsFor(files, outcomes)) == [] <==> forall i :: 0 <= i < |outcomes| ==> outcomes[i].Uploaded?
    ensures forall r :: r in FailedFiles(ResultsFor(files, outcomes)) ==>
              exists i :: 0 <= i < |files| && r.name == files[i].name && outcomes[i].Thrown?
                && r.errorMessage == ErrorMessage(outcomes[i].detail, outcomes[i].message)
  {
    var rs := ResultsFor(files, outcomes);
    forall r | r in FailedFiles(rs)
      ensures exists i :: 0 <= i < |files| && r.name == files[i].name && outcomes[i].Thrown?
                && r.errorMessage == ErrorMessage(outcomes[i].detail, outcomes[i].message)
    {
      var i :| 0 <= i < |rs| && rs[i] == r;
      assert rs[i] == ResultFor(files[i], outcomes[i]);
    }
  }
}
