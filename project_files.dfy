/** The project's file table: the icon chosen per file type, the upload flag, and the empty state. */
module ProjectFiles {
  import opened Wrappers
  import opened Types
  import opened Strings

  datatype Icon = PdfIcon | FigmaIcon | WordIcon | GenericIcon

  /** `FileIcon`: the first of pdf, figma, word-or-document found in the lower-cased type. */
  function Classify(fileType: string): (icon: Icon)
    ensures var t := ToLower(fileType);
      && (icon == PdfIcon <==> Contains(t, "pdf"))
      && (icon == FigmaIcon <==> !Contains(t, "pdf") && Contains(t, "figma"))
      && (icon == WordIcon <==> !Contains(t, "pdf") && !Contains(t, "figma")
                                && (Contains(t, "word") || Contains(t, "document")))
  {
    var t := ToLower(fileType);
    if Contains(t, "pdf") then PdfIcon
    else if Contains(t, "figma") then FigmaIcon
    else if Contains(t, "word") || Contains(t, "document") then WordIcon
    else GenericIcon
  }

  lemma ToLowerIdempotent(s: string)
    ensures ToLower(ToLower(s)) == ToLower(s)
  {
    forall i | 0 <= i < |s|
      ensures LowerChar(LowerChar(s[i])) == LowerChar(s[i])
    {
    }
  }

  /** The classification ignores case: a type and its lower-cased form get the same icon. */
  lemma ClassifyIgnoresCase(fileType: string)
    ensures Classify(ToLower(fileType)) == Classify(fileType)
  {
    ToLowerIdempotent(fileType);
  }

  /** "pdf" is checked first: a type that also mentions a word document still gets the PDF icon. */
  lemma PdfWinsOverWord(fileType: string)
    requires Contains(ToLower(fileType), "pdf") && Contains(ToLower(fileType), "word")
    ensures Classify(fileType) == PdfIcon
  {
  }

  /** One row of the table. */
  datatype Row = FileRow(file: FileRecord, icon: Icon) | EmptyRow(text: string)

  /** `files && files.length > 0 ? files.map(...) : <empty row>`. */
  function Rows(files: Option<seq<FileRecord>>): (rows: seq<Row>)
    ensures files.None? || files.value == [] ==> rows == [EmptyRow("No files uploaded yet.")]
    ensures files.Some? && files.value != [] ==>
      && |rows| == |files.value|
      && forall i :: 0 <= i < |rows| ==> rows[i] == FileRow(files.value[i], Classify(files.value[i].fileType))
  {
    if files.None? || |files.value| == 0 then [EmptyRow("No files uploaded yet.")]
    else
      var fs := files.value;
      seq(|fs|, i requires 0 <= i < |fs| => FileRow(fs[i], Classify(fs[i].fileType)))
  }

  /** The upload control: the `uploading` flag and the file input's value. */
  class UploadPanel {
    var uploading: bool
    var inputValue: string

    constructor()
      ensures !uploading && inputValue == ""
    {
      uploading := false;
      inputValue := "";
    }

    /**
     * `handleFileChange`: with no file chosen nothing happens; otherwise the
     * flag is raised for the upload (`BeginUpload`) and lowered, and the input
     * cleared, whether it succeeds or fails (`EndUpload`). `file` is the chosen file's name and
     * `uploadSucceeds` the upload's outcome; the result is the final toast.
     */
    method HandleFileChange(file: Option<string>, uploadSucceeds: bool) returns (toast: Option<string>)
      modifies this
      ensures file.None? ==> toast.None? && uploading == old(uploading) && inputValue == old(inputValue)
      ensures file.Some? ==> !uploading && inputValue == ""
      ensures file.Some? ==> toast == Some(if uploadSucceeds then "Upload successful!" else "Upload failed")
    {
      if file.None? {
        return None;
      }
      BeginUpload();
      if uploadSucceeds {
        toast := Some("Upload successful!");
      } else {
        toast := Some("Upload failed");
      }
      EndUpload();
    }

    /** `setUploading(true)` before the upload is awaited: the flag is up while it runs. */
    method BeginUpload()
      modifies this
      ensures uploading && inputValue == old(inputValue)
    {
      uploading := true;
    }

    /** The `finally` block: the flag goes down and the file input is cleared. */
    method EndUpload()
      modifies this
      ensures !uploading && inputValue == ""
    {
      uploading := false;
      inputValue := "";
    }
  }
}
