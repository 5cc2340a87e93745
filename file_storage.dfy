/** `FileBasedDataStorage`: appends every record of a batch, one
    newline-terminated line each, to a file that must exist when the storage
    is created. */
module FileStorage {
  import opened Wrappers
  import opened Text
  import opened CivilTime
  import opened WebTransactions

  /** The text of the file at `path`; a missing file reads as empty. */
  function FileContents(files: map<string, string>, path: string): string {
    if path in files then files[path] else ""
  }

  /** The local file system: the text of each existing file by full path,
      and the number of appends attempted so far. */
  datatype FileState = FileState(files: map<string, string>, appends: nat)

  /** The state after opening `path` for appending and writing `text`, an
      attempt that throws an IOException when `fails` says so. A failed
      attempt writes nothing. */
  function AfterAppend(st: FileState, fails: nat -> bool, path: string, text: string): (r: FileState)
    ensures r.appends == st.appends + 1
    ensures fails(st.appends) ==> r.files == st.files
    ensures !fails(st.appends) ==> r.files == st.files[path := FileContents(st.files, path) + text]
  {
    FileState(if fails(st.appends) then st.files else st.files[path := FileContents(st.files, path) + text],
              st.appends + 1)
  }

  /** The local file system, its files keyed by full path. `fails(n)` tells
      whether the n-th append (counted from 0) throws: the file is locked,
      access is denied, the directory is gone or the disk is full.
      `fullName(p)` is what `new FileInfo(p).FullName` makes of a path
      argument, resolved against the working directory, or `None` where the
      `FileInfo` constructor throws (an illegal character, a misplaced colon). */
  class FileSystem {
    var files: map<string, string>
    var appends: nat
    const fails: nat -> bool
    const fullName: string -> Option<string>

    constructor (files: map<string, string>, fails: nat -> bool, fullName: string -> Option<string>)
      ensures this.files == files && appends == 0 && this.fails == fails && this.fullName == fullName
    {
      this.files := files;
      this.appends := 0;
      this.fails := fails;
      this.fullName := fullName;
    }

    function State(): FileState
      reads this
    {
      FileState(files, appends)
    }

    /** The text of the file at `path`; a missing file reads as empty. */
    function Contents(path: string): string
      reads this
    {
      FileContents(files, path)
    }

    /** `File.AppendText` followed by `Write`: unless the attempt throws, the
        file, created when missing, ends with `text` afterwards; no other file
        changes. */
    method AppendText(path: string, text: string) returns (ok: bool)
      modifies this
      ensures State() == AfterAppend(old(State()), fails, path, text)
      ensures ok == !fails(old(appends))
    {
      ok := !fails(appends);
      if ok {
        files := files[path := Contents(path) + text];
      }
      appends := appends + 1;
    }
  }

  /** The text `Save` appends: each record's line followed by a newline. */
  function FileText(records: seq<WebTransaction>, showDate: DateTime -> string): string
    requires AllDated(records)
  {
    Terminated(Lines(records, showDate), NewLine)
  }

  /** The `StringBuilder` loop of `Save`; `None` where rendering a record throws. */
  method BuildFileText(records: seq<WebTransaction>, showDate: DateTime -> string) returns (r: Option<string>)
    ensures r.Some? <==> AllDated(records)
    ensures r.Some? ==> r.value == FileText(records, showDate)
  {
    var builder := "";
    for i := 0 to |records|
      invariant AllDated(records[..i])
      invariant builder == FileText(records[..i], showDate)
    {
      var line := ToTabDelimitedString(records[i], showDate);
      if line.None? {
        return None;
      }
      FileTextStep(records, showDate, i);
      builder := builder + line.value + NewLine;
    }
    assert records[..|records|] == records;
    r := Some(builder);
  }

  /** One more record appends its line and a newline. */
  lemma FileTextStep(records: seq<WebTransaction>, showDate: DateTime -> string, i: nat)
    requires i < |records| && AllDated(records[..i]) && HasObservationDate(records[i])
    ensures AllDated(records[..i + 1])
    ensures FileText(records[..i + 1], showDate)
      == FileText(records[..i], showDate) + ToTabDelimitedString(records[i], showDate).value + NewLine
  {
    LinesStep(records[..i + 1], showDate, i);
    assert records[..i + 1][..i] == records[..i];
    var lines := Lines(records[..i + 1], showDate);
    assert lines[..|lines| - 1] == Lines(records[..i], showDate);
  }

  /** A batch that has lines gets exactly the S3 object's content plus a final
      newline: both backends write the same lines. */
  lemma FileTextIsContentPlusNewLine(records: seq<WebTransaction>, showDate: DateTime -> string)
    requires AllDated(records) && records != []
    ensures FileText(records, showDate) == Join(Lines(records, showDate), NewLine) + NewLine
  {
    TerminatedIsJoinPlusTerminator(Lines(records, showDate), NewLine);
  }

  /** Saving two batches one after the other appends what saving their
      concatenation appends. */
  lemma FileTextAppend(a: seq<WebTransaction>, b: seq<WebTransaction>, showDate: DateTime -> string)
    requires AllDated(a) && AllDated(b)
    ensures AllDated(a + b)
    ensures FileText(a + b, showDate) == FileText(a, showDate) + FileText(b, showDate)
  {
    LinesAppend(a, b, showDate);
    TerminatedAppend(Lines(a, showDate), Lines(b, showDate), NewLine);
  }

  /** The appended text holds the lines and two characters per record for the newline. */
  lemma FileTextLength(records: seq<WebTransaction>, showDate: DateTime -> string)
    requires AllDated(records)
    ensures |FileText(records, showDate)| == TotalLength(Lines(records, showDate)) + 2 * |records|
  {
    TerminatedLength(Lines(records, showDate), NewLine);
  }

  /** With no line feed inside a record's line, the appended text holds
      exactly one line feed per record. */
  lemma FileTextLineFeeds(records: seq<WebTransaction>, showDate: DateTime -> string)
    requires AllDated(records)
    requires forall i :: 0 <= i < |records| ==> CountChar(Lines(records, showDate)[i], '\n') == 0
    ensures CountChar(FileText(records, showDate), '\n') == |records|
  {
    NewLineHasOneLineFeed();
    TerminatedCount(Lines(records, showDate), NewLine, '\n');
  }

  /** Saving no records appends nothing. */
  lemma FileTextEmpty(showDate: DateTime -> string)
    ensures FileText([], showDate) == ""
  {
  }

  /** The file system after `Save(records)` on the file at `path`: one
      append of the batch's text, or nothing where rendering a record throws. */
  function FileSaveSpec(st: FileState, fails: nat -> bool, path: string, records: seq<WebTransaction>,
                        showDate: DateTime -> string): FileState
  {
    if AllDated(records) then AfterAppend(st, fails, path, FileText(records, showDate)) else st
  }

  /** `Save` only appends, whether or not the write fails: the file's old text
      stays a prefix of its new text, no other file changes, and an empty
      batch changes no file. */
  lemma FileSaveAppendsOnly(st: FileState, fails: nat -> bool, path: string, records: seq<WebTransaction>,
                            showDate: DateTime -> string)
    ensures var after := FileSaveSpec(st, fails, path, records, showDate);
      FileContents(st.files, path) <= FileContents(after.files, path)
      && (forall p :: p != path ==> FileContents(after.files, p) == FileContents(st.files, p))
      && (records == [] && path in st.files ==> after.files == st.files)
  {
    if AllDated(records) && !fails(st.appends) && records == [] && path in st.files {
      var after := FileSaveSpec(st, fails, path, records, showDate);
      assert FileText(records, showDate) == "";
      assert st.files[path] + "" == st.files[path];
      assert after.files == st.files;
    }
  }

  /** The outcome of the constructor: the null-argument exception, the
      exception `FileInfo` throws on a malformed path, the missing-file
      exception, or the storage. */
  datatype Opened = NullPath | BadPath | MissingFile(message: string) | Opened(storage: FileBasedDataStorage)

  class FileBasedDataStorage {
    /** The file's full name, as `_fileName.FullName` gives it. */
    const fileName: string
    const fs: FileSystem
    const showDate: DateTime -> string

    constructor (fileName: string, fs: FileSystem, showDate: DateTime -> string)
      ensures this.fileName == fileName && this.fs == fs && this.showDate == showDate
    {
      this.fileName := fileName;
      this.fs := fs;
      this.showDate := showDate;
    }

    /** The constructor's checks: ArgumentNullException for a null or empty
        path, the `FileInfo` constructor's exception for a malformed one,
        ArgumentException (quoting the path as given) when no file exists at
        its full name. Two spellings of one full name open the same file. */
    static method Create(fileFullPath: Option<string>, fs: FileSystem, showDate: DateTime -> string)
      returns (r: Opened)
      ensures (fileFullPath.None? || fileFullPath.value == "") <==> r.NullPath?
      ensures r.BadPath? <==> fileFullPath.Some? && fileFullPath.value != "" && fs.fullName(fileFullPath.value).None?
      ensures r.MissingFile? <==> fileFullPath.Some? && fileFullPath.value != ""
                                  && fs.fullName(fileFullPath.value).Some?
                                  && fs.fullName(fileFullPath.value).value !in fs.files
      ensures r.MissingFile? ==>
        r.message == "Provided file path " + fileFullPath.value + " does not exist."
      ensures r.Opened? ==> fresh(r.storage) && fs.fullName(fileFullPath.value) == Some(r.storage.fileName)
                            && r.storage.fileName in fs.files
                            && r.storage.fs == fs && r.storage.showDate == showDate
    {
      if fileFullPath.None? || fileFullPath.value == "" {
        return NullPath;
      }
      var path := fileFullPath.value;
      var full := fs.fullName(path);
      if full.None? {
        return BadPath;
      }
      if full.value !in fs.files {
        return MissingFile("Provided file path " + path + " does not exist.");
      }
      var storage := new FileBasedDataStorage(full.value, fs, showDate);
      r := Opened(storage);
    }

    /** `Save`: builds the text, then appends it to the file in one write;
        `false` where rendering a record throws, before the file is opened,
        or where the append throws. */
    method Save(records: seq<WebTransaction>) returns (ok: bool)
      modifies fs
      ensures ok <==> AllDated(records) && !fs.fails(old(fs.appends))
      ensures fs.State() == FileSaveSpec(old(fs.State()), fs.fails, fileName, records, showDate)
      ensures old(fs.Contents(fileName)) <= fs.Contents(fileName)
      ensures forall path :: path != fileName ==> fs.Contents(path) == old(fs.Contents(path))
      ensures records == [] && fileName in old(fs.files) ==> fs.files == old(fs.files)
    {
      ghost var before := fs.State();
      var text := BuildFileText(records, showDate);
      if text.None? {
        ok := false;
      } else {
        ok := fs.AppendText(fileName, text.value);
      }
      FileSaveAppendsOnly(before, fs.fails, fileName, records, showDate);
    }
  }
}
