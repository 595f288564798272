/**
 * `admin_panel`: the password-gated upload that replaces the data file and
 * clears the roster cache. The secret store is a parameter, the uploaded
 * file a name and its bytes, and the filesystem a map from paths to
 * contents.
 */
module Admin {
  import opened Wrappers
  import opened Strings
  import opened Paths
  import opened Loader
  import opened Cache

  /** An uploaded file: its name as the browser gave it, and its bytes. */
  datatype Upload = Upload(name: string, data: Bytes)

  /** What the panel does. */
  datatype AdminOutcome =
    | Hidden              // no password is configured: the panel is not shown
    | Written(target: Path)  // the file was stored at `target` and the cache cleared
    | AuthError           // a file and a wrong, non-empty password
    | NoOp                // no file, or an empty password

  /** `upload.name.lower().endswith(("xlsx", "xls"))` (app.py:71): the
      lowercased file name ending in `xlsx` or `xls` (no dot is required)
      selects the spreadsheet slot, anything else the CSV slot. */
  function UploadTarget(name: string): (r: Path)
    ensures r == TmpXlsx || r == TmpCsv
  {
    if EndsWith(Lower(name), "xlsx") || EndsWith(Lower(name), "xls") then TmpXlsx else TmpCsv
  }

  /** The panel's decision table of the admin expander in `main` (app.py:61-77). */
  function Decide(configured: Option<string>, pw: string, upload: Option<Upload>): (r: AdminOutcome)
    ensures r.Written? ==> upload.Some? && configured == Some(pw) && pw != "" && r.target == UploadTarget(upload.value.name)
    ensures r.AuthError? ==> upload.Some? && pw != "" && configured.Some? && pw != configured.value
  {
    if configured.None? || configured.value == "" then Hidden
    else if upload.Some? && pw == configured.value then Written(UploadTarget(upload.value.name))
    else if upload.Some? && pw != "" then
      (if pw != configured.value then AuthError else NoOp)
    else NoOp
  }

  /** Each outcome, and exactly when it happens. */
  lemma DecisionTable(configured: Option<string>, pw: string, upload: Option<Upload>)
    ensures Decide(configured, pw, upload) == Hidden <==> configured.None? || configured.value == ""
    ensures Decide(configured, pw, upload).Written? <==>
      configured.Some? && configured.value != "" && upload.Some? && pw == configured.value
    ensures Decide(configured, pw, upload).Written? ==>
      Decide(configured, pw, upload).target == UploadTarget(upload.value.name)
    ensures Decide(configured, pw, upload) == AuthError <==>
      configured.Some? && configured.value != "" && upload.Some? && pw != "" && pw != configured.value
    ensures Decide(configured, pw, upload) == NoOp <==>
      configured.Some? && configured.value != "" && (upload.None? || pw == "")
  {
  }

  /** The slot an upload goes to is read back by the parser its name asks
      for: the spreadsheet reader exactly when the lowercased name ends in
      `xlsx` or `xls`. */
  lemma UploadRouting(name: string)
    ensures FormatOf(UploadTarget(name)) == Spreadsheet <==>
              EndsWith(Lower(name), "xlsx") || EndsWith(Lower(name), "xls")
  {
    CandidateFormats("");
  }

  /** After an upload to the spreadsheet slot, the next load reads exactly
      the uploaded bytes, with the spreadsheet reader, whatever else exists. */
  lemma SpreadsheetUploadIsRead(files: map<Path, Bytes>, root: Path, read: (Bytes, Reader) -> ParseOutcome, data: Bytes)
    ensures FirstExisting(Candidates(root), files[TmpXlsx := data].Keys) == Some(TmpXlsx)
    ensures LoadDf(files[TmpXlsx := data], root, read) == LoadFile(TmpXlsx, data, read)
    ensures FormatOf(TmpXlsx) == Spreadsheet
  {
    SelectSource(root, files[TmpXlsx := data].Keys);
    CandidateFormats(root);
  }

  /** An upload to the CSV slot is read by the next load only when no
      uploaded spreadsheet exists; otherwise the earlier spreadsheet stays
      in use and the new file is ignored. */
  lemma CsvUploadIsRead(files: map<Path, Bytes>, root: Path, read: (Bytes, Reader) -> ParseOutcome, data: Bytes)
    ensures TmpXlsx !in files ==>
      LoadDf(files[TmpCsv := data], root, read) == LoadFile(TmpCsv, data, read)
    ensures TmpXlsx in files ==>
      LoadDf(files[TmpCsv := data], root, read) == LoadFile(TmpXlsx, files[TmpXlsx], read)
  {
    SelectSource(root, files[TmpCsv := data].Keys);
    assert TmpXlsx != TmpCsv by {
      assert |TmpXlsx| != |TmpCsv|;
    }
  }

  /** The filesystem as seen by the script: the contents of each existing path. */
  class FileSystem {
    var files: map<Path, Bytes>

    constructor (initial: map<Path, Bytes>)
      ensures files == initial
    {
      files := initial;
    }

    /** `Path.write_bytes`: creates or overwrites one file. */
    method WriteBytes(p: Path, data: Bytes)
      modifies this
      ensures files == old(files)[p := data]
    {
      files := files[p := data];
    }
  }

  /** `admin_panel()` with the secret, the password box and the upload box
      given as parameters: only a written file changes the filesystem, and
      only then is the cache cleared. */
  method AdminPanel(fs: FileSystem, cache: RosterCache, configured: Option<string>, pw: string, upload: Option<Upload>)
    returns (o: AdminOutcome)
    modifies fs, cache
    ensures o == Decide(configured, pw, upload)
    ensures o.Written? ==> fs.files == old(fs.files)[o.target := upload.value.data] && !cache.valid
    ensures o.Written? ==> cache.value == old(cache.value) && cache.stamp == old(cache.stamp)
    ensures !o.Written? ==> fs.files == old(fs.files) && unchanged(cache)
  {
    if configured.None? || configured.value == "" {
      return Hidden;
    }
    o := NoOp;
    if upload.Some? && pw == configured.value {
      var target := UploadTarget(upload.value.name);
      fs.WriteBytes(target, upload.value.data);
      cache.Invalidate();
      o := Written(target);
    } else if upload.Some? && pw != "" {
      if pw != configured.value {
        o := AuthError;
      }
    }
  }
}

/** Concrete file names at the upload's routing test. In each lemma the
    literal is a parameter fixed by a `requires`, so the proof reasons about
    one variable of known value rather than about the literal written out in
    every term, which keeps it small. */
module AdminExamples {
  import opened Strings
  import opened Paths
  import opened Admin

  /** The test has no dot: a name merely ending in the letters `xls` still
      goes to the spreadsheet slot. */
  lemma ExampleDotless(n: string)
    requires n == "dataxls"
    ensures UploadTarget(n) == TmpXlsx
  {
    assert Lower(n) == n by {
      LowerOfLowercase(n);
    }
    assert EndsWith(n, "xls") by {
      assert n[|n| - 3..] == "xls";
    }
  }

  /** Case is ignored: `.XLS` and `.Xlsx` go to the spreadsheet slot. */
  lemma ExampleUpperXls(n: string)
    requires n == "ROSTER.XLS"
    ensures UploadTarget(n) == TmpXlsx
  {
    assert Lower(n)[|n| - 3..] == "xls";
  }

  /** A CSV name goes to the CSV slot. */
  lemma ExampleCsv(n: string)
    requires n == "roster.csv"
    ensures UploadTarget(n) == TmpCsv
  {
    assert Lower(n) == n by {
      LowerOfLowercase(n);
    }
    assert !EndsWith(n, "xls") by {
      assert n[|n| - 1] != 's';
    }
    assert !EndsWith(n, "xlsx") by {
      assert n[|n| - 1] != 'x';
    }
  }
}
