/**
 * The data-source locations of the dues lookup, the order in which they are
 * tried, and the reading of a path's final suffix that decides how a file
 * is parsed.
 */
module Paths {
  import opened Wrappers
  import opened Strings

  type Path = string

  /** The spreadsheet the administrator uploads on the day of the event. */
  const TmpXlsx: Path := "/tmp/students.xlsx"
  /** The delimited-text file the administrator uploads instead. */
  const TmpCsv: Path := "/tmp/students.csv"
  const LocalName: string := "학생이름_학번v2.xlsx"

  /** `Path(a) / b` for an absolute `a` and a relative `b`. */
  function Join(a: Path, b: string): Path {
    if EndsWith(a, "/") then a + b else a + "/" + b
  }

  /** The bundled spreadsheet for local development, where `root` stands
      for the parent of the directory that holds the script. */
  function LocalXlsx(root: Path): Path {
    Join(Join(Join(root, "dues_app"), "Flask_py"), LocalName)
  }

  /** The candidates, in the order they are tried. */
  function Candidates(root: Path): seq<Path> {
    [TmpXlsx, TmpCsv, LocalXlsx(root)]
  }

  /** The position of the first candidate in `present`, or `|cands|`. */
  function FirstIndex(cands: seq<Path>, present: set<Path>): (i: nat)
    ensures i <= |cands|
    ensures forall j :: 0 <= j < i ==> cands[j] !in present
    ensures i < |cands| ==> cands[i] in present
  {
    if cands == [] then 0
    else if cands[0] in present then 0
    else 1 + FirstIndex(cands[1..], present)
  }

  /** `next((p for p in cands if p.exists()), None)`: the chosen path exists
      and every candidate before it does not; `None` exactly when no
      candidate exists. */
  function FirstExisting(cands: seq<Path>, present: set<Path>): (r: Option<Path>)
    ensures r.Some? ==> r.value in present
    ensures r.Some? ==> exists i :: 0 <= i < |cands| && cands[i] == r.value &&
                                    forall j :: 0 <= j < i ==> cands[j] !in present
    ensures r.None? <==> forall j :: 0 <= j < |cands| ==> cands[j] !in present
  {
    var i := FirstIndex(cands, present);
    if i < |cands| then Some(cands[i]) else None
  }

  lemma {:induction false} FirstExistingOfThree(a: Path, b: Path, c: Path, present: set<Path>)
    ensures FirstExisting([a, b, c], present) ==
      if a in present then Some(a) else if b in present then Some(b)
      else if c in present then Some(c) else None
  {
    var s := [a, b, c];
    assert s[1..] == [b, c] && s[1..][1..] == [c] && s[1..][1..][1..] == [];
    var i := FirstIndex(s, present);
    assert FirstIndex([c], present) == if c in present then 0 else 1;
    assert FirstIndex([b, c], present) == if b in present then 0 else 1 + FirstIndex([c], present);
    assert i == if a in present then 0 else 1 + FirstIndex([b, c], present);
  }

  /** Source selection spelled out for the three fixed candidates. */
  lemma SelectSource(root: Path, present: set<Path>)
    ensures FirstExisting(Candidates(root), present) ==
      if TmpXlsx in present then Some(TmpXlsx)
      else if TmpCsv in present then Some(TmpCsv)
      else if LocalXlsx(root) in present then Some(LocalXlsx(root))
      else None
  {
    FirstExistingOfThree(TmpXlsx, TmpCsv, LocalXlsx(root), present);
  }

  /** The index of the last `c` in `s`, or -1 (`str.rfind`). */
  function LastIndexOf(s: string, c: char): (i: int)
    ensures -1 <= i < |s|
    ensures i >= 0 ==> s[i] == c
    ensures forall j :: i < j < |s| ==> s[j] != c
  {
    if s == [] then -1
    else if s[|s| - 1] == c then |s| - 1
    else LastIndexOf(s[..|s| - 1], c)
  }

  /** `PurePath.name`: the text after the last separator. */
  function Name(p: Path): (r: string)
    ensures |r| <= |p|
    ensures forall j :: 0 <= j < |r| ==> r[j] != '/'
  {
    p[LastIndexOf(p, '/') + 1..]
  }

  /** `PurePath.suffix`: from the last dot of the name, unless that dot
      starts or ends the name. */
  function Suffix(p: Path): (r: string)
    ensures r != [] ==> 2 <= |r| && r[0] == '.'
    ensures r != [] ==> forall j :: 1 <= j < |r| ==> r[j] != '.' && r[j] != '/'
  {
    var n := Name(p);
    var i := LastIndexOf(n, '.');
    if 0 < i < |n| - 1 then n[i..] else ""
  }

  lemma {:induction false} LastIndexOfAfter(a: string, c: char, b: string)
    requires forall j :: 0 <= j < |b| ==> b[j] != c
    ensures LastIndexOf(a + [c] + b, c) == |a|
  {
    var s := a + [c] + b;
    var i := LastIndexOf(s, c);
    assert s[|a|] == c;
    assert forall j :: |a| < j < |s| ==> s[j] == b[j - |a| - 1];
  }

  /** Joining a separator-free component makes it the name of the path. */
  lemma {:induction false} NameOfJoin(a: Path, b: string)
    requires forall j :: 0 <= j < |b| ==> b[j] != '/'
    ensures Name(Join(a, b)) == b
  {
    if EndsWith(a, "/") {
      var a' := a[..|a| - 1];
      assert a == a' + ['/'];
      assert Join(a, b) == a' + ['/'] + b;
      LastIndexOfAfter(a', '/', b);
    } else {
      assert Join(a, b) == a + ['/'] + b;
      LastIndexOfAfter(a, '/', b);
    }
  }

  /** `c` at `k` with no `c` after it is the last occurrence. */
  lemma LastIndexOfIs(s: string, c: char, k: nat)
    requires k < |s| && s[k] == c
    requires forall j :: k < j < |s| ==> s[j] != c
    ensures LastIndexOf(s, c) == k
  {
  }

  /** The suffix of a path whose last separator is at `slash` and whose
      name's last dot is at `dot`, strictly inside the name. */
  lemma SuffixIs(p: Path, slash: nat, dot: nat)
    requires slash + 1 < dot < |p| - 1
    requires p[slash] == '/' && p[dot] == '.'
    requires forall j :: slash < j < |p| ==> p[j] != '/'
    requires forall j :: dot < j < |p| ==> p[j] != '.'
    ensures Suffix(p) == p[dot..]
  {
    LastIndexOfIs(p, '/', slash);
    var n := p[slash + 1..];
    assert Name(p) == n;
    LastIndexOfIs(n, '.', dot - slash - 1);
    assert n[dot - slash - 1..] == p[dot..];
  }

  /** Which parser `load_df` uses for a path. */
  datatype Format = Spreadsheet | Delimited

  /** `data_path.suffix.lower() in (".xlsx", ".xls")` */
  function FormatOf(p: Path): Format {
    var x := Lower(Suffix(p));
    if x == ".xlsx" || x == ".xls" then Spreadsheet else Delimited
  }

  /** The suffix of `dir/name`, for a separator-free name whose last dot is
      at `dot`, strictly inside it. */
  lemma SuffixOfJoin(dir: Path, n: string, dot: nat)
    requires forall j :: 0 <= j < |n| ==> n[j] != '/'
    requires 0 < dot < |n| - 1 && n[dot] == '.'
    requires forall j :: dot < j < |n| ==> n[j] != '.'
    ensures Suffix(Join(dir, n)) == n[dot..]
  {
    NameOfJoin(dir, n);
    LastIndexOfIs(n, '.', dot);
  }

  lemma {:induction false} LowerOfLowercase(s: string)
    requires forall j :: 0 <= j < |s| ==> !('A' <= s[j] <= 'Z')
    ensures Lower(s) == s
  {
    if s != [] {
      LowerOfLowercase(s[1..]);
    }
  }

  lemma FormatOfXlsx(p: Path)
    requires Suffix(p) == ".xlsx"
    ensures FormatOf(p) == Spreadsheet
  {
    var x := Suffix(p);
    assert forall j :: 0 <= j < |x| ==> !('A' <= x[j] <= 'Z');
    LowerOfLowercase(x);
  }

  lemma FormatOfCsv(p: Path)
    requires Suffix(p) == ".csv"
    ensures FormatOf(p) == Delimited
  {
    var x := Suffix(p);
    assert forall j :: 0 <= j < |x| ==> !('A' <= x[j] <= 'Z');
    LowerOfLowercase(x);
    assert x != ".xlsx" && x != ".xls" by {
      assert x[1] == 'c';
    }
  }

  lemma TmpXlsxSuffix()
    ensures Suffix(TmpXlsx) == ".xlsx"
  {
    SuffixIs(TmpXlsx, 4, 13);
  }

  lemma TmpCsvSuffix()
    ensures Suffix(TmpCsv) == ".csv"
  {
    SuffixIs(TmpCsv, 4, 13);
  }

  lemma LocalSuffix(root: Path)
    ensures Suffix(LocalXlsx(root)) == ".xlsx"
  {
    SuffixOfJoin(Join(Join(root, "dues_app"), "Flask_py"), LocalName, 9);
  }

  /** The uploaded spreadsheet and the bundled file, wherever the script is
      installed, are read as spreadsheets; the uploaded delimited file is not. */
  lemma CandidateFormats(root: Path)
    ensures FormatOf(TmpXlsx) == Spreadsheet
    ensures FormatOf(TmpCsv) == Delimited
    ensures FormatOf(LocalXlsx(root)) == Spreadsheet
  {
    TmpXlsxSuffix();
    FormatOfXlsx(TmpXlsx);
    TmpCsvSuffix();
    FormatOfCsv(TmpCsv);
    LocalSuffix(root);
    FormatOfXlsx(LocalXlsx(root));
  }
}
