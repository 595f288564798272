/**
 * The lookup branch of `main`: what the page reports for a query against
 * the loaded roster.
 */
module Lookup {
  import opened Wrappers
  import opened Strings
  import opened Normalize
  import opened Paths
  import opened Loader

  /** What the page shows below the query box. */
  datatype View =
    | NoData(hint: Path)              // no roster: the bundled path is shown as a hint
    | Idle                            // no button press and an empty query box
    | Prompt                          // the normalized query is empty
    | Found(name: string, q: string)  // the query is on the paid list
    | NotFound(q: string)             // the query is not on the paid list

  /** `df[df["학번"] == q]`, first row: the index of the first entry whose id
      is `q`, if any. */
  function FirstMatch(roster: seq<Entry>, q: string): (r: Option<nat>)
    ensures r.Some? ==> r.value < |roster| && roster[r.value].sid == q
    ensures r.Some? ==> forall j :: 0 <= j < r.value ==> roster[j].sid != q
    ensures r.None? <==> forall j :: 0 <= j < |roster| ==> roster[j].sid != q
  {
    if roster == [] then None
    else if roster[0].sid == q then Some(0)
    else
      match FirstMatch(roster[1..], q)
      case None => None
      case Some(i) => Some(i + 1)
  }

  /** The `if st.button(...) or sid:` block of `main` (app.py:94-104): a
      search is made when the button is pressed or the query box is not empty. */
  function Search(roster: seq<Entry>, sid: string, clicked: bool): (r: View)
    ensures !r.NoData?
    ensures r.Idle? <==> !clicked && sid == ""
    ensures (r.Found? || r.NotFound?) ==> r.q == NormalizeSid(sid) && r.q != "" && AllDigits(r.q)
  {
    if !clicked && sid == "" then Idle
    else
      var q := NormalizeSid(sid);
      if q == "" then Prompt
      else
        match FirstMatch(roster, q)
        case Some(i) => Found(roster[i].name, q)
        case None => NotFound(q)
  }

  /** The lookup part of `main` (app.py:82-104): with no roster the page
      reports that there is no data and shows the bundled path; otherwise it
      searches. */
  function MainView(loaded: LoadResult, root: Path, sid: string, clicked: bool): (r: View)
    ensures r.NoData? <==> loaded.roster.None?
    ensures r.NoData? ==> r.hint == LocalXlsx(root)
    ensures loaded.roster.Some? ==> r == Search(loaded.roster.value, sid, clicked)
  {
    match loaded.roster
    case None => NoData(LocalXlsx(root))
    case Some(roster) => Search(roster, sid, clicked)
  }

  /** An empty normalized query only prompts; no answer is given. */
  lemma SearchPrompt(roster: seq<Entry>, sid: string, clicked: bool)
    requires clicked || sid != ""
    ensures Search(roster, sid, clicked) == Prompt <==> NormalizeSid(sid) == ""
  {
  }

  /** The FIRST entry whose id is the normalized query gives the answer,
      with its name. */
  lemma SearchFound(roster: seq<Entry>, sid: string, clicked: bool, i: nat)
    requires clicked || sid != ""
    requires NormalizeSid(sid) != ""
    requires i < |roster| && roster[i].sid == NormalizeSid(sid)
    requires forall j :: 0 <= j < i ==> roster[j].sid != NormalizeSid(sid)
    ensures Search(roster, sid, clicked) == Found(roster[i].name, NormalizeSid(sid))
  {
    var q := NormalizeSid(sid);
    assert roster[i].sid == q;
    var m := FirstMatch(roster, q);
    assert m.Some?;
    var k := m.value;
    assert roster[k].sid == q;
    assert k == i;
  }

  /** A non-empty normalized query is answered either by `Found` for the
      first entry that has it or by `NotFound` when none has it. */
  lemma SearchAnswer(roster: seq<Entry>, sid: string, clicked: bool)
    requires clicked || sid != ""
    requires NormalizeSid(sid) != ""
    ensures Search(roster, sid, clicked).Found? || Search(roster, sid, clicked) == NotFound(NormalizeSid(sid))
    ensures Search(roster, sid, clicked).Found? ==>
      Search(roster, sid, clicked).q == NormalizeSid(sid) &&
      exists i :: 0 <= i < |roster| && roster[i].sid == NormalizeSid(sid) &&
                  roster[i].name == Search(roster, sid, clicked).name &&
                  forall j :: 0 <= j < i ==> roster[j].sid != NormalizeSid(sid)
    ensures Search(roster, sid, clicked).NotFound? ==>
      forall j :: 0 <= j < |roster| ==> roster[j].sid != NormalizeSid(sid)
  {
    var r := FirstMatch(roster, NormalizeSid(sid));
    if r.Some? {
      assert roster[r.value].name == Search(roster, sid, clicked).name;
    }
  }

  /** No entry has the normalized query `q`: the answer is `NotFound(q)`. */
  lemma SearchAbsent(roster: seq<Entry>, sid: string, clicked: bool, q: string)
    requires clicked || sid != ""
    requires q == NormalizeSid(sid) && q != ""
    requires forall j :: 0 <= j < |roster| ==> roster[j].sid != q
    ensures Search(roster, sid, clicked) == NotFound(q)
  {
  }

  /** An entry whose id is empty is never reported as found. */
  lemma NeverMatchesEmptyId(roster: seq<Entry>, sid: string, clicked: bool, n: string, q: string)
    requires Search(roster, sid, clicked) == Found(n, q)
    ensures q != "" && q == NormalizeSid(sid)
    ensures exists i :: 0 <= i < |roster| && roster[i].sid == q && roster[i].sid != "" && roster[i].name == n
  {
    var i := FirstMatch(roster, q).value;
    assert roster[i].sid == q;
  }

  /** Two queries with the same normalization get the same answer. */
  lemma SearchNormalized(roster: seq<Entry>, a: string, b: string)
    requires a != "" && b != "" && NormalizeSid(a) == NormalizeSid(b)
    ensures Search(roster, a, false) == Search(roster, b, false) == Search(roster, a, true)
  {
  }
}

/** Lookups against a one-entry paid list, as the page would answer them.
    Where a lemma takes the query as a parameter fixed by a `requires`, the
    proof reasons about one variable of known value rather than about the
    literal written out in every term, which keeps it small. */
module LookupExamples {
  import opened Wrappers
  import opened Strings
  import opened Normalize
  import opened NormalizeExamples
  import opened Loader
  import opened Lookup

  function Paid(): seq<Entry> { [Entry("홍길동", "2023320033")] }

  lemma ExampleFound()
    ensures Search(Paid(), "2023320033", true) == Found("홍길동", "2023320033")
  {
    assert NormalizeSid("2023320033") == "2023320033" by {
      NormalizeSidOfDigits("2023320033");
    }
  }

  lemma ExampleFoundDashed()
    ensures Search(Paid(), " 2023-320033 ", false) == Found("홍길동", "2023320033")
  {
    ExampleDashed();
  }

  lemma ExampleNotFound(q: string)
    requires q == "9999999999"
    ensures Search(Paid(), q, true) == NotFound(q)
  {
    assert NormalizeSid(q) == q by {
      assert AllDigits(q);
      NormalizeSidOfDigits(q);
    }
    assert Paid()[0].sid != q by {
      assert Paid()[0].sid[0] != q[0];
    }
    SearchAbsent(Paid(), q, true, q);
  }

  /** Spaces only: the query normalizes to nothing and the page prompts. */
  lemma ExampleBlank(s: string)
    requires s == "   "
    ensures Search(Paid(), s, false) == Prompt
  {
    assert s[|s| - 1] == ' ';
    NormalizeSidNoFloatSuffix(s);
    assert NoDigits(s);
    DigitsOfNonDigits(s);
    SearchPrompt(Paid(), s, false);
  }

  /** An empty box prompts when the button is pressed and shows nothing otherwise. */
  lemma ExampleNothingTyped()
    ensures Search(Paid(), "", true) == Prompt
    ensures Search(Paid(), "", false) == Idle
  {
    ExampleEmpty();
  }
}
