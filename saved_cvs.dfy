/** The "saved CVs" dialog: the stored CVs, most recently modified first,
    one row each with its display name and modification time. */
module SavedCvs {
  import opened Wrappers
  import opened CvTypes
  import opened StableSort

  /** `cv.lastModified || 0`: a missing time counts as 0. */
  function ModifiedOrZero(cv: CVData): int {
    match cv.lastModified
    case None => 0
    case Some(t) => t
  }

  /** The comparator `(b.lastModified || 0) - (a.lastModified || 0)` is
      negative exactly when `a` is more recent: the key, larger first. */
  function RecencyKey(cv: CVData): Key {
    Key(ModifiedOrZero(cv), 0)
  }

  /** `[...savedCVs].sort(...)`: a sorted copy; the stored list is a value
      and is not reordered. */
  function SortedCvs(saved: seq<CVData>): seq<CVData> {
    SortByKey(saved, RecencyKey)
  }

  /** The dialog lists every stored CV exactly as often as it is stored. */
  lemma {:induction false} SortedCvsPermutation(saved: seq<CVData>)
    ensures multiset(SortedCvs(saved)) == multiset(saved)
    ensures |SortedCvs(saved)| == |saved|
  {
    SortPermutation(saved, RecencyKey);
    SortLength(saved, RecencyKey);
  }

  /** Modification times never increase down the list. */
  lemma {:induction false} SortedCvsNewestFirst(saved: seq<CVData>)
    ensures forall i, j :: 0 <= i < j < |SortedCvs(saved)| ==>
      ModifiedOrZero(SortedCvs(saved)[i]) >= ModifiedOrZero(SortedCvs(saved)[j])
  {
    var r := SortedCvs(saved);
    SortDescending(saved, RecencyKey);
    forall i, j | 0 <= i < j < |r| ensures ModifiedOrZero(r[i]) >= ModifiedOrZero(r[j]) {
      assert !Above(RecencyKey(r[j]), RecencyKey(r[i]));
    }
  }

  /** CVs with the same modification time keep their stored order. */
  lemma {:induction false} SortedCvsStable(saved: seq<CVData>, t: int)
    ensures WithKey(SortedCvs(saved), RecencyKey, Key(t, 0)) == WithKey(saved, RecencyKey, Key(t, 0))
  {
    SortStable(saved, RecencyKey, Key(t, 0));
  }

  /** `cv.personal.name || 'CV Sin Nombre'`. */
  function DisplayName(cv: CVData): (title: string)
    ensures title != []
    ensures cv.personal.name != [] ==> title == cv.personal.name
  {
    if cv.personal.name == "" then "CV Sin Nombre" else cv.personal.name
  }

  /** The modification line: the time formatted by the browser's locale
      (`format`), or `Desconocida` when the time is missing or 0. */
  function ModifiedText(cv: CVData, format: int -> string): (text: string)
    ensures ModifiedOrZero(cv) == 0 ==> text == "Desconocida"
    ensures ModifiedOrZero(cv) != 0 ==> text == format(ModifiedOrZero(cv))
  {
    match cv.lastModified
    case Some(t) => if t != 0 then format(t) else "Desconocida"
    case None => "Desconocida"
  }

  /** One row: the id passed to the edit and delete buttons, the title and
      the modification line. */
  datatype CvRow = CvRow(id: Option<string>, title: string, modified: string)

  /** The dialog: closed, the empty-state message, or the list of rows. */
  datatype SavedView = Hidden | EmptyState | Listing(rows: seq<CvRow>)

  function RowOf(cv: CVData, format: int -> string): CvRow {
    CvRow(cv.id, DisplayName(cv), ModifiedText(cv, format))
  }

  function RenderSaved(isOpen: bool, saved: seq<CVData>, format: int -> string): SavedView {
    if !isOpen then Hidden
    else
      var sorted := SortedCvs(saved);
      if |sorted| > 0 then Listing(seq(|sorted|, i requires 0 <= i < |sorted| => RowOf(sorted[i], format)))
      else EmptyState
  }

  /** The closed dialog renders nothing; an open one shows the empty-state
      message exactly when nothing is stored, else one row per stored CV. */
  lemma {:induction false} RenderSavedShape(isOpen: bool, saved: seq<CVData>, format: int -> string)
    ensures RenderSaved(isOpen, saved, format).Hidden? <==> !isOpen
    ensures RenderSaved(isOpen, saved, format).EmptyState? <==> isOpen && saved == []
    ensures RenderSaved(isOpen, saved, format).Listing? ==> |RenderSaved(isOpen, saved, format).rows| == |saved|
  {
    SortedCvsPermutation(saved);
  }

  /** Row `i` shows a stored CV under a non-empty title, and no row below
      it shows a more recently modified one. */
  lemma {:induction false} RenderSavedRows(saved: seq<CVData>, format: int -> string, i: nat)
    requires RenderSaved(true, saved, format).Listing?
    requires i < |RenderSaved(true, saved, format).rows|
    ensures RenderSaved(true, saved, format).rows[i] == RowOf(SortedCvs(saved)[i], format)
    ensures SortedCvs(saved)[i] in saved
    ensures RenderSaved(true, saved, format).rows[i].title != []
    ensures forall j :: i < j < |SortedCvs(saved)| ==>
      ModifiedOrZero(SortedCvs(saved)[i]) >= ModifiedOrZero(SortedCvs(saved)[j])
  {
    SortedCvsPermutation(saved);
    SortedCvsNewestFirst(saved);
    assert SortedCvs(saved)[i] in multiset(saved);
  }
}
