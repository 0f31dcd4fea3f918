/** The phone-prefix picker of the personal-data form: which country is shown
    as selected, which countries the search keeps and in what order, and the
    open/closed state with its search term. The country table itself
    (data/countries.ts) is a parameter. */
module CountryPicker {
  import opened Wrappers
  import opened TextOps
  import opened StableSort

  datatype Country = Country(name: string, code: string, iso: string)

  /** The index of the first country satisfying `p`, if any. */
  function FirstIndex(cs: seq<Country>, p: Country -> bool): (r: Option<nat>)
    ensures r.Some? ==> r.value < |cs| && p(cs[r.value])
    ensures r.Some? ==> forall j :: 0 <= j < r.value ==> !p(cs[j])
    ensures r.None? ==> forall j :: 0 <= j < |cs| ==> !p(cs[j])
  {
    if cs == [] then None
    else if p(cs[0]) then Some(0)
    else match FirstIndex(cs[1..], p)
      case None => None
      case Some(k) => Some(k + 1)
  }

  /** `Array.prototype.find`: the first country satisfying `p`. */
  function Find(cs: seq<Country>, p: Country -> bool): Option<Country> {
    match FirstIndex(cs, p)
    case None => None
    case Some(k) => Some(cs[k])
  }

  /** The country shown on the button: the first whose code is `value`,
      else the first with iso `CL`; `None` renders nothing. */
  function SelectedCountry(cs: seq<Country>, value: string): Option<Country> {
    match Find(cs, (c: Country) => c.code == value)
    case Some(c) => Some(c)
    case None => Find(cs, (c: Country) => c.iso == "CL")
  }

  /** The first country carrying the current code is the one selected. */
  lemma {:induction false} SelectedByCode(cs: seq<Country>, value: string, i: nat)
    requires i < |cs| && cs[i].code == value
    requires forall j :: 0 <= j < i ==> cs[j].code != value
    ensures SelectedCountry(cs, value) == Some(cs[i])
  {
  }

  /** With no country carrying the code, the first Chilean entry is selected. */
  lemma {:induction false} SelectedFallsBackToChile(cs: seq<Country>, value: string, i: nat)
    requires forall j :: 0 <= j < |cs| ==> cs[j].code != value
    requires i < |cs| && cs[i].iso == "CL"
    requires forall j :: 0 <= j < i ==> cs[j].iso != "CL"
    ensures SelectedCountry(cs, value) == Some(cs[i])
  {
  }

  /** The picker renders nothing exactly when no country carries the code
      and none is Chilean. */
  lemma {:induction false} SelectedNoneIff(cs: seq<Country>, value: string)
    ensures SelectedCountry(cs, value).None? <==>
      forall j :: 0 <= j < |cs| ==> cs[j].code != value && cs[j].iso != "CL"
  {
    var r := FirstIndex(cs, (c: Country) => c.code == value);
    var s := FirstIndex(cs, (c: Country) => c.iso == "CL");
    if r.Some? {
      assert cs[r.value].code == value;
    } else if s.Some? {
      assert cs[s.value].iso == "CL";
    } else {
      assert forall j :: 0 <= j < |cs| ==> !(cs[j].code == value) && !(cs[j].iso == "CL");
    }
  }

  /** The search test: the term occurs in the lower-case name, or verbatim in
      the dialling code, or in the lower-case iso. */
  predicate Matches(c: Country, term: string) {
    Contains(ToLower(c.name), ToLower(term))
    || Contains(c.code, term)
    || Contains(ToLower(c.iso), ToLower(term))
  }

  /** `countries.filter(...)`: the matching countries, in table order. */
  function Filter(cs: seq<Country>, term: string): (r: seq<Country>)
    ensures |r| <= |cs|
  {
    if cs == [] then []
    else (if Matches(cs[0], term) then [cs[0]] else []) + Filter(cs[1..], term)
  }

  /** A country is kept exactly when it is in the table and matches. */
  lemma {:induction false} FilterMembers(cs: seq<Country>, term: string, c: Country)
    ensures c in Filter(cs, term) <==> c in cs && Matches(c, term)
  {
    if cs != [] {
      FilterMembers(cs[1..], term, c);
      assert cs == [cs[0]] + cs[1..];
    }
  }

  /** The kept countries are a sub-multiset of the table. */
  lemma {:induction false} FilterSubset(cs: seq<Country>, term: string)
    ensures multiset(Filter(cs, term)) <= multiset(cs)
  {
    if cs != [] {
      FilterSubset(cs[1..], term);
      assert cs == [cs[0]] + cs[1..];
    }
  }

  lemma {:induction false} ContainsEmpty(s: string)
    ensures Contains(s, [])
  {
    assert StartsWith(s, []);
  }

  /** Every country passes an empty term. */
  lemma {:induction false} MatchesEmptyTerm(c: Country)
    ensures Matches(c, "")
  {
    ContainsEmpty(c.code);
  }

  /** An empty search keeps the whole table. */
  lemma {:induction false} FilterEmptyTerm(cs: seq<Country>)
    ensures Filter(cs, "") == cs
  {
    if cs != [] {
      MatchesEmptyTerm(cs[0]);
      FilterEmptyTerm(cs[1..]);
      assert cs == [cs[0]] + cs[1..];
    }
  }

  /** `localeCompare` on names, as the position `rank` gives each name in the
      collation order: ascending rank is the sort's larger-first key. */
  function NameKey(rank: string -> int): Country -> Key {
    (c: Country) => Key(-rank(c.name), 0)
  }

  /** `filteredCountries`: the matching countries sorted by name. */
  function Filtered(cs: seq<Country>, rank: string -> int, term: string): seq<Country> {
    SortByKey(Filter(cs, term), NameKey(rank))
  }

  /** The list offers exactly the table's matching countries. */
  lemma {:induction false} FilteredMembers(cs: seq<Country>, rank: string -> int, term: string, c: Country)
    ensures c in Filtered(cs, rank, term) <==> c in cs && Matches(c, term)
  {
    SortPermutation(Filter(cs, term), NameKey(rank));
    FilterMembers(cs, term, c);
    assert c in Filtered(cs, rank, term) <==> c in multiset(Filtered(cs, rank, term));
  }

  /** The list is a sub-multiset of the table: nothing is duplicated. */
  lemma {:induction false} FilteredSubset(cs: seq<Country>, rank: string -> int, term: string)
    ensures multiset(Filtered(cs, rank, term)) <= multiset(cs)
  {
    SortPermutation(Filter(cs, term), NameKey(rank));
    FilterSubset(cs, term);
  }

  /** An empty search lists the whole table, reordered. */
  lemma {:induction false} FilteredEmptyTerm(cs: seq<Country>, rank: string -> int)
    ensures multiset(Filtered(cs, rank, "")) == multiset(cs)
  {
    FilterEmptyTerm(cs);
    SortPermutation(cs, NameKey(rank));
  }

  /** The list is in collation order of the names. */
  lemma {:induction false} FilteredByName(cs: seq<Country>, rank: string -> int, term: string)
    ensures forall i, j :: 0 <= i < j < |Filtered(cs, rank, term)| ==>
      rank(Filtered(cs, rank, term)[i].name) <= rank(Filtered(cs, rank, term)[j].name)
  {
    var r := Filtered(cs, rank, term);
    var key := NameKey(rank);
    SortDescending(Filter(cs, term), key);
    forall i, j | 0 <= i < j < |r| ensures rank(r[i].name) <= rank(r[j].name) {
      assert !Above(key(r[j]), key(r[i]));
    }
  }

  /** Countries whose names collate equally keep their table order. */
  lemma {:induction false} FilteredStable(cs: seq<Country>, rank: string -> int, term: string, n: int)
    ensures WithKey(Filtered(cs, rank, term), NameKey(rank), Key(-n, 0))
         == WithKey(Filter(cs, term), NameKey(rank), Key(-n, 0))
  {
    SortStable(Filter(cs, term), NameKey(rank), Key(-n, 0));
  }

  /** The list is empty exactly when no country of the table matches. */
  lemma {:induction false} FilteredEmptyIff(cs: seq<Country>, rank: string -> int, term: string)
    ensures Filtered(cs, rank, term) == [] <==> forall c :: c in cs ==> !Matches(c, term)
  {
    var r := Filtered(cs, rank, term);
    if r != [] {
      FilteredMembers(cs, rank, term, r[0]);
    } else {
      forall c | c in cs ensures !Matches(c, term) {
        FilteredMembers(cs, rank, term, c);
      }
    }
  }

  /** One option of the open list; `selected` is its `aria-selected`. */
  datatype Row = Row(country: Country, selected: bool)

  /** The open list: the search box, the options and the "no results" row. */
  datatype ListView = ListView(term: string, rows: seq<Row>, noResults: bool)

  /** What the component renders: nothing, or the button with the selected
      country and, while open, the list. */
  datatype PickerView = Nothing | Picker(selected: Country, list: Option<ListView>)

  function Rows(cs: seq<Country>, value: string): (rows: seq<Row>)
    ensures |rows| == |cs|
    ensures forall i :: 0 <= i < |cs| ==> rows[i].country == cs[i]
    ensures forall i :: 0 <= i < |cs| ==> (rows[i].selected <==> cs[i].code == value)
  {
    seq(|cs|, i requires 0 <= i < |cs| => Row(cs[i], cs[i].code == value))
  }

  function Render(cs: seq<Country>, rank: string -> int, value: string, isOpen: bool, term: string): PickerView {
    match SelectedCountry(cs, value)
    case None => Nothing
    case Some(sel) =>
      var shown := Filtered(cs, rank, term);
      Picker(sel, if isOpen then Some(ListView(term, Rows(shown, value), |shown| == 0)) else None)
  }

  /** The list is drawn exactly while the picker is open and a country is selected. */
  lemma {:induction false} RenderShape(cs: seq<Country>, rank: string -> int, value: string, isOpen: bool, term: string)
    ensures Render(cs, rank, value, isOpen, term).Nothing? <==> SelectedCountry(cs, value).None?
    ensures Render(cs, rank, value, isOpen, term).Picker? ==>
      (Render(cs, rank, value, isOpen, term).list.Some? <==> isOpen)
  {
  }

  /** The "no results" row shows exactly when no country of the table
      matches the term, and then no option is listed. */
  lemma {:induction false} RenderNoResults(cs: seq<Country>, rank: string -> int, value: string, term: string)
    requires Render(cs, rank, value, true, term).Picker?
    ensures Render(cs, rank, value, true, term).list.Some?
    ensures Render(cs, rank, value, true, term).list.value.noResults <==>
      forall c :: c in cs ==> !Matches(c, term)
    ensures Render(cs, rank, value, true, term).list.value.noResults <==>
      Render(cs, rank, value, true, term).list.value.rows == []
  {
    FilteredEmptyIff(cs, rank, term);
  }

  /** Every option is a matching country of the table, and it is marked
      selected exactly when its code is the current value. */
  lemma {:induction false} RenderOptions(cs: seq<Country>, rank: string -> int, value: string, term: string, i: nat)
    requires Render(cs, rank, value, true, term).Picker?
    requires i < |Render(cs, rank, value, true, term).list.value.rows|
    ensures Render(cs, rank, value, true, term).list.value.rows[i].country in cs
    ensures Matches(Render(cs, rank, value, true, term).list.value.rows[i].country, term)
    ensures Render(cs, rank, value, true, term).list.value.rows[i].selected <==>
      Render(cs, rank, value, true, term).list.value.rows[i].country.code == value
  {
    var shown := Filtered(cs, rank, term);
    FilteredMembers(cs, rank, term, shown[i]);
  }

  /** The component's state: whether the list is open and the search term. */
  class PickerState {
    var isOpen: bool
    var searchTerm: string

    constructor()
      ensures !isOpen && searchTerm == ""
    {
      isOpen := false;
      searchTerm := "";
    }

    /** The button flips the list open or closed. */
    method Toggle()
      modifies this
      ensures isOpen == !old(isOpen) && searchTerm == old(searchTerm)
    {
      isOpen := !isOpen;
    }

    /** A mouse-down outside the wrapper closes the list; one inside changes nothing. */
    method MouseDown(insideWrapper: bool)
      modifies this
      ensures isOpen == (old(isOpen) && insideWrapper)
      ensures searchTerm == old(searchTerm)
    {
      if !insideWrapper {
        isOpen := false;
      }
    }

    /** Typing in the search box replaces the term. */
    method Search(term: string)
      modifies this
      ensures searchTerm == term && isOpen == old(isOpen)
    {
      searchTerm := term;
    }

    /** `handleSelect`: reports the country's code to the form, closes the
        list and clears the term. */
    method Select(c: Country) returns (reported: string)
      modifies this
      ensures reported == c.code
      ensures !isOpen && searchTerm == ""
    {
      reported := c.code;
      isOpen := false;
      searchTerm := "";
    }

    /** What the component renders in its current state. */
    function View(cs: seq<Country>, rank: string -> int, value: string): PickerView
      reads this
    {
      Render(cs, rank, value, isOpen, searchTerm)
    }
  }

  /** After a selection the picker shows the closed button, and an open list
      would again offer the whole table. */
  lemma {:induction false} AfterSelect(cs: seq<Country>, rank: string -> int, value: string)
    requires SelectedCountry(cs, value).Some?
    ensures Render(cs, rank, value, false, "") == Picker(SelectedCountry(cs, value).value, None)
    ensures multiset(Filtered(cs, rank, "")) == multiset(cs)
  {
    FilteredEmptyTerm(cs, rank);
  }
}
