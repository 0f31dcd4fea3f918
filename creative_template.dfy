/** CreativeTemplate.tsx: the decorated two-column template. Its `getYear`
    takes the last four-digit run of the date and also accepts `present`;
    it title-cases the name and lays the contacts out in a grid. */
module CreativeTemplate {
  import opened Wrappers
  import opened TextOps
  import opened CvTypes
  import opened StableSort
  import opened JsNumber
  import opened TemplateRules

  // ----- getYear -----

  predicate IsFourDigits(s: string, i: int)
    requires 0 <= i
  {
    i + 4 <= |s| && IsDigit(s[i]) && IsDigit(s[i + 1]) && IsDigit(s[i + 2]) && IsDigit(s[i + 3])
  }

  /** `s.match(/\d{4}/g)`: the four-digit runs, scanned from the left, a
      match resuming after the previous one. */
  function Runs(s: string): (rs: seq<string>)
    ensures forall k :: 0 <= k < |rs| ==> |rs[k]| == 4 && AllDigitsIn(rs[k], 10)
    decreases |s|
  {
    if |s| < 4 then []
    else if IsFourDigits(s, 0) then
      assert forall i :: 0 <= i < 4 ==> HexValue(s[..4][i]) < 10;
      [s[..4]] + Runs(s[4..])
    else Runs(s[1..])
  }

  /** A prefix that ends in a non-digit does not disturb the runs after it. */
  lemma {:induction false} RunsAppend(p: string, t: string)
    requires p == [] || !IsDigit(p[|p| - 1])
    ensures Runs(p + t) == Runs(p) + Runs(t)
    decreases |p|
  {
    if p == [] {
      assert p + t == t;
    } else if |p| >= 4 && IsFourDigits(p, 0) {
      assert (p + t)[..4] == p[..4];
      assert (p + t)[4..] == p[4..] + t;
      RunsAppend(p[4..], t);
    } else {
      var u := p + t;
      assert u[1..] == p[1..] + t;
      if |p| >= 2 {
        RunsAppend(p[1..], t);
        if |p| >= 4 {
          assert !IsFourDigits(p, 0);
        }
      } else {
        assert p[1..] + t == t;
      }
    }
  }

  /** Four digits on their own are one run. */
  lemma {:induction false} RunsOfFour(ds: string)
    requires |ds| == 4 && AllDigitsIn(ds, 10)
    ensures Runs(ds) == [ds]
  {
    assert IsDigit(ds[0]) && IsDigit(ds[1]) && IsDigit(ds[2]) && IsDigit(ds[3]) by {
      assert HexValue(ds[0]) < 10 && HexValue(ds[1]) < 10 && HexValue(ds[2]) < 10 && HexValue(ds[3]) < 10;
    }
    assert ds[..4] == ds;
    assert Runs(ds[4..]) == [];
  }

  /** The words this template reads as "ongoing"; `present` is accepted too. */
  predicate IsOngoingWord(w: string) {
    IsPresenteWord(w) || w == "present"
  }

  /** `getYear`: a blank date is 0, an ongoing word is the year after
      `currentYear`, anything else is the last four-digit run as a number,
      or 0 when there is none. */
  function GetYear(dateStr: string, currentYear: int): (y: int)
    ensures AllSpace(dateStr) ==> y == 0
    ensures IsOngoingWord(Normalize(dateStr)) ==> y == currentYear + 1
    ensures !IsOngoingWord(Normalize(dateStr)) ==> 0 <= y < 10000
  {
    TrimEmptyIffAllSpace(dateStr);
    var n := Normalize(dateStr);
    if n == [] then 0
    else if IsOngoingWord(n) then currentYear + 1
    else
      var rs := Runs(dateStr);
      if rs == [] then 0
      else
        var last := rs[|rs| - 1];
        ParseRun(last);
        match ParseIntDecimal(last)
        case None => 0
        case Some(v) => v
  }

  /** `parseInt` of a run is its value, a number below 10000. */
  lemma {:induction false} ParseRun(ds: string)
    requires |ds| == 4 && AllDigitsIn(ds, 10)
    ensures ParseIntDecimal(ds) == Some(DigitsValue(ds, 10))
    ensures DigitsValue(ds, 10) < 10000
  {
    var none: string := [];
    assert ds + none == ds;
    ParseDecimalDigits(ds, none);
    DigitsValueBound(ds);
    assert Pow10(4) == 10000;
  }

  /** A date ending in a four-digit run, after a non-digit, reads as that
      run, whatever runs come before: `getYear("2018 - 2020") == 2020`. */
  lemma {:induction false} GetYearLastRun(prefix: string, ds: string, currentYear: int)
    requires prefix == [] || !IsDigit(prefix[|prefix| - 1])
    requires |ds| == 4 && AllDigitsIn(ds, 10)
    ensures GetYear(prefix + ds, currentYear) == DigitsValue(ds, 10)
  {
    var s := prefix + ds;
    assert HexValue(ds[3]) < 10;
    assert s[|s| - 1] == ds[3];
    assert EndsInDigit(s);
    NormalizeLastDigit(s);
    NormalizeEndsInDigit(s);
    RunsAppend(prefix, ds);
    RunsOfFour(ds);
    var rs := Runs(s);
    assert rs == Runs(prefix) + [ds];
    assert rs[|rs| - 1] == ds;
    GetYearOfLastRun(s, currentYear);
    ParseRun(ds);
  }

  /** A date that is neither blank nor ongoing reads as its last run. */
  lemma {:induction false} GetYearOfLastRun(s: string, currentYear: int)
    requires Normalize(s) != [] && !IsOngoingWord(Normalize(s)) && Runs(s) != []
    ensures ParseIntDecimal(Runs(s)[|Runs(s)| - 1]).Some? ==>
      GetYear(s, currentYear) == ParseIntDecimal(Runs(s)[|Runs(s)| - 1]).value
  {
  }

  /** A date with no four-digit run and no ongoing word is 0: `getYear("Marzo") == 0`. */
  lemma {:induction false} GetYearNoRun(s: string, currentYear: int)
    requires forall i :: 0 <= i && i + 4 <= |s| ==> !IsFourDigits(s, i)
    requires !IsOngoingWord(Normalize(s))
    ensures GetYear(s, currentYear) == 0
  {
    NoRunsFound(s);
  }

  lemma {:induction false} NoRunsFound(s: string)
    requires forall i :: 0 <= i && i + 4 <= |s| ==> !IsFourDigits(s, i)
    ensures Runs(s) == []
    decreases |s|
  {
    if |s| >= 4 {
      assert !IsFourDigits(s, 0);
      forall i | 0 <= i && i + 4 <= |s[1..]| ensures !IsFourDigits(s[1..], i) {
        assert !IsFourDigits(s, i + 1);
      }
      NoRunsFound(s[1..]);
    }
  }

  /** `getYear` with the current year fixed. */
  function YearOf(currentYear: int): string -> int {
    s => GetYear(s, currentYear)
  }

  // ----- entry texts -----

  /** `formatExpDate` joins month and year with a single space. */
  function ExpDate(month: string, year: string): (r: string)
    ensures year == [] ==> r == []
    ensures year != [] && IsPresenteWord(Normalize(year)) ==> r == "Presente"
    ensures month != [] && year != [] && !IsPresenteWord(Normalize(year)) ==> r == month + " " + year
    ensures month == [] && year != [] && !IsPresenteWord(Normalize(year)) ==> r == year
  {
    FormatExpDate(month, year, " ")
  }

  /** The education date: the start date, then ` - ` and the end date only
      when there is one. */
  function EducationDate(e: EducationEntry): (r: string)
    ensures StartsWith(r, e.startDate)
    ensures e.endDate == [] <==> r == e.startDate
    ensures e.endDate != [] ==> EndsWith(r, " - " + e.endDate)
    ensures e.endDate != [] ==> |r| == |e.startDate| + 3 + |e.endDate|
  {
    var r := e.startDate + (if e.endDate != [] then " - " + e.endDate else "");
    assert r[..|e.startDate|] == e.startDate;
    assert r[|r| - |r[|e.startDate|..]|..] == r[|e.startDate|..];
    r
  }

  // ----- toTitleCase -----

  /** `word.charAt(0).toUpperCase() + word.slice(1)`. */
  function CapFirst(w: string): (r: string)
    ensures |r| == |w|
  {
    if w == [] then [] else [UpperChar(w[0])] + w[1..]
  }

  function CapAll(ws: seq<string>): (rs: seq<string>)
    ensures |rs| == |ws|
    ensures forall k :: 0 <= k < |ws| ==> rs[k] == CapFirst(ws[k])
  {
    if ws == [] then [] else [CapFirst(ws[0])] + CapAll(ws[1..])
  }

  /** `toTitleCase`: lower-case, split on `' '`, capitalise each word, join. */
  function ToTitleCase(s: string): (r: string)
  {
    if s == [] then "" else Join(CapAll(Split(ToLower(s), ' ')), " ")
  }

  /** Reference definition: character by character, upper-casing exactly
      the characters at the start or right after a space. */
  function TitleFrom(t: string, atStart: bool): (r: string)
    ensures |r| == |t|
  {
    if t == [] then []
    else [if atStart then UpperChar(t[0]) else t[0]] + TitleFrom(t[1..], t[0] == ' ')
  }

  /** The pieces of a split, the first capitalised or not, joined again. */
  function Rejoin(parts: seq<string>, atStart: bool): string
    requires |parts| >= 1
  {
    Join([if atStart then CapFirst(parts[0]) else parts[0]] + CapAll(parts[1..]), " ")
  }

  lemma {:induction false} JoinConsChar(c: char, w: string, tail: seq<string>, sep: string)
    ensures Join([[c] + w] + tail, sep) == [c] + Join([w] + tail, sep)
  {
    if tail != [] {
      assert ([[c] + w] + tail)[1..] == tail;
      assert ([w] + tail)[1..] == tail;
    }
  }

  /** Split, capitalise and join is the character-by-character rule. */
  lemma {:induction false} RejoinSplit(t: string, atStart: bool)
    ensures Rejoin(Split(t, ' '), atStart) == TitleFrom(t, atStart)
    decreases |t|
  {
    if t == [] {
      assert Split(t, ' ') == [""];
    } else {
      var rest := Split(t[1..], ' ');
      if t[0] == ' ' {
        RejoinSplit(t[1..], true);
        var parts := [""] + rest;
        assert Split(t, ' ') == parts;
        assert parts[1..] == rest;
        var caps := CapAll(rest);
        assert caps == [CapFirst(rest[0])] + CapAll(rest[1..]);
        assert ([""] + caps)[1..] == caps;
        assert Rejoin(parts, atStart) == "" + " " + Join(caps, " ");
      } else {
        RejoinSplit(t[1..], false);
        var parts := [[t[0]] + rest[0]] + rest[1..];
        assert Split(t, ' ') == parts;
        assert parts[1..] == rest[1..];
        var c := if atStart then UpperChar(t[0]) else t[0];
        var first := if atStart then CapFirst(parts[0]) else parts[0];
        assert first == [c] + rest[0];
        JoinConsChar(c, rest[0], CapAll(rest[1..]), " ");
      }
    }
  }

  /** `toTitleCase` upper-cases the first letter and every letter after a
      space, and lower-cases all the others. */
  lemma {:induction false} TitleCasePointwise(s: string, i: int)
    requires 0 <= i < |s|
    ensures |ToTitleCase(s)| == |s|
    ensures ToTitleCase(s)[i] ==
              if i == 0 || s[i - 1] == ' ' then UpperChar(LowerChar(s[i])) else LowerChar(s[i])
  {
    var t := ToLower(s);
    RejoinSplit(t, true);
    TitleFromAt(t, true, i);
    if i > 0 {
      assert t[i - 1] == ' ' <==> s[i - 1] == ' ';
    }
  }

  lemma {:induction false} TitleFromAt(t: string, atStart: bool, i: int)
    requires 0 <= i < |t|
    ensures TitleFrom(t, atStart)[i] ==
              if (i == 0 && atStart) || (i > 0 && t[i - 1] == ' ') then UpperChar(t[i]) else t[i]
    decreases i
  {
    if i > 0 {
      TitleFromAt(t[1..], t[0] == ' ', i - 1);
    }
  }

  /** `toTitleCase` keeps the length, so it is empty only for an empty name. */
  lemma {:induction false} TitleCaseLength(s: string)
    ensures |ToTitleCase(s)| == |s|
  {
    if s != [] {
      RejoinSplit(ToLower(s), true);
    }
  }

  /** Spaces stay where they were, so the name keeps its number of words. */
  lemma {:induction false} TitleCaseWords(s: string)
    ensures |Split(ToTitleCase(s), ' ')| == |Split(s, ' ')|
  {
    var r := ToTitleCase(s);
    TitleCaseLength(s);
    forall i | 0 <= i < |s| ensures r[i] == ' ' <==> s[i] == ' ' {
      TitleCasePointwise(s, i);
    }
    SplitCountBySpaces(r, s);
  }

  /** Two strings with spaces at the same places split into as many pieces. */
  lemma {:induction false} SplitCountBySpaces(a: string, b: string)
    requires |a| == |b|
    requires forall i :: 0 <= i < |a| ==> (a[i] == ' ' <==> b[i] == ' ')
    ensures |Split(a, ' ')| == |Split(b, ' ')|
    decreases |a|
  {
    if a != [] {
      SplitCountBySpaces(a[1..], b[1..]);
    }
  }

  /** The name in the header: title-cased, or `Tu Nombre` when empty. */
  function DisplayName(p: PersonalData): (name: string)
    ensures name != []
    ensures p.name != [] ==> |name| == |p.name|
  {
    TitleCaseLength(p.name);
    var t := ToTitleCase(p.name);
    if t != [] then t else "Tu Nombre"
  }

  // ----- contacts -----

  /** `contactItems` before filtering: e-mail, phone, location, LinkedIn
      and web site. The two addresses get a link only when their field is
      non-empty. */
  function ContactCandidates(p: PersonalData): (items: seq<Contact>)
    ensures |items| == 5
    ensures items[3].href.Some? <==> p.linkedin != []
    ensures items[4].href.Some? <==> p.website != []
  {
    [Contact(p.email, Some("mailto:" + p.email)),
     Contact(FullPhoneNumber(p), Some(TelHref(p))),
     Contact(p.cityAndCountry, None),
     Contact(FormatUrl(p.linkedin), if p.linkedin != [] then Some(HttpsLink(p.linkedin)) else None),
     Contact(FormatUrl(p.website), if p.website != [] then Some(HttpsLink(p.website)) else None)]
  }

  /** `contactItems`: the entries with text. */
  function ContactItems(p: PersonalData): (items: seq<Contact>)
    ensures |items| <= 5
    ensures forall c :: c in items ==> c.text != []
  {
    KeepWithText(ContactCandidates(p))
  }

  /** `getContactGridClass`: two columns for exactly four entries, three otherwise. */
  function GridClass(count: nat): (cls: string)
    ensures cls == "grid-cols-2" <==> count == 4
  {
    if count <= 3 then "grid-cols-3" else if count == 4 then "grid-cols-2" else "grid-cols-3"
  }

  // ----- page -----

  datatype Page = Page(
    name: string,
    contacts: seq<Contact>,
    gridClass: string,
    summary: Option<string>,
    experience: seq<ExperienceEntry>,
    education: seq<EducationEntry>,
    skills: seq<SkillEntry>,
    showAdditional: bool,
    training: seq<ComplementaryTrainingEntry>,
    license: Option<string>,
    licenseSeparated: bool)

  /** The page of a CV: the additional-information section appears iff there
      is training or a selected licence under a ticked box, and the licence
      block is set off by a rule only when training precedes it. */
  function Render(d: CVData, currentYear: int): (pg: Page)
    ensures pg.name != []
    ensures forall c :: c in pg.contacts ==> c.text != []
    ensures pg.gridClass == "grid-cols-2" <==> |pg.contacts| == 4
    ensures multiset(pg.experience) == multiset(d.experience)
    ensures multiset(pg.education) == multiset(d.education)
    ensures |pg.experience| == |d.experience| && |pg.education| == |d.education|
    ensures Descending(pg.experience, DateKey(YearOf(currentYear), ExperienceStart, ExperienceEnd))
    ensures Descending(pg.education, DateKey(YearOf(currentYear), EducationStart, EducationEnd))
    ensures pg.showAdditional <==>
              (|d.complementaryTraining| > 0 || (d.hasDrivingLicense && exists c :: Flag(d.drivingLicense, c)))
    ensures pg.licenseSeparated <==> pg.license.Some? && |d.complementaryTraining| > 0
    ensures pg.license == LicenseBlock(d)
  {
    SortByDateLength(d.experience, YearOf(currentYear), ExperienceStart, ExperienceEnd);
    SortByDateLength(d.education, YearOf(currentYear), EducationStart, EducationEnd);
    var license := LicenseBlock(d);
    var contacts := ContactItems(d.personal);
    Page(
      DisplayName(d.personal),
      contacts,
      GridClass(|contacts|),
      if d.summary != [] then Some(d.summary) else None,
      SortByDate(d.experience, YearOf(currentYear), ExperienceStart, ExperienceEnd),
      SortByDate(d.education, YearOf(currentYear), EducationStart, EducationEnd),
      d.skills,
      |d.complementaryTraining| > 0 || license.Some?,
      d.complementaryTraining,
      license,
      license.Some? && |d.complementaryTraining| > 0)
  }
}
