/** ClassicTemplate.tsx: the single-column template. Its `getYear` reads
    the whole date string with `parseInt(dateStr, 10)`, and its contact
    line separates the present entries with ` • `. */
module ClassicTemplate {
  import opened Wrappers
  import opened TextOps
  import opened CvTypes
  import opened StableSort
  import opened JsNumber
  import opened TemplateRules

  // ----- getYear and sortByDate -----

  /** `getYear`: a blank date is 0, an ongoing word is the year after
      `currentYear`, anything else is `parseInt(dateStr, 10)` with `NaN`
      read as 0. */
  function GetYear(dateStr: string, currentYear: int): (y: int)
    ensures AllSpace(dateStr) ==> y == 0
    ensures IsPresenteWord(Normalize(dateStr)) ==> y == currentYear + 1
  {
    TrimEmptyIffAllSpace(dateStr);
    var n := Normalize(dateStr);
    if n == [] then 0
    else if IsPresenteWord(n) then currentYear + 1
    else match ParseIntDecimal(dateStr)
      case None => 0
      case Some(v) => v
  }

  /** After leading white space, the first character decides the first
      character of the normalised form. */
  lemma {:induction false} NormalizeFirstChar(ws: string, u: string)
    requires AllSpace(ws)
    requires u != [] && !IsSpace(u[0])
    ensures Normalize(ws + u) != [] && Normalize(ws + u)[0] == LowerChar(u[0])
  {
    TrimStartOfSpaces(ws, u);
    NormalizeKeepsFirst(u);
  }

  /** A year written as a plain numeral reads back as that year. */
  lemma {:induction false} GetYearOfNumeral(year: nat, currentYear: int)
    ensures GetYear(DecimalText(year), currentYear) == year
  {
    var s := DecimalText(year);
    assert HexValue(s[|s| - 1]) < 10;
    NormalizeLastDigit(s);
    NormalizeEndsInDigit(s);
    ParseDecimalText(year);
    GetYearParsed(s, currentYear);
  }

  /** A date that is neither blank nor ongoing reads as `parseInt(dateStr, 10)`. */
  lemma {:induction false} GetYearParsed(s: string, currentYear: int)
    requires Normalize(s) != [] && !IsPresenteWord(Normalize(s))
    ensures ParseIntDecimal(s).Some? ==> GetYear(s, currentYear) == ParseIntDecimal(s).value
    ensures ParseIntDecimal(s).None? ==> GetYear(s, currentYear) == 0
  {
  }

  /** A date that starts (after white space) with digits reads as the value
      of those digits, whatever follows them: `"2020 (Marzo)"` is 2020. */
  lemma {:induction false} GetYearLeadingNumber(ws: string, ds: string, rest: string, currentYear: int)
    requires AllSpace(ws)
    requires ds != [] && AllDigitsIn(ds, 10)
    requires rest == [] || !IsDigit(rest[0])
    ensures GetYear(ws + ds + rest, currentYear) == DigitsValue(ds, 10)
  {
    var s := ws + ds + rest;
    assert HexValue(ds[0]) < 10;
    DigitCase(ds[0]);
    Associative(ws, ds, rest);
    NormalizeFirstChar(ws, ds + rest);
    DigitStartIsNoWord(Normalize(s));
    ParseDecimalPrefix(ws, ds, rest);
    GetYearParsed(s, currentYear);
  }

  /** Neither ongoing word starts with a digit. */
  lemma {:induction false} DigitStartIsNoWord(n: string)
    requires n != [] && IsDigit(n[0])
    ensures !IsPresenteWord(n)
  {
    assert "presente"[0] == 'p' && "actualmente"[0] == 'a';
  }

  /** A date starting with a word that is not an ongoing word is 0. */
  lemma {:induction false} GetYearWordFirst(s: string, currentYear: int)
    requires s != [] && !IsSpace(s[0]) && !IsDigit(s[0]) && s[0] != '-' && s[0] != '+'
    requires !IsPresenteWord(Normalize(s))
    ensures GetYear(s, currentYear) == 0
  {
    assert [] + s == s;
    NormalizeFirstChar([], s);
    ParseDecimalNaN(s);
  }

  /** The month-first form loses its year: `getYear("Marzo 2020") == 0`. */
  lemma {:induction false} GetYearMonthFirst(currentYear: int)
    ensures GetYear("Marzo 2020", currentYear) == 0
  {
    var s := "Marzo 2020";
    NormalizeKeepsFirst(s);
    NotOngoingWord(Normalize(s));
    GetYearWordFirst(s, currentYear);
  }

  /** Neither ongoing word starts with `m`. */
  lemma {:induction false} NotOngoingWord(w: string)
    requires w != [] && w[0] == 'm'
    ensures !IsPresenteWord(w)
  {
    assert "presente"[0] == 'p' && "actualmente"[0] == 'a';
  }

  /** `getYear` with the current year fixed. */
  function YearOf(currentYear: int): string -> int {
    s => GetYear(s, currentYear)
  }

  /** An ongoing entry is listed before every entry that ended this year or earlier. */
  lemma {:induction false} PresenteFirst<T>(xs: seq<T>, startDate: T -> string, endDate: T -> string,
                         currentYear: int, i: int, j: int)
    requires var r := SortByDate(xs, YearOf(currentYear), startDate, endDate);
      0 <= i < |r| && 0 <= j < |r| &&
      IsPresenteWord(Normalize(endDate(r[j]))) && GetYear(endDate(r[i]), currentYear) <= currentYear
    ensures j < i
  {
    var r := SortByDate(xs, YearOf(currentYear), startDate, endDate);
    LaterEndFirst(r, YearOf(currentYear), startDate, endDate, i, j);
  }

  // ----- entry texts -----

  /** `formatExpDate` joins month and year with `", "`. */
  function ExpDate(month: string, year: string): (r: string)
    ensures year == [] ==> r == []
    ensures year != [] && IsPresenteWord(Normalize(year)) ==> r == "Presente"
    ensures month != [] && year != [] && !IsPresenteWord(Normalize(year)) ==> r == month + ", " + year
    ensures month == [] && year != [] && !IsPresenteWord(Normalize(year)) ==> r == year
  {
    FormatExpDate(month, year, ", ")
  }

  /** A course title always ends in a period: one is added when missing,
      and an empty title shows as `Curso.`. */
  function CourseTitle(course: string): (t: string)
    ensures EndsWith(t, ".")
    ensures course == [] ==> t == "Curso."
    ensures course != [] ==> StartsWith(t, course) && |t| <= |course| + 1
    ensures EndsWith(course, ".") ==> t == course
  {
    if course == [] then "Curso."
    else if EndsWith(course, ".") then course
    else
      var t := course + ".";
      assert t[..|course|] == course;
      t
  }

  /** Applying the rule to its own output changes nothing. */
  lemma {:induction false} CourseTitleIdempotent(course: string)
    ensures CourseTitle(CourseTitle(course)) == CourseTitle(course)
  {
  }

  // ----- header -----

  /** The name in the header, with its placeholder. */
  function DisplayName(p: PersonalData): (name: string)
    ensures name != []
    ensures p.name != [] ==> name == p.name
  {
    if p.name != [] then p.name else "TU NOMBRE COMPLEto"
  }

  /** The candidate entries of `contactDetails`, each with the field that
      guards it: location, e-mail, phone, LinkedIn and web site. The two
      addresses show shortened and link to `https://` plus the shortened form. */
  function ContactCandidates(p: PersonalData): (cands: seq<(string, Contact)>)
    ensures |cands| == 5
  {
    var phone := FullPhoneNumber(p);
    [(p.cityAndCountry, Contact(p.cityAndCountry, None)),
     (p.email, Contact(p.email, None)),
     (phone, Contact(phone, None)),
     (p.linkedin, Contact(FormatUrl(p.linkedin), Some(HttpsLink(p.linkedin)))),
     (p.website, Contact(FormatUrl(p.website), Some(HttpsLink(p.website))))]
  }

  /** `contactDetails`: the entries whose field is non-empty. */
  function ContactDetails(p: PersonalData): (items: seq<Contact>)
    ensures |items| <= 5
  {
    KeepPresent(ContactCandidates(p))
  }

  /** The header has contact entries unless every field is empty. */
  lemma {:induction false} ContactDetailsShown(p: PersonalData)
    ensures ContactDetails(p) == [] <==>
              p.cityAndCountry == [] && p.email == [] && p.phoneCountryCode == []
              && p.phoneNumber == [] && p.linkedin == [] && p.website == []
  {
    var phone := FullPhoneNumber(p);
    KeepFiveEmpty(p.cityAndCountry, p.email, phone, p.linkedin, p.website,
      Contact(p.cityAndCountry, None), Contact(p.email, None), Contact(phone, None),
      Contact(FormatUrl(p.linkedin), Some(HttpsLink(p.linkedin))),
      Contact(FormatUrl(p.website), Some(HttpsLink(p.website))));
  }

  /** A non-empty LinkedIn or web-site field always yields its link. */
  lemma {:induction false} ContactLinksShown(p: PersonalData)
    ensures p.linkedin != [] ==> Contact(FormatUrl(p.linkedin), Some(HttpsLink(p.linkedin))) in ContactDetails(p)
    ensures p.website != [] ==> Contact(FormatUrl(p.website), Some(HttpsLink(p.website))) in ContactDetails(p)
  {
    var cands := ContactCandidates(p);
    KeepPresentSpec(cands);
    assert cands[3] == (p.linkedin, Contact(FormatUrl(p.linkedin), Some(HttpsLink(p.linkedin))));
    assert cands[4] == (p.website, Contact(FormatUrl(p.website), Some(HttpsLink(p.website))));
  }

  /** The text of entry `i` followed by ` • ` unless it is the last one. */
  function ContactPiece(items: seq<Contact>, i: nat): string
    requires i < |items|
  {
    items[i].text + (if i < |items| - 1 then " • " else "")
  }

  /** The header line: the pieces of the entries from `i` on, in order. */
  function ContactLineFrom(items: seq<Contact>, i: nat): string
    requires i <= |items|
    decreases |items| - i
  {
    if i == |items| then "" else ContactPiece(items, i) + ContactLineFrom(items, i + 1)
  }

  function Texts(items: seq<Contact>): (ts: seq<string>)
    ensures |ts| == |items|
    ensures forall i :: 0 <= i < |items| ==> ts[i] == items[i].text
  {
    seq(|items|, i requires 0 <= i < |items| => items[i].text)
  }

  /** The separator appears between entries only: the line is the entry
      texts joined by ` • `. */
  lemma {:induction false} ContactLineJoins(items: seq<Contact>, i: nat)
    requires i <= |items|
    ensures ContactLineFrom(items, i) == Join(Texts(items)[i..], " • ")
    decreases |items| - i
  {
    if i < |items| {
      ContactLineJoins(items, i + 1);
      var ts := Texts(items)[i..];
      assert ts[1..] == Texts(items)[i + 1..];
      if i == |items| - 1 {
        assert ContactLineFrom(items, i + 1) == "";
        assert ts == [items[i].text];
      }
    }
  }

  // ----- sections -----

  /** What the template shows, in order. */
  datatype Page = Page(
    name: string,
    contactLine: string,
    summary: Option<string>,
    experience: seq<ExperienceEntry>,
    education: seq<EducationEntry>,
    skills: seq<SkillEntry>,
    showAdditional: bool,
    training: seq<ComplementaryTrainingEntry>,
    license: Option<string>)

  /** The page of a CV: sections appear only when they have content, the
      experience and education lists are reordered copies, and the
      additional-information section appears iff there is training or a
      selected licence class under a ticked box. */
  function Render(d: CVData, currentYear: int): (pg: Page)
    ensures pg.summary.Some? <==> d.summary != []
    ensures multiset(pg.experience) == multiset(d.experience)
    ensures multiset(pg.education) == multiset(d.education)
    ensures Descending(pg.experience, DateKey(YearOf(currentYear), ExperienceStart, ExperienceEnd))
    ensures Descending(pg.education, DateKey(YearOf(currentYear), EducationStart, EducationEnd))
    ensures pg.showAdditional <==>
              (|d.complementaryTraining| > 0 || (d.hasDrivingLicense && exists c :: Flag(d.drivingLicense, c)))
    ensures pg.license.Some? ==> pg.showAdditional
    ensures pg.license == LicenseBlock(d)
    ensures |pg.experience| == |d.experience| && |pg.education| == |d.education|
  {
    SortByDateLength(d.experience, YearOf(currentYear), ExperienceStart, ExperienceEnd);
    SortByDateLength(d.education, YearOf(currentYear), EducationStart, EducationEnd);
    var license := LicenseBlock(d);
    Page(
      DisplayName(d.personal),
      ContactLineFrom(ContactDetails(d.personal), 0),
      if d.summary != [] then Some(d.summary) else None,
      SortByDate(d.experience, YearOf(currentYear), ExperienceStart, ExperienceEnd),
      SortByDate(d.education, YearOf(currentYear), EducationStart, EducationEnd),
      d.skills,
      |d.complementaryTraining| > 0 || license.Some?,
      d.complementaryTraining,
      license)
  }
}
