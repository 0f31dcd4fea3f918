/** ModernTemplate.tsx: the two-column template with a sidebar. Its
    `getYear` reads only the last four characters of the date, with
    `parseInt` and no radix. */
module ModernTemplate {
  import opened Wrappers
  import opened TextOps
  import opened CvTypes
  import opened StableSort
  import opened JsNumber
  import opened TemplateRules

  // ----- getYear and sortByDate -----

  /** `dateStr.slice(-4)`: the last four characters, or the whole string
      when it is shorter. */
  function LastFour(s: string): (t: string)
    ensures |t| == if |s| < 4 then |s| else 4
    ensures t == s[|s| - |t|..]
  {
    if |s| < 4 then s else s[|s| - 4..]
  }

  /** `getYear`: a blank date is 0, an ongoing word is the year after
      `currentYear`, anything else is `parseInt` of the last four
      characters of the untrimmed date, with `NaN` read as 0. */
  function GetYear(dateStr: string, currentYear: int): (y: int)
    ensures AllSpace(dateStr) ==> y == 0
    ensures IsPresenteWord(Normalize(dateStr)) ==> y == currentYear + 1
  {
    TrimEmptyIffAllSpace(dateStr);
    var n := Normalize(dateStr);
    if n == [] then 0
    else if IsPresenteWord(n) then currentYear + 1
    else match ParseIntAuto(LastFour(dateStr))
      case None => 0
      case Some(v) => v
  }

  /** A date ending in four digits reads as their value, whatever comes
      before them. */
  lemma {:induction false} GetYearLastFour(prefix: string, ds: string, currentYear: int)
    requires |ds| == 4 && AllDigitsIn(ds, 10)
    ensures GetYear(prefix + ds, currentYear) == DigitsValue(ds, 10)
  {
    var s := prefix + ds;
    assert HexValue(ds[3]) < 10;
    assert s[|s| - 1] == ds[3];
    assert EndsInDigit(s);
    NormalizeLastDigit(s);
    NormalizeEndsInDigit(s);
    assert LastFour(s) == ds;
    assert ds + [] == ds;
    ParseAutoPrefix(ds, []);
  }

  lemma {:induction false} Value2020()
    ensures AllDigitsIn("2020", 10) && DigitsValue("2020", 10) == 2020
  {
    var ds := "2020";
    assert forall i :: 0 <= i < 4 ==> ds[i] == '2' || ds[i] == '0';
    assert ds[..3] == "202" && ds[..3][..2] == "20" && ds[..3][..2][..1] == "2" && ds[..3][..2][..1][..0] == [];
    assert DigitsValue("2", 10) == 2;
    assert DigitsValue("20", 10) == 20;
    assert DigitsValue("202", 10) == 202;
  }

  /** Unlike the classic template, the month-first form keeps its year:
      `getYear("Marzo 2020") == 2020`. */
  lemma {:induction false} GetYearMonthFirst(currentYear: int)
    ensures GetYear("Marzo 2020", currentYear) == 2020
  {
    assert "Marzo " + "2020" == "Marzo 2020";
    Value2020();
    GetYearLastFour("Marzo ", "2020", currentYear);
  }

  lemma {:induction false} Value019()
    ensures AllDigitsIn("019", 10) && DigitsValue("019", 10) == 19
  {
    var ds := "019";
    assert forall i :: 0 <= i < 3 ==> ds[i] == '0' || ds[i] == '1' || ds[i] == '9';
    assert ds[..2] == "01" && ds[..2][..1] == "0" && ds[..2][..1][..0] == [];
    assert DigitsValue("0", 10) == 0;
    assert DigitsValue("01", 10) == 1;
  }

  /** The slice is taken before trimming: a trailing space shifts it, and
      `getYear("2019 ") == 19`. */
  lemma {:induction false} GetYearTrailingSpace(currentYear: int)
    ensures GetYear("2019 ", currentYear) == 19
  {
    var s := "2019 ";
    NormalizeKeepsFirst(s);
    assert Normalize(s)[0] == '2';
    assert LastFour(s) == "019" + " ";
    Value019();
    ParseAutoPrefix("019", " ");
  }

  /** `getYear` with the current year fixed. */
  function YearOf(currentYear: int): string -> int {
    s => GetYear(s, currentYear)
  }

  /** `formatExpDate` joins month and year with `", "`. */
  function ExpDate(month: string, year: string): (r: string)
    ensures year == [] ==> r == []
    ensures year != [] && IsPresenteWord(Normalize(year)) ==> r == "Presente"
    ensures month != [] && year != [] && !IsPresenteWord(Normalize(year)) ==> r == month + ", " + year
    ensures month == [] && year != [] && !IsPresenteWord(Normalize(year)) ==> r == year
  {
    FormatExpDate(month, year, ", ")
  }

  // ----- skills -----

  /** Position of a level in the order Básico < Intermedio < Avanzado. */
  function LevelRank(level: SkillLevel): (k: nat)
    ensures k < 3
  {
    match level
    case Basico => 0
    case Intermedio => 1
    case Avanzado => 2
  }

  /** `SkillLevelBar`: the bar width in percent; only Avanzado fills the bar. */
  function SkillWidth(level: SkillLevel): (w: nat)
    ensures 0 < w <= 100
    ensures w == 100 <==> level == Avanzado
  {
    match level
    case Basico => 33
    case Intermedio => 66
    case Avanzado => 100
  }

  /** A higher level always draws a wider bar. */
  lemma {:induction false} SkillWidthMonotone(a: SkillLevel, b: SkillLevel)
    ensures LevelRank(a) < LevelRank(b) <==> SkillWidth(a) < SkillWidth(b)
  {
  }

  // ----- sidebar contacts -----

  /** The five `ContactItem`s of the sidebar: location, phone, e-mail,
      LinkedIn and web site. Every link is built, even for an empty field. */
  function ContactItems(p: PersonalData): (items: seq<Contact>)
    ensures |items| == 5
  {
    [Contact(p.cityAndCountry, None),
     Contact(FullPhoneNumber(p), Some(TelHref(p))),
     Contact(p.email, Some("mailto:" + p.email)),
     Contact(FormatUrl(p.linkedin), Some(HttpsLink(p.linkedin))),
     Contact(FormatUrl(p.website), Some(HttpsLink(p.website)))]
  }

  /** The links are built whatever the fields hold: an empty LinkedIn
      field still gets the link `https://`, an empty e-mail `mailto:`. */
  lemma {:induction false} LinksAlwaysBuilt(p: PersonalData)
    requires p.linkedin == [] && p.email == []
    ensures ContactItems(p)[3].href == Some("https://")
    ensures ContactItems(p)[2].href == Some("mailto:")
  {
    assert FormatUrl(p.linkedin) == [];
    assert "https://" + [] == "https://";
    assert "mailto:" + [] == "mailto:";
  }

  /** The LinkedIn entry shows exactly when its shortened form is
      non-empty (so a bare `https://` shows nothing, by `FormatUrlBareScheme`). */
  lemma {:induction false} LinkedinShownIff(p: PersonalData)
    ensures (Contact(FormatUrl(p.linkedin), Some(HttpsLink(p.linkedin))) in KeepWithText(ContactItems(p)))
              <==> FormatUrl(p.linkedin) != []
  {
    var items := ContactItems(p);
    assert items[3] == Contact(FormatUrl(p.linkedin), Some(HttpsLink(p.linkedin)));
  }

  /** The skill grid: one bar per skill, in order, with its width. */
  function SkillBars(skills: seq<SkillEntry>): (bars: seq<(string, nat)>)
    ensures |bars| == |skills|
    ensures forall i :: 0 <= i < |skills| ==> bars[i] == (skills[i].skill, SkillWidth(skills[i].level))
  {
    if skills == [] then []
    else [(skills[0].skill, SkillWidth(skills[0].level))] + SkillBars(skills[1..])
  }

  // ----- page -----

  /** What the template shows: the sidebar (contacts, education, training
      and licence) and the main column (name, summary, experience, skills). */
  datatype Page = Page(
    name: string,
    contacts: seq<Contact>,
    education: seq<EducationEntry>,
    showAdditional: bool,
    license: Option<string>,
    summary: Option<string>,
    experience: seq<ExperienceEntry>,
    skillBars: seq<(string, nat)>)

  function Render(d: CVData, currentYear: int): (pg: Page)
    ensures pg.name != [] && (d.personal.name != [] ==> pg.name == d.personal.name)
    ensures forall c :: c in pg.contacts ==> c.text != []
    ensures multiset(pg.experience) == multiset(d.experience)
    ensures multiset(pg.education) == multiset(d.education)
    ensures |pg.experience| == |d.experience| && |pg.education| == |d.education|
    ensures Descending(pg.experience, DateKey(YearOf(currentYear), ExperienceStart, ExperienceEnd))
    ensures Descending(pg.education, DateKey(YearOf(currentYear), EducationStart, EducationEnd))
    ensures pg.showAdditional <==>
              (|d.complementaryTraining| > 0 || (d.hasDrivingLicense && exists c :: Flag(d.drivingLicense, c)))
    ensures pg.summary.Some? <==> d.summary != []
    ensures pg.skillBars == SkillBars(d.skills)
    ensures pg.license == LicenseBlock(d)
  {
    SortByDateLength(d.experience, YearOf(currentYear), ExperienceStart, ExperienceEnd);
    SortByDateLength(d.education, YearOf(currentYear), EducationStart, EducationEnd);
    var license := LicenseBlock(d);
    Page(
      if d.personal.name != [] then d.personal.name else "Tu Nombre",
      KeepWithText(ContactItems(d.personal)),
      SortByDate(d.education, YearOf(currentYear), EducationStart, EducationEnd),
      |d.complementaryTraining| > 0 || license.Some?,
      license,
      if d.summary != [] then Some(d.summary) else None,
      SortByDate(d.experience, YearOf(currentYear), ExperienceStart, ExperienceEnd),
      SkillBars(d.skills))
  }
}
