/** The CV record of the builder (types.js) and its constants
    (constants.ts): the licence classes and the initial, empty document. */
module CvTypes {
  import opened Wrappers
  import opened TextOps

  datatype PersonalData = PersonalData(
    name: string,
    email: string,
    phoneCountryCode: string,
    phoneNumber: string,
    cityAndCountry: string,
    linkedin: string,
    website: string)

  /** Education entries carry `isCurrent` but have no months and no description. */
  datatype EducationEntry = EducationEntry(
    id: string,
    institution: string,
    degree: string,
    city: string,
    country: string,
    startDate: string,
    endDate: string,
    isCurrent: bool)

  /** Only experience entries have start and end months and a description. */
  datatype ExperienceEntry = ExperienceEntry(
    id: string,
    company: string,
    city: string,
    country: string,
    position: string,
    startMonth: string,
    startDate: string,
    endMonth: string,
    endDate: string,
    description: string,
    isCurrent: bool)

  /** The three levels a skill may have. */
  datatype SkillLevel = Basico | Intermedio | Avanzado

  function LevelLabel(level: SkillLevel): (text: string)
    ensures text in {"Básico", "Intermedio", "Avanzado"}
  {
    match level
    case Basico => "Básico"
    case Intermedio => "Intermedio"
    case Avanzado => "Avanzado"
  }

  datatype SkillEntry = SkillEntry(id: string, skill: string, level: SkillLevel)

  /** Training entries have a single `year` and no `isCurrent` flag. */
  datatype ComplementaryTrainingEntry = ComplementaryTrainingEntry(
    id: string,
    course: string,
    institution: string,
    year: string,
    description: string,
    city: string,
    country: string)

  /** The ten driving-licence classes (Chilean classification). */
  datatype LicenseClass = A1 | A2 | A3 | A4 | A5 | B | C | D | E | F

  function ClassName(c: LicenseClass): (name: string)
    ensures 1 <= |name| <= 2
  {
    match c
    case A1 => "A1" case A2 => "A2" case A3 => "A3" case A4 => "A4" case A5 => "A5"
    case B => "B" case C => "C" case D => "D" case E => "E" case F => "F"
  }

  /** One boolean flag per licence class, exactly the ten classes. */
  datatype DrivingLicenseData = DrivingLicenseData(
    a1: bool, a2: bool, a3: bool, a4: bool, a5: bool,
    b: bool, c: bool, d: bool, e: bool, f: bool)

  /** `drivingLicense[lic]`: the flag of one class. */
  function Flag(dl: DrivingLicenseData, c: LicenseClass): bool {
    match c
    case A1 => dl.a1 case A2 => dl.a2 case A3 => dl.a3 case A4 => dl.a4 case A5 => dl.a5
    case B => dl.b case C => dl.c case D => dl.d case E => dl.e case F => dl.f
  }

  /** The licence record with every flag set to `v`. */
  function AllFlags(v: bool): (dl: DrivingLicenseData)
    ensures forall c: LicenseClass :: Flag(dl, c) == v
  {
    DrivingLicenseData(v, v, v, v, v, v, v, v, v, v)
  }

  datatype FontSizes = FontSizes(name: int, personal: int)

  datatype CVData = CVData(
    id: Option<string>,
    lastModified: Option<int>,
    personal: PersonalData,
    summary: string,
    education: seq<EducationEntry>,
    experience: seq<ExperienceEntry>,
    skills: seq<SkillEntry>,
    complementaryTraining: seq<ComplementaryTrainingEntry>,
    hasDrivingLicense: bool,
    drivingLicense: DrivingLicenseData,
    accentColor: string,
    fontSizes: FontSizes)

  /** `LICENSE_CLASSES`: three groups, in the order of the object's keys
      (profesionales, noProfesionales, especiales). */
  function LicenseGroups(): (groups: seq<seq<LicenseClass>>)
    ensures |groups| == 3
    ensures forall g1, g2, i, j :: 0 <= g1 < g2 < 3 && 0 <= i < |groups[g1]| && 0 <= j < |groups[g2]|
              ==> groups[g1][i] != groups[g2][j]
  {
    [[A1, A2, A3, A4, A5], [B, C], [D, E, F]]
  }

  function Flatten<T>(xss: seq<seq<T>>): seq<T> {
    if xss == [] then [] else xss[0] + Flatten(xss[1..])
  }

  /** The classes in `LICENSE_CLASSES` order, as the templates' `flatMap` lists them:
      every class exactly once. */
  function AllLicenseClasses(): (cs: seq<LicenseClass>)
    ensures |cs| == 10
    ensures forall c: LicenseClass :: c in cs
    ensures forall i, j :: 0 <= i < j < |cs| ==> cs[i] != cs[j]
  {
    var g := LicenseGroups();
    assert Flatten(g[1..][1..][1..]) == [];
    assert Flatten(g[1..][1..]) == [D, E, F];
    assert Flatten(g[1..]) == [B, C, D, E, F];
    var cs := Flatten(g);
    assert cs == [A1, A2, A3, A4, A5, B, C, D, E, F];
    EveryClassListed(cs);
    cs
  }

  lemma {:induction false} EveryClassListed(cs: seq<LicenseClass>)
    requires cs == [A1, A2, A3, A4, A5, B, C, D, E, F]
    ensures forall c: LicenseClass :: c in cs
  {
    forall c: LicenseClass ensures c in cs {
      match c
      case A1 => assert cs[0] == c;
      case A2 => assert cs[1] == c;
      case A3 => assert cs[2] == c;
      case A4 => assert cs[3] == c;
      case A5 => assert cs[4] == c;
      case B => assert cs[5] == c;
      case C => assert cs[6] == c;
      case D => assert cs[7] == c;
      case E => assert cs[8] == c;
      case F => assert cs[9] == c;
    }
  }

  /** The selector of FontSizeSelector.js offers 22..32 pt for the name and
      9..15 pt for the personal block. */
  predicate FontSizesOffered(fs: FontSizes) {
    22 <= fs.name <= 32 && 9 <= fs.personal <= 15
  }

  predicate IsHexDigit(c: char) {
    '0' <= c <= '9' || 'a' <= c <= 'f' || 'A' <= c <= 'F'
  }

  /** A CSS colour `#rrggbb`. */
  predicate IsHexColor(s: string) {
    |s| == 7 && s[0] == '#' && forall i :: 1 <= i < 7 ==> IsHexDigit(s[i])
  }

  /** `INITIAL_CV_DATA`: the empty document a new CV starts from. */
  function InitialCvData(): (d: CVData)
    ensures d.id.None? && d.lastModified.None?
    ensures d.personal.name == "" && d.personal.email == "" && d.personal.phoneNumber == ""
    ensures d.personal.cityAndCountry == "" && d.personal.linkedin == "" && d.personal.website == ""
    ensures d.personal.phoneCountryCode == "+56"
    ensures d.summary == ""
    ensures d.education == [] && d.experience == [] && d.skills == [] && d.complementaryTraining == []
    ensures !d.hasDrivingLicense
    ensures forall c: LicenseClass :: !Flag(d.drivingLicense, c)
    ensures d.accentColor == "#003366" && IsHexColor(d.accentColor)
    ensures d.fontSizes == FontSizes(25, 12) && FontSizesOffered(d.fontSizes)
  {
    CVData(
      None, None,
      PersonalData("", "", "+56", "", "", "", ""),
      "", [], [], [], [],
      false, AllFlags(false),
      "#003366", FontSizes(25, 12))
  }
}
