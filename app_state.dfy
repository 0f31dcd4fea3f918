/** App.tsx: the record updaters the editor passes to `setCvData`, the
    guard in front of the AI description helper, the merge of AI-extracted
    data, and the export file name and strategy. The updaters are pure
    rebuilds of the previous document; `CvEditor` holds the document the
    way the component state does. */
module AppState {
  import opened Wrappers
  import opened TextOps
  import opened CvTypes
  import opened TemplateRules

  // ----- named fields -----

  /** The text fields an input can name (its `name` attribute). */
  datatype Field =
    | Id | Company | City | Country | Position | StartMonth | StartDate | EndMonth | EndDate
    | Description | Institution | Degree | SkillName | Level | Course | Year

  /** The field an input's `name` attribute designates, if any. */
  function FieldNamed(name: string): (f: Option<Field>)
    ensures f.Some? ==> name == FieldName(f.value)
  {
    if name == "id" then Some(Id)
    else if name == "company" then Some(Company)
    else if name == "city" then Some(City)
    else if name == "country" then Some(Country)
    else if name == "position" then Some(Position)
    else if name == "startMonth" then Some(StartMonth)
    else if name == "startDate" then Some(StartDate)
    else if name == "endMonth" then Some(EndMonth)
    else if name == "endDate" then Some(EndDate)
    else if name == "description" then Some(Description)
    else if name == "institution" then Some(Institution)
    else if name == "degree" then Some(Degree)
    else if name == "skill" then Some(SkillName)
    else if name == "level" then Some(Level)
    else if name == "course" then Some(Course)
    else if name == "year" then Some(Year)
    else None
  }

  function FieldName(f: Field): string {
    match f
    case Id => "id" case Company => "company" case City => "city" case Country => "country"
    case Position => "position" case StartMonth => "startMonth" case StartDate => "startDate"
    case EndMonth => "endMonth" case EndDate => "endDate" case Description => "description"
    case Institution => "institution" case Degree => "degree" case SkillName => "skill"
    case Level => "level" case Course => "course" case Year => "year"
  }

  /** Every field is found again under its own name. */
  lemma {:induction false} FieldNameRoundTrip(f: Field)
    ensures FieldNamed(FieldName(f)) == Some(f)
  {
  }

  /** An edited item of one of the four lists. */
  datatype Item =
    | Exp(exp: ExperienceEntry)
    | Edu(edu: EducationEntry)
    | Skl(skill: SkillEntry)
    | Trn(training: ComplementaryTrainingEntry)

  /** `item[name]` read as text: `None` for a field the item does not have. */
  function Get(it: Item, f: Field): Option<string> {
    match it
    case Exp(e) =>
      (match f
       case Id => Some(e.id) case Company => Some(e.company) case City => Some(e.city)
       case Country => Some(e.country) case Position => Some(e.position)
       case StartMonth => Some(e.startMonth) case StartDate => Some(e.startDate)
       case EndMonth => Some(e.endMonth) case EndDate => Some(e.endDate)
       case Description => Some(e.description)
       case _ => None)
    case Edu(e) =>
      (match f
       case Id => Some(e.id) case Institution => Some(e.institution) case Degree => Some(e.degree)
       case City => Some(e.city) case Country => Some(e.country)
       case StartDate => Some(e.startDate) case EndDate => Some(e.endDate)
       case _ => None)
    case Skl(s) =>
      (match f
       case Id => Some(s.id) case SkillName => Some(s.skill) case Level => Some(LevelLabel(s.level))
       case _ => None)
    case Trn(t) =>
      (match f
       case Id => Some(t.id) case Course => Some(t.course) case Institution => Some(t.institution)
       case Year => Some(t.year) case Description => Some(t.description)
       case City => Some(t.city) case Country => Some(t.country)
       case _ => None)
  }

  /** The level a `<select>` value names. */
  function LevelNamed(v: string): (l: Option<SkillLevel>)
    ensures l.Some? ==> LevelLabel(l.value) == v
  {
    if v == "Básico" then Some(Basico)
    else if v == "Intermedio" then Some(Intermedio)
    else if v == "Avanzado" then Some(Avanzado)
    else None
  }

  /** `item[name] = value` for a text input. */
  function Set(it: Item, f: Field, v: string): Item {
    match it
    case Exp(e) =>
      Exp(match f
          case Id => e.(id := v) case Company => e.(company := v) case City => e.(city := v)
          case Country => e.(country := v) case Position => e.(position := v)
          case StartMonth => e.(startMonth := v) case StartDate => e.(startDate := v)
          case EndMonth => e.(endMonth := v) case EndDate => e.(endDate := v)
          case Description => e.(description := v)
          case _ => e)
    case Edu(e) =>
      Edu(match f
          case Id => e.(id := v) case Institution => e.(institution := v) case Degree => e.(degree := v)
          case City => e.(city := v) case Country => e.(country := v)
          case StartDate => e.(startDate := v) case EndDate => e.(endDate := v)
          case _ => e)
    case Skl(s) =>
      Skl(match f
          case Id => s.(id := v) case SkillName => s.(skill := v)
          case Level => (match LevelNamed(v) case Some(l) => s.(level := l) case None => s)
          case _ => s)
    case Trn(t) =>
      Trn(match f
          case Id => t.(id := v) case Course => t.(course := v) case Institution => t.(institution := v)
          case Year => t.(year := v) case Description => t.(description := v)
          case City => t.(city := v) case Country => t.(country := v)
          case _ => t)
  }

  /** Writing a field reads back the value written (for a level, when it
      is one of the three labels). */
  lemma {:induction false} GetSet(it: Item, f: Field, v: string)
    requires Get(it, f).Some?
    requires f == Level ==> LevelNamed(v).Some?
    ensures Get(Set(it, f, v), f) == Some(v)
  {
  }

  /** Writing a field leaves every other field as it was. */
  lemma {:induction false} SetOthers(it: Item, f: Field, g: Field, v: string)
    requires f != g
    ensures Get(Set(it, f, v), g) == Get(it, g)
  {
    match it
    case Exp(e) => SetOthersExp(e, f, g, v);
    case Edu(e) => SetOthersEdu(e, f, g, v);
    case Skl(sk) => SetOthersSkill(sk, f, g, v);
    case Trn(t) => SetOthersTraining(t, f, g, v);
  }

  lemma {:induction false} SetOthersExp(e: ExperienceEntry, f: Field, g: Field, v: string)
    requires f != g
    ensures Get(Set(Exp(e), f, v), g) == Get(Exp(e), g)
  {
  }

  lemma {:induction false} SetOthersEdu(e: EducationEntry, f: Field, g: Field, v: string)
    requires f != g
    ensures Get(Set(Edu(e), f, v), g) == Get(Edu(e), g)
  {
  }

  lemma {:induction false} SetOthersSkill(sk: SkillEntry, f: Field, g: Field, v: string)
    requires f != g
    ensures Get(Set(Skl(sk), f, v), g) == Get(Skl(sk), g)
  {
  }

  lemma {:induction false} SetOthersTraining(t: ComplementaryTrainingEntry, f: Field, g: Field, v: string)
    requires f != g
    ensures Get(Set(Trn(t), f, v), g) == Get(Trn(t), g)
  {
  }

  /** Writing a field keeps the kind of item and its `isCurrent` flag. */
  function IsCurrent(it: Item): Option<bool> {
    match it
    case Exp(e) => Some(e.isCurrent)
    case Edu(e) => Some(e.isCurrent)
    case _ => None
  }

  lemma {:induction false} SetKeepsFlag(it: Item, f: Field, v: string)
    ensures IsCurrent(Set(it, f, v)) == IsCurrent(it)
    ensures Set(it, f, v).Exp? == it.Exp? && Set(it, f, v).Edu? == it.Edu?
  {
  }

  // ----- updateListItem -----

  /** The target of a change event: a text field or a checkbox. */
  datatype Input = TextInput(name: string, value: string) | Checkbox(name: string, checked: bool)

  /** Ticking `isCurrent`: the flag is set and the end date becomes
      `Presente` (or empty when unticked); experience also loses its end month. */
  function SetCurrent(it: Item, checked: bool): (r: Item)
    ensures IsCurrent(it).Some? ==> IsCurrent(r) == Some(checked)
    ensures IsCurrent(it).Some? ==> Get(r, EndDate) == Some(if checked then "Presente" else "")
    ensures it.Exp? ==> Get(r, EndMonth) == Some("")
    ensures forall g :: g != EndDate && g != EndMonth ==> Get(r, g) == Get(it, g)
    ensures it.Edu? ==> Get(r, EndMonth) == Get(it, EndMonth)
  {
    var end := if checked then "Presente" else "";
    match it
    case Exp(e) => Exp(e.(isCurrent := checked, endDate := end, endMonth := ""))
    case Edu(e) => Edu(e.(isCurrent := checked, endDate := end))
    case _ => it
  }

  /** The updated copy of one item. A checkbox only exists for `isCurrent`;
      a name the item has no field for leaves it as it is. */
  function EditItem(it: Item, input: Input): Item {
    match input
    case TextInput(name, value) =>
      (match FieldNamed(name) case Some(f) => Set(it, f, value) case None => it)
    case Checkbox(name, checked) =>
      if name == "isCurrent" then SetCurrent(it, checked) else it
  }

  /** The four lists of the document. */
  datatype ListName = Experience | Education | Skills | Training

  /** Item `i` of list `ln`. */
  function ItemAt(d: CVData, ln: ListName, i: nat): Item
    requires i < ListLength(d, ln)
  {
    match ln
    case Experience => Exp(d.experience[i])
    case Education => Edu(d.education[i])
    case Skills => Skl(d.skills[i])
    case Training => Trn(d.complementaryTraining[i])
  }

  function ListLength(d: CVData, ln: ListName): nat {
    match ln
    case Experience => |d.experience|
    case Education => |d.education|
    case Skills => |d.skills|
    case Training => |d.complementaryTraining|
  }

  /** The document with item `i` of list `ln` replaced (when `it` is of that list's kind). */
  function PutItem(d: CVData, ln: ListName, i: nat, it: Item): (r: CVData)
    requires i < ListLength(d, ln)
  {
    match ln
    case Experience => if it.Exp? then d.(experience := d.experience[i := it.exp]) else d
    case Education => if it.Edu? then d.(education := d.education[i := it.edu]) else d
    case Skills => if it.Skl? then d.(skills := d.skills[i := it.skill]) else d
    case Training => if it.Trn? then d.(complementaryTraining := d.complementaryTraining[i := it.training]) else d
  }

  /** Everything but list `ln` is the same in both documents. */
  predicate SameOutside(d: CVData, r: CVData, ln: ListName) {
    && r.id == d.id && r.lastModified == d.lastModified && r.personal == d.personal
    && r.summary == d.summary && r.hasDrivingLicense == d.hasDrivingLicense
    && r.drivingLicense == d.drivingLicense && r.accentColor == d.accentColor && r.fontSizes == d.fontSizes
    && (ln != Experience ==> r.experience == d.experience)
    && (ln != Education ==> r.education == d.education)
    && (ln != Skills ==> r.skills == d.skills)
    && (ln != Training ==> r.complementaryTraining == d.complementaryTraining)
  }

  /** `updateListItem(listName, index, e)`: only item `index` of the named
      list changes, to its edited copy; the list keeps its length. */
  function UpdateListItem(d: CVData, ln: ListName, index: nat, input: Input): (r: CVData)
    requires index < ListLength(d, ln)
    ensures SameOutside(d, r, ln)
    ensures ListLength(r, ln) == ListLength(d, ln)
    ensures forall j :: 0 <= j < ListLength(d, ln) && j != index ==> ItemAt(r, ln, j) == ItemAt(d, ln, j)
    ensures ItemAt(r, ln, index) == EditItem(ItemAt(d, ln, index), input)
  {
    var it := ItemAt(d, ln, index);
    EditKeepsKind(it, input);
    PutItem(d, ln, index, EditItem(it, input))
  }

  lemma {:induction false} EditKeepsKind(it: Item, input: Input)
    ensures EditItem(it, input).Exp? == it.Exp? && EditItem(it, input).Edu? == it.Edu?
    ensures EditItem(it, input).Skl? == it.Skl? && EditItem(it, input).Trn? == it.Trn?
  {
  }

  /** Ticking `isCurrent` on an experience entry sets its end date to
      `Presente` and clears its end month; unticking clears both. */
  lemma {:induction false} TickCurrentExperience(d: CVData, index: nat, checked: bool)
    requires index < |d.experience|
    ensures var e := UpdateListItem(d, Experience, index, Checkbox("isCurrent", checked)).experience[index];
      e.isCurrent == checked && e.endDate == (if checked then "Presente" else "") && e.endMonth == ""
      && e.startDate == d.experience[index].startDate && e.description == d.experience[index].description
  {
    var r := UpdateListItem(d, Experience, index, Checkbox("isCurrent", checked));
  }

  /** On education only the end date follows the box. */
  lemma {:induction false} TickCurrentEducation(d: CVData, index: nat, checked: bool)
    requires index < |d.education|
    ensures var e := UpdateListItem(d, Education, index, Checkbox("isCurrent", checked)).education[index];
      e == d.education[index].(isCurrent := checked, endDate := if checked then "Presente" else "")
  {
    var r := UpdateListItem(d, Education, index, Checkbox("isCurrent", checked));
  }

  /** A checkbox changes nothing on skills and training entries. */
  lemma {:induction false} CheckboxIgnoredElsewhere(d: CVData, ln: ListName, index: nat, name: string, checked: bool)
    requires ln == Skills || ln == Training
    requires index < ListLength(d, ln)
    ensures UpdateListItem(d, ln, index, Checkbox(name, checked)) == d
  {
    var r := UpdateListItem(d, ln, index, Checkbox(name, checked));
    if ln == Skills {
      assert r.skills == d.skills;
    } else {
      assert r.complementaryTraining == d.complementaryTraining;
    }
  }

  // ----- addListItem and removeListItem -----

  /** `addListItem`: the new item is appended; experience and education
      items are appended with `isCurrent` false. */
  function AddListItem(d: CVData, it: Item): (r: CVData)
    ensures var ln := ListOf(it);
      SameOutside(d, r, ln) && ListLength(r, ln) == ListLength(d, ln) + 1
    ensures it.Exp? ==> r.experience == d.experience + [it.exp.(isCurrent := false)]
    ensures it.Edu? ==> r.education == d.education + [it.edu.(isCurrent := false)]
    ensures it.Skl? ==> r.skills == d.skills + [it.skill]
    ensures it.Trn? ==> r.complementaryTraining == d.complementaryTraining + [it.training]
  {
    match it
    case Exp(e) => d.(experience := d.experience + [e.(isCurrent := false)])
    case Edu(e) => d.(education := d.education + [e.(isCurrent := false)])
    case Skl(s) => d.(skills := d.skills + [s])
    case Trn(t) => d.(complementaryTraining := d.complementaryTraining + [t])
  }

  function ListOf(it: Item): ListName {
    match it
    case Exp(_) => Experience
    case Edu(_) => Education
    case Skl(_) => Skills
    case Trn(_) => Training
  }

  /** `[...list].splice(index, 1)`: the element at `index` is removed; an
      index past the end removes nothing. */
  function Splice<T>(xs: seq<T>, index: nat): (r: seq<T>)
    ensures index < |xs| ==> |r| == |xs| - 1
    ensures index >= |xs| ==> r == xs
    ensures forall j :: 0 <= j < index && j < |r| ==> r[j] == xs[j]
    ensures forall j :: index <= j < |r| ==> r[j] == xs[j + 1]
  {
    if index < |xs| then xs[..index] + xs[index + 1..] else xs
  }

  /** Removing an element keeps all the others: the multiset loses exactly it. */
  lemma {:induction false} SplicePermutation<T>(xs: seq<T>, index: nat)
    requires index < |xs|
    ensures multiset(Splice(xs, index)) + multiset{xs[index]} == multiset(xs)
  {
    assert xs == xs[..index] + [xs[index]] + xs[index + 1..];
  }

  /** `removeListItem`: the named list without its element `index`. */
  function RemoveListItem(d: CVData, ln: ListName, index: nat): (r: CVData)
    ensures SameOutside(d, r, ln)
    ensures index < ListLength(d, ln) ==> ListLength(r, ln) == ListLength(d, ln) - 1
    ensures index >= ListLength(d, ln) ==> r == d
    ensures ln == Experience ==> r.experience == Splice(d.experience, index)
    ensures ln == Education ==> r.education == Splice(d.education, index)
    ensures ln == Skills ==> r.skills == Splice(d.skills, index)
    ensures ln == Training ==> r.complementaryTraining == Splice(d.complementaryTraining, index)
  {
    match ln
    case Experience => d.(experience := Splice(d.experience, index))
    case Education => d.(education := Splice(d.education, index))
    case Skills => d.(skills := Splice(d.skills, index))
    case Training => d.(complementaryTraining := Splice(d.complementaryTraining, index))
  }

  /** Adding an item and removing it again gives the document back. */
  lemma {:induction false} AddThenRemove(d: CVData, s: SkillEntry)
    ensures RemoveListItem(AddListItem(d, Skl(s)), Skills, |d.skills|) == d
  {
    var r := AddListItem(d, Skl(s));
    assert Splice(r.skills, |d.skills|) == d.skills;
  }

  // ----- driving licence -----

  /** `handleHasDrivingLicenseChange`: unticking the box clears every
      flag; ticking it keeps the flags as they are. */
  function HasDrivingLicenseChange(d: CVData, checked: bool): (r: CVData)
    ensures r.hasDrivingLicense == checked
    ensures !checked ==> forall c :: !Flag(r.drivingLicense, c)
    ensures checked ==> r.drivingLicense == d.drivingLicense
    ensures r == d.(hasDrivingLicense := r.hasDrivingLicense, drivingLicense := r.drivingLicense)
  {
    if checked then d.(hasDrivingLicense := true)
    else d.(hasDrivingLicense := false, drivingLicense := AllFlags(false))
  }

  /** Unticking and ticking again does not bring the classes back, and the
      templates show no licence. */
  lemma {:induction false} UntickForgetsClasses(d: CVData)
    ensures var r := HasDrivingLicenseChange(HasDrivingLicenseChange(d, false), true);
      r.hasDrivingLicense && !HasLicenses(r) && LicenseBlock(r).None?
  {
    var r := HasDrivingLicenseChange(HasDrivingLicenseChange(d, false), true);
    HasLicensesIff(r);
  }

  /** `handleDrivingLicenseChange`: one class flag set to the box's state. */
  function SetLicenseFlag(dl: DrivingLicenseData, c: LicenseClass, checked: bool): (r: DrivingLicenseData)
    ensures Flag(r, c) == checked
  {
    match c
    case A1 => dl.(a1 := checked) case A2 => dl.(a2 := checked) case A3 => dl.(a3 := checked)
    case A4 => dl.(a4 := checked) case A5 => dl.(a5 := checked) case B => dl.(b := checked)
    case C => dl.(c := checked) case D => dl.(d := checked) case E => dl.(e := checked)
    case F => dl.(f := checked)
  }

  /** Setting one class's flag leaves every other class's flag as it was. */
  lemma {:induction false} SetLicenseFlagOthers(dl: DrivingLicenseData, c: LicenseClass, other: LicenseClass, checked: bool)
    requires other != c
    ensures Flag(SetLicenseFlag(dl, c, checked), other) == Flag(dl, other)
  {
    match c
    case A1 => case A2 => case A3 => case A4 => case A5 =>
    case B => case C => case D => case E => case F =>
  }

  /** Ticking a class makes it appear on the licence line, unticking removes it. */
  lemma {:induction false} SetLicenseFlagSelects(dl: DrivingLicenseData, c: LicenseClass, checked: bool)
    ensures c in SelectedLicenses(SetLicenseFlag(dl, c, checked)) <==> checked
  {
  }

  // ----- AI description guard -----

  /** What `handleImproveDescription` does for an item. */
  datatype DescriptionAction =
    | NoItem                    // no item at that index: nothing happens
    | Improve(text: string)     // rewrite the existing description
    | Generate                  // write one from the entry's fields
    | Abort(message: string)    // alert and stop: no AI call, no change

  /** The guard for an experience entry: with a description it is
      improved; without one it needs its position and company. */
  function ExperienceAction(e: ExperienceEntry): (a: DescriptionAction)
    ensures a.Improve? <==> Trim(e.description) != []
    ensures a.Improve? ==> a.text == e.description
    ensures a.Abort? <==> Trim(e.description) == [] && (e.position == [] || e.company == [])
    ensures a.Generate? <==> Trim(e.description) == [] && e.position != [] && e.company != []
  {
    if Trim(e.description) != [] then Improve(e.description)
    else if e.position == [] || e.company == [] then
      Abort("Por favor, introduce el cargo y la empresa para poder generar una descripción.")
    else Generate
  }

  /** The guard for a course: without a description it needs its name and institution. */
  function TrainingAction(t: ComplementaryTrainingEntry): (a: DescriptionAction)
    ensures a.Improve? <==> Trim(t.description) != []
    ensures a.Improve? ==> a.text == t.description
    ensures a.Abort? <==> Trim(t.description) == [] && (t.course == [] || t.institution == [])
    ensures a.Generate? <==> Trim(t.description) == [] && t.course != [] && t.institution != []
  {
    if Trim(t.description) != [] then Improve(t.description)
    else if t.course == [] || t.institution == [] then
      Abort("Por favor, introduce el curso y la institución para poder generar una descripción.")
    else Generate
  }

  /** `handleImproveDescription`'s guard: no item at that index does nothing. */
  function DescriptionActionFor(d: CVData, ln: ListName, index: nat): (a: DescriptionAction)
    requires ln == Experience || ln == Training
    ensures a.NoItem? <==> index >= ListLength(d, ln)
    ensures index < ListLength(d, ln) && ln == Experience ==> a == ExperienceAction(d.experience[index])
    ensures index < ListLength(d, ln) && ln == Training ==> a == TrainingAction(d.complementaryTraining[index])
  {
    if index >= ListLength(d, ln) then NoItem
    else if ln == Experience then ExperienceAction(d.experience[index])
    else TrainingAction(d.complementaryTraining[index])
  }

  /** A blank description with a complete entry asks for a new one. */
  lemma {:induction false} BlankCompleteGenerates(d: CVData, index: nat)
    requires index < |d.experience|
    requires AllSpace(d.experience[index].description)
    requires d.experience[index].position != [] && d.experience[index].company != []
    ensures DescriptionActionFor(d, Experience, index) == Generate
  {
    TrimEmptyIffAllSpace(d.experience[index].description);
  }

  /** Storing the AI's text: only the description of that item changes. */
  function SetDescription(d: CVData, ln: ListName, index: nat, text: string): (r: CVData)
    requires ln == Experience || ln == Training
    requires index < ListLength(d, ln)
    ensures SameOutside(d, r, ln)
    ensures ln == Experience ==> r.experience == d.experience[index := d.experience[index].(description := text)]
    ensures ln == Training ==>
              r.complementaryTraining == d.complementaryTraining[index := d.complementaryTraining[index].(description := text)]
  {
    if ln == Experience then d.(experience := d.experience[index := d.experience[index].(description := text)])
    else d.(complementaryTraining := d.complementaryTraining[index := d.complementaryTraining[index].(description := text)])
  }

  // ----- extraction merge -----

  /** The personal fields the extractor may return; absent ones are `None`. */
  datatype PersonalPatch = PersonalPatch(
    name: Option<string>, email: Option<string>, phoneCountryCode: Option<string>,
    phoneNumber: Option<string>, cityAndCountry: Option<string>,
    linkedin: Option<string>, website: Option<string>)

  /** What `extractDataFromCV` returns; every part may be missing. */
  datatype Extracted = Extracted(
    personal: Option<PersonalPatch>,
    summary: Option<string>,
    experience: Option<seq<ExperienceEntry>>,
    education: Option<seq<EducationEntry>>,
    skills: Option<seq<SkillEntry>>,
    complementaryTraining: Option<seq<ComplementaryTrainingEntry>>)

  function Pick(patch: Option<string>, base: string): string {
    match patch case Some(v) => v case None => base
  }

  /** `{ ...base, ...patch }` on the personal record. */
  function Overlay(base: PersonalData, patch: PersonalPatch): (r: PersonalData)
    ensures patch.name.Some? ==> r.name == patch.name.value
    ensures patch.name.None? ==> r.name == base.name
    ensures patch.email.Some? ==> r.email == patch.email.value
    ensures patch.email.None? ==> r.email == base.email
    ensures patch.phoneCountryCode.Some? ==> r.phoneCountryCode == patch.phoneCountryCode.value
    ensures patch.phoneCountryCode.None? ==> r.phoneCountryCode == base.phoneCountryCode
    ensures patch.phoneNumber.Some? ==> r.phoneNumber == patch.phoneNumber.value
    ensures patch.phoneNumber.None? ==> r.phoneNumber == base.phoneNumber
    ensures patch.cityAndCountry.Some? ==> r.cityAndCountry == patch.cityAndCountry.value
    ensures patch.cityAndCountry.None? ==> r.cityAndCountry == base.cityAndCountry
    ensures patch.linkedin.Some? ==> r.linkedin == patch.linkedin.value
    ensures patch.linkedin.None? ==> r.linkedin == base.linkedin
    ensures patch.website.Some? ==> r.website == patch.website.value
    ensures patch.website.None? ==> r.website == base.website
  {
    PersonalData(
      Pick(patch.name, base.name), Pick(patch.email, base.email),
      Pick(patch.phoneCountryCode, base.phoneCountryCode), Pick(patch.phoneNumber, base.phoneNumber),
      Pick(patch.cityAndCountry, base.cityAndCountry), Pick(patch.linkedin, base.linkedin),
      Pick(patch.website, base.website))
  }

  /** `addId`: `prefix_` followed by a stamp (the clock and a random number,
      which the model takes as a parameter). */
  function WithId(prefix: string, stamp: string): (id: string)
    ensures StartsWith(id, prefix + "_")
    ensures id[|prefix| + 1..] == stamp
  {
    var id := prefix + "_" + stamp;
    assert id[..|prefix + "_"|] == prefix + "_";
    assert id[|prefix| + 1..] == stamp;
    id
  }

  function ExperienceIds(xs: seq<ExperienceEntry>, stamp: nat -> string): (r: seq<ExperienceEntry>)
    ensures |r| == |xs|
    ensures forall i :: 0 <= i < |xs| ==> r[i].(id := xs[i].id) == xs[i]
    ensures forall i :: 0 <= i < |xs| ==> StartsWith(r[i].id, "exp_") && r[i].id[4..] == stamp(i)
  {
    var r := seq(|xs|, i requires 0 <= i < |xs| => xs[i].(id := WithId("exp", stamp(i))));
    assert forall i :: 0 <= i < |xs| ==> r[i].id == WithId("exp", stamp(i));
    r
  }

  function EducationIds(xs: seq<EducationEntry>, stamp: nat -> string): (r: seq<EducationEntry>)
    ensures |r| == |xs|
    ensures forall i :: 0 <= i < |xs| ==> r[i].(id := xs[i].id) == xs[i]
    ensures forall i :: 0 <= i < |xs| ==> StartsWith(r[i].id, "edu_") && r[i].id[4..] == stamp(i)
  {
    var r := seq(|xs|, i requires 0 <= i < |xs| => xs[i].(id := WithId("edu", stamp(i))));
    assert forall i :: 0 <= i < |xs| ==> r[i].id == WithId("edu", stamp(i));
    r
  }

  function SkillIds(xs: seq<SkillEntry>, stamp: nat -> string): (r: seq<SkillEntry>)
    ensures |r| == |xs|
    ensures forall i :: 0 <= i < |xs| ==> r[i].(id := xs[i].id) == xs[i]
    ensures forall i :: 0 <= i < |xs| ==> StartsWith(r[i].id, "skill_") && r[i].id[6..] == stamp(i)
  {
    var r := seq(|xs|, i requires 0 <= i < |xs| => xs[i].(id := WithId("skill", stamp(i))));
    assert forall i :: 0 <= i < |xs| ==> r[i].id == WithId("skill", stamp(i));
    r
  }

  function TrainingIds(xs: seq<ComplementaryTrainingEntry>, stamp: nat -> string): (r: seq<ComplementaryTrainingEntry>)
    ensures |r| == |xs|
    ensures forall i :: 0 <= i < |xs| ==> r[i].(id := xs[i].id) == xs[i]
    ensures forall i :: 0 <= i < |xs| ==> StartsWith(r[i].id, "comp_") && r[i].id[5..] == stamp(i)
  {
    var r := seq(|xs|, i requires 0 <= i < |xs| => xs[i].(id := WithId("comp", stamp(i))));
    assert forall i :: 0 <= i < |xs| ==> r[i].id == WithId("comp", stamp(i));
    r
  }

  /** A list from the extractor replaces the default one only when it is non-empty. */
  function NonEmptyOr<T>(ext: Option<seq<T>>, base: seq<T>): (r: seq<T>)
    ensures ext.Some? && |ext.value| > 0 ==> r == ext.value
    ensures (ext.None? || ext.value == []) ==> r == base
  {
    if ext.Some? && |ext.value| > 0 then ext.value else base
  }

  /** The `handleExtractData` updater: a fresh `INITIAL_CV_DATA` with the
      extracted parts laid over it. The previous document is not used. */
  function MergeExtracted(prev: CVData, ex: Extracted, stamp: nat -> string): (r: CVData)
    ensures r.id.None? && r.lastModified.None? && !r.hasDrivingLicense
    ensures r.drivingLicense == InitialCvData().drivingLicense
    ensures r.accentColor == InitialCvData().accentColor && r.fontSizes == InitialCvData().fontSizes
    ensures r.personal == if ex.personal.Some? then Overlay(InitialCvData().personal, ex.personal.value)
                          else InitialCvData().personal
    ensures r.summary == if ex.summary.Some? then ex.summary.value else ""
    ensures r.experience == ExperienceIds(NonEmptyOr(ex.experience, []), stamp)
    ensures r.education == EducationIds(NonEmptyOr(ex.education, []), stamp)
    ensures r.skills == SkillIds(NonEmptyOr(ex.skills, []), stamp)
    ensures r.complementaryTraining == TrainingIds(NonEmptyOr(ex.complementaryTraining, []), stamp)
  {
    var init := InitialCvData();
    CVData(
      None, None,
      if ex.personal.Some? then Overlay(init.personal, ex.personal.value) else init.personal,
      if ex.summary.Some? && ex.summary.value != [] then ex.summary.value else init.summary,
      EducationIds(NonEmptyOr(ex.education, []), stamp),
      ExperienceIds(NonEmptyOr(ex.experience, []), stamp),
      SkillIds(NonEmptyOr(ex.skills, []), stamp),
      TrainingIds(NonEmptyOr(ex.complementaryTraining, []), stamp),
      false, init.drivingLicense, init.accentColor, init.fontSizes)
  }

  /** Every entry of the merged document carries a fresh id with its list's
      prefix, and an absent or empty list stays empty. */
  lemma {:induction false} MergeIds(prev: CVData, ex: Extracted, stamp: nat -> string)
    ensures var r := MergeExtracted(prev, ex, stamp);
      && (forall i :: 0 <= i < |r.experience| ==> StartsWith(r.experience[i].id, "exp_"))
      && (forall i :: 0 <= i < |r.education| ==> StartsWith(r.education[i].id, "edu_"))
      && (forall i :: 0 <= i < |r.skills| ==> StartsWith(r.skills[i].id, "skill_"))
      && (forall i :: 0 <= i < |r.complementaryTraining| ==> StartsWith(r.complementaryTraining[i].id, "comp_"))
    ensures ex.experience.None? || ex.experience.value == [] ==> MergeExtracted(prev, ex, stamp).experience == []
  {
  }

  /** Nothing of the previous document survives the merge. */
  lemma {:induction false} MergeForgetsPrevious(p1: CVData, p2: CVData, ex: Extracted, stamp: nat -> string)
    ensures MergeExtracted(p1, ex, stamp) == MergeExtracted(p2, ex, stamp)
  {
  }

  /** Extracted entries keep their content; only their ids are replaced. */
  lemma {:induction false} MergeKeepsEntries(prev: CVData, ex: Extracted, stamp: nat -> string, i: nat)
    requires ex.experience.Some? && i < |ex.experience.value|
    ensures MergeExtracted(prev, ex, stamp).experience[i] == ex.experience.value[i].(id := WithId("exp", stamp(i)))
  {
  }

  // ----- PDF download -----

  /** `CV_${name.replace(/ /g, '_') || 'CV'}.pdf`. */
  function ExportFileName(name: string): (f: string)
    ensures StartsWith(f, "CV_") && EndsWith(f, ".pdf")
    ensures ' ' !in f
    ensures name != [] ==> |f| == |name| + 7
    ensures name != [] ==> forall i :: 0 <= i < |name| ==> f[i + 3] == if name[i] == ' ' then '_' else name[i]
    ensures name == [] ==> f == "CV_CV.pdf"
  {
    var middle := ReplaceSpaces(name, '_');
    var base := if middle != [] then middle else "CV";
    var f := "CV_" + base + ".pdf";
    assert f[..3] == "CV_";
    assert f[|f| - 4..] == ".pdf";
    assert forall i :: 0 <= i < |base| ==> f[i + 3] == base[i];
    assert forall i :: 0 <= i < |base| ==> base[i] != ' ';
    f
  }

  /** The templates exported as a raster image; all others are laid out as text. */
  datatype Strategy = Raster | TextFlow

  function ExportStrategy(template: string): (s: Strategy)
    ensures s == Raster <==> template == "modern" || template == "creative"
  {
    if template == "modern" || template == "creative" then Raster else TextFlow
  }

  // ----- the editor state -----

  /** The `cvData` state of the editor; each handler replaces it by its
      updater applied to the current value. */
  class CvEditor {
    var cvData: CVData

    constructor ()
      ensures cvData == InitialCvData()
    {
      cvData := InitialCvData();
    }

    method UpdateItem(ln: ListName, index: nat, input: Input)
      requires index < ListLength(cvData, ln)
      modifies this
      ensures cvData == UpdateListItem(old(cvData), ln, index, input)
    {
      cvData := UpdateListItem(cvData, ln, index, input);
    }

    method AddItem(it: Item)
      modifies this
      ensures cvData == AddListItem(old(cvData), it)
    {
      cvData := AddListItem(cvData, it);
    }

    method RemoveItem(ln: ListName, index: nat)
      modifies this
      ensures cvData == RemoveListItem(old(cvData), ln, index)
    {
      cvData := RemoveListItem(cvData, ln, index);
    }

    method SetHasDrivingLicense(checked: bool)
      modifies this
      ensures cvData == HasDrivingLicenseChange(old(cvData), checked)
    {
      cvData := HasDrivingLicenseChange(cvData, checked);
    }

    method DrivingLicenseChange(c: LicenseClass, checked: bool)
      modifies this
      ensures cvData == old(cvData).(drivingLicense := SetLicenseFlag(old(cvData).drivingLicense, c, checked))
    {
      cvData := cvData.(drivingLicense := SetLicenseFlag(cvData.drivingLicense, c, checked));
    }

    /** `handleImproveDescription` up to the `await`: the guard decides
        whether a request is sent; the document is not touched. */
    method ImproveDescription(ln: ListName, index: nat) returns (action: DescriptionAction)
      requires ln == Experience || ln == Training
      ensures action == DescriptionActionFor(cvData, ln, index)
      ensures action.Improve? ==> action.text != [] && Trim(action.text) != []
    {
      action := DescriptionActionFor(cvData, ln, index);
      if action.Improve? {
        assert action.text == (if ln == Experience then cvData.experience[index].description
                               else cvData.complementaryTraining[index].description);
      }
    }

    /** `handleImproveDescription` after the `await`: a successful reply
        becomes the description of item `index` of the document current at
        that moment, which other handlers may have changed meanwhile; a
        failure (an alert) changes nothing. */
    method ReceiveDescription(ln: ListName, index: nat, reply: Result<string>)
      requires ln == Experience || ln == Training
      modifies this
      ensures reply.Ok? && index < ListLength(old(cvData), ln) ==>
                cvData == SetDescription(old(cvData), ln, index, reply.value)
      ensures reply.Err? || index >= ListLength(old(cvData), ln) ==> cvData == old(cvData)
    {
      if reply.Ok? && index < ListLength(cvData, ln) {
        cvData := SetDescription(cvData, ln, index, reply.value);
      }
    }

    method ExtractData(ex: Result<Extracted>, stamp: nat -> string)
      modifies this
      ensures ex.Ok? ==> cvData == MergeExtracted(old(cvData), ex.value, stamp)
      ensures ex.Err? ==> cvData == old(cvData)
    {
      if ex.Ok? {
        cvData := MergeExtracted(cvData, ex.value, stamp);
      }
    }
  }
}
