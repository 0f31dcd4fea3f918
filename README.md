# Curriculum-Facil core, modelled in Dafny

Curriculum-Facil is a browser application for writing a CV and a cover
letter in Spanish. This project models the logic behind its screens and
proves properties of that model.

- **The CV record and its defaults** (`CvTypes`): `CVData` and its entries,
  the ten driving-licence classes in their three groups, and
  `INITIAL_CV_DATA`.
- **The document updates of the editor** (`AppState`): editing, adding and
  removing list items, the `isCurrent` box and its effect on end dates, the
  licence box and flags, the guard before asking for a description, the
  merge of extracted data, and the export file name and strategy. The class
  `CvEditor` holds the document and applies these updates in place.
- **The PDF export of the preview** (`PdfExport`): the preview surface as an
  object whose inline styles, style tag and temporary class are saved,
  changed and restored around an abstract rendering step that may fail.
- **The AI service** (`GeminiService`): the client cache
  (`initializeAi`/`getAiClient`) as a class with two fields, the requests
  that need no call, the bullet-stripping line normaliser, the error
  messages, and the phone and greeting of the letter request. Each reply of
  the model is an oracle argument.
- **The rules shared by the three CV templates** (`TemplateRules`): URL
  shortening, location, phone, date formatting, sorting by date,
  description bullets, the licence line and the contact filters.
- **Each template's own rules** (`ClassicTemplate`, `ModernTemplate`,
  `CreativeTemplate`): its own `getYear`, date separator, title and
  contacts, and the page it renders.
- **The cover letter** (`LetterText`, `LetterPdf`):
  - `LetterText` holds the pure half: how a line is cut into bold and plain
    words at `**…**` spans, the greedy packing of words into sub-lines, the
    classification of lines, and the cursor and page breaks as
    specification functions. It also holds the on-screen rendering, the
    copied text and the file name.
  - `LetterPdf` holds the drawing half: the jsPDF document as a class whose
    page count, cursor `y` and list of text calls change line by line. Each
    of its methods is proved equal to the functions of `LetterText`.
- **The country-code picker** (`CountryPicker`): the selected country, the
  search filter, the order by name, and the open/closed state with its
  search term as a class.
- **The saved-CVs dialog** (`SavedCvs`): the order by modification time and
  the rows shown.
- **Supporting modules**: `TextOps` (JavaScript string operations on
  `seq<char>`), `JsNumber` (`parseInt` with and without a radix),
  `StableSort` (the stable `Array.prototype.sort` on a copy, by a key) and
  `Wrappers` (`Option`, `Result`).

Inputs the code reads from outside become parameters:
- the current year;
- the clock and random stamp in new ids;
- the model's replies;
- the text measurement and wrapping of jsPDF (`Measure`);
- `localeCompare` (an integer rank of each name);
- `toLocaleString` (a formatting function);
- the country table.

## Model

| member | source | states |
|---|---|---|
| CvTypes.LevelLabel | types.js:36-40 | a skill level is shown as one of `Básico`, `Intermedio`, `Avanzado` |
| CvTypes.ClassName | constants.ts:3-7 | every licence class has a one- or two-character name |
| CvTypes.AllFlags | constants.ts:25-36 | the licence record with each of the ten flags set to the given value |
| CvTypes.LicenseGroups | constants.ts:3-7 | `LICENSE_CLASSES` has three groups and no class is in two of them |
| CvTypes.AllLicenseClasses | constants.ts:3-7 | the groups flattened in order list ten classes, each class of the licence record exactly once |
| CvTypes.InitialCvData | constants.ts:9-42 | the initial document has no id or time, empty personal text fields except the `+56` code, an empty summary, four empty lists, no licence and every flag false, the colour `#003366` (a `#` and six hex digits) and font sizes 25/12, inside the 22–32 and 9–15 ranges the selector offers |
| AppState.FieldNamed | App.tsx:187-208 | the field an input's `name` designates, found again under its own name |
| AppState.FieldNameRoundTrip | App.tsx:208 | every field is designated by its own name |
| AppState.LevelNamed | types.js:39 | a `<select>` value names a level only if that level's label is the value |
| AppState.GetSet | App.tsx:206-209 | after `item[name] = value` the field reads back the value (a level only when the value is one of its labels) |
| AppState.SetOthers | App.tsx:206-209 | writing one field leaves every other field of the item as it was |
| AppState.SetOthersExp | App.tsx:206-209 | the same for an experience entry |
| AppState.SetOthersEdu | App.tsx:206-209 | the same for an education entry |
| AppState.SetOthersSkill | App.tsx:206-209 | the same for a skill |
| AppState.SetOthersTraining | App.tsx:206-209 | the same for a course |
| AppState.SetKeepsFlag | App.tsx:206-209 | a text input keeps the item's kind and its `isCurrent` flag |
| AppState.SetCurrent | App.tsx:193-205 | ticking `isCurrent` sets the flag and the end date to `Presente` (empty when unticked), clears an experience's end month, keeps an education's end month and changes no other field |
| AppState.UpdateListItem | App.tsx:182-215 | only item `index` of the named list changes, to its edited copy; the list keeps its length and every other item and document field is unchanged |
| AppState.EditKeepsKind | App.tsx:190-212 | the edited copy is an item of the same list |
| AppState.TickCurrentExperience | App.tsx:198-201 | on experience the box sets `isCurrent`, the end date to `Presente` or empty and the end month to empty, and keeps the other fields |
| AppState.TickCurrentEducation | App.tsx:198-203 | on education only `isCurrent` and the end date follow the box |
| AppState.CheckboxIgnoredElsewhere | App.tsx:198 | skills and courses get no side effect from a checkbox |
| AppState.AddListItem | App.tsx:217-224 | the item is appended at the end (length + 1), experience and education with `isCurrent` false, and nothing else changes |
| AppState.Splice | App.tsx:226-231 | `splice(index, 1)` on a copy removes exactly the element at `index`: the ones before keep their place, the ones after move up by one, and an index past the end removes nothing |
| AppState.SplicePermutation | App.tsx:228 | the removed element is the only one lost |
| AppState.RemoveListItem | App.tsx:226-231 | the named list becomes its `Splice` at `index`: exactly the element at `index` goes and the others keep their order (none goes when the index is past the end); nothing else changes |
| AppState.AddThenRemove | App.tsx:217-231 | removing the item just added gives the document back |
| AppState.HasDrivingLicenseChange | App.tsx:158-170 | the box sets `hasDrivingLicense`; unticking clears every flag, ticking keeps them, and no other field changes |
| AppState.UntickForgetsClasses | App.tsx:158-170 | unticking and ticking again leaves no class selected and no licence line |
| AppState.SetLicenseFlag | App.tsx:147-156 | one class's flag takes the box's state |
| AppState.SetLicenseFlagOthers | App.tsx:151-154 | every other class keeps its flag |
| AppState.SetLicenseFlagSelects | App.tsx:147-156 | a class is on the licence line exactly when its box was ticked |
| AppState.ExperienceAction | App.tsx:257-269 | a description that is not blank is improved as it is; a blank one is generated when the position and the company are both given, and aborts otherwise |
| AppState.TrainingAction | App.tsx:257-276 | the same for a course, with its name and institution |
| AppState.DescriptionActionFor | App.tsx:254-255 | no item at the index does nothing; otherwise the guard of that list decides |
| AppState.BlankCompleteGenerates | App.tsx:257-278 | a white-space description of a complete entry asks for a new one |
| AppState.SetDescription | App.tsx:283-290 | storing the reply changes only the description of that item |
| AppState.Overlay | App.tsx:448-450 | `{ ...base, ...patch }`: each of the seven personal fields the extraction gives replaces the base one, and each absent one keeps it |
| AppState.WithId | App.tsx:455 | an id is the list's prefix and `_` followed by a stamp |
| AppState.ExperienceIds | App.tsx:457-459 | each extracted experience keeps everything but its id, which is `exp_` followed by that entry's stamp |
| AppState.EducationIds | App.tsx:460-462 | each extracted education entry keeps everything but its id, which is `edu_` followed by its stamp |
| AppState.SkillIds | App.tsx:463-465 | each extracted skill keeps everything but its id, which is `skill_` followed by its stamp |
| AppState.TrainingIds | App.tsx:466-468 | each extracted course keeps everything but its id, which is `comp_` followed by its stamp |
| AppState.NonEmptyOr | App.tsx:457-468 | a list replaces the default one only when it is present and non-empty |
| AppState.MergeExtracted | App.tsx:445-471 | the merged document is `INITIAL_CV_DATA` with the extracted personal fields, summary and non-empty lists laid over it |
| AppState.MergeIds | App.tsx:455-468 | every merged entry's id starts with its list's prefix and `_`; an absent or empty list stays empty |
| AppState.MergeForgetsPrevious | App.tsx:445-446 | the merge does not depend on the previous document |
| AppState.MergeKeepsEntries | App.tsx:457-459 | extracted entries keep their content; only the id is replaced |
| AppState.ExportFileName | App.tsx:312 | the file name is `CV_` + the name with each space replaced by `_` + `.pdf`, and `CV_CV.pdf` for an empty name |
| AppState.ExportStrategy | App.tsx:333 | the raster strategy is used exactly for `modern` and `creative` |
| AppState.CvEditor.constructor | App.tsx:71 | the editor starts from `INITIAL_CV_DATA` |
| AppState.CvEditor.UpdateItem | App.tsx:182-215 | the document becomes its `updateListItem` update |
| AppState.CvEditor.AddItem | App.tsx:217-224 | the document becomes its `addListItem` update |
| AppState.CvEditor.RemoveItem | App.tsx:226-231 | the document becomes its `removeListItem` update |
| AppState.CvEditor.SetHasDrivingLicense | App.tsx:158-170 | the document becomes its `handleHasDrivingLicenseChange` update |
| AppState.CvEditor.DrivingLicenseChange | App.tsx:147-156 | only the flag of one class changes |
| AppState.CvEditor.ImproveDescription | App.tsx:250-280 | the guard's decision for the item as the document stands when the button is pressed; a text to improve is never blank; the document is not touched |
| AppState.CvEditor.ReceiveDescription | App.tsx:282-300 | a successful reply becomes the description of item `index` of the document current when it arrives, nothing else changing; a failure changes nothing |
| AppState.CvEditor.ExtractData | App.tsx:440-485 | a successful extraction replaces the document by the merge; a failure leaves it unchanged |
| PdfExport.SheetFor | App.tsx:333-391 | the temporary sheet is the heading line-height one exactly for the text-flow strategy |
| PdfExport.Restored | App.tsx:420-433 | after `finally` no style tag with the export's id and no temporary class remain |
| PdfExport.DownloadPdf | App.tsx:303-436 | a missing preview does nothing; otherwise the renderer sees the unscaled, relatively positioned surface with the template's sheet (and the class for text flow), the saved inline styles and parent height are back afterwards whether rendering succeeded or not, and the outcome is the file name on success and the fixed alert on failure |
| GeminiService.AiClientCache.constructor | services/geminiService.ts:7-8 | at load there is no client and no key |
| GeminiService.AiClientCache.InitializeAi | services/geminiService.ts:16-25 | an empty key fails and changes nothing; any other key is recorded; a client is built only when the key differs from the recorded one, so the same key again keeps the client |
| GeminiService.AiClientCache.GetAiClient | services/geminiService.ts:32-37 | the client built with the recorded key, or the "not initialised" error exactly while no key is recorded |
| GeminiService.NormalizeLineStart | services/geminiService.ts:328 | a normalised line does not start with white space |
| GeminiService.NormalizeLineChars | services/geminiService.ts:328 | a normalised line has no character its line lacks |
| GeminiService.NormalizeBullet | services/geminiService.ts:328 | a bullet (`-`, `•`, `*`), white space and a trimmed text normalise to that text |
| GeminiService.NormalizeEach | services/geminiService.ts:328 | every line is normalised in its place |
| GeminiService.NormalizedLinesShape | services/geminiService.ts:328 | the lines kept are non-empty, start with no white space, hold no line break and are no more than the lines of the reply |
| GeminiService.NormalizeLines | services/geminiService.ts:328 | splitting the joined result at line breaks gives the kept lines back |
| GeminiService.NormalizeLine | services/geminiService.ts:328 | one line trimmed and stripped of a leading bullet; GeminiService.NormalizeLineStart, NormalizeLineChars and NormalizeBullet state it |
| GeminiService.Normalize | services/geminiService.ts:328 | the reply with each line normalised and empty lines dropped; GeminiService.NormalizedLinesShape and NormalizeLines state it |
| GeminiService.GenerateSummary | services/geminiService.ts:40-145 | without a client it fails; with no experience, education or summary it is the fixed paragraph with no call; otherwise it succeeds exactly when the reply is non-blank, with the trimmed reply, and any failure is the fixed summary message |
| GeminiService.ExtractErrorMessage | services/geminiService.ts:264-270 | a message containing `json` maps to the formatting message, any other to `No se pudo extraer…` |
| GeminiService.ExtractData | services/geminiService.ts:148-270 | without a client it fails; a failed call gives the mapped message of its error; a blank reply is the generic failure; otherwise the result is the parse of the trimmed reply, and a failed parse gives the mapped message of its error |
| GeminiService.EmptyReplyNotFormatting | services/geminiService.ts:256-269 | an empty reply is reported as a failed extraction, not a formatting problem |
| GeminiService.CapitalJsonNotFormatting | services/geminiService.ts:266 | `includes('json')` is case-sensitive: a message saying `JSON` is not a formatting problem |
| GeminiService.LowerJsonFormatting | services/geminiService.ts:266-267 | a message saying `json` is |
| GeminiService.GenerateDescription | services/geminiService.ts:273-332 | the normalised trimmed reply exactly when the reply is non-blank; any failure is the fixed generation message |
| GeminiService.ImproveDescription | services/geminiService.ts:335-409 | blank text gives `""` with no call; otherwise a result exists exactly when the reply is non-blank, normalised for experience and only trimmed for training; any failure is the fixed message |
| GeminiService.ImproveBlankText | services/geminiService.ts:339-341 | white-space text gives `""` whatever the reply |
| GeminiService.NormalizeOneLine | services/geminiService.ts:402 | a reply of one line normalises like that line |
| GeminiService.ImproveKeepsTrainingBullet | services/geminiService.ts:401-405 | a training reply `- text` comes back with its bullet |
| GeminiService.DashLine | services/geminiService.ts:402 | a one-line `- text` reply normalises to `text` |
| GeminiService.ImproveStripsExperienceBullet | services/geminiService.ts:401-403 | an experience reply `- text` loses its bullet |
| GeminiService.Greeting | services/geminiService.ts:424 | the greeting names the recipient only when they are known and named, and is `Estimados/as señores/as:` otherwise |
| GeminiService.LetterPhone | services/geminiService.ts:418 | the phone the letter quotes is empty exactly when code and number are; with one of them empty it is the other, with both it is code, a space and number |
| GeminiService.GenerateCoverLetter | services/geminiService.ts:412-507 | the trimmed reply exactly when it is non-blank; any failure is the fixed letter message |
| JsNumber.ParseSigned | components/templates/ClassicTemplate.tsx:34 | `parseInt` gives a number exactly when a digit run follows the optional sign |
| JsNumber.DecimalTextValue | components/templates/ClassicTemplate.tsx:34 | the numeral of a year reads back as that year |
| JsNumber.ParseDecimalText | components/templates/ClassicTemplate.tsx:34 | `parseInt(String(n), 10) == n` for every non-negative `n` |
| JsNumber.ParseDecimalPrefix | components/templates/ClassicTemplate.tsx:34 | `parseInt(s, 10)` skips leading white space and reads the digit run, ignoring what follows it |
| JsNumber.ParseIntDecimal | components/templates/ClassicTemplate.tsx:34 | `parseInt(s, 10)`; JsNumber.ParseDecimalText, ParseDecimalPrefix and ParseDecimalNaN state it |
| JsNumber.ParseIntAuto | components/templates/ModernTemplate.tsx:25 | `parseInt(s)` with no radix; JsNumber.ParseAutoPrefix, AutoIsDecimal and ParseAutoHex state it |
| JsNumber.ParseDecimalNaN | components/templates/ClassicTemplate.tsx:34-35 | a string starting with a letter is `NaN` |
| JsNumber.ParseAutoPrefix | components/templates/ModernTemplate.tsx:25 | `parseInt` with no radix reads a leading decimal run that is not a `0x` prefix |
| JsNumber.AutoIsDecimal | components/templates/ModernTemplate.tsx:25 | without a `0x`/`0X` prefix the radix-less reading is the decimal one |
| JsNumber.ParseAutoHex | components/templates/ModernTemplate.tsx:25 | with no radix, `0x1F` reads as 31, where the decimal reading stops at 0 |
| StableSort.SortPermutation | components/templates/ClassicTemplate.tsx:68-69 | `[...xs].sort(cmp)` is a permutation of `xs` |
| StableSort.SortByKey | components/templates/ClassicTemplate.tsx:68-69 | the stable sort the comparators induce; StableSort.SortPermutation, SortDescending, SortStable and SortLength state its properties |
| StableSort.SortDescending | components/templates/ClassicTemplate.tsx:41-47 | the sorted copy is ordered by the comparator's key, larger first |
| StableSort.SortStable | components/templates/ClassicTemplate.tsx:68-69 | the sort is stable: elements with equal keys keep their input order |
| StableSort.SortLength | components/templates/ClassicTemplate.tsx:68-69 | sorting keeps the length |
| TemplateRules.BulletItems | components/templates/ClassicTemplate.tsx:128 | no more list items than lines |
| TemplateRules.DescriptionBullets | components/templates/ClassicTemplate.tsx:128 | `description.split('\n')` as list items; its properties are stated by TemplateRules.BulletItemsFromLines, BulletItemsKeepLine and EmptyDescriptionNoBullets |
| CvTypes.EveryClassListed | constants.ts:3-7 | the ten classes listed are every licence class there is |
| GeminiService.ImproveTrimmedReply | services/geminiService.ts:396-403 | for experience, a trimmed non-empty reply comes back normalised |
| GeminiService.DashLineNormalizes | services/geminiService.ts:328 | a line `- text` normalises to `text` |
| TemplateRules.StripScheme | components/templates/ClassicTemplate.tsx:25 | removing `^(https?://)?` leaves a suffix of the address |
| TemplateRules.StripWww | components/templates/ClassicTemplate.tsx:25 | removing `(www.)?` after the scheme leaves a suffix |
| TemplateRules.StripTrailingSlash | components/templates/ClassicTemplate.tsx:25 | removing one final `/` leaves a prefix |
| TemplateRules.FormatUrl | components/templates/ModernTemplate.tsx:16 | the displayed address is never longer than the address |
| TemplateRules.FormatUrlIsInfix | components/templates/ClassicTemplate.tsx:25 | the displayed address is a contiguous piece of the address typed |
| TemplateRules.FormatUrlRecoversCore | components/templates/ClassicTemplate.tsx:25 | an address written with any scheme, with or without `www.` and a trailing slash, displays as its bare core |
| TemplateRules.FormatUrlBareScheme | components/templates/ClassicTemplate.tsx:25 | a bare `https://` displays as nothing |
| TemplateRules.HttpsLink | components/templates/ClassicTemplate.tsx:76-77 | the link target always starts with `https://` |
| TemplateRules.FormatLocation | components/templates/ClassicTemplate.tsx:56-59 | nothing when city and country are both empty, else `, ` and the non-empty ones joined by `, ` |
| TemplateRules.FullPhoneNumber | components/templates/ClassicTemplate.tsx:70 | empty exactly when code and number are both empty; one empty gives the other; both present gives code, a space and number |
| TemplateRules.TelHref | components/templates/ModernTemplate.tsx:80-81 | the phone link is `tel:` followed by text without white space |
| TemplateRules.FormatExpDate | components/templates/ClassicTemplate.tsx:50-54 | an empty year gives nothing, `presente`/`actualmente` in any case and spacing gives `Presente`, else month and year joined by the separator (the year alone without a month) |
| TemplateRules.NormalizeEndsInDigit | components/templates/ClassicTemplate.tsx:29-31 | a date ending in a digit is never taken for an ongoing word |
| TemplateRules.NormalizeLastDigit | components/templates/ClassicTemplate.tsx:29 | trimming and lower-casing keep a final digit last |
| TemplateRules.NormalizeKeepsFirst | components/templates/ClassicTemplate.tsx:29 | a date whose first character is not white space normalises to a non-empty string starting with that character in lower case |
| TemplateRules.SortByDate | components/templates/ClassicTemplate.tsx:27-48 | the sorted copy is a permutation of the list, ordered by end year then start year, larger first |
| TemplateRules.SortByDateStable | components/templates/ClassicTemplate.tsx:68-69 | entries with equal end and start years keep their relative order |
| TemplateRules.SortByDateLength | components/templates/ClassicTemplate.tsx:68-69 | sorting keeps the list's length, so a section's visibility does not change |
| TemplateRules.LaterEndFirst | components/templates/ClassicTemplate.tsx:41-42 | an entry with a later end year is listed before one with an earlier end year, whatever the start years |
| TemplateRules.StripBullet | components/templates/ClassicTemplate.tsx:128 | a line not starting with `•` is unchanged; otherwise the bullet and the white space after it are removed |
| TemplateRules.KeepsBulletIff | components/templates/ClassicTemplate.tsx:128 | a line becomes a list item exactly when, trimmed, it is neither empty nor a lone `•` |
| TemplateRules.StrippedLines | components/templates/ClassicTemplate.tsx:128 | every line with its bullet stripped, position by position |
| TemplateRules.BulletItemsFromLines | components/templates/ClassicTemplate.tsx:128 | every list item is a stripped line and no line gives more than one item |
| TemplateRules.BulletItemsKeepLine | components/templates/ClassicTemplate.tsx:128 | every line that passes the test appears as an item |
| TemplateRules.EmptyDescriptionNoBullets | components/templates/ClassicTemplate.tsx:186-190 | an empty description has no items |
| TemplateRules.ClassRank | constants.ts:3-7 | the position of a class among the ten |
| TemplateRules.ClassRankIsPosition | constants.ts:3-7 | the rank of each class is its index in `LICENSE_CLASSES` order |
| TemplateRules.SelectIn | components/templates/ClassicTemplate.tsx:61-63 | a class is selected exactly when it is listed and its flag is set |
| TemplateRules.SelectInOrdered | components/templates/ClassicTemplate.tsx:61-63 | filtering keeps the order of the classes |
| TemplateRules.SelectedLicenses | components/templates/ClassicTemplate.tsx:61-63 | the selected classes are exactly the flagged ones, in `LICENSE_CLASSES` order, each once |
| TemplateRules.HasLicenses | components/templates/ClassicTemplate.tsx:65 | the box is ticked and some class is selected; TemplateRules.HasLicensesIff states it in terms of the flags |
| TemplateRules.HasAdditionalInfo | components/templates/ClassicTemplate.tsx:66 | there are courses or licences; TemplateRules.NoLicenseWithoutBox and the templates' Render state when it holds |
| TemplateRules.HasLicensesIff | components/templates/ClassicTemplate.tsx:65 | licences are shown exactly when the box is ticked and some class is flagged |
| TemplateRules.LicenseLine | components/templates/ClassicTemplate.tsx:200 | the licence text is `Clase ` + the names of the selected classes, in `LICENSE_CLASSES` order, joined by `, ` + `, Chile` |
| TemplateRules.LicenseLineNames | components/templates/ClassicTemplate.tsx:200 | every flagged class's name occurs on the licence line |
| TemplateRules.LicenseBlock | components/templates/ClassicTemplate.tsx:196-203 | the licence paragraph is present exactly when the box is ticked and some class is flagged, and then it is the licence line of the flags |
| TemplateRules.NoLicenseWithoutBox | components/templates/ClassicTemplate.tsx:65-66 | with the box unticked no licence is shown and the additional section appears only for courses |
| TemplateRules.KeepPresent | components/templates/ClassicTemplate.tsx:72-78 | filtering the guarded entries never adds any |
| TemplateRules.KeepPresentSpec | components/templates/ClassicTemplate.tsx:72-78 | every entry whose field is non-empty is kept, and nothing is left exactly when every field is empty |
| TemplateRules.KeepPresentEmpty | components/templates/ClassicTemplate.tsx:72-78 | nothing is left exactly when every field is empty |
| TemplateRules.KeepFiveEmpty | components/templates/ClassicTemplate.tsx:72-78 | the five contact entries all vanish exactly when all five fields are empty |
| TemplateRules.KeepWithText | components/templates/CreativeTemplate.tsx:156-162 | an entry is kept exactly when it is listed and its text is non-empty |
| ClassicTemplate.GetYear | components/templates/ClassicTemplate.tsx:28-36 | a blank date is 0 and an ongoing word (any case or spacing) is the year after the current one |
| ClassicTemplate.GetYearOfNumeral | components/templates/ClassicTemplate.tsx:34-35 | a year written as a plain numeral reads back as that year |
| ClassicTemplate.GetYearParsed | components/templates/ClassicTemplate.tsx:34-35 | a date that is neither blank nor ongoing reads as `parseInt(dateStr, 10)`, and as 0 when that is `NaN` |
| ClassicTemplate.GetYearLeadingNumber | components/templates/ClassicTemplate.tsx:34 | a date starting (after white space) with digits reads as those digits, whatever text follows |
| ClassicTemplate.GetYearWordFirst | components/templates/ClassicTemplate.tsx:34-35 | a date starting with a letter that is not an ongoing word reads as 0 |
| ClassicTemplate.GetYearMonthFirst | components/templates/ClassicTemplate.tsx:34-35 | `Marzo 2020` reads as 0: a month written first hides the year |
| ClassicTemplate.NormalizeFirstChar | components/templates/ClassicTemplate.tsx:29 | after leading white space, the first character decides the first character of the normalised date |
| ClassicTemplate.PresenteFirst | components/templates/ClassicTemplate.tsx:31-42 | an ongoing entry is listed before every entry that ended in the current year or earlier |
| ClassicTemplate.ExpDate | components/templates/ClassicTemplate.tsx:50-54 | an empty year gives nothing, an ongoing word gives `Presente`, otherwise `month, year`, or the year alone when the month is empty |
| ClassicTemplate.CourseTitle | components/templates/ClassicTemplate.tsx:173 | the course title always ends in `.`: the title plus at most one period, or `Curso.` when empty; a title ending in `.` is unchanged |
| ClassicTemplate.CourseTitleIdempotent | components/templates/ClassicTemplate.tsx:173 | applying the rule to its own output changes nothing |
| ClassicTemplate.DisplayName | components/templates/ClassicTemplate.tsx:97 | the header name is never empty and is the name when one is given |
| ClassicTemplate.ContactCandidates | components/templates/ClassicTemplate.tsx:72-77 | the five guarded contact entries |
| ClassicTemplate.ContactDetails | components/templates/ClassicTemplate.tsx:72-78 | at most five entries are shown |
| ClassicTemplate.ContactDetailsShown | components/templates/ClassicTemplate.tsx:72-78 | the header has no contact entry exactly when location, e-mail, both phone parts, LinkedIn and web site are all empty |
| ClassicTemplate.ContactLinksShown | components/templates/ClassicTemplate.tsx:76-77 | a non-empty LinkedIn or web-site field always shows its shortened address linking to `https://` plus that address |
| ClassicTemplate.ContactLineJoins | components/templates/ClassicTemplate.tsx:100-105 | the header line is the entry texts joined by ` • `: a separator between entries and none after the last |
| ClassicTemplate.Render | components/templates/ClassicTemplate.tsx:65-206 | the summary shows iff non-empty; experience and education are reordered copies, sorted by date; the additional section shows iff there are courses or a flagged class under a ticked box; a licence implies that section; the licence paragraph is the licence block of the document |
| ModernTemplate.LastFour | components/templates/ModernTemplate.tsx:25 | `slice(-4)`: the last four characters, or the whole date when shorter |
| ModernTemplate.GetYear | components/templates/ModernTemplate.tsx:19-27 | a blank date is 0 and an ongoing word is the year after the current one |
| ModernTemplate.GetYearLastFour | components/templates/ModernTemplate.tsx:25-26 | a date ending in four digits reads as their value whatever precedes them |
| ModernTemplate.GetYearMonthFirst | components/templates/ModernTemplate.tsx:25-26 | `Marzo 2020` reads as 2020 |
| ModernTemplate.GetYearTrailingSpace | components/templates/ModernTemplate.tsx:25 | the slice is taken before trimming: `2019 ` reads as 19 |
| ModernTemplate.ExpDate | components/templates/ModernTemplate.tsx:41-45 | an empty year gives nothing, an ongoing word gives `Presente`, otherwise `month, year`, or the year alone when the month is empty |
| ModernTemplate.LevelRank | types.js:36-40 | the position of a level among the three |
| ModernTemplate.SkillWidth | components/templates/ModernTemplate.tsx:53-59 | the bar width is between 1 and 100 percent and is full exactly for `Avanzado` |
| ModernTemplate.SkillWidthMonotone | components/templates/ModernTemplate.tsx:54-58 | a higher level always draws a wider bar, and only a higher one |
| ModernTemplate.ContactItems | components/templates/ModernTemplate.tsx:95-99 | the five sidebar entries |
| ModernTemplate.LinksAlwaysBuilt | components/templates/ModernTemplate.tsx:97-98 | the links are built even for empty fields: `https://` and `mailto:` |
| ModernTemplate.LinkedinShownIff | components/templates/ModernTemplate.tsx:47-98 | the LinkedIn entry shows exactly when its shortened address is non-empty |
| ModernTemplate.SkillBars | components/templates/ModernTemplate.tsx:175-190 | one bar per skill, in order, each with the skill name and its level's width |
| ModernTemplate.Render | components/templates/ModernTemplate.tsx:72-190 | the name is never empty; every shown contact has text; experience and education are sorted reordered copies; the additional section shows iff there are courses or a flagged class under a ticked box; the summary shows iff non-empty; one bar per skill; the licence paragraph is the licence block of the document |
| CreativeTemplate.Runs | components/templates/CreativeTemplate.tsx:26 | `match(/\d{4}/g)`: every match is four decimal digits |
| CreativeTemplate.RunsAppend | components/templates/CreativeTemplate.tsx:26 | a prefix ending in a non-digit does not disturb the matches after it |
| CreativeTemplate.RunsOfFour | components/templates/CreativeTemplate.tsx:26 | four digits on their own are exactly one match |
| CreativeTemplate.GetYear | components/templates/CreativeTemplate.tsx:20-29 | a blank date is 0, `presente`/`actualmente`/`present` give the year after the current one, and any other date reads between 0 and 9999 |
| CreativeTemplate.ParseRun | components/templates/CreativeTemplate.tsx:27 | `parseInt` of a match is its value, below 10000 |
| CreativeTemplate.GetYearLastRun | components/templates/CreativeTemplate.tsx:26-27 | a date ending in a four-digit run after a non-digit reads as that run whatever runs come before: `2018 - 2020` is 2020 |
| CreativeTemplate.GetYearOfLastRun | components/templates/CreativeTemplate.tsx:27 | a date that is neither blank nor ongoing and has a match reads as its last match |
| CreativeTemplate.GetYearNoRun | components/templates/CreativeTemplate.tsx:27-28 | a date with no four-digit run that is not an ongoing word reads as 0 |
| CreativeTemplate.NoRunsFound | components/templates/CreativeTemplate.tsx:26 | with no four digits in a row there is no match |
| CreativeTemplate.ExpDate | components/templates/CreativeTemplate.tsx:77-81 | an empty year gives nothing, an ongoing word gives `Presente`, otherwise `month year`, or the year alone when the month is empty |
| CreativeTemplate.EducationDate | components/templates/CreativeTemplate.tsx:69 | the start date alone exactly when there is no end date, else the start date, ` - ` and the end date |
| CreativeTemplate.CapFirst | components/templates/CreativeTemplate.tsx:47 | capitalising a word keeps its length |
| CreativeTemplate.CapAll | components/templates/CreativeTemplate.tsx:47 | each word capitalised, in order |
| CreativeTemplate.TitleFrom | components/templates/CreativeTemplate.tsx:42-49 | the reference rule, character by character, keeps the length |
| CreativeTemplate.RejoinSplit | components/templates/CreativeTemplate.tsx:46-48 | splitting on spaces, capitalising and joining again equals the character-by-character rule |
| CreativeTemplate.TitleCasePointwise | components/templates/CreativeTemplate.tsx:42-49 | `toTitleCase` upper-cases the first character and each one after a space, lower-cases every other, and keeps the length |
| CreativeTemplate.TitleFromAt | components/templates/CreativeTemplate.tsx:47 | the reference rule at each position |
| CreativeTemplate.TitleCaseLength | components/templates/CreativeTemplate.tsx:42-49 | under the modelled case mapping (no `ß` to `SS`) `toTitleCase` keeps the length, so only an empty name gives an empty title |
| CreativeTemplate.ToTitleCase | components/templates/CreativeTemplate.tsx:42-49 | `toTitleCase`; CreativeTemplate.RejoinSplit, TitleCasePointwise, TitleCaseLength and TitleCaseWords state it |
| CreativeTemplate.TitleCaseWords | components/templates/CreativeTemplate.tsx:46-48 | spaces stay in place, so the name keeps its number of words |
| CreativeTemplate.SplitCountBySpaces | components/templates/CreativeTemplate.tsx:46 | strings with spaces in the same places split into as many pieces |
| CreativeTemplate.DisplayName | components/templates/CreativeTemplate.tsx:188 | the header name is never empty, and a given name keeps its length |
| CreativeTemplate.ContactCandidates | components/templates/CreativeTemplate.tsx:156-161 | the five candidate entries; the LinkedIn and web-site entries get a link exactly when their field is non-empty |
| CreativeTemplate.ContactItems | components/templates/CreativeTemplate.tsx:156-162 | at most five entries, each with text |
| CreativeTemplate.GridClass | components/templates/CreativeTemplate.tsx:164-173 | two columns exactly when there are four entries |
| CreativeTemplate.Render | components/templates/CreativeTemplate.tsx:140-269 | the name is never empty; shown contacts have text; two grid columns iff four contacts; experience and education are sorted reordered copies; the additional section shows iff there are courses or a flagged class under a ticked box; the licence is set off by a rule iff courses precede it; the licence paragraph is the licence block of the document |
| LetterText.CloseFrom | components/CoverLetterModal.js:56 | the lazy `.*?\*\*` stops at the first `**` on the same line |
| LetterText.MatchAt | components/CoverLetterModal.js:56 | a match opens and closes with `**` and is at least four characters long |
| LetterText.FirstMatch | components/CoverLetterModal.js:56 | the leftmost match at or after a position |
| LetterText.SplitParts | components/CoverLetterModal.js:56 | `split` with a capturing group always yields at least one piece |
| LetterText.SplitPartsCover | components/CoverLetterModal.js:56 | the pieces, gaps and matches alike, concatenate back to the line |
| LetterText.MarkedSpans | components/CoverLetterModal.js:56-59 | every captured piece starts and ends with `**` |
| LetterText.MatchIsSpan | components/CoverLetterModal.js:56 | the text a match covers is a `**…**` span |
| LetterText.NoMarkerNoMatch | components/CoverLetterModal.js:56 | a line without `**` has no match |
| LetterText.MakeWords | components/CoverLetterModal.js:62 | one word per piece of text, in order, with the part's style |
| LetterText.PartWordsClean | components/CoverLetterModal.js:59-62 | every word of a part is non-empty, has no space, and is bold exactly when the part is a `**…**` span |
| LetterText.WordsOfPartsClean | components/CoverLetterModal.js:58-63 | every collected word is non-empty and has no space |
| LetterText.WordsOfPartsSnoc | components/CoverLetterModal.js:58-63 | each round of the `forEach` appends that part's words |
| LetterText.TokeniseClean | components/CoverLetterModal.js:55-63 | no word of a mixed-style line is empty or holds a space |
| LetterText.Tokenise | components/CoverLetterModal.js:55-63 | the words of a mixed-style line; LetterText.TokeniseClean, TokenisePlain and TokeniseBold state it |
| LetterText.TokenisePlain | components/CoverLetterModal.js:56-62 | a line without `**` gives its space-separated words, all plain |
| LetterText.TokeniseBold | components/CoverLetterModal.js:56-62 | `**t**` gives the words of `t`, all bold |
| LetterText.SpanIsOnePiece | components/CoverLetterModal.js:56 | a single span splits into itself alone once empty pieces are dropped |
| LetterText.SpanMatch | components/CoverLetterModal.js:56 | a single span is matched whole |
| LetterText.SpanIsBold | components/CoverLetterModal.js:59-60 | a span counts as bold and `slice(2, -2)` gives its inner text |
| LetterText.CloseOfSpan | components/CoverLetterModal.js:56 | inside a span without `*` the closing marker found is the last one |
| LetterText.PackFromStep | components/CoverLetterModal.js:79-91 | one round of the loop: break when the current width is positive and the word would pass `maxWidth`, else append the word and add a space width from the second word on |
| LetterText.PackBreakStep | components/CoverLetterModal.js:83-87 | the break branch emits the current sub-line and starts a new one with the word |
| LetterText.PackJoinStep | components/CoverLetterModal.js:88-90 | the join branch appends the word and widens the sub-line |
| LetterText.PackFinish | components/CoverLetterModal.js:94-97 | the last sub-line is emitted only when it has words |
| LetterText.PackKeepsWords | components/CoverLetterModal.js:79-97 | every word lands in exactly one sub-line, in order and unsplit |
| LetterText.Pack | components/CoverLetterModal.js:79-97 | the greedy sub-lines; LetterText.PackKeepsWords, PackNonEmpty, PackGreedy and PackFits state it |
| LetterText.PackNonEmpty | components/CoverLetterModal.js:83-97 | no sub-line is empty |
| LetterText.LineWidthPush | components/CoverLetterModal.js:90 | `currentLineWidth` is the width of the current words with a space between each two |
| LetterText.PackGreedy | components/CoverLetterModal.js:83 | greedy packing: a sub-line ends only where the next word would not fit after it |
| LetterText.PackGreedyBreak | components/CoverLetterModal.js:83-87 | the same, starting from a break |
| LetterText.PackStartsWith | components/CoverLetterModal.js:86 | the words in hand open the first sub-line |
| LetterText.PackFits | components/CoverLetterModal.js:83 | with words of positive width, every sub-line of two or more words fits within `maxWidth` |
| LetterText.PackFitsBreak | components/CoverLetterModal.js:83-87 | the same, when the next word starts a new sub-line |
| LetterText.PackFitsJoin | components/CoverLetterModal.js:88-90 | the same, when the next word joins the current sub-line |
| LetterText.ConsFits | components/CoverLetterModal.js:83 | a fitting sub-line before fitting sub-lines keeps them all fitting |
| LetterText.LineWidthPositive | components/CoverLetterModal.js:90 | a sub-line of positive-width words has positive width |
| LetterText.LineWidthCoversWord | components/CoverLetterModal.js:90 | a sub-line is at least as wide as any of its words |
| LetterText.LineWidthNonNegative | components/CoverLetterModal.js:90 | widths are never negative |
| LetterText.OverWideAlone | components/CoverLetterModal.js:83-87 | a word wider than `maxWidth` stands alone on its sub-line |
| LetterText.PackEmptyIff | components/CoverLetterModal.js:94 | there are sub-lines exactly when there are words |
| LetterText.XAtPrefix | components/CoverLetterModal.js:71-75 | a word's `x` depends only on the words before it |
| LetterText.LineRightEdge | components/CoverLetterModal.js:71-75 | the last word of a sub-line ends at the side margin plus the sub-line's width |
| LetterText.WordDraws | components/CoverLetterModal.js:70-77 | one text call per word |
| LetterText.SubLineDrawsSnoc | components/CoverLetterModal.js:83-97 | each emitted sub-line adds its calls one body line below the previous |
| LetterText.EmitSubLine | components/CoverLetterModal.js:83-97 | emitting after earlier calls extends them by that sub-line's calls |
| LetterText.SubLineWithinMargins | components/CoverLetterModal.js:70-83 | a sub-line of two or more words ends inside the right margin |
| LetterText.Classify | components/CoverLetterModal.js:110-145 | a mixed-style line contains `**`, a plain line does not, and a name line is the first or last line and shows the trimmed name in capitals |
| LetterText.StyleKind | components/CoverLetterModal.js:128-145 | a non-name line is the strengths heading, a mixed-style line with `**`, or a plain line without it |
| LetterText.ClassifyBlankIff | components/CoverLetterModal.js:115-118 | a line is blank exactly when it is all white space |
| LetterText.MarkedNameIsName | components/CoverLetterModal.js:110-127 | a first line that is the name once `**` is stripped and trimmed is drawn as the name |
| LetterText.MarkedHeadingNotHeading | components/CoverLetterModal.js:113 | a line containing `*` is never the strengths heading |
| LetterText.StartCursor | components/CoverLetterModal.js:52 | drawing starts on one page, with no calls, below the top margin and above the bottom one |
| LetterText.BreakPage | components/CoverLetterModal.js:105-108 | after the check `y` is within the page unless it was already, and no call is made |
| LetterText.DrawLineShape | components/CoverLetterModal.js:115-145 | a line never moves `y` up, draws only on its page, and its first call is at the line's height |
| LetterText.StepPages | components/CoverLetterModal.js:105-108 | a line adds a page exactly when `y` is past the bottom margin before it |
| LetterText.StepDraws | components/CoverLetterModal.js:104-145 | a line only appends calls, the first new one within the page and all on the current page |
| LetterText.SubLineDrawsPage | components/CoverLetterModal.js:84-95 | every sub-line call is on the given page |
| LetterText.SubLineDrawsFirst | components/CoverLetterModal.js:84 | the first sub-line is drawn at the starting height |
| LetterText.WordDrawsShape | components/CoverLetterModal.js:70-77 | all calls of a sub-line share its page and height |
| LetterText.StepBelowTop | components/CoverLetterModal.js:104-145 | `y` never rises within a line and never goes above the top margin |
| LetterText.LayoutPages | components/CoverLetterModal.js:104-108 | the page count grows by at most one per line |
| LetterText.ExtendsTrans | components/CoverLetterModal.js:104 | extending the calls is transitive |
| LetterText.StepExtends | components/CoverLetterModal.js:104-145 | each line keeps the calls made before it |
| LetterText.LayoutKeepsDraws | components/CoverLetterModal.js:104-146 | the whole loop keeps the calls it starts from |
| LetterText.LayoutBelowTop | components/CoverLetterModal.js:104-146 | `y` stays below the top margin through the loop |
| LetterText.LetterPages | components/CoverLetterModal.js:102-146 | a letter has at least one page and at most one more than it has lines |
| LetterText.Layout | components/CoverLetterModal.js:102-146 | the drawing loop over the lines; LetterText.LayoutPages, LayoutKeepsDraws and LayoutBelowTop state it |
| LetterText.Letter | components/CoverLetterModal.js:27-149 | the letter drawn from the start; LetterText.LetterPages states it |
| LetterText.EmptyMixedLine | components/CoverLetterModal.js:94-99 | a mixed-style line with no words draws nothing and leaves `y` |
| LetterText.MixedLineAdvance | components/CoverLetterModal.js:79-99 | a mixed-style line moves `y` by one body line per sub-line, at least one when it has words |
| LetterText.CopyTextClean | components/CoverLetterModal.js:22 | the copied text has no `**` left, and text without `**` is copied unchanged |
| LetterText.CopyText | components/CoverLetterModal.js:22 | `content.replace(/\*\*/g, '')`; LetterText.CopyTextClean states it |
| LetterText.LetterFileNameShape | components/CoverLetterModal.js:148 | the file name is `Carta_Presentacion_` + the name with spaces as `_` + `.pdf`, with no space, and `Carta_Presentacion_CV.pdf` for an empty name |
| LetterText.LetterFileName | components/CoverLetterModal.js:148 | the letter's file name; LetterText.LetterFileNameShape states it |
| LetterText.ReplaceStrongPlain | components/CoverLetterModal.js:154 | text without `**` is shown unchanged |
| LetterText.ReplaceStrong | components/CoverLetterModal.js:154 | `**t**` replaced by `<strong>t</strong>`; LetterText.ReplaceStrongPlain and ReplaceStrongSpan state it |
| LetterText.ReplaceStrongSpan | components/CoverLetterModal.js:154 | a `**t**` span is shown as `<strong>t</strong>` |
| LetterText.ContentElement | components/CoverLetterModal.js:156-162 | a line is a list item exactly when, trimmed, it starts with `-` |
| LetterText.RenderContent | components/CoverLetterModal.js:153-155 | one element per line of the replaced content |
| LetterText.BreakIffBlank | components/CoverLetterModal.js:159-161 | a line is a line break exactly when it is all white space |
| LetterText.ListItemText | components/CoverLetterModal.js:157 | a list item drops a leading `- ` and otherwise keeps the line |
| LetterPdf.LetterDocument.constructor | components/CoverLetterModal.js:29-52 | a new document has one page, no calls, and `y` at the top margin plus the name's font size |
| LetterPdf.LetterDocument.Text | components/CoverLetterModal.js:126-142 | `doc.text` appends one call on the current page and changes nothing else |
| LetterPdf.LetterDocument.RenderLine | components/CoverLetterModal.js:70-77 | the words of a sub-line are drawn left to right, each `x` advanced by the previous word's width and a space |
| LetterPdf.LetterDocument.PushWords | components/CoverLetterModal.js:62 | the words of a part are appended in order with the part's style |
| LetterPdf.LetterDocument.CollectWords | components/CoverLetterModal.js:55-63 | the loop over the parts collects exactly the line's words |
| LetterPdf.LetterDocument.RenderWrappedMixedStyleLine | components/CoverLetterModal.js:54-100 | the line's words are packed and drawn one sub-line per body line, and the returned `y` is one body line per sub-line further down |
| LetterPdf.LetterDocument.PackAndRender | components/CoverLetterModal.js:65-99 | the loop draws exactly the greedy packing of the words, sub-line by sub-line, and returns the height after the last |
| LetterPdf.LetterDocument.AddPageIfNeeded | components/CoverLetterModal.js:105-108 | a page is added and `y` reset to the top margin exactly when `y` is past the bottom margin |
| LetterPdf.LetterDocument.DrawLetterLine | components/CoverLetterModal.js:104-145 | one round of the loop: the page check, then the line drawn by its kind |
| LetterPdf.LetterDocument.DrawKind | components/CoverLetterModal.js:115-145 | half a body line for a blank, the name in capitals at 14 pt, the bold heading, the packed mixed-style words, or the wrapped plain text justified when it spans lines or exceeds 65 characters |
| LetterPdf.LetterDocument.DrawLines | components/CoverLetterModal.js:102-146 | drawing every line in order reaches the state the layout specifies |
| LetterPdf.DownloadLetterPdf | components/CoverLetterModal.js:27-150 | a fresh document holds exactly the letter's layout and is saved under the letter's file name |
| CountryPicker.FirstIndex | components/CountryCodePicker.tsx:18 | the index `find` stops at: the first country that passes, none before it passes, and none at all when absent |
| CountryPicker.SelectedByCode | components/CountryCodePicker.tsx:17-20 | the first country whose code is the current value is the one shown |
| CountryPicker.SelectedCountry | components/CountryCodePicker.tsx:17-20 | the country on the button; CountryPicker.SelectedByCode, SelectedFallsBackToChile and SelectedNoneIff state it |
| CountryPicker.SelectedFallsBackToChile | components/CountryCodePicker.tsx:18 | with no country carrying the code, the first Chilean entry is shown |
| CountryPicker.SelectedNoneIff | components/CountryCodePicker.tsx:17-53 | nothing is selected exactly when no country carries the code and none is Chilean |
| CountryPicker.Filter | components/CountryCodePicker.tsx:35-40 | the filter never adds countries |
| CountryPicker.FilterMembers | components/CountryCodePicker.tsx:36-40 | a country is kept exactly when it is in the table and its lower-case name or iso contains the lower-case term or its code contains the term |
| CountryPicker.FilterSubset | components/CountryCodePicker.tsx:36-40 | the kept countries are a sub-multiset of the table |
| CountryPicker.MatchesEmptyTerm | components/CountryCodePicker.tsx:37-39 | every country passes an empty term |
| CountryPicker.FilterEmptyTerm | components/CountryCodePicker.tsx:14-40 | an empty term keeps the whole table in order |
| CountryPicker.FilteredMembers | components/CountryCodePicker.tsx:34-43 | the list offers exactly the table's matching countries |
| CountryPicker.Filtered | components/CountryCodePicker.tsx:34-43 | the matching countries by name; CountryPicker.FilteredMembers, FilteredSubset, FilteredByName, FilteredStable and FilteredEmptyIff state it |
| CountryPicker.FilteredSubset | components/CountryCodePicker.tsx:34-43 | the list never repeats a country more often than the table holds it |
| CountryPicker.FilteredEmptyTerm | components/CountryCodePicker.tsx:34-43 | an empty term lists the whole table, reordered |
| CountryPicker.FilteredByName | components/CountryCodePicker.tsx:41 | the list is in collation order of the names |
| CountryPicker.FilteredStable | components/CountryCodePicker.tsx:41 | countries whose names collate equally keep their table order |
| CountryPicker.FilteredEmptyIff | components/CountryCodePicker.tsx:34-43 | the list is empty exactly when no country matches |
| CountryPicker.Rows | components/CountryCodePicker.tsx:83-95 | one option per listed country, in order, marked selected exactly when its code is the current value |
| CountryPicker.RenderShape | components/CountryCodePicker.tsx:51-70 | nothing is rendered exactly when no country is selected, and the list is drawn exactly while open |
| CountryPicker.Render | components/CountryCodePicker.tsx:51-103 | the picker; CountryPicker.RenderShape, RenderNoResults and RenderOptions state it |
| CountryPicker.RenderNoResults | components/CountryCodePicker.tsx:96-98 | the "no results" row shows exactly when no country matches, and exactly when there is no option |
| CountryPicker.RenderOptions | components/CountryCodePicker.tsx:83-95 | every option is a matching country of the table, `aria-selected` exactly when its code is the value |
| CountryPicker.PickerState.constructor | components/CountryCodePicker.tsx:13-14 | the picker starts closed with an empty term |
| CountryPicker.PickerState.Toggle | components/CountryCodePicker.tsx:60 | the button flips the list and keeps the term |
| CountryPicker.PickerState.MouseDown | components/CountryCodePicker.tsx:22-32 | a mouse-down outside closes the list, one inside changes nothing |
| CountryPicker.PickerState.Search | components/CountryCodePicker.tsx:77-78 | typing replaces the term and keeps the list open or closed |
| CountryPicker.PickerState.Select | components/CountryCodePicker.tsx:45-49 | choosing reports the country's code, closes the list and clears the term |
| CountryPicker.AfterSelect | components/CountryCodePicker.tsx:45-49 | after a choice the closed button shows the selected country, and reopening would list the whole table |
| SavedCvs.SortedCvsPermutation | components/SavedCVsModal.tsx:22 | the dialog lists every stored CV as often as it is stored |
| SavedCvs.SortedCvs | components/SavedCVsModal.tsx:22 | the stored CVs by recency; SavedCvs.SortedCvsPermutation, SortedCvsNewestFirst and SortedCvsStable state it |
| SavedCvs.SortedCvsNewestFirst | components/SavedCVsModal.tsx:22 | modification times (a missing one as 0) never increase down the list |
| SavedCvs.SortedCvsStable | components/SavedCVsModal.tsx:22 | CVs with the same time keep their stored order |
| SavedCvs.DisplayName | components/SavedCVsModal.tsx:40 | the title is never empty and is the name when one is given |
| SavedCvs.ModifiedText | components/SavedCVsModal.tsx:42 | `Desconocida` when the time is missing or 0, else the locale-formatted time |
| SavedCvs.RenderSavedShape | components/SavedCVsModal.tsx:20-62 | a closed dialog shows nothing; an open one shows the empty message exactly when nothing is stored, else one row per stored CV |
| SavedCvs.RenderSaved | components/SavedCVsModal.tsx:20-62 | the dialog; SavedCvs.RenderSavedShape and RenderSavedRows state it |
| SavedCvs.RenderSavedRows | components/SavedCVsModal.tsx:37-53 | each row shows a stored CV, with its id for the buttons, under a non-empty title, and no row below it is more recent |

## Left out

- Rendering itself is not modelled: html2canvas, the jsPDF page drawing of the CV (App.tsx:363-380), the `doc.html` auto-paging and the settling timeouts. The export is one abstract step that succeeds or fails.
- The preview scaler (App.tsx:83-122) is left out: it uses floating-point `getComputedStyle` measurements, a resize listener and timers.
- Network calls and prompt text are left out: the model's reply is an argument. This covers the prompt branches (the specific-role and company wording of the letter and the description prompts) and the loading flags and `alert` calls around them.
- Text width and wrapping (`doc.getTextWidth`, `doc.splitTextToSize`) are uninterpreted functions. Results about widths assume only that widths are non-negative (and positive where a lemma says so).
- The clock and `Math.random` in new ids are a stamp parameter. No lemma claims ids are unique, because nothing in the code guarantees it.
- `localeCompare` is abstract: the picker sorts by an integer rank of each name. Any total preorder on the finite country table has such a rank.
- `toLocaleString` of the modification time is a formatting parameter.
- The country table (`data/countries.ts`) is not part of this model. Every picker property holds for any table.
- Upper-case mapping covers `a`-`z` and U+00E0-U+00FE except U+00F7; lower-case mapping covers `A`-`Z` and U+00C0-U+00DE except U+00D7. Every other character maps to itself. JavaScript maps more: `toUpperCase` turns `ß` into `SS`, `ÿ` into `Ÿ` and `µ` into `Μ`, and letters beyond Latin-1 as well. White space is the set JavaScript's `trim` and `\s` use.
- CreativeTemplate.TitleCaseLength: the length is kept only under the model's case mapping. In JavaScript a word that starts with `ß` grows by one character (`SS`).
- String lengths count code points, not UTF-16 units. `line.length > 65` in the letter differs only for characters outside the Basic Multilingual Plane.
- The letter checks for a page break only before each line. A paragraph or mixed-style line longer than the space left runs past the bottom margin, as in the code. The model states the page count bound and nothing about text below the margin.
- React mechanics are left out: JSX markup and styling, remounting by key, and effects beyond the picker's mouse-down handler.
- The remaining form handlers are left out: the personal-data and summary setters, template, colour and font-size selection, save/load/delete of stored CVs, and the modal open flags. They are plain field assignments of the document or of the screen state.
- `components/CVForm.tsx` is not part of this model. `addListItem` takes the new entry as an argument and sets only `isCurrent` on it.
- AppState.UpdateListItem: an input whose name is not a field of the item changes nothing in the model. In the code it adds a property the templates never read. This covers a checkbox other than `isCurrent`, and `isCurrent` on a skill or course, whose types have no such field.
- AppState.CvEditor.ReceiveDescription: a reply for an index past the end of the then-current list is dropped. The code writes a bare `{ description }` object at that index, which the templates would show as an entry with empty fields.
- AppState.UpdateListItem: the index must name an existing item. The form calls the handler only for items it renders; the code would otherwise grow the array.
