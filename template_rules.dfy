/** Display rules that the three CV templates (Classic, Modern, Creative)
    each define in the same way: URL shortening, the location suffix, the
    phone number, description bullets, the licence line and the visibility
    of the additional-information section. */
module TemplateRules {
  import opened Wrappers
  import opened TextOps
  import opened CvTypes
  import opened StableSort

  // ----- formatUrl -----

  /** `^(https?:\/\/)?`: one optional scheme prefix. */
  function StripScheme(s: string): (r: string)
    ensures |r| <= |s| && r == s[|s| - |r|..]
  {
    if StartsWith(s, "https://") then s[8..]
    else if StartsWith(s, "http://") then s[7..]
    else s
  }

  /** `(www\.)?` right after the scheme. */
  function StripWww(s: string): (r: string)
    ensures |r| <= |s| && r == s[|s| - |r|..]
  {
    if StartsWith(s, "www.") then s[4..] else s
  }

  /** `.replace(/\/$/, '')`: one trailing slash. */
  function StripTrailingSlash(s: string): (r: string)
    ensures |r| <= |s| && r == s[..|r|]
  {
    if s != [] && s[|s| - 1] == '/' then s[..|s| - 1] else s
  }

  /** `formatUrl`: the address as displayed, without scheme, `www.` and a
      trailing slash. */
  function FormatUrl(url: string): (r: string)
    ensures |r| <= |url|
  {
    StripTrailingSlash(StripWww(StripScheme(url)))
  }

  /** The displayed address is always an infix of the address. */
  lemma {:induction false} FormatUrlIsInfix(url: string)
    ensures exists i, j :: 0 <= i <= j <= |url| && FormatUrl(url) == url[i..j]
  {
    var b := StripWww(StripScheme(url));
    var i := |url| - |b|;
    InfixPrefix(url, i, StripTrailingSlash(b));
  }

  /** A prefix of a suffix of `s` is an infix of `s`. */
  lemma {:induction false} InfixPrefix(s: string, i: nat, c: string)
    requires i <= |s| && |c| <= |s| - i && c == s[i..][..|c|]
    ensures exists i', j' :: 0 <= i' <= j' <= |s| && c == s[i'..j']
  {
    SuffixPrefix(s, i, |c|);
  }

  /** The link target built from a shortened address. */
  function HttpsLink(url: string): (href: string)
    ensures StartsWith(href, "https://")
  {
    "https://" + FormatUrl(url)
  }

  datatype Scheme = NoScheme | Http | Https

  function SchemeText(sc: Scheme): string {
    match sc
    case NoScheme => ""
    case Http => "http://"
    case Https => "https://"
  }

  /** An address core that does not start with `p` (and does not end in
      `/`) still does not start with `p` once a trailing slash is added. */
  lemma {:induction false} CoreTailNoPrefix(core: string, slash: bool, p: string)
    requires |p| >= 2 && !StartsWith(core, p)
    requires core == [] || core[|core| - 1] != '/'
    requires p[|p| - 1] != '/' || p[|p| - 2] == '/'
    ensures !StartsWith(core + (if slash then "/" else ""), p)
  {
    var t := core + (if slash then "/" else "");
    if |t| >= |p| {
      if |core| >= |p| {
        assert t[..|p|] == core[..|p|];
      } else {
        assert t[|p| - 1] == '/';
        if p[|p| - 1] != '/' {
          assert t[..|p|][|p| - 1] != p[|p| - 1];
        } else {
          assert t[..|p|][|p| - 2] == core[|core| - 1];
        }
      }
    }
  }

  lemma {:induction false} StripSchemeOf(sc: Scheme, b: string)
    requires sc == NoScheme ==> !StartsWith(b, "http://") && !StartsWith(b, "https://")
    ensures StripScheme(SchemeText(sc) + b) == b
  {
    var url := SchemeText(sc) + b;
    match sc {
      case NoScheme =>
        assert url == b;
      case Http =>
        assert url[..7] == "http://";
        if |url| >= 8 { assert url[..8][4] == ':'; }
        assert url[7..] == b;
      case Https =>
        assert url[..8] == "https://";
        assert url[8..] == b;
    }
  }

  function WwwText(www: bool): string {
    if www then "www." else ""
  }

  function SlashText(slash: bool): string {
    if slash then "/" else ""
  }

  /** A well-formed core, with or without `www.` in front and a slash after,
      does not start with a scheme. */
  lemma {:induction false} NoSchemeInside(www: bool, core: string, slash: bool)
    requires !StartsWith(core, "http://") && !StartsWith(core, "https://")
    requires core == [] || core[|core| - 1] != '/'
    ensures var b := WwwText(www) + (core + SlashText(slash));
      !StartsWith(b, "http://") && !StartsWith(b, "https://")
  {
    var b := WwwText(www) + (core + SlashText(slash));
    if www {
      if |b| >= 7 { assert b[..7][0] == 'w'; }
      if |b| >= 8 { assert b[..8][0] == 'w'; }
    } else {
      assert b == core + SlashText(slash);
      CoreTailNoPrefix(core, slash, "http://");
      CoreTailNoPrefix(core, slash, "https://");
    }
  }

  lemma {:induction false} StripWwwOf(www: bool, core: string, slash: bool)
    requires !StartsWith(core, "www.")
    requires core == [] || core[|core| - 1] != '/'
    ensures StripWww(WwwText(www) + (core + SlashText(slash))) == core + SlashText(slash)
  {
    var ct := core + SlashText(slash);
    var b := WwwText(www) + ct;
    if www {
      assert b[..4] == "www." && b[4..] == ct;
    } else {
      assert b == ct;
      CoreTailNoPrefix(core, slash, "www.");
    }
  }

  lemma {:induction false} StripSlashOf(core: string, slash: bool)
    requires core == [] || core[|core| - 1] != '/'
    ensures StripTrailingSlash(core + SlashText(slash)) == core
  {
    if slash {
      assert (core + "/")[..|core|] == core;
    } else {
      assert core + "" == core;
    }
  }

  /** Every way of writing an address around its core shortens to the core:
      any scheme, with or without `www.` and a trailing slash. */
  lemma {:induction false} FormatUrlRecoversCore(sc: Scheme, www: bool, core: string, slash: bool)
    requires !StartsWith(core, "http://") && !StartsWith(core, "https://")
    requires !StartsWith(core, "www.")
    requires core == [] || core[|core| - 1] != '/'
    ensures FormatUrl(SchemeText(sc) + WwwText(www) + core + SlashText(slash)) == core
  {
    var ct := core + SlashText(slash);
    var b := WwwText(www) + ct;
    assert SchemeText(sc) + WwwText(www) + core + SlashText(slash) == SchemeText(sc) + b;
    NoSchemeInside(www, core, slash);
    StripSchemeOf(sc, b);
    StripWwwOf(www, core, slash);
    StripSlashOf(core, slash);
  }

  // ----- locations and phone -----

  /** `formatLocation`: `", "` followed by the non-empty ones of city and
      country joined by `", "`; nothing when both are empty. */
  function FormatLocation(city: string, country: string): (r: string)
    ensures city == [] && country == [] ==> r == []
    ensures city != [] && country == [] ==> r == ", " + city
    ensures city == [] && country != [] ==> r == ", " + country
    ensures city != [] && country != [] ==> r == ", " + city + ", " + country
  {
    var location := JoinNonEmpty2(city, country, ", ");
    if location != [] then ", " + location else ""
  }

  /** `fullPhoneNumber`: the non-empty ones of country code and number,
      joined by a space. */
  function FullPhoneNumber(p: PersonalData): (r: string)
    ensures r == [] <==> p.phoneCountryCode == [] && p.phoneNumber == []
    ensures p.phoneCountryCode != [] && p.phoneNumber != [] ==> r == p.phoneCountryCode + " " + p.phoneNumber
    ensures p.phoneCountryCode == [] ==> r == p.phoneNumber
    ensures p.phoneNumber == [] ==> r == p.phoneCountryCode
  {
    JoinNonEmpty2(p.phoneCountryCode, p.phoneNumber, " ")
  }

  /** `telLink`: the phone number without white space, after `tel:`. */
  function TelHref(p: PersonalData): (href: string)
    ensures StartsWith(href, "tel:")
    ensures forall i :: 4 <= i < |href| ==> !IsSpace(href[i])
  {
    var digits := RemoveSpaces(FullPhoneNumber(p));
    assert forall i :: 0 <= i < |digits| ==> digits[i] in digits;
    "tel:" + digits
  }

  // ----- dates -----

  /** The words that mean "still ongoing" in `formatExpDate` and `getYear`. */
  predicate IsPresenteWord(w: string) {
    w == "presente" || w == "actualmente"
  }

  /** The normalised form the templates compare: trimmed and lower-cased. */
  function Normalize(s: string): (r: string)
    ensures |r| <= |s|
  {
    ToLower(Trim(s))
  }

  /** `formatExpDate(month, year)` with the separator the template uses. */
  function FormatExpDate(month: string, year: string, sep: string): (r: string)
    ensures year == [] ==> r == []
    ensures year != [] && IsPresenteWord(Normalize(year)) ==> r == "Presente"
    ensures year != [] && !IsPresenteWord(Normalize(year)) ==>
              r == (if month == [] then year else month + sep + year)
  {
    if year == [] then ""
    else if IsPresenteWord(Normalize(year)) then "Presente"
    else JoinNonEmpty2(month, year, sep)
  }

  /** A string ending in a digit is never one of the "ongoing" words once
      normalised, since it still ends in that digit. */
  lemma {:induction false} NormalizeEndsInDigit(s: string)
    requires EndsInDigit(s)
    ensures !IsPresenteWord(Normalize(s))
    ensures Normalize(s) != "present"
  {
    NormalizeLastDigit(s);
    DigitEndIsNoWord(Normalize(s));
  }

  predicate EndsInDigit(s: string) {
    s != [] && IsDigit(s[|s| - 1])
  }

  /** Normalising keeps a final digit last. */
  lemma {:induction false} NormalizeLastDigit(s: string)
    requires EndsInDigit(s)
    ensures EndsInDigit(Normalize(s))
  {
    DigitCase(s[|s| - 1]);
    var t := TrimStart(s);
    TrimStartKeepsLast(s);
    DigitCase(t[|t| - 1]);
    TrimEndNoSpace(t);
    LowerEndsInDigit(Trim(s));
  }

  lemma {:induction false} LowerEndsInDigit(t: string)
    requires EndsInDigit(t)
    ensures EndsInDigit(ToLower(t))
  {
    DigitCase(t[|t| - 1]);
  }

  /** A digit is not white space and has no lower-case form. */
  lemma {:induction false} DigitCase(c: char)
    requires IsDigit(c)
    ensures !IsSpace(c) && LowerChar(c) == c
  {
  }

  lemma {:induction false} DigitEndIsNoWord(n: string)
    requires EndsInDigit(n)
    ensures !IsPresenteWord(n)
    ensures n != "present"
  {
  }

  /** The order key of an entry for `sortByDate`: end year first, then start year. */
  function DateKey<T>(year: string -> int, startDate: T -> string, endDate: T -> string): T -> Key {
    x => Key(year(endDate(x)), year(startDate(x)))
  }

  /** `[...list].sort(sortByDate)` for a template whose `getYear` is `year`:
      a reordered copy, by end year and then start year, larger first. */
  function SortByDate<T>(xs: seq<T>, year: string -> int, startDate: T -> string, endDate: T -> string)
    : (r: seq<T>)
    ensures multiset(r) == multiset(xs)
    ensures Descending(r, DateKey(year, startDate, endDate))
  {
    var key := DateKey(year, startDate, endDate);
    SortPermutation(xs, key);
    SortDescending(xs, key);
    SortByKey(xs, key)
  }

  /** Entries with equal end and start years keep their input order. */
  lemma {:induction false} SortByDateStable<T>(xs: seq<T>, year: string -> int, startDate: T -> string, endDate: T -> string,
                            k: Key)
    ensures var key := DateKey(year, startDate, endDate);
      WithKey(SortByDate(xs, year, startDate, endDate), key, k) == WithKey(xs, key, k)
  {
    SortStable(xs, DateKey(year, startDate, endDate), k);
  }

  /** Sorting leaves a list as long as it was, so a section shown for a
      non-empty list is shown after sorting too. */
  lemma {:induction false} SortByDateLength<T>(xs: seq<T>, year: string -> int, startDate: T -> string, endDate: T -> string)
    ensures |SortByDate(xs, year, startDate, endDate)| == |xs|
  {
    var r := SortByDate(xs, year, startDate, endDate);
    assert |multiset(r)| == |multiset(xs)|;
  }

  function ExperienceStart(e: ExperienceEntry): string { e.startDate }
  function ExperienceEnd(e: ExperienceEntry): string { e.endDate }
  function EducationStart(e: EducationEntry): string { e.startDate }
  function EducationEnd(e: EducationEntry): string { e.endDate }

  /** A string with a non-space first character normalises to a non-empty
      string starting with that character in lower case. */
  lemma {:induction false} NormalizeKeepsFirst(u: string)
    requires u != [] && !IsSpace(u[0])
    ensures Normalize(u) != [] && Normalize(u)[0] == LowerChar(u[0])
  {
    TrimStartNoSpace(u);
    TrimEndKeepsFirst(u);
  }

  /** `formatUrl` of a bare scheme is empty. */
  lemma {:induction false} FormatUrlBareScheme()
    ensures FormatUrl("https://") == []
  {
    assert StartsWith("https://", "https://");
  }

  /** In a list ordered by `DateKey`, an entry whose end year is larger than
      another's comes first, whatever their start years. */
  lemma {:induction false} LaterEndFirst<T>(s: seq<T>, year: string -> int, startDate: T -> string, endDate: T -> string,
                         i: int, j: int)
    requires Descending(s, DateKey(year, startDate, endDate))
    requires 0 <= i < |s| && 0 <= j < |s|
    requires year(endDate(s[j])) > year(endDate(s[i]))
    ensures j < i
  {
    var key := DateKey(year, startDate, endDate);
    assert Above(key(s[j]), key(s[i]));
  }

  // ----- description bullets -----

  /** `.replace(/^•\s*\/, '')`: a leading bullet and the white space after it. */
  function StripBullet(line: string): (r: string)
    ensures line == [] || line[0] != '•' ==> r == line
    ensures line != [] && line[0] == '•' ==> r == TrimStart(line[1..])
  {
    if line != [] && line[0] == '•' then TrimStart(line[1..]) else line
  }

  /** The test the templates apply before rendering a line as a list item. */
  predicate KeepsBullet(line: string) {
    StripBullet(Trim(line)) != []
  }

  /** A line is kept exactly when, once trimmed, it is neither empty nor a lone bullet. */
  lemma {:induction false} KeepsBulletIff(line: string)
    ensures KeepsBullet(line) <==> Trim(line) != [] && Trim(line) != "•"
  {
    var t := Trim(line);
    TrimIsInfix(line);
    if t != [] && t[0] == '•' && t != "•" {
      assert |t| >= 2;
      var u := t[1..];
      assert u[|u| - 1] == t[|t| - 1];
      TrimStartSpec(u);
      assert u[..|u|] == u;
    }
  }

  /** The list items of a description: one per kept line, in order, with
      the leading bullet removed from the untrimmed line. */
  function BulletItems(lines: seq<string>): (items: seq<string>)
    ensures |items| <= |lines|
  {
    if lines == [] then []
    else (if KeepsBullet(lines[0]) then [StripBullet(lines[0])] else []) + BulletItems(lines[1..])
  }

  /** `description.split('\n')` rendered as list items. */
  function DescriptionBullets(description: string): (items: seq<string>) {
    BulletItems(Split(description, '\n'))
  }

  /** Every line with its leading bullet removed, kept or not. */
  function StrippedLines(lines: seq<string>): (r: seq<string>)
    ensures |r| == |lines|
    ensures forall i :: 0 <= i < |lines| ==> r[i] == StripBullet(lines[i])
  {
    if lines == [] then [] else [StripBullet(lines[0])] + StrippedLines(lines[1..])
  }

  /** Every item is the bullet-stripped form of one of the lines, and no
      line yields more than one item. */
  lemma {:induction false} BulletItemsFromLines(lines: seq<string>)
    ensures multiset(BulletItems(lines)) <= multiset(StrippedLines(lines))
  {
    if lines != [] {
      BulletItemsFromLines(lines[1..]);
      var head := if KeepsBullet(lines[0]) then [StripBullet(lines[0])] else [];
      assert BulletItems(lines) == head + BulletItems(lines[1..]);
      assert StrippedLines(lines) == [StripBullet(lines[0])] + StrippedLines(lines[1..]);
      assert multiset(head) <= multiset([StripBullet(lines[0])]);
    }
  }

  /** A kept line is never lost (by `KeepsBulletIff`: a line that is neither
      blank nor a lone bullet). */
  lemma {:induction false} BulletItemsKeepLine(lines: seq<string>, i: nat)
    requires i < |lines| && KeepsBullet(lines[i])
    ensures StripBullet(lines[i]) in BulletItems(lines)
  {
    var head := if KeepsBullet(lines[0]) then [StripBullet(lines[0])] else [];
    var rest := BulletItems(lines[1..]);
    assert BulletItems(lines) == head + rest;
    if i == 0 {
      assert head[0] == StripBullet(lines[0]);
    } else {
      assert lines[i] == lines[1..][i - 1];
      BulletItemsKeepLine(lines[1..], i - 1);
    }
  }

  /** An empty description has no items. */
  lemma {:induction false} EmptyDescriptionNoBullets()
    ensures DescriptionBullets("") == []
  {
    assert Split("", '\n') == [""];
    assert Trim("") == [];
  }

  // ----- driving licence -----

  /** Position of a class in `LICENSE_CLASSES` order. */
  function ClassRank(c: LicenseClass): (k: nat)
    ensures k < 10
  {
    match c
    case A1 => 0 case A2 => 1 case A3 => 2 case A4 => 3 case A5 => 4
    case B => 5 case C => 6 case D => 7 case E => 8 case F => 9
  }

  /** `ClassRank` numbers the classes as `LICENSE_CLASSES` lists them. */
  lemma {:induction false} ClassRankIsPosition()
    ensures forall i :: 0 <= i < 10 ==> ClassRank(AllLicenseClasses()[i]) == i
  {
    var all := AllLicenseClasses();
    assert all == [A1, A2, A3, A4, A5, B, C, D, E, F];
  }

  /** The classes of `cs` whose flag is set, in the order of `cs`. */
  function SelectIn(cs: seq<LicenseClass>, dl: DrivingLicenseData): (r: seq<LicenseClass>)
    ensures forall c :: c in r <==> c in cs && Flag(dl, c)
  {
    if cs == [] then []
    else (if Flag(dl, cs[0]) then [cs[0]] else []) + SelectIn(cs[1..], dl)
  }

  predicate RankIncreasing(cs: seq<LicenseClass>) {
    forall i, j :: 0 <= i < j < |cs| ==> ClassRank(cs[i]) < ClassRank(cs[j])
  }

  /** Selecting keeps the order of the classes. */
  lemma {:induction false} SelectInOrdered(cs: seq<LicenseClass>, dl: DrivingLicenseData)
    requires RankIncreasing(cs)
    ensures RankIncreasing(SelectIn(cs, dl))
  {
    if cs != [] {
      var tail := cs[1..];
      assert RankIncreasing(tail) by {
        forall i, j | 0 <= i < j < |tail| ensures ClassRank(tail[i]) < ClassRank(tail[j]) {
          assert tail[i] == cs[i + 1] && tail[j] == cs[j + 1];
        }
      }
      SelectInOrdered(tail, dl);
      var rest := SelectIn(tail, dl);
      forall c | c in rest ensures ClassRank(cs[0]) < ClassRank(c) {
        var j :| 0 <= j < |tail| && tail[j] == c;
        assert cs[j + 1] == c;
      }
      var r := SelectIn(cs, dl);
      if Flag(dl, cs[0]) {
        forall i, j | 0 <= i < j < |r| ensures ClassRank(r[i]) < ClassRank(r[j]) {
          assert r[j] == rest[j - 1];
          if i > 0 {
            assert r[i] == rest[i - 1];
          } else {
            assert rest[j - 1] in rest;
          }
        }
      }
    }
  }

  /** `allSelectedLicenses`: the set flags, in `LICENSE_CLASSES` order
      (A1..A5, B, C, D, E, F), each once. */
  function SelectedLicenses(dl: DrivingLicenseData): (r: seq<LicenseClass>)
    ensures forall c :: c in r <==> Flag(dl, c)
    ensures RankIncreasing(r)
  {
    var all := AllLicenseClasses();
    ClassRankIsPosition();
    SelectInOrdered(all, dl);
    SelectIn(all, dl)
  }

  /** `hasLicenses`: the licence box is ticked and some class is selected. */
  predicate HasLicenses(d: CVData) {
    d.hasDrivingLicense && |SelectedLicenses(d.drivingLicense)| > 0
  }

  lemma {:induction false} HasLicensesIff(d: CVData)
    ensures HasLicenses(d) <==> d.hasDrivingLicense && exists c :: Flag(d.drivingLicense, c)
  {
    var r := SelectedLicenses(d.drivingLicense);
    if |r| > 0 {
      assert r[0] in r;
    }
    if exists c :: Flag(d.drivingLicense, c) {
      var c :| Flag(d.drivingLicense, c);
      assert c in r;
    }
  }

  /** `hasAdditionalInfo`: the training / licence section is shown. */
  predicate HasAdditionalInfo(d: CVData) {
    |d.complementaryTraining| > 0 || HasLicenses(d)
  }

  /** The printed names of some classes, in the same order. */
  function ClassNames(cs: seq<LicenseClass>): (names: seq<string>)
    ensures |names| == |cs|
    ensures forall i :: 0 <= i < |cs| ==> names[i] == ClassName(cs[i])
  {
    seq(|cs|, i requires 0 <= i < |cs| => ClassName(cs[i]))
  }

  /** The licence text: `Clase ` + the selected classes, in `LICENSE_CLASSES`
      order, joined by `", "` + `", Chile"`. */
  function LicenseLine(dl: DrivingLicenseData): (r: string)
    ensures StartsWith(r, "Clase ") && EndsWith(r, ", Chile")
    ensures r == "Clase " + Join(ClassNames(SelectedLicenses(dl)), ", ") + ", Chile"
  {
    var names := ClassNames(SelectedLicenses(dl));
    var r := "Clase " + Join(names, ", ") + ", Chile";
    assert r[..6] == "Clase ";
    assert r[|r| - 7..] == ", Chile";
    r
  }

  /** Every ticked class is named on the licence line. */
  lemma {:induction false} LicenseLineNames(dl: DrivingLicenseData, c: LicenseClass)
    requires Flag(dl, c)
    ensures Contains(LicenseLine(dl), ClassName(c))
  {
    var sel := SelectedLicenses(dl);
    var i :| 0 <= i < |sel| && sel[i] == c;
    var names := ClassNames(sel);
    JoinOccurs(names, ", ", i);
    var j := Join(names, ", ");
    var k :| OccursAt(j, names[i], k);
    OccursInMiddle("Clase ", j, ", Chile", ClassName(c), k);
    ContainsIff(LicenseLine(dl), ClassName(c));
  }

  /** The licence paragraph, present only under `hasLicenses`. */
  function LicenseBlock(d: CVData): (r: Option<string>)
    ensures r.Some? <==> d.hasDrivingLicense && exists c :: Flag(d.drivingLicense, c)
    ensures r.Some? ==> r.value == LicenseLine(d.drivingLicense)
  {
    HasLicensesIff(d);
    if HasLicenses(d) then Some(LicenseLine(d.drivingLicense)) else None
  }

  /** Unticking the licence box hides the licence whatever the flags. */
  lemma {:induction false} NoLicenseWithoutBox(d: CVData)
    requires !d.hasDrivingLicense
    ensures !HasLicenses(d)
    ensures HasAdditionalInfo(d) <==> |d.complementaryTraining| > 0
  {
  }

  // ----- contact entries -----

  /** One contact entry: the text shown and the link it opens, if any. */
  datatype Contact = Contact(text: string, href: Option<string>)

  /** `[field && entry, ...].filter(Boolean)`: the entries whose guarding
      field is non-empty, in order. */
  function KeepPresent(cands: seq<(string, Contact)>): (items: seq<Contact>)
    ensures |items| <= |cands|
  {
    if cands == [] then []
    else (if cands[0].0 != [] then [cands[0].1] else []) + KeepPresent(cands[1..])
  }

  /** An entry is kept whenever its field is non-empty, and nothing is left
      exactly when every field is empty. */
  lemma {:induction false} KeepPresentSpec(cands: seq<(string, Contact)>)
    ensures forall i :: 0 <= i < |cands| && cands[i].0 != [] ==> cands[i].1 in KeepPresent(cands)
    ensures KeepPresent(cands) == [] <==> forall i :: 0 <= i < |cands| ==> cands[i].0 == []
  {
    if cands != [] {
      KeepPresentSpec(cands[1..]);
      forall i | 1 <= i < |cands| ensures cands[i] == cands[1..][i - 1] {
      }
    }
  }

  /** Of five candidates, nothing is kept exactly when all five fields are empty. */
  lemma {:induction false} KeepFiveEmpty(f0: string, f1: string, f2: string, f3: string, f4: string,
                                         c0: Contact, c1: Contact, c2: Contact, c3: Contact, c4: Contact)
    ensures KeepPresent([(f0, c0), (f1, c1), (f2, c2), (f3, c3), (f4, c4)]) == [] <==>
      f0 == [] && f1 == [] && f2 == [] && f3 == [] && f4 == []
  {
    var cands := [(f0, c0), (f1, c1), (f2, c2), (f3, c3), (f4, c4)];
    KeepPresentEmpty(cands);
    assert cands[0].0 == f0 && cands[1].0 == f1 && cands[2].0 == f2 && cands[3].0 == f3 && cands[4].0 == f4;
    if f0 == [] && f1 == [] && f2 == [] && f3 == [] && f4 == [] {
      forall i | 0 <= i < |cands| ensures cands[i].0 == [] {
        if i == 0 {
        } else if i == 1 {
        } else if i == 2 {
        } else if i == 3 {
        } else {
          assert i == 4;
        }
      }
    }
  }

  /** Nothing is kept exactly when every field is empty. */
  lemma {:induction false} KeepPresentEmpty(cands: seq<(string, Contact)>)
    ensures KeepPresent(cands) == [] <==> forall i :: 0 <= i < |cands| ==> cands[i].0 == []
  {
    if cands != [] {
      KeepPresentEmpty(cands[1..]);
      forall i | 1 <= i < |cands| ensures cands[i] == cands[1..][i - 1] {
      }
    }
  }

  /** `items.filter(item => item.text)`, and what a component that returns
      `null` for an empty text leaves on the page: the entries with text. */
  function KeepWithText(items: seq<Contact>): (r: seq<Contact>)
    ensures |r| <= |items|
    ensures forall c :: c in r <==> c in items && c.text != []
  {
    if items == [] then []
    else (if items[0].text != [] then [items[0]] else []) + KeepWithText(items[1..])
  }
}
