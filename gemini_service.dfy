/** services/geminiService.ts without the network: the client cache that
    `initializeAi` fills and `getAiClient` reads, the paths that answer
    without calling the model, the clean-up of the model's reply, and the
    mapping of every failure to the message the caller shows. The model's
    reply is an oracle: `Ok(text)` for `response.text`, `Err(message)` for
    a call that threw. */
module GeminiService {
  import opened Wrappers
  import opened TextOps
  import opened CvTypes
  import opened JsNumber
  import opened TemplateRules
  import opened AppState

  const MissingKey := "API Key is required to initialize the AI service."
  const NotInitialised := "El servicio de IA no se ha inicializado. Por favor, configura tu API Key primero."
  const SummaryFailed := "Failed to generate summary from Gemini API."
  const ExtractFormatting :=
    "La IA no pudo procesar el CV. Asegúrate de que el texto esté bien formateado e inténtalo de nuevo."
  const ExtractFailed := "No se pudo extraer la información del CV."
  const GenerateFailed := "No se pudo generar la descripción desde la API de Gemini."
  const ImproveFailed := "No se pudo mejorar la descripción desde la API de Gemini."
  const LetterFailed := "Failed to generate cover letter from Gemini API."
  const DefaultSummary :=
    "Profesional proactivo y con gran capacidad de aprendizaje, buscando una oportunidad para aplicar mis habilidades y crecer profesionalmente. Listo para contribuir al éxito del equipo y de la empresa."

  // ----- the client cache -----

  /** A client instance: the key it was built with and which construction it was. */
  datatype Client = Client(key: string, serial: nat)

  /** The module-level `ai` and `currentKey`; `created` counts the clients built. */
  class AiClientCache {
    var ai: Option<Client>
    var currentKey: Option<string>
    var created: nat

    /** A client exists exactly when a key is recorded, and it was built with that key. */
    predicate Valid()
      reads this
    {
      (ai.Some? <==> currentKey.Some?) && (ai.Some? ==> ai.value.key == currentKey.value)
    }

    constructor ()
      ensures ai.None? && currentKey.None? && created == 0 && Valid()
    {
      ai, currentKey, created := None, None, 0;
    }

    /** `initializeAi`: an empty key throws and changes nothing; a key
        different from the recorded one builds a new client; the same key
        again keeps the client it has. */
    method InitializeAi(apiKey: string) returns (r: Result<()>)
      requires Valid()
      modifies this
      ensures Valid()
      ensures apiKey == [] ==> r == Err(MissingKey) && ai == old(ai) && currentKey == old(currentKey) && created == old(created)
      ensures apiKey != [] ==> r.Ok? && currentKey == Some(apiKey)
      ensures apiKey != [] && old(currentKey) == Some(apiKey) ==> ai == old(ai) && created == old(created)
      ensures apiKey != [] && old(currentKey) != Some(apiKey) ==>
                ai == Some(Client(apiKey, old(created))) && created == old(created) + 1
    {
      if apiKey == [] {
        return Err(MissingKey);
      }
      if currentKey != Some(apiKey) {
        ai := Some(Client(apiKey, created));
        created := created + 1;
        currentKey := Some(apiKey);
      }
      r := Ok(());
    }

    /** `getAiClient`: the client, or the "not initialised" error until one exists. */
    method GetAiClient() returns (r: Result<Client>)
      requires Valid()
      ensures r.Ok? <==> currentKey.Some?
      ensures r.Ok? ==> r.value.key == currentKey.value
      ensures r.Err? ==> r.message == NotInitialised
    {
      if ai.None? {
        return Err(NotInitialised);
      }
      r := Ok(ai.value);
    }
  }

  // ----- line normaliser -----

  predicate IsBullet(c: char) {
    c == '-' || c == '•' || c == '*'
  }

  /** `line.trim().replace(/^[-•*]\s*\/, '')`: the trimmed line without one
      leading bullet and the white space after it. */
  function NormalizeLine(line: string): string {
    var t := Trim(line);
    if t != [] && IsBullet(t[0]) then TrimStart(t[1..]) else t
  }

  /** A normalised line does not start with white space. */
  lemma {:induction false} NormalizeLineStart(line: string)
    ensures NormalizeLine(line) == [] || !IsSpace(NormalizeLine(line)[0])
  {
    var t := Trim(line);
    TrimIsInfix(line);
    if t != [] && IsBullet(t[0]) {
      TrimStartSpec(t[1..]);
    }
  }

  lemma {:induction false} TailChars(t: string, c: char)
    requires t != [] && c in t[1..]
    ensures c in t
  {
  }

  /** The normalised line is cut out of the line: it has no character the line lacks. */
  lemma {:induction false} NormalizeLineChars(line: string, c: char)
    requires c in NormalizeLine(line)
    ensures c in line
  {
    var t := Trim(line);
    if t != [] && IsBullet(t[0]) {
      TrimStartChars(t[1..], c);
      TailChars(t, c);
    }
    TrimChars(line, c);
  }

  /** A bullet, some white space and a trimmed text normalise to that text. */
  lemma {:induction false} NormalizeBullet(b: char, ws: string, t: string)
    requires IsBullet(b) && AllSpace(ws)
    requires t != [] && !IsSpace(t[0]) && !IsSpace(t[|t| - 1])
    ensures NormalizeLine([b] + (ws + t)) == t
  {
    var rest := ws + t;
    var line := [b] + rest;
    assert line[|line| - 1] == t[|t| - 1];
    TrimWhole(line);
    assert line[1..] == rest;
    TrimStartOfSpaces(ws, t);
    TrimStartNoSpace(t);
  }

  function NormalizeEach(lines: seq<string>): (r: seq<string>)
    ensures |r| == |lines|
    ensures forall k :: 0 <= k < |r| ==> r[k] == NormalizeLine(lines[k])
  {
    if lines == [] then [] else [NormalizeLine(lines[0])] + NormalizeEach(lines[1..])
  }

  /** The lines that survive `.filter(Boolean)`. */
  function NormalizedLines(text: string): seq<string> {
    NonEmpty(NormalizeEach(Split(text, '\n')))
  }

  /** `text.split('\n').map(normaliseLine).filter(Boolean).join('\n')`. */
  function Normalize(text: string): string {
    Join(NormalizedLines(text), "\n")
  }

  /** The surviving lines are non-empty, start with no white space, hold no
      line break, and are no more than the lines of the input. */
  lemma {:induction false} NormalizedLinesShape(text: string)
    ensures var r := NormalizedLines(text);
      && |r| <= |Split(text, '\n')|
      && (forall k :: 0 <= k < |r| ==> r[k] != [] && !IsSpace(r[k][0]) && '\n' !in r[k])
  {
    var parts := Split(text, '\n');
    var m := NormalizeEach(parts);
    var r := NonEmpty(m);
    forall k | 0 <= k < |r| ensures r[k] != [] && !IsSpace(r[k][0]) && '\n' !in r[k] {
      assert r[k] in m;
      var i :| 0 <= i < |m| && m[i] == r[k];
      NormalizeLineStart(parts[i]);
      assert '\n' !in parts[i];
      if '\n' in r[k] {
        NormalizeLineChars(parts[i], '\n');
      }
    }
  }

  /** Reading the normalised text line by line gives back the surviving lines. */
  lemma {:induction false} NormalizeLines(text: string)
    requires NormalizedLines(text) != []
    ensures Split(Normalize(text), '\n') == NormalizedLines(text)
  {
    NormalizedLinesShape(text);
    SplitJoin(NormalizedLines(text), '\n');
  }

  // ----- the exported functions, past `getAiClient` -----

  /** `generateSummary`: without experience, education and a summary the
      default paragraph comes back with no call; otherwise the trimmed
      reply, and any failure (an empty reply included) is the generic error. */
  function GenerateSummary(ready: bool, experience: seq<ExperienceEntry>, education: seq<EducationEntry>,
                           existingSummary: string, reply: Result<string>): (r: Result<string>)
    ensures !ready ==> r == Err(NotInitialised)
    ensures ready && experience == [] && education == [] && existingSummary == [] ==> r == Ok(DefaultSummary)
    ensures r.Ok? && r.value != DefaultSummary ==> reply.Ok? && r.value == Trim(reply.value)
    ensures ready && r.Err? ==> r.message == SummaryFailed
    ensures r.Ok? ==> r.value != []
    ensures ready && !(experience == [] && education == [] && existingSummary == []) ==>
              (r.Ok? <==> reply.Ok? && Trim(reply.value) != [])
              && (r.Ok? ==> r.value == Trim(reply.value))
  {
    if !ready then Err(NotInitialised)
    else if experience == [] && education == [] && existingSummary == [] then Ok(DefaultSummary)
    else
      match reply
      case Err(_) => Err(SummaryFailed)
      case Ok(text) => if Trim(text) == [] then Err(SummaryFailed) else Ok(Trim(text))
  }

  /** The extraction's error mapping: a message that contains `json`
      (lower case, as `includes` compares) is a formatting problem. */
  function ExtractErrorMessage(message: string): (m: string)
    ensures m == ExtractFormatting <==> Contains(message, "json")
    ensures m == ExtractFailed <==> !Contains(message, "json")
  {
    if Contains(message, "json") then ExtractFormatting else ExtractFailed
  }

  /** `extractDataFromCV`: the trimmed reply parsed by `parse`
      (`JSON.parse`); an empty reply, a failed call and a failed parse all
      go through the error mapping. */
  function ExtractData(ready: bool, reply: Result<string>, parse: string -> Result<Extracted>): (r: Result<Extracted>)
    ensures !ready ==> r == Err(NotInitialised)
    ensures ready && r.Err? ==> r.message == ExtractFormatting || r.message == ExtractFailed
    ensures r.Ok? ==> reply.Ok? && Trim(reply.value) != [] && parse(Trim(reply.value)) == r
    ensures ready && reply.Err? ==> r == Err(ExtractErrorMessage(reply.message))
    ensures ready && reply.Ok? && Trim(reply.value) == [] ==> r == Err(ExtractFailed)
    ensures ready && reply.Ok? && Trim(reply.value) != [] ==>
              r == match parse(Trim(reply.value))
                   case Ok(x) => Ok(x)
                   case Err(m) => Err(ExtractErrorMessage(m))
  {
    if !ready then Err(NotInitialised)
    else
      match reply
      case Err(m) => Err(ExtractErrorMessage(m))
      case Ok(text) =>
        var t := Trim(text);
        if t == [] then EmptyResponseMessage(); Err(ExtractErrorMessage("Gemini returned an empty response."))
        else
          match parse(t)
          case Ok(x) => Ok(x)
          case Err(m) => Err(ExtractErrorMessage(m))
  }

  /** An empty reply is reported as a failed extraction, not as a formatting problem. */
  lemma {:induction false} EmptyReplyNotFormatting(text: string, parse: string -> Result<Extracted>)
    requires AllSpace(text)
    ensures ExtractData(true, Ok(text), parse) == Err(ExtractFailed)
  {
    TrimEmptyIffAllSpace(text);
    EmptyResponseMessage();
  }

  lemma {:induction false} EmptyResponseMessage()
    ensures ExtractErrorMessage("Gemini returned an empty response.") == ExtractFailed
  {
    var e: string := "Gemini returned an empty response.";
    assert 'j' !in e;
    ContainsNeedsFirst(e, "json");
  }

  /** The comparison is case-sensitive: a parser message that spells `JSON`
      in capitals is not a formatting problem... */
  lemma {:induction false} CapitalJsonNotFormatting()
    ensures ExtractErrorMessage("Unexpected token in JSON") == ExtractFailed
  {
    var u: string := "Unexpected token in JSON";
    assert 'j' !in u;
    ContainsNeedsFirst(u, "json");
  }

  /** ...while one that says `json` is. */
  lemma {:induction false} LowerJsonFormatting()
    ensures ExtractErrorMessage("bad json") == ExtractFormatting
  {
    var b: string := "bad json";
    assert OccursAt(b, "json", 4);
    ContainsIff(b, "json");
  }

  /** `generateDescription`: the normalised reply; any failure is the generic error. */
  function GenerateDescription(ready: bool, reply: Result<string>): (r: Result<string>)
    ensures !ready ==> r == Err(NotInitialised)
    ensures ready && r.Err? ==> r.message == GenerateFailed
    ensures r.Ok? <==> ready && reply.Ok? && Trim(reply.value) != []
    ensures r.Ok? ==> r.value == Normalize(Trim(reply.value))
  {
    if !ready then Err(NotInitialised)
    else
      match reply
      case Err(_) => Err(GenerateFailed)
      case Ok(text) => if Trim(text) == [] then Err(GenerateFailed) else Ok(Normalize(Trim(text)))
  }

  /** Which list the description belongs to. */
  datatype Context = ExperienceContext | TrainingContext

  /** `improveDescription`: blank text gives `""` without a call; the reply
      is normalised for experience and only trimmed for training. */
  function ImproveDescription(ready: bool, text: string, context: Context, reply: Result<string>): (r: Result<string>)
    ensures !ready ==> r == Err(NotInitialised)
    ensures ready && Trim(text) == [] ==> r == Ok("")
    ensures ready && r.Err? ==> r.message == ImproveFailed
    ensures (r.Ok? && Trim(text) != []) <==> ready && Trim(text) != [] && reply.Ok? && Trim(reply.value) != []
    ensures r.Ok? && Trim(text) != [] && context == TrainingContext ==> r.value == Trim(reply.value)
    ensures r.Ok? && Trim(text) != [] && context == ExperienceContext ==> r.value == Normalize(Trim(reply.value))
  {
    if !ready then Err(NotInitialised)
    else if Trim(text) == [] then Ok("")
    else
      match reply
      case Err(_) => Err(ImproveFailed)
      case Ok(out) =>
        var t := Trim(out);
        if t == [] then Err(ImproveFailed)
        else if context == ExperienceContext then Ok(Normalize(t))
        else Ok(t)
  }

  /** Whitespace-only text is answered with `""` whatever the model would say. */
  lemma {:induction false} ImproveBlankText(text: string, context: Context, reply: Result<string>)
    requires AllSpace(text)
    ensures ImproveDescription(true, text, context, reply) == Ok("")
  {
    TrimEmptyIffAllSpace(text);
  }

  /** A single line without a line break normalises like `NormalizeLine`. */
  lemma {:induction false} NormalizeOneLine(line: string)
    requires '\n' !in line && NormalizeLine(line) != []
    ensures Normalize(line) == NormalizeLine(line)
  {
    SplitFree(line, '\n');
    var m := NormalizeEach([line]);
    assert m == [NormalizeLine(line)];
    assert NonEmpty(m[1..]) == [];
    assert NonEmpty(m) == m;
  }

  /** A training description comes back with its bullet... */
  lemma {:induction false} ImproveKeepsTrainingBullet(text: string, t: string)
    requires Trim(text) != []
    requires t != [] && !IsSpace(t[0]) && !IsSpace(t[|t| - 1])
    ensures ImproveDescription(true, text, TrainingContext, Ok("- " + t)) == Ok("- " + t)
  {
    var line := "- " + t;
    assert line[|line| - 1] == t[|t| - 1];
    TrimWhole(line);
  }

  /** A one-line `- ` item is trimmed to itself and normalised to its text. */
  lemma {:induction false} DashLine(t: string)
    requires t != [] && !IsSpace(t[0]) && !IsSpace(t[|t| - 1]) && '\n' !in t
    ensures Trim("- " + t) == "- " + t && Normalize("- " + t) == t
  {
    var line := "- " + t;
    assert line[|line| - 1] == t[|t| - 1];
    TrimWhole(line);
    DashLineNormalizes(t, line);
  }

  lemma {:induction false} DashLineNormalizes(t: string, line: string)
    requires t != [] && !IsSpace(t[0]) && !IsSpace(t[|t| - 1]) && '\n' !in t
    requires line == ['-'] + (" " + t)
    ensures Normalize(line) == t
  {
    DashAndSpace();
    NormalizeBullet('-', " ", t);
    DashLineOneLine(t);
    NormalizeOneLine(line);
  }

  lemma {:induction false} DashAndSpace()
    ensures IsBullet('-') && AllSpace(" ")
  {
  }

  lemma {:induction false} DashLineOneLine(t: string)
    requires '\n' !in t
    ensures '\n' !in ['-'] + (" " + t)
  {
    assert ['-'] + (" " + t) == "- " + t;
    assert forall c :: c in "- " ==> c != '\n';
  }

  lemma {:induction false} ImproveTrimmedReply(text: string, line: string)
    requires Trim(text) != [] && line != [] && Trim(line) == line
    ensures ImproveDescription(true, text, ExperienceContext, Ok(line)) == Ok(Normalize(line))
  {
  }

  /** ...while an experience one loses it. */
  lemma {:induction false} ImproveStripsExperienceBullet(text: string, t: string)
    requires Trim(text) != []
    requires t != [] && !IsSpace(t[0]) && !IsSpace(t[|t| - 1]) && '\n' !in t
    ensures ImproveDescription(true, text, ExperienceContext, Ok("- " + t)) == Ok(t)
  {
    DashLine(t);
    ImproveTrimmedReply(text, "- " + t);
  }

  // ----- cover letter -----

  /** `CoverLetterPromptData`: the form of the cover-letter request. */
  datatype CoverLetterRequest = CoverLetterRequest(
    jobTitle: string, isGeneralApplication: bool, companyName: string, isCompanyUnknown: bool,
    recipientName: string, isRecipientUnknown: bool)

  /** The greeting names the recipient only when one is given and known. */
  function Greeting(req: CoverLetterRequest): (g: string)
    ensures !req.isRecipientUnknown && req.recipientName != [] ==> g == "Estimado/a " + req.recipientName + ":"
    ensures req.isRecipientUnknown || req.recipientName == [] ==> g == "Estimados/as señores/as:"
  {
    if !req.isRecipientUnknown && req.recipientName != [] then "Estimado/a " + req.recipientName + ":"
    else "Estimados/as señores/as:"
  }

  /** The phone the letter quotes: the same rule as the templates' phone line. */
  lemma {:induction false} LetterPhone(p: PersonalData)
    ensures FullPhoneNumber(p) == [] <==> p.phoneCountryCode == [] && p.phoneNumber == []
    ensures p.phoneNumber == [] ==> FullPhoneNumber(p) == p.phoneCountryCode
    ensures p.phoneCountryCode == [] ==> FullPhoneNumber(p) == p.phoneNumber
    ensures p.phoneCountryCode != [] && p.phoneNumber != [] ==>
              FullPhoneNumber(p) == p.phoneCountryCode + " " + p.phoneNumber
  {
  }

  /** `generateCoverLetter`: the trimmed reply, or the generic error. */
  function GenerateCoverLetter(ready: bool, reply: Result<string>): (r: Result<string>)
    ensures !ready ==> r == Err(NotInitialised)
    ensures r.Ok? <==> ready && reply.Ok? && Trim(reply.value) != []
    ensures r.Ok? ==> r.value == Trim(reply.value)
    ensures ready && r.Err? ==> r.message == LetterFailed
  {
    if !ready then Err(NotInitialised)
    else
      match reply
      case Err(_) => Err(LetterFailed)
      case Ok(text) => if Trim(text) == [] then Err(LetterFailed) else Ok(Trim(text))
  }
}
