/** `handleDownloadPdf` of App.tsx: the preview element is reset to its
    unscaled layout, a temporary style sheet (and, for text flow, a
    temporary class) is added, the document is rendered, and in `finally`
    every change is undone, whether the rendering succeeded or threw. The
    rendering itself (html2canvas, jsPDF) is an abstract step whose success
    is a parameter. */
module PdfExport {
  import opened Wrappers
  import opened AppState

  /** The temporary `pdf-adjust-style` sheet: modern and creative nudge
      text by -6px (and icons by 2px) or -7px; text flow widens heading line height. */
  datatype StyleSheet = ModernAdjust | CreativeAdjust | HeadingLineHeight

  /** What the export touches: the preview's inline styles, its parent's
      height (when it has a parent), the style tag with that id in the
      document head, and the temporary class on the preview. */
  datatype SurfaceState = SurfaceState(
    transform: string,
    position: string,
    left: string,
    parentHeight: Option<string>,
    styleTag: Option<StyleSheet>,
    pdfClass: bool)

  /** The style sheet each template gets while rendering. */
  function SheetFor(template: string): (s: StyleSheet)
    ensures s == HeadingLineHeight <==> ExportStrategy(template) == TextFlow
  {
    if template == "modern" then ModernAdjust
    else if template == "creative" then CreativeAdjust
    else HeadingLineHeight
  }

  class PreviewSurface {
    var transform: string
    var position: string
    var left: string
    var parentHeight: Option<string>
    var styleTag: Option<StyleSheet>
    var pdfClass: bool

    function State(): SurfaceState
      reads this
    {
      SurfaceState(transform, position, left, parentHeight, styleTag, pdfClass)
    }

    constructor (s: SurfaceState)
      ensures State() == s
    {
      transform, position, left := s.transform, s.position, s.left;
      parentHeight, styleTag, pdfClass := s.parentHeight, s.styleTag, s.pdfClass;
    }
  }

  /** The layout the renderer sees: unscaled, positioned relative with a
      0.2cm left offset, parent height `auto`, and the template's sheet;
      the text-flow strategy also carries the temporary class. */
  predicate PreparedFor(s: SurfaceState, before: SurfaceState, template: string) {
    && s.transform == "scale(1)" && s.position == "relative" && s.left == "0.2cm"
    && s.parentHeight == (if before.parentHeight.Some? then Some("auto") else None)
    && s.styleTag == Some(SheetFor(template))
    && s.pdfClass == (ExportStrategy(template) == TextFlow || before.pdfClass)
  }

  /** The state after `finally`: the saved inline styles and parent height
      are back, and no style tag with that id and no temporary class remain. */
  function Restored(before: SurfaceState): (s: SurfaceState)
    ensures s.styleTag.None? && !s.pdfClass
  {
    before.(styleTag := None, pdfClass := false)
  }

  datatype Outcome =
    | NoPreview                 // the preview element is missing: nothing happens
    | Saved(fileName: string)   // the PDF was written under this name
    | Failed(message: string)   // rendering threw: the user is alerted

  const ErrorMessage := "Ocurrió un error al generar el PDF."

  /** The export. `renderOk` stands for the rendering step succeeding; the
      returned `seen` is the surface as the renderer saw it. */
  method DownloadPdf(input: PreviewSurface?, template: string, name: string, renderOk: bool)
    returns (outcome: Outcome, seen: SurfaceState)
    modifies input
    ensures input == null ==> outcome == NoPreview
    ensures input != null ==> PreparedFor(seen, old(input.State()), template)
    ensures input != null ==> input.State() == Restored(old(input.State()))
    ensures input != null && renderOk ==> outcome == Saved(ExportFileName(name))
    ensures input != null && !renderOk ==> outcome == Failed(ErrorMessage)
  {
    if input == null {
      return NoPreview, SurfaceState("", "", "", None, None, false);
    }
    var fileName := ExportFileName(name);

    var originalTransform := input.transform;
    var originalParentHeight := input.parentHeight;
    var originalPosition := input.position;
    var originalLeft := input.left;

    input.transform := "scale(1)";
    if input.parentHeight.Some? {
      input.parentHeight := Some("auto");
    }
    input.position := "relative";
    input.left := "0.2cm";

    // try
    if ExportStrategy(template) == Raster {
      input.styleTag := Some(SheetFor(template));
    } else {
      input.styleTag := Some(HeadingLineHeight);
      input.pdfClass := true;
    }
    seen := input.State();
    if renderOk {
      outcome := Saved(fileName);
    } else {
      outcome := Failed(ErrorMessage);
    }

    // finally
    input.transform := originalTransform;
    input.position := originalPosition;
    input.left := originalLeft;
    if input.parentHeight.Some? {
      input.parentHeight := originalParentHeight;
    }
    if input.styleTag.Some? {
      input.styleTag := None;
    }
    if input.pdfClass {
      input.pdfClass := false;
    }
  }

}
