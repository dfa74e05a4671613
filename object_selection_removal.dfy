/** The single-document Photoshop script: guard against a missing document,
    switch to RGB, find a selection (the existing one, Object Selection, Select
    Subject, or one made by hand), remove what is not selected, trim, and save a
    PNG copy under a name that ends in `.png`.

    Photoshop is a `Photoshop` object holding the few parts of its state the
    script changes and the trace of the calls it makes; whether each call
    throws, and what each read of the selection bounds yields, is given by a
    `Responses` record. */
module ObjectSelectionRemoval {
  import opened Text

  /** Photoshop's document colour modes. */
  datatype Mode = Bitmap | Grayscale | Duotone | IndexedColor | Rgb | Cmyk | Lab | Multichannel

  /** A selection's bounds: left, top, right, bottom. */
  datatype Bounds = Bounds(left: int, top: int, right: int, bottom: int)

  /** One read of `doc.selection.bounds`: it throws (no selection at all) or
      yields bounds. */
  datatype Probe = Throws | Read(bounds: Bounds)

  /** A file as `File.saveDialog` returns it: its folder and its name. */
  datatype SaveFile = SaveFile(path: string, name: string)

  /** What the save dialog returns: nothing (cancelled) or a file. */
  datatype Dialog = Dismissed | Chosen(file: SaveFile)

  /** The alerts the script shows. The text of a caught exception is not
      modelled. */
  datatype Message = NoDocumentOpen | NoSelectionDetected | CouldNotRemove | SavedAs(name: string) | ErrorMessage

  /** The calls the script makes, in the order it makes them. */
  datatype Action =
    | Alert(message: Message)
    | ChangeModeToRgb        // doc.changeMode(ChangeMode.RGB)
    | ReadBounds             // doc.selection.bounds
    | SelectObjectTool       // executeAction "slct" objectSelectionTool
    | SelectAllObjects       // executeAction "selectObject" allObjects
    | SelectSubject          // executeAction "selectSubject"
    | Confirm                // confirm(...) asking for a selection by hand
    | Invert                 // doc.selection.invert()
    | Clear                  // doc.selection.clear()
    | Deselect               // doc.selection.deselect()
    | MakeMask               // executeAction "Mk  " layer mask from the selection
    | Trim                   // doc.trim(TrimType.TRANSPARENT, ...)
    | SaveDialog             // File.saveDialog("Save PNG file", "*.png")
    | SaveAs(file: SaveFile) // doc.saveAs(file, pngOptions, true, ...)

  /** How the host answers each call of one run of the script, call site by
      call site. */
  datatype Responses = Responses(
    changeModeThrows: bool,
    existing: Probe,          // bounds read before any selection method
    toolThrows: bool,
    selectAllThrows: bool,
    afterObjects: Probe,      // bounds read after Object Selection
    subjectThrows: bool,
    afterSubject: Probe,      // bounds read after Select Subject
    proceed: bool,            // OK (true) or Cancel (false) on the prompt
    afterPrompt: Probe,       // bounds read after the prompt
    invertThrows: bool,
    clearThrows: bool,
    deselectThrows: bool,
    reinvertThrows: bool,     // the fallback's own invert
    maskThrows: bool,
    trimThrows: bool,
    dialog: Dialog,
    saveThrows: bool)

  /** How `main()` ends. `Failed` is an exception caught by the outer handler. */
  datatype Ending = NoDocument | Cancelled | NoSelection | NotSaved | Saved(file: SaveFile) | Failed

  /** How the script came by its selection, or why it has none. */
  datatype Acquired = Existing | ByObjects | BySubject | ByHand | PromptCancelled | NoneMade

  /** The bounds test of the script: neither side is degenerate. */
  predicate NonEmpty(b: Bounds)
  {
    b.left != b.right && b.top != b.bottom
  }

  /** A read that throws counts as no selection. */
  predicate HasSelection(p: Probe)
  {
    p.Read? && NonEmpty(p.bounds)
  }

  /** Object Selection, lines 50-66: pick the tool, select all objects, read the
      bounds; a throw leaves the rest of the block out. Each `...Log` function
      extends the calls made so far, `log`, with those of one part of the script. */
  function ObjectsLog(log: seq<Action>, a: Responses): seq<Action>
  {
    if a.toolThrows then log + [SelectObjectTool]
    else if a.selectAllThrows then log + [SelectObjectTool] + [SelectAllObjects]
    else log + [SelectObjectTool] + [SelectAllObjects] + [ReadBounds]
  }

  predicate ObjectsSelected(a: Responses)
  {
    !a.toolThrows && !a.selectAllThrows && HasSelection(a.afterObjects)
  }

  /** Select Subject, lines 70-76, then a read of the bounds. */
  function SubjectLog(log: seq<Action>, a: Responses): seq<Action>
  {
    if a.subjectThrows then log + [SelectSubject] else log + [SelectSubject] + [ReadBounds]
  }

  predicate SubjectSelected(a: Responses)
  {
    !a.subjectThrows && HasSelection(a.afterSubject)
  }

  /** The prompt, lines 81-98: on OK a read of the bounds and, without a
      selection, an alert. */
  function PromptLog(log: seq<Action>, a: Responses): seq<Action>
  {
    if !a.proceed then log + [Confirm]
    else if HasSelection(a.afterPrompt) then log + [Confirm] + [ReadBounds]
    else log + [Confirm] + [ReadBounds] + [Alert(NoSelectionDetected)]
  }

  /** How the prompt ends. */
  function PromptResult(a: Responses): Acquired
  {
    if !a.proceed then PromptCancelled else if HasSelection(a.afterPrompt) then ByHand else NoneMade
  }

  /** The fallback chain of lines 37-100: how the selection is obtained. */
  function Acquisition(a: Responses): Acquired
  {
    if HasSelection(a.existing) then Existing
    else if ObjectsSelected(a) then ByObjects
    else if SubjectSelected(a) then BySubject
    else PromptResult(a)
  }

  /** The calls of the fallback chain: a read of the existing selection, then
      each method only while no selection has been made. */
  function AcquireLog(log: seq<Action>, a: Responses): seq<Action>
  {
    var l0 := log + [ReadBounds];
    if HasSelection(a.existing) then l0
    else
      var l1 := ObjectsLog(l0, a);
      if ObjectsSelected(a) then l1
      else
        var l2 := SubjectLog(l1, a);
        if SubjectSelected(a) then l2 else PromptLog(l2, a)
  }

  predicate Selected(q: Acquired)
  {
    q != PromptCancelled && q != NoneMade
  }

  /** One of invert, clear, deselect threw. */
  predicate BlockThrew(a: Responses)
  {
    a.invertThrows || a.clearThrows || a.deselectThrows
  }

  /** The layer-mask fallback: invert again, make a mask; an alert if either throws. */
  function FallbackLog(log: seq<Action>, a: Responses): seq<Action>
  {
    if a.reinvertThrows then log + [Invert] + [Alert(CouldNotRemove)]
    else if a.maskThrows then log + [Invert] + [MakeMask] + [Alert(CouldNotRemove)]
    else log + [Invert] + [MakeMask]
  }

  /** Lines 105-128: invert, clear, deselect, and the fallback if one of them throws. */
  function RemovalLog(log: seq<Action>, a: Responses): seq<Action>
  {
    if a.invertThrows then FallbackLog(log + [Invert], a)
    else if a.clearThrows then FallbackLog(log + [Invert] + [Clear], a)
    else if a.deselectThrows then FallbackLog(log + [Invert] + [Clear] + [Deselect], a)
    else log + [Invert] + [Clear] + [Deselect]
  }

  /** Number of inverts that took effect during removal. */
  function RemovalInversions(a: Responses): nat
  {
    (if a.invertThrows then 0 else 1) + (if BlockThrew(a) && !a.reinvertThrows then 1 else 0)
  }

  predicate MaskAdded(a: Responses)
  {
    BlockThrew(a) && !a.reinvertThrows && !a.maskThrows
  }

  /** `name` matches `/\.png$/i`. */
  predicate EndsWithPng(name: string)
  {
    |name| >= 4 && Lower(name[|name| - 4..]) == ".png"
  }

  /** Lines 144-146: append `.png` unless the name already ends with it. */
  function PngFile(f: SaveFile): SaveFile
  {
    if EndsWithPng(f.name) then f else SaveFile(f.path, f.name + ".png")
  }

  /** Lines 139-154: the dialog, then the save and its alert. */
  function SaveLog(log: seq<Action>, a: Responses): seq<Action>
  {
    match a.dialog
    case Dismissed => log + [SaveDialog]
    case Chosen(f) =>
      log + [SaveDialog] + [SaveAs(PngFile(f))] + [Alert(if a.saveThrows then ErrorMessage else SavedAs(PngFile(f).name))]
  }

  /** The mode switch is attempted and throws. */
  predicate ModeFails(mode: Mode, a: Responses)
  {
    mode != Rgb && a.changeModeThrows
  }

  /** The script gets past the mode switch. */
  predicate Started(documents: nat, mode: Mode, a: Responses)
  {
    documents > 0 && !ModeFails(mode, a)
  }

  /** The script gets as far as removing the background. */
  predicate Removes(documents: nat, mode: Mode, a: Responses)
  {
    Started(documents, mode, a) && Selected(Acquisition(a))
  }

  /** Every call of one run of the script, appended to `log`. */
  function ScriptLog(log: seq<Action>, documents: nat, mode: Mode, a: Responses): seq<Action>
  {
    if documents == 0 then log + [Alert(NoDocumentOpen)]
    else if ModeFails(mode, a) then log + [ChangeModeToRgb] + [Alert(ErrorMessage)]
    else SessionLog(if mode != Rgb then log + [ChangeModeToRgb] else log, a)
  }

  /** The calls after the mode switch: obtain a selection and, with one, remove
      the background, trim and save. */
  function SessionLog(log: seq<Action>, a: Responses): seq<Action>
  {
    var l := AcquireLog(log, a);
    if !Selected(Acquisition(a)) then l else SaveLog(RemovalLog(l, a) + [Trim], a)
  }

  /** The calls of one run of the script on its own: the same list `ScriptLog`
      appends, stated without an earlier log (`ScriptLogAppends` proves
      `ScriptLog(log, ...) == log + Trace(...)`). The lemmas about a run are
      stated over `Trace`. */
  function Trace(documents: nat, mode: Mode, a: Responses): seq<Action>
  {
    if documents == 0 then [Alert(NoDocumentOpen)]
    else if ModeFails(mode, a) then [ChangeModeToRgb, Alert(ErrorMessage)]
    else SessionLog(ModeLog(mode), a)
  }

  /** The mode switch, when the mode is not RGB. */
  function ModeLog(mode: Mode): seq<Action>
  {
    if mode != Rgb then [ChangeModeToRgb] else []
  }

  /** How one run of the script ends, as a reference definition. */
  function Outcome(documents: nat, mode: Mode, a: Responses): Ending
  {
    if documents == 0 then NoDocument
    else if ModeFails(mode, a) then Failed
    else match Acquisition(a)
      case PromptCancelled => Cancelled
      case NoneMade => NoSelection
      case _ =>
        match a.dialog
        case Dismissed => NotSaved
        case Chosen(f) => if a.saveThrows then Failed else Saved(PngFile(f))
  }

  class Photoshop {
    /** `app.documents.length`. */
    var documents: nat
    /** The active document's mode. */
    var mode: Mode
    /** How many times the selection has been inverted. */
    var inversions: nat
    /** How many layer masks have been added. */
    var masks: nat
    /** Every call made so far. */
    var log: seq<Action>

    constructor (documents: nat, mode: Mode)
      ensures this.documents == documents && this.mode == mode
      ensures inversions == 0 && masks == 0 && log == []
    {
      this.documents := documents;
      this.mode := mode;
      inversions := 0;
      masks := 0;
      log := [];
    }

    /** Makes call `act`, which throws when `throws` holds; a call that throws
        has no effect. Only a mode change, an invert and a mask change the
        modelled state. */
    method Perform(act: Action, throws: bool) returns (threw: bool)
      modifies this
      ensures threw == throws
      ensures log == old(log) + [act] && documents == old(documents)
      ensures mode == if !throws && act == ChangeModeToRgb then Rgb else old(mode)
      ensures inversions == old(inversions) + if !throws && act == Invert then 1 else 0
      ensures masks == old(masks) + if !throws && act == MakeMask then 1 else 0
    {
      log := log + [act];
      threw := throws;
      if !throws {
        match act
        case ChangeModeToRgb => mode := Rgb;
        case Invert => inversions := inversions + 1;
        case MakeMask => masks := masks + 1;
        case _ =>
      }
    }

    /** Reads the selection bounds; `p` is what the host answers. */
    method SelectionBounds(p: Probe) returns (present: bool)
      modifies this
      ensures present == HasSelection(p)
      ensures log == old(log) + [ReadBounds]
      ensures documents == old(documents) && mode == old(mode)
      ensures inversions == old(inversions) && masks == old(masks)
    {
      log := log + [ReadBounds];
      present := HasSelection(p);
    }
  }

  /** Lines 50-66, Object Selection. */
  method TryObjects(ps: Photoshop, a: Responses) returns (made: bool)
    modifies ps
    ensures made == ObjectsSelected(a)
    ensures ps.log == ObjectsLog(old(ps.log), a)
    ensures ps.documents == old(ps.documents) && ps.mode == old(ps.mode)
    ensures ps.inversions == old(ps.inversions) && ps.masks == old(ps.masks)
  {
    made := false;
    var threw := ps.Perform(SelectObjectTool, a.toolThrows);
    if !threw {
      threw := ps.Perform(SelectAllObjects, a.selectAllThrows);
      if !threw {
        made := ps.SelectionBounds(a.afterObjects);
      }
    }
  }

  /** Lines 70-76, Select Subject. */
  method TrySubject(ps: Photoshop, a: Responses) returns (made: bool)
    modifies ps
    ensures made == SubjectSelected(a)
    ensures ps.log == SubjectLog(old(ps.log), a)
    ensures ps.documents == old(ps.documents) && ps.mode == old(ps.mode)
    ensures ps.inversions == old(ps.inversions) && ps.masks == old(ps.masks)
  {
    made := false;
    var threw := ps.Perform(SelectSubject, a.subjectThrows);
    if !threw {
      made := ps.SelectionBounds(a.afterSubject);
    }
  }

  /** Lines 81-98: ask the user for a selection. */
  method AskUser(ps: Photoshop, a: Responses) returns (q: Acquired)
    modifies ps
    ensures q == PromptResult(a)
    ensures ps.log == PromptLog(old(ps.log), a)
    ensures ps.documents == old(ps.documents) && ps.mode == old(ps.mode)
    ensures ps.inversions == old(ps.inversions) && ps.masks == old(ps.masks)
  {
    var _ := ps.Perform(Confirm, false);
    if !a.proceed {
      return PromptCancelled;
    }
    var made := ps.SelectionBounds(a.afterPrompt);
    if !made {
      var _ := ps.Perform(Alert(NoSelectionDetected), false);
      return NoneMade;
    }
    q := ByHand;
  }

  /** Lines 37-100: keep an existing selection, else try Object Selection, then
      Select Subject, then ask the user. */
  method AcquireSelection(ps: Photoshop, a: Responses) returns (q: Acquired)
    modifies ps
    ensures q == Acquisition(a)
    ensures ps.log == AcquireLog(old(ps.log), a)
    ensures ps.documents == old(ps.documents) && ps.mode == old(ps.mode)
    ensures ps.inversions == old(ps.inversions) && ps.masks == old(ps.masks)
  {
    var hasSelection := ps.SelectionBounds(a.existing);
    if hasSelection {
      return Existing;
    }
    var selectionMade := TryObjects(ps, a);
    if selectionMade {
      return ByObjects;
    }
    selectionMade := TrySubject(ps, a);
    if selectionMade {
      return BySubject;
    }
    q := AskUser(ps, a);
  }

  /** Lines 105-128: invert, clear, deselect; if any throws, invert again and
      add a layer mask, with an alert if that throws too. */
  method RemoveBackground(ps: Photoshop, a: Responses)
    modifies ps
    ensures ps.log == RemovalLog(old(ps.log), a)
    ensures ps.inversions == old(ps.inversions) + RemovalInversions(a)
    ensures ps.masks == old(ps.masks) + if MaskAdded(a) then 1 else 0
    ensures ps.documents == old(ps.documents) && ps.mode == old(ps.mode)
  {
    var threw := ps.Perform(Invert, a.invertThrows);
    if !threw {
      threw := ps.Perform(Clear, a.clearThrows);
      if !threw {
        threw := ps.Perform(Deselect, a.deselectThrows);
      }
    }
    if threw {
      var failed := ps.Perform(Invert, a.reinvertThrows);
      if !failed {
        failed := ps.Perform(MakeMask, a.maskThrows);
      }
      if failed {
        var _ := ps.Perform(Alert(CouldNotRemove), false);
      }
    }
  }

  /** Lines 139-154: ask for a file, force the `.png` suffix, save a copy and
      report it; a throwing save goes to the outer handler. */
  method SaveResult(ps: Photoshop, a: Responses) returns (end: Ending)
    modifies ps
    ensures ps.log == SaveLog(old(ps.log), a)
    ensures end == match a.dialog
                   case Dismissed => NotSaved
                   case Chosen(f) => if a.saveThrows then Failed else Saved(PngFile(f))
    ensures ps.documents == old(ps.documents) && ps.mode == old(ps.mode)
    ensures ps.inversions == old(ps.inversions) && ps.masks == old(ps.masks)
  {
    var _ := ps.Perform(SaveDialog, false);
    if a.dialog.Dismissed? {
      return NotSaved;
    }
    var saveFile := a.dialog.file;
    if !EndsWithPng(saveFile.name) {
      saveFile := SaveFile(saveFile.path, saveFile.name + ".png");
    }
    var threw := ps.Perform(SaveAs(saveFile), a.saveThrows);
    if threw {
      var _ := ps.Perform(Alert(ErrorMessage), false);
      return Failed;
    }
    var _ := ps.Perform(Alert(SavedAs(saveFile.name)), false);
    end := Saved(saveFile);
  }

  /** Lines 36-154, after the mode switch: obtain a selection and, with one,
      remove the background, trim and save. */
  method Session(ps: Photoshop, a: Responses) returns (end: Ending)
    modifies ps
    ensures end == match Acquisition(a)
                   case PromptCancelled => Cancelled
                   case NoneMade => NoSelection
                   case _ => match a.dialog
                     case Dismissed => NotSaved
                     case Chosen(f) => if a.saveThrows then Failed else Saved(PngFile(f))
    ensures ps.log == SessionLog(old(ps.log), a)
    ensures ps.documents == old(ps.documents) && ps.mode == old(ps.mode)
    ensures ps.inversions == old(ps.inversions) + if Selected(Acquisition(a)) then RemovalInversions(a) else 0
    ensures ps.masks == old(ps.masks) + if Selected(Acquisition(a)) && MaskAdded(a) then 1 else 0
  {
    var q := AcquireSelection(ps, a);
    if q == PromptCancelled {
      return Cancelled;
    }
    if q == NoneMade {
      return NoSelection;
    }
    RemoveBackground(ps, a);
    // a failed trim is ignored
    var _ := ps.Perform(Trim, a.trimThrows);
    end := SaveResult(ps, a);
  }

  /** `main()`. */
  method RunScript(ps: Photoshop, a: Responses) returns (end: Ending)
    modifies ps
    ensures end == Outcome(old(ps.documents), old(ps.mode), a)
    ensures ps.log == ScriptLog(old(ps.log), old(ps.documents), old(ps.mode), a)
    ensures ps.documents == old(ps.documents)
    ensures ps.mode == if old(ps.documents) > 0 && old(ps.mode) != Rgb && !a.changeModeThrows then Rgb else old(ps.mode)
    ensures ps.inversions == old(ps.inversions) +
              if Removes(old(ps.documents), old(ps.mode), a) then RemovalInversions(a) else 0
    ensures ps.masks == old(ps.masks) +
              if Removes(old(ps.documents), old(ps.mode), a) && MaskAdded(a) then 1 else 0
    ensures end.Saved? ==> EndsWithPng(end.file.name)
  {
    if ps.documents == 0 {
      var _ := ps.Perform(Alert(NoDocumentOpen), false);
      return NoDocument;
    }
    if ps.mode != Rgb {
      var threw := ps.Perform(ChangeModeToRgb, a.changeModeThrows);
      if threw {
        var _ := ps.Perform(Alert(ErrorMessage), false);
        return Failed;
      }
    }
    end := Session(ps, a);
    if a.dialog.Chosen? {
      PngFileEndsWithPng(a.dialog.file);
    }
  }

  /** The bounds test holds exactly when the selection's area is not zero. */
  lemma NonEmptyIffArea(b: Bounds)
    ensures NonEmpty(b) <==> (b.right - b.left) * (b.bottom - b.top) != 0
  {
    var w, h := b.right - b.left, b.bottom - b.top;
    if w != 0 && h != 0 {
      ProductNonZero(w, h);
    }
  }

  lemma ProductNonZero(x: int, y: int)
    requires x != 0 && y != 0
    ensures x * y != 0
  {
    var ax, ay := if x < 0 then -x else x, if y < 0 then -y else y;
    ProductPositive(ax, ay);
    assert x * y == ax * ay || x * y == -(ax * ay);
  }

  lemma {:induction false} ProductPositive(x: nat, y: nat)
    requires x > 0 && y > 0
    ensures x * y > 0
  {
    if x > 1 {
      ProductPositive(x - 1, y);
      assert x * y == (x - 1) * y + y;
    }
  }

  /** The name saved always ends in `.png`, in any case; a name that already
      does is kept, any other gets `.png` appended in the same folder. */
  lemma PngFileEndsWithPng(f: SaveFile)
    ensures EndsWithPng(PngFile(f).name)
    ensures PngFile(f).path == f.path
    ensures EndsWithPng(f.name) ==> PngFile(f) == f
    ensures !EndsWithPng(f.name) ==> PngFile(f).name == f.name + ".png"
  {
    if !EndsWithPng(f.name) {
      var n := f.name + ".png";
      assert n[|n| - 4..] == ".png";
    }
  }

  /** Normalising twice is normalising once. */
  lemma PngFileIdempotent(f: SaveFile)
    ensures PngFile(PngFile(f)) == PngFile(f)
  {
    PngFileEndsWithPng(f);
  }

  /** `photo.PNG` is kept; `photo.jpg` becomes `photo.jpg.png`. */
  lemma PngFileExamples(path: string)
    ensures PngFile(SaveFile(path, "photo.PNG")) == SaveFile(path, "photo.PNG")
    ensures PngFile(SaveFile(path, "photo.jpg")) == SaveFile(path, "photo.jpg.png")
  {
    assert "photo.PNG"[5..] == ".PNG";
    assert "photo.jpg"[5..] == ".jpg";
    assert Lower(".jpg")[1] == 'j';
  }

  /** The script only appends to the calls made before it. */
  lemma ScriptLogAppends(log: seq<Action>, documents: nat, mode: Mode, a: Responses)
    ensures ScriptLog(log, documents, mode, a) == log + Trace(documents, mode, a)
  {
    if documents > 0 && !ModeFails(mode, a) {
      assert (if mode != Rgb then log + [ChangeModeToRgb] else log) == log + ModeLog(mode);
      SessionLogAppends(log, ModeLog(mode), a);
    }
  }

  lemma SessionLogAppends(log: seq<Action>, m: seq<Action>, a: Responses)
    ensures SessionLog(log + m, a) == log + SessionLog(m, a)
  {
    AcquireLogAppends(log, m, a);
    if Selected(Acquisition(a)) {
      var l := AcquireLog(m, a);
      RemovalLogAppends(log, l, a);
      assert RemovalLog(log + l, a) + [Trim] == log + (RemovalLog(l, a) + [Trim]);
      SaveLogAppends(log, RemovalLog(l, a) + [Trim], a);
    }
  }

  lemma AcquireLogAppends(log: seq<Action>, m: seq<Action>, a: Responses)
    ensures AcquireLog(log + m, a) == log + AcquireLog(m, a)
  {
    assert log + m + [ReadBounds] == log + (m + [ReadBounds]);
    var l0 := m + [ReadBounds];
    assert ObjectsLog(log + l0, a) == log + ObjectsLog(l0, a);
    var l1 := ObjectsLog(l0, a);
    assert SubjectLog(log + l1, a) == log + SubjectLog(l1, a);
    var l2 := SubjectLog(l1, a);
    assert PromptLog(log + l2, a) == log + PromptLog(l2, a);
  }

  lemma RemovalLogAppends(log: seq<Action>, m: seq<Action>, a: Responses)
    ensures RemovalLog(log + m, a) == log + RemovalLog(m, a)
  {
    var i, ic, icd := m + [Invert], m + [Invert] + [Clear], m + [Invert] + [Clear] + [Deselect];
    assert log + m + [Invert] == log + i;
    assert log + m + [Invert] + [Clear] == log + ic;
    assert log + m + [Invert] + [Clear] + [Deselect] == log + icd;
    assert FallbackLog(log + i, a) == log + FallbackLog(i, a);
    assert FallbackLog(log + ic, a) == log + FallbackLog(ic, a);
    assert FallbackLog(log + icd, a) == log + FallbackLog(icd, a);
  }

  lemma SaveLogAppends(log: seq<Action>, m: seq<Action>, a: Responses)
    ensures SaveLog(log + m, a) == log + SaveLog(m, a)
  {
  }

  /** No document: one alert and nothing else. */
  lemma NoDocumentOnlyAlerts(mode: Mode, a: Responses)
    ensures Trace(0, mode, a) == [Alert(NoDocumentOpen)] && Outcome(0, mode, a) == NoDocument
  {
  }

  /** None of the three selection methods is among the calls `l`. */
  predicate NoSelectionCalls(l: seq<Action>)
  {
    SelectObjectTool !in l && SelectSubject !in l && Confirm !in l
  }

  /** Removal, trim and saving call none of the selection methods. */
  lemma AfterSelectionCalls(l: seq<Action>, a: Responses)
    ensures NoSelectionCalls(SaveLog(RemovalLog(l, a) + [Trim], a)) <==> NoSelectionCalls(l)
  {
  }

  /** Which selection methods the fallback chain calls. */
  lemma AcquireCalls(l: seq<Action>, a: Responses)
    requires NoSelectionCalls(l)
    ensures SelectObjectTool in AcquireLog(l, a) <==> !HasSelection(a.existing)
    ensures SelectSubject in AcquireLog(l, a) <==> !HasSelection(a.existing) && !ObjectsSelected(a)
    ensures Confirm in AcquireLog(l, a) <==>
              !HasSelection(a.existing) && !ObjectsSelected(a) && !SubjectSelected(a)
  {
    var l0 := l + [ReadBounds];
    if !HasSelection(a.existing) {
      var l1 := ObjectsLog(l0, a);
      assert SelectObjectTool in l1 && SelectSubject !in l1 && Confirm !in l1;
      if !ObjectsSelected(a) {
        var l2 := SubjectLog(l1, a);
        assert SelectSubject in l2 && Confirm !in l2;
        if !SubjectSelected(a) {
          assert Confirm in PromptLog(l2, a);
        }
      }
    }
  }

  /** Which selection methods a session calls. */
  lemma SessionCalls(m: seq<Action>, a: Responses)
    requires NoSelectionCalls(m)
    ensures SelectObjectTool in SessionLog(m, a) <==> !HasSelection(a.existing)
    ensures SelectSubject in SessionLog(m, a) <==> !HasSelection(a.existing) && !ObjectsSelected(a)
    ensures Confirm in SessionLog(m, a) <==>
              !HasSelection(a.existing) && !ObjectsSelected(a) && !SubjectSelected(a)
  {
    AcquireCalls(m, a);
    if Selected(Acquisition(a)) {
      AfterSelectionCalls(AcquireLog(m, a), a);
    }
  }

  /** Object Selection is tried exactly when there is no selection yet, Select
      Subject exactly when Object Selection also made none, and the prompt
      exactly when Select Subject also made none. In particular an existing
      selection skips all three. */
  lemma FallbackOrder(documents: nat, mode: Mode, a: Responses)
    ensures SelectObjectTool in Trace(documents, mode, a) <==>
              Started(documents, mode, a) && !HasSelection(a.existing)
    ensures SelectSubject in Trace(documents, mode, a) <==>
              Started(documents, mode, a) && !HasSelection(a.existing) && !ObjectsSelected(a)
    ensures Confirm in Trace(documents, mode, a) <==>
              Started(documents, mode, a) && !HasSelection(a.existing) && !ObjectsSelected(a) && !SubjectSelected(a)
  {
    if Started(documents, mode, a) {
      SessionCalls(ModeLog(mode), a);
    }
  }

  /** The calls `l` neither change the mode nor touch pixels, trim or save. */
  predicate NoEditCalls(l: seq<Action>)
  {
    && ChangeModeToRgb !in l && Invert !in l && Clear !in l && Deselect !in l
    && MakeMask !in l && Trim !in l && SaveDialog !in l
    && forall act :: act in l ==> !act.SaveAs?
  }

  /** The fallback chain edits nothing. */
  lemma AcquireEditsNothing(l: seq<Action>, a: Responses)
    ensures NoEditCalls(AcquireLog(l, a)) <==> NoEditCalls(l)
  {
    var l0 := l + [ReadBounds];
    var l1 := ObjectsLog(l0, a);
    var l2 := SubjectLog(l1, a);
    assert NoEditCalls(l0) <==> NoEditCalls(l);
    assert NoEditCalls(l1) <==> NoEditCalls(l0);
    assert NoEditCalls(l2) <==> NoEditCalls(l1);
    assert NoEditCalls(PromptLog(l2, a)) <==> NoEditCalls(l2);
  }

  /** A session never switches the mode. */
  lemma SessionKeepsMode(m: seq<Action>, a: Responses)
    ensures ChangeModeToRgb in SessionLog(m, a) <==> ChangeModeToRgb in m
  {
    AcquireEditsNothing([], a);
    AcquireLogAppends(m, [], a);
    assert m + [] == m;
    if Selected(Acquisition(a)) {
      var l := AcquireLog(m, a);
      assert ChangeModeToRgb in l <==> ChangeModeToRgb in m;
      assert ChangeModeToRgb in RemovalLog(l, a) <==> ChangeModeToRgb in l;
    }
  }

  /** The mode is changed exactly when a document is open and it is not RGB. */
  lemma ModeChangedIff(documents: nat, mode: Mode, a: Responses)
    ensures ChangeModeToRgb in Trace(documents, mode, a) <==> documents > 0 && mode != Rgb
  {
    if Started(documents, mode, a) {
      SessionKeepsMode(ModeLog(mode), a);
    }
  }

  /** No selection: the script ends after the fallback chain, without removal,
      trim or save, cancelled if the prompt was cancelled. */
  lemma NoSelectionStops(documents: nat, mode: Mode, a: Responses)
    requires !Selected(Acquisition(a))
    ensures Invert !in Trace(documents, mode, a) && Trim !in Trace(documents, mode, a)
    ensures SaveDialog !in Trace(documents, mode, a)
    ensures Started(documents, mode, a) ==>
              Outcome(documents, mode, a) == (if a.proceed then NoSelection else Cancelled)
  {
    if Started(documents, mode, a) {
      AcquireEditsNothing(ModeLog(mode), a);
    }
  }

  /** The layer-mask fallback runs only when invert, clear or deselect threw;
      the mask is attempted when the fallback's own invert worked. */
  lemma MaskOnlyAfterThrow(l: seq<Action>, a: Responses)
    requires MakeMask !in l
    ensures MakeMask in RemovalLog(l, a) <==> BlockThrew(a) && !a.reinvertThrows
    ensures MaskAdded(a) ==> MakeMask in RemovalLog(l, a)
    ensures !BlockThrew(a) ==> RemovalLog(l, a) == l + [Invert] + [Clear] + [Deselect]
  {
  }

  /** The fallback's quirk: when the first invert worked and clear or deselect
      threw, the fallback inverts the selection a second time, back onto the
      subject, and the mask is made from that. */
  lemma DoubleInversion(l: seq<Action>, a: Responses)
    requires !a.invertThrows && (a.clearThrows || a.deselectThrows) && !a.reinvertThrows
    ensures RemovalInversions(a) == 2
    ensures a.clearThrows ==>
              RemovalLog(l, a)[|l|..] == [Invert, Clear, Invert, MakeMask] + if a.maskThrows then [Alert(CouldNotRemove)] else []
    ensures !a.clearThrows ==>
              RemovalLog(l, a)[|l|..] == [Invert, Clear, Deselect, Invert, MakeMask] + if a.maskThrows then [Alert(CouldNotRemove)] else []
  {
  }

  /** A failed removal does not stop the script: once a selection exists the
      trim and the save dialog always follow. */
  lemma RemovalFailureContinues(documents: nat, mode: Mode, a: Responses)
    requires Removes(documents, mode, a)
    ensures Trim in Trace(documents, mode, a) && SaveDialog in Trace(documents, mode, a)
    ensures Outcome(documents, mode, a) != Cancelled && Outcome(documents, mode, a) != NoSelection
  {
    assert Trim in RemovalLog(AcquireLog(ModeLog(mode), a), a) + [Trim];
  }

  /** No call of `l` is a save. */
  predicate NoSaves(l: seq<Action>)
  {
    forall act :: act in l ==> !act.SaveAs?
  }

  /** Background removal saves nothing. */
  lemma RemovalSavesNothing(l: seq<Action>, a: Responses)
    ensures NoSaves(RemovalLog(l, a)) <==> NoSaves(l)
  {
    var i := l + [Invert];
    var c := i + [Clear];
    var d := c + [Deselect];
    assert NoSaves(i) <==> NoSaves(l);
    assert NoSaves(c) <==> NoSaves(i);
    assert NoSaves(d) <==> NoSaves(c);
  }

  /** A dismissed save dialog: nothing is saved. */
  lemma DismissedSavesNothing(documents: nat, mode: Mode, a: Responses)
    requires a.dialog.Dismissed?
    ensures NoSaves(Trace(documents, mode, a))
    ensures Started(documents, mode, a) ==> Outcome(documents, mode, a) != Failed
  {
    if Started(documents, mode, a) {
      var l := AcquireLog(ModeLog(mode), a);
      AcquireEditsNothing(ModeLog(mode), a);
      assert NoSaves(l);
      RemovalSavesNothing(l, a);
    }
  }

  /** A saved file always ends in `.png`. */
  lemma SavedIsPng(documents: nat, mode: Mode, a: Responses)
    ensures Outcome(documents, mode, a).Saved? ==> EndsWithPng(Outcome(documents, mode, a).file.name)
  {
    if a.dialog.Chosen? {
      PngFileEndsWithPng(a.dialog.file);
    }
  }
}
