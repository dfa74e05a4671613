# Photoshop background removal: a Dafny model

The repository removes image backgrounds with Adobe Photoshop in two ways.

- `batch_remove_quick.py` drives Photoshop from Python through `osascript`. It
  lists an input folder and keeps the image files. It asks for confirmation,
  then runs a fixed sequence of Photoshop commands on every image whose PNG
  output does not exist yet. Per file, it counts processed, failed and skipped
  images.
- `object_selection_background_removal.jsx` is an ExtendScript run inside
  Photoshop on the active document. It switches the document to RGB and finds a
  selection. It tries, in turn, the existing selection, Object Selection, Select
  Subject, and a selection made by hand. It clears everything outside the
  selection, falling back to a layer mask, then trims and saves a PNG copy.

Both programs are modelled with Photoshop and macOS replaced by oracles.

- `text.dfy` (module `Text`): ASCII lower-casing and Python's `str.strip`.
- `batch_paths.dfy` (module `BatchPaths`): the pure part of the Python driver.
  It covers pathlib's `suffix` and `stem`, the extension filter, the output
  name `<stem>.png`, and the confirmation test.
- `batch_remove_quick.dfy` (module `BatchRemoveQuick`): a `Host` class. It holds
  the set of files on disk, the log of commands sent and pauses taken, and a
  reply oracle keyed by log position. On it run `ProcessImageQuick`
  (`process_image_quick`) and `Run` (`main`); the loop of `Run` is
  `ProcessFiles`, whose body is `HandleFile`. Each iteration is recorded as a
  ghost `Task`, and the lemmas about a run are stated over those tasks.
- `object_selection_removal.dfy` (module `ObjectSelectionRemoval`): a
  `Photoshop` class. It holds the document count, the mode, the number of
  inversions and masks, and the log of calls. A `Responses` record says which
  calls throw and what each read of the selection bounds yields. `RunScript` is
  the script's `main()`. Each method is proved against a function that extends
  the log with its calls (`AcquireLog`, `RemovalLog`, `SaveLog`, `ScriptLog`).
  `Trace` is the log of one run on its own, and `Outcome` is how the run ends.

## Model

| member | source | states |
|---|---|---|
| BatchPaths.LastDot | batch_remove_quick.py:193 | the index of the last '.' of the name, or -1 when there is none |
| BatchPaths.Suffix | batch_remove_quick.py:193 | pathlib's suffix is empty or a dot followed by non-dot characters, and it is a tail of the name |
| BatchPaths.Stem | batch_remove_quick.py:231 | the stem followed by the suffix gives back the name; a name with a suffix has a non-empty stem |
| BatchPaths.ImageFiles | batch_remove_quick.py:191-193 | the filtered listing is no longer than the listing, and each entry kept is a listed image file |
| BatchPaths.ImageFilesMembers | batch_remove_quick.py:191-193 | an entry is selected iff it is listed, is a regular file and its lower-cased suffix is .jpg, .jpeg, .png, .tif, .tiff or .bmp |
| BatchPaths.ImageFilesAppend | batch_remove_quick.py:192-193 | the filter keeps listing order: filtering two listings in a row gives the two filtered listings in a row |
| BatchPaths.StemOfExtended | batch_remove_quick.py:231 | a non-empty stem followed by an extension splits back into that stem and that extension |
| BatchPaths.OutputIgnoresExtension | batch_remove_quick.py:231 | the output path is `<folder>/<stem>.png` whatever the input's extension and its case |
| BatchPaths.OutputPathShape | batch_remove_quick.py:231 | the output lies in the output folder, has suffix `.png` and keeps the input's stem |
| BatchPaths.SelectedOutput | batch_remove_quick.py:231 | every selected file has a suffix, so its output is a `.png` with the same stem |
| BatchPaths.SameStemSameOutput | batch_remove_quick.py:231 | two inputs with the same stem share one output path |
| BatchPaths.PhotoJpgIsPhotoPng | batch_remove_quick.py:231 | `photo.JPG` is written as `photo.png` |
| BatchPaths.IsImage | batch_remove_quick.py:193 | defines the filter: a regular file whose lower-cased suffix is one of the six extensions; no ensures, `ImageFilesMembers` states it |
| BatchPaths.OutputPath | batch_remove_quick.py:231 | defines the output as `<stem>.png` in the output folder; no ensures, `OutputPathShape` and `OutputIgnoresExtension` state it |
| BatchPaths.Confirmed | batch_remove_quick.py:209-210 | defines the gate: the stripped, lower-cased answer is `y`; no ensures, `ConfirmedIff` states it |
| BatchPaths.ConfirmedIff | batch_remove_quick.py:209-210 | the run proceeds iff the stripped answer is exactly `y` or `Y` |
| Text.LowerChar | batch_remove_quick.py:193 | lower-casing maps A-Z to a-z, 32 code points up, and leaves every other character alone; the same test decides the case-insensitive `.png` match of the script (`EndsWithPng`) |
| Text.Lower | batch_remove_quick.py:209 | lower-casing keeps the length and lower-cases each character in place |
| Text.IsSpace | batch_remove_quick.py:209 | defines the characters Python's `str.isspace` accepts, which `strip()` removes; `StripLeft`, `StripRight` and `StripSlice` state what is removed in its terms |
| Text.StripLeft | batch_remove_quick.py:209 | `lstrip` removes a prefix made only of whitespace and stops at a non-space |
| Text.StripRight | batch_remove_quick.py:209 | `rstrip` removes a suffix made only of whitespace and stops at a non-space |
| Text.Strip | batch_remove_quick.py:209 | the stripped answer neither starts nor ends with whitespace |
| Text.StripSlice | batch_remove_quick.py:209 | `strip` keeps a contiguous slice of its input and every character it removes, before or after that slice, is whitespace; stripping twice changes nothing |
| Text.StripBounds | batch_remove_quick.py:209 | the slice `strip` keeps starts after the leading whitespace, and everything outside it is whitespace |
| Text.StripRightKeepsFirst | batch_remove_quick.py:209 | stripping trailing whitespace keeps a leading non-space |
| BatchRemoveQuick.Host.Osascript | batch_remove_quick.py:70 | a call logs its command, returns the oracle's reply, and changes the disk only when a save writes its file |
| BatchRemoveQuick.Host.Sleep | batch_remove_quick.py:74 | a pause is logged and changes nothing else |
| BatchRemoveQuick.Host.Exists | batch_remove_quick.py:233 | the existence test is membership in the disk |
| BatchRemoveQuick.Step | batch_remove_quick.py:86-160 | one ignored-return-code command and its pause extend the log by the next two pipeline events, or by one when the call raises |
| BatchRemoveQuick.SelectBackground | batch_remove_quick.py:76-109 | background conversion, Select Subject and Inverse are sent in order with their pauses, stopping at the first exception, and leave the disk alone |
| BatchRemoveQuick.RemoveBackground | batch_remove_quick.py:111-144 | Delete, Deselect and Trim are sent in order with their pauses, stopping at the first exception, and leave the disk alone |
| BatchRemoveQuick.ProcessImageQuick | batch_remove_quick.py:57-170 | the log grows by a prefix of the fixed 17-event pipeline; a failed open ends it at once with False and no close; after a successful open the commands are sent in order until one raises, which ends the call with the exception and no close; if none raises, every command through close is sent, the later return codes are ignored, and the result is whether the output exists; only the save can add a file, and only the output |
| BatchRemoveQuick.HandleFile | batch_remove_quick.py:230-253 | an existing output is skipped with no command and no pause; otherwise the file is processed, True counts as processed, False or an exception as failed, and a 0.5 s pause follows |
| BatchRemoveQuick.ProcessFiles | batch_remove_quick.py:223-253 | the loop classifies every selected file in order, and each counter equals the number of files with its status |
| BatchRemoveQuick.Run | batch_remove_quick.py:172-263 | the three aborts (missing folder, no images, no confirmation) come before any command; an exception from the activation ends the run; a completed run classifies every file, its counters add up to the number of files, and the log is the activation, its pause and the files' events in order |
| BatchRemoveQuick.IteratedStep | batch_remove_quick.py:230-253 | one more iteration keeps the loop invariant: tasks match files, the log is the tasks' events in order, and the disk passes from task to task |
| BatchRemoveQuick.Count | batch_remove_quick.py:223-225 | a counter never exceeds the number of files seen |
| BatchRemoveQuick.AppendStatus | batch_remove_quick.py:235-251 | one file raises exactly the counter of its status by one |
| BatchRemoveQuick.Conservation | batch_remove_quick.py:223-253 | processed + failed + skipped equals the number of files |
| BatchRemoveQuick.Pipeline | batch_remove_quick.py:70-168 | defines the 17 events of one image: each command followed by its pause, then the close; no ensures, `PipelineWritesOnlyOutput` states its shape |
| BatchRemoveQuick.PipelineCommand | batch_remove_quick.py:70-168 | defines the command order: open, background conversion, Select Subject, Inverse, Delete, Deselect, Trim, save, close; no ensures, `PipelineWritesOnlyOutput` states it |
| BatchRemoveQuick.PauseAfter | batch_remove_quick.py:74-160 | defines the sleeps after each command: 2000, 500, 2000, 500, 500, 500, 1000 and 1000 ms; no ensures and no method reads it: `Step`'s requires ties each pause literal passed by `SelectBackground`, `RemoveBackground` and `ProcessImageQuick` (the 2000 ms after the open, the 1000 ms after the save) to `Pipeline`, which uses it |
| BatchRemoveQuick.Attempt | batch_remove_quick.py:57-170 | defines one call of `process_image_quick`: a prefix of the pipeline, stopped by an exception or a failed open, with the existence result and only the output written; `ProcessImageQuick` ensures it and `ProcessedIff` uses it |
| BatchRemoveQuick.Classified | batch_remove_quick.py:233-251 | defines the skip/process/fail rule of one iteration; `HandleFile` ensures it and `DuplicateSkipped`, `RerunSkips` and `OutputsKept` use it |
| BatchRemoveQuick.TaskOf | batch_remove_quick.py:230-251 | defines iteration i as belonging to file i: its input is the file's path in the input folder, its output is `<stem>.png` in the output folder, and it is classified; `HandleFile` ensures it and `Run` states it for every file |
| BatchRemoveQuick.PipelineWritesOnlyOutput | batch_remove_quick.py:57-170 | the pipeline opens the input first, closes last, and its only save is of the output, at position 14 |
| BatchRemoveQuick.NoneRaisedBelow | batch_remove_quick.py:57-170 | if none of the first n commands raised, none of any shorter prefix did |
| BatchRemoveQuick.ProcessedIff | batch_remove_quick.py:240-251 | a processed file is exactly one whose open succeeded, no command raised, and the save wrote the output |
| BatchRemoveQuick.TaskGrows | batch_remove_quick.py:230-253 | an iteration deletes nothing and adds at most its own output |
| BatchRemoveQuick.DiskMonotone | batch_remove_quick.py:230-253 | a later iteration finds every file an earlier one left |
| BatchRemoveQuick.RunOnlyAdds | batch_remove_quick.py:230-253 | a run deletes nothing, and every file it adds is the output of one of its files |
| BatchRemoveQuick.OutputsKept | batch_remove_quick.py:230-253 | after a run, the output of every file not counted as failed exists |
| BatchRemoveQuick.DuplicateSkipped | batch_remove_quick.py:231-236 | of two files with the same stem, once the first is processed or skipped the second is skipped without any command |
| BatchRemoveQuick.RerunSkips | batch_remove_quick.py:231-236 | a second run over what a run left skips every file that was not counted as failed, sending nothing for it |
| BatchRemoveQuick.AppendTask | batch_remove_quick.py:230-253 | appending an iteration that starts where the others end keeps the disk and log chains |
| BatchRemoveQuick.ExtendLog | batch_remove_quick.py:230-253 | the log after one more iteration is the earlier log followed by that iteration's events |
| BatchRemoveQuick.TasksAppend | batch_remove_quick.py:230-253 | appending the next file's iteration keeps every iteration matched to its file |
| ObjectSelectionRemoval.Photoshop.constructor | object_selection_background_removal.jsx:4-11 | a fresh session has the given documents and mode, no inversions or masks, and no calls |
| ObjectSelectionRemoval.Photoshop.Perform | object_selection_background_removal.jsx:15-152 | a call is logged; a throwing call has no effect; a mode change sets RGB, an invert counts one inversion, a mask counts one mask |
| ObjectSelectionRemoval.Photoshop.SelectionBounds | object_selection_background_removal.jsx:38-43 | a read of the bounds finds a selection iff it does not throw and both sides are non-degenerate |
| ObjectSelectionRemoval.TryObjects | object_selection_background_removal.jsx:50-66 | Object Selection makes a selection iff the tool and select-all calls do not throw and the bounds read is non-empty |
| ObjectSelectionRemoval.TrySubject | object_selection_background_removal.jsx:69-77 | Select Subject makes a selection iff it does not throw and the bounds read is non-empty |
| ObjectSelectionRemoval.AskUser | object_selection_background_removal.jsx:80-98 | the prompt ends cancelled, with no selection and an alert, or with a hand-made selection |
| ObjectSelectionRemoval.AcquireSelection | object_selection_background_removal.jsx:36-100 | the fallback chain returns the first source that yields a selection: existing, Object Selection, Select Subject, the prompt |
| ObjectSelectionRemoval.RemoveBackground | object_selection_background_removal.jsx:104-128 | invert, clear, deselect; if one throws, invert again and make a mask, alerting if that throws; inversions and masks are counted accordingly |
| ObjectSelectionRemoval.SaveResult | object_selection_background_removal.jsx:138-154 | a dismissed dialog saves nothing; otherwise the `.png`-normalised file is saved and reported, and a throwing save ends in the error alert |
| ObjectSelectionRemoval.Session | object_selection_background_removal.jsx:36-154 | with no selection the script stops, cancelled or with no selection; with one it removes, trims (ignoring a failure) and saves |
| ObjectSelectionRemoval.RunScript | object_selection_background_removal.jsx:4-159 | no document means one alert; the number of open documents never changes; the mode becomes RGB only when it was not; the run ends as `Outcome` says, with the calls `ScriptLog` lists; a saved file's name ends in `.png` |
| ObjectSelectionRemoval.NonEmpty | object_selection_background_removal.jsx:40 | defines the bounds test: left differs from right and top from bottom; no ensures, `NonEmptyIffArea` states it |
| ObjectSelectionRemoval.HasSelection | object_selection_background_removal.jsx:37-43 | defines a read of the bounds that finds a selection; a throwing read is none; `SelectionBounds` ensures it |
| ObjectSelectionRemoval.ObjectsLog | object_selection_background_removal.jsx:50-66 | defines the calls of Object Selection: the tool, select-all and a bounds read, cut short by the first throw; `TryObjects` ensures it and `AcquireCalls` uses it |
| ObjectSelectionRemoval.ObjectsSelected | object_selection_background_removal.jsx:50-66 | defines when Object Selection yields a selection: neither call throws and the bounds read is non-empty; `TryObjects` ensures it |
| ObjectSelectionRemoval.SubjectLog | object_selection_background_removal.jsx:69-77 | defines the calls of Select Subject: the call and, unless it throws, a bounds read; `TrySubject` ensures it |
| ObjectSelectionRemoval.SubjectSelected | object_selection_background_removal.jsx:69-77 | defines when Select Subject yields a selection: it does not throw and the bounds read is non-empty; `TrySubject` ensures it |
| ObjectSelectionRemoval.PromptLog | object_selection_background_removal.jsx:80-98 | defines the calls of the prompt: the confirm, and on OK a bounds read and, without a selection, the alert; `AskUser` ensures it |
| ObjectSelectionRemoval.PromptResult | object_selection_background_removal.jsx:80-98 | defines how the prompt ends: cancelled, a selection made by hand, or none; `AskUser` ensures it and `NoSelectionStops` uses it |
| ObjectSelectionRemoval.AcquireLog | object_selection_background_removal.jsx:37-100 | defines the calls of the fallback chain: a bounds read, then each method while no selection exists; `AcquireSelection` ensures it and `AcquireCalls` and `AcquireEditsNothing` state its properties |
| ObjectSelectionRemoval.Acquisition | object_selection_background_removal.jsx:37-100 | defines which source gives the selection, in the order existing, Object Selection, Select Subject, prompt; `AcquireSelection` ensures it and `FallbackOrder` states the order |
| ObjectSelectionRemoval.FallbackLog | object_selection_background_removal.jsx:116-127 | defines the calls of the mask fallback: invert, make mask, and the alert when either throws; `MaskOnlyAfterThrow` states it |
| ObjectSelectionRemoval.RemovalLog | object_selection_background_removal.jsx:105-128 | defines the calls of the removal; `RemoveBackground` ensures it and `MaskOnlyAfterThrow` and `DoubleInversion` state its cases |
| ObjectSelectionRemoval.RemovalInversions | object_selection_background_removal.jsx:105-128 | defines how many inverts take effect during removal: the first unless it throws, plus the fallback's unless it throws; `RemoveBackground` ensures it and `DoubleInversion` states the case of two |
| ObjectSelectionRemoval.MaskAdded | object_selection_background_removal.jsx:114-127 | defines when the fallback adds a mask: the block threw and neither the second invert nor the mask threw; `RemoveBackground` ensures it and `MaskOnlyAfterThrow` uses it |
| ObjectSelectionRemoval.SaveLog | object_selection_background_removal.jsx:138-154 | defines the calls of the save: the dialog and, when a file is chosen, the save of the normalised file and its alert; `SaveResult` ensures it and `DismissedSavesNothing` uses it |
| ObjectSelectionRemoval.SessionLog | object_selection_background_removal.jsx:36-154 | defines the calls after the mode switch: the chain and, with a selection, removal, trim and save; `Session` ensures it and `SessionCalls` and `SessionKeepsMode` state its properties |
| ObjectSelectionRemoval.ScriptLog | object_selection_background_removal.jsx:4-159 | defines the calls of `main()` appended to an earlier log; `RunScript` ensures it and `ScriptLogAppends` proves it appends exactly `Trace` |
| ObjectSelectionRemoval.ModeFails | object_selection_background_removal.jsx:14-16 | defines a failed mode switch: the mode is not RGB and the change throws, which goes to the outer handler; `RunScript` ensures its ending through `Outcome` |
| ObjectSelectionRemoval.EndsWithPng | object_selection_background_removal.jsx:144 | defines the `/\.png$/i` test on the last four characters; no ensures, `PngFileEndsWithPng` and `PngFileExamples` state it |
| ObjectSelectionRemoval.PngFile | object_selection_background_removal.jsx:144-146 | defines the suffix rule; no ensures, `PngFileEndsWithPng` and `PngFileIdempotent` state it |
| ObjectSelectionRemoval.Trace | object_selection_background_removal.jsx:4-159 | defines the calls of one run; `ScriptLogAppends` ties it to `RunScript`'s log and `FallbackOrder`, `ModeChangedIff` and `NoSelectionStops` state it |
| ObjectSelectionRemoval.Outcome | object_selection_background_removal.jsx:4-159 | defines how one run ends; `RunScript` ensures it and `NoSelectionStops`, `DismissedSavesNothing` and `SavedIsPng` state it |
| ObjectSelectionRemoval.NonEmptyIffArea | object_selection_background_removal.jsx:40 | the bounds test holds iff the selection's area is not zero |
| ObjectSelectionRemoval.PngFileEndsWithPng | object_selection_background_removal.jsx:144-146 | the saved name always matches `/\.png$/i`; a name that already does is kept, any other gets `.png` appended in the same folder |
| ObjectSelectionRemoval.PngFileIdempotent | object_selection_background_removal.jsx:144-146 | normalising the file name twice is normalising it once |
| ObjectSelectionRemoval.PngFileExamples | object_selection_background_removal.jsx:144-146 | `photo.PNG` is kept and `photo.jpg` becomes `photo.jpg.png` |
| ObjectSelectionRemoval.ScriptLogAppends | object_selection_background_removal.jsx:4-159 | the script only appends to the calls made before it, and what it appends is `Trace` |
| ObjectSelectionRemoval.SessionLogAppends | object_selection_background_removal.jsx:36-154 | the calls after the mode switch only append to the earlier ones |
| ObjectSelectionRemoval.AcquireLogAppends | object_selection_background_removal.jsx:36-100 | the fallback chain's calls only append to the earlier ones |
| ObjectSelectionRemoval.RemovalLogAppends | object_selection_background_removal.jsx:104-128 | the removal's calls only append to the earlier ones |
| ObjectSelectionRemoval.SaveLogAppends | object_selection_background_removal.jsx:138-154 | the save's calls only append to the earlier ones |
| ObjectSelectionRemoval.NoDocumentOnlyAlerts | object_selection_background_removal.jsx:6-9 | with no document open the script shows one alert and changes nothing |
| ObjectSelectionRemoval.AfterSelectionCalls | object_selection_background_removal.jsx:104-154 | removal, trim and save call none of the selection methods |
| ObjectSelectionRemoval.AcquireCalls | object_selection_background_removal.jsx:45-80 | the chain tries Object Selection iff there is no selection, Select Subject iff Object Selection also failed, and the prompt iff Select Subject also failed |
| ObjectSelectionRemoval.SessionCalls | object_selection_background_removal.jsx:45-80 | the same order holds for all the calls after the mode switch |
| ObjectSelectionRemoval.FallbackOrder | object_selection_background_removal.jsx:45-80 | in a whole run, an existing selection skips all three methods, and each later method is tried exactly when every earlier one made no selection |
| ObjectSelectionRemoval.AcquireEditsNothing | object_selection_background_removal.jsx:36-100 | the fallback chain changes no mode, touches no pixels, and neither trims nor saves |
| ObjectSelectionRemoval.SessionKeepsMode | object_selection_background_removal.jsx:36-154 | nothing after the mode switch changes the mode |
| ObjectSelectionRemoval.ModeChangedIff | object_selection_background_removal.jsx:14-16 | the mode change is attempted iff a document is open and it is not RGB |
| ObjectSelectionRemoval.NoSelectionStops | object_selection_background_removal.jsx:83-98 | a cancelled prompt, or one confirmed with no selection, ends the run without removal, trim or save |
| ObjectSelectionRemoval.MaskOnlyAfterThrow | object_selection_background_removal.jsx:105-128 | the layer mask is attempted iff invert, clear or deselect threw and the second invert worked; with no throw the removal is exactly invert, clear, deselect |
| ObjectSelectionRemoval.DoubleInversion | object_selection_background_removal.jsx:105-128 | when the first invert worked and clear or deselect threw, the selection is inverted twice before the mask is made |
| ObjectSelectionRemoval.RemovalFailureContinues | object_selection_background_removal.jsx:114-142 | once there is a selection, a failed removal still goes on to trim and the save dialog |
| ObjectSelectionRemoval.RemovalSavesNothing | object_selection_background_removal.jsx:104-128 | removal saves nothing |
| ObjectSelectionRemoval.DismissedSavesNothing | object_selection_background_removal.jsx:139-142 | a dismissed save dialog saves nothing and the run does not end in an error |
| ObjectSelectionRemoval.SavedIsPng | object_selection_background_removal.jsx:144-152 | every saved file's name ends in `.png`, in any case |

## Left out

- `posix_to_hfs` (batch_remove_quick.py:12-20) is a foreign call into AppleScript. Paths are passed through unconverted, and the model does not capture that its own `osascript` calls (lines 60 and 154) could raise.
- `setup_quick_export` is never called. It only clicks through the preferences GUI.
- The AppleScript texts, the Photoshop operations, and pixel-level correctness. Each command is an abstract call whose reply comes from an oracle.
- Console output, the five-file preview, the accessibility prompt and its pause for Enter, and the path prompts. The folder paths are given already stripped of spaces and quotes, and the confirmation answer is a parameter.
- `mkdir` of the output folder and the enumeration of the input folder. The model takes the listing as a sequence of names, each with an is-file flag, and the input folder's existence as a flag.
- The texts of the alerts and of the printed messages, and the text of a caught exception.
- The background-layer conversion of the script (object_selection_background_removal.jsx:18-34). Which layer ends up active depends on Photoshop object semantics the model cannot see.
- The PNG save options and `Extension.LOWERCASE`. The save is modelled as a save of the normalised file.
- Exceptions from `confirm`, `alert` and `File.saveDialog` in the script are not modelled. Only the Photoshop calls are given a throwing outcome.
- Text.Lower: lower-cases ASCII letters only. Python's full Unicode lower-casing gives the same answer for the extension test and the `y` test, since no other character lowers to a character of those strings alone.
- BatchRemoveQuick.Host.Exists: the disk compares paths exactly, character by character. On a case-insensitive volume, the macOS default, `Photo.jpg` and `photo.png` have outputs `Photo.png` and `photo.png` that are one file, so the program skips the second input while the model processes it. The model treats only exactly equal stems as colliding.
- BatchPaths.Suffix: models pathlib's rule for a single file name (the last dot, neither first nor last). It does not model names ending in a dot or names containing a path separator.

### Behaviour worth knowing

- A failed open returns `False` without sending the close command (batch_remove_quick.py:71-72). The code only checks `osascript`'s return code, so if Photoshop did open the document despite the error, it stays open, as after an exception.
- An exception from any later command of `process_image_quick` (batch_remove_quick.py:86-168) skips the remaining commands, close included, and is caught by the loop at batch_remove_quick.py:249. The opened document is left open in Photoshop. `Attempt` states this: an exception ends the pipeline at the command that raised.
- A skipped file gets no half-second pause, because of the `continue` at batch_remove_quick.py:236. `HandleFile` records a pause only for files it hands to `process_image_quick`.
- Two inputs with the same stem, such as `a.jpg` and `a.png`, share one output. `DuplicateSkipped` shows that the second is skipped once the first succeeded.
- The mask of the fallback is made from whatever the selection is by then. When the first invert worked and clear or deselect threw, the selection has been inverted twice and is back on the subject. When the first invert threw, it has been inverted once and covers the background. `DoubleInversion` and `RemoveBackground`'s count of inversions state this.
