/** The batch driver: one fixed sequence of Photoshop commands per image
    (`process_image_quick`) and the loop over a folder that skips finished
    images, isolates failures and counts outcomes (`main`).

    The macOS host is a `Host` object: the files on disk, the log of what the
    script sends to Photoshop through `osascript` and of the pauses it takes,
    and an oracle that decides how each `osascript` call ends. */
module BatchRemoveQuick {
  import opened Text
  import opened BatchPaths

  /** The AppleScript snippets the driver sends, one constructor per snippet. */
  datatype Command =
    | Activate                 // bring Photoshop up before the loop
    | Open(file: Path)         // activate and open the input file
    | ConvertBackground        // rename the background layer to "Layer 0" if there is one
    | SelectSubject            // menu Select > Subject
    | Inverse                  // menu Select > Inverse
    | DeleteKey                // the Delete key
    | Deselect                 // Command-D
    | Trim                     // menu Image > Trim..., confirmed with Return
    | SaveCopy(file: Path)     // save a PNG copy of the current document
    | Close                    // close the current document without saving

  /** What the host observes: a command sent, or a pause of `ms` milliseconds. */
  datatype Event = Send(cmd: Command) | Pause(ms: nat)

  /** How an `osascript` call ends: it raises in Python, or the process exits with
      a return code; `wrote` says whether a save command actually produced its file. */
  datatype Reply = Raised | Exited(code: int, wrote: bool)

  predicate Succeeded(r: Reply) { r.Exited? && r.code == 0 }

  predicate Wrote(r: Reply) { r.Exited? && r.wrote }

  /** How `process_image_quick` ends: it returns a boolean, or an exception escapes. */
  datatype Outcome = Returned(ok: bool) | Threw

  /** The per-file classification of the run loop. */
  datatype Status = Processed | Failed | Skipped

  /** The end of `main`: one of the three early returns, an exception from the
      activation call (outside any `try`), or the completed loop with its counters. */
  datatype Report =
    | InputFolderMissing
    | NoImageFiles
    | Declined
    | Crashed
    | Completed(processed: nat, failed: nat, skipped: nat, total: nat)

  class Host {
    /** The files that exist. */
    var disk: set<Path>
    /** Everything sent to Photoshop and every pause, in order. */
    var log: seq<Event>
    /** The reply to a command sent as the event numbered `n` of the log. */
    const reply: (nat, Command) -> Reply

    constructor (disk: set<Path>, reply: (nat, Command) -> Reply)
      ensures this.disk == disk && this.reply == reply && log == []
    {
      this.disk := disk;
      this.reply := reply;
      log := [];
    }

    /** `subprocess.run(["osascript", "-e", script])`; only a save can create a file. */
    method Osascript(c: Command) returns (r: Reply)
      modifies this
      ensures r == reply(|old(log)|, c)
      ensures log == old(log) + [Send(c)]
      ensures disk == if c.SaveCopy? && Wrote(r) then old(disk) + {c.file} else old(disk)
    {
      r := reply(|log|, c);
      log := log + [Send(c)];
      if c.SaveCopy? && Wrote(r) {
        disk := disk + {c.file};
      }
    }

    /** `time.sleep`. */
    method Sleep(ms: nat)
      modifies this
      ensures log == old(log) + [Pause(ms)] && disk == old(disk)
    {
      log := log + [Pause(ms)];
    }

    /** `Path.exists()`. */
    method Exists(p: Path) returns (b: bool)
      ensures b <==> p in disk
    {
      b := p in disk;
    }
  }

  /** The full sequence `process_image_quick` issues when nothing goes wrong: each
      command followed by its pause, then the close. */
  function Pipeline(input: Path, output: Path): seq<Event>
  {
    seq(17, k requires 0 <= k < 17 => PipelineEvent(input, output, k))
  }

  /** Event `k` of `Pipeline`. */
  function PipelineEvent(input: Path, output: Path, k: nat): Event
  {
    if k % 2 == 1 then Pause(PauseAfter(k / 2))
    else Send(PipelineCommand(input, output, k / 2))
  }

  /** The `n`-th command of the pipeline. */
  function PipelineCommand(input: Path, output: Path, n: nat): Command
  {
    match n
    case 0 => Open(input)
    case 1 => ConvertBackground
    case 2 => SelectSubject
    case 3 => Inverse
    case 4 => DeleteKey
    case 5 => Deselect
    case 6 => Trim
    case 7 => SaveCopy(output)
    case _ => Close
  }

  /** The pause, in milliseconds, after the `n`-th command. */
  function PauseAfter(n: nat): nat
  {
    match n
    case 0 => 2000
    case 1 => 500
    case 2 => 2000
    case 3 => 500
    case 4 => 500
    case 5 => 500
    case 6 => 1000
    case _ => 1000
  }

  /** Position of the save command in `Pipeline`. */
  const SaveAt: nat := 14

  /** The `j`-th event of pipeline `p`, started at log position `start`, is a
      command whose `osascript` call raised. */
  ghost predicate Raises(reply: (nat, Command) -> Reply, p: seq<Event>, start: nat, j: int)
  {
    0 <= j < |p| && p[j].Send? && reply(start + j, p[j].cmd).Raised?
  }

  /** None of the first `n` events of pipeline `p` raised. */
  ghost predicate NoneRaised(reply: (nat, Command) -> Reply, p: seq<Event>, start: nat, n: nat)
  {
    n == 0 || (NoneRaised(reply, p, start, n - 1) && !Raises(reply, p, start, n - 1))
  }

  /** One call of `process_image_quick` started at log position `start`: it sent
      the first `sent` events of the pipeline, ended with `result`, and took the
      disk from `before` to `after`. */
  ghost predicate Attempt(reply: (nat, Command) -> Reply, input: Path, output: Path, start: nat,
                          sent: nat, result: Outcome, before: set<Path>, after: set<Path>)
  {
    var p := Pipeline(input, output);
    && 1 <= sent <= |p|
    // an exception ends the sequence at the command that raised it, close included
    && NoneRaised(reply, p, start, sent - 1)
    && (result.Threw? <==> Raises(reply, p, start, sent - 1))
    // the only early return is a failed open, and it returns False
    && (sent == 1 <==> !Succeeded(reply(start, Open(input))))
    && (result.Returned? && sent < |p| ==> sent == 1 && !result.ok)
    // later return codes are ignored: the result is whether the output exists
    && (result.Returned? && sent == |p| ==> (result.ok <==> output in after))
    // only the save writes, and only the output
    && after == (if sent > SaveAt && Wrote(reply(start + SaveAt, SaveCopy(output)))
                 then before + {output} else before)
  }

  /** One `subprocess.run` of the pipeline followed by its `time.sleep`; an
      exception from the call skips the sleep. `p`, `log0` and `k` say where in
      the pipeline the call stands. */
  method Step(h: Host, c: Command, ms: nat, ghost p: seq<Event>, ghost log0: seq<Event>, ghost k: nat)
    returns (r: Reply)
    requires k + 1 < |p| && p[k] == Send(c) && p[k + 1] == Pause(ms)
    requires h.log == log0 + p[..k] && NoneRaised(h.reply, p, |log0|, k)
    modifies h
    ensures r == h.reply(|log0| + k, c)
    ensures h.disk == if c.SaveCopy? && Wrote(r) then old(h.disk) + {c.file} else old(h.disk)
    ensures r.Raised? ==> h.log == log0 + p[..k + 1] && Raises(h.reply, p, |log0|, k)
    ensures !r.Raised? ==> h.log == log0 + p[..k + 2] && NoneRaised(h.reply, p, |log0|, k + 2)
  {
    r := h.Osascript(c);
    assert p[..k + 1] == p[..k] + [p[k]];
    if !r.Raised? {
      h.Sleep(ms);
      assert p[..k + 2] == p[..k + 1] + [p[k + 1]];
      assert NoneRaised(h.reply, p, |log0|, k + 1);
      assert NoneRaised(h.reply, p, |log0|, k + 2);
    }
  }

  /** The first three editing commands of `process_image_quick` (background
      conversion, Select Subject, Inverse), each followed by its pause, started
      after the open and its pause; they leave the background selected. An
      exception stops them. */
  method SelectBackground(h: Host, input: Path, output: Path, ghost log0: seq<Event>)
    returns (r: Reply, ghost sent: nat)
    requires h.log == log0 + Pipeline(input, output)[..2]
    requires NoneRaised(h.reply, Pipeline(input, output), |log0|, 2)
    modifies h
    ensures 3 <= sent <= 8 && h.log == log0 + Pipeline(input, output)[..sent]
    ensures h.disk == old(h.disk)
    ensures r.Raised? ==> NoneRaised(h.reply, Pipeline(input, output), |log0|, sent - 1)
                          && Raises(h.reply, Pipeline(input, output), |log0|, sent - 1)
    ensures !r.Raised? ==> sent == 8 && NoneRaised(h.reply, Pipeline(input, output), |log0|, 8)
  {
    ghost var p := Pipeline(input, output);
    r := Step(h, ConvertBackground, 500, p, log0, 2);
    if r.Raised? { sent := 3; return; }
    r := Step(h, SelectSubject, 2000, p, log0, 4);
    if r.Raised? { sent := 5; return; }
    r := Step(h, Inverse, 500, p, log0, 6);
    sent := if r.Raised? then 7 else 8;
  }

  /** The next three editing commands (Delete, Deselect, Trim), each followed by
      its pause; they clear the selected background and trim the transparent
      border. An exception stops them. */
  method RemoveBackground(h: Host, input: Path, output: Path, ghost log0: seq<Event>)
    returns (r: Reply, ghost sent: nat)
    requires h.log == log0 + Pipeline(input, output)[..8]
    requires NoneRaised(h.reply, Pipeline(input, output), |log0|, 8)
    modifies h
    ensures 9 <= sent <= SaveAt && h.log == log0 + Pipeline(input, output)[..sent]
    ensures h.disk == old(h.disk)
    ensures r.Raised? ==> NoneRaised(h.reply, Pipeline(input, output), |log0|, sent - 1)
                          && Raises(h.reply, Pipeline(input, output), |log0|, sent - 1)
    ensures !r.Raised? ==> sent == SaveAt && NoneRaised(h.reply, Pipeline(input, output), |log0|, SaveAt)
  {
    ghost var p := Pipeline(input, output);
    r := Step(h, DeleteKey, 500, p, log0, 8);
    if r.Raised? { sent := 9; return; }
    r := Step(h, Deselect, 500, p, log0, 10);
    if r.Raised? { sent := 11; return; }
    r := Step(h, Trim, 1000, p, log0, 12);
    sent := if r.Raised? then 13 else 14;
  }

  /** `process_image_quick(input_path, output_path)`. The conversion of paths to
      HFS form is not modelled. */
  method ProcessImageQuick(h: Host, input: Path, output: Path) returns (o: Outcome, ghost sent: nat)
    modifies h
    ensures 1 <= sent <= |Pipeline(input, output)|
    ensures h.log == old(h.log) + Pipeline(input, output)[..sent]
    ensures Attempt(h.reply, input, output, |old(h.log)|, sent, o, old(h.disk), h.disk)
  {
    ghost var p := Pipeline(input, output);
    ghost var log0 := h.log;
    var r := h.Osascript(Open(input));
    sent := 1;
    assert h.log == log0 + p[..1];
    if r.Raised? {
      o := Threw;
      return;
    }
    if r.code != 0 {
      o := Returned(false);
      return;
    }
    h.Sleep(2000);
    assert h.log == log0 + p[..2];
    assert !Raises(h.reply, p, |log0|, 0);
    assert NoneRaised(h.reply, p, |log0|, 1);
    assert NoneRaised(h.reply, p, |log0|, 2);
    r, sent := SelectBackground(h, input, output, log0);
    if r.Raised? {
      o := Threw;
      return;
    }
    r, sent := RemoveBackground(h, input, output, log0);
    if r.Raised? {
      o := Threw;
      return;
    }
    r := Step(h, SaveCopy(output), 1000, p, log0, SaveAt);
    if r.Raised? {
      o, sent := Threw, 15;
      return;
    }
    r := h.Osascript(Close);
    sent := 17;
    assert h.log == log0 + p;
    if r.Raised? {
      o := Threw;
      return;
    }
    var present := h.Exists(output);
    o := Returned(present);
  }

  /** Whether a file of the loop was handed to `process_image_quick`, and if so
      how many pipeline events it sent and how it ended. */
  datatype Attempted = NotAttempted | Attempted(sent: nat, result: Outcome)

  /** One file of the loop (an ImageTask): its paths and status, the log position
      where its events start, the disk before and after it, the events it added
      to the log, and the call of `process_image_quick`, if any. */
  datatype Task = Task(input: Path, output: Path, status: Status, start: nat,
                       before: set<Path>, after: set<Path>, events: seq<Event>, attempt: Attempted)

  /** The skip/process/fail rule of one loop iteration. */
  ghost predicate Classified(reply: (nat, Command) -> Reply, t: Task)
  {
    match t.attempt
    case NotAttempted =>
      // the output exists: skipped without any command and without a pause
      t.output in t.before && t.status == Skipped && t.events == [] && t.after == t.before
    case Attempted(sent, result) =>
      && t.output !in t.before
      && Attempt(reply, t.input, t.output, t.start, sent, result, t.before, t.after)
      && t.events == Pipeline(t.input, t.output)[..sent] + [Pause(500)]
      // True counts as processed; False and an exception both count as failed
      && t.status == (if result == Returned(true) then Processed else Failed)
  }

  /** Task `t` is the iteration for listing entry `e`, classified, with status `s`. */
  ghost predicate TaskOf(reply: (nat, Command) -> Reply, t: Task, inputFolder: string, outputFolder: string,
                         e: Entry, s: Status)
  {
    && t.input == Path(inputFolder, e.name)
    && t.output == OutputPath(outputFolder, e.name)
    && t.status == s
    && Classified(reply, t)
  }

  /** Each task starts with the disk the previous one left, the first with
      `first`, and the last leaves `last`. */
  ghost predicate DiskChain(ts: seq<Task>, first: set<Path>, last: set<Path>)
  {
    if ts == [] then first == last
    else
      && ts[0].before == first
      && ts[|ts| - 1].after == last
      && forall j :: 0 <= j < |ts| - 1 ==> ts[j].after == ts[j + 1].before
  }

  /** Each task's events start where the previous task's end. */
  ghost predicate LogChain(ts: seq<Task>, first: nat, last: nat)
  {
    if ts == [] then first == last
    else
      && ts[0].start == first
      && ts[|ts| - 1].start + |ts[|ts| - 1].events| == last
      && forall j :: 0 <= j < |ts| - 1 ==> ts[j].start + |ts[j].events| == ts[j + 1].start
  }

  /** The events of all tasks, in order. */
  function Events(ts: seq<Task>): seq<Event>
  {
    if ts == [] then [] else Events(ts[..|ts| - 1]) + ts[|ts| - 1].events
  }

  /** Number of entries of `os` equal to `s`. */
  function Count(os: seq<Status>, s: Status): (n: nat)
    ensures n <= |os|
  {
    if os == [] then 0 else Count(os[..|os| - 1], s) + (if os[|os| - 1] == s then 1 else 0)
  }

  /** One iteration of the loop of `main()`: skip the file when its output exists,
      otherwise process it and pause for half a second. */
  method HandleFile(h: Host, inputFolder: string, outputFolder: string, e: Entry)
    returns (status: Status, ghost t: Task)
    modifies h
    ensures TaskOf(h.reply, t, inputFolder, outputFolder, e, status)
    ensures t.start == |old(h.log)| && t.before == old(h.disk) && t.after == h.disk
    ensures h.log == old(h.log) + t.events
  {
    var input := Path(inputFolder, e.name);
    var output := OutputPath(outputFolder, e.name);
    var present := h.Exists(output);
    if present {
      status := Skipped;
      t := Task(input, output, Skipped, |h.log|, h.disk, h.disk, [], NotAttempted);
      return;
    }
    ghost var log0, disk0 := h.log, h.disk;
    var result;
    ghost var sent;
    result, sent := ProcessImageQuick(h, input, output);
    status := if result == Returned(true) then Processed else Failed;
    h.Sleep(500);
    t := Task(input, output, status, |log0|, disk0, h.disk,
              Pipeline(input, output)[..sent] + [Pause(500)], Attempted(sent, result));
  }

  /** The first `|tasks|` iterations of the loop over `files`: each task is its
      file's iteration, the log grew by their events in order, and the disk
      went through them. */
  ghost predicate Iterated(reply: (nat, Command) -> Reply, files: seq<Entry>, inputFolder: string,
                           outputFolder: string, outcomes: seq<Status>, tasks: seq<Task>,
                           log0: seq<Event>, log: seq<Event>, disk0: set<Path>, disk: set<Path>)
  {
    && |outcomes| == |tasks| <= |files|
    && (forall j :: 0 <= j < |tasks| ==>
          TaskOf(reply, tasks[j], inputFolder, outputFolder, files[j], outcomes[j]))
    && log == log0 + Events(tasks)
    && LogChain(tasks, |log0|, |log|)
    && DiskChain(tasks, disk0, disk)
  }

  /** One more iteration, for the next file, keeps `Iterated`. */
  lemma IteratedStep(reply: (nat, Command) -> Reply, files: seq<Entry>, inputFolder: string,
                     outputFolder: string, outcomes: seq<Status>, tasks: seq<Task>,
                     log0: seq<Event>, log: seq<Event>, disk0: set<Path>, disk: set<Path>,
                     t: Task, s: Status, log1: seq<Event>, disk1: set<Path>)
    requires Iterated(reply, files, inputFolder, outputFolder, outcomes, tasks, log0, log, disk0, disk)
    requires |tasks| < |files|
    requires TaskOf(reply, t, inputFolder, outputFolder, files[|tasks|], s)
    requires t.start == |log| && t.before == disk && t.after == disk1 && log1 == log + t.events
    ensures Iterated(reply, files, inputFolder, outputFolder, outcomes + [s], tasks + [t], log0, log1, disk0, disk1)
  {
    AppendTask(tasks, t, disk0, |log0|);
    ExtendLog(log0, tasks, t, log);
    TasksAppend(reply, files, inputFolder, outputFolder, outcomes, tasks, t, s);
  }

  lemma TasksAppend(reply: (nat, Command) -> Reply, files: seq<Entry>, inputFolder: string,
                    outputFolder: string, outcomes: seq<Status>, tasks: seq<Task>, t: Task, s: Status)
    requires |outcomes| == |tasks| < |files|
    requires forall j :: 0 <= j < |tasks| ==>
               TaskOf(reply, tasks[j], inputFolder, outputFolder, files[j], outcomes[j])
    requires TaskOf(reply, t, inputFolder, outputFolder, files[|tasks|], s)
    ensures forall j :: 0 <= j < |tasks| + 1 ==>
              TaskOf(reply, (tasks + [t])[j], inputFolder, outputFolder, files[j], (outcomes + [s])[j])
  {
    forall j | 0 <= j < |tasks| + 1
      ensures TaskOf(reply, (tasks + [t])[j], inputFolder, outputFolder, files[j], (outcomes + [s])[j])
    {
      if j < |tasks| {
        assert (tasks + [t])[j] == tasks[j] && (outcomes + [s])[j] == outcomes[j];
      }
    }
  }

  /** The `for` loop of `main()` over the selected files, with its counters. */
  method ProcessFiles(h: Host, files: seq<Entry>, inputFolder: string, outputFolder: string)
    returns (processed: nat, failed: nat, skipped: nat, outcomes: seq<Status>, ghost tasks: seq<Task>)
    modifies h
    ensures |outcomes| == |files|
    ensures processed == Count(outcomes, Processed)
    ensures failed == Count(outcomes, Failed)
    ensures skipped == Count(outcomes, Skipped)
    ensures Iterated(h.reply, files, inputFolder, outputFolder, outcomes, tasks, old(h.log), h.log, old(h.disk), h.disk)
  {
    processed, failed, skipped, outcomes, tasks := 0, 0, 0, [], [];
    for i := 0 to |files|
      invariant |outcomes| == i
      invariant processed == Count(outcomes, Processed)
      invariant failed == Count(outcomes, Failed)
      invariant skipped == Count(outcomes, Skipped)
      invariant Iterated(h.reply, files, inputFolder, outputFolder, outcomes, tasks, old(h.log), h.log, old(h.disk), h.disk)
    {
      var status;
      ghost var t;
      ghost var log, disk := h.log, h.disk;
      status, t := HandleFile(h, inputFolder, outputFolder, files[i]);
      IteratedStep(h.reply, files, inputFolder, outputFolder, outcomes, tasks, old(h.log), log, old(h.disk), disk,
                   t, status, h.log, h.disk);
      match status {
        case Processed => processed := processed + 1;
        case Failed => failed := failed + 1;
        case Skipped => skipped := skipped + 1;
      }
      AppendStatus(outcomes, status, Processed);
      AppendStatus(outcomes, status, Failed);
      AppendStatus(outcomes, status, Skipped);
      outcomes := outcomes + [status];
      tasks := tasks + [t];
    }
  }

  /** `main()`. The folder paths are given already stripped, the existence of the
      input folder and its listing are parameters, and `answer` is the reply to
      the confirmation prompt. The returned `outcomes` are the per-file lines
      the driver prints; `tasks` records each iteration. */
  method Run(h: Host, inputExists: bool, listing: seq<Entry>, inputFolder: string, outputFolder: string,
             answer: string)
    returns (report: Report, outcomes: seq<Status>, ghost tasks: seq<Task>)
    modifies h
    ensures report.InputFolderMissing? <==> !inputExists
    ensures report.NoImageFiles? <==> inputExists && ImageFiles(listing) == []
    ensures report.Declined? <==> inputExists && ImageFiles(listing) != [] && !Confirmed(answer)
    ensures report.Crashed? <==> inputExists && ImageFiles(listing) != [] && Confirmed(answer)
                                 && h.reply(|old(h.log)|, Activate).Raised?
    // the three aborts come before any command
    ensures report.InputFolderMissing? || report.NoImageFiles? || report.Declined? ==>
              h.log == old(h.log) && h.disk == old(h.disk) && outcomes == [] && tasks == []
    ensures report.Crashed? ==>
              h.log == old(h.log) + [Send(Activate)] && h.disk == old(h.disk) && outcomes == [] && tasks == []
    ensures report.Completed? ==>
              var files := ImageFiles(listing);
              && report.total == |files| == |outcomes| == |tasks|
              && report.processed == Count(outcomes, Processed)
              && report.failed == Count(outcomes, Failed)
              && report.skipped == Count(outcomes, Skipped)
              && report.processed + report.failed + report.skipped == report.total
              && (forall i :: 0 <= i < |tasks| ==>
                    TaskOf(h.reply, tasks[i], inputFolder, outputFolder, files[i], outcomes[i]))
              && h.log == old(h.log) + [Send(Activate), Pause(3000)] + Events(tasks)
              && LogChain(tasks, |old(h.log)| + 2, |h.log|)
              && DiskChain(tasks, old(h.disk), h.disk)
  {
    outcomes, tasks := [], [];
    if !inputExists {
      return InputFolderMissing, outcomes, tasks;
    }
    var files := ImageFiles(listing);
    if files == [] {
      return NoImageFiles, outcomes, tasks;
    }
    if !Confirmed(answer) {
      return Declined, outcomes, tasks;
    }
    var r := h.Osascript(Activate);
    if r.Raised? {
      return Crashed, outcomes, tasks;
    }
    h.Sleep(3000);
    ghost var base := h.log;
    assert base == old(h.log) + [Send(Activate), Pause(3000)];
    var processed, failed, skipped;
    processed, failed, skipped, outcomes, tasks := ProcessFiles(h, files, inputFolder, outputFolder);
    Conservation(outcomes);
    report := Completed(processed, failed, skipped, |files|);
  }

  /** Counting after appending one status. */
  lemma AppendStatus(os: seq<Status>, x: Status, s: Status)
    ensures Count(os + [x], s) == Count(os, s) + (if x == s then 1 else 0)
  {
    assert (os + [x])[..|os|] == os;
  }

  /** Appending a task that starts where the others end keeps both chains. */
  lemma AppendTask(ts: seq<Task>, t: Task, disk0: set<Path>, pos0: nat)
    requires DiskChain(ts, disk0, t.before) && LogChain(ts, pos0, t.start)
    ensures Events(ts + [t]) == Events(ts) + t.events
    ensures DiskChain(ts + [t], disk0, t.after)
    ensures LogChain(ts + [t], pos0, t.start + |t.events|)
  {
    assert (ts + [t])[..|ts|] == ts;
  }

  /** The log after one more task is the log before it followed by its events. */
  lemma ExtendLog(base: seq<Event>, ts: seq<Task>, t: Task, log: seq<Event>)
    requires log == base + Events(ts)
    ensures log + t.events == base + Events(ts + [t])
  {
    assert (ts + [t])[..|ts|] == ts;
  }

  /** Conservation: every status is exactly one of the three. */
  lemma {:induction false} Conservation(os: seq<Status>)
    ensures Count(os, Processed) + Count(os, Failed) + Count(os, Skipped) == |os|
  {
    if os != [] {
      Conservation(os[..|os| - 1]);
    }
  }

  /** The pipeline writes one file, the output, with its save command. */
  lemma PipelineWritesOnlyOutput(input: Path, output: Path)
    ensures |Pipeline(input, output)| == 17
    ensures Pipeline(input, output)[0] == Send(Open(input))
    ensures Pipeline(input, output)[SaveAt] == Send(SaveCopy(output))
    ensures Pipeline(input, output)[16] == Send(Close)
    ensures forall k :: 0 <= k < 17 && Pipeline(input, output)[k].Send? && Pipeline(input, output)[k].cmd.SaveCopy? ==>
              k == SaveAt && Pipeline(input, output)[k].cmd.file == output
  {
  }

  /** No command among the first `n` raised. */
  lemma {:induction false} NoneRaisedBelow(reply: (nat, Command) -> Reply, p: seq<Event>, start: nat, n: nat, k: nat)
    requires NoneRaised(reply, p, start, n) && k < n
    ensures !Raises(reply, p, start, k)
  {
    if k < n - 1 {
      NoneRaisedBelow(reply, p, start, n - 1, k);
    }
  }

  /** A file that was handed to `process_image_quick` counts as processed exactly
      when the open succeeded, no command raised and the save wrote the output. */
  lemma ProcessedIff(reply: (nat, Command) -> Reply, t: Task)
    requires Classified(reply, t) && t.attempt.Attempted?
    ensures t.status == Processed <==>
              && Succeeded(reply(t.start, Open(t.input)))
              && NoneRaised(reply, Pipeline(t.input, t.output), t.start, 17)
              && Wrote(reply(t.start + SaveAt, SaveCopy(t.output)))
  {
    var p := Pipeline(t.input, t.output);
    var sent, result := t.attempt.sent, t.attempt.result;
    if Succeeded(reply(t.start, Open(t.input))) && NoneRaised(reply, p, t.start, 17)
       && Wrote(reply(t.start + SaveAt, SaveCopy(t.output))) {
      NoneRaisedBelow(reply, p, t.start, 17, sent - 1);
      assert t.after == t.before + {t.output};
    }
  }

  /** Every task leaves the files it found, and adds at most its output. */
  lemma TaskGrows(reply: (nat, Command) -> Reply, t: Task)
    requires Classified(reply, t)
    ensures t.before <= t.after <= t.before + {t.output}
  {
  }

  /** Along a chain of iterations the disk only grows: a later task finds every
      file an earlier one left. */
  lemma {:induction false} DiskMonotone(reply: (nat, Command) -> Reply, ts: seq<Task>, first: set<Path>,
                                         last: set<Path>, j: nat, k: nat)
    requires DiskChain(ts, first, last)
    requires forall i :: 0 <= i < |ts| ==> Classified(reply, ts[i])
    requires j < k < |ts|
    ensures ts[j].after <= ts[k].before
  {
    if j < k - 1 {
      DiskMonotone(reply, ts, first, last, j, k - 1);
      TaskGrows(reply, ts[k - 1]);
    }
  }

  /** A run deletes nothing, and every file it adds is the output of one of its
      iterations. */
  lemma {:induction false} RunOnlyAdds(reply: (nat, Command) -> Reply, ts: seq<Task>, first: set<Path>, last: set<Path>)
    requires DiskChain(ts, first, last)
    requires forall i :: 0 <= i < |ts| ==> Classified(reply, ts[i])
    ensures first <= last
    ensures forall f :: f in last && f !in first ==> exists i :: 0 <= i < |ts| && ts[i].output == f
  {
    if ts != [] {
      var n := |ts| - 1;
      var init := ts[..n];
      TaskGrows(reply, ts[n]);
      if n == 0 {
        assert ts[0].before == first;
      } else {
        assert DiskChain(init, first, ts[n].before);
        RunOnlyAdds(reply, init, first, ts[n].before);
        forall f | f in last && f !in first
          ensures exists i :: 0 <= i < |ts| && ts[i].output == f
        {
          if f in ts[n].before {
            var i :| 0 <= i < |init| && init[i].output == f;
            assert ts[i].output == f;
          } else {
            assert ts[n].output == f;
          }
        }
      }
    }
  }

  /** After a run, the output of every file that was not counted as failed
      exists: it was there already (skipped) or was written (processed). */
  lemma OutputsKept(reply: (nat, Command) -> Reply, ts: seq<Task>, first: set<Path>, last: set<Path>, j: nat)
    requires DiskChain(ts, first, last)
    requires forall i :: 0 <= i < |ts| ==> Classified(reply, ts[i])
    requires j < |ts| && ts[j].status != Failed
    ensures ts[j].output in last
  {
    var n := |ts| - 1;
    assert ts[j].output in ts[j].after;
    if j < n {
      DiskMonotone(reply, ts, first, last, j, n);
      TaskGrows(reply, ts[n]);
    }
  }

  /** Two selected files with the same stem share one output: once the first is
      processed or skipped, the second is skipped without any command. */
  lemma DuplicateSkipped(reply: (nat, Command) -> Reply, ts: seq<Task>, first: set<Path>, last: set<Path>,
                         j: nat, k: nat)
    requires DiskChain(ts, first, last)
    requires forall i :: 0 <= i < |ts| ==> Classified(reply, ts[i])
    requires j < k < |ts| && ts[j].output == ts[k].output && ts[j].status != Failed
    ensures ts[k].status == Skipped && ts[k].events == []
  {
    assert ts[j].output in ts[j].after;
    DiskMonotone(reply, ts, first, last, j, k);
  }

  /** Running again over the disk a run left skips every file that run did not
      count as failed, sending nothing for it. */
  lemma RerunSkips(reply: (nat, Command) -> Reply, ts: seq<Task>, first: set<Path>, last: set<Path>,
                   j: nat, again: Task)
    requires DiskChain(ts, first, last)
    requires forall i :: 0 <= i < |ts| ==> Classified(reply, ts[i])
    requires j < |ts| && ts[j].status != Failed
    requires Classified(reply, again) && again.output == ts[j].output && last <= again.before
    ensures again.status == Skipped && again.events == [] && again.after == again.before
  {
    OutputsKept(reply, ts, first, last, j);
  }
}
