/**
  The free-space overwrite engine: it resolves the saved volume bookmarks into
  a queue, then for each queued volume creates a fill folder, runs `/bin/dd`
  into a file there until the disk fills (or the block budget is used), follows
  dd's progress output, removes the fill file and logs the outcome.

  Everything the operating system decides for one queued volume (scoped access,
  folder creation, free capacity, whether dd starts, what it prints, when the
  user cancels) is a `VolumeWorld`; `world(i)` is the one for the i-th volume in
  the queue. What the engine asks of the system is recorded, in order, in the
  ghost trace `effects`. Work the source hands to the main queue is applied in
  the order it was queued.
 */
module Wipe {
  import opened Platform
  import opened Paths
  import opened Progress
  import opened WipePlan
  import opened BookmarkTable
  import opened Settings

  /** A queued volume: the URL the fill folder is created under, and the name used in log lines. */
  datatype Target = Target(url: Url, displayName: string)

  /**
    The queue entry for a resolved bookmark: the root volume is written
    through the data partition and labelled "/", any other volume keeps its URL
    and is labelled by its last path component.
   */
  function TargetFor(resolved: Url): (t: Target)
    ensures t.url.path != Root
    ensures t.url.path == SelectablePath(resolved.path)
    ensures resolved.path == Root ==> t.displayName == Root
    ensures resolved.path != Root ==> t.displayName == LastPathComponent(resolved.path)
  {
    if resolved.path == Root then Target(Url(DataVolume), Root)
    else Target(resolved, LastPathComponent(resolved.path))
  }

  /** Outcome of a system call that can fail with an error description. */
  datatype Attempt = Succeeded | Failed(reason: string)

  /** What the system does while one queued volume is wiped. */
  datatype VolumeWorld = VolumeWorld(
    accessGranted: bool,          // startAccessingSecurityScopedResource() on the queued URL
    createDirectory: Attempt,     // createDirectory(at:withIntermediateDirectories:)
    capacity: Option<nat>,        // volumeAvailableCapacity of the working root, when it can be read
    launch: Attempt,              // Process.run()
    output: seq<Chunk>,           // what dd prints, chunk by chunk, until it exits
    cancelAfter: Option<nat>)     // the user presses cancel after this many chunks (at the end if there are fewer)

  /**
    The dd process object the engine keeps in `task`: it is stored before it is
    started, so it may never have been launched.
   */
  datatype DdProcess = DdProcess(launchPath: string, arguments: seq<string>, launched: bool, terminated: bool)

  /** `terminate()` on a process that was never launched raises an exception instead of signalling it. */
  predicate CancelTraps(task: Option<DdProcess>)
  {
    task.Some? && !task.value.launched
  }

  /** A request made to the system, in the order made. */
  datatype Effect =
    | StartAccess(url: Url)
    | CreateDirectory(path: string)
    | QueryCapacity(path: string)
    | RunDd(launchPath: string, arguments: seq<string>)
    | Terminate
    | RemoveItem(path: string)
    | StopAccess(url: Url)

  /** One addition to the visible log. */
  datatype LogEntry =
    | ResolveFailed(path: string, reason: string)
    | ScopeWarning(name: string)
    | CantCreateFolder(name: string, reason: string)
    | FailedToStart(name: string, reason: string)
    | OverwriteComplete(name: string)
    | Output(text: string)

  const ResolveFailedPrefix: string := "❌ Couldn’t resolve bookmark for "
  const ScopeWarningPrefix: string := "⚠️ Couldn’t obtain security scope for "
  const ScopeWarningSuffix: string := "; trying anyway."
  const CantCreateFolderPrefix: string := "❌ Can’t create folder on "
  const FailedToStartPrefix: string := "❌ Failed to start dd on "
  const CompletePrefix: string := "✅ Overwrite complete on "

  /** The kinds of message the engine logs. */
  datatype MessageKind = ResolveFailure | ScopeRefused | FolderFailure | LaunchFailure | Completion

  function KindOf(e: LogEntry): MessageKind
    requires !e.Output?
  {
    match e
    case ResolveFailed(_, _) => ResolveFailure
    case ScopeWarning(_) => ScopeRefused
    case CantCreateFolder(_, _) => FolderFailure
    case FailedToStart(_, _) => LaunchFailure
    case OverwriteComplete(_) => Completion
  }

  /** Which message a log line reports, read from its prefix. */
  function KindOfLine(line: string): Option<MessageKind>
  {
    if ResolveFailedPrefix <= line then Some(ResolveFailure)
    else if ScopeWarningPrefix <= line then Some(ScopeRefused)
    else if CantCreateFolderPrefix <= line then Some(FolderFailure)
    else if FailedToStartPrefix <= line then Some(LaunchFailure)
    else if CompletePrefix <= line then Some(Completion)
    else None
  }

  /**
    The text of a logged message (dd's own output is logged verbatim instead):
    each kind of message starts with its own prefix, so the line tells which
    event it reports.
   */
  function Message(e: LogEntry): (line: string)
    requires !e.Output?
    ensures KindOfLine(line) == Some(KindOf(e))
  {
    var line := match e
      case ResolveFailed(path, reason) => ResolveFailedPrefix + path + ": " + reason
      case ScopeWarning(name) => ScopeWarningPrefix + name + ScopeWarningSuffix
      case CantCreateFolder(name, reason) => CantCreateFolderPrefix + name + ": " + reason
      case FailedToStart(name, reason) => FailedToStartPrefix + name + ": " + reason
      case OverwriteComplete(name) => CompletePrefix + name;
    PrefixesExclusive(line);
    line
  }

  /** Two prefixes that differ at some position cannot both start the same line. */
  lemma DifferAt(p: string, q: string, line: string, k: nat)
    requires k < |p| && k < |q| && p[k] != q[k]
    ensures !(p <= line && q <= line)
  {
  }

  /** No line starts with two of the message prefixes. */
  lemma PrefixesExclusive(line: string)
    ensures !(ResolveFailedPrefix <= line && ScopeWarningPrefix <= line)
    ensures !(ResolveFailedPrefix <= line && CantCreateFolderPrefix <= line)
    ensures !(ResolveFailedPrefix <= line && FailedToStartPrefix <= line)
    ensures !(ResolveFailedPrefix <= line && CompletePrefix <= line)
    ensures !(ScopeWarningPrefix <= line && CantCreateFolderPrefix <= line)
    ensures !(ScopeWarningPrefix <= line && FailedToStartPrefix <= line)
    ensures !(ScopeWarningPrefix <= line && CompletePrefix <= line)
    ensures !(CantCreateFolderPrefix <= line && FailedToStartPrefix <= line)
    ensures !(CantCreateFolderPrefix <= line && CompletePrefix <= line)
    ensures !(FailedToStartPrefix <= line && CompletePrefix <= line)
  {
    DifferAt(ResolveFailedPrefix, ScopeWarningPrefix, line, 0);
    DifferAt(ResolveFailedPrefix, CantCreateFolderPrefix, line, 3);
    DifferAt(ResolveFailedPrefix, FailedToStartPrefix, line, 2);
    DifferAt(ResolveFailedPrefix, CompletePrefix, line, 0);
    DifferAt(ScopeWarningPrefix, CantCreateFolderPrefix, line, 0);
    DifferAt(ScopeWarningPrefix, FailedToStartPrefix, line, 0);
    DifferAt(ScopeWarningPrefix, CompletePrefix, line, 0);
    DifferAt(CantCreateFolderPrefix, FailedToStartPrefix, line, 2);
    DifferAt(CantCreateFolderPrefix, CompletePrefix, line, 0);
    DifferAt(FailedToStartPrefix, CompletePrefix, line, 0);
  }

  /** What an entry adds to `lastLogOutput`: a message and a newline, or dd's text as it came. */
  function EntryText(e: LogEntry): string
  {
    if e.Output? then e.text else Message(e) + "\n"
  }

  /** The log text of a sequence of entries. */
  function Render(log: seq<LogEntry>): string
  {
    if log == [] then [] else EntryText(log[0]) + Render(log[1..])
  }

  lemma {:induction false} RenderConcat(a: seq<LogEntry>, b: seq<LogEntry>)
    ensures Render(a + b) == Render(a) + Render(b)
  {
    if a == [] {
      assert a + b == b;
    } else {
      assert (a + b)[1..] == a[1..] + b;
      RenderConcat(a[1..], b);
    }
  }

  lemma RenderOne(e: LogEntry)
    ensures Render([e]) == EntryText(e)
  {
    assert [e][1..] == [];
  }

  lemma RenderSnoc(log: seq<LogEntry>, e: LogEntry)
    ensures Render(log + [e]) == Render(log) + EntryText(e)
  {
    RenderConcat(log, [e]);
    RenderOne(e);
  }

  /** Log lines as `appendLog` adds them: each followed by a newline. */
  function Lines(lines: seq<string>): string
  {
    if lines == [] then [] else Lines(lines[..|lines| - 1]) + (lines[|lines| - 1] + "\n")
  }

  function Messages(log: seq<LogEntry>): (lines: seq<string>)
    requires forall i :: 0 <= i < |log| ==> !log[i].Output?
    ensures |lines| == |log|
  {
    if log == [] then [] else Messages(log[..|log| - 1]) + [Message(log[|log| - 1])]
  }

  /** Appending the messages of entries line by line renders those entries. */
  lemma {:induction false} MessagesRender(log: seq<LogEntry>)
    requires forall i :: 0 <= i < |log| ==> !log[i].Output?
    ensures Lines(Messages(log)) == Render(log)
    decreases |log|
  {
    if log != [] {
      var init := log[..|log| - 1];
      var e := log[|log| - 1];
      var lines := Messages(init);
      assert (lines + [Message(e)])[..|lines|] == lines;
      MessagesRender(init);
      RenderLast(log);
    }
  }

  lemma RenderLast(log: seq<LogEntry>)
    requires log != []
    ensures Render(log) == Render(log[..|log| - 1]) + EntryText(log[|log| - 1])
  {
    SplitLast(log);
    RenderSnoc(log[..|log| - 1], log[|log| - 1]);
  }

  // A sequence identity; it only splits verification work.
  lemma SplitLast<T>(s: seq<T>)
    requires s != []
    ensures s == s[..|s| - 1] + [s[|s| - 1]]
  {
  }

  // A sequence identity; it only splits verification work.
  lemma AppendAssociative<T>(a: seq<T>, b: seq<T>, c: seq<T>)
    ensures a + b + c == a + (b + c)
  {
  }

  /** How many entries satisfy `p`. */
  function Count(log: seq<LogEntry>, p: LogEntry -> bool): (n: nat)
    ensures n <= |log|
  {
    if log == [] then 0 else Count(log[..|log| - 1], p) + (if p(log[|log| - 1]) then 1 else 0)
  }

  lemma {:induction false} CountConcat(a: seq<LogEntry>, b: seq<LogEntry>, p: LogEntry -> bool)
    ensures Count(a + b, p) == Count(a, p) + Count(b, p)
    decreases |b|
  {
    if b == [] {
      assert a + b == a;
    } else {
      var init := b[..|b| - 1];
      assert (a + b)[..|a + b| - 1] == a + init;
      CountConcat(a, init, p);
    }
  }

  lemma {:induction false} CountNone(log: seq<LogEntry>, p: LogEntry -> bool)
    requires forall i :: 0 <= i < |log| ==> !p(log[i])
    ensures Count(log, p) == 0
  {
    if log != [] {
      CountNone(log[..|log| - 1], p);
    }
  }

  lemma CountOne(e: LogEntry, p: LogEntry -> bool)
    ensures Count([e], p) == if p(e) then 1 else 0
  {
    assert [e][..0] == [];
  }

  /** The line reporting how a volume's wipe ended. */
  predicate IsOutcome(e: LogEntry)
  {
    e.CantCreateFolder? || e.FailedToStart? || e.OverwriteComplete?
  }

  predicate IsCompletion(e: LogEntry)
  {
    e.OverwriteComplete?
  }

  // ───────────────────────────── One volume

  /** The chunks the readability handler sees: all of dd's output, or what came before the cancel. */
  function Delivered(w: VolumeWorld): (chunks: seq<Chunk>)
    ensures chunks <= w.output
    ensures w.cancelAfter.None? ==> chunks == w.output
  {
    match w.cancelAfter
    case None => w.output
    case Some(k) => if k < |w.output| then w.output[..k] else w.output
  }

  /** dd was started: the folder was created and the process launched. */
  predicate Launched(w: VolumeWorld)
  {
    w.createDirectory.Succeeded? && w.launch.Succeeded?
  }

  /** The user cancelled while dd was running. */
  predicate CancelledAt(w: VolumeWorld)
  {
    Launched(w) && w.cancelAfter.Some?
  }

  /** The entries the readability handler adds for one chunk: non-empty UTF-8 text only. */
  function ChunkEntries(c: Chunk): seq<LogEntry>
  {
    if c.Text? && c.s != [] then [Output(c.s)] else []
  }

  function OutputEntries(chunks: seq<Chunk>): (log: seq<LogEntry>)
    ensures forall i :: 0 <= i < |log| ==> log[i].Output?
    ensures |log| <= |chunks|
  {
    if chunks == [] then [] else OutputEntries(chunks[..|chunks| - 1]) + ChunkEntries(chunks[|chunks| - 1])
  }

  lemma OutputEntriesStep(chunks: seq<Chunk>, i: nat)
    requires i < |chunks|
    ensures OutputEntries(chunks[..i + 1]) == OutputEntries(chunks[..i]) + ChunkEntries(chunks[i])
  {
    assert chunks[..i + 1][..i] == chunks[..i];
  }

  /** The dd argument list for a volume. */
  function VolumeArguments(url: Url, w: VolumeWorld, leaveSafetyBuffer: bool, useSecureErase: bool): seq<string>
  {
    DdArguments(useSecureErase, JunkPath(FillDirectory(WorkingRoot(url.path))), BlockCount(leaveSafetyBuffer, w.capacity))
  }

  /** The requests made once dd has run: a terminate first if the user cancelled, then the cleanup. */
  function CleanupEffects(w: VolumeWorld, junk: string, dir: string): seq<Effect>
  {
    (if w.cancelAfter.Some? then [Terminate] else []) + [RemoveItem(junk), RemoveItem(dir)]
  }

  /** The requests made once the dd process is assembled: nothing more when it cannot be started. */
  function DdRunEffects(w: VolumeWorld, junk: string, dir: string): (effects: seq<Effect>)
    ensures forall e :: e in effects ==> e.Terminate? || e.RemoveItem?
  {
    if w.launch.Failed? then [] else CleanupEffects(w, junk, dir)
  }

  /** The requests made while the dd process is assembled: the capacity query only with the safety buffer on. */
  function AssemblyEffects(url: Url, w: VolumeWorld, leaveSafetyBuffer: bool, useSecureErase: bool): (effects: seq<Effect>)
    ensures forall e :: e in effects && e.RunDd? ==> e == RunDd(DdPath, VolumeArguments(url, w, leaveSafetyBuffer, useSecureErase))
    ensures forall e :: e in effects && e.QueryCapacity? ==> leaveSafetyBuffer && e.path == WorkingRoot(url.path)
  {
    (if leaveSafetyBuffer then [QueryCapacity(WorkingRoot(url.path))] else [])
    + [RunDd(DdPath, VolumeArguments(url, w, leaveSafetyBuffer, useSecureErase))]
  }

  /**
    The requests `doWipe` makes for one volume: the fill folder is created
    first; dd, when it is asked for, runs with this volume's argument list; the
    capacity, when it is queried, is that of the working root with the buffer on.
   */
  function WipeEffects(url: Url, w: VolumeWorld, leaveSafetyBuffer: bool, useSecureErase: bool): (effects: seq<Effect>)
    ensures effects != [] && effects[0] == CreateDirectory(FillDirectory(WorkingRoot(url.path)))
    ensures forall e :: e in effects && e.RunDd? ==> e == RunDd(DdPath, VolumeArguments(url, w, leaveSafetyBuffer, useSecureErase))
    ensures forall e :: e in effects && e.QueryCapacity? ==> leaveSafetyBuffer && e.path == WorkingRoot(url.path)
  {
    var dir := FillDirectory(WorkingRoot(url.path));
    if w.createDirectory.Failed? then [CreateDirectory(dir)]
    else
      [CreateDirectory(dir)] + AssemblyEffects(url, w, leaveSafetyBuffer, useSecureErase) + DdRunEffects(w, JunkPath(dir), dir)
  }

  /** What is logged while dd runs: its output, then the completion line. */
  function CompletedLog(displayName: string, w: VolumeWorld): seq<LogEntry>
  {
    OutputEntries(Delivered(w)) + [OverwriteComplete(displayName)]
  }

  /** What is logged once the dd process is assembled. */
  function DdRunLog(displayName: string, w: VolumeWorld): seq<LogEntry>
  {
    if w.launch.Failed? then [FailedToStart(displayName, w.launch.reason)] else CompletedLog(displayName, w)
  }

  /**
    What `doWipe` logs for one volume: dd's output, if any, and last one
    outcome line, which reports completion exactly when dd was started.
   */
  function WipeLog(displayName: string, w: VolumeWorld): (log: seq<LogEntry>)
    ensures log != [] && IsOutcome(log[|log| - 1])
    ensures forall i :: 0 <= i < |log| - 1 ==> log[i].Output?
    ensures IsCompletion(log[|log| - 1]) <==> Launched(w)
  {
    if w.createDirectory.Failed? then [CantCreateFolder(displayName, w.createDirectory.reason)]
    else DdRunLog(displayName, w)
  }

  /** The progress value after `doWipe`. */
  function WipeProgress(progress: real, w: VolumeWorld, leaveSafetyBuffer: bool): real
  {
    if Launched(w) then ProgressAfter(progress, Delivered(w), TotalBytes(BlockCount(leaveSafetyBuffer, w.capacity)))
    else progress
  }

  /**
    The process `task` holds after `doWipe`: set once the folder exists,
    launched if dd started, terminated if the user cancelled while it ran.
   */
  function WipeTask(task: Option<DdProcess>, url: Url, w: VolumeWorld, leaveSafetyBuffer: bool, useSecureErase: bool): Option<DdProcess>
  {
    if w.createDirectory.Failed? then task
    else Some(DdProcess(DdPath, VolumeArguments(url, w, leaveSafetyBuffer, useSecureErase), w.launch.Succeeded?, CancelledAt(w)))
  }

  /** One turn of the queue loop: scoped access around `doWipe`. */
  function VolumeEffects(t: Target, w: VolumeWorld, leaveSafetyBuffer: bool, useSecureErase: bool): seq<Effect>
  {
    [StartAccess(t.url)] + WipeEffects(t.url, w, leaveSafetyBuffer, useSecureErase)
    + (if w.accessGranted then [StopAccess(t.url)] else [])
  }

  function VolumeLog(t: Target, w: VolumeWorld): seq<LogEntry>
  {
    (if w.accessGranted then [] else [ScopeWarning(t.displayName)]) + WipeLog(t.displayName, w)
  }

  // ───────────────────────────── The queue

  function RunEffects(targets: seq<Target>, world: nat -> VolumeWorld, leaveSafetyBuffer: bool, useSecureErase: bool): seq<Effect>
  {
    if targets == [] then []
    else RunEffects(targets[..|targets| - 1], world, leaveSafetyBuffer, useSecureErase)
         + VolumeEffects(targets[|targets| - 1], world(|targets| - 1), leaveSafetyBuffer, useSecureErase)
  }

  function RunLog(targets: seq<Target>, world: nat -> VolumeWorld): seq<LogEntry>
  {
    if targets == [] then []
    else RunLog(targets[..|targets| - 1], world) + VolumeLog(targets[|targets| - 1], world(|targets| - 1))
  }

  function RunProgress(progress: real, targets: seq<Target>, world: nat -> VolumeWorld, leaveSafetyBuffer: bool): real
  {
    if targets == [] then progress
    else WipeProgress(RunProgress(progress, targets[..|targets| - 1], world, leaveSafetyBuffer), world(|targets| - 1), leaveSafetyBuffer)
  }

  function RunTask(task: Option<DdProcess>, targets: seq<Target>, world: nat -> VolumeWorld,
                   leaveSafetyBuffer: bool, useSecureErase: bool): Option<DdProcess>
  {
    if targets == [] then task
    else WipeTask(RunTask(task, targets[..|targets| - 1], world, leaveSafetyBuffer, useSecureErase),
                  targets[|targets| - 1].url, world(|targets| - 1), leaveSafetyBuffer, useSecureErase)
  }

  /** The user cancelled during one of the first `n` volumes. */
  predicate AnyCancelled(n: nat, world: nat -> VolumeWorld)
  {
    n > 0 && (AnyCancelled(n - 1, world) || CancelledAt(world(n - 1)))
  }

  /** Running one more volume extends each account of the run by that volume's. */
  lemma RunStep(targets: seq<Target>, i: nat, world: nat -> VolumeWorld, progress: real, task: Option<DdProcess>,
                leaveSafetyBuffer: bool, useSecureErase: bool)
    requires i < |targets|
    ensures RunEffects(targets[..i + 1], world, leaveSafetyBuffer, useSecureErase)
         == RunEffects(targets[..i], world, leaveSafetyBuffer, useSecureErase)
            + VolumeEffects(targets[i], world(i), leaveSafetyBuffer, useSecureErase)
    ensures RunLog(targets[..i + 1], world) == RunLog(targets[..i], world) + VolumeLog(targets[i], world(i))
    ensures RunProgress(progress, targets[..i + 1], world, leaveSafetyBuffer)
         == WipeProgress(RunProgress(progress, targets[..i], world, leaveSafetyBuffer), world(i), leaveSafetyBuffer)
    ensures RunTask(task, targets[..i + 1], world, leaveSafetyBuffer, useSecureErase)
         == WipeTask(RunTask(task, targets[..i], world, leaveSafetyBuffer, useSecureErase),
                     targets[i].url, world(i), leaveSafetyBuffer, useSecureErase)
  {
    assert targets[..i + 1][..i] == targets[..i];
  }

  /** How many of the first `n` volumes got as far as running dd. */
  function LaunchedCount(n: nat, world: nat -> VolumeWorld): (k: nat)
    ensures k <= n
  {
    if n == 0 then 0 else LaunchedCount(n - 1, world) + (if Launched(world(n - 1)) then 1 else 0)
  }

  // ───────────────────────────── Resolving the bookmarks into a queue

  /** The queue entry a bookmark contributes, when it resolves. */
  function QueueEntry(u: Url, data: BookmarkData, resolve: BookmarkData -> Resolution): seq<Target>
  {
    if resolve(data).Resolved? then [TargetFor(resolve(data).url)] else []
  }

  /** The failure line a bookmark leaves, when it does not resolve. */
  function FailureEntry(u: Url, data: BookmarkData, resolve: BookmarkData -> Resolution): seq<LogEntry>
  {
    if resolve(data).Resolved? then [] else [ResolveFailed(u.path, resolve(data).reason)]
  }

  /** `target` is what one of the bookmarks visited in `order` resolved to. */
  ghost predicate QueuedFrom(t: Table, order: seq<Url>, resolve: BookmarkData -> Resolution, target: Target)
  {
    exists j :: 0 <= j < |order| && order[j] in t && resolve(t[order[j]]).Resolved?
                && target == TargetFor(resolve(t[order[j]]).url)
  }

  /** Targets queued from the first visits stay queued from the longer visit order, and so does the last visit's entry. */
  lemma QueuedFromStep(t: Table, order: seq<Url>, resolve: BookmarkData -> Resolution, before: seq<Target>)
    requires order != [] && order[|order| - 1] in t
    requires forall i :: 0 <= i < |before| ==> QueuedFrom(t, order[..|order| - 1], resolve, before[i])
    ensures forall i :: 0 <= i < |before| ==> QueuedFrom(t, order, resolve, before[i])
    ensures var u := order[|order| - 1];
            forall i :: 0 <= i < |QueueEntry(u, t[u], resolve)| ==> QueuedFrom(t, order, resolve, QueueEntry(u, t[u], resolve)[i])
  {
    var init := order[..|order| - 1];
    forall i | 0 <= i < |before|
      ensures QueuedFrom(t, order, resolve, before[i])
    {
      assert QueuedFrom(t, init, resolve, before[i]);
      var j :| 0 <= j < |init| && init[j] in t && resolve(t[init[j]]).Resolved?
               && before[i] == TargetFor(resolve(t[init[j]]).url);
      assert order[j] == init[j];
    }
  }

  /**
    The queue built from the bookmark table, visiting its keys in `order`:
    every queued target is the target of a visited bookmark that resolved.
   */
  function QueueTargets(t: Table, order: seq<Url>, resolve: BookmarkData -> Resolution): (targets: seq<Target>)
    requires forall i :: 0 <= i < |order| ==> order[i] in t
    ensures |targets| <= |order|
    ensures forall i :: 0 <= i < |targets| ==> QueuedFrom(t, order, resolve, targets[i])
  {
    if order == [] then []
    else
      var u := order[|order| - 1];
      var before := QueueTargets(t, order[..|order| - 1], resolve);
      QueuedFromStep(t, order, resolve, before);
      before + QueueEntry(u, t[u], resolve)
  }

  /** The resolution failures logged while building the queue, in the same order. */
  function ResolveFailures(t: Table, order: seq<Url>, resolve: BookmarkData -> Resolution): (log: seq<LogEntry>)
    requires forall i :: 0 <= i < |order| ==> order[i] in t
    ensures forall i :: 0 <= i < |log| ==> log[i].ResolveFailed?
  {
    if order == [] then []
    else ResolveFailures(t, order[..|order| - 1], resolve)
         + FailureEntry(order[|order| - 1], t[order[|order| - 1]], resolve)
  }

  /** Visiting one more key extends the queue and the failures by that key's contribution. */
  lemma QueueStep(t: Table, order: seq<Url>, u: Url, resolve: BookmarkData -> Resolution)
    requires forall i :: 0 <= i < |order| ==> order[i] in t
    requires u in t
    ensures forall i :: 0 <= i < |order + [u]| ==> (order + [u])[i] in t
    ensures QueueTargets(t, order + [u], resolve) == QueueTargets(t, order, resolve) + QueueEntry(u, t[u], resolve)
    ensures ResolveFailures(t, order + [u], resolve) == ResolveFailures(t, order, resolve) + FailureEntry(u, t[u], resolve)
  {
    assert (order + [u])[..|order|] == order;
  }

  /**
    The resolution loop so far: the keys not in `remaining` have been visited,
    in `order`, and `targets` and `failures` are what they contributed.
   */
  ghost predicate Resolving(t: Table, resolve: BookmarkData -> Resolution, remaining: set<Url>, order: seq<Url>,
                            targets: seq<Target>, failures: seq<LogEntry>)
  {
    && remaining <= t.Keys
    && ListsOnce(t, t.Keys - remaining, order)
    && targets == QueueTargets(t, order, resolve)
    && failures == ResolveFailures(t, order, resolve)
  }

  lemma ResolvingStep(t: Table, resolve: BookmarkData -> Resolution, remaining: set<Url>, order: seq<Url>,
                      targets: seq<Target>, failures: seq<LogEntry>, u: Url)
    requires Resolving(t, resolve, remaining, order, targets, failures)
    requires u in remaining
    ensures Resolving(t, resolve, remaining - {u}, order + [u],
                      targets + QueueEntry(u, t[u], resolve), failures + FailureEntry(u, t[u], resolve))
  {
    VisitStep(t, remaining, order, u);
    QueueStep(t, order, u, resolve);
  }

  class WipeManager {
    const settings: SettingsManager

    var isWiping: bool
    var wipeProgress: real
    var lastLogOutput: string
    var task: Option<DdProcess>
    ghost var effects: seq<Effect>

    constructor (settings: SettingsManager)
      ensures this.settings == settings
      ensures !isWiping && wipeProgress == 0.0 && lastLogOutput == [] && task == None && effects == []
    {
      this.settings := settings;
      isWiping := false;
      wipeProgress := 0.0;
      lastLogOutput := [];
      task := None;
      effects := [];
    }

    /** `appendLog`: the line and a newline are added to the log. */
    method AppendLog(s: string)
      modifies this`lastLogOutput
      ensures lastLogOutput == old(lastLogOutput) + (s + "\n")
    {
      lastLogOutput := lastLogOutput + (s + "\n");
    }

    /**
      The pipe's readability handler: non-empty UTF-8 text is appended to the
      log, and its first byte count, when there is a budget, sets the progress.
     */
    method HandleOutput(chunk: Chunk, totalBytes: int)
      modifies this`lastLogOutput, this`wipeProgress
      ensures lastLogOutput == old(lastLogOutput) + Render(ChunkEntries(chunk))
      ensures wipeProgress == NextProgress(old(wipeProgress), chunk, totalBytes)
    {
      if chunk.Text? && chunk.s != [] {
        RenderOne(Output(chunk.s));
        lastLogOutput := lastLogOutput + chunk.s;
        var written := BytesWritten(chunk.s);
        if written.Some? && totalBytes > 0 {
          wipeProgress := Percent(written.value, totalBytes);
        }
      }
    }

    /**
      `cancelWipe`: the current process, if any, is terminated and the wiping
      flag cleared. A stored process that was never launched cannot be
      terminated: Foundation raises an exception and the app stops there,
      which `trapped` reports, with nothing changed.
     */
    method CancelWipe() returns (trapped: bool)
      modifies this`task, this`isWiping, this`effects
      ensures trapped <==> CancelTraps(old(task))
      ensures trapped ==> isWiping == old(isWiping) && task == old(task) && effects == old(effects)
      ensures !trapped ==> !isWiping
      ensures old(task).None? ==> task == None && effects == old(effects)
      ensures !trapped && old(task).Some? ==>
                task == Some(old(task).value.(terminated := true)) && effects == old(effects) + [Terminate]
    {
      if task.Some? && !task.value.launched {
        return true;
      }
      if task.Some? {
        task := Some(task.value.(terminated := true));
        effects := effects + [Terminate];
      }
      isWiping := false;
      return false;
    }

    /**
      dd's run as the readability handler sees it: each chunk in turn.
     */
    method FollowOutput(chunks: seq<Chunk>, totalBytes: int)
      modifies this`lastLogOutput, this`wipeProgress
      ensures lastLogOutput == old(lastLogOutput) + Render(OutputEntries(chunks))
      ensures wipeProgress == ProgressAfter(old(wipeProgress), chunks, totalBytes)
    {
      for i := 0 to |chunks|
        invariant lastLogOutput == old(lastLogOutput) + Render(OutputEntries(chunks[..i]))
        invariant wipeProgress == ProgressAfter(old(wipeProgress), chunks[..i], totalBytes)
      {
        OutputEntriesStep(chunks, i);
        ProgressStep(old(wipeProgress), chunks, i, totalBytes);
        RenderConcat(OutputEntries(chunks[..i]), ChunkEntries(chunks[i]));
        AppendAssociative(old(lastLogOutput), Render(OutputEntries(chunks[..i])), Render(ChunkEntries(chunks[i])));
        HandleOutput(chunks[i], totalBytes);
      }
      assert chunks[..|chunks|] == chunks;
    }

    /**
      The end of `doWipe` from `proc.run()` on: the process is launched, its
      output is followed until it exits (or is terminated by a cancel);
      whatever its exit status, the fill file and folder are then removed and
      completion is logged.
     */
    method FollowDd(displayName: string, w: VolumeWorld, junkPath: string, dir: string, totalBytes: int)
      requires task.Some?
      modifies this`isWiping, this`wipeProgress, this`lastLogOutput, this`task, this`effects
      ensures effects == old(effects) + CleanupEffects(w, junkPath, dir)
      ensures lastLogOutput == old(lastLogOutput) + Render(CompletedLog(displayName, w))
      ensures wipeProgress == ProgressAfter(old(wipeProgress), Delivered(w), totalBytes)
      ensures isWiping == (old(isWiping) && w.cancelAfter.None?)
      ensures task == Some(old(task).value.(launched := true, terminated := old(task).value.terminated || w.cancelAfter.Some?))
    {
      task := Some(task.value.(launched := true));
      var delivered := Delivered(w);
      FollowOutput(delivered, totalBytes);
      ghost var terminate: seq<Effect> := [];
      if w.cancelAfter.Some? {
        var _ := CancelWipe();
        terminate := [Terminate];
      }
      effects := effects + [RemoveItem(junkPath), RemoveItem(dir)];
      AppendAssociative(old(effects), terminate, [RemoveItem(junkPath), RemoveItem(dir)]);

      AppendLog(Message(OverwriteComplete(displayName)));
      RenderOne(OverwriteComplete(displayName));
      RenderConcat(OutputEntries(delivered), [OverwriteComplete(displayName)]);
      AppendAssociative(old(lastLogOutput), Render(OutputEntries(delivered)), Render([OverwriteComplete(displayName)]));
    }

    /**
      The middle of `doWipe`: with the safety buffer on, the working root's
      free capacity sets the byte budget and `count=`; the dd process is then
      assembled and kept in `task`.
     */
    method AssembleDd(url: Url, w: VolumeWorld) returns (totalBytes: int)
      modifies this`task, this`effects
      ensures effects == old(effects) + AssemblyEffects(url, w, settings.leaveSafetyBuffer, settings.useSecureErase)
      ensures task == Some(DdProcess(DdPath, VolumeArguments(url, w, settings.leaveSafetyBuffer, settings.useSecureErase), false, false))
      ensures totalBytes == TotalBytes(BlockCount(settings.leaveSafetyBuffer, w.capacity))
    {
      var workingRoot := WorkingRoot(url.path);
      var junkPath := JunkPath(FillDirectory(workingRoot));
      var count: Option<nat> := None;
      totalBytes := 0;
      ghost var query: seq<Effect> := [];
      if settings.leaveSafetyBuffer {
        query := [QueryCapacity(workingRoot)];
        effects := effects + query;
        var writableMB := WritableMegabytes(AvailableMegabytes(w.capacity));
        totalBytes := writableMB * MiB;
        count := Some(writableMB);
      }
      var arguments := DdArguments(settings.useSecureErase, junkPath, count);
      task := Some(DdProcess(DdPath, arguments, false, false));
      effects := effects + [RunDd(DdPath, arguments)];
      AppendAssociative(old(effects), query, [RunDd(DdPath, arguments)]);
    }

    /**
      The part of `doWipe` once the fill folder exists: the dd process is
      assembled, then either fails to start (an error line) or runs to the end.
     */
    method LaunchDd(url: Url, displayName: string, w: VolumeWorld)
      modifies this`isWiping, this`wipeProgress, this`lastLogOutput, this`task, this`effects
      ensures effects == old(effects) + AssemblyEffects(url, w, settings.leaveSafetyBuffer, settings.useSecureErase)
                         + DdRunEffects(w, JunkPath(FillDirectory(WorkingRoot(url.path))), FillDirectory(WorkingRoot(url.path)))
      ensures lastLogOutput == old(lastLogOutput) + Render(DdRunLog(displayName, w))
      ensures wipeProgress == if w.launch.Failed? then old(wipeProgress)
                              else ProgressAfter(old(wipeProgress), Delivered(w), TotalBytes(BlockCount(settings.leaveSafetyBuffer, w.capacity)))
      ensures isWiping == (old(isWiping) && (w.launch.Failed? || w.cancelAfter.None?))
      ensures task == Some(DdProcess(DdPath, VolumeArguments(url, w, settings.leaveSafetyBuffer, settings.useSecureErase),
                                     w.launch.Succeeded?, w.launch.Succeeded? && w.cancelAfter.Some?))
    {
      var dir := FillDirectory(WorkingRoot(url.path));
      var junkPath := JunkPath(dir);
      var totalBytes := AssembleDd(url, w);
      ghost var assembly := AssemblyEffects(url, w, settings.leaveSafetyBuffer, settings.useSecureErase);
      if w.launch.Failed? {
        RenderOne(FailedToStart(displayName, w.launch.reason));
        AppendLog(Message(FailedToStart(displayName, w.launch.reason)));
        return;
      }
      FollowDd(displayName, w, junkPath, dir, totalBytes);
      AppendAssociative(old(effects), assembly, CleanupEffects(w, junkPath, dir));
    }

    /**
      `doWipe`: picks the working root and creates the fill folder in it,
      assembles the dd process and runs it; a folder that cannot be created
      or a process that cannot be started ends the volume with an error line.
     */
    method DoWipe(url: Url, displayName: string, w: VolumeWorld)
      modifies this`isWiping, this`wipeProgress, this`lastLogOutput, this`task, this`effects
      ensures effects == old(effects) + WipeEffects(url, w, settings.leaveSafetyBuffer, settings.useSecureErase)
      ensures lastLogOutput == old(lastLogOutput) + Render(WipeLog(displayName, w))
      ensures wipeProgress == WipeProgress(old(wipeProgress), w, settings.leaveSafetyBuffer)
      ensures isWiping == (old(isWiping) && !CancelledAt(w))
      ensures task == WipeTask(old(task), url, w, settings.leaveSafetyBuffer, settings.useSecureErase)
    {
      var dir := FillDirectory(WorkingRoot(url.path));

      effects := effects + [CreateDirectory(dir)];
      if w.createDirectory.Failed? {
        RenderOne(CantCreateFolder(displayName, w.createDirectory.reason));
        AppendLog(Message(CantCreateFolder(displayName, w.createDirectory.reason)));
        return;
      }
      ghost var assembly := AssemblyEffects(url, w, settings.leaveSafetyBuffer, settings.useSecureErase);
      ghost var run := DdRunEffects(w, JunkPath(dir), dir);
      LaunchDd(url, displayName, w);
      AppendAssociative(old(effects), [CreateDirectory(dir)], assembly);
      AppendAssociative(old(effects), [CreateDirectory(dir)] + assembly, run);
    }

    /**
      One turn of the queue loop: scoped access is requested (a warning is
      logged when it is refused), the volume is wiped, and the access is
      released when it was granted.
     */
    method VisitVolume(t: Target, w: VolumeWorld)
      modifies this`isWiping, this`wipeProgress, this`lastLogOutput, this`task, this`effects
      ensures effects == old(effects) + VolumeEffects(t, w, settings.leaveSafetyBuffer, settings.useSecureErase)
      ensures lastLogOutput == old(lastLogOutput) + Render(VolumeLog(t, w))
      ensures wipeProgress == WipeProgress(old(wipeProgress), w, settings.leaveSafetyBuffer)
      ensures isWiping == (old(isWiping) && !CancelledAt(w))
      ensures task == WipeTask(old(task), t.url, w, settings.leaveSafetyBuffer, settings.useSecureErase)
    {
      ghost var warning: seq<LogEntry> := [];
      effects := effects + [StartAccess(t.url)];
      var scopedGranted := false;
      if w.accessGranted {
        scopedGranted := true;
      } else {
        warning := [ScopeWarning(t.displayName)];
        RenderOne(ScopeWarning(t.displayName));
        AppendLog(Message(ScopeWarning(t.displayName)));
      }

      ghost var warned := lastLogOutput;
      assert warned == old(lastLogOutput) + Render(warning) by {
        if w.accessGranted {
          assert Render(warning) == [];
        }
      }
      assert VolumeLog(t, w) == warning + WipeLog(t.displayName, w);

      DoWipe(t.url, t.displayName, w);
      RenderConcat(warning, WipeLog(t.displayName, w));
      AppendAssociative(old(lastLogOutput), Render(warning), Render(WipeLog(t.displayName, w)));

      ghost var wipe := WipeEffects(t.url, w, settings.leaveSafetyBuffer, settings.useSecureErase);
      ghost var release: seq<Effect> := [];
      if scopedGranted {
        release := [StopAccess(t.url)];
        effects := effects + release;
      }
      AppendAssociative(old(effects), [StartAccess(t.url)], wipe);
      AppendAssociative(old(effects) + [StartAccess(t.url)], wipe, release);
      AppendAssociative(old(effects), [StartAccess(t.url)] + wipe, release);
    }

    /**
      The background loop of `startWiping`: each queued volume in turn. A
      cancel does not stop the loop.
     */
    method RunQueue(targets: seq<Target>, world: nat -> VolumeWorld)
      modifies this`isWiping, this`wipeProgress, this`lastLogOutput, this`task, this`effects
      ensures effects == old(effects) + RunEffects(targets, world, settings.leaveSafetyBuffer, settings.useSecureErase)
      ensures lastLogOutput == old(lastLogOutput) + Render(RunLog(targets, world))
      ensures wipeProgress == RunProgress(old(wipeProgress), targets, world, settings.leaveSafetyBuffer)
      ensures isWiping == (old(isWiping) && !AnyCancelled(|targets|, world))
      ensures task == RunTask(old(task), targets, world, settings.leaveSafetyBuffer, settings.useSecureErase)
    {
      var leave, secure := settings.leaveSafetyBuffer, settings.useSecureErase;
      for i := 0 to |targets|
        invariant effects == old(effects) + RunEffects(targets[..i], world, leave, secure)
        invariant lastLogOutput == old(lastLogOutput) + Render(RunLog(targets[..i], world))
        invariant wipeProgress == RunProgress(old(wipeProgress), targets[..i], world, leave)
        invariant isWiping == (old(isWiping) && !AnyCancelled(i, world))
        invariant task == RunTask(old(task), targets[..i], world, leave, secure)
      {
        RunStep(targets, i, world, old(wipeProgress), old(task), leave, secure);
        ghost var runLog := RunLog(targets[..i], world);
        ghost var runEffects := RunEffects(targets[..i], world, leave, secure);
        VisitVolume(targets[i], world(i));
        RenderConcat(runLog, VolumeLog(targets[i], world(i)));
        AppendAssociative(old(lastLogOutput), Render(runLog), Render(VolumeLog(targets[i], world(i))));
        AppendAssociative(old(effects), runEffects, VolumeEffects(targets[i], world(i), leave, secure));
      }
      assert targets[..|targets|] == targets;
    }

    /** The log lines already queued on the main queue, delivered in order. */
    method DeliverBacklog(lines: seq<string>)
      modifies this`lastLogOutput
      ensures lastLogOutput == old(lastLogOutput) + Lines(lines)
    {
      for i := 0 to |lines|
        invariant lastLogOutput == old(lastLogOutput) + Lines(lines[..i])
      {
        assert lines[..i + 1][..i] == lines[..i];
        AppendAssociative(old(lastLogOutput), Lines(lines[..i]), lines[i] + "\n");
        AppendLog(lines[i]);
      }
      assert lines[..|lines|] == lines;
    }

    /**
      `startWiping`: the flags and the log are reset, the log lines already
      queued on the main queue (`backlog`) are delivered, the queue runs to its
      end, and the flags are cleared again.
     */
    method StartWiping(targets: seq<Target>, backlog: seq<string>, world: nat -> VolumeWorld)
      modifies this`isWiping, this`wipeProgress, this`lastLogOutput, this`task, this`effects
      ensures !isWiping && wipeProgress == 0.0
      ensures lastLogOutput == Lines(backlog) + Render(RunLog(targets, world))
      ensures effects == old(effects) + RunEffects(targets, world, settings.leaveSafetyBuffer, settings.useSecureErase)
      ensures task == RunTask(old(task), targets, world, settings.leaveSafetyBuffer, settings.useSecureErase)
    {
      BeginRun(backlog);
      RunQueue(targets, world);
      isWiping := false;
      wipeProgress := 0.0;
    }

    /** The reset at the start of `startWiping`, then the main-queue backlog. */
    method BeginRun(backlog: seq<string>)
      modifies this`isWiping, this`wipeProgress, this`lastLogOutput
      ensures isWiping && wipeProgress == 0.0
      ensures lastLogOutput == Lines(backlog)
    {
      isWiping := true;
      wipeProgress := 0.0;
      lastLogOutput := [];
      DeliverBacklog(backlog);
      assert [] + Lines(backlog) == Lines(backlog);
    }

    /**
      The resolution loop of `overwriteFreeSpace`: the saved bookmarks, in the
      table's iteration order (`order`), either join the queue or leave a
      failure line.
     */
    method ResolveBookmarks(resolve: BookmarkData -> Resolution)
      returns (targets: seq<Target>, failures: seq<LogEntry>, ghost order: seq<Url>)
      ensures ListsOnce(settings.volumeBookmarks, settings.volumeBookmarks.Keys, order)
      ensures targets == QueueTargets(settings.volumeBookmarks, order, resolve)
      ensures failures == ResolveFailures(settings.volumeBookmarks, order, resolve)
    {
      var table := settings.volumeBookmarks;
      targets, failures, order := [], [], [];
      var remaining := table.Keys;
      assert table.Keys - remaining == {};
      while remaining != {}
        invariant Resolving(table, resolve, remaining, order, targets, failures)
        decreases |remaining|
      {
        var origUrl :| origUrl in remaining;
        ResolvingStep(table, resolve, remaining, order, targets, failures, origUrl);
        var resolution := resolve(table[origUrl]);
        if resolution.Resolved? {
          targets := targets + [TargetFor(resolution.url)];
        } else {
          failures := failures + [ResolveFailed(origUrl.path, resolution.reason)];
        }
        order := order + [origUrl];
        remaining := remaining - {origUrl};
      }
      assert table.Keys - remaining == table.Keys;
      assert ListsOnce(table, table.Keys, order);
    }

    /**
      `overwriteFreeSpace`: the queue is built from the saved bookmarks and
      wiped. Resolution failures are logged after the reset at the start of
      the run, since both go through the main queue.
     */
    method OverwriteFreeSpace(resolve: BookmarkData -> Resolution, world: nat -> VolumeWorld)
      returns (ghost order: seq<Url>)
      modifies this`isWiping, this`wipeProgress, this`lastLogOutput, this`task, this`effects
      ensures ListsOnce(settings.volumeBookmarks, settings.volumeBookmarks.Keys, order)
      ensures !isWiping && wipeProgress == 0.0
      ensures lastLogOutput == Render(ResolveFailures(settings.volumeBookmarks, order, resolve))
                               + Render(RunLog(QueueTargets(settings.volumeBookmarks, order, resolve), world))
      ensures effects == old(effects) + RunEffects(QueueTargets(settings.volumeBookmarks, order, resolve), world,
                                                   settings.leaveSafetyBuffer, settings.useSecureErase)
      ensures task == RunTask(old(task), QueueTargets(settings.volumeBookmarks, order, resolve), world,
                              settings.leaveSafetyBuffer, settings.useSecureErase)
    {
      var targets, failures;
      targets, failures, order := ResolveBookmarks(resolve);
      StartWiping(targets, Messages(failures), world);
      MessagesRender(failures);
    }
  }
}
