/**
  What a run of the overwrite engine guarantees, stated over the accounts
  `Wipe` keeps of it: the log, the requests made to the system, the progress
  value and the queue built from the saved bookmarks.
 */
module WipeProperties {
  import opened Platform
  import opened Paths
  import opened Progress
  import opened WipePlan
  import opened BookmarkTable
  import opened Wipe

  // ───────────────────────────── The log

  /** The line that ends a volume's wipe. */
  function Outcome(displayName: string, w: VolumeWorld): (e: LogEntry)
    ensures IsOutcome(e)
    ensures IsCompletion(e) <==> Launched(w)
  {
    if w.createDirectory.Failed? then CantCreateFolder(displayName, w.createDirectory.reason)
    else if w.launch.Failed? then FailedToStart(displayName, w.launch.reason)
    else OverwriteComplete(displayName)
  }

  /**
    `doWipe` logs dd's output (only when dd ran) and then exactly one outcome
    line; a cancelled run still ends with the completion line.
   */
  lemma WipeLogEndsWithOutcome(displayName: string, w: VolumeWorld)
    ensures WipeLog(displayName, w)
         == (if Launched(w) then OutputEntries(Delivered(w)) else []) + [Outcome(displayName, w)]
    ensures CancelledAt(w) ==> WipeLog(displayName, w)[|WipeLog(displayName, w)| - 1] == OverwriteComplete(displayName)
  {
    if !Launched(w) {
      assert [] + [Outcome(displayName, w)] == [Outcome(displayName, w)];
    }
  }

  /** A count that ignores dd's output sees only the outcome line of `doWipe`. */
  lemma WipeCount(displayName: string, w: VolumeWorld, p: LogEntry -> bool)
    requires forall e: LogEntry :: e.Output? ==> !p(e)
    ensures Count(WipeLog(displayName, w), p) == if p(Outcome(displayName, w)) then 1 else 0
  {
    var output := if Launched(w) then OutputEntries(Delivered(w)) else [];
    WipeLogEndsWithOutcome(displayName, w);
    CountConcat(output, [Outcome(displayName, w)], p);
    CountNone(output, p);
    CountOne(Outcome(displayName, w), p);
  }

  /** A count that also ignores scope warnings sees only the volume's outcome line. */
  lemma VolumeCount(t: Target, w: VolumeWorld, p: LogEntry -> bool)
    requires forall e: LogEntry :: e.Output? || e.ScopeWarning? ==> !p(e)
    ensures Count(VolumeLog(t, w), p) == if p(Outcome(t.displayName, w)) then 1 else 0
  {
    var warning := if w.accessGranted then [] else [ScopeWarning(t.displayName)];
    CountConcat(warning, WipeLog(t.displayName, w), p);
    CountNone(warning, p);
    WipeCount(t.displayName, w, p);
  }

  /**
    Every queued volume ends with exactly one outcome line (folder error,
    launch error or completion), whether or not the user cancelled on the way:
    a cancel does not stop the queue.
   */
  lemma {:induction false} OneOutcomePerVolume(targets: seq<Target>, world: nat -> VolumeWorld)
    ensures Count(RunLog(targets, world), IsOutcome) == |targets|
  {
    if targets != [] {
      var init := targets[..|targets| - 1];
      var last := targets[|targets| - 1];
      OneOutcomePerVolume(init, world);
      CountConcat(RunLog(init, world), VolumeLog(last, world(|targets| - 1)), IsOutcome);
      VolumeCount(last, world(|targets| - 1), IsOutcome);
    }
  }

  /** A completion line is logged exactly for the volumes on which dd was started. */
  lemma {:induction false} CompletionsCountLaunched(targets: seq<Target>, world: nat -> VolumeWorld)
    ensures Count(RunLog(targets, world), IsCompletion) == LaunchedCount(|targets|, world)
  {
    if targets != [] {
      var init := targets[..|targets| - 1];
      var last := targets[|targets| - 1];
      CompletionsCountLaunched(init, world);
      CountConcat(RunLog(init, world), VolumeLog(last, world(|targets| - 1)), IsCompletion);
      VolumeCount(last, world(|targets| - 1), IsCompletion);
    }
  }

  // ───────────────────────────── Requests made to the system

  /** The URLs whose security scope was requested, in order. */
  function Accessed(effects: seq<Effect>): (urls: seq<Url>)
    ensures |urls| <= |effects|
  {
    if effects == [] then []
    else Accessed(effects[..|effects| - 1])
         + (if effects[|effects| - 1].StartAccess? then [effects[|effects| - 1].url] else [])
  }

  lemma {:induction false} AccessedConcat(a: seq<Effect>, b: seq<Effect>)
    ensures Accessed(a + b) == Accessed(a) + Accessed(b)
    decreases |b|
  {
    if b == [] {
      assert a + b == a;
    } else {
      var init := b[..|b| - 1];
      assert (a + b)[..|a + b| - 1] == a + init;
      AccessedConcat(a, init);
      AppendAssociative(Accessed(a), Accessed(init),
                        if b[|b| - 1].StartAccess? then [b[|b| - 1].url] else []);
    }
  }

  /** No request in `effects` touches a security scope. */
  ghost predicate KeepsScope(effects: seq<Effect>)
  {
    forall i :: 0 <= i < |effects| ==> !effects[i].StartAccess? && !effects[i].StopAccess?
  }

  lemma KeepsScopeConcat(a: seq<Effect>, b: seq<Effect>)
    requires KeepsScope(a) && KeepsScope(b)
    ensures KeepsScope(a + b)
  {
    forall i | 0 <= i < |a + b|
      ensures !(a + b)[i].StartAccess? && !(a + b)[i].StopAccess?
    {
      if i >= |a| {
        assert (a + b)[i] == b[i - |a|];
      }
    }
  }

  lemma {:induction false} AccessedNone(effects: seq<Effect>)
    requires forall i :: 0 <= i < |effects| ==> !effects[i].StartAccess?
    ensures Accessed(effects) == []
  {
    if effects != [] {
      AccessedNone(effects[..|effects| - 1]);
    }
  }

  /** The queued URLs, in queue order. */
  function Urls(targets: seq<Target>): (urls: seq<Url>)
    ensures |urls| == |targets|
  {
    if targets == [] then [] else Urls(targets[..|targets| - 1]) + [targets[|targets| - 1].url]
  }

  /** `doWipe` itself never requests or releases a security scope. */
  lemma WipeEffectsKeepScope(url: Url, w: VolumeWorld, leaveSafetyBuffer: bool, useSecureErase: bool)
    ensures KeepsScope(WipeEffects(url, w, leaveSafetyBuffer, useSecureErase))
  {
    var dir := FillDirectory(WorkingRoot(url.path));
    var assembly := AssemblyEffects(url, w, leaveSafetyBuffer, useSecureErase);
    var run := DdRunEffects(w, JunkPath(dir), dir);
    assert KeepsScope([CreateDirectory(dir)]);
    if w.createDirectory.Succeeded? {
      assert KeepsScope(assembly);
      assert KeepsScope(run);
      KeepsScopeConcat([CreateDirectory(dir)], assembly);
      KeepsScopeConcat([CreateDirectory(dir)] + assembly, run);
    }
  }

  /**
    Scoped access is requested first for each volume, and it is released, as
    the volume's last request, exactly when it was granted.
   */
  lemma ScopeReleasedIffGranted(t: Target, w: VolumeWorld, leaveSafetyBuffer: bool, useSecureErase: bool)
    ensures var effects := VolumeEffects(t, w, leaveSafetyBuffer, useSecureErase);
            && effects[0] == StartAccess(t.url)
            && (StopAccess(t.url) in effects <==> w.accessGranted)
            && (w.accessGranted ==> effects[|effects| - 1] == StopAccess(t.url))
  {
    var wipe := WipeEffects(t.url, w, leaveSafetyBuffer, useSecureErase);
    WipeEffectsKeepScope(t.url, w, leaveSafetyBuffer, useSecureErase);
    assert StopAccess(t.url) !in wipe;
  }

  /**
    The scope warning is logged exactly when scoped access was refused, and the
    wipe is attempted either way: the fill folder is requested right after the
    scope, and the volume's log ends with its outcome line.
   */
  lemma WarningIffRefused(t: Target, w: VolumeWorld, leaveSafetyBuffer: bool, useSecureErase: bool)
    ensures ScopeWarning(t.displayName) in VolumeLog(t, w) <==> !w.accessGranted
    ensures VolumeLog(t, w)[|VolumeLog(t, w)| - 1] == Outcome(t.displayName, w)
    ensures VolumeEffects(t, w, leaveSafetyBuffer, useSecureErase)[1] == CreateDirectory(FillDirectory(WorkingRoot(t.url.path)))
  {
    assert ScopeWarning(t.displayName) in VolumeLog(t, w) <==> !w.accessGranted by {
      WipeLogEndsWithOutcome(t.displayName, w);
      var output := if Launched(w) then OutputEntries(Delivered(w)) else [];
      assert forall e :: e in output ==> e.Output?;
    }
    assert VolumeLog(t, w)[|VolumeLog(t, w)| - 1] == Outcome(t.displayName, w) by {
      WipeLogEndsWithOutcome(t.displayName, w);
    }
    FolderBeforeDd(t.url, w, leaveSafetyBuffer, useSecureErase);
  }

  lemma VolumeAccessesItsUrl(t: Target, w: VolumeWorld, leaveSafetyBuffer: bool, useSecureErase: bool)
    ensures Accessed(VolumeEffects(t, w, leaveSafetyBuffer, useSecureErase)) == [t.url]
  {
    var wipe := WipeEffects(t.url, w, leaveSafetyBuffer, useSecureErase);
    var release := if w.accessGranted then [StopAccess(t.url)] else [];
    WipeEffectsKeepScope(t.url, w, leaveSafetyBuffer, useSecureErase);
    AccessedConcat([StartAccess(t.url)], wipe);
    AccessedConcat([StartAccess(t.url)] + wipe, release);
    AccessedNone(wipe);
    AccessedNone(release);
    assert Accessed([StartAccess(t.url)]) == [t.url] by {
      assert [StartAccess(t.url)][..0] == [];
    }
  }

  /** The queue is visited in order, each volume exactly once: one scope request per queued URL. */
  lemma {:induction false} EveryTargetVisitedInOrder(targets: seq<Target>, world: nat -> VolumeWorld,
                                                      leaveSafetyBuffer: bool, useSecureErase: bool)
    ensures Accessed(RunEffects(targets, world, leaveSafetyBuffer, useSecureErase)) == Urls(targets)
  {
    if targets != [] {
      var init := targets[..|targets| - 1];
      var last := targets[|targets| - 1];
      EveryTargetVisitedInOrder(init, world, leaveSafetyBuffer, useSecureErase);
      AccessedConcat(RunEffects(init, world, leaveSafetyBuffer, useSecureErase),
                     VolumeEffects(last, world(|targets| - 1), leaveSafetyBuffer, useSecureErase));
      VolumeAccessesItsUrl(last, world(|targets| - 1), leaveSafetyBuffer, useSecureErase);
    }
  }

  /** `doWipe` first creates the fill folder, and assembles dd only once the folder exists. */
  lemma FolderBeforeDd(url: Url, w: VolumeWorld, leaveSafetyBuffer: bool, useSecureErase: bool)
    ensures var effects := WipeEffects(url, w, leaveSafetyBuffer, useSecureErase);
            && effects[0] == CreateDirectory(FillDirectory(WorkingRoot(url.path)))
            && (RunDd(DdPath, VolumeArguments(url, w, leaveSafetyBuffer, useSecureErase)) in effects
                <==> w.createDirectory.Succeeded?)
  {
  }

  /**
    The fill file and folder are removed, as the last two requests, exactly
    when dd was started, whatever dd's exit status.
   */
  lemma CleanupOnlyAfterLaunch(url: Url, w: VolumeWorld, leaveSafetyBuffer: bool, useSecureErase: bool)
    ensures var dir := FillDirectory(WorkingRoot(url.path));
            var effects := WipeEffects(url, w, leaveSafetyBuffer, useSecureErase);
            && (RemoveItem(JunkPath(dir)) in effects <==> Launched(w))
            && (RemoveItem(dir) in effects <==> Launched(w))
            && (Launched(w) ==> effects[|effects| - 2..] == [RemoveItem(JunkPath(dir)), RemoveItem(dir)])
  {
    var dir := FillDirectory(WorkingRoot(url.path));
    var pre := [CreateDirectory(dir)] + AssemblyEffects(url, w, leaveSafetyBuffer, useSecureErase);
    var stop := if w.cancelAfter.Some? then [Terminate] else [];
    if Launched(w) {
      LaunchedEffects(url, w, leaveSafetyBuffer, useSecureErase);
      NothingRemovedBeforeRun(url, w, leaveSafetyBuffer, useSecureErase);
      EndsWithTwo(pre + stop, RemoveItem(JunkPath(dir)), RemoveItem(dir));
    } else {
      NothingRemovedBeforeRun(url, w, leaveSafetyBuffer, useSecureErase);
    }
  }

  /** Until dd has run, `doWipe` removes nothing. */
  lemma NothingRemovedBeforeRun(url: Url, w: VolumeWorld, leaveSafetyBuffer: bool, useSecureErase: bool)
    ensures var pre := [CreateDirectory(FillDirectory(WorkingRoot(url.path)))]
                       + AssemblyEffects(url, w, leaveSafetyBuffer, useSecureErase);
            forall e :: e in pre ==> !e.RemoveItem?
    ensures !Launched(w) ==> forall e :: e in WipeEffects(url, w, leaveSafetyBuffer, useSecureErase) ==> !e.RemoveItem?
  {
  }

  /** Once dd was started, the cleanup (after a terminate, on a cancel) follows the assembly. */
  lemma LaunchedEffects(url: Url, w: VolumeWorld, leaveSafetyBuffer: bool, useSecureErase: bool)
    requires Launched(w)
    ensures var dir := FillDirectory(WorkingRoot(url.path));
            WipeEffects(url, w, leaveSafetyBuffer, useSecureErase)
            == ([CreateDirectory(dir)] + AssemblyEffects(url, w, leaveSafetyBuffer, useSecureErase)
                + (if w.cancelAfter.Some? then [Terminate] else []))
               + [RemoveItem(JunkPath(dir)), RemoveItem(dir)]
  {
    var dir := FillDirectory(WorkingRoot(url.path));
    AppendAssociative([CreateDirectory(dir)] + AssemblyEffects(url, w, leaveSafetyBuffer, useSecureErase),
                      if w.cancelAfter.Some? then [Terminate] else [],
                      [RemoveItem(JunkPath(dir)), RemoveItem(dir)]);
  }

  // A sequence identity; it only splits verification work.
  lemma EndsWithTwo<T>(a: seq<T>, x: T, y: T)
    ensures (a + [x, y])[|a + [x, y]| - 2..] == [x, y]
  {
  }

  /** dd is terminated exactly when the user cancelled while it ran, and before the cleanup. */
  lemma TerminateOnlyOnCancel(url: Url, w: VolumeWorld, leaveSafetyBuffer: bool, useSecureErase: bool)
    ensures var effects := WipeEffects(url, w, leaveSafetyBuffer, useSecureErase);
            && (Terminate in effects <==> CancelledAt(w))
            && (CancelledAt(w) ==> |effects| >= 3 && effects[|effects| - 3] == Terminate)
  {
  }

  /**
    After one volume a cancel traps exactly when that volume's dd process was
    assembled but failed to start; a volume whose folder could not be created
    leaves the previous process, and with it the previous answer.
   */
  lemma CancelTrapsAfterWipe(task: Option<DdProcess>, url: Url, w: VolumeWorld, leaveSafetyBuffer: bool, useSecureErase: bool)
    ensures CancelTraps(WipeTask(task, url, w, leaveSafetyBuffer, useSecureErase))
            <==> if w.createDirectory.Failed? then CancelTraps(task) else w.launch.Failed?
  {
  }

  /**
    Whether a cancel traps after the first `n` volumes, read from the worlds:
    the last volume whose folder was created decides, by its launch failing;
    with no such volume, the process held before the run decides.
   */
  function TrapsAfter(before: bool, n: nat, world: nat -> VolumeWorld): bool
  {
    if n == 0 then before
    else if world(n - 1).createDirectory.Failed? then TrapsAfter(before, n - 1, world)
    else world(n - 1).launch.Failed?
  }

  /** A cancel after a whole run traps exactly as `TrapsAfter` says. */
  lemma {:induction false} CancelTrapsAfterRun(task: Option<DdProcess>, targets: seq<Target>, world: nat -> VolumeWorld,
                                               leaveSafetyBuffer: bool, useSecureErase: bool)
    ensures CancelTraps(RunTask(task, targets, world, leaveSafetyBuffer, useSecureErase))
            <==> TrapsAfter(CancelTraps(task), |targets|, world)
  {
    if targets != [] {
      var init := targets[..|targets| - 1];
      CancelTrapsAfterRun(task, init, world, leaveSafetyBuffer, useSecureErase);
      CancelTrapsAfterWipe(RunTask(task, init, world, leaveSafetyBuffer, useSecureErase),
                           targets[|targets| - 1].url, world(|targets| - 1), leaveSafetyBuffer, useSecureErase);
    }
  }

  /**
    Everything `doWipe` creates or removes lies strictly inside the queued
    volume, and never at the top of the data partition itself.
   */
  lemma FillStaysInsideVolume(url: Url, w: VolumeWorld, leaveSafetyBuffer: bool, useSecureErase: bool)
    ensures forall e :: e in WipeEffects(url, w, leaveSafetyBuffer, useSecureErase) && (e.CreateDirectory? || e.RemoveItem?)
              ==> url.path < e.path && WorkingRoot(url.path) < e.path && e.path != DataVolume
  {
    FilesystemPaths(url, w, leaveSafetyBuffer, useSecureErase);
    FillPathsInsideVolume(url.path);
  }

  /** The only paths `doWipe` creates or removes are the fill folder and the fill file. */
  lemma FilesystemPaths(url: Url, w: VolumeWorld, leaveSafetyBuffer: bool, useSecureErase: bool)
    ensures var dir := FillDirectory(WorkingRoot(url.path));
            forall e :: e in WipeEffects(url, w, leaveSafetyBuffer, useSecureErase) && (e.CreateDirectory? || e.RemoveItem?)
              ==> e.path == dir || e.path == JunkPath(dir)
  {
  }

  lemma FillPathsInsideVolume(path: string)
    ensures var root := WorkingRoot(path);
            && path < FillDirectory(root) && root < FillDirectory(root) && FillDirectory(root) != DataVolume
            && path < JunkPath(FillDirectory(root)) && root < JunkPath(FillDirectory(root))
            && JunkPath(FillDirectory(root)) != DataVolume
  {
    var root := WorkingRoot(path);
    WorkingRootInsideVolume(path);
    FillPaths(root);
    PrefixTransitive(path, root, FillDirectory(root));
    PrefixTransitive(root, FillDirectory(root), JunkPath(FillDirectory(root)));
    PrefixTransitive(path, FillDirectory(root), JunkPath(FillDirectory(root)));
    if path == DataVolume {
      PrefixTransitive(DataVolume, root, FillDirectory(root));
      PrefixTransitive(DataVolume, FillDirectory(root), JunkPath(FillDirectory(root)));
    }
  }

  lemma PrefixTransitive(a: string, b: string, c: string)
    requires a <= b && b < c
    ensures a < c
  {
    assert c[..|b|][..|a|] == c[..|a|];
  }

  // ───────────────────────────── Progress

  /**
    Progress is not reset per volume: a volume whose dd output never carries
    a byte count leaves the previous volume's value in place, and so does a
    volume without a byte budget.
   */
  lemma ProgressCarriesOver(progress: real, w: VolumeWorld, leaveSafetyBuffer: bool)
    ensures (forall i :: 0 <= i < |w.output| ==> Silent(w.output[i])) ==> WipeProgress(progress, w, leaveSafetyBuffer) == progress
    ensures !leaveSafetyBuffer ==> WipeProgress(progress, w, leaveSafetyBuffer) == progress
  {
    var delivered := Delivered(w);
    var totalBytes := TotalBytes(BlockCount(leaveSafetyBuffer, w.capacity));
    if forall i :: 0 <= i < |w.output| ==> Silent(w.output[i]) {
      assert forall i :: 0 <= i < |delivered| ==> delivered[i] == w.output[i];
      SilentOutputKeepsProgress(progress, delivered, totalBytes);
    }
    if !leaveSafetyBuffer {
      NoBudgetNoProgress(progress, delivered, totalBytes);
    }
  }

  /** Across the whole queue the progress value stays a percentage. */
  lemma {:induction false} RunProgressInRange(progress: real, targets: seq<Target>, world: nat -> VolumeWorld, leaveSafetyBuffer: bool)
    requires 0.0 <= progress <= 100.0
    ensures 0.0 <= RunProgress(progress, targets, world, leaveSafetyBuffer) <= 100.0
  {
    if targets != [] {
      var init := targets[..|targets| - 1];
      var w := world(|targets| - 1);
      RunProgressInRange(progress, init, world, leaveSafetyBuffer);
      ProgressStaysInRange(RunProgress(progress, init, world, leaveSafetyBuffer), Delivered(w),
                           TotalBytes(BlockCount(leaveSafetyBuffer, w.capacity)));
    }
  }

  /** Without the safety buffer there is no byte budget, and the progress value never moves. */
  lemma {:induction false} NoBufferNoProgress(progress: real, targets: seq<Target>, world: nat -> VolumeWorld)
    ensures RunProgress(progress, targets, world, false) == progress
  {
    if targets != [] {
      RunProgressNoBufferStep(progress, targets, world);
    }
  }

  lemma {:induction false} RunProgressNoBufferStep(progress: real, targets: seq<Target>, world: nat -> VolumeWorld)
    requires targets != []
    ensures RunProgress(progress, targets, world, false) == progress
    decreases |targets|
  {
    var init := targets[..|targets| - 1];
    if init != [] {
      RunProgressNoBufferStep(progress, init, world);
    }
    ProgressCarriesOver(RunProgress(progress, init, world, false), world(|targets| - 1), false);
  }

  // ───────────────────────────── The queue

  /** Every visited bookmark either joins the queue or leaves one failure line. */
  lemma {:induction false} QueueAccounting(t: Table, order: seq<Url>, resolve: BookmarkData -> Resolution)
    requires forall i :: 0 <= i < |order| ==> order[i] in t
    ensures |QueueTargets(t, order, resolve)| + |ResolveFailures(t, order, resolve)| == |order|
  {
    if order != [] {
      QueueAccounting(t, order[..|order| - 1], resolve);
    }
  }

  /** Over the whole table: queue length and failure count add up to the number of saved bookmarks. */
  lemma EveryBookmarkCounted(t: Table, order: seq<Url>, resolve: BookmarkData -> Resolution)
    requires ListsOnce(t, t.Keys, order)
    ensures |QueueTargets(t, order, resolve)| + |ResolveFailures(t, order, resolve)| == |t|
  {
    QueueAccounting(t, order, resolve);
  }

  /**
    The bookmark visited k-th joins the queue as its resolved URL's target when
    it resolves, and otherwise leaves a failure line naming its saved path.
   */
  lemma {:induction false} BookmarkAccountedFor(t: Table, order: seq<Url>, resolve: BookmarkData -> Resolution, k: nat)
    requires forall i :: 0 <= i < |order| ==> order[i] in t
    requires k < |order|
    ensures var r := resolve(t[order[k]]);
            && (r.Resolved? ==> TargetFor(r.url) in QueueTargets(t, order, resolve))
            && (r.Unresolved? ==> ResolveFailed(order[k].path, r.reason) in ResolveFailures(t, order, resolve))
  {
    var init := order[..|order| - 1];
    if k < |init| {
      BookmarkAccountedFor(t, init, resolve, k);
    }
  }

  /** No queued volume is the root "/": the root volume is queued as the data partition. */
  lemma {:induction false} QueuedTargetsAvoidRoot(t: Table, order: seq<Url>, resolve: BookmarkData -> Resolution)
    requires forall i :: 0 <= i < |order| ==> order[i] in t
    ensures forall target :: target in QueueTargets(t, order, resolve) ==> target.url.path != Root
  {
    if order != [] {
      QueuedTargetsAvoidRoot(t, order[..|order| - 1], resolve);
    }
  }
}
