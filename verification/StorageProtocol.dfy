/** One key of the disk cache, step by step: S3 keeps every version ever uploaded,
    other writers upload whenever they like, files vanish, processes crash. */
module StorageProtocol {
  import opened Options
  import opened StorageBackend

  datatype Object = Object(etag: Etag, bytes: Bytes)

  /** Where the cached bytes came from: an uploaded version, or an upload that never
      reached S3. */
  datatype Copy = Version(index: nat) | Unsaved(bytes: Bytes)

  /** A sidecar names a version, or was torn by a crash in the middle of its write. */
  datatype Sidecar = Torn | Tag(index: nat)

  /** Where the holder of the key's lock stands. */
  datatype Op =
    | Idle
    | Comparing(cached: Sidecar)
    | Stale
    | Tagged(tag: Option<nat>)
    | Fetched(tag: Option<nat>, index: nat)
    | Tagging(index: nat)
    | Writing(index: nat)
    | Saving(bytes: Bytes)
    | Putting(bytes: Bytes)
    | Confirming

  /** since is history: how many versions there were when warm_cache was entered. */
  datatype Store = Store(objects: seq<Object>, local: Option<Copy>, sidecar: Option<Sidecar>, op: Op, since: nat)

  datatype PutResult = Applied | AppliedThenRaised | Lost

  datatype Step =
    | Foreign(object: Object)
    | RemoveLocal
    | RemoveSidecar
    | Crash
    | Look
    | Compare(reached: bool)
    | Head(reached: bool)
    | Get(reached: bool)
    | Replace
    | Truncate
    | WriteSidecar
    | StartSave(bytes: Bytes)
    | ReplaceOwn
    | Put(result: PutResult, etag: Etag)
    | Confirm(reached: bool)

  predicate Enabled(s: Store, step: Step) {
    match step
    case Foreign(_) => true
    case RemoveLocal => true
    case RemoveSidecar => true
    case Crash => true
    case Look => s.op.Idle?
    case Compare(_) => s.op.Comparing?
    case Head(_) => s.op.Stale?
    case Get(_) => s.op.Tagged?
    case Replace => s.op.Fetched?
    case Truncate => s.op.Tagging?
    case WriteSidecar => s.op.Writing?
    case StartSave(_) => s.op.Idle?
    case ReplaceOwn => s.op.Saving?
    case Put(_, _) => s.op.Putting?
    case Confirm(_) => s.op.Confirming?
  }

  predicate Answers(s: Store, reached: bool) { reached && |s.objects| > 0 }

  /** The sidecar's text is the current ETag. */
  predicate Matches(s: Store, cached: Sidecar) {
    cached.Tag? && |s.objects| > 0 && cached.index < |s.objects| &&
      s.objects[cached.index].etag == s.objects[|s.objects| - 1].etag
  }

  function Next(s: Store, step: Step): Store
    requires Enabled(s, step)
  {
    var last := if |s.objects| > 0 then |s.objects| - 1 else 0;
    match step
    case Foreign(o) => s.(objects := s.objects + [o])
    case RemoveLocal => s.(local := None)
    case RemoveSidecar => s.(sidecar := None)
    case Crash => s.(op := Idle)
    case Look =>
      s.(op := if s.local.Some? && s.sidecar.Some? then Comparing(s.sidecar.value) else Stale, since := |s.objects|)
    case Compare(reached) =>
      s.(op := if !Answers(s, reached) || Matches(s, s.op.cached) then Idle else Stale)
    case Head(reached) => s.(op := Tagged(if Answers(s, reached) then Some(last) else None))
    case Get(reached) => s.(op := if Answers(s, reached) then Fetched(s.op.tag, last) else Idle)
    case Replace =>
      s.(local := Some(Version(s.op.index)), op := if s.op.tag.Some? then Tagging(s.op.tag.value) else Idle)
    case Truncate => s.(sidecar := Some(Torn), op := Writing(s.op.index))
    case WriteSidecar => s.(sidecar := Some(Tag(s.op.index)), op := Idle)
    case StartSave(bytes) => s.(op := Saving(bytes))
    case ReplaceOwn => s.(local := Some(Unsaved(s.op.bytes)), op := Putting(s.op.bytes))
    case Put(result, etag) =>
      if result.Lost? then s.(op := Idle)
      else
        s.(objects := s.objects + [Object(etag, s.op.bytes)],
           local := if s.local.Some? then Some(Version(|s.objects|)) else None,
           op := if result.Applied? then Confirming else Idle)
    case Confirm(reached) => s.(op := if Answers(s, reached) then Tagging(last) else Idle)
  }

  predicate Runs(s: Store, steps: seq<Step>)
    decreases |steps|
  {
    |steps| == 0 || (Enabled(s, steps[0]) && Runs(Next(s, steps[0]), steps[1..]))
  }

  function After(s: Store, steps: seq<Step>): Store
    requires Runs(s, steps)
    decreases |steps|
  {
    if |steps| == 0 then s else After(Next(s, steps[0]), steps[1..])
  }

  // ---- The invariant ---------------------------------------------------------------------

  /** A sidecar's version is no newer than the local file's; bytes that never reached
      S3 may only sit beside a version that is already out of date. */
  predicate Below(s: Store, c: Sidecar) {
    c.Tag? ==>
      c.index < |s.objects| &&
      (s.local.Some? ==>
         match s.local.value
         case Version(l) => c.index <= l
         case Unsaved(_) => c.index < |s.objects| - 1)
  }

  predicate LocalInRange(s: Store) {
    s.local.Some? && s.local.value.Version? ==> s.local.value.index < |s.objects|
  }

  /** sidecar version <= local version <= current version. */
  predicate InOrder(s: Store) {
    LocalInRange(s) && (s.sidecar.Some? ==> Below(s, s.sidecar.value))
  }

  /** The same, with the lock holder's half-finished work taken into account. */
  predicate Ordered(s: Store) {
    match s.op
    case Putting(bytes) =>
      InOrder(s.(local := None)) && (s.local.Some? ==> s.local.value == Unsaved(bytes))
    case Fetched(tag, g) =>
      InOrder(s) && g < |s.objects| && (tag.Some? ==> tag.value <= g)
      && (s.sidecar.Some? && s.sidecar.value.Tag? ==> s.sidecar.value.index <= g)
    case Tagged(tag) => InOrder(s) && (tag.Some? ==> tag.value < |s.objects|)
    case Tagging(i) => InOrder(s) && Below(s, Tag(i)) && NothingUnsaved(s)
    case Writing(i) => InOrder(s) && Below(s, Tag(i)) && NothingUnsaved(s)
    case Comparing(c) => InOrder(s) && Below(s, c)
    case Confirming => InOrder(s) && |s.objects| > 0 && NothingUnsaved(s)
    case _ => InOrder(s)
  }

  predicate NothingUnsaved(s: Store) { s.local.Some? ==> s.local.value.Version? }

  /** The steps that break the order: a save that dies, or is refused, after putting
      its bytes beside a sidecar that is current; and a save that confirms with the
      ETag of someone else's upload. */
  predicate Hazard(s: Store, step: Step) {
    match step
    case Crash => s.op.Putting? && CurrentSidecar(s)
    case Put(result, _) => result.Lost? && CurrentSidecar(s)
    case Confirm(reached) => Answers(s, reached) && s.local.Some? && s.local.value != Version(|s.objects| - 1)
    case _ => false
  }

  predicate CurrentSidecar(s: Store) {
    s.local.Some? && s.sidecar.Some? && s.sidecar.value.Tag? && s.sidecar.value.index == |s.objects| - 1
  }

  /** Whatever other writers, failed requests, vanishing files and crashes do, a step
      keeps the order exactly when it is not one of the hazards. */
  lemma StepKeepsOrderedIff(s: Store, step: Step)
    requires Ordered(s) && Enabled(s, step)
    ensures Ordered(Next(s, step)) <==> !Hazard(s, step)
  {}

  predicate HazardFree(s: Store, steps: seq<Step>)
    requires Runs(s, steps)
    decreases |steps|
  {
    |steps| == 0 || (!Hazard(s, steps[0]) && HazardFree(Next(s, steps[0]), steps[1..]))
  }

  predicate IsSaveStep(step: Step) { step.StartSave? || step.ReplaceOwn? || step.Put? || step.Confirm? }

  lemma {:induction false} RunKeepsOrdered(s: Store, steps: seq<Step>)
    requires Ordered(s) && Runs(s, steps) && HazardFree(s, steps)
    ensures Ordered(After(s, steps))
    decreases |steps|
  {
    if |steps| > 0 {
      StepKeepsOrderedIff(s, steps[0]);
      RunKeepsOrdered(Next(s, steps[0]), steps[1..]);
    }
  }

  /** Without saves there are no hazards: foreign uploads, failed requests, vanishing
      files and crashes at any point all keep the order. */
  lemma {:induction false} DownloadsAreHazardFree(s: Store, steps: seq<Step>)
    requires !s.op.Saving? && !s.op.Putting? && !s.op.Confirming?
    requires Runs(s, steps) && forall step :: step in steps ==> !IsSaveStep(step)
    ensures HazardFree(s, steps)
    decreases |steps|
  {
    if |steps| > 0 {
      assert steps[0] in steps;
      DownloadsAreHazardFree(Next(s, steps[0]), steps[1..]);
    }
  }

  // ---- What a matching ETag means -------------------------------------------------------------

  predicate DistinctEtags(objects: seq<Object>) {
    forall i, j :: 0 <= i < j < |objects| ==> objects[i].etag != objects[j].etag
  }

  function Content(s: Store): Bytes
    requires s.local.Some? && LocalInRange(s)
  {
    match s.local.value
    case Version(l) => s.objects[l].bytes
    case Unsaved(bytes) => bytes
  }

  /** On every hazard-free run, a sidecar that matches S3's current ETag sits beside
      exactly S3's current bytes. */
  lemma MatchMeansCurrent(s0: Store, steps: seq<Step>)
    requires Ordered(s0) && Runs(s0, steps) && HazardFree(s0, steps)
    requires DistinctEtags(After(s0, steps).objects)
    ensures var s := After(s0, steps);
      s.local.Some? && s.sidecar.Some? && Matches(s, s.sidecar.value) && !s.op.Putting? ==>
        LocalInRange(s) && Content(s) == s.objects[|s.objects| - 1].bytes
  {
    RunKeepsOrdered(s0, steps);
  }

  // ---- warm_cache ---------------------------------------------------------------------------

  /** What the download in progress will install is no older than what S3 held when
      warm_cache was entered. */
  predicate Timely(s: Store) {
    s.since <= |s.objects| &&
    match s.op
    case Fetched(_, g) => s.since <= g + 1
    case Tagging(_) => s.local.Some? && s.local.value.Version? ==> s.since <= s.local.value.index + 1
    case Writing(_) => s.local.Some? && s.local.value.Version? ==> s.since <= s.local.value.index + 1
    case Confirming => s.local.Some? && s.local.value.Version? ==> s.since <= s.local.value.index + 1
    case _ => true
  }

  lemma StepKeepsTimely(s: Store, step: Step)
    requires Timely(s) && Enabled(s, step)
    ensures Timely(Next(s, step))
  {}

  lemma {:induction false} RunKeepsTimely(s: Store, steps: seq<Step>)
    requires Timely(s) && Runs(s, steps)
    ensures Timely(After(s, steps))
    decreases |steps|
  {
    if |steps| > 0 {
      StepKeepsTimely(s, steps[0]);
      RunKeepsTimely(Next(s, steps[0]), steps[1..]);
    }
  }

  /** The steps with which warm_cache hands its file to the caller, S3 reachable. */
  predicate WarmReturns(s: Store, step: Step) {
    match step
    case Compare(reached) => s.op.Comparing? && Answers(s, reached) && Matches(s, s.op.cached)
    case Replace => s.op.Fetched? && s.op.tag.None?
    case WriteSidecar => s.op.Writing?
    case _ => false
  }

  /** warm_cache never returns a file older than the version that was current when
      it was called, unless S3 could not be reached. */
  lemma WarmReturnsFresh(s0: Store, steps: seq<Step>, step: Step)
    requires Ordered(s0) && Timely(s0) && Runs(s0, steps) && HazardFree(s0, steps)
    requires Enabled(After(s0, steps), step) && WarmReturns(After(s0, steps), step)
    requires DistinctEtags(After(s0, steps).objects)
    ensures var s := Next(After(s0, steps), step);
      s.local.Some? ==> s.local.value.Version? && s.since <= s.local.value.index + 1
  {
    RunKeepsOrdered(s0, steps);
    RunKeepsTimely(s0, steps);
  }

  // ---- save_model_bytes --------------------------------------------------------------------------

  lemma AfterCons(s: Store, step: Step, steps: seq<Step>)
    requires Enabled(s, step)
    ensures Runs(s, [step] + steps) == Runs(Next(s, step), steps)
    ensures Runs(s, [step] + steps) ==> After(s, [step] + steps) == After(Next(s, step), steps)
  {
    assert ([step] + steps)[1..] == steps;
  }

  lemma {:induction false} AfterConcat(s: Store, a: seq<Step>, b: seq<Step>)
    requires Runs(s, a) && Runs(After(s, a), b)
    ensures Runs(s, a + b) && After(s, a + b) == After(After(s, a), b)
    decreases |a|
  {
    if |a| == 0 {
      assert a + b == b;
    } else {
      AfterConcat(Next(s, a[0]), a[1..], b);
      AfterCons(s, a[0], a[1..] + b);
      assert a + b == [a[0]] + (a[1..] + b);
    }
  }

  function UploadSteps(bytes: Bytes, etag: Etag): seq<Step> { [StartSave(bytes), ReplaceOwn, Put(Applied, etag)] }

  function ConfirmSteps(): seq<Step> { [Confirm(true), Truncate, WriteSidecar] }

  lemma Uploads(s: Store, bytes: Bytes, etag: Etag)
    requires s.op.Idle?
    ensures Runs(s, UploadSteps(bytes, etag))
    ensures After(s, UploadSteps(bytes, etag)) ==
              s.(objects := s.objects + [Object(etag, bytes)], local := Some(Version(|s.objects|)), op := Confirming)
  {
    var s1 := Next(s, StartSave(bytes));
    AfterCons(s, StartSave(bytes), [ReplaceOwn, Put(Applied, etag)]);
    AfterCons(s1, ReplaceOwn, [Put(Applied, etag)]);
    AfterCons(Next(s1, ReplaceOwn), Put(Applied, etag), []);
  }

  lemma Confirms(s: Store)
    requires s.op.Confirming? && |s.objects| > 0
    ensures Runs(s, ConfirmSteps())
    ensures After(s, ConfirmSteps()) == s.(sidecar := Some(Tag(|s.objects| - 1)), op := Idle)
  {
    var s1 := Next(s, Confirm(true));
    AfterCons(s, Confirm(true), [Truncate, WriteSidecar]);
    AfterCons(s1, Truncate, [WriteSidecar]);
    AfterCons(Next(s1, Truncate), WriteSidecar, []);
  }

  /** What may happen while a save runs its course: its own steps, all successful, any
      file removals, and foreign uploads except between its PUT and its HEAD. */
  predicate SaveStep(s: Store, step: Step) {
    match step
    case Foreign(_) => !s.op.Confirming?
    case RemoveLocal => true
    case RemoveSidecar => true
    case ReplaceOwn => true
    case Put(result, _) => result.Applied?
    case Confirm(reached) => reached
    case Truncate => true
    case WriteSidecar => true
    case _ => false
  }

  predicate SaveRun(s: Store, steps: seq<Step>)
    requires Runs(s, steps)
    decreases |steps|
  {
    |steps| == 0 || (SaveStep(s, steps[0]) && SaveRun(Next(s, steps[0]), steps[1..]))
  }

  /** The local file is gone or holds the version i. */
  predicate LocalIs(s: Store, i: nat) { s.local.Some? ==> s.local.value == Version(i) }

  predicate Uploaded(s: Store, i: nat, bytes: Bytes) { i < |s.objects| && s.objects[i].bytes == bytes }

  /** How far a save of bytes has come. */
  predicate SaveProgress(s: Store, bytes: Bytes) {
    match s.op
    case Saving(b) => b == bytes
    case Putting(b) => b == bytes && (s.local.Some? ==> s.local.value == Unsaved(bytes))
    case Confirming => |s.objects| > 0 && Uploaded(s, |s.objects| - 1, bytes) && LocalIs(s, |s.objects| - 1)
    case Tagging(i) => Uploaded(s, i, bytes) && LocalIs(s, i)
    case Writing(i) => Uploaded(s, i, bytes) && LocalIs(s, i) && (s.sidecar.Some? ==> s.sidecar.value.Torn?)
    case Idle => Saved(s, bytes)
    case _ => false
  }

  /** File and sidecar, as far as they are still there, name one version, and it
      holds these bytes. */
  predicate Saved(s: Store, bytes: Bytes) {
    exists i :: 0 <= i < |s.objects| && Uploaded(s, i, bytes) && LocalIs(s, i) &&
      (s.sidecar.Some? ==> s.sidecar.value == Tag(i))
  }

  lemma SaveStepProgresses(s: Store, step: Step, bytes: Bytes)
    requires SaveProgress(s, bytes) && Enabled(s, step) && SaveStep(s, step)
    ensures SaveProgress(Next(s, step), bytes)
  {
    var s' := Next(s, step);
    match s.op
    case Idle =>
      var i :| 0 <= i < |s.objects| && Uploaded(s, i, bytes) && LocalIs(s, i) &&
        (s.sidecar.Some? ==> s.sidecar.value == Tag(i));
      assert Uploaded(s', i, bytes) && LocalIs(s', i);
    case Writing(i) => assert Uploaded(s', i, bytes) && LocalIs(s', i);
    case _ =>
  }

  lemma {:induction false} SaveRunProgresses(s: Store, steps: seq<Step>, bytes: Bytes)
    requires SaveProgress(s, bytes) && Runs(s, steps) && SaveRun(s, steps)
    ensures SaveProgress(After(s, steps), bytes)
    decreases |steps|
  {
    if |steps| > 0 {
      SaveStepProgresses(s, steps[0], bytes);
      SaveRunProgresses(Next(s, steps[0]), steps[1..], bytes);
    }
  }

  /** A save that reaches its end, with no foreign upload between its PUT and its HEAD,
      restores the order from any state, however its steps interleave with file
      removals and with foreign uploads before the PUT or after the HEAD. What is
      left on disk is the version it uploaded. */
  lemma CleanSaveRestores(s: Store, bytes: Bytes, steps: seq<Step>)
    requires s.op.Idle?
    requires var s1 := Next(s, StartSave(bytes)); Runs(s1, steps) && SaveRun(s1, steps) && After(s1, steps).op.Idle?
    ensures var s' := After(Next(s, StartSave(bytes)), steps); Ordered(s') && Saved(s', bytes)
  {
    SaveRunProgresses(Next(s, StartSave(bytes)), steps, bytes);
  }

  /** Such runs exist from every idle state: the save left to itself. */
  lemma SaveCompletes(s: Store, bytes: Bytes, etag: Etag)
    requires s.op.Idle?
    ensures Runs(s, UploadSteps(bytes, etag) + ConfirmSteps())
    ensures After(s, UploadSteps(bytes, etag) + ConfirmSteps()) ==
              s.(objects := s.objects + [Object(etag, bytes)], local := Some(Version(|s.objects|)),
                 sidecar := Some(Tag(|s.objects|)))
  {
    Uploads(s, bytes, etag);
    Confirms(After(s, UploadSteps(bytes, etag)));
    AfterConcat(s, UploadSteps(bytes, etag), ConfirmSteps());
  }

  /** The cache lies: the ETag matches and the bytes do not, and warm_cache serves them. */
  predicate Lies(s: Store) {
    && s.op.Idle? && s.local.Some? && LocalInRange(s) && s.sidecar.Some?
    && Matches(s, s.sidecar.value)
    && Content(s) != s.objects[|s.objects| - 1].bytes
    && Runs(s, [Look, Compare(true)])
    && After(s, [Look, Compare(true)]).op.Idle?
    && After(s, [Look, Compare(true)]).local == s.local
  }

  lemma LyingServes(s: Store)
    requires s.op.Idle? && s.local.Some? && s.sidecar.Some? && Matches(s, s.sidecar.value)
    ensures Runs(s, [Look, Compare(true)])
    ensures After(s, [Look, Compare(true)]).op.Idle? && After(s, [Look, Compare(true)]).local == s.local
  {
    AfterCons(s, Look, [Compare(true)]);
    AfterCons(Next(s, Look), Compare(true), []);
  }

  /** Both halves of the first hazard: after an upload that was refused, or a crash
      before it, the cache lies whenever the old sidecar was current. */
  lemma LostSaveLies(s: Store, bytes: Bytes, etag: Etag, crash: bool)
    requires s.op.Idle? && |s.objects| > 0 && bytes != s.objects[|s.objects| - 1].bytes
    requires s.sidecar == Some(Tag(|s.objects| - 1))
    ensures var steps := [StartSave(bytes), ReplaceOwn, if crash then Crash else Put(Lost, etag)];
      Runs(s, steps) && Lies(After(s, steps))
  {
    var s1 := Next(s, StartSave(bytes));
    var s2 := Next(s1, ReplaceOwn);
    var last := if crash then Crash else Put(Lost, etag);
    AfterCons(s, StartSave(bytes), [ReplaceOwn, last]);
    AfterCons(s1, ReplaceOwn, [last]);
    AfterCons(s2, last, []);
    LyingServes(Next(s2, last));
  }

  /** And the second: an upload by someone else between a save's PUT and its HEAD. */
  lemma RacedSaveLies(s: Store, bytes: Bytes, etag: Etag, other: Object)
    requires s.op.Idle? && other.bytes != bytes
    ensures Runs(s, UploadSteps(bytes, etag) + ([Foreign(other)] + ConfirmSteps()))
    ensures Lies(After(s, UploadSteps(bytes, etag) + ([Foreign(other)] + ConfirmSteps())))
  {
    Uploads(s, bytes, etag);
    var s1 := After(s, UploadSteps(bytes, etag));
    var s2 := Next(s1, Foreign(other));
    Confirms(s2);
    AfterCons(s1, Foreign(other), ConfirmSteps());
    AfterConcat(s, UploadSteps(bytes, etag), [Foreign(other)] + ConfirmSteps());
    LyingServes(After(s2, ConfirmSteps()));
  }

  // ---- The steps, run without interruption, are the backend's methods ------------------------------

  /** A torn sidecar reads as text that is no ETag; the empty string stands for it. */
  function DiskOf(s: Store): Disk
    requires LocalInRange(s) && SidecarInRange(s)
  {
    Disk(if s.local.Some? then Some(Content(s)) else None,
         if s.sidecar.None? then None
         else if s.sidecar.value.Torn? then Some("")
         else Some(s.objects[s.sidecar.value.index].etag))
  }

  predicate SidecarInRange(s: Store) {
    s.sidecar.Some? && s.sidecar.value.Tag? ==> s.sidecar.value.index < |s.objects|
  }

  function EtagNow(s: Store, reached: bool): Option<Etag> {
    if Answers(s, reached) then Some(s.objects[|s.objects| - 1].etag) else None
  }

  function BytesNow(s: Store, reached: bool): Option<Bytes> {
    if Answers(s, reached) then Some(s.objects[|s.objects| - 1].bytes) else None
  }

  function InstallSteps(s: Store, head: bool, get: bool): seq<Step> {
    if !Answers(s, get) then []
    else if Answers(s, head) then [Replace, Truncate, WriteSidecar]
    else [Replace]
  }

  function DownloadSteps(s: Store, head: bool, get: bool): seq<Step> {
    [Head(head), Get(get)] + InstallSteps(s, head, get)
  }

  predicate NeedsDownload(s: Store, check: bool) {
    s.local.None? || s.sidecar.None? || (Answers(s, check) && !Matches(s, s.sidecar.value))
  }

  function CheckSteps(s: Store, check: bool): seq<Step> {
    if s.local.None? || s.sidecar.None? then [Look] else [Look, Compare(check)]
  }

  function WarmSteps(s: Store, check: bool, head: bool, get: bool): seq<Step> {
    CheckSteps(s, check) + if NeedsDownload(s, check) then DownloadSteps(s, head, get) else []
  }

  function Installed(s: Store, head: bool, get: bool): Store {
    if !Answers(s, get) then s.(op := Idle)
    else
      s.(local := Some(Version(|s.objects| - 1)), op := Idle,
         sidecar := if Answers(s, head) then Some(Tag(|s.objects| - 1)) else s.sidecar)
  }

  lemma DownloadRuns(s: Store, head: bool, get: bool)
    requires s.op.Stale?
    ensures Runs(s, DownloadSteps(s, head, get)) && After(s, DownloadSteps(s, head, get)) == Installed(s, head, get)
  {
    var s1 := Next(s, Head(head));
    var s2 := Next(s1, Get(get));
    AfterCons(s, Head(head), [Get(get)]);
    AfterCons(s1, Get(get), []);
    assert After(s, [Head(head), Get(get)]) == s2;
    if Answers(s, get) {
      var s3 := Next(s2, Replace);
      AfterCons(s2, Replace, if Answers(s, head) then [Truncate, WriteSidecar] else []);
      if Answers(s, head) {
        AfterCons(s3, Truncate, [WriteSidecar]);
        AfterCons(Next(s3, Truncate), WriteSidecar, []);
      }
    }
    AfterConcat(s, [Head(head), Get(get)], InstallSteps(s, head, get));
  }

  lemma CheckRuns(s: Store, check: bool)
    requires s.op.Idle?
    ensures Runs(s, CheckSteps(s, check))
    ensures After(s, CheckSteps(s, check)) ==
      s.(op := if NeedsDownload(s, check) then Stale else Idle, since := |s.objects|)
  {
    var s1 := Next(s, Look);
    if s.local.None? || s.sidecar.None? {
      AfterCons(s, Look, []);
    } else {
      AfterCons(s, Look, [Compare(check)]);
      AfterCons(s1, Compare(check), []);
    }
  }

  predicate EtagsNonempty(objects: seq<Object>) { forall o :: o in objects ==> o.etag != "" }

  lemma InstalledDisk(s: Store, head: bool, get: bool)
    requires LocalInRange(s) && SidecarInRange(s) && EtagsNonempty(s.objects)
    ensures var s' := Installed(s, head, get);
      LocalInRange(s') && SidecarInRange(s') && DiskOf(s') == Downloaded(DiskOf(s), EtagNow(s, head), BytesNow(s, get))
  {
    assert |s.objects| > 0 ==> s.objects[|s.objects| - 1] in s.objects;
  }

  lemma CheckedDisk(s: Store, check: bool)
    requires LocalInRange(s) && SidecarInRange(s) && EtagsNonempty(s.objects)
    ensures CacheValid(DiskOf(s), EtagNow(s, check)) <==> !NeedsDownload(s, check)
  {
    assert |s.objects| > 0 ==> s.objects[|s.objects| - 1] in s.objects;
  }

  /** The state warm_cache's steps, left alone, end in. */
  function WarmedStore(s: Store, check: bool, head: bool, get: bool): Store {
    var s1 := s.(op := if NeedsDownload(s, check) then Stale else Idle, since := |s.objects|);
    if NeedsDownload(s, check) then Installed(s1, head, get) else s1
  }

  lemma WarmRuns(s: Store, check: bool, head: bool, get: bool)
    requires s.op.Idle?
    ensures Runs(s, WarmSteps(s, check, head, get))
    ensures After(s, WarmSteps(s, check, head, get)) == WarmedStore(s, check, head, get)
  {
    CheckRuns(s, check);
    if NeedsDownload(s, check) {
      DownloadRuns(After(s, CheckSteps(s, check)), head, get);
      AfterConcat(s, CheckSteps(s, check), DownloadSteps(s, head, get));
    } else {
      AfterConcat(s, CheckSteps(s, check), []);
    }
  }

  lemma WarmedDisk(s: Store, check: bool, head: bool, get: bool)
    requires s.op.Idle? && LocalInRange(s) && SidecarInRange(s) && EtagsNonempty(s.objects)
    ensures var s' := WarmedStore(s, check, head, get);
      s'.op.Idle? && LocalInRange(s') && SidecarInRange(s') &&
      DiskOf(s') == Warmed(DiskOf(s), EtagNow(s, check), EtagNow(s, head), BytesNow(s, get))
  {
    CheckedDisk(s, check);
    InstalledDisk(s.(op := Stale, since := |s.objects|), head, get);
  }

  /** warm_cache's steps, left alone, do what WarmCache does. */
  lemma WarmRefines(s: Store, check: bool, head: bool, get: bool)
    requires s.op.Idle? && LocalInRange(s) && SidecarInRange(s) && EtagsNonempty(s.objects)
    ensures Runs(s, WarmSteps(s, check, head, get))
    ensures var s' := After(s, WarmSteps(s, check, head, get));
      s'.op.Idle? && LocalInRange(s') && SidecarInRange(s') &&
      DiskOf(s') == Warmed(DiskOf(s), EtagNow(s, check), EtagNow(s, head), BytesNow(s, get))
  {
    WarmRuns(s, check, head, get);
    WarmedDisk(s, check, head, get);
  }

  // ---- The save refines SaveModelBytes -----------------------------------------------------

  function ConfirmationSteps(reached: bool): seq<Step> {
    if reached then ConfirmSteps() else [Confirm(false)]
  }

  /** The steps of a save left alone, for each way its PUT and its HEAD can go. */
  function SaveSteps(bytes: Bytes, result: PutResult, etag: Etag, reached: bool): seq<Step> {
    [StartSave(bytes), ReplaceOwn, Put(result, etag)] + if result.Applied? then ConfirmationSteps(reached) else []
  }

  /** The state right after the PUT. */
  function PutStore(s: Store, bytes: Bytes, result: PutResult, etag: Etag): Store {
    match result
    case Lost => s.(local := Some(Unsaved(bytes)), op := Idle)
    case AppliedThenRaised =>
      s.(objects := s.objects + [Object(etag, bytes)], local := Some(Version(|s.objects|)), op := Idle)
    case Applied =>
      s.(objects := s.objects + [Object(etag, bytes)], local := Some(Version(|s.objects|)), op := Confirming)
  }

  lemma PutRuns(s: Store, bytes: Bytes, result: PutResult, etag: Etag)
    requires s.op.Idle?
    ensures Runs(s, [StartSave(bytes), ReplaceOwn, Put(result, etag)])
    ensures After(s, [StartSave(bytes), ReplaceOwn, Put(result, etag)]) == PutStore(s, bytes, result, etag)
  {
    var s1 := Next(s, StartSave(bytes));
    AfterCons(s, StartSave(bytes), [ReplaceOwn, Put(result, etag)]);
    AfterCons(s1, ReplaceOwn, [Put(result, etag)]);
    AfterCons(Next(s1, ReplaceOwn), Put(result, etag), []);
  }

  lemma ConfirmationRuns(s: Store, reached: bool)
    requires s.op.Confirming? && |s.objects| > 0
    ensures Runs(s, ConfirmationSteps(reached))
    ensures After(s, ConfirmationSteps(reached)) ==
      s.(op := Idle, sidecar := if reached then Some(Tag(|s.objects| - 1)) else s.sidecar)
  {
    if reached { Confirms(s); } else { AfterCons(s, Confirm(false), []); }
  }

  /** The state a save left alone ends in. */
  function SavedStore(s: Store, bytes: Bytes, result: PutResult, etag: Etag, reached: bool): Store {
    var p := PutStore(s, bytes, result, etag);
    if result.Applied? && reached then p.(op := Idle, sidecar := Some(Tag(|s.objects|))) else p.(op := Idle)
  }

  lemma SaveRuns(s: Store, bytes: Bytes, result: PutResult, etag: Etag, reached: bool)
    requires s.op.Idle?
    ensures Runs(s, SaveSteps(bytes, result, etag, reached))
    ensures After(s, SaveSteps(bytes, result, etag, reached)) == SavedStore(s, bytes, result, etag, reached)
  {
    PutRuns(s, bytes, result, etag);
    var put, p := [StartSave(bytes), ReplaceOwn, Put(result, etag)], PutStore(s, bytes, result, etag);
    if result.Applied? {
      ConfirmationRuns(p, reached);
      AfterConcat(s, put, ConfirmationSteps(reached));
    } else {
      assert put + [] == put;
    }
  }

  lemma SavedDisk(s: Store, bytes: Bytes, result: PutResult, etag: Etag, reached: bool)
    requires s.op.Idle? && LocalInRange(s) && SidecarInRange(s) && etag != ""
    ensures var s' := SavedStore(s, bytes, result, etag, reached);
      LocalInRange(s') && SidecarInRange(s') &&
      DiskOf(s') == StorageBackend.Saved(DiskOf(s), bytes, result.Applied?, if reached then Some(etag) else None)
  {}

  /** save_model_bytes' steps, left alone, do what SaveModelBytes does, whether its PUT
      is applied, lost, or applied without an answer, and whether its HEAD is answered. */
  lemma SaveRefines(s: Store, bytes: Bytes, result: PutResult, etag: Etag, reached: bool)
    requires s.op.Idle? && LocalInRange(s) && SidecarInRange(s) && etag != ""
    ensures Runs(s, SaveSteps(bytes, result, etag, reached))
    ensures var s' := After(s, SaveSteps(bytes, result, etag, reached));
      s'.op.Idle? && LocalInRange(s') && SidecarInRange(s') &&
      DiskOf(s') == StorageBackend.Saved(DiskOf(s), bytes, result.Applied?, if reached then Some(etag) else None)
  {
    SaveRuns(s, bytes, result, etag, reached);
    SavedDisk(s, bytes, result, etag, reached);
  }

  /** ETags must not repeat: if another writer restores an earlier object, ETag and
      all, around a download's HEAD and GET, the order holds and the cache still lies. */
  lemma RepeatedEtagLies(first: Object, second: Object)
    requires first.bytes != second.bytes
    ensures var s := Store([first], None, None, Idle, 0);
      var before, after := [Look, Head(true), Foreign(second), Get(true)],
        [Replace, Truncate, WriteSidecar, Foreign(first)];
      Runs(s, before + after) && Ordered(After(s, before + after)) && Lies(After(s, before + after))
  {
    var s := Store([first], None, None, Idle, 0);
    var s1 := Next(s, Look);
    var s2 := Next(s1, Head(true));
    var s3 := Next(s2, Foreign(second));
    AfterCons(s, Look, [Head(true), Foreign(second), Get(true)]);
    AfterCons(s1, Head(true), [Foreign(second), Get(true)]);
    AfterCons(s2, Foreign(second), [Get(true)]);
    AfterCons(s3, Get(true), []);
    var fetched := Store([first, second], None, None, Fetched(Some(0), 1), 1);
    assert Next(s3, Get(true)) == fetched;
    RepeatedEtagInstalls(fetched, first);
    AfterConcat(s, [Look, Head(true), Foreign(second), Get(true)], [Replace, Truncate, WriteSidecar, Foreign(first)]);
  }

  lemma RepeatedEtagInstalls(s: Store, first: Object)
    requires s.op == Fetched(Some(0), 1) && |s.objects| == 2 && s.objects[0] == first &&
      s.objects[1].bytes != first.bytes
    ensures Runs(s, [Replace, Truncate, WriteSidecar, Foreign(first)])
    ensures var s' := After(s, [Replace, Truncate, WriteSidecar, Foreign(first)]); Ordered(s') && Lies(s')
  {
    var s1 := Next(s, Replace);
    var s2 := Next(s1, Truncate);
    var s3 := Next(s2, WriteSidecar);
    AfterCons(s, Replace, [Truncate, WriteSidecar, Foreign(first)]);
    AfterCons(s1, Truncate, [WriteSidecar, Foreign(first)]);
    AfterCons(s2, WriteSidecar, [Foreign(first)]);
    AfterCons(s3, Foreign(first), []);
    LyingServes(Next(s3, Foreign(first)));
  }
}
