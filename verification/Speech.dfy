/**
 Speech sessions: utterances on their way through the recogniser while their capture session may
 be invalidated at any moment. A tombstone marks an invalidated session; it is purged after a
 while, but not while utterances of that session are still counted as pending.
 Every step below is atomic: a lock-protected region, or one call of a collaborator.
 */
module Speech {

  const TTL := 300

  datatype Key = Key(device: string, command: string)

  // ---- The two tables ----

  function PendingOf(pending: map<Key, nat>, key: Key): nat { if key in pending then pending[key] else 0 }

  function Incremented(pending: map<Key, nat>, key: Key): map<Key, nat> { pending[key := PendingOf(pending, key) + 1] }

  function Decremented(pending: map<Key, nat>, key: Key): map<Key, nat> {
    if PendingOf(pending, key) > 1 then pending[key := pending[key] - 1] else pending - {key}
  }

  /** Counting an utterance in and out again leaves the table as it was, without an empty entry. */
  lemma DecrementUndoesIncrement(pending: map<Key, nat>, key: Key)
    requires key in pending ==> pending[key] > 0
    ensures Decremented(Incremented(pending, key), key) == pending
    ensures forall k :: PendingOf(Incremented(pending, key), k) == PendingOf(pending, k) + if k == key then 1 else 0
  {
    var counted := Incremented(pending, key);
    if key in pending {
      assert Decremented(counted, key) == pending[key := pending[key]];
    } else {
      assert counted - {key} == pending;
    }
  }

  predicate Expired(invalidatedAt: nat, waiting: nat, now: nat) { now - invalidatedAt >= TTL && waiting == 0 }

  function Purged(invalid: map<Key, nat>, pending: map<Key, nat>, now: nat): map<Key, nat> {
    map k | k in invalid && !Expired(invalid[k], PendingOf(pending, k), now) :: invalid[k]
  }

  // ---- Utterances in flight ----

  datatype Verdict = NoVerdict | Failed | Unsure | Sure

  datatype Stage =
    | Counted      // counted as pending for its session
    | Rejected     // the worker's queue was full
    | Refused      // the executor would not take it
    | Admitted     // counted by the worker
    | Running
    | Transcribed  // the callback is about to look at the tombstones
    | Suppressed   // a tombstone was there
    | Passed       // none was there
    | Stored       // the transcript is in the store
    | Announced    // `transcript_ready` is out
    | Handled
    | Uncounted    // no longer pending for its session
    | Over         // released by the worker

  /**
   `doomed`: the session had a tombstone at some moment between the count and the check.
   `turnedAway`: the worker's queue was full.
   */
  datatype Job = Job(key: Key, stage: Stage, verdict: Verdict, doomed: bool, turnedAway: bool)

  datatype Event =
    | SessionInvalidated(key: Key)
    | Ready(job: nat)
    | JobFailed(job: nat)
    | Semantic(job: nat, lowConfidence: bool)

  datatype State = State(clock: nat, invalid: map<Key, nat>, pending: map<Key, nat>, jobs: seq<Job>,
                         worker: nat, maxPending: nat, stored: seq<nat>, events: seq<Event>)

  function Start(maxPending: nat): State { State(0, map[], map[], [], 0, maxPending, [], []) }

  /** Still counted for its session. */
  predicate InFlight(stage: Stage) { stage !in {Uncounted, Over} }

  predicate AtWorker(stage: Stage) { stage !in {Counted, Rejected, Refused, Over} }

  predicate BeforeCheck(stage: Stage) { stage in {Counted, Rejected, Refused, Admitted, Running, Transcribed} }

  /** Done with its session: suppressed, handled, or never taken. */
  predicate Leaving(stage: Stage) { stage in {Suppressed, Handled, Rejected, Refused} }

  predicate StoreReached(job: Job) {
    job.verdict == Sure && !job.doomed && job.stage in {Stored, Announced, Handled, Uncounted, Over}
  }

  /** What has been told of a job, in this order. */
  function Told(j: nat, job: Job): seq<Event> {
    var reported := job.stage in {Handled, Uncounted, Over};
    if job.turnedAway then if job.stage == Over then [JobFailed(j)] else []
    else if job.doomed then []
    else match job.verdict
    case NoVerdict => []
    case Failed => if reported then [JobFailed(j)] else []
    case Unsure => if reported then [Semantic(j, true)] else []
    case Sure =>
      if reported then [Ready(j), Semantic(j, false)] else if job.stage == Announced then [Ready(j)] else []
  }

  predicate About(e: Event, j: nat) { !e.SessionInvalidated? && e.job == j }

  /** The events about one job, in their order. */
  function OfJob(events: seq<Event>, j: nat): seq<Event>
    decreases |events|
  {
    if events == [] then []
    else
      var last := events[|events| - 1];
      OfJob(events[..|events| - 1], j) + if About(last, j) then [last] else []
  }

  // ---- Steps ----

  datatype Step =
    | Advance(elapsed: nat)
    | Invalidate(key: Key)
    | Probe(key: Key)
    | Count(key: Key)
    | Admit(job: nat)
    | Launch(job: nat, taken: bool)
    | Complete(job: nat, verdict: Verdict)
    | Check(job: nat)
    | Store(job: nat)
    | Announce(job: nat)
    | Report(job: nat)
    | Uncount(job: nat)
    | Release(job: nat)

  function Doom(jobs: seq<Job>, key: Key): seq<Job> {
    seq(|jobs|, i requires 0 <= i < |jobs| =>
      if jobs[i].key == key && BeforeCheck(jobs[i].stage) then jobs[i].(doomed := true) else jobs[i])
  }

  function Moved(s: State, j: nat, stage: Stage): State
    requires j < |s.jobs|
  {
    s.(jobs := s.jobs[j := s.jobs[j].(stage := stage)])
  }

  function Purge(s: State): State { s.(invalid := Purged(s.invalid, s.pending, s.clock)) }

  /** The job no longer counts for its session; one that never reached the worker is over. */
  function LeaveSession(s: State, j: nat): State
    requires j < |s.jobs|
  {
    var job := s.jobs[j];
    var stage := if job.stage in {Suppressed, Handled} then Uncounted else Over;
    Moved(s, j, stage).(pending := Decremented(s.pending, job.key),
                        events := if job.stage == Rejected then s.events + [JobFailed(j)] else s.events)
  }

  function NextOf(s: State, j: nat, step: Step): (s': State)
    requires j < |s.jobs|
    ensures |s'.jobs| == |s.jobs|
  {
    var job := s.jobs[j];
    match step
    case Admit(_) =>
      if job.stage != Counted then s
      else if s.worker >= s.maxPending then
        s.(jobs := s.jobs[j := job.(stage := Rejected, turnedAway := true)])
      else Moved(s, j, Admitted).(worker := s.worker + 1)
    case Launch(_, taken) =>
      if job.stage != Admitted then s
      else if taken then Moved(s, j, Running)
      else Moved(s, j, Refused).(worker := if s.worker > 0 then s.worker - 1 else 0)
    case Complete(_, verdict) =>
      if job.stage != Running || verdict == NoVerdict then s
      else s.(jobs := s.jobs[j := job.(stage := Transcribed, verdict := verdict)])
    case Check(_) =>
      if job.stage != Transcribed then s
      else Moved(Purge(s), j, if job.key in Purge(s).invalid then Suppressed else Passed)
    case Store(_) =>
      if job.stage != Passed || job.verdict != Sure then s
      else Moved(s, j, Stored).(stored := s.stored + [j])
    case Announce(_) =>
      if job.stage != Stored then s else Moved(s, j, Announced).(events := s.events + [Ready(j)])
    case Report(_) =>
      if job.stage == Announced then Moved(s, j, Handled).(events := s.events + [Semantic(j, false)])
      else if job.stage != Passed || job.verdict == Sure then s
      else if job.verdict == Unsure then Moved(s, j, Handled).(events := s.events + [Semantic(j, true)])
      else Moved(s, j, Handled).(events := s.events + [JobFailed(j)])
    case Uncount(_) =>
      if Leaving(job.stage) then Purge(LeaveSession(s, j)) else s
    case Release(_) =>
      if job.stage != Uncounted then s
      else Moved(s, j, Over).(worker := if s.worker > 0 then s.worker - 1 else 0)
    case _ => s
  }

  function Next(s: State, step: Step): (s': State)
    ensures |s'.jobs| >= |s.jobs|
  {
    match step
    case Advance(elapsed) => s.(clock := s.clock + elapsed)
    case Invalidate(key) =>
      s.(invalid := Purge(s).invalid[key := s.clock], jobs := Doom(s.jobs, key),
         events := s.events + [SessionInvalidated(key)])
    case Probe(key) => Purge(s)
    case Count(key) =>
      s.(pending := Incremented(s.pending, key),
         jobs := s.jobs + [Job(key, Counted, NoVerdict, key in s.invalid, false)])
    case _ => if step.job < |s.jobs| then NextOf(s, step.job, step) else s
  }

  // ---- Tallies ----

  datatype Who = ForKey(key: Key) | ForWorker

  predicate Belongs(job: Job, who: Who) {
    match who
    case ForKey(key) => job.key == key && InFlight(job.stage)
    case ForWorker => AtWorker(job.stage)
  }

  function One(job: Job, who: Who): nat { if Belongs(job, who) then 1 else 0 }

  function Tally(jobs: seq<Job>, who: Who): nat
    decreases |jobs|
  {
    if jobs == [] then 0 else One(jobs[|jobs| - 1], who) + Tally(jobs[..|jobs| - 1], who)
  }

  lemma {:induction false} TallyUpdate(jobs: seq<Job>, j: nat, job: Job, who: Who)
    requires j < |jobs|
    ensures Tally(jobs[j := job], who) + One(jobs[j], who) == Tally(jobs, who) + One(job, who)
    decreases |jobs|
  {
    var last := |jobs| - 1;
    if j == last {
      assert jobs[j := job][..last] == jobs[..last];
    } else {
      TallyUpdate(jobs[..last], j, job, who);
      assert jobs[j := job][..last] == jobs[..last][j := job];
    }
  }

  lemma TallyAppend(jobs: seq<Job>, job: Job, who: Who)
    ensures Tally(jobs + [job], who) == Tally(jobs, who) + One(job, who)
  {
    assert (jobs + [job])[..|jobs|] == jobs;
  }

  lemma {:induction false} TallyDoom(jobs: seq<Job>, key: Key, who: Who)
    ensures Tally(Doom(jobs, key), who) == Tally(jobs, who)
    decreases |jobs|
  {
    if jobs != [] {
      var last := |jobs| - 1;
      TallyDoom(jobs[..last], key, who);
      assert Doom(jobs, key)[..last] == Doom(jobs[..last], key);
    }
  }

  lemma {:induction false} TallyMember(jobs: seq<Job>, j: nat, who: Who)
    requires j < |jobs| && Belongs(jobs[j], who)
    ensures Tally(jobs, who) >= 1
    decreases |jobs|
  {
    if j < |jobs| - 1 { TallyMember(jobs[..|jobs| - 1], j, who); }
  }

  // ---- The invariant ----

  ghost predicate Counting(s: State) {
    && s.worker == Tally(s.jobs, ForWorker) <= s.maxPending
    && (forall k: Key :: PendingOf(s.pending, k) == Tally(s.jobs, ForKey(k)))
    && (forall k :: k in s.pending ==> s.pending[k] > 0)
  }

  /**
   Before its check a job is doomed exactly when its session has a tombstone now; afterwards the check
   decided by it.
   */
  ghost predicate JobSound(s: State, j: nat)
    requires j < |s.jobs|
  {
    var job := s.jobs[j];
    && (BeforeCheck(job.stage) ==>
          (job.doomed <==> job.key in s.invalid) && (job.verdict != NoVerdict <==> job.stage == Transcribed))
    && (job.turnedAway ==> job.stage in {Rejected, Over} && job.verdict == NoVerdict)
    && (job.stage == Rejected ==> job.turnedAway)
    && (job.stage == Suppressed ==> job.doomed)
    && (job.stage in {Passed, Stored, Announced} ==> !job.doomed && job.verdict != NoVerdict)
    && (job.stage in {Stored, Announced} ==> job.verdict == Sure)
    && (job.stage == Handled ==> !job.doomed && job.verdict != NoVerdict)
  }

  ghost predicate JobsSound(s: State) { forall j :: 0 <= j < |s.jobs| ==> JobSound(s, j) }

  ghost predicate OutcomesSound(s: State) {
    && (forall j: nat :: multiset(s.stored)[j] == if j < |s.jobs| && StoreReached(s.jobs[j]) then 1 else 0)
    && (forall j: nat :: OfJob(s.events, j) == if j < |s.jobs| then Told(j, s.jobs[j]) else [])
  }

  ghost predicate Sound(s: State) { Counting(s) && JobsSound(s) && OutcomesSound(s) }

  // ---- Every step keeps it ----

  lemma MoveKeepsCounting(s: State, s': State, j: nat, job: Job)
    requires Counting(s) && j < |s.jobs| && s'.jobs == s.jobs[j := job] && job.key == s.jobs[j].key
             && s'.maxPending == s.maxPending
    requires s'.worker + One(s.jobs[j], ForWorker) == s.worker + One(job, ForWorker) && s'.worker <= s'.maxPending
    requires InFlight(job.stage) ==> InFlight(s.jobs[j].stage)
    requires s'.pending == if InFlight(job.stage) == InFlight(s.jobs[j].stage) then s.pending
             else Decremented(s.pending, job.key)
    ensures Counting(s')
  {
    TallyUpdate(s.jobs, j, job, ForWorker);
    forall k: Key
      ensures PendingOf(s'.pending, k) == Tally(s'.jobs, ForKey(k))
    {
      TallyUpdate(s.jobs, j, job, ForKey(k));
      if InFlight(s.jobs[j].stage) { TallyMember(s.jobs, j, ForKey(job.key)); }
    }
  }

  lemma MoveCountsWorker(s: State, j: nat, step: Step)
    requires j < |s.jobs| && s.worker <= s.maxPending && (AtWorker(s.jobs[j].stage) ==> s.worker >= 1)
    ensures var s' := NextOf(s, j, step);
            |s'.jobs| == |s.jobs| && s'.maxPending == s.maxPending && s'.worker <= s'.maxPending
            && s'.worker + One(s.jobs[j], ForWorker) == s.worker + One(s'.jobs[j], ForWorker)
  {
    if step.Uncount? && Leaving(s.jobs[j].stage) {
      assert NextOf(s, j, step).jobs == LeaveSession(s, j).jobs && NextOf(s, j, step).worker == s.worker;
    }
  }

  lemma MoveTouchesOneJob(s: State, j: nat, step: Step)
    requires j < |s.jobs| && NextOf(s, j, step) != s
    ensures var s' := NextOf(s, j, step);
            |s'.jobs| == |s.jobs| && s'.jobs == s.jobs[j := s'.jobs[j]] && s'.jobs[j].key == s.jobs[j].key
  {
  }

  lemma MoveCountsPending(s: State, j: nat, step: Step)
    requires j < |s.jobs| && NextOf(s, j, step) != s
    ensures var s' := NextOf(s, j, step); var job := s.jobs[j];
            |s'.jobs| == |s.jobs| && (InFlight(s'.jobs[j].stage) ==> InFlight(job.stage))
            && s'.pending == if InFlight(s'.jobs[j].stage) == InFlight(job.stage) then s.pending
               else Decremented(s.pending, job.key)
  {
    if step.Uncount? { assert !InFlight(NextOf(s, j, step).jobs[j].stage); }
  }

  lemma JobStepKeepsCounting(s: State, j: nat, step: Step)
    requires Counting(s) && j < |s.jobs|
    ensures Counting(NextOf(s, j, step))
  {
    var s' := NextOf(s, j, step);
    if s' != s {
      if AtWorker(s.jobs[j].stage) { TallyMember(s.jobs, j, ForWorker); }
      MoveCountsWorker(s, j, step);
      MoveTouchesOneJob(s, j, step);
      MoveCountsPending(s, j, step);
      MoveKeepsCounting(s, s', j, s'.jobs[j]);
    }
  }

  lemma InvalidateKeepsCounting(s: State, key: Key)
    requires Counting(s)
    ensures Counting(Next(s, Invalidate(key)))
  {
    var s' := Next(s, Invalidate(key));
    TallyDoom(s.jobs, key, ForWorker);
    forall k: Key
      ensures PendingOf(s'.pending, k) == Tally(s'.jobs, ForKey(k))
    {
      TallyDoom(s.jobs, key, ForKey(k));
    }
  }

  lemma NewJobCounts(s: State, s': State, job: Job)
    requires Counting(s) && s'.jobs == s.jobs + [job] && job.stage == Counted
             && s'.pending == Incremented(s.pending, job.key)
    requires s'.worker == s.worker && s'.maxPending == s.maxPending
    ensures Counting(s')
  {
    TallyAppend(s.jobs, job, ForWorker);
    DecrementUndoesIncrement(s.pending, job.key);
    forall k: Key
      ensures PendingOf(s'.pending, k) == Tally(s'.jobs, ForKey(k))
    {
      TallyAppend(s.jobs, job, ForKey(k));
    }
  }

  lemma CountKeepsCounting(s: State, key: Key)
    requires Counting(s)
    ensures Counting(Next(s, Count(key)))
  {
    NewJobCounts(s, Next(s, Count(key)), Job(key, Counted, NoVerdict, key in s.invalid, false));
  }

  lemma StepKeepsCounting(s: State, step: Step)
    requires Counting(s)
    ensures Counting(Next(s, step))
  {
    if step.Invalidate? {
      InvalidateKeepsCounting(s, step.key);
    } else if step.Count? {
      CountKeepsCounting(s, step.key);
    } else if !step.Advance? && !step.Probe? && step.job < |s.jobs| {
      JobStepKeepsCounting(s, step.job, step);
    }
  }

  /** The purge takes no tombstone of a session that is still counted. */
  lemma PurgeSparesPending(s: State, s': State)
    requires Counting(s) && JobsSound(s) && s' == Purge(s)
    ensures JobsSound(s')
  {
    forall j | 0 <= j < |s.jobs|
      ensures JobSound(s', j)
    {
      assert JobSound(s, j);
      if BeforeCheck(s.jobs[j].stage) { TallyMember(s.jobs, j, ForKey(s.jobs[j].key)); }
    }
  }

  lemma TakingKeepsJob(s: State, j: nat, step: Step)
    requires j < |s.jobs| && JobSound(s, j) && (step.Admit? || step.Launch? || step.Complete?)
    ensures NextOf(s, j, step).invalid == s.invalid && JobSound(NextOf(s, j, step), j)
  {
  }

  lemma HandlingKeepsJob(s: State, j: nat, step: Step)
    requires j < |s.jobs| && JobSound(s, j) && (step.Store? || step.Announce? || step.Report? || step.Release?)
    ensures NextOf(s, j, step).invalid == s.invalid && JobSound(NextOf(s, j, step), j)
  {
  }

  lemma MovedJobSound(s: State, j: nat, step: Step)
    requires j < |s.jobs| && JobSound(s, j) && !step.Check? && !step.Uncount? && NextOf(s, j, step) != s
    ensures NextOf(s, j, step).invalid == s.invalid && JobSound(NextOf(s, j, step), j)
  {
    if step.Admit? || step.Launch? || step.Complete? {
      TakingKeepsJob(s, j, step);
    } else {
      HandlingKeepsJob(s, j, step);
    }
  }

  lemma JobStepKeepsJobs(s: State, j: nat, step: Step)
    requires Counting(s) && JobsSound(s) && j < |s.jobs|
    ensures JobsSound(NextOf(s, j, step))
  {
    assert JobSound(s, j);
    if step.Check? {
      if s.jobs[j].stage == Transcribed { CheckKeepsJobs(s, j); }
    } else if step.Uncount? {
      if Leaving(s.jobs[j].stage) { UncountKeepsJobs(s, j); }
    } else if NextOf(s, j, step) != s {
      MovedJobSound(s, j, step);
      MoveTouchesOneJob(s, j, step);
      OtherJobsSound(s, NextOf(s, j, step), j);
    }
  }

  lemma CheckKeepsJobs(s: State, j: nat)
    requires Counting(s) && JobsSound(s) && j < |s.jobs| && s.jobs[j].stage == Transcribed
    ensures JobsSound(NextOf(s, j, Check(j)))
  {
    PurgeSparesPending(s, Purge(s));
    assert JobSound(Purge(s), j);
    OtherJobsSound(Purge(s), NextOf(s, j, Check(j)), j);
  }

  lemma UncountKeepsJobs(s: State, j: nat)
    requires Counting(s) && JobsSound(s) && j < |s.jobs| && Leaving(s.jobs[j].stage)
    ensures JobsSound(Purge(LeaveSession(s, j)))
  {
    assert JobSound(s, j);
    var mid := LeaveSession(s, j);
    OtherJobsSound(s, mid, j);
    MoveKeepsCounting(s, mid, j, mid.jobs[j]);
    PurgeSparesPending(mid, Purge(mid));
  }

  lemma OtherJobsSound(s: State, s': State, j: nat)
    requires JobsSound(s) && j < |s.jobs| == |s'.jobs| && s'.invalid == s.invalid && JobSound(s', j)
    requires forall k :: 0 <= k < |s.jobs| && k != j ==> s'.jobs[k] == s.jobs[k]
    ensures JobsSound(s')
  {
    forall k | 0 <= k < |s.jobs|
      ensures JobSound(s', k)
    {
      assert JobSound(s, k);
    }
  }

  lemma InvalidateKeepsJobs(s: State, key: Key)
    requires Counting(s) && JobsSound(s)
    ensures JobsSound(Next(s, Invalidate(key)))
  {
    var s' := Next(s, Invalidate(key));
    PurgeSparesPending(s, Purge(s));
    forall j | 0 <= j < |s.jobs|
      ensures JobSound(s', j)
    {
      assert JobSound(Purge(s), j);
    }
  }

  lemma CountKeepsJobs(s: State, key: Key)
    requires JobsSound(s)
    ensures JobsSound(Next(s, Count(key)))
  {
    var s' := Next(s, Count(key));
    forall j | 0 <= j < |s'.jobs|
      ensures JobSound(s', j)
    {
      if j < |s.jobs| { assert JobSound(s, j); }
    }
  }

  lemma AdvanceKeepsJobs(s: State, elapsed: nat)
    requires JobsSound(s)
    ensures JobsSound(Next(s, Advance(elapsed)))
  {
    assert forall j :: 0 <= j < |s.jobs| ==> JobSound(s, j) ==> JobSound(Next(s, Advance(elapsed)), j);
  }

  lemma StepKeepsJobs(s: State, step: Step)
    requires Counting(s) && JobsSound(s)
    ensures JobsSound(Next(s, step))
  {
    match step
    case Advance(elapsed) => AdvanceKeepsJobs(s, elapsed);
    case Probe(_) => PurgeSparesPending(s, Purge(s));
    case Invalidate(key) => InvalidateKeepsJobs(s, key);
    case Count(key) => CountKeepsJobs(s, key);
    case _ => if step.job < |s.jobs| { JobStepKeepsJobs(s, step.job, step); }
  }

  lemma {:induction false} OfJobAppend(events: seq<Event>, added: seq<Event>, j: nat)
    requires |added| <= 1
    ensures OfJob(events + added, j) == OfJob(events, j) + if added != [] && About(added[0], j) then added else []
  {
    if added == [] {
      assert events + added == events;
    } else {
      assert (events + added)[..|events + added| - 1] == events;
    }
  }

  /** Counting an event about a job among all events or among those about the job is the same. */
  lemma {:induction false} OfJobCounts(events: seq<Event>, j: nat, e: Event)
    requires About(e, j)
    ensures multiset(events)[e] == multiset(OfJob(events, j))[e]
    ensures e in events <==> e in OfJob(events, j)
    decreases |events|
  {
    if events != [] {
      var front, last := events[..|events| - 1], events[|events| - 1];
      OfJobCounts(front, j, e);
      assert events == front + [last];
      assert multiset(events) == multiset(front) + multiset{last};
      if About(last, j) {
        assert multiset(OfJob(front, j) + [last]) == multiset(OfJob(front, j)) + multiset{last};
      }
    }
  }

  lemma MoveKeepsOutcomes(s: State, s': State, j: nat, job: Job, added: seq<Event>)
    requires OutcomesSound(s) && j < |s.jobs| && s'.jobs == s.jobs[j := job] && job.doomed == s.jobs[j].doomed
    requires StoreReached(s.jobs[j]) ==> StoreReached(job)
    requires s'.stored == s.stored + if StoreReached(job) && !StoreReached(s.jobs[j]) then [j] else []
    requires s'.events == s.events + added && |added| <= 1 && (added != [] ==> About(added[0], j))
    requires Told(j, job) == Told(j, s.jobs[j]) + added
    ensures OutcomesSound(s')
  {
    forall k: nat
      ensures OfJob(s'.events, k) == if k < |s'.jobs| then Told(k, s'.jobs[k]) else []
    {
      OfJobAppend(s.events, added, k);
    }
  }

  /** The steps that tell nobody anything. */
  lemma QuietStep(s: State, j: nat, step: Step)
    requires j < |s.jobs| && JobSound(s, j) && NextOf(s, j, step) != s
    requires !step.Announce? && !step.Report? && !step.Uncount?
    ensures var s' := NextOf(s, j, step); var job := s.jobs[j];
            s'.jobs == s.jobs[j := s'.jobs[j]] && s'.jobs[j].doomed == job.doomed && s'.events == s.events
            && (StoreReached(job) ==> StoreReached(s'.jobs[j])) && Told(j, job) == Told(j, s'.jobs[j])
            && s'.stored == s.stored + if StoreReached(s'.jobs[j]) && !StoreReached(job) then [j] else []
  {
  }

  lemma JobStepKeepsOutcomes(s: State, j: nat, step: Step)
    requires OutcomesSound(s) && j < |s.jobs| && JobSound(s, j)
    ensures OutcomesSound(NextOf(s, j, step))
  {
    if step.Announce? {
      AnnounceKeepsOutcomes(s, j, step);
    } else if step.Report? {
      ReportKeepsOutcomes(s, j, step);
    } else if step.Uncount? {
      if Leaving(s.jobs[j].stage) { UncountKeepsOutcomes(s, j); }
    } else {
      QuietStepKeepsOutcomes(s, j, step);
    }
  }

  lemma QuietStepKeepsOutcomes(s: State, j: nat, step: Step)
    requires OutcomesSound(s) && j < |s.jobs| && JobSound(s, j)
    requires !step.Announce? && !step.Report? && !step.Uncount?
    ensures OutcomesSound(NextOf(s, j, step))
  {
    var s' := NextOf(s, j, step);
    if s' != s {
      QuietStep(s, j, step);
      QuietMoveKeepsOutcomes(s, s', j, s'.jobs[j]);
    }
  }

  lemma AnnounceKeepsOutcomes(s: State, j: nat, step: Step)
    requires OutcomesSound(s) && j < |s.jobs| && JobSound(s, j) && step.Announce?
    ensures OutcomesSound(NextOf(s, j, step))
  {
    var s' := NextOf(s, j, step);
    if s' != s { MoveKeepsOutcomes(s, s', j, s'.jobs[j], [Ready(j)]); }
  }

  /** The one event of a report: of a sure transcript the second, of any other verdict the first. */
  lemma ReportTells(s: State, j: nat, step: Step) returns (e: Event)
    requires j < |s.jobs| && JobSound(s, j) && step.Report? && NextOf(s, j, step) != s
    ensures var s' := NextOf(s, j, step); var job := s.jobs[j];
            && s'.jobs == s.jobs[j := job.(stage := Handled)] && s'.stored == s.stored && s'.events == s.events + [e]
            && About(e, j) && Told(j, job.(stage := Handled)) == Told(j, job) + [e]
            && StoreReached(job) == StoreReached(job.(stage := Handled))
  {
    var job := s.jobs[j];
    e := if job.stage == Announced then Semantic(j, false)
         else if job.verdict == Unsure then Semantic(j, true) else JobFailed(j);
  }

  lemma ReportKeepsOutcomes(s: State, j: nat, step: Step)
    requires OutcomesSound(s) && j < |s.jobs| && JobSound(s, j) && step.Report?
    ensures OutcomesSound(NextOf(s, j, step))
  {
    if NextOf(s, j, step) != s {
      var e := ReportTells(s, j, step);
      MoveKeepsOutcomes(s, NextOf(s, j, step), j, s.jobs[j].(stage := Handled), [e]);
    }
  }

  /** Leaving its session tells of a job only that the full queue turned it away. */
  lemma LeavingTells(s: State, j: nat) returns (told: seq<Event>)
    requires j < |s.jobs| && JobSound(s, j) && Leaving(s.jobs[j].stage)
    ensures var s' := Purge(LeaveSession(s, j)); var job := s'.jobs[j];
            && s'.jobs == s.jobs[j := job] && job.doomed == s.jobs[j].doomed && s'.stored == s.stored
            && s'.events == s.events + told && Told(j, job) == Told(j, s.jobs[j]) + told
            && |told| <= 1 && (told != [] ==> About(told[0], j)) && StoreReached(job) == StoreReached(s.jobs[j])
  {
    told := if s.jobs[j].stage == Rejected then [JobFailed(j)] else [];
    assert s.events + [] == s.events;
  }

  lemma UncountKeepsOutcomes(s: State, j: nat)
    requires OutcomesSound(s) && j < |s.jobs| && JobSound(s, j) && Leaving(s.jobs[j].stage)
    ensures OutcomesSound(Purge(LeaveSession(s, j)))
  {
    var s' := Purge(LeaveSession(s, j));
    var told := LeavingTells(s, j);
    assert s'.stored == s.stored + [];
    MoveKeepsOutcomes(s, s', j, s'.jobs[j], told);
  }

  lemma QuietMoveKeepsOutcomes(s: State, s': State, j: nat, job: Job)
    requires OutcomesSound(s) && j < |s.jobs| && s'.jobs == s.jobs[j := job] && job.doomed == s.jobs[j].doomed
    requires (StoreReached(s.jobs[j]) ==> StoreReached(job)) && Told(j, s.jobs[j]) == Told(j, job)
    requires s'.stored == s.stored + if StoreReached(job) && !StoreReached(s.jobs[j]) then [j] else []
    requires s'.events == s.events
    ensures OutcomesSound(s')
  {
    assert s'.events == s.events + [];
    MoveKeepsOutcomes(s, s', j, job, []);
  }

  lemma DoomTellsNothing(jobs: seq<Job>, key: Key, j: nat)
    requires j < |jobs|
    ensures Told(j, Doom(jobs, key)[j]) == Told(j, jobs[j])
    ensures StoreReached(Doom(jobs, key)[j]) == StoreReached(jobs[j])
  {
  }

  lemma InvalidateKeepsOutcomes(s: State, key: Key)
    requires OutcomesSound(s)
    ensures OutcomesSound(Next(s, Invalidate(key)))
  {
    var s' := Next(s, Invalidate(key));
    forall j: nat
      ensures multiset(s'.stored)[j] == if j < |s'.jobs| && StoreReached(s'.jobs[j]) then 1 else 0
      ensures OfJob(s'.events, j) == if j < |s'.jobs| then Told(j, s'.jobs[j]) else []
    {
      OfJobAppend(s.events, [SessionInvalidated(key)], j);
      if j < |s.jobs| { DoomTellsNothing(s.jobs, key, j); }
    }
  }

  lemma CountKeepsOutcomes(s: State, key: Key)
    requires OutcomesSound(s)
    ensures OutcomesSound(Next(s, Count(key)))
  {
    var s' := Next(s, Count(key));
    forall j: nat
      ensures multiset(s'.stored)[j] == if j < |s'.jobs| && StoreReached(s'.jobs[j]) then 1 else 0
      ensures OfJob(s'.events, j) == if j < |s'.jobs| then Told(j, s'.jobs[j]) else []
    {
      assert s'.stored == s.stored && s'.events == s.events;
    }
  }

  lemma StepKeepsOutcomes(s: State, step: Step)
    requires JobsSound(s) && OutcomesSound(s)
    ensures OutcomesSound(Next(s, step))
  {
    match step
    case Advance(_) =>
    case Probe(_) =>
    case Invalidate(key) => InvalidateKeepsOutcomes(s, key);
    case Count(key) => CountKeepsOutcomes(s, key);
    case _ => if step.job < |s.jobs| { assert JobSound(s, step.job); JobStepKeepsOutcomes(s, step.job, step); }
  }

  lemma StepKeepsSound(s: State, step: Step)
    requires Sound(s)
    ensures Sound(Next(s, step))
  {
    StepKeepsCounting(s, step);
    StepKeepsJobs(s, step);
    StepKeepsOutcomes(s, step);
  }

  // ---- Whole runs ----

  lemma StartIsSound(maxPending: nat)
    ensures Sound(Start(maxPending))
  {
  }

  /** Any interleaving of utterances, completions, invalidations, purges and time. */
  ghost function Run(s: State, steps: seq<Step>): (last: State)
    requires Sound(s)
    ensures Sound(last)
    decreases |steps|
  {
    if steps == [] then s
    else
      StepKeepsSound(s, steps[0]);
      Run(Next(s, steps[0]), steps[1..])
  }

  lemma RunStarts(s: State, step: Step, rest: seq<Step>) returns (next: State)
    requires Sound(s)
    ensures next == Next(s, step) && Sound(next) && Run(s, [step] + rest) == Run(next, rest)
  {
    next := Next(s, step);
    StepKeepsSound(s, step);
    assert ([step] + rest)[1..] == rest;
  }

  lemma BothStart(s: State, step: Step, rest: seq<Step>, more: seq<Step>) returns (next: State)
    requires Sound(s)
    ensures Sound(next) && Run(s, [step] + rest) == Run(next, rest) && Run(s, [step] + more) == Run(next, more)
  {
    next := RunStarts(s, step, rest);
    var same := RunStarts(s, step, more);
  }

  lemma {:induction false} RunsInARow(s: State, first: seq<Step>, second: seq<Step>, all: seq<Step>)
    requires Sound(s) && all == first + second
    ensures Run(s, all) == Run(Run(s, first), second)
    decreases |first|
  {
    if first == [] {
      assert all == second;
    } else {
      var step, rest := first[0], first[1..];
      assert first == [step] + rest && all == [step] + (rest + second);
      var next := BothStart(s, step, rest, rest + second);
      RunsInARow(next, rest, second, rest + second);
    }
  }

  /** What a run from the empty tables leads to. */
  ghost function Reached(maxPending: nat, steps: seq<Step>): (s: State)
    ensures Sound(s)
  {
    StartIsSound(maxPending);
    Run(Start(maxPending), steps)
  }

  /** Never stored, never announced, never reported as speech. */
  ghost predicate Silent(s: State, j: nat) {
    && j !in s.stored && Ready(j) !in s.events
    && Semantic(j, false) !in s.events && Semantic(j, true) !in s.events
  }

  lemma StaysDoomed(s: State, step: Step, j: nat)
    requires j < |s.jobs| && s.jobs[j].doomed
    ensures j < |Next(s, step).jobs| && Next(s, step).jobs[j].doomed
  {
  }

  lemma {:induction false} DoomedIsSilent(s: State, steps: seq<Step>, j: nat)
    requires Sound(s) && j < |s.jobs| && s.jobs[j].doomed
    ensures Silent(Run(s, steps), j)
    decreases |steps|
  {
    if steps == [] {
      assert multiset(s.stored)[j] == 0 && Semantic(j, false) !in Told(j, s.jobs[j]);
      OfJobCounts(s.events, j, Ready(j));
      OfJobCounts(s.events, j, Semantic(j, false));
      OfJobCounts(s.events, j, Semantic(j, true));
    } else {
      StepKeepsSound(s, steps[0]);
      StaysDoomed(s, steps[0], j);
      DoomedIsSilent(Next(s, steps[0]), steps[1..], j);
    }
  }

  /** A job not yet past its check when its session is invalidated is silent forever, however late it finishes. */
  lemma InvalidationIsFinal(s: State, key: Key, j: nat, later: seq<Step>)
    requires Sound(s) && j < |s.jobs| && s.jobs[j].key == key && BeforeCheck(s.jobs[j].stage)
    ensures Sound(Next(s, Invalidate(key))) && Silent(Run(Next(s, Invalidate(key)), later), j)
  {
    StepKeepsSound(s, Invalidate(key));
    DoomedIsSilent(Next(s, Invalidate(key)), later, j);
  }

  /** The same of whole runs: wherever the invalidation falls, and whatever happens before and after it. */
  lemma InvalidationSilencesRun(maxPending: nat, before: seq<Step>, key: Key, j: nat, later: seq<Step>)
    requires j < |Reached(maxPending, before).jobs| && Reached(maxPending, before).jobs[j].key == key
    requires BeforeCheck(Reached(maxPending, before).jobs[j].stage)
    ensures Silent(Reached(maxPending, before + [Invalidate(key)] + later), j)
  {
    StartIsSound(maxPending);
    InvalidationIsFinal(Reached(maxPending, before), key, j, later);
    InvalidatedRun(Start(maxPending), before, key, later);
  }

  lemma InvalidatedRun(s: State, before: seq<Step>, key: Key, later: seq<Step>)
    requires Sound(s)
    ensures var next := Next(Run(s, before), Invalidate(key));
            Sound(next) && Run(s, before + [Invalidate(key)] + later) == Run(next, later)
  {
    RunsInARow(s, before, [Invalidate(key)] + later, before + [Invalidate(key)] + later);
    var next := RunStarts(Run(s, before), Invalidate(key), later);
  }

  /** The check suppresses exactly the jobs whose session had a tombstone at some moment since they were counted. */
  lemma SuppressedExactlyWhenDoomed(s: State, j: nat)
    requires Sound(s) && j < |s.jobs| && s.jobs[j].stage == Transcribed
    ensures Next(s, Check(j)).jobs[j].stage == Suppressed <==> s.jobs[j].doomed
    ensures s.jobs[j].doomed <==> s.jobs[j].key in s.invalid
  {
    assert JobSound(s, j);
    PurgeSparesPending(s, Purge(s));
    assert JobSound(Purge(s), j);
    CheckDecides(s, j);
  }

  lemma CheckDecides(s: State, j: nat)
    requires j < |s.jobs| && s.jobs[j].stage == Transcribed
    ensures Next(s, Check(j)).jobs[j].stage == Suppressed <==> s.jobs[j].key in Purge(s).invalid
  {
  }

  /** And no other sure transcript is lost: it is stored once and announced once. */
  lemma SureTranscriptIsPublishedOnce(s: State, j: nat)
    requires Sound(s) && j < |s.jobs| && s.jobs[j].stage == Over && s.jobs[j].verdict == Sure
    ensures !s.jobs[j].doomed <==> multiset(s.stored)[j] == 1
    ensures !s.jobs[j].doomed <==> multiset(s.events)[Ready(j)] == 1
    ensures s.jobs[j].doomed ==> Silent(s, j)
  {
    assert JobSound(s, j);
    OfJobCounts(s.events, j, Ready(j));
    if s.jobs[j].doomed { DoomedIsSilent(s, [], j); }
  }

  /** What became of every utterance of a run that is over with it. */
  lemma EveryRunPublishesOnce(maxPending: nat, steps: seq<Step>, j: nat)
    requires j < |Reached(maxPending, steps).jobs|
    ensures var s := Reached(maxPending, steps); var job := s.jobs[j];
            && (job.stage == Transcribed ==> (Next(s, Check(j)).jobs[j].stage == Suppressed <==> job.doomed))
            && (job.stage == Over && job.verdict == Sure ==>
                  multiset(s.stored)[j] == multiset(s.events)[Ready(j)] == if job.doomed then 0 else 1)
            && (job.doomed ==> Silent(s, j))
  {
    var s := Reached(maxPending, steps);
    if s.jobs[j].stage == Transcribed { SuppressedExactlyWhenDoomed(s, j); }
    if s.jobs[j].stage == Over && s.jobs[j].verdict == Sure { SureTranscriptIsPublishedOnce(s, j); }
    if s.jobs[j].doomed { DoomedIsSilent(s, [], j); }
  }

  /**
   What is told of every utterance of every run once it is over: of one the full queue turned away, that it failed;
   of a doomed one nothing; of any other what the recogniser said of it, each thing once and in order.
   */
  lemma EveryRunTellsTheOutcome(maxPending: nat, steps: seq<Step>, j: nat)
    requires j < |Reached(maxPending, steps).jobs| && Reached(maxPending, steps).jobs[j].stage == Over
    ensures var s := Reached(maxPending, steps); var job := s.jobs[j];
            var told := OfJob(s.events, j);
            if job.turnedAway then told == [JobFailed(j)] && j !in s.stored
            else if job.doomed || job.verdict == NoVerdict then told == [] && j !in s.stored
            else if job.verdict == Failed then told == [JobFailed(j)] && j !in s.stored
            else if job.verdict == Unsure then told == [Semantic(j, true)] && j !in s.stored
            else told == [Ready(j), Semantic(j, false)] && multiset(s.stored)[j] == 1
  {
    var s := Reached(maxPending, steps);
    assert JobSound(s, j);
    assert OfJob(s.events, j) == Told(j, s.jobs[j]);
    assert multiset(s.stored)[j] == if StoreReached(s.jobs[j]) then 1 else 0;
  }

  lemma MoveGives(s: State, j: nat, step: Step)
    requires j < |s.jobs|
    ensures var job, job' := s.jobs[j], NextOf(s, j, step).jobs[j];
            && job'.key == job.key && job'.doomed == job.doomed
            && (job'.verdict != job.verdict ==> step.Complete? && job'.verdict == step.verdict)
            && (job'.turnedAway != job.turnedAway ==> step.Admit? && job'.turnedAway && s.worker >= s.maxPending)
  {
    if step.Uncount? && Leaving(s.jobs[j].stage) { assert NextOf(s, j, step).jobs == LeaveSession(s, j).jobs; }
  }

  lemma OthersStay(s: State, k: nat, step: Step, j: nat)
    requires k < |s.jobs| && j < |s.jobs| && j != k
    ensures NextOf(s, k, step).jobs[j] == s.jobs[j]
  {
  }

  /**
   The verdict is the recogniser's, an utterance is turned away only while as many as allowed are at the worker,
   and only invalidating its session before its check dooms it.
   */
  lemma OutcomeIsGiven(s: State, step: Step, j: nat)
    requires Sound(s) && j < |s.jobs|
    ensures var job, job' := s.jobs[j], Next(s, step).jobs[j];
            && job'.key == job.key
            && (job'.verdict != job.verdict ==> step == Complete(j, job'.verdict))
            && (job'.turnedAway != job.turnedAway ==>
                  step == Admit(j) && job'.turnedAway && Tally(s.jobs, ForWorker) == s.maxPending)
            && (job'.doomed != job.doomed ==> step == Invalidate(job.key) && job'.doomed && BeforeCheck(job.stage))
  {
    if !(step.Advance? || step.Invalidate? || step.Probe? || step.Count?) && step.job < |s.jobs| {
      if step.job == j { MoveGives(s, j, step); } else { OthersStay(s, step.job, step, j); }
    }
  }

  /** A tombstone outlives every job of its session. */
  lemma TombstoneOutlivesJobs(s: State, step: Step, key: Key)
    requires key in s.invalid && PendingOf(Next(s, step).pending, key) > 0 && PendingOf(s.pending, key) > 0
    ensures key in Next(s, step).invalid
  {
  }

  /** When every job is over, nothing is pending anywhere. */
  lemma AllOverIsIdle(s: State)
    requires Sound(s) && forall j :: 0 <= j < |s.jobs| ==> s.jobs[j].stage == Over
    ensures s.worker == 0 && s.pending == map[]
  {
    NobodyBelongs(s.jobs, ForWorker);
    forall k: Key
      ensures PendingOf(s.pending, k) == 0
    {
      NobodyBelongs(s.jobs, ForKey(k));
    }
    assert forall k :: k in s.pending ==> PendingOf(s.pending, k) > 0;
  }

  lemma {:induction false} NobodyBelongs(jobs: seq<Job>, who: Who)
    requires forall j :: 0 <= j < |jobs| ==> jobs[j].stage == Over
    ensures Tally(jobs, who) == 0
    decreases |jobs|
  {
    if jobs != [] { NobodyBelongs(jobs[..|jobs| - 1], who); }
  }

  /** The purge forgets a tombstone exactly when it is old enough and nothing of its session is in flight. */
  lemma ForgottenExactlyWhen(s: State, key: Key, elapsed: nat)
    requires Sound(s) && key in s.invalid
    ensures key !in Next(Next(s, Advance(elapsed)), Probe(key)).invalid <==>
              s.clock + elapsed - s.invalid[key] >= 300
              && forall j :: 0 <= j < |s.jobs| && s.jobs[j].key == key ==> !InFlight(s.jobs[j].stage)
  {
    if exists j :: 0 <= j < |s.jobs| && s.jobs[j].key == key && InFlight(s.jobs[j].stage) {
      var j :| 0 <= j < |s.jobs| && s.jobs[j].key == key && InFlight(s.jobs[j].stage);
      TallyMember(s.jobs, j, ForKey(key));
    } else {
      NobodyInFlight(s.jobs, key);
    }
    assert PendingOf(s.pending, key) == Tally(s.jobs, ForKey(key));
  }

  lemma {:induction false} NobodyInFlight(jobs: seq<Job>, key: Key)
    requires forall j :: 0 <= j < |jobs| && jobs[j].key == key ==> !InFlight(jobs[j].stage)
    ensures Tally(jobs, ForKey(key)) == 0
    decreases |jobs|
  {
    if jobs != [] { NobodyInFlight(jobs[..|jobs| - 1], key); }
  }

  /** A new utterance is counted, taken and recognised. */
  function Transcribing(s: State, key: Key, verdict: Verdict): State {
    var j := |s.jobs|;
    Next(Next(Next(Next(s, Count(key)), Admit(j)), Launch(j, true)), Complete(j, verdict))
  }

  /** Its callback, past the check. */
  function Handling(s: State, j: nat, verdict: Verdict): State {
    Next(if verdict == Sure then Next(Next(s, Store(j)), Announce(j)) else s, Report(j))
  }

  function Leave(s: State, j: nat): State { Next(Next(s, Uncount(j)), Release(j)) }

  lemma TranscribingReaches(s: State, key: Key, verdict: Verdict)
    requires key !in s.invalid && s.worker < s.maxPending && verdict != NoVerdict
    ensures Transcribing(s, key, verdict)
         == s.(jobs := s.jobs + [Job(key, Transcribed, verdict, false, false)],
               pending := Incremented(s.pending, key), worker := s.worker + 1)
  {
    var j := |s.jobs|;
    var s1 := Next(s, Count(key));
    assert s1.jobs == s.jobs + [Job(key, Counted, NoVerdict, false, false)];
    var s2 := Next(s1, Admit(j));
    assert s2.jobs == s.jobs + [Job(key, Admitted, NoVerdict, false, false)];
    var s3 := Next(s2, Launch(j, true));
    assert s3.jobs == s.jobs + [Job(key, Running, NoVerdict, false, false)];
  }

  lemma CheckReaches(s: State, j: nat)
    requires j < |s.jobs| && s.jobs[j].stage == Transcribed && s.jobs[j].key !in s.invalid
    ensures Next(s, Check(j)) == Moved(Purge(s), j, Passed)
  {
  }

  lemma HandlingReaches(s: State, j: nat)
    requires j < |s.jobs| && s.jobs[j].stage == Passed && s.jobs[j].verdict != NoVerdict
    requires !s.jobs[j].doomed && !s.jobs[j].turnedAway
    ensures var done := s.jobs[j].(stage := Handled);
            Handling(s, j, done.verdict) == s.(jobs := s.jobs[j := done], events := s.events + Told(j, done),
                                               stored := s.stored + if done.verdict == Sure then [j] else [])
  {
    var job := s.jobs[j];
    if job.verdict == Sure {
      var s1 := Next(s, Store(j));
      assert s1.jobs == s.jobs[j := job.(stage := Stored)];
      var s2 := Next(s1, Announce(j));
      assert s2.jobs == s.jobs[j := job.(stage := Announced)] && s2.events == s.events + [Ready(j)];
      var s3 := Next(s2, Report(j));
      assert s3.jobs == s.jobs[j := job.(stage := Handled)];
      assert s3.events == s.events + ([Ready(j)] + [Semantic(j, false)]);
    }
  }

  lemma LeaveReaches(s: State, j: nat)
    requires j < |s.jobs| && s.jobs[j].stage == Handled && s.worker > 0
    ensures var s' := Leave(s, j);
            && s'.jobs == s.jobs[j := s.jobs[j].(stage := Over)] && s'.events == s.events && s'.stored == s.stored
            && s'.pending == Decremented(s.pending, s.jobs[j].key) && s'.worker == s.worker - 1
  {
    var s1 := Next(s, Uncount(j));
    assert s1.jobs == s.jobs[j := s.jobs[j].(stage := Uncounted)];
  }

  /**
   With room at the worker and no tombstone, every utterance gets through: its outcome is told, and afterwards it
   is counted nowhere.
   */
  lemma EveryUtteranceGetsThrough(s: State, key: Key, verdict: Verdict)
    requires Sound(s) && key !in s.invalid && s.worker < s.maxPending && verdict != NoVerdict
    ensures var j := |s.jobs|;
            var s' := Leave(Handling(Next(Transcribing(s, key, verdict), Check(j)), j, verdict), j);
            && s'.jobs == s.jobs + [Job(key, Over, verdict, false, false)]
            && s'.pending == s.pending && s'.worker == s.worker
            && (verdict == Failed ==> s'.events == s.events + [JobFailed(j)] && s'.stored == s.stored)
            && (verdict == Unsure ==> s'.events == s.events + [Semantic(j, true)] && s'.stored == s.stored)
            && (verdict == Sure ==>
                  s'.events == s.events + [Ready(j), Semantic(j, false)] && s'.stored == s.stored + [j])
  {
    var j := |s.jobs|;
    TranscribingReaches(s, key, verdict);
    var s1 := Transcribing(s, key, verdict);
    CheckReaches(s1, j);
    var s2 := Next(s1, Check(j));
    HandlingReaches(s2, j);
    LeaveReaches(Handling(s2, j, verdict), j);
    DecrementUndoesIncrement(s.pending, key);
  }

  lemma TakenBackReaches(s: State, key: Key, stage: Stage)
    requires (key in s.pending ==> s.pending[key] > 0) && stage in {Rejected, Refused} && key !in s.invalid
    ensures var j := |s.jobs|;
            var job := Job(key, stage, NoVerdict, false, stage == Rejected);
            var s' := Next(s.(jobs := s.jobs + [job], pending := Incremented(s.pending, key)), Uncount(j));
            && s'.jobs == s.jobs + [job.(stage := Over)] && s'.pending == s.pending && s'.worker == s.worker
            && s'.events == s.events + (if stage == Rejected then [JobFailed(j)] else []) && s'.stored == s.stored
  {
    DecrementUndoesIncrement(s.pending, key);
    assert s.events + [] == s.events;
  }

  lemma CountedReaches(s: State, key: Key)
    requires key !in s.invalid
    ensures Next(s, Count(key)) == s.(jobs := s.jobs + [Job(key, Counted, NoVerdict, false, false)],
                                      pending := Incremented(s.pending, key))
  {
  }

  /** The step of the last job from one stage to another. */
  lemma LastMoves(s: State, jobs: seq<Job>, job: Job, step: Step)
    requires s.jobs == jobs + [job] && (step == Admit(|jobs|) || step == Launch(|jobs|, false))
    requires if step.Admit? then job.stage == Counted else job.stage == Admitted && s.worker > 0
    ensures step.Admit? && s.worker >= s.maxPending ==>
              Next(s, step) == s.(jobs := jobs + [job.(stage := Rejected, turnedAway := true)])
    ensures step.Admit? && s.worker < s.maxPending ==>
              Next(s, step) == s.(jobs := jobs + [job.(stage := Admitted)], worker := s.worker + 1)
    ensures step.Launch? ==>
              Next(s, step) == s.(jobs := jobs + [job.(stage := Refused)], worker := s.worker - 1)
  {
    assert forall job' :: s.jobs[|jobs| := job'] == jobs + [job'];
  }

  /** With a full queue, an utterance is told to have failed and is counted nowhere afterwards. */
  lemma FullQueueTurnsAway(s: State, key: Key)
    requires Sound(s) && key !in s.invalid && s.worker == s.maxPending
    ensures var j := |s.jobs|; var s' := Next(Next(Next(s, Count(key)), Admit(j)), Uncount(j));
            && s'.jobs == s.jobs + [Job(key, Over, NoVerdict, false, true)]
            && s'.events == s.events + [JobFailed(j)] && s'.stored == s.stored
            && s'.pending == s.pending && s'.worker == s.worker
  {
    CountedReaches(s, key);
    LastMoves(Next(s, Count(key)), s.jobs, Job(key, Counted, NoVerdict, false, false), Admit(|s.jobs|));
    TakenBackReaches(s, key, Rejected);
  }

  /** A new utterance is counted and admitted, and then the executor does not take it. */
  function Untaken(s: State, key: Key): State {
    Next(Next(Next(s, Count(key)), Admit(|s.jobs|)), Launch(|s.jobs|, false))
  }

  lemma UntakenReaches(s: State, key: Key)
    requires key !in s.invalid && s.worker < s.maxPending
    ensures Untaken(s, key) == s.(jobs := s.jobs + [Job(key, Refused, NoVerdict, false, false)],
                                  pending := Incremented(s.pending, key))
  {
    var j, s1 := |s.jobs|, Next(s, Count(key));
    CountedReaches(s, key);
    LastMoves(s1, s.jobs, Job(key, Counted, NoVerdict, false, false), Admit(j));
    LastMoves(Next(s1, Admit(j)), s.jobs, Job(key, Admitted, NoVerdict, false, false), Launch(j, false));
  }

  /** It disappears without a word. */
  lemma RefusedUtteranceDisappears(s: State, key: Key)
    requires Sound(s) && key !in s.invalid && s.worker < s.maxPending
    ensures var s' := Next(Untaken(s, key), Uncount(|s.jobs|));
            && s'.jobs == s.jobs + [Job(key, Over, NoVerdict, false, false)]
            && s'.events == s.events && s'.stored == s.stored && s'.pending == s.pending && s'.worker == s.worker
  {
    UntakenReaches(s, key);
    TakenBackReaches(s, key, Refused);
  }

  /** An invalidation is told once, and from then on the session has a tombstone of that moment. */
  lemma InvalidationIsTold(s: State, key: Key)
    ensures var s' := Next(s, Invalidate(key));
            && s'.events == s.events + [SessionInvalidated(key)] && s'.stored == s.stored && s'.pending == s.pending
            && key in s'.invalid && s'.invalid[key] == s.clock
  {
  }

  /** Once forgotten, later speech of the same session is published again. */
  lemma ForgottenSessionSpeaksAgain(s: State, key: Key)
    requires key !in s.invalid && s.worker < s.maxPending
    ensures Next(Next(Transcribing(s, key, Sure), Check(|s.jobs|)), Store(|s.jobs|)).stored == s.stored + [|s.jobs|]
  {
    TranscribingReaches(s, key, Sure);
    CheckReaches(Transcribing(s, key, Sure), |s.jobs|);
  }
}
