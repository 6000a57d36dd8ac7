/** Following a background import job: polling, giving up, finishing, and picking up again after a reload. */
module Poll {
  import opened Util

  const MAX_TRANSIENT_FAILURES := 5

  datatype Status = Queued | Running | Completed | Failed | Cancelled

  /** A finished job's review queue, and whose it is. */
  datatype Result = Result(job: string, queue: string)

  /** What asking about a job brings back; a failure carries its HTTP status if it got that far. */
  datatype Answer = Job(status: Status, result: Option<Result>) | Failure(httpStatus: Option<nat>)

  datatype Phase = Idle | Scanning | Done | Error

  /** `saved` and `file` live in storage that all tabs share and that outlives the page; the rest is the page's. */
  datatype State = State(
    saved: Option<string>, file: Option<string>,
    jobId: Option<string>, polling: bool, failures: nat,
    phase: Phase, result: Option<Result>, lost: bool,
    asking: Option<string>)

  // ---- the page, as it is written ----

  class Page {
    var saved: Option<string>
    var file: Option<string>
    var jobId: Option<string>
    var polling: bool
    var failures: nat
    var phase: Phase
    var result: Option<Result>
    var lost: bool
    var asking: Option<string>

    function S(): State
      reads this
    {
      State(saved, file, jobId, polling, failures, phase, result, lost, asking)
    }

    method ClearJob()
      modifies this
      ensures S() == Cleared(old(S()))
    {
      saved, file, jobId := None, None, None;
      polling, failures := false, 0;
    }

    method FinishScan(out: Result)
      modifies this
      ensures S() == Finished(old(S()), out)
    {
      result := Some(out);
      phase := Done;
    }

    /** One turn of the polling loop, from the answer on. */
    method Poll(a: Answer)
      requires polling
      modifies this
      ensures S() == OnAnswer(old(S()), a)
    {
      match a
      case Job(status, out) =>
        failures := 0;
        if status == Completed && out.Some? {
          FinishScan(out.value);
          polling := false;
        } else if status == Failed {
          phase := Error;
          ClearJob();
        } else if status == Cancelled {
          phase := Idle;
          ClearJob();
        }
      case Failure(code) =>
        failures := failures + 1;
        if code == Some(404) || failures >= MAX_TRANSIENT_FAILURES {
          phase := Error;
          ClearJob();
        }
    }

    /** The one answer a freshly loaded page waits for about the job it finds saved. */
    method Recover(a: Answer)
      requires asking.Some?
      modifies this
      ensures S() == OnRecovery(old(S()), a)
    {
      var job := asking;
      asking := None;
      match ResumeAction(if a.Job? then Some(a.status) else None)
      case ResumeScanning =>
        phase := Scanning;
        if jobId != job { jobId, polling, failures := job, true, 0; }
      case ResumeDone =>
        if a.Job? && a.result.Some? { FinishScan(a.result.value); } else { saved := None; }
      case ResumeReset =>
        if a.Failure? { lost := true; }
        saved := None;
    }
  }

  // ---- what each step comes to ----

  predicate Gone(a: Answer) { a.Failure? && a.httpStatus == Some(404) }

  /** A completed job only finishes once it carries its result. */
  predicate Finishes(a: Answer) { a.Job? && a.status == Completed && a.result.Some? }

  predicate Dies(a: Answer) { a.Job? && (a.status == Failed || a.status == Cancelled) }

  function Cleared(s: State): State {
    s.(saved := None, file := None, jobId := None, polling := false, failures := 0)
  }

  function Finished(s: State, out: Result): State {
    s.(result := Some(out), phase := Done)
  }

  function OnAnswer(s: State, a: Answer): State {
    if Finishes(a) then Finished(s, a.result.value).(polling := false, failures := 0)
    else if Dies(a) then Cleared(s.(phase := if a.status == Failed then Error else Idle))
    else if Gone(a) || (a.Failure? && s.failures + 1 >= MAX_TRANSIENT_FAILURES) then Cleared(s.(phase := Error))
    else s.(failures := if a.Failure? then s.failures + 1 else 0)
  }

  datatype Resume = ResumeScanning | ResumeDone | ResumeReset

  /** `None` stands for a job that could not be asked about. */
  function ResumeAction(status: Option<Status>): Resume {
    match status
    case Some(Queued) => ResumeScanning
    case Some(Running) => ResumeScanning
    case Some(Completed) => ResumeDone
    case _ => ResumeReset
  }

  /** Still under way as far as a reloaded page is concerned. */
  predicate Alive(a: Answer) { a.Job? && (a.status == Queued || a.status == Running) }

  function OnRecovery(s: State, a: Answer): State {
    if Alive(a) then
      if s.jobId == s.asking then s.(phase := Scanning, asking := None)
      else s.(phase := Scanning, jobId := s.asking, polling := true, failures := 0, asking := None)
    else if Finishes(a) then Finished(s, a.result.value).(asking := None)
    else s.(saved := None, lost := s.lost || a.Failure?, asking := None)
  }

  datatype Event =
    | Answered(answer: Answer)
    | Reloaded
    | Recovered(answer: Answer)
    | Started(id: string, upload: Option<string>)
    | StartFailed(upload: Option<string>)
    | CancelPressed
    | ClearPressed
    | OtherTab(slot: Option<string>)

  /** The hub answers about the job it was asked about. */
  predicate About(a: Answer, job: Option<string>) {
    a.Job? && a.result.Some? ==> Some(a.result.value.job) == job
  }

  predicate Enabled(s: State, e: Event) {
    match e
    case Answered(a) => s.polling && About(a, s.jobId)
    case Recovered(a) => s.asking.Some? && About(a, s.asking)
    case Started(id, _) => s.phase != Scanning && s.jobId != Some(id)
    case StartFailed(_) => s.phase != Scanning
    case CancelPressed => s.phase == Scanning && s.jobId.Some?
    case ClearPressed => s.phase == Done && s.result.Some?
    case _ => true
  }

  function Step(s: State, e: Event): State {
    match e
    case Answered(a) => OnAnswer(s, a)
    case Reloaded => State(s.saved, s.file, None, false, 0, Idle, None, false, s.saved)
    case Recovered(a) => OnRecovery(s, a)
    case Started(id, upload) =>
      s.(saved := Some(id), file := if upload.Some? then upload else s.file,
         jobId := Some(id), polling := true, failures := 0, phase := Scanning, lost := false)
    case StartFailed(upload) => s.(phase := Error, lost := false, file := if upload.Some? then upload else s.file)
    case CancelPressed => Cleared(s.(phase := Idle))
    case ClearPressed => Cleared(s.(phase := Idle, result := None))
    case OtherTab(slot) => s.(saved := slot)
  }

  // ---- a polling session ----

  /** Five answers in a row up to the `n`th were failures, with no success between them. */
  ghost predicate FiveFailures(got: seq<Answer>, n: nat) {
    5 <= n <= |got| && forall k :: n - 5 <= k < n ==> got[k].Failure?
  }

  /** The job is given up with the `n`th answer. */
  ghost predicate GivesUp(got: seq<Answer>, n: nat) {
    0 < n <= |got| && (Gone(got[n - 1]) || Dies(got[n - 1]) || FiveFailures(got, n))
  }

  ghost predicate Ends(got: seq<Answer>, n: nat) {
    0 < n <= |got| && (Finishes(got[n - 1]) || GivesUp(got, n))
  }

  ghost predicate Undecided(got: seq<Answer>) {
    forall n :: 0 < n <= |got| ==> !Ends(got, n)
  }

  /** The session so far: once it has ended, further answers are not asked for. */
  function After(s: State, got: seq<Answer>): State {
    if got == [] then s
    else
      var before := After(s, got[..|got| - 1]);
      if before.polling then OnAnswer(before, got[|got| - 1]) else before
  }

  /** Failures since the last success. */
  function Streak(got: seq<Answer>): nat {
    if got == [] || got[|got| - 1].Job? then 0 else 1 + Streak(got[..|got| - 1])
  }

  lemma {:induction false} StreakIs(got: seq<Answer>, n: nat)
    ensures Streak(got) >= n <==> n <= |got| && forall k :: |got| - n <= k < |got| ==> got[k].Failure?
  {
    if got != [] && got[|got| - 1].Failure? && n > 0 {
      StreakIs(got[..|got| - 1], n - 1);
      assert forall k :: 0 <= k < |got| - 1 ==> got[k] == got[..|got| - 1][k];
    } else if n > 0 && got != [] {
      assert got[|got| - 1].Job?;
    }
  }

  lemma EndsPrefix(got: seq<Answer>, m: nat, n: nat)
    requires n <= m <= |got|
    ensures Ends(got[..m], n) <==> Ends(got, n)
    ensures GivesUp(got[..m], n) <==> GivesUp(got, n)
  {
    assert FiveFailures(got[..m], n) <==> FiveFailures(got, n) by {
      assert forall k :: 0 <= k < m ==> got[..m][k] == got[k];
    }
  }

  /** How a session starts: something is saved and the counter is at nought. */
  predicate Opening(s: State) {
    s.polling && s.failures == 0 && s.phase == Scanning && s.saved.Some?
  }

  /** The first answer that ends the session, if there is one. */
  ghost predicate EndsFirst(got: seq<Answer>, n: nat) {
    Ends(got, n) && forall k :: 0 < k < n ==> !Ends(got, k)
  }

  /** While the session lasts the counter is the current streak, short of five. */
  lemma {:induction false} SessionLasts(s: State, got: seq<Answer>)
    requires Opening(s) && Undecided(got)
    ensures After(s, got) == s.(failures := Streak(got))
    ensures Streak(got) < MAX_TRANSIENT_FAILURES
  {
    StreakIs(got, MAX_TRANSIENT_FAILURES);
    if got != [] {
      var m := |got| - 1;
      forall n | 0 < n <= m ensures !Ends(got[..m], n) { EndsPrefix(got, m, n); }
      SessionLasts(s, got[..m]);
      assert !Ends(got, |got|);
    }
  }

  /** With the first conclusive answer it ends: the job is dropped, or finished and kept. */
  lemma {:induction false} SessionEnds(s: State, got: seq<Answer>, n: nat)
    requires Opening(s) && EndsFirst(got, n)
    ensures !After(s, got).polling
    ensures GivesUp(got, n) ==> After(s, got).saved == None && After(s, got).phase != Done
    ensures Finishes(got[n - 1]) ==>
              && After(s, got).saved == s.saved && After(s, got).jobId == s.jobId
              && After(s, got).phase == Done && After(s, got).result == got[n - 1].result
    decreases |got|
  {
    var m := |got| - 1;
    if n == |got| {
      forall k | 0 < k <= m ensures !Ends(got[..m], k) { EndsPrefix(got, m, k); }
      SessionLasts(s, got[..m]);
      StreakIs(got, MAX_TRANSIENT_FAILURES);
    } else {
      forall k: nat | k <= m ensures Ends(got[..m], k) <==> Ends(got, k) { EndsPrefix(got, m, k); }
      EndsPrefix(got, m, n);
      SessionEnds(s, got[..m], n);
    }
  }

  lemma {:induction false} FirstEnd(got: seq<Answer>, n: nat) returns (m: nat)
    requires Ends(got, n)
    ensures m <= n && EndsFirst(got, m)
  {
    if k :| 0 < k < n && Ends(got, k) { m := FirstEnd(got, k); } else { m := n; }
  }

  /**
   * The saved id is dropped exactly when the first conclusive answer is "failed", "cancelled", a 404 or
   * the fifth failure in a row; polling goes on, below five, exactly while no answer is conclusive.
   */
  lemma SessionVerdict(s: State, got: seq<Answer>)
    requires Opening(s)
    ensures After(s, got).saved == None <==> exists n :: EndsFirst(got, n) && GivesUp(got, n)
    ensures After(s, got).phase == Done <==> exists n :: EndsFirst(got, n) && Finishes(got[n - 1])
    ensures After(s, got).polling <==> Undecided(got)
    ensures After(s, got).polling ==> After(s, got).failures < 5 && After(s, got).saved == s.saved
  {
    if Undecided(got) {
      SessionLasts(s, got);
    } else {
      var n :| 0 < n <= |got| && Ends(got, n);
      var m := FirstEnd(got, n);
      SessionEnds(s, got, m);
    }
  }

  /** A job reported completed without a result is asked about for ever. */
  lemma EmptyCompletionNeverEnds(s: State, got: seq<Answer>)
    requires Opening(s)
    requires forall k :: 0 <= k < |got| ==> got[k] == Job(Completed, None)
    ensures After(s, got).polling && After(s, got).saved == s.saved
  {
    forall n | 0 < n <= |got| ensures !Ends(got, n) {
      assert got[n - 1] == Job(Completed, None);
    }
    SessionLasts(s, got);
  }

  // ---- what the page shows ----

  /** What each kind of answer leaves on the page: a failed or lost job an error, a cancelled one nothing, a result the result. */
  lemma AnswerShown(s: State, a: Answer)
    requires Enabled(s, Answered(a))
    ensures var t := Step(s, Answered(a));
            && t.lost == s.lost && t.asking == s.asking
            && (Finishes(a) ==> t.phase == Done && t.result == a.result && t.saved == s.saved && t.file == s.file && !t.polling)
            && (!Finishes(a) ==> t.result == s.result)
            && (a.Job? && a.status == Failed ==> t.phase == Error)
            && (a.Job? && a.status == Cancelled ==> t.phase == Idle)
            && (a == Failure(Some(404)) || (a.Failure? && s.failures >= 4) ==> t.phase == Error)
    ensures var t := Step(s, Answered(a));
            (a.Job? && a.status in [Failed, Cancelled]) || a == Failure(Some(404)) || (a.Failure? && s.failures >= 4) ==>
              t.saved == None && t.file == None && t.jobId == None && !t.polling
    ensures var t := Step(s, Answered(a));
            a.Job? && (a.status in [Queued, Running] || a == Job(Completed, None)) ==> t == s.(failures := 0)
    ensures var t := Step(s, Answered(a));
            a.Failure? && a.httpStatus != Some(404) && s.failures < 4 ==> t == s.(failures := s.failures + 1)
  {
  }

  /** What the one question after a reload leaves: a live job followed, a finished one shown, any other dropped. */
  lemma RecoveryShown(s: State, a: Answer)
    requires Enabled(s, Recovered(a))
    ensures var t := Step(s, Recovered(a));
            && t.asking == None && t.file == s.file
            && (a.Job? && a.status in [Queued, Running] ==>
                  t.phase == Scanning && t.jobId == s.asking && t.saved == s.saved && (s.jobId != s.asking ==> t.polling && t.failures == 0))
            && (Finishes(a) ==> t.phase == Done && t.result == a.result && t.jobId == s.jobId && t.saved == s.saved)
            && (!(a.Job? && a.status in [Queued, Running]) && !Finishes(a) ==>
                  t.saved == None && t.phase == s.phase && t.result == s.result && t.jobId == s.jobId && t.polling == s.polling
                  && (t.lost <==> s.lost || a.Failure?))
  {
  }

  /** Starting saves and follows the new job from nought; cancelling and clearing forget the old one. */
  lemma ButtonsPressed(s: State, id: string, upload: Option<string>)
    ensures var t := Step(s, Started(id, upload));
            && t.saved == Some(id) == t.jobId && t.polling && t.failures == 0 && t.phase == Scanning && !t.lost
            && t.file == (if upload.Some? then upload else s.file) && t.result == s.result
    ensures var t := Step(s, CancelPressed);
            t.saved == None && t.jobId == None && t.file == None && !t.polling && t.phase == Idle && t.result == s.result
    ensures var t := Step(s, ClearPressed);
            t.saved == None && t.jobId == None && t.file == None && !t.polling && t.phase == Idle && t.result == None
    ensures var t := Step(s, Reloaded);
            && t.saved == s.saved == t.asking && t.file == s.file && t.jobId == None && !t.polling && t.phase == Idle
            && t.result == None && !t.lost
  {
  }

  // ---- whole runs of a page ----

  ghost predicate Run(s: State, es: seq<Event>, t: State)
    decreases |es|
  {
    if es == [] then t == s else Enabled(s, es[0]) && Run(Step(s, es[0]), es[1..], t)
  }

  /** No other tab writes the slot, and no scan is started while the page still asks about an older job. */
  predicate Alone(s: State, e: Event) {
    !e.OtherTab? && (e.Started? ==> s.asking.None?)
  }

  ghost predicate AloneRun(s: State, es: seq<Event>)
    decreases |es|
  {
    es == [] || (Alone(s, es[0]) && AloneRun(Step(s, es[0]), es[1..]))
  }

  predicate Inv(s: State) {
    && (s.polling ==> s.failures < MAX_TRANSIENT_FAILURES && s.jobId.Some?)
    && (s.phase == Done ==> s.result.Some?)
  }

  /** What is being followed, shown or asked about is also what a reload would find. */
  predicate Recoverable(s: State) {
    && (s.polling ==> s.saved == s.jobId)
    && (s.phase == Done ==> s.result.Some? && s.saved == Some(s.result.value.job))
    && (s.asking.Some? ==> s.saved == s.asking && !s.polling && s.jobId.None? && s.phase != Done)
  }

  /** In every run the counter stays below five while polling goes on. */
  lemma {:induction false} RunKeepsInv(s: State, es: seq<Event>, t: State)
    requires Inv(s) && Run(s, es, t)
    ensures Inv(t)
    decreases |es|
  {
    if es != [] { RunKeepsInv(Step(s, es[0]), es[1..], t); }
  }

  /** A page on its own never follows or shows a job that a reload would not find again. */
  lemma {:induction false} RunKeepsRecoverable(s: State, es: seq<Event>, t: State)
    requires Inv(s) && Recoverable(s) && Run(s, es, t) && AloneRun(s, es)
    ensures Recoverable(t)
    decreases |es|
  {
    if es != [] { RunKeepsRecoverable(Step(s, es[0]), es[1..], t); }
  }

  const Blank := State(None, None, None, false, 0, Idle, None, false, None)

  /**
   * So a finished scan survives reloading: the saved id is that of the job whose result is shown, and if
   * the hub, asked about it, still has that result, the page shows it again and keeps the id.
   */
  lemma ResultSurvivesReload(es: seq<Event>, t: State)
    requires Run(Blank, es, t) && AloneRun(Blank, es) && t.phase == Done
    ensures t.result.Some? && t.saved == Some(t.result.value.job)
    ensures var asking := Step(t, Reloaded);
            var answer := Recovered(Job(Completed, t.result));
            && asking.asking == t.saved && Enabled(asking, answer)
            && var again := Step(asking, answer);
               again.phase == Done && again.result == t.result && again.saved == t.saved
  {
    RunKeepsInv(Blank, es, t);
    RunKeepsRecoverable(Blank, es, t);
  }

  /** Unlike polling, the one question after a reload gives up at the first failure of any kind. */
  lemma RecoveryDropsIff(s: State, a: Answer)
    requires s.asking.Some? && s.saved.Some?
    ensures Step(s, Recovered(a)).saved == None <==> !Alive(a) && !Finishes(a)
    ensures Step(s, Recovered(a)).saved == s.saved <==> Alive(a) || Finishes(a)
  {
  }

  /** A scan started while that question is open loses its id to an answer about the older job. */
  lemma LateRecoveryDropsTheNewJob(older: string, newer: string)
    requires older != newer
    ensures exists t: State ::
      && Run(Blank.(saved := Some(older)), [Reloaded, Started(newer, None), Recovered(Failure(None))], t)
      && t.polling && t.jobId == Some(newer) && t.saved == None
  {
    var s := Blank.(saved := Some(older));
    var s1 := Step(s, Reloaded);
    var s2 := Step(s1, Started(newer, None));
    var t := Step(s2, Recovered(Failure(None)));
    RunOfThree(s, Reloaded, Started(newer, None), Recovered(Failure(None)));
    assert t.polling && t.jobId == Some(newer) && t.saved == None;
  }

  lemma RunOfThree(s: State, a: Event, b: Event, c: Event)
    requires Enabled(s, a) && Enabled(Step(s, a), b) && Enabled(Step(Step(s, a), b), c)
    ensures Run(s, [a, b, c], Step(Step(Step(s, a), b), c))
  {
    var s1, s2, s3 := Step(s, a), Step(Step(s, a), b), Step(Step(Step(s, a), b), c);
    assert [a, b, c][1..] == [b, c] && [b, c][1..] == [c] && [c][1..] == [];
    assert Run(s3, [], s3);
    assert Run(s2, [c], s3);
    assert Run(s1, [b, c], s3);
  }

  /** Giving up empties the shared slot whoever filled it: another tab's newer job is forgotten with this one. */
  lemma GivingUpForgetsTheSlot(s: State, newer: string, a: Answer)
    requires s.polling && Some(newer) != s.jobId && (Dies(a) || Gone(a))
    ensures Step(Step(s, OtherTab(Some(newer))), Answered(a)).saved == None
  {
  }
}
