/** What the delivery-log table holds in every reachable state. */
module RowSafety {
  import opened Wrappers
  import opened Circuit
  import opened DeliveryLogs
  import opened Retry
  import opened DeliverySystem
  import opened JobFlow

  // Every row belongs to one attempt, and every attempt is counted once

  /** The row a worker is working on, between its insertion and publishing. */
  function OwnRow(stage: Stage): Option<RowId> {
    match stage
    case Created(_, id) => Some(id)
    case Finished(_, id, _) => Some(id)
    case Recorded(_, id, _) => Some(id)
    case Saved(_, log, _) => Some(log.id)
    case _ => None
  }

  predicate Inserts(a: Action, which: (Job, RowId) -> bool) {
    a.Work? && a.step.Insert? && which(a.step.job, a.step.id)
  }

  predicate Records(a: Action, which: (Job, RowId) -> bool) {
    a.Work? && a.step.Record? && which(a.step.job, a.step.id)
  }

  predicate Saves(a: Action, which: (Job, RowId) -> bool) {
    a.Work? && a.step.Save? && which(a.step.job, a.step.id)
  }

  predicate Unrecorded(stage: Stage, which: (Job, RowId) -> bool) {
    (stage.Created? || stage.Finished?) && which(stage.job, stage.id)
  }

  predicate Unsaved(stage: Stage, which: (Job, RowId) -> bool) {
    (stage.Created? || stage.Finished? || stage.Recorded?) && which(stage.job, stage.id)
  }

  function InsertsOf(which: (Job, RowId) -> bool): Action -> bool {
    a => Inserts(a, which)
  }

  function RecordsOf(which: (Job, RowId) -> bool): Action -> bool {
    a => Records(a, which)
  }

  function SavesOf(which: (Job, RowId) -> bool): Action -> bool {
    a => Saves(a, which)
  }

  function UnrecordedOf(which: (Job, RowId) -> bool): Stage -> bool {
    stage => Unrecorded(stage, which)
  }

  function UnsavedOf(which: (Job, RowId) -> bool): Stage -> bool {
    stage => Unsaved(stage, which)
  }

  lemma AttemptStep(s: System, a: Action, which: (Job, RowId) -> bool)
    requires Enabled(s, a)
    ensures Tally(s.workers, UnrecordedOf(which)) + Weight(Inserts(a, which))
            == Tally(Step(s, a).workers, UnrecordedOf(which)) + Weight(Records(a, which))
    ensures Tally(s.workers, UnsavedOf(which)) + Weight(Inserts(a, which))
            == Tally(Step(s, a).workers, UnsavedOf(which)) + Weight(Saves(a, which))
  {
    hide Step;
    StepOnWorkers(s, a);
    if a.Work? {
      TallyUpdate(s.workers, a.w, To(a.step), UnrecordedOf(which));
      TallyUpdate(s.workers, a.w, To(a.step), UnsavedOf(which));
    }
  }

  /** Of any class of rows (those of an endpoint, or a single one), as many were
      inserted as breaker outcomes were recorded, apart from the workers between
      the two; likewise for the one update that follows. */
  lemma {:induction false} OutcomesMatchInsertions(workerCount: nat, acts: seq<Action>, which: (Job, RowId) -> bool)
    requires IsRun(Start(workerCount), acts)
    ensures
      var s := Exec(Start(workerCount), acts);
      && Count(acts, InsertsOf(which)) == Count(acts, RecordsOf(which)) + Tally(s.workers, UnrecordedOf(which))
      && Count(acts, InsertsOf(which)) == Count(acts, SavesOf(which)) + Tally(s.workers, UnsavedOf(which))
  {
    if acts == [] {
      TallyNone(Start(workerCount).workers, UnrecordedOf(which));
      TallyNone(Start(workerCount).workers, UnsavedOf(which));
    } else {
      OutcomesMatchInsertions(workerCount, Init(acts), which);
      AttemptStep(Exec(Start(workerCount), Init(acts)), Last(acts), which);
    }
  }

  function OnEndpoint(e: EndpointId): (Job, RowId) -> bool {
    (job: Job, id: RowId) => job.endpoint.id == e
  }

  /** For each endpoint: rows created are breaker outcomes plus attempts between. */
  lemma EndpointOutcomes(workerCount: nat, acts: seq<Action>, e: EndpointId)
    requires IsRun(Start(workerCount), acts)
    ensures Count(acts, InsertsOf(OnEndpoint(e)))
            == Count(acts, RecordsOf(OnEndpoint(e)))
               + Tally(Exec(Start(workerCount), acts).workers, UnrecordedOf(OnEndpoint(e)))
  {
    OutcomesMatchInsertions(workerCount, acts, OnEndpoint(e));
  }

  function OnRow(row: RowId): (Job, RowId) -> bool {
    (job: Job, id: RowId) => id == row
  }

  lemma StepOnRows(s: System, a: Action)
    requires Enabled(s, a)
    ensures Step(s, a).rows
            == match a
               case Work(_, Insert(job, id)) => s.rows[id := FreshLog(job, id)]
               case Work(_, Save(job, id, outcome, now, draw, stored)) =>
                 if stored then s.rows[id := FinalLog(job, id, outcome, now, draw)] else s.rows
               case _ => s.rows
  {
    hide FinalLog;
  }

  lemma {:induction false} InsertedOnce(workerCount: nat, acts: seq<Action>, id: RowId)
    requires IsRun(Start(workerCount), acts)
    ensures Count(acts, InsertsOf(OnRow(id))) == Weight(id in Exec(Start(workerCount), acts).rows)
  {
    if acts != [] {
      InsertedOnce(workerCount, Init(acts), id);
      StepOnRows(Exec(Start(workerCount), Init(acts)), Last(acts));
    }
  }

  /** Each row causes at most one breaker outcome and is updated at most once. */
  lemma OneOutcomePerRow(workerCount: nat, acts: seq<Action>, id: RowId)
    requires IsRun(Start(workerCount), acts)
    ensures Count(acts, RecordsOf(OnRow(id))) <= 1 && Count(acts, SavesOf(OnRow(id))) <= 1
  {
    OutcomesMatchInsertions(workerCount, acts, OnRow(id));
    InsertedOnce(workerCount, acts, id);
  }

  /** Who inserted each row, and for which job. */
  function Origin(acts: seq<Action>): map<RowId, (nat, Job)> {
    if acts == [] then map[]
    else
      match Last(acts)
      case Work(w, Insert(job, id)) => Origin(Init(acts))[id := (w, job)]
      case _ => Origin(Init(acts))
  }

  lemma FinalLogKeys(job: Job, id: RowId, outcome: Outcome, now: int, draw: nat)
    ensures
      var log := FinalLog(job, id, outcome, now, draw);
      log.id == id && log.eventID == job.eventID && log.endpointID == job.endpoint.id
  {
  }

  /** A worker past the insertion works on the row that it inserted itself. */
  predicate Owned(workers: seq<Stage>, rows: map<RowId, DeliveryLog>, origin: map<RowId, (nat, Job)>) {
    && rows.Keys == origin.Keys
    && forall w | 0 <= w < |workers| && OwnRow(workers[w]).Some? ::
         && OwnRow(workers[w]).value in origin
         && origin[OwnRow(workers[w]).value] == (w, workers[w].job)
  }

  lemma OwnedStep(s: System, acts: seq<Action>)
    requires acts != [] && Enabled(s, Last(acts))
    requires Owned(s.workers, s.rows, Origin(Init(acts)))
    ensures Owned(Step(s, Last(acts)).workers, Step(s, Last(acts)).rows, Origin(acts))
  {
    hide Step;
    var a := Last(acts);
    StepOnWorkers(s, a);
    StepOnRows(s, a);
    if a.Work? && a.step.Save? {
      FinalLogKeys(a.step.job, a.step.id, a.step.outcome, a.step.now, a.step.draw);
    }
  }

  lemma {:induction false} WorkersOwnTheirRows(workerCount: nat, acts: seq<Action>)
    requires IsRun(Start(workerCount), acts)
    ensures
      var s := Exec(Start(workerCount), acts);
      Owned(s.workers, s.rows, Origin(acts))
  {
    if acts != [] {
      WorkersOwnTheirRows(workerCount, Init(acts));
      OwnedStep(Exec(Start(workerCount), Init(acts)), acts);
    }
  }

  /** Only the worker that inserted a row ever updates it. */
  lemma {:induction false} OnlyCreatorSaves(workerCount: nat, acts: seq<Action>)
    requires IsRun(Start(workerCount), acts)
    ensures forall a | a in acts && a.Work? && a.step.Save? ::
              a.step.id in Origin(acts) && Origin(acts)[a.step.id] == (a.w, a.step.job)
  {
    hide Step, FinalLog;
    if acts != [] {
      OnlyCreatorSaves(workerCount, Init(acts));
      WorkersOwnTheirRows(workerCount, Init(acts));
      assert acts == Init(acts) + [Last(acts)];
    }
  }

  // The states a row can be in

  predicate Permanent(code: int) {
    code in {400, 401, 403, 404}
  }

  /** All that the engine ever leaves in a row for a job. */
  predicate RowAllowed(row: DeliveryLog, job: Job) {
    && row.eventID == job.eventID && row.endpointID == job.endpoint.id
    && (row.errorMessage.Some? ==>
          if row.responseStatus.Some? then row.errorMessage.value == HttpStatus(row.responseStatus.value)
          else row.errorMessage.value in {BuildingRequest, HttpRequest})
    && match row.status
       case SUCCESS =>
         && row.responseStatus.Some? && 200 <= row.responseStatus.value < 300
         && row.nextRetryAt.None? && row.attemptNumber == 1 && row.errorMessage.None?
       case FAILED =>
         && ((row.responseStatus.Some? && Permanent(row.responseStatus.value)) || job.endpoint.maxRetries <= 1)
         && (row.responseStatus.Some? ==> !(200 <= row.responseStatus.value < 300))
         && row.nextRetryAt.None? && row.attemptNumber == 1 && row.errorMessage.Some?
       case PENDING =>
         if row.nextRetryAt.None? then
           row.attemptNumber == 1 && row.responseStatus.None? && row.errorMessage.None?
         else
           && row.attemptNumber == 2 && job.endpoint.maxRetries >= 2 && row.errorMessage.Some?
           && (row.responseStatus.Some? ==> ShouldRetry(row.responseStatus.value))
  }

  lemma FinalLogAllowed(job: Job, id: RowId, outcome: Outcome, now: int, draw: nat)
    ensures RowAllowed(FinalLog(job, id, outcome, now, draw), job)
  {
    SmallBackoff(1, draw);
  }

  /** The log tells the whole outcome of its job's first attempt: the status
      code if a response came, the kind of error if it failed; SUCCESS for 2xx,
      FAILED for a permanent code or an exhausted job, and else attempt 2 after
      two seconds and the whole of the drawn jitter, of up to a second. */
  predicate Tells(log: DeliveryLog, job: Job, id: RowId, outcome: Outcome, now: int, draw: nat) {
    var succeeded := outcome.Response? && 200 <= outcome.code < 300;
    var hopeless := (outcome.Response? && Permanent(outcome.code)) || job.endpoint.maxRetries <= 1;
    && log.id == id && log.eventID == job.eventID && log.endpointID == job.endpoint.id
    && log.responseStatus == (if outcome.Response? then Some(outcome.code) else None)
    && log.errorMessage == (if succeeded then None
                            else if outcome.Response? then Some(HttpStatus(outcome.code))
                            else if outcome.BuildError? then Some(BuildingRequest)
                            else Some(HttpRequest))
    && log.status == (if succeeded then SUCCESS else if hopeless then FAILED else PENDING)
    && log.attemptNumber == (if succeeded || hopeless then 1 else 2)
    && (succeeded || hopeless ==> log.nextRetryAt.None?)
    && (!succeeded && !hopeless && draw < 1_000_000_000 ==> log.nextRetryAt == Some(now + 2_000_000_000 + draw))
  }

  lemma OutcomeDecidesLog(job: Job, id: RowId, outcome: Outcome, now: int, draw: nat)
    ensures Tells(FinalLog(job, id, outcome, now, draw), job, id, outcome, now, draw)
    ensures Verdict(outcome) == Success <==> outcome.Response? && 200 <= outcome.code < 300
  {
    SmallBackoff(1, draw);
    assert Pow2(1) == 2;
    if draw < 1_000_000_000 {
      BackoffOfDraw(1, draw);
    }
  }

  /** A retry is due between two and three seconds after the failure. */
  lemma RetryIsScheduled(job: Job, id: RowId, outcome: Outcome, now: int, draw: nat)
    ensures
      var log := FinalLog(job, id, outcome, now, draw);
      log.nextRetryAt.Some? ==> now + 2 * SECOND <= log.nextRetryAt.value < now + 3 * SECOND
  {
    SmallBackoff(1, draw);
    assert Pow2(1) == 2;
  }

  lemma AllowedStep(s: System, acts: seq<Action>)
    requires acts != [] && Enabled(s, Last(acts))
    requires Owned(s.workers, s.rows, Origin(Init(acts)))
    requires forall id | id in s.rows :: RowAllowed(s.rows[id], Origin(Init(acts))[id].1)
    ensures Owned(Step(s, Last(acts)).workers, Step(s, Last(acts)).rows, Origin(acts))
    ensures forall id | id in Step(s, Last(acts)).rows :: RowAllowed(Step(s, Last(acts)).rows[id], Origin(acts)[id].1)
  {
    hide Step, FinalLog;
    var a := Last(acts);
    OwnedStep(s, acts);
    StepOnRows(s, a);
    if a.Work? && a.step.Save? {
      FinalLogAllowed(a.step.job, a.step.id, a.step.outcome, a.step.now, a.step.draw);
    }
  }

  /** Starting from an empty table, every row in every reachable state is of an
      allowed kind for the job it was inserted for. */
  lemma {:induction false} RowsAreAllowed(workerCount: nat, acts: seq<Action>)
    requires IsRun(Start(workerCount), acts)
    ensures
      var s := Exec(Start(workerCount), acts);
      && Owned(s.workers, s.rows, Origin(acts))
      && forall id | id in s.rows :: RowAllowed(s.rows[id], Origin(acts)[id].1)
  {
    if acts != [] {
      RowsAreAllowed(workerCount, Init(acts));
      AllowedStep(Exec(Start(workerCount), Init(acts)), acts);
    }
  }

  /** So the rows that ListPendingRetries selects are the retryable failures of
      jobs with attempts left, whose time has come; and only those. */
  lemma {:induction false} DueRowsAreRetries(workerCount: nat, acts: seq<Action>, id: RowId, now: int)
    requires IsRun(Start(workerCount), acts) && id in Exec(Start(workerCount), acts).rows
    ensures id in Origin(acts)
    ensures
      var row, job := Exec(Start(workerCount), acts).rows[id], Origin(acts)[id].1;
      Due(row, now) <==>
        && row.attemptNumber == 2 && job.endpoint.maxRetries >= 2
        && (row.responseStatus.Some? ==> ShouldRetry(row.responseStatus.value))
        && row.nextRetryAt.Some? && row.nextRetryAt.value <= now
  {
    RowsAreAllowed(workerCount, acts);
  }

  // What is published is what is stored

  lemma CountPositive(acts: seq<Action>, a: Action, p: Action -> bool)
    requires a in acts && p(a)
    ensures Count(acts, p) >= 1
  {
    if Last(acts) != a {
      assert acts == Init(acts) + [Last(acts)];
      CountPositive(Init(acts), a, p);
    }
  }

  /** The row holds what this save wrote. */
  predicate Holds(rows: map<RowId, DeliveryLog>, save: WorkStep)
    requires save.Save?
  {
    save.id in rows && rows[save.id] == FinalLog(save.job, save.id, save.outcome, save.now, save.draw)
  }

  predicate SavesRow(a: Action) {
    a.Work? && a.step.Save? && a.step.stored
  }

  lemma NoSecondSave(workerCount: nat, acts: seq<Action>, earlier: Action, a: Action)
    requires IsRun(Start(workerCount), acts) && Enabled(Exec(Start(workerCount), acts), a)
    requires earlier in acts && earlier.Work? && earlier.step.Save?
    requires a.Work? && a.step.Save?
    ensures a.step.id != earlier.step.id
  {
    hide Step, FinalLog;
    if a.step.id == earlier.step.id {
      var s, which := Exec(Start(workerCount), acts), OnRow(a.step.id);
      OutcomesMatchInsertions(workerCount, acts, which);
      InsertedOnce(workerCount, acts, a.step.id);
      CountPositive(acts, earlier, SavesOf(which));
      TallyPositive(s.workers, a.w, UnsavedOf(which));
      assert false;
    }
  }

  /** A successful update is there in every later state. */
  lemma {:induction false} SavedRowsStay(workerCount: nat, acts: seq<Action>)
    requires IsRun(Start(workerCount), acts)
    ensures forall a | a in acts && SavesRow(a) :: Holds(Exec(Start(workerCount), acts).rows, a.step)
  {
    hide Step, FinalLog;
    if acts != [] {
      var init, last := Init(acts), Last(acts);
      SavedRowsStay(workerCount, init);
      assert acts == init + [last];
      StepOnRows(Exec(Start(workerCount), init), last);
      forall a | a in acts && SavesRow(a) ensures Holds(Exec(Start(workerCount), acts).rows, a.step) {
        if a in init {
          assert Holds(Exec(Start(workerCount), init).rows, a.step);
          if last.Work? && last.step.Save? {
            NoSecondSave(workerCount, init, a, last);
          }
        }
      }
    }
  }

  lemma {:induction false} CountTwo(acts: seq<Action>, a: Action, b: Action, p: Action -> bool)
    requires a in acts && b in acts && a != b && p(a) && p(b)
    ensures Count(acts, p) >= 2
  {
    assert acts == Init(acts) + [Last(acts)];
    if Last(acts) == a {
      CountPositive(Init(acts), b, p);
    } else if Last(acts) == b {
      CountPositive(Init(acts), a, p);
    } else {
      CountTwo(Init(acts), a, b, p);
    }
  }

  ghost predicate WasSaved(acts: seq<Action>, id: RowId) {
    exists a :: a in acts && SavesRow(a) && a.step.id == id
  }

  lemma WasSavedStays(acts: seq<Action>, id: RowId)
    requires acts != [] && WasSaved(Init(acts), id)
    ensures WasSaved(acts, id)
  {
    var a :| a in Init(acts) && SavesRow(a) && a.step.id == id;
    assert acts == Init(acts) + [Last(acts)] && a in acts;
  }

  /** Until a successful update, a row is as it was inserted. */
  lemma {:induction false} FreshUntilSaved(workerCount: nat, acts: seq<Action>, id: RowId)
    requires IsRun(Start(workerCount), acts) && id in Exec(Start(workerCount), acts).rows && !WasSaved(acts, id)
    ensures id in Origin(acts) && Exec(Start(workerCount), acts).rows[id] == FreshLog(Origin(acts)[id].1, id)
  {
    hide Step, Enabled, FinalLog;
    var s, last := Exec(Start(workerCount), Init(acts)), Last(acts);
    assert acts == Init(acts) + [last];
    StepOnRows(s, last);
    assert SavesRow(last) ==> last.step.id != id by {
      assert last in acts;
    }
    if !(last.Work? && last.step.Insert? && last.step.id == id) {
      if WasSaved(Init(acts), id) {
        WasSavedStays(acts, id);
      }
      FreshUntilSaved(workerCount, Init(acts), id);
    }
  }

  /** After a failed update, the row stays in every later state what it was. */
  lemma UnsavedRowsStay(workerCount: nat, acts: seq<Action>, a: Action)
    requires IsRun(Start(workerCount), acts) && a in acts && a.Work? && a.step.Save? && !a.step.stored
    ensures a.step.id in Exec(Start(workerCount), acts).rows
    ensures Exec(Start(workerCount), acts).rows[a.step.id] == FreshLog(a.step.job, a.step.id)
  {
    hide Exec, IsRun, FinalLog, Count;
    OnlyCreatorSaves(workerCount, acts);
    WorkersOwnTheirRows(workerCount, acts);
    OneOutcomePerRow(workerCount, acts, a.step.id);
    assert !WasSaved(acts, a.step.id) by {
      if b :| b in acts && SavesRow(b) && b.step.id == a.step.id {
        CountTwo(acts, a, b, SavesOf(OnRow(a.step.id)));
      }
    }
    FreshUntilSaved(workerCount, acts, a.step.id);
  }

  // What is recorded and saved is how the attempt ended

  /** The attempt ended in this way, and the breaker was told so if due. */
  predicate Remembers(acts: seq<Action>, w: nat, stage: Stage) {
    && (stage.Finished? || stage.Recorded? ==> Work(w, Finish(stage.job, stage.id, stage.outcome)) in acts)
    && (stage.Recorded? ==> Work(w, Record(stage.job, stage.id, stage.outcome)) in acts)
  }

  lemma RemembersStep(s: System, acts: seq<Action>, w: nat)
    requires acts != [] && Enabled(s, Last(acts)) && w < |s.workers| && Remembers(Init(acts), w, s.workers[w])
    ensures w < |Step(s, Last(acts)).workers| && Remembers(acts, w, Step(s, Last(acts)).workers[w])
  {
    StepOnWorkers(s, Last(acts));
    hide Step;
    assert acts == Init(acts) + [Last(acts)];
  }

  lemma {:induction false} StagesRemember(workerCount: nat, acts: seq<Action>, w: nat)
    requires IsRun(Start(workerCount), acts) && w < workerCount
    ensures w < |Exec(Start(workerCount), acts).workers|
    ensures Remembers(acts, w, Exec(Start(workerCount), acts).workers[w])
  {
    hide Step, Enabled, Remembers;
    if acts == [] {
      assert Remembers([], w, Idle) by {
        IdleRemembersNothing(w);
      }
    } else {
      StagesRemember(workerCount, Init(acts), w);
      RemembersStep(Exec(Start(workerCount), Init(acts)), acts, w);
    }
  }

  lemma IdleRemembersNothing(w: nat)
    ensures Remembers([], w, Idle)
  {
  }

  /** The outcome that a worker saves is the one that its request ended with, and
      the one that it told the breaker. */
  predicate SavesItsOutcome(acts: seq<Action>, a: Action)
    requires a.Work? && a.step.Save?
  {
    && Work(a.w, Finish(a.step.job, a.step.id, a.step.outcome)) in acts
    && Work(a.w, Record(a.step.job, a.step.id, a.step.outcome)) in acts
  }

  lemma SaveIsOfStage(s: System, a: Action)
    requires Enabled(s, a) && a.Work? && a.step.Save?
    ensures a.w < |s.workers| && s.workers[a.w] == Recorded(a.step.job, a.step.id, a.step.outcome)
  {
  }

  lemma {:induction false} SavesFollowOutcomes(workerCount: nat, acts: seq<Action>)
    requires IsRun(Start(workerCount), acts)
    ensures forall a | a in acts && a.Work? && a.step.Save? :: SavesItsOutcome(acts, a)
  {
    hide Step, Enabled;
    if acts != [] {
      var init, last := Init(acts), Last(acts);
      SavesFollowOutcomes(workerCount, init);
      assert acts == init + [last];
      if last.Work? && last.step.Save? {
        SaveIsOfStage(Exec(Start(workerCount), init), last);
        WorkerCount(workerCount, init);
        StagesRemember(workerCount, init, last.w);
      }
      forall a | a in acts && a.Work? && a.step.Save? ensures SavesItsOutcome(acts, a) {
        assert a in init ==> SavesItsOutcome(init, a);
      }
    }
  }

  lemma {:induction false} WorkerCount(workerCount: nat, acts: seq<Action>)
    requires IsRun(Start(workerCount), acts)
    ensures |Exec(Start(workerCount), acts).workers| == workerCount
  {
    hide Step;
    if acts != [] {
      WorkerCount(workerCount, Init(acts));
      StepOnWorkers(Exec(Start(workerCount), Init(acts)), Last(acts));
    }
  }

  /** In every later state, a row that was updated tells how its worker's request
      ended, which is also what the breaker was told. */
  lemma {:induction false} RowsTellOutcomes(workerCount: nat, acts: seq<Action>, a: Action)
    requires IsRun(Start(workerCount), acts) && a in acts && SavesRow(a)
    ensures a.step.id in Exec(Start(workerCount), acts).rows
    ensures Tells(Exec(Start(workerCount), acts).rows[a.step.id], a.step.job, a.step.id, a.step.outcome,
                  a.step.now, a.step.draw)
    ensures SavesItsOutcome(acts, a)
  {
    hide Exec, IsRun, FinalLog, Tells, SavesItsOutcome;
    SavedRowsStay(workerCount, acts);
    assert Holds(Exec(Start(workerCount), acts).rows, a.step);
    OutcomeDecidesLog(a.step.job, a.step.id, a.step.outcome, a.step.now, a.step.draw);
    SavesFollowOutcomes(workerCount, acts);
  }

  /** This log was saved, in this way, by this worker after a response. */
  ghost predicate SavedAs(acts: seq<Action>, w: nat, job: Job, log: DeliveryLog, stored: bool) {
    exists a :: a in acts && IsSave(a, w, job, log, stored)
  }

  predicate IsSave(a: Action, w: nat, job: Job, log: DeliveryLog, stored: bool) {
    && a.Work? && a.w == w && a.step.Save? && a.step.job == job && a.step.stored == stored
    && a.step.outcome.Response? && log.responseStatus == Some(a.step.outcome.code)
    && log == FinalLog(job, a.step.id, a.step.outcome, a.step.now, a.step.draw)
  }

  lemma FinalLogResponse(job: Job, id: RowId, code: int, now: int, draw: nat)
    ensures FinalLog(job, id, Response(code), now, draw).responseStatus == Some(code)
  {
  }

  lemma {:induction false} SavedStagesWereSaved(workerCount: nat, acts: seq<Action>, w: nat)
    requires IsRun(Start(workerCount), acts)
    ensures
      var s := Exec(Start(workerCount), acts);
      w < |s.workers| && s.workers[w].Saved? ==>
        SavedAs(acts, w, s.workers[w].job, s.workers[w].log, s.workers[w].stored)
  {
    if acts != [] {
      var init, last := Init(acts), Last(acts);
      SavedStagesWereSaved(workerCount, init, w);
      assert acts == init + [last];
      var s := Exec(Start(workerCount), init);
      StepOnWorkers(s, last);
      if w < |s.workers| && Step(s, last).workers[w].Saved? {
        var stage := Step(s, last).workers[w];
        if last.Work? && last.w == w {
          FinalLogResponse(last.step.job, last.step.id, last.step.outcome.code, last.step.now, last.step.draw);
          assert last in acts && IsSave(last, w, stage.job, stage.log, stage.stored);
        } else {
          var a :| a in init && IsSave(a, w, stage.job, stage.log, stage.stored);
          assert a in acts;
        }
      }
    }
  }

  /** Only attempts with a response are published, each as its worker saved it. */
  lemma {:induction false} PublishedWasSaved(workerCount: nat, acts: seq<Action>)
    requires IsRun(Start(workerCount), acts)
    ensures forall a | a in acts && PublishTried(a) :: SavedAs(acts, a.w, a.step.job, a.step.log, a.step.stored)
  {
    if acts != [] {
      var init, last := Init(acts), Last(acts);
      PublishedWasSaved(workerCount, init);
      assert acts == init + [last];
      forall a | a in acts && PublishTried(a)
        ensures SavedAs(acts, a.w, a.step.job, a.step.log, a.step.stored)
      {
        if a !in init {
          SavedStagesWereSaved(workerCount, init, a.w);
        }
        var save :| save in init && IsSave(save, a.w, a.step.job, a.step.log, a.step.stored);
        assert save in acts;
      }
    }
  }

  /** A published log equals its row from then on if its update succeeded; if
      not, the row stays as inserted, and differs from what was published. */
  lemma {:induction false} PublishedMatchesRow(workerCount: nat, acts: seq<Action>, a: Action)
    requires IsRun(Start(workerCount), acts) && a in acts && PublishTried(a)
    ensures a.step.log.id in Exec(Start(workerCount), acts).rows && a.step.log.responseStatus.Some?
    ensures Work(a.w, Finish(a.step.job, a.step.log.id, Response(a.step.log.responseStatus.value))) in acts
    ensures
      var row := Exec(Start(workerCount), acts).rows[a.step.log.id];
      && (row == a.step.log <==> a.step.stored)
      && (!a.step.stored ==> row == FreshLog(a.step.job, a.step.log.id))
  {
    hide Exec, IsRun, FinalLog;
    PublishedWasSaved(workerCount, acts);
    var save :| save in acts && IsSave(save, a.w, a.step.job, a.step.log, a.step.stored);
    FinalLogKeys(save.step.job, save.step.id, save.step.outcome, save.step.now, save.step.draw);
    SavesFollowOutcomes(workerCount, acts);
    assert SavesItsOutcome(acts, save);
    if a.step.stored {
      SavedRowsStay(workerCount, acts);
      assert SavesRow(save);
    } else {
      UnsavedRowsStay(workerCount, acts, save);
    }
  }
}
