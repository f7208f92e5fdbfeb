/** The import of a repository: a durable job whose steps may each fail, with or without having
    taken effect, and which the object may be restarted between. */
module Import {
  import opened Options
  import opened Registry

  datatype RemoteCode =
    | InvalidUrl | InvalidDepth | BranchNotFound | InvalidAdvertisement | PublicAccessFailed | Unavailable

  /** What a step may throw. */
  datatype Error = Remote(code: RemoteCode) | Exhausted | BadPack | Other

  datatype FailureCode = RemoteFailure(code: RemoteCode) | StorageExhausted | InvalidPack | Internal

  predicate IsTransient(e: Error) {
    e == Remote(Unavailable)
  }

  function FailureOf(e: Error): FailureCode {
    match e
    case Remote(code) => RemoteFailure(code)
    case Exhausted => StorageExhausted
    case BadPack => InvalidPack
    case Other => Internal
  }

  datatype Job = Job(name: Name, attempts: nat)

  datatype Checkpoint = Imported(branch: string) | Failed(code: FailureCode)

  /** What the object stores besides the job: nothing, an empty repository, or the branch that
      was fetched and all that happened to it since. */
  datatype Contents = Nothing | Blank | Fetched(branch: string)

  datatype Outcome =
    | Waiting
    | Vanished
    | Interrupted
    | Rejected
    | Retrying
    | Completed(branch: string)
    | Failure(code: FailureCode)

  const MAX_ATTEMPTS: nat := 3

  /** Which call the operation is waiting for. `live` says that it is in the run that fetched,
      so that an exception would reach the handler around the fetch. */
  datatype At =
    | Idle(last: Outcome)
    | Recall(job: Job)
    | WriteJob(job: Job)
    | Reset(job: Job)
    | Fetch(job: Job)
    | Save(job: Job, branch: string)
    | Finish(job: Job, branch: string, live: bool)
    | Look(job: Job, branch: string, live: bool)
    | Complete(job: Job, branch: string, live: bool)
    | Refuse(job: Job, live: bool)
    | Arm(job: Job)
    | GiveUp(job: Job, code: FailureCode)
    | Delete(job: Job, code: FailureCode, live: bool)
    | Destroy(job: Job, code: FailureCode, live: bool)

  datatype State = State(
    rows: Rows,
    job: Option<Job>,
    checkpoint: Option<Checkpoint>,
    contents: Contents,
    at: At)

  /** How a call ends: with its reply, with an exception, or with the object restarted. The last
      two may come after it took effect. */
  datatype Fate = Done | Thrown(took: bool, error: Error) | Restarted(took: bool)

  datatype Event =
    | Scheduled(name: Name)
    | Alarm(fate: Fate)
    | Returns(fate: Fate, head: string)
    | Others(rows: Rows)
    | Discarded

  predicate Took(f: Fate) {
    f.Done? || f.took
  }

  // ---- One step --------------------------------------------------------------------------------

  /** What a call does once it takes effect. */
  function Effect(me: ObjectId, s: State, head: string): State {
    match s.at
    case Idle(_) => s
    case Recall(_) => s
    case WriteJob(job) => s.(job := Some(job))
    case Reset(_) => s.(contents := Blank)
    case Fetch(_) => s.(contents := Fetched(head))
    case Save(_, branch) => s.(checkpoint := Some(Imported(branch)))
    case Finish(job, branch, _) => s.(rows := Finished(s.rows, job.name, me, branch))
    case Look(_, _, _) => s
    case Complete(_, _, _) => s.(job := None, checkpoint := None)
    case Refuse(_, _) => s.(checkpoint := Some(Failed(Internal)))
    case Arm(_) => s
    case GiveUp(_, code) => s.(checkpoint := Some(Failed(code)))
    case Delete(job, _, _) => s.(rows := Withdrawn(s.rows, job.name, me))
    case Destroy(_, _, _) => s.(job := None, checkpoint := None, contents := Nothing)
  }

  /** The handler around the fetch: try again, or give up. */
  function Caught(job: Job, e: Error): At {
    if IsTransient(e) && job.attempts < MAX_ATTEMPTS then Arm(job) else GiveUp(job, FailureOf(e))
  }

  function Again(job: Job): At {
    WriteJob(job.(attempts := job.attempts + 1))
  }

  /** Where a run goes on, once it has read the checkpoint as well. */
  function Resume(job: Job, checkpoint: Option<Checkpoint>): At {
    match checkpoint
    case Some(Imported(branch)) => Finish(job, branch, false)
    case Some(Failed(code)) => Delete(job, code, false)
    case None => Again(job)
  }

  /** Where the operation goes with a reply. */
  function OnReply(me: ObjectId, s: State, head: string): At {
    match s.at
    case Idle(_) => s.at
    case Recall(job) => Resume(job, s.checkpoint)
    case WriteJob(job) => Reset(job)
    case Reset(job) => Fetch(job)
    case Fetch(job) => Save(job, head)
    case Save(job, branch) => Finish(job, branch, true)
    case Finish(job, branch, live) =>
      if Reserved(s.rows, job.name, me) then Complete(job, branch, live) else Look(job, branch, live)
    case Look(job, branch, live) =>
      if Published(s.rows, job.name, me) then Complete(job, branch, live) else Refuse(job, live)
    case Complete(_, branch, _) => Idle(Completed(branch))
    case Refuse(job, live) => Delete(job, Internal, live)
    case Arm(job) => Again(job)
    case GiveUp(job, code) => Delete(job, code, false)
    case Delete(job, code, live) => Destroy(job, code, live)
    case Destroy(_, code, _) => Idle(Failure(code))
  }

  /** Where it goes with an exception. */
  function OnThrow(at: At, e: Error): At {
    match at
    case Idle(_) => at
    case Recall(_) => Idle(Rejected)
    case WriteJob(_) => Idle(Rejected)
    case Reset(job) => Caught(job, e)
    case Fetch(job) => Caught(job, e)
    case Save(job, _) => Caught(job, e)
    case Finish(_, _, _) => Idle(Retrying)
    case Look(_, _, _) => Idle(Retrying)
    case Complete(job, _, live) => if live then Caught(job, e) else Idle(Rejected)
    case Refuse(job, live) => if live then Caught(job, e) else Idle(Rejected)
    case Arm(_) => Idle(Rejected)
    case GiveUp(_, _) => Idle(Rejected)
    case Delete(_, _, _) => Idle(Retrying)
    case Destroy(job, _, live) => if live then Caught(job, e) else Idle(Rejected)
  }

  /** Where a run begins, once it has read the job. */
  function Start(s: State): At {
    if s.job.None? then Idle(Vanished) else Recall(s.job.value)
  }

  /** A job is scheduled whether or not a run is under way; all else that begins waits for the run to end. */
  function Step(me: ObjectId, s: State, e: Event): State {
    match e
    case Scheduled(name) => s.(job := Some(Job(name, 0)), checkpoint := None)
    case Alarm(fate) =>
      if !s.at.Idle? then s
      else s.(at :=
        match fate
        case Done => Start(s)
        case Thrown(_, _) => Idle(Rejected)
        case Restarted(_) => Idle(Interrupted))
    case Returns(fate, head) =>
      var after := if Took(fate) then Effect(me, s, head) else s;
      after.(at :=
        if s.at.Idle? then s.at
        else match fate
          case Done => OnReply(me, s, head)
          case Thrown(_, error) => OnThrow(s.at, error)
          case Restarted(_) => Idle(Interrupted))
    case Others(rows) => s.(rows := rows)
    case Discarded =>
      if s.at.Idle? then s.(job := None, checkpoint := None, contents := Nothing) else s
  }

  function Run(me: ObjectId, s: State, events: seq<Event>): State
    decreases |events|
  {
    if events == [] then s else Run(me, Step(me, s, events[0]), events[1..])
  }

  lemma {:induction false} RunsOn(me: ObjectId, s: State, a: seq<Event>, b: seq<Event>)
    ensures Run(me, s, a + b) == Run(me, Run(me, s, a), b)
    decreases |a|
  {
    if a == [] {
      assert a + b == b;
    } else {
      assert (a + b)[1..] == a[1..] + b;
      RunsOn(me, Step(me, s, a[0]), a[1..], b);
    }
  }

  // ---- What the rest of the system may do ---------------------------------------------------------

  /** The job is scheduled for the name that was reserved, only the fetch speaks to the remote, and
      others keep to their own rows. */
  ghost predicate Expected(me: ObjectId, name: Name, s: State, e: Event) {
    match e
    case Scheduled(n) => n == name
    case Alarm(_) => true
    case Returns(fate, _) => fate.Thrown? && fate.error.Remote? ==> s.at.Fetch?
    case Others(rows) => MineKept(me, s.rows, rows)
    case Discarded => true
  }

  /** The row is about to become ready. */
  predicate AboutToPublish(me: ObjectId, name: Name, s: State) {
    s.at.Finish? && Reserved(s.rows, name, me)
  }

  /** A repository that is published, or about to be, is not scheduled again; one that is published is not
      emptied from outside, and closing its job does not throw in the run that fetched it. */
  predicate Harmless(me: ObjectId, name: Name, s: State, e: Event) {
    match e
    case Scheduled(_) => !Published(s.rows, name, me) && !AboutToPublish(me, name, s)
    case Discarded => !(Published(s.rows, name, me) && s.at.Idle?)
    case Returns(fate, _) => !(Published(s.rows, name, me) && fate.Thrown? && s.at.Complete? && s.at.live)
    case _ => true
  }

  ghost predicate Permitted(me: ObjectId, name: Name, s: State, e: Event) {
    Expected(me, name, s, e) && Harmless(me, name, s, e)
  }

  ghost predicate AllPermitted(me: ObjectId, name: Name, s: State, events: seq<Event>)
    decreases |events|
  {
    events == [] ||
    (Permitted(me, name, s, events[0]) && AllPermitted(me, name, Step(me, s, events[0]), events[1..]))
  }

  // ---- Safety over whole runs -----------------------------------------------------------------------

  /** The only name the object ever has is the one that was reserved for it. */
  predicate OnlyNamed(me: ObjectId, name: Name, rows: Rows) {
    forall n :: n in rows && rows[n].owner == me ==> n == name && rows[n].status != Forking
  }

  predicate Fetching(at: At) {
    at.WriteJob? || at.Reset? || at.Fetch? || at.Save? || at.Arm?
  }

  predicate Publishing(at: At) {
    at.Finish? || at.Look? || at.Complete?
  }

  /** The operation is where its durable state says it is. */
  predicate Consistent(me: ObjectId, name: Name, s: State) {
    && (s.job.Some? ==> s.job.value.name == name)
    && (s.at.Idle? || s.at.job.name == name)
    && (s.checkpoint.Some? && s.checkpoint.value.Imported? ==> s.contents == Fetched(s.checkpoint.value.branch))
    && (Fetching(s.at) ==> s.job.Some? && s.checkpoint.None?)
    && (s.at.Save? ==> s.contents == Fetched(s.at.branch))
    && (s.at.Recall? ==> s.job.Some?)
    && (Publishing(s.at) ==> s.contents == Fetched(s.at.branch))
    && (AboutToPublish(me, name, s) ==> s.job.Some? && s.checkpoint == Some(Imported(s.at.branch)))
    && (s.at.Look? ==> !Reserved(s.rows, name, me))
    && (s.at.Complete? ==> !Reserved(s.rows, name, me))
    && (s.at.Refuse? || s.at.Destroy? ==> !Reserved(s.rows, name, me))
  }

  /** A repository that can be used has its import, and no failure is pending against it. */
  predicate PublishedIsWhole(me: ObjectId, name: Name, s: State) {
    Published(s.rows, name, me) ==>
      && s.contents.Fetched?
      && (s.at.Idle? || s.at.Recall? || Publishing(s.at))
      && (s.job.Some? ==> s.checkpoint.Some? && s.checkpoint.value.Imported?)
  }

  ghost predicate Inv(me: ObjectId, name: Name, s: State) {
    OnlyNamed(me, name, s.rows) && Consistent(me, name, s) && PublishedIsWhole(me, name, s)
  }

  /** The reservation was made and nothing was scheduled yet. */
  predicate Initial(me: ObjectId, name: Name, s: State) {
    && s.job.None? && s.checkpoint.None? && s.contents.Nothing? && s.at.Idle?
    && (forall n :: n in s.rows && s.rows[n].owner == me ==> n == name && s.rows[n].status == Importing)
  }

  lemma StepKeepsNames(me: ObjectId, name: Name, s: State, e: Event)
    requires Inv(me, name, s) && Permitted(me, name, s, e)
    ensures OnlyNamed(me, name, Step(me, s, e).rows)
  {
  }

  lemma ReturnKeepsConsistent(me: ObjectId, name: Name, s: State, fate: Fate, head: string)
    requires Inv(me, name, s) && Permitted(me, name, s, Returns(fate, head))
    ensures Consistent(me, name, Step(me, s, Returns(fate, head)))
  {
    hide PublishedIsWhole, OnlyNamed;
    if fate.Thrown? && !s.at.Idle? {
      assert OnThrow(s.at, fate.error).Idle? || OnThrow(s.at, fate.error).job == s.at.job;
    }
  }

  lemma StepKeepsConsistent(me: ObjectId, name: Name, s: State, e: Event)
    requires Inv(me, name, s) && Permitted(me, name, s, e)
    ensures Consistent(me, name, Step(me, s, e))
  {
    match e
    case Scheduled(_) =>
    case Alarm(_) =>
    case Others(_) =>
    case Discarded =>
    case Returns(fate, head) => ReturnKeepsConsistent(me, name, s, fate, head);
  }

  lemma StepKeepsWhole(me: ObjectId, name: Name, s: State, e: Event)
    requires Inv(me, name, s) && Permitted(me, name, s, e)
    ensures PublishedIsWhole(me, name, Step(me, s, e))
  {
    hide OnlyNamed;
  }

  lemma StepKeepsInv(me: ObjectId, name: Name, s: State, e: Event)
    requires Inv(me, name, s) && Permitted(me, name, s, e)
    ensures Inv(me, name, Step(me, s, e))
  {
    hide Step, Permitted, Consistent, PublishedIsWhole, OnlyNamed;
    StepKeepsNames(me, name, s, e);
    StepKeepsConsistent(me, name, s, e);
    StepKeepsWhole(me, name, s, e);
  }

  /** The conditions on a step are exact: any other step that may happen breaks the invariant. */
  lemma StepKeepsInvIff(me: ObjectId, name: Name, s: State, e: Event)
    requires Inv(me, name, s) && Expected(me, name, s, e)
    ensures Inv(me, name, Step(me, s, e)) <==> Harmless(me, name, s, e)
  {
    hide OnlyNamed;
    if Harmless(me, name, s, e) {
      StepKeepsInv(me, name, s, e);
    }
  }

  lemma {:induction false} RunKeepsInv(me: ObjectId, name: Name, s: State, events: seq<Event>)
    requires Inv(me, name, s) && AllPermitted(me, name, s, events)
    ensures Inv(me, name, Run(me, s, events))
    decreases |events|
  {
    if events != [] {
      StepKeepsInv(me, name, s, events[0]);
      RunKeepsInv(me, name, Step(me, s, events[0]), events[1..]);
    }
  }

  ghost predicate AllExpected(me: ObjectId, name: Name, s: State, events: seq<Event>)
    decreases |events|
  {
    events == [] ||
    (Expected(me, name, s, events[0]) && AllExpected(me, name, Step(me, s, events[0]), events[1..]))
  }

  /** A run keeps the invariant at every point exactly if every step of it is harmless. */
  lemma {:induction false} RunKeepsInvIff(me: ObjectId, name: Name, s: State, events: seq<Event>)
    requires Inv(me, name, s) && AllExpected(me, name, s, events)
    ensures AllPermitted(me, name, s, events) <==>
      forall k :: 0 <= k <= |events| ==> Inv(me, name, Run(me, s, events[..k]))
    decreases |events|
  {
    hide Step, Inv, Expected, Harmless;
    if events != [] {
      var next, rest := Step(me, s, events[0]), events[1..];
      StepKeepsInvIff(me, name, s, events[0]);
      assert forall k :: 0 < k <= |events| ==> events[..k][0] == events[0] && events[..k][1..] == rest[..k - 1];
      assert Run(me, s, events[..1]) == next;
      if Inv(me, name, next) {
        RunKeepsInvIff(me, name, next, rest);
        assert forall k :: 0 <= k <= |rest| ==> Run(me, next, rest[..k]) == Run(me, s, events[..k + 1]);
      }
    }
  }

  /** Whatever fails, whenever the object restarts and whatever others do in between: no row
      that can be used ever points at storage that was emptied. */
  lemma NeverDestroyedInUse(me: ObjectId, name: Name, s: State, events: seq<Event>)
    requires Initial(me, name, s) && AllPermitted(me, name, s, events)
    ensures var t := Run(me, s, events);
      (exists n :: n in t.rows && t.rows[n].owner == me && t.rows[n].status == Ready) ==> t.contents.Fetched?
  {
    RunKeepsInv(me, name, s, events);
  }

  // ---- What the operation never does -----------------------------------------------------------------

  predicate Undisturbed(events: seq<Event>) {
    forall i :: 0 <= i < |events| ==> !events[i].Others?
  }

  /** No row of another object is changed or removed, and none is made, however calls fail. */
  lemma {:induction false} OthersAreUntouched(me: ObjectId, s: State, events: seq<Event>)
    requires Undisturbed(events)
    ensures var rows := Run(me, s, events).rows;
      && rows.Keys <= s.rows.Keys
      && forall n :: n in s.rows && s.rows[n].owner != me ==> n in rows && rows[n] == s.rows[n]
    decreases |events|
  {
    if events != [] {
      OthersAreUntouched(me, Step(me, s, events[0]), events[1..]);
    }
  }

  /** A fetch has been recorded, or the job is over. */
  predicate Settled(s: State) {
    !Fetching(s.at) && (s.job.None? || s.checkpoint.Some?)
  }

  predicate NotScheduled(events: seq<Event>) {
    forall i :: 0 <= i < |events| ==> !events[i].Scheduled?
  }

  /** Once a checkpoint is durable, nothing is fetched or reset again: not after any failure or
      restart, and not when publication is taken up much later. */
  lemma {:induction false} NothingIsFetchedAgain(me: ObjectId, name: Name, s: State, events: seq<Event>)
    requires Inv(me, name, s) && AllPermitted(me, name, s, events) && NotScheduled(events)
    requires Settled(s)
    ensures Settled(Run(me, s, events))
    decreases |events|
  {
    if events != [] {
      SettledStays(me, name, s, events[0]);
      StepKeepsInv(me, name, s, events[0]);
      NothingIsFetchedAgain(me, name, Step(me, s, events[0]), events[1..]);
    }
  }

  lemma SettledStays(me: ObjectId, name: Name, s: State, e: Event)
    requires Inv(me, name, s) && Permitted(me, name, s, e) && Settled(s)
    ensures Settled(Step(me, s, e)) <==> !e.Scheduled?
  {
  }

  // ---- Publication ------------------------------------------------------------------------------------

  /** The import of `branch` is stored and `rows` still reserves its name. */
  predicate Awaiting(me: ObjectId, name: Name, s: State, rows: Rows, branch: string) {
    && s.rows == rows && Reserved(rows, name, me)
    && s.job.Some? && s.checkpoint == Some(Imported(branch))
    && ((s.at.Idle? && !s.at.last.Completed?) || s.at.Recall? || (s.at.Finish? && s.at.branch == branch))
  }

  /** The row is ready; only closing the job may be left to do. */
  predicate Out(me: ObjectId, name: Name, s: State, rows: Rows, branch: string) {
    && s.rows == Finished(rows, name, me, branch)
    && (s.job.Some? ==> s.checkpoint == Some(Imported(branch)))
    && (Publishing(s.at) ==> s.at.branch == branch)
    && (s.at.Idle? && s.at.last.Completed? ==> s.at.last.branch == branch && s.job.None?)
  }

  lemma PublicationAdvances(me: ObjectId, name: Name, s: State, e: Event, rows: Rows, branch: string)
    requires Inv(me, name, s) && Permitted(me, name, s, e) && (e.Alarm? || e.Returns?) && Reserved(rows, name, me)
    requires Awaiting(me, name, s, rows, branch) || Out(me, name, s, rows, branch)
    ensures Awaiting(me, name, Step(me, s, e), rows, branch) || Out(me, name, Step(me, s, e), rows, branch)
  {
    assert Published(Finished(rows, name, me, branch), name, me) && name in s.rows && s.rows[name].owner == me;
    match e
    case Alarm(_) =>
    case Returns(_, _) =>
  }

  /** Nothing happens but the operation's own alarms and calls. */
  predicate Alone(events: seq<Event>) {
    forall i :: 0 <= i < |events| ==> events[i].Alarm? || events[i].Returns?
  }

  /** Replies may be lost and the object restarted any number of times: the registry is as it was,
      or as one call that succeeded left it, and always the latter once success was reported. */
  lemma {:induction false} LostRepliesDoNotMatter(
      me: ObjectId, name: Name, s: State, events: seq<Event>, rows: Rows, branch: string)
    requires Inv(me, name, s) && AllPermitted(me, name, s, events) && Alone(events)
    requires Reserved(rows, name, me)
    requires Awaiting(me, name, s, rows, branch) || Out(me, name, s, rows, branch)
    ensures var after := Run(me, s, events);
      && (after.rows == rows || after.rows == Finished(rows, name, me, branch))
      && (after.at.Idle? && after.at.last.Completed? ==>
            && after.rows == Finished(rows, name, me, branch)
            && after.at.last.branch == branch && after.job.None?)
    decreases |events|
  {
    if events != [] {
      PublicationAdvances(me, name, s, events[0], rows, branch);
      StepKeepsInv(me, name, s, events[0]);
      LostRepliesDoNotMatter(me, name, Step(me, s, events[0]), events[1..], rows, branch);
    }
  }

  function Replies(n: nat): seq<Event> {
    seq(n, _ => Returns(Done, ""))
  }

  /** Publication that never reached the registry is completed by an alarm on which every call is
      answered: the row is ready and the job closed. */
  lemma PublicationIsTakenUp(me: ObjectId, name: Name, s: State, branch: string)
    requires Inv(me, name, s) && s.at.Idle? && s.job.Some? && s.checkpoint == Some(Imported(branch))
    requires Reserved(s.rows, name, me)
    ensures Run(me, s, [Alarm(Done)] + Replies(3)) ==
      s.(rows := Finished(s.rows, name, me, branch), job := None, checkpoint := None, at := Idle(Completed(branch)))
  {
    hide Run, OnlyNamed;
    TakenUp(me, s, 3);
    Answered(me, Step(me, s, Alarm(Done)), 3);
  }

  /** So is publication that did but never heard: the same call now finds nothing to do, and the
      row it finds ready counts. */
  lemma LostReplyIsMadeGood(me: ObjectId, name: Name, s: State, branch: string)
    requires Inv(me, name, s) && s.at.Idle? && s.job.Some? && s.checkpoint == Some(Imported(branch))
    requires Published(s.rows, name, me)
    ensures Run(me, s, [Alarm(Done)] + Replies(4)) ==
      s.(job := None, checkpoint := None, at := Idle(Completed(branch)))
  {
    hide Run, OnlyNamed;
    TakenUp(me, s, 4);
    Answered(me, Step(me, s, Alarm(Done)), 4);
  }

  lemma Single(me: ObjectId, s: State, e: Event)
    ensures Run(me, s, [e]) == Step(me, s, e)
  {
    hide Step;
    assert [e][1..] == [];
  }

  /** The call under way is answered. */
  function Next(me: ObjectId, s: State): State {
    Step(me, s, Returns(Done, ""))
  }

  /** A run whose calls are all answered, one call at a time. */
  lemma {:induction false} Answered(me: ObjectId, s: State, n: nat)
    ensures n > 0 ==> Run(me, s, Replies(n)) == Run(me, Next(me, s), Replies(n - 1))
    ensures n == 1 ==> Run(me, s, Replies(n)) == Next(me, s)
    ensures n == 2 ==> Run(me, s, Replies(n)) == Next(me, Next(me, s))
    ensures n == 3 ==> Run(me, s, Replies(n)) == Next(me, Next(me, Next(me, s)))
    ensures n == 4 ==> Run(me, s, Replies(n)) == Next(me, Next(me, Next(me, Next(me, s))))
    decreases n
  {
    hide Step;
    if n > 0 {
      assert Replies(n)[1..] == Replies(n - 1);
      Answered(me, Next(me, s), n - 1);
    }
  }

  /** An alarm and some answered calls. */
  lemma TakenUp(me: ObjectId, s: State, n: nat)
    ensures Run(me, s, [Alarm(Done)] + Replies(n)) == Run(me, Step(me, s, Alarm(Done)), Replies(n))
  {
    hide Step;
    assert ([Alarm(Done)] + Replies(n))[1..] == Replies(n);
  }

  // ---- Outcomes -----------------------------------------------------------------------------------------

  /** What the operation reports is so: after success the branch is stored and the job closed;
      after failure nothing is stored and no row names the object. */
  lemma OutcomeIsTrue(me: ObjectId, name: Name, s: State, e: Event)
    requires Inv(me, name, s) && Permitted(me, name, s, e) && !s.at.Idle?
    ensures var after := Step(me, s, e);
      after.at.Idle? ==>
        && (after.at.last.Completed? ==>
              && after.contents == Fetched(after.at.last.branch) && after.job.None? && after.checkpoint.None?
              && (Named(after.rows, me) ==> Published(after.rows, name, me)))
        && (after.at.last.Failure? ==>
              && after.contents.Nothing? && after.job.None? && after.checkpoint.None?
              && !Named(after.rows, me))
  {
    StepKeepsInv(me, name, s, e);
  }

  /** A failure that is on record is cleaned up by the first alarm on which every call is answered:
      the reservation is withdrawn and the storage emptied. */
  lemma FailureIsCleanedUp(me: ObjectId, name: Name, s: State, code: FailureCode)
    requires Inv(me, name, s) && s.at.Idle? && s.job.Some? && s.checkpoint == Some(Failed(code))
    ensures var after := Run(me, s, [Alarm(Done)] + Replies(3));
      && after == s.(rows := Withdrawn(s.rows, name, me), job := None, checkpoint := None,
                     contents := Nothing, at := Idle(Failure(code)))
      && !Named(after.rows, me)
  {
    hide Run;
    TakenUp(me, s, 3);
    Answered(me, Step(me, s, Alarm(Done)), 3);
  }

  // ---- How often it is tried ----------------------------------------------------------------------------

  /** The failure that is reported for what was thrown. */
  predicate Tells(code: FailureCode, e: Error) {
    match e
    case Remote(remote) => code == RemoteFailure(remote)
    case Exhausted => code == StorageExhausted
    case BadPack => code == InvalidPack
    case Other => code == Internal
  }

  /** What the fetch throws is tried again exactly if the remote was unavailable, at the first or the second try;
      anything else ends the job with the failure that tells of it. */
  lemma TriedAgainIff(job: Job, e: Error, code: FailureCode)
    ensures Caught(job, e) == Arm(job) <==> e == Remote(Unavailable) && job.attempts < 3
    ensures Caught(job, e) == GiveUp(job, code) <==> (e == Remote(Unavailable) ==> job.attempts >= 3) && Tells(code, e)
  {
  }

  /** A try in which everything is answered but the fetch, which finds the remote unavailable, before or after it
      stored anything; and the call that follows. */
  function FailedTry(took: bool): seq<Event> {
    Replies(2) + [Returns(Thrown(took, Remote(Unavailable)), "")] + Replies(1)
  }

  lemma TryFails(me: ObjectId, s: State, job: Job, took: bool)
    requires s.at == WriteJob(job)
    ensures Run(me, s, FailedTry(took)) ==
      var t := s.(job := Some(job), contents := if took then Fetched("") else Blank);
      if job.attempts < 3 then t.(at := WriteJob(Job(job.name, job.attempts + 1)))
      else t.(checkpoint := Some(Failed(RemoteFailure(Unavailable))),
              at := Delete(job, RemoteFailure(Unavailable), false))
  {
    hide Run;
    var thrown := Returns(Thrown(took, Remote(Unavailable)), "");
    Answered(me, s, 2);
    var fetching := Run(me, s, Replies(2));
    Extended(me, s, Replies(2), thrown, fetching);
    var caught := Step(me, fetching, thrown);
    RunsOn(me, s, Replies(2) + [thrown], Replies(1));
    Answered(me, caught, 1);
  }

  function FailedTries(took: seq<bool>): seq<Event> {
    if took == [] then [] else FailedTry(took[0]) + FailedTries(took[1..])
  }

  lemma {:induction false} TriesFail(me: ObjectId, s: State, job: Job, took: seq<bool>)
    requires s.at == WriteJob(job) && took != [] && job.attempts + |took| <= 3
    ensures var t := Run(me, s, FailedTries(took));
      && t.at == WriteJob(Job(job.name, job.attempts + |took|)) && t.checkpoint == s.checkpoint && t.rows == s.rows
      && t.job.Some?
    decreases |took|
  {
    hide Run;
    TryFails(me, s, job, took[0]);
    RunsOn(me, s, FailedTry(took[0]), FailedTries(took[1..]));
    var next := Run(me, s, FailedTry(took[0]));
    if |took| > 1 {
      TriesFail(me, next, Job(job.name, job.attempts + 1), took[1..]);
    } else {
      assert took[1..] == [];
      RunsNothing(me, next);
    }
  }

  lemma RunsNothing(me: ObjectId, s: State)
    ensures Run(me, s, []) == s
  {
  }

  /** The first try of a job that was just scheduled. */
  lemma FirstTry(me: ObjectId, name: Name, s: State)
    requires s.at.Idle?
    ensures Run(me, s, [Scheduled(name), Alarm(Done)] + Replies(1)) ==
      s.(job := Some(Job(name, 0)), checkpoint := None, at := WriteJob(Job(name, 1)))
  {
    hide Run;
    ScheduledAndTakenUp(me, name, s, 1);
    Answered(me, Step(me, Step(me, s, Scheduled(name)), Alarm(Done)), 1);
  }

  /** If the remote was unavailable twice the third try can still succeed: the branch is published. */
  lemma ThirdTryCounts(me: ObjectId, name: Name, s: State, took: seq<bool>)
    requires s.at.Idle? && Reserved(s.rows, name, me) && |took| == 2
    ensures var t := Run(me, s, [Scheduled(name), Alarm(Done)] + Replies(1) + FailedTries(took) + Replies(6));
      && t.at == Idle(Completed("")) && t.contents == Fetched("") && t.job.None? && t.checkpoint.None?
      && Published(t.rows, name, me)
  {
    hide Run;
    var begin := [Scheduled(name), Alarm(Done)] + Replies(1);
    FirstTry(me, name, s);
    var first := Run(me, s, begin);
    RunsOn(me, s, begin, FailedTries(took));
    TriesFail(me, first, Job(name, 1), took);
    var third := Run(me, first, FailedTries(took));
    RunsOn(me, s, begin + FailedTries(took), Replies(6));
    assert Replies(6) == Replies(3) + Replies(3);
    RunsOn(me, third, Replies(3), Replies(3));
    Answered(me, third, 3);
    Answered(me, Run(me, third, Replies(3)), 3);
  }

  /** If it was unavailable three times, the job is over: the failure is told, the reservation is withdrawn, and
      nothing is left in the object. */
  lemma ThreeTriesAreEnough(me: ObjectId, name: Name, s: State, took: seq<bool>, last: bool)
    requires s.at.Idle? && Reserved(s.rows, name, me) && |took| == 2
    ensures var t := Run(me, s, [Scheduled(name), Alarm(Done)] + Replies(1) + FailedTries(took) + FailedTry(last)
                                + Replies(2));
      && t.at == Idle(Failure(RemoteFailure(Unavailable))) && t.contents.Nothing? && t.job.None? && t.checkpoint.None?
      && name !in t.rows
  {
    hide Run;
    var begin := [Scheduled(name), Alarm(Done)] + Replies(1);
    FirstTry(me, name, s);
    var first := Run(me, s, begin);
    RunsOn(me, s, begin, FailedTries(took));
    TriesFail(me, first, Job(name, 1), took);
    var third := Run(me, first, FailedTries(took));
    RunsOn(me, s, begin + FailedTries(took), FailedTry(last));
    TryFails(me, third, Job(name, 3), last);
    var over := Run(me, third, FailedTry(last));
    RunsOn(me, s, begin + FailedTries(took) + FailedTry(last), Replies(2));
    Answered(me, over, 2);
  }

  // ---- What the hypotheses are for -----------------------------------------------------------------------

  /** The handler around the fetch also covers closing the published job. If that throws, the
      published repository stays safe exactly when the run is one that took publication up; in the
      run that fetched, the repository's storage is destroyed under a row that is ready. */
  lemma ClosingMayThrowIff(me: ObjectId, name: Name, s: State, took: bool)
    requires Inv(me, name, s) && s.at.Complete? && Published(s.rows, name, me)
    ensures Inv(me, name, Step(me, s, Returns(Thrown(took, Other), ""))) <==> !s.at.live
    ensures s.at.live ==>
      var after := Run(me, s, [Returns(Thrown(took, Other), "")] + Replies(3));
      after.contents.Nothing? && Published(after.rows, name, me)
  {
    var thrown := Returns(Thrown(took, Other), "");
    assert ([thrown] + Replies(3))[1..] == Replies(3);
    Answered(me, Step(me, s, thrown), 3);
  }

  /** Scheduling a repository again, wherever its run is, is safe exactly if it is not published and not about
      to be. Between runs it empties what was published, */
  lemma SchedulingAgainEmptiesIff(me: ObjectId, name: Name, s: State)
    requires Inv(me, name, s)
    ensures Inv(me, name, Step(me, s, Scheduled(name))) <==>
      !Published(s.rows, name, me) && !AboutToPublish(me, name, s)
    ensures s.at.Idle? ==>
      var after := Run(me, s, [Scheduled(name), Alarm(Done)] + Replies(3));
      after.contents.Blank? && (Published(after.rows, name, me) <==> Published(s.rows, name, me))
  {
    hide Run;
    StepKeepsInvIff(me, name, s, Scheduled(name));
    if s.at.Idle? {
      ScheduledAndTakenUp(me, name, s, 3);
      Answered(me, Step(me, Step(me, s, Scheduled(name)), Alarm(Done)), 3);
    }
  }

  /** and during publication the next alarm does, although it was only reserved when the job came: the row becomes
      ready, the object restarts, and the job that was put in the other's place begins to fetch. */
  lemma SchedulingInPublicationEmpties(me: ObjectId, name: Name, s: State)
    requires Inv(me, name, s) && AboutToPublish(me, name, s)
    ensures var before := [Scheduled(name), Returns(Done, ""), Returns(Restarted(false), "")];
      var after := Run(me, s, before + ([Alarm(Done)] + Replies(3)));
      after.contents.Blank? && Published(after.rows, name, me)
  {
    hide Run, OnlyNamed;
    var before := [Scheduled(name), Returns(Done, ""), Returns(Restarted(false), "")];
    var ready := Next(me, Step(me, s, Scheduled(name)));
    var gone := Step(me, ready, Returns(Restarted(false), ""));
    ThreeSteps(me, s, before[0], before[1], before[2]);
    RunsOn(me, s, before, [Alarm(Done)] + Replies(3));
    TakenUp(me, gone, 3);
    Answered(me, Step(me, gone, Alarm(Done)), 3);
  }

  lemma ThreeSteps(me: ObjectId, s: State, a: Event, b: Event, c: Event)
    ensures Run(me, s, [a, b, c]) == Step(me, Step(me, Step(me, s, a), b), c)
  {
    hide Step;
    assert [a, b, c][1..] == [b, c] && [b, c][1..] == [c];
    Single(me, Step(me, Step(me, s, a), b), c);
  }

  lemma ScheduledAndTakenUp(me: ObjectId, name: Name, s: State, n: nat)
    ensures Run(me, s, [Scheduled(name), Alarm(Done)] + Replies(n)) ==
      Run(me, Step(me, Step(me, s, Scheduled(name)), Alarm(Done)), Replies(n))
  {
    hide Step;
    assert ([Scheduled(name), Alarm(Done)] + Replies(n))[1..] == [Alarm(Done)] + Replies(n);
    TakenUp(me, Step(me, s, Scheduled(name)), n);
  }

  /** What a caller does when scheduling throws: withdraw the reservation, then empty the storage.
      It leaves nothing behind exactly if nothing was published. */
  lemma GivingUpIsSafeIff(me: ObjectId, name: Name, s: State)
    requires Inv(me, name, s) && s.at.Idle?
    ensures var after := Run(me, s, [Others(Withdrawn(s.rows, name, me)), Discarded]);
      && after.contents.Nothing? && after.job.None?
      && (Inv(me, name, after) <==> !Published(s.rows, name, me))
      && (!Named(after.rows, me) <==> !Published(s.rows, name, me))
  {
    assert [Others(Withdrawn(s.rows, name, me)), Discarded][1..] == [Discarded];
    Single(me, Step(me, s, Others(Withdrawn(s.rows, name, me))), Discarded);
    if !Published(s.rows, name, me) {
      assert !Named(Withdrawn(s.rows, name, me), me);
    }
  }

  /** A job whose every call is answered fetches its branch, */
  lemma AnsweredJobFetches(me: ObjectId, name: Name, s: State)
    requires s.at.Idle?
    ensures Run(me, s, [Scheduled(name), Alarm(Done)] + Replies(4)) ==
      s.(job := Some(Job(name, 1)), checkpoint := None, contents := Fetched(""), at := Save(Job(name, 1), ""))
  {
    hide Run;
    ScheduledAndTakenUp(me, name, s, 4);
    Answered(me, Step(me, Step(me, s, Scheduled(name)), Alarm(Done)), 4);
  }

  /** and publishes it. */
  lemma AnsweredJobPublishes(me: ObjectId, name: Name, s: State)
    requires s.at.Idle? && Reserved(s.rows, name, me)
    ensures Run(me, s, [Scheduled(name), Alarm(Done)] + Replies(7)) ==
      s.(rows := Finished(s.rows, name, me, ""), job := None, checkpoint := None, contents := Fetched(""),
         at := Idle(Completed("")))
  {
    hide Run;
    AnsweredJobFetches(me, name, s);
    assert [Scheduled(name), Alarm(Done)] + Replies(7) ==
      [Scheduled(name), Alarm(Done)] + Replies(4) + Replies(3);
    RunsOn(me, s, [Scheduled(name), Alarm(Done)] + Replies(4), Replies(3));
    Answered(me, Run(me, s, [Scheduled(name), Alarm(Done)] + Replies(4)), 3);
  }

  /** The reply to scheduling may be lost after the import was published. The caller that gives up
      then finds no reservation to withdraw and empties the storage under the ready row. */
  lemma LostScheduleReplyDestroys(me: ObjectId, name: Name, s: State)
    requires Initial(me, name, s) && Reserved(s.rows, name, me)
    ensures var imported := Run(me, s, [Scheduled(name), Alarm(Done)] + Replies(7));
      var after := Run(me, imported, [Others(Withdrawn(imported.rows, name, me)), Discarded]);
      && Inv(me, name, imported)
      && imported.at == Idle(Completed("")) && imported.contents == Fetched("")
      && Withdrawn(imported.rows, name, me) == imported.rows
      && Published(after.rows, name, me) && after.contents.Nothing?
  {
    AnsweredJobPublishes(me, name, s);
    var imported := Run(me, s, [Scheduled(name), Alarm(Done)] + Replies(7));
    assert [Others(imported.rows), Discarded][1..] == [Discarded];
    Single(me, imported, Discarded);
  }

  // ---- The object that carries it out ---------------------------------------------------------------------

  /** A run that ended, or an exception that left the callee. */
  datatype Result = Ended(outcome: Outcome) | Escaped(error: Error)

  function AtAfter(r: Result, job: Job, live: bool): At {
    match r
    case Ended(outcome) => Idle(outcome)
    case Escaped(e) => if live then Caught(job, e) else Idle(Rejected)
  }

  /** Where a call leaves the run, given where its reply and its exception lead. */
  function Arrival(fate: Fate, replied: At, thrown: At): At {
    match fate
    case Done => replied
    case Thrown(_, _) => thrown
    case Restarted(_) => Idle(Interrupted)
  }

  function ErrorOf(fate: Fate): Error {
    if fate.Thrown? then fate.error else Other
  }

  function Raised(fate: Fate): Result
    requires !fate.Done?
  {
    if fate.Thrown? then Escaped(fate.error) else Ended(Interrupted)
  }

  lemma CaughtUnfolds(job: Job, e: Error)
    ensures Caught(job, e) ==
      if IsTransient(e) && job.attempts < MAX_ATTEMPTS then At.Arm(job) else At.GiveUp(job, FailureOf(e))
  {
  }

  lemma Extended(me: ObjectId, s0: State, trace: seq<Event>, e: Event, s: State)
    requires Run(me, s0, trace) == s
    ensures Run(me, s0, trace + [e]) == Step(me, s, e)
  {
    RunsOn(me, s0, trace, [e]);
    Single(me, s, e);
  }

  lemma RestartEnds(me: ObjectId, s: State)
    ensures Step(me, s, Returns(Restarted(false), "")).at.Idle?
  {
  }

  /** While a call is under way the registry may change and a job be scheduled, each call may end in any way,
      and the object may be gone. Every run of these methods is a run of the steps above. */
  class ImportOperation {
    const me: ObjectId
    const registry: RepositoryIndex
    var job: Option<Job>
    var checkpoint: Option<Checkpoint>
    var contents: Contents

    constructor (me: ObjectId, registry: RepositoryIndex)
      ensures this.me == me && this.registry == registry
      ensures Seen(Idle(Waiting)) == State(registry.rows, None, None, Nothing, Idle(Waiting))
    {
      this.me, this.registry := me, registry;
      job, checkpoint, contents := None, None, Nothing;
    }

    ghost function Seen(at: At): State
      reads this, registry
    {
      State(registry.rows, job, checkpoint, contents, at)
    }

    /** What may happen while a call is under way: others use the registry, and the job is scheduled again,
        which does not wait for the run to end. And how the call will end. */
    method Await(ghost s0: State, ghost before: seq<Event>, ghost at: At) returns (fate: Fate, ghost trace: seq<Event>)
      requires Run(me, s0, before) == Seen(at)
      modifies registry`rows, this`job, this`checkpoint
      ensures Run(me, s0, trace) == Seen(at)
    {
      hide Run;
      registry.rows := *;
      trace := before + [Others(registry.rows)];
      Extended(me, s0, before, Others(registry.rows), old(Seen(at)));
      var again: bool := *;
      if again {
        var name: Name := *;
        Extended(me, s0, trace, Scheduled(name), Seen(at));
        trace := trace + [Scheduled(name)];
        job, checkpoint := Some(Job(name, 0)), None;
      }
      fate := *;
    }

    /** The step a call made, once it returned. */
    lemma Returned(s0: State, before: seq<Event>, s: State, fate: Fate, head: string)
      requires Run(me, s0, before) == s
      ensures Run(me, s0, before + [Returns(fate, head)]) == Step(me, s, Returns(fate, head))
    {
      Extended(me, s0, before, Returns(fate, head), s);
    }

    // The calls that the operation waits for. Each says where it leaves the run.

    method ReadCheckpoint(job: Job, ghost s0: State, ghost before: seq<Event>)
      returns (fate: Fate, current: Option<Checkpoint>, ghost trace: seq<Event>)
      requires Run(me, s0, before) == Seen(At.Recall(job))
      modifies this`job, this`checkpoint, registry`rows
      ensures Run(me, s0, trace) == Seen(Arrival(fate, Resume(job, current), Idle(Rejected)))
    {
      hide Run;
      fate, trace := Await(s0, before, At.Recall(job));
      Returned(s0, trace, Seen(At.Recall(job)), fate, "");
      current := checkpoint;
      trace := trace + [Returns(fate, "")];
    }

    method WriteJob(job: Job, ghost s0: State, ghost before: seq<Event>)
      returns (fate: Fate, ghost trace: seq<Event>)
      requires Run(me, s0, before) == Seen(At.WriteJob(job))
      modifies this`job, this`checkpoint, registry`rows
      ensures Run(me, s0, trace) == Seen(Arrival(fate, At.Reset(job), OnThrow(At.WriteJob(job), ErrorOf(fate))))
    {
      hide Run;
      fate, trace := Await(s0, before, At.WriteJob(job));
      Returned(s0, trace, Seen(At.WriteJob(job)), fate, "");
      if Took(fate) { this.job := Some(job); }
      trace := trace + [Returns(fate, "")];
    }

    method ResetImport(job: Job, ghost s0: State, ghost before: seq<Event>)
      returns (fate: Fate, ghost trace: seq<Event>)
      requires Run(me, s0, before) == Seen(At.Reset(job))
      modifies this`job, this`checkpoint, this`contents, registry`rows
      ensures Run(me, s0, trace) == Seen(Arrival(fate, At.Fetch(job), Caught(job, ErrorOf(fate))))
    {
      hide Run;
      fate, trace := Await(s0, before, At.Reset(job));
      Returned(s0, trace, Seen(At.Reset(job)), fate, "");
      if Took(fate) { contents := Blank; }
      trace := trace + [Returns(fate, "")];
    }

    method ImportBranch(job: Job, ghost s0: State, ghost before: seq<Event>)
      returns (fate: Fate, head: string, ghost trace: seq<Event>)
      requires Run(me, s0, before) == Seen(At.Fetch(job))
      modifies this`job, this`checkpoint, this`contents, registry`rows
      ensures Run(me, s0, trace) == Seen(Arrival(fate, At.Save(job, head), Caught(job, ErrorOf(fate))))
    {
      hide Run;
      head := *;
      fate, trace := Await(s0, before, At.Fetch(job));
      Returned(s0, trace, Seen(At.Fetch(job)), fate, head);
      if Took(fate) { contents := Fetched(head); }
      trace := trace + [Returns(fate, head)];
    }

    method WriteCheckpoint(c: Checkpoint, ghost at: At, ghost s0: State, ghost before: seq<Event>)
      returns (fate: Fate, ghost trace: seq<Event>)
      requires Run(me, s0, before) == Seen(at)
      requires c == match at
        case Save(_, branch) => Imported(branch)
        case GiveUp(_, code) => Failed(code)
        case _ => Failed(Internal)
      requires at.Save? || at.GiveUp? || at.Refuse?
      modifies this`job, this`checkpoint, registry`rows
      ensures Run(me, s0, trace) == Seen(Arrival(fate, OnReply(me, Seen(at), ""), OnThrow(at, ErrorOf(fate))))
    {
      hide Run;
      fate, trace := Await(s0, before, at);
      Returned(s0, trace, Seen(at), fate, "");
      if Took(fate) { checkpoint := Some(c); }
      trace := trace + [Returns(fate, "")];
    }

    method ArmAlarm(job: Job, ghost s0: State, ghost before: seq<Event>)
      returns (fate: Fate, ghost trace: seq<Event>)
      requires Run(me, s0, before) == Seen(At.Arm(job))
      modifies this`job, this`checkpoint, registry`rows
      ensures Run(me, s0, trace) == Seen(Arrival(fate, Again(job), Idle(Rejected)))
    {
      hide Run;
      fate, trace := Await(s0, before, At.Arm(job));
      Returned(s0, trace, Seen(At.Arm(job)), fate, "");
      trace := trace + [Returns(fate, "")];
    }

    method FinishImport(job: Job, branch: string, ghost live: bool, ghost s0: State, ghost before: seq<Event>)
      returns (fate: Fate, published: bool, ghost trace: seq<Event>)
      requires Run(me, s0, before) == Seen(At.Finish(job, branch, live))
      modifies this`job, this`checkpoint, registry`rows
      ensures Run(me, s0, trace) == Seen(Arrival(fate,
        if published then At.Complete(job, branch, live) else At.Look(job, branch, live), Idle(Retrying)))
    {
      hide Run;
      published := false;
      fate, trace := Await(s0, before, At.Finish(job, branch, live));
      Returned(s0, trace, Seen(At.Finish(job, branch, live)), fate, "");
      if Took(fate) { published := registry.FinishImport(job.name, me, branch); }
      trace := trace + [Returns(fate, "")];
    }

    method GetRepository(job: Job, branch: string, ghost live: bool, ghost s0: State, ghost before: seq<Event>)
      returns (fate: Fate, current: Option<Row>, ghost trace: seq<Event>)
      requires Run(me, s0, before) == Seen(At.Look(job, branch, live))
      modifies this`job, this`checkpoint, registry`rows
      ensures Run(me, s0, trace) == Seen(Arrival(fate,
        if current.Some? && current.value.status == Ready && current.value.owner == me
        then At.Complete(job, branch, live) else At.Refuse(job, live), Idle(Retrying)))
    {
      hide Run;
      fate, trace := Await(s0, before, At.Look(job, branch, live));
      Returned(s0, trace, Seen(At.Look(job, branch, live)), fate, "");
      current := registry.GetRepository(job.name);
      trace := trace + [Returns(fate, "")];
    }

    method CompletePublishedJob(
        ghost job: Job, ghost branch: string, ghost live: bool, ghost s0: State, ghost before: seq<Event>)
      returns (fate: Fate, ghost trace: seq<Event>)
      requires Run(me, s0, before) == Seen(At.Complete(job, branch, live))
      modifies this`job, this`checkpoint, registry`rows
      ensures Run(me, s0, trace) ==
        Seen(Arrival(fate, Idle(Completed(branch)), AtAfter(Escaped(ErrorOf(fate)), job, live)))
    {
      hide Run;
      fate, trace := Await(s0, before, At.Complete(job, branch, live));
      Returned(s0, trace, Seen(At.Complete(job, branch, live)), fate, "");
      if Took(fate) { this.job, checkpoint := None, None; }
      trace := trace + [Returns(fate, "")];
    }

    method DeleteImportIfOwned(
        job: Job, ghost code: FailureCode, ghost live: bool, ghost s0: State, ghost before: seq<Event>)
      returns (fate: Fate, ghost trace: seq<Event>)
      requires Run(me, s0, before) == Seen(At.Delete(job, code, live))
      modifies this`job, this`checkpoint, registry`rows
      ensures Run(me, s0, trace) == Seen(Arrival(fate, At.Destroy(job, code, live), Idle(Retrying)))
    {
      hide Run;
      fate, trace := Await(s0, before, At.Delete(job, code, live));
      Returned(s0, trace, Seen(At.Delete(job, code, live)), fate, "");
      if Took(fate) { var _ := registry.DeleteImportIfOwned(job.name, me); }
      trace := trace + [Returns(fate, "")];
    }

    method DestroyStorage(
        ghost job: Job, ghost code: FailureCode, ghost live: bool, ghost s0: State, ghost before: seq<Event>)
      returns (fate: Fate, ghost trace: seq<Event>)
      requires Run(me, s0, before) == Seen(At.Destroy(job, code, live))
      modifies this`job, this`checkpoint, this`contents, registry`rows
      ensures Run(me, s0, trace) ==
        Seen(Arrival(fate, Idle(Failure(code)), AtAfter(Escaped(ErrorOf(fate)), job, live)))
    {
      hide Run;
      fate, trace := Await(s0, before, At.Destroy(job, code, live));
      Returned(s0, trace, Seen(At.Destroy(job, code, live)), fate, "");
      if Took(fate) { this.job, checkpoint, contents := None, None, Nothing; }
      trace := trace + [Returns(fate, "")];
    }

    // The operation itself.

    method Publish(job: Job, branch: string, ghost live: bool, ghost s0: State, ghost before: seq<Event>)
      returns (r: Result, ghost trace: seq<Event>)
      requires Run(me, s0, before) == Seen(At.Finish(job, branch, live))
      modifies this, registry`rows
      ensures Run(me, s0, trace) == Seen(AtAfter(r, job, live))
    {
      hide Run, Caught;
      var fate, published;
      fate, published, trace := FinishImport(job, branch, live, s0, before);
      if fate.Done? && !published {
        var current;
        fate, current, trace := GetRepository(job, branch, live, s0, trace);
        published := current.Some? && current.value.status == Ready && current.value.owner == me;
      }
      if !fate.Done? {
        return Ended(if fate.Thrown? then Retrying else Interrupted), trace;
      }
      if !published {
        fate, trace := WriteCheckpoint(Failed(Internal), At.Refuse(job, live), s0, trace);
        if !fate.Done? {
          return Raised(fate), trace;
        }
        r, trace := Cleanup(job, Internal, live, s0, trace);
        return;
      }
      fate, trace := CompletePublishedJob(job, branch, live, s0, trace);
      return if fate.Done? then Ended(Completed(branch)) else Raised(fate), trace;
    }

    method Cleanup(job: Job, code: FailureCode, ghost live: bool, ghost s0: State, ghost before: seq<Event>)
      returns (r: Result, ghost trace: seq<Event>)
      requires Run(me, s0, before) == Seen(At.Delete(job, code, live))
      modifies this, registry`rows
      ensures Run(me, s0, trace) == Seen(AtAfter(r, job, live))
    {
      hide Run, Caught;
      var fate;
      fate, trace := DeleteImportIfOwned(job, code, live, s0, before);
      if !fate.Done? {
        return Ended(if fate.Thrown? then Retrying else Interrupted), trace;
      }
      fate, trace := DestroyStorage(job, code, live, s0, trace);
      return if fate.Done? then Ended(Failure(code)) else Raised(fate), trace;
    }

    /** Take the job up where its durable state says it is, unless that cannot be read: publish what was
        fetched, clean up what failed, and otherwise fetch until it works, fails for good or was tried often
        enough. */
    method Execute(ghost last: Outcome, ghost s0: State, ghost before: seq<Event>)
      returns (r: Result, ghost trace: seq<Event>)
      requires Run(me, s0, before) == Seen(Idle(last))
      modifies this, registry`rows
      ensures Run(me, s0, trace) == Seen(Idle(if r.Ended? then r.outcome else Rejected))
    {
      hide Run, Caught, IsTransient;
      var fate: Fate := *;
      Extended(me, s0, before, Alarm(fate), Seen(Idle(last)));
      trace := before + [Alarm(fate)];
      if !fate.Done? {
        return Raised(fate), trace;
      }
      if job.None? {
        return Ended(Vanished), trace;
      }
      var current := job.value;
      var found;
      fate, found, trace := ReadCheckpoint(current, s0, trace);
      if !fate.Done? {
        return Raised(fate), trace;
      }
      match found
      case Some(Imported(branch)) =>
        r, trace := Publish(current, branch, false, s0, trace);
        return;
      case Some(Failed(code)) =>
        r, trace := Cleanup(current, code, false, s0, trace);
        return;
      case None =>
      while true
        invariant Run(me, s0, trace) == Seen(Again(current))
        decreases MAX_ATTEMPTS - current.attempts
      {
        current := current.(attempts := current.attempts + 1);
        fate, trace := WriteJob(current, s0, trace);
        if !fate.Done? {
          return Raised(fate), trace;
        }
        r, trace := Attempt(current, s0, trace);
        if r.Ended? {
          return;
        }
        CaughtUnfolds(current, r.error);
        if IsTransient(r.error) && current.attempts < MAX_ATTEMPTS {
          fate, trace := ArmAlarm(current, s0, trace);
          if !fate.Done? {
            return Raised(fate), trace;
          }
        } else {
          var code := FailureOf(r.error);
          fate, trace := WriteCheckpoint(Failed(code), At.GiveUp(current, code), s0, trace);
          if !fate.Done? {
            return Raised(fate), trace;
          }
          r, trace := Cleanup(current, code, false, s0, trace);
          return;
        }
      }
    }

    /** One try: what its handler would see is what escapes. */
    method Attempt(job: Job, ghost s0: State, ghost before: seq<Event>) returns (r: Result, ghost trace: seq<Event>)
      requires Run(me, s0, before) == Seen(At.Reset(job))
      modifies this, registry`rows
      ensures Run(me, s0, trace) == Seen(AtAfter(r, job, true))
    {
      hide Run, Caught;
      var fate, branch;
      fate, trace := ResetImport(job, s0, before);
      if !fate.Done? {
        return Raised(fate), trace;
      }
      fate, branch, trace := ImportBranch(job, s0, trace);
      if !fate.Done? {
        return Raised(fate), trace;
      }
      fate, trace := WriteCheckpoint(Imported(branch), At.Save(job, branch), s0, trace);
      if !fate.Done? {
        return Raised(fate), trace;
      }
      r, trace := Publish(job, branch, true, s0, trace);
    }

    /** Put the job in the place of any other and forget the checkpoint, wherever a run may be. */
    method PersistScheduledJob(name: Name, ghost at: At, ghost s0: State, ghost before: seq<Event>)
      returns (fate: Fate, ghost trace: seq<Event>)
      requires Run(me, s0, before) == Seen(at)
      modifies this`job, this`checkpoint
      ensures Run(me, s0, trace) == Seen(at)
      ensures trace == before + if Took(fate) then [Scheduled(name)] else []
      ensures Took(fate) ==> job == Some(Job(name, 0)) && checkpoint == None
      ensures !Took(fate) ==> job == old(job) && checkpoint == old(checkpoint)
    {
      hide Run;
      fate, trace := *, before;
      if Took(fate) {
        Extended(me, s0, before, Scheduled(name), Seen(at));
        trace := before + [Scheduled(name)];
        job, checkpoint := Some(Job(name, 0)), None;
      }
    }

    /** Whatever a run that is under way does until it ends, if only because the object restarts. */
    method WaitForTurn(at: At, ghost s0: State, ghost before: seq<Event>)
      returns (ghost last: Outcome, ghost trace: seq<Event>)
      requires Run(me, s0, before) == Seen(at)
      modifies this, registry`rows
      ensures Run(me, s0, trace) == Seen(Idle(last))
    {
      hide Run, Step;
      trace := before;
      var now := at;
      var left: nat := *;
      while !now.Idle?
        invariant Run(me, s0, trace) == Seen(now)
        decreases left, !now.Idle?
      {
        var e: Event := *;
        var s := State(registry.rows, job, checkpoint, contents, now);
        if left == 0 {
          e := Returns(Restarted(false), "");
          RestartEnds(me, s);
        } else {
          left := left - 1;
        }
        Extended(me, s0, trace, e, s);
        trace := trace + [e];
        s := Step(me, s, e);
        registry.rows, job, checkpoint, contents, now := s.rows, s.job, s.checkpoint, s.contents, s.at;
      }
      last := now.last;
    }

    /** Persist the job at once, wait for a run that is under way, and begin. Only what persisting throws
        leaves the call; a run that throws is taken up later. */
    method Schedule(name: Name, at: At, ghost s0: State, ghost before: seq<Event>)
      returns (r: Result, ghost persisting: Fate, ghost trace: seq<Event>)
      requires Run(me, s0, before) == Seen(at)
      modifies this, registry`rows
      ensures persisting.Done? ==>
        exists o :: Run(me, s0, trace) == Seen(Idle(o)) && r == Ended(if o.Rejected? then Retrying else o)
      ensures !persisting.Done? ==>
        && Run(me, s0, trace) == Seen(at) && r == Raised(persisting)
        && trace == before + if Took(persisting) then [Scheduled(name)] else []
    {
      hide Run;
      var fate;
      fate, trace := PersistScheduledJob(name, at, s0, before);
      persisting := fate;
      if !fate.Done? {
        return Raised(fate), persisting, trace;
      }
      ghost var last;
      last, trace := WaitForTurn(at, s0, trace);
      r, trace := Execute(last, s0, trace);
      if r.Escaped? || r.outcome.Rejected? {
        r := Ended(Retrying);
      }
    }
  }
}
