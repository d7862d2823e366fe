/** One token manager's session refresh: any number of callers, one lock per key that other
    keys may evict, and steps that interleave wherever the code awaits. */
module TokenManager {
  import opened Options

  const MAX_RETRIES := 1
  const MAX_SESSION_AGE := 86400
  const EXPIRY_BUFFER := 300

  /** The monotonic clock and the wall clock, in seconds. */
  datatype Clock = Clock(mono: int, wall: int)

  datatype Expiry = Never | Unparseable | Expires(at: int)

  /** A stored session; its token is never empty. */
  datatype Session = Session(token: string, created: int, expires: Expiry)

  predicate IsValid(s: Session, now: Clock) {
    && (s.created == 0 || now.mono - s.created <= MAX_SESSION_AGE)
    && match s.expires
       case Never => true
       case Unparseable => false
       case Expires(at) => now.wall <= at - EXPIRY_BUFFER
  }

  type Task = nat
  type LockId = nat

  datatype Failure = InProgress | RefreshFailed | Cancelled

  /** Where a call of get_session is suspended, or how it ended.  `auths` counts the
      authentications this refresh has asked the broker for. */
  datatype Pc =
    | Started
    | WantsLock
    | Queued(lock: LockId)
    | Refreshing(lock: LockId, auths: nat)
    | Saving(lock: LockId, auths: nat)
    | Returned(session: Option<Session>)
    | Failed(failure: Failure)

  /** `refreshes` and `evicted` are history: how many refreshes have begun, and whether this
      key's lock was ever evicted.  A lock is held exactly by the tasks inside a refresh. */
  datatype Manager = Manager(
    session: Option<Session>, inProgress: bool, table: Option<LockId>, nextLock: LockId,
    tasks: map<Task, Pc>, now: Clock, refreshes: nat, evicted: bool)
  {
    predicate SessionValid() {
      session.Some? && IsValid(session.value, now)
    }

    predicate InRefresh(t: Task) {
      t in tasks && (tasks[t].Refreshing? || tasks[t].Saving?)
    }

    predicate Holds(t: Task, lock: LockId) {
      InRefresh(t) && tasks[t].lock == lock
    }

    function Goto(t: Task, pc: Pc): Manager {
      this.(tasks := tasks[t := pc])
    }

    /** Leaving the refresh, one way or another: the flag is cleared and the lock released. */
    function Leave(t: Task, pc: Pc): Manager {
      this.(inProgress := false, tasks := tasks[t := pc])
    }
  }

  function NewManager(now: Clock): Manager {
    Manager(None, false, None, 0, map[], now, 0, false)
  }

  /** What the broker's answer to one authentication amounts to. */
  datatype Answer = Granted(token: string, expires: Expiry) | Retryable | Refused

  datatype Step =
    | Call(t: Task)
    | GetLock(t: Task)
    | Acquire(t: Task)
    | LoadFails(t: Task)
    | Authenticate(t: Task, answer: Answer)
    | Saved(t: Task)
    | SaveFails(t: Task)
    | Cancel(t: Task)
    | Evict
    | Invalidate
    | Wait(later: Clock)

  ghost predicate Enabled(m: Manager, step: Step) {
    match step
    case Call(t) => t !in m.tasks
    case GetLock(t) => t in m.tasks && m.tasks[t] == WantsLock
    case Acquire(t) => t in m.tasks && m.tasks[t].Queued? && forall u :: !m.Holds(u, m.tasks[t].lock)
    case LoadFails(t) => t in m.tasks && m.tasks[t].Refreshing? && m.tasks[t].auths == 0
    case Authenticate(t, _) => t in m.tasks && m.tasks[t].Refreshing?
    case Saved(t) => t in m.tasks && m.tasks[t].Saving?
    case SaveFails(t) => t in m.tasks && m.tasks[t].Saving?
    case Cancel(t) => t in m.tasks && !m.tasks[t].Returned? && !m.tasks[t].Failed?
    case Evict => m.table.Some?
    case Invalidate => true
    case Wait(later) => m.now.mono <= later.mono
  }

  predicate IsSaving(m: Manager, t: Task) {
    t in m.tasks && m.tasks[t].Saving?
  }

  /** After a failed attempt: another one, or no more. */
  function Retry(m: Manager, t: Task, lock: LockId, auths: nat): Manager {
    if auths <= MAX_RETRIES then m.Goto(t, Refreshing(lock, auths)) else m.Leave(t, Failed(RefreshFailed))
  }

  /** An attempt fails as well when saving the granted token raises; the session stays stored. */
  function Next(m: Manager, step: Step): Manager {
    match step
    case Call(t) => m.Goto(t, if m.SessionValid() then Returned(m.session) else WantsLock)
    case GetLock(t) =>
      if m.table.Some? then m.Goto(t, Queued(m.table.value))
      else m.(table := Some(m.nextLock), nextLock := m.nextLock + 1).Goto(t, Queued(m.nextLock))
    case Acquire(t) =>
      if t !in m.tasks || !m.tasks[t].Queued? then m
      else if m.SessionValid() then m.Goto(t, Returned(m.session))
      else if m.inProgress then m.Goto(t, Failed(InProgress))
      else m.(inProgress := true, refreshes := m.refreshes + 1).Goto(t, Refreshing(m.tasks[t].lock, 0))
    case LoadFails(t) => m.Leave(t, Failed(RefreshFailed))
    case Authenticate(t, answer) =>
      if t !in m.tasks || !m.tasks[t].Refreshing? then m
      else
        var lock, auths := m.tasks[t].lock, m.tasks[t].auths + 1;
        (match answer
         case Granted(token, expires) =>
           m.(session := Some(Session(token, m.now.mono, expires))).Goto(t, Saving(lock, auths))
         case Retryable => Retry(m, t, lock, auths)
         case Refused => m.Leave(t, Failed(RefreshFailed)))
    case Saved(t) => m.Leave(t, Returned(m.session))
    case SaveFails(t) => if IsSaving(m, t) then Retry(m, t, m.tasks[t].lock, m.tasks[t].auths) else m
    case Cancel(t) => if m.InRefresh(t) then m.Leave(t, Failed(Cancelled)) else m.Goto(t, Failed(Cancelled))
    case Evict => m.(table := None, evicted := true)
    case Invalidate => m.(session := None)
    case Wait(later) => m.(now := later)
  }

  ghost predicate IsRun(m: Manager, steps: seq<Step>) {
    steps != [] ==> IsRun(m, steps[..|steps|-1]) && Enabled(After(m, steps[..|steps|-1]), steps[|steps|-1])
  }

  function After(m: Manager, steps: seq<Step>): Manager {
    if steps == [] then m else Next(After(m, steps[..|steps|-1]), steps[|steps|-1])
  }

  // ----- single flight

  /** Never two refreshes at once, and the flag says whether there is one. */
  ghost predicate SingleFlight(m: Manager) {
    && (forall t, u :: m.InRefresh(t) && m.InRefresh(u) ==> t == u)
    && (m.inProgress <==> exists t :: m.InRefresh(t))
  }

  ghost predicate AuthsBounded(m: Manager) {
    forall t :: t in m.tasks ==>
      && (m.tasks[t].Refreshing? ==> m.tasks[t].auths <= MAX_RETRIES)
      && (m.tasks[t].Saving? ==> 1 <= m.tasks[t].auths <= MAX_RETRIES + 1)
  }

  /** While the lock has not been evicted everyone queues on, or holds, the one in the table. */
  ghost predicate OneLock(m: Manager) {
    !m.evicted ==>
      && (forall t :: t in m.tasks && m.tasks[t].Queued? ==> m.table == Some(m.tasks[t].lock))
      && (forall t :: m.InRefresh(t) ==> m.table == Some(m.tasks[t].lock))
      && (forall t :: t in m.tasks ==> m.tasks[t] != Failed(InProgress))
  }

  ghost predicate Safe(m: Manager) {
    SingleFlight(m) && AuthsBounded(m) && OneLock(m)
  }

  lemma GotoKeepsSingleFlight(m: Manager, t: Task, pc: Pc)
    requires SingleFlight(m) && !pc.Refreshing? && !pc.Saving? && !m.InRefresh(t)
    ensures SingleFlight(m.Goto(t, pc))
  {
    var n := m.Goto(t, pc);
    assert forall u :: n.InRefresh(u) <==> m.InRefresh(u);
  }

  lemma MoveKeepsSingleFlight(m: Manager, t: Task, pc: Pc)
    requires SingleFlight(m) && m.InRefresh(t) && (pc.Refreshing? || pc.Saving?)
    ensures SingleFlight(m.Goto(t, pc))
  {
    var n := m.Goto(t, pc);
    assert forall u :: n.InRefresh(u) <==> m.InRefresh(u);
  }

  lemma LeaveKeepsSingleFlight(m: Manager, t: Task, pc: Pc)
    requires SingleFlight(m) && m.InRefresh(t) && !pc.Refreshing? && !pc.Saving?
    ensures SingleFlight(m.Leave(t, pc))
  {
    var n := m.Leave(t, pc);
    assert forall u :: n.InRefresh(u) ==> u != t && m.InRefresh(u);
  }

  lemma RetryKeepsSingleFlight(m: Manager, t: Task, lock: LockId, auths: nat)
    requires SingleFlight(m) && m.InRefresh(t)
    ensures SingleFlight(Retry(m, t, lock, auths))
  {
    if auths <= MAX_RETRIES {
      MoveKeepsSingleFlight(m, t, Refreshing(lock, auths));
    } else {
      LeaveKeepsSingleFlight(m, t, Failed(RefreshFailed));
    }
  }

  lemma NextKeepsSingleFlight(m: Manager, step: Step)
    requires SingleFlight(m) && Enabled(m, step)
    ensures SingleFlight(Next(m, step))
  {
    match step
    case Call(t) => GotoKeepsSingleFlight(m, t, if m.SessionValid() then Returned(m.session) else WantsLock);
    case GetLock(t) =>
      var n := if m.table.Some? then m else m.(table := Some(m.nextLock), nextLock := m.nextLock + 1);
      assert forall u :: n.InRefresh(u) <==> m.InRefresh(u);
      GotoKeepsSingleFlight(n, t, Queued(n.table.value));
    case Acquire(t) => AcquireKeepsSingleFlight(m, t);
    case LoadFails(t) => LeaveKeepsSingleFlight(m, t, Failed(RefreshFailed));
    case Authenticate(t, answer) => AuthenticateKeepsSingleFlight(m, t, answer);
    case Saved(t) => LeaveKeepsSingleFlight(m, t, Returned(m.session));
    case SaveFails(t) => RetryKeepsSingleFlight(m, t, m.tasks[t].lock, m.tasks[t].auths);
    case Cancel(t) =>
      if m.InRefresh(t) {
        LeaveKeepsSingleFlight(m, t, Failed(Cancelled));
      } else {
        GotoKeepsSingleFlight(m, t, Failed(Cancelled));
      }
    case _ => assert forall u :: Next(m, step).InRefresh(u) <==> m.InRefresh(u);
  }

  /** The flag is tested and set with no await between, so a second refresh cannot slip in even
      on another lock. */
  lemma AcquireKeepsSingleFlight(m: Manager, t: Task)
    requires SingleFlight(m) && Enabled(m, Acquire(t))
    ensures SingleFlight(Next(m, Acquire(t)))
  {
    if m.SessionValid() {
      GotoKeepsSingleFlight(m, t, Returned(m.session));
    } else if m.inProgress {
      GotoKeepsSingleFlight(m, t, Failed(InProgress));
    } else {
      var n := Next(m, Acquire(t));
      assert n.InRefresh(t) && forall u :: u != t ==> (n.InRefresh(u) <==> m.InRefresh(u));
    }
  }

  lemma AuthenticateKeepsSingleFlight(m: Manager, t: Task, answer: Answer)
    requires SingleFlight(m) && Enabled(m, Authenticate(t, answer))
    ensures SingleFlight(Next(m, Authenticate(t, answer)))
  {
    var lock, auths := m.tasks[t].lock, m.tasks[t].auths + 1;
    match answer
    case Granted(token, expires) =>
      var n := m.(session := Some(Session(token, m.now.mono, expires)));
      assert forall u :: n.InRefresh(u) <==> m.InRefresh(u);
      MoveKeepsSingleFlight(n, t, Saving(lock, auths));
    case Retryable => RetryKeepsSingleFlight(m, t, lock, auths);
    case Refused => LeaveKeepsSingleFlight(m, t, Failed(RefreshFailed));
  }

  lemma NextKeepsAuthsBounded(m: Manager, step: Step)
    requires AuthsBounded(m) && Enabled(m, step)
    ensures AuthsBounded(Next(m, step))
  {
  }

  /** On the one lock, whoever finds it free finds no refresh in progress. */
  lemma NextKeepsOneLock(m: Manager, step: Step)
    requires SingleFlight(m) && OneLock(m) && Enabled(m, step)
    ensures OneLock(Next(m, step))
  {
    if step.Acquire? && !m.evicted && m.inProgress {
      var u :| m.InRefresh(u);
      assert m.Holds(u, m.tasks[step.t].lock);
      assert false;
    }
  }

  /** Over every interleaving of any callers: at most one refresh runs at any time, whatever is
      evicted; each asks the broker at most twice; and while the lock has not been evicted no
      caller is told that a refresh is already in progress. */
  lemma {:induction false} EveryRunIsSafe(now: Clock, steps: seq<Step>)
    requires IsRun(NewManager(now), steps)
    ensures Safe(After(NewManager(now), steps))
  {
    if steps != [] {
      var m, step := After(NewManager(now), steps[..|steps|-1]), steps[|steps|-1];
      EveryRunIsSafe(now, steps[..|steps|-1]);
      NextKeepsSingleFlight(m, step);
      NextKeepsAuthsBounded(m, step);
      NextKeepsOneLock(m, step);
    }
  }

  // ----- what callers are served

  /** No expiry that cannot be read; at least five minutes left if there is one; and at most a day
      old if it is known when the session was made. */
  predicate IsFresh(s: Session, now: Clock) {
    && s.expires != Unparseable
    && (s.expires.Expires? ==> s.expires.at - now.wall >= 300)
    && (s.created != 0 ==> now.mono - s.created <= 86400)
  }

  ghost predicate HasFresh(m: Manager) {
    m.session.Some? && IsFresh(m.session.value, m.now)
  }

  /** A new call is served the stored session exactly if that is fresh, and otherwise waits; a
      caller that gets the lock is served it exactly if that is fresh, and otherwise refreshes or,
      during another refresh, is refused.  Neither touches the session. */
  lemma FreshIsServed(m: Manager, t: Task)
    ensures var n := Next(m, Call(t));
      n.tasks[t] == (if HasFresh(m) then Returned(m.session) else WantsLock)
      && n.session == m.session && n.refreshes == m.refreshes
    ensures t in m.tasks && m.tasks[t].Queued? ==>
      var n := Next(m, Acquire(t));
      && n.session == m.session
      && (if HasFresh(m) then n.tasks[t] == Returned(m.session) && n.refreshes == m.refreshes
          else if m.inProgress then n.tasks[t] == Failed(InProgress) && n.refreshes == m.refreshes
          else n.tasks[t] == Refreshing(m.tasks[t].lock, 0) && n.refreshes == m.refreshes + 1)
  {
    assert m.session.Some? ==> (IsValid(m.session.value, m.now) <==> IsFresh(m.session.value, m.now));
  }

  /** What was returned to a task is what the stored session was, and fresh, when a call or the
      lock was answered; or it is what the task was granted itself. */
  ghost predicate WasServed(now: Clock, steps: seq<Step>, t: Task, s: Option<Session>) {
    && steps != []
    && var init, last := steps[..|steps|-1], steps[|steps|-1];
       var m := After(NewManager(now), init);
       || (last in {Call(t), Acquire(t)} && HasFresh(m) && s == m.session)
       || (last == Saved(t) && s == LastGrant(NewManager(now), init, t))
       || WasServed(now, init, t, s)
  }

  /** In every run whatever a caller was returned was fresh at the time, or freshly granted to it. */
  lemma {:induction false} ReturnedWasServed(now: Clock, steps: seq<Step>, t: Task)
    requires IsRun(NewManager(now), steps)
    requires t in After(NewManager(now), steps).tasks && After(NewManager(now), steps).tasks[t].Returned?
    ensures WasServed(now, steps, t, After(NewManager(now), steps).tasks[t].session)
  {
    if steps != [] {
      var init, last := steps[..|steps|-1], steps[|steps|-1];
      var m := After(NewManager(now), init);
      FreshIsServed(m, t);
      if last == Saved(t) {
        RefresherReturnsItsLastGrant(now, init, t);
      } else if last !in {Call(t), Acquire(t)} {
        OnlyServingReturns(m, last, t);
        ReturnedWasServed(now, init, t);
      }
    }
  }

  lemma OnlyServingReturns(m: Manager, step: Step, t: Task)
    requires Enabled(m, step) && step !in {Call(t), Acquire(t), Saved(t)}
    requires t in Next(m, step).tasks && Next(m, step).tasks[t].Returned?
    ensures t in m.tasks && m.tasks[t] == Next(m, step).tasks[t]
  {
  }

  /** An attempt that may be repeated is repeated once, with the flag and the lock still held; the
      second time, and after a refusal at once, the refresh ends and both are given up. */
  lemma AttemptsEnd(m: Manager, t: Task)
    requires AuthsBounded(m) && t in m.tasks && m.tasks[t].Refreshing?
    ensures var lock, auths := m.tasks[t].lock, m.tasks[t].auths;
            var n := Next(m, Authenticate(t, Retryable));
      if auths == 0 then n == m.(tasks := m.tasks[t := Refreshing(lock, 1)])
      else n == m.(tasks := m.tasks[t := Failed(RefreshFailed)], inProgress := false)
    ensures Next(m, Authenticate(t, Refused)) == m.(tasks := m.tasks[t := Failed(RefreshFailed)], inProgress := false)
  {
  }

  // ----- one refresh serves everyone

  /** The session is stored and nobody is about to replace it; its refresher may still be saving. */
  ghost predicate Served(m: Manager, s: Session) {
    m.session == Some(s) && forall t :: t in m.tasks ==> !m.tasks[t].Refreshing?
  }

  /** Nobody invalidates the session, no save fails, and it stays valid at every moment of the run. */
  ghost predicate KeepsValid(m: Manager, s: Session, steps: seq<Step>) {
    && IsFresh(s, m.now)
    && (steps != [] ==>
          && KeepsValid(m, s, steps[..|steps|-1])
          && steps[|steps|-1] != Invalidate && !steps[|steps|-1].SaveFails?
          && (steps[|steps|-1].Wait? ==> IsFresh(s, steps[|steps|-1].later)))
  }

  lemma {:induction false} StaysValid(m: Manager, s: Session, steps: seq<Step>)
    requires KeepsValid(m, s, steps) && Served(m, s) && IsRun(m, steps)
    ensures Served(After(m, steps), s) && IsFresh(s, After(m, steps).now)
    ensures After(m, steps).refreshes == m.refreshes
  {
    if steps != [] {
      StaysValid(m, s, steps[..|steps|-1]);
    }
  }

  /** Once a refresh has stored a valid session, then for as long as it stays valid no second
      refresh begins, even after eviction, and every caller that gets the lock, or calls
      afresh, returns that very session. */
  lemma OneRefreshServesAll(m: Manager, s: Session, steps: seq<Step>, t: Task)
    requires Served(m, s) && KeepsValid(m, s, steps) && IsRun(m, steps)
    ensures var n := After(m, steps);
      && n.refreshes == m.refreshes
      && (Enabled(n, Call(t)) ==> Next(n, Call(t)).tasks[t] == Returned(Some(s)))
      && (Enabled(n, Acquire(t)) ==> Next(n, Acquire(t)).tasks[t] == Returned(Some(s)))
      && (Enabled(n, Saved(t)) ==> Next(n, Saved(t)).tasks[t] == Returned(Some(s)))
  {
    StaysValid(m, s, steps);
  }

  /** A granted authentication by the only refresher puts the manager in that state. */
  lemma GrantServes(m: Manager, t: Task, token: string, expires: Expiry)
    requires SingleFlight(m) && Enabled(m, Authenticate(t, Granted(token, expires)))
    ensures Served(Next(m, Authenticate(t, Granted(token, expires))), Session(token, m.now.mono, expires))
  {
    var n := Next(m, Authenticate(t, Granted(token, expires)));
    forall u | u in n.tasks ensures !n.tasks[u].Refreshing? {
      if u != t && n.tasks[u].Refreshing? {
        assert m.InRefresh(u) && m.InRefresh(t);
        assert false;
      }
    }
  }

  // ----- where the promise ends

  lemma {:induction false} RunKeepsSingleFlight(m: Manager, steps: seq<Step>)
    requires SingleFlight(m) && IsRun(m, steps)
    ensures SingleFlight(After(m, steps))
  {
    if steps != [] {
      RunKeepsSingleFlight(m, steps[..|steps|-1]);
      NextKeepsSingleFlight(After(m, steps[..|steps|-1]), steps[|steps|-1]);
    }
  }

  /** While one task saves nobody else is in a refresh, so only an invalidation can touch the session. */
  lemma SaverGuardsTheSession(m: Manager, t: Task, step: Step)
    requires SingleFlight(m) && IsSaving(m, t) && Enabled(m, step)
    ensures Next(m, step).session == if step == Invalidate then None else m.session
    ensures !(step.Authenticate? && step.t == t)
  {
    assert m.InRefresh(t);
    match step
    case Authenticate(u, answer) => assert m.InRefresh(u);
    case _ =>
  }

  predicate Grants(step: Step, t: Task) {
    step.Authenticate? && step.t == t && step.answer.Granted?
  }

  /** The only way into a save is a grant. */
  lemma SavingWasGranted(m: Manager, t: Task, step: Step)
    requires Enabled(m, step) && IsSaving(Next(m, step), t)
    ensures IsSaving(m, t) || Grants(step, t)
  {
  }

  /** The session a task was last granted, unless the session has been invalidated since. */
  function LastGrant(m: Manager, steps: seq<Step>, t: Task): Option<Session> {
    if steps == [] then None
    else
      var init, last := steps[..|steps|-1], steps[|steps|-1];
      if Grants(last, t) then Some(Session(last.answer.token, After(m, init).now.mono, last.answer.expires))
      else if last == Invalidate then None
      else LastGrant(m, init, t)
  }

  lemma {:induction false} SaverHoldsItsLastGrant(now: Clock, steps: seq<Step>, t: Task)
    requires IsRun(NewManager(now), steps) && IsSaving(After(NewManager(now), steps), t)
    ensures After(NewManager(now), steps).session == LastGrant(NewManager(now), steps, t)
  {
    if steps != [] {
      var init, last := steps[..|steps|-1], steps[|steps|-1];
      var m := After(NewManager(now), init);
      SavingWasGranted(m, t, last);
      if !Grants(last, t) {
        SaverHoldsItsLastGrant(now, init, t);
        RunKeepsSingleFlight(NewManager(now), init);
        SaverGuardsTheSession(m, t, last);
      }
    }
  }

  /** In every run a refresher returns the session it was last granted exactly when nobody has
      invalidated the session since, and nothing otherwise, whatever other callers, failed saves,
      evictions and the clock do. */
  lemma RefresherReturnsItsLastGrant(now: Clock, steps: seq<Step>, t: Task)
    requires IsRun(NewManager(now), steps) && Enabled(After(NewManager(now), steps), Saved(t))
    ensures Next(After(NewManager(now), steps), Saved(t)).tasks[t] == Returned(LastGrant(NewManager(now), steps, t))
  {
    SaverHoldsItsLastGrant(now, steps, t);
  }

  /** A save that fails makes the refresher ask again although a valid session is stored, so that
      a caller served meanwhile holds another session than the one stored at the end. */
  lemma FailedSaveReplacesTheSession() returns (steps: seq<Step>)
    ensures var m := After(NewManager(Clock(0, 0)), steps);
      && IsRun(NewManager(Clock(0, 0)), steps) && m.tasks.Keys == {0, 1} && Invalidate !in steps && m.refreshes == 1
      && m.tasks[0] == Returned(Some(Session("b", 0, Never))) && m.tasks[1] == Returned(Some(Session("a", 0, Never)))
  {
    var m := NewManager(Clock(0, 0));
    steps := FirstGrant();
    steps := RunOn(m, steps, Call(1));
    steps := RunOn(m, steps, SaveFails(0));
    steps := RunOn(m, steps, Authenticate(0, Granted("b", Never)));
    steps := RunOn(m, steps, Saved(0));
  }

  lemma FirstGrant() returns (steps: seq<Step>)
    ensures IsRun(NewManager(Clock(0, 0)), steps) && Invalidate !in steps
    ensures After(NewManager(Clock(0, 0)), steps)
            == Manager(Some(Session("a", 0, Never)), true, Some(0), 1, map[0 := Saving(0, 1)], Clock(0, 0), 1, false)
  {
    var m := NewManager(Clock(0, 0));
    steps := RunOn(m, [], Call(0));
    steps := RunOn(m, steps, GetLock(0));
    steps := RunOn(m, steps, Acquire(0));
    steps := RunOn(m, steps, Authenticate(0, Granted("a", Never)));
  }

  // ----- who is refused

  /** Everyone who waits for a lock, or holds one, has the one in the table: so whenever nobody
      waits or refreshes, and always as long as no lock is evicted. */
  ghost predicate Together(m: Manager) {
    && (forall t :: t in m.tasks && m.tasks[t].Queued? ==> m.table == Some(m.tasks[t].lock))
    && (forall t :: m.InRefresh(t) ==> m.table == Some(m.tasks[t].lock))
  }

  predicate IsRefused(m: Manager, t: Task) {
    t in m.tasks && m.tasks[t] == Failed(InProgress)
  }

  ghost predicate Refuses(m: Manager, steps: seq<Step>) {
    exists t :: IsRefused(After(m, steps), t) && !IsRefused(m, t)
  }

  lemma NextKeepsTogether(m: Manager, step: Step)
    requires SingleFlight(m) && Together(m) && Enabled(m, step) && step != Evict
    ensures Together(Next(m, step))
    ensures forall t :: IsRefused(Next(m, step), t) ==> IsRefused(m, t)
  {
    if step.Acquire? && m.inProgress {
      var u :| m.InRefresh(u);
      assert m.Holds(u, m.tasks[step.t].lock);
      assert false;
    }
  }

  lemma {:induction false} NobodyIsRefused(m: Manager, steps: seq<Step>)
    requires SingleFlight(m) && Together(m) && IsRun(m, steps) && Evict !in steps
    ensures Together(After(m, steps)) && SingleFlight(After(m, steps)) && !Refuses(m, steps)
  {
    if steps != [] {
      var init, last := steps[..|steps|-1], steps[|steps|-1];
      assert steps == init + [last];
      NobodyIsRefused(m, init);
      NextKeepsTogether(After(m, init), last);
      NextKeepsSingleFlight(After(m, init), last);
    }
  }

  /** From some state in which all stand together, a run can refuse somebody. */
  ghost predicate CanRefuse(evictions: bool) {
    exists m: Manager, steps: seq<Step> ::
      Refuses(m, steps) && SingleFlight(m) && Together(m) && IsRun(m, steps) && (Evict in steps ==> evictions)
  }

  /** A caller is told that a refresh is already in progress exactly where locks are evicted: not
      because one ever was, but because one is, since all last stood together. */
  lemma RefusalNeedsEviction(evictions: bool)
    ensures CanRefuse(evictions) <==> evictions
  {
    if evictions {
      var m := NewManager(Clock(0, 0));
      var steps := EvictionCanRefuseACaller();
      assert IsRefused(After(m, steps), 1) && !IsRefused(m, 1);
      assert Refuses(m, steps);
    } else {
      forall m: Manager, steps: seq<Step> | SingleFlight(m) && Together(m) && IsRun(m, steps) && Evict !in steps
        ensures !Refuses(m, steps)
      {
        NobodyIsRefused(m, steps);
      }
    }
  }

  /** After an eviction a second caller, on a new lock, is told a refresh is in progress. */
  lemma EvictionCanRefuseACaller() returns (steps: seq<Step>)
    ensures var m := After(NewManager(Clock(0, 0)), steps);
      IsRun(NewManager(Clock(0, 0)), steps) && m.tasks.Keys == {0, 1}
      && m.tasks[1] == Failed(InProgress) && m.InRefresh(0)
  {
    var m0 := NewManager(Clock(0, 0));
    steps := [];
    steps := RunOn(m0, steps, Call(0));
    steps := RunOn(m0, steps, GetLock(0));
    steps := RunOn(m0, steps, Acquire(0));
    steps := RunOn(m0, steps, Evict);
    steps := RunOn(m0, steps, Call(1));
    steps := RunOn(m0, steps, GetLock(1));
    steps := RunOn(m0, steps, Acquire(1));
  }

  lemma RunOn(m: Manager, steps: seq<Step>, step: Step) returns (more: seq<Step>)
    requires IsRun(m, steps) && Enabled(After(m, steps), step)
    ensures more == steps + [step] && IsRun(m, more) && After(m, more) == Next(After(m, steps), step)
  {
    more := steps + [step];
    assert more[..|more|-1] == steps;
  }
}
