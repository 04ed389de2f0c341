/** The handoff of one player between zones, as a state machine over every call of the protocol and
    every way a call can go: refused, lost, late, or carried out with the answer lost. */
module Handoff {
  import opened Bytes
  import opened HandoffManager
  import opened ZoneMesh

  /** What a zone's crossing task is waiting for; the target once it is known. */
  datatype Task =
    | Idle
    | AwaitPrepare(id: nat)
    | AwaitConfirm(id: nat, target: Zone)
    | AwaitActivate(id: nat, target: Zone)
    | AwaitRollback(id: nat)
    | Releasing(target: Zone)

  datatype Local = Local(slot: Slot, task: Task, shade: Option<Ghost>)

  datatype Request = Prepare(origin: Zone, snapshot: Snapshot) | Confirm(to: Zone) | Activate(target: Zone)

  datatype Reply = Ready(target: Zone) | Accepted | Refused

  /** What has happened to the player: its route was set, a zone woke it, a zone let it go. */
  datatype Event = Routed(zone: Zone) | Woke(zone: Zone) | Released(zone: Zone)

  datatype State = State(
    now: nat,
    cooldown: nat,
    registered: set<Zone>,
    route: Zone,
    live: set<Zone>,
    zones: map<Zone, Local>,
    requests: map<nat, Request>,
    replies: map<nat, Reply>,
    next: nat,
    done: set<nat>,
    log: seq<Event>)

  datatype Step =
    | Wait(ms: nat)
    | Register(z: Zone)
    | Evict(z: Zone)
    | Prune(z: Zone)
    | Expire(z: Zone)
    | Start(z: Zone, snapshot: Snapshot)
    | Cancel(z: Zone)
    | Cross(z: Zone)
    | HandlePrepare(id: nat, target: Zone)
    | HandleConfirm(id: nat)
    | HandleActivate(id: nat)
    | Refuse(id: nat)
    | LoseRequest(id: nat)
    | LoseReply(id: nat)
    | Answer(z: Zone)
    | Fail(z: Zone)
    | Release(z: Zone)

  predicate Waiting(t: Task) {
    !t.Idle? && !t.Releasing?
  }

  function Put(s: State, z: Zone, l: Local): State {
    s.(zones := s.zones[z := l])
  }

  /** Zone `z` sends a call and waits for it. */
  function Call(s: State, z: Zone, l: Local, r: Request): State {
    Put(s, z, l).(requests := s.requests[s.next := r], next := s.next + 1)
  }

  /** The call `id` has been dealt with and is answered. */
  function Settle(s: State, id: nat, r: Reply): State {
    s.(requests := s.requests - {id}, replies := s.replies[id := r])
  }

  /** Zone `z`, waiting for a call, goes on with answer `r`; a failed or late call counts as refused. */
  function Proceed(s: State, z: Zone, r: Reply): State
    requires z in s.zones && Waiting(s.zones[z].task)
  {
    var l := s.zones[z];
    match l.task
    case AwaitPrepare(_) =>
      Put(s, z, l.(slot := Answered(l.slot, if r.Ready? then Some(r.target) else None, s.now), task := Idle))
    case AwaitConfirm(_, target) =>
      var slot := Confirmed(l.slot, r == Accepted, s.now);
      if r == Accepted then Call(s, z, l.(slot := slot, task := AwaitActivate(s.next, target)), Activate(target))
      else Put(s, z, l.(slot := slot, task := Idle))
    case AwaitActivate(_, target) =>
      if r == Accepted then Put(s, z, l.(task := Releasing(target)))
      else Call(s, z, l.(task := AwaitRollback(s.next)), Confirm(z))
    case AwaitRollback(_) => Put(s, z, l.(task := Idle))
  }

  predicate Enabled(s: State, step: Step) {
    match step
    case Wait(_) => true
    case Register(z) => z in s.zones
    case Evict(_) => true
    case Prune(z) => z in s.zones
    case Expire(z) => z in s.zones
    case Start(z, _) =>
      z in s.zones && z in s.live && s.zones[z].task.Idle? && Admits(s.zones[z].slot, s.now, s.cooldown)
    case Cancel(z) => z in s.zones && s.zones[z].task.Idle? && Destination(s.zones[z].slot).Some?
    case Cross(z) => z in s.zones && s.zones[z].task.Idle? && Destination(s.zones[z].slot).Some?
    case HandlePrepare(id, target) =>
      && id in s.requests && s.requests[id].Prepare? && target in s.zones && target in s.registered
      && target != s.requests[id].origin
    case HandleConfirm(id) => id in s.requests && s.requests[id].Confirm?
    case HandleActivate(id) => id in s.requests && s.requests[id].Activate? && s.requests[id].target in s.zones
    case Refuse(id) => id in s.requests
    case LoseRequest(id) => id in s.requests
    case LoseReply(id) => id in s.replies
    case Answer(z) => z in s.zones && Waiting(s.zones[z].task) && s.zones[z].task.id in s.replies
    case Fail(z) => z in s.zones && Waiting(s.zones[z].task)
    case Release(z) => z in s.zones && s.zones[z].task.Releasing?
  }

  function Next(s: State, step: Step): State
    requires Enabled(s, step)
  {
    match step
    case Wait(ms) => s.(now := s.now + ms)
    case Register(z) => s.(registered := s.registered + {z})
    case Evict(z) => s.(registered := s.registered - {z})
    case Prune(z) => Put(s, z, s.zones[z].(slot := Pruned(s.zones[z].slot, s.now, s.cooldown)))
    case Expire(z) => Put(s, z, s.zones[z].(shade := Expired(s.zones[z].shade, s.now)))
    case Start(z, snapshot) =>
      var l := s.zones[z];
      Call(s, z, l.(slot := Requested(l.slot, s.now), task := AwaitPrepare(s.next)), Prepare(z, snapshot))
    case Cancel(z) => Put(s, z, s.zones[z].(slot := Cancelled(s.zones[z].slot, s.now)))
    case Cross(z) =>
      var l := s.zones[z];
      var target := Destination(l.slot).value;
      Call(s, z, l.(slot := Confirming(l.slot), task := AwaitConfirm(s.next, target)), Confirm(target))
    case HandlePrepare(id, target) =>
      var snapshot := s.requests[id].snapshot;
      Put(Settle(s, id, Ready(target)), target,
          s.zones[target].(shade := Some(Pending(snapshot, s.now)))).(done := s.done + {id})
    case HandleConfirm(id) =>
      var to := s.requests[id].to;
      if to !in s.registered then Settle(s, id, Refused)
      else Settle(s, id, Accepted).(route := to, done := s.done + {id}, log := s.log + [Routed(to)])
    case HandleActivate(id) =>
      var target := s.requests[id].target;
      var woken := Woken(s.zones[target].shade);
      var after := Put(Settle(s, id, if woken.1.Some? then Accepted else Refused), target,
                       s.zones[target].(shade := woken.0));
      if woken.1.None? then after
      else after.(live := s.live + {target}, done := s.done + {id}, log := s.log + [Woke(target)])
    case Refuse(id) => Settle(s, id, Refused)
    case LoseRequest(id) => s.(requests := s.requests - {id})
    case LoseReply(id) => s.(replies := s.replies - {id})
    case Answer(z) => Proceed(s, z, s.replies[s.zones[z].task.id])
    case Fail(z) => Proceed(s, z, Refused)
    case Release(z) =>
      Put(s, z, s.zones[z].(task := Idle)).(live := s.live - {z}, log := s.log + [Released(z)])
  }

  predicate CanRun(s: State, steps: seq<Step>)
    decreases |steps|
  {
    steps == [] || (Enabled(s, steps[0]) && CanRun(Next(s, steps[0]), steps[1..]))
  }

  function Run(s: State, steps: seq<Step>): State
    requires CanRun(s, steps)
    decreases |steps|
  {
    if steps == [] then s else Run(Next(s, steps[0]), steps[1..])
  }

  // ----- what only certain steps can do -----

  /** The route moves only when a commit is carried out, to the zone it names, while that is registered;
      and then it does, unless the call is answered with a refusal. */
  lemma RouteMovesByCommit(s: State, step: Step)
    requires Enabled(s, step)
    ensures var t := Next(s, step);
            && (t.route != s.route ==>
                  step.HandleConfirm? && t.route == s.requests[step.id].to && t.route in s.registered)
            && (step.HandleConfirm? ==>
                  var ok := s.requests[step.id].to in s.registered;
                  && step.id !in t.requests
                  && step.id in t.replies && t.replies[step.id] == (if ok then Accepted else Refused)
                  && t.route == if ok then s.requests[step.id].to else s.route)
  {
    hide Admits, Woken, Expired, Pruned;
  }

  /** A zone comes alive only by waking a ghost that is pending there, and lets go only after its own
      activation of another zone was accepted. */
  lemma LiveChangesBy(s: State, step: Step, z: Zone)
    requires Enabled(s, step)
    ensures var t := Next(s, step);
            && (z in t.live && z !in s.live ==>
                  && step.HandleActivate? && s.requests[step.id] == Activate(z)
                  && s.zones[z].shade.Some? && s.zones[z].shade.value.Pending?)
            && (z in s.live && z !in t.live ==> step == Release(z) && s.zones[z].task.Releasing?)
            && (step.HandleActivate? && s.requests[step.id] == Activate(z) ==>
                  var wakes := s.zones[z].shade.Some? && s.zones[z].shade.value.Pending?;
                  && step.id in t.replies && t.replies[step.id] == (if wakes then Accepted else Refused)
                  && (wakes ==> z in t.live) && t.zones[z].shade == if wakes then Some(Active) else None)
  {
    hide Admits, Expired, Pruned;
  }

  /** A ghost appears only by a preparation at a registered zone other than the origin, with the snapshot
      sent and the time of day; it goes only by activation or, when more than 30 s old, by expiry. */
  lemma GhostChangesBy(s: State, step: Step, z: Zone)
    requires Enabled(s, step) && z in s.zones
    ensures var t := Next(s, step); var was := s.zones[z].shade;
            && z in t.zones
            && (t.zones[z].shade != was ==>
                  || (step.HandlePrepare? && step.target == z && z in s.registered && z != s.requests[step.id].origin
                      && t.zones[z].shade == Some(Pending(s.requests[step.id].snapshot, s.now)))
                  || (step == Expire(z) && was.Some? && was.value.Pending? && s.now > was.value.created + 30000
                      && t.zones[z].shade == None)
                  || (step.HandleActivate? && s.requests[step.id] == Activate(z)))
            && (step == Expire(z) && was.Some? && was.value.Pending? && s.now > was.value.created + 30000 ==>
                  t.zones[z].shade == None)
  {
    hide Admits, Pruned;
  }

  /** A handoff starts only at a live zone, with none pending and the cooldown run out; a crossing commits
      to the zone that was prepared; a zone asks the target to wake the player only after its commit was
      accepted, starts to let go only after the waking was, and when it was not, commits back to itself. */
  lemma TaskChangesBy(s: State, step: Step, z: Zone)
    requires Enabled(s, step) && z in s.zones
    ensures var t := Next(s, step); var was := s.zones[z].task; var slot := s.zones[z].slot;
            && z in t.zones
            && (t.zones[z].task != was ==>
                  match t.zones[z].task
                  case AwaitPrepare(id) =>
                    && step.Start? && step.z == z && z in s.live && was == Idle
                    && t.requests[id] == Prepare(z, step.snapshot)
                    && slot.progress == None && (slot.ended == None || s.now >= slot.ended.value + s.cooldown)
                  case AwaitConfirm(id, target) =>
                    && step == Cross(z) && was == Idle && slot.progress == Some(ReadyToTransfer(target))
                    && t.requests[id] == Confirm(target)
                  case AwaitActivate(id, target) =>
                    && step == Answer(z) && was.AwaitConfirm? && was.target == target
                    && was.id in s.replies && s.replies[was.id] == Accepted && t.requests[id] == Activate(target)
                  case Releasing(target) =>
                    && step == Answer(z) && was.AwaitActivate? && was.target == target
                    && was.id in s.replies && s.replies[was.id] == Accepted
                  case AwaitRollback(id) =>
                    && (step == Answer(z) || step == Fail(z)) && was.AwaitActivate? && t.requests[id] == Confirm(z)
                    && (step == Answer(z) ==> was.id in s.replies && s.replies[was.id] != Accepted)
                  case Idle => step == Answer(z) || step == Fail(z) || step == Release(z))
  {
    hide Expired, Woken, Pruned;
  }

  // ----- somebody always holds the player -----

  /** Is zone `t`'s task handing the player to `z`? */
  predicate Handing(t: Task, z: Zone) {
    (t.AwaitActivate? || t.Releasing?) && t.target == z
  }

  /** A zone that is being handed the player starts no handoff of its own until the origin is done. */
  ghost predicate Exclusive(s: State) {
    forall o, z | o in s.zones && z in s.zones && Handing(s.zones[o].task, z) :: s.zones[z].task.Idle?
  }

  ghost predicate ExclusiveRun(s: State, steps: seq<Step>)
    requires CanRun(s, steps)
    decreases |steps|
  {
    Exclusive(s) && (steps != [] ==> ExclusiveRun(Next(s, steps[0]), steps[1..]))
  }

  ghost predicate Numbered(s: State) {
    && (forall id :: id in s.requests ==> id < s.next)
    && (forall id :: id in s.replies ==> id < s.next)
    && (forall id :: id in s.done ==> id < s.next)
  }

  /** A zone never hands the player to itself, and a zone it has heard to be awake is. */
  predicate TaskSafe(s: State, z: Zone, t: Task) {
    match t
    case AwaitPrepare(id) =>
      && id < s.next
      && (id in s.requests ==> s.requests[id].Prepare? && s.requests[id].origin == z)
      && (id in s.replies && s.replies[id].Ready? ==> s.replies[id].target != z)
    case AwaitConfirm(id, target) => target != z
    case AwaitActivate(id, target) =>
      && target != z && id < s.next
      && (id in s.requests ==> s.requests[id] == Activate(target))
      && (id in s.replies && s.replies[id] == Accepted ==> target in s.live)
    case Releasing(target) => target != z && target in s.live
    case _ => true
  }

  predicate LocalSafe(s: State, z: Zone, l: Local) {
    TaskSafe(s, z, l.task) && Destination(l.slot) != Some(z)
  }

  ghost predicate Safe(s: State) {
    s.live != {} && Numbered(s) && forall z :: z in s.zones ==> LocalSafe(s, z, s.zones[z])
  }

  lemma ProceedSafe(s: State, z: Zone, r: Reply)
    requires Safe(s) && z in s.zones && Waiting(s.zones[z].task)
    requires r == Refused || (s.zones[z].task.id in s.replies && r == s.replies[s.zones[z].task.id])
    ensures Safe(Proceed(s, z, r))
  {
  }

  /** Steps a zone takes by itself. */
  predicate Own(step: Step) {
    step.Prune? || step.Expire? || step.Cancel?
  }

  /** Steps that open a call. */
  predicate Opens(step: Step) {
    step.Start? || step.Cross?
  }

  /** Steps of the clock and the registry. */
  predicate Outer(step: Step) {
    step.Wait? || step.Register? || step.Evict?
  }

  /** Steps of the network that carry nothing out. */
  predicate Idler(step: Step) {
    step.Refuse? || step.LoseRequest? || step.LoseReply?
  }

  lemma OwnStepSafe(s: State, step: Step)
    requires Safe(s) && Enabled(s, step) && Own(step)
    ensures Safe(Next(s, step))
  {
  }

  lemma OpensStepSafe(s: State, step: Step)
    requires Safe(s) && Enabled(s, step) && Opens(step)
    ensures Safe(Next(s, step))
  {
  }

  lemma OuterStepSafe(s: State, step: Step)
    requires Safe(s) && Enabled(s, step) && Outer(step)
    ensures Safe(Next(s, step))
  {
  }

  lemma IdlerStepSafe(s: State, step: Step)
    requires Safe(s) && Enabled(s, step) && Idler(step)
    ensures Safe(Next(s, step))
  {
  }

  lemma PrepareSafe(s: State, id: nat, target: Zone)
    requires Safe(s) && Enabled(s, HandlePrepare(id, target))
    ensures Safe(Next(s, HandlePrepare(id, target)))
  {
  }

  lemma ConfirmSafe(s: State, id: nat)
    requires Safe(s) && Enabled(s, HandleConfirm(id))
    ensures Safe(Next(s, HandleConfirm(id)))
  {
  }

  lemma ActivateSafe(s: State, id: nat)
    requires Safe(s) && Enabled(s, HandleActivate(id))
    ensures Safe(Next(s, HandleActivate(id)))
  {
  }

  /** A release leaves the zone the player was handed to, and nobody was counting on the releaser. */
  lemma ReleaseSafe(s: State, z: Zone)
    requires Safe(s) && Exclusive(s) && Enabled(s, Release(z))
    ensures Safe(Next(s, Release(z)))
  {
    assert s.zones[z].task.target in s.live - {z};
  }

  lemma StepSafe(s: State, step: Step)
    requires Safe(s) && Exclusive(s) && Enabled(s, step)
    ensures Safe(Next(s, step))
  {
    hide Safe, Exclusive, Proceed;
    match step {
      case Answer(z) => ProceedSafe(s, z, s.replies[s.zones[z].task.id]);
      case Fail(z) => ProceedSafe(s, z, Refused);
      case Release(z) => ReleaseSafe(s, z);
      case HandlePrepare(id, target) => PrepareSafe(s, id, target);
      case HandleConfirm(id) => ConfirmSafe(s, id);
      case HandleActivate(id) => ActivateSafe(s, id);
      case Wait(_) => OuterStepSafe(s, step);
      case Register(_) => OuterStepSafe(s, step);
      case Evict(_) => OuterStepSafe(s, step);
      case Refuse(_) => IdlerStepSafe(s, step);
      case LoseRequest(_) => IdlerStepSafe(s, step);
      case LoseReply(_) => IdlerStepSafe(s, step);
      case Start(_, _) => OpensStepSafe(s, step);
      case Cross(_) => OpensStepSafe(s, step);
      case _ => OwnStepSafe(s, step);
    }
  }

  /** However the calls go, some zone holds the player live, now and in every state on the way. */
  lemma {:induction false} SomeZoneIsAlwaysLive(s: State, steps: seq<Step>)
    requires Safe(s) && CanRun(s, steps) && ExclusiveRun(s, steps)
    ensures Safe(Run(s, steps)) && Run(s, steps).live != {}
    decreases |steps|
  {
    if steps != [] {
      StepSafe(s, steps[0]);
      SomeZoneIsAlwaysLive(Next(s, steps[0]), steps[1..]);
    }
  }

  // ----- when failed calls did nothing, the route names the one live zone -----

  ghost predicate AtRest(s: State) {
    forall z :: z in s.zones ==> s.zones[z].task.Idle?
  }

  /** The route names the single live zone. */
  predicate Consistent(s: State) {
    s.live == {s.route}
  }

  /** A confirmation or activation that fails had no effect and will have none; a rollback is accepted. */
  predicate Clean(s: State, step: Step)
    requires Enabled(s, step)
  {
    match step
    case Fail(z) =>
      var t := s.zones[z].task;
      t.AwaitPrepare? || (!t.AwaitRollback? && t.id !in s.requests && t.id !in s.done)
    case Answer(z) =>
      var t := s.zones[z].task;
      t.AwaitRollback? ==> s.replies[t.id] == Accepted
    case _ => true
  }

  ghost predicate CleanRun(s: State, steps: seq<Step>)
    requires CanRun(s, steps)
    decreases |steps|
  {
    steps != [] ==> Clean(s, steps[0]) && CleanRun(Next(s, steps[0]), steps[1..])
  }

  /** Call `id` is still travelling, or has an answer that says whether it was carried out. */
  predicate Accounted(s: State, id: nat, r: Request) {
    && id < s.next
    && (id in s.requests ==> s.requests[id] == r && id !in s.done && id !in s.replies)
    && (id in s.replies ==> (s.replies[id] == Accepted <==> id in s.done))
  }

  predicate Waits(t: Task, id: nat) {
    Waiting(t) && t.id == id
  }

  /** How far the owner's handoff has got says which zones are live and where the route points. */
  predicate OwnerAt(s: State, o: Zone, t: Task) {
    match t
    case Idle => s.live == {o} && s.route == o
    case AwaitPrepare(_) => s.live == {o} && s.route == o
    case AwaitConfirm(id, target) =>
      Accounted(s, id, Confirm(target)) && s.live == {o} && s.route == if id in s.done then target else o
    case AwaitActivate(id, target) =>
      Accounted(s, id, Activate(target)) && s.route == target && s.live == if id in s.done then {o, target} else {o}
    case AwaitRollback(id) =>
      Accounted(s, id, Confirm(o)) && s.live == {o} && (id in s.done ==> s.route == o)
    case Releasing(target) => s.live == {o, target} && s.route == target
  }

  ghost predicate OwnedBy(s: State, o: Zone) {
    && o in s.zones && s.live <= s.zones.Keys
    && OwnerAt(s, o, s.zones[o].task)
    && (s.zones[o].task.AwaitActivate? || s.zones[o].task.Releasing? ==> s.zones[o].slot.progress.None?)
    && (forall z :: z in s.zones && z != o ==> s.zones[z].task.Idle? && s.zones[z].slot.progress.None?)
    && (forall id :: id in s.requests && !s.requests[id].Prepare? ==> Waits(s.zones[o].task, id))
  }

  lemma OwnStepOwned(s: State, step: Step, o: Zone)
    requires Safe(s) && OwnedBy(s, o) && Enabled(s, step) && Own(step)
    ensures OwnedBy(Next(s, step), o)
  {
  }

  lemma OpensStepOwned(s: State, step: Step, o: Zone)
    requires Safe(s) && OwnedBy(s, o) && Enabled(s, step) && Opens(step) && Exclusive(Next(s, step))
    ensures OwnedBy(Next(s, step), o)
  {
  }

  lemma OuterStepOwned(s: State, step: Step, o: Zone)
    requires Safe(s) && OwnedBy(s, o) && Enabled(s, step) && Outer(step)
    ensures OwnedBy(Next(s, step), o)
  {
  }

  lemma IdlerStepOwned(s: State, step: Step, o: Zone)
    requires Safe(s) && OwnedBy(s, o) && Enabled(s, step) && Idler(step)
    ensures OwnedBy(Next(s, step), o)
  {
  }

  lemma PrepareOwned(s: State, id: nat, target: Zone, o: Zone)
    requires Safe(s) && OwnedBy(s, o) && Enabled(s, HandlePrepare(id, target))
    ensures OwnedBy(Next(s, HandlePrepare(id, target)), o)
  {
  }

  lemma ConfirmOwned(s: State, id: nat, o: Zone)
    requires Safe(s) && OwnedBy(s, o) && Enabled(s, HandleConfirm(id))
    ensures OwnedBy(Next(s, HandleConfirm(id)), o)
  {
  }

  lemma ActivateOwned(s: State, id: nat, o: Zone)
    requires Safe(s) && OwnedBy(s, o) && Enabled(s, HandleActivate(id))
    ensures OwnedBy(Next(s, HandleActivate(id)), o)
  {
  }

  lemma ProceedOwned(s: State, z: Zone, r: Reply, o: Zone)
    requires Safe(s) && OwnedBy(s, o) && z in s.zones && Waiting(s.zones[z].task)
    requires
      var t := s.zones[z].task;
      || (t.id in s.replies && r == s.replies[t.id] && (t.AwaitRollback? ==> r == Accepted))
      || (r == Refused && (t.AwaitPrepare? || (!t.AwaitRollback? && t.id !in s.requests && t.id !in s.done)))
    ensures OwnedBy(Proceed(s, z, r), o)
  {
  }

  lemma ReleaseOwned(s: State, z: Zone, o: Zone)
    requires Safe(s) && OwnedBy(s, o) && Enabled(s, Release(z))
    ensures OwnedBy(Next(s, Release(z)), s.zones[z].task.target)
  {
  }

  lemma StepOwned(s: State, step: Step, o: Zone) returns (o': Zone)
    requires Safe(s) && OwnedBy(s, o) && Enabled(s, step) && Clean(s, step) && Exclusive(Next(s, step))
    ensures OwnedBy(Next(s, step), o')
  {
    hide Safe, OwnedBy, Exclusive, Proceed;
    o' := o;
    match step {
      case Answer(z) => ProceedOwned(s, z, s.replies[s.zones[z].task.id], o);
      case Fail(z) => ProceedOwned(s, z, Refused, o);
      case Release(z) =>
        ReleaseOwned(s, z, o);
        o' := s.zones[z].task.target;
      case HandlePrepare(id, target) => PrepareOwned(s, id, target, o);
      case HandleConfirm(id) => ConfirmOwned(s, id, o);
      case HandleActivate(id) => ActivateOwned(s, id, o);
      case Wait(_) => OuterStepOwned(s, step, o);
      case Register(_) => OuterStepOwned(s, step, o);
      case Evict(_) => OuterStepOwned(s, step, o);
      case Refuse(_) => IdlerStepOwned(s, step, o);
      case LoseRequest(_) => IdlerStepOwned(s, step, o);
      case LoseReply(_) => IdlerStepOwned(s, step, o);
      case Start(_, _) => OpensStepOwned(s, step, o);
      case Cross(_) => OpensStepOwned(s, step, o);
      case _ => OwnStepOwned(s, step, o);
    }
  }

  lemma {:induction false} CleanRunOwned(s: State, steps: seq<Step>, o: Zone) returns (o': Zone)
    requires Safe(s) && OwnedBy(s, o)
    requires CanRun(s, steps) && ExclusiveRun(s, steps) && CleanRun(s, steps)
    ensures OwnedBy(Run(s, steps), o')
    decreases |steps|
  {
    hide Safe, OwnedBy, Exclusive, Enabled, Next, Clean;
    o' := o;
    if steps != [] {
      StepSafe(s, steps[0]);
      o' := StepOwned(s, steps[0], o);
      o' := CleanRunOwned(Next(s, steps[0]), steps[1..], o');
    }
  }

  /** One zone holds the player, the route names it, and nothing is under way. */
  ghost predicate Initial(s: State) {
    && s.route in s.zones && Consistent(s) && AtRest(s)
    && (forall z :: z in s.zones ==> s.zones[z].slot.progress.None?)
    && s.requests == map[] && s.replies == map[] && s.done == {}
  }

  lemma InitialSafe(s: State)
    requires Initial(s)
    ensures Safe(s) && OwnedBy(s, s.route)
  {
  }

  /** Over any number of handoffs, whichever calls fail without effect: whenever no handoff is under
      way, the route names the single live zone. */
  lemma AtRestRouteNamesTheLiveZone(s: State, steps: seq<Step>)
    requires Initial(s) && CanRun(s, steps) && ExclusiveRun(s, steps) && CleanRun(s, steps)
    ensures Run(s, steps).live != {}
    ensures AtRest(Run(s, steps)) ==> Consistent(Run(s, steps))
  {
    InitialSafe(s);
    SomeZoneIsAlwaysLive(s, steps);
    var o := CleanRunOwned(s, steps, s.route);
  }

  // ----- what one crossing can come to -----

  /** No commit or activation is still travelling. */
  ghost predicate Quiet(s: State) {
    forall id :: id in s.requests ==> s.requests[id].Prepare?
  }

  ghost predicate NoCross(steps: seq<Step>) {
    forall i :: 0 <= i < |steps| ==> !steps[i].Cross?
  }

  /** The crossing from `o` to `t` can have left exactly these traces. */
  predicate Trace(log: seq<Event>, o: Zone, t: Zone) {
    || log == [] || log == [Routed(t)]
    || log == [Routed(t), Woke(t)] || log == [Routed(t), Woke(t), Released(o)]
    || log == [Routed(t), Routed(o)]
    || log == [Routed(t), Woke(t), Routed(o)] || log == [Routed(t), Routed(o), Woke(t)]
  }

  /** Travelling calls are those of this crossing, each sent once and not yet carried out. */
  ghost predicate CallsOf(s: State, o: Zone, t: Zone) {
    && (forall id :: id in s.requests ==>
          var r := s.requests[id];
          r.Prepare? || (r == Confirm(t) && s.log == []) ||
              (r == Activate(t) && (s.log == [Routed(t)] || s.log == [Routed(t), Routed(o)]))
          || (r == Confirm(o) && (s.log == [Routed(t)] || s.log == [Routed(t), Woke(t)])))
    && (forall i, j :: i in s.requests && j in s.requests && s.requests[i] == s.requests[j] ==>
          s.requests[i].Prepare? || i == j)
  }

  predicate CrossingAt(s: State, o: Zone, t: Zone, k: Task) {
    match k
    case AwaitConfirm(id, target) =>
      && target == t && id < s.next && (s.log == [] || s.log == [Routed(t)])
      && (id in s.requests ==> s.requests[id] == Confirm(t))
      && (id in s.replies && s.replies[id] == Accepted ==> s.log == [Routed(t)])
      && forall i :: i in s.requests && !s.requests[i].Prepare? ==> i == id
    case AwaitActivate(id, target) =>
      && target == t && id < s.next && (s.log == [Routed(t)] || s.log == [Routed(t), Woke(t)])
      && (id in s.requests ==> s.requests[id] == Activate(t))
      && (id in s.replies && s.replies[id] == Accepted ==> s.log == [Routed(t), Woke(t)])
      && forall i :: i in s.requests && !s.requests[i].Prepare? ==> i == id
    case AwaitRollback(id) => s.log != [] && Released(o) !in s.log
    case Releasing(target) =>
      target == t && s.log == [Routed(t), Woke(t)] && forall i :: i in s.requests ==> s.requests[i].Prepare?
    case _ => true
  }

  /** Where the player is, as told by the trace alone. */
  predicate Placed(s: State, o: Zone, t: Zone) {
    && s.route == (if s.log == [] || Routed(o) in s.log then o else t)
    && s.live == (if Woke(t) !in s.log then {o} else if Released(o) in s.log then {t} else {o, t})
  }

  ghost predicate Crossing(s: State, o: Zone, t: Zone) {
    && Numbered(s) && o in s.zones && o != t
    && Trace(s.log, o, t) && Placed(s, o, t) && CallsOf(s, o, t)
    && CrossingAt(s, o, t, s.zones[o].task)
    && forall z :: z in s.zones && z != o ==> s.zones[z].task.Idle? || s.zones[z].task.AwaitPrepare?
  }

  lemma OwnStepCrossing(s: State, step: Step, o: Zone, t: Zone)
    requires Crossing(s, o, t) && Enabled(s, step) && Own(step)
    ensures Crossing(Next(s, step), o, t)
  {
  }

  lemma StartCrossing(s: State, z: Zone, snapshot: Snapshot, o: Zone, t: Zone)
    requires Crossing(s, o, t) && Enabled(s, Start(z, snapshot))
    ensures Crossing(Next(s, Start(z, snapshot)), o, t)
  {
    hide Trace;
  }

  lemma OuterStepCrossing(s: State, step: Step, o: Zone, t: Zone)
    requires Crossing(s, o, t) && Enabled(s, step) && Outer(step)
    ensures Crossing(Next(s, step), o, t)
  {
  }

  lemma IdlerStepCrossing(s: State, step: Step, o: Zone, t: Zone)
    requires Crossing(s, o, t) && Enabled(s, step) && Idler(step)
    ensures Crossing(Next(s, step), o, t)
  {
  }

  lemma PrepareCrossing(s: State, id: nat, target: Zone, o: Zone, t: Zone)
    requires Crossing(s, o, t) && Enabled(s, HandlePrepare(id, target))
    ensures Crossing(Next(s, HandlePrepare(id, target)), o, t)
  {
    hide Trace;
  }

  /** What committing a route does to the trace, and that no other call is then out of place. */
  lemma RoutedCalls(s: State, id: nat, o: Zone, t: Zone)
    requires Crossing(s, o, t) && Enabled(s, HandleConfirm(id)) && s.requests[id].to in s.registered
    ensures var s' := Next(s, HandleConfirm(id)); CallsOf(s', o, t)
    ensures s.requests[id].to == t ==> s.log == []
    ensures s.requests[id].to == o ==> s.log == [Routed(t)] || s.log == [Routed(t), Woke(t)]
    ensures s.requests[id].to == o || s.requests[id].to == t
  {
    hide Trace, Placed, CrossingAt;
  }

  lemma RoutedAt(s: State, id: nat, o: Zone, t: Zone)
    requires Crossing(s, o, t) && Enabled(s, HandleConfirm(id)) && s.requests[id].to in s.registered
    ensures var s' := Next(s, HandleConfirm(id)); CrossingAt(s', o, t, s'.zones[o].task)
  {
    hide Trace, Placed;
  }

  lemma ConfirmCrossing(s: State, id: nat, o: Zone, t: Zone)
    requires Crossing(s, o, t) && Enabled(s, HandleConfirm(id))
    ensures Crossing(Next(s, HandleConfirm(id)), o, t)
  {
    hide CallsOf, CrossingAt;
    if s.requests[id].to in s.registered {
      RoutedCalls(s, id, o, t);
      RoutedAt(s, id, o, t);
    } else {
      IdlerStepCrossing(s, Refuse(id), o, t);
    }
  }

  predicate Wakes(s: State, id: nat)
    requires Enabled(s, HandleActivate(id))
  {
    Woken(s.zones[s.requests[id].target].shade).1.Some?
  }

  lemma WokenCalls(s: State, id: nat, o: Zone, t: Zone)
    requires Crossing(s, o, t) && Enabled(s, HandleActivate(id)) && Wakes(s, id)
    ensures var s' := Next(s, HandleActivate(id)); CallsOf(s', o, t)
    ensures s.requests[id].target == t && (s.log == [Routed(t)] || s.log == [Routed(t), Routed(o)])
  {
    hide Trace, Placed, CrossingAt;
  }

  lemma WokenAt(s: State, id: nat, o: Zone, t: Zone)
    requires Crossing(s, o, t) && Enabled(s, HandleActivate(id)) && Wakes(s, id)
    ensures var s' := Next(s, HandleActivate(id)); CrossingAt(s', o, t, s'.zones[o].task)
  {
    hide Trace, Placed;
  }

  lemma NotWokenCrossing(s: State, id: nat, o: Zone, t: Zone)
    requires Crossing(s, o, t) && Enabled(s, HandleActivate(id)) && !Wakes(s, id)
    ensures Crossing(Next(s, HandleActivate(id)), o, t)
  {
    hide Trace;
  }

  lemma ActivateCrossing(s: State, id: nat, o: Zone, t: Zone)
    requires Crossing(s, o, t) && Enabled(s, HandleActivate(id))
    ensures Crossing(Next(s, HandleActivate(id)), o, t)
  {
    hide CallsOf, CrossingAt;
    if Wakes(s, id) {
      WokenCalls(s, id, o, t);
      WokenAt(s, id, o, t);
    } else {
      NotWokenCrossing(s, id, o, t);
    }
  }

  lemma ProceedCrossing(s: State, z: Zone, r: Reply, o: Zone, t: Zone)
    requires Crossing(s, o, t) && z in s.zones && Waiting(s.zones[z].task)
    requires r == Refused || (s.zones[z].task.id in s.replies && r == s.replies[s.zones[z].task.id])
    ensures Crossing(Proceed(s, z, r), o, t)
  {
    match s.zones[z].task {
      case AwaitPrepare(_) => ProceedPrepared(s, z, r, o, t);
      case AwaitConfirm(_, _) => ProceedConfirmed(s, r, o, t);
      case AwaitActivate(_, _) => ProceedActivated(s, r, o, t);
      case _ =>
    }
  }

  lemma ProceedPrepared(s: State, z: Zone, r: Reply, o: Zone, t: Zone)
    requires Crossing(s, o, t) && z in s.zones && s.zones[z].task.AwaitPrepare?
    ensures Crossing(Proceed(s, z, r), o, t)
  {
    hide Trace;
  }

  lemma ProceedConfirmed(s: State, r: Reply, o: Zone, t: Zone)
    requires Crossing(s, o, t) && s.zones[o].task.AwaitConfirm?
    requires r == Refused || (s.zones[o].task.id in s.replies && r == s.replies[s.zones[o].task.id])
    ensures Crossing(Proceed(s, o, r), o, t)
  {
    hide Trace;
  }

  lemma ProceedActivated(s: State, r: Reply, o: Zone, t: Zone)
    requires Crossing(s, o, t) && s.zones[o].task.AwaitActivate?
    requires r == Refused || (s.zones[o].task.id in s.replies && r == s.replies[s.zones[o].task.id])
    ensures Crossing(Proceed(s, o, r), o, t)
  {
    hide Trace;
  }

  lemma ReleaseCrossing(s: State, z: Zone, o: Zone, t: Zone)
    requires Crossing(s, o, t) && Enabled(s, Release(z))
    ensures Crossing(Next(s, Release(z)), o, t)
  {
  }

  lemma StepCrossing(s: State, step: Step, o: Zone, t: Zone)
    requires Crossing(s, o, t) && Enabled(s, step) && !step.Cross?
    ensures Crossing(Next(s, step), o, t)
  {
    hide Crossing, Proceed;
    match step {
      case Answer(z) => ProceedCrossing(s, z, s.replies[s.zones[z].task.id], o, t);
      case Fail(z) => ProceedCrossing(s, z, Refused, o, t);
      case Release(z) => ReleaseCrossing(s, z, o, t);
      case HandlePrepare(id, target) => PrepareCrossing(s, id, target, o, t);
      case HandleConfirm(id) => ConfirmCrossing(s, id, o, t);
      case HandleActivate(id) => ActivateCrossing(s, id, o, t);
      case Wait(_) => OuterStepCrossing(s, step, o, t);
      case Register(_) => OuterStepCrossing(s, step, o, t);
      case Evict(_) => OuterStepCrossing(s, step, o, t);
      case Refuse(_) => IdlerStepCrossing(s, step, o, t);
      case LoseRequest(_) => IdlerStepCrossing(s, step, o, t);
      case LoseReply(_) => IdlerStepCrossing(s, step, o, t);
      case Start(z, snapshot) => StartCrossing(s, z, snapshot, o, t);
      case _ => OwnStepCrossing(s, step, o, t);
    }
  }

  lemma {:induction false} RunCrossing(s: State, steps: seq<Step>, o: Zone, t: Zone)
    requires Crossing(s, o, t) && CanRun(s, steps) && NoCross(steps)
    ensures Crossing(Run(s, steps), o, t)
    decreases |steps|
  {
    hide Crossing, Enabled, Next;
    if steps != [] {
      StepCrossing(s, steps[0], o, t);
      RunCrossing(Next(s, steps[0]), steps[1..], o, t);
    }
  }

  /** Zone `o` alone holds the player, is ready to hand it to `t`, and no earlier call lingers. */
  ghost predicate ReadyToCross(s: State, o: Zone, t: Zone) {
    && Numbered(s) && o in s.zones && o != t && s.live == {o} && s.route == o && AtRest(s) && Quiet(s) && s.log == []
    && Destination(s.zones[o].slot) == Some(t)
  }

  lemma CrossBegins(s: State, o: Zone, t: Zone)
    requires ReadyToCross(s, o, t)
    ensures Enabled(s, Cross(o)) && Crossing(Next(s, Cross(o)), o, t)
  {
  }

  /** One crossing, with any calls refused, lost, late or carried out unheard: once everything has
      settled the route names the single live zone exactly when the new route was never committed,
      or the origin let go, or the target was never woken and the rollback was carried out. */
  lemma CrossingExactly(s: State, steps: seq<Step>, o: Zone, t: Zone)
    requires ReadyToCross(s, o, t) && NoCross(steps)
    requires CanRun(s, [Cross(o)] + steps)
    ensures var end := Run(s, [Cross(o)] + steps);
            && Trace(end.log, o, t)
            && (AtRest(end) && Quiet(end) ==>
                  (Consistent(end) <==>
                     Routed(t) !in end.log || Released(o) in end.log || (Woke(t) !in end.log && Routed(o) in end.log)))
  {
    hide Enabled, Next;
    CrossBegins(s, o, t);
    assert ([Cross(o)] + steps)[1..] == steps;
    RunCrossing(Next(s, Cross(o)), steps, o, t);
  }

  // ----- runs that show what the conditions are for -----

  lemma {:induction false} RunConcat(s: State, a: seq<Step>, b: seq<Step>)
    requires CanRun(s, a) && CanRun(Run(s, a), b)
    ensures CanRun(s, a + b) && Run(s, a + b) == Run(Run(s, a), b)
    decreases |a|
  {
    hide Enabled, Next;
    if a == [] {
      assert a + b == b;
    } else {
      assert (a + b)[1..] == a[1..] + b;
      RunConcat(Next(s, a[0]), a[1..], b);
    }
  }

  lemma Then(s: State, steps: seq<Step>, step: Step)
    requires CanRun(s, steps) && Enabled(Run(s, steps), step)
    ensures CanRun(s, steps + [step]) && Run(s, steps + [step]) == Next(Run(s, steps), step)
  {
    hide Enabled, Next;
    var s' := Run(s, steps);
    assert CanRun(Next(s', step), []);
    assert [step][1..] == [];
    RunConcat(s, steps, [step]);
  }

  /** The preparation of a crossing when every call goes through. */
  function Prepares(n: nat, o: Zone, t: Zone, snapshot: Snapshot): seq<Step> {
    [Start(o, snapshot), HandlePrepare(n, t), Answer(o)]
  }

  /** The crossing itself, up to the target waking the player. */
  function Crosses(n: nat, o: Zone): seq<Step> {
    [Cross(o), HandleConfirm(n), Answer(o), HandleActivate(n + 1)]
  }

  ghost predicate MayStart(s: State, o: Zone, t: Zone) {
    && Numbered(s) && o in s.zones && t in s.zones && o != t && o in s.live && t in s.registered
    && s.zones[o].task.Idle? && Admits(s.zones[o].slot, s.now, s.cooldown)
  }

  /** The state once the target holds a ghost of the player and the origin knows. */
  function AfterPreparing(s: State, o: Zone, t: Zone, snapshot: Snapshot): State
    requires o in s.zones && t in s.zones
  {
    s.(next := s.next + 1, done := s.done + {s.next}, replies := s.replies[s.next := Ready(t)],
       zones := s.zones[o := Local(s.zones[o].slot.(progress := Some(ReadyToTransfer(t))), Idle, s.zones[o].shade)]
                       [t := s.zones[t].(shade := Some(Pending(snapshot, s.now)))])
  }

  lemma PreparingSteps(s: State, o: Zone, t: Zone, snapshot: Snapshot)
    requires MayStart(s, o, t)
    ensures Enabled(s, Start(o, snapshot))
    ensures var s1 := Next(s, Start(o, snapshot));
            && Enabled(s1, HandlePrepare(s.next, t))
            && Enabled(Next(s1, HandlePrepare(s.next, t)), Answer(o))
            && Next(Next(s1, HandlePrepare(s.next, t)), Answer(o)) == AfterPreparing(s, o, t, snapshot)
  {
    assert s.next !in s.requests;
    assert s.requests[s.next := Prepare(o, snapshot)] - {s.next} == s.requests;
    assert Next(Next(Next(s, Start(o, snapshot)), HandlePrepare(s.next, t)), Answer(o)).zones ==
             AfterPreparing(s, o, t, snapshot).zones;
  }

  lemma PreparesThrough(s: State, o: Zone, t: Zone, snapshot: Snapshot)
    requires MayStart(s, o, t)
    ensures CanRun(s, Prepares(s.next, o, t, snapshot))
    ensures Run(s, Prepares(s.next, o, t, snapshot)) == AfterPreparing(s, o, t, snapshot)
  {
    hide CanRun, Run, Enabled, Next, AfterPreparing;
    var a, b, c := Start(o, snapshot), HandlePrepare(s.next, t), Answer(o);
    PreparingSteps(s, o, t, snapshot);
    Once(s, a);
    Then(s, [a], b);
    assert [a] + [b] == [a, b];
    Then(s, [a, b], c);
    assert [a, b] + [c] == [a, b, c];
  }

  ghost predicate MayCross(s: State, o: Zone, t: Zone) {
    && Numbered(s) && o in s.zones && t in s.zones && o != t && o in s.live && t in s.registered
    && s.zones[o].task.Idle? && Destination(s.zones[o].slot) == Some(t)
    && s.zones[t].shade.Some? && s.zones[t].shade.value.Pending?
  }

  /** The state once the gateway has committed the new route. */
  function AfterRouting(s: State, o: Zone, t: Zone): State
    requires o in s.zones
  {
    s.(route := t, next := s.next + 1, done := s.done + {s.next}, log := s.log + [Routed(t)],
       replies := s.replies[s.next := Accepted],
       zones := s.zones[o := Local(Confirming(s.zones[o].slot), AwaitConfirm(s.next, t), s.zones[o].shade)])
  }

  lemma RoutingSteps(s: State, o: Zone, t: Zone)
    requires s.next !in s.requests && o in s.zones && t in s.registered
    requires s.zones[o].task.Idle? && Destination(s.zones[o].slot) == Some(t)
    ensures Enabled(s, Cross(o)) && Enabled(Next(s, Cross(o)), HandleConfirm(s.next))
    ensures Next(Next(s, Cross(o)), HandleConfirm(s.next)) == AfterRouting(s, o, t)
  {
    assert s.requests[s.next := Confirm(t)] - {s.next} == s.requests;
  }

  lemma RoutesThrough(s: State, o: Zone, t: Zone)
    requires Numbered(s) && o in s.zones && t in s.registered && s.zones[o].task.Idle? &&
               Destination(s.zones[o].slot) == Some(t)
    ensures CanRun(s, [Cross(o), HandleConfirm(s.next)])
    ensures Run(s, [Cross(o), HandleConfirm(s.next)]) == AfterRouting(s, o, t)
  {
    hide CanRun, Run, Enabled, Next, AfterRouting;
    var a, b := Cross(o), HandleConfirm(s.next);
    RoutingSteps(s, o, t);
    Once(s, a);
    Then(s, [a], b);
    assert [a] + [b] == [a, b];
  }

  lemma Once(s: State, step: Step)
    requires Enabled(s, step)
    ensures CanRun(s, [step]) && Run(s, [step]) == Next(s, step)
  {
    hide Enabled, Next;
    assert [step][1..] == [];
  }

  /** The state once the target has woken the player, unknown yet to the origin. */
  function AfterWaking(s: State, o: Zone, t: Zone): State
    requires o in s.zones && t in s.zones
  {
    s.(route := t, live := s.live + {t}, next := s.next + 2, done := s.done + {s.next, s.next + 1},
       log := s.log + [Routed(t), Woke(t)],
       replies := s.replies[s.next := Accepted][s.next + 1 := Accepted],
       zones := s.zones[o := Local(Slot(None, Some(s.now)), AwaitActivate(s.next + 1, t), s.zones[o].shade)]
                       [t := s.zones[t].(shade := Some(Active))])
  }

  lemma AskingStep(s: State, o: Zone, t: Zone)
    requires MayCross(s, o, t)
    ensures var s2 := AfterRouting(s, o, t);
            && Enabled(s2, Answer(o))
            && Next(s2, Answer(o)) == s2.(next := s.next + 2, requests := s.requests[s.next + 1 := Activate(t)],
               zones := s.zones[o := Local(Slot(None, Some(s.now)), AwaitActivate(s.next + 1, t), s.zones[o].shade)])
  {
  }

  lemma WakingStep(s: State, o: Zone, t: Zone)
    requires MayCross(s, o, t)
    ensures var s2 := AfterRouting(s, o, t);
            && Enabled(s2, Answer(o)) && Enabled(Next(s2, Answer(o)), HandleActivate(s.next + 1))
            && Next(Next(s2, Answer(o)), HandleActivate(s.next + 1)) == AfterWaking(s, o, t)
  {
    AskingStep(s, o, t);
    var s3 := Next(AfterRouting(s, o, t), Answer(o));
    assert s.next + 1 !in s.requests;
    assert s.requests[s.next + 1 := Activate(t)] - {s.next + 1} == s.requests;
    assert s3.done + {s.next + 1} == s.done + {s.next, s.next + 1};
    assert s3.log + [Woke(t)] == s.log + [Routed(t), Woke(t)];
  }

  lemma CrossesThrough(s: State, o: Zone, t: Zone)
    requires MayCross(s, o, t)
    ensures CanRun(s, Crosses(s.next, o))
    ensures Run(s, Crosses(s.next, o)) == AfterWaking(s, o, t)
  {
    hide CanRun, Run, Enabled, Next, AfterRouting, AfterWaking;
    var a, b, c, d := Cross(o), HandleConfirm(s.next), Answer(o), HandleActivate(s.next + 1);
    RoutesThrough(s, o, t);
    WakingStep(s, o, t);
    Then(s, [a, b], c);
    assert [a, b] + [c] == [a, b, c];
    Then(s, [a, b, c], d);
    assert [a, b, c] + [d] == [a, b, c, d];
  }

  /** The origin hears that the target woke the player, and lets go. */
  function LetsGo(o: Zone): seq<Step> {
    [Answer(o), Release(o)]
  }

  lemma LetsGoThrough(s: State, o: Zone)
    requires o in s.zones && s.zones[o].task.AwaitActivate? && s.zones[o].task.id in s.replies
    requires s.replies[s.zones[o].task.id] == Accepted
    ensures CanRun(s, LetsGo(o))
    ensures var e := Run(s, LetsGo(o));
            && e.live == s.live - {o} && e.route == s.route && e.replies == s.replies
            && e.zones == s.zones[o := s.zones[o].(task := Idle)]
  {
    var a, b := Answer(o), Release(o);
    assert CanRun(s, []);
    Then(s, [], a);
    assert [] + [a] == [a];
    Then(s, [a], b);
    assert [a] + [b] == LetsGo(o);
  }

  /** A handoff whose calls all go through, up to the target waking the player. */
  function Hands(n: nat, o: Zone, t: Zone, snapshot: Snapshot): seq<Step> {
    Prepares(n, o, t, snapshot) + Crosses(n + 1, o)
  }

  function AfterHands(s: State, o: Zone, t: Zone, snapshot: Snapshot): State
    requires o in s.zones && t in s.zones
  {
    AfterWaking(AfterPreparing(s, o, t, snapshot), o, t)
  }

  lemma HandsThrough(s: State, o: Zone, t: Zone, snapshot: Snapshot)
    requires MayStart(s, o, t)
    ensures CanRun(s, Hands(s.next, o, t, snapshot))
    ensures Run(s, Hands(s.next, o, t, snapshot)) == AfterHands(s, o, t, snapshot)
  {
    hide Enabled, Next, Run, CanRun, Prepares, Crosses;
    PreparesThrough(s, o, t, snapshot);
    var m := AfterPreparing(s, o, t, snapshot);
    CrossesThrough(m, o, t);
    RunConcat(s, Prepares(s.next, o, t, snapshot), Crosses(m.next, o));
  }

  /** From rest, a handoff whose calls all go through moves the player, and is handed back by nobody on
      the way. */
  lemma HandoffCompletes(s: State, o: Zone, t: Zone, snapshot: Snapshot)
    requires MayStart(s, o, t) && s.live == {o} && Safe(s) && AtRest(s)
    ensures var steps := Hands(s.next, o, t, snapshot) + LetsGo(o);
            CanRun(s, steps) && ExclusiveRun(s, steps) && Run(s, steps).live == {t} && Run(s, steps).route == t
  {
    hide Enabled, Next, Run, CanRun, Hands, LetsGo, Numbered, Safe;
    HandsThrough(s, o, t, snapshot);
    LetsGoThrough(Run(s, Hands(s.next, o, t, snapshot)), o);
    RunConcat(s, Hands(s.next, o, t, snapshot), LetsGo(o));
    MovedByOne(s.next, o, t, snapshot);
    LoneRunIsExclusive(s, Hands(s.next, o, t, snapshot) + LetsGo(o), o);
  }

  lemma MovedByOne(n: nat, o: Zone, t: Zone, snapshot: Snapshot)
    ensures var steps := Hands(n, o, t, snapshot) + LetsGo(o);
            forall i :: 0 <= i < |steps| ==> Mover(steps[i]) == None || Mover(steps[i]) == Some(o)
  {
  }

  /** What matters of the state that a handoff up to the waking leaves. */
  lemma AfterHandsIs(s: State, o: Zone, t: Zone, snapshot: Snapshot)
    requires MayStart(s, o, t)
    ensures var e := AfterHands(s, o, t, snapshot);
            && Numbered(e) && e.next == s.next + 3 && e.registered == s.registered && e.live == s.live + {t}
            && e.now == s.now && e.cooldown == s.cooldown && e.zones.Keys == s.zones.Keys
            && (forall id :: id < s.next && id in s.replies ==> id in e.replies && e.replies[id] == s.replies[id])
            && s.next + 2 in e.replies && e.replies[s.next + 2] == Accepted
            && e.zones[o].task == AwaitActivate(s.next + 2, t)
            && e.zones[t].task == s.zones[t].task && e.zones[t].slot == s.zones[t].slot
  {
  }

  /** The zone whose crossing task a step moves, if any. */
  function Mover(step: Step): Option<Zone> {
    match step
    case Start(z, _) => Some(z)
    case Cross(z) => Some(z)
    case Answer(z) => Some(z)
    case Fail(z) => Some(z)
    case Release(z) => Some(z)
    case _ => None
  }

  ghost predicate OthersIdle(s: State, o: Zone) {
    forall z :: z in s.zones && z != o ==> s.zones[z].task.Idle?
  }

  lemma LoneStep(s: State, step: Step, o: Zone)
    requires OthersIdle(s, o) && Enabled(s, step) && (Mover(step) == None || Mover(step) == Some(o))
    ensures OthersIdle(Next(s, step), o)
  {
    hide Admits, Woken, Expired, Pruned;
  }

  lemma LoneIsExclusive(s: State, o: Zone)
    requires Safe(s) && OthersIdle(s, o)
    ensures Exclusive(s)
  {
  }

  /** As long as one zone alone hands the player on, nothing is handed back too soon. */
  lemma {:induction false} LoneRunIsExclusive(s: State, steps: seq<Step>, o: Zone)
    requires Safe(s) && OthersIdle(s, o) && CanRun(s, steps)
    requires forall i :: 0 <= i < |steps| ==> Mover(steps[i]) == None || Mover(steps[i]) == Some(o)
    ensures ExclusiveRun(s, steps)
    decreases |steps|
  {
    hide Safe, OthersIdle, Exclusive, Enabled, Next;
    LoneIsExclusive(s, o);
    if steps != [] {
      StepSafe(s, steps[0]);
      LoneStep(s, steps[0], o);
      LoneRunIsExclusive(Next(s, steps[0]), steps[1..], o);
    }
  }

  /** Two zones, the first holding the player. */
  function TwoZones(a: Zone, b: Zone): State {
    var idle := Local(UNKNOWN, Idle, None);
    State(0, 0, {a, b}, a, {a}, map[a := idle, b := idle], map[], map[], 0, {}, [])
  }

  lemma StartsNumbered(a: Zone, b: Zone)
    ensures Numbered(TwoZones(a, b))
  {
  }

  /** Why the target must wait for the origin: with every call carried out and answered, a target that
      hands the player back before the origin has read its answer leaves the player live nowhere. */
  lemma HandingBackTooSoon(a: Zone, b: Zone, snapshot: Snapshot) returns (steps: seq<Step>)
    requires a != b
    ensures Initial(TwoZones(a, b)) && CanRun(TwoZones(a, b), steps) && Run(TwoZones(a, b), steps).live == {}
  {
    hide Enabled, Next, Run, CanRun, Hands, LetsGo, AfterHands, Numbered;
    var s := TwoZones(a, b);
    StartsNumbered(a, b);
    AfterHandsIs(s, a, b, snapshot);
    HandsThrough(s, a, b, snapshot);
    var s1 := Run(s, Hands(0, a, b, snapshot));
    AfterHandsIs(s1, b, a, snapshot);
    HandsThrough(s1, b, a, snapshot);
    var s2 := Run(s1, Hands(3, b, a, snapshot));
    LetsGoThrough(s2, b);
    var s3 := Run(s2, LetsGo(b));
    LetsGoThrough(s3, a);
    RunConcat(s, Hands(0, a, b, snapshot), Hands(3, b, a, snapshot));
    RunConcat(s, Hands(0, a, b, snapshot) + Hands(3, b, a, snapshot), LetsGo(b));
    RunConcat(s, Hands(0, a, b, snapshot) + Hands(3, b, a, snapshot) + LetsGo(b), LetsGo(a));
    steps := Hands(0, a, b, snapshot) + Hands(3, b, a, snapshot) + LetsGo(b) + LetsGo(a);
  }

  /** Why a failed call must have had no effect: when only the answer to the commit is lost, the origin
      gives up while the route already names a zone that was never woken. */
  lemma LostAnswerMisroutes(s: State, o: Zone, t: Zone)
    requires ReadyToCross(s, o, t) && t in s.registered
    ensures var steps := [Cross(o), HandleConfirm(s.next), Fail(o)];
            CanRun(s, steps) && AtRest(Run(s, steps)) && Quiet(Run(s, steps)) && !Consistent(Run(s, steps))
  {
    hide CanRun, Run;
    var a, b, c := Cross(o), HandleConfirm(s.next), Fail(o);
    RoutesThrough(s, o, t);
    Then(s, [a, b], c);
    assert [a, b] + [c] == [a, b, c];
    assert t !in Run(s, [a, b, c]).live;
  }
}
