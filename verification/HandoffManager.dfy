/** A zone's bookkeeping of the players it is handing to a neighbour: how far each handoff has got,
    and since when a player that finished or gave one up has to wait. Clocks are milliseconds. */
module HandoffManager {
  import opened Bytes

  type Player = nat
  type Zone = string

  const PREPARE_TIMEOUT: nat := 2000

  datatype Progress = PreparationRequested(at: nat) | ReadyToTransfer(target: Zone) | Transferring

  /** What the manager knows about one player. */
  datatype Slot = Slot(progress: Option<Progress>, ended: Option<nat>)

  const UNKNOWN: Slot := Slot(None, None)

  predicate InCooldown(s: Slot, now: nat, cooldown: nat) {
    s.ended.Some? && now < s.ended.value + cooldown
  }

  /** May a handoff be asked for now? */
  predicate Admits(s: Slot, now: nat, cooldown: nat) {
    s.progress.None? && !InCooldown(s, now, cooldown)
  }

  function Requested(s: Slot, now: nat): Slot {
    s.(progress := Some(PreparationRequested(now)))
  }

  function Cancelled(s: Slot, now: nat): Slot {
    if s.progress.Some? then Slot(None, Some(now)) else s
  }

  /** The gateway's answer to a preparation: a target that is ready, or a refusal, error or timeout. */
  function Answered(s: Slot, ready: Option<Zone>, now: nat): Slot {
    match ready
    case Some(target) => s.(progress := Some(ReadyToTransfer(target)))
    case None => Cancelled(s, now)
  }

  /** The zone a crossing player goes to, when its handoff is ready. */
  function Destination(s: Slot): Option<Zone> {
    if s.progress.Some? && s.progress.value.ReadyToTransfer? then Some(s.progress.value.target) else None
  }

  function Confirming(s: Slot): Slot {
    s.(progress := Some(Transferring))
  }

  function Confirmed(s: Slot, ok: bool, now: nat): Slot {
    if ok then Slot(None, Some(now)) else Cancelled(s, now)
  }

  predicate Fresh(p: Progress, now: nat) {
    p.PreparationRequested? ==> now < p.at + PREPARE_TIMEOUT * 2
  }

  function Pruned(s: Slot, now: nat, cooldown: nat): Slot {
    Slot(if s.progress.Some? && Fresh(s.progress.value, now) then s.progress else None,
         if InCooldown(s, now, cooldown) then s.ended else None)
  }

  /** Sweeping lifts no cooldown, now or later, and never sweeps a crossing from under itself. */
  lemma PruningIsHarmless(s: Slot, now: nat, later: nat, cooldown: nat)
    requires now <= later
    ensures InCooldown(Pruned(s, now, cooldown), later, cooldown) == InCooldown(s, later, cooldown)
    ensures Destination(Pruned(s, now, cooldown)) == Destination(s)
    ensures s.progress == Some(Transferring) ==> Pruned(s, now, cooldown).progress == s.progress
  {
  }

  /** No ping-pong: after a handoff that was given up or confirmed, the next one is admitted exactly
      when the cooldown has run out, swept in between or not. */
  lemma NextWaitsForCooldown(s: Slot, at: nat, swept: nat, later: nat, cooldown: nat, ok: bool)
    requires s.progress.Some? && at <= swept <= later
    ensures Admits(Pruned(Confirmed(s, ok, at), swept, cooldown), later, cooldown) <==> later >= at + cooldown
    ensures Admits(Confirmed(s, ok, at), later, cooldown) <==> later >= at + cooldown
    ensures Admits(Answered(s, None, at), later, cooldown) <==> later >= at + cooldown
    ensures Admits(Cancelled(s, at), later, cooldown) <==> later >= at + cooldown
  {
    PruningIsHarmless(Confirmed(s, ok, at), swept, later, cooldown);
  }

  /** A request that nobody answered blocks the next for four seconds, until it is swept; one that was
      answered or is being confirmed blocks it for good. */
  lemma RequestsGoStale(s: Slot, at: nat, now: nat, cooldown: nat, target: Zone)
    requires s.ended.None?
    ensures !Admits(Requested(s, at), now, cooldown)
    ensures Admits(Pruned(Requested(s, at), now, cooldown), now, cooldown) <==> now >= at + 4000
    ensures !Admits(Pruned(Answered(s, Some(target), at), now, cooldown), now, cooldown)
    ensures !Admits(Pruned(Confirming(s), now, cooldown), now, cooldown)
  {
  }

  class Manager {
    var pending: map<Player, Progress>
    var cooldowns: map<Player, nat>
    const cooldown: nat

    constructor (cooldown: nat)
      ensures pending == map[] && cooldowns == map[] && this.cooldown == cooldown
    {
      pending, cooldowns := map[], map[];
      this.cooldown := cooldown;
    }

    function SlotOf(p: Player): Slot
      reads this
    {
      Slot(if p in pending then Some(pending[p]) else None, if p in cooldowns then Some(cooldowns[p]) else None)
    }

    /** Asks for a handoff, up to the call to the gateway. */
    method BeginRequest(p: Player, now: nat) returns (asked: bool)
      modifies this
      ensures asked == Admits(old(SlotOf(p)), now, cooldown)
      ensures SlotOf(p) == if asked then Requested(old(SlotOf(p)), now) else old(SlotOf(p))
      ensures forall q :: q != p ==> SlotOf(q) == old(SlotOf(q))
    {
      asked := p !in pending && !(p in cooldowns && now < cooldowns[p] + cooldown);
      if asked {
        pending := pending[p := PreparationRequested(now)];
      }
    }

    /** The rest of the request, once the gateway answered or the call failed. */
    method FinishRequest(p: Player, ready: Option<Zone>, now: nat)
      modifies this
      ensures SlotOf(p) == Answered(old(SlotOf(p)), ready, now)
      ensures forall q :: q != p ==> SlotOf(q) == old(SlotOf(q))
    {
      match ready {
        case Some(target) => pending := pending[p := ReadyToTransfer(target)];
        case None => Cancel(p, now);
      }
    }

    method Cancel(p: Player, now: nat)
      modifies this
      ensures SlotOf(p) == Cancelled(old(SlotOf(p)), now)
      ensures forall q :: q != p ==> SlotOf(q) == old(SlotOf(q))
    {
      if p in pending {
        pending := pending - {p};
        cooldowns := cooldowns[p := now];
      }
    }

    /** A crossing, up to the call that commits the new route. */
    method BeginConfirm(p: Player) returns (target: Option<Zone>)
      modifies this
      ensures target == Destination(old(SlotOf(p)))
      ensures SlotOf(p) == if target.Some? then Confirming(old(SlotOf(p))) else old(SlotOf(p))
      ensures forall q :: q != p ==> SlotOf(q) == old(SlotOf(q))
    {
      target := None;
      if p in pending && pending[p].ReadyToTransfer? {
        target := Some(pending[p].target);
        pending := pending[p := Transferring];
      }
    }

    method FinishConfirm(p: Player, ok: bool, now: nat)
      modifies this
      ensures SlotOf(p) == Confirmed(old(SlotOf(p)), ok, now)
      ensures forall q :: q != p ==> SlotOf(q) == old(SlotOf(q))
    {
      if ok {
        pending := pending - {p};
        cooldowns := cooldowns[p := now];
      } else {
        Cancel(p, now);
      }
    }

    method Forget(p: Player)
      modifies this
      ensures SlotOf(p) == UNKNOWN
      ensures forall q :: q != p ==> SlotOf(q) == old(SlotOf(q))
    {
      pending, cooldowns := pending - {p}, cooldowns - {p};
    }

    method PruneExpired(now: nat)
      modifies this
      ensures forall p :: SlotOf(p) == Pruned(old(SlotOf(p)), now, cooldown)
    {
      cooldowns := map p | p in cooldowns && now < cooldowns[p] + cooldown :: cooldowns[p];
      pending := map p | p in pending && Fresh(pending[p], now) :: pending[p];
    }
  }
}

/** A zone's table of ghosts: players prepared here ahead of their crossing. */
module ZoneMesh {
  import opened Bytes
  import HandoffManager

  type Player = nat

  const GHOST_LIFETIME: nat := 30000

  /** A player's state as it travels. */
  datatype Snapshot = Snapshot(source: Player, state: seq<byte>)

  datatype Ghost = Pending(snapshot: Snapshot, created: nat) | Active

  /** Waking a player: the ghost that is left, and the snapshot the player is restored from, if any.
      The ghost is taken out first, so a second activation only drops the marker of the first. */
  function Woken(shade: Option<Ghost>): (r: (Option<Ghost>, Option<Snapshot>)) {
    if shade.Some? && shade.value.Pending? then (Some(Active), Some(shade.value.snapshot)) else (None, None)
  }

  predicate Stale(shade: Ghost, now: nat) {
    shade.Pending? && now > shade.created + GHOST_LIFETIME
  }

  function Expired(shade: Option<Ghost>, now: nat): Option<Ghost> {
    if shade.Some? && Stale(shade.value, now) then None else shade
  }

  class Mesh {
    var ghosts: map<Player, Ghost>

    constructor ()
      ensures ghosts == map[]
    {
      ghosts := map[];
    }

    function GhostOf(p: Player): Option<Ghost>
      reads this
    {
      if p in ghosts then Some(ghosts[p]) else None
    }

    /** `snapshot` is absent when it does not decode. */
    method PrepareForPlayer(p: Player, snapshot: Option<Snapshot>, now: nat) returns (ready: bool)
      modifies this
      ensures ready <==> snapshot.Some? && snapshot.value.source == p
      ensures GhostOf(p) == if ready then Some(Pending(snapshot.value, now)) else old(GhostOf(p))
      ensures forall q :: q != p ==> GhostOf(q) == old(GhostOf(q))
    {
      ready := snapshot.Some? && snapshot.value.source == p;
      if ready {
        ghosts := ghosts[p := Pending(snapshot.value, now)];
      }
    }

    /** `woken` is what the activation hook restores the player from. */
    method ActivatePlayer(p: Player) returns (ok: bool, woken: Option<Snapshot>)
      modifies this
      ensures (GhostOf(p), woken) == Woken(old(GhostOf(p))) && ok == woken.Some?
      ensures ok <==> old(GhostOf(p)).Some? && old(GhostOf(p)).value.Pending?
      ensures ok ==> woken == Some(old(GhostOf(p)).value.snapshot)
      ensures GhostOf(p) == if ok then Some(Active) else None
      ensures forall q :: q != p ==> GhostOf(q) == old(GhostOf(q))
    {
      ok, woken := false, None;
      if p in ghosts {
        var shade := ghosts[p];
        ghosts := ghosts - {p};
        if shade.Pending? {
          woken := Some(shade.snapshot);
          ghosts := ghosts[p := Active];
          ok := true;
        }
      }
    }

    /** The ghost goes, the handoff bookkeeping, once it is wired, forgets the player, and the release
        hook is called with `hook`. */
    method ReleasePlayer(p: Player, reason: string, manager: HandoffManager.Manager?) returns (hook: (Player, string))
      modifies this, manager
      ensures GhostOf(p) == None && hook == (p, reason)
      ensures forall q :: q != p ==> GhostOf(q) == old(GhostOf(q))
      ensures manager != null ==> manager.SlotOf(p) == HandoffManager.UNKNOWN
      ensures manager != null ==> forall q :: q != p ==> manager.SlotOf(q) == old(manager.SlotOf(q))
    {
      ghosts := ghosts - {p};
      if manager != null {
        manager.Forget(p);
      }
      hook := (p, reason);
    }

    method ExpireStaleGhosts(now: nat)
      modifies this
      ensures forall p :: GhostOf(p) == Expired(old(GhostOf(p)), now)
      ensures forall p :: p in old(ghosts) && p !in ghosts <==>
                            p in old(ghosts) && old(ghosts)[p].Pending? && now > old(ghosts)[p].created + 30000
    {
      ghosts := map p | p in ghosts && !Stale(ghosts[p], now) :: ghosts[p];
    }
  }
}
