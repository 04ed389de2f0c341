/** The gateway's forwarder: passes each player's updates on to its zone, holding them back for a
    moment around a handoff commit. Clocks are milliseconds. */
module Forwarder {
  import opened Bytes

  type Player = nat
  type Update = seq<byte>

  const HANDOFF_HOLD: nat := 50

  datatype Msg =
    | Update(source: Player, update: Update)
    | BeginHold(source: Player)
    | FlushHold(source: Player)
    | Dropped(source: Player)

  /** A message and the time at which the loop takes it. */
  datatype Taken = Taken(msg: Msg, now: nat)

  datatype Hold = Hold(started: nat, buffer: seq<Update>)

  // ----- one player's lane -----

  /** What the loop has published for a player, and what it holds back. */
  datatype Lane = Lane(sent: seq<Update>, hold: Option<Hold>) {
    function Held(): seq<Update> {
      if hold.Some? then hold.value.buffer else []
    }

    /** Everything of the player that is not lost, in the order it will be seen. */
    function Line(): seq<Update> {
      sent + Held()
    }
  }

  const EMPTY: Lane := Lane([], None)

  function Step(lane: Lane, t: Taken): Lane {
    match t.msg
    case Update(_, u) =>
      if lane.hold.Some? && t.now < lane.hold.value.started + HANDOFF_HOLD
      then lane.(hold := Some(lane.hold.value.(buffer := lane.hold.value.buffer + [u])))
      else Lane(lane.Line() + [u], None)
    case BeginHold(_) => lane.(hold := Some(Hold(t.now, [])))
    case FlushHold(_) => Lane(lane.Line(), None)
    case Dropped(_) => lane.(hold := None)
  }

  /** Player `p`'s lane after the loop has taken `ts`. */
  function After(ts: seq<Taken>, p: Player): Lane {
    if ts == [] then EMPTY
    else
      var lane := After(ts[..|ts| - 1], p);
      var t := ts[|ts| - 1];
      if t.msg.source == p then Step(lane, t) else lane
  }

  function Received(ts: seq<Taken>, p: Player): seq<Update> {
    if ts == [] then []
    else
      var got := Received(ts[..|ts| - 1], p);
      var m := ts[|ts| - 1].msg;
      if m.source == p && m.Update? then got + [m.update] else got
  }

  /** How many of `p`'s updates the last message of `ts` throws away with the buffer. */
  function Thrown(ts: seq<Taken>, p: Player): nat
    requires ts != []
  {
    var m := ts[|ts| - 1].msg;
    if m.source == p && (m.BeginHold? || m.Dropped?) then |After(ts[..|ts| - 1], p).Held()| else 0
  }

  function Lost(ts: seq<Taken>, p: Player): nat {
    if ts == [] then 0 else Lost(ts[..|ts| - 1], p) + Thrown(ts, p)
  }

  // ----- order and loss -----

  /** `xs` is `ys` with some elements left out. */
  predicate InOrder(xs: seq<Update>, ys: seq<Update>) {
    if xs == [] then true
    else if ys == [] then false
    else
      var x, y := xs[|xs| - 1], ys[|ys| - 1];
      (x == y && InOrder(xs[..|xs| - 1], ys[..|ys| - 1])) || InOrder(xs, ys[..|ys| - 1])
  }

  lemma InOrderSnoc(xs: seq<Update>, ys: seq<Update>, u: Update)
    requires InOrder(xs, ys)
    ensures InOrder(xs + [u], ys + [u]) && InOrder(xs, ys + [u])
  {
    assert (xs + [u])[..|xs|] == xs && (ys + [u])[..|ys|] == ys;
  }

  /** Leaving out the end keeps the order. */
  lemma {:induction false} InOrderPrefix(xs: seq<Update>, ys: seq<Update>, n: nat)
    requires InOrder(xs, ys) && n <= |xs|
    ensures InOrder(xs[..n], ys)
    decreases |ys|
  {
    if n == |xs| {
      assert xs[..n] == xs;
    } else if InOrder(xs, ys[..|ys| - 1]) {
      InOrderPrefix(xs, ys[..|ys| - 1], n);
    } else {
      InOrderPrefix(xs[..|xs| - 1], ys[..|ys| - 1], n);
      assert xs[..|xs| - 1][..n] == xs[..n];
    }
  }

  /** An in-order subsequence that is as long as the whole is the whole. */
  lemma {:induction false} InOrderFull(xs: seq<Update>, ys: seq<Update>)
    requires InOrder(xs, ys)
    ensures |xs| <= |ys| && (|xs| == |ys| ==> xs == ys)
    decreases |ys|
  {
    if xs != [] {
      var n, m := |xs| - 1, |ys| - 1;
      if InOrder(xs, ys[..m]) {
        InOrderFull(xs, ys[..m]);
      } else {
        InOrderFull(xs[..n], ys[..m]);
        assert xs == xs[..n] + [xs[n]] && ys == ys[..m] + [ys[m]];
      }
    }
  }

  lemma StepLine(lane: Lane, t: Taken)
    ensures t.msg.Update? ==> Step(lane, t).Line() == lane.Line() + [t.msg.update]
    ensures t.msg.FlushHold? ==> Step(lane, t).Line() == lane.Line()
    ensures t.msg.BeginHold? || t.msg.Dropped? ==> Step(lane, t).Line() == lane.sent
  {
    if t.msg.Update? && lane.hold.Some? {
      assert lane.sent + (lane.hold.value.buffer + [t.msg.update]) ==
               lane.sent + lane.hold.value.buffer + [t.msg.update];
    }
  }

  /** In every run, what a player has had published followed by what is held is an in-order
      subsequence of what was received, short of it by exactly what was thrown away. */
  lemma {:induction false} LineFollowsReceived(ts: seq<Taken>, p: Player)
    ensures InOrder(After(ts, p).Line(), Received(ts, p))
    ensures |After(ts, p).Line()| + Lost(ts, p) == |Received(ts, p)|
  {
    hide InOrder, Step;
    if ts == [] {
      InOrderNone();
    } else {
      var before := ts[..|ts| - 1];
      var lane, t, got := After(before, p), ts[|ts| - 1], Received(before, p);
      LineFollowsReceived(before, p);
      StepLine(lane, t);
      if t.msg.source == p {
        if t.msg.Update? {
          InOrderSnoc(lane.Line(), got, t.msg.update);
        } else {
          InOrderPrefix(lane.Line(), got, |lane.sent|);
          assert lane.Line()[..|lane.sent|] == lane.sent;
        }
      }
    }
  }

  lemma InOrderNone()
    ensures InOrder([], [])
  {
  }

  // ----- the loss, told from the messages alone -----

  /** The hold of `p` that message `b` begins stands at `n`: until then `p` has had nothing but updates
      less than 50 ms later. */
  ghost predicate Standing(ts: seq<Taken>, b: nat, n: nat, p: Player)
    requires n <= |ts|
  {
    && b < n && ts[b].msg == BeginHold(p)
    && forall k | b < k < n && ts[k].msg.source == p :: ts[k].msg.Update? && ts[k].now < ts[b].now + 50
  }

  ghost predicate Between(ts: seq<Taken>, b: nat, n: nat, p: Player)
    requires n <= |ts|
  {
    exists i :: b < i < n && ts[i].msg.source == p
  }

  /** Message `n` of `p` is a hold or a drop, and an update came since the standing hold began. */
  ghost predicate Overtakes(ts: seq<Taken>, n: nat, p: Player)
    requires n < |ts|
  {
    && ts[n].msg.source == p && (ts[n].msg.BeginHold? || ts[n].msg.Dropped?)
    && exists b :: Standing(ts, b, n, p) && Between(ts, b, n, p)
  }

  lemma StandingSnoc(ts: seq<Taken>, b: nat, p: Player)
    requires ts != []
    ensures var n := |ts| - 1; var t := ts[n];
            && (b < n ==> (Standing(ts, b, n + 1, p) <==>
                  Standing(ts[..n], b, n, p) &&
                      (t.msg.source != p || (t.msg.Update? && t.now < ts[b].now + HANDOFF_HOLD))))
            && (b == n ==> (Standing(ts, b, n + 1, p) <==> t.msg == BeginHold(p)))
  {
    var n := |ts| - 1;
    assert forall k :: 0 <= k < n ==> ts[..n][k] == ts[k];
  }

  lemma BetweenSnoc(ts: seq<Taken>, b: nat, p: Player)
    requires ts != [] && b < |ts|
    ensures var n := |ts| - 1; Between(ts, b, n + 1, p) <==>
              (b < n && (Between(ts[..n], b, n, p) || ts[n].msg.source == p))
  {
    var n := |ts| - 1;
    assert forall k :: 0 <= k < n ==> ts[..n][k] == ts[k];
    if b < n && Between(ts[..n], b, n, p) {
      var i :| b < i < n && ts[..n][i].msg.source == p;
      assert ts[i].msg.source == p;
    }
    if Between(ts, b, n + 1, p) {
      var i :| b < i < n + 1 && ts[i].msg.source == p;
      if i < n {
        assert ts[..n][i].msg.source == p;
      }
    }
  }

  /** The loop holds a buffer for `p` exactly while a hold stands, and something in it exactly when
      something came since. */
  lemma {:induction false} HoldStands(ts: seq<Taken>, p: Player) returns (b: nat)
    ensures After(ts, p).hold.None? ==> forall c :: !Standing(ts, c, |ts|, p)
    ensures After(ts, p).hold.Some? ==>
              && Standing(ts, b, |ts|, p) && After(ts, p).hold.value.started == ts[b].now
              && (After(ts, p).Held() != [] <==> Between(ts, b, |ts|, p))
  {
    hide Standing, Between;
    b := 0;
    if ts == [] {
      NoneStands(p);
    } else {
      var n := |ts| - 1;
      b := HoldStands(ts[..n], p);
      var t, lane := ts[n], After(ts[..n], p);
      if lane.hold.Some? {
        StandingInside(ts[..n], b, p);
        StandingSnoc(ts, b, p);
        BetweenSnoc(ts, b, p);
      }
      if t.msg == BeginHold(p) {
        b := n;
        StandingSnoc(ts, n, p);
        BetweenSnoc(ts, n, p);
      } else if After(ts, p).hold.None? {
        forall c: nat ensures !Standing(ts, c, |ts|, p) {
          if c < n && Standing(ts[..n], c, n, p) {
            StandingUnique(ts[..n], b, c, p);
          }
          StandingSnoc(ts, c, p);
          StandingInside(ts, c, p);
        }
      }
    }
  }

  lemma StandingUnique(ts: seq<Taken>, b: nat, c: nat, p: Player)
    requires Standing(ts, b, |ts|, p) && Standing(ts, c, |ts|, p)
    ensures b == c
  {
  }

  lemma NoneStands(p: Player)
    ensures forall c :: !Standing([], c, 0, p)
  {
  }

  lemma StandingInside(ts: seq<Taken>, b: nat, p: Player)
    ensures Standing(ts, b, |ts|, p) ==> b < |ts|
  {
  }

  /** What is thrown away, read off the messages. */
  lemma ThrownExactly(ts: seq<Taken>, n: nat, p: Player)
    requires n < |ts|
    ensures Thrown(ts[..n + 1], p) > 0 <==> Overtakes(ts, n, p)
  {
    hide Standing, Between, After;
    var before := ts[..n];
    assert ts[..n + 1][..n] == before;
    var b := HoldStands(before, p);
    forall c ensures Standing(before, c, n, p) <==> Standing(ts, c, n, p) {
      PrefixStands(ts, c, n, p);
    }
    if After(before, p).hold.Some? {
      PrefixStands(ts, b, n, p);
      forall c | Standing(before, c, n, p) ensures c == b {
        StandingUnique(before, b, c, p);
      }
    }
  }

  lemma PrefixStands(ts: seq<Taken>, b: nat, n: nat, p: Player)
    requires n <= |ts|
    ensures Standing(ts[..n], b, n, p) <==> Standing(ts, b, n, p)
    ensures Between(ts[..n], b, n, p) <==> Between(ts, b, n, p)
  {
    assert forall k :: 0 <= k < n ==> ts[..n][k] == ts[k];
    if Between(ts, b, n, p) {
      var i :| b < i < n && ts[i].msg.source == p;
      assert ts[..n][i].msg.source == p;
    }
  }

  /** Some message throws held updates of `p` away. */
  ghost predicate Loses(ts: seq<Taken>, p: Player) {
    exists n :: 0 <= n < |ts| && Overtakes(ts, n, p)
  }

  lemma {:induction false} LostUpTo(ts: seq<Taken>, p: Player, m: nat)
    requires m <= |ts|
    ensures Lost(ts[..m], p) > 0 <==> exists n :: 0 <= n < m && Overtakes(ts, n, p)
  {
    hide Thrown, Overtakes;
    if m != 0 {
      assert ts[..m][..m - 1] == ts[..m - 1];
      LostUpTo(ts, p, m - 1);
      ThrownExactly(ts, m - 1, p);
    }
  }

  /** Nothing is lost exactly when no hold begins, and no drop arrives, after an update less than the
      hold time into a hold that still stands. */
  lemma LosslessExactly(ts: seq<Taken>, p: Player)
    ensures After(ts, p).Line() == Received(ts, p) <==> !Loses(ts, p)
  {
    hide InOrder, After, Received, Lost, Overtakes;
    LineFollowsReceived(ts, p);
    LostUpTo(ts, p, |ts|);
    assert ts[..|ts|] == ts;
    InOrderFull(After(ts, p).Line(), Received(ts, p));
  }

  /** Once a flush is taken nothing stays back, so a run without such a loss has published it all. */
  lemma FlushPublishesAll(ts: seq<Taken>, p: Player, now: nat)
    requires !Loses(ts, p)
    ensures After(ts + [Taken(FlushHold(p), now)], p).sent == Received(ts, p)
  {
    hide Overtakes;
    LosslessExactly(ts, p);
    assert (ts + [Taken(FlushHold(p), now)])[..|ts|] == ts;
  }

  /** A second commit while updates are held, as a rolled-back crossing makes, loses them. */
  lemma SecondHoldLoses(p: Player, u: Update, at: nat, again: nat)
    requires at <= again < at + HANDOFF_HOLD
    ensures var ts := [Taken(BeginHold(p), at), Taken(Msg.Update(p, u), again), Taken(BeginHold(p), again)];
            Received(ts, p) == [u] && After(ts, p).Line() == [] && Loses(ts, p)
  {
    var a, b, c := Taken(BeginHold(p), at), Taken(Msg.Update(p, u), again), Taken(BeginHold(p), again);
    assert [a, b, c][..2] == [a, b] && [a, b][..1] == [a] && [a][..0] == [];
    assert After([a], p) == Lane([], Some(Hold(at, [])));
    assert After([a, b], p).Held() == [u];
    assert Received([a], p) == [];
    assert Received([a, b], p) == Received([a, b][..1], p) + [u];
    assert Standing([a, b, c], 0, 2, p);
    assert [a, b, c][1].msg.source == p;
    assert Between([a, b, c], 0, 2, p);
    assert Overtakes([a, b, c], 2, p);
  }

  // ----- the loop -----

  function SentTo(published: seq<(Player, Update)>, p: Player): seq<Update> {
    if published == [] then []
    else
      var sent := SentTo(published[..|published| - 1], p);
      var last := published[|published| - 1];
      if last.0 == p then sent + [last.1] else sent
  }

  class Shard {
    var holds: map<Player, Hold>
    var published: seq<(Player, Update)>

    constructor ()
      ensures holds == map[] && published == []
    {
      holds, published := map[], [];
    }

    function LaneOf(p: Player): Lane
      reads this
    {
      Lane(SentTo(published, p), if p in holds then Some(holds[p]) else None)
    }

    method Publish(p: Player, u: Update)
      modifies this`published
      ensures published == old(published) + [(p, u)]
      ensures forall q :: SentTo(published, q) == old(SentTo(published, q)) + if q == p then [u] else []
    {
      ghost var before := published;
      published := published + [(p, u)];
      assert published[..|before|] == before;
    }

    method PublishAll(p: Player, us: seq<Update>)
      modifies this`published
      ensures forall q :: SentTo(published, q) == old(SentTo(published, q)) + if q == p then us else []
    {
      for i := 0 to |us|
        invariant forall q :: SentTo(published, q) == old(SentTo(published, q)) + if q == p then us[..i] else []
      {
        Publish(p, us[i]);
        assert us[..i + 1] == us[..i] + [us[i]];
      }
      assert us[..|us|] == us;
    }

    method Handle(t: Taken)
      modifies this
      ensures forall q :: LaneOf(q) == if q == t.msg.source then Step(old(LaneOf(q)), t) else old(LaneOf(q))
    {
      var p := t.msg.source;
      match t.msg {
        case Update(_, u) =>
          if p in holds && t.now < holds[p].started + HANDOFF_HOLD {
            holds := holds[p := holds[p].(buffer := holds[p].buffer + [u])];
          } else {
            if p in holds {
              var buffered := holds[p].buffer;
              holds := holds - {p};
              PublishAll(p, buffered);
            }
            Publish(p, u);
          }
        case BeginHold(_) =>
          holds := holds[p := Hold(t.now, [])];
        case FlushHold(_) =>
          if p in holds {
            var buffered := holds[p].buffer;
            holds := holds - {p};
            PublishAll(p, buffered);
          }
        case Dropped(_) =>
          holds := holds - {p};
      }
    }

    /** The forwarding loop over everything it takes. */
    method Run(ts: seq<Taken>)
      requires holds == map[] && published == []
      modifies this
      ensures forall p :: LaneOf(p) == After(ts, p)
      ensures forall p :: InOrder(SentTo(published, p) + LaneOf(p).Held(), Received(ts, p))
    {
      for i := 0 to |ts|
        invariant forall p :: LaneOf(p) == After(ts[..i], p)
      {
        assert ts[..i + 1][..i] == ts[..i];
        Handle(ts[i]);
      }
      assert ts[..|ts|] == ts;
      forall p ensures InOrder(SentTo(published, p) + LaneOf(p).Held(), Received(ts, p)) {
        LineFollowsReceived(ts, p);
      }
    }
  }
}
