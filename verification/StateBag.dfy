/** The state-bag store: last-write-wins values, and the bounded queues through which changes reach
    the network and the local handlers. */
module StateBag {
  import opened Bytes

  type Value = seq<byte>

  const MAX_REPLICATED: nat := 16384
  const MAX_DELIVERIES: nat := 4096

  /** A bag and a key in it. */
  datatype Cell = Cell(bag: string, key: string)

  /** Who wrote a value: a resource, a player, or neither known. */
  datatype Source = Source(resource: Option<string>, player: Option<nat>)

  datatype Change = Change(cell: Cell, value: Value, version: nat, replicated: bool, source: Source)

  // ----- the replication queue -----

  /** The last place among the first `n` of `queue` that changes `cell`. */
  function Pending(queue: seq<Change>, cell: Cell, n: nat): (r: Option<nat>)
    requires n <= |queue|
    ensures r.None? ==> forall i :: 0 <= i < n ==> queue[i].cell != cell
    ensures r.Some? ==> r.value < n && queue[r.value].cell == cell
    ensures r.Some? ==> forall i :: r.value < i < n ==> queue[i].cell != cell
  {
    if n == 0 then None else if queue[n - 1].cell == cell then Some(n - 1) else Pending(queue, cell, n - 1)
  }

  function Without(queue: seq<Change>, i: nat): (r: seq<Change>)
    requires i < |queue|
    ensures |r| == |queue| - 1
    ensures forall j :: 0 <= j < |r| ==> r[j] == queue[if j < i then j else j + 1]
  {
    queue[..i] + queue[i + 1..]
  }

  /** What stays when `cell` is changed: a pending change of the same cell goes; if there is none, a
      full queue gives up its oldest. */
  function Kept(queue: seq<Change>, cell: Cell): seq<Change> {
    match Pending(queue, cell, |queue|)
    case Some(i) => Without(queue, i)
    case None => if |queue| >= MAX_REPLICATED then Without(queue, 0) else queue
  }

  function Enqueued(queue: seq<Change>, c: Change): seq<Change> {
    Kept(queue, c.cell) + [c]
  }

  /** What the receivers of drained changes hold. */
  type Replica = map<Cell, Change>

  function Applied(replica: Replica, cs: seq<Change>): Replica {
    if cs == [] then replica
    else var c := cs[|cs| - 1]; Applied(replica, cs[..|cs| - 1])[c.cell := c]
  }

  /** The queue, with the history it is judged by: the replica that the drained changes make, the
      last replicated write of each cell, and the cells whose last write was given up. */
  datatype Flow = Flow(queue: seq<Change>, version: nat, replica: Replica, last: map<Cell, Change>, evicted: set<Cell>)

  datatype Step = Set(cell: Cell, value: Value, replicated: bool, source: Source) | Drain(limit: nat)

  /** Does this write push out the oldest pending change? */
  predicate Evicts(queue: seq<Change>, cell: Cell) {
    Pending(queue, cell, |queue|).None? && |queue| >= MAX_REPLICATED
  }

  function Next(f: Flow, step: Step): Flow {
    match step
    case Set(cell, value, replicated, source) =>
      var c := Change(cell, value, f.version + 1, replicated, source);
      if !replicated then f.(version := f.version + 1)
      else
        Flow(Enqueued(f.queue, c), f.version + 1, f.replica, f.last[cell := c],
             (if Evicts(f.queue, cell) then f.evicted + {f.queue[0].cell} else f.evicted) - {cell})
    case Drain(limit) =>
      var n := Min(limit, |f.queue|);
      f.(queue := f.queue[n..], replica := Applied(f.replica, f.queue[..n]))
  }

  const START: Flow := Flow([], 0, map[], map[], {})

  function Run(steps: seq<Step>): Flow {
    if steps == [] then START else Next(Run(steps[..|steps| - 1]), steps[|steps| - 1])
  }

  predicate Queued(queue: seq<Change>, cell: Cell) {
    exists i :: 0 <= i < |queue| && queue[i].cell == cell
  }

  /** Oldest first, one change per cell. */
  ghost predicate Tidy(queue: seq<Change>, version: nat) {
    && |queue| <= MAX_REPLICATED
    && (forall i, j :: 0 <= i < j < |queue| ==> queue[i].version < queue[j].version && queue[i].cell != queue[j].cell)
    && forall i :: 0 <= i < |queue| ==> queue[i].version <= version
  }

  predicate Holds(r: Replica, last: map<Cell, Change>, cell: Cell) {
    cell in r && cell in last && r[cell] == last[cell]
  }

  /** The replica is behind on `cell`, if it has it at all. */
  predicate Behind(f: Flow, cell: Cell) {
    cell in f.last && (cell in f.replica ==> f.replica[cell].version < f.last[cell].version)
  }

  /** Where the last write of `cell` is: waiting, given up, or received. */
  ghost predicate Traced(f: Flow, cell: Cell) {
    if Queued(f.queue, cell) then Behind(f, cell) && cell !in f.evicted
    else if cell in f.evicted then Behind(f, cell)
    else if cell in f.last then Holds(f.replica, f.last, cell)
    else cell !in f.replica
  }

  ghost predicate Sound(f: Flow) {
    && Tidy(f.queue, f.version)
    && InLast(f.queue, f.last)
    && (forall cell :: cell in f.last ==> f.last[cell].version <= f.version)
    && forall cell :: Traced(f, cell)
  }

  lemma WithoutTidy(queue: seq<Change>, i: nat, version: nat)
    requires Tidy(queue, version) && i < |queue|
    ensures Tidy(Without(queue, i), version)
    ensures forall cell :: Queued(Without(queue, i), cell) <==> Queued(queue, cell) && cell != queue[i].cell
  {
    var after := Without(queue, i);
    forall cell | Queued(queue, cell) && cell != queue[i].cell ensures Queued(after, cell) {
      var j :| 0 <= j < |queue| && queue[j].cell == cell;
      assert after[if j < i then j else j - 1].cell == cell;
    }
  }

  lemma KeptTidy(queue: seq<Change>, cell: Cell, version: nat)
    requires Tidy(queue, version)
    ensures Tidy(Kept(queue, cell), version) && |Kept(queue, cell)| < MAX_REPLICATED
    ensures forall i :: 0 <= i < |Kept(queue, cell)| ==> Kept(queue, cell)[i] in queue
    ensures forall x :: Queued(Kept(queue, cell), x) <==>
              Queued(queue, x) && x != cell && !(Evicts(queue, cell) && x == queue[0].cell)
  {
    hide Tidy, Without;
    TidyBound(queue, version);
    match Pending(queue, cell, |queue|) {
      case Some(i) => WithoutTidy(queue, i, version);
      case None =>
        if |queue| >= MAX_REPLICATED {
          WithoutTidy(queue, 0, version);
        }
    }
  }

  lemma TidyBound(queue: seq<Change>, version: nat)
    requires Tidy(queue, version)
    ensures |queue| <= MAX_REPLICATED
  {
  }

  lemma SnocTidy(kept: seq<Change>, c: Change, version: nat)
    requires Tidy(kept, version) && |kept| < MAX_REPLICATED && !Queued(kept, c.cell) && c.version == version + 1
    ensures Tidy(kept + [c], version + 1)
    ensures forall x :: Queued(kept + [c], x) <==> x == c.cell || Queued(kept, x)
  {
    var after := kept + [c];
    assert after[|kept|] == c;
    forall x | Queued(kept, x) ensures Queued(after, x) {
      var j :| 0 <= j < |kept| && kept[j].cell == x;
      assert after[j].cell == x;
    }
  }

  ghost predicate InLast(queue: seq<Change>, last: map<Cell, Change>) {
    forall i :: 0 <= i < |queue| ==> queue[i].cell in last && last[queue[i].cell] == queue[i]
  }

  lemma EnqueuedInLast(queue: seq<Change>, last: map<Cell, Change>, c: Change, version: nat)
    requires Tidy(queue, version) && InLast(queue, last)
    ensures InLast(Enqueued(queue, c), last[c.cell := c])
  {
    hide Tidy, Kept;
    KeptTidy(queue, c.cell, version);
    var kept := Kept(queue, c.cell);
    forall i | 0 <= i < |kept| ensures kept[i].cell in last && last[kept[i].cell] == kept[i] && kept[i].cell != c.cell {
      assert Queued(kept, kept[i].cell);
    }
  }

  lemma SetTraced(f: Flow, c: Change, x: Cell)
    requires Sound(f) && c.version == f.version + 1 && c.replicated
    ensures Traced(Next(f, Set(c.cell, c.value, true, c.source)), x)
  {
    hide Tidy, Kept, Queued;
    KeptTidy(f.queue, c.cell, f.version);
    SnocTidy(Kept(f.queue, c.cell), c, f.version);
    assert Traced(f, x);
    if Evicts(f.queue, c.cell) {
      assert Queued(f.queue, f.queue[0].cell) by { FirstQueued(f.queue); }
    }
  }

  lemma FirstQueued(queue: seq<Change>)
    requires queue != []
    ensures Queued(queue, queue[0].cell)
  {
  }

  lemma LocalSetSound(f: Flow, cell: Cell, value: Value, source: Source)
    requires Sound(f)
    ensures Sound(Next(f, Set(cell, value, false, source)))
  {
    hide Tidy, Queued;
    TidyLater(f.queue, f.version);
    forall x ensures Traced(Next(f, Set(cell, value, false, source)), x) {
      assert Traced(f, x);
    }
  }

  lemma SetSound(f: Flow, cell: Cell, value: Value, replicated: bool, source: Source)
    requires Sound(f)
    ensures Sound(Next(f, Set(cell, value, replicated, source)))
  {
    hide Kept, Queued, Tidy, Traced;
    if replicated {
      var c := Change(cell, value, f.version + 1, replicated, source);
      KeptTidy(f.queue, c.cell, f.version);
      SnocTidy(Kept(f.queue, c.cell), c, f.version);
      EnqueuedInLast(f.queue, f.last, c, f.version);
      forall x ensures Traced(Next(f, Set(cell, value, replicated, source)), x) {
        SetTraced(f, c, x);
      }
    } else {
      LocalSetSound(f, cell, value, source);
    }
  }

  lemma TidyLater(queue: seq<Change>, version: nat)
    requires Tidy(queue, version)
    ensures Tidy(queue, version + 1)
  {
  }

  /** Applying changes that are all the latest of their cells brings exactly those cells up to date. */
  lemma {:induction false} AppliedIs(replica: Replica, cs: seq<Change>, last: map<Cell, Change>, x: Cell)
    requires InLast(cs, last)
    ensures Queued(cs, x) ==> Holds(Applied(replica, cs), last, x)
    ensures !Queued(cs, x) ==> (x in Applied(replica, cs) <==> x in replica)
    ensures !Queued(cs, x) && x in replica ==> Applied(replica, cs)[x] == replica[x]
  {
    if cs != [] {
      var n := |cs| - 1;
      AppliedIs(replica, cs[..n], last, x);
      if Queued(cs, x) && cs[n].cell != x {
        var i :| 0 <= i < |cs| && cs[i].cell == x;
        assert cs[..n][i].cell == x;
      }
    }
  }

  /** Taking changes off the front parts the queued cells in two. */
  lemma SplitQueue(queue: seq<Change>, n: nat, version: nat, last: map<Cell, Change>)
    requires Tidy(queue, version) && InLast(queue, last) && n <= |queue|
    ensures Tidy(queue[n..], version) && InLast(queue[n..], last) && InLast(queue[..n], last)
    ensures forall x :: Queued(queue, x) <==> Queued(queue[..n], x) || Queued(queue[n..], x)
    ensures forall x :: Queued(queue[..n], x) ==> !Queued(queue[n..], x)
  {
    forall x | Queued(queue, x) ensures Queued(queue[..n], x) || Queued(queue[n..], x) {
      var i :| 0 <= i < |queue| && queue[i].cell == x;
      if i < n {
        assert queue[..n][i].cell == x;
      } else {
        assert queue[n..][i - n].cell == x;
      }
    }
    forall x | Queued(queue[..n], x) ensures Queued(queue, x) {
      var i :| 0 <= i < n && queue[..n][i].cell == x;
      assert queue[i].cell == x;
    }
    forall x | Queued(queue[n..], x) ensures Queued(queue, x) {
      var i :| 0 <= i < |queue| - n && queue[n..][i].cell == x;
      assert queue[n + i].cell == x;
    }
  }

  lemma DrainSound(f: Flow, limit: nat)
    requires Sound(f)
    ensures Sound(Next(f, Drain(limit)))
  {
    hide Tidy, Queued, InLast, Applied;
    var n := Min(limit, |f.queue|);
    SplitQueue(f.queue, n, f.version, f.last);
    forall x ensures Traced(Next(f, Drain(limit)), x) {
      assert Traced(f, x);
      AppliedIs(f.replica, f.queue[..n], f.last, x);
    }
  }

  lemma {:induction false} RunSound(steps: seq<Step>)
    ensures Sound(Run(steps))
  {
    hide Sound, Next;
    if steps == [] {
      StartSound();
    } else {
      RunSound(steps[..|steps| - 1]);
      match steps[|steps| - 1] {
        case Set(cell, value, replicated, source) =>
          SetSound(Run(steps[..|steps| - 1]), cell, value, replicated, source);
        case Drain(limit) => DrainSound(Run(steps[..|steps| - 1]), limit);
      }
    }
  }

  lemma StartSound()
    ensures Sound(START)
  {
  }

  /** The last replicated write of `cell`, and the number of writes made. */
  function LastWrite(steps: seq<Step>, cell: Cell): (r: Option<Change>)
    ensures r.Some? ==> r.value.cell == cell
  {
    if steps == [] then None
    else
      var s := steps[|steps| - 1];
      if s.Set? && s.replicated && s.cell == cell then Some(Change(cell, s.value, Writes(steps), true, s.source))
      else LastWrite(steps[..|steps| - 1], cell)
  }

  function Writes(steps: seq<Step>): nat {
    if steps == [] then 0 else Writes(steps[..|steps| - 1]) + if steps[|steps| - 1].Set? then 1 else 0
  }

  lemma {:induction false} LastIsLastWrite(steps: seq<Step>, cell: Cell)
    ensures Run(steps).version == Writes(steps)
    ensures LastWrite(steps, cell) == if cell in Run(steps).last then Some(Run(steps).last[cell]) else None
  {
    hide Enqueued, Evicts, Applied;
    if steps != [] {
      LastIsLastWrite(steps[..|steps| - 1], cell);
    }
  }

  lemma QueuedInLast(queue: seq<Change>, last: map<Cell, Change>, cell: Cell)
    requires InLast(queue, last) && Queued(queue, cell)
    ensures cell in last
  {
  }

  function Cells(queue: seq<Change>): set<Cell> {
    set i | 0 <= i < |queue| :: queue[i].cell
  }

  lemma {:induction false} CellsCount(queue: seq<Change>, version: nat)
    requires Tidy(queue, version)
    ensures |Cells(queue)| == |queue|
  {
    if queue != [] {
      var n := |queue| - 1;
      CellsCount(queue[..n], version);
      assert Cells(queue) == Cells(queue[..n]) + {queue[n].cell};
    }
  }

  lemma CountSubset(a: set<Cell>, b: set<Cell>)
    requires a <= b
    ensures |a| <= |b|
  {
    assert b == a + (b - a);
  }

  // ----- what is given up, told from the writes -----

  /** The other cells that had a replicated write since the last one of `cell`. */
  function OthersSince(steps: seq<Step>, cell: Cell): set<Cell> {
    if steps == [] then {}
    else
      var before, s := OthersSince(steps[..|steps| - 1], cell), steps[|steps| - 1];
      if !s.Set? || !s.replicated then before
      else if s.cell == cell then {} else before + {s.cell}
  }

  /** What follows a kept change in the queue is what followed it before, give or take the new cell. */
  lemma KeptBehind(queue: seq<Change>, cell: Cell, j: nat) returns (i: nat)
    requires j < |Kept(queue, cell)|
    ensures i < |queue| && queue[i] == Kept(queue, cell)[j]
    ensures Cells(Kept(queue, cell)[j + 1..]) + {cell} == Cells(queue[i + 1..]) + {cell}
  {
    hide Kept, Cells, Without;
    var dropped := KeptIs(queue, cell);
    match dropped {
      case Some(r) => i := DropBehind(queue, r, j, cell);
      case None => i := j;
    }
  }

  lemma KeptIs(queue: seq<Change>, cell: Cell) returns (dropped: Option<nat>)
    ensures dropped.None? ==> Kept(queue, cell) == queue
    ensures dropped.Some? ==>
              var r := dropped.value;
              r < |queue| && (r == 0 || queue[r].cell == cell) && Kept(queue, cell) == Without(queue, r)
  {
    hide Pending, Without;
    dropped := Pending(queue, cell, |queue|);
    if dropped.None? && |queue| >= MAX_REPLICATED {
      dropped := Some(0);
    }
  }

  lemma DropBehind(queue: seq<Change>, r: nat, j: nat, cell: Cell) returns (i: nat)
    requires r < |queue| && j < |queue| - 1 && (r == 0 || cell == queue[r].cell)
    ensures i < |queue| && queue[i] == Without(queue, r)[j]
    ensures Cells(Without(queue, r)[j + 1..]) + {cell} == Cells(queue[i + 1..]) + {cell}
  {
    hide Cells;
    WithoutBehind(queue, r, j);
    i := if j < r then j else j + 1;
  }

  lemma WithoutBehind(queue: seq<Change>, r: nat, j: nat)
    requires r < |queue| && j < |queue| - 1
    ensures j >= r ==> Without(queue, r)[j + 1..] == queue[j + 2..]
    ensures j < r ==> Cells(Without(queue, r)[j + 1..]) + {queue[r].cell} == Cells(queue[j + 1..])
  {
    var after := Without(queue, r);
    if j < r {
      var x, y := after[j + 1..], queue[j + 1..];
      forall c | c in Cells(y) && c != queue[r].cell ensures c in Cells(x) {
        var k :| 0 <= k < |y| && y[k].cell == c;
        assert x[if k + j + 1 < r then k else k - 1].cell == c;
      }
      forall c | c in Cells(x) ensures c in Cells(y) {
        var k :| 0 <= k < |x| && x[k].cell == c;
        assert y[if k + j + 1 < r then k else k + 1].cell == c;
      }
      assert y[r - j - 1] == queue[r];
    }
  }

  lemma CellsSnoc(queue: seq<Change>, c: Change)
    ensures Cells(queue + [c]) == Cells(queue) + {c.cell}
  {
    var after := queue + [c];
    assert after[|queue|] == c;
    forall x | x in Cells(queue) ensures x in Cells(after) {
      var i :| 0 <= i < |queue| && queue[i].cell == x;
      assert after[i].cell == x;
    }
  }

  /** Behind a queued change stand exactly the cells written since. */
  lemma {:induction false} SinceIsBehind(steps: seq<Step>, i: nat)
    requires i < |Run(steps).queue|
    ensures OthersSince(steps, Run(steps).queue[i].cell) == Cells(Run(steps).queue[i + 1..])
    decreases |steps|, 1
  {
    hide Kept, Applied, Evicts, Cells, Tidy;
    var f, s := Run(steps[..|steps| - 1]), steps[|steps| - 1];
    match s {
      case Drain(limit) =>
        var n := Min(limit, |f.queue|);
        SinceIsBehind(steps[..|steps| - 1], n + i);
        assert f.queue[n..][i + 1..] == f.queue[n + i + 1..];
      case Set(cell, value, replicated, source) =>
        if !replicated {
          SinceIsBehind(steps[..|steps| - 1], i);
        } else {
          EnqueuedBehind(steps, i);
        }
    }
  }

  lemma {:induction false} EnqueuedBehind(steps: seq<Step>, i: nat)
    requires steps != [] && steps[|steps| - 1].Set? && steps[|steps| - 1].replicated && i < |Run(steps).queue|
    ensures OthersSince(steps, Run(steps).queue[i].cell) == Cells(Run(steps).queue[i + 1..])
    decreases |steps|, 0
  {
    hide Kept, Applied, Evicts, Tidy;
    var before, s := steps[..|steps| - 1], steps[|steps| - 1];
    var f, c := Run(before), Change(s.cell, s.value, Run(before).version + 1, true, s.source);
    var kept := Kept(f.queue, s.cell);
    assert Run(steps).queue == kept + [c];
    if i < |kept| {
      RunSound(before);
      KeptTidy(f.queue, s.cell, f.version);
      assert Queued(kept, kept[i].cell);
      var k := KeptBehind(f.queue, s.cell, i);
      SinceIsBehind(before, k);
      assert (kept + [c])[i + 1..] == kept[i + 1..] + [c];
      CellsSnoc(kept[i + 1..], c);
    } else {
      assert (kept + [c])[i + 1..] == [];
    }
  }

  /** A write that was given up has been outrun by as many other cells as the queue has places. */
  lemma {:induction false} GivenUpIsOutrun(steps: seq<Step>, cell: Cell)
    requires cell in Run(steps).evicted
    ensures |OthersSince(steps, cell)| >= MAX_REPLICATED
  {
    hide Applied, Enqueued, Evicts, Cells;
    var before, s := steps[..|steps| - 1], steps[|steps| - 1];
    var f := Run(before);
    if cell in f.evicted {
      GivenUpIsOutrun(before, cell);
      CountSubset(OthersSince(before, cell), OthersSince(steps, cell));
    } else {
      RunSound(before);
      EvictionCount(f, s.cell);
      SinceIsBehind(before, 0);
    }
  }

  lemma EvictionCount(f: Flow, cell: Cell)
    requires Sound(f) && Evicts(f.queue, cell)
    ensures f.queue != [] && |Cells(f.queue[1..]) + {cell}| >= MAX_REPLICATED
  {
    hide Traced, Pending;
    SplitQueue(f.queue, 1, f.version, f.last);
    CellsCount(f.queue[1..], f.version);
    assert cell !in Cells(f.queue[1..]);
  }

  /** The queue stays within its bound, oldest first with one change per cell; and once what is queued
      has been drained, receivers hold the last replicated write of a cell, version and all, exactly
      when it had been handed out already or fewer other cells than the queue has places were written
      since. */
  lemma DrainedExactly(steps: seq<Step>, cell: Cell)
    ensures var f := Run(steps);
            && Tidy(f.queue, f.version)
            && (LastWrite(steps, cell).Some? ==>
                  (Has(Applied(f.replica, f.queue), LastWrite(steps, cell).value) <==>
                     Has(f.replica, LastWrite(steps, cell).value) || |OthersSince(steps, cell)| < 16384))
            && (LastWrite(steps, cell).None? ==> cell !in Applied(f.replica, f.queue))
  {
    hide Tidy, Queued, Run, LastWrite, Applied, OthersSince, Cells;
    var f := Run(steps);
    RunSound(steps);
    LastIsLastWrite(steps, cell);
    AppliedIs(f.replica, f.queue, f.last, cell);
    assert Traced(f, cell);
    if Queued(f.queue, cell) {
      QueuedInLast(f.queue, f.last, cell);
      QueuedIsNotOutrun(steps, cell);
    } else if cell in f.evicted {
      GivenUpIsOutrun(steps, cell);
    }
  }

  predicate Has(r: Replica, c: Change) {
    c.cell in r && r[c.cell] == c
  }

  lemma QueuedIsNotOutrun(steps: seq<Step>, cell: Cell)
    requires Queued(Run(steps).queue, cell)
    ensures |OthersSince(steps, cell)| < MAX_REPLICATED
  {
    hide Run, OthersSince, Cells;
    var f := Run(steps);
    RunSound(steps);
    var i :| 0 <= i < |f.queue| && f.queue[i].cell == cell;
    SinceIsBehind(steps, i);
    SplitQueue(f.queue, i + 1, f.version, f.last);
    CellsCount(f.queue[i + 1..], f.version);
  }

  /** A write that pushes another out comes from a run with more written cells than the queue holds. */
  lemma EvictionNeedsMany(f: Flow, cell: Cell)
    requires Sound(f) && Evicts(f.queue, cell)
    ensures |f.last.Keys + {cell}| > MAX_REPLICATED
  {
    hide Traced, Pending;
    CellsCount(f.queue, f.version);
    assert cell !in Cells(f.queue);
    CountSubset(Cells(f.queue) + {cell}, f.last.Keys + {cell});
  }

  /** With no more distinct cells than the queue has places, nothing is ever given up. */
  lemma {:induction false} NothingGivenUp(steps: seq<Step>)
    requires |Run(steps).last.Keys| <= MAX_REPLICATED
    ensures Run(steps).evicted == {}
  {
    hide Sound, Evicts, Enqueued, Applied;
    if steps != [] {
      var f, s := Run(steps[..|steps| - 1]), steps[|steps| - 1];
      RunSound(steps[..|steps| - 1]);
      CountSubset(f.last.Keys, Run(steps).last.Keys);
      NothingGivenUp(steps[..|steps| - 1]);
      if s.Set? && s.replicated && Evicts(f.queue, s.cell) {
        EvictionNeedsMany(f, s.cell);
      }
    }
  }

  // ----- deliveries to handlers -----

  datatype Handler = Handler(resource: string, callback: nat, keyFilter: Option<string>, bagFilter: Option<string>)

  datatype Delivery = Delivery(callback: nat, change: Change)

  predicate Matches(h: Handler, cell: Cell) {
    (h.keyFilter.None? || h.keyFilter.value == cell.key) && (h.bagFilter.None? || h.bagFilter.value == cell.bag)
  }

  /** The newest of `ds` that a resource's queue has room for. */
  function Latest(ds: seq<Delivery>): seq<Delivery> {
    if |ds| > 4096 then ds[|ds| - 4096..] else ds
  }

  function Pushed(queue: seq<Delivery>, d: Delivery): seq<Delivery> {
    (if |queue| >= MAX_DELIVERIES then queue[1..] else queue) + [d]
  }

  /** Dropping the oldest at each push keeps just the newest of everything pushed. */
  lemma PushedIsLatest(all: seq<Delivery>, d: Delivery)
    ensures Pushed(Latest(all), d) == Latest(all + [d])
  {
  }

  /** What the handlers of `resource` get, in the order in which handlers are visited. */
  function DeliveriesTo(handlers: map<nat, Handler>, order: seq<nat>, resource: string, change: Change): seq<Delivery>
    requires forall c :: c in order ==> c in handlers
  {
    if order == [] then []
    else
      var before := DeliveriesTo(handlers, order[..|order| - 1], resource, change);
      var h := handlers[order[|order| - 1]];
      if h.resource == resource then before + [Delivery(h.callback, change)] else before
  }

  /** Every handler whose filters, where it has any, name the cell's key and bag; once each. */
  ghost predicate Visits(handlers: map<nat, Handler>, order: seq<nat>, cell: Cell) {
    && (forall c :: c in order <==>
          && c in handlers
          && (handlers[c].keyFilter == None || handlers[c].keyFilter == Some(cell.key))
          && (handlers[c].bagFilter == None || handlers[c].bagFilter == Some(cell.bag)))
    && NoRepeats(order)
  }

  lemma OneMoreVisit(handlers: map<nat, Handler>, order: seq<nat>, c: nat, resource: string, change: Change,
                     was: seq<Delivery>)
    requires c in handlers && forall x :: x in order ==> x in handlers
    ensures var before := Latest(was + DeliveriesTo(handlers, order, resource, change));
            Latest(was + DeliveriesTo(handlers, order + [c], resource, change)) ==
              if handlers[c].resource != resource then before
              else Pushed(before, Delivery(handlers[c].callback, change))
  {
    hide Latest, Pushed;
    assert (order + [c])[..|order|] == order;
    var ds, d := DeliveriesTo(handlers, order, resource, change), Delivery(handlers[c].callback, change);
    assert was + (ds + [d]) == was + ds + [d];
    PushedIsLatest(was + ds, d);
  }

  lemma NoVisits(handlers: map<nat, Handler>, resource: string, change: Change, was: seq<Delivery>)
    requires |was| <= MAX_DELIVERIES
    ensures Latest(was + DeliveriesTo(handlers, [], resource, change)) == was
  {
  }

  // ----- the store -----

  class Store {
    var bags: map<string, map<string, (Value, nat)>>
    var handlers: map<nat, Handler>
    var pending: map<string, seq<Delivery>>
    var replicated: seq<Change>
    var version: nat
    /** The history that the replication queue is judged by. */
    ghost var flow: Flow

    ghost predicate Valid()
      reads this
    {
      flow.queue == replicated && flow.version == version && Sound(flow) && Bounded()
    }

    ghost predicate Bounded()
      reads this`pending
    {
      forall r :: r in pending ==> |pending[r]| <= MAX_DELIVERIES
    }

    constructor ()
      ensures Valid() && flow == START && bags == map[] && handlers == map[] && pending == map[]
    {
      bags, handlers, pending, replicated, version := map[], map[], map[], [], 0;
      flow := START;
      new;
      StartSound();
    }

    function Get(cell: Cell): Option<(Value, nat)>
      reads this
    {
      if cell.bag in bags && cell.key in bags[cell.bag] then Some(bags[cell.bag][cell.key]) else None
    }

    function QueueOf(resource: string): seq<Delivery>
      reads this
    {
      if resource in pending then pending[resource] else []
    }

    /** Stores a value under a new version, tells the matching handlers, and queues a replicated write. */
    method Set(cell: Cell, value: Value, replicate: bool, source: Source)
        returns (change: Change, ghost order: seq<nat>)
      requires Valid()
      modifies this
      ensures Valid() && handlers == old(handlers)
      ensures change == Change(cell, value, old(version) + 1, replicate, source)
      ensures flow == Next(old(flow), Step.Set(cell, value, replicate, source))
      ensures forall x :: Get(x) == if x == cell then Some((value, version)) else old(Get(x))
      ensures Visits(handlers, order, cell)
      ensures forall r :: QueueOf(r) == Latest(old(QueueOf(r)) + DeliveriesTo(handlers, order, r, change))
    {
      hide Sound, Enqueued, Latest, DeliveriesTo, Visits, Bounded, Evicts;
      version := version + 1;
      change := Change(cell, value, version, replicate, source);
      var values := if cell.bag in bags then bags[cell.bag] else map[];
      bags := bags[cell.bag := values[cell.key := (value, version)]];
      order := Notify(change);
      if replicate {
        replicated := Enqueue(replicated, change);
      }
      SetSound(flow, cell, value, replicate, source);
      flow := Next(flow, Step.Set(cell, value, replicate, source));
    }

    method Notify(change: Change) returns (ghost order: seq<nat>)
      requires Bounded()
      modifies this`pending
      ensures Bounded()
      ensures Visits(handlers, order, change.cell)
      ensures forall r :: QueueOf(r) == Latest(old(QueueOf(r)) + DeliveriesTo(handlers, order, r, change))
    {
      hide Latest, Pushed, DeliveriesTo;
      order := [];
      var todo := set c | c in handlers && Matches(handlers[c], change.cell);
      ghost var all := todo;
      forall r ensures Latest(QueueOf(r) + DeliveriesTo(handlers, [], r, change)) == QueueOf(r) {
        NoVisits(handlers, r, change, QueueOf(r));
      }
      while todo != {}
        invariant todo <= all
        invariant forall c :: c in order <==> c in all && c !in todo
        invariant forall i, j :: 0 <= i < j < |order| ==> order[i] != order[j]
        invariant Bounded()
        invariant forall r :: QueueOf(r) == Latest(old(QueueOf(r)) + DeliveriesTo(handlers, order, r, change))
        decreases todo
      {
        var c :| c in todo;
        todo := todo - {c};
        forall r
          ensures Latest(old(QueueOf(r)) + DeliveriesTo(handlers, order + [c], r, change)) ==
                  if handlers[c].resource != r then QueueOf(r)
                  else Pushed(QueueOf(r), Delivery(handlers[c].callback, change))
        {
          OneMoreVisit(handlers, order, c, r, change, old(QueueOf(r)));
        }
        Push(handlers[c].resource, Delivery(handlers[c].callback, change));
        order := order + [c];
      }
    }

    method Push(resource: string, d: Delivery)
      requires Bounded()
      modifies this`pending
      ensures Bounded()
      ensures forall r :: QueueOf(r) == if r == resource then Pushed(old(QueueOf(r)), d) else old(QueueOf(r))
    {
      var queue := if resource in pending then pending[resource] else [];
      if |queue| >= MAX_DELIVERIES {
        queue := queue[1..];
      }
      pending := pending[resource := queue + [d]];
    }

    method DrainDeliveries(resource: string, limit: nat) returns (out: seq<Delivery>)
      requires Valid()
      modifies this`pending
      ensures Valid()
      ensures out + QueueOf(resource) == old(QueueOf(resource)) && |out| == Min(limit, |old(QueueOf(resource))|)
      ensures forall r :: r != resource ==> QueueOf(r) == old(QueueOf(r))
    {
      if resource !in pending {
        return [];
      }
      var n := Min(limit, |pending[resource]|);
      out := pending[resource][..n];
      var rest := pending[resource][n..];
      pending := if rest == [] then pending - {resource} else pending[resource := rest];
    }

    method DrainReplicated(limit: nat) returns (out: seq<Change>)
      requires Valid()
      modifies this`replicated, this`flow
      ensures Valid() && flow == Next(old(flow), Drain(limit))
      ensures out + replicated == old(replicated) && |out| == Min(limit, |old(replicated)|)
    {
      var n := Min(limit, |replicated|);
      out := replicated[..n];
      replicated := replicated[n..];
      DrainSound(flow, limit);
      flow := Next(flow, Drain(limit));
    }
  }

  /** Searches the queue from its end for a pending change of the same cell. */
  method Enqueue(queue: seq<Change>, c: Change) returns (r: seq<Change>)
    ensures r == Enqueued(queue, c)
  {
    var i := |queue|;
    while i > 0 && queue[i - 1].cell != c.cell
      invariant 0 <= i <= |queue|
      invariant forall j :: i <= j < |queue| ==> queue[j].cell != c.cell
    {
      i := i - 1;
    }
    if i > 0 {
      r := queue[..i - 1] + queue[i..];
    } else if |queue| >= MAX_REPLICATED {
      r := queue[1..];
      assert r == Without(queue, 0);
    } else {
      r := queue;
    }
    r := r + [c];
  }
}
