/**
 The exclusive-lease server (python/rkmoon_hid/server.py:23-138) as a step system: one step is what runs
 between two awaits. Connections, failures, cancellations, retries and stop interleave freely; so do
 kvmd's answers and the delivery of websocket events.
 */
module HidServer {
  import opened Common
  import opened Events
  import opened HidLease
  import Flush
  import Motion

  /** Where a connection handler stands. Unleased: failed or ended before a lease existed. */
  datatype Phase = Refused | Greeting | Serving | Flushing | Releasing | Unleased

  /**
   The task in self.recovery. The retry task looks at stopping when it starts and after each failed attempt,
   then sleeps or makes its last attempt; the neutralizer looks, tries, and pauses after a failure.
   */
  datatype Recovery = Idle | Starting | Sleeping | Retrying(last: bool) | Pausing | Neutralizing

  /** What the server object and its tasks decide ownership by. */
  datatype Desk = Desk(busy: bool, stopping: bool, handlers: map<nat, Phase>, recovery: Recovery, streamed: bool)

  /**
   down is what is down on the target. orphans is what is unhandled of websockets already given up. tainted is
   set while something may be, or may yet come, down that nothing tracks.
   */
  datatype Target = Target(orphans: seq<Op>, down: set<Input>, tainted: bool)

  /** lease is the current or latest lease; link is its websocket, if it has one, with what kvmd has yet to handle. */
  datatype World = World(desk: Desk, lease: HidLease.State, link: Flush.Link, target: Target)

  datatype Action =
    | Connect(id: nat, allowed: bool)
    | Refuse(id: nat)
    | Greeted(id: nat, websocket: bool)
    | NotGreeted(id: nat)
    | Apply(id: nat, absolute: bool, e: Event, fate: Fate)
    | End(id: nat, entered: bool, drained: bool)
    | Flushed(id: nat, timedOut: bool)
    | ReleaseTry(id: nat, input: Input, fate: Fate)
    | ReleaseReturns(id: nat)
    | LeaveUnleased(id: nat)
    | Cancel(id: nat, entered: bool, drained: bool)
    | Stop
    | Wake
    | RetryTry(input: Input, fate: Fate)
    | RetryReturns
    | Neutralize(acknowledged: set<Input>, landed: set<Input>)
    | Arrive
    | LoopReads
    | LoopStops
    | DeliverOrphan(index: nat)

  /** Every key and button neutralize() releases. */
  function Everything(keys: Keys): set<Input> {
    (set v | v in keys :: KeyInput(keys[v])) + (set b | 1 <= b <= 5 :: ButtonInput(b))
  }

  /** The process start: neutralize at once, or refuse leases until that succeeds. */
  function Boot(keys: Keys, down: set<Input>, acknowledged: set<Input>, landed: set<Input>): World {
    var neutral := Everything(keys) <= acknowledged;
    World(Desk(!neutral, false, map[], if neutral then Idle else Pausing, false), FRESH, Flush.NONE,
          Target([], down - acknowledged - landed, !neutral))
  }

  predicate Owning(p: Phase) {
    p != Refused
  }

  predicate At(s: World, id: nat, p: Phase) {
    id in s.desk.handlers && s.desk.handlers[id] == p
  }

  function Move(s: World, id: nat, p: Phase): World {
    s.(desk := s.desk.(handlers := s.desk.handlers[id := p]))
  }

  function Without(s: World, id: nat): World {
    s.(desk := s.desk.(handlers := s.desk.handlers - {id}))
  }

  function Recover(s: World, r: Recovery): World {
    s.(desk := s.desk.(recovery := r))
  }

  function Free(s: World): World {
    s.(desk := s.desk.(busy := false, recovery := Idle))
  }

  ghost predicate NoPress(ops: seq<Op>) {
    forall op | op in ops :: !op.Press?
  }

  /** The lease with what its websocket still has to bring. */
  function Full(s: World): HidLease.State {
    s.lease.(log := s.link.wire)
  }

  /** Whether giving up this websocket now leaves nothing that the lease does not track. */
  ghost predicate Harmless(s: World) {
    s.target.down <= Tracked(s.lease) && NoPress(s.link.wire)
  }

  /** The websocket is closed; what is unhandled may still arrive. */
  function Closed(s: World): World {
    s.(link := Flush.NONE, target := s.target.(orphans := s.target.orphans + s.link.wire))
  }

  /** The websocket is given up without a confirmed flush. */
  ghost function GiveUp(s: World): World {
    var t := Closed(s);
    t.(target := t.target.(tainted := s.target.tainted || !Harmless(s)))
  }

  /** A request on a dead websocket fails before it is written, and a failed one kills it. */
  function Effective(s: World, fate: Fate): Fate {
    if s.desk.streamed && !s.link.alive then Raised(0) else fate
  }

  /** What a lease step asks of kvmd: written to the websocket, or done at once over HTTP. */
  function Asked(s: World, lease: HidLease.State, fate: Fate): World {
    if s.desk.streamed then
      s.(lease := lease.(log := []), link := s.link.(wire := lease.log, alive := s.link.alive && fate.Done?))
    else Happened(s, lease)
  }

  /** The requests in the lease's log happen on the target. */
  function Happened(s: World, lease: HidLease.State): World {
    s.(lease := lease.(log := []), target := s.target.(down := Held(s.target.down, lease.log)))
  }

  /** A new lease, not yet with a websocket. */
  function Taken(s: World, id: nat): World {
    var desk := s.desk.(handlers := s.desk.handlers[id := Greeting], busy := true, streamed := false);
    World(desk, FRESH, Flush.NONE, s.target)
  }

  /** The handshake is done. */
  function Admitted(s: World, id: nat, websocket: bool): World {
    s.(desk := s.desk.(handlers := s.desk.handlers[id := Serving], streamed := websocket),
       link := if websocket then Flush.OPEN else Flush.NONE)
  }

  /** The end of serving: flush() begins, or without a websocket release(). */
  function Ended(s: World, id: nat, entered: bool, drained: bool): World {
    if s.desk.streamed then Move(s, id, Flushing).(link := Flush.Begin(s.link, entered, drained))
    else Move(s, id, Releasing).(lease := Cleared(s.lease))
  }

  /** flush() has returned or raised, and the websocket is closed. */
  ghost function AfterFlush(s: World, id: nat, confirmed: bool): World {
    var t := if confirmed then Closed(s) else GiveUp(s);
    Move(t, id, Releasing).(lease := Cleared(t.lease))
  }

  /** release() is over: with nothing left tracked the next lease may come, otherwise the retry task takes over. */
  function ReleaseOver(s: World, otherwise: Recovery): World {
    if Tracked(s.lease) == {} then Free(s) else Recover(s, otherwise)
  }

  /** close() cancels a handler; one that is cleaning up abandons its lease. */
  ghost function Cancelled(s: World, id: nat, entered: bool, drained: bool): World
    requires id in s.desk.handlers
  {
    match s.desk.handlers[id]
    case Greeting => Move(s, id, Unleased)
    case Serving => Ended(s, id, entered, drained)
    case Flushing => Without(GiveUp(s), id)
    case _ => Without(s, id)
  }

  /** The recovery task goes on after its start, sleep or pause. */
  function Woken(s: World): World {
    match s.desk.recovery
    case Starting => Recover(s, if s.desk.stopping then Retrying(true) else Sleeping)
    case Sleeping => Recover(s, Retrying(false))
    case Pausing => Recover(s, if s.desk.stopping then Idle else Neutralizing)
    case _ => s
  }

  function Neutralized(keys: Keys, s: World, acknowledged: set<Input>, landed: set<Input>): World {
    var left := s.target.down - acknowledged - landed;
    if Everything(keys) <= acknowledged then Free(s).(target := s.target.(down := left, tainted := false))
    else Recover(s, Pausing).(target := s.target.(down := left))
  }

  ghost function Step(keys: Keys, s: World, a: Action): World {
    match a
    case Connect(id, allowed) =>
      if id in s.desk.handlers then s
      else if !allowed || s.desk.busy || s.desk.stopping then Move(s, id, Refused)
      else Taken(s, id)
    case Refuse(id) => if At(s, id, Refused) then Without(s, id) else s
    case Greeted(id, websocket) => if At(s, id, Greeting) then Admitted(s, id, websocket) else s
    case NotGreeted(id) => if At(s, id, Greeting) then Move(s, id, Unleased) else s
    case Apply(id, absolute, e, fate) =>
      if At(s, id, Serving) && Parsed(e, keys) then
        var f := Effective(s, fate);
        Asked(s, Applied(Full(s), keys, absolute, e, f), f)
      else s
    case End(id, entered, drained) => if At(s, id, Serving) then Ended(s, id, entered, drained) else s
    case Flushed(id, timedOut) =>
      if !At(s, id, Flushing) || (s.link.waiting && Flush.Finish(s.link, timedOut).1.None?) then s
      else AfterFlush(s, id, Flush.Confirmed(s.link, timedOut))
    case ReleaseTry(id, input, fate) =>
      if At(s, id, Releasing) then Happened(s, ReleaseOne(s.lease, input, fate)) else s
    case ReleaseReturns(id) => if At(s, id, Releasing) then ReleaseOver(Without(s, id), Starting) else s
    case LeaveUnleased(id) => if At(s, id, Unleased) then Free(Without(s, id)) else s
    case Cancel(id, entered, drained) =>
      if s.desk.stopping && id in s.desk.handlers then Cancelled(s, id, entered, drained) else s
    case Stop => s.(desk := s.desk.(stopping := true))
    case Wake => Woken(s)
    case RetryTry(input, fate) =>
      if s.desk.recovery.Retrying? then Happened(s, ReleaseOne(s.lease, input, fate)) else s
    case RetryReturns =>
      if s.desk.recovery == Retrying(false) then ReleaseOver(s, if s.desk.stopping then Retrying(true) else Sleeping)
      else if s.desk.recovery == Retrying(true) then Recover(s, Idle)
      else s
    case Neutralize(acknowledged, landed) =>
      if s.desk.recovery.Neutralizing? then Neutralized(keys, s, acknowledged, landed) else s
    case Arrive =>
      if s.link.wire == [] then s
      else s.(link := Flush.Handle(s.link), target := s.target.(down := Perform(s.target.down, s.link.wire[0])))
    case LoopReads => s.(link := Flush.ReadPong(s.link))
    case LoopStops => s.(link := Flush.LoopEnds(s.link))
    case DeliverOrphan(i) =>
      if i < |s.target.orphans| then
        s.(target := s.target.(down := Perform(s.target.down, s.target.orphans[i]),
                               orphans := s.target.orphans[..i] + s.target.orphans[i + 1..]))
      else s
  }

  ghost function Run(keys: Keys, boot: World, actions: seq<Action>): World {
    if actions == [] then boot
    else Step(keys, Run(keys, boot, actions[..|actions| - 1]), actions[|actions| - 1])
  }

  // ----- ownership -----

  /** The handlers that hold the lease or are on the way to or from it. */
  function Owners(d: Desk): set<nat> {
    set id | id in d.handlers && Owning(d.handlers[id])
  }

  predicate Recovering(d: Desk) {
    d.recovery != Idle
  }

  /** Never two owners; busy while there is one; and, unless stopping, only then. */
  ghost predicate Exclusive(d: Desk) {
    && (forall i, j | i in Owners(d) && j in Owners(d) :: i == j)
    && (Recovering(d) ==> Owners(d) == {})
    && (Owners(d) != {} || Recovering(d) ==> d.busy)
    && (d.busy && !d.stopping ==> Owners(d) != {} || Recovering(d))
    && (d.recovery == Retrying(true) ==> d.stopping)
  }

  lemma OwnersMoved(s: Desk, t: Desk, id: nat, p: Phase)
    requires t.handlers == s.handlers[id := p]
    ensures Owners(t) == if Owning(p) then Owners(s) + {id} else Owners(s) - {id}
    ensures id in Owners(s) <==> id in s.handlers && Owning(s.handlers[id])
  {
  }

  lemma OwnersLeft(s: Desk, t: Desk, id: nat)
    requires t.handlers == s.handlers - {id}
    ensures Owners(t) == Owners(s) - {id}
    ensures id in Owners(s) <==> id in s.handlers && Owning(s.handlers[id])
  {
  }

  lemma OwnerBusy(s: Desk, id: nat)
    requires Exclusive(s) && id in s.handlers && Owning(s.handlers[id])
    ensures s.busy && s.recovery == Idle
    ensures forall other | other in s.handlers && Owning(s.handlers[other]) :: other == id
  {
    assert id in Owners(s);
    forall other | other in s.handlers && Owning(s.handlers[other])
      ensures other == id
    {
      assert other in Owners(s);
    }
  }

  lemma NoOwnerWhileRecovering(s: Desk, id: nat)
    requires Exclusive(s) && Recovering(s) && id in s.handlers
    ensures !Owning(s.handlers[id])
  {
    assert id !in Owners(s);
  }

  /** An owner that moves on still owns. */
  lemma MovedExclusive(s: Desk, t: Desk, id: nat, p: Phase)
    requires Exclusive(s) && id in s.handlers && Owning(s.handlers[id]) && Owning(p)
    requires t.handlers == s.handlers[id := p]
    requires t.recovery == s.recovery && t.busy == s.busy && t.stopping == s.stopping
    ensures Exclusive(t)
  {
    OwnersMoved(s, t, id, p);
    assert Owners(t) == Owners(s);
    hide Owners;
  }

  /** The owner leaves: the lock is released, handed to the retry task, or kept because the server is stopping. */
  lemma LeftExclusive(s: Desk, t: Desk, id: nat)
    requires Exclusive(s) && id in s.handlers && Owning(s.handlers[id])
    requires t.handlers == s.handlers - {id} && t.stopping == s.stopping
    requires (t.recovery == Idle && (!t.busy || t.stopping)) || (t.recovery == Starting && t.busy)
    ensures Exclusive(t)
  {
    OwnersLeft(s, t, id);
    assert Owners(t) == {};
    hide Owners;
  }

  /** A refused connection comes or goes. */
  lemma RefusedExclusive(s: Desk, t: Desk, id: nat)
    requires Exclusive(s) && (id in s.handlers ==> s.handlers[id] == Refused)
    requires t.handlers == s.handlers[id := Refused] || t.handlers == s.handlers - {id}
    requires t.recovery == s.recovery && t.busy == s.busy && t.stopping == s.stopping
    ensures Exclusive(t)
  {
    assert Owners(t) == Owners(s);
    hide Owners;
  }

  /** The free lock is taken. */
  lemma TakenExclusive(s: Desk, t: Desk, id: nat)
    requires Exclusive(s) && !s.busy && !s.stopping && t.handlers == s.handlers[id := Greeting]
    requires t.busy && !t.stopping && t.recovery == s.recovery
    ensures Exclusive(t)
  {
    OwnersMoved(s, t, id, Greeting);
    hide Owners;
  }

  /** The recovery task moves on, or ends with the lock free or the server stopping. */
  lemma RecoveredExclusive(s: Desk, t: Desk)
    requires Exclusive(s) && Recovering(s) && t.handlers == s.handlers && t.stopping == s.stopping
    requires (Recovering(t) && t.busy) || (!Recovering(t) && (!t.busy || t.stopping))
    requires t.recovery == Retrying(true) ==> t.stopping
    ensures Exclusive(t)
  {
    assert Owners(t) == Owners(s);
    hide Owners;
  }

  lemma StoppingExclusive(s: Desk)
    requires Exclusive(s)
    ensures Exclusive(s.(stopping := true))
  {
    assert Owners(s.(stopping := true)) == Owners(s);
    hide Owners;
  }

  // ----- neutrality -----

  /** A lease whose websocket, if any, is open. */
  predicate WithLease(p: Phase) {
    p.Serving? || p.Flushing?
  }

  predicate WithoutLease(p: Phase) {
    p.Greeting? || p.Unleased?
  }

  /** Nothing is unhandled on a websocket where the lease is not, or no longer, using one. */
  ghost predicate Placed(d: Desk, wire: seq<Op>) {
    wire != [] ==>
      && d.busy && d.streamed && d.recovery == Idle
      && forall id | id in d.handlers && Owning(d.handlers[id]) :: WithLease(d.handlers[id])
  }

  /** No flush has begun while the lease is serving. */
  ghost predicate Unflushed(d: Desk, waiting: bool) {
    forall id | id in d.handlers && d.handlers[id] == Serving :: !waiting
  }

  /** Without an owner, or with one that has no lease yet, nothing is tracked. */
  ghost predicate Unheld(d: Desk, tracked: set<Input>) {
    && (!d.busy ==> tracked == {})
    && (forall id | id in d.handlers && WithoutLease(d.handlers[id]) :: tracked == {})
  }

  /** Unless tainted, all that is or may come down is tracked. */
  ghost predicate Covered(s: World) {
    !s.target.tainted ==> Sound(s.target.down, Full(s)) && NoPress(s.target.orphans)
  }

  predicate AtBoot(r: Recovery) {
    r.Neutralizing? || r.Pausing?
  }

  /** Until neutralization succeeds nothing else has touched the target. */
  ghost predicate Untouched(keys: Keys, s: World) {
    AtBoot(s.desk.recovery) ==> s.target.down <= Everything(keys) && s.lease == FRESH && s.target.orphans == []
  }

  ghost predicate Inv(keys: Keys, s: World) {
    && Exclusive(s.desk) && Placed(s.desk, s.link.wire) && Unflushed(s.desk, s.link.waiting)
    && Unheld(s.desk, Tracked(s.lease)) && s.lease.log == [] && Flush.LinkInv(s.link)
    && Covered(s) && Untouched(keys, s)
  }

  lemma {:induction false} HeldOfCons(down: set<Input>, op: Op, ops: seq<Op>)
    ensures Held(down, [op] + ops) == Held(Perform(down, op), ops)
  {
    if ops == [] {
      assert ([op] + ops)[..0] == [];
    } else {
      assert ([op] + ops)[..|ops|] == [op] + ops[..|ops| - 1];
      HeldOfCons(down, op, ops[..|ops| - 1]);
    }
  }

  lemma {:induction false} HeldMonotone(a: set<Input>, b: set<Input>, ops: seq<Op>)
    requires a <= b
    ensures Held(a, ops) <= Held(b, ops)
  {
    if ops != [] {
      HeldMonotone(a, b, ops[..|ops| - 1]);
    }
  }

  lemma TrackedOf(s: HidLease.State, t: HidLease.State)
    requires s.possiblyDown == t.possiblyDown && s.buttons == t.buttons
    ensures Tracked(s) == Tracked(t)
  {
  }

  lemma NoneIsFine()
    ensures Flush.LinkInv(Flush.NONE) && Flush.LinkInv(Flush.OPEN) && Tracked(FRESH) == {}
  {
  }

  /** The parts of the invariant make it up. */
  lemma Assembled(keys: Keys, s: World)
    requires Exclusive(s.desk) && Placed(s.desk, s.link.wire) && Unflushed(s.desk, s.link.waiting)
    requires Unheld(s.desk, Tracked(s.lease)) && s.lease.log == [] && Flush.LinkInv(s.link)
    requires Covered(s) && Untouched(keys, s)
    ensures Inv(keys, s)
  {
  }

  /** Only the desk changes, and only so that what holds of the rest goes on holding. */
  lemma DeskInv(keys: Keys, s: World, t: World)
    requires Inv(keys, s) && t == s.(desk := t.desk) && Exclusive(t.desk)
    requires Placed(t.desk, s.link.wire) && Unflushed(t.desk, s.link.waiting) && Unheld(t.desk, Tracked(s.lease))
    requires AtBoot(t.desk.recovery) ==> AtBoot(s.desk.recovery)
    ensures Inv(keys, t)
  {
    hide Exclusive, Placed, Unflushed, Unheld, Tracked, Sound, NoPress, Everything;
    assert Full(t) == Full(s);
  }

  /** A refused connection comes or goes. */
  lemma RefusedInv(keys: Keys, s: World, t: World, id: nat)
    requires t == Move(s, id, Refused) || t == Without(s, id)
    requires Inv(keys, s) && (id in s.desk.handlers ==> s.desk.handlers[id] == Refused)
    ensures Inv(keys, t)
  {
    RefusedExclusive(s.desk, t.desk, id);
    hide Exclusive, Tracked, Covered, Untouched;
    DeskInv(keys, s, t);
  }

  lemma ConnectInv(keys: Keys, s: World, id: nat, allowed: bool)
    requires Inv(keys, s)
    ensures Inv(keys, Step(keys, s, Connect(id, allowed)))
  {
    if id in s.desk.handlers {
    } else if !allowed || s.desk.busy || s.desk.stopping {
      hide Inv;
      RefusedInv(keys, s, Move(s, id, Refused), id);
    } else {
      TakenInv(keys, s, id);
    }
  }

  /** With the lock free, nothing tracked and nothing unhandled, a fresh lease starts with nothing down. */
  lemma TakenInv(keys: Keys, s: World, id: nat)
    requires Inv(keys, s) && !s.desk.busy && !s.desk.stopping
    ensures Inv(keys, Taken(s, id))
  {
    var t := Taken(s, id);
    TakenExclusive(s.desk, t.desk, id);
    assert s.desk.recovery == Idle;
    hide Exclusive;
    NoneIsFine();
    hide Tracked, Flush.LinkInv, NoPress;
    assert Full(t) == FRESH;
  }

  /** A handler that owns moves on, nothing else changing. */
  lemma OnwardInv(keys: Keys, s: World, id: nat, p: Phase)
    requires Inv(keys, s) && id in s.desk.handlers && Owning(s.desk.handlers[id]) && Owning(p)
    requires Placed(s.desk.(handlers := s.desk.handlers[id := p]), s.link.wire)
    requires Unflushed(s.desk.(handlers := s.desk.handlers[id := p]), s.link.waiting)
    requires WithoutLease(p) ==> Tracked(s.lease) == {}
    ensures Inv(keys, Move(s, id, p))
  {
    MovedExclusive(s.desk, Move(s, id, p).desk, id, p);
    hide Exclusive, Tracked, Covered, Untouched, Placed, Unflushed;
    DeskInv(keys, s, Move(s, id, p));
  }

  lemma NotGreetedInv(keys: Keys, s: World, id: nat)
    requires Inv(keys, s) && At(s, id, Greeting)
    ensures Inv(keys, Move(s, id, Unleased))
  {
    OwnerBusy(s.desk, id);
    hide Exclusive, Tracked, Covered, Untouched;
    assert s.link.wire == [];
    OnwardInv(keys, s, id, Unleased);
  }

  lemma GreetedInv(keys: Keys, s: World, id: nat, websocket: bool)
    requires Inv(keys, s) && At(s, id, Greeting)
    ensures Inv(keys, Admitted(s, id, websocket))
  {
    hide Exclusive, Owners, Tracked, Flush.LinkInv, Sound, NoPress, Everything;
    var t := Admitted(s, id, websocket);
    OwnerBusy(s.desk, id);
    MovedExclusive(s.desk, t.desk, id, Serving);
    NoneIsFine();
    assert Placed(t.desk, t.link.wire) && Unflushed(t.desk, t.link.waiting) && Unheld(t.desk, Tracked(t.lease));
    assert s.link.wire == [] && Full(t) == Full(s) && Covered(t) && Untouched(keys, t);
    Assembled(keys, t);
  }

  lemma {:induction false} NoPingsAdded(log: seq<Op>, ops: seq<Op>)
    requires Ping !in ops
    ensures Flush.Pings(log + ops) == Flush.Pings(log)
  {
    if ops == [] {
      assert log + ops == log;
    } else {
      NoPingsAdded(log, ops[..|ops| - 1]);
      assert (log + ops)[..|log + ops| - 1] == log + ops[..|ops| - 1];
    }
  }

  lemma IssueSendsNoPing(s: HidLease.State, ops: seq<Op>, fate: Fate)
    requires Ping !in ops
    ensures Flush.Pings(Issue(s, ops, fate).log) == Flush.Pings(s.log)
  {
    NoPingsAdded(s.log, ops);
    if fate.Raised? && fate.landed < |ops| {
      NoPingsAdded(s.log, ops[..fate.landed]);
    }
  }

  /** Whatever the tracked sets, the same requests add the same to the log. */
  lemma IssueIgnoresSets(log: seq<Op>, ops: seq<Op>, fate: Fate)
    requires Ping !in ops
    ensures forall t: HidLease.State :: t.log == log ==> Flush.Pings(Issue(t, ops, fate).log) == Flush.Pings(log)
  {
    forall t: HidLease.State | t.log == log
      ensures Flush.Pings(Issue(t, ops, fate).log) == Flush.Pings(log)
    {
      IssueSendsNoPing(t, ops, fate);
    }
  }

  /** apply() never sends a ping. */
  lemma AppliedSendsNoPing(s: HidLease.State, keys: Keys, absolute: bool, e: Event, fate: Fate)
    requires Parsed(e, keys)
    ensures Flush.Pings(Applied(s, keys, absolute, e, fate).log) == Flush.Pings(s.log)
  {
    hide Issue, Backed, Flush.Pings, Motion.Parts, MoveOps, RollOps;
    match e
    case Key(vk, down) =>
      IssueIgnoresSets(s.log, [if down then Press(KeyInput(keys[vk])) else Lift(KeyInput(keys[vk]))], fate);
    case Button(b, down) =>
      IssueIgnoresSets(s.log, [if down then Press(ButtonInput(b)) else Lift(ButtonInput(b))], fate);
    case Move(dx, dy) =>
      MotionOps(Motion.Parts(dx, dy));
      IssueSendsNoPing(s, MoveOps(Motion.Parts(dx, dy)), fate);
    case Absolute(x, y) => IssueSendsNoPing(s, [MoveTo(x, y)], fate);
    case Wheel(dx, dy) =>
      var x, y := Motion.Notches(s.wheelX + dx), Motion.Notches(s.wheelY + dy);
      MotionOps(Motion.Parts(x, y));
      IssueIgnoresSets(s.log, RollOps(Motion.Parts(x, y)), fate);
  }

  /** A serving lease's step keeps all in place, if it keeps what is down tracked and sends no ping. */
  lemma AskedInv(keys: Keys, s: World, id: nat, lease: HidLease.State, fate: Fate)
    requires Inv(keys, s) && At(s, id, Serving)
    requires Sound(s.target.down, Full(s)) ==> Sound(s.target.down, lease)
    requires Flush.Pings(lease.log) == Flush.Pings(s.link.wire)
    ensures Inv(keys, Asked(s, lease, fate))
  {
    var t := Asked(s, lease, fate);
    OwnerBusy(s.desk, id);
    hide Exclusive;
    TrackedOf(lease, t.lease);
    TrackedOf(lease, Full(t));
    hide Tracked, Everything, NoPress, Flush.Pings, Flush.Trues;
    if !s.desk.streamed {
      assert s.link.wire == [];
    }
  }

  lemma ApplyInv(keys: Keys, s: World, id: nat, absolute: bool, e: Event, fate: Fate)
    requires Inv(keys, s)
    ensures Inv(keys, Step(keys, s, Apply(id, absolute, e, fate)))
  {
    hide Inv, Applied, Asked, Sound;
    if At(s, id, Serving) && Parsed(e, keys) {
      var f := Effective(s, fate);
      if Sound(s.target.down, Full(s)) {
        ApplyKeepsSound(s.target.down, Full(s), keys, absolute, e, f);
      }
      AppliedSendsNoPing(Full(s), keys, absolute, e, f);
      AskedInv(keys, s, id, Applied(Full(s), keys, absolute, e, f), f);
    }
  }

  /** One release request keeps the rest covered. */
  lemma ReleasedInv(keys: Keys, s: World, input: Input, fate: Fate)
    requires Inv(keys, s) && s.link.wire == [] && !AtBoot(s.desk.recovery) && s.desk.busy
    requires forall id | id in s.desk.handlers :: !WithoutLease(s.desk.handlers[id])
    ensures Inv(keys, Happened(s, ReleaseOne(s.lease, input, fate)))
  {
    hide Exclusive, Everything, NoPress, Flush.LinkInv, Placed, Unflushed;
    var lease := ReleaseOne(s.lease, input, fate);
    var t := Happened(s, lease);
    assert Full(s) == s.lease;
    if Sound(s.target.down, s.lease) {
      ReleaseOneKeepsSound(s.target.down, s.lease, input, fate);
    }
    hide ReleaseOne;
    TrackedOf(lease, Full(t));
    hide Tracked;
  }

  lemma ReleaseTryInv(keys: Keys, s: World, id: nat, input: Input, fate: Fate)
    requires Inv(keys, s) && At(s, id, Releasing)
    ensures Inv(keys, Happened(s, ReleaseOne(s.lease, input, fate)))
  {
    OwnerBusy(s.desk, id);
    hide Exclusive, Happened, ReleaseOne, Tracked;
    ReleasedInv(keys, s, input, fate);
  }

  lemma RetryTryInv(keys: Keys, s: World, input: Input, fate: Fate)
    requires Inv(keys, s) && s.desk.recovery.Retrying?
    ensures Inv(keys, Happened(s, ReleaseOne(s.lease, input, fate)))
  {
    forall id | id in s.desk.handlers
      ensures !Owning(s.desk.handlers[id])
    {
      NoOwnerWhileRecovering(s.desk, id);
    }
    assert s.desk.busy;
    hide Exclusive, Happened, ReleaseOne, Tracked;
    ReleasedInv(keys, s, input, fate);
  }

  /** Giving up the websocket either leaves everything tracked or taints. */
  lemma GiveUpCovered(s: World)
    requires Covered(s) && s.lease.log == []
    ensures Covered(GiveUp(s)) && GiveUp(s).link == Flush.NONE && GiveUp(s).lease == s.lease
    ensures GiveUp(s).desk == s.desk && GiveUp(s).target.down == s.target.down
    ensures !s.target.tainted ==> (GiveUp(s).target.tainted <==> !Harmless(s))
  {
    TrackedOf(s.lease, Full(GiveUp(s)));
    hide Tracked;
  }

  /** Closing the websocket after a confirmed flush leaves nothing behind: everything has been handled. */
  lemma ClosedCovered(s: World, timedOut: bool)
    requires Covered(s) && Flush.LinkInv(s.link) && Flush.Confirmed(s.link, timedOut)
    ensures s.link.wire == [] && Closed(s) == s.(link := Flush.NONE) && Covered(Closed(s))
  {
    Flush.FinishKeeps(s.link, timedOut);
    assert s.target.orphans + [] == s.target.orphans;
    assert Full(Closed(s)) == Full(s);
    hide Tracked;
  }

  /** release() begins by clearing what is not tracked. */
  lemma ClearedCovered(u: World, t: World)
    requires Covered(u) && t.target == u.target && t.link == u.link && t.lease == Cleared(u.lease)
    ensures Covered(t) && Tracked(t.lease) == Tracked(u.lease)
  {
    TrackedOf(Full(u), Full(t));
    TrackedOf(u.lease, t.lease);
    hide Tracked;
  }

  /** From a closed websocket, or without one, to release(). */
  lemma ToReleasing(keys: Keys, s: World, u: World, id: nat)
    requires Inv(keys, s) && id in s.desk.handlers && WithLease(s.desk.handlers[id])
    requires Covered(u) && u.desk == s.desk && u.lease == s.lease && u.link.wire == []
    requires u.link == Flush.NONE || u.link == s.link
    ensures Inv(keys, Move(u, id, Releasing).(lease := Cleared(u.lease)))
  {
    hide Exclusive, Owners, Tracked, Covered, Flush.LinkInv, Everything;
    var t := Move(u, id, Releasing).(lease := Cleared(u.lease));
    OwnerBusy(s.desk, id);
    MovedExclusive(s.desk, t.desk, id, Releasing);
    ClearedCovered(u, t);
    NoneIsFine();
    assert Untouched(keys, t);
    hide Untouched;
    assert Placed(t.desk, t.link.wire) && Unflushed(t.desk, t.link.waiting) && Unheld(t.desk, Tracked(t.lease));
    Assembled(keys, t);
  }

  lemma FlushedInv(keys: Keys, s: World, id: nat, timedOut: bool)
    requires Inv(keys, s)
    ensures Inv(keys, Step(keys, s, Flushed(id, timedOut)))
  {
    if At(s, id, Flushing) && !(s.link.waiting && Flush.Finish(s.link, timedOut).1.None?) {
      if Flush.Confirmed(s.link, timedOut) {
        ClosedCovered(s, timedOut);
        hide Inv, Closed, Covered, Flush.Finish;
        ToReleasing(keys, s, Closed(s), id);
      } else {
        GiveUpCovered(s);
        hide Inv, GiveUp, Covered, Flush.Finish;
        ToReleasing(keys, s, GiveUp(s), id);
      }
    }
  }

  lemma PingHoldsNothing(down: set<Input>, ops: seq<Op>)
    ensures Held(down, ops + [Ping]) == Held(down, ops)
  {
    HeldOfSnoc(down, ops, Ping);
  }

  /** flush() begins. */
  lemma FlushBegins(keys: Keys, s: World, id: nat, entered: bool, drained: bool)
    requires Inv(keys, s) && At(s, id, Serving) && s.desk.streamed
    ensures Inv(keys, Move(s, id, Flushing).(link := Flush.Begin(s.link, entered, drained)))
  {
    var t := Move(s, id, Flushing).(link := Flush.Begin(s.link, entered, drained));
    OwnerBusy(s.desk, id);
    MovedExclusive(s.desk, t.desk, id, Flushing);
    hide Exclusive;
    Flush.BeginKeeps(s.link, entered, drained);
    PingHoldsNothing(s.target.down, s.link.wire);
    TrackedOf(Full(s), Full(t));
    assert t.link.wire == s.link.wire || t.link.wire == s.link.wire + [Ping];
    hide Tracked, Everything, NoPress, Flush.LinkInv, Held, Flush.Begin;
  }

  /** flush() begins, or release() without a websocket. */
  lemma EndedInv(keys: Keys, s: World, id: nat, entered: bool, drained: bool)
    requires Inv(keys, s) && At(s, id, Serving)
    ensures Inv(keys, Ended(s, id, entered, drained))
  {
    if s.desk.streamed {
      hide Inv;
      FlushBegins(keys, s, id, entered, drained);
    } else {
      assert s.link.wire == [];
      assert Covered(s);
      hide Inv, Covered;
      ToReleasing(keys, s, s, id);
    }
  }

  /** The owner leaves with nothing unhandled; the lock is freed only with nothing tracked. */
  lemma OwnerLeaves(keys: Keys, s: World, t: World, id: nat)
    requires Inv(keys, s) && id in s.desk.handlers && Owning(s.desk.handlers[id]) && s.link.wire == []
    requires t == s.(desk := t.desk) && t.desk.handlers == s.desk.handlers - {id} && t.desk.stopping == s.desk.stopping
    requires || (!t.desk.busy && t.desk.recovery == Idle) || (t.desk.busy && t.desk.recovery == Starting)
             || (t.desk.busy && t.desk.recovery == Idle && t.desk.stopping)
    requires !t.desk.busy ==> Tracked(s.lease) == {}
    ensures Inv(keys, t)
  {
    OwnerBusy(s.desk, id);
    LeftExclusive(s.desk, t.desk, id);
    hide Exclusive, Tracked, Covered, Untouched;
    DeskInv(keys, s, t);
  }

  lemma ReleaseReturnsInv(keys: Keys, s: World, id: nat)
    requires Inv(keys, s) && At(s, id, Releasing)
    ensures Inv(keys, ReleaseOver(Without(s, id), Starting))
  {
    OwnerBusy(s.desk, id);
    assert s.link.wire == [];
    hide Inv, Exclusive, Tracked;
    OwnerLeaves(keys, s, ReleaseOver(Without(s, id), Starting), id);
  }

  lemma LeaveUnleasedInv(keys: Keys, s: World, id: nat)
    requires Inv(keys, s) && At(s, id, Unleased)
    ensures Inv(keys, Free(Without(s, id)))
  {
    OwnerBusy(s.desk, id);
    assert s.link.wire == [] && Tracked(s.lease) == {};
    hide Inv, Exclusive, Tracked;
    OwnerLeaves(keys, s, Free(Without(s, id)), id);
  }

  /** The websocket given up while its handler stays. */
  lemma GivenUpInv(keys: Keys, s: World, id: nat)
    requires Inv(keys, s) && At(s, id, Flushing)
    ensures Inv(keys, GiveUp(s))
  {
    GiveUpCovered(s);
    OwnerBusy(s.desk, id);
    NoneIsFine();
    hide GiveUp, Exclusive, Tracked, Covered, Everything, Flush.LinkInv;
  }

  lemma CancelledInv(keys: Keys, s: World, id: nat, entered: bool, drained: bool)
    requires Inv(keys, s) && s.desk.stopping && id in s.desk.handlers
    ensures Inv(keys, Cancelled(s, id, entered, drained))
  {
    var p := s.desk.handlers[id];
    if p == Refused {
      hide Inv;
      RefusedInv(keys, s, Without(s, id), id);
    } else {
      OwnerBusy(s.desk, id);
      if p == Greeting {
        hide Inv;
        NotGreetedInv(keys, s, id);
      } else if p == Serving {
        hide Inv, Ended;
        EndedInv(keys, s, id, entered, drained);
      } else if p == Flushing {
        GivenUpInv(keys, s, id);
        assert GiveUp(s).desk == s.desk && GiveUp(s).link.wire == [];
        hide Inv, GiveUp, Tracked;
        OwnerLeaves(keys, GiveUp(s), Without(GiveUp(s), id), id);
      } else {
        assert s.link.wire == [];
        hide Inv, Tracked;
        OwnerLeaves(keys, s, Without(s, id), id);
      }
    }
  }

  /** The recovery task moves on or ends; it frees the lock only with nothing tracked. */
  lemma RecoveryInv(keys: Keys, s: World, t: World)
    requires Inv(keys, s) && Recovering(s.desk)
    requires t == s.(desk := t.desk) && t.desk.handlers == s.desk.handlers && t.desk.stopping == s.desk.stopping
    requires (Recovering(t.desk) && t.desk.busy) || (!Recovering(t.desk) && (!t.desk.busy || t.desk.stopping))
    requires t.desk.recovery == Retrying(true) ==> t.desk.stopping
    requires AtBoot(t.desk.recovery) ==> AtBoot(s.desk.recovery)
    requires !t.desk.busy ==> Tracked(s.lease) == {}
    ensures Inv(keys, t)
  {
    RecoveredExclusive(s.desk, t.desk);
    hide Exclusive, Tracked, Covered, Untouched;
    DeskInv(keys, s, t);
  }

  lemma NeutralizedInv(keys: Keys, s: World, acknowledged: set<Input>, landed: set<Input>)
    requires Inv(keys, s) && s.desk.recovery.Neutralizing?
    ensures Inv(keys, Neutralized(keys, s, acknowledged, landed))
  {
    hide Exclusive, Owners, Tracked, Everything, Flush.LinkInv;
    var t := Neutralized(keys, s, acknowledged, landed);
    NoneIsFine();
    assert s.desk.busy by {
      BusyWhileRecovering(s.desk);
    }
    assert s.link.wire == [];
    RecoveredExclusive(s.desk, t.desk);
    assert Full(t) == FRESH && s.target.down <= Everything(keys);
    assert Unheld(t.desk, Tracked(t.lease)) && Placed(t.desk, t.link.wire) && Unflushed(t.desk, t.link.waiting);
    hide Placed, Unflushed, Unheld;
    assert Covered(t) && Untouched(keys, t);
    Assembled(keys, t);
  }

  lemma BusyWhileRecovering(d: Desk)
    requires Exclusive(d) && Recovering(d)
    ensures d.busy
  {
  }

  lemma StopInv(keys: Keys, s: World)
    requires Inv(keys, s)
    ensures Inv(keys, s.(desk := s.desk.(stopping := true)))
  {
    StoppingExclusive(s.desk);
    hide Exclusive, Tracked, Covered, Untouched;
    DeskInv(keys, s, s.(desk := s.desk.(stopping := true)));
  }

  /** kvmd handles a frame. */
  lemma ArriveInv(keys: Keys, s: World)
    requires Inv(keys, s) && s.link.wire != []
    ensures Inv(keys, Step(keys, s, Arrive))
  {
    var t := Step(keys, s, Arrive);
    Flush.HandleKeeps(s.link);
    TrackedOf(Full(s), Full(t));
    HeldOfCons(s.target.down, s.link.wire[0], s.link.wire[1..]);
    assert [s.link.wire[0]] + s.link.wire[1..] == s.link.wire;
    assert !AtBoot(s.desk.recovery);
    hide Exclusive, Tracked, Everything, NoPress, Held, Flush.LinkInv;
    assert Covered(t) && Untouched(keys, t) && Placed(t.desk, t.link.wire);
    hide Step, Covered, Untouched, Placed;
    Assembled(keys, t);
  }

  /** The read loop takes an answer or ends. */
  lemma ReadInv(keys: Keys, s: World, link: Flush.Link)
    requires Inv(keys, s) && (link == Flush.ReadPong(s.link) || link == Flush.LoopEnds(s.link))
    ensures Inv(keys, s.(link := link))
  {
    Flush.ReadPongKeeps(s.link);
    Flush.LoopEndsKeeps(s.link);
    hide Flush.ReadPong, Flush.LoopEnds, Flush.LinkInv, Exclusive, Tracked, Sound, NoPress, Everything;
    assert Full(s.(link := link)) == Full(s);
    Assembled(keys, s.(link := link));
  }

  lemma OrphanInv(keys: Keys, s: World, i: nat)
    requires Inv(keys, s)
    ensures Inv(keys, Step(keys, s, DeliverOrphan(i)))
  {
    if i < |s.target.orphans| {
      var t := Step(keys, s, DeliverOrphan(i));
      if NoPress(s.target.orphans) {
        assert s.target.orphans[i] in s.target.orphans;
        assert t.target.down <= s.target.down;
        HeldMonotone(t.target.down, s.target.down, s.link.wire);
        assert NoPress(t.target.orphans);
      }
      assert Full(t) == Full(s);
      hide Exclusive, Tracked, Everything, NoPress, Held, Flush.LinkInv;
    }
  }

  /** Steps of the recovery task. */
  lemma RecoveryStepInv(keys: Keys, s: World, a: Action)
    requires Inv(keys, s) && (a.Wake? || a.RetryReturns?)
    ensures Inv(keys, Step(keys, s, a))
  {
    var t := Step(keys, s, a);
    if t != s {
      assert Recovering(s.desk) && s.desk.busy && (s.desk.recovery == Retrying(true) ==> s.desk.stopping);
      hide Inv, Tracked;
      RecoveryInv(keys, s, t);
    }
  }

  lemma StepInv(keys: Keys, s: World, a: Action)
    requires Inv(keys, s)
    ensures Inv(keys, Step(keys, s, a))
  {
    hide Inv, Taken, Admitted, Ended, AfterFlush, Cancelled, Happened, Asked, Woken, Neutralized, ReleaseOver, Free;
    match a
    case Connect(id, allowed) => ConnectInv(keys, s, id, allowed);
    case Refuse(id) => if At(s, id, Refused) { RefusedInv(keys, s, Without(s, id), id); }
    case Greeted(id, websocket) => if At(s, id, Greeting) { GreetedInv(keys, s, id, websocket); }
    case NotGreeted(id) => if At(s, id, Greeting) { NotGreetedInv(keys, s, id); }
    case Apply(id, absolute, e, fate) => ApplyInv(keys, s, id, absolute, e, fate);
    case End(id, entered, drained) => if At(s, id, Serving) { EndedInv(keys, s, id, entered, drained); }
    case Flushed(id, timedOut) => FlushedInv(keys, s, id, timedOut);
    case ReleaseTry(id, input, fate) => if At(s, id, Releasing) { ReleaseTryInv(keys, s, id, input, fate); }
    case ReleaseReturns(id) => if At(s, id, Releasing) { ReleaseReturnsInv(keys, s, id); }
    case LeaveUnleased(id) => if At(s, id, Unleased) { LeaveUnleasedInv(keys, s, id); }
    case Cancel(id, entered, drained) =>
      if s.desk.stopping && id in s.desk.handlers { CancelledInv(keys, s, id, entered, drained); }
    case Stop => StopInv(keys, s);
    case Wake => RecoveryStepInv(keys, s, a);
    case RetryTry(input, fate) => if s.desk.recovery.Retrying? { RetryTryInv(keys, s, input, fate); }
    case RetryReturns => RecoveryStepInv(keys, s, a);
    case Neutralize(acknowledged, landed) =>
      if s.desk.recovery.Neutralizing? { NeutralizedInv(keys, s, acknowledged, landed); }
    case Arrive => if s.link.wire != [] { ArriveInv(keys, s); }
    case LoopReads => ReadInv(keys, s, Flush.ReadPong(s.link));
    case LoopStops => ReadInv(keys, s, Flush.LoopEnds(s.link));
    case DeliverOrphan(i) => OrphanInv(keys, s, i);
  }

  lemma BootInv(keys: Keys, down: set<Input>, acknowledged: set<Input>, landed: set<Input>)
    requires down <= Everything(keys)
    ensures Inv(keys, Boot(keys, down, acknowledged, landed))
  {
    hide Everything;
    NoneIsFine();
    hide Tracked, Flush.LinkInv;
    assert Owners(Boot(keys, down, acknowledged, landed).desk) == {};
    assert Full(Boot(keys, down, acknowledged, landed)) == FRESH;
  }

  lemma {:induction false} ReachableInv(keys: Keys, boot: World, actions: seq<Action>)
    requires Inv(keys, boot)
    ensures Inv(keys, Run(keys, boot, actions))
  {
    hide Inv, Step;
    if actions != [] {
      ReachableInv(keys, boot, actions[..|actions| - 1]);
      StepInv(keys, Run(keys, boot, actions[..|actions| - 1]), actions[|actions| - 1]);
    }
  }

  /**
   In every reachable state there is at most one owner, be it a connection handler, the retry task or the
   startup neutralizer; the server is busy whenever there is one and, unless it is stopping, only then.
   */
  lemma OneOwner(keys: Keys, down: set<Input>, acknowledged: set<Input>, landed: set<Input>, actions: seq<Action>)
    requires down <= Everything(keys)
    ensures var d := Run(keys, Boot(keys, down, acknowledged, landed), actions).desk;
            && (forall i, j | i in d.handlers && j in d.handlers ::
                  Owning(d.handlers[i]) && Owning(d.handlers[j]) ==> i == j)
            && (forall i | i in d.handlers && Owning(d.handlers[i]) :: d.busy && d.recovery == Idle)
            && (d.recovery != Idle ==> d.busy)
            && (d.busy && !d.stopping ==> d.recovery != Idle || exists i :: i in d.handlers && Owning(d.handlers[i]))
  {
    var boot := Boot(keys, down, acknowledged, landed);
    var s := Run(keys, boot, actions);
    BootInv(keys, down, acknowledged, landed);
    ReachableInv(keys, boot, actions);
    assert Exclusive(s.desk);
    hide Run, Boot, Everything, Inv;
    forall i | i in s.desk.handlers && Owning(s.desk.handlers[i])
      ensures s.desk.busy && s.desk.recovery == Idle
      ensures forall j | j in s.desk.handlers && Owning(s.desk.handlers[j]) :: j == i
    {
      OwnerBusy(s.desk, i);
    }
    if Owners(s.desk) != {} {
      var i :| i in Owners(s.desk);
      assert Owning(s.desk.handlers[i]);
    }
  }

  /**
   Whenever the server takes leases, nothing of the previous lease is tracked any more, and, unless a
   websocket was given up with something it could still leave down, nothing is down on the target.
   */
  lemma NeutralBetweenLeases(keys: Keys, down: set<Input>, acknowledged: set<Input>, landed: set<Input>,
                             actions: seq<Action>)
    requires down <= Everything(keys)
    ensures var s := Run(keys, Boot(keys, down, acknowledged, landed), actions);
            !s.desk.busy ==> Tracked(s.lease) == {} && (!s.target.tainted ==> s.target.down == {})
  {
    var boot := Boot(keys, down, acknowledged, landed);
    var s := Run(keys, boot, actions);
    BootInv(keys, down, acknowledged, landed);
    ReachableInv(keys, boot, actions);
    hide Run, Boot, Everything, Exclusive, Tracked;
    if !s.desk.busy {
      assert s.link.wire == [] && Full(s) == s.lease;
    }
  }

  /**
   The lock is released only by a successful release, a handler that never had a lease, or a successful
   neutralization.
   */
  lemma BusyClearsOnlyWhenNeutral(keys: Keys, s: World, a: Action)
    requires Inv(keys, s) && s.desk.busy && !Step(keys, s, a).desk.busy
    ensures Tracked(s.lease) == {}
    ensures || (a.ReleaseReturns? && At(s, a.id, Releasing))
            || (a.LeaveUnleased? && At(s, a.id, Unleased))
            || (a.RetryReturns? && s.desk.recovery == Retrying(false))
            || (a.Neutralize? && s.desk.recovery == Neutralizing && Everything(keys) <= a.acknowledged)
  {
    NoneIsFine();
    hide Applied, ReleaseOne, Held, Tracked, NoPress, Exclusive, Covered, Flush.LinkInv, Flush.Begin, Flush.Finish;
  }

  /** It is released in exactly these cases, and the retry task and the neutralizer go on until one comes. */
  lemma BusyClearsExactly(keys: Keys, s: World, a: Action)
    requires s.desk.busy
    ensures !Step(keys, s, a).desk.busy <==>
              || (a.ReleaseReturns? && At(s, a.id, Releasing) && Tracked(s.lease) == {})
              || (a.LeaveUnleased? && At(s, a.id, Unleased))
              || (a.RetryReturns? && s.desk.recovery == Retrying(false) && Tracked(s.lease) == {})
              || (a.Neutralize? && s.desk.recovery == Neutralizing && Everything(keys) <= a.acknowledged)
    ensures s.desk.recovery != Idle && Step(keys, s, a).desk.recovery == Idle ==>
              !Step(keys, s, a).desk.busy || s.desk.stopping || s.desk.recovery == Retrying(true)
  {
    hide Applied, ReleaseOne, Held, Tracked, NoPress, Flush.Begin, Flush.Finish, Everything;
  }

  /** flush() has raised: at once, or when it stopped waiting. */
  predicate FlushFails(s: World, timedOut: bool) {
    var outcome := Flush.Finish(s.link, timedOut).1;
    !s.link.waiting || (outcome.Some? && !outcome.value)
  }

  /** The taint comes only from a websocket given up, unconfirmed or cancelled, with something it could leave down. */
  lemma TaintedOnlyByGivingUp(keys: Keys, s: World, a: Action)
    requires !s.target.tainted
    ensures Step(keys, s, a).target.tainted <==>
              && (a.Flushed? || a.Cancel?)
              && At(s, a.id, Flushing) && !Harmless(s)
              && (if a.Flushed? then FlushFails(s, a.timedOut) else s.desk.stopping)
  {
    hide Applied, ReleaseOne, Held, Tracked, Harmless, Flush.Begin;
  }

  ghost predicate NoWebsocket(s: World) {
    !s.target.tainted && !s.desk.streamed && forall i | i in s.desk.handlers :: s.desk.handlers[i] != Flushing
  }

  lemma {:induction false} NoWebsocketNoTaint(keys: Keys, boot: World, actions: seq<Action>)
    requires NoWebsocket(boot) && forall a | a in actions :: a.Greeted? ==> !a.websocket
    ensures NoWebsocket(Run(keys, boot, actions))
  {
    hide NoWebsocket, Step;
    if actions != [] {
      var a := actions[|actions| - 1];
      NoWebsocketNoTaint(keys, boot, actions[..|actions| - 1]);
      assert a in actions;
      NoWebsocketStep(keys, Run(keys, boot, actions[..|actions| - 1]), a);
    }
  }

  lemma NoWebsocketStep(keys: Keys, s: World, a: Action)
    requires NoWebsocket(s) && (a.Greeted? ==> !a.websocket)
    ensures NoWebsocket(Step(keys, s, a))
  {
    hide Applied, ReleaseOne, Held, Tracked, Everything, Cleared, Harmless, Flush.Begin, Flush.Finish;
  }

  /**
   On the acknowledged path, with every interleaving of connections, failures, retries, cancellations and
   stop: once startup neutralization has succeeded, nothing is down whenever the server takes leases.
   */
  lemma AcknowledgedPathIsNeutral(keys: Keys, down: set<Input>, acknowledged: set<Input>, landed: set<Input>,
                                  actions: seq<Action>)
    requires down <= Everything(keys) <= acknowledged
    requires forall a | a in actions :: a.Greeted? ==> !a.websocket
    ensures var s := Run(keys, Boot(keys, down, acknowledged, landed), actions);
            !s.desk.busy ==> s.target.down == {}
  {
    NeutralBetweenLeases(keys, down, acknowledged, landed, actions);
    NoWebsocketNoTaint(keys, Boot(keys, down, acknowledged, landed), actions);
  }

  // ----- the taint is real -----

  lemma RunOne(keys: Keys, s: World, a: Action)
    ensures Run(keys, s, [a]) == Step(keys, s, a)
  {
    assert [a][..0] == [];
    assert Run(keys, s, []) == s;
  }

  lemma {:induction false} RunConcat(keys: Keys, s: World, a: seq<Action>, b: seq<Action>)
    ensures Run(keys, s, a + b) == Run(keys, Run(keys, s, a), b)
  {
    hide Step;
    if b == [] {
      assert a + b == a;
    } else {
      assert (a + b)[..|a + b| - 1] == a + b[..|b| - 1];
      RunConcat(keys, s, a, b[..|b| - 1]);
    }
  }

  /** release() with every request acknowledged. */
  function ReleaseAll(id: nat, order: seq<Input>): seq<Action> {
    if order == [] then [] else ReleaseAll(id, order[..|order| - 1]) + [ReleaseTry(id, order[|order| - 1], Done)]
  }

  lemma OneReleased(keys: Keys, s: World, id: nat, i: Input)
    requires At(s, id, Releasing) && s.lease.log == []
    ensures var t := Step(keys, s, ReleaseTry(id, i, Done));
            && t.desk == s.desk && t.target.orphans == s.target.orphans && t.lease.log == []
            && Tracked(t.lease) == Tracked(s.lease) - {i}
            && s.target.down - Tracked(s.lease) <= t.target.down
  {
    var lease := ReleaseOne(s.lease, i, Done);
    ReleaseOneKeepsSound({}, s.lease, i, Done);
    OnlyLifts(s.lease, i, s.target.down);
    hide ReleaseOne;
    TrackedOf(lease, lease.(log := []));
    hide Tracked, Held;
  }

  lemma OnlyLifts(lease: HidLease.State, i: Input, down: set<Input>)
    requires lease.log == []
    ensures down - Tracked(lease) <= Held(down, ReleaseOne(lease, i, Done).log)
  {
    if i in Tracked(lease) {
      assert ReleaseOne(lease, i, Done).log == [] + [Lift(i)];
      HeldOfSnoc(down, [], Lift(i));
    }
    hide Tracked;
  }

  lemma {:induction false} AllReleased(keys: Keys, s: World, id: nat, order: seq<Input>)
    requires At(s, id, Releasing) && s.lease.log == []
    ensures var t := Run(keys, s, ReleaseAll(id, order));
            && t.desk == s.desk && t.target.orphans == s.target.orphans && t.lease.log == []
            && Tracked(t.lease) == Tracked(s.lease) - (set i | i in order)
            && s.target.down - Tracked(s.lease) <= t.target.down
  {
    hide Step, Tracked;
    if order != [] {
      var front, last := order[..|order| - 1], order[|order| - 1];
      AllReleased(keys, s, id, front);
      assert ReleaseAll(id, order)[..|ReleaseAll(id, order)| - 1] == ReleaseAll(id, front);
      OneReleased(keys, Run(keys, s, ReleaseAll(id, front)), id, last);
      assert (set i | i in order) == (set i | i in front) + {last};
    }
  }

  /** The first n of the orphans from position at arrive, in order. */
  function Arrivals(at: nat, n: nat): seq<Action> {
    if n == 0 then [] else Arrivals(at, n - 1) + [DeliverOrphan(at)]
  }

  lemma OneArrives(keys: Keys, s: World, front: seq<Op>, op: Op, back: seq<Op>)
    requires s.target.orphans == front + [op] + back
    ensures var t := Step(keys, s, DeliverOrphan(|front|));
            t.desk == s.desk && t.target.orphans == front + back && t.target.down == Perform(s.target.down, op)
  {
    assert s.target.orphans[|front|] == op;
    assert s.target.orphans[..|front|] == front && s.target.orphans[|front| + 1..] == back;
  }

  lemma {:induction false} OrphansArrive(keys: Keys, s: World, front: seq<Op>, late: seq<Op>, n: nat)
    requires s.target.orphans == front + late && n <= |late|
    ensures var t := Run(keys, s, Arrivals(|front|, n));
            && t.desk == s.desk && t.target.orphans == front + late[n..]
            && t.target.down == Held(s.target.down, late[..n])
  {
    hide Step, Held, Perform;
    if n == 0 {
      HeldOfNothing(s.target.down);
      assert late[..0] == [] && late[0..] == late;
    } else {
      OrphansArrive(keys, s, front, late, n - 1);
      var all := Arrivals(|front|, n);
      assert all[..|all| - 1] == Arrivals(|front|, n - 1);
      var t := Run(keys, s, Arrivals(|front|, n - 1));
      assert late[n - 1..] == [late[n - 1]] + late[n..];
      assert front + late[n - 1..] == front + [late[n - 1]] + late[n..];
      OneArrives(keys, t, front, late[n - 1], late[n..]);
      assert late[..n] == late[..n - 1] + [late[n - 1]];
      HeldOfSnoc(s.target.down, late[..n - 1], late[n - 1]);
    }
  }

  lemma HeldOfNothing(down: set<Input>)
    ensures Held(down, []) == down
  {
  }

  /** The flush fails, release() succeeds and the lock is free. */
  lemma GivenUpAndFree(keys: Keys, s: World, id: nat) returns (actions: seq<Action>)
    requires At(s, id, Flushing) && s.lease.log == []
    ensures var t := Run(keys, s, actions);
            && !t.desk.busy && t.target.orphans == s.target.orphans + s.link.wire
            && s.target.down - Tracked(s.lease) <= t.target.down
  {
    hide Tracked, Harmless;
    var a := Flushed(id, true);
    var u := Step(keys, s, a);
    TrackedOf(s.lease, u.lease);
    RunOne(keys, s, a);
    var order := SomeOrder(Tracked(u.lease));
    AllReleased(keys, u, id, order);
    var v := Run(keys, u, ReleaseAll(id, order));
    RunConcat(keys, s, [a], ReleaseAll(id, order));
    RunOne(keys, v, ReleaseReturns(id));
    RunConcat(keys, s, [a] + ReleaseAll(id, order), [ReleaseReturns(id)]);
    actions := [a] + ReleaseAll(id, order) + [ReleaseReturns(id)];
    assert Tracked(v.lease) == {};
  }

  /**
   The taint is never spurious: from any state in which giving up the websocket taints, it is given up, release()
   succeeds in full and clears busy, and yet something is down on the target. In no reachable state has a lease
   logged a request that has not happened.
   */
  lemma TaintIsReal(keys: Keys, s: World, id: nat)
    requires At(s, id, Flushing) && s.lease.log == [] && !Harmless(s)
    ensures exists actions :: !Run(keys, s, actions).desk.busy && Run(keys, s, actions).target.down != {}
  {
    hide Step, Tracked;
    var actions := GivenUpAndFree(keys, s, id);
    var t := Run(keys, s, actions);
    if !(s.target.down <= Tracked(s.lease)) {
      var x :| x in s.target.down && x !in Tracked(s.lease);
      assert x in t.target.down;
    } else {
      var op :| op in s.link.wire && op.Press?;
      var n :| 0 <= n < |s.link.wire| && s.link.wire[n] == op;
      var late := s.link.wire;
      OrphansArrive(keys, t, s.target.orphans, late, n + 1);
      HeldOfSnoc(t.target.down, late[..n], op);
      assert late[..n + 1] == late[..n] + [op];
      RunConcat(keys, s, actions, Arrivals(|s.target.orphans|, n + 1));
      var more := actions + Arrivals(|s.target.orphans|, n + 1);
      assert op.input in Run(keys, s, more).target.down;
    }
  }

  // ----- the class -----

  /** The server object; the methods are the stretches of its tasks that decide ownership, between awaits. */
  class Server {
    const keys: Keys
    var desk: Desk
    var lease: HidLease.State
    ghost var link: Flush.Link
    ghost var target: Target

    ghost function View(): World
      reads this
    {
      World(desk, lease, link, target)
    }

    /** __init__, then neutralize() and, where that fails, block_until_neutral(). */
    constructor (table: Keys, acknowledged: set<Input>, ghost landed: set<Input>, ghost held: set<Input>)
      ensures keys == table
      ensures View() == Boot(table, held, acknowledged, landed)
    {
      keys := table;
      var neutral := Everything(table) <= acknowledged;
      desk := Desk(!neutral, false, map[], if neutral then Idle else Pausing, false);
      lease := FRESH;
      link := Flush.NONE;
      target := Target([], held - acknowledged - landed, !neutral);
    }

    /** The start of handle(): busy is set before anything is awaited. */
    method Admit(id: nat, uidMatches: bool) returns (owns: bool)
      requires Inv(keys, View()) && id !in desk.handlers
      modifies this
      ensures View() == Step(keys, old(View()), Connect(id, uidMatches)) && Inv(keys, View())
      ensures owns <==> uidMatches && !old(desk.busy) && !old(desk.stopping)
      ensures owns ==> Owners(desk) == {id}
    {
      ConnectInv(keys, View(), id, uidMatches);
      if !uidMatches || desk.busy || desk.stopping {
        hide Inv;
        desk := desk.(handlers := desk.handlers[id := Refused]);
        return false;
      }
      assert Owners(desk) == {};
      ghost var before := desk;
      desk := desk.(handlers := desk.handlers[id := Greeting], busy := true, streamed := false);
      lease, link := FRESH, Flush.NONE;
      OwnersMoved(before, desk, id, Greeting);
      hide Inv;
      return true;
    }

    /** The end of handle() for an owner: release() has returned, or there never was a lease. */
    method Leave(id: nat, hasLease: bool)
      requires Inv(keys, View()) && At(View(), id, if hasLease then Releasing else Unleased)
      modifies this`desk
      ensures View() == Step(keys, old(View()), if hasLease then ReleaseReturns(id) else LeaveUnleased(id))
      ensures Inv(keys, View()) && Owners(desk) == {}
      ensures !desk.busy <==> !hasLease || Tracked(lease) == {}
      ensures desk.busy ==> desk.recovery == Starting
    {
      ghost var before := View();
      StepInv(keys, before, if hasLease then ReleaseReturns(id) else LeaveUnleased(id));
      OwnerBusy(desk, id);
      desk := desk.(handlers := desk.handlers - {id});
      assert Owners(desk) == {};
      hide Inv, Exclusive, Owners, Tracked;
      if hasLease && Tracked(lease) != {} {
        desk := desk.(recovery := Starting);
      } else {
        desk := desk.(busy := false, recovery := Idle);
      }
      assert Owners(desk) == {} by {
        SameHandlers(before.desk.(handlers := before.desk.handlers - {id}), desk);
      }
    }
  }

  lemma SameHandlers(a: Desk, b: Desk)
    requires a.handlers == b.handlers
    ensures Owners(a) == Owners(b)
  {
  }
}
