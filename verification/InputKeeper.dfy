/**
 Who holds the input lease on the streaming side (sunshine/rkmoon_bridge.cpp): the shared input pointer,
 the thread that keeps it filled, the session that owns both, and input callbacks that borrow it. One
 step is what happens between two lock operations.
 */
module InputKeeper {
  import opened Common

  /** A HidClient and the session whose keeper made it; it lives while someone points to it. */
  datatype Client = Client(id: nat, session: nat)

  /** capture(): the declared order of its guards makes it stop and join the keeper, release, then unlock. */
  datatype Stage = Streaming | Joining | Releasing | Released

  /** maintain_input(); Off also before it starts and after it has returned. */
  datatype Keeper = Off | Looking | Dropping | Connecting | Connected(c: Client) | Storing(c: Client)

  /** owner: the session that holds the video lock; borrowed: clients held by callbacks inside forward(). */
  datatype State = State(
    owner: Option<nat>, stage: Stage, keeper: Keeper, stop: bool, input: Option<Client>, borrowed: map<nat, Client>,
    nextSession: nat, nextClient: nat)

  const START := State(None, Streaming, Off, false, None, map[], 0, 0)

  datatype Action =
    | Open
    | StartKeeper
    | Look(healthy: bool)
    | Drop
    | Connect(ok: bool)
    | CheckStop
    | Store
    | End
    | Join
    | Release
    | Unlock
    | Borrow(call: nat)
    | Return(call: nat)

  function Step(s: State, a: Action): State {
    match a
    case Open =>
      if s.owner.Some? then s
      else s.(owner := Some(s.nextSession), stage := Streaming, stop := false, nextSession := s.nextSession + 1)
    case StartKeeper =>
      if s.owner.Some? && s.stage.Streaming? && s.keeper.Off? && !s.stop then s.(keeper := Looking) else s
    case Look(healthy) =>
      if !s.keeper.Looking? then s
      else if s.stop then s.(keeper := Off)
      else if s.input.None? || !healthy then s.(keeper := Dropping)
      else s
    case Drop => if s.keeper.Dropping? then s.(input := None, keeper := Connecting) else s
    case Connect(ok) =>
      if !s.keeper.Connecting? || s.owner.None? then s
      else if !ok then s.(keeper := Looking)
      else s.(keeper := Connected(Client(s.nextClient, s.owner.value)), nextClient := s.nextClient + 1)
    case CheckStop =>
      if !s.keeper.Connected? then s else if s.stop then s.(keeper := Off) else s.(keeper := Storing(s.keeper.c))
    case Store => if s.keeper.Storing? then s.(input := Some(s.keeper.c), keeper := Looking) else s
    case End => if s.owner.Some? && s.stage.Streaming? then s.(stage := Joining, stop := true) else s
    case Join => if s.owner.Some? && s.stage.Joining? && s.keeper.Off? then s.(stage := Releasing) else s
    case Release => if s.owner.Some? && s.stage.Releasing? then s.(stage := Released, input := None) else s
    case Unlock => if s.owner.Some? && s.stage.Released? then s.(owner := None) else s
    case Borrow(call) =>
      if s.input.Some? && call !in s.borrowed then s.(borrowed := s.borrowed[call := s.input.value]) else s
    case Return(call) => s.(borrowed := s.borrowed - {call})
  }

  function Run(s: State, actions: seq<Action>): State {
    if actions == [] then s else Step(Run(s, actions[..|actions| - 1]), actions[|actions| - 1])
  }

  /** The client the keeper has made and not yet stored. */
  function InHand(k: Keeper): set<Client> {
    if k.Connected? || k.Storing? then {k.c} else {}
  }

  function Shared(s: State): set<Client> {
    if s.input.Some? then {s.input.value} else {}
  }

  /** Every client that is still alive. */
  function Alive(s: State): set<Client> {
    InHand(s.keeper) + Shared(s) + s.borrowed.Values
  }

  ghost predicate Inv(s: State) {
    && (s.owner.None? ==> s.keeper.Off? && s.input.None?)
    && (s.stage in {Releasing, Released} ==> s.keeper.Off?)
    && (s.owner.Some? && s.stage.Released? ==> s.input.None?)
    && (s.keeper.Connecting? || InHand(s.keeper) != {} ==> s.input.None?)
    && (s.owner.Some? ==> s.owner.value < s.nextSession)
    && (forall c | c in InHand(s.keeper) + Shared(s) :: s.owner == Some(c.session))
    && (forall c | c in Alive(s) :: c.id < s.nextClient)
    && (s.owner.Some? && s.stage.Streaming? ==> !s.stop)
  }

  lemma StepInv(s: State, a: Action)
    requires Inv(s)
    ensures Inv(Step(s, a))
  {
    var t := Step(s, a);
    forall c | c in Alive(t)
      ensures c.id < t.nextClient
    {
      assert c in Alive(s) || c.id == s.nextClient;
    }
  }

  lemma {:induction false} Reachable(actions: seq<Action>)
    ensures Inv(Run(START, actions))
  {
    if actions != [] {
      Reachable(actions[..|actions| - 1]);
      StepInv(Run(START, actions[..|actions| - 1]), actions[|actions| - 1]);
    }
  }

  /**
   In every run the keeper never makes a lease while one is shared, whatever is shared or being made belongs
   to the session that owns the video lock, and without such a session neither exists.
   */
  lemma OneLeasePerSession(actions: seq<Action>)
    ensures var s := Run(START, actions);
            && |InHand(s.keeper) + Shared(s)| <= 1
            && (forall c | c in InHand(s.keeper) + Shared(s) :: s.owner == Some(c.session))
  {
    Reachable(actions);
    var s := Run(START, actions);
    assert InHand(s.keeper) + Shared(s) == if s.input.Some? then Shared(s) else InHand(s.keeper);
  }

  /** The k-th action is a callback taking hold of c while it is shared, and it has not returned since. */
  ghost predicate HeldSince(actions: seq<Action>, k: nat, call: nat, c: Client) {
    && k < |actions| && actions[k] == Borrow(call)
    && Run(START, actions[..k]).input == Some(c) && call !in Run(START, actions[..k]).borrowed
    && forall j | k < j < |actions| :: actions[j] != Return(call)
  }

  /** A callback holds a client exactly when it took it while it was shared and has not returned since. */
  lemma {:induction false} BorrowedExactly(actions: seq<Action>, call: nat, c: Client)
    ensures call in Run(START, actions).borrowed && Run(START, actions).borrowed[call] == c <==>
            exists k :: HeldSince(actions, k, call, c)
  {
    if actions != [] {
      var n := |actions| - 1;
      var before, a := actions[..n], actions[n];
      BorrowedExactly(before, call, c);
      forall k: nat | k < n
        ensures HeldSince(actions, k, call, c) <==> HeldSince(before, k, call, c) && a != Return(call)
      {
        assert before[..k] == actions[..k];
      }
      assert HeldSince(actions, n, call, c) <==>
             a == Borrow(call) && Run(START, before).input == Some(c) && call !in Run(START, before).borrowed;
      BorrowedStep(Run(START, before), a, call, c);
      var s := Run(START, before);
      if call in s.borrowed && s.borrowed[call] == c && a != Return(call) {
        var k :| HeldSince(before, k, call, c);
        assert HeldSince(actions, k, call, c);
      }
    }
  }

  lemma BorrowedStep(s: State, a: Action, call: nat, c: Client)
    ensures var t := Step(s, a);
            call in t.borrowed && t.borrowed[call] == c <==>
              || (call in s.borrowed && s.borrowed[call] == c && a != Return(call))
              || (a == Borrow(call) && s.input == Some(c) && call !in s.borrowed)
  {
  }

  /**
   When the video lock is free, so that the next session may take it, a lease of an earlier session is still
   alive exactly when some callback took hold of it while it was shared and has not returned since.
   */
  lemma ReleasedBeforeReplaced(actions: seq<Action>, c: Client)
    requires Run(START, actions).owner.None?
    ensures c in Alive(Run(START, actions)) <==> exists k, call :: HeldSince(actions, k, call, c)
  {
    Reachable(actions);
    var s := Run(START, actions);
    hide Run;
    if c in Alive(s) {
      var call :| call in s.borrowed && s.borrowed[call] == c;
      BorrowedExactly(actions, call, c);
    }
    forall k, call | HeldSince(actions, k, call, c)
      ensures c in Alive(s)
    {
      BorrowedExactly(actions, call, c);
      assert c in s.borrowed.Values;
    }
  }

  lemma RunSnoc(s: State, actions: seq<Action>, a: Action)
    ensures Run(s, actions + [a]) == Step(Run(s, actions), a)
  {
    assert (actions + [a])[..|actions|] == actions;
  }

  /** A callback that outlasts its session keeps the old lease alive into the next session. */
  lemma BorrowedLeaseOutlives()
    ensures exists actions ::
              var s := Run(START, actions);
              s.owner == Some(1) && Client(0, 0) in Alive(s)
  {
    hide Run;
    var c := Client(0, 0);
    var s0 := State(Some(0), Streaming, Off, false, None, map[], 1, 0);
    var acts: seq<Action> := [];
    assert Run(START, acts) == START by { RunOfNothing(); }
    acts := Then(acts, Open, s0);
    acts := Then(acts, StartKeeper, s0.(keeper := Looking));
    acts := Then(acts, Look(true), s0.(keeper := Dropping));
    acts := Then(acts, Drop, s0.(keeper := Connecting));
    acts := Then(acts, Connect(true), s0.(keeper := Connected(c), nextClient := 1));
    acts := Then(acts, CheckStop, s0.(keeper := Storing(c), nextClient := 1));
    var s1 := s0.(keeper := Looking, input := Some(c), nextClient := 1);
    acts := Then(acts, Store, s1);
    var s2 := s1.(borrowed := map[7 := c]);
    acts := Then(acts, Borrow(7), s2);
    var s3 := s2.(stage := Joining, stop := true);
    acts := Then(acts, End, s3);
    acts := Then(acts, Look(true), s3.(keeper := Off));
    acts := Then(acts, Join, s3.(keeper := Off, stage := Releasing));
    var s4 := s3.(keeper := Off, stage := Released, input := None);
    acts := Then(acts, Release, s4);
    acts := Then(acts, Unlock, s4.(owner := None));
    var s5 := s4.(owner := Some(1), stage := Streaming, stop := false, nextSession := 2);
    acts := Then(acts, Open, s5);
    assert s5.borrowed[7] == c && c in s5.borrowed.Values;
  }

  lemma RunOfNothing()
    ensures Run(START, []) == START
  {
  }

  /** One more step of a run, arriving at t. */
  lemma Then(actions: seq<Action>, a: Action, t: State) returns (more: seq<Action>)
    requires Step(Run(START, actions), a) == t
    ensures Run(START, more) == t
  {
    RunSnoc(START, actions, a);
    more := actions + [a];
  }
}
