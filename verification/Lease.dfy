/**
 One input lease (python/rkmoon_hid/lease.py:61-125): reference sets over virtual keys, requests that may
 fail after taking effect, and release. Requests go either to kvmd's acknowledged HTTP interface or to its
 websocket, which delivers in order but later.
 */
module HidLease {
  import opened Common
  import opened Events
  import opened Motion
  import Queues

  /** What can be held down on the target: a physical key, by number, or a mouse button. */
  datatype Input = KeyInput(key: nat) | ButtonInput(button: int)

  /** One request to kvmd; Ping asks for nothing but an answer. */
  datatype Op =
    | Press(input: Input)
    | Lift(input: Input)
    | MoveBy(x: int, y: int)
    | MoveTo(x: int, y: int)
    | Roll(x: int, y: int)
    | Ping

  /** How a group of requests ends: acknowledged, or an exception after landed of them took effect. */
  datatype Fate = Done | Raised(landed: nat)

  function Perform(held: set<Input>, op: Op): set<Input> {
    match op
    case Press(i) => held + {i}
    case Lift(i) => held - {i}
    case _ => held
  }

  /** What is down once all of ops has reached the target, from being down before. */
  function Held(from: set<Input>, ops: seq<Op>): set<Input> {
    if ops == [] then from else Perform(Held(from, ops[..|ops| - 1]), ops[|ops| - 1])
  }

  lemma HeldOfSnoc(from: set<Input>, ops: seq<Op>, op: Op)
    ensures Held(from, ops + [op]) == Perform(Held(from, ops), op)
  {
    assert (ops + [op])[..|ops|] == ops;
  }

  /** Virtual key code to physical key; several codes may share one key. */
  type Keys = map<int, nat>

  /**
   log is every request that took effect, in order, or, on the websocket, that was written to it. On the
   HTTP path Held(log) is what is down on the target; on the websocket it is what will be down once all
   that was written is delivered.
   */
  datatype State = State(
    virtual: set<int>, possiblyDown: set<nat>, buttons: set<int>, wheelX: int, wheelY: int, log: seq<Op>)

  const FRESH := State({}, {}, {}, 0, 0, [])

  function Issue(s: State, ops: seq<Op>, fate: Fate): State {
    if fate.Done? || |ops| <= fate.landed then s.(log := s.log + ops) else s.(log := s.log + ops[..fate.landed])
  }

  /** No exception: acknowledged, or nothing to ask for. */
  predicate Fine(ops: seq<Op>, fate: Fate) {
    fate.Done? || ops == []
  }

  predicate Backed(keys: Keys, virtual: set<int>, key: nat) {
    exists v | v in virtual :: v in keys && keys[v] == key
  }

  function ApplyKey(s: State, keys: Keys, vk: int, down: bool, fate: Fate): State
    requires vk in keys
  {
    var key := keys[vk];
    if down then
      if vk in s.virtual then s
      else
        var s1 := s.(virtual := s.virtual + {vk});
        if Backed(keys, s.virtual, key) then s1
        else Issue(s1.(possiblyDown := s.possiblyDown + {key}), [Press(KeyInput(key))], fate)
    else
      var s1 := s.(virtual := s.virtual - {vk});
      if Backed(keys, s1.virtual, key) || key !in s.possiblyDown then s1
      else
        var s2 := Issue(s1, [Lift(KeyInput(key))], fate);
        if fate.Done? then s2.(possiblyDown := s.possiblyDown - {key}) else s2
  }

  function ApplyButton(s: State, button: int, down: bool, fate: Fate): State {
    if down then
      if button in s.buttons then s
      else Issue(s.(buttons := s.buttons + {button}), [Press(ButtonInput(button))], fate)
    else if button !in s.buttons then s
    else
      var s1 := Issue(s, [Lift(ButtonInput(button))], fate);
      if fate.Done? then s1.(buttons := s.buttons - {button}) else s1
  }

  function MoveOps(ps: seq<Point>): seq<Op> {
    if ps == [] then [] else [MoveBy(ps[0].x, ps[0].y)] + MoveOps(ps[1..])
  }

  function RollOps(ps: seq<Point>): seq<Op> {
    if ps == [] then [] else [Roll(ps[0].x, ps[0].y)] + RollOps(ps[1..])
  }

  /** parse_event(): the server's own ranges, and a key code the table knows. */
  predicate Parsed(e: Event, keys: Keys) {
    match e
    case Key(vk, _) => 0 <= vk <= 255 && vk in keys
    case Button(button, _) => 1 <= button <= 5
    case Wheel(x, y) => -32767 <= x <= 32767 && -32767 <= y <= 32767
    case Move(x, y) => -32767 <= x <= 32767 && -32767 <= y <= 32767
    case Absolute(x, y) => -32768 <= x <= 32767 && -32768 <= y <= 32767
  }

  /** The two ends agree: what submit() lets through is what the server parses, but for unknown key codes. */
  lemma EndsAgreeOnRanges(e: Event, keys: Keys)
    ensures Parsed(e, keys) <==> InRange(e) && (e.Key? ==> e.vk in keys)
  {
  }

  function Applied(s: State, keys: Keys, absolute: bool, e: Event, fate: Fate): State
    requires Parsed(e, keys)
  {
    match e
    case Key(vk, down) => ApplyKey(s, keys, vk, down, fate)
    case Button(b, down) => ApplyButton(s, b, down, fate)
    case Move(dx, dy) => if absolute then s else Issue(s, MoveOps(Parts(dx, dy)), fate)
    case Absolute(x, y) => if absolute then Issue(s, [MoveTo(x, y)], fate) else s
    case Wheel(dx, dy) =>
      var x, y := Notches(s.wheelX + dx), Notches(s.wheelY + dy);
      Issue(s.(wheelX := s.wheelX + dx - 120 * x, wheelY := s.wheelY + dy - 120 * y), RollOps(Parts(x, y)), fate)
  }

  /** What the lease believes may be down. */
  function Tracked(s: State): set<Input> {
    (set k | k in s.possiblyDown :: KeyInput(k)) + (set b | b in s.buttons :: ButtonInput(b))
  }

  function ReleaseOne(s: State, input: Input, fate: Fate): State {
    if input !in Tracked(s) then s
    else
      var s1 := Issue(s, [Lift(input)], fate);
      if fate.Raised? then s1
      else
        match input
        case KeyInput(k) => s1.(possiblyDown := s.possiblyDown - {k})
        case ButtonInput(b) => s1.(buttons := s.buttons - {b})
  }

  function ReleaseAll(s: State, tries: seq<(Input, Fate)>): State {
    if tries == [] then s
    else
      var last := tries[|tries| - 1];
      ReleaseOne(ReleaseAll(s, tries[..|tries| - 1]), last.0, last.1)
  }

  function Cleared(s: State): State {
    s.(virtual := {}, wheelX := 0, wheelY := 0)
  }

  // ----- acknowledged requests: nothing is down that is not tracked -----

  /** What is down, or will be once the log is delivered, is tracked. */
  ghost predicate Sound(from: set<Input>, s: State) {
    Held(from, s.log) <= Tracked(s)
  }

  lemma {:induction false} MotionHoldsNothing(from: set<Input>, log: seq<Op>, ops: seq<Op>)
    requires forall op | op in ops :: !op.Press? && !op.Lift?
    ensures Held(from, log + ops) == Held(from, log)
  {
    if ops == [] {
      assert log + ops == log;
    } else {
      var front := ops[..|ops| - 1];
      MotionHoldsNothing(from, log, front);
      HeldOfSnoc(from, log + front, ops[|ops| - 1]);
      assert log + ops == log + front + [ops[|ops| - 1]];
    }
  }

  lemma {:induction false} MotionOps(ps: seq<Point>)
    ensures forall op | op in MoveOps(ps) :: op.MoveBy?
    ensures forall op | op in RollOps(ps) :: op.Roll?
  {
    if ps != [] {
      MotionOps(ps[1..]);
    }
  }

  /** One request that may fail either way: afterwards its effect is there or not. */
  lemma IssueOne(from: set<Input>, s: State, op: Op, fate: Fate)
    ensures var t := Issue(s, [op], fate);
            || Held(from, t.log) == Perform(Held(from, s.log), op)
            || (fate.Raised? && Held(from, t.log) == Held(from, s.log))
  {
    HeldOfSnoc(from, s.log, op);
    if fate.Raised? && fate.landed == 0 {
      assert s.log + [op][..0] == s.log;
    }
  }

  /** A press is tracked before it is requested. */
  lemma PressKeepsSound(from: set<Input>, s: State, t: State, input: Input, fate: Fate)
    requires Sound(from, s) && Tracked(s) + {input} <= Tracked(t) && t.log == Issue(s, [Press(input)], fate).log
    ensures Sound(from, t)
  {
    IssueOne(from, s, Press(input), fate);
    hide Held, Issue, Tracked;
  }

  /** A release stays tracked until it is acknowledged. */
  lemma LiftKeepsSound(from: set<Input>, s: State, t: State, input: Input, fate: Fate)
    requires Sound(from, s) && t.log == Issue(s, [Lift(input)], fate).log
    requires Tracked(s) - (if fate.Done? then {input} else {}) <= Tracked(t)
    ensures Sound(from, t)
  {
    IssueOne(from, s, Lift(input), fate);
    hide Held, Issue, Tracked;
  }

  lemma KeyKeepsSound(from: set<Input>, s: State, keys: Keys, vk: int, down: bool, fate: Fate)
    requires Sound(from, s) && vk in keys
    ensures Sound(from, ApplyKey(s, keys, vk, down, fate))
  {
    hide Held, Backed;
    var key := keys[vk];
    var t := ApplyKey(s, keys, vk, down, fate);
    if t.log == s.log && t.possiblyDown == s.possiblyDown {
      assert Tracked(t) == Tracked(s);
    } else if down {
      PressKeepsSound(from, s, t, KeyInput(key), fate);
    } else {
      LiftKeepsSound(from, s, t, KeyInput(key), fate);
    }
  }

  lemma ButtonKeepsSound(from: set<Input>, s: State, button: int, down: bool, fate: Fate)
    requires Sound(from, s)
    ensures Sound(from, ApplyButton(s, button, down, fate))
  {
    hide Held;
    var t := ApplyButton(s, button, down, fate);
    if t == s {
    } else if down {
      PressKeepsSound(from, s, t, ButtonInput(button), fate);
    } else {
      LiftKeepsSound(from, s, t, ButtonInput(button), fate);
    }
  }

  lemma MotionKeepsSound(from: set<Input>, s: State, ops: seq<Op>, fate: Fate)
    requires Sound(from, s) && forall op | op in ops :: !op.Press? && !op.Lift?
    ensures Sound(from, Issue(s, ops, fate))
  {
    MotionHoldsNothing(from, s.log, ops);
    if fate.Raised? && fate.landed < |ops| {
      MotionHoldsNothing(from, s.log, ops[..fate.landed]);
    }
  }

  lemma ApplyKeepsSound(from: set<Input>, s: State, keys: Keys, absolute: bool, e: Event, fate: Fate)
    requires Sound(from, s) && Parsed(e, keys)
    ensures Sound(from, Applied(s, keys, absolute, e, fate))
  {
    hide ApplyKey, ApplyButton, Issue, Held;
    match e
    case Key(vk, down) => KeyKeepsSound(from, s, keys, vk, down, fate);
    case Button(b, down) => ButtonKeepsSound(from, s, b, down, fate);
    case Move(dx, dy) =>
      MotionOps(Parts(dx, dy));
      MotionKeepsSound(from, s, MoveOps(Parts(dx, dy)), fate);
    case Absolute(x, y) => MotionKeepsSound(from, s, [MoveTo(x, y)], fate);
    case Wheel(dx, dy) =>
      var x, y := Notches(s.wheelX + dx), Notches(s.wheelY + dy);
      MotionOps(Parts(x, y));
      var s1 := s.(wheelX := s.wheelX + dx - 120 * x, wheelY := s.wheelY + dy - 120 * y);
      assert Tracked(s1) == Tracked(s);
      MotionKeepsSound(from, s1, RollOps(Parts(x, y)), fate);
  }

  lemma ReleaseOneKeepsSound(from: set<Input>, s: State, input: Input, fate: Fate)
    requires Sound(from, s)
    ensures var t := ReleaseOne(s, input, fate);
            && Sound(from, t) && t.virtual == s.virtual
            && Tracked(t) == if fate.Done? then Tracked(s) - {input} else Tracked(s)
  {
    hide Held;
    var t := ReleaseOne(s, input, fate);
    assert Tracked(t) == if fate.Done? then Tracked(s) - {input} else Tracked(s);
    if input in Tracked(s) {
      LiftKeepsSound(from, s, t, input, fate);
    }
  }

  datatype Call = ApplyCall(e: Event, fate: Fate) | ReleaseCall(tries: seq<(Input, Fate)>)

  function Calls(keys: Keys, absolute: bool, calls: seq<Call>): State
    requires forall c | c in calls :: c.ApplyCall? ==> Parsed(c.e, keys)
  {
    if calls == [] then FRESH
    else
      var s := Calls(keys, absolute, calls[..|calls| - 1]);
      match calls[|calls| - 1]
      case ApplyCall(e, fate) => Applied(s, keys, absolute, e, fate)
      case ReleaseCall(tries) => ReleaseAll(Cleared(s), tries)
  }

  lemma {:induction false} ReleaseAllKeepsSound(from: set<Input>, s: State, tries: seq<(Input, Fate)>)
    requires Sound(from, s)
    ensures Sound(from, ReleaseAll(s, tries)) && Tracked(ReleaseAll(s, tries)) <= Tracked(s)
    ensures ReleaseAll(s, tries).virtual == s.virtual
    ensures forall t | t in tries :: t.1.Done? ==> t.0 !in Tracked(ReleaseAll(s, tries))
  {
    hide Sound, ReleaseOne, Tracked;
    if tries != [] {
      var last := tries[|tries| - 1];
      ReleaseAllKeepsSound(from, s, tries[..|tries| - 1]);
      ReleaseOneKeepsSound(from, ReleaseAll(s, tries[..|tries| - 1]), last.0, last.1);
      forall t | t in tries && t.1.Done?
        ensures t.0 !in Tracked(ReleaseAll(s, tries))
      {
        assert t in tries[..|tries| - 1] || t == last;
      }
    }
  }

  /**
   Over every sequence of apply and release calls, with requests that succeed, fail, or fail after taking
   effect, all that is down on the target is tracked; so whenever the tracked sets are empty, as release()
   reports by returning True, nothing is down.
   */
  lemma {:induction false} NothingForgotten(keys: Keys, absolute: bool, calls: seq<Call>)
    requires forall c | c in calls :: c.ApplyCall? ==> Parsed(c.e, keys)
    ensures var s := Calls(keys, absolute, calls);
            && Held({}, s.log) <= Tracked(s)
            && (s.possiblyDown == {} && s.buttons == {} ==> Held({}, s.log) == {})
  {
    if calls != [] {
      var s := Calls(keys, absolute, calls[..|calls| - 1]);
      NothingForgotten(keys, absolute, calls[..|calls| - 1]);
      assert Sound({}, s);
      match calls[|calls| - 1] {
        case ApplyCall(e, fate) => ApplyKeepsSound({}, s, keys, absolute, e, fate);
        case ReleaseCall(tries) =>
          assert Tracked(Cleared(s)) == Tracked(s);
          ReleaseAllKeepsSound({}, Cleared(s), tries);
      }
      assert Sound({}, Calls(keys, absolute, calls));
    }
  }

  // ----- the websocket -----

  /** A lease being torn down: delivered counts what of its log has reached the target; down is what is down there. */
  datatype Teardown = Teardown(lease: State, delivered: nat, down: set<Input>)

  /** The websocket may still deliver; a release request goes over HTTP. */
  datatype Late = Deliver | Http(input: Input, fate: Fate)

  function StartTeardown(lease: State, delivered: nat): Teardown
    requires delivered <= |lease.log|
  {
    Teardown(Cleared(lease), delivered, Held({}, lease.log[..delivered]))
  }

  function LateStep(t: Teardown, l: Late): Teardown {
    match l
    case Deliver =>
      if t.delivered < |t.lease.log| then
        t.(delivered := t.delivered + 1, down := Perform(t.down, t.lease.log[t.delivered]))
      else t
    case Http(i, fate) =>
      if i in Tracked(t.lease) then
        t.(lease := ReleaseOne(t.lease, i, fate).(log := t.lease.log),
           down := if fate.Done? || 0 < fate.landed then t.down - {i} else t.down)
      else t
  }

  function LateRun(t: Teardown, ls: seq<Late>): Teardown {
    if ls == [] then t else LateStep(LateRun(t, ls[..|ls| - 1]), ls[|ls| - 1])
  }

  /** release() has succeeded, and yet something is or stays down. */
  predicate Stuck(t: Teardown) {
    Tracked(t.lease) == {} && t.down != {}
  }

  lemma LateHttp(t: Teardown, i: Input, fate: Fate)
    ensures var u := LateStep(t, Http(i, fate));
            && Tracked(u.lease) == (if fate.Done? then Tracked(t.lease) - {i} else Tracked(t.lease))
            && u.lease.log == t.lease.log && u.delivered == t.delivered && u.down <= t.down
            && (fate.Done? && i in Tracked(t.lease) ==> u.down == t.down - {i})
  {
    var u := LateStep(t, Http(i, fate));
    assert Tracked(u.lease) == Tracked(ReleaseOne(t.lease, i, fate));
    assert Tracked(ReleaseOne(t.lease, i, fate)) == if fate.Done? then Tracked(t.lease) - {i} else Tracked(t.lease);
  }

  /**
   After a confirmed flush everything written has been delivered, and the lease is as safe as on the
   acknowledged path: whenever the tracked sets are empty nothing is down, nor will be.
   */
  lemma {:induction false} ConfirmedFlushIsSafe(lease: State, ls: seq<Late>)
    requires Held({}, lease.log) <= Tracked(lease)
    ensures var t := LateRun(StartTeardown(lease, |lease.log|), ls);
            && t.lease.log == lease.log && t.delivered == |lease.log|
            && t.down <= Tracked(t.lease) && !Stuck(t)
  {
    hide Held, Tracked;
    if ls == [] {
      assert lease.log[..|lease.log|] == lease.log;
      assert Tracked(Cleared(lease)) == Tracked(lease) by {
        TrackedOfCleared(lease);
      }
    } else {
      var t := LateRun(StartTeardown(lease, |lease.log|), ls[..|ls| - 1]);
      ConfirmedFlushIsSafe(lease, ls[..|ls| - 1]);
      var last := ls[|ls| - 1];
      if last.Http? {
        LateHttp(t, last.input, last.fate);
      }
    }
  }

  lemma TrackedOfCleared(s: State)
    ensures Tracked(Cleared(s)) == Tracked(s)
  {
  }

  lemma {:induction false} NoPressNothingHeld(ops: seq<Op>)
    requires forall op | op in ops :: !op.Press?
    ensures Held({}, ops) == {}
  {
    if ops != [] {
      NoPressNothingHeld(ops[..|ops| - 1]);
    }
  }

  /** A successful release request for each of these inputs. */
  function Releases(inputs: seq<Input>): seq<Late> {
    if inputs == [] then [] else Releases(inputs[..|inputs| - 1]) + [Http(inputs[|inputs| - 1], Done)]
  }

  lemma {:induction false} ReleasesRun(t: Teardown, inputs: seq<Input>)
    ensures var u := LateRun(t, Releases(inputs));
            && Tracked(u.lease) == Tracked(t.lease) - (set i | i in inputs)
            && u.lease.log == t.lease.log && u.delivered == t.delivered && u.down <= t.down
  {
    hide Tracked;
    if inputs != [] {
      var front, last := inputs[..|inputs| - 1], inputs[|inputs| - 1];
      ReleasesRun(t, front);
      assert Releases(inputs)[..|Releases(inputs)| - 1] == Releases(front);
      LateHttp(LateRun(t, Releases(front)), last, Done);
      assert (set i | i in inputs) == (set i | i in front) + {last};
    }
  }

  lemma {:induction false} SomeOrder(s: set<Input>) returns (order: seq<Input>)
    ensures (set i | i in order) == s
  {
    order := [];
    if s != {} {
      var i :| i in s;
      var rest := SomeOrder(s - {i});
      order := rest + [i];
      assert (set x | x in order) == (set x | x in rest) + {i};
    }
  }

  lemma {:induction false} LateConcat(t: Teardown, a: seq<Late>, b: seq<Late>)
    ensures LateRun(t, a + b) == LateRun(LateRun(t, a), b)
  {
    if b == [] {
      assert a + b == a;
    } else {
      assert (a + b)[..|a + b| - 1] == a + b[..|b| - 1];
      LateConcat(t, a, b[..|b| - 1]);
    }
  }

  function Deliveries(n: nat): seq<Late> {
    if n == 0 then [] else Deliveries(n - 1) + [Deliver]
  }

  lemma {:induction false} DeliveriesRun(t: Teardown, n: nat)
    requires t.delivered == 0 && t.down == {} && n <= |t.lease.log|
    ensures var u := LateRun(t, Deliveries(n));
            u.lease == t.lease && u.delivered == n && u.down == Held({}, t.lease.log[..n])
  {
    hide Held, LateStep, Perform, LateRun, Tracked, ReleaseOne;
    if n == 0 {
      assert t.lease.log[..0] == [];
      NothingDelivered(t);
    } else {
      DeliveriesRun(t, n - 1);
      var u, log := LateRun(t, Deliveries(n - 1)), t.lease.log;
      LateSnoc(t, Deliveries(n - 1), Deliver);
      LateDelivers(u);
      HeldOfSnoc({}, log[..n - 1], log[n - 1]);
      assert log[..n] == log[..n - 1] + [log[n - 1]];
    }
  }

  lemma NothingDelivered(t: Teardown)
    ensures LateRun(t, []) == t && Held({}, []) == {}
  {
  }

  lemma LateSnoc(t: Teardown, ls: seq<Late>, l: Late)
    ensures LateRun(t, ls + [l]) == LateStep(LateRun(t, ls), l)
  {
    assert (ls + [l])[..|ls|] == ls;
  }

  lemma LateDelivers(t: Teardown)
    requires t.delivered < |t.lease.log|
    ensures LateStep(t, Deliver) == Teardown(t.lease, t.delivered + 1, Perform(t.down, t.lease.log[t.delivered]))
  {
  }

  /** Without a confirmed flush, some delivery leaves the n-th request's press down after release() has succeeded. */
  lemma LatePressSticks(lease: State, n: nat) returns (ls: seq<Late>)
    requires n < |lease.log| && lease.log[n].Press?
    ensures Stuck(LateRun(StartTeardown(lease, 0), ls))
  {
    hide Tracked;
    var t := StartTeardown(lease, 0);
    assert t.down == {} by {
      assert lease.log[..0] == [];
    }
    var order := SomeOrder(Tracked(t.lease));
    ReleasesRun(t, order);
    var u := LateRun(t, Releases(order));
    DeliveriesRun(u, n + 1);
    HeldOfSnoc({}, lease.log[..n], lease.log[n]);
    assert lease.log[..n + 1] == lease.log[..n] + [lease.log[n]];
    ls := Releases(order) + Deliveries(n + 1);
    LateConcat(t, Releases(order), Deliveries(n + 1));
    assert lease.log[n].input in Held({}, lease.log[..n + 1]);
  }

  lemma {:induction false} NoPressNoSticking(lease: State, delivered: nat, ls: seq<Late>)
    requires delivered <= |lease.log| && forall op | op in lease.log :: !op.Press?
    ensures var t := LateRun(StartTeardown(lease, delivered), ls); t.down == {} && t.lease.log == lease.log
  {
    if ls == [] {
      NoPressNothingHeld(lease.log[..delivered]);
    } else {
      NoPressNoSticking(lease, delivered, ls[..|ls| - 1]);
      var t := LateRun(StartTeardown(lease, delivered), ls[..|ls| - 1]);
      if t.delivered < |lease.log| {
        assert lease.log[t.delivered] in lease.log;
      }
    }
  }

  /**
   Tearing down without a confirmed flush is safe, however much had been delivered and whatever is
   delivered later, exactly when no press was ever written to the websocket.
   */
  lemma UnconfirmedSafeExactly(lease: State)
    ensures (forall delivered: nat, ls | delivered <= |lease.log| ::
               !Stuck(LateRun(StartTeardown(lease, delivered), ls)))
            <==> (forall op | op in lease.log :: !op.Press?)
  {
    if forall op | op in lease.log :: !op.Press? {
      forall delivered: nat, ls | delivered <= |lease.log|
        ensures !Stuck(LateRun(StartTeardown(lease, delivered), ls))
      {
        NoPressNoSticking(lease, delivered, ls);
      }
    } else {
      var n :| 0 <= n < |lease.log| && lease.log[n].Press?;
      var ls := LatePressSticks(lease, n);
      assert Stuck(LateRun(StartTeardown(lease, 0), ls));
    }
  }

  /**
   A key pressed and released over the websocket is no longer tracked. If only the press was delivered,
   release() has nothing to do and reports success while the key stays down.
   */
  lemma ForgottenKeyUp(keys: Keys, vk: int)
    requires vk in keys
    ensures var s := ApplyKey(ApplyKey(FRESH, keys, vk, true, Done), keys, vk, false, Done);
            && Tracked(s) == {}
            && Stuck(StartTeardown(s, 1)) && StartTeardown(s, 1).down == {KeyInput(keys[vk])}
  {
    var pressed := ApplyKey(FRESH, keys, vk, true, Done);
    assert pressed.log == [Press(KeyInput(keys[vk]))];
    var s := ApplyKey(pressed, keys, vk, false, Done);
    assert s.virtual == {} && s.possiblyDown == {};
    assert s.log == [Press(KeyInput(keys[vk])), Lift(KeyInput(keys[vk]))];
    assert s.log[..1] == [Press(KeyInput(keys[vk]))];
    assert Held({}, s.log[..1]) == {KeyInput(keys[vk])};
  }

  // ----- without failures -----

  /** Whether the last event for this virtual key was a press. */
  predicate LastDown(es: seq<Event>, vk: int) {
    if es == [] then false
    else
      var e := es[|es| - 1];
      if e.Key? && e.vk == vk then e.down else LastDown(es[..|es| - 1], vk)
  }

  predicate LastPressed(es: seq<Event>, button: int) {
    if es == [] then false
    else
      var e := es[|es| - 1];
      if e.Button? && e.button == button then e.pressed else LastPressed(es[..|es| - 1], button)
  }

  /** The requests about one input alternate, starting with a press. */
  ghost predicate Alternates(ops: seq<Op>, i: Input) {
    forall j | 0 <= j < |ops| ::
      && (ops[j] == Press(i) ==> i !in Held({}, ops[..j]))
      && (ops[j] == Lift(i) ==> i in Held({}, ops[..j]))
  }

  function ApplyAll(keys: Keys, absolute: bool, es: seq<Event>): State
    requires forall e | e in es :: Parsed(e, keys)
  {
    if es == [] then FRESH
    else Applied(ApplyAll(keys, absolute, es[..|es| - 1]), keys, absolute, es[|es| - 1], Done)
  }

  lemma AlternatesSnoc(ops: seq<Op>, op: Op, i: Input)
    requires Alternates(ops, i)
    requires op == Press(i) ==> i !in Held({}, ops)
    requires op == Lift(i) ==> i in Held({}, ops)
    ensures Alternates(ops + [op], i)
  {
    forall j | 0 <= j < |ops + [op]|
      ensures (ops + [op])[j] == Press(i) ==> i !in Held({}, (ops + [op])[..j])
      ensures (ops + [op])[j] == Lift(i) ==> i in Held({}, (ops + [op])[..j])
    {
      if j < |ops| {
        assert (ops + [op])[..j] == ops[..j];
      } else {
        assert (ops + [op])[..j] == ops;
      }
    }
  }

  lemma {:induction false} AlternatesMotion(ops: seq<Op>, more: seq<Op>, i: Input)
    requires Alternates(ops, i) && forall op | op in more :: !op.Press? && !op.Lift?
    ensures Alternates(ops + more, i)
  {
    if more == [] {
      assert ops + more == ops;
    } else {
      AlternatesMotion(ops, more[..|more| - 1], i);
      AlternatesSnoc(ops + more[..|more| - 1], more[|more| - 1], i);
      assert ops + more == ops + more[..|more| - 1] + [more[|more| - 1]];
    }
  }

  ghost predicate Mirrors(s: State, keys: Keys, es: seq<Event>) {
    && (forall v :: v in s.virtual <==> LastDown(es, v))
    && (forall v | v in s.virtual :: v in keys)
    && (forall k :: k in s.possiblyDown <==> Backed(keys, s.virtual, k))
    && (forall b :: b in s.buttons <==> LastPressed(es, b))
  }

  ghost predicate Logged(s: State) {
    Held({}, s.log) == Tracked(s) && forall i :: Alternates(s.log, i)
  }

  /** One acknowledged request changes what is down as the tracked sets say. */
  lemma LoggedSnoc(s: State, t: State, op: Op)
    requires Logged(s) && t.log == s.log + [op] && Tracked(t) == Perform(Tracked(s), op)
    requires op.Press? ==> op.input !in Tracked(s)
    requires op.Lift? ==> op.input in Tracked(s)
    ensures Logged(t)
  {
    HeldOfSnoc({}, s.log, op);
    forall i
      ensures Alternates(t.log, i)
    {
      assert Alternates(s.log, i);
      AlternatesSnoc(s.log, op, i);
    }
  }

  lemma LoggedMotion(s: State, t: State, ops: seq<Op>)
    requires Logged(s) && t.log == s.log + ops && Tracked(t) == Tracked(s)
    requires forall op | op in ops :: !op.Press? && !op.Lift?
    ensures Logged(t)
  {
    MotionHoldsNothing({}, s.log, ops);
    forall i
      ensures Alternates(t.log, i)
    {
      assert Alternates(s.log, i);
      AlternatesMotion(s.log, ops, i);
    }
  }

  lemma KeyMirrors(s: State, keys: Keys, es: seq<Event>, vk: int, down: bool)
    requires Mirrors(s, keys, es) && vk in keys
    ensures Mirrors(ApplyKey(s, keys, vk, down, Done), keys, es + [Key(vk, down)])
  {
    var key := keys[vk];
    var t := ApplyKey(s, keys, vk, down, Done);
    var more := es + [Key(vk, down)];
    assert more[..|more| - 1] == es;
    assert t.virtual == if down then s.virtual + {vk} else s.virtual - {vk};
    forall k
      ensures k in t.possiblyDown <==> Backed(keys, t.virtual, k)
    {
      BackedAfter(keys, s.virtual, vk, k);
    }
  }

  /** Only the key of vk can gain or lose its backing when vk is pressed or released. */
  lemma BackedAfter(keys: Keys, virtual: set<int>, vk: int, k: nat)
    requires vk in keys
    ensures Backed(keys, virtual + {vk}, k) <==> Backed(keys, virtual, k) || k == keys[vk]
    ensures k != keys[vk] ==> (Backed(keys, virtual - {vk}, k) <==> Backed(keys, virtual, k))
    ensures Backed(keys, virtual - {vk}, k) ==> Backed(keys, virtual, k)
    ensures vk in virtual ==> Backed(keys, virtual, keys[vk])
  {
    assert vk in virtual + {vk};
    if Backed(keys, virtual, k) {
      var v :| v in virtual && v in keys && keys[v] == k;
      assert v in virtual + {vk};
      assert v != vk ==> v in virtual - {vk};
    }
  }

  lemma KeyLogged(s: State, keys: Keys, es: seq<Event>, vk: int, down: bool)
    requires Mirrors(s, keys, es) && Logged(s) && vk in keys
    ensures Logged(ApplyKey(s, keys, vk, down, Done))
  {
    var key := keys[vk];
    var t := ApplyKey(s, keys, vk, down, Done);
    if t.log == s.log {
      assert Tracked(t) == Tracked(s);
    } else {
      BackedAfter(keys, s.virtual, vk, key);
      hide Logged, Held, Backed;
      LoggedSnoc(s, t, if down then Press(KeyInput(key)) else Lift(KeyInput(key)));
    }
  }

  lemma ButtonMirrors(s: State, keys: Keys, es: seq<Event>, button: int, down: bool)
    requires Mirrors(s, keys, es)
    ensures Mirrors(ApplyButton(s, button, down, Done), keys, es + [Button(button, down)])
  {
    hide Backed;
    var more := es + [Button(button, down)];
    assert more[..|more| - 1] == es;
  }

  lemma ButtonLogged(s: State, button: int, down: bool)
    requires Logged(s)
    ensures Logged(ApplyButton(s, button, down, Done))
  {
    var t := ApplyButton(s, button, down, Done);
    if t != s {
      hide Logged, Held;
      LoggedSnoc(s, t, if down then Press(ButtonInput(button)) else Lift(ButtonInput(button)));
    }
  }

  lemma MotionMirrors(s: State, t: State, keys: Keys, es: seq<Event>, e: Event)
    requires Mirrors(s, keys, es) && !e.Key? && !e.Button?
    requires t.virtual == s.virtual && t.possiblyDown == s.possiblyDown && t.buttons == s.buttons
    ensures Mirrors(t, keys, es + [e])
  {
    assert (es + [e])[..|es|] == es;
  }

  lemma ApplyMirrors(s: State, keys: Keys, absolute: bool, es: seq<Event>, e: Event)
    requires Mirrors(s, keys, es) && Logged(s) && Parsed(e, keys)
    ensures var t := Applied(s, keys, absolute, e, Done); Mirrors(t, keys, es + [e]) && Logged(t)
  {
    hide ApplyKey, ApplyButton, Mirrors, Logged;
    match e
    case Key(vk, down) => KeyMirrors(s, keys, es, vk, down); KeyLogged(s, keys, es, vk, down);
    case Button(b, down) => ButtonMirrors(s, keys, es, b, down); ButtonLogged(s, b, down);
    case Move(dx, dy) =>
      MotionOps(Parts(dx, dy));
      MotionMirrors(s, Applied(s, keys, absolute, e, Done), keys, es, e);
      if !absolute { LoggedMotion(s, Applied(s, keys, absolute, e, Done), MoveOps(Parts(dx, dy))); }
    case Absolute(x, y) =>
      MotionMirrors(s, Applied(s, keys, absolute, e, Done), keys, es, e);
      if absolute { LoggedMotion(s, Applied(s, keys, absolute, e, Done), [MoveTo(x, y)]); }
    case Wheel(dx, dy) =>
      var x, y := Notches(s.wheelX + dx), Notches(s.wheelY + dy);
      MotionOps(Parts(x, y));
      MotionMirrors(s, Applied(s, keys, absolute, e, Done), keys, es, e);
      LoggedMotion(s, Applied(s, keys, absolute, e, Done), RollOps(Parts(x, y)));
  }

  /**
   Without failures, over every event sequence: a physical key is down exactly when some virtual key mapped
   to it was last pressed, a button exactly when it was, and the requests for each alternate between press
   and release, beginning with a press.
   */
  lemma {:induction false} InputMirrored(keys: Keys, absolute: bool, es: seq<Event>)
    requires forall e | e in es :: Parsed(e, keys)
    ensures var s := ApplyAll(keys, absolute, es);
            && Mirrors(s, keys, es) && Logged(s)
            && (forall k :: KeyInput(k) in Held({}, s.log) <==>
                  exists v :: v in keys && keys[v] == k && LastDown(es, v))
            && (forall b :: ButtonInput(b) in Held({}, s.log) <==> LastPressed(es, b))
            && forall i :: Alternates(s.log, i)
  {
    if es == [] {
      assert Tracked(FRESH) == {};
    } else {
      var front := es[..|es| - 1];
      InputMirrored(keys, absolute, front);
      assert front + [es[|es| - 1]] == es;
      ApplyMirrors(ApplyAll(keys, absolute, front), keys, absolute, front, es[|es| - 1]);
    }
    var s := ApplyAll(keys, absolute, es);
    MirroredReading(s, keys, es);
  }

  lemma MirroredReading(s: State, keys: Keys, es: seq<Event>)
    requires Mirrors(s, keys, es) && Logged(s)
    ensures forall k :: KeyInput(k) in Held({}, s.log) <==> exists v :: v in keys && keys[v] == k && LastDown(es, v)
    ensures forall b :: ButtonInput(b) in Held({}, s.log) <==> LastPressed(es, b)
  {
    forall k
      ensures KeyInput(k) in Held({}, s.log) <==> exists v :: v in keys && keys[v] == k && LastDown(es, v)
    {
      assert KeyInput(k) in Tracked(s) <==> k in s.possiblyDown;
    }
  }

  // ----- pointer and wheel requests -----

  /** Where the pointer is after these requests. */
  function Pointer(start: Point, ops: seq<Op>): Point {
    if ops == [] then start
    else
      var p := Pointer(start, ops[..|ops| - 1]);
      match ops[|ops| - 1]
      case MoveBy(x, y) => Point(p.x + x, p.y + y)
      case MoveTo(x, y) => Point(x, y)
      case _ => p
  }

  /** Notches these requests have scrolled. */
  function Rolled(ops: seq<Op>): Point {
    if ops == [] then Point(0, 0)
    else
      var p := Rolled(ops[..|ops| - 1]);
      match ops[|ops| - 1]
      case Roll(x, y) => Point(p.x + x, p.y + y)
      case _ => p
  }

  lemma {:induction false} PointerOfConcat(start: Point, a: seq<Op>, b: seq<Op>)
    ensures Pointer(start, a + b) == Pointer(Pointer(start, a), b)
    ensures Rolled(a + b) == Point(Rolled(a).x + Rolled(b).x, Rolled(a).y + Rolled(b).y)
  {
    if b == [] {
      assert a + b == a;
    } else {
      assert (a + b)[..|a + b| - 1] == a + b[..|b| - 1];
      PointerOfConcat(start, a, b[..|b| - 1]);
    }
  }

  lemma {:induction false} MoveOpsAddUp(start: Point, ps: seq<Point>)
    ensures Pointer(start, MoveOps(ps)) == Point(start.x + SumX(ps), start.y + SumY(ps))
    ensures Rolled(MoveOps(ps)) == Point(0, 0)
    decreases |ps|
  {
    if ps != [] {
      var first := [MoveBy(ps[0].x, ps[0].y)];
      PointerOfConcat(start, first, MoveOps(ps[1..]));
      assert first[..0] == [];
      MoveOpsAddUp(Pointer(start, first), ps[1..]);
    }
  }

  lemma {:induction false} RollOpsAddUp(start: Point, ps: seq<Point>)
    ensures Pointer(start, RollOps(ps)) == start && Rolled(RollOps(ps)) == Point(SumX(ps), SumY(ps))
  {
    if ps != [] {
      var first := [Roll(ps[0].x, ps[0].y)];
      PointerOfConcat(start, first, RollOps(ps[1..]));
      assert first[..0] == [];
      RollOpsAddUp(start, ps[1..]);
    }
  }

  lemma {:induction false} RollOpsOfPrefix(ps: seq<Point>, k: nat)
    requires k <= |ps|
    ensures |RollOps(ps)| == |ps| && RollOps(ps)[..k] == RollOps(ps[..k])
  {
    if ps != [] {
      var rest := ps[1..];
      RollOpsOfPrefix(rest, if k > 0 then k - 1 else 0);
      if k > 0 {
        assert ps[..k][0] == ps[0] && ps[..k][1..] == rest[..k - 1];
        assert RollOps(ps)[..k] == [Roll(ps[0].x, ps[0].y)] + RollOps(rest)[..k - 1];
      }
    }
  }

  /** What kvmd has been sent lies between nothing and what there is to send. */
  predicate NotPast(sent: int, wheel: int) {
    Toward(120 * sent, wheel)
  }

  lemma NotchesNotPast(sent: int, wheel: int)
    requires Toward(sent, Notches(wheel))
    ensures NotPast(sent, wheel) && Toward(wheel - 120 * Notches(wheel), wheel)
    ensures -120 < wheel - 120 * Notches(wheel) < 120
  {
  }

  lemma ToNotchesNotPast(ps: seq<Point>, k: nat, x: int, y: int)
    requires ps == Parts(Notches(x), Notches(y)) && k <= |ps|
    ensures NotPast(SumX(ps[..k]), x) && NotPast(SumY(ps[..k]), y)
  {
    hide Notches, Parts;
    PartsApproach(Notches(x), Notches(y), k);
    NotchesNotPast(SumX(ps[..k]), x);
    NotchesNotPast(SumY(ps[..k]), y);
  }

  /** How many of n requests take effect. */
  function Landed(n: nat, fate: Fate): (k: nat)
    ensures k <= n
  {
    if fate.Raised? && fate.landed < n then fate.landed else n
  }

  /**
   A wheel event sends only notches, whatever becomes of the requests, and never more than the wheel has turned
   with what remained of it before: nothing below a notch, nothing against its direction. What remains after it
   is less than a notch and in the direction of the turn; if all was sent, it is the rest.
   */
  lemma WheelNeverOvershoots(s: State, keys: Keys, absolute: bool, dx: int, dy: int, fate: Fate)
    requires InDelta(dx) && InDelta(dy)
    ensures var t, x, y := Applied(s, keys, absolute, Wheel(dx, dy), fate), s.wheelX + dx, s.wheelY + dy;
            && s.log <= t.log
            && var sent := Rolled(t.log[|s.log|..]);
               && NotPast(sent.x, x) && NotPast(sent.y, y)
               && -120 < t.wheelX < 120 && Toward(t.wheelX, x) && -120 < t.wheelY < 120 && Toward(t.wheelY, y)
               && (fate.Done? ==> 120 * sent.x + t.wheelX == x && 120 * sent.y + t.wheelY == y)
               && (-120 < x < 120 && -120 < y < 120 ==> t.log == s.log)
  {
    var x, y := s.wheelX + dx, s.wheelY + dy;
    var ps := Parts(Notches(x), Notches(y));
    var t := Applied(s, keys, absolute, Wheel(dx, dy), fate);
    RollOpsOfPrefix(ps, Landed(|ps|, fate));
    var k := Landed(|ps|, fate);
    assert t.log == s.log + RollOps(ps[..k]) by {
      assert ps[..|ps|] == ps;
    }
    RollOpsAddUp(Point(0, 0), ps[..k]);
    ToNotchesNotPast(ps, k, x, y);
    PartsConserve(Notches(x), Notches(y));
    PartsApproach(Notches(x), Notches(y), |ps|);
    NotchesNotPast(0, x);
    NotchesNotPast(0, y);
    assert t.log[|s.log|..] == RollOps(ps[..k]);
    assert ps[..|ps|] == ps;
  }

  /** The pointer is at p and the wheel input seen so far is w, up to the remainders. */
  ghost predicate Follows(s: State, start: Point, es: seq<Event>) {
    && Pointer(start, s.log) == Final(start, es)
    && 120 * Rolled(s.log).x + s.wheelX == WheelX(Trace(start, es)) && -120 < s.wheelX < 120
    && 120 * Rolled(s.log).y + s.wheelY == WheelY(Trace(start, es)) && -120 < s.wheelY < 120
  }

  /** Events of the lease's own mouse mode; apply() refuses the others. */
  predicate OfMode(e: Event, absolute: bool) {
    (e.Move? ==> !absolute) && (e.Absolute? ==> absolute)
  }

  lemma InputOfSnoc(start: Point, es: seq<Event>, e: Event)
    ensures Final(start, es + [e]) == After(Final(start, es), e)
    ensures WheelX(Trace(start, es + [e])) == WheelX(Trace(start, es)) + (if e.Wheel? then e.notchX else 0)
    ensures WheelY(Trace(start, es + [e])) == WheelY(Trace(start, es)) + (if e.Wheel? then e.notchY else 0)
  {
    TraceOfConcat(start, es, [e]);
    assert [e][1..] == [];
    WheelOfConcat(Trace(start, es), Trace(Final(start, es), [e]));
  }

  lemma StillOps(start: Point, log: seq<Op>, ops: seq<Op>)
    requires |ops| <= 1 && forall op | op in ops :: op.Press? || op.Lift?
    ensures Pointer(start, log + ops) == Pointer(start, log) && Rolled(log + ops) == Rolled(log)
  {
    if ops == [] {
      assert log + ops == log;
    } else {
      assert (log + ops)[..|log|] == log;
    }
  }

  /** A key or button request, if any, leaves pointer and wheel alone. */
  lemma EdgeFollows(s: State, t: State, start: Point, es: seq<Event>, e: Event, ops: seq<Op>)
    requires Follows(s, start, es) && (e.Key? || e.Button?)
    requires t.log == s.log + ops && t.wheelX == s.wheelX && t.wheelY == s.wheelY
    requires |ops| <= 1 && forall op | op in ops :: op.Press? || op.Lift?
    ensures Follows(t, start, es + [e])
  {
    hide Trace, Final, WheelX, WheelY, Pointer, Rolled;
    InputOfSnoc(start, es, e);
    StillOps(start, s.log, ops);
  }

  lemma KeyFollows(s: State, keys: Keys, start: Point, es: seq<Event>, vk: int, down: bool)
    requires Follows(s, start, es) && vk in keys
    ensures Follows(ApplyKey(s, keys, vk, down, Done), start, es + [Key(vk, down)])
  {
    hide Backed, Follows;
    var t := ApplyKey(s, keys, vk, down, Done);
    var ops := if t.log == s.log then [] else [if down then Press(KeyInput(keys[vk])) else Lift(KeyInput(keys[vk]))];
    assert t.log == s.log + ops;
    EdgeFollows(s, t, start, es, Key(vk, down), ops);
  }

  lemma ButtonFollows(s: State, start: Point, es: seq<Event>, b: int, down: bool)
    requires Follows(s, start, es)
    ensures Follows(ApplyButton(s, b, down, Done), start, es + [Button(b, down)])
  {
    hide Follows;
    var t := ApplyButton(s, b, down, Done);
    var ops := if t.log == s.log then [] else [if down then Press(ButtonInput(b)) else Lift(ButtonInput(b))];
    assert t.log == s.log + ops;
    EdgeFollows(s, t, start, es, Button(b, down), ops);
  }

  lemma MoveFollows(s: State, start: Point, es: seq<Event>, dx: int, dy: int)
    requires Follows(s, start, es)
    ensures Follows(Issue(s, MoveOps(Parts(dx, dy)), Done), start, es + [Move(dx, dy)])
  {
    hide Trace, Final, WheelX, WheelY, Parts, MoveOps;
    InputOfSnoc(start, es, Move(dx, dy));
    PartsConserve(dx, dy);
    PointerOfConcat(start, s.log, MoveOps(Parts(dx, dy)));
    MoveOpsAddUp(Pointer(start, s.log), Parts(dx, dy));
  }

  lemma AbsoluteFollows(s: State, start: Point, es: seq<Event>, x: int, y: int)
    requires Follows(s, start, es)
    ensures Follows(Issue(s, [MoveTo(x, y)], Done), start, es + [Absolute(x, y)])
  {
    hide Trace, Final, WheelX, WheelY;
    InputOfSnoc(start, es, Absolute(x, y));
    PointerOfConcat(start, s.log, [MoveTo(x, y)]);
    assert [MoveTo(x, y)][..0] == [];
  }

  lemma WheelFollows(s: State, keys: Keys, absolute: bool, start: Point, es: seq<Event>, dx: int, dy: int)
    requires Follows(s, start, es) && InDelta(dx) && InDelta(dy)
    ensures Follows(Applied(s, keys, absolute, Wheel(dx, dy), Done), start, es + [Wheel(dx, dy)])
  {
    hide Trace, Final, WheelX, WheelY, Parts, RollOps;
    var x, y := Notches(s.wheelX + dx), Notches(s.wheelY + dy);
    InputOfSnoc(start, es, Wheel(dx, dy));
    PartsConserve(x, y);
    PointerOfConcat(start, s.log, RollOps(Parts(x, y)));
    RollOpsAddUp(Pointer(start, s.log), Parts(x, y));
  }

  lemma ApplyFollows(s: State, keys: Keys, absolute: bool, start: Point, es: seq<Event>, e: Event)
    requires Follows(s, start, es) && Parsed(e, keys) && OfMode(e, absolute)
    ensures Follows(Applied(s, keys, absolute, e, Done), start, es + [e])
  {
    hide Follows, ApplyKey, ApplyButton, Issue;
    match e
    case Key(vk, down) => KeyFollows(s, keys, start, es, vk, down);
    case Button(b, down) => ButtonFollows(s, start, es, b, down);
    case Move(dx, dy) => MoveFollows(s, start, es, dx, dy);
    case Absolute(x, y) => AbsoluteFollows(s, start, es, x, y);
    case Wheel(dx, dy) => WheelFollows(s, keys, absolute, start, es, dx, dy);
  }

  /**
   The requests put the pointer where the events do, and 120 times the notches requested plus the
   remainder is all the wheel input, with less than a notch remaining.
   */
  lemma {:induction false} RequestsFollowInput(keys: Keys, absolute: bool, start: Point, es: seq<Event>)
    requires forall e | e in es :: Parsed(e, keys) && OfMode(e, absolute)
    ensures Follows(ApplyAll(keys, absolute, es), start, es)
  {
    if es != [] {
      var front := es[..|es| - 1];
      RequestsFollowInput(keys, absolute, start, front);
      ApplyFollows(ApplyAll(keys, absolute, front), keys, absolute, start, front, es[|es| - 1]);
      assert front + [es[|es| - 1]] == es;
    }
  }

  /**
   From submit to request, through both queues however they interleave: the server's checks accept all that
   arrives, if the key codes are known; once the queues are empty the pointer is where the submitted events
   put it and less than one notch of wheel input is unrequested.
   */
  lemma RequestsFollowSubmits(keys: Keys, absolute: bool, start: Point, hops: seq<Queues.Hop>)
    requires var p := Queues.Run(hops, absolute);
             && p.near == p.wire == p.far == []
             && forall e | e in p.applied :: e.Key? ==> e.vk in keys
    ensures var p := Queues.Run(hops, absolute);
            && (forall e | e in p.applied :: Parsed(e, keys) && OfMode(e, absolute))
            && Follows(ApplyAll(keys, absolute, p.applied), start, p.raw)
  {
    var p := Queues.Run(hops, absolute);
    Queues.PathKeepsInput(hops, absolute);
    assert Trace(start, p.applied) == Trace(start, p.raw);
    RequestsFollowInput(keys, absolute, start, p.applied);
  }

  // ----- the class -----

  lemma KeyReleased(s: State, k: nat, fate: Fate)
    requires k in s.possiblyDown
    ensures var t := Issue(s, [Lift(KeyInput(k))], fate);
            ReleaseOne(s, KeyInput(k), fate) == if fate.Done? then t.(possiblyDown := s.possiblyDown - {k}) else t
  {
    assert KeyInput(k) in Tracked(s);
  }

  lemma ButtonReleased(s: State, b: int, fate: Fate)
    requires b in s.buttons
    ensures var t := Issue(s, [Lift(ButtonInput(b))], fate);
            ReleaseOne(s, ButtonInput(b), fate) == if fate.Done? then t.(buttons := s.buttons - {b}) else t
  {
    assert ButtonInput(b) in Tracked(s);
  }

  /** Whether apply() sends kvmd anything for e. */
  predicate Asks(s: State, keys: Keys, e: Event)
    requires Parsed(e, keys)
  {
    match e
    case Key(vk, down) =>
      if down then vk !in s.virtual && !Backed(keys, s.virtual, keys[vk])
      else !Backed(keys, s.virtual - {vk}, keys[vk]) && keys[vk] in s.possiblyDown
    case Button(b, down) => down != (b in s.buttons)
    case Move(dx, dy) => dx != 0 || dy != 0
    case Absolute(_, _) => true
    case Wheel(dx, dy) => Notches(s.wheelX + dx) != 0 || Notches(s.wheelY + dy) != 0
  }

  class Lease {
    const keys: Keys
    const absolute: bool
    var virtual: set<int>
    var possiblyDown: set<nat>
    var buttons: set<int>
    var wheelX: int
    var wheelY: int
    ghost var log: seq<Op>

    ghost function View(): State
      reads this
    {
      State(virtual, possiblyDown, buttons, wheelX, wheelY, log)
    }

    constructor (table: Keys, absoluteMouse: bool)
      ensures View() == FRESH && keys == table && absolute == absoluteMouse
    {
      keys, absolute := table, absoluteMouse;
      virtual, possiblyDown, buttons, wheelX, wheelY, log := {}, {}, {}, 0, 0, [];
    }

    /** apply(): false is an exception, from kvmd or for motion of the other mouse mode. */
    method Apply(e: Event, fate: Fate) returns (ok: bool)
      requires Parsed(e, keys)
      modifies this
      ensures View() == Applied(old(View()), keys, absolute, e, fate)
      ensures ok <==> OfMode(e, absolute) && (fate.Done? || !Asks(old(View()), keys, e))
    {
      hide ApplyKey, ApplyButton, Backed, Notches, Parts, MoveOps, RollOps;
      match e {
        case Key(vk, down) => ok := Typed(vk, down, fate);
        case Button(b, down) => ok := Clicked(b, down, fate);
        case Move(dx, dy) =>
          if absolute {
            return false;
          }
          ok := Moved(dx, dy, fate);
        case Absolute(x, y) =>
          if !absolute {
            return false;
          }
          log := Issue(View(), [MoveTo(x, y)], fate).log;
          ok := fate.Done?;
        case Wheel(dx, dy) => ok := Scrolled(dx, dy, fate);
      }
    }

    /** The key branch of apply(). */
    method Typed(vk: int, down: bool, fate: Fate) returns (ok: bool)
      requires vk in keys
      modifies this
      ensures View() == ApplyKey(old(View()), keys, vk, down, fate)
      ensures ok <==> fate.Done? ||
                      if down then vk in old(virtual) || Backed(keys, old(virtual), keys[vk])
                      else Backed(keys, old(virtual) - {vk}, keys[vk]) || keys[vk] !in old(possiblyDown)
    {
      var key := keys[vk];
      if down {
        if vk in virtual {
          return true;
        }
        var already := exists v | v in virtual :: v in keys && keys[v] == key;
        virtual := virtual + {vk};
        if already {
          return true;
        }
        possiblyDown := possiblyDown + {key};
        log := Issue(View(), [Press(KeyInput(key))], fate).log;
        return fate.Done?;
      }
      virtual := virtual - {vk};
      if !Backed(keys, virtual, key) && key in possiblyDown {
        log := Issue(View(), [Lift(KeyInput(key))], fate).log;
        if fate.Raised? {
          return false;
        }
        possiblyDown := possiblyDown - {key};
      }
      return true;
    }

    /** The button branch of apply(). */
    method Clicked(b: int, down: bool, fate: Fate) returns (ok: bool)
      modifies this`buttons, this`log
      ensures View() == ApplyButton(old(View()), b, down, fate)
      ensures ok <==> fate.Done? || down == (b in old(buttons))
    {
      if down {
        if b in buttons {
          return true;
        }
        buttons := buttons + {b};
        log := Issue(View(), [Press(ButtonInput(b))], fate).log;
        return fate.Done?;
      }
      if b !in buttons {
        return true;
      }
      log := Issue(View(), [Lift(ButtonInput(b))], fate).log;
      if fate.Raised? {
        return false;
      }
      buttons := buttons - {b};
      return true;
    }

    /** Relative motion. */
    method Moved(dx: int, dy: int, fate: Fate) returns (ok: bool)
      modifies this`log
      ensures View() == Issue(old(View()), MoveOps(Parts(dx, dy)), fate)
      ensures ok <==> fate.Done? || (dx == 0 && dy == 0)
    {
      var parts := Chunks(dx, dy);
      log := Issue(View(), MoveOps(parts), fate).log;
      return fate.Done? || parts == [];
    }

    /** The wheel branch of apply(): the remainders are updated before the requests. */
    method Scrolled(dx: int, dy: int, fate: Fate) returns (ok: bool)
      requires InDelta(dx) && InDelta(dy)
      modifies this`wheelX, this`wheelY, this`log
      ensures View() == Applied(old(View()), keys, absolute, Wheel(dx, dy), fate)
      ensures ok <==> fate.Done? || (Notches(old(wheelX) + dx) == 0 && Notches(old(wheelY) + dy) == 0)
    {
      hide Notches;
      wheelX, wheelY := wheelX + dx, wheelY + dy;
      var x, y := Notches(wheelX), Notches(wheelY);
      wheelX, wheelY := wheelX - x * 120, wheelY - y * 120;
      var parts := Chunks(x, y);
      log := Issue(View(), RollOps(parts), fate).log;
      return fate.Done? || parts == [];
    }

    /** release(): one request per tracked input, in any order; what fails stays tracked. */
    method Release(answers: Input -> Fate) returns (neutral: bool, ghost tries: seq<(Input, Fate)>)
      modifies this
      ensures View() == ReleaseAll(Cleared(old(View())), tries)
      ensures possiblyDown == set k | k in old(possiblyDown) && answers(KeyInput(k)).Raised?
      ensures buttons == set b | b in old(buttons) && answers(ButtonInput(b)).Raised?
      ensures neutral <==> possiblyDown == {} && buttons == {}
    {
      hide Tracked, Issue, Held;
      virtual, wheelX, wheelY := {}, 0, 0;
      tries := ReleaseKeys(answers, Cleared(old(View())));
      tries := ReleaseButtons(answers, Cleared(old(View())), tries);
      neutral := possiblyDown == {} && buttons == {};
    }

    method ReleaseKeys(answers: Input -> Fate, ghost first: State) returns (ghost tries: seq<(Input, Fate)>)
      requires View() == first
      modifies this`possiblyDown, this`log
      ensures View() == ReleaseAll(first, tries)
      ensures possiblyDown == set k | k in old(possiblyDown) && answers(KeyInput(k)).Raised?
    {
      tries := [];
      hide ReleaseAll;
      assert View() == ReleaseAll(first, tries) by {
        NothingTried(first);
      }
      var todo := possiblyDown;
      while todo != {}
        invariant View() == ReleaseAll(first, tries)
        invariant todo <= possiblyDown <= old(possiblyDown)
        invariant forall k | k in old(possiblyDown) - todo :: k in possiblyDown <==> answers(KeyInput(k)).Raised?
        decreases todo
      {
        var k :| k in todo;
        tries := LiftKey(k, answers(KeyInput(k)), first, tries);
        todo := todo - {k};
      }
    }

    /** One key of the loop: an exception leaves it tracked. */
    method LiftKey(k: nat, fate: Fate, ghost first: State, ghost already: seq<(Input, Fate)>)
      returns (ghost tries: seq<(Input, Fate)>)
      requires k in possiblyDown && View() == ReleaseAll(first, already)
      modifies this`possiblyDown, this`log
      ensures View() == ReleaseAll(first, tries)
      ensures possiblyDown == if fate.Done? then old(possiblyDown) - {k} else old(possiblyDown)
    {
      hide Held, Tracked, ReleaseOne, ReleaseAll, Issue;
      KeyReleased(View(), k, fate);
      IssueOnlyLogs(View(), [Lift(KeyInput(k))], fate);
      ReleaseAllSnoc(first, already, KeyInput(k), fate);
      log := Issue(View(), [Lift(KeyInput(k))], fate).log;
      if fate.Done? {
        possiblyDown := possiblyDown - {k};
      }
      tries := already + [(KeyInput(k), fate)];
    }

    method ReleaseButtons(answers: Input -> Fate, ghost first: State, ghost already: seq<(Input, Fate)>)
      returns (ghost tries: seq<(Input, Fate)>)
      requires View() == ReleaseAll(first, already)
      modifies this`buttons, this`log
      ensures View() == ReleaseAll(first, tries)
      ensures buttons == set b | b in old(buttons) && answers(ButtonInput(b)).Raised?
    {
      tries := already;
      hide ReleaseAll;
      var todo := buttons;
      while todo != {}
        invariant View() == ReleaseAll(first, tries)
        invariant todo <= buttons <= old(buttons)
        invariant forall b | b in old(buttons) - todo :: b in buttons <==> answers(ButtonInput(b)).Raised?
        decreases todo
      {
        assert exists b :: b in todo by {
          assert (forall b :: b !in todo) ==> todo == {};
        }
        var b :| b in todo;
        tries := LiftButton(b, answers(ButtonInput(b)), first, tries);
        todo := todo - {b};
      }
    }

    method LiftButton(b: int, fate: Fate, ghost first: State, ghost already: seq<(Input, Fate)>)
      returns (ghost tries: seq<(Input, Fate)>)
      requires b in buttons && View() == ReleaseAll(first, already)
      modifies this`buttons, this`log
      ensures View() == ReleaseAll(first, tries)
      ensures buttons == if fate.Done? then old(buttons) - {b} else old(buttons)
    {
      hide Held, Tracked, ReleaseOne, ReleaseAll, Issue;
      ButtonReleased(View(), b, fate);
      IssueOnlyLogs(View(), [Lift(ButtonInput(b))], fate);
      ReleaseAllSnoc(first, already, ButtonInput(b), fate);
      log := Issue(View(), [Lift(ButtonInput(b))], fate).log;
      if fate.Done? {
        buttons := buttons - {b};
      }
      tries := already + [(ButtonInput(b), fate)];
    }
  }

  lemma IssueOnlyLogs(s: State, ops: seq<Op>, fate: Fate)
    ensures Issue(s, ops, fate) == s.(log := Issue(s, ops, fate).log)
  {
  }

  lemma ReleaseAllSnoc(s: State, tries: seq<(Input, Fate)>, input: Input, fate: Fate)
    ensures ReleaseAll(s, tries + [(input, fate)]) == ReleaseOne(ReleaseAll(s, tries), input, fate)
  {
    assert (tries + [(input, fate)])[..|tries|] == tries;
  }

  lemma NothingTried(s: State)
    ensures ReleaseAll(s, []) == s
  {
  }
}
