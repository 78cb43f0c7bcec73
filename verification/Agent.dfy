/**
 The peer-to-peer agent's bookkeeping of punch callbacks: submitted punches wait to be picked up, are
 in flight, or have become a session whose route owes its waiters an answer. Submitting touches only
 the pending list, under its lock; everything else belongs to the tick thread until Stop has joined
 it. What the punch machines, the sessions and the clock say is given from outside.
 */
module Agents {
  import opened Options

  type Callback = nat

  datatype Result = Success | AlreadyStopped | InvalidAddress | InvalidArgument | CannotConnect | Timeout | Refused(code: nat)

  // A punch in flight: whom to tell, if anybody, and the route keys its reflexive candidates name.
  datatype Punch = Punch(onDone: Option<Callback>, reflexive: seq<string>)

  datatype Route = Route(key: string, remoteGuid: nat, waiters: seq<Callback>)

  datatype Done = Done(callback: Callback, result: Result)

  datatype State = State(pending: seq<Punch>, punches: seq<Punch>, routes: seq<Route>, resolved: seq<Done>)

  // --- Who is owed an answer ---------------------------------------------------------------

  function HeldBy(o: Option<Callback>, c: Callback): nat
  {
    if o == Some(c) then 1 else 0
  }

  // How often a callback stands among the punches, the waiters of one route or of all, the answered.
  function Asking(ps: seq<Punch>, c: Callback): nat
  {
    if ps == [] then 0 else HeldBy(ps[0].onDone, c) + Asking(ps[1..], c)
  }

  function Times(cs: seq<Callback>, c: Callback): nat
  {
    if cs == [] then 0 else (if cs[0] == c then 1 else 0) + Times(cs[1..], c)
  }

  function Waiting(rs: seq<Route>, c: Callback): nat
  {
    if rs == [] then 0 else Times(rs[0].waiters, c) + Waiting(rs[1..], c)
  }

  function Answered(ds: seq<Done>, c: Callback): nat
  {
    if ds == [] then 0 else (if ds[0].callback == c then 1 else 0) + Answered(ds[1..], c)
  }

  // How often the agent has a callback, wherever.
  function Accounted(s: State, c: Callback): nat
  {
    Asking(s.pending, c) + Asking(s.punches, c) + Waiting(s.routes, c) + Answered(s.resolved, c)
  }

  lemma {:induction false} AskingJoin(a: seq<Punch>, b: seq<Punch>, c: Callback)
    ensures Asking(a + b, c) == Asking(a, c) + Asking(b, c)
    decreases |a|
  {
    if a == [] {
      assert a + b == b;
    } else {
      AskingJoin(a[1..], b, c);
      assert (a + b)[1..] == a[1..] + b;
    }
  }

  lemma {:induction false} TimesJoin(a: seq<Callback>, b: seq<Callback>, c: Callback)
    ensures Times(a + b, c) == Times(a, c) + Times(b, c)
    decreases |a|
  {
    if a == [] {
      assert a + b == b;
    } else {
      TimesJoin(a[1..], b, c);
      assert (a + b)[1..] == a[1..] + b;
    }
  }

  lemma {:induction false} WaitingJoin(a: seq<Route>, b: seq<Route>, c: Callback)
    ensures Waiting(a + b, c) == Waiting(a, c) + Waiting(b, c)
    decreases |a|
  {
    if a == [] {
      assert a + b == b;
    } else {
      WaitingJoin(a[1..], b, c);
      assert (a + b)[1..] == a[1..] + b;
    }
  }

  lemma {:induction false} AnsweredJoin(a: seq<Done>, b: seq<Done>, c: Callback)
    ensures Answered(a + b, c) == Answered(a, c) + Answered(b, c)
    decreases |a|
  {
    if a == [] {
      assert a + b == b;
    } else {
      AnsweredJoin(a[1..], b, c);
      assert (a + b)[1..] == a[1..] + b;
    }
  }

  // --- The operations ----------------------------------------------------------------------

  // One result to each of them, in order.
  function All(cs: seq<Callback>, result: Result): seq<Done>
  {
    if cs == [] then [] else [Done(cs[0], result)] + All(cs[1..], result)
  }

  function Told(c: Option<Callback>, result: Result): seq<Done>
  {
    if c.Some? then [Done(c.value, result)] else []
  }

  function Submitting(s: State, running: bool, p: Punch): State
  {
    if running then s.(pending := s.pending + [p]) else s.(resolved := s.resolved + Told(p.onDone, AlreadyStopped))
  }

  // Turned away before it was ever pending.
  function Refusing(s: State, p: Punch, reason: Result): State
  {
    s.(resolved := s.resolved + Told(p.onDone, reason))
  }

  function PickingUp(s: State): State
  {
    s.(punches := s.punches + s.pending, pending := [])
  }

  function IndexOf(routes: seq<Route>, key: string): (k: nat)
    ensures k <= |routes| && (k < |routes| ==> routes[k].key == key)
    ensures k == |routes| ==> forall i | 0 <= i < |routes| :: routes[i].key != key
  {
    if routes == [] then 0 else if routes[0].key == key then 0 else 1 + IndexOf(routes[1..], key)
  }

  // The route of the first key that has one.
  function FirstRoute(routes: seq<Route>, keys: seq<string>): (k: nat)
    ensures k <= |routes|
  {
    if keys == [] then |routes|
    else if IndexOf(routes, keys[0]) < |routes| then IndexOf(routes, keys[0])
    else FirstRoute(routes, keys[1..])
  }

  // TickPunches' first loop, over the punches from index i on: one toward a peer that already routes
  // is settled with that route's session, or joins its waiters.
  function Matching(s: State, i: nat, ready: string -> bool): State
    requires i <= |s.punches|
    decreases |s.punches| - i
  {
    if i == |s.punches| then s
    else
      var p := s.punches[i];
      var k := FirstRoute(s.routes, p.reflexive);
      if k == |s.routes| then Matching(s, i + 1, ready) else Matching(Joining(s, i, k, ready), i, ready)
  }

  function Joining(s: State, i: nat, k: nat, ready: string -> bool): (t: State)
    requires i < |s.punches| && k < |s.routes|
    ensures |t.punches| == |s.punches| - 1
  {
    var c := s.punches[i].onDone;
    var t := s.(punches := s.punches[..i] + s.punches[i + 1..]);
    if c.None? then t
    else if ready(s.routes[k].key) then t.(resolved := t.resolved + [Done(c.value, Success)])
    else t.(routes := t.routes[k := s.routes[k].(waiters := s.routes[k].waiters + [c.value])])
  }

  function Failing(s: State, i: nat, reason: Result): (t: State)
    requires i < |s.punches|
    ensures |t.punches| == |s.punches| - 1
  {
    s.(punches := s.punches[..i] + s.punches[i + 1..], resolved := s.resolved + Told(s.punches[i].onDone, reason))
  }

  // Its second loop: machines that have given up. The machine ticked at each turn speaks for itself.
  function Ticking(s: State, i: nat, turn: nat, verdict: nat -> Option<Result>): State
    requires i <= |s.punches|
    decreases |s.punches| - i
  {
    if i == |s.punches| then s
    else
      match verdict(turn)
      case Some(reason) => Ticking(Failing(s, i, reason), i, turn + 1, verdict)
      case None => Ticking(s, i + 1, turn + 1, verdict)
  }

  // What ProcessSessions finds a route's session to be.
  datatype Health = Dead | Ready | Overdue | Handshaking

  // One route: the answer its waiters get, if any, and whether it stays.
  function Answer(health: Health): Option<Result>
  {
    match health
    case Dead => Some(CannotConnect)
    case Ready => Some(Success)
    case Overdue => Some(Timeout)
    case Handshaking => None
  }

  predicate Leaves(r: Route, health: Health)
  {
    health.Dead? || (health.Overdue? && r.waiters != [])
  }

  function Settling(s: State, i: nat, health: Health): State
    requires i < |s.routes|
  {
    var r := s.routes[i];
    var t := if Answer(health).Some? then s.(resolved := s.resolved + All(r.waiters, Answer(health).value),
                                             routes := s.routes[i := r.(waiters := [])])
             else s;
    if Leaves(r, health) then t.(routes := t.routes[..i] + t.routes[i + 1..]) else t
  }

  function Processing(s: State, i: nat, health: string -> Health): State
    requires i <= |s.routes|
    decreases |s.routes| - i
  {
    if i == |s.routes| then s
    else
      var h := health(s.routes[i].key);
      var t := Settling(s, i, h);
      if Leaves(s.routes[i], h) then Processing(t, i, health) else Processing(t, i + 1, health)
  }

  // routes_[key] = route: replaces what is there.
  function Assigned(routes: seq<Route>, r: Route): seq<Route>
  {
    var k := IndexOf(routes, r.key);
    if k < |routes| then routes[k := r] else routes + [r]
  }

  function Completing(s: State, i: nat, key: string, guid: nat): State
    requires i < |s.punches|
  {
    var c := s.punches[i].onDone;
    s.(punches := s.punches[..i] + s.punches[i + 1..],
       routes := Assigned(s.routes, Route(key, guid, if c.Some? then [c.value] else [])))
  }

  function GuidIndex(routes: seq<Route>, guid: nat): (k: nat)
    ensures k <= |routes| && (k < |routes| ==> routes[k].remoteGuid == guid)
  {
    if routes == [] then 0 else if routes[0].remoteGuid == guid then 0 else 1 + GuidIndex(routes[1..], guid)
  }

  function Migrating(s: State, key: string, guid: nat, alive: bool): State
  {
    var k := GuidIndex(s.routes, guid);
    if k == |s.routes| || !alive || s.routes[k].key == key then s
    else s.(routes := Assigned(s.routes[..k] + s.routes[k + 1..], s.routes[k].(key := key)))
  }

  // What a datagram from an address without a route turns out to be. A completed punch names the
  // same address and channel.
  datatype Reaction =
    | Ignored
    | PathResponse(guid: nat, verified: bool, alive: bool)
    | Completed(index: nat, guid: nat)
    | Failed(index: nat, reason: Result)

  function Draining(s: State, key: string, reaction: Reaction): State
    requires reaction.Completed? ==> reaction.index < |s.punches|
    requires reaction.Failed? ==> reaction.index < |s.punches|
  {
    if IndexOf(s.routes, key) < |s.routes| then s
    else
      match reaction
      case Ignored => s
      case PathResponse(guid, verified, alive) => if verified then Migrating(s, key, guid, alive) else s
      case Completed(i, guid) => Completing(s, i, key, guid)
      case Failed(i, reason) => Failing(s, i, reason)
  }

  // Stop, once the tick thread is gone.
  function Closing(s: State): State
  {
    State([], [], [], s.resolved + AllPunches(s.punches + s.pending) + AllWaiters(s.routes))
  }

  function AllPunches(ps: seq<Punch>): seq<Done>
  {
    if ps == [] then [] else Told(ps[0].onDone, AlreadyStopped) + AllPunches(ps[1..])
  }

  function AllWaiters(rs: seq<Route>): seq<Done>
  {
    if rs == [] then [] else All(rs[0].waiters, AlreadyStopped) + AllWaiters(rs[1..])
  }

  // --- Nothing is lost, nothing is answered twice ------------------------------------------

  ghost predicate Distinct(routes: seq<Route>)
  {
    forall i, j | 0 <= i < j < |routes| :: routes[i].key != routes[j].key
  }

  lemma {:induction false} AnsweredAll(cs: seq<Callback>, result: Result, c: Callback)
    ensures Answered(All(cs, result), c) == Times(cs, c)
    decreases |cs|
  {
    if cs != [] {
      AnsweredAll(cs[1..], result, c);
      assert All(cs, result)[1..] == All(cs[1..], result);
    }
  }

  lemma AnsweredOne(o: Option<Callback>, result: Result, c: Callback)
    ensures Answered(Told(o, result), c) == HeldBy(o, c)
  {
    assert o.Some? ==> [Done(o.value, result)][1..] == [];
  }

  lemma AnsweredMore(ds: seq<Done>, o: Option<Callback>, result: Result, c: Callback)
    ensures Answered(ds + Told(o, result), c) == Answered(ds, c) + HeldBy(o, c)
  {
    AnsweredJoin(ds, Told(o, result), c);
    AnsweredOne(o, result, c);
  }

  // Taking one punch out takes its callback out.
  lemma AskingWithout(ps: seq<Punch>, i: nat, c: Callback)
    requires i < |ps|
    ensures Asking(ps, c) == Asking(ps[..i] + ps[i + 1..], c) + HeldBy(ps[i].onDone, c)
  {
    AskingJoin(ps[..i], ps[i..], c);
    AskingJoin(ps[..i], ps[i + 1..], c);
    assert ps == ps[..i] + ps[i..];
    assert ps[i..][1..] == ps[i + 1..];
  }

  lemma WaitingWithout(rs: seq<Route>, i: nat, c: Callback)
    requires i < |rs|
    ensures Waiting(rs, c) == Waiting(rs[..i] + rs[i + 1..], c) + Times(rs[i].waiters, c)
  {
    WaitingJoin(rs[..i], rs[i..], c);
    WaitingJoin(rs[..i], rs[i + 1..], c);
    assert rs == rs[..i] + rs[i..];
    assert rs[i..][1..] == rs[i + 1..];
  }

  lemma WaitingUpdated(rs: seq<Route>, i: nat, r: Route, c: Callback)
    requires i < |rs|
    ensures Waiting(rs[i := r], c) + Times(rs[i].waiters, c) == Waiting(rs, c) + Times(r.waiters, c)
  {
    WaitingWithout(rs, i, c);
    WaitingWithout(rs[i := r], i, c);
    assert rs[i := r][..i] + rs[i := r][i + 1..] == rs[..i] + rs[i + 1..];
  }

  lemma WaitingMore(rs: seq<Route>, r: Route, c: Callback)
    ensures Waiting(rs + [r], c) == Waiting(rs, c) + Times(r.waiters, c)
  {
    WaitingJoin(rs, [r], c);
    assert [r][1..] == [];
  }

  lemma SubmitConserves(s: State, running: bool, p: Punch, c: Callback)
    ensures Accounted(Submitting(s, running, p), c) == Accounted(s, c) + HeldBy(p.onDone, c)
  {
    AskingJoin(s.pending, [p], c);
    assert [p][1..] == [];
    AnsweredMore(s.resolved, p.onDone, AlreadyStopped, c);
  }

  lemma RefuseConserves(s: State, p: Punch, reason: Result, c: Callback)
    ensures Accounted(Refusing(s, p, reason), c) == Accounted(s, c) + HeldBy(p.onDone, c)
  {
    AnsweredMore(s.resolved, p.onDone, reason, c);
  }

  lemma PickUpConserves(s: State, c: Callback)
    ensures Accounted(PickingUp(s), c) == Accounted(s, c)
  {
    AskingJoin(s.punches, s.pending, c);
  }

  lemma JoinConserves(s: State, i: nat, k: nat, ready: string -> bool, c: Callback)
    requires i < |s.punches| && k < |s.routes| && Distinct(s.routes)
    ensures Accounted(Joining(s, i, k, ready), c) == Accounted(s, c) && Distinct(Joining(s, i, k, ready).routes)
  {
    hide Asking, Waiting, Answered;
    AskingWithout(s.punches, i, c);
    var o := s.punches[i].onDone;
    if o.Some? {
      AnsweredMore(s.resolved, o, Success, c);
      var w := s.routes[k].waiters;
      TimesJoin(w, [o.value], c);
      assert [o.value][1..] == [];
      WaitingUpdated(s.routes, k, s.routes[k].(waiters := w + [o.value]), c);
    }
  }

  lemma {:induction false} MatchConserves(s: State, i: nat, ready: string -> bool, c: Callback)
    requires i <= |s.punches| && Distinct(s.routes)
    ensures Accounted(Matching(s, i, ready), c) == Accounted(s, c) && Distinct(Matching(s, i, ready).routes)
    decreases |s.punches| - i
  {
    if i < |s.punches| {
      hide Accounted, Distinct, Joining;
      var k := FirstRoute(s.routes, s.punches[i].reflexive);
      if k == |s.routes| {
        MatchConserves(s, i + 1, ready, c);
      } else {
        JoinConserves(s, i, k, ready, c);
        MatchConserves(Joining(s, i, k, ready), i, ready, c);
      }
    }
  }

  lemma FailConserves(s: State, i: nat, reason: Result, c: Callback)
    requires i < |s.punches|
    ensures Accounted(Failing(s, i, reason), c) == Accounted(s, c) && Failing(s, i, reason).routes == s.routes
  {
    AskingWithout(s.punches, i, c);
    AnsweredMore(s.resolved, s.punches[i].onDone, reason, c);
  }

  lemma {:induction false} TickConserves(s: State, i: nat, turn: nat, verdict: nat -> Option<Result>, c: Callback)
    requires i <= |s.punches|
    ensures var t := Ticking(s, i, turn, verdict); Accounted(t, c) == Accounted(s, c) && t.routes == s.routes
    decreases |s.punches| - i
  {
    if i < |s.punches| {
      hide Accounted, Failing;
      match verdict(turn)
      case Some(reason) =>
        FailConserves(s, i, reason, c);
        TickConserves(Failing(s, i, reason), i, turn + 1, verdict, c);
      case None => TickConserves(s, i + 1, turn + 1, verdict, c);
    }
  }

  lemma TickPunchesConserves(s: State, ready: string -> bool, verdict: nat -> Option<Result>, c: Callback)
    requires Distinct(s.routes)
    ensures var t := Ticking(Matching(PickingUp(s), 0, ready), 0, 0, verdict);
            Accounted(t, c) == Accounted(s, c) && Distinct(t.routes)
  {
    hide Accounted, Distinct, Matching, Ticking;
    PickUpConserves(s, c);
    MatchConserves(PickingUp(s), 0, ready, c);
    TickConserves(Matching(PickingUp(s), 0, ready), 0, 0, verdict, c);
  }

  lemma DistinctWithout(rs: seq<Route>, i: nat)
    requires i < |rs| && Distinct(rs)
    ensures Distinct(rs[..i] + rs[i + 1..])
  {
  }

  lemma SettleConserves(s: State, i: nat, health: Health, c: Callback)
    requires i < |s.routes| && Distinct(s.routes)
    ensures Accounted(Settling(s, i, health), c) == Accounted(s, c) && Distinct(Settling(s, i, health).routes)
    ensures |Settling(s, i, health).routes| == if Leaves(s.routes[i], health) then |s.routes| - 1 else |s.routes|
  {
    var r := s.routes[i];
    if Answer(health).Some? {
      var result := Answer(health).value;
      AnsweredJoin(s.resolved, All(r.waiters, result), c);
      AnsweredAll(r.waiters, result, c);
      var emptied := s.routes[i := r.(waiters := [])];
      WaitingUpdated(s.routes, i, r.(waiters := []), c);
      WaitingWithout(emptied, i, c);
      DistinctWithout(emptied, i);
    }
  }

  lemma {:induction false} ProcessConserves(s: State, i: nat, health: string -> Health, c: Callback)
    requires i <= |s.routes| && Distinct(s.routes)
    ensures Accounted(Processing(s, i, health), c) == Accounted(s, c) && Distinct(Processing(s, i, health).routes)
    decreases |s.routes| - i
  {
    if i < |s.routes| {
      hide Accounted, Distinct, Settling, Leaves;
      var h := health(s.routes[i].key);
      SettleConserves(s, i, h, c);
      if Leaves(s.routes[i], h) {
        ProcessConserves(Settling(s, i, h), i, health, c);
      } else {
        ProcessConserves(Settling(s, i, h), i + 1, health, c);
      }
    }
  }

  /** Finishing a punch never replaces a route: DrainSocket got here because the address has none. */
  lemma CompleteConserves(s: State, i: nat, key: string, guid: nat, c: Callback)
    requires i < |s.punches| && Distinct(s.routes) && IndexOf(s.routes, key) == |s.routes|
    ensures var t := Completing(s, i, key, guid);
            && Accounted(t, c) == Accounted(s, c) && Distinct(t.routes)
            && s.routes <= t.routes && |t.routes| == |s.routes| + 1
            && var r := t.routes[|s.routes|];
               r.key == key && r.remoteGuid == guid && Times(r.waiters, c) == HeldBy(s.punches[i].onDone, c)
  {
    AskingWithout(s.punches, i, c);
    var o := s.punches[i].onDone;
    var r := Route(key, guid, if o.Some? then [o.value] else []);
    WaitingMore(s.routes, r, c);
    assert o.Some? ==> [o.value][1..] == [];
  }

  /** Nor does a migration: the moved session takes its waiters along to a key nobody holds. */
  lemma MigrateConserves(s: State, key: string, guid: nat, alive: bool, c: Callback)
    requires Distinct(s.routes) && IndexOf(s.routes, key) == |s.routes|
    ensures var t := Migrating(s, key, guid, alive);
            Accounted(t, c) == Accounted(s, c) && Distinct(t.routes) && |t.routes| == |s.routes|
  {
    var k := GuidIndex(s.routes, guid);
    if k < |s.routes| && alive && s.routes[k].key != key {
      var rest, moved := s.routes[..k] + s.routes[k + 1..], s.routes[k].(key := key);
      StillFree(s.routes, k, key);
      DistinctWithout(s.routes, k);
      WaitingWithout(s.routes, k, c);
      WaitingMore(rest, moved, c);
    }
  }

  lemma {:induction false} GuidFound(rs: seq<Route>, guid: nat, r: Route)
    requires r in rs && r.remoteGuid == guid
    ensures GuidIndex(rs, guid) < |rs|
    decreases |rs|
  {
    if rs[0].remoteGuid != guid {
      GuidFound(rs[1..], guid, r);
    }
  }

  /** A migration moves the session it names, if that is alive, and no other. */
  lemma MigrateMoves(s: State, key: string, guid: nat, alive: bool)
    requires IndexOf(s.routes, key) == |s.routes|
    ensures var t := Migrating(s, key, guid, alive);
            && (!alive ==> t == s)
            && (forall r | r in s.routes && r.remoteGuid != guid :: r in t.routes)
            && (alive && (exists r :: r in s.routes && r.remoteGuid == guid) ==>
                  exists r :: r in s.routes && r.remoteGuid == guid && r.(key := key) in t.routes)
  {
    var k := GuidIndex(s.routes, guid);
    if r :| r in s.routes && r.remoteGuid == guid {
      GuidFound(s.routes, guid, r);
    }
    if k < |s.routes| && alive {
      var r := s.routes[k];
      assert r in s.routes && r.key != key;
      StillFree(s.routes, k, key);
      var rest := s.routes[..k] + s.routes[k + 1..];
      var t := Migrating(s, key, guid, alive);
      hide IndexOf, GuidIndex;
      assert t.routes == rest + [r.(key := key)];
      assert t.routes[|rest|] == r.(key := key);
      forall q | q in s.routes && q.remoteGuid != guid
        ensures q in t.routes
      {
        var i :| 0 <= i < |s.routes| && s.routes[i] == q;
        assert i < k ==> t.routes[i] == q;
        assert i > k ==> t.routes[i - 1] == q;
      }
    }
  }

  lemma StillFree(routes: seq<Route>, k: nat, key: string)
    requires k < |routes| && IndexOf(routes, key) == |routes|
    ensures IndexOf(routes[..k] + routes[k + 1..], key) == |routes| - 1
  {
  }

  lemma DrainConserves(s: State, key: string, reaction: Reaction, c: Callback)
    requires reaction.Completed? ==> reaction.index < |s.punches|
    requires reaction.Failed? ==> reaction.index < |s.punches|
    requires Distinct(s.routes)
    ensures Accounted(Draining(s, key, reaction), c) == Accounted(s, c) && Distinct(Draining(s, key, reaction).routes)
  {
    hide Accounted, Distinct, Completing, Migrating, Failing;
    if IndexOf(s.routes, key) == |s.routes| {
      match reaction
      case PathResponse(guid, verified, alive) => MigrateConserves(s, key, guid, alive, c);
      case Completed(i, guid) => CompleteConserves(s, i, key, guid, c);
      case Failed(i, reason) => FailConserves(s, i, reason, c);
      case Ignored =>
    }
  }

  /** No datagram costs a route its place: each is still there, at most moved to the new address with
      its session and waiters. */
  lemma DrainOverwritesNoRoute(s: State, key: string, reaction: Reaction, r: Route)
    requires reaction.Completed? ==> reaction.index < |s.punches|
    requires reaction.Failed? ==> reaction.index < |s.punches|
    requires Distinct(s.routes) && r in s.routes
    ensures var t := Draining(s, key, reaction);
            (r in t.routes || r.(key := key) in t.routes) && |s.routes| <= |t.routes| <= |s.routes| + 1
  {
    hide Migrating, IndexOf;
    if IndexOf(s.routes, key) == |s.routes| && reaction.PathResponse? && reaction.verified {
      MigrateKeepsRoute(s, key, reaction.guid, reaction.alive, r);
    }
  }

  lemma MigrateKeepsRoute(s: State, key: string, guid: nat, alive: bool, r: Route)
    requires Distinct(s.routes) && r in s.routes && IndexOf(s.routes, key) == |s.routes|
    ensures var t := Migrating(s, key, guid, alive);
            (r in t.routes || r.(key := key) in t.routes) && |t.routes| == |s.routes|
  {
    hide IndexOf, GuidIndex;
    var k := GuidIndex(s.routes, guid);
    if k < |s.routes| && alive && s.routes[k].key != key {
      StillFree(s.routes, k, key);
      var i :| 0 <= i < |s.routes| && s.routes[i] == r;
      var rest, moved := s.routes[..k] + s.routes[k + 1..], s.routes[k].(key := key);
      var t := Migrating(s, key, guid, alive);
      assert t.routes == rest + [moved];
      if i < k {
        assert t.routes[i] == r;
      } else if i > k {
        assert t.routes[i - 1] == r;
      } else {
        assert t.routes[|rest|] == moved;
      }
    }
  }

  lemma {:induction false} AnsweredPunches(ps: seq<Punch>, c: Callback)
    ensures Answered(AllPunches(ps), c) == Asking(ps, c)
    decreases |ps|
  {
    if ps != [] {
      AnsweredPunches(ps[1..], c);
      AnsweredOne(ps[0].onDone, AlreadyStopped, c);
      AnsweredJoin(Told(ps[0].onDone, AlreadyStopped), AllPunches(ps[1..]), c);
    }
  }

  lemma {:induction false} AnsweredWaiters(rs: seq<Route>, c: Callback)
    ensures Answered(AllWaiters(rs), c) == Waiting(rs, c)
    decreases |rs|
  {
    if rs != [] {
      AnsweredWaiters(rs[1..], c);
      AnsweredAll(rs[0].waiters, AlreadyStopped, c);
      AnsweredJoin(All(rs[0].waiters, AlreadyStopped), AllWaiters(rs[1..]), c);
    }
  }

  lemma CloseConserves(s: State, c: Callback)
    ensures Accounted(Closing(s), c) == Accounted(s, c) == Answered(Closing(s).resolved, c)
  {
    AskingJoin(s.punches, s.pending, c);
    AnsweredPunches(s.punches + s.pending, c);
    AnsweredWaiters(s.routes, c);
    AnsweredJoin(s.resolved, AllPunches(s.punches + s.pending), c);
    AnsweredJoin(s.resolved + AllPunches(s.punches + s.pending), AllWaiters(s.routes), c);
  }

  // --- Who hears what ----------------------------------------------------------------------

  // How often a callback was answered with this result.
  function Heard(ds: seq<Done>, c: Callback, result: Result): nat
  {
    if ds == [] then 0 else (if ds[0] == Done(c, result) then 1 else 0) + Heard(ds[1..], c, result)
  }

  lemma {:induction false} HeardJoin(a: seq<Done>, b: seq<Done>, c: Callback, result: Result)
    ensures Heard(a + b, c, result) == Heard(a, c, result) + Heard(b, c, result)
    decreases |a|
  {
    if a == [] {
      assert a + b == b;
    } else {
      HeardJoin(a[1..], b, c, result);
      assert (a + b)[1..] == a[1..] + b;
    }
  }

  lemma {:induction false} HeardAll(cs: seq<Callback>, given: Result, c: Callback, result: Result)
    ensures Heard(All(cs, given), c, result) == if given == result then Times(cs, c) else 0
    decreases |cs|
  {
    if cs != [] {
      HeardAll(cs[1..], given, c, result);
      assert All(cs, given)[1..] == All(cs[1..], given);
    }
  }

  lemma HeardMore(ds: seq<Done>, o: Option<Callback>, given: Result, c: Callback, result: Result)
    ensures Heard(ds + Told(o, given), c, result) == Heard(ds, c, result) + if given == result then HeldBy(o, c) else 0
  {
    HeardJoin(ds, Told(o, given), c, result);
    assert o.Some? ==> [Done(o.value, given)][1..] == [];
  }

  // How often a callback waits on routes whose session is in that state.
  function WaitingAt(rs: seq<Route>, health: string -> Health, h: Health, c: Callback): nat
  {
    if rs == [] then 0
    else (if health(rs[0].key) == h then Times(rs[0].waiters, c) else 0) + WaitingAt(rs[1..], health, h, c)
  }

  // What ProcessSessions tells: Success where the session is ready, CannotConnect where it is dead, Timeout
  // where the handshake is overdue, to each of the route's waiters, and nothing to anybody else.
  ghost predicate TellsByHealth(s: State, t: State, rs: seq<Route>, health: string -> Health, c: Callback)
  {
    && Heard(t.resolved, c, Success) == Heard(s.resolved, c, Success) + WaitingAt(rs, health, Ready, c)
    && Heard(t.resolved, c, CannotConnect) == Heard(s.resolved, c, CannotConnect) + WaitingAt(rs, health, Dead, c)
    && Heard(t.resolved, c, Timeout) == Heard(s.resolved, c, Timeout) + WaitingAt(rs, health, Overdue, c)
    && forall result | result !in {Success, CannotConnect, Timeout} ::
         Heard(t.resolved, c, result) == Heard(s.resolved, c, result)
  }

  // And which routes it leaves, with whom waiting: dead and overdue sessions go, the waiters of a ready one
  // have been told, and one still at its handshake keeps them.
  function Staying(rs: seq<Route>, health: string -> Health): seq<Route>
  {
    if rs == [] then []
    else
      var r := rs[0];
      (match health(r.key)
       case Dead => []
       case Ready => [r.(waiters := [])]
       case Overdue => if r.waiters == [] then [r] else []
       case Handshaking => [r])
      + Staying(rs[1..], health)
  }

  lemma SettleTells(s: State, i: nat, h: Health, c: Callback, result: Result)
    requires i < |s.routes|
    ensures Heard(Settling(s, i, h).resolved, c, result) == Heard(s.resolved, c, result) +
              if (h.Ready? && result == Success) || (h.Dead? && result == CannotConnect) || (h.Overdue? && result == Timeout)
              then Times(s.routes[i].waiters, c) else 0
  {
    if Answer(h).Some? {
      HeardJoin(s.resolved, All(s.routes[i].waiters, Answer(h).value), c, result);
      HeardAll(s.routes[i].waiters, Answer(h).value, c, result);
    }
  }

  // Where the loop stands after one route, and what it has made of it.
  lemma SettleRoutes(s: State, i: nat, h: Health)
    requires i < |s.routes|
    ensures var t := Settling(s, i, h);
            var r := s.routes[i];
            && t.pending == s.pending && t.punches == s.punches
            && (Leaves(r, h) <==> h.Dead? || (h.Overdue? && r.waiters != []))
            && (Leaves(r, h) ==> t.routes == s.routes[..i] + s.routes[i + 1..])
            && (!Leaves(r, h) ==> t.routes == s.routes[i := if h.Handshaking? then r else r.(waiters := [])])
  {
    var r := s.routes[i];
    assert h.Handshaking? ==> s.routes[i := r] == s.routes;
    var emptied := s.routes[i := r.(waiters := [])];
    assert emptied[..i] == s.routes[..i] && emptied[i + 1..] == s.routes[i + 1..];
  }

  function DueByHealth(rs: seq<Route>, health: string -> Health, c: Callback, result: Result): nat
  {
    match result
    case Success => WaitingAt(rs, health, Ready, c)
    case CannotConnect => WaitingAt(rs, health, Dead, c)
    case Timeout => WaitingAt(rs, health, Overdue, c)
    case _ => 0
  }

  lemma DueByHealthStep(rs: seq<Route>, health: string -> Health, c: Callback, result: Result)
    requires rs != []
    ensures var h := health(rs[0].key);
            DueByHealth(rs, health, c, result) == DueByHealth(rs[1..], health, c, result) +
              if (h.Ready? && result == Success) || (h.Dead? && result == CannotConnect) || (h.Overdue? && result == Timeout)
              then Times(rs[0].waiters, c) else 0
  {
  }

  lemma Peel<T>(s: seq<T>, i: nat)
    requires i < |s|
    ensures s[i..][0] == s[i] && s[i..][1..] == s[i + 1..] && s[..i + 1] == s[..i] + [s[i]]
    ensures (s[..i] + s[i + 1..])[..i] == s[..i] && (s[..i] + s[i + 1..])[i..] == s[i + 1..]
  {
  }

  lemma PeelUpdated<T>(s: seq<T>, i: nat, x: T)
    requires i < |s|
    ensures s[i := x][..i + 1] == s[..i] + [x] && s[i := x][i + 1..] == s[i + 1..]
  {
  }

  lemma {:induction false} ProcessHears(s: State, i: nat, health: string -> Health, c: Callback, result: Result)
    requires i <= |s.routes|
    ensures Heard(Processing(s, i, health).resolved, c, result)
            == Heard(s.resolved, c, result) + DueByHealth(s.routes[i..], health, c, result)
    decreases |s.routes| - i
  {
    if i < |s.routes| {
      hide Settling, Heard, Leaves, Times, DueByHealth;
      var r := s.routes[i];
      var h := health(r.key);
      var t := Settling(s, i, h);
      Peel(s.routes, i);
      DueByHealthStep(s.routes[i..], health, c, result);
      SettleTells(s, i, h, c, result);
      SettleRoutes(s, i, h);
      ProcessUnfold(s, i, health);
      hide Processing;
      if Leaves(r, h) {
        ProcessHears(t, i, health, c, result);
      } else {
        PeelUpdated(s.routes, i, t.routes[i]);
        ProcessHears(t, i + 1, health, c, result);
      }
    }
  }

  lemma {:induction false} ProcessLeaves(s: State, i: nat, health: string -> Health)
    requires i <= |s.routes|
    ensures var t := Processing(s, i, health);
            t.pending == s.pending && t.punches == s.punches && t.routes == s.routes[..i] + Staying(s.routes[i..], health)
    decreases |s.routes| - i
  {
    if i < |s.routes| {
      hide Settling, Leaves;
      var r := s.routes[i];
      var h := health(r.key);
      var t := Settling(s, i, h);
      Peel(s.routes, i);
      SettleRoutes(s, i, h);
      ProcessUnfold(s, i, health);
      hide Processing;
      if Leaves(r, h) {
        ProcessLeaves(t, i, health);
      } else {
        PeelUpdated(s.routes, i, t.routes[i]);
        ProcessLeaves(t, i + 1, health);
        Shift(s.routes[..i], t.routes[i], Staying(s.routes[i + 1..], health));
        assert h.Overdue? ==> r.(waiters := []) == r;
      }
    } else {
      assert s.routes[..i] == s.routes && s.routes[i..] == [];
    }
  }

  /** What ProcessSessions does, by the state of each route's session. */
  lemma ProcessTells(s: State, health: string -> Health, c: Callback)
    ensures var t := Processing(s, 0, health);
            && TellsByHealth(s, t, s.routes, health, c)
            && t.pending == s.pending && t.punches == s.punches && t.routes == Staying(s.routes, health)
  {
    hide Heard, WaitingAt, Processing;
    assert s.routes[0..] == s.routes;
    forall result {
      ProcessHears(s, 0, health, c, result);
    }
    ProcessHears(s, 0, health, c, Success);
    ProcessHears(s, 0, health, c, CannotConnect);
    ProcessHears(s, 0, health, c, Timeout);
    ProcessLeaves(s, 0, health);
  }

  lemma Shift<T>(a: seq<T>, x: T, b: seq<T>)
    ensures a + [x] + b == a + ([x] + b)
  {
  }

  // --- ... of a punch toward a peer that already routes

  // The first of the keys some route has.
  function RoutedKey(rs: seq<Route>, keys: seq<string>): Option<string>
  {
    if keys == [] then None
    else if exists k :: 0 <= k < |rs| && rs[k].key == keys[0] then Some(keys[0])
    else RoutedKey(rs, keys[1..])
  }

  // How often a callback belongs to punches toward a route whose session is ready; toward this key, when
  // it is not; and which punches have no route to join.
  function SettledBy(ps: seq<Punch>, rs: seq<Route>, ready: string -> bool, c: Callback): nat
  {
    if ps == [] then 0
    else
      var key := RoutedKey(rs, ps[0].reflexive);
      (if key.Some? && ready(key.value) then HeldBy(ps[0].onDone, c) else 0) + SettledBy(ps[1..], rs, ready, c)
  }

  function JoiningAt(ps: seq<Punch>, rs: seq<Route>, ready: string -> bool, key: string, c: Callback): nat
  {
    if ps == [] then 0
    else (if RoutedKey(rs, ps[0].reflexive) == Some(key) && !ready(key) then HeldBy(ps[0].onDone, c) else 0)
         + JoiningAt(ps[1..], rs, ready, key, c)
  }

  function Unrouted(ps: seq<Punch>, rs: seq<Route>): seq<Punch>
  {
    if ps == [] then []
    else (if RoutedKey(rs, ps[0].reflexive).None? then [ps[0]] else []) + Unrouted(ps[1..], rs)
  }

  function WaitingOn(rs: seq<Route>, key: string, c: Callback): nat
  {
    if rs == [] then 0 else (if rs[0].key == key then Times(rs[0].waiters, c) else 0) + WaitingOn(rs[1..], key, c)
  }

  ghost predicate SameKeys(a: seq<Route>, b: seq<Route>)
  {
    |a| == |b| && forall k | 0 <= k < |a| :: a[k].key == b[k].key && a[k].remoteGuid == b[k].remoteGuid
  }

  lemma {:induction false} FirstRouteIs(rs: seq<Route>, keys: seq<string>)
    ensures var k := FirstRoute(rs, keys);
            RoutedKey(rs, keys) == if k < |rs| then Some(rs[k].key) else None
    decreases |keys|
  {
    if keys != [] && IndexOf(rs, keys[0]) == |rs| {
      FirstRouteIs(rs, keys[1..]);
    }
  }

  lemma {:induction false} RoutedAlike(a: seq<Route>, b: seq<Route>, keys: seq<string>)
    requires SameKeys(a, b)
    ensures RoutedKey(a, keys) == RoutedKey(b, keys)
    decreases |keys|
  {
    if keys != [] {
      RoutedAlike(a, b, keys[1..]);
      assert forall k | 0 <= k < |a| :: a[k].key == b[k].key;
    }
  }

  lemma {:induction false} CountedAlike(ps: seq<Punch>, a: seq<Route>, b: seq<Route>, ready: string -> bool, key: string, c: Callback)
    requires SameKeys(a, b)
    ensures SettledBy(ps, a, ready, c) == SettledBy(ps, b, ready, c)
    ensures JoiningAt(ps, a, ready, key, c) == JoiningAt(ps, b, ready, key, c)
    decreases |ps|
  {
    if ps != [] {
      hide SameKeys, RoutedKey;
      RoutedAlike(a, b, ps[0].reflexive);
      CountedAlike(ps[1..], a, b, ready, key, c);
    }
  }

  lemma {:induction false} UnroutedAlike(ps: seq<Punch>, a: seq<Route>, b: seq<Route>)
    requires SameKeys(a, b)
    ensures Unrouted(ps, a) == Unrouted(ps, b)
    decreases |ps|
  {
    if ps != [] {
      hide SameKeys, RoutedKey;
      RoutedAlike(a, b, ps[0].reflexive);
      UnroutedAlike(ps[1..], a, b);
    }
  }

  lemma {:induction false} WaitingOnUpdated(rs: seq<Route>, k: nat, r: Route, key: string, c: Callback)
    requires k < |rs| && r.key == rs[k].key
    ensures WaitingOn(rs[k := r], key, c) + (if r.key == key then Times(rs[k].waiters, c) else 0)
            == WaitingOn(rs, key, c) + if r.key == key then Times(r.waiters, c) else 0
    decreases |rs|
  {
    if k > 0 {
      WaitingOnUpdated(rs[1..], k - 1, r, key, c);
      assert rs[k := r][1..] == rs[1..][k - 1 := r];
    } else {
      assert rs[0 := r][1..] == rs[1..];
    }
  }

  // What Match tells and whom it lets wait where.
  ghost predicate TellsByRoute(s: State, t: State, ps: seq<Punch>, ready: string -> bool, key: string, c: Callback)
  {
    && Heard(t.resolved, c, Success) == Heard(s.resolved, c, Success) + SettledBy(ps, s.routes, ready, c)
    && (forall result | result != Success :: Heard(t.resolved, c, result) == Heard(s.resolved, c, result))
    && WaitingOn(t.routes, key, c) == WaitingOn(s.routes, key, c) + JoiningAt(ps, s.routes, ready, key, c)
  }

  lemma JoinTells(s: State, i: nat, k: nat, ready: string -> bool, key: string, c: Callback)
    requires i < |s.punches| && k < |s.routes|
    ensures var t := Joining(s, i, k, ready);
            var at, o := s.routes[k].key, s.punches[i].onDone;
            && Heard(t.resolved, c, Success) == Heard(s.resolved, c, Success) + (if ready(at) then HeldBy(o, c) else 0)
            && (forall result | result != Success :: Heard(t.resolved, c, result) == Heard(s.resolved, c, result))
            && WaitingOn(t.routes, key, c) == WaitingOn(s.routes, key, c) + (if at == key && !ready(at) then HeldBy(o, c) else 0)
  {
    hide Heard, WaitingOn;
    var o := s.punches[i].onDone;
    forall result {
      HeardMore(s.resolved, o, Success, c, result);
    }
    if o.Some? {
      var w := s.routes[k].waiters;
      TimesJoin(w, [o.value], c);
      assert [o.value][1..] == [];
      WaitingOnUpdated(s.routes, k, s.routes[k].(waiters := w + [o.value]), key, c);
    }
  }

  lemma JoinLeaves(s: State, i: nat, k: nat, ready: string -> bool)
    requires i < |s.punches| && k < |s.routes|
    ensures var t := Joining(s, i, k, ready);
            && SameKeys(s.routes, t.routes) && t.pending == s.pending
            && t.punches == s.punches[..i] + s.punches[i + 1..]
  {
  }

  lemma {:induction false} MatchHears(s: State, i: nat, ready: string -> bool, key: string, c: Callback)
    requires i <= |s.punches|
    ensures TellsByRoute(s, Matching(s, i, ready), s.punches[i..], ready, key, c)
    decreases |s.punches| - i
  {
    if i < |s.punches| {
      var p := s.punches[i];
      var k := FirstRoute(s.routes, p.reflexive);
      Peel(s.punches, i);
      FirstRouteIs(s.routes, p.reflexive);
      hide Heard, WaitingOn, HeldBy, Joining, RoutedKey, FirstRoute, SameKeys;
      if k == |s.routes| {
        MatchHears(s, i + 1, ready, key, c);
      } else {
        var t := Joining(s, i, k, ready);
        JoinTells(s, i, k, ready, key, c);
        JoinLeaves(s, i, k, ready);
        MatchHears(t, i, ready, key, c);
        CountedAlike(s.punches[i + 1..], s.routes, t.routes, ready, key, c);
      }
    }
  }

  lemma {:induction false} MatchLeaves(s: State, i: nat, ready: string -> bool)
    requires i <= |s.punches|
    ensures var t := Matching(s, i, ready);
            && SameKeys(s.routes, t.routes) && t.pending == s.pending
            && t.punches == s.punches[..i] + Unrouted(s.punches[i..], s.routes)
    decreases |s.punches| - i
  {
    if i < |s.punches| {
      var p := s.punches[i];
      var k := FirstRoute(s.routes, p.reflexive);
      Peel(s.punches, i);
      FirstRouteIs(s.routes, p.reflexive);
      hide Joining, RoutedKey, FirstRoute, SameKeys;
      if k == |s.routes| {
        MatchLeaves(s, i + 1, ready);
        Shift(s.punches[..i], p, Unrouted(s.punches[i + 1..], s.routes));
      } else {
        var t := Joining(s, i, k, ready);
        JoinLeaves(s, i, k, ready);
        MatchLeaves(t, i, ready);
        UnroutedAlike(s.punches[i + 1..], s.routes, t.routes);
        KeysTwice(s.routes, t.routes, Matching(t, i, ready).routes);
      }
    } else {
      assert s.punches[..i] == s.punches && s.punches[i..] == [];
    }
  }

  /** What becomes of punches toward peers that already route: the callback hears Success if the route's
      session is ready and waits there otherwise; the others are left. */
  lemma MatchTells(s: State, ready: string -> bool, key: string, c: Callback)
    ensures var t := Matching(s, 0, ready);
            && TellsByRoute(s, t, s.punches, ready, key, c)
            && SameKeys(s.routes, t.routes) && t.pending == s.pending && t.punches == Unrouted(s.punches, s.routes)
  {
    hide TellsByRoute, Matching, SameKeys, Unrouted;
    assert s.punches[0..] == s.punches && s.punches[..0] == [];
    MatchHears(s, 0, ready, key, c);
    MatchLeaves(s, 0, ready);
  }

  lemma KeysTwice(a: seq<Route>, b: seq<Route>, d: seq<Route>)
    requires SameKeys(a, b) && SameKeys(b, d)
    ensures SameKeys(a, d)
  {
  }

  // --- ... of a punch whose machine gave up

  // How often a callback belongs to punches whose machine gave up for this reason, the n-th at turn n; and
  // which go on.
  function GaveUp(ps: seq<Punch>, turn: nat, verdict: nat -> Option<Result>, c: Callback, result: Result): nat
    decreases |ps|
  {
    if ps == [] then 0
    else (if verdict(turn) == Some(result) then HeldBy(ps[0].onDone, c) else 0)
         + GaveUp(ps[1..], turn + 1, verdict, c, result)
  }

  function GoingOn(ps: seq<Punch>, turn: nat, verdict: nat -> Option<Result>): seq<Punch>
    decreases |ps|
  {
    if ps == [] then [] else (if verdict(turn).None? then [ps[0]] else []) + GoingOn(ps[1..], turn + 1, verdict)
  }

  lemma FailTells(s: State, i: nat, reason: Result, c: Callback, result: Result)
    requires i < |s.punches|
    ensures var t := Failing(s, i, reason);
            && Heard(t.resolved, c, result)
               == Heard(s.resolved, c, result) + (if reason == result then HeldBy(s.punches[i].onDone, c) else 0)
            && t.punches == s.punches[..i] + s.punches[i + 1..] && t.routes == s.routes && t.pending == s.pending
  {
    HeardMore(s.resolved, s.punches[i].onDone, reason, c, result);
  }

  lemma {:induction false} TickHears(s: State, i: nat, turn: nat, verdict: nat -> Option<Result>, c: Callback, result: Result)
    requires i <= |s.punches|
    ensures Heard(Ticking(s, i, turn, verdict).resolved, c, result)
            == Heard(s.resolved, c, result) + GaveUp(s.punches[i..], turn, verdict, c, result)
    decreases |s.punches| - i
  {
    if i < |s.punches| {
      hide Heard, HeldBy, Failing;
      Peel(s.punches, i);
      match verdict(turn)
      case Some(reason) =>
        FailTells(s, i, reason, c, result);
        TickHears(Failing(s, i, reason), i, turn + 1, verdict, c, result);
      case None => TickHears(s, i + 1, turn + 1, verdict, c, result);
    }
  }

  lemma {:induction false} TickLeaves(s: State, i: nat, turn: nat, verdict: nat -> Option<Result>)
    requires i <= |s.punches|
    ensures var t := Ticking(s, i, turn, verdict);
            && t.punches == s.punches[..i] + GoingOn(s.punches[i..], turn, verdict)
            && t.routes == s.routes && t.pending == s.pending
    decreases |s.punches| - i
  {
    if i < |s.punches| {
      hide Failing;
      Peel(s.punches, i);
      match verdict(turn)
      case Some(reason) =>
        FailTells(s, i, reason, 0, reason);
        TickLeaves(Failing(s, i, reason), i, turn + 1, verdict);
      case None =>
        TickLeaves(s, i + 1, turn + 1, verdict);
        Shift(s.punches[..i], s.punches[i], GoingOn(s.punches[i + 1..], turn + 1, verdict));
    } else {
      assert s.punches[..i] == s.punches && s.punches[i..] == [];
    }
  }

  /** What becomes of the punches in flight when their machines are ticked, one a turn. */
  lemma TickTells(s: State, verdict: nat -> Option<Result>, c: Callback, result: Result)
    ensures var t := Ticking(s, 0, 0, verdict);
            && Heard(t.resolved, c, result) == Heard(s.resolved, c, result) + GaveUp(s.punches, 0, verdict, c, result)
            && t.punches == GoingOn(s.punches, 0, verdict) && t.routes == s.routes && t.pending == s.pending
  {
    hide Heard, Ticking, GaveUp, GoingOn;
    assert s.punches[0..] == s.punches && s.punches[..0] == [];
    TickHears(s, 0, 0, verdict, c, result);
    TickLeaves(s, 0, 0, verdict);
  }

  lemma TickPunchesTells(s: State, ready: string -> bool, verdict: nat -> Option<Result>, c: Callback, result: Result)
    ensures var t := Ticking(Matching(PickingUp(s), 0, ready), 0, 0, verdict);
            var all := s.punches + s.pending;
            var left := Unrouted(all, s.routes);
            && t.pending == [] && t.punches == GoingOn(left, 0, verdict) && SameKeys(s.routes, t.routes)
            && Heard(t.resolved, c, result) == Heard(s.resolved, c, result) + GaveUp(left, 0, verdict, c, result)
                 + if result == Success then SettledBy(all, s.routes, ready, c) else 0
  {
    hide Matching, Ticking, Unrouted, GoingOn, SameKeys, Heard, GaveUp, SettledBy;
    MatchTells(PickingUp(s), ready, "", c);
    TickTells(Matching(PickingUp(s), 0, ready), verdict, c, result);
  }

  // --- ... of whatever is left when the agent stops

  lemma {:induction false} PunchesHear(ps: seq<Punch>, c: Callback, result: Result)
    ensures Heard(AllPunches(ps), c, result) == if result == AlreadyStopped then Asking(ps, c) else 0
    decreases |ps|
  {
    if ps != [] {
      PunchesHear(ps[1..], c, result);
      HeardMore([], ps[0].onDone, AlreadyStopped, c, result);
      assert [] + Told(ps[0].onDone, AlreadyStopped) == Told(ps[0].onDone, AlreadyStopped);
      HeardJoin(Told(ps[0].onDone, AlreadyStopped), AllPunches(ps[1..]), c, result);
    }
  }

  lemma {:induction false} WaitersHear(rs: seq<Route>, c: Callback, result: Result)
    ensures Heard(AllWaiters(rs), c, result) == if result == AlreadyStopped then Waiting(rs, c) else 0
    decreases |rs|
  {
    if rs != [] {
      WaitersHear(rs[1..], c, result);
      HeardAll(rs[0].waiters, AlreadyStopped, c, result);
      HeardJoin(All(rs[0].waiters, AlreadyStopped), AllWaiters(rs[1..]), c, result);
    }
  }

  lemma CloseTells(s: State, c: Callback, result: Result)
    ensures Heard(Closing(s).resolved, c, result) == Heard(s.resolved, c, result) +
              if result == AlreadyStopped then Asking(s.pending, c) + Asking(s.punches, c) + Waiting(s.routes, c) else 0
  {
    hide Heard, Asking, Waiting;
    AskingJoin(s.punches, s.pending, c);
    PunchesHear(s.punches + s.pending, c, result);
    WaitersHear(s.routes, c, result);
    HeardJoin(s.resolved, AllPunches(s.punches + s.pending), c, result);
    HeardJoin(s.resolved + AllPunches(s.punches + s.pending), AllWaiters(s.routes), c, result);
  }

  // --- Every run ---------------------------------------------------------------------------

  // running: what Punch and Start check; ticking: there is a tick thread; stops: calls of Stop that
  // have cleared running and not finished. Start does not wait for those.
  datatype World = World(s: State, running: bool, ticking: bool, stops: nat, submitted: seq<Callback>)

  datatype Action =
    | Submit(punch: Punch, refusal: Option<Result>)  // refusal: what Punch finds wrong with the offer
    | Start
    | BeginStop
    | FinishStop
    | PickUp
    | Match(ready: string -> bool)
    | Tick(verdict: nat -> Option<Result>)
    | Process(health: string -> Health)
    | Drain(key: string, reaction: Reaction)

  ghost predicate Enabled(w: World, a: Action)
  {
    match a
    case Submit(_, _) => true
    case Start => !w.running
    case BeginStop => w.running
    case FinishStop => w.stops > 0
    case Drain(_, reaction) =>
      && w.ticking && (reaction.Completed? ==> reaction.index < |w.s.punches|)
      && (reaction.Failed? ==> reaction.index < |w.s.punches|)
    case _ => w.ticking
  }

  function Apply(w: World, a: Action): World
    requires a.FinishStop? ==> w.stops > 0
    requires a.Drain? && a.reaction.Completed? ==> a.reaction.index < |w.s.punches|
    requires a.Drain? && a.reaction.Failed? ==> a.reaction.index < |w.s.punches|
  {
    match a
    case Submit(p, refusal) =>
      w.(s := if refusal.Some? then Refusing(w.s, p, refusal.value) else Submitting(w.s, w.running, p),
         submitted := w.submitted + if p.onDone.Some? then [p.onDone.value] else [])
    case Start => w.(running := true, ticking := true)
    case BeginStop => w.(running := false, stops := w.stops + 1)
    case FinishStop => w.(s := Closing(w.s), ticking := w.running, stops := w.stops - 1)
    case PickUp => w.(s := PickingUp(w.s))
    case Match(ready) => w.(s := Matching(w.s, 0, ready))
    case Tick(verdict) => w.(s := Ticking(w.s, 0, 0, verdict))
    case Process(health) => w.(s := Processing(w.s, 0, health))
    case Drain(key, reaction) => w.(s := Draining(w.s, key, reaction))
  }

  ghost predicate Inv(w: World, c: Callback)
  {
    && Distinct(w.s.routes) && Accounted(w.s, c) == Times(w.submitted, c)
    && (w.running ==> w.ticking) && (w.ticking ==> w.running || w.stops > 0)
    && (!w.ticking ==> w.s.pending == [] && w.s.punches == [] && w.s.routes == [])
  }

  const IDLE: World := World(State([], [], [], []), false, false, 0, [])

  lemma StepKeepsInv(w: World, a: Action, c: Callback)
    requires Inv(w, c) && Enabled(w, a)
    ensures Inv(Apply(w, a), c)
  {
    hide Accounted, Distinct, Matching, Ticking, Processing, Draining;
    match a
    case Submit(p, refusal) =>
      SubmitConserves(w.s, w.running, p, c);
      if refusal.Some? {
        RefuseConserves(w.s, p, refusal.value, c);
      }
      var more := if p.onDone.Some? then [p.onDone.value] else [];
      TimesJoin(w.submitted, more, c);
      assert p.onDone.Some? ==> more[1..] == [];
    case FinishStop =>
      CloseConserves(w.s, c);
      NoneIsDistinct();
    case PickUp => PickUpConserves(w.s, c);
    case Match(ready) => MatchConserves(w.s, 0, ready, c);
    case Tick(verdict) => TickConserves(w.s, 0, 0, verdict, c);
    case Process(health) => ProcessConserves(w.s, 0, health, c);
    case Drain(key, reaction) => DrainConserves(w.s, key, reaction, c);
    case _ =>
  }

  lemma NoneIsDistinct()
    ensures Distinct([])
  {
  }

  ghost predicate IsRun(w: World, run: seq<Action>)
    decreases |run|
  {
    run != [] ==> Enabled(w, run[0]) && IsRun(Apply(w, run[0]), run[1..])
  }

  ghost function End(w: World, run: seq<Action>): World
    requires IsRun(w, run)
    decreases |run|
  {
    if run == [] then w else End(Apply(w, run[0]), run[1..])
  }

  lemma {:induction false} RunKeepsInv(w: World, run: seq<Action>, c: Callback)
    requires Inv(w, c) && IsRun(w, run)
    ensures Inv(End(w, run), c)
    decreases |run|
  {
    if run != [] {
      hide Inv, Apply;
      StepKeepsInv(w, run[0], c);
      RunKeepsInv(Apply(w, run[0]), run[1..], c);
    }
  }

  /** In every run, refusals, starts and concurrent stops included, a callback submitted once is in
      exactly one place: pending, in flight, waiting on one route, or resolved exactly once; and once
      every stop has finished and none was overtaken by a start, it has been resolved. No two routes
      ever share a key. */
  lemma EveryCallbackInOnePlace(run: seq<Action>, c: Callback)
    requires IsRun(IDLE, run)
    ensures var w := End(IDLE, run);
            && Distinct(w.s.routes)
            && Asking(w.s.pending, c) + Asking(w.s.punches, c) + Waiting(w.s.routes, c) + Answered(w.s.resolved, c)
               == Times(w.submitted, c)
            && (!w.running && w.stops == 0 ==> Answered(w.s.resolved, c) == Times(w.submitted, c))
  {
    RunKeepsInv(IDLE, run, c);
  }

  // --- Every answer in every run -----------------------------------------------------------

  // How often a step owes a callback this answer.
  function Due(w: World, a: Action, c: Callback, result: Result): nat
    requires a.Drain? && a.reaction.Failed? ==> a.reaction.index < |w.s.punches|
  {
    match a
    case Submit(p, refusal) =>
      if refusal == Some(result) || (refusal.None? && !w.running && result == AlreadyStopped) then HeldBy(p.onDone, c) else 0
    case FinishStop =>
      if result == AlreadyStopped then Asking(w.s.pending, c) + Asking(w.s.punches, c) + Waiting(w.s.routes, c) else 0
    case Match(ready) => if result == Success then SettledBy(w.s.punches, w.s.routes, ready, c) else 0
    case Tick(verdict) => GaveUp(w.s.punches, 0, verdict, c, result)
    case Process(health) => DueByHealth(w.s.routes, health, c, result)
    case Drain(key, reaction) =>
      if reaction.Failed? && reaction.reason == result && RoutedKey(w.s.routes, [key]).None?
      then HeldBy(w.s.punches[reaction.index].onDone, c) else 0
    case _ => 0
  }

  lemma DrainTells(s: State, key: string, reaction: Reaction, c: Callback, result: Result)
    requires reaction.Completed? ==> reaction.index < |s.punches|
    requires reaction.Failed? ==> reaction.index < |s.punches|
    ensures Heard(Draining(s, key, reaction).resolved, c, result) == Heard(s.resolved, c, result) +
              if reaction.Failed? && reaction.reason == result && RoutedKey(s.routes, [key]).None?
              then HeldBy(s.punches[reaction.index].onDone, c) else 0
  {
    assert [key][1..] == [];
    assert RoutedKey(s.routes, [key]).None? <==> IndexOf(s.routes, key) == |s.routes|;
    hide Heard, RoutedKey, IndexOf;
    if reaction.Failed? {
      FailTells(s, reaction.index, reaction.reason, c, result);
    }
  }

  lemma StepTells(w: World, a: Action, c: Callback, result: Result)
    requires Enabled(w, a)
    ensures Heard(Apply(w, a).s.resolved, c, result) == Heard(w.s.resolved, c, result) + Due(w, a, c, result)
  {
    hide Heard, Matching, Ticking, Processing, Draining, Closing, SettledBy, GaveUp, DueByHealth, RoutedKey;
    match a
    case Submit(p, refusal) =>
      HeardMore(w.s.resolved, p.onDone, AlreadyStopped, c, result);
      if refusal.Some? {
        HeardMore(w.s.resolved, p.onDone, refusal.value, c, result);
      }
    case FinishStop => CloseTells(w.s, c, result);
    case Match(ready) => MatchTells(w.s, ready, "", c);
    case Tick(verdict) => TickTells(w.s, verdict, c, result);
    case Process(health) =>
      assert w.s.routes[0..] == w.s.routes;
      ProcessHears(w.s, 0, health, c, result);
    case Drain(key, reaction) => DrainTells(w.s, key, reaction, c, result);
    case _ =>
  }

  ghost function DueIn(w: World, run: seq<Action>, c: Callback, result: Result): nat
    requires IsRun(w, run)
    decreases |run|
  {
    if run == [] then 0 else Due(w, run[0], c, result) + DueIn(Apply(w, run[0]), run[1..], c, result)
  }

  /** In every run a callback hears each result exactly as often as the steps of the run owe it. */
  lemma {:induction false} AnswersAreDue(w: World, run: seq<Action>, c: Callback, result: Result)
    requires IsRun(w, run)
    ensures Heard(End(w, run).s.resolved, c, result) == Heard(w.s.resolved, c, result) + DueIn(w, run, c, result)
    decreases |run|
  {
    if run != [] {
      hide Heard, Due, Apply;
      StepTells(w, run[0], c, result);
      AnswersAreDue(Apply(w, run[0]), run[1..], c, result);
    }
  }

  predicate Means(h: Health, result: Result)
  {
    (h.Ready? && result == Success) || (h.Dead? && result == CannotConnect) || (h.Overdue? && result == Timeout)
  }

  // Why a callback may hear a result at a step.
  ghost predicate Grounds(w: World, a: Action, c: Callback, result: Result)
  {
    match a
    case Submit(p, refusal) =>
      p.onDone == Some(c) && (refusal == Some(result) || (refusal.None? && !w.running && result == AlreadyStopped))
    case FinishStop => w.stops > 0 && result == AlreadyStopped
    case Match(ready) =>
      && result == Success
      && exists k, j :: 0 <= k < |w.s.punches| && 0 <= j < |w.s.routes| && w.s.punches[k].onDone == Some(c)
                        && w.s.routes[j].key in w.s.punches[k].reflexive && ready(w.s.routes[j].key)
    case Tick(verdict) => exists k :: 0 <= k < |w.s.punches| && w.s.punches[k].onDone == Some(c) && verdict(k) == Some(result)
    case Process(health) =>
      exists j :: 0 <= j < |w.s.routes| && c in w.s.routes[j].waiters && Means(health(w.s.routes[j].key), result)
    case Drain(key, reaction) =>
      && reaction.Failed? && reaction.index < |w.s.punches| && w.s.punches[reaction.index].onDone == Some(c)
      && reaction.reason == result
    case _ => false
  }

  lemma {:induction false} TimesIn(cs: seq<Callback>, c: Callback)
    requires Times(cs, c) > 0
    ensures c in cs
    decreases |cs|
  {
    if cs[0] != c {
      TimesIn(cs[1..], c);
    }
  }

  lemma {:induction false} SomeoneWaits(rs: seq<Route>, health: string -> Health, h: Health, c: Callback) returns (j: nat)
    requires WaitingAt(rs, health, h, c) > 0
    ensures j < |rs| && c in rs[j].waiters && health(rs[j].key) == h
    decreases |rs|
  {
    if health(rs[0].key) == h && Times(rs[0].waiters, c) > 0 {
      TimesIn(rs[0].waiters, c);
      j := 0;
    } else {
      j := SomeoneWaits(rs[1..], health, h, c);
      j := j + 1;
    }
  }

  lemma {:induction false} RoutedKeyIs(rs: seq<Route>, keys: seq<string>) returns (j: nat)
    requires RoutedKey(rs, keys).Some?
    ensures j < |rs| && RoutedKey(rs, keys) == Some(rs[j].key) && rs[j].key in keys
    decreases |keys|
  {
    if i :| 0 <= i < |rs| && rs[i].key == keys[0] {
      j := i;
    } else {
      j := RoutedKeyIs(rs, keys[1..]);
    }
  }

  lemma {:induction false} SomeoneSettled(ps: seq<Punch>, rs: seq<Route>, ready: string -> bool, c: Callback) returns (k: nat, j: nat)
    requires SettledBy(ps, rs, ready, c) > 0
    ensures k < |ps| && j < |rs| && ps[k].onDone == Some(c) && rs[j].key in ps[k].reflexive && ready(rs[j].key)
    decreases |ps|
  {
    var key := RoutedKey(rs, ps[0].reflexive);
    if key.Some? && ready(key.value) && ps[0].onDone == Some(c) {
      k := 0;
      j := RoutedKeyIs(rs, ps[0].reflexive);
    } else {
      k, j := SomeoneSettled(ps[1..], rs, ready, c);
      k := k + 1;
    }
  }

  lemma {:induction false} SomeoneGaveUp(ps: seq<Punch>, turn: nat, verdict: nat -> Option<Result>, c: Callback, result: Result)
    returns (k: nat)
    requires GaveUp(ps, turn, verdict, c, result) > 0
    ensures k < |ps| && ps[k].onDone == Some(c) && verdict(turn + k) == Some(result)
    decreases |ps|
  {
    if verdict(turn) == Some(result) && ps[0].onDone == Some(c) {
      k := 0;
    } else {
      k := SomeoneGaveUp(ps[1..], turn + 1, verdict, c, result);
      k := k + 1;
    }
  }

  lemma DueHasGrounds(w: World, a: Action, c: Callback, result: Result)
    requires Enabled(w, a) && Due(w, a, c, result) > 0
    ensures Grounds(w, a, c, result)
  {
    hide SettledBy, GaveUp, WaitingAt, RoutedKey;
    match a
    case Match(ready) =>
      var k, j := SomeoneSettled(w.s.punches, w.s.routes, ready, c);
    case Tick(verdict) =>
      var k := SomeoneGaveUp(w.s.punches, 0, verdict, c, result);
    case Process(health) =>
      var h := if result == Success then Ready else if result == CannotConnect then Dead else Overdue;
      var j := SomeoneWaits(w.s.routes, health, h, c);
    case _ =>
  }

  lemma {:induction false} SomeStepOwes(w: World, run: seq<Action>, c: Callback, result: Result) returns (k: nat)
    requires IsRun(w, run) && DueIn(w, run, c, result) > 0
    ensures k < |run| && IsRun(w, run[..k]) && Enabled(End(w, run[..k]), run[k])
    ensures Due(End(w, run[..k]), run[k], c, result) > 0
    decreases |run|
  {
    hide Due, Apply;
    if Due(w, run[0], c, result) > 0 {
      k := 0;
      assert run[..0] == [];
    } else {
      k := SomeStepOwes(Apply(w, run[0]), run[1..], c, result);
      assert run[..k + 1][1..] == run[1..][..k];
      k := k + 1;
    }
  }

  /** Nobody ever hears anything without grounds: in every run, an answer was given at a step at which the
      session of the route the callback waited on, or the route its punch was toward, was in the state
      that answer stands for; or the machine or the refusal said so; and AlreadyStopped besides only when
      the agent was not running or a stop was finishing. */
  lemma EveryAnswerHasGrounds(run: seq<Action>, c: Callback, result: Result) returns (k: nat)
    requires IsRun(IDLE, run) && Heard(End(IDLE, run).s.resolved, c, result) > 0
    ensures k < |run| && IsRun(IDLE, run[..k]) && Grounds(End(IDLE, run[..k]), run[k], c, result)
  {
    hide IsRun, End, Due, Grounds;
    AnswersAreDue(IDLE, run, c, result);
    k := SomeStepOwes(IDLE, run, c, result);
    DueHasGrounds(End(IDLE, run[..k]), run[k], c, result);
  }

  // --- Route keys --------------------------------------------------------------------------

  function Digits(n: nat): (d: string)
    ensures d != [] && forall k | 0 <= k < |d| :: d[k] != '#'
  {
    if n < 10 then ["0123456789"[n]] else Digits(n / 10) + ["0123456789"[n % 10]]
  }

  function RouteKey(readable: string, channel: nat): string
  {
    if channel == 0 then readable else readable + "#" + Digits(channel)
  }

  lemma {:induction false} DigitsDiffer(m: nat, n: nat)
    ensures Digits(m) == Digits(n) ==> m == n
    decreases m
  {
    var a, b := Digits(m), Digits(n);
    if a == b {
      assert a[|a| - 1] == b[|b| - 1];
      assert a[..|a| - 1] == b[..|b| - 1];
      if m >= 10 && n >= 10 {
        assert a[..|a| - 1] == Digits(m / 10) && b[..|b| - 1] == Digits(n / 10);
        DigitsDiffer(m / 10, n / 10);
      }
    }
  }

  lemma KeyShape(a: string, m: nat)
    requires '#' !in a
    ensures m == 0 ==> '#' !in RouteKey(a, m)
    ensures var key := RouteKey(a, m);
            m != 0 ==> |a| < |key| && key[|a|] == '#' && key[..|a|] == a && key[|a| + 1..] == Digits(m)
                       && forall i | 0 <= i < |a| :: key[i] != '#'
  {
    var key := RouteKey(a, m);
    assert forall i | 0 <= i < |a| :: key[i] == a[i] && a[i] in a;
  }

  /** Addresses and channels never share a key, as no address is written with a '#'. */
  lemma RouteKeysDiffer(a: string, m: nat, b: string, n: nat)
    requires '#' !in a && '#' !in b && RouteKey(a, m) == RouteKey(b, n)
    ensures a == b && m == n
  {
    KeyShape(a, m);
    KeyShape(b, n);
    assert m == 0 <==> n == 0;
    if m != 0 {
      assert |a| == |b|;
      DigitsDiffer(m, n);
    }
  }

  // --- The agent itself --------------------------------------------------------------------

  // One candidate as Punch checks it.
  datatype Offered = Offered(valid: bool, relayed: bool, token: nat)

  // The last bad candidate decides.
  function Refusal(cs: seq<Offered>): Option<Result>
  {
    if cs == [] then Some(InvalidAddress) else RefusalOf(cs)
  }

  function RefusalOf(cs: seq<Offered>): Option<Result>
  {
    if cs == [] then None
    else
      var c := cs[|cs| - 1];
      if !c.valid then Some(InvalidAddress)
      else if c.relayed && c.token == 0 then Some(InvalidArgument)
      else RefusalOf(cs[..|cs| - 1])
  }

  predicate BadCandidate(c: Offered)
  {
    !c.valid || (c.relayed && c.token == 0)
  }

  /** An offer is taken exactly if it names a candidate and none of them is bad; else the last bad one
      decides which reason is given. */
  lemma RefusedExactly(cs: seq<Offered>)
    ensures Refusal(cs).None? <==> cs != [] && forall k | 0 <= k < |cs| :: !BadCandidate(cs[k])
    ensures forall k | 0 <= k < |cs| && BadCandidate(cs[k]) && (forall j | k < j < |cs| :: !BadCandidate(cs[j])) ::
              Refusal(cs) == Some(if !cs[k].valid then InvalidAddress else InvalidArgument)
  {
    LastBadDecides(cs);
  }

  lemma {:induction false} LastBadDecides(cs: seq<Offered>)
    ensures RefusalOf(cs).None? <==> forall k | 0 <= k < |cs| :: !BadCandidate(cs[k])
    ensures forall k | 0 <= k < |cs| && BadCandidate(cs[k]) && (forall j | k < j < |cs| :: !BadCandidate(cs[j])) ::
              RefusalOf(cs) == Some(if !cs[k].valid then InvalidAddress else InvalidArgument)
    decreases |cs|
  {
    if cs != [] {
      var front := cs[..|cs| - 1];
      LastBadDecides(front);
      assert forall k | 0 <= k < |front| :: cs[k] == front[k];
      if !BadCandidate(cs[|cs| - 1]) {
        forall k | 0 <= k < |cs| && BadCandidate(cs[k]) && (forall j | k < j < |cs| :: !BadCandidate(cs[j]))
          ensures RefusalOf(cs) == Some(if !cs[k].valid then InvalidAddress else InvalidArgument)
        {
          assert forall j | k < j < |front| :: front[j] == cs[j];
          assert front[k] == cs[k];
        }
      }
    }
  }

  class Agent {
    var running: bool
    var pending: seq<Punch>
    var punches: seq<Punch>
    var routes: seq<Route>
    var resolved: seq<Done>

    ghost function Value(): State
      reads this
    {
      State(pending, punches, routes, resolved)
    }

    ghost predicate Valid()
      reads this
    {
      Distinct(routes)
    }

    constructor ()
      ensures Valid() && Value() == IDLE.s && !running
    {
      running, pending, punches, routes, resolved := false, [], [], [], [];
    }

    method Punch(candidates: seq<Offered>, punch: Punch)
      modifies this`pending, this`resolved
      ensures var refusal := Refusal(candidates);
              Value() == if refusal.Some? then Refusing(old(Value()), punch, refusal.value)
                         else Submitting(old(Value()), running, punch)
      ensures forall c :: Accounted(Value(), c) == Accounted(old(Value()), c) + HeldBy(punch.onDone, c)
    {
      forall c {
        SubmitConserves(Value(), running, punch, c);
      }
      if Refusal(candidates).Some? {
        forall c {
          RefuseConserves(Value(), punch, Refusal(candidates).value, c);
        }
      }
      hide Accounted, HeldBy, Told;
      var refusal: Option<Result> := None;
      if candidates == [] {
        refusal := Some(InvalidAddress);
      }
      for i := 0 to |candidates|
        invariant refusal == if candidates == [] then Some(InvalidAddress) else RefusalOf(candidates[..i])
        invariant pending == old(pending) && resolved == old(resolved)
      {
        assert candidates[..i + 1][..i] == candidates[..i];
        if !candidates[i].valid {
          refusal := Some(InvalidAddress);
        } else if candidates[i].relayed && candidates[i].token == 0 {
          refusal := Some(InvalidArgument);
        }
      }
      assert candidates[..|candidates|] == candidates;
      if refusal.Some? {
        Resolve(punch.onDone, refusal.value);
        return;
      }
      if !running {
        Resolve(punch.onDone, AlreadyStopped);
        return;
      }
      pending := pending + [punch];
    }

    method Resolve(onDone: Option<Callback>, result: Result)
      modifies this`resolved
      ensures resolved == old(resolved) + Told(onDone, result)
    {
      if onDone.Some? {
        resolved := resolved + [Done(onDone.value, result)];
      }
    }

    /** The waiters move out first, then hear one after the other. */
    method ResolveWaiters(i: nat, result: Result)
      requires i < |routes|
      modifies this`routes, this`resolved
      ensures routes == old(routes)[i := old(routes)[i].(waiters := [])]
      ensures resolved == old(resolved) + All(old(routes)[i].waiters, result)
    {
      var waiters := routes[i].waiters;
      routes := routes[i := routes[i].(waiters := [])];
      var answers := Each(waiters, result);
      resolved := resolved + answers;
    }

    method FindExisting(keys: seq<string>) returns (k: nat)
      ensures k == FirstRoute(routes, keys)
    {
      k := |routes|;
      for j := 0 to |keys|
        invariant k == |routes| && FirstRoute(routes, keys) == FirstRoute(routes, keys[j..])
      {
        var at := IndexOf(routes, keys[j]);
        if at < |routes| {
          return at;
        }
      }
    }

    method TickPunches(ready: string -> bool, verdict: nat -> Option<Result>)
      requires Valid()
      modifies this
      ensures Value() == Ticking(Matching(PickingUp(old(Value())), 0, ready), 0, 0, verdict)
      ensures Valid() && running == old(running)
      ensures forall c :: Accounted(Value(), c) == Accounted(old(Value()), c)
      ensures var left := Unrouted(old(punches) + old(pending), old(routes));
              && pending == [] && punches == GoingOn(left, 0, verdict) && SameKeys(old(routes), routes)
              && forall c, result :: Heard(resolved, c, result) == Heard(old(resolved), c, result)
                   + GaveUp(left, 0, verdict, c, result)
                   + if result == Success then SettledBy(old(punches) + old(pending), old(routes), ready, c) else 0
    {
      forall c, result {
        TickPunchesTells(Value(), ready, verdict, c, result);
      }
      TickPunchesTells(Value(), ready, verdict, 0, Success);
      TickPunchesConserves(Value(), ready, verdict, 0);
      forall c {
        TickPunchesConserves(Value(), ready, verdict, c);
      }
      hide Accounted, Distinct, Matching, Ticking, Unrouted, GoingOn, SameKeys, Heard, GaveUp, SettledBy;
      punches, pending := punches + pending, [];
      MatchRouted(ready);
      TickMachines(verdict);
    }

    method MatchRouted(ready: string -> bool)
      modifies this`punches, this`routes, this`resolved
      ensures Value() == Matching(old(Value()), 0, ready)
    {
      var i := 0;
      while i < |punches|
        invariant 0 <= i <= |punches| && pending == old(pending)
        invariant Matching(old(Value()), 0, ready) == Matching(Value(), i, ready)
        decreases |punches| - i
      {
        ghost var before := Value();
        var k := FindExisting(punches[i].reflexive);
        if k == |routes| {
          i := i + 1;
          continue;
        }
        var punch := punches[i];
        punches := punches[..i] + punches[i + 1..];
        if punch.onDone.Some? {
          if ready(routes[k].key) {
            resolved := resolved + [Done(punch.onDone.value, Success)];
          } else {
            routes := routes[k := routes[k].(waiters := routes[k].waiters + [punch.onDone.value])];
          }
        }
        assert Value() == Joining(before, i, k, ready);
      }
    }

    method TickMachines(verdict: nat -> Option<Result>)
      modifies this`punches, this`resolved
      ensures Value() == Ticking(old(Value()), 0, 0, verdict)
    {
      var i, turn: nat := 0, 0;
      while i < |punches|
        invariant 0 <= i <= |punches| && pending == old(pending) && routes == old(routes)
        invariant Ticking(old(Value()), 0, 0, verdict) == Ticking(Value(), i, turn, verdict)
        decreases |punches| - i
      {
        var failed := verdict(turn);
        turn := turn + 1;
        if failed.Some? {
          FailPunch(i, failed.value);
        } else {
          i := i + 1;
        }
      }
    }

    method FailPunch(i: nat, reason: Result)
      requires i < |punches|
      modifies this`punches, this`resolved
      ensures Value() == Failing(old(Value()), i, reason)
    {
      var punch := punches[i];
      punches := punches[..i] + punches[i + 1..];
      Resolve(punch.onDone, reason);
    }

    method CompletePunch(i: nat, key: string, guid: nat)
      requires i < |punches|
      modifies this`punches, this`routes
      ensures Value() == Completing(old(Value()), i, key, guid)
      ensures old(Valid()) && IndexOf(old(routes), key) == |old(routes)| ==>
                && Valid() && old(routes) <= routes
                && forall c :: Accounted(Value(), c) == Accounted(old(Value()), c)
    {
      if Valid() && IndexOf(routes, key) == |routes| {
        forall c {
          CompleteConserves(Value(), i, key, guid, c);
        }
        CompleteConserves(Value(), i, key, guid, 0);
      }
      hide Accounted, Distinct;
      var punch := punches[i];
      punches := punches[..i] + punches[i + 1..];
      var waiters: seq<Callback> := [];
      if punch.onDone.Some? {
        waiters := [punch.onDone.value];
      }
      routes := Assigned(routes, Route(key, guid, waiters));
    }

    method CompletePathMigration(key: string, guid: nat, alive: bool)
      modifies this`routes
      ensures Value() == Migrating(old(Value()), key, guid, alive)
      ensures old(Valid()) && IndexOf(old(routes), key) == |old(routes)| ==>
                && Valid() && |routes| == |old(routes)|
                && forall c :: Accounted(Value(), c) == Accounted(old(Value()), c)
    {
      if Valid() && IndexOf(routes, key) == |routes| {
        forall c {
          MigrateConserves(Value(), key, guid, alive, c);
        }
        MigrateConserves(Value(), key, guid, alive, 0);
      }
      hide Accounted, Distinct;
      var k := GuidIndex(routes, guid);
      if k == |routes| || !alive || routes[k].key == key {
        return;
      }
      var route := routes[k];
      routes := routes[..k] + routes[k + 1..];
      routes := Assigned(routes, route.(key := key));
    }

    /** One datagram of DrainSocket: no callback is lost or answered twice by it, and no route replaced. */
    method OnDatagram(key: string, reaction: Reaction)
      requires Valid()
      requires reaction.Completed? ==> reaction.index < |punches|
      requires reaction.Failed? ==> reaction.index < |punches|
      modifies this`punches, this`routes, this`resolved
      ensures Value() == Draining(old(Value()), key, reaction)
      ensures Valid() && forall c :: Accounted(Value(), c) == Accounted(old(Value()), c)
      ensures forall r | r in old(routes) :: r in routes || r.(key := key) in routes
    {
      DrainConserves(Value(), key, reaction, 0);
      forall c {
        DrainConserves(Value(), key, reaction, c);
      }
      forall r | r in routes
        ensures var t := Draining(Value(), key, reaction); r in t.routes || r.(key := key) in t.routes
      {
        DrainOverwritesNoRoute(Value(), key, reaction, r);
      }
      hide Accounted, Distinct, Completing, Migrating, Failing;
      if IndexOf(routes, key) < |routes| {
        return;
      }
      match reaction
      case Ignored =>
      case PathResponse(guid, verified, alive) =>
        if verified {
          CompletePathMigration(key, guid, alive);
        }
      case Completed(i, guid) => CompletePunch(i, key, guid);
      case Failed(i, reason) => FailPunch(i, reason);
    }

    method ProcessSessions(health: string -> Health)
      requires Valid()
      modifies this`routes, this`resolved
      ensures Value() == Processing(old(Value()), 0, health)
      ensures Valid() && forall c :: Accounted(Value(), c) == Accounted(old(Value()), c)
      ensures routes == Staying(old(routes), health)
      ensures forall c :: TellsByHealth(old(Value()), Value(), old(routes), health, c)
    {
      ProcessConserves(Value(), 0, health, 0);
      ProcessTells(Value(), health, 0);
      forall c {
        ProcessConserves(Value(), 0, health, c);
      }
      forall c {
        ProcessTells(Value(), health, c);
      }
      hide Accounted, Distinct, TellsByHealth, Staying;
      RunLoop(health);
    }

    // Its loop.
    method RunLoop(health: string -> Health)
      modifies this`routes, this`resolved
      ensures Value() == Processing(old(Value()), 0, health)
    {
      var i := 0;
      while i < |routes|
        invariant 0 <= i <= |routes| && pending == old(pending) && punches == old(punches)
        invariant Processing(old(Value()), 0, health) == Processing(Value(), i, health)
        decreases |routes| - i
      {
        hide Processing;
        ghost var before := Value();
        var h := health(routes[i].key);
        ProcessUnfold(before, i, health);
        var leaves := ProcessOne(i, h);
        if !leaves {
          i := i + 1;
        }
      }
    }

    method ProcessOne(i: nat, h: Health) returns (leaves: bool)
      requires i < |routes|
      modifies this`routes, this`resolved
      ensures Value() == Settling(old(Value()), i, h) && leaves == Leaves(old(routes)[i], h)
      ensures |routes| == if leaves then |old(routes)| - 1 else |old(routes)|
    {
      leaves := false;
      if h.Dead? {
        ResolveWaiters(i, CannotConnect);
        leaves := true;
      } else if routes[i].waiters != [] {
        if h.Ready? {
          ResolveWaiters(i, Success);
        } else if h.Overdue? {
          ResolveWaiters(i, Timeout);
          leaves := true;
        }
      } else {
        NobodyWaits(Value(), i, h);
      }
      if leaves {
        routes := routes[..i] + routes[i + 1..];
      }
    }

    /** Stop's last part, with the tick thread joined. */
    method FinishStop()
      modifies this
      ensures Value() == Closing(old(Value())) && running == old(running)
      ensures Valid() && pending == [] && punches == [] && routes == []
      ensures forall c :: Answered(resolved, c) == Accounted(old(Value()), c)
      ensures forall c, result | result != AlreadyStopped :: Heard(resolved, c, result) == Heard(old(resolved), c, result)
    {
      forall c {
        CloseConserves(Value(), c);
      }
      forall c, result {
        CloseTells(Value(), c, result);
      }
      hide Accounted, Answered, Heard;
      punches, pending := punches + pending, [];
      var first := EachPunch(punches);
      resolved, punches := resolved + first, [];
      var second := EachRoute(routes);
      resolved, routes := resolved + second, [];
    }
  }

  lemma ProcessUnfold(s: State, i: nat, health: string -> Health)
    requires i < |s.routes|
    ensures var h := health(s.routes[i].key);
            var next := if Leaves(s.routes[i], h) then i else i + 1;
            next <= |Settling(s, i, h).routes| && Processing(s, i, health) == Processing(Settling(s, i, h), next, health)
  {
  }

  lemma NobodyWaits(s: State, i: nat, h: Health)
    requires i < |s.routes| && s.routes[i].waiters == [] && !h.Dead?
    ensures Settling(s, i, h) == s
  {
    assert s.routes[i := s.routes[i].(waiters := [])] == s.routes;
    assert s.resolved + [] == s.resolved;
  }

  method Each(cs: seq<Callback>, result: Result) returns (answers: seq<Done>)
    ensures answers == All(cs, result)
  {
    answers := [];
    for i := 0 to |cs|
      invariant answers + All(cs[i..], result) == All(cs, result)
    {
      assert cs[i..][1..] == cs[i + 1..];
      assert All(cs[i..], result) == [Done(cs[i], result)] + All(cs[i + 1..], result);
      answers := answers + [Done(cs[i], result)];
    }
  }

  method EachPunch(ps: seq<Punch>) returns (answers: seq<Done>)
    ensures answers == AllPunches(ps)
  {
    answers := [];
    for i := 0 to |ps|
      invariant answers + AllPunches(ps[i..]) == AllPunches(ps)
    {
      assert ps[i..][1..] == ps[i + 1..];
      assert AllPunches(ps[i..]) == Told(ps[i].onDone, AlreadyStopped) + AllPunches(ps[i + 1..]);
      if ps[i].onDone.Some? {
        answers := answers + [Done(ps[i].onDone.value, AlreadyStopped)];
      }
    }
  }

  method EachRoute(rs: seq<Route>) returns (answers: seq<Done>)
    ensures answers == AllWaiters(rs)
  {
    answers := [];
    for i := 0 to |rs|
      invariant answers + AllWaiters(rs[i..]) == AllWaiters(rs)
    {
      assert rs[i..][1..] == rs[i + 1..];
      assert AllWaiters(rs[i..]) == All(rs[i].waiters, AlreadyStopped) + AllWaiters(rs[i + 1..]);
      var some := Each(rs[i].waiters, AlreadyStopped);
      answers := answers + some;
    }
  }
}
