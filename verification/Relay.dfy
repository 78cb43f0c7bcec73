/**
 The relay: pairings by channel, channels by token, and per pairing the two endpoints that bound it.
 Every operation runs under the relay's lock and so is one step. Endpoints and times are numbers
 here; fresh tokens are given from outside.
 */
module Relay {
  import opened Options

  const MAX_CHANNEL: nat := 0xFF_FFFF

  type Endpoint = nat

  // A slot is empty until bound; the first fills first.
  datatype Pairing = Pairing(channel: nat, token: nat, first: Option<Endpoint>, second: Option<Endpoint>,
                             created: int, lastTraffic: int)

  datatype Counts = Counts(total: nat, expired: nat, relayed: nat, dropped: nat, bytes: nat,
                           bindsAccepted: nat, bindsRefused: nat)

  datatype State = State(pairings: map<nat, Pairing>, byToken: map<nat, nat>, next: nat, running: bool, counts: Counts)

  datatype Config = Config(maxAllocations: nat, idleTimeout: int, bindTimeout: int)

  // What an operation sends.
  datatype Output = Silent | Forwarded(to: Endpoint, length: nat) | BoundReply(to: Endpoint, token: nat, channel: nat)

  datatype Result = Result(state: State, output: Output)

  // --- The channel walk --------------------------------------------------------------------

  function Following(channel: nat): nat
  {
    if channel == MAX_CHANNEL then 1 else channel + 1
  }

  function Walk(channel: nat, steps: nat): nat
    decreases steps
  {
    if steps == 0 then channel else Walk(Following(channel), steps - 1)
  }

  predicate IsChannel(c: nat)
  {
    1 <= c <= MAX_CHANNEL
  }

  // How far the walk is from reaching `to`.
  function Distance(from: nat, to: nat): nat
    requires IsChannel(from) && IsChannel(to)
  {
    if from <= to then to - from else MAX_CHANNEL - from + to
  }

  lemma {:induction false} WalkArrives(from: nat, to: nat, n: nat)
    requires IsChannel(from) && IsChannel(to) && n == Distance(from, to)
    ensures Walk(from, n) == to
    decreases n
  {
    if n > 0 {
      WalkArrives(Following(from), to, n - 1);
    }
  }

  lemma {:induction false} WalkStays(from: nat, n: nat)
    requires IsChannel(from)
    ensures IsChannel(Walk(from, n))
    decreases n
  {
    if n > 0 {
      WalkStays(Following(from), n - 1);
    }
  }

  /** The walk ends exactly when some channel is free. */
  lemma WalkEndsExactly(taken: set<nat>, from: nat)
    requires IsChannel(from)
    ensures (exists n: nat :: Walk(from, n) !in taken) <==> (exists c: nat :: IsChannel(c) && c !in taken)
  {
    if n: nat :| Walk(from, n) !in taken {
      WalkStays(from, n);
      assert IsChannel(Walk(from, n));
    }
    if c: nat :| IsChannel(c) && c !in taken {
      WalkArrives(from, c, Distance(from, c));
      assert Walk(from, Distance(from, c)) !in taken;
    }
  }

  // Fewer than n of the numbers 1..n leave one out.
  lemma {:induction false} OneIsFree(taken: set<nat>, n: nat) returns (free: nat)
    requires |taken| < n && forall c | c in taken :: 1 <= c <= n
    ensures 1 <= free <= n && free !in taken
    decreases n
  {
    if n !in taken {
      return n;
    }
    free := OneIsFree(taken - {n}, n - 1);
  }

  // --- The operations ----------------------------------------------------------------------

  function Side(p: Pairing, from: Endpoint): Option<bool>
  {
    if p.first == Some(from) then Some(false) else if p.second == Some(from) then Some(true) else None
  }

  function Dropping(s: State): Result
  {
    Result(s.(counts := s.counts.(dropped := s.counts.dropped + 1)), Silent)
  }

  function Forwarding(s: State, channel: nat, from: Endpoint, length: nat, now: int): Result
  {
    if channel !in s.pairings then Dropping(s)
    else
      var p := s.pairings[channel];
      var side := Side(p, from);
      if side.None? then Dropping(s)
      else
        var other := if side.value then p.first else p.second;
        if other.None? then Dropping(s)
        else Result(s.(pairings := s.pairings[channel := p.(lastTraffic := now)],
                       counts := s.counts.(relayed := s.counts.relayed + 1, bytes := s.counts.bytes + length)),
                    Forwarded(other.value, length))
  }

  function Binding(s: State, token: nat, from: Endpoint, now: int): Result
    requires forall t | t in s.byToken :: s.byToken[t] in s.pairings
  {
    var refused := s.(counts := s.counts.(bindsRefused := s.counts.bindsRefused + 1));
    if token == 0 || token !in s.byToken then Result(refused, Silent)
    else
      var channel := s.byToken[token];
      var p := s.pairings[channel];
      var reply := BoundReply(from, p.token, p.channel);
      var accepted := s.counts.(bindsAccepted := s.counts.bindsAccepted + 1);
      if Side(p, from).Some? then Result(s.(pairings := s.pairings[channel := p.(lastTraffic := now)]), reply)
      else if p.first.None? then
        Result(s.(pairings := s.pairings[channel := p.(first := Some(from), lastTraffic := now)], counts := accepted), reply)
      else if p.second.None? then
        Result(s.(pairings := s.pairings[channel := p.(second := Some(from), lastTraffic := now)], counts := accepted), reply)
      else Result(refused, Silent)
  }

  function Allocating(s: State, channel: nat, token: nat, now: int): State
  {
    s.(pairings := s.pairings[channel := Pairing(channel, token, None, None, now, now)],
       byToken := s.byToken[token := channel], next := Following(channel),
       counts := s.counts.(total := s.counts.total + 1))
  }

  // Released all at once; the order does not show.
  function Releasing(s: State, dead: set<nat>): State
    requires dead <= s.pairings.Keys
  {
    s.(pairings := s.pairings - dead, byToken := s.byToken - (set c | c in dead :: s.pairings[c].token),
       counts := s.counts.(expired := s.counts.expired + |dead|))
  }

  predicate HasExpired(cfg: Config, p: Pairing, now: int)
  {
    if p.first.Some? && p.second.Some? then now - p.lastTraffic > cfg.idleTimeout
    else now - p.created > cfg.bindTimeout
  }

  function Dead(cfg: Config, pairings: map<nat, Pairing>, now: int): set<nat>
  {
    set c | c in pairings && HasExpired(cfg, pairings[c], now)
  }

  function Stopping(s: State): State
  {
    s.(running := false, pairings := map[], byToken := map[])
  }

  // --- What every step keeps ---------------------------------------------------------------

  ghost predicate PairingOk(p: Pairing)
  {
    && p.token != 0 && (p.first.None? ==> p.second.None?)
    && (p.first.Some? && p.second.Some? ==> p.first != p.second)
  }

  ghost predicate Inv(cfg: Config, s: State)
  {
    && IsChannel(s.next) && |s.pairings| <= cfg.maxAllocations
    && (forall c | c in s.pairings ::
          && IsChannel(c) && s.pairings[c].channel == c && PairingOk(s.pairings[c])
          && s.pairings[c].token in s.byToken && s.byToken[s.pairings[c].token] == c)
    && (forall t | t in s.byToken :: s.byToken[t] in s.pairings && s.pairings[s.byToken[t]].token == t)
  }

  datatype Action =
    | Allocate(channel: nat, token: nat, now: int)
    | Free(channel: nat)
    | Expire(dead: set<nat>)
    | Bind(token: nat, from: Endpoint, now: int)
    | Forward(channel: nat, from: Endpoint, length: nat, now: int)
    | Unrecognized
    | Start
    | Stop

  ghost predicate Enabled(cfg: Config, s: State, action: Action)
  {
    match action
    case Allocate(channel, token, _) =>
      && s.running && |s.pairings| < cfg.maxAllocations
      && IsChannel(channel) && channel !in s.pairings && token != 0 && token !in s.byToken
    case Free(channel) => channel in s.pairings
    case Expire(dead) => dead <= s.pairings.Keys
    case _ => true
  }

  function Apply(s: State, action: Action): Result
    requires action.Expire? ==> action.dead <= s.pairings.Keys
    requires action.Free? ==> action.channel in s.pairings
    requires forall t | t in s.byToken :: s.byToken[t] in s.pairings
  {
    match action
    case Allocate(channel, token, now) => Result(Allocating(s, channel, token, now), Silent)
    case Free(channel) => Result(Releasing(s, {channel}), Silent)
    case Expire(dead) => Result(Releasing(s, dead), Silent)
    case Bind(token, from, now) => Binding(s, token, from, now)
    case Forward(channel, from, length, now) => Forwarding(s, channel, from, length, now)
    case Unrecognized => Dropping(s)
    case Start => Result(s.(running := true), Silent)
    case Stop => Result(Stopping(s), Silent)
  }

  lemma TokensLead(cfg: Config, s: State)
    requires Inv(cfg, s)
    ensures forall t | t in s.byToken :: s.byToken[t] in s.pairings
  {
  }

  // A pairing may be updated in place so long as its names and its sides' discipline stay.
  lemma UpdateKeepsInv(cfg: Config, s: State, c: nat, p: Pairing, counts: Counts)
    requires Inv(cfg, s) && c in s.pairings && p.channel == c && p.token == s.pairings[c].token && PairingOk(p)
    ensures Inv(cfg, s.(pairings := s.pairings[c := p], counts := counts))
    ensures |s.pairings[c := p]| == |s.pairings|
  {
    SizeAfter(s.pairings, c, p);
  }

  lemma ForwardKeepsInv(cfg: Config, s: State, channel: nat, from: Endpoint, length: nat, now: int)
    requires Inv(cfg, s)
    ensures var t := Forwarding(s, channel, from, length, now).state;
            && Inv(cfg, t) && |t.pairings| == |s.pairings|
            && t.counts.relayed + t.counts.dropped == s.counts.relayed + s.counts.dropped + 1
            && t.counts.total == s.counts.total && t.counts.expired == s.counts.expired
  {
    var r := Forwarding(s, channel, from, length, now);
    if r.output.Forwarded? {
      UpdateKeepsInv(cfg, s, channel, s.pairings[channel].(lastTraffic := now), r.state.counts);
    }
  }

  lemma BindKeepsInv(cfg: Config, s: State, token: nat, from: Endpoint, now: int)
    requires Inv(cfg, s)
    ensures var t := Binding(s, token, from, now).state;
            && Inv(cfg, t) && |t.pairings| == |s.pairings|
            && t.counts.(bindsAccepted := 0, bindsRefused := 0) == s.counts.(bindsAccepted := 0, bindsRefused := 0)
  {
    var r := Binding(s, token, from, now);
    if r.output.BoundReply? {
      var c := s.byToken[token];
      assert PairingOk(s.pairings[c]);
      UpdateKeepsInv(cfg, s, c, r.state.pairings[c], r.state.counts);
    }
  }

  lemma AllocateKeepsInv(cfg: Config, s: State, channel: nat, token: nat, now: int)
    requires Inv(cfg, s) && Enabled(cfg, s, Allocate(channel, token, now))
    ensures Inv(cfg, Allocating(s, channel, token, now))
    ensures |Allocating(s, channel, token, now).pairings| == |s.pairings| + 1
  {
    var t := Allocating(s, channel, token, now);
    SizeAfter(s.pairings, channel, t.pairings[channel]);
    forall c | c in t.pairings
      ensures t.pairings[c].token in t.byToken && t.byToken[t.pairings[c].token] == c
    {
      assert c != channel ==> s.pairings[c].token != token;
    }
  }

  lemma SizeAfter<K, V>(m: map<K, V>, k: K, v: V)
    ensures |m[k := v]| == if k in m then |m| else |m| + 1
  {
    assert m[k := v].Keys == m.Keys + {k};
    assert |m[k := v].Keys| == |m[k := v]| && |m.Keys| == |m|;
    if k in m {
      assert m.Keys + {k} == m.Keys;
    }
  }

  lemma StepKeepsInv(cfg: Config, s: State, action: Action)
    requires Inv(cfg, s) && Enabled(cfg, s, action)
    ensures Inv(cfg, Apply(s, action).state)
  {
    hide Forwarding, Binding, Allocating, Releasing;
    match action
    case Allocate(channel, token, now) => AllocateKeepsInv(cfg, s, channel, token, now);
    case Free(channel) => ReleaseKeepsInv(cfg, s, {channel});
    case Expire(dead) => ReleaseKeepsInv(cfg, s, dead);
    case Bind(token, from, now) => BindKeepsInv(cfg, s, token, from, now);
    case Forward(channel, from, length, now) => ForwardKeepsInv(cfg, s, channel, from, length, now);
    case _ =>
  }

  lemma ReleaseKeepsInv(cfg: Config, s: State, dead: set<nat>)
    requires Inv(cfg, s) && dead <= s.pairings.Keys
    ensures Inv(cfg, Releasing(s, dead)) && |Releasing(s, dead).pairings| + |dead| == |s.pairings|
  {
    var t := Releasing(s, dead);
    assert t.pairings.Keys == s.pairings.Keys - dead;
    assert |t.pairings.Keys| + |dead| == |s.pairings.Keys|;
  }

  /** Inside a step a bound side never changes or moves, nor does the token: either the whole pairing
      goes, or both stay. */
  lemma SlotsAreStable(cfg: Config, s: State, action: Action, channel: nat)
    requires Inv(cfg, s) && Enabled(cfg, s, action) && channel in s.pairings
    ensures var t := Apply(s, action).state;
            channel in t.pairings ==>
              && t.pairings[channel].token == s.pairings[channel].token
              && (s.pairings[channel].first.Some? ==> t.pairings[channel].first == s.pairings[channel].first)
              && (s.pairings[channel].second.Some? ==> t.pairings[channel].second == s.pairings[channel].second)
  {
  }

  /** A datagram goes through exactly when both sides are bound and it comes from one of them, and
      then to the other. */
  lemma ForwardsOnlyAcross(cfg: Config, s: State, channel: nat, from: Endpoint, length: nat, now: int, to: Endpoint)
    requires Inv(cfg, s)
    ensures Forwarding(s, channel, from, length, now).output == Forwarded(to, length) <==>
            && channel in s.pairings && from != to
            && {s.pairings[channel].first, s.pairings[channel].second} == {Some(from), Some(to)}
    ensures Forwarding(s, channel, from, length, now).output.Silent? ||
            exists e :: Forwarding(s, channel, from, length, now).output == Forwarded(e, length)
  {
    if channel in s.pairings {
      var p := s.pairings[channel];
      assert PairingOk(p);
      if {p.first, p.second} == {Some(from), Some(to)} {
        assert p.first in {Some(from), Some(to)} && p.second in {Some(from), Some(to)};
        assert Some(from) in {p.first, p.second} && Some(to) in {p.first, p.second};
      }
    }
  }

  /** A bind is answered exactly when its token is live and the endpoint is bound already or a side
      is free; it then holds a side, and a side is only ever given to one that was not bound. */
  lemma BindsOnlyFreeSides(cfg: Config, s: State, token: nat, from: Endpoint, now: int)
    requires Inv(cfg, s)
    ensures var r := Binding(s, token, from, now);
            var live := token in s.byToken;
            && (r.output.BoundReply? <==>
                  live && var p := s.pairings[s.byToken[token]];
                          p.first == Some(from) || p.second == Some(from) || p.second.None?)
            && (r.output.BoundReply? ==>
                  var c := s.byToken[token];
                  && r.output == BoundReply(from, token, c)
                  && (r.state.pairings[c].first == Some(from) || r.state.pairings[c].second == Some(from)))
            && r.state.counts.bindsAccepted - s.counts.bindsAccepted
               == (if r.output.BoundReply? && Side(s.pairings[s.byToken[token]], from).None? then 1 else 0)
            && r.state.counts.bindsRefused - s.counts.bindsRefused == (if r.output.BoundReply? then 0 else 1)
  {
    if token in s.byToken {
      assert PairingOk(s.pairings[s.byToken[token]]);
    }
  }

  // --- Every run ---------------------------------------------------------------------------

  ghost predicate IsRun(cfg: Config, s: State, run: seq<Action>)
    requires Inv(cfg, s)
    decreases |run|
  {
    run != [] ==>
      && Enabled(cfg, s, run[0])
      && (StepKeepsInv(cfg, s, run[0]);
          IsRun(cfg, Apply(s, run[0]).state, run[1..]))
  }

  ghost function End(cfg: Config, s: State, run: seq<Action>): (t: State)
    requires Inv(cfg, s) && IsRun(cfg, s, run)
    ensures Inv(cfg, t)
    decreases |run|
  {
    if run == [] then s
    else
      StepKeepsInv(cfg, s, run[0]);
      End(cfg, Apply(s, run[0]).state, run[1..])
  }

  // The pairing on this channel is not released in this run.
  ghost predicate Lives(cfg: Config, s: State, run: seq<Action>, channel: nat)
    requires Inv(cfg, s) && IsRun(cfg, s, run)
    decreases |run|
  {
    && channel in s.pairings
    && (run != [] ==>
          (StepKeepsInv(cfg, s, run[0]);
           Lives(cfg, Apply(s, run[0]).state, run[1..], channel)))
  }

  /** Until its pairing is released, an endpoint that bound a side keeps it. */
  lemma {:induction false} SidesStayBound(cfg: Config, s: State, run: seq<Action>, channel: nat)
    requires Inv(cfg, s) && IsRun(cfg, s, run) && Lives(cfg, s, run, channel)
    ensures var p, q := s.pairings[channel], End(cfg, s, run).pairings;
            && channel in q && q[channel].token == p.token
            && (p.first.Some? ==> q[channel].first == p.first) && (p.second.Some? ==> q[channel].second == p.second)
    decreases |run|
  {
    if run != [] {
      hide Inv, Apply;
      StepKeepsInv(cfg, s, run[0]);
      SlotsAreStable(cfg, s, run[0], channel);
      SidesStayBound(cfg, Apply(s, run[0]).state, run[1..], channel);
    }
  }

  // How many datagrams asked to be carried.
  function Offered(run: seq<Action>): nat
  {
    if run == [] then 0
    else (if run[0].Forward? || run[0].Unrecognized? then 1 else 0) + Offered(run[1..])
  }

  /** Every datagram offered is counted once, as relayed or as dropped, and until the relay is
      stopped every allocation ever made is either live or counted as expired. */
  lemma {:induction false} NothingUncounted(cfg: Config, s: State, run: seq<Action>)
    requires Inv(cfg, s) && IsRun(cfg, s, run)
    ensures var t := End(cfg, s, run);
            && t.counts.relayed + t.counts.dropped == s.counts.relayed + s.counts.dropped + Offered(run)
            && ((forall a | a in run :: !a.Stop?) ==>
                  t.counts.total - t.counts.expired - |t.pairings| == s.counts.total - s.counts.expired - |s.pairings|)
    decreases |run|
  {
    if run != [] {
      hide Inv;
      StepKeepsInv(cfg, s, run[0]);
      StepCounts(cfg, s, run[0]);
      NothingUncounted(cfg, Apply(s, run[0]).state, run[1..]);
      assert forall a | a in run[1..] :: a in run;
    }
  }

  // How many bytes the run has carried.
  ghost function Carried(cfg: Config, s: State, run: seq<Action>): nat
    requires Inv(cfg, s) && IsRun(cfg, s, run)
    decreases |run|
  {
    if run == [] then 0
    else
      StepKeepsInv(cfg, s, run[0]);
      var out := Apply(s, run[0]).output;
      (if run[0].Forward? && out.Forwarded? then run[0].length else 0) + Carried(cfg, Apply(s, run[0]).state, run[1..])
  }

  lemma StepBytes(cfg: Config, s: State, action: Action)
    requires Inv(cfg, s) && Enabled(cfg, s, action)
    ensures var r := Apply(s, action);
            r.state.counts.bytes == s.counts.bytes + if action.Forward? && r.output.Forwarded? then action.length else 0
  {
  }

  /** The bytes counted are those of the datagrams that went through. */
  lemma {:induction false} BytesAreCounted(cfg: Config, s: State, run: seq<Action>)
    requires Inv(cfg, s) && IsRun(cfg, s, run)
    ensures End(cfg, s, run).counts.bytes == s.counts.bytes + Carried(cfg, s, run)
    decreases |run|
  {
    if run != [] {
      hide Inv, Apply;
      StepKeepsInv(cfg, s, run[0]);
      StepBytes(cfg, s, run[0]);
      BytesAreCounted(cfg, Apply(s, run[0]).state, run[1..]);
    }
  }

  lemma StepCounts(cfg: Config, s: State, action: Action)
    requires Inv(cfg, s) && Enabled(cfg, s, action)
    ensures var t := Apply(s, action).state;
            && t.counts.relayed + t.counts.dropped
               == s.counts.relayed + s.counts.dropped + (if action.Forward? || action.Unrecognized? then 1 else 0)
            && (!action.Stop? ==> t.counts.total - t.counts.expired - |t.pairings|
                                  == s.counts.total - s.counts.expired - |s.pairings|)
  {
    hide Inv, Forwarding, Binding;
    match action
    case Allocate(channel, token, now) => AllocateKeepsInv(cfg, s, channel, token, now);
    case Free(channel) => ReleaseKeepsInv(cfg, s, {channel});
    case Expire(dead) => ReleaseKeepsInv(cfg, s, dead);
    case Bind(token, from, now) => BindKeepsInv(cfg, s, token, from, now);
    case Forward(channel, from, length, now) => ForwardKeepsInv(cfg, s, channel, from, length, now);
    case _ =>
  }

  // --- Who has expired ---------------------------------------------------------------------

  // A step that made a pairing on the channel, answered a bind for it or carried a datagram over it, and
  // when.
  ghost function Touch(cfg: Config, s: State, action: Action, channel: nat): Option<int>
    requires Inv(cfg, s) && Enabled(cfg, s, action)
  {
    match action
    case Allocate(c, _, now) => if c == channel then Some(now) else None
    case Bind(token, _, now) =>
      var out := Apply(s, action).output;
      if out.BoundReply? && out.channel == channel then Some(now) else None
    case Forward(c, _, _, now) => if c == channel && Apply(s, action).output.Forwarded? then Some(now) else None
    case _ => None
  }

  // The last time in the run the channel was touched, and the last time it was allocated.
  ghost function LastTouched(cfg: Config, s: State, run: seq<Action>, channel: nat, before: int): int
    requires Inv(cfg, s) && IsRun(cfg, s, run)
    decreases |run|
  {
    if run == [] then before
    else
      StepKeepsInv(cfg, s, run[0]);
      var touch := Touch(cfg, s, run[0], channel);
      LastTouched(cfg, Apply(s, run[0]).state, run[1..], channel, if touch.Some? then touch.value else before)
  }

  function LastAllocated(run: seq<Action>, channel: nat, before: int): int
    decreases |run|
  {
    if run == [] then before
    else LastAllocated(run[1..], channel, if run[0].Allocate? && run[0].channel == channel then run[0].now else before)
  }

  // A pairing's two clocks, as they stand or as they would.
  ghost predicate ClocksAre(s: State, channel: nat, created: int, touched: int)
  {
    channel in s.pairings ==> s.pairings[channel].created == created && s.pairings[channel].lastTraffic == touched
  }

  lemma ClockStep(cfg: Config, s: State, action: Action, channel: nat, created: int, touched: int)
    requires Inv(cfg, s) && Enabled(cfg, s, action) && ClocksAre(s, channel, created, touched)
    ensures var touch := Touch(cfg, s, action, channel);
            ClocksAre(Apply(s, action).state, channel,
                      if action.Allocate? && action.channel == channel then action.now else created,
                      if touch.Some? then touch.value else touched)
  {
  }

  lemma {:induction false} ClocksTell(cfg: Config, s: State, run: seq<Action>, channel: nat, created: int, touched: int)
    requires Inv(cfg, s) && IsRun(cfg, s, run) && ClocksAre(s, channel, created, touched)
    ensures ClocksAre(End(cfg, s, run), channel,
                      LastAllocated(run, channel, created), LastTouched(cfg, s, run, channel, touched))
    decreases |run|
  {
    if run != [] {
      hide Inv, Apply, ClocksAre, Touch;
      StepKeepsInv(cfg, s, run[0]);
      ClockStep(cfg, s, run[0], channel, created, touched);
      var touch := Touch(cfg, s, run[0], channel);
      ClocksTell(cfg, Apply(s, run[0]).state, run[1..], channel,
                 if run[0].Allocate? && run[0].channel == channel then run[0].now else created,
                 if touch.Some? then touch.value else touched);
    }
  }

  /** Which pairings an expiry at the end of a run releases: those with both sides bound and nothing carried
      or bound for longer than the idle timeout, and those with a side free and allocated longer ago than
      the bind timeout; no others. */
  lemma ExpiresExactly(cfg: Config, run: seq<Action>, t: State, now: int, channel: nat)
    requires Reaches(cfg, run, t)
    ensures channel in Dead(cfg, t.pairings, now) <==>
            && channel in t.pairings
            && (var p := t.pairings[channel];
                if p.first.Some? && p.second.Some?
                then now - LastTouched(cfg, NEW_RELAY, run, channel, 0) > cfg.idleTimeout
                else now - LastAllocated(run, channel, 0) > cfg.bindTimeout)
  {
    hide IsRun, End, LastTouched, LastAllocated;
    ClocksTell(cfg, NEW_RELAY, run, channel, 0, 0);
  }

  // What the constructor makes, and where a run from it leads.
  const NEW_RELAY: State := State(map[], map[], 1, false, Counts(0, 0, 0, 0, 0, 0, 0))

  ghost predicate Reaches(cfg: Config, run: seq<Action>, t: State)
  {
    Inv(cfg, NEW_RELAY) && IsRun(cfg, NEW_RELAY, run) && End(cfg, NEW_RELAY, run) == t
  }

  lemma {:induction false} RunOneMore(cfg: Config, s: State, run: seq<Action>, action: Action)
    requires Inv(cfg, s) && IsRun(cfg, s, run) && Enabled(cfg, End(cfg, s, run), action)
    ensures IsRun(cfg, s, run + [action])
    ensures End(cfg, s, run + [action]) == Apply(End(cfg, s, run), action).state
    decreases |run|
  {
    hide Apply;
    if run == [] {
      assert (run + [action])[1..] == [];
      StepKeepsInv(cfg, s, action);
    } else {
      StepKeepsInv(cfg, s, run[0]);
      assert (run + [action])[1..] == run[1..] + [action];
      RunOneMore(cfg, Apply(s, run[0]).state, run[1..], action);
    }
  }

  lemma OneMoreStep(cfg: Config, run: seq<Action>, t: State, action: Action)
    requires Reaches(cfg, run, t) && Enabled(cfg, t, action)
    ensures Inv(cfg, t) && Reaches(cfg, run + [action], Apply(t, action).state)
  {
    RunOneMore(cfg, NEW_RELAY, run, action);
  }

  // --- What the limit on allocations decides -----------------------------------------------

  // The walk from the cursor comes to a free channel.
  ghost predicate WalkEnds(s: State)
  {
    exists n: nat :: Walk(s.next, n) !in s.pairings
  }

  predicate UpTo(c: nat, n: nat)
  {
    1 <= c <= n
  }

  function Channels(n: nat): set<nat>
  {
    set c: nat | 1 <= c <= n && UpTo(c, n)
  }

  lemma OneChannelMore(n: nat)
    requires n > 0
    ensures Channels(n) == Channels(n - 1) + {n} && n !in Channels(n - 1)
  {
    assert forall c: nat :: UpTo(c, n) <==> UpTo(c, n - 1) || c == n;
  }

  lemma {:induction false} ChannelCount(n: nat)
    ensures |Channels(n)| == n
    decreases n
  {
    if n > 0 {
      ChannelCount(n - 1);
      OneChannelMore(n);
    }
  }

  // A relay started and asked for n allocations, nothing else.
  function Filled(n: nat): State
  {
    State(map c | c in Channels(n) :: Pairing(c, c, None, None, 0, 0), map c | c in Channels(n) :: c,
          if n == MAX_CHANNEL then 1 else n + 1, true, Counts(n, 0, 0, 0, 0, 0, 0))
  }

  // The allocation after n - 1 others finds its channel at the cursor.
  lemma FilledStep(cfg: Config, n: nat)
    requires 0 < n <= MAX_CHANNEL && n <= cfg.maxAllocations
    ensures Filled(n - 1).next == n && Enabled(cfg, Filled(n - 1), Allocate(n, n, 0))
    ensures Filled(n) == Allocating(Filled(n - 1), n, n, 0)
  {
    var s := Filled(n - 1);
    OneChannelMore(n);
    ChannelCount(n - 1);
    assert s.pairings.Keys == Channels(n - 1) && |s.pairings| == |s.pairings.Keys|;
    FilledMaps(n);
  }

  lemma FilledMaps(n: nat)
    requires 0 < n
    ensures Filled(n).pairings == Filled(n - 1).pairings[n := Pairing(n, n, None, None, 0, 0)]
    ensures Filled(n).byToken == Filled(n - 1).byToken[n := n]
  {
    OneChannelMore(n);
    hide Channels;
  }

  lemma {:induction false} AllocateMany(cfg: Config, n: nat) returns (run: seq<Action>)
    requires n <= MAX_CHANNEL && n <= cfg.maxAllocations
    ensures Reaches(cfg, run, Filled(n))
  {
    hide Filled, Reaches;
    if n == 0 {
      run := StartOnly(cfg);
    } else {
      run := AllocateMany(cfg, n - 1);
      FilledStep(cfg, n);
      OneMoreStep(cfg, run, Filled(n - 1), Allocate(n, n, 0));
      run := run + [Allocate(n, n, 0)];
    }
  }

  lemma StartOnly(cfg: Config) returns (run: seq<Action>)
    ensures Reaches(cfg, run, Filled(0))
  {
    run := [Start];
    assert run[1..] == [];
    var s := Filled(0);
    assert s.pairings == map[] && s.byToken == map[];
  }

  // A relay with a pairing on every channel, still below a limit above their number.
  lemma EveryChannelTaken(cfg: Config) returns (run: seq<Action>, s: State)
    requires cfg.maxAllocations > MAX_CHANNEL
    ensures Reaches(cfg, run, s) && s.running && |s.pairings| < cfg.maxAllocations
    ensures forall n: nat :: Walk(s.next, n) in s.pairings
  {
    hide Reaches;
    run := AllocateMany(cfg, MAX_CHANNEL);
    s := Filled(MAX_CHANNEL);
    ChannelCount(MAX_CHANNEL);
    assert s.pairings.Keys == Channels(MAX_CHANNEL) && |s.pairings| == |s.pairings.Keys|;
    forall n: nat
      ensures Walk(s.next, n) in s.pairings
    {
      WalkStays(1, n);
      assert UpTo(Walk(1, n), MAX_CHANNEL);
    }
  }

  lemma RoomMeansFree(cfg: Config, s: State)
    requires Inv(cfg, s) && |s.pairings| < cfg.maxAllocations <= MAX_CHANNEL
    ensures WalkEnds(s)
  {
    assert |s.pairings.Keys| == |s.pairings|;
    var free := OneIsFree(s.pairings.Keys, MAX_CHANNEL);
    WalkEndsExactly(s.pairings.Keys, s.next);
    assert IsChannel(free);
    var n: nat :| Walk(s.next, n) !in s.pairings.Keys;
  }

  /** The walk ends from every reachable state in which an allocation is still allowed exactly when the
      limit is no greater than the number of channels. */
  lemma LimitDecides(cfg: Config)
    ensures (forall run, s :: Reaches(cfg, run, s) && s.running && |s.pairings| < cfg.maxAllocations ==> WalkEnds(s))
            <==> cfg.maxAllocations <= MAX_CHANNEL
  {
    if cfg.maxAllocations > MAX_CHANNEL {
      var run, s := EveryChannelTaken(cfg);
      assert !WalkEnds(s);
    } else {
      forall run, s | Reaches(cfg, run, s) && s.running && |s.pairings| < cfg.maxAllocations
        ensures WalkEnds(s)
      {
        assert Inv(cfg, s);
        RoomMeansFree(cfg, s);
      }
    }
  }

  // --- The relay itself --------------------------------------------------------------------

  // Allocate's walk. Distance to a free channel bounds it.
  method NextFree(pairings: map<nat, Pairing>, start: nat) returns (channel: nat)
    requires IsChannel(start) && exists n: nat :: Walk(start, n) !in pairings
    ensures IsChannel(channel) && channel !in pairings
    ensures exists n: nat :: FoundAfter(pairings, start, channel, n)
  {
    ghost var far: nat :| Walk(start, far) !in pairings;
    ghost var free := Walk(start, far);
    WalkStays(start, far);
    ghost var n: nat := 0;
    channel := start;
    while channel in pairings
      invariant IsChannel(channel) && channel == Walk(start, n)
      invariant forall m: nat | m < n :: Walk(start, m) in pairings
      decreases Distance(channel, free)
    {
      WalkOneMore(start, n);
      channel := if channel == MAX_CHANNEL then 1 else channel + 1;
      n := n + 1;
    }
    assert FoundAfter(pairings, start, channel, n);
  }

  // The walk from start finds every channel taken until, n steps on, it stands on this one.
  ghost predicate FoundAfter(pairings: map<nat, Pairing>, start: nat, channel: nat, n: nat)
  {
    channel == Walk(start, n) && forall m: nat | m < n :: Walk(start, m) in pairings
  }

  class Relay {
    const config: Config
    var pairings: map<nat, Pairing>
    var byToken: map<nat, nat>
    var nextChannel: nat
    var running: bool
    var counts: Counts

    ghost function Value(): State
      reads this
    {
      State(pairings, byToken, nextChannel, running, counts)
    }

    ghost predicate Valid()
      reads this
    {
      Inv(config, Value())
    }

    constructor (config: Config)
      ensures this.config == config && Valid()
      ensures Value() == NEW_RELAY
    {
      this.config := config;
      pairings, byToken, nextChannel, running := map[], map[], 1, false;
      counts := Counts(0, 0, 0, 0, 0, 0, 0);
    }

    method Start()
      modifies this
      ensures Value() == old(Value()).(running := true)
    {
      running := true;
    }

    method Stop()
      modifies this
      ensures Value() == Stopping(old(Value()))
    {
      running, pairings, byToken := false, map[], map[];
    }

    /** A new pairing on the first free channel at or after the cursor, wrapping round; none when the
        relay is stopped or full. The walk has to end; LimitDecides says when it always does.
        freshToken: what the token generator comes up with. */
    method Allocate(freshToken: nat, now: int) returns (channel: Option<nat>)
      requires Valid() && (running && |pairings| < config.maxAllocations ==> WalkEnds(Value()))
      requires freshToken != 0 && freshToken !in byToken
      modifies this
      ensures Valid()
      ensures channel.None? <==> !old(running) || |old(pairings)| >= config.maxAllocations
      ensures channel.None? ==> Value() == old(Value())
      ensures channel.Some? ==>
                && IsChannel(channel.value) && channel.value !in old(pairings)
                && (exists n: nat :: FoundAfter(old(pairings), old(nextChannel), channel.value, n))
                && Value() == Allocating(old(Value()), channel.value, freshToken, now)
    {
      if !running || |pairings| >= config.maxAllocations {
        return None;
      }
      ghost var before := Value();
      var c := NextFree(pairings, nextChannel);
      hide Inv, FoundAfter;
      AllocateKeepsInv(config, before, c, freshToken, now);
      nextChannel := if c == MAX_CHANNEL then 1 else c + 1;
      byToken := byToken[freshToken := c];
      pairings := pairings[c := Pairing(c, freshToken, None, None, now, now)];
      counts := counts.(total := counts.total + 1);
      return Some(c);
    }

    method Release(channel: nat)
      requires Valid() && channel in pairings
      modifies this
      ensures Valid() && Value() == Releasing(old(Value()), {channel})
    {
      ReleaseKeepsInv(config, Value(), {channel});
      ReleaseOne(Value(), channel);
      hide Inv, Releasing;
      byToken := byToken - {pairings[channel].token};
      pairings := pairings - {channel};
      counts := counts.(expired := counts.expired + 1);
    }

    method Free(channel: nat) returns (found: bool)
      requires Valid()
      modifies this
      ensures Valid() && found == (channel in old(pairings))
      ensures Value() == if found then Releasing(old(Value()), {channel}) else old(Value())
    {
      if channel !in pairings {
        return false;
      }
      Release(channel);
      return true;
    }

    /** Releases exactly the pairings that never filled in time or have gone idle. */
    method Expire(now: int)
      requires Valid()
      modifies this
      ensures Valid()
      ensures Value() == Releasing(old(Value()), Dead(config, old(pairings), now))
    {
      hide Inv, Releasing;
      var keys := pairings.Keys;
      ghost var dead: set<nat> := {};
      ReleaseNone(Value());
      while keys != {}
        invariant Valid() && dead <= old(pairings).Keys && keys <= old(pairings).Keys && keys !! dead
        invariant Value() == Releasing(old(Value()), dead)
        invariant forall c | c in old(pairings) && c !in keys :: c in dead <==> HasExpired(config, old(pairings)[c], now)
        decreases |keys|
      {
        var c :| c in keys;
        keys := keys - {c};
        ReleasedKeeps(old(Value()), dead, c);
        if HasExpired(config, pairings[c], now) {
          ReleaseMore(old(Value()), dead, c);
          Release(c);
          dead := dead + {c};
        }
      }
      assert dead == Dead(config, old(pairings), now);
    }

    method OnForward(channel: nat, from: Endpoint, length: nat, now: int) returns (output: Output)
      requires Valid()
      modifies this
      ensures Valid() && Result(Value(), output) == Forwarding(old(Value()), channel, from, length, now)
    {
      hide Inv;
      ForwardKeepsInv(config, Value(), channel, from, length, now);
      if channel !in pairings {
        counts := counts.(dropped := counts.dropped + 1);
        return Silent;
      }
      var p := pairings[channel];
      var other: Option<Endpoint> := None;
      if p.first == Some(from) {
        other := p.second;
      } else if p.second == Some(from) {
        other := p.first;
      }
      if other.None? {
        counts := counts.(dropped := counts.dropped + 1);
        return Silent;
      }
      pairings := pairings[channel := p.(lastTraffic := now)];
      counts := counts.(relayed := counts.relayed + 1, bytes := counts.bytes + length);
      return Forwarded(other.value, length);
    }

    method OnBind(token: nat, from: Endpoint, now: int) returns (output: Output)
      requires Valid()
      modifies this
      ensures Valid() && Result(Value(), output) == Binding(old(Value()), token, from, now)
    {
      hide Inv;
      BindKeepsInv(config, Value(), token, from, now);
      TokensLead(config, Value());
      if token == 0 || token !in byToken {
        counts := counts.(bindsRefused := counts.bindsRefused + 1);
        return Silent;
      }
      var c := byToken[token];
      var p := pairings[c];
      if p.first != Some(from) && p.second != Some(from) {
        if p.first.None? {
          p := p.(first := Some(from));
        } else if p.second.None? {
          p := p.(second := Some(from));
        } else {
          counts := counts.(bindsRefused := counts.bindsRefused + 1);
          return Silent;
        }
        counts := counts.(bindsAccepted := counts.bindsAccepted + 1);
      }
      pairings := pairings[c := p.(lastTraffic := now)];
      return BoundReply(from, p.token, p.channel);
    }

    method OnUnrecognized()
      modifies this
      ensures Value() == Dropping(old(Value())).state
    {
      counts := counts.(dropped := counts.dropped + 1);
    }
  }

  lemma {:induction false} WalkOneMore(from: nat, n: nat)
    ensures Walk(from, n + 1) == Following(Walk(from, n))
    decreases n
  {
    if n > 0 {
      WalkOneMore(Following(from), n - 1);
    }
  }

  lemma ReleaseNone(s: State)
    ensures Releasing(s, {}) == s
  {
    var t := Releasing(s, {});
    assert t.pairings == s.pairings;
    assert t.byToken == s.byToken;
  }

  lemma ReleaseOne(s: State, c: nat)
    requires c in s.pairings
    ensures Releasing(s, {c}) == s.(pairings := s.pairings - {c}, byToken := s.byToken - {s.pairings[c].token},
                                    counts := s.counts.(expired := s.counts.expired + 1))
  {
    assert (set d | d in {c} :: s.pairings[d].token) == {s.pairings[c].token};
  }

  lemma ReleasedKeeps(s: State, dead: set<nat>, c: nat)
    requires dead <= s.pairings.Keys && c in s.pairings && c !in dead
    ensures c in Releasing(s, dead).pairings && Releasing(s, dead).pairings[c] == s.pairings[c]
  {
  }

  lemma ReleaseMore(s: State, dead: set<nat>, c: nat)
    requires dead <= s.pairings.Keys && c in s.pairings && c !in dead
    ensures Releasing(Releasing(s, dead), {c}) == Releasing(s, dead + {c})
  {
    var t := Releasing(s, dead);
    assert t.pairings - {c} == s.pairings - (dead + {c});
    var gone := set d | d in dead :: s.pairings[d].token;
    assert (set d | d in {c} :: t.pairings[d].token) == {s.pairings[c].token};
    assert (set d | d in dead + {c} :: s.pairings[d].token) == gone + {s.pairings[c].token};
    assert t.byToken - {s.pairings[c].token} == s.byToken - (gone + {s.pairings[c].token});
  }
}
