/**
 The rendezvous server: clients are named on arrival, ask for each other by name, and are paired
 once both have asked. Every handler and every item of the pairing thread's batch runs under the
 server's lock, so each is one step; the steps interleave freely. Random names and punch ids, the
 request throttle's verdict and the relay's allocation are given from outside.
 */
module Rendezvous {
  import opened Bytes
  import opened Candidates
  import opened Options

  type Session = nat

  datatype Client = Client(
    name: string,  // empty until welcomed
    pending: set<string>,
    paired: set<string>,
    candidates: seq<Candidate>,
    punchPort: nat,
    observed: Address)

  datatype Packet =
    | Welcome(name: string)
    | PunchOffer(target: string, punchId: nat, candidates: seq<Candidate>)
    | PeerNotFound(target: string)
    | RepunchRequest(from: string)

  datatype Ask = Ask(session: Session, target: string)
  datatype Sent = Sent(session: Session, packet: Packet)

  datatype Server = Server(
    clients: map<Session, Client>,
    registry: map<string, Session>,
    welcomeQueue: seq<Session>,
    connectQueue: seq<Ask>,
    clearQueue: seq<string>,
    welcomeBatch: seq<Session>,  // what the pairing thread has taken but not finished
    connectBatch: seq<Ask>,
    clearBatch: seq<string>,
    outbox: seq<Sent>)

  // --- What an offer lists -----------------------------------------------------------------

  function WithPort(a: Address, port: nat): Address
  {
    if a.UnixPath? then a else a.(port := port)
  }

  function OfKind(cs: seq<Candidate>, kind: Kind): seq<Candidate>
  {
    if cs == [] then []
    else (if cs[0].kind == kind then [cs[0]] else []) + OfKind(cs[1..], kind)
  }

  lemma {:induction false} OfKindMembers(cs: seq<Candidate>, kind: Kind)
    ensures forall c | c in OfKind(cs, kind) :: c in cs && c.kind == kind
    decreases |cs|
  {
    if cs != [] {
      OfKindMembers(cs[1..], kind);
    }
  }

  predicate ContainsAddress(cs: seq<Candidate>, a: Address)
  {
    exists k :: 0 <= k < |cs| && cs[k].address == a
  }

  function Leading(c: Client): (r: seq<Candidate>)
    ensures r != [] && forall x | x in r :: x.kind.Reflexive?
  {
    var reflexive := OfKind(c.candidates, Reflexive);
    OfKindMembers(c.candidates, Reflexive);
    if reflexive != [] then reflexive
    else [Candidate(Reflexive, if c.punchPort != 0 then WithPort(c.observed, c.punchPort) else c.observed, 0)]
  }

  // Host candidates appended to `out` unless their address is there already.
  function WithHosts(out: seq<Candidate>, cs: seq<Candidate>): (r: seq<Candidate>)
    ensures out <= r
    decreases |cs|
  {
    if cs == [] then out
    else WithHosts(if cs[0].kind.Host? && !ContainsAddress(out, cs[0].address) then out + [cs[0]] else out, cs[1..])
  }

  function Offer(c: Client, relayed: Option<Candidate>): seq<Candidate>
  {
    var out := WithHosts(Leading(c), c.candidates);
    var cap := if relayed.Some? then MAX_CANDIDATES - 1 else MAX_CANDIDATES;
    var kept := if |out| > cap then out[..cap] else out;
    if relayed.Some? then kept + [relayed.value] else kept
  }

  method OfferCandidates(c: Client, relayed: Option<Candidate>) returns (out: seq<Candidate>)
    ensures out == Offer(c, relayed)
  {
    hide Leading, WithHosts;
    out := ReflexiveFirst(c);
    out := ThenHosts(out, c.candidates);
    var cap := if relayed.Some? then MAX_CANDIDATES - 1 else MAX_CANDIDATES;
    if |out| > cap {
      out := out[..cap];
    }
    if relayed.Some? {
      out := out + [relayed.value];
    }
  }

  // Its first loop, and what stands in when that finds nothing.
  method ReflexiveFirst(c: Client) returns (out: seq<Candidate>)
    ensures out == Leading(c)
  {
    out := [];
    var hasReflexive := false;
    for i := 0 to |c.candidates|
      invariant out == OfKind(c.candidates[..i], Reflexive) && hasReflexive == (out != [])
    {
      OfKindSnoc(c.candidates[..i], c.candidates[i], Reflexive);
      assert c.candidates[..i + 1] == c.candidates[..i] + [c.candidates[i]];
      if c.candidates[i].kind.Reflexive? {
        hasReflexive := true;
        out := out + [c.candidates[i]];
      }
    }
    assert c.candidates[..|c.candidates|] == c.candidates;
    if !hasReflexive {
      var address := c.observed;
      if c.punchPort != 0 {
        address := WithPort(c.observed, c.punchPort);
      }
      out := [Candidate(Reflexive, address, 0)];
    }
  }

  // Its second loop.
  method ThenHosts(first: seq<Candidate>, cs: seq<Candidate>) returns (out: seq<Candidate>)
    ensures out == WithHosts(first, cs)
  {
    out := first;
    assert cs[0..] == cs;
    for i := 0 to |cs|
      invariant WithHosts(first, cs) == WithHosts(out, cs[i..])
    {
      assert cs[i..][1..] == cs[i + 1..];
      if cs[i].kind.Host? && !ContainsAddress(out, cs[i].address) {
        out := out + [cs[i]];
      }
    }
  }

  lemma Regrouped<T>(a: seq<T>, b: seq<T>, c: seq<T>)
    ensures a + (b + c) == a + b + c
  {
  }

  lemma {:induction false} OfKindSnoc(cs: seq<Candidate>, c: Candidate, kind: Kind)
    ensures OfKind(cs + [c], kind) == OfKind(cs, kind) + if c.kind == kind then [c] else []
    decreases |cs|
  {
    var last := if c.kind == kind then [c] else [];
    if cs == [] {
      assert cs + [c] == [c] && [c][1..] == [];
    } else {
      OfKindSnoc(cs[1..], c, kind);
      assert (cs + [c])[0] == cs[0] && (cs + [c])[1..] == cs[1..] + [c];
      Regrouped(if cs[0].kind == kind then [cs[0]] else [], OfKind(cs[1..], kind), last);
    }
  }

  // Reflexive candidates, then hosts no earlier entry already names.
  ghost predicate WellOrdered(cs: seq<Candidate>)
  {
    && (forall k | 0 <= k < |cs| :: !cs[k].kind.Relayed?)
    && (forall j, k | 0 <= j < k < |cs| && cs[k].kind.Host? :: cs[j].address != cs[k].address)
    && (forall j, k | 0 <= j < k < |cs| && cs[j].kind.Host? :: cs[k].kind.Host?)
  }

  lemma {:induction false} WithHostsOrdered(out: seq<Candidate>, cs: seq<Candidate>)
    requires WellOrdered(out)
    ensures WellOrdered(WithHosts(out, cs))
    ensures forall c | c in WithHosts(out, cs) :: c in out || c in cs
    decreases |cs|
  {
    if cs != [] {
      var next := if cs[0].kind.Host? && !ContainsAddress(out, cs[0].address) then out + [cs[0]] else out;
      WithHostsOrdered(next, cs[1..]);
    }
  }

  /** An offer fits the wire's cap, starts with a reflexive candidate, never repeats a host address,
      and has a relayed candidate exactly when there is one to offer, at the end and nowhere else. */
  lemma OfferShape(c: Client, relayed: Option<Candidate>)
    requires relayed.Some? ==> relayed.value.kind.Relayed?
    ensures var o := Offer(c, relayed);
            && 0 < |o| <= MAX_CANDIDATES && o[0].kind.Reflexive?
            && (relayed.Some? ==> o[|o| - 1] == relayed.value && WellOrdered(o[..|o| - 1]))
            && (relayed.None? ==> WellOrdered(o))
  {
    hide WellOrdered, WithHosts, Leading;
    LeadingOrdered(c);
    WithHostsOrdered(Leading(c), c.candidates);
    var out := WithHosts(Leading(c), c.candidates);
    assert out[0] == Leading(c)[0] && Leading(c)[0] in Leading(c);
    var cap := if relayed.Some? then MAX_CANDIDATES - 1 else MAX_CANDIDATES;
    var kept := if |out| > cap then out[..cap] else out;
    OrderedPrefix(out, |kept|);
    assert out[..|kept|] == kept;
    if relayed.Some? {
      assert (kept + [relayed.value])[..|kept|] == kept;
    }
  }

  lemma LeadingOrdered(c: Client)
    ensures WellOrdered(Leading(c))
  {
    var cs := Leading(c);
    forall k | 0 <= k < |cs|
      ensures cs[k].kind.Reflexive?
    {
      assert cs[k] in cs;
    }
  }

  lemma OrderedPrefix(cs: seq<Candidate>, n: nat)
    requires WellOrdered(cs) && n <= |cs|
    ensures WellOrdered(cs[..n])
  {
  }

  // --- Whose candidates an offer lists -----------------------------------------------------

  predicate HasReflexive(c: Client)
  {
    exists k :: 0 <= k < |c.candidates| && c.candidates[k].kind.Reflexive?
  }

  // What stands in for a reflexive candidate: where the server sees the client, at the port it says it
  // punches from, if it says so.
  predicate IsStandIn(x: Candidate, c: Client)
  {
    && x.kind.Reflexive? && x.token == 0
    && (if c.punchPort == 0 || c.observed.UnixPath? then x.address == c.observed
        else x.address == c.observed.(port := c.punchPort))
  }

  // Some entry at the front of the offer has this address.
  ghost predicate LedBy(c: Client, a: Address)
  {
    if HasReflexive(c) then exists k :: 0 <= k < |c.candidates| && c.candidates[k].kind.Reflexive? && c.candidates[k].address == a
    else exists x :: IsStandIn(x, c) && x.address == a
  }

  ghost predicate HostBefore(c: Client, n: nat, a: Address)
    requires n <= |c.candidates|
  {
    exists j :: 0 <= j < n && c.candidates[j].kind.Host? && c.candidates[j].address == a
  }

  // Every reflexive candidate, and every host whose address nothing before it names.
  ghost predicate Wanted(c: Client, i: nat)
    requires i < |c.candidates|
  {
    var x := c.candidates[i];
    x.kind.Reflexive? || (x.kind.Host? && !LedBy(c, x.address) && !HostBefore(c, i, x.address))
  }

  // Reflexive before host, and otherwise as reported.
  predicate Earlier(c: Client, i: nat, j: nat)
    requires i < |c.candidates| && j < |c.candidates|
  {
    var x, y := c.candidates[i], c.candidates[j];
    (x.kind.Reflexive? && y.kind.Host?) || (x.kind == y.kind && i < j)
  }

  // The entries from `lead` on are the picked candidates.
  ghost predicate Names(o: seq<Candidate>, lead: nat, c: Client, picks: seq<nat>)
  {
    && lead + |picks| <= |o|
    && (forall k | 0 <= k < |picks| :: picks[k] < |c.candidates|)
    && (forall k | 0 <= k < |picks| :: o[lead + k] == c.candidates[picks[k]])
  }

  // They are wanted, and in order; those left out come after all of them.
  ghost predicate BestOf(c: Client, picks: seq<nat>)
  {
    && (forall k | 0 <= k < |picks| :: picks[k] < |c.candidates|)
    && (forall k | 0 <= k < |picks| :: Wanted(c, picks[k]))
    && (forall j, k | 0 <= j < k < |picks| :: Earlier(c, picks[j], picks[k]))
    && (forall i, k | 0 <= i < |c.candidates| && Wanted(c, i) && i !in picks && 0 <= k < |picks| :: Earlier(c, picks[k], i))
  }

  ghost predicate Everything(c: Client, picks: seq<nat>)
  {
    forall i | 0 <= i < |c.candidates| && Wanted(c, i) :: i in picks
  }

  // picks: which of the client's candidates the offer lists; all that are wanted, if there is room.
  ghost predicate Lists(o: seq<Candidate>, c: Client, relayed: Option<Candidate>, picks: seq<nat>)
  {
    var lead := if HasReflexive(c) then 0 else 1;
    && |o| == lead + |picks| + (if relayed.Some? then 1 else 0) <= MAX_CANDIDATES
    && (!HasReflexive(c) ==> IsStandIn(o[0], c))
    && Names(o, lead, c, picks) && BestOf(c, picks) && (|o| < MAX_CANDIDATES ==> Everything(c, picks))
    && (relayed.Some? ==> o[|o| - 1] == relayed.value)
  }

  ghost predicate Describes(o: seq<Candidate>, c: Client, relayed: Option<Candidate>)
  {
    exists picks :: Lists(o, c, relayed, picks)
  }

  // The wanted candidates of a kind among the first n.
  ghost function Picks(c: Client, n: nat, kind: Kind): (picks: seq<nat>)
    requires n <= |c.candidates|
    ensures forall k | 0 <= k < |picks| :: picks[k] < n
  {
    if n == 0 then []
    else Picks(c, n - 1, kind) + if IsPick(c, n - 1, kind) then [n - 1] else []
  }

  // Exactly the wanted candidates of the kind among the first n, in the order reported.
  ghost predicate AreAllOf(c: Client, p: seq<nat>, n: nat, kind: Kind)
    requires n <= |c.candidates|
  {
    && (forall k | 0 <= k < |p| :: p[k] < n)
    && (forall k | 0 <= k < |p| :: IsPick(c, p[k], kind))
    && (forall j, k | 0 <= j < k < |p| :: p[j] < p[k])
    && (forall i | 0 <= i < n && IsPick(c, i, kind) :: i in p)
  }

  ghost predicate IsPick(c: Client, i: nat, kind: Kind)
    requires i < |c.candidates|
  {
    c.candidates[i].kind == kind && Wanted(c, i)
  }

  lemma {:induction false} PicksAre(c: Client, n: nat, kind: Kind)
    requires n <= |c.candidates|
    ensures AreAllOf(c, Picks(c, n, kind), n, kind)
  {
    if n > 0 {
      hide AreAllOf, Wanted;
      PicksAre(c, n - 1, kind);
      AllOfSnoc(c, Picks(c, n - 1, kind), n, kind);
    }
  }

  lemma AllOfSnoc(c: Client, p: seq<nat>, n: nat, kind: Kind)
    requires 0 < n <= |c.candidates| && AreAllOf(c, p, n - 1, kind)
    ensures AreAllOf(c, p + (if IsPick(c, n - 1, kind) then [n - 1] else []), n, kind)
  {
    hide IsPick;
    var q := p + (if IsPick(c, n - 1, kind) then [n - 1] else []);
    forall i | 0 <= i < n && IsPick(c, i, kind)
      ensures i in q
    {
      if i == n - 1 {
        assert q[|p|] == i;
      } else {
        assert i in p;
      }
    }
  }

  ghost function Picked(c: Client, picks: seq<nat>): (cs: seq<Candidate>)
    requires forall k | 0 <= k < |picks| :: picks[k] < |c.candidates|
    ensures |cs| == |picks| && forall k | 0 <= k < |picks| :: cs[k] == c.candidates[picks[k]]
  {
    seq(|picks|, k requires 0 <= k < |picks| => c.candidates[picks[k]])
  }

  lemma {:induction false} ReflexivesPicked(c: Client, n: nat)
    requires n <= |c.candidates|
    ensures OfKind(c.candidates[..n], Reflexive) == Picked(c, Picks(c, n, Reflexive))
  {
    if n > 0 {
      ReflexivesPicked(c, n - 1);
      assert c.candidates[..n] == c.candidates[..n - 1] + [c.candidates[n - 1]];
      OfKindSnoc(c.candidates[..n - 1], c.candidates[n - 1], Reflexive);
      hide OfKind;
      assert c.candidates[n - 1].kind.Reflexive? <==> IsPick(c, n - 1, Reflexive);
    }
  }

  lemma {:induction false} NoneToPick(c: Client, n: nat)
    requires !HasReflexive(c) && n <= |c.candidates|
    ensures Picks(c, n, Reflexive) == []
  {
    if n > 0 {
      NoneToPick(c, n - 1);
    }
  }

  lemma LeadingListed(c: Client)
    ensures HasReflexive(c) ==> Leading(c) == Picked(c, Picks(c, |c.candidates|, Reflexive))
    ensures !HasReflexive(c) ==> |Leading(c)| == 1 && IsStandIn(Leading(c)[0], c) && Picks(c, |c.candidates|, Reflexive) == []
  {
    var n := |c.candidates|;
    ReflexivesPicked(c, n);
    assert c.candidates[..n] == c.candidates;
    hide OfKind, Picks, Wanted;
    if HasReflexive(c) {
      PicksAre(c, n, Reflexive);
      SomeToPick(c, Picks(c, n, Reflexive));
    } else {
      NoneToPick(c, n);
    }
  }

  lemma SomeToPick(c: Client, p: seq<nat>)
    requires HasReflexive(c) && AreAllOf(c, p, |c.candidates|, Reflexive)
    ensures p != []
  {
    var k :| 0 <= k < |c.candidates| && c.candidates[k].kind.Reflexive?;
    assert IsPick(c, k, Reflexive);
  }

  lemma LeadingNames(c: Client, a: Address)
    ensures ContainsAddress(Leading(c), a) <==> LedBy(c, a)
  {
    LeadingListed(c);
    hide Leading, Picks;
    if HasReflexive(c) {
      PicksAre(c, |c.candidates|, Reflexive);
      LedByReflexive(c, Picks(c, |c.candidates|, Reflexive), a);
    } else {
      assert ContainsAddress(Leading(c), a) <==> Leading(c)[0].address == a;
    }
  }

  lemma LedByReflexive(c: Client, p: seq<nat>, a: Address)
    requires HasReflexive(c) && AreAllOf(c, p, |c.candidates|, Reflexive)
    ensures ContainsAddress(Picked(c, p), a) <==> LedBy(c, a)
  {
    if LedBy(c, a) {
      var i :| 0 <= i < |c.candidates| && c.candidates[i].kind.Reflexive? && c.candidates[i].address == a;
      assert IsPick(c, i, Reflexive) && i in p;
      var k :| 0 <= k < |p| && p[k] == i;
      assert Picked(c, p)[k].address == a;
    }
    if k :| 0 <= k < |p| && Picked(c, p)[k].address == a {
      assert IsPick(c, p[k], Reflexive);
      assert c.candidates[p[k]].kind.Reflexive? && c.candidates[p[k]].address == a;
    }
  }

  // The second loop, so far: the wanted hosts among the first n behind the leading entries.
  lemma {:induction false} HostsListed(c: Client, n: nat)
    requires n <= |c.candidates|
    ensures var out := Leading(c) + Picked(c, Picks(c, n, Host));
            && WithHosts(Leading(c), c.candidates) == WithHosts(out, c.candidates[n..])
            && forall a :: ContainsAddress(out, a) <==> LedBy(c, a) || HostBefore(c, n, a)
  {
    if n == 0 {
      assert Leading(c) + [] == Leading(c) && c.candidates[0..] == c.candidates;
      forall a {
        LeadingNames(c, a);
      }
    } else {
      HostsListed(c, n - 1);
      hide Leading, LedBy, Picks;
      OneMoreHost(c, n);
    }
  }

  lemma OneMoreHost(c: Client, n: nat)
    requires 0 < n <= |c.candidates|
    requires forall a :: ContainsAddress(Leading(c) + Picked(c, Picks(c, n - 1, Host)), a)
                         <==> LedBy(c, a) || HostBefore(c, n - 1, a)
    ensures var was, out := Leading(c) + Picked(c, Picks(c, n - 1, Host)), Leading(c) + Picked(c, Picks(c, n, Host));
            && WithHosts(was, c.candidates[n - 1..]) == WithHosts(out, c.candidates[n..])
            && forall a :: ContainsAddress(out, a) <==> LedBy(c, a) || HostBefore(c, n, a)
  {
    hide Leading, LedBy;
    var was, out := Leading(c) + Picked(c, Picks(c, n - 1, Host)), Leading(c) + Picked(c, Picks(c, n, Host));
    var x := c.candidates[n - 1];
    assert c.candidates[n - 1..][1..] == c.candidates[n..];
    var added := x.kind.Host? && !ContainsAddress(was, x.address);
    assert added <==> IsPick(c, n - 1, Host);
    assert out == if added then was + [x] else was;
    forall a
      ensures ContainsAddress(out, a) <==> LedBy(c, a) || HostBefore(c, n, a)
    {
      HostBeforeStep(c, n, a);
      ContainsSnoc(was, x, a);
    }
  }

  lemma HostBeforeStep(c: Client, n: nat, a: Address)
    requires 0 < n <= |c.candidates|
    ensures HostBefore(c, n, a) <==>
            HostBefore(c, n - 1, a) || (c.candidates[n - 1].kind.Host? && c.candidates[n - 1].address == a)
  {
  }

  lemma ContainsSnoc(cs: seq<Candidate>, x: Candidate, a: Address)
    ensures ContainsAddress(cs + [x], a) <==> ContainsAddress(cs, a) || x.address == a
  {
    if ContainsAddress(cs, a) {
      var k :| 0 <= k < |cs| && cs[k].address == a;
      assert (cs + [x])[k].address == a;
    }
    assert (cs + [x])[|cs|] == x;
  }

  /** An offer describes its client and nobody else: every reflexive candidate, or what stands in for one,
      then every host whose address nothing before it names, in the order reported, as far as there is
      room; and the relayed candidate, if any, at the end. */
  lemma OfferDescribes(c: Client, relayed: Option<Candidate>)
    ensures Describes(Offer(c, relayed), c, relayed)
  {
    hide Leading, WithHosts, Lists, IsStandIn, HasReflexive, BestOf, Everything;
    var first, full := AllListed(c);
    var picks := CutLists(c, relayed, first, full);
  }

  lemma AllListed(c: Client) returns (first: seq<Candidate>, full: seq<nat>)
    ensures BestOf(c, full) && Everything(c, full)
    ensures |first| == (if HasReflexive(c) then 0 else 1) && (first != [] ==> IsStandIn(first[0], c))
    ensures WithHosts(Leading(c), c.candidates) == first + Picked(c, full)
  {
    hide Leading, WithHosts, Picks, IsStandIn, HasReflexive, BestOf, Everything;
    var n := |c.candidates|;
    var r, h := Picks(c, n, Reflexive), Picks(c, n, Host);
    LeadingListed(c);
    AllHostsListed(c);
    WantedInOrder(c);
    first, full := if HasReflexive(c) then [] else Leading(c), r + h;
    PickedJoin(c, r, h);
    assert Leading(c) == first + Picked(c, r);
    assert first + Picked(c, r) + Picked(c, h) == first + (Picked(c, r) + Picked(c, h));
  }

  lemma AllHostsListed(c: Client)
    ensures WithHosts(Leading(c), c.candidates) == Leading(c) + Picked(c, Picks(c, |c.candidates|, Host))
  {
    hide Leading, Picks, LedBy;
    HostsListed(c, |c.candidates|);
    assert c.candidates[|c.candidates|..] == [];
  }

  lemma WantedInOrder(c: Client)
    ensures var full := Picks(c, |c.candidates|, Reflexive) + Picks(c, |c.candidates|, Host);
            BestOf(c, full) && Everything(c, full)
  {
    hide Picks, AreAllOf, BestOf, Everything;
    PicksAre(c, |c.candidates|, Reflexive);
    PicksAre(c, |c.candidates|, Host);
    PicksInOrder(c, Picks(c, |c.candidates|, Reflexive), Picks(c, |c.candidates|, Host));
  }

  lemma PickedJoin(c: Client, r: seq<nat>, h: seq<nat>)
    requires (forall k | 0 <= k < |r| :: r[k] < |c.candidates|) && (forall k | 0 <= k < |h| :: h[k] < |c.candidates|)
    ensures forall k | 0 <= k < |r + h| :: (r + h)[k] < |c.candidates|
    ensures Picked(c, r + h) == Picked(c, r) + Picked(c, h)
  {
  }

  lemma PicksInOrder(c: Client, r: seq<nat>, h: seq<nat>)
    requires AreAllOf(c, r, |c.candidates|, Reflexive) && AreAllOf(c, h, |c.candidates|, Host)
    ensures BestOf(c, r + h) && Everything(c, r + h)
  {
    var full := r + h;
    forall i | 0 <= i < |c.candidates| && Wanted(c, i)
      ensures i in full
    {
      assert IsPick(c, i, Reflexive) || IsPick(c, i, Host);
      assert i in r || i in h;
    }
    hide Wanted;
    forall j, k | 0 <= j < k < |full|
      ensures Earlier(c, full[j], full[k])
    {
      assert if j < |r| then IsPick(c, r[j], Reflexive) else IsPick(c, h[j - |r|], Host);
      assert if k < |r| then IsPick(c, r[k], Reflexive) else IsPick(c, h[k - |r|], Host);
    }
    forall k | 0 <= k < |full|
      ensures Wanted(c, full[k])
    {
      assert if k < |r| then IsPick(c, r[k], Reflexive) else IsPick(c, h[k - |r|], Host);
    }
  }

  lemma CutLists(c: Client, relayed: Option<Candidate>, first: seq<Candidate>, full: seq<nat>) returns (picks: seq<nat>)
    requires BestOf(c, full) && Everything(c, full)
    requires |first| == (if HasReflexive(c) then 0 else 1) && (first != [] ==> IsStandIn(first[0], c))
    ensures var all := first + Picked(c, full);
            var cap := if relayed.Some? then MAX_CANDIDATES - 1 else MAX_CANDIDATES;
            var kept := if |all| > cap then all[..cap] else all;
            Lists(if relayed.Some? then kept + [relayed.value] else kept, c, relayed, picks)
  {
    var all := first + Picked(c, full);
    var cap := if relayed.Some? then MAX_CANDIDATES - 1 else MAX_CANDIDATES;
    var kept := if |all| > cap then all[..cap] else all;
    var o := if relayed.Some? then kept + [relayed.value] else kept;
    var m := |kept| - |first|;
    picks := full[..m];
    BestOfFront(c, full, m);
    NamesFront(c, first, full, o, m);
    assert |o| < MAX_CANDIDATES ==> picks == full;
    assert first != [] ==> o[0] == first[0];
    hide BestOf, Everything, Names, HasReflexive, IsStandIn;
  }

  lemma BestOfFront(c: Client, full: seq<nat>, m: nat)
    requires BestOf(c, full) && Everything(c, full) && m <= |full|
    ensures BestOf(c, full[..m])
  {
    hide Wanted, Earlier;
    var picks := full[..m];
    forall i, k | 0 <= i < |c.candidates| && Wanted(c, i) && i !in picks && 0 <= k < |picks|
      ensures Earlier(c, picks[k], i)
    {
      assert i in full;
      var at :| 0 <= at < |full| && full[at] == i;
      assert at >= m;
    }
  }

  lemma NamesFront(c: Client, first: seq<Candidate>, full: seq<nat>, o: seq<Candidate>, m: nat)
    requires (forall k | 0 <= k < |full| :: full[k] < |c.candidates|) && m <= |full|
    requires |first| + m <= |o| && o[..|first| + m] == (first + Picked(c, full))[..|first| + m]
    ensures Names(o, |first|, c, full[..m])
  {
    forall k | 0 <= k < m
      ensures o[|first| + k] == c.candidates[full[k]]
    {
      assert o[|first| + k] == o[..|first| + m][|first| + k] == (first + Picked(c, full))[|first| + k];
    }
  }

  // An offer made of candidates the wire can carry survives it.
  lemma OfferTravels(c: Client, relayed: Option<Candidate>, data: seq<byte>, pos: nat)
    requires (forall x | x in c.candidates :: Travels(x)) && (relayed.Some? ==> Travels(relayed.value))
    requires IsIp(c.observed) && c.punchPort < 0x10000 && (c.punchPort == 0 ==> c.observed.port != 0)
    requires relayed.Some? ==> relayed.value.kind.Relayed?
    requires Has(data, pos, ListBytes(Offer(c, relayed)))
    ensures ListAt(data, pos) == Some(Offer(c, relayed))
  {
    hide Has, ListBytes, ListAt, Offer, WellOrdered, Leading, Travels;
    OfferShape(c, relayed);
    var o := Offer(c, relayed);
    forall x | x in o
      ensures Travels(x)
    {
      OfferMember(c, relayed, x);
      if x in Leading(c) && x !in c.candidates {
        LeadingTravels(c, x);
      }
    }
    ListReadsBack(data, pos, o);
  }

  lemma OfferMember(c: Client, relayed: Option<Candidate>, x: Candidate)
    requires x in Offer(c, relayed)
    ensures x in Leading(c) || x in c.candidates || relayed == Some(x)
  {
    LeadingOrdered(c);
    hide WellOrdered, Leading, WithHosts;
    WithHostsOrdered(Leading(c), c.candidates);
    assert x in WithHosts(Leading(c), c.candidates) || relayed == Some(x);
  }

  lemma LeadingTravels(c: Client, x: Candidate)
    requires IsIp(c.observed) && c.punchPort < 0x10000 && (c.punchPort == 0 ==> c.observed.port != 0)
    requires x in Leading(c) && x !in c.candidates
    ensures Travels(x)
  {
    OfKindMembers(c.candidates, Reflexive);
    assert OfKind(c.candidates, Reflexive) == [];
  }

  // --- Exactly one initiator ---------------------------------------------------------------

  // std::string's order.
  predicate Less(a: string, b: string)
  {
    b != [] && (a == [] || a[0] < b[0] || (a[0] == b[0] && Less(a[1..], b[1..])))
  }

  predicate IsInitiator(punchId: nat, self: string, peer: string)
  {
    (punchId % 2 == 0) == Less(self, peer)
  }

  /** Of two differently named peers exactly one comes out the initiator. */
  lemma {:induction false} OneInitiator(punchId: nat, a: string, b: string)
    requires a != b
    ensures IsInitiator(punchId, a, b) != IsInitiator(punchId, b, a)
  {
    LessIsTotal(a, b);
  }

  lemma {:induction false} LessIsTotal(a: string, b: string)
    ensures a != b ==> Less(a, b) != Less(b, a)
    ensures a == b ==> !Less(a, b)
  {
    if a != [] && b != [] && a[0] == b[0] {
      LessIsTotal(a[1..], b[1..]);
      assert a == [a[0]] + a[1..] && b == [b[0]] + b[1..];
    }
  }

  // --- The steps ---------------------------------------------------------------------------

  datatype Action =
    | Connect(session: Session, observed: Address)
    | Gather(session: Session, candidates: seq<Reported>, punchPort: nat)
    | ConnectPeer(session: Session, target: string)
    | Disconnect(session: Session)
    | TakeBatch
    | ClearOne
    | WelcomeOne(choice: string)
    | PairOne(punchId: nat, relayed: Option<Candidate>)

  predicate Enabled(s: Server, action: Action)
  {
    match action
    case Connect(session, _) => session !in s.clients
    case Gather(session, _, _) => session in s.clients
    case ConnectPeer(session, _) => session in s.clients
    case Disconnect(session) => session in s.clients
    case TakeBatch => s.clearBatch == [] && s.welcomeBatch == [] && s.connectBatch == []
    case ClearOne => s.clearBatch != []
    case WelcomeOne(choice) => s.clearBatch == [] && s.welcomeBatch != [] && choice !in s.registry
    case PairOne(_, relayed) =>
      && s.clearBatch == [] && s.welcomeBatch == [] && s.connectBatch != []
      && (relayed.Some? ==> relayed.value.kind.Relayed?)
  }

  // A candidate as a client reports it; its address may be missing or invalid.
  datatype Reported = Reported(candidate: Candidate, valid: bool)

  // Only the server hands out relayed candidates, and paths mean nothing to a peer.
  predicate Credible(r: Reported)
  {
    r.valid && !r.candidate.address.UnixPath? && !r.candidate.kind.Relayed?
  }

  function Believed(rs: seq<Reported>): seq<Candidate>
  {
    if rs == [] then []
    else (if Credible(rs[0]) then [rs[0].candidate] else []) + Believed(rs[1..])
  }

  lemma {:induction false} BelievedAreCredible(rs: seq<Reported>, c: Candidate)
    ensures c in Believed(rs) <==> exists k :: 0 <= k < |rs| && Credible(rs[k]) && rs[k].candidate == c
    decreases |rs|
  {
    if rs != [] {
      BelievedAreCredible(rs[1..], c);
      if k :| 0 <= k < |rs| && Credible(rs[k]) && rs[k].candidate == c {
        assert k > 0 ==> rs[1..][k - 1] == rs[k];
      }
    }
  }

  function Asked(s: Server, session: Session, target: string): Server
    requires session in s.clients
  {
    var me := s.clients[session];
    if me.name == "" then s
    else s.(clients := s.clients[session := me.(pending := me.pending + {target})],
            connectQueue := [Ask(session, target)] + s.connectQueue)
  }

  function Welcomed(s: Server, session: Session, choice: string): Server
    requires session in s.clients
  {
    var me := s.clients[session];
    if me.name != "" || choice == "" then s
    else s.(clients := s.clients[session := me.(name := choice)], registry := s.registry[choice := session],
            outbox := s.outbox + [Sent(session, Welcome(choice))])
  }

  // TryPair for an ask: what becomes of it.
  datatype Verdict = Gone | NotFound | Waiting | Nudge(other: Session) | Match(other: Session)

  function Judge(s: Server, ask: Ask): Verdict
    requires ask.session in s.clients && forall n | n in s.registry :: s.registry[n] in s.clients
  {
    var me := s.clients[ask.session];
    if ask.target !in me.pending then Gone
    else if ask.target == me.name || ask.target !in s.registry then NotFound
    else
      var other := s.registry[ask.target];
      if me.name in s.clients[other].pending then Match(other)
      else if me.name in s.clients[other].paired then Nudge(other)
      else Waiting
  }

  function Tried(s: Server, ask: Ask, punchId: nat, relayed: Option<Candidate>): Server
    requires ask.session in s.clients && forall n | n in s.registry :: s.registry[n] in s.clients
  {
    var me := s.clients[ask.session];
    match Judge(s, ask)
    case Gone => s
    case Waiting => s
    case NotFound =>
      s.(clients := s.clients[ask.session := me.(pending := me.pending - {ask.target})],
         outbox := s.outbox + [Sent(ask.session, PeerNotFound(ask.target))])
    case Nudge(other) => s.(outbox := s.outbox + [Sent(other, RepunchRequest(me.name))])
    case Match(other) =>
      var them := s.clients[other];
      s.(clients := s.clients[ask.session := Joined(me, ask.target)][other := Joined(them, me.name)],
         outbox := s.outbox + [Sent(ask.session, PunchOffer(them.name, punchId, Offer(them, relayed))),
                               Sent(other, PunchOffer(me.name, punchId, Offer(me, relayed)))])
  }

  function Joined(c: Client, name: string): Client
  {
    c.(pending := c.pending - {name}, paired := c.paired + {name})
  }

  function Apply(s: Server, action: Action): Server
    requires Inv(s) && Enabled(s, action)
  {
    match action
    case Connect(session, observed) =>
      s.(clients := s.clients[session := Client("", {}, {}, [], 0, observed)],
         welcomeQueue := [session] + s.welcomeQueue)
    case Gather(session, candidates, punchPort) =>
      s.(clients := s.clients[session := s.clients[session].(candidates := Believed(candidates), punchPort := punchPort)])
    case ConnectPeer(session, target) => Asked(s, session, target)
    case Disconnect(session) =>
      if s.clients[session].name == "" then s else s.(clearQueue := [s.clients[session].name] + s.clearQueue)
    case TakeBatch =>
      s.(welcomeQueue := [], connectQueue := [], clearQueue := [], welcomeBatch := s.welcomeQueue,
         connectBatch := s.connectQueue, clearBatch := s.clearQueue)
    case ClearOne => s.(registry := s.registry - {s.clearBatch[0]}, clearBatch := s.clearBatch[1..])
    case WelcomeOne(choice) => Welcomed(s.(welcomeBatch := s.welcomeBatch[1..]), s.welcomeBatch[0], choice)
    case PairOne(punchId, relayed) =>
      Tried(s.(connectBatch := s.connectBatch[1..]), s.connectBatch[0], punchId, relayed)
  }

  // --- No mutual ask is stranded -----------------------------------------------------------

  // Both registered, under the names they go by, and each asking for the other.
  ghost predicate Mutual(s: Server, x: string, y: string)
    requires Known(s)
  {
    && x in s.registry && y in s.registry && x != y
    && y in s.clients[s.registry[x]].pending && x in s.clients[s.registry[y]].pending
  }

  ghost predicate Outstanding(s: Server, ask: Ask)
  {
    ask in s.connectQueue || ask in s.connectBatch
  }

  ghost predicate Served(s: Server, x: string, y: string)
    requires Known(s)
  {
    Mutual(s, x, y) ==> Outstanding(s, Ask(s.registry[x], y)) || Outstanding(s, Ask(s.registry[y], x))
  }

  // Everything refers to clients that exist, registered under their own names.
  ghost predicate Known(s: Server)
  {
    && (forall n | n in s.registry :: s.registry[n] in s.clients && s.clients[s.registry[n]].name == n && n != "")
    && (forall i | i in s.welcomeQueue || i in s.welcomeBatch :: i in s.clients)
    && (forall a | Outstanding(s, a) :: a.session in s.clients && s.clients[a.session].name != "")
    && (forall i | i in s.clients :: s.clients[i].name == "" ==> s.clients[i].pending == {})
  }

  ghost predicate NoneStranded(s: Server)
    requires Known(s)
  {
    forall x, y :: Served(s, x, y)
  }

  ghost predicate Inv(s: Server)
  {
    Known(s) && NoneStranded(s)
  }

  const EMPTY: Server := Server(map[], map[], [], [], [], [], [], [], [])

  // Inv, but for the ask the pairing thread has just taken up.
  ghost predicate InvBut(s: Server, ask: Ask)
  {
    && Known(s) && ask.session in s.clients && s.clients[ask.session].name != ""
    && forall x, y :: ServedBut(s, ask, x, y)
  }

  ghost predicate ServedBut(s: Server, ask: Ask, x: string, y: string)
    requires Known(s)
  {
    Mutual(s, x, y) ==>
      || Outstanding(s, Ask(s.registry[x], y)) || Outstanding(s, Ask(s.registry[y], x))
      || Ask(s.registry[x], y) == ask || Ask(s.registry[y], x) == ask
  }

  lemma ConnectKeepsInv(s: Server, session: Session, observed: Address)
    requires Inv(s) && session !in s.clients
    ensures Inv(Apply(s, Connect(session, observed)))
  {
    var t := Apply(s, Connect(session, observed));
    forall x, y
      ensures Served(t, x, y)
    {
      assert Served(s, x, y);
    }
  }

  lemma GatherKeepsInv(s: Server, session: Session, candidates: seq<Reported>, punchPort: nat)
    requires Inv(s) && session in s.clients
    ensures Inv(Apply(s, Gather(session, candidates, punchPort)))
  {
    hide Believed;
    var t := Apply(s, Gather(session, candidates, punchPort));
    forall x, y
      ensures Served(t, x, y)
    {
      assert Served(s, x, y);
    }
  }

  lemma AskKeepsInv(s: Server, session: Session, target: string)
    requires Inv(s) && session in s.clients
    ensures Inv(Asked(s, session, target))
  {
    var t := Asked(s, session, target);
    assert Known(t);
    forall x, y
      ensures Served(t, x, y)
    {
      assert Served(s, x, y);
      if s.clients[session].name != "" {
        assert Ask(session, target) in t.connectQueue;
        assert forall a | a in s.connectQueue :: a in t.connectQueue;
      }
    }
  }

  lemma BatchKeepsInv(s: Server)
    requires Inv(s) && Enabled(s, TakeBatch)
    ensures Inv(Apply(s, TakeBatch))
  {
    var t := Apply(s, TakeBatch);
    forall x, y
      ensures Served(t, x, y)
    {
      assert Served(s, x, y);
    }
  }

  lemma ClearKeepsInv(s: Server)
    requires Inv(s) && Enabled(s, ClearOne)
    ensures Inv(Apply(s, ClearOne))
  {
    var t := Apply(s, ClearOne);
    forall x, y
      ensures Served(t, x, y)
    {
      assert Served(s, x, y);
    }
  }

  lemma WelcomeKeepsInv(s: Server, choice: string)
    requires Inv(s) && Enabled(s, WelcomeOne(choice))
    ensures Inv(Apply(s, WelcomeOne(choice)))
  {
    var session := s.welcomeBatch[0];
    var t := Apply(s, WelcomeOne(choice));
    assert Known(t);
    forall x, y
      ensures Served(t, x, y)
    {
      assert Served(s, x, y);
    }
  }

  // t is s with some asks withdrawn, whatever else happened to pairings and mail.
  ghost predicate Fewer(s: Server, t: Server)
  {
    && t.registry == s.registry && t.clients.Keys == s.clients.Keys
    && t.welcomeQueue == s.welcomeQueue && t.welcomeBatch == s.welcomeBatch
    && t.connectQueue == s.connectQueue && t.connectBatch == s.connectBatch
    && (forall i | i in s.clients ::
          t.clients[i].name == s.clients[i].name && t.clients[i].pending <= s.clients[i].pending)
  }

  lemma FewerKnown(s: Server, t: Server)
    requires Known(s) && Fewer(s, t)
    ensures Known(t) && forall x, y :: Mutual(t, x, y) ==> Mutual(s, x, y)
  {
  }

  lemma TriedFewer(s: Server, ask: Ask, punchId: nat, relayed: Option<Candidate>)
    requires Known(s) && ask.session in s.clients
    ensures Fewer(s, Tried(s, ask, punchId, relayed))
  {
    hide Offer;
  }

  // Once an ask has been looked at, its pair, if it was one, is no longer waiting for anything.
  lemma TriedIsNotMutual(s: Server, ask: Ask, punchId: nat, relayed: Option<Candidate>, x: string, y: string)
    requires Known(s) && ask.session in s.clients && Known(Tried(s, ask, punchId, relayed))
    requires x in s.registry && Ask(s.registry[x], y) == ask
    ensures !Mutual(Tried(s, ask, punchId, relayed), x, y)
  {
    hide Offer;
    assert s.clients[ask.session].name == x;
  }

  lemma TryKeepsInv(s: Server, ask: Ask, punchId: nat, relayed: Option<Candidate>)
    requires InvBut(s, ask)
    ensures Inv(Tried(s, ask, punchId, relayed))
  {
    hide Tried;
    var t := Tried(s, ask, punchId, relayed);
    TriedFewer(s, ask, punchId, relayed);
    FewerKnown(s, t);
    forall x, y
      ensures Served(t, x, y)
    {
      assert ServedBut(s, ask, x, y);
      if Mutual(t, x, y) {
        if Ask(s.registry[x], y) == ask {
          TriedIsNotMutual(s, ask, punchId, relayed, x, y);
        } else if Ask(s.registry[y], x) == ask {
          TriedIsNotMutual(s, ask, punchId, relayed, y, x);
        }
      }
    }
  }

  lemma PairKeepsInv(s: Server, punchId: nat, relayed: Option<Candidate>)
    requires Inv(s) && Enabled(s, PairOne(punchId, relayed))
    ensures Inv(Apply(s, PairOne(punchId, relayed)))
  {
    hide Tried;
    var ask := s.connectBatch[0];
    var rest := s.(connectBatch := s.connectBatch[1..]);
    assert Outstanding(s, ask);
    assert s.connectBatch == [ask] + rest.connectBatch;
    assert Known(rest);
    forall x, y
      ensures ServedBut(rest, ask, x, y)
    {
      assert Served(s, x, y);
    }
    TryKeepsInv(rest, ask, punchId, relayed);
  }

  lemma StepKeepsInv(s: Server, action: Action)
    requires Inv(s) && Enabled(s, action)
    ensures Inv(Apply(s, action))
  {
    match action
    case Connect(session, observed) => ConnectKeepsInv(s, session, observed);
    case Gather(session, candidates, punchPort) => GatherKeepsInv(s, session, candidates, punchPort);
    case ConnectPeer(session, target) => AskKeepsInv(s, session, target);
    case Disconnect(session) =>
      assert forall x, y :: Served(s, x, y) ==> Served(Apply(s, action), x, y);
    case TakeBatch => BatchKeepsInv(s);
    case ClearOne => ClearKeepsInv(s);
    case WelcomeOne(choice) => WelcomeKeepsInv(s, choice);
    case PairOne(punchId, relayed) => PairKeepsInv(s, punchId, relayed);
  }

  ghost predicate IsRun(s: Server, run: seq<Action>)
    requires Inv(s)
    decreases |run|
  {
    run != [] ==>
      && Enabled(s, run[0])
      && (StepKeepsInv(s, run[0]);
          IsRun(Apply(s, run[0]), run[1..]))
  }

  ghost function End(s: Server, run: seq<Action>): Server
    requires Inv(s) && IsRun(s, run)
    decreases |run|
  {
    if run == [] then s
    else
      StepKeepsInv(s, run[0]);
      End(Apply(s, run[0]), run[1..])
  }

  lemma {:induction false} RunKeepsInv(s: Server, run: seq<Action>)
    requires Inv(s) && IsRun(s, run)
    ensures Inv(End(s, run))
    decreases |run|
  {
    if run != [] {
      hide Inv, Apply;
      StepKeepsInv(s, run[0]);
      RunKeepsInv(Apply(s, run[0]), run[1..]);
    }
  }

  /** In every run: two distinct registered clients that ask for each other have an ask of one of
      them still to be looked at; so once the queues are empty, no such pair is left. */
  lemma NoMutualAskIsStranded(run: seq<Action>, x: string, y: string)
    requires IsRun(EMPTY, run)
    ensures var s := End(EMPTY, run);
            && Known(s) && Served(s, x, y)
            && (s.connectQueue == [] && s.connectBatch == [] ==> !Mutual(s, x, y))
  {
    RunKeepsInv(EMPTY, run);
    assert Served(End(EMPTY, run), x, y);
  }

  // --- Who is registered -------------------------------------------------------------------

  /** Welcoming gives the client the name it is registered under, tells that client and nobody else, and
      leaves a client that has a name alone. */
  lemma WelcomeTells(s: Server, choice: string)
    requires Inv(s) && Enabled(s, WelcomeOne(choice))
    ensures var t := Apply(s, WelcomeOne(choice));
            var session := s.welcomeBatch[0];
            && session in s.clients && session in t.clients
            && (if s.clients[session].name == "" && choice != "" then
                  && t.clients[session].name == choice && choice in t.registry && t.registry[choice] == session
                  && t.outbox == s.outbox + [Sent(session, Welcome(choice))]
                else t.clients == s.clients && t.registry == s.registry && t.outbox == s.outbox)
            && (forall i | i in s.clients && i != session :: i in t.clients && t.clients[i] == s.clients[i])
            && (forall n | n in s.registry :: n in t.registry && t.registry[n] == s.registry[n])
  {
    hide NoneStranded;
    assert s.welcomeBatch[0] in s.welcomeBatch;
  }

  // The name is to be cleared, or is gone.
  ghost predicate OnItsWayOut(s: Server, name: string)
  {
    name in s.clearQueue || name in s.clearBatch || name !in s.registry
  }

  lemma StaysOnItsWayOut(s: Server, action: Action, name: string)
    requires Inv(s) && Enabled(s, action) && OnItsWayOut(s, name) && action != WelcomeOne(name)
    ensures OnItsWayOut(Apply(s, action), name)
  {
    hide NoneStranded, Offer;
    if action.ClearOne? && name in s.clearBatch && name != s.clearBatch[0] {
      assert s.clearBatch == [s.clearBatch[0]] + s.clearBatch[1..];
    }
  }

  lemma {:induction false} StaysOut(s: Server, run: seq<Action>, name: string)
    requires Inv(s) && IsRun(s, run) && OnItsWayOut(s, name) && WelcomeOne(name) !in run
    ensures OnItsWayOut(End(s, run), name)
    decreases |run|
  {
    if run != [] {
      hide Inv, OnItsWayOut, Apply;
      StaysOnItsWayOut(s, run[0], name);
      StepKeepsInv(s, run[0]);
      StaysOut(Apply(s, run[0]), run[1..], name);
    }
  }

  /** A client that disconnects is forgotten: whatever happens next, once the queue of names to clear has
      been worked off its name is registered no more, unless it was given out again. */
  lemma GoneIsForgotten(s: Server, session: Session, run: seq<Action>)
    requires Inv(s) && Enabled(s, Disconnect(session)) && s.clients[session].name != ""
    requires IsRun(s, [Disconnect(session)] + run) && WelcomeOne(s.clients[session].name) !in run
    ensures var t := End(s, [Disconnect(session)] + run);
            t.clearQueue == [] && t.clearBatch == [] ==> s.clients[session].name !in t.registry
  {
    var name := s.clients[session].name;
    var next := Apply(s, Disconnect(session));
    assert name in next.clearQueue;
    StepKeepsInv(s, Disconnect(session));
    assert ([Disconnect(session)] + run)[1..] == run;
    hide Inv, Apply;
    StaysOut(next, run, name);
  }

  /** A pairing consumes one ask of each of two differently named clients, records both, and
      changes nobody else. */
  lemma PairingConsumes(s: Server, ask: Ask, punchId: nat, relayed: Option<Candidate>)
    requires Known(s) && ask.session in s.clients && Judge(s, ask).Match?
    ensures var t := Tried(s, ask, punchId, relayed);
            var other := Judge(s, ask).other;
            var me, them := s.clients[ask.session], s.clients[other];
            && other != ask.session && me.name != them.name
            && them.name in me.pending && me.name in them.pending
            && t == s.(outbox := t.outbox,
                       clients := s.clients[ask.session := me.(pending := me.pending - {them.name},
                                                               paired := me.paired + {them.name})]
                                           [other := them.(pending := them.pending - {me.name},
                                                           paired := them.paired + {me.name})])
  {
    hide Offer;
  }

  // What the server sends when it pairs the two: one offer to each session, naming the other and
  // describing the other, with the same punch id and the same relayed candidate; exactly one of the two
  // takes itself for the initiator.
  ghost predicate OffersBoth(sent: seq<Sent>, session: Session, me: Client, other: Session, them: Client,
                             punchId: nat, relayed: Option<Candidate>)
  {
    && |sent| == 2
    && sent[0].session == session && sent[0].packet.PunchOffer? && sent[0].packet.target == them.name
    && sent[1].session == other && sent[1].packet.PunchOffer? && sent[1].packet.target == me.name
    && sent[0].packet.punchId == sent[1].packet.punchId == punchId
    && Describes(sent[0].packet.candidates, them, relayed) && Describes(sent[1].packet.candidates, me, relayed)
    && LastRelayed(sent[0].packet.candidates) == LastRelayed(sent[1].packet.candidates) == relayed
    && IsInitiator(punchId, me.name, them.name) != IsInitiator(punchId, them.name, me.name)
  }

  /** What becomes of an ask, by who asked for whom. One that is no longer pending changes nothing. One
      for oneself or for a name nobody has is refused and dropped. One that is mutual is answered by an
      offer to either side. One that is not, of a peer paired before, makes that peer be asked to ask
      again; and otherwise it waits. */
  lemma PairingOffers(s: Server, ask: Ask, punchId: nat, relayed: Option<Candidate>)
    requires Known(s) && ask.session in s.clients
    requires relayed.Some? ==> relayed.value.kind.Relayed?
    ensures var t := Tried(s, ask, punchId, relayed);
            var me := s.clients[ask.session];
            && s.outbox <= t.outbox
            && var sent := t.outbox[|s.outbox|..];
               if ask.target !in me.pending then t == s
               else if ask.target == me.name || ask.target !in s.registry then
                 && sent == [Sent(ask.session, PeerNotFound(ask.target))]
                 && t.clients == s.clients[ask.session := me.(pending := me.pending - {ask.target})]
               else
                 var other := s.registry[ask.target];
                 var them := s.clients[other];
                 if me.name in them.pending then OffersBoth(sent, ask.session, me, other, them, punchId, relayed)
                 else t.clients == s.clients
                      && sent == if me.name in them.paired then [Sent(other, RepunchRequest(me.name))] else []
  {
    hide Offer, IsInitiator, WellOrdered, Describes;
    var t := Tried(s, ask, punchId, relayed);
    var me := s.clients[ask.session];
    var sent := t.outbox[|s.outbox|..];
    if ask.target in me.pending && ask.target != me.name && ask.target in s.registry {
      var other := s.registry[ask.target];
      var them := s.clients[other];
      if me.name in them.pending {
        OneInitiator(punchId, me.name, them.name);
        OfferDescribes(me, relayed);
        OfferDescribes(them, relayed);
        LastOf(me, relayed);
        LastOf(them, relayed);
        assert sent == [Sent(ask.session, PunchOffer(them.name, punchId, Offer(them, relayed))),
                        Sent(other, PunchOffer(me.name, punchId, Offer(me, relayed)))];
      }
    }
  }

  function LastRelayed(cs: seq<Candidate>): Option<Candidate>
  {
    if cs != [] && cs[|cs| - 1].kind.Relayed? then Some(cs[|cs| - 1]) else None
  }

  lemma LastOf(c: Client, relayed: Option<Candidate>)
    requires relayed.Some? ==> relayed.value.kind.Relayed?
    ensures LastRelayed(Offer(c, relayed)) == relayed
  {
    hide Offer;
    OfferShape(c, relayed);
  }

  // --- The server itself -------------------------------------------------------------------

  class RendezvousServer {
    var clients: map<Session, Client>
    var registry: map<string, Session>
    var welcomeQueue: seq<Session>
    var connectQueue: seq<Ask>
    var clearQueue: seq<string>
    var welcomeBatch: seq<Session>
    var connectBatch: seq<Ask>
    var clearBatch: seq<string>
    var outbox: seq<Sent>

    ghost function Value(): Server
      reads this
    {
      Server(clients, registry, welcomeQueue, connectQueue, clearQueue, welcomeBatch, connectBatch, clearBatch, outbox)
    }

    constructor ()
      ensures Value() == EMPTY
    {
      clients, registry, outbox := map[], map[], [];
      welcomeQueue, connectQueue, clearQueue := [], [], [];
      welcomeBatch, connectBatch, clearBatch := [], [], [];
    }

    method OnConnectEvent(session: Session, observed: Address)
      requires Inv(Value()) && session !in clients
      modifies this
      ensures Inv(Value()) && Value() == Apply(old(Value()), Connect(session, observed))
      ensures clients[session].observed == observed && session in welcomeQueue
    {
      StepKeepsInv(Value(), Connect(session, observed));
      clients := clients[session := Client("", {}, {}, [], 0, observed)];
      welcomeQueue := [session] + welcomeQueue;
    }

    method OnGathering(session: Session, reported: seq<Reported>, punchPort: nat, allowed: bool)
      requires Inv(Value()) && session in clients
      modifies this
      ensures Inv(Value())
      ensures Value() == if allowed then Apply(old(Value()), Gather(session, reported, punchPort)) else old(Value())
      ensures allowed ==> forall c | c in clients[session].candidates :: !c.kind.Relayed? && !c.address.UnixPath?
      ensures allowed ==> clients[session].punchPort == punchPort
    {
      StepKeepsInv(Value(), Gather(session, reported, punchPort));
      if !allowed {
        return;
      }
      var kept := Believe(reported);
      forall c | c in kept
        ensures !c.kind.Relayed? && !c.address.UnixPath?
      {
        BelievedAreCredible(reported, c);
      }
      clients := clients[session := clients[session].(candidates := kept, punchPort := punchPort)];
    }

    method OnConnectPeer(session: Session, target: string, allowed: bool)
      requires Inv(Value()) && session in clients
      modifies this
      ensures Inv(Value())
      ensures Value() == if allowed then Apply(old(Value()), ConnectPeer(session, target)) else old(Value())
      ensures allowed && clients[session].name != "" ==>
                target in clients[session].pending && Outstanding(Value(), Ask(session, target))
    {
      StepKeepsInv(Value(), ConnectPeer(session, target));
      if !allowed || clients[session].name == "" {
        return;
      }
      clients := clients[session := clients[session].(pending := clients[session].pending + {target})];
      connectQueue := [Ask(session, target)] + connectQueue;
    }

    method OnDisconnectEvent(session: Session)
      requires Inv(Value()) && session in clients
      modifies this
      ensures Inv(Value()) && Value() == Apply(old(Value()), Disconnect(session))
      ensures clients[session].name != "" ==> clients[session].name in clearQueue
    {
      StepKeepsInv(Value(), Disconnect(session));
      if clients[session].name != "" {
        clearQueue := [clients[session].name] + clearQueue;
      }
    }

    /** The pairing thread swaps the queues with its empty ones. */
    method SwapQueues()
      requires Inv(Value()) && Enabled(Value(), TakeBatch)
      modifies this
      ensures Inv(Value()) && Value() == Apply(old(Value()), TakeBatch)
    {
      StepKeepsInv(Value(), TakeBatch);
      welcomeQueue, welcomeBatch := welcomeBatch, welcomeQueue;
      connectQueue, connectBatch := connectBatch, connectQueue;
      clearQueue, clearBatch := clearBatch, clearQueue;
    }

    method ClearNext()
      requires Inv(Value()) && clearBatch != []
      modifies this
      ensures Inv(Value()) && Value() == Apply(old(Value()), ClearOne)
    {
      StepKeepsInv(Value(), ClearOne);
      registry := registry - {clearBatch[0]};
      clearBatch := clearBatch[1..];
    }

    method WelcomeNext(choice: string)
      requires Inv(Value()) && Enabled(Value(), WelcomeOne(choice))
      modifies this
      ensures Inv(Value()) && Value() == Apply(old(Value()), WelcomeOne(choice))
    {
      StepKeepsInv(Value(), WelcomeOne(choice));
      var session := welcomeBatch[0];
      welcomeBatch := welcomeBatch[1..];
      if clients[session].name != "" {
        return;
      }
      if choice == "" {
        return;
      }
      clients := clients[session := clients[session].(name := choice)];
      registry := registry[choice := session];
      outbox := outbox + [Sent(session, Welcome(choice))];
    }

    method TryPairNext(punchId: nat, relayed: Option<Candidate>)
      requires Inv(Value()) && Enabled(Value(), PairOne(punchId, relayed))
      modifies this
      ensures Inv(Value()) && Value() == Apply(old(Value()), PairOne(punchId, relayed))
      ensures old(outbox) <= outbox
      ensures var ask := old(connectBatch)[0];
              ask.session in old(clients) && ask.target in old(registry) ==>
                var me, other := old(clients)[ask.session], old(registry)[ask.target];
                other in old(clients) &&
                var them := old(clients)[other];
                (me.name != them.name && them.name in me.pending && me.name in them.pending ==>
                   OffersBoth(outbox[|old(outbox)|..], ask.session, me, other, them, punchId, relayed))
    {
      PairingOffers(Value().(connectBatch := connectBatch[1..]), connectBatch[0], punchId, relayed);
      StepKeepsInv(Value(), PairOne(punchId, relayed));
      var ask := connectBatch[0];
      assert Outstanding(Value(), ask);
      connectBatch := connectBatch[1..];
      hide Inv, Tried;
      TryPair(ask.session, ask.target, punchId, relayed);
    }

    method TryPair(session: Session, target: string, punchId: nat, relayed: Option<Candidate>)
      requires session in clients && forall n | n in registry :: registry[n] in clients
      modifies this`clients, this`outbox
      ensures Value() == Tried(old(Value()), Ask(session, target), punchId, relayed)
    {
      hide Offer;
      var me := clients[session];
      if target !in me.pending {
        return;
      }
      if target == me.name || target !in registry {
        clients := clients[session := me.(pending := me.pending - {target})];
        outbox := outbox + [Sent(session, PeerNotFound(target))];
        return;
      }
      var other := registry[target];
      var them := clients[other];
      if me.name !in them.pending {
        if me.name in them.paired {
          outbox := outbox + [Sent(other, RepunchRequest(me.name))];
        }
        return;
      }
      me := me.(pending := me.pending - {target}, paired := me.paired + {target});
      them := them.(pending := them.pending - {me.name}, paired := them.paired + {me.name});
      var toMe := OfferCandidates(clients[other], relayed);
      var toThem := OfferCandidates(clients[session], relayed);
      clients := clients[session := me][other := them];
      outbox := outbox + [Sent(session, PunchOffer(them.name, punchId, toMe))];
      outbox := outbox + [Sent(other, PunchOffer(me.name, punchId, toThem))];
    }
  }

  // OnPacket(GatheringPacket)'s loop.
  method Believe(reported: seq<Reported>) returns (kept: seq<Candidate>)
    ensures kept == Believed(reported)
  {
    kept := [];
    for i := 0 to |reported|
      invariant kept == Believed(reported[..i])
    {
      BelievedSnoc(reported[..i], reported[i]);
      assert reported[..i + 1] == reported[..i] + [reported[i]];
      if !reported[i].valid || reported[i].candidate.address.UnixPath? || reported[i].candidate.kind.Relayed? {
        continue;
      }
      kept := kept + [reported[i].candidate];
    }
    assert reported[..|reported|] == reported;
  }

  lemma {:induction false} BelievedSnoc(rs: seq<Reported>, r: Reported)
    ensures Believed(rs + [r]) == if Credible(r) then Believed(rs) + [r.candidate] else Believed(rs)
    decreases |rs|
  {
    if rs == [] {
      assert rs + [r] == [r] && [r][1..] == [];
    } else {
      BelievedSnoc(rs[1..], r);
      assert (rs + [r])[1..] == rs[1..] + [r];
    }
  }
}
