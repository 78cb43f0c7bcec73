/**
 Admission control: allow and deny lists, then a throttle that counts attempts per host in windows
 that open at an attempt and last a fixed time. The table is bounded by sweeping out expired
 windows; when it is full of live ones an unseen host passes uncounted. The clock is given from
 outside.
 */
module Admission {
  import opened Bytes

  const MAX_TRACKED: nat := 4096
  const COUNT_RANGE: nat := 0x1_0000_0000  // counts are 32-bit and wrap

  type Key = seq<byte>  // a host's address bytes; empty for a unix path

  datatype Source = Source(unixPath: bool, key: Key)

  datatype Verdict = Allow | Denylisted | NotAllowlisted | Throttled

  datatype Entry = Entry(start: int, count: nat)

  type Table = map<Key, Entry>

  datatype Config = Config(maxAttempts: nat, window: int)

  datatype Rules = Rules(allowlist: seq<Source -> bool>, denylist: seq<Source -> bool>, config: Config)

  // --- One attempt -------------------------------------------------------------------------

  function Live(cfg: Config, table: Table, now: int): Table
  {
    map k | k in table && !(now - table[k].start > cfg.window) :: table[k]
  }

  function Swept(cfg: Config, table: Table, now: int): Table
  {
    if |table| > MAX_TRACKED then Live(cfg, table, now) else table
  }

  // Full of live windows, and this host has none.
  predicate PassesUncounted(cfg: Config, table: Table, key: Key, now: int)
  {
    |Swept(cfg, table, now)| > MAX_TRACKED && key !in Swept(cfg, table, now)
  }

  // The host's entry once the attempt is counted.
  function Counted(cfg: Config, table: Table, key: Key, now: int): Entry
  {
    var e := if key in table then table[key] else Entry(0, 0);
    var open := if e.count == 0 || now - e.start > cfg.window then Entry(now, 0) else e;
    open.(count := (open.count + 1) % COUNT_RANGE)
  }

  function Attempted(cfg: Config, table: Table, key: Key, now: int): Table
  {
    var swept := Swept(cfg, table, now);
    if PassesUncounted(cfg, table, key, now) then swept
    else swept[key := Counted(cfg, swept, key, now)]
  }

  predicate Allowed(cfg: Config, table: Table, key: Key, now: int)
  {
    PassesUncounted(cfg, table, key, now) || Counted(cfg, Swept(cfg, table, now), key, now).count <= cfg.maxAttempts
  }

  // Whether an attempt that passed the lists is put to the throttle: not when it is switched off, nor
  // without an address to count by.
  predicate Throttles(cfg: Config, key: Key)
  {
    cfg.maxAttempts > 0 && cfg.window > 0 && key != []
  }

  datatype Judgement = Judgement(verdict: Verdict, table: Table)

  function Judged(r: Rules, table: Table, source: Source, now: int): Judgement
  {
    var screened := Screened(r.allowlist, r.denylist, source);
    if !screened.Allow? || !Throttles(r.config, source.key) then Judgement(screened, table)
    else Judgement(if Allowed(r.config, table, source.key, now) then Allow else Throttled,
                   Attempted(r.config, table, source.key, now))
  }

  class AdmissionControl {
    const allowlist: seq<Source -> bool>
    const denylist: seq<Source -> bool>
    const config: Config
    var sources: Table

    constructor (allowlist: seq<Source -> bool>, denylist: seq<Source -> bool>, config: Config)
      ensures this.allowlist == allowlist && this.denylist == denylist && this.config == config && sources == map[]
    {
      this.allowlist, this.denylist, this.config, sources := allowlist, denylist, config, map[];
    }

    /** The lists alone: a deny rule wins, then any allow list must match. */
    method Screen(source: Source) returns (verdict: Verdict)
      ensures verdict == Screened(allowlist, denylist, source)
    {
      if source.unixPath {
        return Allow;
      }
      var denied := AnyMatch(denylist, source);
      if denied {
        return Denylisted;
      }
      var listed := AnyMatch(allowlist, source);
      if allowlist != [] && !listed {
        return NotAllowlisted;
      }
      return Allow;
    }

    method Admit(source: Source, now: int) returns (verdict: Verdict)
      modifies this`sources
      ensures Judgement(verdict, sources) == Judged(Rules(allowlist, denylist, config), old(sources), source, now)
    {
      verdict := Screen(source);
      if verdict != Allow || config.maxAttempts == 0 || config.window <= 0 || source.key == [] {
        return;
      }
      if |sources| > MAX_TRACKED {
        Sweep(now);
        if |sources| > MAX_TRACKED && source.key !in sources {
          return Allow;
        }
      }
      var entry := if source.key in sources then sources[source.key] else Entry(0, 0);
      if entry.count == 0 || now - entry.start > config.window {
        entry := Entry(now, 0);
      }
      entry := entry.(count := (entry.count + 1) % COUNT_RANGE);
      sources := sources[source.key := entry];
      return if entry.count <= config.maxAttempts then Allow else Throttled;
    }

    method Sweep(now: int)
      modifies this`sources
      ensures sources == Live(config, old(sources), now)
    {
      var keys := sources.Keys;
      while keys != {}
        invariant keys <= old(sources).Keys
        invariant sources.Keys <= old(sources).Keys && forall k | k in sources :: sources[k] == old(sources)[k]
        invariant forall k | k in old(sources) && k in keys :: k in sources
        invariant forall k | k in old(sources) && k !in keys ::
                    k in sources <==> !(now - old(sources)[k].start > config.window)
        decreases |keys|
      {
        var k :| k in keys;
        keys := keys - {k};
        if now - sources[k].start > config.window {
          sources := sources - {k};
        }
      }
      assert sources == Live(config, old(sources), now);
    }
  }

  function Screened(allowlist: seq<Source -> bool>, denylist: seq<Source -> bool>, source: Source): Verdict
  {
    if source.unixPath then Allow
    else if exists k :: 0 <= k < |denylist| && denylist[k](source) then Denylisted
    else if allowlist != [] && !exists k :: 0 <= k < |allowlist| && allowlist[k](source) then NotAllowlisted
    else Allow
  }

  method AnyMatch(blocks: seq<Source -> bool>, source: Source) returns (found: bool)
    ensures found <==> exists k :: 0 <= k < |blocks| && blocks[k](source)
  {
    for i := 0 to |blocks|
      invariant forall k | 0 <= k < i :: !blocks[k](source)
    {
      if blocks[i](source) {
        return true;
      }
    }
    return false;
  }

  // --- The lists ---------------------------------------------------------------------------

  predicate Matches(blocks: seq<Source -> bool>, source: Source)
  {
    exists k :: 0 <= k < |blocks| && blocks[k](source)
  }

  /** A deny rule that matches wins over any allow rule; without one, an allow list lets in exactly what it
      matches, and no allow list lets in everything. A path is never held back. */
  lemma DenyWins(allowlist: seq<Source -> bool>, denylist: seq<Source -> bool>, source: Source)
    ensures source.unixPath ==> Screened(allowlist, denylist, source) == Allow
    ensures !source.unixPath && Matches(denylist, source) ==> Screened(allowlist, denylist, source) == Denylisted
    ensures !source.unixPath && !Matches(denylist, source) ==>
              Screened(allowlist, denylist, source) == if allowlist == [] || Matches(allowlist, source) then Allow else NotAllowlisted
  {
  }

  // So a rule more on the deny list never lets anybody in, and one more on an allow list that is not empty
  // never keeps anybody out.
  lemma MoreRules(allowlist: seq<Source -> bool>, denylist: seq<Source -> bool>, more: Source -> bool, source: Source)
    ensures Screened(allowlist, denylist + [more], source) == Allow ==> Screened(allowlist, denylist, source) == Allow
    ensures allowlist != [] && Screened(allowlist, denylist, source) == Allow ==>
              Screened(allowlist + [more], denylist, source) == Allow
  {
    DenyWins(allowlist, denylist, source);
    DenyWins(allowlist, denylist + [more], source);
    DenyWins(allowlist + [more], denylist, source);
    hide Screened;
    if k :| 0 <= k < |denylist| && denylist[k](source) {
      assert (denylist + [more])[k](source);
    }
    if k :| 0 <= k < |allowlist| && allowlist[k](source) {
      assert (allowlist + [more])[k](source);
    }
  }

  /** What one attempt does to the others: their windows stay as they are, except that in a table that had
      outgrown its limit exactly those that have run out are gone. */
  lemma OthersWindows(cfg: Config, table: Table, key: Key, now: int, other: Key)
    requires other != key
    ensures var t := Attempted(cfg, table, key, now);
            && (other in t <==> other in table && (|table| > MAX_TRACKED ==> now - table[other].start <= cfg.window))
            && (other in t ==> t[other] == table[other])
  {
  }

  // --- The table stays small ---------------------------------------------------------------

  lemma TableStaysSmall(cfg: Config, table: Table, key: Key, now: int)
    requires |table| <= MAX_TRACKED + 1
    ensures |Attempted(cfg, table, key, now)| <= MAX_TRACKED + 1
  {
    var swept := Swept(cfg, table, now);
    assert swept.Keys <= table.Keys;
    Smaller(swept.Keys, table.Keys);
    assert |swept| == |swept.Keys| && |table| == |table.Keys|;
    var e := Counted(cfg, swept, key, now);
    assert swept[key := e].Keys == swept.Keys + {key};
    assert |swept[key := e].Keys| == |swept[key := e]|;
    if key in swept {
      assert swept.Keys + {key} == swept.Keys;
    }
  }

  lemma {:induction false} Smaller<T>(a: set<T>, b: set<T>)
    requires a <= b
    ensures |a| <= |b|
    decreases |b|
  {
    if x :| x in a {
      Smaller(a - {x}, b - {x});
    }
  }

  // --- The throttle's bound ----------------------------------------------------------------

  datatype Attempt = Attempt(source: Source, now: int)

  // One attempt of the host in question: when, what Admit answered, and, if it was counted, in which
  // window and as which of its attempts.
  datatype Event = Event(now: int, verdict: Verdict, counted: bool, start: int, rank: nat)

  datatype History = History(table: Table, log: seq<Event>)

  // Whether the attempt is counted.
  predicate Counts(r: Rules, table: Table, a: Attempt)
  {
    && Screened(r.allowlist, r.denylist, a.source).Allow? && Throttles(r.config, a.source.key)
    && !PassesUncounted(r.config, table, a.source.key, a.now)
  }

  function EventOf(r: Rules, table: Table, a: Attempt): Event
  {
    var verdict := Judged(r, table, a.source, a.now).verdict;
    if !Counts(r, table, a) then Event(a.now, verdict, false, a.now, 0)
    else
      var e := Counted(r.config, Swept(r.config, table, a.now), a.source.key, a.now);
      Event(a.now, verdict, true, e.start, e.count)
  }

  // The table after Admit was called for a run of attempts by any hosts, and one host's events in it.
  function After(r: Rules, host: Key, attempts: seq<Attempt>): History
    decreases |attempts|
  {
    if attempts == [] then History(map[], [])
    else
      var h := After(r, host, attempts[..|attempts| - 1]);
      var a := attempts[|attempts| - 1];
      History(Judged(r, h.table, a.source, a.now).table,
              if a.source.key == host then h.log + [EventOf(r, h.table, a)] else h.log)
  }

  ghost predicate Monotone(attempts: seq<Attempt>)
  {
    forall i, j | 0 <= i < j < |attempts| :: attempts[i].now <= attempts[j].now
  }

  /** Whoever attempts, the table never holds more than 4097 hosts. */
  lemma {:induction false} TableNeverGrowsPast(r: Rules, host: Key, attempts: seq<Attempt>)
    ensures |After(r, host, attempts).table| <= MAX_TRACKED + 1
    decreases |attempts|
  {
    if attempts != [] {
      var before, a := attempts[..|attempts| - 1], attempts[|attempts| - 1];
      TableNeverGrowsPast(r, host, before);
      TableStaysSmall(r.config, After(r, host, before).table, a.source.key, a.now);
    }
  }

  function AttemptsIn(log: seq<Event>, from: int, window: int): nat
  {
    if log == [] then 0
    else
      var e := log[|log| - 1];
      (if from <= e.now <= from + window then 1 else 0) + AttemptsIn(log[..|log| - 1], from, window)
  }

  // Never so many attempts in one window's length that the count could wrap.
  ghost predicate NoWrap(log: seq<Event>, window: int)
  {
    forall from :: AttemptsIn(log, from, window) < COUNT_RANGE
  }

  // Allow verdicts in the interval.
  function Admissions(cfg: Config, log: seq<Event>, from: int): nat
  {
    if log == [] then 0
    else
      var e := log[|log| - 1];
      (if e.verdict.Allow? && from <= e.now <= from + cfg.window then 1 else 0) + Admissions(cfg, log[..|log| - 1], from)
  }

  // Those of attempts that were counted, and those of attempts that were not.
  function AllowedIn(cfg: Config, log: seq<Event>, from: int): nat
  {
    if log == [] then 0
    else
      var e := log[|log| - 1];
      (if e.counted && e.rank <= cfg.maxAttempts && from <= e.now <= from + cfg.window then 1 else 0)
      + AllowedIn(cfg, log[..|log| - 1], from)
  }

  function UncountedIn(cfg: Config, log: seq<Event>, from: int): nat
  {
    if log == [] then 0
    else
      var e := log[|log| - 1];
      (if e.verdict.Allow? && !e.counted && from <= e.now <= from + cfg.window then 1 else 0)
      + UncountedIn(cfg, log[..|log| - 1], from)
  }

  // How many of the window's attempts have rank at most m.
  function Ranked(log: seq<Event>, start: int, m: nat): nat
  {
    if log == [] then 0
    else
      var e := log[|log| - 1];
      (if e.counted && e.start == start && e.rank <= m then 1 else 0) + Ranked(log[..|log| - 1], start, m)
  }

  // Windows do not overlap, in each the ranks go up, and the rank decides the verdict.
  ghost predicate WellRanked(cfg: Config, log: seq<Event>)
  {
    && (forall i | 0 <= i < |log| && log[i].counted :: InWindow(cfg, log[i]))
    && (forall i, j | 0 <= i < j < |log| && log[i].counted && log[j].counted :: Apart(cfg, log[i], log[j]))
  }

  ghost predicate InWindow(cfg: Config, e: Event)
  {
    && 0 < e.rank && e.start <= e.now <= e.start + cfg.window
    && (e.verdict.Allow? <==> e.rank <= cfg.maxAttempts)
  }

  ghost predicate Apart(cfg: Config, e: Event, f: Event)
  {
    if e.start == f.start then e.rank < f.rank else e.start + cfg.window < f.start
  }

  lemma {:induction false} RanksBound(cfg: Config, log: seq<Event>, start: int, m: nat)
    requires WellRanked(cfg, log)
    ensures Ranked(log, start, m) <= m
    decreases |log|, 1
  {
    if log != [] {
      var e, rest := log[|log| - 1], log[..|log| - 1];
      if e.counted && e.start == start && e.rank <= m {
        RanksBound(cfg, rest, start, e.rank - 1);
        forall i | 0 <= i < |rest| && rest[i].counted && rest[i].start == start
          ensures rest[i].rank < e.rank
        {
          assert Apart(cfg, log[i], log[|log| - 1]);
        }
        RanksCap(rest, start, e.rank - 1, m);
      } else {
        RanksBound(cfg, rest, start, m);
      }
    }
  }

  lemma {:induction false} RanksCap(log: seq<Event>, start: int, k: nat, m: nat)
    requires k <= m && forall i | 0 <= i < |log| && log[i].counted && log[i].start == start :: log[i].rank <= k
    ensures Ranked(log, start, m) == Ranked(log, start, k)
    decreases |log|
  {
    if log != [] {
      RanksCap(log[..|log| - 1], start, k, m);
    }
  }

  // Events of an interval fall into the windows of its first and last.
  lemma {:induction false} TwoWindows(cfg: Config, log: seq<Event>, from: int, s: int, t: int)
    requires forall i | 0 <= i < |log| && log[i].counted && from <= log[i].now <= from + cfg.window ::
               log[i].start == s || log[i].start == t
    ensures AllowedIn(cfg, log, from) <= Ranked(log, s, cfg.maxAttempts) + Ranked(log, t, cfg.maxAttempts)
    decreases |log|
  {
    if log != [] {
      var rest := log[..|log| - 1];
      assert forall i | 0 <= i < |rest| :: rest[i] == log[i];
      TwoWindows(cfg, rest, from, s, t);
    }
  }

  // The starts an interval can see.
  lemma FirstAndLast(cfg: Config, log: seq<Event>, from: int) returns (s: int, t: int)
    requires WellRanked(cfg, log)
    ensures forall i | 0 <= i < |log| && log[i].counted && from <= log[i].now <= from + cfg.window ::
              log[i].start == s || log[i].start == t
  {
    s, t := 0, 0;
    if i :| 0 <= i < |log| && log[i].counted && from <= log[i].now <= from + cfg.window {
      s, t := log[i].start, log[i].start;
      if j :| 0 <= j < |log| && log[j].counted && from <= log[j].now <= from + cfg.window && log[j].start != s {
        t := log[j].start;
        forall k | 0 <= k < |log| && log[k].counted && from <= log[k].now <= from + cfg.window
          ensures log[k].start == s || log[k].start == t
        {
          NoThird(cfg, log, from, i, j, k);
        }
      }
    }
  }

  lemma NoThird(cfg: Config, log: seq<Event>, from: int, i: nat, j: nat, k: nat)
    requires WellRanked(cfg, log) && i < |log| && j < |log| && k < |log|
    requires log[i].counted && from <= log[i].now <= from + cfg.window
    requires log[j].counted && from <= log[j].now <= from + cfg.window
    requires log[k].counted && from <= log[k].now <= from + cfg.window
    requires log[i].start != log[j].start
    ensures log[k].start == log[i].start || log[k].start == log[j].start
  {
    assert InWindow(cfg, log[i]) && InWindow(cfg, log[j]) && InWindow(cfg, log[k]);
    assert i < j ==> Apart(cfg, log[i], log[j]);
    assert j < i ==> Apart(cfg, log[j], log[i]);
    assert i < k ==> Apart(cfg, log[i], log[k]);
    assert k < i ==> Apart(cfg, log[k], log[i]);
    assert j < k ==> Apart(cfg, log[j], log[k]);
    assert k < j ==> Apart(cfg, log[k], log[j]);
  }

  // --- Every history is well ranked --------------------------------------------------------

  ghost predicate HistoryOk(cfg: Config, host: Key, h: History, last: int)
  {
    && WellRanked(cfg, h.log)
    && (forall i | 0 <= i < |h.log| :: h.log[i].now <= last)
    && (if host in h.table then EntryOk(cfg, h.table[host], h.log, last) else AllOver(cfg, h.log, last))
  }

  // The entry is the host's latest window and counts no more than its attempts in it.
  ghost predicate EntryOk(cfg: Config, e: Entry, log: seq<Event>, last: int)
  {
    && 0 < e.count <= AttemptsIn(log, e.start, cfg.window) && e.start <= last
    && forall i | 0 <= i < |log| && log[i].counted ::
         if log[i].start == e.start then log[i].rank <= e.count else log[i].start + cfg.window < e.start
  }

  // Every window the host ever had has run out.
  ghost predicate AllOver(cfg: Config, log: seq<Event>, last: int)
  {
    forall i | 0 <= i < |log| && log[i].counted :: log[i].start + cfg.window < last
  }

  lemma AttemptsInSnoc(log: seq<Event>, e: Event, from: int, window: int)
    ensures AttemptsIn(log + [e], from, window) == AttemptsIn(log, from, window) + if from <= e.now <= from + window then 1 else 0
  {
    assert (log + [e])[..|log|] == log;
  }

  // Sweeping only drops windows that have run out.
  lemma SweepKeeps(cfg: Config, host: Key, h: History, last: int, now: int)
    requires HistoryOk(cfg, host, h, last) && last <= now && cfg.window > 0
    ensures HistoryOk(cfg, host, History(Swept(cfg, h.table, now), h.log), now)
  {
  }

  lemma OthersKeep(r: Rules, host: Key, h: History, last: int, a: Attempt)
    requires HistoryOk(r.config, host, h, last) && last <= a.now && r.config.window > 0 && a.source.key != host
    ensures HistoryOk(r.config, host, History(Judged(r, h.table, a.source, a.now).table, h.log), a.now)
  {
    SweepKeeps(r.config, host, h, last, a.now);
    LaterStillOk(r.config, host, h, last, a.now);
    hide Swept, WellRanked, EntryOk, AllOver;
  }

  lemma OwnKeeps(r: Rules, host: Key, h: History, last: int, a: Attempt)
    requires HistoryOk(r.config, host, h, last) && last <= a.now && r.config.window > 0 && a.source.key == host
    requires NoWrap(h.log + [EventOf(r, h.table, a)], r.config.window)
    ensures HistoryOk(r.config, host,
                      History(Judged(r, h.table, a.source, a.now).table, h.log + [EventOf(r, h.table, a)]), a.now)
  {
    var cfg, ev := r.config, EventOf(r, h.table, a);
    var swept := Swept(cfg, h.table, a.now);
    SweepKeeps(cfg, host, h, last, a.now);
    LaterStillOk(cfg, host, h, last, a.now);
    hide Swept, HistoryOk, NoWrap;
    if !Counts(r, h.table, a) {
      var table := Judged(r, h.table, a.source, a.now).table;
      assert table == h.table || table == swept;
      UncountedOk(cfg, host, table, h.log, ev, a.now);
    } else {
      CountedOk(cfg, swept, host, h.log, ev, a.now);
    }
  }

  lemma Appended(cfg: Config, log: seq<Event>, e: Event)
    requires WellRanked(cfg, log)
    requires e.counted ==> InWindow(cfg, e)
    requires e.counted ==> forall i | 0 <= i < |log| && log[i].counted :: Apart(cfg, log[i], e)
    ensures WellRanked(cfg, log + [e])
  {
  }

  lemma UncountedOk(cfg: Config, host: Key, table: Table, log: seq<Event>, ev: Event, now: int)
    requires HistoryOk(cfg, host, History(table, log), now) && !ev.counted && ev.now == now
    ensures HistoryOk(cfg, host, History(table, log + [ev]), now)
  {
    Appended(cfg, log, ev);
    if host in table {
      AttemptsInSnoc(log, ev, table[host].start, cfg.window);
    }
    hide WellRanked, AttemptsIn;
  }

  // A counted attempt either goes on in the open window or opens one after all others ran out.
  lemma CountedOk(cfg: Config, table: Table, host: Key, log: seq<Event>, ev: Event, now: int)
    requires HistoryOk(cfg, host, History(table, log), now) && cfg.window > 0
    requires var e := Counted(cfg, table, host, now);
             && ev.now == now && ev.counted && ev.start == e.start && ev.rank == e.count
             && (ev.verdict.Allow? <==> e.count <= cfg.maxAttempts)
    requires NoWrap(log + [ev], cfg.window)
    ensures HistoryOk(cfg, host, History(table[host := Counted(cfg, table, host, now)], log + [ev]), now)
  {
    var e := Counted(cfg, table, host, now);
    AttemptsInSnoc(log, ev, e.start, cfg.window);
    assert AttemptsIn(log + [ev], e.start, cfg.window) < COUNT_RANGE;
    hide AttemptsIn;
    forall i | 0 <= i < |log| && log[i].counted
      ensures Apart(cfg, log[i], ev)
    {
    }
    Appended(cfg, log, ev);
  }

  lemma {:induction false} FewerBefore(log: seq<Event>, e: Event, window: int)
    requires NoWrap(log + [e], window)
    ensures NoWrap(log, window)
  {
    forall from
      ensures AttemptsIn(log, from, window) < COUNT_RANGE
    {
      AttemptsInSnoc(log, e, from, window);
      assert AttemptsIn(log + [e], from, window) < COUNT_RANGE;
    }
  }

  lemma {:induction false} HistoriesAreOk(r: Rules, host: Key, attempts: seq<Attempt>, last: int)
    requires r.config.window > 0 && Monotone(attempts) && (attempts != [] ==> attempts[|attempts| - 1].now <= last)
    requires NoWrap(After(r, host, attempts).log, r.config.window)
    ensures HistoryOk(r.config, host, After(r, host, attempts), last)
    decreases |attempts|
  {
    if attempts != [] {
      var before, a := attempts[..|attempts| - 1], attempts[|attempts| - 1];
      var h := After(r, host, before);
      assert After(r, host, attempts)
          == History(Judged(r, h.table, a.source, a.now).table,
                     if a.source.key == host then h.log + [EventOf(r, h.table, a)] else h.log);
      hide After, Judged, EventOf, HistoryOk, NoWrap;
      if a.source.key == host {
        FewerBefore(h.log, EventOf(r, h.table, a), r.config.window);
      }
      HistoriesAreOk(r, host, before, a.now);
      if a.source.key == host {
        OwnKeeps(r, host, h, a.now, a);
      } else {
        OthersKeep(r, host, h, a.now, a);
      }
      LaterStillOk(r.config, host, After(r, host, attempts), a.now, last);
    }
  }

  lemma LaterStillOk(cfg: Config, host: Key, h: History, last: int, later: int)
    requires HistoryOk(cfg, host, h, last) && last <= later
    ensures HistoryOk(cfg, host, h, later)
  {
  }

  lemma {:induction false} AdmissionsSplit(cfg: Config, log: seq<Event>, from: int)
    requires forall i | 0 <= i < |log| && log[i].counted :: InWindow(cfg, log[i])
    ensures Admissions(cfg, log, from) == AllowedIn(cfg, log, from) + UncountedIn(cfg, log, from)
    decreases |log|
  {
    if log != [] {
      assert log[|log| - 1].counted ==> InWindow(cfg, log[|log| - 1]);
      AdmissionsSplit(cfg, log[..|log| - 1], from);
    }
  }

  // Whose windows have not run out.
  function LiveHosts(cfg: Config, table: Table, now: int): set<Key>
  {
    set k | k in table && now - table[k].start <= cfg.window
  }

  /** An attempt is let through uncounted exactly when the lists pass it and the throttle is off, or
      there is no address to count by, or the table is full of live windows of other hosts. */
  lemma UncountedExactly(r: Rules, table: Table, a: Attempt)
    ensures var e := EventOf(r, table, a);
            e.verdict.Allow? && !e.counted <==>
              && Screened(r.allowlist, r.denylist, a.source).Allow?
              && (|| r.config.maxAttempts == 0 || r.config.window <= 0 || a.source.key == []
                  || (var live := LiveHosts(r.config, table, a.now);
                      |live| > MAX_TRACKED && a.source.key !in live))
  {
    FullExactly(r.config, table, a.source.key, a.now);
    hide Screened, PassesUncounted, LiveHosts;
  }

  lemma FullExactly(cfg: Config, table: Table, key: Key, now: int)
    ensures var live := LiveHosts(cfg, table, now);
            PassesUncounted(cfg, table, key, now) <==> |live| > MAX_TRACKED && key !in live
  {
    var live := LiveHosts(cfg, table, now);
    assert Live(cfg, table, now).Keys == live;
    assert |Live(cfg, table, now)| == |live|;
    Smaller(live, table.Keys);
    assert |table| == |table.Keys|;
  }

  // With the throttle off nothing is counted.
  lemma {:induction false} NothingCounted(r: Rules, host: Key, attempts: seq<Attempt>)
    requires r.config.window <= 0
    ensures forall i | 0 <= i < |After(r, host, attempts).log| :: !After(r, host, attempts).log[i].counted
    decreases |attempts|
  {
    if attempts != [] {
      hide Judged;
      NothingCounted(r, host, attempts[..|attempts| - 1]);
    }
  }

  lemma {:induction false} NoneAllowedAsCounted(cfg: Config, log: seq<Event>, from: int)
    requires forall i | 0 <= i < |log| :: !log[i].counted
    ensures AllowedIn(cfg, log, from) == 0
    decreases |log|
  {
    if log != [] {
      NoneAllowedAsCounted(cfg, log[..|log| - 1], from);
    }
  }

  /** On a clock that never goes back, and with fewer than 2^32 attempts of the host in any window's
      length: in any interval of a window's length Admit answers Allow to the host at most twice the
      maximum, besides the attempts it let through uncounted; whatever other hosts do and however
      often the host's entry is evicted. UncountedExactly says which attempts those are. */
  lemma ThrottleBound(r: Rules, host: Key, attempts: seq<Attempt>, from: int)
    requires Monotone(attempts) && NoWrap(After(r, host, attempts).log, r.config.window)
    ensures var log := After(r, host, attempts).log;
            Admissions(r.config, log, from) <= 2 * r.config.maxAttempts + UncountedIn(r.config, log, from)
  {
    var log, cfg := After(r, host, attempts).log, r.config;
    if cfg.window <= 0 {
      NothingCounted(r, host, attempts);
      NoneAllowedAsCounted(cfg, log, from);
      AdmissionsSplit(cfg, log, from);
    } else {
      HistoriesAreOk(r, host, attempts, if attempts == [] then 0 else attempts[|attempts| - 1].now);
      hide After;
      var s, t := FirstAndLast(cfg, log, from);
      TwoWindows(cfg, log, from, s, t);
      RanksBound(cfg, log, s, cfg.maxAttempts);
      RanksBound(cfg, log, t, cfg.maxAttempts);
      AdmissionsSplit(cfg, log, from);
    }
  }

  // Counting from an earlier moment, up to one after which there was nothing, counts no less.
  lemma {:induction false} CountsNoLess(log: seq<Event>, start: int, from: int, window: int, now: int)
    requires from <= start && from + window == now && forall i | 0 <= i < |log| :: log[i].now <= now
    ensures AttemptsIn(log, start, window) <= AttemptsIn(log, from, window)
    decreases |log|
  {
    if log != [] {
      assert log[|log| - 1].now <= now;
      CountsNoLess(log[..|log| - 1], start, from, window, now);
    }
  }

  /** And nobody is held back who kept to the maximum: on a clock that never goes back, an attempt the lists
      pass is let through if with it the host made no more than the maximum in the window's length up to
      it, whatever other hosts did. */
  lemma ModestHostIsAdmitted(r: Rules, host: Key, attempts: seq<Attempt>, a: Attempt)
    requires Throttles(r.config, host) && a.source.key == host && Screened(r.allowlist, r.denylist, a.source).Allow?
    requires Monotone(attempts + [a]) && NoWrap(After(r, host, attempts + [a]).log, r.config.window)
    requires AttemptsIn(After(r, host, attempts + [a]).log, a.now - r.config.window, r.config.window) <= r.config.maxAttempts
    ensures Judged(r, After(r, host, attempts).table, a.source, a.now).verdict == Allow
  {
    hide After, Monotone, NoWrap, Screened, Judged, EventOf, HistoryOk, AttemptsIn, Counts;
    var h, t := After(r, host, attempts), After(r, host, attempts + [a]);
    AfterOneMore(r, host, attempts, a);
    HistoriesAreOk(r, host, attempts + [a], a.now);
    OwnAttempt(r, h.table, a);
    if Counts(r, h.table, a) {
      EntryCounts(r.config, host, t, a.now);
      CountsNoLess(t.log, t.table[host].start, a.now - r.config.window, r.config.window, a.now);
    }
  }

  lemma AfterOneMore(r: Rules, host: Key, attempts: seq<Attempt>, a: Attempt)
    requires a.source.key == host
    ensures var h := After(r, host, attempts);
            After(r, host, attempts + [a])
            == History(Judged(r, h.table, a.source, a.now).table, h.log + [EventOf(r, h.table, a)])
  {
    hide Judged, EventOf;
    assert (attempts + [a])[..|attempts|] == attempts;
  }

  // An attempt of a throttled host is counted, and judged by the count it leaves, or let through.
  lemma OwnAttempt(r: Rules, table: Table, a: Attempt)
    requires Throttles(r.config, a.source.key) && Screened(r.allowlist, r.denylist, a.source).Allow?
    ensures var j := Judged(r, table, a.source, a.now);
            && (!Counts(r, table, a) ==> j.verdict == Allow)
            && (Counts(r, table, a) ==>
                  && a.source.key in j.table && j.table[a.source.key].start >= a.now - r.config.window
                  && (j.verdict == Allow <==> j.table[a.source.key].count <= r.config.maxAttempts))
  {
    hide Screened;
  }

  lemma EntryCounts(cfg: Config, host: Key, h: History, last: int)
    requires HistoryOk(cfg, host, h, last) && host in h.table
    ensures h.table[host].count <= AttemptsIn(h.log, h.table[host].start, cfg.window)
    ensures forall i | 0 <= i < |h.log| :: h.log[i].now <= last
  {
  }

  // What the 32-bit count costs otherwise: attempt number 2^32 of a window is let through, and the one
  // after it opens a window of its own, however young the old one is.
  lemma CountWraps(cfg: Config, table: Table, key: Key, now: int, later: int)
    requires key in table && table[key].count == COUNT_RANGE - 1 && table[key].start <= now <= table[key].start + cfg.window
    requires |table| <= MAX_TRACKED
    ensures Allowed(cfg, table, key, now)
    ensures Counted(cfg, Attempted(cfg, table, key, now), key, later) == Entry(later, 1)
  {
  }

  // One host attempting n times at one instant.
  function Burst(source: Source, now: int, n: nat): (attempts: seq<Attempt>)
    ensures |attempts| == n
  {
    seq(n, _ => Attempt(source, now))
  }

  // How many of the numbers 1..n a 32-bit count takes for one not above the maximum.
  function Passing(n: nat, most: nat): nat
  {
    if n == 0 then 0 else Passing(n - 1, most) + if n % COUNT_RANGE <= most then 1 else 0
  }

  lemma NextCount(n: nat)
    requires n > 0
    ensures ((n - 1) % COUNT_RANGE + 1) % COUNT_RANGE == n % COUNT_RANGE
    ensures (n - 1) % COUNT_RANGE == 0 ==> n % COUNT_RANGE == 1
  {
  }

  // What one more attempt of the burst finds and leaves.
  lemma OneMoreAtOnce(r: Rules, source: Source, now: int, n: nat, table: Table)
    requires Screened(r.allowlist, r.denylist, source).Allow? && Throttles(r.config, source.key) && n > 0
    requires table == if n == 1 then map[] else map[source.key := Entry(now, (n - 1) % COUNT_RANGE)]
    ensures Judged(r, table, source, now).table == map[source.key := Entry(now, n % COUNT_RANGE)]
    ensures var e := EventOf(r, table, Attempt(source, now));
            e.now == now && e.counted && (e.verdict.Allow? <==> n % COUNT_RANGE <= r.config.maxAttempts)
  {
    NextCount(n);
    assert |table| <= 1;
    assert Swept(r.config, table, now) == table;
    assert Counted(r.config, table, source.key, now) == Entry(now, n % COUNT_RANGE);
  }

  /** The count the table holds is the number of attempts modulo 2^32, and that number decides. */
  lemma {:induction false} CountOfBurst(r: Rules, source: Source, now: int, n: nat)
    requires Screened(r.allowlist, r.denylist, source).Allow? && Throttles(r.config, source.key)
    ensures var h := After(r, source.key, Burst(source, now, n));
            && h.table == (if n == 0 then map[] else map[source.key := Entry(now, n % COUNT_RANGE)])
            && Admissions(r.config, h.log, now) == Passing(n, r.config.maxAttempts)
            && UncountedIn(r.config, h.log, now) == 0
  {
    if n > 0 {
      CountOfBurst(r, source, now, n - 1);
      assert Burst(source, now, n)[..n - 1] == Burst(source, now, n - 1);
      var h := After(r, source.key, Burst(source, now, n - 1));
      OneMoreAtOnce(r, source, now, n, h.table);
      var e := EventOf(r, h.table, Attempt(source, now));
      assert (h.log + [e])[..|h.log|] == h.log;
      hide Judged, EventOf, Screened;
    }
  }

  /** So 2^32 - 1 attempts at one instant bring the table to where the next, while the window lasts, is
      let through whatever the maximum, and the one after that opens a new window. */
  lemma WrappedCountAdmits(r: Rules, source: Source, now: int, soon: int, later: int)
    requires Screened(r.allowlist, r.denylist, source).Allow? && Throttles(r.config, source.key)
    requires now <= soon <= now + r.config.window
    ensures var table := After(r, source.key, Burst(source, now, COUNT_RANGE - 1)).table;
            && source.key in table && table[source.key] == Entry(now, COUNT_RANGE - 1)
            && var next := Judged(r, table, source, soon);
               next.verdict.Allow? && Counted(r.config, next.table, source.key, later) == Entry(later, 1)
  {
    CountOfBurst(r, source, now, COUNT_RANGE - 1);
    hide After;
    var table := After(r, source.key, Burst(source, now, COUNT_RANGE - 1)).table;
    assert |table| <= 1;
    CountWraps(r.config, table, source.key, soon, later);
  }

  lemma {:induction false} PassingGrows(m: nat, n: nat, most: nat)
    requires m <= n
    ensures Passing(m, most) <= Passing(n, most)
    decreases n
  {
    if m < n {
      PassingGrows(m, n - 1, most);
    }
  }

  lemma {:induction false} PassingPerRound(rounds: nat, most: nat)
    ensures Passing(rounds * COUNT_RANGE, most) >= rounds
  {
    if rounds > 0 {
      var n := rounds * COUNT_RANGE;
      PassingPerRound(rounds - 1, most);
      PassingGrows((rounds - 1) * COUNT_RANGE, n - 1, most);
      assert n % COUNT_RANGE == 0;
    }
  }

  /** Without the bound on the number of attempts the throttle's bound fails, whatever the maximum:
      enough attempts at one instant get more than twice the maximum through, all of them counted. */
  lemma WrapBreaksBound(r: Rules, source: Source, now: int) returns (attempts: seq<Attempt>)
    requires Screened(r.allowlist, r.denylist, source).Allow? && Throttles(r.config, source.key)
    ensures Monotone(attempts)
    ensures var log := After(r, source.key, attempts).log;
            Admissions(r.config, log, now) > 2 * r.config.maxAttempts && UncountedIn(r.config, log, now) == 0
  {
    hide After, Screened, Throttles, Admissions, UncountedIn, Passing;
    var rounds := 2 * r.config.maxAttempts + 1;
    attempts := Burst(source, now, rounds * COUNT_RANGE);
    CountOfBurst(r, source, now, rounds * COUNT_RANGE);
    PassingPerRound(rounds, r.config.maxAttempts);
  }

  /** So a host the throttle applies to, while the table never fills with the live windows of others,
      gets at most twice the maximum. */
  lemma ThrottledHostBound(r: Rules, host: Key, attempts: seq<Attempt>, from: int)
    requires Throttles(r.config, host) && Monotone(attempts) && NoWrap(After(r, host, attempts).log, r.config.window)
    requires NeverFull(r, host, attempts)
    ensures Admissions(r.config, After(r, host, attempts).log, from) <= 2 * r.config.maxAttempts
  {
    ThrottleBound(r, host, attempts, from);
    NeverFullNeverUncounted(r, host, attempts, from);
  }

  // None of the host's attempts finds the table full of live windows that are not its own.
  ghost predicate NeverFull(r: Rules, host: Key, attempts: seq<Attempt>)
    decreases |attempts|
  {
    attempts != [] ==>
      var before, a := attempts[..|attempts| - 1], attempts[|attempts| - 1];
      && NeverFull(r, host, before)
      && (a.source.key == host ==> !PassesUncounted(r.config, After(r, host, before).table, host, a.now))
  }

  lemma {:induction false} NeverFullNeverUncounted(r: Rules, host: Key, attempts: seq<Attempt>, from: int)
    requires Throttles(r.config, host) && NeverFull(r, host, attempts)
    ensures UncountedIn(r.config, After(r, host, attempts).log, from) == 0
    decreases |attempts|
  {
    if attempts != [] {
      var before, a := attempts[..|attempts| - 1], attempts[|attempts| - 1];
      NeverFullNeverUncounted(r, host, before, from);
      var h := After(r, host, before);
      if a.source.key == host {
        UncountedExactly(r, h.table, a);
        assert (h.log + [EventOf(r, h.table, a)])[..|h.log|] == h.log;
      }
    }
  }
}
