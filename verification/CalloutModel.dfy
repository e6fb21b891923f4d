/** What the callout list does, on values: armings, stops and firings as a history, and a tick. */
module CalloutModel {
  import opened Basics

  /** What happened to callouts, oldest first. */
  datatype Event<T> = Armed(c: T, at: int) | Stopped(c: T) | Fired(c: T, at: int)

  /** What a callback does to callouts. */
  datatype Action<T> = Arm(c: T, at: int) | Stop(c: T)

  /** The pending callouts in list order, and the history. */
  datatype State<T> = State(list: seq<T>, log: seq<Event<T>>)

  /** The arming of c that has neither fired nor been stopped or replaced. */
  function Stands<T(==)>(log: seq<Event<T>>, c: T): Option<int> {
    if log == [] then None else
      var e := log[|log| - 1];
      if e.c != c then Stands(log[..|log| - 1], c)
      else if e.Armed? then Some(e.at)
      else None
  }

  lemma {:induction false} StandsAfter<T>(log: seq<Event<T>>, e: Event<T>, c: T)
    ensures Stands(log + [e], c) == if e.c != c then Stands(log, c) else if e.Armed? then Some(e.at) else None
  {
    assert (log + [e])[..|log|] == log;
  }

  /** Only what stands fires or is stopped. */
  predicate Legal<T(==)>(log: seq<Event<T>>) {
    log == [] ||
      var e, before := log[|log| - 1], log[..|log| - 1];
      && Legal(before)
      && (e.Stopped? ==> Stands(before, e.c).Some?)
      && (e.Fired? ==> Stands(before, e.c) == Some(e.at))
  }

  lemma {:induction false} LegalAfter<T>(log: seq<Event<T>>, e: Event<T>)
    requires Legal(log)
    ensures Legal(log + [e])
            <==> (e.Stopped? ==> Stands(log, e.c).Some?) && (e.Fired? ==> Stands(log, e.c) == Some(e.at))
  {
    assert (log + [e])[..|log|] == log;
  }

  /** A callout is in the list, and once, exactly while an arming of it stands. */
  ghost predicate Wf<T>(s: State<T>, known: set<T>) {
    && Distinct(s.list) && Legal(s.log) && (forall c :: c in s.list ==> c in known)
    && forall c :: c in known ==> (c in s.list <==> Stands(s.log, c).Some?)
  }

  // ---- Operations ----

  function Armed1<T(==)>(s: State<T>, c: T, at: int): State<T> {
    State([c] + Without(s.list, c), s.log + [Armed(c, at)])
  }

  function Stopped1<T(==)>(s: State<T>, c: T): State<T> {
    if Stands(s.log, c).Some? then State(Without(s.list, c), s.log + [Stopped(c)]) else s
  }

  function Do<T(==)>(s: State<T>, a: Action<T>): State<T> {
    match a
    case Arm(c, at) => Armed1(s, c, at)
    case Stop(c) => Stopped1(s, c)
  }

  function Run<T(==)>(s: State<T>, acts: seq<Action<T>>): State<T>
    decreases |acts|
  {
    if acts == [] then s else Run(Do(s, acts[0]), acts[1..])
  }

  predicate DueIn<T(==)>(log: seq<Event<T>>, c: T, now: int) { Stands(log, c).Some? && Stands(log, c).value <= now }

  predicate DueAt<T(==)>(s: State<T>, c: T, now: int) { DueIn(s.log, c, now) }

  /** The place of the first callout that is due; the length of the list if none is. */
  function FirstDue<T(==)>(s: State<T>, now: int, from: nat): (k: nat)
    requires from <= |s.list|
    ensures from <= k <= |s.list|
    ensures forall i :: from <= i < k ==> !DueAt(s, s.list[i], now)
    ensures k < |s.list| ==> DueAt(s, s.list[k], now)
    decreases |s.list| - from
  {
    if from == |s.list| || DueAt(s, s.list[from], now) then from else FirstDue(s, now, from + 1)
  }

  function Fire<T(==)>(s: State<T>, k: nat): State<T>
    requires k < |s.list| && Stands(s.log, s.list[k]).Some?
  {
    State(s.list[..k] + s.list[k + 1..], s.log + [Fired(s.list[k], Stands(s.log, s.list[k]).value)])
  }

  /** What the n-th callback of a tick does. */
  type Script<T> = seq<seq<Action<T>>>

  /** A tick: as long as something is due, the first such in the list fires and its callback runs. */
  function Tick<T(==)>(s: State<T>, now: int, script: Script<T>): State<T>
    decreases |script|, |s.list|
  {
    var k := FirstDue(s, now, 0);
    if k == |s.list| then s
    else if script == [] then Tick(Fire(s, k), now, [])
    else Tick(Run(Fire(s, k), script[0]), now, script[1..])
  }

  ghost predicate Speaks<T>(acts: seq<Action<T>>, known: set<T>) { forall i :: 0 <= i < |acts| ==> acts[i].c in known }

  ghost predicate SpeaksAll<T>(script: Script<T>, known: set<T>) {
    forall i :: 0 <= i < |script| ==> Speaks(script[i], known)
  }

  // ---- Every state is well formed ----

  lemma {:induction false} DoWf<T>(s: State<T>, a: Action<T>, known: set<T>)
    requires Wf(s, known) && a.c in known
    ensures Wf(Do(s, a), known)
  {
    if a.Arm? {
      var e := Armed(a.c, a.at);
      WithoutIs(s.list, a.c);
      LegalAfter(s.log, e);
      var list := [a.c] + Without(s.list, a.c);
      forall c | c in list ensures c in known {
        if c != a.c {
          assert c in Without(s.list, a.c);
          WithoutFrom(s.list, a.c, c);
        }
      }
      forall c | c in known ensures c in list <==> Stands(s.log + [e], c).Some? { StandsAfter(s.log, e, c); }
    } else if Stands(s.log, a.c).Some? {
      GoneWf(s, Stopped(a.c), known);
    }
  }

  lemma {:induction false} RunWf<T>(s: State<T>, acts: seq<Action<T>>, known: set<T>)
    requires Wf(s, known) && Speaks(acts, known)
    ensures Wf(Run(s, acts), known)
    decreases |acts|
  {
    if acts != [] {
      DoWf(s, acts[0], known);
      RunWf(Do(s, acts[0]), acts[1..], known);
    }
  }

  /** An arming that stands ends, by firing or by being stopped. */
  lemma {:induction false} GoneWf<T>(s: State<T>, e: Event<T>, known: set<T>)
    requires Wf(s, known) && !e.Armed? && Stands(s.log, e.c).Some? && (e.Fired? ==> Stands(s.log, e.c) == Some(e.at))
    ensures Wf(State(Without(s.list, e.c), s.log + [e]), known)
  {
    WithoutIs(s.list, e.c);
    LegalAfter(s.log, e);
    var list := Without(s.list, e.c);
    forall c | c in list ensures c in known { WithoutFrom(s.list, e.c, c); }
    forall c | c in known ensures c in list <==> Stands(s.log + [e], c).Some? { StandsAfter(s.log, e, c); }
  }

  lemma {:induction false} FireWf<T>(s: State<T>, k: nat, known: set<T>)
    requires Wf(s, known) && k < |s.list|
    ensures s.list[k] in known && Stands(s.log, s.list[k]).Some? && Wf(Fire(s, k), known)
    ensures |Fire(s, k).list| == |s.list| - 1
    ensures Fire(s, k) == State(Without(s.list, s.list[k]), s.log + [Fired(s.list[k], Stands(s.log, s.list[k]).value)])
  {
    var c := s.list[k];
    assert c in s.list;
    WithoutAt(s.list, k);
    GoneWf(s, Fired(c, Stands(s.log, c).value), known);
  }

  /** Whatever the callbacks do, a tick ends with the list well formed and nothing due in it. */
  lemma {:induction false} TickLeavesNoneDue<T>(s: State<T>, now: int, script: Script<T>, known: set<T>)
    requires Wf(s, known) && SpeaksAll(script, known)
    ensures Wf(Tick(s, now, script), known)
    ensures forall c :: c in known ==> !DueAt(Tick(s, now, script), c, now)
    decreases |script|, |s.list|
  {
    var k := FirstDue(s, now, 0);
    if k < |s.list| {
      FireWf(s, k, known);
      if script == [] {
        TickLeavesNoneDue(Fire(s, k), now, [], known);
      } else {
        RunWf(Fire(s, k), script[0], known);
        TickLeavesNoneDue(Run(Fire(s, k), script[0]), now, script[1..], known);
      }
    }
  }

  // ---- Every arming is accounted for ----

  /** How often c was armed; how often an arming of it fired, was stopped, and was replaced by another. */
  datatype Tally = Tally(armed: nat, fired: nat, stopped: nat, replaced: nat)

  function Count<T(==)>(log: seq<Event<T>>, c: T): Tally {
    if log == [] then Tally(0, 0, 0, 0) else
      var e, before := log[|log| - 1], log[..|log| - 1];
      var t := Count(before, c);
      if e.c != c then t
      else if e.Fired? then t.(fired := t.fired + 1)
      else if e.Stopped? then t.(stopped := t.stopped + 1)
      else t.(armed := t.armed + 1, replaced := t.replaced + if Stands(before, c).Some? then 1 else 0)
  }

  /** An arming ends in exactly one way, so it fires at most once. */
  lemma {:induction false} ArmingsAccounted<T>(log: seq<Event<T>>, c: T)
    requires Legal(log)
    ensures var t := Count(log, c); t.armed == t.fired + t.stopped + t.replaced + if Stands(log, c).Some? then 1 else 0
  {
    if log != [] { ArmingsAccounted(log[..|log| - 1], c); }
  }

  // ---- Which callouts a tick fires ----

  /** The callouts fired by the events behind the first from. */
  function FiredSince<T>(log: seq<Event<T>>, from: nat): seq<T>
    requires from <= |log|
    decreases |log|
  {
    if from == |log| then [] else
      var e := log[|log| - 1];
      FiredSince(log[..|log| - 1], from) + if e.Fired? then [e.c] else []
  }

  lemma {:induction false} FiredAfter<T>(log: seq<Event<T>>, from: nat, e: Event<T>)
    requires from <= |log|
    ensures FiredSince(log + [e], from) == FiredSince(log, from) + if e.Fired? then [e.c] else []
  {
    assert (log + [e])[..|log|] == log;
  }

  lemma {:induction false} FiredChain<T>(log: seq<Event<T>>, mid: nat, from: nat)
    requires from <= mid <= |log|
    ensures FiredSince(log, from) == FiredSince(log[..mid], from) + FiredSince(log, mid)
    decreases |log|
  {
    if mid == |log| {
      assert log[..mid] == log;
    } else {
      var short := log[..|log| - 1];
      FiredChain(short, mid, from);
      assert short[..mid] == log[..mid];
    }
  }

  /** A callback fires nothing, and only adds to the history. */
  lemma {:induction false} RunLogs<T>(s: State<T>, acts: seq<Action<T>>)
    ensures s.log <= Run(s, acts).log && FiredSince(Run(s, acts).log, |s.log|) == []
    decreases |acts|
  {
    if acts != [] {
      var s1 := Do(s, acts[0]);
      RunLogs(s1, acts[1..]);
      var log := Run(s, acts).log;
      if s1.log != s.log { FiredAfter(s.log, |s.log|, s1.log[|s.log|]); }
      assert log[..|s1.log|] == s1.log;
      FiredChain(log, |s1.log|, |s.log|);
    }
  }

  lemma {:induction false} TickLogs<T>(s: State<T>, now: int, script: Script<T>)
    ensures s.log <= Tick(s, now, script).log
    decreases |script|, |s.list|
  {
    var k := FirstDue(s, now, 0);
    if k < |s.list| {
      if script == [] { TickLogs(Fire(s, k), now, []); } else {
        RunLogs(Fire(s, k), script[0]);
        TickLogs(Run(Fire(s, k), script[0]), now, script[1..]);
      }
    }
  }

  /** The state in which a tick looks for the next callout. */
  function Fired1<T(==)>(s: State<T>, k: nat, script: Script<T>): State<T>
    requires k < |s.list| && Stands(s.log, s.list[k]).Some?
  {
    if script == [] then Fire(s, k) else Run(Fire(s, k), script[0])
  }

  /** A tick that fires something fires that first, and then what the rest of it fires. */
  lemma {:induction false} TickFires<T>(s: State<T>, now: int, script: Script<T>)
    requires FirstDue(s, now, 0) < |s.list|
    ensures var k := FirstDue(s, now, 0);
            var s1 := Fired1(s, k, script); var rest := if script == [] then [] else script[1..];
            && s.log <= Tick(s, now, script).log && s1.log <= Tick(s1, now, rest).log
            && FiredSince(Tick(s, now, script).log, |s.log|)
               == [s.list[k]] + FiredSince(Tick(s1, now, rest).log, |s1.log|)
  {
    var k := FirstDue(s, now, 0);
    var s1 := Fired1(s, k, script);
    var rest := if script == [] then [] else script[1..];
    TickLogs(s, now, script);
    TickLogs(s1, now, rest);
    StepFires(s, k, script);
    hide FiredSince, Fired1, FirstDue, Stands;
    var log := Tick(s1, now, rest).log;
    assert log[..|s1.log|] == s1.log;
    FiredChain(log, |s1.log|, |s.log|);
  }

  lemma {:induction false} StepFires<T>(s: State<T>, k: nat, script: Script<T>)
    requires k < |s.list| && Stands(s.log, s.list[k]).Some?
    ensures var s1 := Fired1(s, k, script); s.log <= s1.log && FiredSince(s1.log, |s.log|) == [s.list[k]]
  {
    var s0, s1 := Fire(s, k), Fired1(s, k, script);
    FiredAfter(s.log, |s.log|, s0.log[|s.log|]);
    assert FiredSince(s0.log, |s.log|) == [s.list[k]];
    if script != [] {
      RunLogs(s0, script[0]);
      hide FiredSince, Run, Stands;
      assert s1.log[..|s0.log|] == s0.log;
      FiredChain(s1.log, |s0.log|, |s.log|);
    }
  }

  ghost function Due<T>(s: State<T>, now: int): set<T> { set c | c in s.list && DueAt(s, c, now) }

  /** Callbacks arm only for later. */
  ghost predicate Later<T>(acts: seq<Action<T>>, now: int) {
    forall i :: 0 <= i < |acts| && acts[i].Arm? ==> acts[i].at > now
  }

  ghost predicate LaterAll<T>(script: Script<T>, now: int) { forall i :: 0 <= i < |script| ==> Later(script[i], now) }

  lemma {:induction false} DoDue<T>(s: State<T>, a: Action<T>, now: int, known: set<T>)
    requires Wf(s, known) && a.c in known && (a.Arm? ==> a.at > now)
    ensures Due(Do(s, a), now) <= Due(s, now)
  {
    WithoutIs(s.list, a.c);
    if a.Arm? || Stands(s.log, a.c).Some? {
      var e := if a.Arm? then Armed(a.c, a.at) else Stopped(a.c);
      forall c | c in Due(Do(s, a), now) ensures c in Due(s, now) { StandsAfter(s.log, e, c); }
    }
  }

  lemma {:induction false} RunDue<T>(s: State<T>, acts: seq<Action<T>>, now: int, known: set<T>)
    requires Wf(s, known) && Speaks(acts, known) && Later(acts, now)
    ensures Due(Run(s, acts), now) <= Due(s, now)
    decreases |acts|
  {
    if acts != [] {
      DoDue(s, acts[0], now, known);
      DoWf(s, acts[0], known);
      RunDue(Do(s, acts[0]), acts[1..], now, known);
    }
  }

  lemma {:induction false} FireDue<T>(s: State<T>, k: nat, now: int, known: set<T>)
    requires Wf(s, known) && k < |s.list| && DueAt(s, s.list[k], now)
    ensures Due(Fire(s, k), now) <= Due(s, now) - {s.list[k]}
  {
    var c := s.list[k];
    FireWf(s, k, known);
    WithoutAt(s.list, k);
    WithoutIs(s.list, c);
    forall x | x in Due(Fire(s, k), now) ensures x in Due(s, now) && x != c {
      StandsAfter(s.log, Fired(c, Stands(s.log, c).value), x);
    }
  }

  /** When callbacks arm only for later, a tick fires each callout at most once, and only ones that
      were due when it began: it fires no more often than that, however long the callbacks go on. */
  lemma {:induction false} TickIsBounded<T>(s: State<T>, now: int, script: Script<T>, known: set<T>)
    requires Wf(s, known) && SpeaksAll(script, known) && LaterAll(script, now)
    ensures s.log <= Tick(s, now, script).log
    ensures var f := FiredSince(Tick(s, now, script).log, |s.log|);
            Distinct(f) && |f| <= |Due(s, now)| && forall c :: c in f ==> c in Due(s, now)
    decreases |script|, |s.list|
  {
    hide Wf, Tick, Run, Fire, Due, Stands, FiredSince;
    TickLogs(s, now, script);
    var k := FirstDue(s, now, 0);
    if k == |s.list| {
      TickStays(s, now, script);
    } else {
      var c := s.list[k];
      FireWf(s, k, known);
      FireDue(s, k, now, known);
      var s1 := Fired1(s, k, script);
      var rest := if script == [] then [] else script[1..];
      if script != [] {
        RunWf(Fire(s, k), script[0], known);
        RunDue(Fire(s, k), script[0], now, known);
      }
      TickFires(s, now, script);
      TickIsBounded(s1, now, rest, known);
      assert c in Due(s, now) by { DueHere(s, k, now); }
      OneMore(FiredSince(Tick(s1, now, rest).log, |s1.log|), Due(s1, now), Due(s, now), c);
    }
  }

  lemma {:induction false} TickStays<T>(s: State<T>, now: int, script: Script<T>)
    requires FirstDue(s, now, 0) == |s.list|
    ensures Tick(s, now, script) == s && FiredSince(s.log, |s.log|) == []
  {
  }

  lemma {:induction false} DueHere<T>(s: State<T>, k: nat, now: int)
    requires k < |s.list| && DueAt(s, s.list[k], now)
    ensures s.list[k] in Due(s, now)
  {
  }

  lemma {:induction false} OneMore<T>(f: seq<T>, d1: set<T>, d: set<T>, c: T)
    requires Distinct(f) && |f| <= |d1| && (forall x :: x in f ==> x in d1) && d1 <= d - {c} && c in d
    ensures Distinct([c] + f) && |f| + 1 <= |d| && forall x :: x in [c] + f ==> x in d
  {
    assert d == d1 + {c} + (d - d1 - {c});
    assert |d1 + {c}| == |d1| + 1;
  }

  /** Without that, there is no bound: a callback that arms its own callout for now fires n + 1 times. */
  lemma {:induction false} TickHasNoBound<T>(s: State<T>, c: T, now: int, n: nat)
    requires s.list == [c] && DueAt(s, c, now)
    ensures var script := seq(n, i => [Arm(c, now)]);
            s.log <= Tick(s, now, script).log && |FiredSince(Tick(s, now, script).log, |s.log|)| == n + 1
    decreases n
  {
    var script := seq(n, i => [Arm(c, now)]);
    TickFires(s, now, script);
    var s1 := Fired1(s, 0, script);
    assert Fire(s, 0).list == [];
    if n == 0 {
      TickLogs(s1, now, []);
    } else {
      assert script[0] == [Arm(c, now)];
      assert Run(Fire(s, 0), script[0]) == Do(Fire(s, 0), Arm(c, now));
      StandsAfter(Fire(s, 0).log, Armed(c, now), c);
      assert script[1..] == seq(n - 1, i => [Arm(c, now)]);
      TickHasNoBound(s1, c, now, n - 1);
    }
  }

  // ---- How often a tick fires, whatever the callbacks do ----

  /** Since some point of the history: callouts fired, made due by a callback, and stopped or put off
      while due. */
  datatype Changes = Changes(fired: nat, made: nat, off: nat)

  function Since<T(==)>(log: seq<Event<T>>, from: nat, now: int): Changes
    requires from <= |log|
    decreases |log|
  {
    if from == |log| then Changes(0, 0, 0) else
      var e, before := log[|log| - 1], log[..|log| - 1];
      var r := Since(before, from, now);
      if e.Fired? then r.(fired := r.fired + 1)
      else if DueIn(log, e.c, now) && !DueIn(before, e.c, now) then r.(made := r.made + 1)
      else if DueIn(before, e.c, now) && !DueIn(log, e.c, now) then r.(off := r.off + 1)
      else r
  }

  lemma {:induction false} SinceFired<T>(log: seq<Event<T>>, from: nat, now: int)
    requires from <= |log|
    ensures Since(log, from, now).fired == |FiredSince(log, from)|
    decreases |log|
  {
    if from < |log| { SinceFired(log[..|log| - 1], from, now); }
  }

  /** The due callouts at the end of log are those at its first from events, and the changes since. */
  ghost predicate Balanced<T>(s0: State<T>, s: State<T>, now: int) {
    && s0.log <= s.log
    && var r := Since(s.log, |s0.log|, now); |Due(s, now)| + r.fired + r.off == |Due(s0, now)| + r.made
  }

  lemma {:induction false} BalancedSelf<T>(s: State<T>, now: int)
    ensures Balanced(s, s, now)
  {
  }

  /** One event changes whether its own callout is due, and no other. */
  lemma {:induction false} BalancedStep<T>(s0: State<T>, s: State<T>, s': State<T>, e: Event<T>, now: int,
                                           known: set<T>)
    requires Balanced(s0, s, now) && Wf(s, known) && Wf(s', known) && e.c in known && s'.log == s.log + [e]
    requires e.Fired? ==> DueIn(s.log, e.c, now)
    ensures Balanced(s0, s', now)
  {
    hide Stands, Since, Due;
    var a, b := Due(s, now), Due(s', now);
    SinceNext(s.log, |s0.log|, e, now);
    DueChange(s, s', e, now, known);
    assert a + {e.c} == (a - {e.c}) + {e.c} && b + {e.c} == (b - {e.c}) + {e.c};
    assert e.c in a ==> a == (a - {e.c}) + {e.c};
    assert e.c in b ==> b == (b - {e.c}) + {e.c};
    assert e.c !in a ==> a == a - {e.c};
    assert e.c !in b ==> b == b - {e.c};
  }

  lemma {:induction false} SinceNext<T>(log: seq<Event<T>>, from: nat, e: Event<T>, now: int)
    requires from <= |log|
    ensures var r, a, b := Since(log, from, now), DueIn(log, e.c, now), DueIn(log + [e], e.c, now);
            Since(log + [e], from, now)
            == if e.Fired? then r.(fired := r.fired + 1)
               else if b && !a then r.(made := r.made + 1)
               else if a && !b then r.(off := r.off + 1)
               else r
  {
    assert (log + [e])[..|log|] == log;
  }

  lemma {:induction false} DueChange<T>(s: State<T>, s': State<T>, e: Event<T>, now: int, known: set<T>)
    requires Wf(s, known) && Wf(s', known) && e.c in known && s'.log == s.log + [e]
    ensures Due(s, now) - {e.c} == Due(s', now) - {e.c}
    ensures e.c in Due(s, now) <==> DueIn(s.log, e.c, now)
    ensures e.c in Due(s', now) <==> DueIn(s'.log, e.c, now)
    ensures e.Fired? ==> !DueIn(s'.log, e.c, now)
  {
    StandsAfter(s.log, e, e.c);
    forall c ensures c in Due(s, now) - {e.c} <==> c in Due(s', now) - {e.c} {
      if c in known { StandsAfter(s.log, e, c); }
    }
  }

  lemma {:induction false} BalancedRun<T>(s0: State<T>, s: State<T>, acts: seq<Action<T>>, now: int, known: set<T>)
    requires Balanced(s0, s, now) && Wf(s, known) && Speaks(acts, known)
    ensures Balanced(s0, Run(s, acts), now) && Wf(Run(s, acts), known)
    decreases |acts|
  {
    hide Wf, Balanced, Stands, Without;
    if acts != [] {
      var a, s1 := acts[0], Do(s, acts[0]);
      DoWf(s, a, known);
      if a.Arm? {
        BalancedStep(s0, s, s1, Armed(a.c, a.at), now, known);
      } else if Stands(s.log, a.c).Some? {
        BalancedStep(s0, s, s1, Stopped(a.c), now, known);
      }
      BalancedRun(s0, s1, acts[1..], now, known);
    }
  }

  lemma {:induction false} BalancedTick<T>(s0: State<T>, s: State<T>, now: int, script: Script<T>, known: set<T>)
    requires Balanced(s0, s, now) && Wf(s, known) && SpeaksAll(script, known)
    ensures Balanced(s0, Tick(s, now, script), now)
    decreases |script|, |s.list|
  {
    hide Wf, Balanced, Stands, Run;
    var k := FirstDue(s, now, 0);
    if k < |s.list| {
      var c := s.list[k];
      FireWf(s, k, known);
      var s1 := Fire(s, k);
      BalancedStep(s0, s, s1, Fired(c, Stands(s.log, c).value), now, known);
      if script == [] {
        BalancedTick(s0, s1, now, [], known);
      } else {
        BalancedRun(s0, s1, script[0], now, known);
        BalancedTick(s0, Run(s1, script[0]), now, script[1..], known);
      }
    }
  }

  /** A tick fires exactly as often as callouts were due when it began, plus those that callbacks made
      due meanwhile, less those they stopped or put off: more often than that if and only if they made
      more due than they put off. */
  lemma {:induction false} TickCounts<T>(s: State<T>, now: int, script: Script<T>, known: set<T>)
    requires Wf(s, known) && SpeaksAll(script, known)
    ensures s.log <= Tick(s, now, script).log
    ensures var log := Tick(s, now, script).log; var r := Since(log, |s.log|, now);
            && |FiredSince(log, |s.log|)| + r.off == |Due(s, now)| + r.made
            && (|FiredSince(log, |s.log|)| > |Due(s, now)| <==> r.made > r.off)
  {
    hide Tick, Since, FiredSince, Stands;
    BalancedSelf(s, now);
    BalancedTick(s, s, now, script, known);
    TickLeavesNoneDue(s, now, script, known);
    SinceFired(Tick(s, now, script).log, |s.log|, now);
    assert Due(Tick(s, now, script), now) == {};
  }

  // ---- A tick whose callbacks touch no callout ----

  function Kept<T(==)>(list: seq<T>, log: seq<Event<T>>, now: int): seq<T> {
    if list == [] then [] else
      var c := list[0];
      (if DueAt(State([], log), c, now) then [] else [c]) + Kept(list[1..], log, now)
  }

  function Taken<T(==)>(list: seq<T>, log: seq<Event<T>>, now: int): seq<T> {
    if list == [] then [] else
      var c := list[0];
      (if DueAt(State([], log), c, now) then [c] else []) + Taken(list[1..], log, now)
  }

  lemma {:induction false} KeptAt<T>(list: seq<T>, log: seq<Event<T>>, now: int, k: nat)
    requires k < |list| && Distinct(list) && DueAt(State([], log), list[k], now)
    requires forall i :: 0 <= i < k ==> !DueAt(State([], log), list[i], now)
    ensures var log' := log + [Fired(list[k], Stands(log, list[k]).value)]; var list' := list[..k] + list[k + 1..];
            && Kept(list', log', now) == Kept(list, log, now)
            && Taken(list, log, now) == [list[k]] + Taken(list', log', now)
  {
    var e := Fired(list[k], Stands(log, list[k]).value);
    var list' := list[..k] + list[k + 1..];
    StandsAfter(log, e, list[0]);
    if k == 0 {
      assert list' == list[1..];
      SameFrom(list', log, e, now);
    } else {
      assert list[1..][..k - 1] + list[1..][k..] == list'[1..] && list'[0] == list[0];
      KeptAt(list[1..], log, now, k - 1);
    }
  }

  lemma {:induction false} SameFrom<T>(list: seq<T>, log: seq<Event<T>>, e: Event<T>, now: int)
    requires e.c !in list
    ensures Kept(list, log + [e], now) == Kept(list, log, now) && Taken(list, log + [e], now) == Taken(list, log, now)
  {
    if list != [] {
      StandsAfter(log, e, list[0]);
      SameFrom(list[1..], log, e, now);
    }
  }

  lemma {:induction false} NoneTaken<T>(list: seq<T>, log: seq<Event<T>>, now: int)
    requires forall i :: 0 <= i < |list| ==> !DueAt(State([], log), list[i], now)
    ensures Kept(list, log, now) == list && Taken(list, log, now) == []
  {
    if list != [] { NoneTaken(list[1..], log, now); }
  }

  /** Then exactly the callouts that were due fire, once each and in list order, and the others stay. */
  lemma {:induction false} QuietTick<T>(s: State<T>, now: int, known: set<T>)
    requires Wf(s, known)
    ensures Tick(s, now, []).list == Kept(s.list, s.log, now)
    ensures s.log <= Tick(s, now, []).log
    ensures FiredSince(Tick(s, now, []).log, |s.log|) == Taken(s.list, s.log, now)
    decreases |s.list|
  {
    var k := FirstDue(s, now, 0);
    if k == |s.list| {
      forall i | 0 <= i < |s.list| ensures !DueAt(State([], s.log), s.list[i], now) {
        assert !DueAt(s, s.list[i], now);
      }
      NoneTaken(s.list, s.log, now);
    } else {
      forall i | 0 <= i < k ensures !DueAt(State([], s.log), s.list[i], now) { assert !DueAt(s, s.list[i], now); }
      FireWf(s, k, known);
      KeptAt(s.list, s.log, now, k);
      TickFires(s, now, []);
      QuietTick(Fire(s, k), now, known);
    }
  }
}
