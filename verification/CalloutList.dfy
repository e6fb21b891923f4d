/** The callout list: singly linked, and edited through the pointer that leads to a callout. */
module CalloutList {
  import opened Basics
  import opened CalloutModel

  class Callout {
    var time: int
    var pending: bool
    var active: bool
    var next: Callout?

    /** callout_init. */
    constructor ()
      ensures !pending && !active && next == null
    {
      time, pending, active, next := 0, false, false, null;
    }
  }

  ghost function At(c: seq<Callout>, i: nat): Callout? { if i < |c| then c[i] else null }

  ghost predicate Linked(c: seq<Callout>, first: Callout?)
    reads c`next
  {
    first == At(c, 0) && Distinct(c) && forall i {:trigger c[i].next} :: 0 <= i < |c| ==> c[i].next == At(c, i + 1)
  }

  /** The fields of the callouts say what stands in the history. */
  ghost predicate Marked(known: set<Callout>, log: seq<Event<Callout>>)
    reads known`pending, known`time
  {
    forall c :: c in known ==> Stands(log, c) == if c.pending then Some(c.time) else None
  }

  ghost predicate Idle(known: set<Callout>)
    reads known`pending, known`next
  {
    forall c :: c in known && !c.pending ==> c.next == null
  }

  class Wheel {
    var head: Callout?
    ghost var view: State<Callout>
    ghost var known: set<Callout>

    constructor ()
      ensures Valid() && view == State([], []) && known == {}
    {
      head, view, known := null, State([], []), {};
    }

    ghost predicate Valid()
      reads this, known, view.list
    {
      Wf(view, known) && Linked(view.list, head) && Marked(known, view.log) && Idle(known)
    }

    /** A callout that was just initialised. */
    ghost method Meet(c: Callout)
      requires Valid() && !c.pending && c.next == null && c !in known && Stands(view.log, c) == None
      modifies this`known
      ensures Valid() && known == old(known) + {c}
    {
      known := known + {c};
    }

    /** The walk both callers make: *pp := c->next for the pp that leads to c. */
    method Unlink(c: Callout)
      requires Linked(view.list, head) && c in view.list && (forall x :: x in view.list ==> x in known)
      modifies this`head, known`next
      ensures Linked(Without(view.list, c), head) && c.next == old(c.next)
      ensures forall x :: x in known && x !in view.list ==> x.next == old(x.next)
    {
      ghost var list := view.list;
      var prev: Callout? := null;
      var cur := head;
      ghost var k: nat := 0;
      while cur != null && cur != c
        invariant k < |list| && cur == list[k] && prev == (if k == 0 then null else list[k - 1]) && c in list[k..]
        decreases |list| - k
      {
        prev, cur := cur, cur.next;
        k := k + 1;
      }
      Bypass(prev, c, k);
    }

    /** *pp := c->next. */
    method Bypass(prev: Callout?, c: Callout, ghost k: nat)
      requires Linked(view.list, head) && (forall x :: x in view.list ==> x in known)
      requires k < |view.list| && view.list[k] == c && prev == (if k == 0 then null else view.list[k - 1])
      modifies this`head, known`next
      ensures Linked(Without(view.list, c), head) && c.next == old(c.next)
      ensures forall x :: x in known && x !in view.list ==> x.next == old(x.next)
    {
      ghost var list := view.list;
      WithoutAt(list, k);
      if prev == null { head := c.next; } else { prev.next := c.next; }
      Bridged(list, k, head);
    }

    /** callout_reset_sbt_on, with the time it arms for. */
    method Reset(c: Callout, sbt: int, absolute: bool, now: int)
      requires Valid() && c in known
      modifies this`head, this`view, known
      ensures Valid() && view == Do(old(view), Arm(c, if absolute then sbt else sbt + now))
    {
      var at := if absolute then sbt else sbt + now;
      if c.pending { Unlink(c); } else { WithoutAbsent(view.list, c); }
      Push(c, at);
    }

    /** A callout that the list no longer leads to goes to its front, pending. */
    method Push(c: Callout, at: int)
      requires Wf(view, known) && Marked(known, view.log) && Idle(known - {c}) && Linked(Without(view.list, c), head)
      requires c in known
      modifies c, this`head, this`view
      ensures Valid() && view == Do(old(view), Arm(c, at))
    {
      ghost var s := view;
      DoWf(s, Arm(c, at), known);
      WithoutIs(s.list, c);
      hide Wf, Without, Stands;
      c.time, c.pending, c.active := at, true, true;
      c.next := head;
      head := c;
      view := Do(s, Arm(c, at));
      Restood(known, s.log, Armed(c, at));
    }

    /** _callout_stop_safe. */
    method Cancel(c: Callout) returns (was: bool)
      requires Valid() && c in known
      modifies this`head, this`view, known
      ensures Valid() && view == Do(old(view), Stop(c)) && was == Stands(old(view).log, c).Some?
    {
      ghost var s := view;
      was := c.pending;
      if was {
        Unlink(c);
        Clear(c, Stopped(c));
      }
    }

    /** A callout that the list no longer leads to stops being pending. */
    method Clear(c: Callout, ghost e: Event<Callout>)
      requires Wf(view, known) && Marked(known, view.log) && Idle(known - {c}) && Linked(Without(view.list, c), head)
      requires c in known && c.pending && e.c == c && !e.Armed? && (e.Fired? ==> e.at == c.time)
      modifies c, this`view
      ensures Valid() && view == State(Without(old(view).list, c), old(view).log + [e])
    {
      GoneWf(view, e, known);
      WithoutIs(view.list, c);
      hide Wf, Without, Stands;
      c.next := null;
      c.pending := false;
      view := State(Without(view.list, c), view.log + [e]);
      Restood(known, old(view).log, e);
    }

    /** A callback that edits callouts. */
    method Callback(acts: seq<Action<Callout>>)
      requires Valid() && Speaks(acts, known)
      modifies this`head, this`view, known
      ensures Valid() && view == Run(old(view), acts)
    {
      hide Valid, Do;
      var i: nat := 0;
      while i < |acts|
        invariant i <= |acts| && Valid() && known == old(known) && Run(view, acts[i..]) == Run(old(view), acts)
        decreases |acts| - i
      {
        match acts[i] {
          case Arm(c, at) => Reset(c, at, true, 0);
          case Stop(c) => var was := Cancel(c);
        }
        i := i + 1;
      }
    }

    /** An expired callout leaves the list: *pp := c->next. */
    method TakeOut(prev: Callout?, c: Callout, ghost k: nat)
      requires Valid() && k < |view.list| && view.list[k] == c && prev == (if k == 0 then null else view.list[k - 1])
      modifies this`head, this`view, known
      ensures Valid() && Stands(old(view).log, c).Some? && view == Fire(old(view), k)
    {
      FireWf(view, k, known);
      assert c in view.list;
      Bypass(prev, c, k);
      Clear(c, Fired(c, c.time));
      c.active := true;
    }

    /** The callout that the scan has reached is due: it fires. */
    method FireOne(prev: Callout?, c: Callout, now: int, script: Script<Callout>, ghost k: nat)
      requires Valid() && SpeaksAll(script, known) && k < |view.list| && view.list[k] == c
      requires prev == (if k == 0 then null else view.list[k - 1]) && FirstDue(view, now, 0) == k
      modifies this`head, this`view, known
      ensures Valid() && (script == [] ==> |view.list| < |old(view).list|)
      ensures Tick(view, now, if script == [] then [] else script[1..]) == Tick(old(view), now, script)
    {
      hide Valid, Run, FirstDue;
      TakeOut(prev, c, k);
      if script != [] {
        assert Speaks(script[0], known);
        Callback(script[0]);
      }
    }

    lemma {:induction false} Reached(k: nat, now: int)
      requires Valid() && k < |view.list|
      ensures view.list[k].next == At(view.list, k + 1) && DueAt(view, view.list[k], now) == (view.list[k].time <= now)
    {
      assert view.list[k] in view.list;
    }

    /** callout_process: after each callback the scan starts again at the head. */
    method Process(now: int, script: Script<Callout>)
      requires Valid() && SpeaksAll(script, known)
      modifies this`head, this`view, known
      ensures Valid() && view == Tick(old(view), now, script)
      ensures forall c :: c in known && c.pending ==> c.time > now
    {
      hide Valid, Tick, FirstDue, Run;
      var prev: Callout? := null;
      var cur, n: nat := head, 0;
      ghost var k: nat := 0;
      HeadIs();
      while cur != null
        invariant Valid() && k <= |view.list| && cur == At(view.list, k)
        invariant prev == (if k == 0 then null else view.list[k - 1])
        invariant NoneDue(view, k, now)
        invariant n <= |script| && Tick(view, now, script[n..]) == Tick(old(view), now, script)
        decreases |script| - n, |view.list|, |view.list| - k
      {
        Reached(k, now);
        if cur.time <= now {
          TickHere(view, now, k);
          FireOne(prev, cur, now, script[n..], k);
          n := if n < |script| then n + 1 else n;
          HeadIs();
          prev, cur, k := null, head, 0;
        } else {
          prev, cur, k := cur, cur.next, k + 1;
        }
      }
      TickHere(view, now, k);
      Over(now, script[n..]);
    }

    lemma {:induction false} HeadIs()
      requires Valid()
      ensures head == At(view.list, 0)
    {
    }

    lemma {:induction false} Over(now: int, script: Script<Callout>)
      requires Valid() && FirstDue(view, now, 0) == |view.list|
      ensures Tick(view, now, script) == view && forall c :: c in known && c.pending ==> c.time > now
    {
      forall c | c in known && c.pending ensures c.time > now {
        assert c in view.list;
        assert !DueAt(view, c, now);
      }
    }
  }

  ghost predicate NoneDue(s: State<Callout>, k: nat, now: int)
    requires k <= |s.list|
  {
    forall i :: 0 <= i < k ==> !DueAt(s, s.list[i], now)
  }

  /** The list with its k-th callout bridged. */
  lemma {:induction false} Bridged(list: seq<Callout>, k: nat, first: Callout?)
    requires k < |list| && Distinct(list) && first == if k == 0 then At(list, 1) else list[0]
    requires forall i {:trigger list[i].next} :: 0 <= i < |list| && i != k - 1 && i != k ==>
               list[i].next == At(list, i + 1)
    requires k > 0 ==> list[k - 1].next == At(list, k + 1)
    ensures Linked(list[..k] + list[k + 1..], first)
  {
    var d := list[..k] + list[k + 1..];
    forall i | 0 <= i < |d| ensures d[i].next == At(d, i + 1) {
      if i < k { assert d[i] == list[i]; } else { assert d[i] == list[i + 1]; }
    }
  }

  lemma {:induction false} TickHere(s: State<Callout>, now: int, k: nat)
    requires k <= |s.list| && NoneDue(s, k, now)
    requires k == |s.list| || DueAt(s, s.list[k], now)
    ensures FirstDue(s, now, 0) == k
  {
    var f := FirstDue(s, now, 0);
    assert f < |s.list| ==> DueAt(s, s.list[f], now);
  }

  /** One more event; only its callout's fields changed. */
  lemma {:induction false} Restood(known: set<Callout>, log: seq<Event<Callout>>, e: Event<Callout>)
    requires forall x :: x in known && x != e.c ==> Stands(log, x) == if x.pending then Some(x.time) else None
    requires e.c.pending == e.Armed? && (e.Armed? ==> e.c.time == e.at)
    ensures Marked(known, log + [e])
  {
    forall c | c in known ensures Stands(log + [e], c) == if c.pending then Some(c.time) else None {
      StandsAfter(log, e, c);
    }
  }
}
