/** Mbufs and the storage they point into: clusters may be shared, and carry a reference count. */
module MbufMem {
  import opened Basics

  type Id = nat
  type Sid = nat

  /** A data area: a cluster, or the room inside an mbuf. packet says that a cluster came with its mbuf
      (EXT_PACKET, as m_getcl gives it), and not by itself (EXT_CLUSTER). */
  datatype Store = Store(bytes: seq<byte>, refs: nat, ext: bool, packet: bool)

  /** One mbuf: its data are len bytes of its storage from off. */
  datatype Mbuf = Mbuf(store: Sid, off: nat, len: nat, next: Option<Id>, hdr: bool, rdonly: bool)

  datatype Mem = Mem(mbufs: map<Id, Mbuf>, stores: map<Sid, Store>)

  // ---- Well-formed memory ----

  ghost function Users(mbufs: map<Id, Mbuf>, s: Sid): set<Id> { set i | i in mbufs && mbufs[i].store == s }

  predicate FitsIn(b: Mbuf, stores: map<Sid, Store>) {
    b.store in stores && b.off + b.len <= |stores[b.store].bytes|
  }

  /** The count of a data area is the number of mbufs that use it. */
  ghost predicate Counted(mem: Mem, s: Sid)
    requires s in mem.stores
  {
    && mem.stores[s].refs == |Users(mem.mbufs, s)| > 0
    && (!mem.stores[s].ext ==> mem.stores[s].refs == 1)
  }

  ghost predicate Ok(mem: Mem) {
    && (forall i :: i in mem.mbufs ==> FitsIn(mem.mbufs[i], mem.stores))
    && (forall s :: s in mem.stores ==> Counted(mem, s))
  }

  function Slice(b: Mbuf, stores: map<Sid, Store>): seq<byte>
    requires FitsIn(b, stores)
  {
    stores[b.store].bytes[b.off..b.off + b.len]
  }

  /** The bytes of a live mbuf. */
  function Bytes(mem: Mem, i: Id): seq<byte> {
    if i in mem.mbufs && FitsIn(mem.mbufs[i], mem.stores) then Slice(mem.mbufs[i], mem.stores) else []
  }

  /** M_WRITABLE. */
  predicate Writable(mem: Mem, i: Id) {
    i in mem.mbufs && FitsIn(mem.mbufs[i], mem.stores)
    && !mem.mbufs[i].rdonly && mem.stores[mem.mbufs[i].store].refs == 1
  }

  /** M_TRAILINGSPACE. */
  function Trailing(mem: Mem, i: Id): nat {
    if Writable(mem, i)
    then |mem.stores[mem.mbufs[i].store].bytes| - mem.mbufs[i].off - mem.mbufs[i].len else 0
  }

  /** M_LEADINGSPACE. */
  function Leading(mem: Mem, i: Id): nat {
    if Writable(mem, i) then mem.mbufs[i].off else 0
  }

  function Len(mem: Mem, i: Id): nat { if i in mem.mbufs then mem.mbufs[i].len else 0 }

  /** Everyone outside c keeps mbuf and bytes. */
  ghost predicate Untouched(mem: Mem, mem': Mem, c: set<Id>) {
    forall i :: i in mem.mbufs && i !in c ==>
      i in mem'.mbufs && mem'.mbufs[i] == mem.mbufs[i] && Bytes(mem', i) == Bytes(mem, i)
  }

  lemma {:induction false} UntouchedFrom(mem: Mem, mem': Mem, c: set<Id>)
    requires Ok(mem)
    requires forall j :: j in mem.mbufs && j !in c ==> j in mem'.mbufs && mem'.mbufs[j] == mem.mbufs[j]
    requires forall s :: s in mem.stores ==> s in mem'.stores && mem'.stores[s].bytes == mem.stores[s].bytes
    ensures Untouched(mem, mem', c) && forall j :: j in mem.mbufs && j !in c ==> FitsIn(mem'.mbufs[j], mem'.stores)
  {
    hide Counted;
  }

  lemma {:induction false} UntouchedTrans(m0: Mem, m1: Mem, m2: Mem, c: set<Id>, d: set<Id>)
    requires Untouched(m0, m1, c) && Untouched(m1, m2, d)
    requires forall i :: i in d ==> i in c || i !in m0.mbufs
    ensures Untouched(m0, m2, c)
  {
  }

  // ---- Primitive changes ----

  function Overwrite(s: seq<byte>, at: nat, d: seq<byte>): (r: seq<byte>)
    requires at + |d| <= |s|
    ensures |r| == |s|
    ensures forall i :: 0 <= i < |s| ==> r[i] == if at <= i < at + |d| then d[i - at] else s[i]
  {
    s[..at] + d + s[at + |d|..]
  }

  /** Change an mbuf's header but not its storage. */
  function SetMbuf(mem: Mem, i: Id, b: Mbuf): Mem { mem.(mbufs := mem.mbufs[i := b]) }

  lemma {:induction false} SetMbufOk(mem: Mem, i: Id, b: Mbuf)
    requires Ok(mem) && i in mem.mbufs && b.store == mem.mbufs[i].store && FitsIn(b, mem.stores)
    ensures Ok(SetMbuf(mem, i, b)) && Untouched(mem, SetMbuf(mem, i, b), {i})
    ensures Bytes(SetMbuf(mem, i, b), i) == Slice(b, mem.stores)
  {
    var mem' := SetMbuf(mem, i, b);
    forall s | s in mem'.stores ensures Counted(mem', s) {
      assert Counted(mem, s);
      assert Users(mem'.mbufs, s) == Users(mem.mbufs, s);
    }
  }

  function SetNext(mem: Mem, i: Id, next: Option<Id>): Mem
    requires i in mem.mbufs
  {
    SetMbuf(mem, i, mem.mbufs[i].(next := next))
  }

  lemma {:induction false} SetNextOk(mem: Mem, i: Id, next: Option<Id>)
    requires Ok(mem) && i in mem.mbufs
    ensures Ok(SetNext(mem, i, next)) && Untouched(mem, SetNext(mem, i, next), {i})
    ensures Bytes(SetNext(mem, i, next), i) == Bytes(mem, i)
    ensures SetNext(mem, i, next).mbufs == mem.mbufs[i := mem.mbufs[i].(next := next)]
  {
    FitsOf(mem, i);
    hide Ok, Untouched;
    SetMbufOk(mem, i, mem.mbufs[i].(next := next));
  }

  /** Write d into the storage of i at position at. */
  function Poke(mem: Mem, i: Id, at: nat, d: seq<byte>): Mem
    requires i in mem.mbufs && mem.mbufs[i].store in mem.stores
    requires at + |d| <= |mem.stores[mem.mbufs[i].store].bytes|
  {
    var s := mem.mbufs[i].store;
    mem.(stores := mem.stores[s := mem.stores[s].(bytes := Overwrite(mem.stores[s].bytes, at, d))])
  }

  lemma {:induction false} OnlyUser(mem: Mem, i: Id, j: Id)
    requires Ok(mem) && i in mem.mbufs && j in mem.mbufs && mem.stores[mem.mbufs[i].store].refs == 1 && i != j
    ensures mem.mbufs[j].store != mem.mbufs[i].store
  {
    var s := mem.mbufs[i].store;
    assert Counted(mem, s);
    OneMember(Users(mem.mbufs, s), i);
    assert mem.mbufs[j].store == s ==> j in Users(mem.mbufs, s);
  }

  lemma {:induction false} OneMember(u: set<Id>, i: Id)
    requires |u| == 1 && i in u
    ensures u == {i}
  {
    assert |u - {i}| == 0;
  }

  /** A write through the only user of a data area is seen by nobody else. */
  lemma {:induction false} PokeOk(mem: Mem, i: Id, at: nat, d: seq<byte>)
    requires Ok(mem) && i in mem.mbufs && mem.stores[mem.mbufs[i].store].refs == 1
    requires at + |d| <= |mem.stores[mem.mbufs[i].store].bytes|
    ensures Ok(Poke(mem, i, at, d)) && Untouched(mem, Poke(mem, i, at, d), {i})
  {
    var mem' := Poke(mem, i, at, d);
    forall s | s in mem'.stores ensures Counted(mem', s) {
      assert Counted(mem, s);
    }
    forall j | j in mem.mbufs && j != i ensures Bytes(mem', j) == Bytes(mem, j) {
      OnlyUser(mem, i, j);
    }
  }

  /** Put d behind the data of i. */
  function Extend(mem: Mem, i: Id, d: seq<byte>): Mem
    requires i in mem.mbufs && FitsIn(mem.mbufs[i], mem.stores)
    requires mem.mbufs[i].off + mem.mbufs[i].len + |d| <= |mem.stores[mem.mbufs[i].store].bytes|
  {
    var b := mem.mbufs[i];
    SetMbuf(Poke(mem, i, b.off + b.len, d), i, b.(len := b.len + |d|))
  }

  lemma {:induction false} ExtendOk(mem: Mem, i: Id, d: seq<byte>)
    requires Ok(mem) && i in mem.mbufs && (|d| == 0 || mem.stores[mem.mbufs[i].store].refs == 1)
    requires mem.mbufs[i].off + mem.mbufs[i].len + |d| <= |mem.stores[mem.mbufs[i].store].bytes|
    ensures var mem' := Extend(mem, i, d);
            && Ok(mem') && Untouched(mem, mem', {i}) && i in mem'.mbufs
            && mem'.mbufs[i] == mem.mbufs[i].(len := mem.mbufs[i].len + |d|)
            && Bytes(mem', i) == Bytes(mem, i) + d
  {
    hide Ok, Untouched, Overwrite;
    FitsOf(mem, i);
    var b := mem.mbufs[i];
    var mem1 := Poke(mem, i, b.off + b.len, d);
    if |d| == 0 {
      PokeNothing(mem, i, b.off + b.len);
    } else {
      PokeOk(mem, i, b.off + b.len, d);
    }
    SetMbufOk(mem1, i, b.(len := b.len + |d|));
    UntouchedTrans(mem, mem1, Extend(mem, i, d), {i}, {i});
    WrittenBehind(mem.stores[b.store].bytes, b.off, b.len, d);
  }

  lemma {:induction false} FitsOf(mem: Mem, i: Id)
    requires Ok(mem) && i in mem.mbufs
    ensures FitsIn(mem.mbufs[i], mem.stores)
  {
  }

  lemma {:induction false} PokeNothing(mem: Mem, i: Id, at: nat)
    requires Ok(mem) && i in mem.mbufs && at <= |mem.stores[mem.mbufs[i].store].bytes|
    ensures Poke(mem, i, at, []) == mem && Untouched(mem, mem, {i})
  {
    var s := mem.mbufs[i].store;
    assert Overwrite(mem.stores[s].bytes, at, []) == mem.stores[s].bytes;
  }

  lemma {:induction false} WrittenBehind(s: seq<byte>, off: nat, len: nat, d: seq<byte>)
    requires off + len + |d| <= |s|
    ensures Overwrite(s, off + len, d)[off..off + len + |d|] == s[off..off + len] + d
  {
  }

  /** Release one mbuf, and its data area with the last user. */
  function FreeOne(mem: Mem, i: Id): Mem {
    if i !in mem.mbufs || mem.mbufs[i].store !in mem.stores then mem else
    var s := mem.mbufs[i].store;
    Mem(mem.mbufs - {i},
        if mem.stores[s].refs <= 1 then mem.stores - {s}
        else mem.stores[s := mem.stores[s].(refs := mem.stores[s].refs - 1)])
  }

  lemma {:induction false} FreeOneOk(mem: Mem, i: Id)
    requires Ok(mem) && i in mem.mbufs
    ensures Ok(FreeOne(mem, i)) && Untouched(mem, FreeOne(mem, i), {i})
    ensures FreeOne(mem, i).mbufs == mem.mbufs - {i}
  {
    var mem' := FreeOne(mem, i);
    var s0 := mem.mbufs[i].store;
    assert Counted(mem, s0);
    assert i in Users(mem.mbufs, s0);
    assert Users(mem'.mbufs, s0) == Users(mem.mbufs, s0) - {i};
    forall j | j in mem'.mbufs
      ensures FitsIn(mem'.mbufs[j], mem'.stores) && Bytes(mem', j) == Bytes(mem, j)
    {
      assert FitsIn(mem.mbufs[j], mem.stores);
      if mem.stores[s0].refs == 1 { OnlyUser(mem, i, j); }
    }
    forall s | s in mem'.stores ensures Counted(mem', s) {
      assert Counted(mem, s);
      if s != s0 { assert Users(mem'.mbufs, s) == Users(mem.mbufs, s); }
    }
  }

  /** A new mbuf with a data area of its own, empty, starting at off. */
  function NewMbuf(mem: Mem, i: Id, s: Sid, room: seq<byte>, ext: bool, off: nat, hdr: bool): Mem {
    Mem(mem.mbufs[i := Mbuf(s, off, 0, None, hdr, false)], mem.stores[s := Store(room, 1, ext, ext)])
  }

  lemma {:induction false} NewMbufOk(mem: Mem, i: Id, s: Sid, room: seq<byte>, ext: bool, off: nat, hdr: bool)
    requires Ok(mem) && i !in mem.mbufs && s !in mem.stores && off <= |room|
    ensures var mem' := NewMbuf(mem, i, s, room, ext, off, hdr);
            && Ok(mem') && Untouched(mem, mem', {}) && i in mem'.mbufs && Bytes(mem', i) == []
            && Writable(mem', i)
  {
    hide Ok, Counted, Untouched;
    var b, a := Mbuf(s, off, 0, None, hdr, false), Store(room, 1, ext, ext);
    var mem' := NewMbuf(mem, i, s, room, ext, off, hdr);
    UntouchedFrom(mem, mem', {});
    forall t | t in mem'.stores ensures Counted(mem', t) {
      NewCounted(mem, mem', i, s, t, b, a);
    }
    OkFrom(mem');
  }

  lemma {:induction false} OkFrom(mem: Mem)
    requires forall i :: i in mem.mbufs ==> FitsIn(mem.mbufs[i], mem.stores)
    requires forall s :: s in mem.stores ==> Counted(mem, s)
    ensures Ok(mem)
  {
  }

  lemma {:induction false} NewCounted(mem: Mem, mem': Mem, i: Id, s: Sid, t: Sid, b: Mbuf, a: Store)
    requires Ok(mem) && i !in mem.mbufs && s !in mem.stores && t in mem'.stores
    requires b.store == s && mem'.mbufs == mem.mbufs[i := b] && a.refs == 1 && mem'.stores == mem.stores[s := a]
    ensures Counted(mem', t)
  {
    if t == s {
      forall j | j in mem.mbufs ensures mem.mbufs[j].store != s { assert FitsIn(mem.mbufs[j], mem.stores); }
      assert Users(mem'.mbufs, s) == {i};
    } else {
      assert Counted(mem, t);
      assert Users(mem'.mbufs, t) == Users(mem.mbufs, t);
    }
  }

  /** A new mbuf on the cluster of m: what m_get and mb_dupcl make together. */
  function NewShared(mem: Mem, i: Id, m: Id, off: nat, len: nat, hdr: bool): Mem
    requires m in mem.mbufs && mem.mbufs[m].store in mem.stores
  {
    var s := mem.mbufs[m].store;
    Mem(mem.mbufs[i := Mbuf(s, off, len, None, hdr, mem.mbufs[m].rdonly)],
        mem.stores[s := mem.stores[s].(refs := mem.stores[s].refs + 1)])
  }

  lemma {:induction false} NewSharedOk(mem: Mem, i: Id, m: Id, off: nat, len: nat, hdr: bool)
    requires Ok(mem) && m in mem.mbufs && i !in mem.mbufs && mem.stores[mem.mbufs[m].store].ext
    requires off + len <= |mem.stores[mem.mbufs[m].store].bytes|
    ensures var mem' := NewShared(mem, i, m, off, len, hdr);
            && Ok(mem') && Untouched(mem, mem', {}) && i in mem'.mbufs && mem'.mbufs[i].next == None
            && Bytes(mem', i) == mem.stores[mem.mbufs[m].store].bytes[off..off + len]
  {
    hide Ok, Counted, Untouched;
    FitsOf(mem, m);
    SharedCounts(mem, i, m, off, len, hdr);
    UntouchedFrom(mem, NewShared(mem, i, m, off, len, hdr), {});
    OkFrom(NewShared(mem, i, m, off, len, hdr));
  }

  lemma {:induction false} SharedCounts(mem: Mem, i: Id, m: Id, off: nat, len: nat, hdr: bool)
    requires Ok(mem) && m in mem.mbufs && mem.mbufs[m].store in mem.stores && i !in mem.mbufs
    requires mem.stores[mem.mbufs[m].store].ext
    ensures forall u :: u in NewShared(mem, i, m, off, len, hdr).stores ==>
              Counted(NewShared(mem, i, m, off, len, hdr), u)
  {
    hide Ok, Counted;
    var mem' := NewShared(mem, i, m, off, len, hdr);
    var s := mem.mbufs[m].store;
    forall u | u in mem'.stores ensures Counted(mem', u) {
      SharedCounted(mem, mem', i, s, u, Mbuf(s, off, len, None, hdr, mem.mbufs[m].rdonly));
    }
  }

  lemma {:induction false} SharedCounted(mem: Mem, mem': Mem, i: Id, s: Sid, u: Sid, b: Mbuf)
    requires Ok(mem) && i !in mem.mbufs && s in mem.stores && u in mem.stores && b.store == s && mem.stores[s].ext
    requires mem'.mbufs == mem.mbufs[i := b] && u in mem'.stores
    requires mem'.stores[u].refs == mem.stores[u].refs + if u == s then 1 else 0
    requires mem'.stores[u].ext == mem.stores[u].ext
    ensures Counted(mem', u)
  {
    assert Counted(mem, u);
    if u == s {
      assert Users(mem'.mbufs, s) == Users(mem.mbufs, s) + {i};
    } else {
      assert Users(mem'.mbufs, u) == Users(mem.mbufs, u);
    }
  }
}
