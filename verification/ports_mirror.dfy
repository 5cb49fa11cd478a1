/** guests/lib's in-memory bus beside the kernel's port table: what the two have in common,
    and the operations that tell them apart. */
module PortsMirror {
  import opened Options
  import opened Words
  import opened PortRing
  import opened Ports

  // ---- one queue ----

  function BusSend(queue: seq<seq<Byte>>, data: seq<Byte>): (Status, seq<seq<Byte>>) {
    if |data| == 0 || |data| > MAX_MESSAGE then (Err, queue)
    else if |queue| >= 32 then (WouldBlock, queue)
    else (Ok, queue + [data])
  }

  /** The datagram taken, cut to the buffer, and what stays. */
  function BusRecv(queue: seq<seq<Byte>>, cap: nat): (seq<Byte>, seq<seq<Byte>>)
    requires cap > 0
  {
    if queue == [] then ([], queue)
    else (Cut(queue[0], cap), queue[1..])
  }

  ghost function Payloads(q: seq<Msg>): seq<seq<Byte>> {
    seq(|q|, i requires 0 <= i < |q| => q[i].data)
  }

  /** guests/lib's in-memory kernel: one queue per name, handles are aliases of names. */
  class Bus {
    var queues: map<seq<Byte>, seq<seq<Byte>>>
    var handles: map<nat, seq<Byte>>
    var nextHandle: nat

    ghost predicate Valid()
      reads this
    {
      && (forall h :: h in handles ==> handles[h] in queues && h < nextHandle)
      && forall n :: n in queues ==> |queues[n]| <= 32
    }

    constructor ()
      ensures Valid() && queues == map[] && handles == map[]
    {
      queues := map[];
      handles := map[];
      nextHandle := 0;
    }

    method Create(name: seq<Byte>) returns (h: Option<nat>)
      requires Valid()
      modifies this
      ensures Valid()
      ensures h.Some? <==> 0 < |name| <= MAX_NAME && name !in old(queues)
      ensures h.Some? ==> queues == old(queues)[name := []] && h.value !in old(handles) && handles == old(handles)[h.value := name]
      ensures h.None? ==> queues == old(queues) && handles == old(handles)
    {
      if !(0 < |name| <= MAX_NAME) || name in queues {
        return None;
      }
      queues := queues[name := []];
      handles := handles[nextHandle := name];
      h := Some(nextHandle);
      nextHandle := nextHandle + 1;
    }

    method Bind(name: seq<Byte>) returns (h: Option<nat>)
      requires Valid()
      modifies this
      ensures Valid() && queues == old(queues)
      ensures h.Some? <==> 0 < |name| <= MAX_NAME && name in queues
      ensures h.Some? ==> h.value !in old(handles) && handles == old(handles)[h.value := name]
      ensures h.None? ==> handles == old(handles)
    {
      if !(0 < |name| <= MAX_NAME) || name !in queues {
        return None;
      }
      handles := handles[nextHandle := name];
      h := Some(nextHandle);
      nextHandle := nextHandle + 1;
    }

    method Send(h: nat, data: seq<Byte>) returns (status: Status)
      requires Valid()
      modifies this
      ensures Valid() && handles == old(handles)
      ensures if h !in handles then status.Err? && queues == old(queues)
              else
                var r := BusSend(old(queues)[handles[h]], data);
                status == r.0 && queues == old(queues)[handles[h] := r.1]
    {
      if h !in handles || |data| == 0 || |data| > MAX_MESSAGE {
        return Err;
      }
      var name := handles[h];
      if |queues[name]| >= 32 {
        return WouldBlock;
      }
      queues := queues[name := queues[name] + [data]];
      return Ok;
    }

    /** An empty buffer is an error here; the kernel's ring drops the datagram instead. */
    method Recv(h: nat, cap: nat) returns (out: Option<seq<Byte>>)
      requires Valid()
      modifies this
      ensures Valid() && handles == old(handles)
      ensures if h !in handles || cap == 0 then out.None? && queues == old(queues)
              else
                var r := BusRecv(old(queues)[handles[h]], cap);
                out == Some(r.0) && queues == old(queues)[handles[h] := r.1]
    {
      if h !in handles || cap == 0 {
        return None;
      }
      var name := handles[h];
      var q := queues[name];
      if |q| == 0 {
        return Some([]);
      }
      queues := queues[name := q[1..]];
      return Some(Cut(q[0], cap));
    }
  }

  // ---- the relation ----

  /** A name that reads as it was given. */
  predicate Plain(name: seq<Byte>) { 0 < |name| <= MAX_NAME && 0 !in name }

  /** A session's port is a queue of the bus with the same datagrams. */
  ghost predicate Shown(ports: seq<Port>, queues: map<seq<Byte>, seq<seq<Byte>>>, p: nat)
    requires p < |ports|
  {
    ports[p].used ==>
      && Plain(ports[p].name)
      && (!ports[p].kernel ==> ports[p].name in queues && queues[ports[p].name] == Payloads(QueueOf(ports[p])))
  }

  predicate Owned(ports: seq<Port>, name: seq<Byte>) {
    exists p :: 0 <= p < |ports| && ports[p].used && !ports[p].kernel && ports[p].name == name
  }

  /** A session's handle stands for the same name on both sides. */
  predicate Held(ports: seq<Port>, htab: seq<seq<int>>, handles: map<nat, seq<Byte>>, alias: map<(nat, nat), nat>, s: nat, h: nat)
    requires |ports| == MAX_PORTS && s < |htab| && h < |htab[s]|
  {
    var g := htab[s][h];
    && (g >= 0 ==> s != 0 && g < MAX_PORTS && ports[g].used)
    && ((s, h) in alias <==> 0 <= g < MAX_PORTS && !ports[g].kernel)
    && ((s, h) in alias ==> alias[(s, h)] in handles && handles[alias[(s, h)]] == ports[g].name)
  }

  ghost predicate Related(ports: seq<Port>, htab: seq<seq<int>>, queues: map<seq<Byte>, seq<seq<Byte>>>,
                    handles: map<nat, seq<Byte>>, alias: map<(nat, nat), nat>)
  {
    && |ports| == MAX_PORTS && |htab| == MAX_SESSIONS && Unique(ports)
    && (forall s {:trigger htab[s]} :: 0 <= s < |htab| ==> |htab[s]| == HANDLES)
    && (forall p {:trigger Shown(ports, queues, p)} :: 0 <= p < MAX_PORTS ==> Shown(ports, queues, p))
    && (forall n {:trigger Owned(ports, n)} :: n in queues ==> Owned(ports, n))
    && (forall s, h {:trigger Held(ports, htab, handles, alias, s, h)} ::
          0 <= s < MAX_SESSIONS && 0 <= h < HANDLES ==> Held(ports, htab, handles, alias, s, h))
    && (forall k {:trigger k in alias} :: k in alias ==> k.0 < MAX_SESSIONS && k.1 < HANDLES)
  }

  // ---- what the steps keep ----

  lemma {:induction false} QueueIsKnown(ports: seq<Port>, queues: map<seq<Byte>, seq<seq<Byte>>>, name: seq<Byte>)
    requires |ports| == MAX_PORTS && name in queues && Owned(ports, name)
    requires forall p {:trigger Shown(ports, queues, p)} :: 0 <= p < MAX_PORTS ==> Shown(ports, queues, p)
    ensures Known(ports, name) && Plain(name)
  {
    var p :| 0 <= p < |ports| && ports[p].used && !ports[p].kernel && ports[p].name == name;
    assert Shown(ports, queues, p);
    CStringPlain(name);
    assert Named(ports, p, name);
  }

  /** The port that a plain name belongs to has that name. */
  lemma {:induction false} NamedIsName(ports: seq<Port>, queues: map<seq<Byte>, seq<seq<Byte>>>, p: nat, name: seq<Byte>)
    requires p < |ports| && Shown(ports, queues, p) && Named(ports, p, name)
    ensures ports[p].name == name
  {
    CStringPlain(ports[p].name);
  }

  /** Vacant ports do not matter. */
  lemma {:induction false} VacantRelated(ports: seq<Port>, ports1: seq<Port>, htab: seq<seq<int>>, queues: map<seq<Byte>, seq<seq<Byte>>>,
                           handles: map<nat, seq<Byte>>, alias: map<(nat, nat), nat>)
    requires Related(ports, htab, queues, handles, alias) && |ports1| == MAX_PORTS
    requires forall p :: 0 <= p < MAX_PORTS ==> ports1[p] == ports[p] || (!ports1[p].used && !ports[p].used)
    ensures Related(ports1, htab, queues, handles, alias)
  {
    forall p | 0 <= p < MAX_PORTS ensures Shown(ports1, queues, p) { assert Shown(ports, queues, p); }
    forall n | n in queues ensures Owned(ports1, n) {
      assert Owned(ports, n);
      var p :| 0 <= p < |ports| && ports[p].used && !ports[p].kernel && ports[p].name == n;
      assert ports1[p].used;
    }
    forall s, h | 0 <= s < MAX_SESSIONS && 0 <= h < HANDLES ensures Held(ports1, htab, handles, alias, s, h) {
      assert Held(ports, htab, handles, alias, s, h);
    }
  }

  lemma {:induction false} CreateRelated(ports: seq<Port>, htab: seq<seq<int>>, queues: map<seq<Byte>, seq<seq<Byte>>>,
                           handles: map<nat, seq<Byte>>, alias: map<(nat, nat), nat>,
                           p: nat, sid: nat, h: nat, b: nat, name: seq<Byte>)
    requires Related(ports, htab, queues, handles, alias) && Plain(name) && name !in queues && b !in handles
    requires p < MAX_PORTS && !ports[p].used && 0 < sid < MAX_SESSIONS && h < HANDLES && htab[sid][h] < 0
    requires Unique(ports[p := Port(true, false, sid, name, Empty())])
    ensures Related(ports[p := Port(true, false, sid, name, Empty())], htab[sid := htab[sid][h := p]],
                    queues[name := []], handles[b := name], alias[(sid, h) := b])
  {
    var ports1, htab1, queues1 := ports[p := Port(true, false, sid, name, Empty())], htab[sid := htab[sid][h := p]], queues[name := []];
    EmptyIsEmpty();
    forall q | 0 <= q < MAX_PORTS ensures Shown(ports1, queues1, q) { assert Shown(ports, queues, q); }
    forall n | n in queues1 ensures Owned(ports1, n) {
      if n == name {
        assert ports1[p].used;
      } else {
        assert Owned(ports, n);
        var q :| 0 <= q < |ports| && ports[q].used && !ports[q].kernel && ports[q].name == n;
        assert ports1[q].used;
      }
    }
    HandleRelated(ports, ports1, htab, handles, alias, p, sid, h, b, name);
  }

  /** One more handle, to a session's port. */
  lemma {:induction false} HandleRelated(ports: seq<Port>, ports1: seq<Port>, htab: seq<seq<int>>, handles: map<nat, seq<Byte>>, alias: map<(nat, nat), nat>,
                           p: nat, sid: nat, h: nat, b: nat, name: seq<Byte>)
    requires |ports| == |ports1| == MAX_PORTS && |htab| == MAX_SESSIONS && b !in handles
    requires forall s {:trigger htab[s]} :: 0 <= s < |htab| ==> |htab[s]| == HANDLES
    requires forall s, h {:trigger Held(ports, htab, handles, alias, s, h)} ::
      0 <= s < MAX_SESSIONS && 0 <= h < HANDLES ==> Held(ports, htab, handles, alias, s, h)
    requires forall q :: 0 <= q < MAX_PORTS && ports[q].used ==> ports1[q] == ports[q]
    requires p < MAX_PORTS && ports1[p].used && !ports1[p].kernel && ports1[p].name == name
    requires 0 < sid < MAX_SESSIONS && h < HANDLES
    ensures var htab1 := htab[sid := htab[sid][h := p]];
      forall s, k {:trigger Held(ports1, htab1, handles[b := name], alias[(sid, h) := b], s, k)} ::
        0 <= s < MAX_SESSIONS && 0 <= k < HANDLES ==> Held(ports1, htab1, handles[b := name], alias[(sid, h) := b], s, k)
  {
    var htab1, handles1, alias1 := htab[sid := htab[sid][h := p]], handles[b := name], alias[(sid, h) := b];
    forall s, k | 0 <= s < MAX_SESSIONS && 0 <= k < HANDLES ensures Held(ports1, htab1, handles1, alias1, s, k) {
      assert Held(ports, htab, handles, alias, s, k);
    }
  }

  lemma {:induction false} BindRelated(ports: seq<Port>, htab: seq<seq<int>>, queues: map<seq<Byte>, seq<seq<Byte>>>,
                         handles: map<nat, seq<Byte>>, alias: map<(nat, nat), nat>,
                         p: nat, sid: nat, h: nat, b: nat, name: seq<Byte>)
    requires Related(ports, htab, queues, handles, alias) && b !in handles
    requires p < MAX_PORTS && ports[p].used && !ports[p].kernel && ports[p].name == name
    requires 0 < sid < MAX_SESSIONS && h < HANDLES
    ensures Related(ports, htab[sid := htab[sid][h := p]], queues, handles[b := name], alias[(sid, h) := b])
  {
    HandleRelated(ports, ports, htab, handles, alias, p, sid, h, b, name);
  }

  /** One port's queue changes on both sides. */
  lemma {:induction false} QueueRelated(ports: seq<Port>, htab: seq<seq<int>>, queues: map<seq<Byte>, seq<seq<Byte>>>,
                          handles: map<nat, seq<Byte>>, alias: map<(nat, nat), nat>, p: nat, ring: Ring)
    requires Related(ports, htab, queues, handles, alias) && p < MAX_PORTS && ports[p].used && !ports[p].kernel
    ensures var port := ports[p].(ring := ring);
      Related(ports[p := port], htab, queues[port.name := Payloads(QueueOf(port))], handles, alias)
  {
    var port := ports[p].(ring := ring);
    var ports1, queues1 := ports[p := port], queues[port.name := Payloads(QueueOf(port))];
    assert Shown(ports, queues, p);
    forall q | 0 <= q < MAX_PORTS ensures Shown(ports1, queues1, q) {
      assert Shown(ports, queues, q);
      if q != p && ports[q].used { SameName(ports, p, q); }
    }
    forall n | n in queues1 ensures Owned(ports1, n) {
      if n == port.name {
        assert ports1[p].used;
      } else {
        assert Owned(ports, n);
        var q :| 0 <= q < |ports| && ports[q].used && !ports[q].kernel && ports[q].name == n;
        assert ports1[q].used;
      }
    }
    forall s, h | 0 <= s < MAX_SESSIONS && 0 <= h < HANDLES ensures Held(ports1, htab, handles, alias, s, h) {
      assert Held(ports, htab, handles, alias, s, h);
    }
  }

  lemma {:induction false} SameName(ports: seq<Port>, p: nat, q: nat)
    requires Unique(ports) && p < |ports| && q < |ports| && ports[p].used && ports[q].used
    ensures p != q ==> ports[p].name != ports[q].name
  {
    assert p < q ==> CString(ports[p].name) != CString(ports[q].name);
    assert q < p ==> CString(ports[q].name) != CString(ports[p].name);
  }

  lemma {:induction false} SentPayloads(before: seq<Msg>, m: Msg)
    ensures Payloads(before + [m]) == Payloads(before) + [m.data]
  {
  }

  lemma {:induction false} TakenPayloads(before: seq<Msg>, after: seq<Msg>)
    requires before != [] && before == [before[0]] + after
    ensures Payloads(before)[0] == before[0].data && Payloads(before)[1..] == Payloads(after)
  {
  }

  /** A name that the bus knows is a session's port. */
  lemma {:induction false} NamedPort(ports: seq<Port>, queues: map<seq<Byte>, seq<seq<Byte>>>, p: nat, name: seq<Byte>)
    requires |ports| == MAX_PORTS && Unique(ports) && Owned(ports, name) && FirstNamed(ports, p, name)
    requires forall q {:trigger Shown(ports, queues, q)} :: 0 <= q < MAX_PORTS ==> Shown(ports, queues, q)
    ensures ports[p].used && !ports[p].kernel && ports[p].name == name
  {
    assert Shown(ports, queues, p);
    NamedIsName(ports, queues, p, name);
    var q: nat :| q < |ports| && ports[q].used && !ports[q].kernel && ports[q].name == name;
    SameName(ports, p, q);
  }

  // ---- both side by side ----

  datatype Op =
    | Create(sid: nat, name: seq<Byte>, alive: bool)
    | Bind(sid: nat, name: seq<Byte>, alive: bool)
    | Send(sid: nat, h: int, data: seq<Byte>, uid: nat, awaited: bool, granted: bool)
    | Recv(sid: nat, h: int, cap: nat)

  /** Handles are numbered differently on the two sides: what counts is whether one was given. */
  datatype Answer = Given(ok: bool) | Sent(status: Status) | Received(data: Option<seq<Byte>>)

  /** The kernel's table and the bus, given the same operations and the same bytes. The bus knows
      neither sessions nor uids. */
  class Mirror {
    const table: Table
    const bus: Bus
    /** The bus handle of a session's handle. */
    var alias: map<(nat, nat), nat>

    ghost predicate Agree()
      reads this, table, bus
    {
      table.Valid() && bus.Valid() && Related(table.ports, table.htab, bus.queues, bus.handles, alias)
    }

    constructor ()
      ensures Agree() && fresh(table) && fresh(bus)
    {
      table := new Table();
      bus := new Bus();
      alias := map[];
      new;
      forall p | 0 <= p < MAX_PORTS ensures Shown(table.ports, bus.queues, p) {}
    }

    predicate CreateShared(sid: nat, name: seq<Byte>, alive: bool)
      requires |table.htab| == MAX_SESSIONS && (alive ==> sid < MAX_SESSIONS)
      reads this, table, bus
    {
      0 < |name| <= MAX_NAME && name !in bus.queues ==>
        && alive && sid != 0 && 0 !in name && !Known(table.ports, name)
        && Vacant(table.ports) && Spare(table.htab[sid])
    }

    method Create(sid: nat, name: seq<Byte>, alive: bool) returns (a: Answer, b: Answer)
      requires Agree() && (alive ==> sid < MAX_SESSIONS)
      modifies this, table, bus
      ensures a == b && Agree() <==> old(CreateShared(sid, name, alive))
    {
      ghost var ports, htab, queues, handles := table.ports, table.htab, bus.queues, bus.handles;
      if name in queues { QueueIsKnown(ports, queues, name); }
      var h := table.Create(sid, name, alive);
      var k := bus.Create(name);
      a, b := Given(h.Some?), Given(k.Some?);
      if h.Some? && k.Some? {
        ghost var p: nat :| FirstVacant(ports, p) && table.htab == htab[sid := htab[sid][h.value := p]]
          && table.ports == ports[p := Port(true, false, sid, name, Empty())];
        if 0 !in name {
          CreateRelated(ports, htab, queues, handles, alias, p, sid, h.value, k.value, name);
        } else {
          assert !Shown(table.ports, bus.queues, p);
        }
        alias := alias[(sid, h.value) := k.value];
      } else if h.None? && k.None? {
        VacantRelated(ports, table.ports, htab, queues, handles, alias);
      }
    }

    predicate BindShared(sid: nat, name: seq<Byte>, alive: bool)
      requires |table.htab| == MAX_SESSIONS && (alive ==> sid < MAX_SESSIONS)
      reads this, table, bus
    {
      Known(table.ports, name) ==>
        (alive && sid != 0 && Spare(table.htab[sid]) <==> name in bus.queues)
    }

    method Bind(sid: nat, name: seq<Byte>, alive: bool) returns (a: Answer, b: Answer)
      requires Agree() && (alive ==> sid < MAX_SESSIONS)
      modifies this, table, bus
      ensures a == b && Agree() <==> old(BindShared(sid, name, alive))
    {
      ghost var ports, htab, queues, handles := table.ports, table.htab, bus.queues, bus.handles;
      if name in queues { QueueIsKnown(ports, queues, name); }
      var h := table.Bind(sid, name, alive);
      var k := bus.Bind(name);
      a, b := Given(h.Some?), Given(k.Some?);
      if h.Some? && k.Some? {
        ghost var p: nat :| FirstNamed(ports, p, name) && table.htab == htab[sid := htab[sid][h.value := p]];
        NamedPort(ports, queues, p, name);
        BindRelated(ports, htab, queues, handles, alias, p, sid, h.value, k.value, name);
        alias := alias[(sid, h.value) := k.value];
      }
    }

    /** The bus handle of a session's handle, or one that the bus never gave. */
    function BusHandle(sid: nat, h: int): nat
      reads this, bus
    {
      if h >= 0 && (sid, h as nat) in alias then alias[(sid, h as nat)] else bus.nextHandle
    }

    /** The session's handle is to a session's port. */
    predicate Aliased(sid: nat, h: int)
      reads this
    {
      h >= 0 && (sid, h as nat) in alias
    }

    predicate Unheld(sid: nat, h: int)
      requires |table.htab| == MAX_SESSIONS && (sid < |table.htab| ==> |table.htab[sid]| == HANDLES)
      reads this, table
    {
      table.PortOf(sid, h).None?
    }

    predicate SendShared(sid: nat, h: int, data: seq<Byte>, uid: nat, awaited: bool, granted: bool)
      requires |table.htab| == MAX_SESSIONS && (sid < |table.htab| ==> |table.htab[sid]| == HANDLES)
      reads this, table, bus
    {
      0 < |data| <= MAX_MESSAGE ==>
        if Aliased(sid, h) then
          !awaited && ((granted && CarriesUid(data, sid, uid)) || (BusHandle(sid, h) in bus.handles && bus.handles[BusHandle(sid, h)] in bus.queues
            && |bus.queues[bus.handles[BusHandle(sid, h)]]| >= 32))
        else Unheld(sid, h)
    }

    /** What the relation says of one handle. */
    lemma {:induction false} HandleIs(sid: nat, h: int)
      requires Agree()
      ensures Aliased(sid, h) ==>
        && table.PortOf(sid, h).Some? && BusHandle(sid, h) in bus.handles
        && var p := table.PortOf(sid, h).value;
        && p < MAX_PORTS && table.ports[p].used && !table.ports[p].kernel && bus.handles[BusHandle(sid, h)] == table.ports[p].name
        && table.ports[p].name in bus.queues && bus.queues[table.ports[p].name] == Payloads(QueueOf(table.ports[p]))
      ensures !Aliased(sid, h) ==>
        && BusHandle(sid, h) !in bus.handles
        && (table.PortOf(sid, h).Some? ==> sid != 0 && table.ports[table.PortOf(sid, h).value].kernel)
    {
      if sid < MAX_SESSIONS && 0 <= h < HANDLES {
        assert Held(table.ports, table.htab, bus.handles, alias, sid, h);
        var p := table.PortOf(sid, h);
        if p.Some? { assert Shown(table.ports, bus.queues, p.value); }
      }
    }

    method Send(sid: nat, h: int, data: seq<Byte>, uid: nat, awaited: bool, granted: bool) returns (a: Answer, b: Answer)
      requires Agree()
      modifies this, table, bus
      ensures a == b && Agree() <==> old(SendShared(sid, h, data, uid, awaited, granted))
    {
      ghost var ports, htab, queues, handles := table.ports, table.htab, bus.queues, bus.handles;
      HandleIs(sid, h);
      ghost var stamped := Delivered(false, false, data, sid, uid);
      StampKeeps(data, sid, uid);
      var x := table.Send(sid, h, data, uid, awaited, granted);
      var y := bus.Send(BusHandle(sid, h), data);
      a, b := Sent(x), Sent(y);
      if Aliased(sid, h) && 0 < |data| <= MAX_MESSAGE {
        ghost var p := table.PortOf(sid, h).value;
        ghost var before := QueueOf(ports[p]);
        SentPayloads(before, Msg(sid, stamped));
        assert |Payloads(before)| == |before|;
        if |before| >= 32 {
          assert bus.queues == queues;
        } else if awaited {
          assert !Shown(table.ports, bus.queues, p);
        } else if granted && stamped != data {
          assert Payloads(before + [Msg(sid, stamped)])[|before|] != bus.queues[ports[p].name][|before|];
          assert !Shown(table.ports, bus.queues, p);
        } else if granted {
          assert table.ports == ports[p := ports[p].(ring := table.ports[p].ring)];
          QueueRelated(ports, htab, queues, handles, alias, p, table.ports[p].ring);
        }
      } else {
        assert bus.queues == queues;
      }
    }

    predicate RecvShared(sid: nat, h: int, cap: nat)
      requires |table.htab| == MAX_SESSIONS && (sid < |table.htab| ==> |table.htab[sid]| == HANDLES)
      reads this, table, bus
    {
      if Aliased(sid, h) then cap > 0 else Unheld(sid, h)
    }

    method Recv(sid: nat, h: int, cap: nat) returns (a: Answer, b: Answer)
      requires Agree()
      modifies this, table, bus
      ensures a == b && Agree() <==> old(RecvShared(sid, h, cap))
    {
      ghost var ports, htab, queues, handles := table.ports, table.htab, bus.queues, bus.handles;
      HandleIs(sid, h);
      var x := table.Recv(sid, h, cap);
      var y := bus.Recv(BusHandle(sid, h), cap);
      a, b := Received(x), Received(y);
      if Aliased(sid, h) && cap > 0 {
        ghost var p := table.PortOf(sid, h).value;
        ghost var before := QueueOf(ports[p]);
        if before != [] { TakenPayloads(before, QueueOf(table.ports[p])); }
        assert table.ports == ports[p := ports[p].(ring := table.ports[p].ring)];
        assert bus.queues == queues[ports[p].name := Payloads(QueueOf(table.ports[p]))];
        QueueRelated(ports, htab, queues, handles, alias, p, table.ports[p].ring);
      }
    }

    /** An operation that a session can ask for, as the kernel calls are made. */
    predicate Askable(op: Op) {
      (op.Create? || op.Bind?) && op.alive ==> op.sid < MAX_SESSIONS
    }

    /** Table and bus cannot be told apart by this operation. */
    predicate Shared(op: Op)
      requires Askable(op) && |table.htab| == MAX_SESSIONS
      requires forall s {:trigger table.htab[s]} :: 0 <= s < |table.htab| ==> |table.htab[s]| == HANDLES
      reads this, table, bus
    {
      match op
      case Create(sid, name, alive) => CreateShared(sid, name, alive)
      case Bind(sid, name, alive) => BindShared(sid, name, alive)
      case Send(sid, h, data, uid, awaited, granted) => SendShared(sid, h, data, uid, awaited, granted)
      case Recv(sid, h, cap) => RecvShared(sid, h, cap)
    }

    /** From agreement, the answers are the same and agreement is kept exactly for the shared
        operations. */
    method Do(op: Op) returns (a: Answer, b: Answer)
      requires Agree() && Askable(op)
      modifies this, table, bus
      ensures a == b && Agree() <==> old(Shared(op))
    {
      match op
      case Create(sid, name, alive) => a, b := Create(sid, name, alive);
      case Bind(sid, name, alive) => a, b := Bind(sid, name, alive);
      case Send(sid, h, data, uid, awaited, granted) => a, b := Send(sid, h, data, uid, awaited, granted);
      case Recv(sid, h, cap) => a, b := Recv(sid, h, cap);
    }

    /** Over any run the two give the same answers up to the first operation that is not
        shared. */
    method Run(ops: seq<Op>) returns (as_: seq<Answer>, bs: seq<Answer>)
      requires Agree() && forall i :: 0 <= i < |ops| ==> Askable(ops[i])
      modifies this, table, bus
      ensures Agree() && as_ == bs && |as_| <= |ops|
      ensures |as_| < |ops| ==> !Shared(ops[|as_|])
    {
      as_, bs := [], [];
      while |as_| < |ops|
        invariant Agree() && as_ == bs && |as_| <= |ops|
        decreases |ops| - |as_|
      {
        if !Shared(ops[|as_|]) { return; }
        var a, b := Do(ops[|as_|]);
        as_, bs := as_ + [a], bs + [b];
      }
    }
  }

  /** Session 1 creates "a" on both sides. */
  method BothCreate() returns (table: Table, bus: Bus, h: nat, k: nat)
    ensures fresh(table) && fresh(bus) && table.Valid() && bus.Valid()
    ensures table.PortOf(1, h) == Some(3) && !table.ports[3].kernel && QueueOf(table.ports[3]) == []
    ensures k in bus.handles && bus.handles[k] in bus.queues && bus.queues[bus.handles[k]] == []
  {
    table := new Table();
    bus := new Bus();
    NobodyIs([0x61]);
    assert !table.ports[3].used && table.htab[1][0] < 0;
    var a := table.Create(1, [0x61], true);
    var b := bus.Create([0x61]);
    EmptyIsEmpty();
    h, k := a.value, b.value;
  }

  /** A receive into an empty buffer: the kernel reports an empty receive, the bus an error. */
  method EmptyBuffer() returns (a: Option<seq<Byte>>, b: Option<seq<Byte>>)
    ensures a == Some([]) && b == None
  {
    var table, bus, h, k := BothCreate();
    a := table.Recv(1, h, 0);
    b := bus.Recv(k, 0);
  }

  /** Eight zero bytes from uid 1, sent and received: the kernel has written the uid into them,
      the bus has not. */
  method NotStamped() returns (a: Option<seq<Byte>>, b: Option<seq<Byte>>)
    ensures a == Some([0, 0, 0, 0, 1, 0, 0, 0]) && b == Some([0, 0, 0, 0, 0, 0, 0, 0])
  {
    var table, bus, h, k := BothCreate();
    var zeros: seq<Byte> := [0, 0, 0, 0, 0, 0, 0, 0];
    assert Byte4(1) == [1, 0, 0, 0] && zeros[..4] == [0, 0, 0, 0] && zeros[8..] == [];
    assert Delivered(false, false, zeros, 1, 1) == [0, 0, 0, 0, 1, 0, 0, 0];
    var x := table.Send(1, h, zeros, 1, false, true);
    var y := bus.Send(k, zeros);
    a := table.Recv(1, h, 64);
    b := bus.Recv(k, 64);
  }
}
