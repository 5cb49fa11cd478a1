/** The kernel's message ports: a table of named rings and the sessions' handles to them. */
module Ports {
  import opened Options
  import opened Words
  import opened PortRing

  const MAX_PORTS: nat := 24
  const MAX_SESSIONS: nat := 12
  const HANDLES: nat := 16
  const MAX_MESSAGE: nat := 4096
  const MAX_NAME: nat := 15

  /** The kernel's own endpoints: "registry", "devman" and "power". */
  const KERNEL_NAMES: seq<seq<Byte>> := [
    [0x72, 0x65, 0x67, 0x69, 0x73, 0x74, 0x72, 0x79],
    [0x64, 0x65, 0x76, 0x6d, 0x61, 0x6e],
    [0x70, 0x6f, 0x77, 0x65, 0x72]
  ]

  datatype Port = Port(used: bool, kernel: bool, creator: nat, name: seq<Byte>, ring: Ring)

  // ---- names ----

  /** What a stored name reads as: the bytes before the first zero. */
  function CString(s: seq<Byte>): seq<Byte> {
    if s == [] || s[0] == 0 then [] else [s[0]] + CString(s[1..])
  }

  lemma {:induction false} CStringPlain(s: seq<Byte>)
    ensures CString(s) == s <==> 0 !in s
    ensures 0 !in CString(s)
  {
    if s != [] && s[0] != 0 {
      CStringPlain(s[1..]);
      assert s == [s[0]] + s[1..];
    }
  }

  lemma {:induction false} CStringAt(s: seq<Byte>, i: nat)
    requires i <= |s| && 0 !in s[..i]
    ensures CString(s) == s[..i] + CString(s[i..])
  {
    if i == 0 {
      assert s[..0] + CString(s) == CString(s) && s[0..] == s;
    } else {
      assert s[0] == s[..i][0] && s[1..][..i - 1] == s[..i][1..] && s[1..][i - 1..] == s[i..];
      CStringAt(s[1..], i - 1);
      assert [s[0]] + s[1..][..i - 1] == s[..i];
    }
  }

  /** name_eq: a counted name against a stored one. */
  method NameEq(a: seq<Byte>, b: seq<Byte>) returns (eq: bool)
    ensures eq <==> a == CString(b)
  {
    var i := 0;
    while i < |a| && i < |b| && b[i] != 0
      invariant 0 <= i <= |a| && i <= |b| && a[..i] == b[..i] && 0 !in b[..i]
    {
      CStringAt(b, i);
      if a[i] != b[i] {
        assert CString(b)[i] == b[i];
        return false;
      }
      i := i + 1;
    }
    CStringAt(b, i);
    eq := i == |a| && (i == |b| || b[i] == 0);
    if eq {
      assert a == a[..i];
    } else if i < |a| {
      assert CString(b) == b[..i];
    } else {
      assert |CString(b)| > i;
    }
  }

  predicate Named(ports: seq<Port>, p: nat, name: seq<Byte>)
    requires p < |ports|
  {
    ports[p].used && CString(ports[p].name) == name
  }

  predicate Known(ports: seq<Port>, name: seq<Byte>) { exists p :: 0 <= p < |ports| && Named(ports, p, name) }

  predicate FirstNamed(ports: seq<Port>, p: nat, name: seq<Byte>) {
    p < |ports| && Named(ports, p, name) && forall q :: 0 <= q < p ==> !Named(ports, q, name)
  }

  lemma {:induction false} OneFirst(ports: seq<Port>, p: nat, q: nat, name: seq<Byte>)
    requires FirstNamed(ports, p, name) && FirstNamed(ports, q, name)
    ensures p == q
  {
    var a, b := Named(ports, p, name), Named(ports, q, name);
  }

  /** The first port that goes by the name. */
  method FindName(ports: seq<Port>, name: seq<Byte>) returns (r: Option<nat>)
    ensures r.Some? <==> Known(ports, name)
    ensures r.Some? ==> FirstNamed(ports, r.value, name)
  {
    var p := 0;
    while p < |ports|
      invariant 0 <= p <= |ports| && forall q :: 0 <= q < p ==> !Named(ports, q, name)
    {
      var eq := NameEq(name, ports[p].name);
      if ports[p].used && eq {
        assert Named(ports, p, name);
        return Some(p);
      }
      p := p + 1;
    }
    return None;
  }

  predicate Vacant(ports: seq<Port>) { exists p :: 0 <= p < |ports| && !ports[p].used }

  predicate FirstVacant(ports: seq<Port>, p: nat) {
    p < |ports| && !ports[p].used && forall q :: 0 <= q < p ==> ports[q].used
  }

  method FirstFree(ports: seq<Port>) returns (r: Option<nat>)
    ensures r.Some? <==> Vacant(ports)
    ensures r.Some? ==> FirstVacant(ports, r.value)
  {
    var p := 0;
    while p < |ports|
      invariant 0 <= p <= |ports| && forall q :: 0 <= q < p ==> ports[q].used
    {
      if !ports[p].used {
        return Some(p);
      }
      p := p + 1;
    }
    return None;
  }

  predicate Spare(row: seq<int>) { exists h :: 0 <= h < |row| && row[h] < 0 }

  predicate FirstSpare(row: seq<int>, h: nat) {
    h < |row| && row[h] < 0 && forall k :: 0 <= k < h ==> row[k] >= 0
  }

  method FreeHandle(row: seq<int>) returns (r: Option<nat>)
    ensures r.Some? <==> Spare(row)
    ensures r.Some? ==> FirstSpare(row, r.value)
  {
    var h := 0;
    while h < |row|
      invariant 0 <= h <= |row| && forall k :: 0 <= k < h ==> row[k] >= 0
    {
      if row[h] < 0 {
        return Some(h);
      }
      h := h + 1;
    }
    return None;
  }

  /** No two ports go by one name. */
  ghost predicate Unique(ports: seq<Port>) {
    forall p, q {:trigger ports[p], ports[q]} :: 0 <= p < q < |ports| && ports[p].used && ports[q].used ==>
      CString(ports[p].name) != CString(ports[q].name)
  }

  /** A new port keeps names unique exactly when nobody goes by what its name reads as. */
  lemma {:induction false} CreateKeepsUnique(ports: seq<Port>, p: nat, port: Port)
    requires Unique(ports) && p < |ports| && !ports[p].used && port.used
    ensures Unique(ports[p := port]) <==> forall q :: 0 <= q < |ports| ==> !Named(ports, q, CString(port.name))
  {
    var after := ports[p := port];
    if forall q :: 0 <= q < |ports| ==> !Named(ports, q, CString(port.name)) {
      forall a, b | 0 <= a < b < |after| && after[a].used && after[b].used
        ensures CString(after[a].name) != CString(after[b].name)
      {
        assert a == p ==> !Named(ports, b, CString(port.name));
        assert b == p ==> !Named(ports, a, CString(port.name));
      }
    } else {
      var q :| 0 <= q < |ports| && Named(ports, q, CString(port.name));
      var a, b := if q < p then q else p, if q < p then p else q;
      assert after[a].used && after[b].used && CString(after[a].name) == CString(after[b].name);
    }
  }

  // ---- messages ----

  function Byte4(uid: nat): (r: seq<Byte>)
    ensures |r| == 4
  {
    [uid % 256, uid / 256 % 256, uid / 65536 % 256, uid / 16777216 % 256]
  }

  /** The sender's uid goes over bytes 4 to 8 of every datagram long enough to have them. */
  function Stamp(data: seq<Byte>, sid: nat, uid: nat): (r: seq<Byte>)
    ensures |r| == |data|
  {
    if |data| >= 8 && sid != 0 then data[..4] + Byte4(uid) + data[8..] else data
  }

  /** The datagram is too short for a uid, is the kernel's own, or has the sender's uid already. */
  predicate CarriesUid(data: seq<Byte>, sid: nat, uid: nat) {
    |data| < 8 || sid == 0 || data[4..8] == Byte4(uid)
  }

  lemma {:induction false} StampKeeps(data: seq<Byte>, sid: nat, uid: nat)
    ensures Stamp(data, sid, uid) == data <==> CarriesUid(data, sid, uid)
  {
    if |data| >= 8 && sid != 0 {
      var s := Stamp(data, sid, uid);
      assert s[4..8] == Byte4(uid);
      assert data == data[..4] + data[4..8] + data[8..];
    }
  }

  /** What a send hands on: to the kernel's dispatcher, to a waiting routed call, or to the
      queue. */
  function Delivered(kernel: bool, awaited: bool, data: seq<Byte>, sid: nat, uid: nat): (r: seq<Byte>)
    ensures |r| == |data|
  {
    if kernel && sid != 0 then Stamp(data, sid, uid)
    else if awaited then data
    else Stamp(data, sid, uid)
  }

  /** A session's datagram arrives with its uid in it exactly when it does not go to a routed
      call, unless the sender wrote its own uid. No other byte changes. */
  lemma {:induction false} StampedIff(kernel: bool, awaited: bool, data: seq<Byte>, sid: nat, uid: nat)
    requires |data| >= 8 && sid != 0
    ensures var r := Delivered(kernel, awaited, data, sid, uid);
      && (r[4..8] == Byte4(uid) <==> kernel || !awaited || data[4..8] == Byte4(uid))
      && r[..4] == data[..4] && r[8..] == data[8..]
  {
    var s := Stamp(data, sid, uid);
    assert s[4..8] == Byte4(uid) && s[..4] == data[..4] && s[8..] == data[8..];
  }

  /** Session 1 with uid 1 sends eight zero bytes that a routed call awaits: they arrive as from
      uid 0. */
  lemma {:induction false} RoutedUnstamped()
    ensures var data: seq<Byte> := [0, 0, 0, 0, 0, 0, 0, 0];
      Delivered(false, true, data, 1, 1)[4..8] == Byte4(0) != Byte4(1)
  {
    assert Byte4(0)[0] == 0 && Byte4(1)[0] == 1;
  }

  datatype Delivery = Delivery(name: seq<Byte>, from: nat, handle: nat, data: seq<Byte>)

  /** The queue a port's ring stands for. */
  ghost function QueueOf(port: Port): seq<Msg> {
    if PortRing.Valid(port.ring) then Queue(port.ring) else []
  }

  datatype Status = Ok | Err | WouldBlock

  /** The table with the first k kernel endpoints. */
  function Endpoints(k: nat): (r: seq<Port>)
    requires k <= 3
    ensures |r| == MAX_PORTS
  {
    seq(MAX_PORTS, i requires 0 <= i < MAX_PORTS =>
      if i < k then Port(true, true, 0, KERNEL_NAMES[i], Empty()) else Port(false, false, 0, [], Empty()))
  }

  lemma {:induction false} EndpointsUnique()
    ensures Unique(Endpoints(3))
  {
    var ports := Endpoints(3);
    forall p, q | 0 <= p < q < |ports| && ports[p].used && ports[q].used ensures CString(ports[p].name) != CString(ports[q].name) {
      DifferentHeads(ports[p].name, ports[q].name);
    }
  }

  lemma {:induction false} DifferentHeads(a: seq<Byte>, b: seq<Byte>)
    requires a != [] && b != [] && a[0] != b[0]
    ensures CString(a) != CString(b)
  {
    assert a[0] != 0 ==> CString(a)[0] == a[0];
    assert b[0] != 0 ==> CString(b)[0] == b[0];
  }

  class Table {
    var ports: seq<Port>
    var htab: seq<seq<int>>
    /** What the kernel's own endpoints were given, and what pending routed calls took. */
    ghost var dispatched: seq<Delivery>
    ghost var routed: seq<Delivery>
    /** Per port: every datagram ever queued, and every one taken out. */
    ghost var queued: seq<seq<Msg>>
    ghost var taken: seq<seq<Msg>>

    ghost predicate PortOk(p: nat)
      requires p < |ports| && |queued| == |ports| == |taken|
      reads this
    {
      && PortRing.Valid(ports[p].ring) && queued[p] == taken[p] + Queue(ports[p].ring)
      && (!ports[p].used ==> ports[p].ring == Empty())
    }

    ghost predicate Valid()
      reads this
    {
      && |ports| == |queued| == |taken| == MAX_PORTS && |htab| == MAX_SESSIONS
      && (forall p {:trigger PortOk(p)} :: 0 <= p < |ports| ==> PortOk(p))
      && (forall s {:trigger htab[s]} :: 0 <= s < |htab| ==> |htab[s]| == HANDLES)
    }

    /** The kernel's endpoints, in the first ports, and no handles. */
    constructor ()
      ensures Valid() && Unique(ports) && ports == Endpoints(3)
      ensures htab == seq(MAX_SESSIONS, _ => seq(HANDLES, _ => -1)) && dispatched == [] && routed == []
    {
      EmptyIsEmpty();
      ports := Endpoints(0);
      htab := seq(MAX_SESSIONS, _ => seq(HANDLES, _ => -1));
      dispatched := [];
      routed := [];
      queued := seq(MAX_PORTS, _ => []);
      taken := seq(MAX_PORTS, _ => []);
      new;
      for k := 0 to 3
        invariant ports == Endpoints(k) && dispatched == [] && routed == []
        invariant htab == seq(MAX_SESSIONS, _ => seq(HANDLES, _ => -1))
        invariant queued == seq(MAX_PORTS, _ => []) == taken
      {
        var p := FirstFree(ports);
        assert !ports[k].used && p == Some(k);
        if p.Some? {
          ports := ports[p.value := Port(true, true, 0, KERNEL_NAMES[k], Empty())];
        }
        assert forall i :: 0 <= i < MAX_PORTS ==> ports[i] == Endpoints(k + 1)[i];
      }
      EndpointsUnique();
      forall q | 0 <= q < MAX_PORTS ensures PortOk(q) {}
    }

    /** port_of: the port a session's handle stands for. */
    function PortOf(sid: nat, h: int): Option<nat>
      requires |htab| == MAX_SESSIONS && (sid < |htab| ==> |htab[sid]| == HANDLES)
      reads this
    {
      if sid >= MAX_SESSIONS || h < 0 || h >= HANDLES then None
      else
        var g := htab[sid][h];
        if g < 0 || g >= |ports| || !ports[g].used then None else Some(g)
    }

    /** A new port under a name nobody goes by, and a handle to it. */
    method Create(sid: nat, name: seq<Byte>, alive: bool) returns (h: Option<nat>)
      requires Valid() && (alive ==> sid < MAX_SESSIONS)
      modifies this
      ensures Valid() && dispatched == old(dispatched) && routed == old(routed)
      ensures h.Some? <==>
        && alive && sid != 0 && 0 < |name| <= MAX_NAME
        && !Known(old(ports), name) && Vacant(old(ports)) && Spare(old(htab)[sid])
      ensures h.Some? ==> FirstSpare(old(htab)[sid], h.value) && exists p: nat ::
        && FirstVacant(old(ports), p) && htab == old(htab)[sid := old(htab)[sid][h.value := p]]
        && ports == old(ports)[p := Port(true, false, sid, name, Empty())]
      ensures h.None? ==> htab == old(htab) && forall p :: 0 <= p < MAX_PORTS ==>
        (ports[p] == old(ports)[p] || (!ports[p].used && !old(ports)[p].used))
      ensures old(Unique(ports)) && h.Some? ==>
        (Unique(ports) <==> forall p :: 0 <= p < MAX_PORTS ==> !Named(old(ports), p, CString(name)))
      ensures old(Unique(ports)) && (h.None? || 0 !in name) ==> Unique(ports)
    {
      if |name| == 0 || |name| > MAX_NAME || sid == 0 || !alive {
        return None;
      }
      var taken_ := FindName(ports, name);
      if taken_.Some? {
        return None;
      }
      var free := FirstFree(ports);
      if free.None? {
        return None;
      }
      var p := free.value;
      assert PortOk(p);
      ghost var before := ports;
      h := FreeHandle(htab[sid]);
      ports := ports[p := Port(h.Some?, false, sid, name, Ring(ports[p].ring.slots, 0, 0, 0))];
      if h.Some? {
        htab := htab[sid := htab[sid][h.value := p]];
        CStringPlain(name);
        if Unique(before) { CreateKeepsUnique(before, p, ports[p]); }
      }
      forall q | 0 <= q < MAX_PORTS ensures PortOk(q) { assert old(PortOk(q)); }
    }

    /** A handle to an existing port. */
    method Bind(sid: nat, name: seq<Byte>, alive: bool) returns (h: Option<nat>)
      requires Valid() && (alive ==> sid < MAX_SESSIONS)
      modifies this
      ensures Valid() && ports == old(ports) && dispatched == old(dispatched) && routed == old(routed)
      ensures h.None? ==> htab == old(htab)
      ensures h.Some? <==> alive && sid != 0 && Known(ports, name) && Spare(old(htab)[sid])
      ensures h.Some? ==> FirstSpare(old(htab)[sid], h.value) && exists p: nat ::
        FirstNamed(ports, p, name) && htab == old(htab)[sid := old(htab)[sid][h.value := p]]
    {
      if sid == 0 || !alive {
        return None;
      }
      var p := FindName(ports, name);
      if p.None? {
        return None;
      }
      h := FreeHandle(htab[sid]);
      if h.Some? {
        htab := htab[sid := htab[sid][h.value := p.value]];
      }
      forall q | 0 <= q < MAX_PORTS ensures PortOk(q) { assert old(PortOk(q)); }
    }

    /** Puts a datagram into a port's ring. */
    method Enqueue(p: nat, m: Msg)
      requires Valid() && p < MAX_PORTS && ports[p].used && ports[p].ring.qn < 32
      modifies this
      ensures Valid() && htab == old(htab) && dispatched == old(dispatched) && routed == old(routed)
      ensures ports == old(ports)[p := old(ports)[p].(ring := ports[p].ring)]
      ensures QueueOf(ports[p]) == QueueOf(old(ports)[p]) + [m]
      ensures queued == old(queued)[p := old(queued)[p] + [m]] && taken == old(taken)
    {
      assert PortOk(p);
      var r := ports[p].ring;
      PutIsEnqueue(r, m);
      assert (taken[p] + Queue(r)) + [m] == taken[p] + (Queue(r) + [m]);
      ports := ports[p := ports[p].(ring := Put(r, m))];
      queued := queued[p := queued[p] + [m]];
      forall q | 0 <= q < MAX_PORTS ensures PortOk(q) { assert old(PortOk(q)); }
    }

    /** A send that is accepted ends up in exactly one place: the kernel endpoint's
        dispatcher, a pending routed call, or the back of the port's queue. `awaited` says
        whether a routed call is waiting for it, `granted` whether memory was found. */
    method Send(sid: nat, h: int, data: seq<Byte>, uid: nat, awaited: bool, granted: bool) returns (status: Status)
      requires Valid()
      modifies this
      ensures Valid() && htab == old(htab) && taken == old(taken)
      ensures var p := old(PortOf(sid, h));
        if p.None? || data == [] || |data| > MAX_MESSAGE then
          status.Err? && ports == old(ports) && queued == old(queued) && dispatched == old(dispatched) && routed == old(routed)
        else if old(ports)[p.value].kernel && sid != 0 then
          && status.Ok? && ports == old(ports) && queued == old(queued) && routed == old(routed)
          && dispatched == old(dispatched) + [Delivery(ports[p.value].name, sid, h, Delivered(true, awaited, data, sid, uid))]
        else if awaited then
          && status.Ok? && ports == old(ports) && queued == old(queued) && dispatched == old(dispatched)
          && routed == old(routed) + [Delivery(ports[p.value].name, sid, h, Delivered(false, true, data, sid, uid))]
        else
          && dispatched == old(dispatched) && routed == old(routed)
          && (forall q :: 0 <= q < MAX_PORTS && q != p.value ==> ports[q] == old(ports)[q] && queued[q] == old(queued)[q])
          && ports[p.value] == old(ports)[p.value].(ring := ports[p.value].ring)
          && var before, after := QueueOf(old(ports)[p.value]), QueueOf(ports[p.value]);
          if |before| >= 32 then status.WouldBlock? && ports == old(ports) && queued == old(queued)
          else if !granted then status.Err? && ports == old(ports) && queued == old(queued)
          else
            && status.Ok? && after == before + [Msg(sid, Delivered(false, false, data, sid, uid))]
            && queued[p.value] == old(queued)[p.value] + [Msg(sid, Delivered(false, false, data, sid, uid))]
    {
      var found := PortOf(sid, h);
      if found.None? || |data| == 0 || |data| > MAX_MESSAGE {
        return Err;
      }
      var p := found.value;
      assert PortOk(p);
      if ports[p].kernel && sid != 0 {
        dispatched := dispatched + [Delivery(ports[p].name, sid, h, Stamp(data, sid, uid))];
        forall q | 0 <= q < MAX_PORTS ensures PortOk(q) { assert old(PortOk(q)); }
        return Ok;
      }
      if awaited {
        routed := routed + [Delivery(ports[p].name, sid, h, data)];
        forall q | 0 <= q < MAX_PORTS ensures PortOk(q) { assert old(PortOk(q)); }
        return Ok;
      }
      if ports[p].ring.qn >= 32 {
        return WouldBlock;
      }
      if !granted {
        return Err;
      }
      Enqueue(p, Msg(sid, Stamp(data, sid, uid)));
      return Ok;
    }

    /** The front of the queue, cut to the receiver's buffer. */
    method Recv(sid: nat, h: int, cap: nat) returns (out: Option<seq<Byte>>)
      requires Valid()
      modifies this
      ensures Valid() && htab == old(htab) && dispatched == old(dispatched) && routed == old(routed) && queued == old(queued)
      ensures var p := old(PortOf(sid, h));
        if p.None? then out.None? && ports == old(ports) && taken == old(taken)
        else
          && (forall q :: 0 <= q < MAX_PORTS && q != p.value ==> ports[q] == old(ports)[q] && taken[q] == old(taken)[q])
          && ports[p.value] == old(ports)[p.value].(ring := ports[p.value].ring)
          && var before, after := QueueOf(old(ports)[p.value]), QueueOf(ports[p.value]);
          if before == [] then out == Some([]) && ports == old(ports) && taken == old(taken)
          else
            && before == [before[0]] + after && taken[p.value] == old(taken)[p.value] + [before[0]]
            && out == Some(if |before[0].data| <= cap then before[0].data else before[0].data[..cap])
    {
      var found := PortOf(sid, h);
      if found.None? {
        return None;
      }
      var p := found.value;
      assert PortOk(p);
      var r := ports[p].ring;
      if r.qn == 0 {
        return Some([]);
      }
      TakeIsDequeue(r);
      var m := r.slots[r.qh].value;
      assert taken[p] + ([m] + Queue(Take(r))) == (taken[p] + [m]) + Queue(Take(r));
      ports := ports[p := ports[p].(ring := Take(r))];
      taken := taken[p := taken[p] + [m]];
      forall q | 0 <= q < MAX_PORTS ensures PortOk(q) { assert old(PortOk(q)); }
      return Some(if |m.data| <= cap then m.data else m.data[..cap]);
    }

    /** A kernel reply, straight into the queue behind a session's handle. */
    method KernelEnqueue(sid: nat, h: int, data: seq<Byte>, granted: bool)
      requires Valid()
      modifies this
      ensures Valid() && htab == old(htab) && dispatched == old(dispatched) && routed == old(routed) && taken == old(taken)
      ensures var p := old(PortOf(sid, h));
        if p.None? || data == [] || |data| > MAX_MESSAGE || |QueueOf(old(ports)[p.value])| >= 32 || !granted then
          ports == old(ports) && queued == old(queued)
        else
          && QueueOf(ports[p.value]) == QueueOf(old(ports)[p.value]) + [Msg(sid, data)]
          && ports == old(ports)[p.value := old(ports)[p.value].(ring := ports[p.value].ring)]
    {
      var found := PortOf(sid, h);
      if found.None? || |data| == 0 || |data| > MAX_MESSAGE {
        return;
      }
      assert PortOk(found.value);
      if ports[found.value].ring.qn >= 32 || !granted {
        return;
      }
      Enqueue(found.value, Msg(sid, data));
    }

    /** A kernel message to whoever owns a name; the first port by that name gets it. */
    method EnqueueByName(name: seq<Byte>, data: seq<Byte>, awaited: bool, granted: bool) returns (ok: bool)
      requires Valid() && 0 !in name
      modifies this
      ensures Valid() && htab == old(htab) && dispatched == old(dispatched) && taken == old(taken)
      ensures if awaited then
                ok && ports == old(ports) && queued == old(queued) && routed == old(routed) + [Delivery(name, 0, 0, data)]
              else
                && routed == old(routed) && (!ok ==> ports == old(ports) && queued == old(queued))
                && (ok <==> granted && exists p: nat :: FirstNamed(old(ports), p, name) && |QueueOf(old(ports)[p])| < 32)
                && (ok ==> exists p: nat ::
                      && FirstNamed(old(ports), p, name)
                      && ports == old(ports)[p := old(ports)[p].(ring := ports[p].ring)]
                      && QueueOf(ports[p]) == QueueOf(old(ports)[p]) + [Msg(0, Cut(data, MAX_MESSAGE))])
    {
      if awaited {
        routed := routed + [Delivery(name, 0, 0, data)];
        forall q | 0 <= q < MAX_PORTS ensures PortOk(q) { assert old(PortOk(q)); }
        return true;
      }
      var p := FindName(ports, name);
      if p.None? {
        return false;
      }
      assert PortOk(p.value);
      forall q: nat | FirstNamed(ports, q, name) ensures q == p.value { OneFirst(ports, p.value, q, name); }
      if ports[p.value].ring.qn >= 32 || !granted {
        return false;
      }
      Enqueue(p.value, Msg(0, Cut(data, MAX_MESSAGE)));
      return true;
    }
  }

  function Cut(data: seq<Byte>, cap: nat): seq<Byte> {
    if |data| <= cap then data else data[..cap]
  }

  /** A name with a zero byte slips past the check: on a fresh table session 1 creates "a", and
      then the two bytes "a" and zero. Both creates succeed, and two ports read as "a". */
  method ZeroByteDuplicates() returns (table: Table, a: Option<nat>, b: Option<nat>)
    ensures a.Some? && b.Some? && table.Valid() && !Unique(table.ports)
    ensures |table.ports| > 4 && Named(table.ports, 3, [0x61]) && Named(table.ports, 4, [0x61])
  {
    table := new Table();
    NobodyIs([0x61]);
    assert !table.ports[3].used && table.htab[1][0] < 0;
    a := table.Create(1, [0x61], true);
    assert table.ports[3] == Port(true, false, 1, [0x61], Empty()) && !table.ports[4].used && table.htab[1][1] < 0;
    ReadsAsA();
    assert !Known(table.ports, [0x61, 0]) by {
      forall p | 0 <= p < MAX_PORTS ensures !Named(table.ports, p, [0x61, 0]) { CStringPlain(table.ports[p].name); }
    }
    b := table.Create(1, [0x61, 0], true);
    assert table.ports[4] == Port(true, false, 1, [0x61, 0], Empty());
    assert CString(table.ports[3].name) == CString(table.ports[4].name);
  }

  lemma {:induction false} ReadsAsA()
    ensures CString([0x61]) == [0x61] && CString([0x61, 0]) == [0x61]
  {
    assert [0x61][1..] == [] && [0x61, 0][1..] == [0];
    assert CString([0]) == [];
  }

  /** No kernel endpoint goes by a name with another first byte. */
  lemma {:induction false} NobodyIs(name: seq<Byte>)
    requires name != [] && 0 !in name && forall i :: 0 <= i < 3 ==> KERNEL_NAMES[i][0] != name[0]
    ensures !Known(Endpoints(3), name)
  {
    CStringPlain(name);
    forall p | 0 <= p < MAX_PORTS ensures !Named(Endpoints(3), p, name) {
      if p < 3 { DifferentHeads(KERNEL_NAMES[p], name); }
    }
  }
}
