/** The `abi_ver` stamp: the script that appends it, the kernel's section walk and the
    guest-side reader. */
module AbiVersion {
  import opened Leb128
  import opened Options
  import opened Words

  const MAX_SECTIONS: nat := 64
  const MAGIC: seq<Byte> := [0x00, 0x61, 0x73, 0x6d]
  const VERSION: seq<Byte> := [0x01, 0x00, 0x00, 0x00]
  const NAME: seq<Byte> := [0x61, 0x62, 0x69, 0x5f, 0x76, 0x65, 0x72] // "abi_ver"

  datatype Section = Section(id: Byte, body: seq<Byte>)

  // ---- sections as the format defines them ----

  lemma {:induction false} GrammarUPrefix(n: nat, s: seq<Byte>, t: seq<Byte>)
    requires GrammarU(n, s).Some?
    ensures 1 <= GrammarU(n, s).value.1 <= |s| && GrammarU(n, s + t) == GrammarU(n, s)
  {
    if s[0] >= 128 {
      assert (s + t)[1..] == s[1..] + t;
      GrammarUPrefix(n - 7, s[1..], t);
    }
  }

  /** One section and the position after it. */
  function SectionAt(data: seq<Byte>, pos: nat): (r: Option<(Section, nat)>)
    requires pos < |data|
    ensures r.Some? ==> pos < r.value.1 <= |data|
  {
    var (size, k) :- GrammarU(32, data[pos + 1..]);
    if size <= |data| - (pos + 1 + k) then
      Some((Section(data[pos], data[pos + 1 + k..pos + 1 + k + size]), pos + 1 + k + size))
    else None
  }

  /** The sections from `pos` on, when they tile the rest of the module. */
  function Tile(data: seq<Byte>, pos: nat): Option<seq<Section>>
    requires pos <= |data|
    decreases |data| - pos
  {
    if pos == |data| then Some([])
    else
      var (sec, next) :- SectionAt(data, pos);
      var rest :- Tile(data, next);
      Some([sec] + rest)
  }

  /** The name and payload of a custom section. */
  function Named(body: seq<Byte>): Option<(seq<Byte>, seq<Byte>)> {
    var (size, k) :- GrammarU(32, body);
    if k <= |body| && size <= |body| - k then Some((body[k..k + size], body[k + size..])) else None
  }

  ghost predicate WellNamed(secs: seq<Section>) {
    forall i :: 0 <= i < |secs| && secs[i].id == 0 ==> Named(secs[i].body).Some?
  }

  /** The payload of an `abi_ver` section. */
  function Payload(sec: Section): Option<seq<Byte>> {
    if sec.id == 0 && Named(sec.body).Some? && Named(sec.body).value.0 == NAME then Some(Named(sec.body).value.1)
    else None
  }

  /** The last stamp with a payload: the kernel overwrites what it saw before. */
  function LastStamp(secs: seq<Section>): Option<Byte> {
    if secs == [] then None
    else
      var sec := secs[|secs| - 1];
      var payload := Payload(sec);
      if payload.Some? && payload.value != [] then Some(payload.value[0]) else LastStamp(secs[..|secs| - 1])
  }

  datatype Answer = Found(version: Byte) | Absent | Truncated | NotWasm

  /** The first stamp, which must have a payload: the guest reader stops there. */
  function FirstStamp(secs: seq<Section>): Answer {
    if secs == [] then Absent
    else
      var payload := Payload(secs[0]);
      if payload.None? then FirstStamp(secs[1..])
      else if payload.value == [] then Truncated
      else Found(payload.value[0])
  }

  // ---- the kernel's walk ----

  /** The rank a known section must have above the one before it. */
  function Order(id: Byte): Option<nat> {
    if 1 <= id <= 9 then Some(id)
    else if id == 12 then Some(10)
    else if id == 10 then Some(11)
    else if id == 11 then Some(12)
    else None
  }

  /** The sections the kernel decodes: all but the custom ones. */
  function Known(secs: seq<Section>): seq<Section> {
    if secs == [] then []
    else
      var sec := secs[|secs| - 1];
      if sec.id == 0 then Known(secs[..|secs| - 1]) else Known(secs[..|secs| - 1]) + [sec]
  }

  function LastOrder(known: seq<Section>): nat {
    if known == [] then 0
    else
      var order := Order(known[|known| - 1].id);
      if order.Some? then order.value else 0
  }

  /** Known sections in rising order, each accepted by its decoder given those before. */
  predicate KnownOk(decodes: seq<Section> -> bool, known: seq<Section>) {
    known == [] ||
    var n := |known| - 1;
    KnownOk(decodes, known[..n])
    && Order(known[n].id).Some? && Order(known[n].id).value > LastOrder(known[..n]) && decodes(known)
  }

  ghost predicate SectionsOk(decodes: seq<Section> -> bool, secs: seq<Section>) {
    |secs| <= MAX_SECTIONS && WellNamed(secs) && KnownOk(decodes, Known(secs))
  }

  ghost predicate KernelAccepts(decodes: seq<Section> -> bool, data: seq<Byte>) {
    && |data| >= 8 && data[..4] == MAGIC && data[4..8] == VERSION
    && Tile(data, 8).Some? && SectionsOk(decodes, Tile(data, 8).value)
  }

  /** `done` are the sections before `pos`. */
  ghost predicate Walked(data: seq<Byte>, done: seq<Section>, pos: nat) {
    8 <= pos <= |data| &&
    Tile(data, 8) == if Tile(data, pos).Some? then Some(done + Tile(data, pos).value) else None
  }

  lemma {:induction false} WalkOne(data: seq<Byte>, done: seq<Section>, pos: nat)
    requires Walked(data, done, pos) && pos < |data| && SectionAt(data, pos).Some?
    ensures var (sec, next) := SectionAt(data, pos).value; Walked(data, done + [sec], next)
  {
    var (sec, next) := SectionAt(data, pos).value;
    if Tile(data, next).Some? {
      var rest := Tile(data, next).value;
      assert done + ([sec] + rest) == (done + [sec]) + rest;
    }
  }

  lemma {:induction false} WalkDone(data: seq<Byte>, done: seq<Section>)
    requires Walked(data, done, |data|)
    ensures Tile(data, 8) == Some(done)
  {
    assert done + [] == done;
  }

  lemma {:induction false} PrefixOk(decodes: seq<Section> -> bool, a: seq<Section>, b: seq<Section>)
    requires KnownOk(decodes, Known(a + b))
    ensures KnownOk(decodes, Known(a))
  {
    if b == [] {
      assert a + b == a;
    } else {
      var n := |a + b| - 1;
      assert (a + b)[..n] == a + b[..|b| - 1];
      if (a + b)[n].id != 0 {
        assert Known(a + b)[..|Known(a + b)| - 1] == Known((a + b)[..n]);
      }
      PrefixOk(decodes, a, b[..|b| - 1]);
    }
  }

  /** Sections that are not acceptable stay so whatever follows. */
  lemma {:induction false} Refused(decodes: seq<Section> -> bool, data: seq<Byte>, done: seq<Section>, pos: nat)
    requires Walked(data, done, pos) && !SectionsOk(decodes, done)
    ensures !KernelAccepts(decodes, data)
  {
    if KernelAccepts(decodes, data) {
      var rest := Tile(data, pos).value;
      PrefixOk(decodes, done, rest);
      forall i | 0 <= i < |done| && done[i].id == 0
        ensures Named(done[i].body).Some?
      {
        assert (done + rest)[i] == done[i];
      }
    }
  }

  method ReadSection(reader: Reader) returns (r: Option<Section>)
    requires reader.Valid() && reader.position < |reader.data|
    modifies reader
    ensures reader.Valid()
    ensures var s := SectionAt(reader.data, old(reader.position));
      if s.Some? then r == Some(s.value.0) && reader.position == s.value.1 else r.None?
  {
    var id := reader.U8();
    var size := reader.ULeb32();
    if size.None? {
      return None;
    }
    var body := reader.Bytes(size.value);
    if body.None? {
      return None;
    }
    return Some(Section(id.value, body.value));
  }

  method ReadName(body: seq<Byte>) returns (r: Option<(seq<Byte>, seq<Byte>)>)
    ensures r == Named(body)
  {
    var reader := new Reader(body);
    var length := reader.ULeb32();
    assert body[0..] == body;
    if length.None? {
      return None;
    }
    var name := reader.Bytes(length.value);
    if name.None? {
      return None;
    }
    return Some((name.value, body[reader.position..]));
  }

  lemma {:induction false} OneMoreKnown(done: seq<Section>, sec: Section)
    ensures Known(done + [sec]) == if sec.id == 0 then Known(done) else Known(done) + [sec]
  {
    assert (done + [sec])[..|done|] == done;
  }

  lemma {:induction false} OneMoreStamp(done: seq<Section>, sec: Section)
    ensures var payload := Payload(sec);
      LastStamp(done + [sec]) ==
        if payload.Some? && payload.value != [] then Some(payload.value[0]) else LastStamp(done)
  {
    assert (done + [sec])[..|done|] == done;
  }

  lemma {:induction false} OneMoreKnownOk(decodes: seq<Section> -> bool, known: seq<Section>, sec: Section)
    ensures KnownOk(decodes, known + [sec]) <==>
      && KnownOk(decodes, known)
      && Order(sec.id).Some? && Order(sec.id).value > LastOrder(known) && decodes(known + [sec])
  {
    assert (known + [sec])[..|known|] == known;
  }

  /** Whether one more section is acceptable. */
  lemma {:induction false} OneMoreOk(decodes: seq<Section> -> bool, done: seq<Section>, sec: Section)
    requires SectionsOk(decodes, done) && |done| < MAX_SECTIONS
    ensures SectionsOk(decodes, done + [sec]) <==>
      if sec.id == 0 then Named(sec.body).Some?
      else Order(sec.id).Some? && Order(sec.id).value > LastOrder(Known(done)) && decodes(Known(done) + [sec])
  {
    var all := done + [sec];
    OneMoreKnown(done, sec);
    OneMoreKnownOk(decodes, Known(done), sec);
    assert all[|done|] == sec;
    assert WellNamed(all) <==> sec.id == 0 ==> Named(sec.body).Some?;
  }

  /** The walk of the section loop. `decodes` stands for the decoders of the known
      sections, which see the known sections up to and including their own. */
  method KernelWalk(data: seq<Byte>, decodes: seq<Section> -> bool) returns (r: Option<Option<Byte>>)
    ensures r.Some? <==> KernelAccepts(decodes, data)
    ensures r.Some? ==> r.value == LastStamp(Tile(data, 8).value)
  {
    if |data| < 8 || data[..4] != MAGIC || data[4..8] != VERSION {
      return None;
    }
    var reader := new Reader(data);
    reader.position := 8;
    var version: Option<Byte> := None;
    var count, lastOrder := 0, 0;
    var known: seq<Section> := [];
    ghost var done: seq<Section> := [];
    assert Tile(data, 8).Some? ==> done + Tile(data, 8).value == Tile(data, 8).value;
    while reader.position < |data|
      invariant reader.Valid() && reader.data == data && 8 <= reader.position
      invariant Walked(data, done, reader.position)
      invariant SectionsOk(decodes, done) && count == |done|
      invariant known == Known(done) && lastOrder == LastOrder(known) && version == LastStamp(done)
      decreases |data| - reader.position
    {
      ghost var pos := reader.position;
      if count >= MAX_SECTIONS {
        assert Tile(data, pos).Some? ==> |Tile(data, pos).value| > 0;
        return None;
      }
      count := count + 1;
      var next := ReadSection(reader);
      if next.None? {
        return None;
      }
      var sec := next.value;
      WalkOne(data, done, pos);
      OneMoreKnown(done, sec);
      OneMoreStamp(done, sec);
      OneMoreOk(decodes, done, sec);
      done := done + [sec];
      if sec.id == 0 {
        var name := ReadName(sec.body);
        if name.None? {
          Refused(decodes, data, done, reader.position);
          return None;
        }
        if name.value.0 == NAME && name.value.1 != [] {
          version := Some(name.value.1[0]);
        }
      } else {
        known := known + [sec];
        var order := Order(sec.id);
        if order.None? || order.value <= lastOrder || !decodes(known) {
          Refused(decodes, data, done, reader.position);
          return None;
        }
        lastOrder := order.value;
      }
    }
    WalkDone(data, done);
    return Some(version);
  }

  // ---- the guest's reader ----

  /** The seven-bit groups of at most `left` bytes. */
  function Groups(s: seq<Byte>, left: nat): Option<(nat, nat)> {
    if s == [] || left == 0 then None
    else if s[0] < 128 then Some((s[0], 1))
    else
      var (v, k) :- Groups(s[1..], left - 1);
      Some((128 * v + (s[0] - 128), k + 1))
  }

  /** The guest's leb128: ten groups at most, kept in 64 bits. */
  function GuestLeb(s: seq<Byte>): (r: Option<(nat, nat)>)
    ensures r.Some? ==> r.value.0 < TWO64
  {
    var (v, k) :- Groups(s, 10);
    Some((v % 0x1_0000_0000_0000_0000, k))
  }

  lemma {:induction false} GroupsLength(s: seq<Byte>, left: nat)
    ensures Groups(s, left).Some? ==> 1 <= Groups(s, left).value.1 <= |s|
  {
    if s != [] && left > 0 && s[0] >= 128 { GroupsLength(s[1..], left - 1); }
  }

  ghost predicate PendingG(s: seq<Byte>, index: nat, acc: nat) {
    index <= 10 && index <= |s| &&
    var g := Groups(s[index..], 10 - index);
    Groups(s, 10) == if g.Some? then Some((acc + Pow128(index) * g.value.0, index + g.value.1)) else None
  }

  lemma {:induction false} MoreG(s: seq<Byte>, index: nat, acc: nat)
    requires PendingG(s, index, acc) && index < |s| && index < 10 && s[index] >= 128
    ensures PendingG(s, index + 1, acc + Pow128(index) * (s[index] - 128))
  {
    assert s[index..][1..] == s[index + 1..];
    var g := Groups(s[index + 1..], 9 - index);
    if g.Some? { MoveGroup(acc, Pow128(index), s[index], g.value.0); }
  }

  lemma {:induction false} LastG(s: seq<Byte>, index: nat, acc: nat)
    requires PendingG(s, index, acc) && index < |s| && index < 10 && s[index] < 128
    ensures Groups(s, 10) == Some((acc + Pow128(index) * s[index], index + 1))
  {
  }

  method ReadLeb(s: seq<Byte>) returns (r: Option<(nat, nat)>)
    ensures r == GuestLeb(s)
  {
    var v: nat := 0;
    ghost var exact: nat := 0;
    var i := 0;
    while i < |s|
      invariant 0 <= i <= |s| && PendingG(s, i, exact) && v == exact % 0x1_0000_0000_0000_0000
    {
      if i >= 10 {
        return None;
      }
      var group := Pow128(i) * (if s[i] < 128 then s[i] else s[i] - 128);
      Wrapped(exact, group);
      v := (v + group) % 0x1_0000_0000_0000_0000;
      if s[i] < 128 {
        LastG(s, i, exact);
        return Some((v, i + 1));
      }
      MoreG(s, i, exact);
      exact := exact + group;
      i := i + 1;
    }
    return None;
  }

  lemma {:induction false} Wrapped(exact: nat, group: nat)
    ensures (exact % 0x1_0000_0000_0000_0000 + group) % 0x1_0000_0000_0000_0000 == (exact + group) % 0x1_0000_0000_0000_0000
  {
  }

  /** A length as the guest reads it and the bytes it covers. */
  function GuestPrefixed(s: seq<Byte>): (r: Option<(seq<Byte>, nat)>)
    ensures r.Some? ==> r.value.1 <= |s|
  {
    var (size, k) :- GuestLeb(s);
    if k <= |s| && size <= |s| - k then Some((s[k..k + size], k + size)) else None
  }

  /** What the guest answers from `pos` on. */
  function GuestFrom(data: seq<Byte>, pos: nat): Answer
    requires pos <= |data|
    decreases |data| - pos
  {
    if pos == |data| then Absent
    else
      var section := GuestPrefixed(data[pos + 1..]);
      if section.None? then Truncated
      else
        var (body, n) := section.value;
        if data[pos] != 0 then GuestFrom(data, pos + 1 + n)
        else
          var name := GuestPrefixed(body);
          if name.None? then Truncated
          else if name.value.0 != NAME then GuestFrom(data, pos + 1 + n)
          else if name.value.1 == |body| then Truncated
          else Found(body[name.value.1])
  }

  method ReadPrefixed(s: seq<Byte>) returns (r: Option<(seq<Byte>, nat)>)
    ensures r == GuestPrefixed(s)
  {
    var size := ReadLeb(s);
    if size.None? {
      return None;
    }
    GroupsLength(s, 10);
    if |s| - size.value.1 < size.value.0 {
      return None;
    }
    return Some((s[size.value.1..size.value.1 + size.value.0], size.value.1 + size.value.0));
  }

  method ReadAbiVer(wasm: seq<Byte>) returns (r: Answer)
    ensures r == if |wasm| < 8 || wasm[..4] != MAGIC then NotWasm else GuestFrom(wasm, 8)
  {
    if |wasm| < 8 || wasm[0..4] != MAGIC {
      return NotWasm;
    }
    var off := 8;
    while off < |wasm|
      invariant 8 <= off <= |wasm| && GuestFrom(wasm, off) == GuestFrom(wasm, 8)
      decreases |wasm| - off
    {
      var id := wasm[off];
      var section := ReadPrefixed(wasm[off + 1..]);
      if section.None? {
        return Truncated;
      }
      var (body, n) := section.value;
      off := off + 1 + n;
      if id != 0 {
        continue;
      }
      var name := ReadPrefixed(body);
      if name.None? {
        return Truncated;
      }
      if name.value.0 != NAME {
        continue;
      }
      if name.value.1 == |body| {
        return Truncated;
      }
      return Found(body[name.value.1]);
    }
    return Absent;
  }

  // ---- the two readers agree on the sections ----

  /** Whatever the grammar accepts as a u32 the guest reads as the same number. */
  lemma {:induction false} GrammarIsGroups(n: nat, s: seq<Byte>, left: nat)
    requires GrammarU(n, s).Some? && 0 < left && n <= 7 * left
    ensures Groups(s, left) == GrammarU(n, s) && GrammarU(n, s).value.0 < Pow2(n)
  {
    if s[0] >= 128 {
      GrammarIsGroups(n - 7, s[1..], left - 1);
      Pow2Shift(n);
    }
  }

  lemma {:induction false} U32Fits(n: nat)
    requires n < Pow2(32)
    ensures n < TWO64
  {
    Pow2Shift(32);
    Pow2Shift(25);
    Pow2Shift(18);
    assert Pow2(11) == 2048;
  }

  lemma {:induction false} GuestReadsU32(s: seq<Byte>)
    requires GrammarU(32, s).Some?
    ensures GuestLeb(s) == GrammarU(32, s)
  {
    GrammarIsGroups(32, s, 10);
    U32Fits(GrammarU(32, s).value.0);
  }

  lemma {:induction false} GuestReadsPrefixed(s: seq<Byte>)
    requires GrammarU(32, s).Some? && GrammarU(32, s).value.1 + GrammarU(32, s).value.0 <= |s|
    ensures var (size, k) := GrammarU(32, s).value; GuestPrefixed(s) == Some((s[k..k + size], k + size))
  {
    GuestReadsU32(s);
  }

  lemma {:induction false} GuestReadsSection(data: seq<Byte>, pos: nat)
    requires pos < |data| && SectionAt(data, pos).Some?
    ensures var (sec, next) := SectionAt(data, pos).value;
      GuestPrefixed(data[pos + 1..]) == Some((sec.body, next - pos - 1))
  {
    var (sec, next) := SectionAt(data, pos).value;
    var s := data[pos + 1..];
    var (size, k) := GrammarU(32, s).value;
    GuestReadsPrefixed(s);
    assert s[k..k + size] == sec.body;
  }

  lemma {:induction false} GuestReadsName(body: seq<Byte>)
    requires Named(body).Some?
    ensures var (name, payload) := Named(body).value;
      GuestPrefixed(body) == Some((name, |body| - |payload|)) && (payload != [] ==> payload[0] == body[|body| - |payload|])
  {
    GuestReadsPrefixed(body);
  }

  /** How the guest treats one section that the format accepts. */
  lemma {:induction false} GuestOne(data: seq<Byte>, pos: nat, sec: Section, next: nat)
    requires pos < |data| && SectionAt(data, pos) == Some((sec, next))
    requires sec.id == 0 ==> Named(sec.body).Some?
    ensures GuestFrom(data, pos) ==
      var payload := Payload(sec);
      if payload.None? then GuestFrom(data, next)
      else if payload.value == [] then Truncated
      else Found(payload.value[0])
  {
    GuestReadsSection(data, pos);
    if sec.id == 0 {
      GuestReadsName(sec.body);
    }
  }

  /** On a tiled, well-named module the guest answers with the first stamp. */
  lemma {:induction false} GuestFindsFirst(data: seq<Byte>, pos: nat, secs: seq<Section>)
    requires pos <= |data| && Tile(data, pos) == Some(secs) && WellNamed(secs)
    ensures GuestFrom(data, pos) == FirstStamp(secs)
    decreases |data| - pos
  {
    if pos < |data| {
      var (sec, next) := SectionAt(data, pos).value;
      assert secs[0] == sec && Tile(data, next) == Some(secs[1..]);
      GuestOne(data, pos, sec, next);
      GuestFindsFirst(data, next, secs[1..]);
    }
  }

  // ---- the writer ----

  /** The script's loop. */
  method Leb(value: nat) returns (out: seq<Byte>)
    ensures out == EncodeU(value)
  {
    out := [];
    var n := value;
    while true
      invariant EncodeU(value) == out + EncodeU(n)
      decreases n
    {
      var low := n % 128;
      n := n / 128;
      out := out + [if n != 0 then low + 128 else low];
      if n == 0 {
        return;
      }
    }
  }

  function Stamped(version: Byte): Section {
    Section(0, [7] + NAME + [version])
  }

  function StampSection(version: Byte): seq<Byte> {
    [0, 9] + Stamped(version).body
  }

  /** The stamped module; nothing when the input does not start as a module. */
  method Stamp(module_: seq<Byte>, version: Byte) returns (r: Option<seq<Byte>>)
    ensures r == if MAGIC <= module_ then Some(module_ + StampSection(version)) else None
  {
    if |module_| < 4 || module_[..4] != MAGIC {
      return None;
    }
    var nameLength := Leb(|NAME|);
    var body := nameLength + NAME + [version];
    var size := Leb(|body|);
    assert EncodeU(7) == [7] && EncodeU(9) == [9];
    assert [0] + size + body == StampSection(version);
    r := Some(module_ + ([0] + size + body));
  }

  // ---- stamping is read back ----

  lemma {:induction false} SectionAppend(data: seq<Byte>, pos: nat, tail: seq<Byte>, all: seq<Byte>)
    requires pos < |data| && SectionAt(data, pos).Some? && all == data + tail
    ensures SectionAt(all, pos) == SectionAt(data, pos)
  {
    var s := data[pos + 1..];
    GrammarUPrefix(32, s, tail);
    assert all[pos + 1..] == s + tail;
    var (size, k) := GrammarU(32, s).value;
    var start := pos + 1 + k;
    assert start + size <= |data|;
    assert all[start..start + size] == data[start..start + size];
  }

  /** Every section of `data` is a section of `all` at the same place. */
  ghost predicate Extends(data: seq<Byte>, all: seq<Byte>) {
    |data| <= |all| &&
    forall pos: nat {:trigger SectionAt(data, pos)} ::
      pos < |data| && SectionAt(data, pos).Some? ==> SectionAt(all, pos) == SectionAt(data, pos)
  }

  lemma {:induction false} TileAppend(data: seq<Byte>, pos: nat, all: seq<Byte>, secs: seq<Section>, last: seq<Section>)
    requires Extends(data, all) && pos <= |data| && Tile(data, pos) == Some(secs) && Tile(all, |data|) == Some(last)
    ensures Tile(all, pos) == Some(secs + last)
    decreases |data| - pos
  {
    if pos < |data| {
      var (sec, next) := SectionAt(data, pos).value;
      var rest := Tile(data, next).value;
      TileAppend(data, next, all, rest, last);
      assert [sec] + (rest + last) == ([sec] + rest) + last;
    } else {
      assert [] + last == last;
    }
  }

  lemma {:induction false} AppendExtends(data: seq<Byte>, tail: seq<Byte>)
    ensures Extends(data, data + tail)
  {
    var all := data + tail;
    forall pos: nat | pos < |data| && SectionAt(data, pos).Some?
      ensures SectionAt(all, pos) == SectionAt(data, pos)
    {
      SectionAppend(data, pos, tail, all);
    }
  }

  /** A one-byte u32. */
  lemma {:induction false} SmallU32(s: seq<Byte>)
    requires s != [] && s[0] < 16
    ensures GrammarU(32, s) == Some((s[0], 1))
  {
    assert Pow2(4) == 16;
    Pow2Grows(4, 32);
  }

  lemma {:induction false} StampIsNamed(version: Byte)
    ensures Payload(Stamped(version)) == Some([version])
  {
    var body := Stamped(version).body;
    SmallU32(body);
    assert body[1..8] == NAME && body[8..] == [version];
  }

  /** A short section that ends the data is the last tile. */
  lemma {:induction false} LastSection(data: seq<Byte>, n: nat)
    requires n + 2 <= |data| && data[n + 1] < 16 && |data| == n + 2 + data[n + 1]
    ensures SectionAt(data, n) == Some((Section(data[n], data[n + 2..]), |data|))
  {
    SmallU32(data[n + 1..]);
    assert data[n + 2..|data|] == data[n + 2..];
  }

  lemma {:induction false} LastTile(data: seq<Byte>, n: nat)
    requires n + 2 <= |data| && data[n + 1] < 16 && |data| == n + 2 + data[n + 1]
    ensures Tile(data, n) == Some([Section(data[n], data[n + 2..])])
  {
    LastSection(data, n);
    var last := [Section(data[n], data[n + 2..])];
    assert Tile(data, |data|) == Some([]) && last + [] == last;
  }

  lemma {:induction false} StampBytes(data: seq<Byte>, version: Byte)
    ensures var all, n := data + StampSection(version), |data|;
      |all| == n + 11 && all[n] == 0 && all[n + 1] == 9 && all[n + 2..] == Stamped(version).body
  {
    var stamp := StampSection(version);
    assert |stamp| == 11 && stamp[0] == 0 && stamp[1] == 9 && stamp[2..] == Stamped(version).body;
    assert (data + stamp)[|data| + 2..] == stamp[2..];
  }

  lemma {:induction false} StampTiles(data: seq<Byte>, version: Byte, all: seq<Byte>)
    requires all == data + StampSection(version)
    ensures Tile(all, |data|) == Some([Stamped(version)])
  {
    StampBytes(data, version);
    LastTile(all, |data|);
  }

  lemma {:induction false} FirstStampAppend(secs: seq<Section>, version: Byte)
    requires Payload(Stamped(version)) == Some([version])
    ensures FirstStamp(secs + [Stamped(version)]) ==
      if FirstStamp(secs).Absent? then Found(version) else FirstStamp(secs)
  {
    var all := secs + [Stamped(version)];
    if secs == [] {
      assert all[0] == Stamped(version);
    } else {
      assert all[0] == secs[0] && all[1..] == secs[1..] + [Stamped(version)];
      FirstStampAppend(secs[1..], version);
    }
  }

  /** Stamping an accepted module that has room for one more section: the kernel accepts the
      result and always reports the new version; the guest reports it exactly when the
      module carried no stamp, and otherwise keeps answering as before. */
  lemma {:induction false} StampIsRead(decodes: seq<Section> -> bool, data: seq<Byte>, version: Byte)
    requires KernelAccepts(decodes, data)
    ensures var secs, all := Tile(data, 8).value, data + StampSection(version);
      && (KernelAccepts(decodes, all) <==> |secs| < MAX_SECTIONS)
      && Tile(all, 8).Some? && LastStamp(Tile(all, 8).value) == Some(version)
      && GuestFrom(all, 8) == if GuestFrom(data, 8).Absent? then Found(version) else GuestFrom(data, 8)
  {
    var secs, all := Tile(data, 8).value, data + StampSection(version);
    StampTiles(data, version, all);
    StampIsNamed(version);
    var both := secs + [Stamped(version)];
    AppendExtends(data, StampSection(version));
    TileAppend(data, 8, all, secs, [Stamped(version)]);
    assert Tile(all, 8) == Some(both);
    assert both[..|secs|] == secs && both[|secs|] == Stamped(version);
    assert WellNamed(both);
    assert all[..4] == data[..4] && all[4..8] == data[4..8];
    GuestFindsFirst(data, 8, secs);
    GuestFindsFirst(all, 8, both);
    FirstStampAppend(secs, version);
  }

  /** A second stamp is seen by the kernel and not by the guest. */
  lemma {:induction false} SecondStamp(decodes: seq<Section> -> bool, data: seq<Byte>, first: Byte, second: Byte)
    requires KernelAccepts(decodes, data) && |Tile(data, 8).value| < MAX_SECTIONS - 1
    requires GuestFrom(data, 8).Absent?
    ensures var all := data + StampSection(first) + StampSection(second);
      && KernelAccepts(decodes, all)
      && LastStamp(Tile(all, 8).value) == Some(second) && GuestFrom(all, 8) == Found(first)
  {
    StampIsRead(decodes, data, first);
    StampTiles(data, first, data + StampSection(first));
    AppendExtends(data, StampSection(first));
    TileAppend(data, 8, data + StampSection(first), Tile(data, 8).value, [Stamped(first)]);
    StampIsRead(decodes, data + StampSection(first), second);
  }
}
