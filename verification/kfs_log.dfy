/** A log of framed records on a volume, whatever the framing: where its records lie and
    what a reader that inverts the framing makes of it. */
module KfsLog {
  import opened Options
  import opened Words

  const HEADER: nat := 9
  const MAX_PAYLOAD: nat := 65536

  datatype Record = Record(typ: Byte, payload: seq<Byte>)

  /** A log as bytes. */
  function Bytes(frame: Record -> seq<Byte>, log: seq<Record>): seq<Byte> {
    if log == [] then [] else Bytes(frame, log[..|log| - 1]) + frame(log[|log| - 1])
  }

  /** A frame is a header and the payload. */
  ghost predicate Sized(frame: Record -> seq<Byte>) {
    forall r: Record {:trigger frame(r)} :: |frame(r)| == 9 + |r.payload|
  }

  predicate Fits(log: seq<Record>, i: nat)
    requires i < |log|
  {
    |log[i].payload| <= MAX_PAYLOAD
  }

  /** No payload is over the limit. */
  predicate Readable(log: seq<Record>) {
    forall i {:trigger Fits(log, i)} :: 0 <= i < |log| ==> Fits(log, i)
  }

  lemma {:induction false} FirstUnreadable(log: seq<Record>) returns (i: nat)
    requires !Readable(log)
    ensures i < |log| && |log[i].payload| > MAX_PAYLOAD && Readable(log[..i])
  {
    var n := |log| - 1;
    var front := log[..n];
    if Readable(front) {
      i := n;
      if |log[n].payload| <= MAX_PAYLOAD {
        forall k | 0 <= k < |log| ensures Fits(log, k) {
          if k < n { assert Fits(front, k); }
        }
      }
    } else {
      i := FirstUnreadable(front);
      assert front[..i] == log[..i];
    }
  }

  /** The volume holds these bytes at `pos`. */
  predicate At(v: seq<Byte>, pos: nat, raw: seq<Byte>) {
    pos + |raw| <= |v| && forall i {:trigger raw[i]} :: 0 <= i < |raw| ==> v[pos + i] == raw[i]
  }

  lemma {:induction false} AtSlice(v: seq<Byte>, pos: nat, raw: seq<Byte>, i: nat, j: nat)
    requires At(v, pos, raw) && i <= j <= |raw|
    ensures v[pos + i..pos + j] == raw[i..j]
  {
  }

  lemma {:induction false} AtSplit(v: seq<Byte>, pos: nat, a: seq<Byte>, b: seq<Byte>)
    ensures At(v, pos, a + b) <==> At(v, pos, a) && At(v, pos + |a|, b)
  {
    var ab := a + b;
    if At(v, pos, ab) {
      forall i | 0 <= i < |a| ensures v[pos + i] == a[i] { assert ab[i] == a[i]; }
      forall i | 0 <= i < |b| ensures v[pos + |a| + i] == b[i] { assert ab[|a| + i] == b[i]; }
    }
    if At(v, pos, a) && At(v, pos + |a|, b) {
      forall i | 0 <= i < |ab| ensures v[pos + i] == ab[i] {
        if i < |a| { assert ab[i] == a[i]; } else { assert ab[i] == b[i - |a|]; }
      }
    }
  }

  lemma {:induction false} BytesStep(frame: Record -> seq<Byte>, log: seq<Record>, i: nat)
    requires i < |log|
    ensures Bytes(frame, log[..i + 1]) == Bytes(frame, log[..i]) + frame(log[i])
  {
    assert log[..i + 1][..i] == log[..i];
  }

  lemma {:induction false} BytesAppend(frame: Record -> seq<Byte>, log: seq<Record>, r: Record)
    ensures Bytes(frame, log + [r]) == Bytes(frame, log) + frame(r)
  {
    assert (log + [r])[..|log|] == log;
  }

  lemma {:induction false} PrefixAt(frame: Record -> seq<Byte>, v: seq<Byte>, pos: nat, log: seq<Record>, i: nat, n: nat)
    requires i <= n <= |log| && At(v, pos, Bytes(frame, log[..n]))
    ensures At(v, pos, Bytes(frame, log[..i]))
  {
    if i < n {
      BytesStep(frame, log, n - 1);
      AtSplit(v, pos, Bytes(frame, log[..n - 1]), frame(log[n - 1]));
      PrefixAt(frame, v, pos, log, i, n - 1);
    }
  }

  /** Record i of a log lies right after those before it. */
  lemma {:induction false} LogAt(frame: Record -> seq<Byte>, v: seq<Byte>, pos: nat, log: seq<Record>, i: nat)
    requires i < |log| && At(v, pos, Bytes(frame, log))
    ensures var before := Bytes(frame, log[..i]);
      && At(v, pos, before) && At(v, pos + |before|, frame(log[i]))
      && |Bytes(frame, log[..i + 1])| == |before| + |frame(log[i])|
  {
    assert log[..|log|] == log;
    PrefixAt(frame, v, pos, log, i + 1, |log|);
    BytesStep(frame, log, i);
    AtSplit(v, pos, Bytes(frame, log[..i]), frame(log[i]));
  }

  // ---- reading ----

  /** Reading one record after the other until one cannot be read. */
  function Scan(read: nat -> Option<(Record, nat)>, pos: nat, limit: nat): seq<Record>
    decreases if pos <= limit then limit - pos else 0
  {
    match read(pos)
    case None => []
    case Some((r, next)) => if pos < next <= limit then [r] + Scan(read, next, limit) else []
  }

  /** The reader reads back every frame on the volume whose payload is within the limit. */
  ghost predicate Inverse(frame: Record -> seq<Byte>, read: nat -> Option<(Record, nat)>, v: seq<Byte>) {
    forall pos: nat, r: Record {:trigger At(v, pos, frame(r))} ::
      At(v, pos, frame(r)) && |r.payload| <= MAX_PAYLOAD ==> read(pos) == Some((r, pos + |frame(r)|))
  }

  /** Record k is read at its place and leads to the next. */
  predicate Leads(read: nat -> Option<(Record, nat)>, at: seq<nat>, log: seq<Record>, k: nat, limit: nat)
    requires |at| == |log| + 1 && k < |log|
  {
    read(at[k]) == Some((log[k], at[k + 1])) && at[k] < at[k + 1] <= limit
  }

  predicate AllLead(read: nat -> Option<(Record, nat)>, at: seq<nat>, log: seq<Record>, limit: nat) {
    |at| == |log| + 1 &&
    forall k {:trigger Leads(read, at, log, k, limit)} :: 0 <= k < |log| ==> Leads(read, at, log, k, limit)
  }

  lemma {:induction false} ScanLog(read: nat -> Option<(Record, nat)>, at: seq<nat>, log: seq<Record>, i: nat, limit: nat)
    requires AllLead(read, at, log, limit) && i <= |log|
    ensures Scan(read, at[i], limit) == log[i..] + Scan(read, at[|log|], limit)
    decreases |log| - i
  {
    if i < |log| {
      assert Leads(read, at, log, i, limit);
      ScanLog(read, at, log, i + 1, limit);
      assert log[i..] == [log[i]] + log[i + 1..];
    }
  }

  /** Where the records of a log begin, and where it ends. */
  ghost function Offsets(frame: Record -> seq<Byte>, log: seq<Record>, pos: nat): (at: seq<nat>)
    ensures |at| == |log| + 1 && forall i :: 0 <= i <= |log| ==> at[i] == pos + |Bytes(frame, log[..i])|
  {
    seq(|log| + 1, i requires 0 <= i <= |log| => pos + |Bytes(frame, log[..i])|)
  }

  /** Record k lies at its offset, and the next one right after it. */
  predicate Laid(frame: Record -> seq<Byte>, v: seq<Byte>, at: seq<nat>, log: seq<Record>, k: nat)
    requires |at| == |log| + 1 && k < |log|
  {
    At(v, at[k], frame(log[k])) && at[k + 1] == at[k] + |frame(log[k])|
  }

  predicate AllLaid(frame: Record -> seq<Byte>, v: seq<Byte>, at: seq<nat>, log: seq<Record>) {
    |at| == |log| + 1 && forall k {:trigger Laid(frame, v, at, log, k)} :: 0 <= k < |log| ==> Laid(frame, v, at, log, k)
  }

  lemma {:induction false} LogIsLaid(frame: Record -> seq<Byte>, v: seq<Byte>, pos: nat, log: seq<Record>)
    requires At(v, pos, Bytes(frame, log))
    ensures var at := Offsets(frame, log, pos);
      AllLaid(frame, v, at, log) && at[0] == pos && at[|log|] == pos + |Bytes(frame, log)|
  {
    var at := Offsets(frame, log, pos);
    forall k | 0 <= k < |log| ensures Laid(frame, v, at, log, k) { LogAt(frame, v, pos, log, k); }
    assert log[..|log|] == log && log[..0] == [];
  }

  lemma {:induction false} LaidLeads(frame: Record -> seq<Byte>, read: nat -> Option<(Record, nat)>, v: seq<Byte>, at: seq<nat>, log: seq<Record>)
    requires Inverse(frame, read, v) && Sized(frame) && Readable(log) && AllLaid(frame, v, at, log)
    ensures AllLead(read, at, log, |v|)
  {
    forall k | 0 <= k < |log| ensures Leads(read, at, log, k, |v|) {
      assert Fits(log, k) && Laid(frame, v, at, log, k);
    }
  }

  lemma {:induction false} ScanReads(frame: Record -> seq<Byte>, read: nat -> Option<(Record, nat)>, v: seq<Byte>, pos: nat, log: seq<Record>)
    requires Inverse(frame, read, v) && Sized(frame) && Readable(log) && At(v, pos, Bytes(frame, log))
    ensures Scan(read, pos, |v|) == log + Scan(read, pos + |Bytes(frame, log)|, |v|)
  {
    var at := Offsets(frame, log, pos);
    LogIsLaid(frame, v, pos, log);
    LaidLeads(frame, read, v, at, log);
    ScanLog(read, at, log, 0, |v|);
    assert log[0..] == log;
  }
}
