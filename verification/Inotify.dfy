// internal/inotify/inotify.go: decoding the kernel's stream of variable-sized records
// (struct inotify_event of inotify(7), integers in little-endian host order).

module Inotify {
  import opened Nodes

  type Word = n: nat | n < 0x1_0000_0000
  type Wd = w: int | -0x8000_0000 <= w < 0x8000_0000

  const HEADER: nat := 16

  datatype Event = Event(wd: Wd, mask: Word, cookie: Word, name: Bytes)

  function Word4(b: Bytes): Word
    requires |b| == 4
  {
    var b0: int, b1: int, b2: int, b3: int := b[0], b[1], b[2], b[3];
    b0 + 256 * b1 + 65536 * b2 + 16777216 * b3
  }

  function Signed(n: Word): Wd {
    if n < 0x8000_0000 then n else n - 0x1_0000_0000
  }

  function IndexOf(b: Bytes, c: Byte): int {
    if b == [] then -1
    else
      var i := IndexOf(b[..|b| - 1], c);
      if i >= 0 then i else if b[|b| - 1] == c then |b| - 1 else -1
  }

  lemma {:induction false} IndexOfIs(b: Bytes, c: Byte)
    ensures var i := IndexOf(b, c);
      -1 <= i < |b| && (i >= 0 ==> b[i] == c) && forall j :: 0 <= j < (if i >= 0 then i else |b|) ==> b[j] != c
  {
    if b != [] { IndexOfIs(b[..|b| - 1], c); }
  }

  /** The name runs up to the first NUL, if there is one. */
  function Name(field: Bytes): Bytes {
    var i := IndexOf(field, 0);
    IndexOfIs(field, 0);
    if i >= 0 then field[..i] else field
  }

  function Length(buf: Bytes): nat
    requires |buf| >= HEADER
  {
    HEADER + Word4(buf[12..16])
  }

  function Decode(buf: Bytes): Event
    requires |buf| >= HEADER && |buf| >= Length(buf)
  {
    Event(Signed(Word4(buf[0..4])), Word4(buf[4..8]), Word4(buf[8..12]), Name(buf[HEADER..Length(buf)]))
  }

  /** Record after record, until what is left is no whole record. */
  function Parse(buf: Bytes): seq<Event> {
    if |buf| < HEADER || |buf| < Length(buf) then []
    else [Decode(buf)] + Parse(buf[Length(buf)..])
  }

  method IndexByte(b: Bytes, c: Byte) returns (i: int)
    ensures i == IndexOf(b, c)
  {
    for j := 0 to |b|
      invariant IndexOf(b[..j], c) == -1
    {
      assert b[..j + 1][..j] == b[..j];
      if b[j] == c {
        FoundStays(b, c, j + 1);
        return j;
      }
    }
    assert b[..|b|] == b;
    return -1;
  }

  lemma {:induction false} FoundStays(b: Bytes, c: Byte, n: nat)
    requires n <= |b| && IndexOf(b[..n], c) >= 0
    ensures IndexOf(b, c) == IndexOf(b[..n], c)
    decreases |b| - n
  {
    if n < |b| {
      assert b[..n + 1][..n] == b[..n];
      FoundStays(b, c, n + 1);
    } else {
      assert b[..n] == b;
    }
  }

  /** The loop over the buffer; every read stays within it. */
  method ParseBuffer(buf: Bytes) returns (out: seq<Event>)
    ensures out == Parse(buf)
  {
    hide Word4, Parse, Decode, Name, Signed, Length;
    out := [];
    var off := 0;
    AtStart(buf);
    while off + HEADER <= |buf|
      invariant 0 <= off <= |buf|
      invariant Parse(buf) == out + Parse(buf[off..])
      decreases |buf| - off
    {
      var nameLen := Word4(buf[off + 12..off + 16]);
      if off + HEADER + nameLen > |buf| {
        Truncated(buf, off);
        return;
      }
      var name: Bytes := [];
      if nameLen > 0 {
        name := TextOf(buf[off + HEADER..off + HEADER + nameLen]);
      }
      OneRecord(buf, off, nameLen, name);
      var ev := Event(Signed(Word4(buf[off..off + 4])), Word4(buf[off + 4..off + 8]), Word4(buf[off + 8..off + 12]), name);
      Regroup(out, ev, Parse(buf[off + HEADER + nameLen..]));
      out := out + [ev];
      off := off + HEADER + nameLen;
    }
    NothingLeft(buf, off);
  }

  method TextOf(field: Bytes) returns (name: Bytes)
    ensures name == Name(field)
  {
    hide IndexOf;
    var idx := IndexByte(field, 0);
    IndexOfIs(field, 0);
    name := if idx >= 0 then field[..idx] else field;
  }

  lemma AtStart(buf: Bytes)
    ensures Parse(buf) == [] + Parse(buf[0..])
  {
    assert buf[0..] == buf;
  }

  lemma Regroup(out: seq<Event>, ev: Event, rest: seq<Event>)
    ensures out + ([ev] + rest) == (out + [ev]) + rest
  {
  }

  lemma NothingLeft(buf: Bytes, off: nat)
    requires off <= |buf| < off + HEADER
    ensures Parse(buf[off..]) == []
  {
  }

  lemma Truncated(buf: Bytes, off: nat)
    requires off + HEADER <= |buf| && off + HEADER + Word4(buf[off + 12..off + 16]) > |buf|
    ensures Parse(buf[off..]) == []
  {
    hide Word4;
    Header(buf, off);
  }

  lemma OneRecord(buf: Bytes, off: nat, nameLen: nat, name: Bytes)
    requires off + HEADER + nameLen <= |buf| && nameLen == Word4(buf[off + 12..off + 16])
    requires if nameLen > 0 then name == Name(buf[off + HEADER..off + HEADER + nameLen]) else name == []
    ensures Parse(buf[off..]) ==
      [Event(Signed(Word4(buf[off..off + 4])), Word4(buf[off + 4..off + 8]), Word4(buf[off + 8..off + 12]), name)]
      + Parse(buf[off + HEADER + nameLen..])
  {
    hide Word4, Name, Signed;
    Header(buf, off);
    NameOf(buf, off, nameLen, name);
  }

  lemma Header(buf: Bytes, off: nat)
    requires off + HEADER <= |buf|
    ensures var rest := buf[off..];
      && rest[0..4] == buf[off..off + 4] && rest[4..8] == buf[off + 4..off + 8]
      && rest[8..12] == buf[off + 8..off + 12] && rest[12..16] == buf[off + 12..off + 16]
  {
  }

  lemma NameOf(buf: Bytes, off: nat, nameLen: nat, name: Bytes)
    requires off + HEADER + nameLen <= |buf| && nameLen == Word4(buf[off + 12..off + 16])
    requires if nameLen > 0 then name == Name(buf[off + HEADER..off + HEADER + nameLen]) else name == []
    ensures var rest := buf[off..];
      && |rest| >= HEADER && Length(rest) == HEADER + nameLen
      && Name(rest[HEADER..Length(rest)]) == name
      && rest[Length(rest)..] == buf[off + HEADER + nameLen..]
  {
    hide Word4;
    Header(buf, off);
    var rest := buf[off..];
    assert rest[HEADER..HEADER + nameLen] == buf[off + HEADER..off + HEADER + nameLen];
    IndexOfIs(rest[HEADER..HEADER + nameLen], 0);
  }

  // ---------------------------------------------------------------------- encoding

  /** What the kernel writes: an event and the number of NULs after its name. */
  datatype Record = Record(event: Event, padding: nat)

  predicate Encodable(r: Record) {
    0 !in r.event.name && |r.event.name| + r.padding < 0x1_0000_0000
  }

  function Bytes4(n: Word): (b: Bytes)
    ensures |b| == 4
  {
    var n1 := n / 256;
    var n2 := n1 / 256;
    [n % 256, n1 % 256, n2 % 256, n2 / 256]
  }

  function Unsigned(w: Wd): Word {
    if w >= 0 then w else w + 0x1_0000_0000
  }

  function Zeros(n: nat): (z: Bytes)
    ensures |z| == n && forall i :: 0 <= i < n ==> z[i] == 0
  {
    seq(n, i => 0)
  }

  function Encode(r: Record): (b: Bytes)
    requires Encodable(r)
    ensures |b| == HEADER + |r.event.name| + r.padding
  {
    var e := r.event;
    Bytes4(Unsigned(e.wd)) + Bytes4(e.mask) + Bytes4(e.cookie) + Bytes4(|e.name| + r.padding) + e.name + Zeros(r.padding)
  }

  function EncodeAll(records: seq<Record>): Bytes
    requires forall r :: r in records ==> Encodable(r)
  {
    if records == [] then [] else Encode(records[0]) + EncodeAll(records[1..])
  }

  function EventsOf(records: seq<Record>): seq<Event> {
    if records == [] then [] else [records[0].event] + EventsOf(records[1..])
  }

  lemma WordRoundTrip(n: Word)
    ensures Word4(Bytes4(n)) == n
  {
  }

  lemma SignRoundTrip(w: Wd)
    ensures Signed(Unsigned(w)) == w
  {
  }

  lemma NameRoundTrip(name: Bytes, padding: nat)
    requires 0 !in name
    ensures Name(name + Zeros(padding)) == name
  {
    var field := name + Zeros(padding);
    IndexOfIs(field, 0);
    var i := IndexOf(field, 0);
    assert forall j :: 0 <= j < |name| ==> field[j] == name[j];
    if padding > 0 { assert field[|name|] == 0; }
  }

  /** The fields of a record, at the front of any buffer that starts with it. */
  lemma FieldsAt(r: Record, tail: Bytes, buf: Bytes)
    requires Encodable(r) && buf == Encode(r) + tail
    ensures buf[0..4] == Bytes4(Unsigned(r.event.wd)) && buf[4..8] == Bytes4(r.event.mask)
    ensures buf[8..12] == Bytes4(r.event.cookie) && buf[12..16] == Bytes4(|r.event.name| + r.padding)
    ensures buf[HEADER..|Encode(r)|] == r.event.name + Zeros(r.padding)
    ensures buf[|Encode(r)|..] == tail
  {
    hide Bytes4, Zeros;
  }

  lemma RecordAtFront(r: Record, tail: Bytes)
    requires Encodable(r)
    ensures Parse(Encode(r) + tail) == [r.event] + Parse(tail)
  {
    hide Word4, Bytes4, Name, Signed, Unsigned, Encode;
    var buf := Encode(r) + tail;
    FieldsAt(r, tail, buf);
    WordRoundTrip(Unsigned(r.event.wd));
    SignRoundTrip(r.event.wd);
    WordRoundTrip(r.event.mask);
    WordRoundTrip(r.event.cookie);
    WordRoundTrip(|r.event.name| + r.padding);
    NameRoundTrip(r.event.name, r.padding);
    assert Length(buf) == |Encode(r)|;
    assert Decode(buf) == r.event;
  }

  /** A buffer that ends within a record holds nothing more to parse. */
  lemma TruncatedIsDropped(r: Record, n: nat)
    requires Encodable(r) && n < |Encode(r)|
    ensures Parse(Encode(r)[..n]) == []
  {
    hide Word4, Bytes4, Zeros;
    if n >= HEADER {
      var cut := Encode(r)[..n];
      FieldsAt(r, [], Encode(r) + []);
      assert Encode(r) + [] == Encode(r);
      assert cut[12..16] == Encode(r)[12..16];
      WordRoundTrip(|r.event.name| + r.padding);
    }
  }

  /**
   * Parsing the kernel's layout of any list of events with NUL-free names and any NUL padding, followed
   * by any proper part of one more record, returns that list: the cut record is dropped and only it.
   */
  lemma {:induction false} ParseRoundTrip(records: seq<Record>, last: Record, n: nat)
    requires (forall r :: r in records ==> Encodable(r)) && Encodable(last) && n < |Encode(last)|
    ensures Parse(EncodeAll(records) + Encode(last)[..n]) == EventsOf(records)
    decreases |records|
  {
    hide Encode, Parse;
    var tail := Encode(last)[..n];
    if records == [] {
      assert EncodeAll(records) + tail == tail;
      TruncatedIsDropped(last, n);
    } else {
      var rest := EncodeAll(records[1..]) + tail;
      assert records[0] in records && forall r :: r in records[1..] ==> r in records;
      assert EncodeAll(records) + tail == Encode(records[0]) + rest;
      RecordAtFront(records[0], rest);
      ParseRoundTrip(records[1..], last, n);
    }
  }
}
