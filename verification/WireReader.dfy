/** Framing of Postgres and MySQL traffic: the packets read do not depend on how TCP cut the bytes. */
module WireReader {
  import opened Options

  type Byte = b: int | 0 <= b < 256

  const MAX_PACKET := 16 * 1024 * 1024

  datatype Provider = Postgres | MySql

  /** What the reader hands out: a Postgres type byte and the payload; MySQL packets have no type. */
  datatype Packet = Packet(tag: Option<Byte>, payload: seq<Byte>)

  function HeaderSize(provider: Provider, startup: bool): nat {
    if provider.MySql? || startup then 4 else 5
  }

  function BigEndian32(b: seq<Byte>, at: nat): nat
    requires at + 4 <= |b|
  {
    var b0: int, b1: int, b2: int, b3: int := b[at], b[at + 1], b[at + 2], b[at + 3];
    b0 * 16777216 + b1 * 65536 + b2 * 256 + b3
  }

  function LittleEndian24(b: seq<Byte>): nat
    requires 3 <= |b|
  {
    var b0: int, b1: int, b2: int := b[0], b[1], b[2];
    b0 + b1 * 256 + b2 * 65536
  }

  /** The length of the whole packet its header announces. */
  function Announced(provider: Provider, startup: bool, b: seq<Byte>): nat
    requires |b| >= HeaderSize(provider, startup)
  {
    if provider.MySql? then LittleEndian24(b) + 4
    else if startup then BigEndian32(b, 0)
    else BigEndian32(b, 1) + 1
  }

  function PacketIn(provider: Provider, b: seq<Byte>): Packet
    requires |b| >= HeaderSize(provider, false)
  {
    Packet(if provider.MySql? then None else Some(b[0]), b[HeaderSize(provider, false)..])
  }

  /** Packets read, bytes left, whether a startup packet is still due, and whether framing failed. */
  datatype Parsed = Parsed(packets: seq<Packet>, rest: seq<Byte>, startup: bool, failed: bool)

  /** Reading all bytes at once. */
  function Parse(provider: Provider, startup: bool, bytes: seq<Byte>): Parsed
    decreases |bytes|
  {
    var header := HeaderSize(provider, startup);
    if |bytes| < header then Parsed([], bytes, startup, false)
    else
      var length := Announced(provider, startup, bytes);
      if length < header || length > MAX_PACKET then Parsed([], bytes, startup, true)
      else if |bytes| < length then Parsed([], bytes, startup, false)
      else
        var more := Parse(provider, false, bytes[length..]);
        if startup then more else more.(packets := [PacketIn(provider, bytes[..length])] + more.packets)
  }

  // ------------------------------------------------------------------------------------------
  // The reader.

  class QualificationWireReader {
    const provider: Provider
    var startup: bool
    var buffer: seq<Byte>

    constructor (provider: Provider, startup: bool)
      ensures this.provider == provider && this.startup == startup && buffer == []
    {
      this.provider := provider;
      this.startup := startup;
      buffer := [];
    }

    /** Returns the packets the chunk completes; an invalid header is reported by `None`. */
    method Push(chunk: seq<Byte>) returns (packets: Option<seq<Packet>>)
      modifies this
      ensures var p := Parse(provider, old(startup), old(buffer) + chunk);
              && packets == (if p.failed then None else Some(p.packets))
              && buffer == p.rest && startup == p.startup
    {
      buffer := buffer + chunk;
      var found := [];
      ghost var all := Parse(provider, startup, buffer);
      assert [] + all.packets == all.packets;
      while true
        invariant all == Prefixed(found, Parse(provider, startup, buffer))
        decreases |buffer|
      {
        var header := HeaderSize(provider, startup);
        if |buffer| < header {
          break;
        }
        var length := Announced(provider, startup, buffer);
        if length < header || length > MAX_PACKET {
          return None;
        }
        if |buffer| < length {
          break;
        }
        var packet := buffer[..length];
        ghost var more := Parse(provider, false, buffer[length..]);
        PrefixedTwice(found, if startup then [] else [PacketIn(provider, packet)], more);
        assert [] + more.packets == more.packets;
        if !startup {
          found := found + [PacketIn(provider, packet)];
        }
        startup := false;
        buffer := buffer[length..];
      }
      assert found + [] == found;
      packets := Some(found);
    }
  }

  function Prefixed(packets: seq<Packet>, p: Parsed): Parsed {
    p.(packets := packets + p.packets)
  }

  lemma PrefixedTwice(a: seq<Packet>, b: seq<Packet>, p: Parsed)
    ensures Prefixed(a, Prefixed(b, p)) == Prefixed(a + b, p)
  {
    assert a + (b + p.packets) == a + b + p.packets;
  }

  // ------------------------------------------------------------------------------------------
  // Chunking.

  function Concat(chunks: seq<seq<Byte>>): seq<Byte> {
    if chunks == [] then [] else chunks[0] + Concat(chunks[1..])
  }

  /** Pushing chunk after chunk, stopping at the first failure; a push that fails returns nothing. */
  function Feed(provider: Provider, startup: bool, buffer: seq<Byte>, chunks: seq<seq<Byte>>): Parsed
    decreases |chunks|
  {
    if chunks == [] then Parsed([], buffer, startup, false)
    else
      var p := Parse(provider, startup, buffer + chunks[0]);
      if p.failed then p.(packets := []) else Prefixed(p.packets, Feed(provider, p.startup, p.rest, chunks[1..]))
  }

  /** The packets the first whole packet of a stream contributes. */
  function Head(provider: Provider, startup: bool, packet: seq<Byte>): seq<Packet>
    requires |packet| >= HeaderSize(provider, startup)
  {
    if startup then [] else [PacketIn(provider, packet)]
  }

  lemma ParseStep(provider: Provider, startup: bool, bytes: seq<Byte>)
    requires |bytes| >= HeaderSize(provider, startup)
    requires HeaderSize(provider, startup) <= Announced(provider, startup, bytes) <= MAX_PACKET
    requires Announced(provider, startup, bytes) <= |bytes|
    ensures var length := Announced(provider, startup, bytes);
            Parse(provider, startup, bytes) ==
            Prefixed(Head(provider, startup, bytes[..length]), Parse(provider, false, bytes[length..]))
  {
    var more := Parse(provider, false, bytes[Announced(provider, startup, bytes)..]);
    assert [] + more.packets == more.packets;
  }

  /** The bytes start with a whole packet under a valid header. */
  ghost predicate Whole(provider: Provider, startup: bool, bytes: seq<Byte>) {
    && |bytes| >= HeaderSize(provider, startup)
    && HeaderSize(provider, startup) <= Announced(provider, startup, bytes) <= MAX_PACKET
    && Announced(provider, startup, bytes) <= |bytes|
  }

  lemma AnnouncedAppend(provider: Provider, startup: bool, a: seq<Byte>, b: seq<Byte>)
    ensures |a| >= HeaderSize(provider, startup) ==>
              Announced(provider, startup, a + b) == Announced(provider, startup, a)
  {
  }

  lemma {:induction false} NotWhole(provider: Provider, startup: bool, a: seq<Byte>, b: seq<Byte>)
    requires !Whole(provider, startup, a)
    ensures var p, all := Parse(provider, startup, a), Parse(provider, startup, a + b);
            && (!p.failed ==> all == Prefixed(p.packets, Parse(provider, p.startup, p.rest + b)))
            && (p.failed ==> all.failed && p.packets == all.packets)
  {
    AnnouncedAppend(provider, startup, a, b);
    hide Announced;
  }

  /** Bytes that arrive later do not change what was read before. */
  lemma {:induction false} ParseAppend(provider: Provider, startup: bool, a: seq<Byte>, b: seq<Byte>)
    ensures var p, all := Parse(provider, startup, a), Parse(provider, startup, a + b);
            && (!p.failed ==> all == Prefixed(p.packets, Parse(provider, p.startup, p.rest + b)))
            && (p.failed ==> all.failed && p.packets == all.packets)
    decreases |a|
  {
    hide Parse, Announced;
    AnnouncedAppend(provider, startup, a, b);
    if Whole(provider, startup, a) {
      var length := Announced(provider, startup, a);
      ParseAppend(provider, false, a[length..], b);
      ParseStep(provider, startup, a);
      ParseStep(provider, startup, a + b);
      assert (a + b)[length..] == a[length..] + b && (a + b)[..length] == a[..length];
      var p := Parse(provider, false, a[length..]);
      if !p.failed {
        PrefixedTwice(Head(provider, startup, a[..length]), p.packets, Parse(provider, p.startup, p.rest + b));
      }
    } else {
      NotWhole(provider, startup, a, b);
    }
  }

  /** What is left in the buffer is less than one packet. */
  lemma {:induction false} RestIncomplete(provider: Provider, startup: bool, bytes: seq<Byte>)
    ensures var p := Parse(provider, startup, bytes);
            !p.failed ==>
              || |p.rest| < HeaderSize(provider, p.startup)
              || |p.rest| < Announced(provider, p.startup, p.rest) <= MAX_PACKET
    decreases |bytes|
  {
    var header := HeaderSize(provider, startup);
    if |bytes| >= header {
      var length := Announced(provider, startup, bytes);
      if header <= length <= MAX_PACKET && length <= |bytes| { RestIncomplete(provider, false, bytes[length..]); }
    }
  }

  /** Reparsing what was left over yields nothing new. */
  lemma ParseRest(provider: Provider, startup: bool, bytes: seq<Byte>)
    requires !Parse(provider, startup, bytes).failed
    ensures var p := Parse(provider, startup, bytes);
            Parse(provider, p.startup, p.rest) == Parsed([], p.rest, p.startup, false)
  {
    RestIncomplete(provider, startup, bytes);
    var p := Parse(provider, startup, bytes);
    if |p.rest| >= HeaderSize(provider, p.startup) { RestNotShort(provider, startup, bytes); }
  }

  lemma {:induction false} RestNotShort(provider: Provider, startup: bool, bytes: seq<Byte>)
    ensures var p := Parse(provider, startup, bytes);
            !p.failed && |p.rest| >= HeaderSize(provider, p.startup) ==>
              Announced(provider, p.startup, p.rest) >= HeaderSize(provider, p.startup)
    decreases |bytes|
  {
    var header := HeaderSize(provider, startup);
    if |bytes| >= header {
      var length := Announced(provider, startup, bytes);
      if header <= length <= MAX_PACKET && length <= |bytes| { RestNotShort(provider, false, bytes[length..]); }
    }
  }

  lemma FeedStep(provider: Provider, startup: bool, buffer: seq<Byte>, chunks: seq<seq<Byte>>)
    requires chunks != []
    ensures buffer + Concat(chunks) == buffer + chunks[0] + Concat(chunks[1..])
    ensures var p := Parse(provider, startup, buffer + chunks[0]);
            Feed(provider, startup, buffer, chunks) ==
            if p.failed then p.(packets := [])
            else Prefixed(p.packets, Feed(provider, p.startup, p.rest, chunks[1..]))
  {
  }

  /** Any chunking reads what one push of all bytes reads, and fails exactly when that fails. */
  lemma {:induction false} ChunkingIrrelevant(provider: Provider, startup: bool, buffer: seq<Byte>, chunks: seq<seq<Byte>>)
    requires Parse(provider, startup, buffer) == Parsed([], buffer, startup, false)
    ensures var fed, whole := Feed(provider, startup, buffer, chunks), Parse(provider, startup, buffer + Concat(chunks));
            && fed.failed == whole.failed
            && (!whole.failed ==> fed == whole)
            && (whole.failed ==> fed.packets <= whole.packets)
    decreases |chunks|
  {
    if chunks == [] {
      assert buffer + Concat(chunks) == buffer;
    } else {
      hide Parse, Announced, HeaderSize, Feed, Concat, Prefixed;
      FeedStep(provider, startup, buffer, chunks);
      var p := Parse(provider, startup, buffer + chunks[0]);
      ParseAppend(provider, startup, buffer + chunks[0], Concat(chunks[1..]));
      if !p.failed {
        ParseRest(provider, startup, buffer + chunks[0]);
        ChunkingIrrelevant(provider, p.startup, p.rest, chunks[1..]);
        var fed := Feed(provider, p.startup, p.rest, chunks[1..]);
        var whole := Parse(provider, p.startup, p.rest + Concat(chunks[1..]));
      }
    }
  }

  // ------------------------------------------------------------------------------------------
  // Writing packets.

  function Bytes32(n: nat): (b: seq<Byte>)
    requires n < 4294967296
    ensures |b| == 4
  {
    [n / 16777216, n / 65536 % 256, n / 256 % 256, n % 256]
  }

  function Bytes24(n: nat): (b: seq<Byte>)
    requires n < 16777216
    ensures |b| == 3
  {
    [n % 256, n / 256 % 256, n / 65536]
  }

  lemma Bytes32Read(n: nat, before: seq<Byte>, after: seq<Byte>)
    requires n < 4294967296
    ensures BigEndian32(before + Bytes32(n) + after, |before|) == n
  {
    var b := before + Bytes32(n) + after;
    var h := n / 256;
    assert n == h * 256 + n % 256;
    assert n / 65536 == h / 256 && n / 16777216 == h / 256 / 256;
  }

  lemma Bytes24Read(n: nat, after: seq<Byte>)
    requires n < 16777216
    ensures LittleEndian24(Bytes24(n) + after) == n
  {
    var h := n / 256;
    assert n / 65536 == h / 256;
  }

  /** A packet on the wire: a Postgres type byte or a MySQL sequence number, and the payload. */
  datatype Sent = Sent(mark: Byte, payload: seq<Byte>)

  predicate Fits(provider: Provider, startup: bool, sent: Sent) {
    |sent.payload| + HeaderSize(provider, startup) <= MAX_PACKET
  }

  function Encode(provider: Provider, startup: bool, sent: Sent): seq<Byte>
    requires Fits(provider, startup, sent)
  {
    var n := |sent.payload|;
    match provider
    case MySql => Bytes24(n) + ([sent.mark] + sent.payload)
    case Postgres => if startup then Bytes32(n + 4) + sent.payload else [sent.mark] + Bytes32(n + 4) + sent.payload
  }

  function EncodeAll(provider: Provider, startup: bool, sent: seq<Sent>): seq<Byte>
    requires forall i :: 0 <= i < |sent| ==> Fits(provider, startup && i == 0, sent[i])
  {
    if sent == [] then [] else Encode(provider, startup, sent[0]) + EncodeAll(provider, false, sent[1..])
  }

  /** What a receiver should see: every packet but the startup packet. */
  function Expected(provider: Provider, startup: bool, sent: seq<Sent>): seq<Packet> {
    if sent == [] then []
    else (if startup then [] else [Packet(if provider.MySql? then None else Some(sent[0].mark), sent[0].payload)])
         + Expected(provider, false, sent[1..])
  }

  lemma EncodeAnnounces(provider: Provider, startup: bool, sent: Sent, more: seq<Byte>)
    requires Fits(provider, startup, sent)
    ensures var e := Encode(provider, startup, sent);
            && |e| == |sent.payload| + HeaderSize(provider, startup)
            && Announced(provider, startup, e + more) == |e|
            && e[HeaderSize(provider, startup)..] == sent.payload
            && (provider.Postgres? && !startup ==> e[0] == sent.mark)
  {
    var e, n := Encode(provider, startup, sent), |sent.payload|;
    match provider
    case MySql =>
      Bytes24Read(n, [sent.mark] + sent.payload + more);
      assert e + more == Bytes24(n) + ([sent.mark] + sent.payload + more);
    case Postgres =>
      if startup {
        Bytes32Read(n + 4, [], sent.payload + more);
        assert e + more == [] + Bytes32(n + 4) + (sent.payload + more);
      } else {
        Bytes32Read(n + 4, [sent.mark], sent.payload + more);
        assert e + more == [sent.mark] + Bytes32(n + 4) + (sent.payload + more);
      }
  }

  lemma {:induction false} ParseEncoded(provider: Provider, startup: bool, sent: seq<Sent>)
    requires forall i :: 0 <= i < |sent| ==> Fits(provider, startup && i == 0, sent[i])
    ensures Parse(provider, startup, EncodeAll(provider, startup, sent)) ==
            Parsed(Expected(provider, startup, sent), [], startup && sent == [], false)
    decreases |sent|
  {
    if sent != [] {
      var e, more := Encode(provider, startup, sent[0]), EncodeAll(provider, false, sent[1..]);
      EncodeAnnounces(provider, startup, sent[0], more);
      ParseEncoded(provider, false, sent[1..]);
      assert (e + more)[|e|..] == more && (e + more)[..|e|] == e;
      var rest := Expected(provider, false, sent[1..]);
      assert [] + rest == rest;
    }
  }

  /** Every valid packet sequence, cut anywhere, is read back exactly, less the startup packet. */
  lemma FramingIsExact(provider: Provider, startup: bool, sent: seq<Sent>, chunks: seq<seq<Byte>>)
    requires forall i :: 0 <= i < |sent| ==> Fits(provider, startup && i == 0, sent[i])
    requires Concat(chunks) == EncodeAll(provider, startup, sent)
    ensures Feed(provider, startup, [], chunks) ==
            Parsed(Expected(provider, startup, sent), [], startup && sent == [], false)
  {
    ChunkingIrrelevant(provider, startup, [], chunks);
    assert [] + Concat(chunks) == Concat(chunks);
    ParseEncoded(provider, startup, sent);
  }

  /** At no point of any delivery does the buffer hold a whole packet. */
  lemma BufferBelowOnePacket(provider: Provider, startup: bool, chunks: seq<seq<Byte>>)
    ensures var fed := Feed(provider, startup, [], chunks);
            !fed.failed ==>
              || |fed.rest| < HeaderSize(provider, fed.startup)
              || |fed.rest| < Announced(provider, fed.startup, fed.rest) <= MAX_PACKET
  {
    ChunkingIrrelevant(provider, startup, [], chunks);
    RestIncomplete(provider, startup, [] + Concat(chunks));
  }
}
