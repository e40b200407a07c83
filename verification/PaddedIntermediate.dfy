/** The padded intermediate packet codec, and the whole way of a packet through the transport. */
module PaddedIntermediate {
  import opened Bytes
  import opened Wrappers
  import opened TlsRecords
  import opened FakeTlsSocket

  const MAX_LENGTH := 16 * 1024 * 1024

  datatype Parsed = Packet(packet: bytes, rest: bytes) | BadLength(length: int, rest: bytes) | Incomplete

  datatype PacketRead = Read(packet: bytes) | InvalidLength(length: int) | Failed(error: Error)

  /** None is the RangeError of writeInt32LE. */
  function EncodePacket(data: bytes, pad: bytes): (r: Option<bytes>) {
    var payload := data + pad;
    if |payload| < 0x8000_0000 then Some(Le32(|payload|) + payload) else None
  }

  /** A packet without what exceeds a multiple of four. */
  function Unpad(packet: bytes): bytes {
    packet[..|packet| - |packet| % 4]
  }

  /** The first packet of a byte stream, as far as the reader can tell. */
  function TakePacket(s: bytes): Parsed {
    if |s| < 4 then Incomplete
    else
      var length := FromInt32Le(s[..4]);
      var later := s[4..];
      if length < 0 || MAX_LENGTH < length then BadLength(length, later)
      else if |later| < length then Incomplete
      else Packet(Unpad(later[..length]), later[length..])
  }

  lemma UnpadMeaning(data: bytes, pad: bytes)
    requires |pad| <= 3
    ensures Unpad(data + pad) == data <==> |data| % 4 == 0
  {
    var n := |data| + |pad|;
    assert |Unpad(data + pad)| == n - n % 4;
    if |data| % 4 == 0 {
      assert n % 4 == |pad|;
      assert (data + pad)[..|data|] == data;
    }
  }

  /** The packet comes back, and the stream after it, exactly for whole words within the size limit. */
  lemma PacketRoundTrip(data: bytes, pad: bytes, rest: bytes)
    requires |pad| <= 3
    ensures |data| % 4 == 0 && |data| + |pad| <= MAX_LENGTH <==>
            EncodePacket(data, pad).Some? && TakePacket(EncodePacket(data, pad).value + rest) == Packet(data, rest)
  {
    if |data + pad| < 0x8000_0000 {
      TakeEncoded(data + pad, rest);
      UnpadMeaning(data, pad);
      hide TakePacket, Unpad, Le32;
      assert |data + pad| == |data| + |pad|;
    }
  }

  /** What a reader makes of a length and as many bytes. */
  lemma TakeEncoded(payload: bytes, rest: bytes)
    requires |payload| < 0x8000_0000
    ensures TakePacket(Le32(|payload|) + payload + rest) ==
            if MAX_LENGTH < |payload| then BadLength(|payload|, payload + rest) else Packet(Unpad(payload), rest)
  {
    var s := Le32(|payload|) + payload + rest;
    Le32RoundTrip(|payload|);
    hide Le32, FromLe32, Unpad;
    assert s[..4] == Le32(|payload|) && s[4..] == payload + rest;
    if |payload| <= MAX_LENGTH {
      assert (payload + rest)[..|payload|] == payload && (payload + rest)[|payload|..] == rest;
    }
  }

  ghost predicate Sendable(packets: seq<bytes>, pads: seq<bytes>) {
    && |pads| == |packets|
    && forall i :: 0 <= i < |packets| ==>
         |packets[i]| % 4 == 0 && |pads[i]| <= 3 && |packets[i]| + |pads[i]| <= MAX_LENGTH
  }

  function EncodeAll(packets: seq<bytes>, pads: seq<bytes>): bytes
  {
    if packets == [] || pads == [] then []
    else EncodePacket(packets[0], pads[0]).GetOr([]) + EncodeAll(packets[1..], pads[1..])
  }

  /** k packets in a row, with the stream that remains. */
  function TakePackets(k: nat, s: bytes): Option<(seq<bytes>, bytes)> {
    if k == 0 then Some(([], s))
    else
      match TakePacket(s)
      case Packet(packet, rest) =>
        (match TakePackets(k - 1, rest)
         case Some(later) => Some(([packet] + later.0, later.1))
         case None => None)
      case _ => None
  }

  lemma TakePacketsStep(k: nat, s: bytes)
    requires 0 < k && TakePacket(s).Packet? && TakePackets(k - 1, TakePacket(s).rest).Some?
    ensures TakePackets(k, s).Some?
    ensures TakePackets(k, s).value.0 == [TakePacket(s).packet] + TakePackets(k - 1, TakePacket(s).rest).value.0
    ensures TakePackets(k, s).value.1 == TakePackets(k - 1, TakePacket(s).rest).value.1
  {
    hide TakePacket;
  }

  lemma {:induction false} PacketsRoundTrip(packets: seq<bytes>, pads: seq<bytes>, rest: bytes)
    requires Sendable(packets, pads)
    ensures TakePackets(|packets|, EncodeAll(packets, pads) + rest) == Some((packets, rest))
  {
    if packets == [] {
      assert [] + rest == rest;
    } else {
      hide TakePacket, EncodePacket;
      var more := EncodeAll(packets[1..], pads[1..]);
      PacketsRoundTrip(packets[1..], pads[1..], rest);
      PacketRoundTrip(packets[0], pads[0], more + rest);
      var first := EncodePacket(packets[0], pads[0]).value;
      assert EncodeAll(packets, pads) == first + more;
      Assoc(first, more, rest);
      TakePacketsStep(|packets|, EncodeAll(packets, pads) + rest);
      hide EncodeAll, TakePackets;
      assert packets == [packets[0]] + packets[1..];
    }
  }

  /**
   From end to end: packets with any padding, put into write calls with any cuts, each write wrapped into records,
   the records cut into any chunks, come out as those packets with nothing left over.
   */
  lemma TransportRoundTrip(packets: seq<bytes>, pads: seq<bytes>, writes: seq<bytes>, wires: seq<bytes>,
                           chunks: seq<bytes>)
    requires Sendable(packets, pads)
    requires Flat(writes) == EncodeAll(packets, pads)
    requires |wires| == |writes| && forall i :: 0 <= i < |writes| ==> wires[i] == PrintRecords(Pieces(writes[i]))
    requires Flat(chunks) == Flat(wires)
    ensures var received := Deframe(Flat(chunks));
            TakePackets(|packets|, received.delivered) == Some((packets, [])) && received.held == []
  {
    hide *;
    WritesDeframe(writes, wires);
    PacketsRoundTrip(packets, pads, []);
    assert Flat(writes) + [] == Flat(writes);
  }

  /** The connection has broken off while the packet was read. */
  predicate Broken(reader: FakeTlsNetSockets, r: PacketRead)
    reads reader
  {
    reader.breakable && reader.closed && r == Failed(Closed)
  }

  method ReadPacket(reader: FakeTlsNetSockets) returns (r: PacketRead)
    requires reader.Valid()
    modifies reader`stream, reader`rawHold, reader`canRead, reader`network, reader`closed
    ensures reader.Valid()
    ensures reader.appMode ==> reader.Residue() == old(reader.Residue())
    ensures old(reader.closed) ==> r == Failed(Closed)
    ensures !old(reader.closed) ==>
              match TakePacket(old(reader.Unread()))
              case Packet(packet, rest) =>
                (r == Read(packet) && reader.Unread() == rest && !reader.closed) || Broken(reader, r)
              case BadLength(length, rest) =>
                (r == InvalidLength(length) && reader.Unread() == rest && !reader.closed) || Broken(reader, r)
              case Incomplete => r == Failed(Closed)
  {
    hide Deframe, Complete, Flat, FromInt32Le;
    var lenBuf := reader.ReadExactly(4);
    if lenBuf.Err? {
      return Failed(lenBuf.error);
    }
    var length := FromInt32Le(lenBuf.value);
    if length < 0 || MAX_LENGTH < length {
      return InvalidLength(length);
    }
    var packet := reader.ReadExactly(length);
    if packet.Err? {
      return Failed(packet.error);
    }
    var pad := |packet.value| % 4;
    return Read(if pad != 0 then packet.value[..|packet.value| - pad] else packet.value);
  }

  /** `count` calls of readPacket, one after the other; those before the connection breaks are right. */
  method ReadPackets(reader: FakeTlsNetSockets, count: nat) returns (packets: seq<bytes>)
    requires reader.Valid() && reader.appMode && !reader.closed
    requires TakePackets(count, reader.Unread()).Some?
    modifies reader`stream, reader`rawHold, reader`canRead, reader`network, reader`closed
    ensures reader.Valid() && reader.appMode && reader.Residue() == old(reader.Residue())
    ensures !reader.closed ==> TakePackets(count, old(reader.Unread())) == Some((packets, reader.Unread()))
    ensures reader.closed ==> reader.breakable && |packets| < count
    ensures reader.closed ==> packets <= TakePackets(count, old(reader.Unread())).value.0
  {
    hide Deframe, Complete, Flat, TakePacket;
    if count == 0 {
      return [];
    }
    var first := ReadPacket(reader);
    if first.Failed? {
      return [];
    }
    var later := ReadPackets(reader, count - 1);
    return [first.packet] + later;
  }

  /** Every chunk that was still on its way arrives. */
  method Settle(reader: FakeTlsNetSockets)
    requires reader.Valid() && reader.appMode
    modifies reader`stream, reader`rawHold, reader`canRead, reader`network
    ensures reader.Valid() && reader.network == []
    ensures reader.stream == old(reader.Unread()) && reader.rawHold == old(reader.Residue())
  {
    while reader.network != []
      invariant reader.Valid()
      invariant reader.Unread() == old(reader.Unread()) && reader.Residue() == old(reader.Residue())
      decreases |reader.network|
    {
      hide Deframe, Complete, Flat;
      reader.Deliver();
    }
    DeframeHold(reader.rawHold);
    assert reader.rawHold + Flat(reader.network) == reader.rawHold;
  }

  method SendAll(sender: FakeTlsNetSockets, writes: seq<bytes>) returns (ghost wires: seq<bytes>)
    requires sender.appMode && !sender.closed
    modifies sender`written
    ensures sender.written == old(sender.written) + wires
    ensures |wires| == |writes| && forall i :: 0 <= i < |writes| ==> wires[i] == PrintRecords(Pieces(writes[i]))
  {
    wires := [];
    hide Pieces, PrintRecords;
    for n := 0 to |writes|
      invariant sender.written == old(sender.written) + wires
      invariant |wires| == n && forall i :: 0 <= i < n ==> wires[i] == PrintRecords(Pieces(writes[i]))
    {
      var sent := sender.Write(writes[n]);
      wires := wires + [PrintRecords(Pieces(writes[n]))];
    }
  }

  /** The end-to-end statement on two live sockets, whatever the arrival times at the receiver. */
  method SendAndReceive(sender: FakeTlsNetSockets, receiver: FakeTlsNetSockets, ghost packets: seq<bytes>,
                        ghost pads: seq<bytes>, writes: seq<bytes>, chunks: seq<bytes>, count: nat)
    returns (received: seq<bytes>)
    requires sender != receiver && sender.appMode && !sender.closed && sender.written == []
    requires receiver.Valid() && receiver.appMode && !receiver.closed
    requires receiver.stream == [] && receiver.rawHold == [] && receiver.network == []
    requires Sendable(packets, pads) && Flat(writes) == EncodeAll(packets, pads) && count == |packets|
    requires Flat(chunks) == WireOf(writes)
    modifies sender`written, receiver
    ensures received <= packets && (!receiver.breakable ==> !receiver.closed)
    ensures !receiver.closed ==> received == packets && receiver.stream == [] && receiver.rawHold == []
  {
    ghost var wires := SendAll(sender, writes);
    WireOfFlat(writes, wires);
    receiver.network := chunks;
    TransportRoundTrip(packets, pads, writes, wires, chunks);
    hide Deframe, Complete, Flat, TakePackets, EncodeAll;
    assert receiver.rawHold + Flat(chunks) == Flat(chunks);
    assert [] + Deframe(Flat(chunks)).delivered == Deframe(Flat(chunks)).delivered;
    received := ReadPackets(receiver, count);
    if !receiver.closed {
      Settle(receiver);
    }
  }

  /** What the other end's network carries after the given writes. */
  function WireOf(writes: seq<bytes>): bytes {
    if writes == [] then [] else PrintRecords(Pieces(writes[0])) + WireOf(writes[1..])
  }

  lemma {:induction false} WireOfFlat(writes: seq<bytes>, wires: seq<bytes>)
    requires |wires| == |writes| && forall i :: 0 <= i < |writes| ==> wires[i] == PrintRecords(Pieces(writes[i]))
    ensures WireOf(writes) == Flat(wires)
  {
    hide PrintRecords, Pieces;
    if writes != [] {
      WireOfFlat(writes[1..], wires[1..]);
    }
  }
}
