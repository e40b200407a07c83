/**
 The socket of the Fake-TLS transport: raw mode while the handshake runs, application mode after it.
 Chunks still on their way are the field `network`; how many of them arrive before a reader goes on
 is left open, so each contract below holds for every chunking and every arrival order in time. So is, where
 the connection may break, at which wait of a reader it closes.
 */
module FakeTlsSocket {
  import opened Bytes
  import opened TlsRecords

  const DIGEST_LEN := 32
  const DIGEST_POS := 11
  const TLS_CCS: bytes := [0x14, 0x03, 0x03, 0x00, 0x01, 0x01]

  type Digest = d: bytes | |d| == DIGEST_LEN witness seq(DIGEST_LEN, _ => 0)

  /** HMAC-SHA256 by key and message; nothing is assumed of it but its length. */
  type Mac = (bytes, bytes) -> Digest

  datatype Error = Closed | UnexpectedRecord(typ: byte) | ShortResponse | BadHash
  datatype Result<+T> = Ok(value: T) | Err(error: Error)

  /** One handshake record off the front of a byte string. */
  datatype Taken = Taken(record: bytes, rest: bytes) | Refused(error: Error)

  function TakeRecord(wire: bytes, expectedType: byte): Taken {
    if |wire| < HEADER_LEN then Refused(Closed)
    else if wire[0] != expectedType then Refused(UnexpectedRecord(wire[0]))
    else if !Complete(wire) then Refused(Closed)
    else Taken(wire[..HEADER_LEN + RecordLen(wire)], Rest(wire))
  }

  /** The record as header and body, the way it is read. */
  lemma TakeRecordReads(wire: bytes, expectedType: byte)
    ensures TakeRecord(wire, expectedType) ==
            if |wire| < HEADER_LEN then Refused(Closed)
            else if wire[0] != expectedType then Refused(UnexpectedRecord(wire[0]))
            else var hdr := wire[..HEADER_LEN]; var skip := FromBe16(hdr[3], hdr[4]); var later := wire[HEADER_LEN..];
              if |later| < skip then Refused(Closed) else Taken(hdr + later[..skip], later[skip..])
  {
    if HEADER_LEN <= |wire| && Complete(wire) {
      var skip := RecordLen(wire);
      assert wire[..HEADER_LEN] + wire[HEADER_LEN..][..skip] == wire[..HEADER_LEN + skip];
      assert wire[HEADER_LEN..][skip..] == wire[HEADER_LEN + skip..];
    }
  }

  /** Three records: server hello, change cipher spec, one application record. */
  function TakeResponse(wire: bytes): Taken {
    match TakeRecord(wire, 0x16)
    case Refused(e) => Refused(e)
    case Taken(r1, w1) =>
      match TakeRecord(w1, 0x14)
      case Refused(e) => Refused(e)
      case Taken(r2, w2) =>
        match TakeRecord(w2, 0x17)
        case Refused(e) => Refused(e)
        case Taken(r3, w3) => Taken(r1 + r2 + r3, w3)
  }

  function HelloRandom(hello: bytes): bytes
    requires DIGEST_POS + DIGEST_LEN <= |hello|
  {
    hello[DIGEST_POS..DIGEST_POS + DIGEST_LEN]
  }

  /** A message with its random field set to zero. */
  function Zeroed(message: bytes): (z: bytes)
    requires DIGEST_POS + DIGEST_LEN <= |message|
    ensures |z| == |message|
  {
    message[..DIGEST_POS] + seq(DIGEST_LEN, _ => 0) + message[DIGEST_POS + DIGEST_LEN..]
  }

  function CheckResponse(resp: bytes, helloRand: bytes, mac: Mac, secret: bytes): Result<()> {
    if |resp| < DIGEST_POS + DIGEST_LEN then Err(ShortResponse)
    else if mac(secret, helloRand + Zeroed(resp)) != HelloRandom(resp) then Err(BadHash)
    else Ok(())
  }

  // --- the other side of the check

  /** A response whose random field is still zero. */
  ghost predicate Blank(response: bytes) {
    43 <= |response| && forall i :: 11 <= i < 43 ==> response[i] == 0
  }

  /** What a proxy with the secret makes of its blank response to a hello: the digest of both, in bytes 11 to 42. */
  function ProxyResponse(blank: bytes, helloRand: bytes, mac: Mac, secret: bytes): (r: bytes)
    requires 43 <= |blank|
    ensures |r| == |blank|
  {
    blank[..11] + mac(secret, helloRand + blank) + blank[43..]
  }

  /** It was made by a proxy with the secret, for this hello. */
  ghost predicate Genuine(response: bytes, helloRand: bytes, mac: Mac, secret: bytes) {
    exists blank :: Blank(blank) && response == ProxyResponse(blank, helloRand, mac, secret)
  }

  lemma ZeroedIsBlank(response: bytes, blank: bytes, helloRand: bytes, mac: Mac, secret: bytes)
    requires Blank(blank) && response == ProxyResponse(blank, helloRand, mac, secret)
    ensures Zeroed(response) == blank && HelloRandom(response) == mac(secret, helloRand + blank)
  {
    assert blank == blank[..11] + blank[11..43] + blank[43..];
    assert blank[11..43] == seq(DIGEST_LEN, _ => 0);
  }

  /** A response is accepted exactly when a proxy with the secret made it for this hello. */
  lemma AcceptedExactly(response: bytes, helloRand: bytes, mac: Mac, secret: bytes)
    ensures CheckResponse(response, helloRand, mac, secret)
         == if |response| < 43 then Err(ShortResponse)
            else if Genuine(response, helloRand, mac, secret) then Ok(()) else Err(BadHash)
  {
    if Genuine(response, helloRand, mac, secret) {
      var blank :| Blank(blank) && response == ProxyResponse(blank, helloRand, mac, secret);
      ZeroedIsBlank(response, blank, helloRand, mac, secret);
    }
    if 43 <= |response| && CheckResponse(response, helloRand, mac, secret).Ok? {
      var blank := Zeroed(response);
      assert response == response[..11] + response[11..43] + response[43..];
      assert Blank(blank) && response == ProxyResponse(blank, helloRand, mac, secret);
    }
  }

  /** A response made for one hello is accepted for another exactly where the digest does not tell the two apart. */
  lemma OtherHello(blank: bytes, helloRand: bytes, other: bytes, mac: Mac, secret: bytes)
    requires Blank(blank)
    ensures CheckResponse(ProxyResponse(blank, helloRand, mac, secret), other, mac, secret)
         == if mac(secret, other + blank) == mac(secret, helloRand + blank) then Ok(()) else Err(BadHash)
  {
    ZeroedIsBlank(ProxyResponse(blank, helloRand, mac, secret), blank, helloRand, mac, secret);
  }

  /** What a connection attempt makes of all the bytes its peer will ever send: the bytes after the handshake. */
  function HandshakeOutcome(wire: bytes, helloRand: bytes, mac: Mac, secret: bytes): Result<bytes> {
    match TakeResponse(wire)
    case Refused(e) => Err(e)
    case Taken(resp, rest) =>
      match CheckResponse(resp, helloRand, mac, secret)
      case Err(e) => Err(e)
      case Ok(_) => Ok(rest)
  }

  lemma OutcomeSteps(wire: bytes, helloRand: bytes, mac: Mac, secret: bytes)
    ensures var outcome := HandshakeOutcome(wire, helloRand, mac, secret);
            match TakeResponse(wire)
            case Refused(e) => outcome == Err(e)
            case Taken(resp, rest) =>
              var checked := CheckResponse(resp, helloRand, mac, secret);
              outcome == if checked.Err? then Err(checked.error) else Ok(rest)
  {
  }

  lemma TakeRecordMeaning(wire: bytes, expectedType: byte, r: Record, rest: bytes)
    requires r.Valid() && r.typ == expectedType && wire == r.Print() + rest
    ensures TakeRecord(wire, expectedType) == Taken(r.Print(), rest)
  {
    PrintComplete(r, rest);
    assert |rest| == |wire| - HEADER_LEN - RecordLen(wire);
    assert wire[..|r.Print()|] == r.Print();
  }

  /**
   The mode switch: for a proxy that sends its response as three handshake records and then any records and an
   unfinished tail, exactly those three are consumed, and what is left for the application is exactly the payloads of
   the later application records. To a hello with another random field the same bytes are no answer, if the digest
   tells the two apart.
   */
  lemma ModeSwitch(r1: Record, r2: Record, r3: Record, later: seq<Record>, tail: bytes, blank: bytes,
                   helloRand: bytes, other: bytes, mac: Mac, secret: bytes)
    requires r1.Valid() && r2.Valid() && r3.Valid() && ValidRecords(later) && !Complete(tail)
    requires r1.typ == 0x16 && r2.typ == 0x14 && r3.typ == 0x17
    requires Blank(blank) && r1.Print() + r2.Print() + r3.Print() == ProxyResponse(blank, helloRand, mac, secret)
    ensures var rest := PrintRecords(later) + tail;
            var wire := r1.Print() + (r2.Print() + (r3.Print() + rest));
            && HandshakeOutcome(wire, helloRand, mac, secret) == Ok(rest)
            && Deframe(rest) == Deframed(AppPayloads(later), tail)
            && (mac(secret, other + blank) != mac(secret, helloRand + blank) ==>
                  HandshakeOutcome(wire, other, mac, secret) == Err(BadHash))
  {
    OtherHello(blank, helloRand, helloRand, mac, secret);
    OtherHello(blank, helloRand, other, mac, secret);
    var rest := PrintRecords(later) + tail;
    DeframeMeaning(later, tail);
    TakeRecordMeaning(r3.Print() + rest, 0x17, r3, rest);
    TakeRecordMeaning(r2.Print() + (r3.Print() + rest), 0x14, r2, r3.Print() + rest);
    TakeRecordMeaning(r1.Print() + (r2.Print() + (r3.Print() + rest)), 0x16, r1, r2.Print() + (r3.Print() + rest));
    hide TakeRecord, Deframe, PrintRecords, AppPayloads, CheckResponse, Complete, Record.Print, Blank, ProxyResponse;
  }

  /** A connection that comes up consumed three whole records of the right types, no byte more or less. */
  lemma HandshakeConsumed(wire: bytes) returns (r1: bytes, r2: bytes, r3: bytes, rest: bytes)
    requires TakeResponse(wire).Taken?
    ensures TakeResponse(wire) == Taken(r1 + r2 + r3, rest) && wire == r1 + (r2 + (r3 + rest))
    ensures TakeRecord(wire, 0x16) == Taken(r1, r2 + (r3 + rest))
    ensures TakeRecord(r2 + (r3 + rest), 0x14) == Taken(r2, r3 + rest)
    ensures TakeRecord(r3 + rest, 0x17) == Taken(r3, rest)
  {
    var t1 := TakeRecord(wire, 0x16);
    var t2 := TakeRecord(t1.rest, 0x14);
    var t3 := TakeRecord(t2.rest, 0x17);
    r1, r2, r3, rest := t1.record, t2.record, t3.record, t3.rest;
    hide TakeRecord;
    TakenIsPrefix(wire, 0x16);
    TakenIsPrefix(t1.rest, 0x14);
    TakenIsPrefix(t2.rest, 0x17);
  }

  lemma TakenIsPrefix(wire: bytes, expectedType: byte)
    requires TakeRecord(wire, expectedType).Taken?
    ensures var t := TakeRecord(wire, expectedType); wire == t.record + t.rest
  {
  }

  /** Moving the first chunk from the network into the reader changes nothing a later reader can see. */
  lemma ArrivalKeeps(stream: bytes, hold: bytes, network: seq<bytes>)
    requires network != []
    ensures var first := Deframe(hold + network[0]);
            var second := Deframe(first.held + Flat(network[1..]));
            && stream + Deframe(hold + Flat(network)).delivered == (stream + first.delivered) + second.delivered
            && Deframe(hold + Flat(network)).held == second.held
    ensures stream + Flat(network) == (stream + network[0]) + Flat(network[1..])
  {
    var later := Flat(network[1..]);
    assert Flat(network) == network[0] + later;
    hide *;
    assert hold + (network[0] + later) == (hold + network[0]) + later;
    DeframeAppend(hold + network[0], later);
  }

  lemma Split(s: bytes, k: nat, later: bytes)
    requires k <= |s|
    ensures s + later == s[..k] + (s[k..] + later)
  {
  }

  class FakeTlsNetSockets {
    /** May the connection close, by an error or by the peer, while bytes are unread? */
    const breakable: bool
    var stream: bytes
    var rawHold: bytes
    var appMode: bool
    var closed: bool
    /** Is the promise that a reader waits for resolved? */
    var canRead: bool
    /** The buffers given to client.write. */
    var written: seq<bytes>
    /** The chunks that are still to arrive; the peer closes after the last. */
    var network: seq<bytes>

    ghost predicate Valid()
      reads this
    {
      && (stream != [] ==> canRead)
      && !Complete(rawHold)
    }

    /** All that is still to be read in the present mode, arrived or not. */
    ghost function Unread(): bytes
      reads this
    {
      stream + if appMode then Deframe(rawHold + Flat(network)).delivered else Flat(network)
    }

    /** The unfinished record that will be held when everything has arrived. */
    ghost function Residue(): bytes
      reads this
    {
      Deframe(rawHold + Flat(network)).held
    }

    /** The connection has broken off under a call, which failed with it. */
    predicate Broke<T>(r: Result<T>)
      reads this
    {
      breakable && closed && r.Err? && r.error == Closed
    }

    constructor (breakable: bool)
      ensures Valid() && closed && !appMode && rawHold == [] && stream == [] && written == [] && network == []
      ensures this.breakable == breakable
    {
      this.breakable := breakable;
      stream, rawHold, written, network := [], [], [], [];
      appMode, closed, canRead := false, true, false;
    }

    method IngestAppRecords(chunk: bytes)
      modifies this`stream, this`rawHold
      ensures stream == old(stream) + Deframe(old(rawHold) + chunk).delivered
      ensures rawHold == Deframe(old(rawHold) + chunk).held
    {
      rawHold := rawHold + chunk;
      ghost var all := rawHold;
      hide Deframe, Delivered, Rest;
      while HEADER_LEN <= |rawHold|
        invariant stream + Deframe(rawHold).delivered == old(stream) + Deframe(all).delivered
        invariant Deframe(rawHold).held == Deframe(all).held
        decreases |rawHold|
      {
        var typ := rawHold[0];
        var len := RecordLen(rawHold);
        if |rawHold| < HEADER_LEN + len {
          break;
        }
        var payload := rawHold[HEADER_LEN..HEADER_LEN + len];
        DeframeStep(rawHold);
        TakenOff(rawHold);
        Assoc(stream, Delivered(rawHold), Deframe(Rest(rawHold)).delivered);
        rawHold := rawHold[HEADER_LEN + len..];
        if typ == APP_DATA {
          stream := stream + payload;
        }
      }
      DeframeStep(rawHold);
    }

    method OnData(message: bytes)
      requires Valid()
      modifies this`stream, this`rawHold, this`canRead
      ensures Valid() && canRead
      ensures if old(appMode)
              then stream == old(stream) + Deframe(old(rawHold) + message).delivered
                   && rawHold == Deframe(old(rawHold) + message).held
              else stream == old(stream) + message && rawHold == old(rawHold)
    {
      if appMode {
        IngestAppRecords(message);
      } else {
        stream := stream + message;
      }
      canRead := true;
    }

    /** The next chunk arrives. Nothing is lost, nothing is doubled. */
    method Deliver()
      requires Valid() && network != []
      modifies this`stream, this`rawHold, this`canRead, this`network
      ensures Valid() && canRead && network == old(network)[1..]
      ensures Unread() == old(Unread())
      ensures if appMode then Residue() == old(Residue()) else rawHold == old(rawHold)
    {
      ArrivalKeeps(stream, rawHold, network);
      hide Deframe, Complete, Flat;
      OnData(network[0]);
      network := network[1..];
    }

    /** The socket closes; what is unread stays so for good, since every read and write fails from now on. */
    method OnClose()
      requires Valid() && (breakable || Unread() == [])
      modifies this`closed
      ensures Valid() && closed && Unread() == old(Unread())
    {
      closed := true;
    }

    /** `await this.canRead`: any number of chunks may arrive first, at least one if the promise is open. */
    method AwaitCanRead()
      requires Valid() && !closed
      modifies this`stream, this`rawHold, this`canRead, this`network, this`closed
      ensures Valid()
      ensures Unread() == old(Unread())
      ensures if appMode then Residue() == old(Residue()) else rawHold == old(rawHold)
      ensures closed ==> breakable || Unread() == []
      ensures !closed ==> canRead
      ensures !closed ==> |network| + (if old(canRead) then 0 else 1) <= old(|network|)
    {
      var arrivals :| 0 <= arrivals <= |network|;
      while 0 < arrivals
        invariant 0 <= arrivals <= |network| <= old(|network|) && !closed
        invariant Valid() && Unread() == old(Unread())
        invariant if appMode then Residue() == old(Residue()) else rawHold == old(rawHold)
        invariant canRead == (old(canRead) || |network| < old(|network|))
        decreases arrivals
      {
        hide Deframe, Complete;
        Deliver();
        arrivals := arrivals - 1;
      }
      var breaks: bool := *;
      if breakable && breaks {
        OnClose();
        return;
      }
      if !canRead {
        if network == [] {
          DeframeStep(rawHold);
          assert rawHold + Flat(network) == rawHold;
          OnClose();
          return;
        }
        hide Deframe, Complete;
        Deliver();
      }
    }

    method Read(n: nat) returns (r: Result<bytes>)
      requires Valid()
      modifies this`stream, this`rawHold, this`canRead, this`network, this`closed
      ensures Valid()
      ensures if appMode then Residue() == old(Residue()) else rawHold == old(rawHold)
      ensures r.Ok? ==> !old(closed) && !closed && |r.value| <= n && old(Unread()) == r.value + Unread()
      ensures r == Ok([]) && 0 < n ==>
                !canRead && (|network| < old(|network|) || (|network| == old(|network|) && old(canRead)))
      ensures r.Err? ==> r.error == Closed && closed && Unread() == old(Unread())
      ensures r.Err? ==> old(closed) || breakable || Unread() == []
    {
      if closed {
        return Err(Closed);
      }
      AwaitCanRead();
      if closed {
        return Err(Closed);
      }
      hide Deframe, Complete, Flat;
      var k := if n < |stream| then n else |stream|;
      Split(stream, k, if appMode then Deframe(rawHold + Flat(network)).delivered else Flat(network));
      var toReturn := stream[..k];
      stream := stream[k..];
      if stream == [] {
        canRead := false;
      }
      return Ok(toReturn);
    }

    method ReadExactly(n: nat) returns (r: Result<bytes>)
      requires Valid()
      modifies this`stream, this`rawHold, this`canRead, this`network, this`closed
      ensures Valid()
      ensures if appMode then Residue() == old(Residue()) else rawHold == old(rawHold)
      ensures r.Ok? ==> n == 0 || (!old(closed) && n <= |old(Unread())|)
      ensures r.Err? ==> 0 < n && (old(closed) || breakable || |old(Unread())| < n)
      ensures r.Ok? ==> r.value == old(Unread())[..n] && Unread() == old(Unread())[n..] && closed == old(closed)
      ensures r.Err? ==> r.error == Closed && closed
      ensures r.Err? ==> exists lost :: |lost| < n && old(Unread()) == lost + Unread()
    {
      var chunks: bytes := [];
      var left := n;
      while 0 < left
        invariant 0 <= left == n - |chunks|
        invariant Valid() && old(Unread()) == chunks + Unread()
        invariant if appMode then Residue() == old(Residue()) else rawHold == old(rawHold)
        invariant closed == old(closed) && (left < n ==> !closed)
        decreases left, |network|, canRead
      {
        hide Deframe, Complete;
        var part := Read(left);
        if part.Err? {
          return Err(Closed);
        }
        Assoc(chunks, part.value, Unread());
        chunks := chunks + part.value;
        left := left - |part.value|;
      }
      return Ok(chunks);
    }

    method ReadTlsRecord(expectedType: byte) returns (r: Result<bytes>)
      requires Valid() && !closed
      modifies this`stream, this`rawHold, this`canRead, this`network, this`closed
      ensures Valid()
      ensures if appMode then Residue() == old(Residue()) else rawHold == old(rawHold)
      ensures match TakeRecord(old(Unread()), expectedType)
              case Taken(record, rest) => (r == Ok(record) && Unread() == rest && !closed) || Broke(r)
              case Refused(e) => r == Err(e) || Broke(r)
    {
      TakeRecordReads(Unread(), expectedType);
      hide TakeRecord, Complete, Deframe, Flat;
      var hdr := ReadExactly(HEADER_LEN);
      if hdr.Err? {
        return Err(hdr.error);
      }
      if hdr.value[0] != expectedType {
        return Err(UnexpectedRecord(hdr.value[0]));
      }
      var skip := FromBe16(hdr.value[3], hdr.value[4]);
      var body := ReadExactly(skip);
      if body.Err? {
        return Err(body.error);
      }
      return Ok(hdr.value + body.value);
    }

    method Write(data: bytes) returns (r: Result<()>)
      modifies this`written
      ensures if closed then r == Err(Closed) && written == old(written)
              else r == Ok(()) && written == old(written) + [if appMode then PrintRecords(Pieces(data)) else data]
    {
      if closed {
        return Err(Closed);
      }
      var out := data;
      if appMode {
        out := WrapTlsAppData(data);
      }
      written := written + [out];
      return Ok(());
    }

    /** The three reads of the handshake. */
    method ReadResponse() returns (r: Result<bytes>)
      requires Valid() && !closed && !appMode
      modifies this`stream, this`rawHold, this`canRead, this`network, this`closed
      ensures Valid() && rawHold == old(rawHold)
      ensures match TakeResponse(old(Unread()))
              case Taken(resp, rest) => (r == Ok(resp) && Unread() == rest && !closed) || Broke(r)
              case Refused(e) => r == Err(e) || Broke(r)
    {
      hide Deframe, Complete, TakeRecord, Flat;
      var rec1 := ReadTlsRecord(0x16);
      if rec1.Err? {
        return Err(rec1.error);
      }
      var rec2 := ReadTlsRecord(0x14);
      if rec2.Err? {
        return Err(rec2.error);
      }
      var rec3 := ReadTlsRecord(0x17);
      if rec3.Err? {
        return Err(rec3.error);
      }
      return Ok(rec1.value + rec2.value + rec3.value);
    }

    /** The digest over the response with its random field zeroed must be that field. */
    method VerifyResponse(resp: bytes, helloRand: bytes, mac: Mac, secret: bytes) returns (r: Result<()>)
      ensures r == CheckResponse(resp, helloRand, mac, secret)
      ensures r.Ok? <==> 43 <= |resp| && Genuine(resp, helloRand, mac, secret)
    {
      AcceptedExactly(resp, helloRand, mac, secret);
      hide Genuine;
      if |resp| < DIGEST_POS + DIGEST_LEN {
        return Err(ShortResponse);
      }
      var expected := mac(secret, helloRand + Zeroed(resp));
      if expected != HelloRandom(resp) {
        return Err(BadHash);
      }
      return Ok(());
    }

    method Handshake(hello: bytes, mac: Mac, secret: bytes) returns (r: Result<()>)
      requires Valid() && !closed && !appMode && DIGEST_POS + DIGEST_LEN <= |hello|
      modifies this`stream, this`rawHold, this`canRead, this`network, this`closed, this`written
      ensures Valid() && rawHold == old(rawHold)
      ensures match HandshakeOutcome(old(Unread()), HelloRandom(hello), mac, secret)
              case Ok(rest) => if Broke(r) then written == old(written) + [hello]
                else r == Ok(()) && Unread() == rest && !closed && written == old(written) + [hello, TLS_CCS]
              case Err(e) => (r == Err(e) || Broke(r)) && written == old(written) + [hello]
    {
      var helloRand := HelloRandom(hello);
      OutcomeSteps(Unread(), helloRand, mac, secret);
      hide Deframe, Complete, HandshakeOutcome, TakeResponse, CheckResponse, Genuine, Flat, HelloRandom;
      var sent := Write(hello);
      var response := ReadResponse();
      if response.Err? {
        return Err(response.error);
      }
      r := VerifyResponse(response.value, helloRand, mac, secret);
      if r.Err? {
        return;
      }
      sent := Write(TLS_CCS);
      return Ok(());
    }

    /** The end of connect: what the handshake left unread goes through the record reader. */
    method EnterAppMode()
      requires Valid() && !appMode
      modifies this`appMode, this`stream, this`rawHold
      ensures Valid() && appMode
      ensures Unread() == Deframe(old(rawHold) + old(Unread())).delivered
      ensures Residue() == Deframe(old(rawHold) + old(Unread())).held
    {
      hide Deframe, Complete, Flat;
      ghost var later := Flat(network);
      assert (rawHold + stream) + later == rawHold + (stream + later);
      DeframeAppend(rawHold + stream, later);
      DeframeHold(rawHold);
      appMode := true;
      if stream != [] {
        var leftover := stream;
        stream := [];
        IngestAppRecords(leftover);
        assert [] + Deframe(rawHold + leftover).delivered == Deframe(rawHold + leftover).delivered;
      } else {
        assert rawHold + stream == rawHold;
      }
    }

    method Open()
      requires Valid()
      modifies this`stream, this`appMode, this`closed, this`canRead
      ensures Valid() && !closed && !appMode && Unread() == Flat(network)
    {
      stream := [];
      appMode := false;
      closed := false;
      canRead := false;
      assert [] + Flat(network) == Flat(network);
    }

    /** rawHold is not reset here: a tail held from an earlier connection goes in front of the new stream. */
    method Connect(hello: bytes, mac: Mac, secret: bytes) returns (r: Result<()>)
      requires Valid() && DIGEST_POS + DIGEST_LEN <= |hello|
      modifies this
      ensures Valid()
      ensures match HandshakeOutcome(Flat(old(network)), HelloRandom(hello), mac, secret)
              case Ok(rest) => if Broke(r) then !appMode && written == old(written) + [hello] else
                && r == Ok(()) && appMode && !closed && written == old(written) + [hello, TLS_CCS]
                && Unread() == Deframe(old(rawHold) + rest).delivered
                && Residue() == Deframe(old(rawHold) + rest).held
              case Err(e) => (r == Err(e) || Broke(r)) && !appMode && written == old(written) + [hello]
    {
      hide Deframe, Complete, HandshakeOutcome, Flat;
      Open();
      r := Handshake(hello, mac, secret);
      if r.Err? {
        return;
      }
      EnterAppMode();
    }
  }

  lemma DeframeHold(raw: bytes)
    requires !Complete(raw)
    ensures Deframe(raw) == Deframed([], raw)
  {
  }

  lemma TakenOff(raw: bytes)
    requires Complete(raw)
    ensures Rest(raw) == raw[HEADER_LEN + RecordLen(raw)..]
    ensures Delivered(raw) == if raw[0] == APP_DATA then raw[HEADER_LEN..HEADER_LEN + RecordLen(raw)] else []
  {
  }

  /**
   Connecting again is right for every peer exactly when no tail is held from before: with a held tail there is a
   one-byte application record that the new connection does not deliver.
   */
  lemma ReconnectNeedsEmptyHold(held: bytes)
    requires !Complete(held)
    ensures held == [] <==> forall wire: bytes :: Deframe(held + wire).delivered == Deframe(wire).delivered
  {
    if held == [] {
      forall wire: bytes
        ensures Deframe(held + wire).delivered == Deframe(wire).delivered
      {
        assert held + wire == wire;
      }
    } else {
      var x: byte := if HEADER_LEN < |held| && held[HEADER_LEN] == 0 then 1 else 0;
      var wire: bytes := [APP_DATA, 3, 3, 0, 1, x];
      StaleHoldSwallows(held, x);
      assert Deframe(held + wire).delivered != Deframe(wire).delivered;
    }
  }

  lemma StaleHoldSwallows(held: bytes, x: byte)
    requires !Complete(held) && held != []
    requires HEADER_LEN < |held| ==> x != held[HEADER_LEN]
    requires x < 2
    ensures var wire: bytes := [APP_DATA, 3, 3, 0, 1, x];
            Deframe(wire).delivered == [x] && Deframe(held + wire).delivered != [x]
  {
    var wire: bytes := [APP_DATA, 3, 3, 0, 1, x];
    assert Complete(wire) && Rest(wire) == [] && Delivered(wire) == [x];
    DeframeStep(wire);
    DeframeHold([]);
    DeframeStep(held + wire);
    hide Deframe;
    if |held| < HEADER_LEN {
      StaleHeader(held, x);
    } else if Complete(held + wire) {
      StaleBody(held, x);
      DeframeHold(Rest(held + wire));
    }
  }

  /** A held part of a header takes its length from the new bytes, which never suffice. */
  lemma StaleHeader(held: bytes, x: byte)
    requires 0 < |held| < HEADER_LEN && x < 2
    ensures !Complete(held + [APP_DATA, 3, 3, 0, 1, x])
  {
    var wire: bytes := [APP_DATA, 3, 3, 0, 1, x];
    var raw := held + wire;
    assert raw[4] == wire[4 - |held|];
    assert |held| < 4 ==> raw[3] == wire[3 - |held|];
  }

  lemma StaleBody(held: bytes, x: byte)
    requires HEADER_LEN <= |held| && !Complete(held) && x < 2
    requires HEADER_LEN < |held| ==> x != held[HEADER_LEN]
    requires Complete(held + [APP_DATA, 3, 3, 0, 1, x])
    ensures var raw := held + [APP_DATA, 3, 3, 0, 1, x];
            Delivered(raw) != [x] && !Complete(Rest(raw))
  {
    var wire: bytes := [APP_DATA, 3, 3, 0, 1, x];
    var raw := held + wire;
    var n := HEADER_LEN + RecordLen(held) - |held|;
    assert RecordLen(raw) == RecordLen(held);
    assert 0 < n <= 6;
    assert Rest(raw) == wire[n..];
    if raw[0] == APP_DATA {
      assert Delivered(raw)[0] == raw[HEADER_LEN];
    }
  }
}
