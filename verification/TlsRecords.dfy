/** TLS record framing (section 5.1 of RFC 8446) as the Fake-TLS transport writes and reads it. */
module TlsRecords {
  import opened Bytes

  const APP_DATA: byte := 0x17
  const HEADER_LEN := 5
  const MAX_TLS_PACKET := 2878

  datatype Record = Record(typ: byte, major: byte, minor: byte, payload: bytes) {
    ghost predicate Valid() { |payload| < 0x1_0000 }

    function Print(): bytes {
      [typ, major, minor] + Be16(|payload|) + payload
    }
  }

  /** The bytes the incremental reader has handed on, and the tail it still holds back. */
  datatype Deframed = Deframed(delivered: bytes, held: bytes)

  function RecordLen(raw: bytes): nat
    requires HEADER_LEN <= |raw|
  {
    FromBe16(raw[3], raw[4])
  }

  /** Does raw start with one whole record? */
  predicate Complete(raw: bytes) {
    HEADER_LEN <= |raw| && HEADER_LEN + RecordLen(raw) <= |raw|
  }

  function Delivered(raw: bytes): bytes
    requires Complete(raw)
  {
    if raw[0] == APP_DATA then raw[HEADER_LEN..HEADER_LEN + RecordLen(raw)] else []
  }

  /** What follows the first whole record. */
  function Rest(raw: bytes): (rest: bytes)
    requires Complete(raw)
    ensures |rest| < |raw|
  {
    raw[HEADER_LEN + RecordLen(raw)..]
  }

  function Deframe(raw: bytes): (r: Deframed)
    ensures !Complete(r.held)
    ensures |r.delivered| + |r.held| <= |raw|
  {
    if Complete(raw) then
      var rest := Deframe(Rest(raw));
      Deframed(Delivered(raw) + rest.delivered, rest.held)
    else
      Deframed([], raw)
  }

  lemma CompletePrefix(a: bytes, b: bytes)
    requires Complete(a)
    ensures Complete(a + b) && Rest(a + b) == Rest(a) + b && Delivered(a + b) == Delivered(a)
  {
    var n := HEADER_LEN + RecordLen(a);
    assert (a + b)[HEADER_LEN..n] == a[HEADER_LEN..n];
  }

  lemma DeframeStep(raw: bytes)
    ensures Deframe(raw) == if !Complete(raw) then Deframed([], raw)
                            else Deframed(Delivered(raw) + Deframe(Rest(raw)).delivered, Deframe(Rest(raw)).held)
  {
  }

  /** Reading a and then b is reading a + b: the reader does not see how TCP cut the stream. */
  lemma {:induction false} DeframeAppend(a: bytes, b: bytes)
    ensures Deframe(a + b).held == Deframe(Deframe(a).held + b).held
    ensures Deframe(a + b).delivered == Deframe(a).delivered + Deframe(Deframe(a).held + b).delivered
    decreases |a|
  {
    hide *;
    DeframeStep(a);
    if Complete(a) {
      CompletePrefix(a, b);
      DeframeStep(a + b);
      DeframeAppend(Rest(a), b);
    }
  }

  function PrintRecords(records: seq<Record>): bytes {
    if records == [] then [] else records[0].Print() + PrintRecords(records[1..])
  }

  /** The payloads of the application-data records, in order: what the reader has to see. */
  function AppPayloads(records: seq<Record>): bytes {
    if records == [] then []
    else (if records[0].typ == APP_DATA then records[0].payload else []) + AppPayloads(records[1..])
  }

  ghost predicate ValidRecords(records: seq<Record>) {
    forall i :: 0 <= i < |records| ==> records[i].Valid()
  }

  lemma PrintComplete(r: Record, rest: bytes)
    requires r.Valid()
    ensures var raw := r.Print() + rest;
            && Complete(raw) && Rest(raw) == rest
            && Delivered(raw) == if r.typ == APP_DATA then r.payload else []
  {
    Be16RoundTrip(|r.payload|);
    var raw := r.Print() + rest;
    assert raw[3] == Be16(|r.payload|)[0] && raw[4] == Be16(|r.payload|)[1];
  }

  /** Whatever records were written, the reader delivers exactly their application payloads. */
  lemma {:induction false} DeframeMeaning(records: seq<Record>, tail: bytes)
    requires ValidRecords(records) && !Complete(tail)
    ensures Deframe(PrintRecords(records) + tail) == Deframed(AppPayloads(records), tail)
  {
    if records == [] {
      assert PrintRecords(records) + tail == tail;
    } else {
      var rest := PrintRecords(records[1..]) + tail;
      assert PrintRecords(records) + tail == records[0].Print() + rest;
      PrintComplete(records[0], rest);
      DeframeMeaning(records[1..], tail);
    }
  }

  /** And every byte string is some list of records followed by such a tail. */
  lemma {:induction false} DeframeCovers(raw: bytes) returns (records: seq<Record>)
    ensures ValidRecords(records)
    ensures raw == PrintRecords(records) + Deframe(raw).held
    ensures Deframe(raw).delivered == AppPayloads(records)
    decreases |raw|
  {
    if Complete(raw) {
      var n := HEADER_LEN + RecordLen(raw);
      var first := Record(raw[0], raw[1], raw[2], raw[HEADER_LEN..n]);
      Be16Unique(raw[3], raw[4]);
      assert raw == first.Print() + raw[n..];
      var rest := DeframeCovers(raw[n..]);
      records := [first] + rest;
      assert records[1..] == rest;
      assert PrintRecords(records) + Deframe(raw).held == first.Print() + (PrintRecords(rest) + Deframe(raw[n..]).held);
    } else {
      records := [];
      assert raw == PrintRecords([]) + raw;
    }
  }

  /** The records that one buffer is cut into on the way out. */
  function Pieces(data: bytes): (records: seq<Record>)
    ensures ValidRecords(records)
    ensures AppPayloads(records) == data
    ensures forall r :: r in records ==> r.typ == APP_DATA && 0 < |r.payload| <= MAX_TLS_PACKET
  {
    if data == [] then []
    else
      var n := if |data| <= MAX_TLS_PACKET then |data| else MAX_TLS_PACKET;
      assert data == data[..n] + data[n..];
      [Record(APP_DATA, 3, 3, data[..n])] + Pieces(data[n..])
  }

  lemma {:induction false} PrintAppend(a: seq<Record>, b: seq<Record>)
    ensures PrintRecords(a + b) == PrintRecords(a) + PrintRecords(b)
  {
    hide Record.Print;
    if a == [] {
      assert a + b == b;
    } else {
      var rest := a[1..];
      assert a + b == [a[0]] + (rest + b);
      assert PrintRecords(a + b) == a[0].Print() + PrintRecords(rest + b);
      PrintAppend(rest, b);
    }
  }

  lemma {:induction false} PiecesAppend(a: bytes, b: bytes)
    requires |a| % MAX_TLS_PACKET == 0
    ensures Pieces(a + b) == Pieces(a) + Pieces(b)
  {
    if a == [] {
      assert a + b == b;
    } else {
      var n := MAX_TLS_PACKET;
      assert n <= |a|;
      assert (a + b)[..n] == a[..n] && (a + b)[n..] == a[n..] + b;
      PiecesAppend(a[n..], b);
    }
  }

  /** A buffer that fits one packet becomes one record; the empty buffer becomes none. */
  lemma OnePiece(piece: bytes)
    requires |piece| <= MAX_TLS_PACKET
    ensures PrintRecords(Pieces(piece)) == if piece == [] then [] else [APP_DATA, 3, 3] + Be16(|piece|) + piece
  {
    if piece != [] {
      assert piece[|piece|..] == [] && piece[..|piece|] == piece;
      var one := Record(APP_DATA, 3, 3, piece);
      assert Pieces(piece) == [one] + Pieces([]) == [one];
      assert PrintRecords([one]) == one.Print() + PrintRecords([one][1..]);
    }
  }

  lemma WrapStep(done: bytes, piece: bytes)
    requires |done| % MAX_TLS_PACKET == 0 && 0 < |piece| <= MAX_TLS_PACKET
    ensures PrintRecords(Pieces(done + piece))
         == PrintRecords(Pieces(done)) + ([APP_DATA, 3, 3] + Be16(|piece|) + piece)
  {
    hide *;
    PiecesAppend(done, piece);
    PrintAppend(Pieces(done), Pieces(piece));
    OnePiece(piece);
  }

  method WrapTlsAppData(data: bytes) returns (wire: bytes)
    ensures wire == PrintRecords(Pieces(data))
    ensures Deframe(wire) == Deframed(data, [])
  {
    hide Pieces, PrintRecords, Deframe, Be16;
    wire := [];
    var off := 0;
    OnePiece([]);
    assert data[..0] == [];
    while off < |data|
      invariant 0 <= off
      invariant off < |data| ==> off % MAX_TLS_PACKET == 0
      invariant wire == PrintRecords(Pieces(data[..if off < |data| then off else |data|]))
    {
      var end := if off + MAX_TLS_PACKET < |data| then off + MAX_TLS_PACKET else |data|;
      var piece := data[off..end];
      WrapStep(data[..off], piece);
      assert data[..off] + piece == data[..end];
      wire := wire + ([APP_DATA, 3, 3] + Be16(|piece|) + piece);
      off := off + MAX_TLS_PACKET;
    }
    assert data[..|data|] == data;
    WrittenDeframes(data);
  }

  lemma WrittenDeframes(data: bytes)
    ensures Deframe(PrintRecords(Pieces(data))) == Deframed(data, [])
  {
    DeframeMeaning(Pieces(data), []);
    assert PrintRecords(Pieces(data)) + [] == PrintRecords(Pieces(data));
  }

  /** Several writes reach the other side as one stream, with no residue. */
  lemma {:induction false} WritesDeframe(writes: seq<bytes>, wires: seq<bytes>)
    requires |writes| == |wires|
    requires forall i :: 0 <= i < |writes| ==> wires[i] == PrintRecords(Pieces(writes[i]))
    ensures Deframe(Flat(wires)) == Deframed(Flat(writes), [])
  {
    hide Pieces, PrintRecords, Deframe;
    if writes == [] {
      WrittenDeframes([]);
      OnePiece([]);
    } else {
      WritesDeframe(writes[1..], wires[1..]);
      WrittenDeframes(writes[0]);
      DeframeAppend(wires[0], Flat(wires[1..]));
      assert [] + Flat(wires[1..]) == Flat(wires[1..]);
    }
  }
}
