/** Cutting large messages into UDP packets and putting them together again. */
module UdpFragments {
  import opened Numbers

  type Bytes = seq<bv8>

  const MAX: nat := 9000
  const PREAMBLE: nat := 4

  datatype Packet =
    | Whole(body: Bytes)
    | Fragment(id: nat, start: nat, len: nat, data: Bytes)

  predicate Fits(body: Bytes) {
    PREAMBLE + |body| <= MAX
  }

  /** The fragment of message `id` that starts at `start`. */
  function Piece(id: nat, body: Bytes, start: nat): Packet
    requires start <= |body|
  {
    Fragment(id, start, |body|, body[start..start + Min(|body| - start, MAX)])
  }

  /** The packet is one of the pieces of the message. */
  predicate PieceOf(id: nat, body: Bytes, p: Packet) {
    p.Fragment? && p.start < |body| && p.start % MAX == 0 && p == Piece(id, body, p.start)
  }

  // The sender.

  function Payload(p: Packet): Bytes {
    match p
    case Whole(body) => body
    case Fragment(_, _, _, data) => data
  }

  function Concat(ps: seq<Packet>): Bytes {
    if ps == [] then [] else Concat(ps[..|ps| - 1]) + Payload(ps[|ps| - 1])
  }

  /** The packets are the pieces of the message in order, and nothing else. */
  ghost predicate PiecesInOrder(id: nat, body: Bytes, ps: seq<Packet>) {
    forall i :: 0 <= i < |ps| ==> PieceAt(id, body, ps, i)
  }

  predicate PieceAt(id: nat, body: Bytes, ps: seq<Packet>, i: nat)
    requires i < |ps|
  {
    PieceOf(id, body, ps[i]) && ps[i].start == i * MAX
  }

  /** The fragmenting loop. */
  method Cut(id: nat, body: Bytes) returns (ps: seq<Packet>)
    requires body != []
    ensures PiecesInOrder(id, body, ps) && Concat(ps) == body
    ensures |ps| == (|body| - 1) / MAX + 1
  {
    ps := [];
    var start: nat := 0;
    while start < |body|
      invariant start == |ps| * MAX && PiecesInOrder(id, body, ps)
      invariant Concat(ps) == body[..Min(start, |body|)]
      invariant start < |body| + MAX
    {
      var len := Min(|body| - start, MAX);
      var p := Fragment(id, start, |body|, body[start..start + len]);
      assert body[..start + len] == body[..start] + body[start..start + len];
      assert start % MAX == 0;
      ghost var before := ps;
      ps := ps + [p];
      forall i | 0 <= i < |ps|
        ensures PieceAt(id, body, ps, i)
      {
        if i < |before| {
          assert PieceAt(id, body, before, i);
        }
      }
      start := start + MAX;
    }
    assert body[..|body|] == body;
  }

  /** A message goes out whole when it fits, and in pieces under a fresh number otherwise. */
  method Send(lastId: nat, body: Bytes) returns (id: nat, ps: seq<Packet>)
    ensures Fits(body) ==> id == lastId && ps == [Whole(body)]
    ensures !Fits(body) ==> id == lastId + 1 && PiecesInOrder(id, body, ps) && Concat(ps) == body && |ps| >= 1
  {
    id := lastId;
    if Fits(body) {
      ps := [Whole(body)];
    } else {
      id := lastId + 1;
      ps := Cut(id, body);
    }
  }

  // The receiver.

  /** What is being put together for one sender; number 0 stands for nothing. */
  datatype Assembly = Assembly(id: nat, data: Bytes)

  const EMPTY: Assembly := Assembly(0, [])

  datatype Outcome =
    | Stopped
    | Nothing
    | Deliver(body: Bytes)

  function Receive(a: Assembly, p: Packet): (Assembly, Outcome) {
    match p
    case Whole(body) => (a, Deliver(body))
    case Fragment(id, start, len, data) =>
      if a.id != 0 && id < a.id then (a, Stopped)
      else
        var b := if a.id == id && a.id != 0 then a else Assembly(id, []);
        if start != |b.data| then (b, Nothing)
        else
          var whole := b.data + data;
          if |whole| == len then (EMPTY, Deliver(whole)) else (Assembly(b.id, whole), Nothing)
  }

  class Receiver {
    var id: nat
    var data: Bytes

    function State(): Assembly
      reads this
    {
      Assembly(id, data)
    }

    constructor ()
      ensures State() == EMPTY
    {
      id, data := 0, [];
    }

    method OnPacket(p: Packet) returns (r: Outcome)
      modifies this
      ensures (State(), r) == Receive(old(State()), p)
    {
      if p.Whole? {
        return Deliver(p.body);
      }
      if id == 0 {
        id, data := p.id, [];
      }
      if id != p.id {
        if p.id < id {
          return Stopped;
        }
        id, data := p.id, [];
      }
      if p.start != |data| {
        return Nothing;
      }
      data := data + p.data;
      if |data| == p.len {
        r := Deliver(data);
        id, data := 0, [];
      } else {
        r := Nothing;
      }
    }
  }

  // Any network.

  /** The messages sent in pieces, by number, and those sent whole. */
  datatype Sent = Sent(cut: map<nat, Bytes>, whole: set<Bytes>)

  predicate Genuine(s: Sent, p: Packet) {
    match p
    case Whole(body) => body in s.whole
    case Fragment(id, _, _, _) => id != 0 && id in s.cut && PieceOf(id, s.cut[id], p)
  }

  /** The buffer is a prefix of the message it is for. */
  predicate AssemblyOk(s: Sent, a: Assembly) {
    if a.id == 0 then a.data == [] else a.id in s.cut && a.data <= s.cut[a.id]
  }

  predicate WasSent(s: Sent, body: Bytes) {
    body in s.whole || exists id :: id in s.cut && s.cut[id] == body
  }

  /** The buffer after a sequence of packets, stopping where the code stops, and what was delivered. */
  function ReceiveAll(a: Assembly, ps: seq<Packet>): (Assembly, seq<Bytes>)
    decreases |ps|
  {
    if ps == [] then (a, [])
    else
      var (b, r) := Receive(a, ps[0]);
      match r
      case Stopped => (b, [])
      case Nothing => ReceiveAll(b, ps[1..])
      case Deliver(body) =>
        var (c, more) := ReceiveAll(b, ps[1..]);
        (c, [body] + more)
  }

  /**
   * Whatever the network loses, repeats or reorders, the buffer is a prefix of one sent message, and
   * everything delivered was sent.
   */
  lemma {:induction false} DeliveredWasSent(s: Sent, a: Assembly, ps: seq<Packet>)
    requires AssemblyOk(s, a) && forall i :: 0 <= i < |ps| ==> Genuine(s, ps[i])
    ensures var (b, got) := ReceiveAll(a, ps); AssemblyOk(s, b) && forall i :: 0 <= i < |got| ==> WasSent(s, got[i])
    decreases |ps|
  {
    if ps != [] {
      var (b, r) := Receive(a, ps[0]);
      if r != Stopped {
        DeliveredWasSent(s, b, ps[1..]);
      }
    }
  }

  // In order.

  lemma PieceLength(id: nat, body: Bytes, ps: seq<Packet>, i: nat)
    requires PiecesInOrder(id, body, ps) && |ps| == (|body| - 1) / MAX + 1 && body != [] && i < |ps|
    ensures PieceAt(id, body, ps, i)
    ensures |ps[i].data| == if i == |ps| - 1 then |body| - i * MAX else MAX
    ensures i < |ps| - 1 ==> (i + 1) * MAX < |body|
  {
  }

  /** The state while the pieces arrive in order. */
  function Partial(id: nat, body: Bytes, i: nat): Assembly
    requires i * MAX <= |body|
  {
    Assembly(id, body[..i * MAX])
  }

  lemma {:induction false} InOrderFrom(id: nat, body: Bytes, ps: seq<Packet>, i: nat)
    requires id != 0 && body != [] && PiecesInOrder(id, body, ps) && |ps| == (|body| - 1) / MAX + 1
    requires i < |ps| && i * MAX <= |body|
    ensures ReceiveAll(Partial(id, body, i), ps[i..]) == (EMPTY, [body])
    decreases |ps| - i
  {
    PieceLength(id, body, ps, i);
    var p := ps[i];
    assert ps[i..][0] == p && ps[i..][1..] == ps[i + 1..];
    var whole := body[..i * MAX] + p.data;
    if i == |ps| - 1 {
      assert whole == body;
      assert Receive(Partial(id, body, i), p) == (EMPTY, Deliver(body));
      assert ReceiveAll(EMPTY, ps[i + 1..]) == (EMPTY, []);
      assert [body] + [] == [body];
    } else {
      assert whole == body[..(i + 1) * MAX];
      assert Receive(Partial(id, body, i), p) == (Partial(id, body, i + 1), Nothing);
      InOrderFrom(id, body, ps, i + 1);
    }
  }

  /**
   * Round trip: the pieces of a message, received in order by a receiver that is not busy with a newer
   * message, deliver exactly the message and leave nothing behind.
   */
  lemma InOrder(a: Assembly, id: nat, body: Bytes, ps: seq<Packet>)
    requires id != 0 && body != [] && PiecesInOrder(id, body, ps) && |ps| == (|body| - 1) / MAX + 1
    requires a.id == 0 || a.id < id
    ensures ReceiveAll(a, ps) == (EMPTY, [body])
  {
    InOrderFrom(id, body, ps, 0);
    PieceLength(id, body, ps, 0);
    assert ps[0..] == ps && body[..0] == [];
    assert Partial(id, body, 0) == Assembly(id, []);
    assert Receive(a, ps[0]) == Receive(Assembly(id, []), ps[0]);
  }

  // The copy handed on.

  /** The bytes that `new char(msg_size)` allocates for the reassembled message. */
  const COPY_BYTES: nat := 1

  /** Messages are cut only when they do not fit. */
  predicate CutOnlyLarge(s: Sent) {
    forall id :: id in s.cut ==> !Fits(s.cut[id])
  }

  /**
   * A message delivered from pieces never fits the buffer it is copied into; one delivered whole is not
   * copied. The bytes above are those that were put together, before that copy.
   */
  lemma CopyNeverFits(s: Sent, a: Assembly, p: Packet)
    requires AssemblyOk(s, a) && Genuine(s, p) && CutOnlyLarge(s)
    ensures p.Fragment? && Receive(a, p).1.Deliver? ==> |Receive(a, p).1.body| > COPY_BYTES
  {
  }

  // Reordering.

  /** Which message is incomplete, and how many of its pieces have arrived one after the other. */
  datatype Progress = Progress(id: nat, pieces: nat)

  const IDLE: Progress := Progress(0, 0)

  function Advance(g: Progress, p: Packet): Progress {
    if p.Whole? || p.id < g.id then g
    else
      var k := if g.id == p.id then g.pieces else 0;
      if p.start != k * MAX then Progress(p.id, k)
      else if p.start + MAX >= p.len then IDLE
      else Progress(p.id, k + 1)
  }

  /** The progress after a sequence of packets. */
  function ProgressOf(ps: seq<Packet>): Progress {
    if ps == [] then IDLE else Advance(ProgressOf(ps[..|ps| - 1]), ps[|ps| - 1])
  }

  /** A piece of an older message comes while a newer one is incomplete. */
  predicate OlderWhileBusy(ps: seq<Packet>, j: nat) {
    j < |ps| && ps[j].Fragment? && ps[j].id < ProgressOf(ps[..j]).id
  }

  /** The receiver stops somewhere in the sequence. */
  predicate StopsIn(a: Assembly, ps: seq<Packet>)
    decreases |ps|
  {
    ps != [] && (Receive(a, ps[0]).1 == Stopped || StopsIn(Receive(a, ps[0]).0, ps[1..]))
  }

  /** The buffer holds exactly the pieces counted. */
  predicate Matches(s: Sent, a: Assembly, g: Progress) {
    if g.id == 0 then a == EMPTY && g == IDLE
    else g.id in s.cut && g.pieces * MAX < |s.cut[g.id]| && a == Assembly(g.id, s.cut[g.id][..g.pieces * MAX])
  }

  lemma AdvanceMatches(s: Sent, a: Assembly, g: Progress, p: Packet)
    requires Matches(s, a, g) && Genuine(s, p)
    ensures Matches(s, Receive(a, p).0, Advance(g, p))
    ensures Receive(a, p).1 == Stopped <==> p.Fragment? && p.id < g.id
  {
    if p.Fragment? && p.id >= g.id {
      var body, k := s.cut[p.id], if g.id == p.id then g.pieces else 0;
      if p.start == k * MAX {
        assert p.start + MAX < |body| ==> body[..k * MAX] + p.data == body[..(k + 1) * MAX];
      }
    }
  }

  lemma {:induction false} StopsFrom(s: Sent, a: Assembly, ps: seq<Packet>, i: nat)
    requires (forall k :: 0 <= k < |ps| ==> Genuine(s, ps[k])) && i <= |ps| && Matches(s, a, ProgressOf(ps[..i]))
    ensures StopsIn(a, ps[i..]) <==> exists j :: i <= j && OlderWhileBusy(ps, j)
    decreases |ps| - i
  {
    if i < |ps| {
      assert ps[i..][0] == ps[i] && ps[i..][1..] == ps[i + 1..] && ps[..i + 1][..i] == ps[..i];
      AdvanceMatches(s, a, ProgressOf(ps[..i]), ps[i]);
      StopsFrom(s, Receive(a, ps[i]).0, ps, i + 1);
      if OlderWhileBusy(ps, i) {
        assert Receive(a, ps[i]).1 == Stopped;
      }
    }
  }

  /** Exactly when genuine packets stop the receiver: an older number arrives while a newer one is incomplete. */
  lemma StopsExactly(s: Sent, ps: seq<Packet>)
    requires forall k :: 0 <= k < |ps| ==> Genuine(s, ps[k])
    ensures StopsIn(EMPTY, ps) <==> exists j: nat :: OlderWhileBusy(ps, j)
  {
    assert ps[0..] == ps && ps[..0] == [];
    StopsFrom(s, EMPTY, ps, 0);
  }

  lemma {:induction false} ProgressFromLast(ps: seq<Packet>, j: nat)
    requires j <= |ps| && ProgressOf(ps[..j]).id != 0
    ensures exists i :: 0 <= i < j && ps[i].Fragment? && ps[i].id == ProgressOf(ps[..j]).id
    decreases j
  {
    assert ps[..j][..j - 1] == ps[..j - 1];
    if ProgressOf(ps[..j - 1]).id == ProgressOf(ps[..j]).id {
      ProgressFromLast(ps, j - 1);
    } else {
      assert ps[j - 1].id == ProgressOf(ps[..j]).id;
    }
  }

  /** So a network that keeps the order of messages never stops it, whatever it loses or repeats. */
  lemma OrderedNeverStops(s: Sent, ps: seq<Packet>)
    requires forall k :: 0 <= k < |ps| ==> Genuine(s, ps[k])
    requires forall i, j :: 0 <= i < j < |ps| && ps[i].Fragment? && ps[j].Fragment? ==> ps[i].id <= ps[j].id
    ensures !StopsIn(EMPTY, ps)
  {
    StopsExactly(s, ps);
    if j: nat :| OlderWhileBusy(ps, j) {
      ProgressFromLast(ps, j);
    }
  }

  /** Two large messages, the first piece of the second before the first piece of the first. */
  lemma SwappedStops(first: Bytes, second: Bytes)
    requires |first| > MAX && |second| > MAX
    ensures StopsIn(EMPTY, [Piece(2, second, 0), Piece(1, first, 0)])
  {
    var ps := [Piece(2, second, 0), Piece(1, first, 0)];
    assert ps[1..] == [Piece(1, first, 0)];
  }
}
