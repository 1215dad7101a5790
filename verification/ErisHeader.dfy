/** The Eris packet header: written by the client, completed by the sequencer, read by the servers. */
module ErisHeader {

  type Byte = x: nat | x < 256

  type Bytes = seq<Byte>

  // Numbers in network byte order.

  function Pow(k: nat): (p: nat)
    ensures p > 0
  {
    if k == 0 then 1 else 256 * Pow(k - 1)
  }

  /** The k bytes of n. */
  function Be(n: nat, k: nat): (bs: Bytes)
    ensures |bs| == k
  {
    if k == 0 then [] else Be(n / 256, k - 1) + [n % 256]
  }

  function De(bs: Bytes): (n: nat)
    ensures n < Pow(|bs|)
  {
    if bs == [] then 0 else 256 * De(bs[..|bs| - 1]) + bs[|bs| - 1]
  }

  lemma {:induction false} DeBe(n: nat, k: nat)
    requires n < Pow(k)
    ensures De(Be(n, k)) == n
    decreases k
  {
    if k > 0 {
      DeBe(n / 256, k - 1);
      assert Be(n, k)[..k - 1] == Be(n / 256, k - 1);
    }
  }

  lemma {:induction false} BeDe(bs: Bytes)
    ensures Be(De(bs), |bs|) == bs
    decreases |bs|
  {
    if bs != [] {
      var n := |bs| - 1;
      BeDe(bs[..n]);
      LastByte(De(bs[..n]), bs[n]);
      assert bs == bs[..n] + [bs[n]];
    }
  }

  lemma LastByte(d: nat, b: Byte)
    ensures (256 * d + b) / 256 == d && (256 * d + b) % 256 == b
  {
  }

  lemma Powers()
    ensures Pow(1) == 256 && Pow(2) == 0x1_0000 && Pow(4) == 0x1_0000_0000 && Pow(8) == 0x1_0000_0000_0000_0000
  {
  }

  // The format.

  const HEADER_SIZE: nat := 2
  const SESS_NUM: nat := 2
  const NUM_GROUPS: nat := 1
  const GROUP_ID: nat := 4
  const MSG_NUM: nat := 8
  const PER_GROUP: nat := 12

  /** A group and its message number. */
  type GroupStamp = (nat, nat)

  predicate StampFits(s: GroupStamp) {
    s.0 < 0x1_0000_0000 && s.1 < 0x1_0000_0000_0000_0000
  }

  predicate StampsFit(stamps: seq<GroupStamp>) {
    forall i :: 0 <= i < |stamps| ==> StampFits(stamps[i])
  }

  function StampBytes(s: GroupStamp): Bytes {
    Be(s.0, GROUP_ID) + Be(s.1, MSG_NUM)
  }

  function Groups(stamps: seq<GroupStamp>): (bs: Bytes)
    ensures |bs| == PER_GROUP * |stamps|
  {
    if stamps == [] then [] else Groups(stamps[..|stamps| - 1]) + StampBytes(stamps[|stamps| - 1])
  }

  function StampSize(n: nat): nat {
    SESS_NUM + NUM_GROUPS + PER_GROUP * n
  }

  /** The fixed part in front of the groups. */
  function Front(sess: nat, n: nat): Bytes {
    Be(StampSize(n), HEADER_SIZE) + Be(sess, SESS_NUM) + Be(n, NUM_GROUPS)
  }

  const FRONT: nat := 5

  /** A stamped packet. */
  function Encode(sess: nat, stamps: seq<GroupStamp>, payload: Bytes): Bytes {
    Front(sess, |stamps|) + Groups(stamps) + payload
  }

  function SerializedSize(n: nat, payload: nat): nat {
    HEADER_SIZE + (if n > 0 then StampSize(n) else 0) + payload
  }

  // Reading a packet.

  lemma {:induction false} GroupsAt(stamps: seq<GroupStamp>, i: nat)
    requires i < |stamps|
    ensures Groups(stamps)[PER_GROUP * i..PER_GROUP * i + PER_GROUP] == StampBytes(stamps[i])
    decreases |stamps|
  {
    var n := |stamps| - 1;
    if i < n {
      GroupsAt(stamps[..n], i);
      var part, a, b := Groups(stamps[..n]), PER_GROUP * i, PER_GROUP * i + PER_GROUP;
      assert (part + StampBytes(stamps[n]))[a..b] == part[a..b];
    }
  }

  /** Where the i-th group stands in the packet. */
  function At(i: nat): nat {
    FRONT + PER_GROUP * i
  }

  lemma EncodeParts(sess: nat, stamps: seq<GroupStamp>, payload: Bytes)
    ensures var buf := Encode(sess, stamps, payload);
            && |buf| == At(|stamps|) + |payload| && buf[..2] == Be(StampSize(|stamps|), 2) && buf[2..4] == Be(sess, 2)
            && buf[4..5] == Be(|stamps|, 1) && buf[At(|stamps|)..] == payload
  {
  }

  lemma EncodeGroup(sess: nat, stamps: seq<GroupStamp>, payload: Bytes, i: nat)
    requires i < |stamps|
    ensures var buf := Encode(sess, stamps, payload);
            && At(i) + PER_GROUP <= |buf|
            && buf[At(i)..At(i) + GROUP_ID] == Be(stamps[i].0, GROUP_ID)
            && buf[At(i) + GROUP_ID..At(i) + PER_GROUP] == Be(stamps[i].1, MSG_NUM)
  {
    var buf := Encode(sess, stamps, payload);
    GroupsAt(stamps, i);
    var a := PER_GROUP * i;
    assert buf[At(i)..At(i) + PER_GROUP] == Groups(stamps)[a..a + PER_GROUP];
    assert buf[At(i)..At(i) + GROUP_ID] == buf[At(i)..At(i) + PER_GROUP][..GROUP_ID];
    assert buf[At(i) + GROUP_ID..At(i) + PER_GROUP] == buf[At(i)..At(i) + PER_GROUP][GROUP_ID..];
  }

  /** What a server reads: the session, each group's number, and the payload. */
  datatype Parsed = Parsed(sess: nat, stamps: seq<GroupStamp>, payload: Bytes)

  function ReadGroup(buf: Bytes, i: nat): GroupStamp
    requires At(i + 1) <= |buf|
  {
    (De(buf[At(i)..At(i) + GROUP_ID]), De(buf[At(i) + GROUP_ID..At(i + 1)]))
  }

  function ReadGroups(buf: Bytes, n: nat): seq<GroupStamp>
    requires At(n) <= |buf|
  {
    if n == 0 then [] else ReadGroups(buf, n - 1) + [ReadGroup(buf, n - 1)]
  }

  /** The header lies within the packet, and the groups it counts within the header. */
  predicate Readable(buf: Bytes) {
    && |buf| >= HEADER_SIZE
    && var size := De(buf[..2]);
       size > 0 ==> FRONT <= HEADER_SIZE + size <= |buf| && At(De(buf[4..5])) <= HEADER_SIZE + size
  }

  /**
   * What a packet means to its reader. Without a header it is all payload. Otherwise the payload starts after
   * the groups that are counted, and is as long as what follows the header.
   */
  function Decode(buf: Bytes): Parsed
    requires Readable(buf)
  {
    var size := De(buf[..2]);
    if size == 0 then Parsed(0, [], buf[HEADER_SIZE..])
    else
      var n := De(buf[4..5]);
      Parsed(De(buf[2..4]), ReadGroups(buf, n), buf[At(n)..At(n) + |buf| - HEADER_SIZE - size])
  }

  method Parse(buf: Bytes) returns (p: Parsed)
    requires Readable(buf)
    ensures p == Decode(buf)
  {
    var size := De(buf[..2]);
    if size == 0 {
      return Parsed(0, [], buf[2..]);
    }
    var sess := De(buf[2..4]);
    var n := De(buf[4..5]);
    var stamps: seq<GroupStamp> := [];
    var at := FRONT;
    for i := 0 to n
      invariant at == At(i) && stamps == ReadGroups(buf, i)
    {
      var g := De(buf[at..at + GROUP_ID]);
      at := at + GROUP_ID;
      var num := De(buf[at..at + MSG_NUM]);
      at := at + MSG_NUM;
      stamps := stamps + [(g, num)];
    }
    p := Parsed(sess, stamps, buf[at..at + |buf| - HEADER_SIZE - size]);
  }

  lemma ReadOne(sess: nat, stamps: seq<GroupStamp>, payload: Bytes, i: nat)
    requires i < |stamps| && StampFits(stamps[i])
    ensures var buf := Encode(sess, stamps, payload); At(i + 1) <= |buf| && ReadGroup(buf, i) == stamps[i]
  {
    Powers();
    EncodeGroup(sess, stamps, payload, i);
    DeBe(stamps[i].0, GROUP_ID);
    DeBe(stamps[i].1, MSG_NUM);
  }

  lemma {:induction false} ReadEncoded(sess: nat, stamps: seq<GroupStamp>, payload: Bytes, n: nat)
    requires n <= |stamps| && StampsFit(stamps)
    ensures var buf := Encode(sess, stamps, payload); At(n) <= |buf| && ReadGroups(buf, n) == stamps[..n]
    decreases n
  {
    if n == 0 {
      EncodeParts(sess, stamps, payload);
    } else {
      ReadEncoded(sess, stamps, payload, n - 1);
      ReadOne(sess, stamps, payload, n - 1);
      var buf := Encode(sess, stamps, payload);
      assert stamps[..n] == stamps[..n - 1] + [stamps[n - 1]];
      assert ReadGroups(buf, n) == ReadGroups(buf, n - 1) + [ReadGroup(buf, n - 1)];
    }
  }

  lemma CountByte(n: nat)
    ensures De(Be(n, NUM_GROUPS)) == n % 256
  {
    assert Be(n, 1)[..0] == [] && Be(n, 1)[0] == n % 256;
  }

  /** The header's size fits its two bytes. */
  predicate SizeFits(n: nat) {
    StampSize(n) < 0x1_0000
  }

  /**
   * What a stamped packet is parsed to: the group count takes one byte, so of n groups only n % 256 are read,
   * and the payload is taken from right after them.
   */
  lemma ParseStamped(sess: nat, stamps: seq<GroupStamp>, payload: Bytes)
    requires 0 < |stamps| && SizeFits(|stamps|) && sess < 0x1_0000 && StampsFit(stamps)
    ensures var buf, n := Encode(sess, stamps, payload), |stamps| % 256;
            && Readable(buf) && At(n) + |payload| <= |buf|
            && Decode(buf) == Parsed(sess, stamps[..n], buf[At(n)..At(n) + |payload|])
  {
    Powers();
    EncodeParts(sess, stamps, payload);
    DeBe(StampSize(|stamps|), 2);
    DeBe(sess, 2);
    CountByte(|stamps|);
    ReadEncoded(sess, stamps, payload, |stamps| % 256);
  }

  /** Parsing gives back what was stamped exactly when there are fewer than 256 groups. */
  lemma ParseExactly(sess: nat, stamps: seq<GroupStamp>, payload: Bytes)
    requires 0 < |stamps| && SizeFits(|stamps|) && sess < 0x1_0000 && StampsFit(stamps)
    ensures Readable(Encode(sess, stamps, payload))
    ensures Decode(Encode(sess, stamps, payload)) == Parsed(sess, stamps, payload) <==> |stamps| < 256
  {
    ParseRest(sess, stamps, payload);
    AllCounted(stamps, payload);
  }

  lemma AllCounted(stamps: seq<GroupStamp>, payload: Bytes)
    ensures Counted(stamps) == stamps <==> |stamps| < 256
    ensures |stamps| < 256 ==> (Groups(Uncounted(stamps)) + payload)[..|payload|] == payload
  {
    if |stamps| < 256 {
      assert Uncounted(stamps) == [];
    }
  }

  /** A packet for 256 groups reads as one without any, its payload as the start of its groups. */
  lemma ParsesToNothing(sess: nat, stamps: seq<GroupStamp>, payload: Bytes)
    requires |stamps| == 256 && sess < 0x1_0000 && StampsFit(stamps) && |payload| <= PER_GROUP * 256
    ensures Readable(Encode(sess, stamps, payload))
    ensures Decode(Encode(sess, stamps, payload)) == Parsed(sess, [], Groups(stamps)[..|payload|])
  {
    ParseStamped(sess, stamps, payload);
    assert stamps[..0] == [];
  }

  /** A packet without stamp is all payload. */
  lemma ParseUnstamped(payload: Bytes)
    ensures Readable(Be(0, HEADER_SIZE) + payload) && Decode(Be(0, HEADER_SIZE) + payload) == Parsed(0, [], payload)
  {
    Powers();
    DeBe(0, 2);
    assert (Be(0, HEADER_SIZE) + payload)[..2] == Be(0, 2);
  }

  // Writing a packet.

  function Write(buf: Bytes, p: nat, bs: Bytes): (r: Bytes)
    requires p + |bs| <= |buf|
    ensures |r| == |buf|
  {
    buf[..p] + bs + buf[p + |bs|..]
  }

  lemma ThreeParts(buf: Bytes, a: nat, b: nat, c: nat)
    requires a <= b <= c <= |buf|
    ensures buf[..c] == buf[..a] + (buf[a..b] + buf[b..c])
  {
  }

  /** Writing a group leaves the bytes of its number as they were: some number. */
  lemma WriteGroup(buf: Bytes, i: nat, g: nat)
    requires At(i + 1) <= |buf|
    ensures var buf' := Write(buf, At(i), Be(g, GROUP_ID));
            var kept := De(buf[At(i) + GROUP_ID..At(i + 1)]);
            buf'[..At(i + 1)] == buf[..At(i)] + StampBytes((g, kept)) && kept < 0x1_0000_0000_0000_0000
  {
    Powers();
    var buf' := Write(buf, At(i), Be(g, GROUP_ID));
    var bytes := buf[At(i) + GROUP_ID..At(i + 1)];
    BeDe(bytes);
    assert buf'[..At(i)] == buf[..At(i)] && buf'[At(i)..At(i) + GROUP_ID] == Be(g, GROUP_ID);
    assert buf'[At(i) + GROUP_ID..At(i + 1)] == bytes;
    ThreeParts(buf', At(i), At(i) + GROUP_ID, At(i + 1));
  }

  /** The loop over the groups. */
  method WriteGroups(buf0: Bytes, groups: seq<nat>, ghost front: Bytes)
    returns (buf: Bytes, ghost stamps: seq<GroupStamp>)
    requires At(|groups|) <= |buf0| && |front| == FRONT && buf0[..FRONT] == front
    requires forall i :: 0 <= i < |groups| ==> groups[i] < 0x1_0000_0000
    ensures |buf| == |buf0| && |stamps| == |groups| && StampsFit(stamps)
    ensures forall i :: 0 <= i < |groups| ==> stamps[i].0 == groups[i]
    ensures buf[..At(|groups|)] == front + Groups(stamps)
  {
    buf, stamps := buf0, [];
    for i := 0 to |groups|
      invariant |buf| == |buf0| && |stamps| == i && StampsFit(stamps)
      invariant forall j :: 0 <= j < i ==> stamps[j].0 == groups[j]
      invariant buf[..At(i)] == front + Groups(stamps)
    {
      ghost var s := (groups[i], De(buf[At(i) + GROUP_ID..At(i + 1)]));
      WriteGroup(buf, i, groups[i]);
      AppendGroup(front, stamps, s);
      buf := Write(buf, At(i), Be(groups[i], GROUP_ID));
      stamps := stamps + [s];
    }
  }

  lemma WriteFront(junk: Bytes, n: nat)
    requires |junk| >= FRONT
    ensures var buf := Write(Write(junk, 0, Be(StampSize(n), HEADER_SIZE)), 4, Be(n, NUM_GROUPS));
            var sess := De(junk[2..4]);
            buf[..FRONT] == Front(sess, n) && sess < 0x1_0000
  {
    Powers();
    BeDe(junk[2..4]);
    var first := Write(junk, 0, Be(StampSize(n), HEADER_SIZE));
    assert first[..4] == Be(StampSize(n), HEADER_SIZE) + junk[2..4];
  }

  /**
   * The client's serialization into a buffer whose content is arbitrary: session and message numbers stay
   * what the buffer held, everything else is in place.
   */
  method Serialize(junk: Bytes, groups: seq<nat>, payload: Bytes)
    returns (buf: Bytes, ghost sess: nat, ghost stamps: seq<GroupStamp>)
    requires |junk| == SerializedSize(|groups|, |payload|)
    requires forall i :: 0 <= i < |groups| ==> groups[i] < 0x1_0000_0000
    ensures |buf| == SerializedSize(|groups|, |payload|)
    ensures groups == [] ==> buf == Be(0, HEADER_SIZE) + payload
    ensures groups != [] ==> buf == Encode(sess, stamps, payload) && sess < 0x1_0000 && StampsFit(stamps)
    ensures groups != [] ==> |stamps| == |groups| && forall i :: 0 <= i < |groups| ==> stamps[i].0 == groups[i]
  {
    buf, sess, stamps := junk, 0, [];
    if groups == [] {
      buf := Write(buf, 0, Be(0, HEADER_SIZE));
      buf := Write(buf, 2, payload);
    } else {
      sess := De(junk[2..4]);
      WriteFront(junk, |groups|);
      buf := Write(buf, 0, Be(StampSize(|groups|), HEADER_SIZE));
      buf := Write(buf, 4, Be(|groups|, NUM_GROUPS));
      buf, stamps := WriteGroups(buf, groups, Front(sess, |groups|));
      buf := Write(buf, At(|groups|), payload);
    }
  }

  // The sequencer.

  /** Filling in a message number. */
  lemma WriteNumber(buf: Bytes, i: nat, g: nat, num: nat)
    requires At(i + 1) <= |buf| && buf[At(i)..At(i) + GROUP_ID] == Be(g, GROUP_ID)
    ensures var buf' := Write(buf, At(i) + GROUP_ID, Be(num, MSG_NUM));
            buf'[..At(i + 1)] == buf[..At(i)] + StampBytes((g, num)) && buf'[At(i + 1)..] == buf[At(i + 1)..]
  {
  }

  function GroupsOf(stamps: seq<GroupStamp>): (gs: seq<nat>)
    ensures |gs| == |stamps| && forall i :: 0 <= i < |gs| ==> gs[i] == stamps[i].0
  {
    seq(|stamps|, i requires 0 <= i < |stamps| => stamps[i].0)
  }

  /** The numbers the sequencer assigns to the groups, one after the other. */
  function Assign(counters: map<nat, nat>, groups: seq<GroupStamp>): (map<nat, nat>, seq<GroupStamp>) {
    if groups == [] then (counters, [])
    else
      var (cs, out) := Assign(counters, groups[..|groups| - 1]);
      var g := groups[|groups| - 1].0;
      var num := (if g in cs then cs[g] else 0) + 1;
      (cs[g := num], out + [(g, num)])
  }

  lemma {:induction false} AssignLength(counters: map<nat, nat>, groups: seq<GroupStamp>)
    ensures |Assign(counters, groups).1| == |groups|
    decreases |groups|
  {
    if groups != [] {
      AssignLength(counters, groups[..|groups| - 1]);
    }
  }

  lemma GroupsStep(out: seq<GroupStamp>, s: GroupStamp)
    ensures Groups(out + [s]) == Groups(out) + StampBytes(s)
  {
    assert (out + [s])[..|out|] == out;
  }

  lemma AppendGroup(front: Bytes, out: seq<GroupStamp>, s: GroupStamp)
    ensures (front + Groups(out)) + StampBytes(s) == front + Groups(out + [s])
  {
    GroupsStep(out, s);
  }

  /** One group stamped; what follows is as in the packet `buf0` that arrived. */
  lemma StampOne(buf: Bytes, buf0: Bytes, front: Bytes, out: seq<GroupStamp>, i: nat, g: nat, num: nat)
    requires |buf| == |buf0| && At(i + 1) <= |buf| && |front| == FRONT
    requires buf[..At(i)] == front + Groups(out) && buf[At(i)..] == buf0[At(i)..]
    requires buf0[At(i)..At(i) + GROUP_ID] == Be(g, GROUP_ID)
    ensures var buf' := Write(buf, At(i) + GROUP_ID, Be(num, MSG_NUM));
            buf'[..At(i + 1)] == front + Groups(out + [(g, num)]) && buf'[At(i + 1)..] == buf0[At(i + 1)..]
  {
    assert buf[At(i)..At(i) + GROUP_ID] == buf[At(i)..][..GROUP_ID];
    assert buf0[At(i)..At(i) + GROUP_ID] == buf0[At(i)..][..GROUP_ID];
    WriteNumber(buf, i, g, num);
    AppendGroup(front, out, (g, num));
    assert buf[At(i + 1)..] == buf[At(i)..][PER_GROUP..] && buf0[At(i + 1)..] == buf0[At(i)..][PER_GROUP..];
  }

  /** The group to be stamped is read from the part that is still as it arrived. */
  lemma GroupRead(buf: Bytes, buf0: Bytes, sess0: nat, stamps0: seq<GroupStamp>, payload: Bytes, i: nat)
    requires buf0 == Encode(sess0, stamps0, payload) && i < |stamps0| && StampsFit(stamps0)
    requires |buf| == |buf0| && At(i) <= |buf| && buf[At(i)..] == buf0[At(i)..]
    ensures At(i + 1) <= |buf| && De(buf[At(i)..At(i) + GROUP_ID]) == stamps0[i].0
    ensures buf0[At(i)..At(i) + GROUP_ID] == Be(stamps0[i].0, GROUP_ID)
  {
    Powers();
    EncodeGroup(sess0, stamps0, payload, i);
    DeBe(stamps0[i].0, GROUP_ID);
    assert buf[At(i)..At(i) + GROUP_ID] == buf[At(i)..][..GROUP_ID];
    assert buf0[At(i)..At(i) + GROUP_ID] == buf0[At(i)..][..GROUP_ID];
  }

  lemma AssignNext(counters: map<nat, nat>, groups: seq<GroupStamp>, i: nat)
    requires i < |groups|
    ensures var (cs, out) := Assign(counters, groups[..i]);
            var g := groups[i].0;
            var num := (if g in cs then cs[g] else 0) + 1;
            Assign(counters, groups[..i + 1]) == (cs[g := num], out + [(g, num)])
  {
    assert groups[..i + 1][..i] == groups[..i];
  }

  lemma GroupsNext(stamps: seq<GroupStamp>, i: nat)
    requires i < |stamps|
    ensures GroupsOf(stamps[..i + 1]) == GroupsOf(stamps[..i]) + [stamps[i].0]
  {
  }

  /** The loop over the groups of the packet. */
  method StampGroups(buf1: Bytes, counters: map<nat, nat>, n: nat, ghost buf0: Bytes, ghost front: Bytes,
                     ghost sess0: nat, ghost stamps0: seq<GroupStamp>, ghost payload: Bytes)
    returns (buf: Bytes, counters': map<nat, nat>, groups: seq<nat>)
    requires buf0 == Encode(sess0, stamps0, payload) && n <= |stamps0| && StampsFit(stamps0)
    requires |buf1| == |buf0| && |front| == FRONT && buf1[..FRONT] == front && buf1[FRONT..] == buf0[FRONT..]
    ensures |buf| == |buf0| && counters' == Assign(counters, stamps0[..n]).0 && groups == GroupsOf(stamps0[..n])
    ensures buf[..At(n)] == front + Groups(Assign(counters, stamps0[..n]).1) && buf[At(n)..] == buf0[At(n)..]
  {
    EncodeParts(sess0, stamps0, payload);
    buf, counters', groups := buf1, counters, [];
    for i := 0 to n
      invariant StampedUpTo(buf, buf0, front, counters, stamps0, i)
      invariant groups == GroupsOf(stamps0[..i]) && counters' == Assign(counters, stamps0[..i]).0
    {
      StampStep(buf, buf0, front, counters, sess0, stamps0, payload, i);
      var g := De(buf[At(i)..At(i) + GROUP_ID]);
      groups := groups + [g];
      var num := (if g in counters' then counters'[g] else 0) + 1;
      counters' := counters'[g := num];
      buf := Write(buf, At(i) + GROUP_ID, Be(num, MSG_NUM));
    }
  }

  /** The packet `buf0` with its first `i` groups stamped. */
  predicate StampedUpTo(buf: Bytes, buf0: Bytes, front: Bytes, counters: map<nat, nat>, stamps0: seq<GroupStamp>,
                        i: nat)
  {
    && i <= |stamps0| && |buf| == |buf0| && At(i) <= |buf|
    && buf[..At(i)] == front + Groups(Assign(counters, stamps0[..i]).1) && buf[At(i)..] == buf0[At(i)..]
  }

  lemma StampStep(buf: Bytes, buf0: Bytes, front: Bytes, counters: map<nat, nat>, sess0: nat, stamps0: seq<GroupStamp>,
                  payload: Bytes, i: nat)
    requires buf0 == Encode(sess0, stamps0, payload) && i < |stamps0| && StampsFit(stamps0) && |front| == FRONT
    requires StampedUpTo(buf, buf0, front, counters, stamps0, i)
    ensures At(i + 1) <= |buf| && De(buf[At(i)..At(i) + GROUP_ID]) == stamps0[i].0
    ensures GroupsOf(stamps0[..i + 1]) == GroupsOf(stamps0[..i]) + [stamps0[i].0]
    ensures var cs, g := Assign(counters, stamps0[..i]).0, stamps0[i].0;
            var num := (if g in cs then cs[g] else 0) + 1;
            var buf' := Write(buf, At(i) + GROUP_ID, Be(num, MSG_NUM));
            && Assign(counters, stamps0[..i + 1]).0 == cs[g := num]
            && StampedUpTo(buf', buf0, front, counters, stamps0, i + 1)
  {
    var (cs, out) := Assign(counters, stamps0[..i]);
    var g := stamps0[i].0;
    var num := (if g in cs then cs[g] else 0) + 1;
    GroupRead(buf, buf0, sess0, stamps0, payload, i);
    AssignNext(counters, stamps0, i);
    GroupsNext(stamps0, i);
    StampOne(buf, buf0, front, out, i, g, num);
  }

  lemma {:induction false} GroupsConcat(a: seq<GroupStamp>, b: seq<GroupStamp>)
    ensures Groups(a + b) == Groups(a) + Groups(b)
    decreases |b|
  {
    if b == [] {
      assert a + b == a;
    } else {
      var n := |b| - 1;
      GroupsConcat(a, b[..n]);
      GroupsStep(a + b[..n], b[n]);
      assert a + b == (a + b[..n]) + [b[n]];
    }
  }

  /** What follows the first `n` groups of a packet. */
  lemma EncodeRest(sess: nat, stamps: seq<GroupStamp>, payload: Bytes, n: nat)
    requires n <= |stamps|
    ensures var buf := Encode(sess, stamps, payload);
            |buf| >= At(n) && buf[At(n)..] == Groups(stamps[n..]) + payload
  {
    GroupsConcat(stamps[..n], stamps[n..]);
    assert stamps == stamps[..n] + stamps[n..];
    assert Encode(sess, stamps, payload)
        == (Front(sess, |stamps|) + Groups(stamps[..n])) + (Groups(stamps[n..]) + payload);
  }

  /** A header is never taken for a missing one: its size is odd. */
  lemma SizeNotZero(n: nat)
    ensures De(Be(StampSize(n), HEADER_SIZE)) > 0
  {
    var size := StampSize(n);
    assert size % 2 == 1;
    assert Be(size, 2)[..1] == Be(size / 256, 1);
    assert Be(size, 2)[1] == size % 256;
  }

  /** The packet as the client sends it. */
  function Sent(sess: nat, stamps: seq<GroupStamp>, payload: Bytes): Bytes {
    if stamps == [] then Be(0, HEADER_SIZE) + payload else Encode(sess, stamps, payload)
  }

  /** The groups stamped: as many as the one byte of the count says. */
  function Counted(stamps: seq<GroupStamp>): seq<GroupStamp> {
    stamps[..|stamps| % 256]
  }

  function Uncounted(stamps: seq<GroupStamp>): seq<GroupStamp> {
    stamps[|stamps| % 256..]
  }

  /**
   * Rewrites session and message numbers in place and sends the packet to the groups it stamped. Groups beyond the
   * count, and the payload, are not touched. A packet without header goes nowhere.
   */
  method Stamp(buf0: Bytes, counters: map<nat, nat>, sess: nat,
               ghost sess0: nat, ghost stamps0: seq<GroupStamp>, ghost payload: Bytes)
    returns (buf: Bytes, counters': map<nat, nat>, groups: seq<nat>)
    requires buf0 == Sent(sess0, stamps0, payload) && StampsFit(stamps0)
    ensures counters' == Assign(counters, Counted(stamps0)).0 && groups == GroupsOf(Counted(stamps0))
    ensures buf == Sent(sess, Assign(counters, Counted(stamps0)).1 + Uncounted(stamps0), payload)
  {
    HeaderRead(sess0, stamps0, payload);
    if De(buf0[..2]) == 0 {
      return buf0, counters, [];
    }
    var n := De(buf0[4..5]);
    var buf1 := Write(buf0, 2, Be(sess, SESS_NUM));
    FrontWritten(sess0, stamps0, payload, sess);
    buf, counters', groups := StampGroups(buf1, counters, n, buf0, Front(sess, |stamps0|), sess0, stamps0, payload);
    StampedIs(buf, sess0, stamps0, payload, sess, Assign(counters, Counted(stamps0)).1);
    AssignLength(counters, Counted(stamps0));
  }

  lemma HeaderRead(sess0: nat, stamps0: seq<GroupStamp>, payload: Bytes)
    ensures var buf := Sent(sess0, stamps0, payload);
            && |buf| >= HEADER_SIZE && (De(buf[..2]) == 0 <==> stamps0 == [])
            && (stamps0 != [] ==> |buf| >= FRONT && De(buf[4..5]) == |stamps0| % 256)
  {
    if stamps0 == [] {
      Powers();
      DeBe(0, 2);
      assert Sent(sess0, stamps0, payload)[..2] == Be(0, 2);
    } else {
      EncodeParts(sess0, stamps0, payload);
      SizeNotZero(|stamps0|);
      CountByte(|stamps0|);
    }
  }

  lemma FrontWritten(sess0: nat, stamps0: seq<GroupStamp>, payload: Bytes, sess: nat)
    ensures var buf0 := Encode(sess0, stamps0, payload);
            var buf1 := Write(buf0, 2, Be(sess, SESS_NUM));
            buf1[..FRONT] == Front(sess, |stamps0|) && buf1[FRONT..] == buf0[FRONT..]
  {
    EncodeParts(sess0, stamps0, payload);
  }

  lemma StampedIs(buf: Bytes, sess0: nat, stamps0: seq<GroupStamp>, payload: Bytes, sess: nat, out: seq<GroupStamp>)
    requires stamps0 != [] && |buf| == |Encode(sess0, stamps0, payload)| && |out| == |Counted(stamps0)|
    requires At(|out|) <= |buf| && buf[..At(|out|)] == Front(sess, |stamps0|) + Groups(out)
    requires buf[At(|out|)..] == Encode(sess0, stamps0, payload)[At(|out|)..]
    ensures buf == Encode(sess, out + Uncounted(stamps0), payload)
  {
    var rest := Uncounted(stamps0);
    EncodeRest(sess0, stamps0, payload, |out|);
    GroupsConcat(out, rest);
    assert buf == buf[..At(|out|)] + buf[At(|out|)..];
    Regroup(Front(sess, |stamps0|), Groups(out), Groups(rest), payload);
    assert |out + rest| == |stamps0|;
  }

  lemma Regroup(a: Bytes, b: Bytes, c: Bytes, d: Bytes)
    ensures (a + b) + (c + d) == a + (b + c) + d
  {
  }

  function Given(groups: seq<nat>): (r: seq<GroupStamp>)
    ensures |r| == |groups| && forall i :: 0 <= i < |r| ==> r[i] == (groups[i], 0)
  {
    seq(|groups|, i requires 0 <= i < |groups| => (groups[i], 0))
  }

  /**
   * Round trip: what the client serializes and the sequencer stamps is sent to the groups it names and parsed by
   * a server as the session, the number the sequencer gave each group, and the payload as it was, if and only if
   * there are fewer than 256 groups. With more, only as many groups as the count's one byte says get the packet
   * and a number, and the payload is taken from the groups that follow.
   */
  method RoundTrip(junk: Bytes, groups: seq<nat>, payload: Bytes, counters: map<nat, nat>, sess: nat)
    returns (p: Parsed, to: seq<nat>, ghost others: seq<GroupStamp>)
    requires |junk| == SerializedSize(|groups|, |payload|) && groups != [] && SizeFits(|groups|) && sess < 0x1_0000
    requires forall i :: 0 <= i < |groups| ==> groups[i] < 0x1_0000_0000
    requires StampsFit(Assign(counters, Counted(Given(groups))).1)
    ensures GroupsOf(others) == groups[|groups| % 256..] && to == groups[..|groups| % 256]
    ensures p == Parsed(sess, Assign(counters, Counted(Given(groups))).1, (Groups(others) + payload)[..|payload|])
    ensures to == groups && p == Parsed(sess, Assign(counters, Given(groups)).1, payload) <==> |groups| < 256
  {
    var buf, sess0, stamps0 := Serialize(junk, groups, payload);
    var stamped, counters', sent := Stamp(buf, counters, sess, sess0, stamps0, payload);
    Served(counters, groups, stamps0, sess, payload);
    p := Parse(stamped);
    to, others := sent, Uncounted(stamps0);
  }

  lemma Served(counters: map<nat, nat>, groups: seq<nat>, stamps: seq<GroupStamp>, sess: nat, payload: Bytes)
    requires |stamps| == |groups| > 0 && forall i :: 0 <= i < |groups| ==> stamps[i].0 == groups[i]
    requires StampsFit(stamps) && SizeFits(|groups|) && sess < 0x1_0000
    requires StampsFit(Assign(counters, Counted(Given(groups))).1)
    ensures var to, others := GroupsOf(Counted(stamps)), Uncounted(stamps);
            var buf := Sent(sess, Assign(counters, Counted(stamps)).1 + others, payload);
            && Readable(buf) && GroupsOf(others) == groups[|groups| % 256..] && to == groups[..|groups| % 256]
            && Decode(buf) == Parsed(sess, Assign(counters, Counted(Given(groups))).1,
                                     (Groups(others) + payload)[..|payload|])
            && (to == groups && Decode(buf) == Parsed(sess, Assign(counters, Given(groups)).1, payload) <==>
                |groups| < 256)
  {
    GivenStamps(counters, groups, stamps);
    ReadBack(sess, Assign(counters, Counted(stamps)).1, Uncounted(stamps), payload, |groups|);
    WholeOrNot(groups, Uncounted(stamps), payload);
  }

  lemma GivenStamps(counters: map<nat, nat>, groups: seq<nat>, stamps: seq<GroupStamp>)
    requires |stamps| == |groups| && forall i :: 0 <= i < |groups| ==> stamps[i].0 == groups[i]
    ensures GroupsOf(Counted(stamps)) == groups[..|groups| % 256]
    ensures GroupsOf(Uncounted(stamps)) == groups[|groups| % 256..]
    ensures Assign(counters, Counted(stamps)) == Assign(counters, Counted(Given(groups)))
    ensures |Assign(counters, Counted(stamps)).1| == |groups| % 256
  {
    SameGroups(counters, Counted(stamps), Counted(Given(groups)));
    AssignLength(counters, Counted(stamps));
  }

  /** What a server reads of a packet of which only the groups counted were stamped. */
  lemma ReadBack(sess: nat, out: seq<GroupStamp>, rest: seq<GroupStamp>, payload: Bytes, n: nat)
    requires |out| == n % 256 && |out| + |rest| == n > 0 && StampsFit(out) && StampsFit(rest)
    requires SizeFits(n) && sess < 0x1_0000
    ensures var buf := Sent(sess, out + rest, payload);
            Readable(buf) && Decode(buf) == Parsed(sess, out, (Groups(rest) + payload)[..|payload|])
  {
    CountedParts(out, rest, n);
    ParseRest(sess, out + rest, payload);
  }

  lemma ParseRest(sess: nat, stamps: seq<GroupStamp>, payload: Bytes)
    requires 0 < |stamps| && SizeFits(|stamps|) && sess < 0x1_0000 && StampsFit(stamps)
    ensures var buf := Encode(sess, stamps, payload);
            && Readable(buf)
            && Decode(buf) == Parsed(sess, Counted(stamps), (Groups(Uncounted(stamps)) + payload)[..|payload|])
  {
    ParseStamped(sess, stamps, payload);
    EncodeRest(sess, stamps, payload, |stamps| % 256);
    PartOfRest(Encode(sess, stamps, payload), At(|stamps| % 256), |payload|);
  }

  lemma PartOfRest(buf: Bytes, from: nat, n: nat)
    requires from + n <= |buf|
    ensures buf[from..from + n] == buf[from..][..n]
  {
  }

  lemma WholeOrNot(groups: seq<nat>, others: seq<GroupStamp>, payload: Bytes)
    requires GroupsOf(others) == groups[|groups| % 256..]
    ensures |groups| < 256 <==> groups[..|groups| % 256] == groups
    ensures |groups| < 256 ==>
              (Groups(others) + payload)[..|payload|] == payload && Counted(Given(groups)) == Given(groups)
  {
    if |groups| < 256 {
      assert |others| == 0;
    }
  }

  lemma CountedParts(out: seq<GroupStamp>, rest: seq<GroupStamp>, n: nat)
    requires |out| == n % 256 && |out| + |rest| == n && StampsFit(out) && StampsFit(rest)
    ensures StampsFit(out + rest) && Counted(out + rest) == out && Uncounted(out + rest) == rest
  {
  }

  /** The assigned numbers depend on the groups only. */
  lemma {:induction false} SameGroups(counters: map<nat, nat>, a: seq<GroupStamp>, b: seq<GroupStamp>)
    requires |a| == |b| && forall i :: 0 <= i < |a| ==> a[i].0 == b[i].0
    ensures Assign(counters, a) == Assign(counters, b)
    decreases |a|
  {
    if a != [] {
      SameGroups(counters, a[..|a| - 1], b[..|b| - 1]);
    }
  }
}
