/**
 Packets: control commands as big-endian 32-bit words, and the kill report as big-endian fields
 followed by a counted string. Writers fill a buffer in place; readers invert them.
 */
module Wire {
  import opened CInt
  import opened Options
  import opened RegistryModel

  type Byte = x: int | 0 <= x < 256

  const TWO_31 := 0x8000_0000
  const TWO_32 := 0x1_0000_0000

  // ---------- big-endian numbers ----------

  function Pow256(n: nat): (r: nat)
    ensures r >= 1
  {
    if n == 0 then 1 else 256 * Pow256(n - 1)
  }

  /** The n bytes of v, most significant first; higher bytes are lost. */
  function Be(v: nat, n: nat): (bs: seq<Byte>)
    ensures |bs| == n
  {
    if n == 0 then [] else Be(v / 256, n - 1) + [v % 256]
  }

  function UnBe(bs: seq<Byte>): (v: nat) {
    if bs == [] then 0 else UnBe(bs[..|bs| - 1]) * 256 + bs[|bs| - 1]
  }

  lemma {:induction false} UnBeBe(v: nat, n: nat)
    requires v < Pow256(n)
    ensures UnBe(Be(v, n)) == v
  {
    if n > 0 {
      UnBeBe(v / 256, n - 1);
      assert Be(v, n)[..n - 1] == Be(v / 256, n - 1);
    }
  }

  lemma DivTwice(v: nat, a: nat)
    requires a > 0
    ensures v / 256 / a == v / (256 * a)
  {
    var (q, r, d) := (v / 256 / a, v / 256 % a, v % 256);
    assert v / 256 == q * a + r && v == (v / 256) * 256 + d;
    assert v == q * (256 * a) + (r * 256 + d) && 0 <= r * 256 + d < 256 * a by {
      assert (q * a + r) * 256 == q * (256 * a) + r * 256;
    }
    Quotient(v, 256 * a, q, r * 256 + d);
  }

  lemma Quotient(v: nat, n: nat, q: nat, r: nat)
    requires n > 0 && v == q * n + r && r < n
    ensures v / n == q
  {
    var p := v / n;
    assert v == p * n + v % n;
    Scaled(p + 1, q, n);
    Scaled(q + 1, p, n);
  }

  /** Byte k counts the powers of 256 with exponent n - 1 - k: the most significant byte is first. */
  lemma {:induction false} MostSignificantFirst(v: nat, n: nat, k: nat)
    requires k < n
    ensures Be(v, n)[k] == v / Pow256(n - 1 - k) % 256
  {
    if k == n - 1 {
      assert Pow256(0) == 1;
    } else {
      MostSignificantFirst(v / 256, n - 1, k);
      DivTwice(v, Pow256(n - 2 - k));
    }
  }

  lemma {:induction false} UnBeBound(bs: seq<Byte>)
    ensures UnBe(bs) < Pow256(|bs|)
  {
    if bs != [] {
      UnBeBound(bs[..|bs| - 1]);
    }
  }

  predicate FitsIn(v: int, n: nat) {
    0 <= 2 * v + Pow256(n) && 2 * v < Pow256(n)
  }

  function TwosComplement(v: int, n: nat): nat
    requires FitsIn(v, n)
  {
    if v >= 0 then v else v + Pow256(n)
  }

  /** Two's complement in n bytes, most significant first. */
  function Enc(v: int, n: nat): (bs: seq<Byte>)
    requires FitsIn(v, n)
    ensures |bs| == n
  {
    Be(TwosComplement(v, n), n)
  }

  function Dec(bs: seq<Byte>): int {
    var u := UnBe(bs);
    if 2 * u < Pow256(|bs|) then u else u - Pow256(|bs|)
  }

  /** Every number that fits comes back. */
  lemma DecEnc(v: int, n: nat)
    requires FitsIn(v, n)
    ensures Dec(Enc(v, n)) == v
  {
    UnBeBe(TwosComplement(v, n), n);
  }

  lemma {:induction false} BeUnBe(bs: seq<Byte>)
    ensures Be(UnBe(bs), |bs|) == bs
  {
    if bs != [] {
      var init := bs[..|bs| - 1];
      BeUnBe(init);
      assert UnBe(bs) / 256 == UnBe(init) && UnBe(bs) % 256 == bs[|bs| - 1];
    }
  }

  /** Any bytes are the encoding of what they decode to. */
  lemma EncDec(bs: seq<Byte>)
    ensures FitsIn(Dec(bs), |bs|) && Enc(Dec(bs), |bs|) == bs
  {
    UnBeBound(bs);
    BeUnBe(bs);
  }

  predicate IsInt32(v: int) {
    -TWO_31 <= v < TWO_31
  }

  lemma Int32Fits(v: int)
    ensures IsInt32(v) <==> FitsIn(v, 4)
  {
    assert Pow256(4) == 256 * Pow256(3) && Pow256(3) == 256 * Pow256(2) && Pow256(2) == 256 * Pow256(1);
  }

  // ---------- a sequence of fields ----------

  /** A number and the bytes it takes. */
  datatype Field = Field(width: nat, value: int)

  ghost predicate AllFit(fs: seq<Field>) {
    forall k :: 0 <= k < |fs| ==> FitsIn(fs[k].value, fs[k].width)
  }

  function Pack(fs: seq<Field>): (bs: seq<Byte>)
    requires AllFit(fs)
    ensures |bs| == Size(fs)
  {
    if fs == [] then [] else Pack(fs[..|fs| - 1]) + Enc(fs[|fs| - 1].value, fs[|fs| - 1].width)
  }

  function Size(fs: seq<Field>): nat {
    if fs == [] then 0 else Size(fs[..|fs| - 1]) + fs[|fs| - 1].width
  }

  /** The reader: the k-th number of a packet whose fields have the given widths. */
  function Unpack(bs: seq<Byte>, fs: seq<Field>, k: nat): int
    requires k < |fs| && Size(fs[..k]) + fs[k].width <= |bs|
  {
    Dec(bs[Size(fs[..k])..Size(fs[..k]) + fs[k].width])
  }

  lemma {:induction false} SizeMono(fs: seq<Field>, k: nat)
    requires k < |fs|
    ensures Size(fs[..k]) + fs[k].width == Size(fs[..k + 1]) <= Size(fs)
    decreases |fs|
  {
    assert fs[..k + 1][..k] == fs[..k];
    if k + 1 < |fs| {
      SizeMono(fs[..|fs| - 1], k);
      assert fs[..|fs| - 1][..k + 1] == fs[..k + 1];
    } else {
      assert fs[..k + 1] == fs;
    }
  }

  lemma {:induction false} PackPrefix(fs: seq<Field>, k: nat)
    requires AllFit(fs) && k <= |fs|
    ensures Size(fs[..k]) <= Size(fs) && Pack(fs)[..Size(fs[..k])] == Pack(fs[..k])
    decreases |fs|
  {
    if k < |fs| {
      var n := |fs| - 1;
      PackPrefix(fs[..n], k);
      assert fs[..n][..k] == fs[..k];
    } else {
      assert fs[..k] == fs;
    }
  }

  lemma Between(bs: seq<Byte>, tail: seq<Byte>, a: seq<Byte>, b: seq<Byte>, from: nat, to: nat)
    requires |a| == from <= to == from + |b| <= |bs| && bs[..to] == a + b
    ensures (bs + tail)[from..to] == b
  {
    assert (bs + tail)[from..to] == bs[..to][from..];
  }

  lemma PackNext(fs: seq<Field>, k: nat)
    requires AllFit(fs) && k < |fs|
    ensures FitsIn(fs[k].value, fs[k].width) && AllFit(fs[..k]) && AllFit(fs[..k + 1])
    ensures Pack(fs[..k + 1]) == Pack(fs[..k]) + Enc(fs[k].value, fs[k].width)
  {
    assert fs[..k + 1][..k] == fs[..k] && fs[..k + 1][k] == fs[k];
  }

  /** Every field that fits comes back, whatever follows the packed fields. */
  lemma {:induction false} UnpackPack(fs: seq<Field>, tail: seq<Byte>, k: nat)
    requires AllFit(fs) && k < |fs|
    ensures Size(fs[..k]) + fs[k].width <= |Pack(fs) + tail|
    ensures Unpack(Pack(fs) + tail, fs, k) == fs[k].value
  {
    SizeMono(fs, k);
    PackPrefix(fs, k);
    PackPrefix(fs, k + 1);
    PackNext(fs, k);
    DecEnc(fs[k].value, fs[k].width);
    hide Pack, Size, Enc, Dec, AllFit;
    Between(Pack(fs), tail, Pack(fs[..k]), Enc(fs[k].value, fs[k].width), Size(fs[..k]), Size(fs[..k + 1]));
  }

  // ---------- control packets: 32-bit words ----------

  const CTRL_PACKET_MAX_SIZE := 52
  const LMK_TARGET := 0
  const LMK_PROCPRIO := 1
  const LMK_PROCS_PRIO := 11
  const MAX_TARGETS := 6
  const PROCS_PRIO_MAX_RECORD_COUNT := 3

  ghost predicate AllInt32(ws: seq<int>) {
    forall k :: 0 <= k < |ws| ==> IsInt32(ws[k])
  }

  function Words(ws: seq<int>): (fs: seq<Field>)
    ensures |fs| == |ws| && forall k :: 0 <= k < |ws| ==> fs[k] == Field(4, ws[k])
  {
    seq(|ws|, k requires 0 <= k < |ws| => Field(4, ws[k]))
  }

  lemma {:induction false} WordsSize(ws: seq<int>)
    ensures Size(Words(ws)) == 4 * |ws|
  {
    if ws != [] {
      WordsSize(ws[..|ws| - 1]);
      assert Words(ws)[..|ws| - 1] == Words(ws[..|ws| - 1]);
    }
  }

  lemma WordsFit(ws: seq<int>)
    requires AllInt32(ws)
    ensures AllFit(Words(ws))
  {
    forall k | 0 <= k < |ws| ensures FitsIn(ws[k], 4) {
      Int32Fits(ws[k]);
    }
  }

  /** The bytes of some words. */
  function WordBytes(ws: seq<int>): (bs: seq<Byte>)
    requires AllInt32(ws)
    ensures |bs| == 4 * |ws|
  {
    WordsFit(ws);
    WordsSize(ws);
    Pack(Words(ws))
  }

  /** What ntohl makes of the k-th word of a packet. */
  function Word(bs: seq<Byte>, k: nat): int
    requires 4 * k + 4 <= |bs|
  {
    Dec(bs[4 * k..4 * k + 4])
  }

  lemma WordBack(ws: seq<int>, tail: seq<Byte>, k: nat)
    requires AllInt32(ws) && k < |ws|
    ensures Word(WordBytes(ws) + tail, k) == ws[k]
  {
    WordsFit(ws);
    UnpackPack(Words(ws), tail, k);
    WordsSize(ws[..k]);
    assert Words(ws)[..k] == Words(ws[..k]);
  }

  lemma WordBytesAppend(ws: seq<int>, w: int)
    requires AllInt32(ws) && IsInt32(w)
    ensures FitsIn(w, 4) && AllInt32(ws + [w]) && WordBytes(ws + [w]) == WordBytes(ws) + Enc(w, 4)
  {
    Int32Fits(w);
    WordsFit(ws);
    WordsFit(ws + [w]);
    assert Words(ws + [w])[..|ws|] == Words(ws);
    assert Words(ws + [w]) == Words(ws) + [Field(4, w)];
  }

  // ---------- writing into the buffer ----------

  lemma BeSplit(u: nat, k: nat, tail: seq<Byte>)
    requires k > 0
    ensures Be(u, k) + tail == Be(u / 256, k - 1) + ([u % 256] + tail)
  {
  }

  /** pack_int32, pack_int64 and a store of htonl: `width` bytes of `value` at `index`. */
  method PutNumber(packet: array<Byte>, index: nat, value: int, width: nat) returns (next: nat)
    requires index + width <= packet.Length && FitsIn(value, width)
    modifies packet
    ensures next == index + width
    ensures packet[..] == old(packet[..index]) + Enc(value, width) + old(packet[index + width..])
  {
    var u := TwosComplement(value, width);
    ghost var bytes := Be(u, width);
    var k := width;
    while k > 0
      invariant 0 <= k <= width
      invariant bytes == Be(u, k) + packet[index + k..index + width]
      invariant packet[..index] == old(packet[..index]) && packet[index + width..] == old(packet[index + width..])
    {
      BeSplit(u, k, packet[index + k..index + width]);
      packet[index + k - 1] := u % 256;
      assert packet[index + k - 1..index + width] == [u % 256] + packet[index + k..index + width];
      u := u / 256;
      k := k - 1;
    }
    assert packet[..] == packet[..index] + packet[index..index + width] + packet[index + width..];
    return index + width;
  }

  /** Append one word to a packet that holds `ws` so far. */
  method PutWord(packet: array<Byte>, idx: nat, w: int, ghost ws: seq<int>) returns (next: nat)
    requires AllInt32(ws) && IsInt32(w) && idx == |ws| && 4 * idx + 4 <= packet.Length
    requires packet[..4 * idx] == WordBytes(ws)
    modifies packet
    ensures next == idx + 1 && AllInt32(ws + [w]) && packet[..4 * next] == WordBytes(ws + [w])
    ensures packet[4 * next..] == old(packet[4 * next..])
  {
    WordBytesAppend(ws, w);
    hide WordBytes, Enc;
    ghost var before := packet[..];
    var _ := PutNumber(packet, 4 * idx, w, 4);
    next := idx + 1;
    assert packet[..4 * next] == before[..4 * idx] + Enc(w, 4);
    assert packet[4 * next..] == before[4 * next..];
  }

  /** packet[k] through ntohl. */
  method GetWord(packet: array<Byte>, k: nat) returns (w: int)
    requires 4 * k + 4 <= packet.Length
    ensures w == Word(packet[..], k)
  {
    assert packet[4 * k..4 * k + 4] == packet[..][4 * k..4 * k + 4];
    w := Dec(packet[4 * k..4 * k + 4]);
  }

  // ---------- LMK_TARGET ----------

  datatype Target = Target(minfree: int, oomAdjScore: int)

  ghost predicate TargetsFit(ts: seq<Target>) {
    forall k :: 0 <= k < |ts| ==> IsInt32(ts[k].minfree) && IsInt32(ts[k].oomAdjScore)
  }

  function TargetWords(ts: seq<Target>): (ws: seq<int>)
    ensures |ws| == 1 + 2 * |ts|
    ensures forall k :: 0 <= k < |ts| ==> ws[2 * k + 1] == ts[k].minfree && ws[2 * k + 2] == ts[k].oomAdjScore
    ensures TargetsFit(ts) ==> AllInt32(ws)
  {
    if ts == [] then [LMK_TARGET]
    else
      var n := |ts| - 1;
      TargetWords(ts[..n]) + [ts[n].minfree] + [ts[n].oomAdjScore]
  }

  /** lmkd_pack_set_target */
  method SetTarget(packet: array<Byte>, targets: seq<Target>) returns (size: nat)
    requires packet.Length == CTRL_PACKET_MAX_SIZE && |targets| <= MAX_TARGETS && TargetsFit(targets)
    modifies packet
    ensures size == 4 * (1 + 2 * |targets|) && packet[..size] == WordBytes(TargetWords(targets))
    ensures packet[size..] == old(packet[size..])
  {
    hide WordBytes;
    EmptyWords();
    ghost var ws: seq<int> := [];
    var idx := PutWord(packet, 0, LMK_TARGET, ws);
    ws := TargetWords([]);
    assert [] + [LMK_TARGET] == ws && targets[..0] == [];
    var n := 0;
    while n < |targets|
      invariant 0 <= n <= |targets| && idx == 1 + 2 * n && ws == TargetWords(targets[..n]) && AllInt32(ws)
      invariant packet[..4 * idx] == WordBytes(ws) && packet[4 * idx..] == old(packet[4 * idx..])
    {
      assert targets[..n + 1][..n] == targets[..n];
      ghost var rest := packet[4 * idx..];
      idx := PutTarget(packet, idx, targets[n], ws);
      assert packet[4 * idx..] == rest[8..];
      ws := ws + [targets[n].minfree] + [targets[n].oomAdjScore];
      n := n + 1;
    }
    assert targets[..|targets|] == targets;
    size := 4 * idx;
  }

  /** The two words of one target. */
  method PutTarget(packet: array<Byte>, idx: nat, t: Target, ghost ws: seq<int>) returns (next: nat)
    requires 4 * (idx + 2) <= packet.Length && |ws| == idx && AllInt32(ws) && TargetsFit([t])
    requires packet[..4 * idx] == WordBytes(ws)
    modifies packet
    ensures next == idx + 2 && AllInt32(ws + [t.minfree] + [t.oomAdjScore])
    ensures packet[..4 * next] == WordBytes(ws + [t.minfree] + [t.oomAdjScore])
    ensures packet[4 * next..] == old(packet[4 * idx..])[8..]
  {
    hide WordBytes;
    assert [t][0] == t;
    ghost var rest := packet[4 * idx..];
    next := PutWord(packet, idx, t.minfree, ws);
    assert packet[4 * next..] == rest[4..];
    ghost var rest1 := packet[4 * next..];
    next := PutWord(packet, next, t.oomAdjScore, ws + [t.minfree]);
    assert packet[4 * next..] == rest1[4..];
  }

  lemma EmptyWords()
    ensures AllInt32([]) && WordBytes([]) == []
  {
  }

  /** lmkd_pack_get_target */
  method GetTarget(packet: array<Byte>, targetIdx: nat) returns (t: Target)
    requires 4 * (2 * targetIdx + 3) <= packet.Length
    ensures t == Target(Word(packet[..], 2 * targetIdx + 1), Word(packet[..], 2 * targetIdx + 2))
  {
    var minfree := GetWord(packet, targetIdx * 2 + 1);
    var score := GetWord(packet, targetIdx * 2 + 2);
    t := Target(minfree, score);
  }

  /** Every target packed is read back, whatever else the buffer holds. */
  lemma {:induction false} TargetRoundTrip(ts: seq<Target>, tail: seq<Byte>, k: nat)
    requires TargetsFit(ts) && k < |ts|
    ensures var bs := WordBytes(TargetWords(ts)) + tail;
            ts[k] == Target(Word(bs, 2 * k + 1), Word(bs, 2 * k + 2)) && Word(bs, 0) == LMK_TARGET
  {
    WordBack(TargetWords(ts), tail, 2 * k + 1);
    WordBack(TargetWords(ts), tail, 2 * k + 2);
    WordBack(TargetWords(ts), tail, 0);
    TargetCmd(ts);
  }

  lemma {:induction false} TargetCmd(ts: seq<Target>)
    ensures TargetWords(ts)[0] == LMK_TARGET
  {
    if ts != [] {
      TargetCmd(ts[..|ts| - 1]);
    }
  }

  // ---------- LMK_PROCPRIO and LMK_PROCS_PRIO ----------

  /** A word taken as an unsigned uid_t. */
  function AsUid(w: int): int {
    if w < 0 then w + TWO_32 else w
  }

  lemma UidBack(u: int)
    requires 0 <= u < TWO_32
    ensures AsUid(ToInt32(u)) == u
  {
  }

  lemma UidWord(u: int)
    ensures IsInt32(ToInt32(u))
  {
  }

  predicate RequestFits(q: Request) {
    IsInt32(q.pid) && 0 <= q.uid < TWO_32 && IsInt32(q.oomadj) && IsInt32(q.ptype)
  }

  ghost predicate RequestsFit(qs: seq<Request>) {
    forall k :: 0 <= k < |qs| ==> RequestFits(qs[k])
  }

  /** The request at words from, from + 1, from + 2 and from + 3. */
  function RequestAt(bs: seq<Byte>, from: nat): Request
    requires 4 * from + 16 <= |bs|
  {
    Request(Word(bs, from), AsUid(Word(bs, from + 1)), Word(bs, from + 2), Word(bs, from + 3))
  }

  function ProcsWords(cmd: int, qs: seq<Request>): (ws: seq<int>)
    ensures |ws| == 1 + 4 * |qs| && ws[0] == cmd
    ensures forall k :: 0 <= k < |qs| ==>
              ws[4 * k + 1] == qs[k].pid && ws[4 * k + 2] == ToInt32(qs[k].uid)
              && ws[4 * k + 3] == qs[k].oomadj && ws[4 * k + 4] == qs[k].ptype
    ensures RequestsFit(qs) && IsInt32(cmd) ==> AllInt32(ws)
  {
    if qs == [] then [cmd]
    else
      var n := |qs| - 1;
      ProcsWords(cmd, qs[..n]) + [qs[n].pid] + [ToInt32(qs[n].uid)] + [qs[n].oomadj] + [qs[n].ptype]
  }

  /** The four words of one record, appended. */
  method PutRequest(packet: array<Byte>, idx: nat, q: Request, ghost ws: seq<int>) returns (next: nat)
    requires AllInt32(ws) && RequestFits(q) && idx == |ws| && 4 * idx + 16 <= packet.Length
    requires packet[..4 * idx] == WordBytes(ws)
    modifies packet
    ensures var more := ws + [q.pid] + [ToInt32(q.uid)] + [q.oomadj] + [q.ptype];
            && next == idx + 4 && AllInt32(more) && packet[..4 * next] == WordBytes(more)
    ensures packet[4 * next..] == old(packet[4 * next..])
  {
    hide WordBytes, ToInt32, IsInt32;
    assert IsInt32(q.pid) && IsInt32(ToInt32(q.uid)) && IsInt32(q.oomadj) && IsInt32(q.ptype) by { UidWord(q.uid); }
    ghost var rest := packet[4 * idx + 16..];
    next := PutWord(packet, idx, q.pid, ws);
    assert packet[4 * next..][12..] == rest;
    next := PutWord(packet, next, ToInt32(q.uid), ws + [q.pid]);
    assert packet[4 * next..][8..] == rest;
    next := PutWord(packet, next, q.oomadj, ws + [q.pid] + [ToInt32(q.uid)]);
    assert packet[4 * next..][4..] == rest;
    next := PutWord(packet, next, q.ptype, ws + [q.pid] + [ToInt32(q.uid)] + [q.oomadj]);
  }

  /** lmkd_pack_set_procs_prio, and lmkd_pack_set_procprio for a single request and its own command. */
  method SetProcs(packet: array<Byte>, cmd: int, procs: seq<Request>) returns (size: nat)
    requires packet.Length == CTRL_PACKET_MAX_SIZE && |procs| <= PROCS_PRIO_MAX_RECORD_COUNT
    requires RequestsFit(procs) && IsInt32(cmd)
    modifies packet
    ensures size == 4 * (1 + 4 * |procs|) && packet[..size] == WordBytes(ProcsWords(cmd, procs))
    ensures packet[size..] == old(packet[size..])
  {
    hide WordBytes;
    EmptyWords();
    var idx := PutWord(packet, 0, cmd, []);
    assert [] + [cmd] == ProcsWords(cmd, []) && procs[..0] == [];
    ghost var rest := packet[4..];
    for n := 0 to |procs|
      invariant idx == 1 + 4 * n && AllInt32(ProcsWords(cmd, procs[..n]))
      invariant packet[..4 * idx] == WordBytes(ProcsWords(cmd, procs[..n]))
      invariant packet[4 * idx..] == rest[4 * (idx - 1)..]
    {
      assert procs[..n + 1][..n] == procs[..n];
      ghost var left := packet[4 * idx..];
      idx := PutRequest(packet, idx, procs[n], ProcsWords(cmd, procs[..n]));
      assert packet[4 * idx..] == left[16..];
    }
    assert procs[..|procs|] == procs;
    size := 4 * idx;
  }

  /** lmkd_pack_get_procs_prio: the records, or None for a field count that is not whole records. */
  method GetProcs(packet: array<Byte>, fieldCount: int) returns (r: Option<seq<Request>>)
    requires packet.Length == CTRL_PACKET_MAX_SIZE && fieldCount <= 4 * PROCS_PRIO_MAX_RECORD_COUNT
    ensures r.None? <==> fieldCount < 4 || fieldCount % 4 != 0
    ensures r.Some? ==> |r.value| == fieldCount / 4 <= PROCS_PRIO_MAX_RECORD_COUNT
                        && forall k :: 0 <= k < |r.value| ==> r.value[k] == RequestAt(packet[..], 4 * k + 1)
  {
    if fieldCount < 4 || fieldCount % 4 != 0 {
      return None;
    }
    var procs: seq<Request> := [];
    var packetIdx := 1;
    for n := 0 to fieldCount / 4
      invariant |procs| == n && packetIdx == 4 * n + 1
      invariant forall k :: 0 <= k < n ==> procs[k] == RequestAt(packet[..], 4 * k + 1)
    {
      var q := GetRequest(packet, packetIdx);
      procs := procs + [q];
      packetIdx := packetIdx + 4;
    }
    return Some(procs);
  }

  method GetRequest(packet: array<Byte>, from: nat) returns (q: Request)
    requires 4 * from + 16 <= packet.Length
    ensures q == RequestAt(packet[..], from)
  {
    hide Word;
    var pid := GetWord(packet, from);
    var uid := GetWord(packet, from + 1);
    var oomadj := GetWord(packet, from + 2);
    var ptype := GetWord(packet, from + 3);
    q := Request(pid, AsUid(uid), oomadj, ptype);
  }

  /** lmkd_pack_get_procprio: a short packet from an old client means an application. */
  method GetProcPrio(packet: array<Byte>, fieldCount: int) returns (q: Request)
    requires packet.Length == CTRL_PACKET_MAX_SIZE
    ensures q == if fieldCount > 3 then RequestAt(packet[..], 1) else RequestAt(packet[..], 1).(ptype := PROC_TYPE_APP)
  {
    q := GetRequest(packet, 1);
    if fieldCount <= 3 {
      q := q.(ptype := PROC_TYPE_APP);
    }
  }

  /** Every request packed is read back. */
  lemma {:induction false} ProcsRoundTrip(cmd: int, qs: seq<Request>, tail: seq<Byte>, k: nat)
    requires RequestsFit(qs) && IsInt32(cmd) && k < |qs|
    ensures var bs := WordBytes(ProcsWords(cmd, qs)) + tail;
            RequestAt(bs, 4 * k + 1) == qs[k] && Word(bs, 0) == cmd
  {
    UidBack(qs[k].uid);
    hide WordBytes, Word, ToInt32, AsUid;
    var ws := ProcsWords(cmd, qs);
    WordBack(ws, tail, 0);
    WordBack(ws, tail, 4 * k + 1);
    WordBack(ws, tail, 4 * k + 2);
    WordBack(ws, tail, 4 * k + 3);
    WordBack(ws, tail, 4 * k + 4);
  }

  // ---------- the kill report ----------

  const LMKD_REPLY_MAX_SIZE := 222
  const MAX_TASKNAME_LEN := 128
  const LMK_STAT_KILL_OCCURRED := 8

  datatype MemoryStat = MemoryStat(
    pgfault: int, pgmajfault: int, rssInBytes: int, cacheInBytes: int, swapInBytes: int, processStartTimeNs: int)

  datatype KillStat = KillStat(
    uid: int, taskname: seq<Byte>, killReason: int, oomScore: int, minOomScore: int,
    freeMemKb: int, freeSwapKb: int, thrashing: int, maxThrashing: int)

  ghost predicate IsInt64(v: int) {
    FitsIn(v, 8)
  }

  /** The fields of the report before the name; the free amounts are cut to 32 bits. */
  function ReportFields(k: KillStat, mem: Option<MemoryStat>): (fs: seq<Field>)
    ensures |fs| == 15
  {
    var m := if mem.Some? then mem.value else MemoryStat(-1, -1, -1, -1, -1, -1);
    [Field(4, LMK_STAT_KILL_OCCURRED),
     Field(8, m.pgfault), Field(8, m.pgmajfault), Field(8, m.rssInBytes),
     Field(8, m.cacheInBytes), Field(8, m.swapInBytes), Field(8, m.processStartTimeNs),
     Field(4, k.uid), Field(4, k.oomScore), Field(4, k.minOomScore),
     Field(4, ToInt32(k.freeMemKb)), Field(4, ToInt32(k.freeSwapKb)),
     Field(4, k.killReason), Field(4, k.thrashing), Field(4, k.maxThrashing)]
  }

  ghost predicate ReportFits(k: KillStat, mem: Option<MemoryStat>) {
    && IsInt32(k.uid) && IsInt32(k.oomScore) && IsInt32(k.minOomScore) && IsInt32(k.killReason)
    && IsInt32(k.thrashing) && IsInt32(k.maxThrashing)
    && (mem.Some? ==>
          && IsInt64(mem.value.pgfault) && IsInt64(mem.value.pgmajfault) && IsInt64(mem.value.rssInBytes)
          && IsInt64(mem.value.cacheInBytes) && IsInt64(mem.value.swapInBytes) && IsInt64(mem.value.processStartTimeNs))
  }

  function NameLen(name: seq<Byte>): (n: nat)
    ensures n <= MAX_TASKNAME_LEN - 1
  {
    if |name| < MAX_TASKNAME_LEN - 1 then |name| else MAX_TASKNAME_LEN - 1
  }

  /** A two-byte length, the name cut to 127 bytes, and zeros up to 128. */
  function NameField(name: seq<Byte>): (bs: seq<Byte>)
    ensures |bs| == 2 + MAX_TASKNAME_LEN
  {
    Be(NameLen(name), 2) + name[..NameLen(name)] + Zeros(MAX_TASKNAME_LEN - NameLen(name))
  }

  function Zeros(n: nat): (bs: seq<Byte>)
    ensures |bs| == n && forall k :: 0 <= k < n ==> bs[k] == 0
  {
    seq(n, k => 0)
  }

  /** The reader of a counted string. */
  function ReadName(bs: seq<Byte>): seq<Byte>
    requires |bs| >= 2 && 2 + UnBe(bs[..2]) <= |bs|
  {
    bs[2..2 + UnBe(bs[..2])]
  }

  /** The name comes back, cut to its first 127 bytes, and the byte after it is zero. */
  lemma {:induction false} NameRoundTrip(name: seq<Byte>, tail: seq<Byte>)
    ensures var bs := NameField(name) + tail;
            && UnBe(bs[..2]) == NameLen(name) && bs[2 + NameLen(name)] == 0
            && ReadName(bs) == name[..NameLen(name)]
  {
    var n := NameLen(name);
    var bs := NameField(name) + tail;
    assert Pow256(2) == 256 * Pow256(1) && Pow256(1) == 256;
    UnBeBe(n, 2);
    assert bs[..2] == Be(n, 2);
    assert bs[2..2 + n] == name[..n];
  }

  lemma ReportFieldsFit(k: KillStat, mem: Option<MemoryStat>)
    requires ReportFits(k, mem)
    ensures AllFit(ReportFields(k, mem))
  {
    var fs := ReportFields(k, mem);
    forall i | 0 <= i < |fs| ensures FitsIn(fs[i].value, fs[i].width) {
      Int32Fits(fs[i].value);
      MinusOneFits();
    }
  }

  lemma {:induction false} SizeConcat(a: seq<Field>, b: seq<Field>)
    ensures Size(a + b) == Size(a) + Size(b)
  {
    if b == [] {
      assert a + b == a;
    } else {
      var n := |b| - 1;
      SizeConcat(a, b[..n]);
      assert (a + b)[..|a + b| - 1] == a + b[..n];
    }
  }

  lemma {:induction false} UniformSize(fs: seq<Field>, w: nat)
    requires forall k :: 0 <= k < |fs| ==> fs[k].width == w
    ensures Size(fs) == w * |fs|
  {
    if fs != [] {
      UniformSize(fs[..|fs| - 1], w);
    }
  }

  /** The fixed part of the report takes 84 bytes. */
  lemma ReportSize(k: KillStat, mem: Option<MemoryStat>)
    ensures Size(ReportFields(k, mem)) == 84
  {
    var fs := ReportFields(k, mem);
    assert fs == fs[..1] + fs[1..7] + fs[7..];
    SizeConcat(fs[..1] + fs[1..7], fs[7..]);
    SizeConcat(fs[..1], fs[1..7]);
    UniformSize(fs[..1], 4);
    UniformSize(fs[1..7], 8);
    UniformSize(fs[7..], 4);
  }

  /** A run of pack_int32 and pack_int64 calls. */
  method PackFields(packet: array<Byte>, fields: seq<Field>) returns (index: nat)
    requires AllFit(fields) && Size(fields) <= packet.Length
    modifies packet
    ensures index == Size(fields) && packet[..index] == Pack(fields) && packet[index..] == old(packet[index..])
  {
    index := 0;
    assert fields[..0] == [];
    for n := 0 to |fields|
      invariant index == Size(fields[..n]) <= Size(fields)
      invariant packet[..index] == Pack(fields[..n]) && packet[index..] == old(packet[index..])
    {
      SizeMono(fields, n);
      assert fields[..n + 1][..n] == fields[..n];
      ghost var bytes := Enc(fields[n].value, fields[n].width);
      ghost var done, rest := packet[..index], packet[index..];
      index := PutNumber(packet, index, fields[n].value, fields[n].width);
      assert packet[..index] == done + bytes && packet[index..] == rest[fields[n].width..];
    }
    assert fields[..|fields|] == fields;
  }

  lemma Joined(s: seq<Byte>, a: nat, b: nat, c: nat)
    requires a <= b <= c < |s|
    ensures s[a..c + 1] == s[..b][a..] + (s[b..c] + [s[c]])
  {
  }

  /** pack_string */
  method PackString(packet: array<Byte>, index: nat, value: seq<Byte>) returns (next: nat)
    requires index + 2 + MAX_TASKNAME_LEN <= packet.Length
    modifies packet
    ensures next == index + 2 + NameLen(value) + 1
    ensures packet[..index] == old(packet[..index])
    ensures packet[index..index + 2 + MAX_TASKNAME_LEN] == NameField(value)
    ensures packet[index + 2 + MAX_TASKNAME_LEN..] == old(packet[index + 2 + MAX_TASKNAME_LEN..])
  {
    var len := NameLen(value);
    packet[index], packet[index + 1] := len / 256, len % 256;
    assert Be(len, 2) == Be(len / 256, 1) + [len % 256] && Be(len / 256, 1) == Be(len / 256 / 256, 0) + [len / 256 % 256];
    var start := index + 2;
    ghost var full := value[..len] + Zeros(MAX_TASKNAME_LEN - len);
    for i := 0 to MAX_TASKNAME_LEN - 1
      invariant packet[..start] == old(packet[..index]) + Be(len, 2)
      invariant packet[start..start + i] == full[..i]
      invariant packet[start + MAX_TASKNAME_LEN..] == old(packet[start + MAX_TASKNAME_LEN..])
    {
      packet[start + i] := if i < len then value[i] else 0;
      assert packet[start..start + i + 1] == packet[start..start + i] + [full[i]];
    }
    ghost var named := packet[..];
    packet[start + MAX_TASKNAME_LEN - 1] := 0;
    assert packet[..] == named[start + MAX_TASKNAME_LEN - 1 := 0];
    assert full == full[..MAX_TASKNAME_LEN - 1] + [0];
    Joined(packet[..], index, start, start + MAX_TASKNAME_LEN - 1);
    return index + 2 + len + 1;
  }

  /** lmkd_pack_set_kill_occurred: never more than 214 bytes are written. */
  method SetKillOccurred(packet: array<Byte>, k: KillStat, mem: Option<MemoryStat>, enabled: bool) returns (size: nat)
    requires packet.Length == LMKD_REPLY_MAX_SIZE && ReportFits(k, mem)
    modifies packet
    ensures AllFit(ReportFields(k, mem))
    ensures !enabled ==> size == 0 && packet[..] == old(packet[..])
    ensures enabled ==> size == 87 + NameLen(k.taskname) <= 214
                        && packet[..214] == Pack(ReportFields(k, mem)) + NameField(k.taskname)
                        && packet[214..] == old(packet[214..])
  {
    ReportFieldsFit(k, mem);
    ReportSize(k, mem);
    hide Pack, Size, NameField, AllFit, ReportFields;
    if !enabled {
      return 0;
    }
    var index := PackFields(packet, ReportFields(k, mem));
    ghost var fixed, rest := packet[..84], packet[84..];
    size := PackString(packet, index, k.taskname);
    assert packet[..214] == packet[..84] + packet[84..214];
    assert packet[214..] == rest[130..];
  }

  /**
   The report read back: every number as it was put, the name cut to 127 bytes, and the free
   amounts exact if and only if they fit in 32 bits.
   */
  lemma {:induction false} ReportRoundTrip(k: KillStat, mem: Option<MemoryStat>, tail: seq<Byte>, i: nat)
    requires ReportFits(k, mem) && i < 15
    ensures AllFit(ReportFields(k, mem))
    ensures var fs := ReportFields(k, mem);
            var bs := Pack(fs) + (NameField(k.taskname) + tail);
            && |bs| >= 214 && Size(fs[..i]) + fs[i].width <= |bs| && Unpack(bs, fs, i) == fs[i].value
            && bs[84..] == NameField(k.taskname) + tail
            && ReadNameAt(bs, 84) == Some(k.taskname[..NameLen(k.taskname)])
    ensures ToInt32(k.freeMemKb) == k.freeMemKb <==> IsInt32(k.freeMemKb)
    ensures ToInt32(k.freeSwapKb) == k.freeSwapKb <==> IsInt32(k.freeSwapKb)
  {
    ReportFieldsFit(k, mem);
    ReportSize(k, mem);
    ToInt32Exact(k.freeMemKb);
    ToInt32Exact(k.freeSwapKb);
    NameRoundTrip(k.taskname, tail);
    UnpackPack(ReportFields(k, mem), NameField(k.taskname) + tail, i);
  }

  // ---------- the layout of the report ----------

  /** The number in `width` bytes from byte `at` on. */
  function NumberAt(bs: seq<Byte>, at: nat, width: nat): int
    requires at + width <= |bs|
  {
    Dec(bs[at..at + width])
  }

  /** Where the i-th number of the report is. */
  function OffsetOf(i: nat): nat {
    if i == 0 then 0 else if i < 7 then 4 + 8 * (i - 1) else 52 + 4 * (i - 7)
  }

  predicate ReportWidths(fs: seq<Field>) {
    |fs| == 15 && forall i :: 0 <= i < 15 ==> fs[i].width == if 1 <= i < 7 then 8 else 4
  }

  lemma EarlyOffsets(fs: seq<Field>, i: nat)
    requires ReportWidths(fs) && i <= 7
    ensures Size(fs[..i]) == OffsetOf(i)
  {
    if i > 0 {
      assert fs[..i] == fs[..1] + fs[1..i];
      SizeConcat(fs[..1], fs[1..i]);
      UniformSize(fs[..1], 4);
      UniformSize(fs[1..i], 8);
    }
  }

  lemma ReportOffsets(fs: seq<Field>, i: nat)
    requires ReportWidths(fs) && i < 15
    ensures Size(fs[..i]) == OffsetOf(i)
  {
    if i <= 7 {
      EarlyOffsets(fs, i);
    } else {
      hide Size;
      EarlyOffsets(fs, 7);
      assert fs[..i] == fs[..7] + fs[7..i];
      SizeConcat(fs[..7], fs[7..i]);
      UniformSize(fs[7..i], 4);
    }
  }

  /** What a reader that knows the offsets finds of the memory of the process killed. */
  function ReadMemory(bs: seq<Byte>): MemoryStat
    requires |bs| >= 214
  {
    MemoryStat(NumberAt(bs, 4, 8), NumberAt(bs, 12, 8), NumberAt(bs, 20, 8),
               NumberAt(bs, 28, 8), NumberAt(bs, 36, 8), NumberAt(bs, 44, 8))
  }

  /** And of the kill. */
  function ReadKill(bs: seq<Byte>): KillStat
    requires |bs| >= 214
  {
    KillStat(uid := NumberAt(bs, 52, 4), oomScore := NumberAt(bs, 56, 4), minOomScore := NumberAt(bs, 60, 4),
             freeMemKb := NumberAt(bs, 64, 4), freeSwapKb := NumberAt(bs, 68, 4), killReason := NumberAt(bs, 72, 4),
             thrashing := NumberAt(bs, 76, 4), maxThrashing := NumberAt(bs, 80, 4),
             taskname := var name := ReadNameAt(bs, 84); if name.Some? then name.value else [])
  }

  lemma ReportNumber(k: KillStat, mem: Option<MemoryStat>, tail: seq<Byte>, i: nat)
    requires ReportFits(k, mem) && i < 15
    ensures AllFit(ReportFields(k, mem))
    ensures var fs := ReportFields(k, mem);
            var bs := Pack(fs) + (NameField(k.taskname) + tail);
            && |bs| >= 214 && OffsetOf(i) + fs[i].width <= |bs|
            && NumberAt(bs, OffsetOf(i), if 1 <= i < 7 then 8 else 4) == fs[i].value
  {
    assert ReportWidths(ReportFields(k, mem));
    hide ReportFields, Pack, NameField, Dec, AllFit;
    ReportRoundTrip(k, mem, tail, i);
    ReportOffsets(ReportFields(k, mem), i);
  }

  /**
   A reader that takes every field from its own offset gets the report back: the memory figures,
   or -1 for each where there are none, and the kill, with its name cut and the free amounts as
   they fit in 32 bits.
   */
  lemma ReportRead(k: KillStat, mem: Option<MemoryStat>, tail: seq<Byte>)
    requires ReportFits(k, mem)
    ensures AllFit(ReportFields(k, mem))
    ensures var bs := Pack(ReportFields(k, mem)) + (NameField(k.taskname) + tail);
            && |bs| >= 214 && NumberAt(bs, 0, 4) == LMK_STAT_KILL_OCCURRED
            && ReadMemory(bs) == (if mem.Some? then mem.value else MemoryStat(-1, -1, -1, -1, -1, -1))
            && ReadKill(bs) == k.(taskname := k.taskname[..NameLen(k.taskname)],
                                  freeMemKb := ToInt32(k.freeMemKb), freeSwapKb := ToInt32(k.freeSwapKb))
  {
    hide Pack, NameField, Dec, AllFit, ReportFits, NumberAt, ToInt32, ReadNameAt;
    ReportRoundTrip(k, mem, tail, 0);
    forall i | 0 <= i < 15
      ensures var fs := ReportFields(k, mem);
              var bs := Pack(fs) + (NameField(k.taskname) + tail);
              NumberAt(bs, OffsetOf(i), if 1 <= i < 7 then 8 else 4) == fs[i].value
    {
      ReportNumber(k, mem, tail, i);
    }
    ReadBack(Pack(ReportFields(k, mem)) + (NameField(k.taskname) + tail), ReportFields(k, mem));
  }

  /** The reader's fields are the numbers in their order. */
  lemma ReadBack(bs: seq<Byte>, fs: seq<Field>)
    requires |bs| >= 214 && |fs| == 15
    requires forall i :: 0 <= i < 15 ==> NumberAt(bs, OffsetOf(i), if 1 <= i < 7 then 8 else 4) == fs[i].value
    ensures NumberAt(bs, 0, 4) == fs[0].value
    ensures ReadMemory(bs) == MemoryStat(fs[1].value, fs[2].value, fs[3].value, fs[4].value, fs[5].value, fs[6].value)
    ensures var k := ReadKill(bs);
            && k.uid == fs[7].value && k.oomScore == fs[8].value && k.minOomScore == fs[9].value
            && k.freeMemKb == fs[10].value && k.freeSwapKb == fs[11].value && k.killReason == fs[12].value
            && k.thrashing == fs[13].value && k.maxThrashing == fs[14].value
  {
    hide NumberAt, ReadNameAt;
    assert fs[0].value == NumberAt(bs, OffsetOf(0), 4);
    assert fs[1].value == NumberAt(bs, OffsetOf(1), 8) && fs[2].value == NumberAt(bs, OffsetOf(2), 8);
    assert fs[3].value == NumberAt(bs, OffsetOf(3), 8) && fs[4].value == NumberAt(bs, OffsetOf(4), 8);
    assert fs[5].value == NumberAt(bs, OffsetOf(5), 8) && fs[6].value == NumberAt(bs, OffsetOf(6), 8);
    assert fs[7].value == NumberAt(bs, OffsetOf(7), 4) && fs[8].value == NumberAt(bs, OffsetOf(8), 4);
    assert fs[9].value == NumberAt(bs, OffsetOf(9), 4) && fs[10].value == NumberAt(bs, OffsetOf(10), 4);
    assert fs[11].value == NumberAt(bs, OffsetOf(11), 4) && fs[12].value == NumberAt(bs, OffsetOf(12), 4);
    assert fs[13].value == NumberAt(bs, OffsetOf(13), 4) && fs[14].value == NumberAt(bs, OffsetOf(14), 4);
  }

  function ReadNameAt(bs: seq<Byte>, at: nat): Option<seq<Byte>> {
    if at + 2 <= |bs| && at + 2 + UnBe(bs[at..][..2]) <= |bs| then Some(ReadName(bs[at..])) else None
  }

  lemma MinusOneFits()
    ensures FitsIn(-1, 8)
  {
    assert Pow256(8) == 256 * Pow256(7);
  }
}
