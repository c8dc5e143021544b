/** The laser link: 32-bit messages sent bit by bit, sampled, put together again, and checked. */
module Laser {

  const BITS := 32
  const SAMPLES := 3
  const WORD := 0x1_0000_0000

  function Pow2(n: nat): (r: nat)
    ensures r > 0
  {
    if n == 0 then 1 else 2 * Pow2(n - 1)
  }

  // m shifted right by n bits.
  function Shift(m: nat, n: nat): nat
  {
    if n == 0 then m else Shift(m, n - 1) / 2
  }

  function Bit(m: nat, i: nat): bool
  {
    Shift(m, i) % 2 == 1
  }

  // ---- Sending ----

  // The levels of the n low bits, most significant first.
  function LowBits(m: nat, n: nat): (r: seq<bool>)
    ensures |r| == n
  {
    if n == 0 then [] else [Bit(m, n - 1)] + LowBits(m, n - 1)
  }

  // The level in each bit period while a message is sent.
  method SendMessage(m: nat) returns (levels: seq<bool>)
    ensures levels == LowBits(m, BITS)
  {
    ghost var all := LowBits(m, BITS);
    levels := [];
    var i := BITS - 1;
    while i >= 0
      invariant -1 <= i < BITS && levels + LowBits(m, i + 1) == all
    {
      var bit := Shift(m, i) % 2 == 1;
      NextBit(levels, m, i);
      levels := levels + [bit];
      i := i - 1;
    }
    assert levels + [] == levels;
  }

  lemma NextBit(levels: seq<bool>, m: nat, i: nat)
    ensures levels + LowBits(m, i + 1) == levels + [Bit(m, i)] + LowBits(m, i)
  {
  }

  function SendAll(messages: seq<nat>): seq<bool>
  {
    if messages == [] then [] else LowBits(messages[0], BITS) + SendAll(messages[1..])
  }

  // ---- Receiving ----

  // Two of the three samples at least show the level.
  predicate Mostly(three: seq<bool>, level: bool)
  {
    |three| == SAMPLES
    && ((three[0] == three[1] == level) || (three[0] == three[2] == level) || (three[1] == three[2] == level))
  }

  // Every bit period is sampled three times, and at most one of the samples is disturbed.
  predicate Conveys(samples: seq<bool>, levels: seq<bool>)
    decreases |levels|
  {
    if levels == [] then samples == []
    else |samples| >= SAMPLES && Mostly(samples[..SAMPLES], levels[0]) && Conveys(samples[SAMPLES..], levels[1..])
  }

  function Count(samples: seq<bool>): nat
  {
    if samples == [] then 0 else Count(samples[1..]) + if samples[0] then 1 else 0
  }

  // The sampler's state between two samples.
  datatype Receiver = Receiver(message: nat, bits: nat, samples: seq<bool>)

  const IDLE := Receiver(0, 0, [])

  // The result of one sample: the state after it, and the message it completes, if any.
  datatype Outcome = Outcome(next: Receiver, done: seq<nat>)

  // A bit period is high when most of its samples are.
  function Sample(r: Receiver, level: bool): Outcome
  {
    var samples := r.samples + [level];
    if |samples| < SAMPLES then Outcome(r.(samples := samples), [])
    else
      var bit := if 2 * Count(samples) > SAMPLES then 1 else 0;
      var message := (r.message * 2 + bit) % WORD;
      if r.bits + 1 >= BITS then Outcome(IDLE, [message])
      else Outcome(Receiver(message, r.bits + 1, []), [])
  }

  function Receive(r: Receiver, samples: seq<bool>): Outcome
    decreases |samples|
  {
    if samples == [] then Outcome(r, [])
    else
      var first := Sample(r, samples[0]);
      var rest := Receive(first.next, samples[1..]);
      rest.(done := first.done + rest.done)
  }

  // The sampler as the source keeps it.
  class Sampler {
    var message: nat
    var bitIdx: nat
    var sampleIdx: nat
    const buf: array<bool>

    ghost predicate Valid()
      reads this
    {
      buf.Length == SAMPLES && sampleIdx < SAMPLES && bitIdx < BITS && message < WORD
    }

    ghost function State(): Receiver
      reads this, buf
      requires Valid()
    {
      Receiver(message, bitIdx, buf[..sampleIdx])
    }

    constructor ()
      ensures Valid() && State() == IDLE && fresh(buf)
    {
      message, bitIdx, sampleIdx := 0, 0, 0;
      buf := new bool[SAMPLES];
    }

    // One sample. Gives the message when it is the last of one.
    method TimerCallback(level: bool) returns (done: seq<nat>)
      requires Valid()
      modifies this`message, this`bitIdx, this`sampleIdx, buf
      ensures Valid() && Outcome(State(), done) == Sample(old(State()), level)
    {
      done := [];
      KeepSample(level);
      if sampleIdx >= SAMPLES {
        assert buf[..sampleIdx] == buf[..];
        done := TakeBit();
      }
    }

    method KeepSample(level: bool)
      requires Valid()
      modifies this`sampleIdx, buf
      ensures sampleIdx == old(sampleIdx) + 1 && buf[..sampleIdx] == old(buf[..sampleIdx]) + [level]
    {
      buf[sampleIdx] := level;
      sampleIdx := sampleIdx + 1;
    }

    // A full bit period: its level is shifted in.
    method TakeBit() returns (done: seq<nat>)
      requires buf.Length == SAMPLES && bitIdx < BITS
      modifies this`message, this`bitIdx, this`sampleIdx
      ensures Valid()
      ensures var shifted := (old(message) * 2 + if 2 * Count(buf[..]) > SAMPLES then 1 else 0) % WORD;
        Outcome(State(), done) == if old(bitIdx) + 1 >= BITS then Outcome(IDLE, [shifted])
          else Outcome(Receiver(shifted, old(bitIdx) + 1, []), [])
    {
      done := [];
      var high := CountHigh();
      var bit := if 2 * high > SAMPLES then 1 else 0;
      message := (message * 2 + bit) % WORD;
      bitIdx := bitIdx + 1;
      sampleIdx := 0;
      if bitIdx >= BITS {
        done := [message];
        message := 0;
        bitIdx := 0;
      }
    }

    method CountHigh() returns (n: nat)
      requires buf.Length == SAMPLES
      ensures n == Count(buf[..])
    {
      n := 0;
      var i := 0;
      while i < SAMPLES
        invariant 0 <= i <= SAMPLES && n + Count(buf[i..]) == Count(buf[..])
      {
        assert buf[i..][1..] == buf[i + 1..];
        if buf[i] {
          n := n + 1;
        }
        i := i + 1;
      }
    }
  }

  // ---- What is sent is received ----

  lemma {:induction false} ReceiveConcat(r: Receiver, a: seq<bool>, b: seq<bool>)
    ensures var first := Receive(r, a);
            var second := Receive(first.next, b);
      Receive(r, a + b) == Outcome(second.next, first.done + second.done)
    decreases |a|
  {
    if a == [] {
      assert a + b == b;
    } else {
      assert (a + b)[1..] == a[1..] + b;
      ReceiveConcat(Sample(r, a[0]).next, a[1..], b);
    }
  }

  // What conveys one sequence of levels after another falls into two parts that convey one each.
  lemma {:induction false} ConveysSplit(samples: seq<bool>, a: seq<bool>, b: seq<bool>)
    requires Conveys(samples, a + b)
    ensures SAMPLES * |a| <= |samples|
    ensures Conveys(samples[..SAMPLES * |a|], a) && Conveys(samples[SAMPLES * |a|..], b)
    decreases |a|
  {
    if a == [] {
      assert a + b == b && samples[0..] == samples;
    } else {
      var rest := samples[SAMPLES..];
      assert (a + b)[1..] == a[1..] + b;
      ConveysSplit(rest, a[1..], b);
      var n := SAMPLES * |a|;
      assert n - SAMPLES == SAMPLES * |a[1..]|;
      assert samples[..n][..SAMPLES] == samples[..SAMPLES] && samples[..n][SAMPLES..] == rest[..n - SAMPLES];
      assert samples[n..] == rest[n - SAMPLES..];
    }
  }

  // Three samples shift one bit in, whichever of them is disturbed.
  lemma OneBit(r: Receiver, three: seq<bool>, level: bool)
    requires r.samples == [] && Mostly(three, level)
    ensures var message := (r.message * 2 + if level then 1 else 0) % WORD;
      Receive(r, three) ==
        if r.bits + 1 >= BITS then Outcome(IDLE, [message]) else Outcome(Receiver(message, r.bits + 1, []), [])
  {
    var r1, r2 := r.(samples := [three[0]]), r.(samples := [three[0], three[1]]);
    TwoSamples(r, three[0], three[1]);
    ThirdSample(r2, three, level);
    ReceiveThree(r, r1, r2, three);
  }

  lemma ReceiveThree(r: Receiver, r1: Receiver, r2: Receiver, three: seq<bool>)
    requires |three| == 3 && Sample(r, three[0]) == Outcome(r1, []) && Sample(r1, three[1]) == Outcome(r2, [])
    ensures Receive(r, three) == Sample(r2, three[2])
  {
    var last := Sample(r2, three[2]);
    ReceiveNext(r2, three[2], []);
    assert last.done + [] == last.done && [] + last.done == last.done;
    assert [three[2]] + [] == [three[2]];
    ReceiveNext(r1, three[1], [three[2]]);
    assert [three[1]] + [three[2]] == [three[1], three[2]];
    ReceiveNext(r, three[0], [three[1], three[2]]);
    assert [three[0]] + [three[1], three[2]] == three;
  }

  lemma ReceiveNext(r: Receiver, level: bool, more: seq<bool>)
    ensures var rest := Receive(Sample(r, level).next, more);
      Receive(r, [level] + more) == rest.(done := Sample(r, level).done + rest.done)
  {
    assert ([level] + more)[1..] == more;
  }

  lemma TwoSamples(r: Receiver, first: bool, second: bool)
    requires r.samples == []
    ensures Sample(r, first) == Outcome(r.(samples := [first]), [])
    ensures Sample(r.(samples := [first]), second) == Outcome(r.(samples := [first, second]), [])
  {
    assert [] + [first] == [first] && [first] + [second] == [first, second];
  }

  lemma ThirdSample(r: Receiver, three: seq<bool>, level: bool)
    requires Mostly(three, level) && r.samples == [three[0], three[1]]
    ensures var message := (r.message * 2 + if level then 1 else 0) % WORD;
      Sample(r, three[2]) == if r.bits + 1 >= BITS then Outcome(IDLE, [message])
        else Outcome(Receiver(message, r.bits + 1, []), [])
  {
    assert [three[0], three[1]] + [three[2]] == three;
    MostlyCounts(three, level);
  }

  lemma MostlyCounts(three: seq<bool>, level: bool)
    requires Mostly(three, level)
    ensures 2 * Count(three) > SAMPLES <==> level
  {
    assert three[1..] == [three[1], three[2]] && three[1..][1..] == [three[2]] && three[1..][1..][1..] == [];
    assert Count(three[1..][1..]) == if three[2] then 1 else 0;
  }

  // The first of the low bits of m is shifted into what the higher ones have built up.
  lemma FirstBitReceived(m: nat, n: nat, three: seq<bool>)
    requires m < WORD && 0 < n <= BITS && Mostly(three, Bit(m, n - 1))
    ensures Receive(Receiver(Shift(m, n), BITS - n, []), three)
        == if n == 1 then Outcome(IDLE, [m]) else Outcome(Receiver(Shift(m, n - 1), BITS - (n - 1), []), [])
  {
    OneBit(Receiver(Shift(m, n), BITS - n, []), three, Bit(m, n - 1));
    ShiftIn(m, n);
  }

  // And all of them give m.
  lemma {:induction false} BitsReceived(m: nat, n: nat, samples: seq<bool>)
    requires m < WORD && 0 < n <= BITS && Conveys(samples, LowBits(m, n))
    ensures Receive(Receiver(Shift(m, n), BITS - n, []), samples) == Outcome(IDLE, [m])
    decreases n
  {
    var three, rest := samples[..SAMPLES], samples[SAMPLES..];
    assert LowBits(m, n)[1..] == LowBits(m, n - 1) && samples == three + rest;
    ReceiveConcat(Receiver(Shift(m, n), BITS - n, []), three, rest);
    FirstBitReceived(m, n, three);
    if n == 1 {
      assert rest == [] && Receive(IDLE, []) == Outcome(IDLE, []);
      assert [m] + [] == [m];
    } else {
      BitsReceived(m, n - 1, rest);
      assert [] + [m] == [m];
    }
  }

  lemma ShiftIn(m: nat, n: nat)
    requires m < WORD && 0 < n
    ensures (Shift(m, n) * 2 + if Bit(m, n - 1) then 1 else 0) % WORD == Shift(m, n - 1)
  {
    ShiftSmaller(m, n - 1);
  }

  lemma {:induction false} ShiftSmaller(m: nat, n: nat)
    ensures Shift(m, n) <= m
  {
    if n > 0 {
      ShiftSmaller(m, n - 1);
    }
  }

  lemma {:induction false} ShiftBound(m: nat, n: nat)
    ensures Shift(m, n) * Pow2(n) <= m
  {
    if n > 0 {
      ShiftBound(m, n - 1);
      var q := Shift(m, n - 1);
      Halving(q, Pow2(n - 1));
    }
  }

  lemma Halving(q: nat, d: nat)
    ensures q / 2 * (2 * d) <= q * d
  {
    assert q / 2 * 2 <= q;
    Times(q / 2 * 2, q, d);
    assert q / 2 * (2 * d) == q / 2 * 2 * d;
  }

  lemma Times(a: nat, b: nat, d: nat)
    requires a <= b
    ensures a * d <= b * d
  {
  }

  /** Any messages sent back to back are received, in order, with the receiver ready for more, even
      if one sample of every bit is disturbed. */
  lemma {:induction false} MessagesReceived(messages: seq<nat>, samples: seq<bool>)
    requires (forall i :: 0 <= i < |messages| ==> messages[i] < WORD) && Conveys(samples, SendAll(messages))
    ensures Receive(IDLE, samples) == Outcome(IDLE, messages)
    decreases |messages|
  {
    if messages != [] {
      var m, n := messages[0], SAMPLES * BITS;
      ConveysSplit(samples, LowBits(m, BITS), SendAll(messages[1..]));
      assert samples == samples[..n] + samples[n..];
      ReceiveConcat(IDLE, samples[..n], samples[n..]);
      PowTop();
      ShiftBound(m, BITS);
      assert Shift(m, BITS) == 0;
      BitsReceived(m, BITS, samples[..n]);
      MessagesReceived(messages[1..], samples[n..]);
      assert messages == [m] + messages[1..];
    }
  }

  lemma PowTop()
    ensures Pow2(BITS) == WORD
  {
    PowAdd(2, 2);
    assert Pow2(2) == 4;
    PowAdd(4, 4);
    PowAdd(8, 8);
    PowAdd(16, 16);
  }

  lemma {:induction false} PowAdd(a: nat, b: nat)
    ensures Pow2(a + b) == Pow2(a) * Pow2(b)
  {
    if a > 0 {
      PowAdd(a - 1, b);
      assert Pow2(a + b) == 2 * Pow2(a - 1 + b);
      assert 2 * (Pow2(a - 1) * Pow2(b)) == 2 * Pow2(a - 1) * Pow2(b);
    }
  }

  // ---- Messages ----

  const MAX_PLAYER: bv8 := 31
  const MAX_DEVICE: bv8 := 63

  function Hash(x: bv8): bv8
  {
    (x ^ 0xAA) + 1
  }

  function CreateMessage(player: bv8, device: bv8): bv32
  {
    var p, d := player & MAX_PLAYER, device & MAX_DEVICE;
    ((p as bv32) << 24) | ((d as bv32) << 16) | ((Hash(p) as bv32) << 8) | (Hash(d) as bv32)
  }

  datatype Checked = Accepted(player: bv8, device: bv8) | Rejected

  function Validate(m: bv32): Checked
  {
    var player := ((m >> 24) & 0xFF) as bv8;
    var device := ((m >> 16) & 0xFF) as bv8;
    var playerHash := ((m >> 8) & 0xFF) as bv8;
    var deviceHash := (m & 0xFF) as bv8;
    if playerHash == Hash(player) && deviceHash == Hash(device) && player <= MAX_PLAYER && device <= MAX_DEVICE
    then Accepted(player, device)
    else Rejected
  }

  lemma CreatedIsAccepted(player: bv8, device: bv8)
    ensures Validate(CreateMessage(player, device)) == Accepted(player & MAX_PLAYER, device & MAX_DEVICE)
  {
  }

  lemma AcceptedIsCreated(m: bv32)
    requires Validate(m).Accepted?
    ensures CreateMessage(Validate(m).player, Validate(m).device) == m
  {
  }

  /** A word is accepted exactly when it is the message of some player up to 31 and device up to
      63, and then with those. */
  lemma AcceptedIff(m: bv32, player: bv8, device: bv8)
    ensures Validate(m) == Accepted(player, device)
       <==> player <= MAX_PLAYER && device <= MAX_DEVICE && m == CreateMessage(player, device)
  {
    CreatedIsAccepted(player, device);
    if Validate(m).Accepted? {
      AcceptedIsCreated(m);
    }
    Masked(player, device);
  }

  lemma Masked(player: bv8, device: bv8)
    ensures player <= MAX_PLAYER ==> player & MAX_PLAYER == player
    ensures device <= MAX_DEVICE ==> device & MAX_DEVICE == device
    ensures player & MAX_PLAYER <= MAX_PLAYER && device & MAX_DEVICE <= MAX_DEVICE
  {
  }

  // A change confined to one of the four bytes.
  predicate OneByte(change: bv32)
  {
    change != 0 && (|| change & 0xFFFFFF00 == 0 || change & 0xFFFF00FF == 0
                    || change & 0xFF00FFFF == 0 || change & 0x00FFFFFF == 0)
  }

  /** A message one byte of which arrives altered, in whatever way, is rejected. */
  lemma AlteredByteRejected(m: bv32, change: bv32)
    requires Validate(m).Accepted? && OneByte(change)
    ensures Validate(m ^ change).Rejected?
  {
  }

  // ---- From one weapon to a vest ----

  datatype Shot = Shot(player: bv8, device: bv8)

  // The words sent for a number of shots.
  function Words(shots: seq<Shot>): (words: seq<nat>)
    ensures |words| == |shots|
    ensures forall i :: 0 <= i < |shots| ==> words[i] == CreateMessage(shots[i].player, shots[i].device) as nat
  {
    if shots == [] then []
    else [CreateMessage(shots[0].player, shots[0].device) as nat] + Words(shots[1..])
  }

  // A word put together bit by bit, as the 32-bit value it is.
  function AsWord(w: nat): bv32
    requires w < WORD
  {
    w as bv32
  }

  lemma WordBack(m: bv32)
    ensures m as nat < WORD && AsWord(m as nat) == m
  {
  }

  // The word checks out as a shot, its player and device reduced to five and six bits.
  predicate ChecksOut(w: nat, shot: Shot)
  {
    w < WORD && Validate(AsWord(w)) == Accepted(shot.player & MAX_PLAYER, shot.device & MAX_DEVICE)
  }

  lemma WordChecksOut(shot: Shot)
    ensures ChecksOut(CreateMessage(shot.player, shot.device) as nat, shot)
  {
    WordBack(CreateMessage(shot.player, shot.device));
    CreatedIsAccepted(shot.player, shot.device);
  }

  /** Whatever is shot, sent back to back, sampled with up to one sample of every bit disturbed, and
      put together again: every word checks out and gives the player and device that shot, in
      order, with the receiver ready for more. */
  lemma {:induction false} ShotsArrive(shots: seq<Shot>, samples: seq<bool>)
    requires Conveys(samples, SendAll(Words(shots)))
    ensures Receive(IDLE, samples) == Outcome(IDLE, Words(shots))
    ensures forall i :: 0 <= i < |shots| ==> ChecksOut(Words(shots)[i], shots[i])
  {
    forall i | 0 <= i < |shots| ensures ChecksOut(Words(shots)[i], shots[i]) {
      WordChecksOut(shots[i]);
    }
    MessagesReceived(Words(shots), samples);
  }
}
