/** What every verdict of the packet judge means, stated on the bytes received: mute pattern, repeat of the
    packet two before, header, CRC and number in turn. */
module PacketVerdicts {
  import opened SbcHeaderCrc
  import opened PacketLoss

  // ---------------------------------------------------------------------------------------------
  // One packet, by its bytes
  // ---------------------------------------------------------------------------------------------

  /** All bytes but the padding are the pattern. */
  ghost predicate IsMute(p: seq<bv8>, pattern: bv8)
    requires |p| == 60
  {
    forall i | 0 <= i < 59 :: p[i] == pattern
  }

  /** Byte `i` of the packet `back` places before packet `k`; the bytes before the first one are zero. */
  ghost function ByteBefore(ps: seq<seq<bv8>>, k: nat, back: nat, i: nat): bv8
    requires Packets(ps) && k < |ps| && i < 60
  {
    if k < back then 0 else ps[k - back][i]
  }

  /** The packet two before, padding aside. */
  ghost predicate IsRepeat(ps: seq<seq<bv8>>, k: nat)
    requires Packets(ps) && k < |ps|
  {
    forall i | 0 <= i < 59 :: ps[k][i] == ByteBefore(ps, k, 2, i)
  }

  /** The second of the last two verdicts before packet `k` that were not CONTROLLER_MUTE reported one. */
  ghost predicate JustReported(ps: seq<seq<bv8>>, k: nat, pattern: bv8)
    requires Packets(ps) && k < |ps|
  {
    var w := Shown(ps[..k], pattern);
    |w| >= 2 && w[|w| - 2] == BLE_CONFLICT
  }

  ghost predicate IsStale(ps: seq<seq<bv8>>, k: nat, pattern: bv8)
    requires Packets(ps) && k < |ps|
  {
    IsRepeat(ps, k) && !JustReported(ps, k, pattern)
  }

  /** The four H2 headers and the mSBC sync word. */
  predicate HasHeader(p: seq<bv8>)
    requires |p| == 60
  {
    p[0] == 0x01 && (p[1] == 0x08 || p[1] == 0x38 || p[1] == 0xC8 || p[1] == 0xF8) && p[2] == 0xAD
  }

  function HeaderNumber(h: bv8): (n: nat)
    ensures n < 4
  {
    if h == 0x08 then 0 else if h == 0x38 then 1 else if h == 0xC8 then 2 else 3
  }

  /** The CRC-8 with start value 0x0F over two zero bytes and the four bytes behind the CRC. */
  predicate HasCrc(p: seq<bv8>)
    requires |p| == 60
  {
    p[3] == 0 && p[4] == 0 && p[5] == Crc(0x0F, MessageBits([0, 0, p[6], p[7], p[8], p[9]]))
  }

  /** Nothing passed just before, or the number is the next one modulo four. */
  ghost predicate IsInTurn(ps: seq<seq<bv8>>, k: nat, pattern: bv8)
    requires Packets(ps) && k < |ps|
  {
    k == 0 || VerdictAt(ps, k - 1, pattern) != PASS
    || HeaderNumber(ps[k][1]) == (HeaderNumber(ps[k - 1][1]) + 1) % 4
  }

  lemma HeaderByBytes(p: seq<bv8>)
    requires |p| == 60
    ensures match CheckHeader(p)
            case Err(code) => code == -4 <==> HasHeader(p)
            case Sn(sn) => HasHeader(p) && HasCrc(p) && InRange(sn) && Count(sn) == HeaderNumber(p[1])
    ensures CheckHeader(p).Err? ==> !HasHeader(p) || !HasCrc(p)
  {
    SequenceByte(p[1]);
    hide Crc, MessageBits, Sn1, Sn2;
    if p[3] == 0 && p[4] == 0 {
      assert Covered(p) == [0, 0, p[6], p[7], p[8], p[9]];
    }
  }

  lemma SequenceByte(h: bv8)
    ensures var ok := h & 0x0f == 0x08 && (Sn1(h) == 0 || Sn1(h) == 3) && (Sn2(h) == 0 || Sn2(h) == 3);
            && (ok <==> h == 0x08 || h == 0x38 || h == 0xC8 || h == 0xF8)
            && (ok ==> InRange(SnOf(h)) && Count(SnOf(h)) == HeaderNumber(h))
  {
  }

  // ---------------------------------------------------------------------------------------------
  // Every verdict of every run
  // ---------------------------------------------------------------------------------------------

  lemma MuteByBytes(p: seq<bv8>, pattern: bv8)
    requires |p| == 60
    ensures Mute(p, pattern) <==> IsMute(p, pattern)
  {
  }

  lemma RepeatByBytes(ps: seq<seq<bv8>>, k: nat, pattern: bv8)
    requires Packets(ps) && k < |ps|
    ensures Repeats(Run(ps[..k], pattern), ps[k]) <==> IsStale(ps, k, pattern)
  {
    var st := Run(ps[..k], pattern);
    ConflictsSpaced(ps[..k], pattern);
    OlderIs(ps, k, pattern);
    hide Run, Shown, Spaced;
    if st.older[..59] == ps[k][..59] {
      forall i | 0 <= i < 59
        ensures ps[k][i] == st.older[i]
      {
        assert ps[k][..59][i] == st.older[..59][i];
      }
    }
  }

  /** The older packet kept is the one two before. */
  lemma OlderIs(ps: seq<seq<bv8>>, k: nat, pattern: bv8)
    requires Packets(ps) && k < |ps|
    ensures forall i | 0 <= i < 60 :: Run(ps[..k], pattern).older[i] == ByteBefore(ps, k, 2, i)
  {
    ConflictsSpaced(ps[..k], pattern);
    if k == 1 {
      assert ps[..1][..0] == [];
    }
  }

  /** Each verdict of every run, by the bytes of the packets and the verdicts before. */
  lemma VerdictsExplained(ps: seq<seq<bv8>>, k: nat, pattern: bv8)
    requires Packets(ps) && k < |ps|
    ensures var p, v := ps[k], VerdictAt(ps, k, pattern);
            var mute, stale := IsMute(p, pattern), IsStale(ps, k, pattern);
            && (v == CONTROLLER_MUTE <==> mute)
            && (v == BLE_CONFLICT <==> !mute && stale)
            && (v == HEADER_ERROR <==> !mute && !stale && !HasHeader(p))
            && (v == CRC_ERROR <==> !mute && !stale && HasHeader(p) && !HasCrc(p))
            && (v == SEQUENCE_DISCONTINUE <==>
                  !mute && !stale && HasHeader(p) && HasCrc(p) && !IsInTurn(ps, k, pattern))
            && (v == PASS <==> !mute && !stale && HasHeader(p) && HasCrc(p) && IsInTurn(ps, k, pattern))
  {
    var st := Run(ps[..k], pattern);
    MuteByBytes(ps[k], pattern);
    RepeatByBytes(ps, k, pattern);
    HeaderByBytes(ps[k]);
    if CheckHeader(ps[k]).Sn? {
      TurnByNumber(ps, k, pattern);
    }
    hide Run, Mute, Repeats, IsMute, IsStale, CheckHeader, HasHeader, HasCrc, IsInTurn;
  }

  lemma TurnByNumber(ps: seq<seq<bv8>>, k: nat, pattern: bv8)
    requires Packets(ps) && k < |ps| && CheckHeader(ps[k]).Sn?
    ensures Sequence(Run(ps[..k], pattern).lastSeq, CheckHeader(ps[k]).sn).1
         == if IsInTurn(ps, k, pattern) then PASS else SEQUENCE_DISCONTINUE
  {
    HeaderByBytes(ps[k]);
    LastIs(ps, k, pattern);
    hide Run, VerdictAt, CheckHeader, HasHeader, HasCrc, HeaderNumber;
    NumbersFollow(Run(ps[..k], pattern).lastSeq, CheckHeader(ps[k]).sn);
  }

  /** The number remembered is that of the packet before, if it passed. */
  lemma LastIs(ps: seq<seq<bv8>>, k: nat, pattern: bv8)
    requires Packets(ps) && k < |ps|
    ensures var last := Run(ps[..k], pattern).lastSeq;
            if k == 0 || VerdictAt(ps, k - 1, pattern) != PASS then last == 0xff
            else InRange(last) && Count(last) == HeaderNumber(ps[k - 1][1])
  {
    if k > 0 {
      LastSeqMarksPass(ps, k - 1, pattern);
      HeaderByBytes(ps[k - 1]);
    }
    hide VerdictAt, CheckHeader, HasHeader, HasCrc, HeaderNumber, Step;
  }

  lemma NumbersFollow(last: bv8, sn: bv8)
    requires (last == 0xff || InRange(last)) && InRange(sn)
    ensures Sequence(last, sn).1
         == if last == 0xff || Count(sn) == (Count(last) + 1) % 4 then PASS else SEQUENCE_DISCONTINUE
  {
    if last != 0xff {
      NextSeqCounts(last);
      if Count(sn) == Count(NextSeq(last)) {
        CountInjective(sn, NextSeq(last));
      }
    }
  }

  /** So a packet that comes back two places later is found, whatever came in between. */
  lemma RepeatFound(p: seq<bv8>, q: seq<bv8>, r: seq<bv8>, pattern: bv8)
    requires |p| == |q| == |r| == 60 && p[0] != 0 && p[..59] == r[..59] && !IsMute(r, pattern)
    ensures VerdictAt([p, q, r], 2, pattern) == BLE_CONFLICT
  {
    var ps := [p, q, r];
    VerdictsExplained(ps, 2, pattern);
    VerdictsExplained(ps, 0, pattern);
    forall i | 0 <= i < 59
      ensures r[i] == ByteBefore(ps, 2, 2, i)
    {
      assert p[..59][i] == r[..59][i];
    }
    assert ByteBefore(ps, 0, 2, 0) == 0;
    FirstTwoShown(ps, pattern);
  }

  lemma FirstTwoShown(ps: seq<seq<bv8>>, pattern: bv8)
    requires Packets(ps) && |ps| == 3
    ensures Shown(ps[..2], pattern) == NotMute(VerdictAt(ps, 0, pattern)) + NotMute(VerdictAt(ps, 1, pattern))
  {
    hide Step, Run;
    assert ps[..2][..1] == ps[..1] && ps[..1][..0] == [] == ps[..0];
    assert Shown(ps[..1], pattern) == NotMute(VerdictAt(ps, 0, pattern));
  }

  // ---------------------------------------------------------------------------------------------
  // The histogram of a run
  // ---------------------------------------------------------------------------------------------

  function Occurs<T(==)>(xs: seq<T>, x: T): nat {
    if xs == [] then 0 else Occurs(xs[..|xs| - 1], x) + if xs[|xs| - 1] == x then 1 else 0
  }

  /** Every counter holds, modulo 2^32, how often its kind was counted, the one of PASS less the decoder
      errors. */
  lemma {:induction false} CounterCounts(hist: seq<nat>, kinds: seq<nat>, i: nat)
    requires hist == [0, 0, 0, 0, 0, 0, 0, 0, 0] && i < 9
    ensures CountAll(hist, kinds)[i]
         == (Occurs(kinds, i) - if i == 0 then Occurs(kinds, 8) else 0) % 0x1_0000_0000
  {
    if kinds != [] {
      var before, kind := kinds[..|kinds| - 1], kinds[|kinds| - 1];
      CounterCounts(hist, before, i);
      CountedAt(CountAll(hist, before), kind, i);
      hide Counted, CountAll;
      var was := Occurs(before, i) - if i == 0 then Occurs(before, 8) else 0;
      AddModulo(was, CountAll(hist, before)[i]);
    }
  }

  lemma CountedAt(h: seq<nat>, kind: nat, i: nat)
    requires |h| == 9 && i < 9 && h[i] < 0x1_0000_0000
    ensures kind == i ==> Counted(h, kind)[i] == (h[i] + 1) % 0x1_0000_0000
    ensures kind == 8 && i == 0 ==> Counted(h, kind)[i] == (h[i] + 0xFFFF_FFFF) % 0x1_0000_0000
    ensures kind != i && (kind != 8 || i != 0) ==> Counted(h, kind)[i] == h[i]
  {
  }

  lemma AddModulo(a: int, b: nat)
    requires b == a % 0x1_0000_0000
    ensures (b + 1) % 0x1_0000_0000 == (a + 1) % 0x1_0000_0000
    ensures (b + 0xFFFF_FFFF) % 0x1_0000_0000 == (a - 1) % 0x1_0000_0000
  {
  }

  /** The kinds counted for the packets judged. */
  function Kinds(vs: seq<Verdict>): (kinds: seq<nat>)
    ensures |kinds| == |vs|
  {
    if vs == [] then [] else Kinds(vs[..|vs| - 1]) + [Kind(vs[|vs| - 1])]
  }

  lemma {:induction false} KindsOccur(vs: seq<Verdict>, kind: nat)
    ensures Occurs(Kinds(vs), kind)
         == if kind == 0 then Occurs(vs, PASS)
            else if kind == 1 then Occurs(vs, CONTROLLER_MUTE)
            else if kind == 2 then Occurs(vs, HEADER_ERROR)
            else if kind == 3 then Occurs(vs, CRC_ERROR)
            else if kind == 6 then Occurs(vs, SEQUENCE_DISCONTINUE)
            else if kind == 7 then Occurs(vs, BLE_CONFLICT)
            else 0
  {
    if vs != [] {
      KindsOccur(vs[..|vs| - 1], kind);
      var kinds := Kinds(vs);
      assert kinds[..|kinds| - 1] == Kinds(vs[..|vs| - 1]);
    }
  }

  /** After packets with the verdicts `vs` the histogram tells how often each verdict came. */
  lemma HistogramCounts(vs: seq<Verdict>)
    ensures CountAll([0, 0, 0, 0, 0, 0, 0, 0, 0], Kinds(vs))
         == [Occurs(vs, PASS) % 0x1_0000_0000, Occurs(vs, CONTROLLER_MUTE) % 0x1_0000_0000,
             Occurs(vs, HEADER_ERROR) % 0x1_0000_0000, Occurs(vs, CRC_ERROR) % 0x1_0000_0000, 0, 0,
             Occurs(vs, SEQUENCE_DISCONTINUE) % 0x1_0000_0000, Occurs(vs, BLE_CONFLICT) % 0x1_0000_0000, 0]
  {
    hide CountAll, Occurs, Kinds;
    forall i: nat | i < 9
      ensures CountAll([0, 0, 0, 0, 0, 0, 0, 0, 0], Kinds(vs))[i]
           == (Occurs(Kinds(vs), i) - if i == 0 then Occurs(Kinds(vs), 8) else 0) % 0x1_0000_0000
    {
      CounterCounts([0, 0, 0, 0, 0, 0, 0, 0, 0], Kinds(vs), i);
    }
    forall kind: nat
      ensures Occurs(Kinds(vs), kind)
           == if kind == 0 then Occurs(vs, PASS)
              else if kind == 1 then Occurs(vs, CONTROLLER_MUTE)
              else if kind == 2 then Occurs(vs, HEADER_ERROR)
              else if kind == 3 then Occurs(vs, CRC_ERROR)
              else if kind == 6 then Occurs(vs, SEQUENCE_DISCONTINUE)
              else if kind == 7 then Occurs(vs, BLE_CONFLICT)
              else 0
    {
      KindsOccur(vs, kind);
    }
  }
}
