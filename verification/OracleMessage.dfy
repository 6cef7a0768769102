/**
 The message an oracle signs: `buildSignedMessage` and OUTCOME_INDEX of
 backend/src/oracle/OracleService.ts.  The match id is taken as its UTF-8 bytes.
 */
module OracleMessage {
  import opened Common

  type Byte = b: int | 0 <= b < 256

  datatype FightOutcome = FighterA | FighterB | Draw | NoContest

  function OutcomeIndex(outcome: FightOutcome): Byte {
    match outcome
    case FighterA => 0
    case FighterB => 1
    case Draw => 2
    case NoContest => 3
  }

  datatype Report = Report(matchId: seq<Byte>, outcome: FightOutcome, reportedAt: int)

  /** 256 to the power n. */
  function Pow256(n: nat): nat {
    if n == 0 then 1 else 256 * Pow256(n - 1)
  }

  /** n bytes, most significant first. */
  function BigEndian(value: nat, n: nat): seq<Byte> {
    if n == 0 then [] else BigEndian(value / 256, n - 1) + [value % 256]
  }

  function FromBigEndian(bytes: seq<Byte>): nat {
    if bytes == [] then 0 else FromBigEndian(bytes[..|bytes| - 1]) * 256 + bytes[|bytes| - 1]
  }

  const U32_LIMIT: nat := 0x1_0000_0000
  const I64_LIMIT: int := 0x8000_0000_0000_0000
  const U64_LIMIT: int := 0x1_0000_0000_0000_0000

  /** The 64 bits of a signed integer, in two's complement. */
  function ToUnsigned(v: int): nat
    requires -I64_LIMIT <= v < I64_LIMIT
  {
    if v < 0 then v + U64_LIMIT else v
  }

  function ToSigned(v: nat): int {
    if v < I64_LIMIT then v else v - U64_LIMIT
  }

  /** The buffer writes throw for a length or a timestamp out of range. */
  predicate Encodable(r: Report) {
    |r.matchId| < U32_LIMIT && -I64_LIMIT <= r.reportedAt < I64_LIMIT
  }

  function BuildSignedMessage(r: Report): Option<seq<Byte>> {
    if !Encodable(r) then None
    else
      Some(BigEndian(|r.matchId|, 4) + r.matchId + [OutcomeIndex(r.outcome)] + BigEndian(ToUnsigned(r.reportedAt), 8))
  }

  // ----- Decoding -----

  function OutcomeOf(index: Byte): Option<FightOutcome> {
    if index == 0 then Some(FighterA)
    else if index == 1 then Some(FighterB)
    else if index == 2 then Some(Draw)
    else if index == 3 then Some(NoContest)
    else None
  }

  /** Reads one message off the front of a byte string; the rest is returned. */
  function Decode(bytes: seq<Byte>): Option<(Report, seq<Byte>)> {
    if |bytes| < 4 then None
    else
      var n := FromBigEndian(bytes[..4]);
      if |bytes| < n + 13 || OutcomeOf(bytes[n + 4]).None? then None
      else
        Some((Report(bytes[4..n + 4], OutcomeOf(bytes[n + 4]).value, ToSigned(FromBigEndian(bytes[n + 5..n + 13]))),
              bytes[n + 13..]))
  }

  lemma {:induction false} BigEndianRoundTrip(value: nat, n: nat)
    requires value < Pow256(n)
    ensures |BigEndian(value, n)| == n && FromBigEndian(BigEndian(value, n)) == value
  {
    if n > 0 {
      BigEndianRoundTrip(value / 256, n - 1);
      var init := BigEndian(value / 256, n - 1);
      assert (init + [value % 256])[..n - 1] == init;
    }
  }

  lemma PowersOf256()
    ensures Pow256(4) == U32_LIMIT && Pow256(8) == U64_LIMIT
  {
    assert Pow256(2) == 65536;
    assert Pow256(4) == 256 * (256 * Pow256(2));
    assert Pow256(6) == 256 * (256 * Pow256(4));
    assert Pow256(8) == 256 * (256 * Pow256(6));
  }

  /** Every report that can be encoded is read back from its message, whatever bytes follow it. */
  lemma DecodeBuilt(r: Report, rest: seq<Byte>)
    requires Encodable(r)
    ensures Decode(BuildSignedMessage(r).value + rest) == Some((r, rest))
    ensures |BuildSignedMessage(r).value| == |r.matchId| + 13
  {
    PowersOf256();
    var n := |r.matchId|;
    var len, time := BigEndian(n, 4), BigEndian(ToUnsigned(r.reportedAt), 8);
    BigEndianRoundTrip(n, 4);
    BigEndianRoundTrip(ToUnsigned(r.reportedAt), 8);
    var bytes := BuildSignedMessage(r).value + rest;
    assert bytes[..4] == len;
    assert bytes[4..n + 4] == r.matchId;
    assert bytes[n + 4] == OutcomeIndex(r.outcome);
    assert bytes[n + 5..n + 13] == time;
    assert bytes[n + 13..] == rest;
  }

  /** Distinct reports never share a message, nor is one message a prefix of another. */
  lemma MessagesArePrefixFree(a: Report, b: Report)
    requires Encodable(a) && Encodable(b)
    ensures BuildSignedMessage(a).value <= BuildSignedMessage(b).value <==> a == b
  {
    var ma, mb := BuildSignedMessage(a).value, BuildSignedMessage(b).value;
    if ma <= mb {
      DecodeBuilt(a, mb[|ma|..]);
      DecodeBuilt(b, []);
      assert ma + mb[|ma|..] == mb && mb + [] == mb;
    }
  }

  /** The four length bytes and the eight time bytes, most significant first, and the index between. */
  lemma {:induction false} MessageLayout(r: Report)
    ensures BuildSignedMessage(r).Some? <==>
            |r.matchId| < 4_294_967_296 && -9_223_372_036_854_775_808 <= r.reportedAt < 9_223_372_036_854_775_808
    ensures BuildSignedMessage(r).Some? ==>
              var m, n := BuildSignedMessage(r).value, |r.matchId|;
              && |m| == n + 13
              && (((m[0] as int) * 256 + m[1]) * 256 + m[2]) * 256 + m[3] == n
              && m[4..n + 4] == r.matchId
              && (r.outcome == FighterA ==> m[n + 4] == 0) && (r.outcome == FighterB ==> m[n + 4] == 1)
              && (r.outcome == Draw ==> m[n + 4] == 2) && (r.outcome == NoContest ==> m[n + 4] == 3)
              && (((((((m[n + 5] as int) * 256 + m[n + 6]) * 256 + m[n + 7]) * 256 + m[n + 8]) * 256 + m[n + 9]) * 256
                   + m[n + 10]) * 256 + m[n + 11]) * 256 + m[n + 12]
                 == (if r.reportedAt < 0 then r.reportedAt + 18_446_744_073_709_551_616 else r.reportedAt)
  {
    if Encodable(r) {
      var n := |r.matchId|;
      var len, time := BigEndian(n, 4), BigEndian(ToUnsigned(r.reportedAt), 8);
      PowersOf256();
      BigEndianRoundTrip(n, 4);
      BigEndianRoundTrip(ToUnsigned(r.reportedAt), 8);
      hide BigEndian, FromBigEndian, Pow256;
      FourBytes(len);
      EightBytes(time);
      var m := BuildSignedMessage(r).value;
      assert m == len + r.matchId + [OutcomeIndex(r.outcome)] + time;
      assert forall i :: 0 <= i < 4 ==> m[i] == len[i];
      assert forall i :: 0 <= i < 8 ==> m[n + 5 + i] == time[i];
    }
  }

  lemma FourBytes(b: seq<Byte>)
    requires |b| == 4
    ensures FromBigEndian(b) == (((b[0] as int) * 256 + b[1]) * 256 + b[2]) * 256 + b[3]
  {
    assert b[..3][..2] == b[..2] && b[..2][..1] == b[..1] && b[..1][..0] == [];
    assert FromBigEndian(b[..1]) == b[0];
    assert FromBigEndian(b[..2]) == (b[0] as int) * 256 + b[1];
    assert FromBigEndian(b[..3]) == ((b[0] as int) * 256 + b[1]) * 256 + b[2];
  }

  lemma EightBytes(b: seq<Byte>)
    requires |b| == 8
    ensures FromBigEndian(b) ==
            (((((((b[0] as int) * 256 + b[1]) * 256 + b[2]) * 256 + b[3]) * 256 + b[4]) * 256 + b[5]) * 256
             + b[6]) * 256 + b[7]
  {
    FourBytes(b[..4]);
    assert b[..5][..4] == b[..4] && b[..6][..5] == b[..5] && b[..7][..6] == b[..6];
    assert FromBigEndian(b[..5]) == FromBigEndian(b[..4]) * 256 + b[4];
    assert FromBigEndian(b[..6]) == FromBigEndian(b[..5]) * 256 + b[5];
    assert FromBigEndian(b[..7]) == FromBigEndian(b[..6]) * 256 + b[6];
  }

  // ----- The XDR form of the string -----

  /** Zero bytes up to the next multiple of four, as section 4.11 of RFC 4506 has it. */
  function Padding(n: nat): (pad: nat)
    ensures pad < 4 && (n + pad) % 4 == 0
  {
    (4 - n % 4) % 4
  }

  function XdrString(bytes: seq<Byte>): seq<Byte> {
    BigEndian(|bytes|, 4) + bytes + seq(Padding(|bytes|), _ => 0)
  }

  /** The message holds the match id as an XDR string exactly when its length needs no padding. */
  lemma LengthPrefixIsXdrIff(r: Report)
    requires Encodable(r)
    ensures BuildSignedMessage(r).value ==
            XdrString(r.matchId) + [OutcomeIndex(r.outcome)] + BigEndian(ToUnsigned(r.reportedAt), 8)
            <==> |r.matchId| % 4 == 0
  {
    PowersOf256();
    BigEndianRoundTrip(|r.matchId|, 4);
    BigEndianRoundTrip(ToUnsigned(r.reportedAt), 8);
    var padding := seq(Padding(|r.matchId|), _ => 0 as Byte);
    if |r.matchId| % 4 == 0 {
      assert padding == [];
      assert XdrString(r.matchId) == BigEndian(|r.matchId|, 4) + r.matchId;
    } else {
      assert |XdrString(r.matchId)| == 4 + |r.matchId| + Padding(|r.matchId|);
    }
  }
}
