/** The datagrams byte by byte, and which error each bad one gets (src/udp/messages.rs). */
module Layout {
  import opened Bytes
  import opened Messages

  // ----- little-endian numbers, in plain arithmetic

  function Sum2(b: seq<byte>): (v: int)
    requires |b| == 2
  {
    b[0] as int + 0x100 * b[1] as int
  }

  function Sum4(b: seq<byte>): (v: int)
    requires |b| == 4
  {
    Sum2(b[..2]) + 0x1_0000 * Sum2(b[2..])
  }

  function Sum8(b: seq<byte>): (v: int)
    requires |b| == 8
  {
    Sum4(b[..4]) + 0x1_0000_0000 * Sum4(b[4..])
  }

  lemma {:induction false} Unfold(b: seq<byte>)
    requires |b| >= 2
    ensures FromLe(b) == Sum2(b[..2]) + 0x1_0000 * FromLe(b[2..])
  {
    assert b[1..][1..] == b[2..];
    assert FromLe(b) == b[0] as nat + 256 * FromLe(b[1..]);
    assert FromLe(b[1..]) == b[1] as nat + 256 * FromLe(b[2..]);
  }

  lemma {:induction false} LittleEndian(b: seq<byte>)
    ensures |b| == 2 ==> FromLe(b) == Sum2(b)
    ensures |b| == 4 ==> FromLe(b) == Sum4(b)
    ensures |b| == 8 ==> FromLe(b) == Sum8(b)
  {
    hide FromLe;
    assert FromLe([]) == 0 by { EmptyIsZero(); }
    if |b| == 2 {
      Unfold(b);
      assert b[2..] == [] && b[..2] == b;
    } else if |b| == 4 {
      Four(b);
    } else if |b| == 8 {
      Unfold(b);
      Unfold(b[2..]);
      Four(b[4..]);
      assert b[2..][2..] == b[4..] && b[2..][..2] == b[..4][2..] && b[..4][..2] == b[..2];
    }
  }

  lemma {:induction false} EmptyIsZero()
    ensures FromLe([]) == 0
  {
  }

  lemma {:induction false} Four(b: seq<byte>)
    requires |b| == 4
    ensures FromLe(b) == Sum4(b)
  {
    hide FromLe;
    EmptyIsZero();
    Unfold(b);
    Unfold(b[2..]);
    assert b[2..][2..] == [] && b[2..][..2] == b[2..];
  }

  /** Integers go on the wire least significant byte first; 64-bit ones as two's complement. */
  lemma {:induction false} IntegersOnWire(p: u16, v: u32, t: int)
    requires -0x8000_0000_0000_0000 <= t < 0x8000_0000_0000_0000
    ensures Sum2(U16Bytes(p)) == p && Sum4(U32Bytes(v)) == v
    ensures Sum8(I64Bytes(t)) == if t >= 0 then t else t + 0x1_0000_0000_0000_0000
  {
    assert Pow256(2) == 0x1_0000 && Pow256(4) == 0x1_0000_0000 && Pow256(8) == TWO_64;
    DecodeEncoded(p, 2);
    DecodeEncoded(v, 4);
    DecodeEncoded(t % TWO_64, 8);
    hide ToLe, FromLe;
    LittleEndian(U16Bytes(p));
    LittleEndian(U32Bytes(v));
    LittleEndian(I64Bytes(t));
  }

  // ----- requests

  lemma {:induction false} KeyAt(keys: seq<PublicKey>, i: nat)
    requires i < |keys|
    ensures KeyBytes(keys)[32 * i..32 * (i + 1)] == keys[i]
  {
    var n := |keys| - 1;
    if i == n {
    } else {
      KeyAt(keys[..n], i);
      assert KeyBytes(keys)[..32 * n] == KeyBytes(keys[..n]);
    }
  }

  /** A request datagram: 1, the version 2, the time in milliseconds, the signature over time and content, the
      key; then 1, the session, the number of peers, and the peers' keys in order. */
  lemma {:induction false} RequestLayout(env: Env, key: SecretKey, q: Request, now: DateTime)
    requires Encodable(q)
    ensures var b := EncodeRequest(env, key, q, now);
            && |b| == 112 + 32 * |q.peers|
            && b[0] == 1 && b[1] == 2
            && b[2..10] == I64Bytes(Millis(now))
            && b[10..74] == env.sign(key, b[2..10] + b[106..])
            && b[74..106] == env.publicKey(key)
            && b[106] == 1 && Sum4(b[107..111]) == q.session && b[111] as int == |q.peers|
            && forall i :: 0 <= i < |q.peers| ==> b[112 + 32 * i..144 + 32 * i] == q.peers[i]
    ensures Millis(now) * 1_000_000 <= now < Millis(now) * 1_000_000 + 1_000_000
  {
    hide I64Bytes, U32Bytes, KeyBytes;
    var b, payload := EncodeRequest(env, key, q, now), EncodePayload(q);
    IntegersOnWire(0, q.session, 0);
    assert b[106..] == payload && b[2..10] == I64Bytes(Millis(now));
    assert b[107..111] == payload[1..5] == U32Bytes(q.session);
    assert b[112..] == payload[6..] == KeyBytes(q.peers);
    forall i | 0 <= i < |q.peers| ensures b[112 + 32 * i..144 + 32 * i] == q.peers[i] {
      KeyAt(q.peers, i);
      assert b[112 + 32 * i..144 + 32 * i] == b[112..][32 * i..32 * (i + 1)];
    }
  }

  /** The envelope is complete and of a known kind and date. */
  ghost predicate Enveloped(env: Env, b: seq<byte>)
  {
    |b| >= 106 && b[0] == 1 && b[1] == 2 && env.validMillis(BytesI64(b[2..10]))
  }

  /** And signed by its key. */
  ghost predicate Signed(env: Env, b: seq<byte>)
  {
    Enveloped(env, b) && env.validKey(b[74..106]) && env.verify(b[74..106], b[2..10] + b[106..], b[10..74])
  }

  /** Exactly which error a request datagram gets, by its bytes. */
  lemma {:induction false} RequestErrors(env: Env, b: seq<byte>)
    requires env.Sound()
    ensures forall ours, theirs :: ParseRequest(env, b) == Err(UnsupportedVersion(ours, theirs)) <==>
              |b| >= 3 && b[1] != 2 && ours == 2 && theirs == b[1]
    ensures forall id :: ParseRequest(env, b) == Err(InvalidMessageId(id)) <==>
              || (|b| >= 3 && b[1] == 2 && b[0] != 1 && id == b[0])
              || (Signed(env, b) && |b| > 106 && b[106] != 1 && id == b[106])
    ensures ParseRequest(env, b) == Err(InvalidTimestamp) <==>
              |b| >= 106 && b[0] == 1 && b[1] == 2 && !env.validMillis(BytesI64(b[2..10]))
    ensures ParseRequest(env, b) == Err(InvalidSignature) <==>
              Enveloped(env, b) && env.validKey(b[74..106])
              && !env.verify(b[74..106], b[2..10] + b[106..], b[10..74])
    ensures ParseRequest(env, b) == Err(TooShort) <==>
              |b| < 3 || (b[0] == 1 && b[1] == 2 && |b| < 106) || (Signed(env, b) && |b| == 106)
    ensures ParseRequest(env, b) == Err(InvalidContentFormat) <==>
              || (Enveloped(env, b) && !env.validKey(b[74..106]))
              || (Signed(env, b) && |b| > 106 && b[106] == 1
                  && (|b| < 112 || b[111] == 0 || b[111] > 10 || |b| < 112 + 32 * b[111] as int))
  {
    RawParsesIff(env, b);
    hide BytesI64, SignedText, SplitKeys, BytesU32;
    if |b| >= 106 {
      assert b[2..][..8] == b[2..10];
    }
  }

  // ----- server messages

  /** A notification: 1, the peer's key, its address, the session, and 1 for the listener or 0; a lost request:
      2, the peer's key and its address. */
  lemma {:induction false} ServerLayout(m: ServerMessage)
    ensures var b := EncodeServer(m);
            && |b| == (if m.InitiateConnection? then 44 else 39)
            && b[0] == (if m.InitiateConnection? then 1 else 2)
            && b[1..33] == m.peer
            && (b[33], b[34], b[35], b[36]) == m.address.ip && Sum2(b[37..39]) == m.address.port
            && (m.InitiateConnection? ==> Sum4(b[39..43]) == m.session && b[43] == if m.isListener then 1 else 0)
  {
    hide U16Bytes, U32Bytes, Sum2, Sum4;
    var b, tail := EncodeServer(m), AddrBytes(m.address);
    IntegersOnWire(m.address.port, if m.InitiateConnection? then m.session else 0, 0);
    assert b[33..39] == tail && tail[4..6] == U16Bytes(m.address.port);
    assert b[37..39] == b[33..39][4..6];
    assert forall i :: 0 <= i < 4 ==> b[33 + i] == b[33..39][i];
    if m.InitiateConnection? { assert b[39..43] == U32Bytes(m.session); }
  }

  /** Exactly which error a server datagram gets. */
  lemma {:induction false} ServerErrors(b: seq<byte>)
    ensures ParseServer(b) == Err(TooShort) <==>
              |b| == 0 || (b[0] == 1 && |b| < 44) || (b[0] == 2 && |b| < 39)
    ensures forall id :: ParseServer(b) == Err(InvalidMessageId(id)) <==>
              |b| > 0 && b[0] != 1 && b[0] != 2 && id == b[0]
    ensures ParseServer(b).Ok? <==> |b| > 0 && ((b[0] == 1 && |b| >= 44) || (b[0] == 2 && |b| >= 39))
  {
    hide BytesAddr, BytesU32;
  }
}
