/** The UDP datagrams between a client and the rendezvous server (src/udp/messages.rs).

    The calendar and the Ed25519 scheme (section 5.1 of RFC 8032) come from libraries; they are
    the function-valued fields of an `Env`, and `Sound` states the facts used about them.
 */
module Messages {
  import opened Bytes

  const PROTOCOL_VERSION: byte := 2

  /** An instant of the UTC clock, in nanoseconds since the Unix epoch. */
  type DateTime = int

  function Millis(t: DateTime): (ms: int) { t / 1_000_000 }
  function FromMillis(ms: int): (t: DateTime) { ms * 1_000_000 }

  type SecretKey = seq<byte>

  datatype Env = Env(
    validMillis: int -> bool,
    validKey: PublicKey -> bool,
    publicKey: SecretKey -> PublicKey,
    sign: (SecretKey, seq<byte>) -> Signature,
    verify: (PublicKey, seq<byte>, Signature) -> bool
  ) {
    /** Dates lie in the 64-bit millisecond range, and what a secret key signs verifies under its
        public key. */
    ghost predicate Sound() {
      && (forall ms :: validMillis(ms) ==> -TWO_63 <= ms < TWO_63)
      && (forall k :: validKey(publicKey(k)))
      && (forall k, text :: verify(publicKey(k), text, sign(k, text)))
    }
  }

  datatype ParseError =
    | InvalidMessageId(id: byte)
    | UnsupportedVersion(cur: byte, remote: byte)
    | TooShort
    | InvalidTimestamp
    | InvalidContentFormat
    | InvalidSignature

  datatype Result<+T> = Ok(value: T) | Err(error: ParseError) {
    predicate IsFailure() { Err? }
    function PropagateFailure<U>(): (r: Result<U>) requires Err? { Err(error) }
    function Extract(): (v: T) requires Ok? { value }
  }

  // ----- client to server: the signed envelope

  datatype RawMessage =
    SignedMessage(pubkey: PublicKey, timestamp: DateTime, payload: seq<byte>, signature: Signature)

  function ParseRaw(env: Env, bytes: seq<byte>): (r: Result<RawMessage>)
  {
    if |bytes| < 3 then Err(TooShort)
    else if bytes[1] != PROTOCOL_VERSION then Err(UnsupportedVersion(PROTOCOL_VERSION, bytes[1]))
    else if bytes[0] != 1 then Err(InvalidMessageId(bytes[0]))
    else
      var rest := bytes[2..];
      if |rest| < 8 + 64 + 32 then Err(TooShort)
      else
        var ms := BytesI64(rest[..8]);
        if !env.validMillis(ms) then Err(InvalidTimestamp)
        else
          var rest := rest[8..];
          var signature := rest[..64];
          var rest := rest[64..];
          Ok(SignedMessage(rest[..32], FromMillis(ms), rest[32..], signature))
  }

  function EncodeRaw(m: RawMessage): (b: seq<byte>)
  {
    [1, PROTOCOL_VERSION] + I64Bytes(Millis(m.timestamp)) + m.signature + m.pubkey + m.payload
  }

  // ----- client to server: the connection request inside the envelope

  datatype Request = ConnectionRequest(peers: seq<PublicKey>, session: u32)

  datatype Accepted = Accepted(request: Request, sender: PublicKey, timestamp: DateTime)

  function KeyBytes(keys: seq<PublicKey>): (b: seq<byte>)
    ensures |b| == 32 * |keys|
  {
    if keys == [] then [] else KeyBytes(keys[..|keys| - 1]) + keys[|keys| - 1]
  }

  function SplitKeys(b: seq<byte>, n: nat): (keys: seq<PublicKey>)
    requires |b| >= 32 * n
    ensures |keys| == n
  {
    if n == 0 then [] else SplitKeys(b, n - 1) + [b[32 * (n - 1)..32 * n]]
  }

  function ParsePayload(payload: seq<byte>): (r: Result<Request>)
  {
    if |payload| == 0 then Err(TooShort)
    else if payload[0] != 1 then Err(InvalidMessageId(payload[0]))
    else
      var rest := payload[1..];
      if |rest| < 4 + 1 then Err(InvalidContentFormat)
      else
        var session := BytesU32(rest[..4]);
        var n := rest[4] as int;
        if n > 10 || n == 0 then Err(InvalidContentFormat)
        else
          var rest := rest[5..];
          if |rest| < 32 * n then Err(InvalidContentFormat)
          else Ok(ConnectionRequest(SplitKeys(rest, n), session))
  }

  function SignedText(timestamp: DateTime, payload: seq<byte>): (text: seq<byte>)
  {
    I64Bytes(Millis(timestamp)) + payload
  }

  /** What the server makes of a datagram: the request, who signed it and when, or why not. */
  function ParseRequest(env: Env, bytes: seq<byte>): (r: Result<Accepted>)
  {
    var raw :- ParseRaw(env, bytes);
    if !env.validKey(raw.pubkey) then Err(InvalidContentFormat)
    else if !env.verify(raw.pubkey, SignedText(raw.timestamp, raw.payload), raw.signature) then Err(InvalidSignature)
    else
      var request :- ParsePayload(raw.payload);
      Ok(Accepted(request, raw.pubkey, raw.timestamp))
  }

  /** The encoder's own limit; beyond it the source panics. */
  predicate Encodable(request: Request) { 1 <= |request.peers| <= 10 }

  function EncodePayload(request: Request): (b: seq<byte>)
    requires Encodable(request)
    ensures |b| == 6 + 32 * |request.peers|
  {
    [1] + U32Bytes(request.session) + [|request.peers| as byte] + KeyBytes(request.peers)
  }

  function EncodeRequest(env: Env, key: SecretKey, request: Request, now: DateTime): (b: seq<byte>)
    requires Encodable(request)
  {
    var payload := EncodePayload(request);
    EncodeRaw(SignedMessage(env.publicKey(key), now, payload, env.sign(key, SignedText(now, payload))))
  }

  /** The receiving loop: reads the keys one after the other while advancing through the payload. */
  method TryParse(env: Env, bytes: seq<byte>) returns (r: Result<Accepted>)
    ensures r == ParseRequest(env, bytes)
  {
    var raw :- ParseRaw(env, bytes);
    if !env.validKey(raw.pubkey) { return Err(InvalidContentFormat); }
    var text := I64Bytes(Millis(raw.timestamp));
    text := text + raw.payload;
    if !env.verify(raw.pubkey, text, raw.signature) { return Err(InvalidSignature); }

    if |raw.payload| == 0 { return Err(TooShort); }
    if raw.payload[0] != 1 { return Err(InvalidMessageId(raw.payload[0])); }
    var payload := raw.payload[1..];
    if |payload| < 4 + 1 { return Err(InvalidContentFormat); }
    var session := BytesU32(payload[..4]);
    var n := payload[4] as int;
    if n > 10 || n == 0 { return Err(InvalidContentFormat); }
    payload := payload[5..];
    if |payload| < 32 * n { return Err(InvalidContentFormat); }

    ghost var all := payload;
    var peers: seq<PublicKey> := [];
    for i := 0 to n
      invariant |all| >= 32 * n
      invariant payload == all[32 * i..]
      invariant peers == SplitKeys(all, i)
    {
      assert payload[..32] == all[32 * i..32 * (i + 1)];
      peers := peers + [payload[..32]];
      payload := payload[32..];
    }
    r := Ok(Accepted(ConnectionRequest(peers, session), raw.pubkey, raw.timestamp));
  }

  /** The sending side: grows the payload key by key, signs it and wraps it. */
  method ToBytes(env: Env, key: SecretKey, request: Request, now: DateTime) returns (b: seq<byte>)
    requires Encodable(request)
    ensures b == EncodeRequest(env, key, request, now)
    ensures |b| == 112 + 32 * |request.peers| <= 432
  {
    var payload := [1 as byte];
    payload := payload + U32Bytes(request.session);
    payload := payload + [|request.peers| as byte];
    ghost var head := payload;
    for i := 0 to |request.peers|
      invariant payload == head + KeyBytes(request.peers[..i])
    {
      assert request.peers[..i + 1][..i] == request.peers[..i];
      payload := payload + request.peers[i];
    }
    assert request.peers[..|request.peers|] == request.peers;
    var text := I64Bytes(Millis(now)) + payload;
    b := EncodeRaw(SignedMessage(env.publicKey(key), now, payload, env.sign(key, text)));
  }

  // ----- what the signed codec guarantees

  lemma {:induction false} KeysRoundTrip(keys: seq<PublicKey>, tail: seq<byte>)
    ensures SplitKeys(KeyBytes(keys) + tail, |keys|) == keys
  {
    if keys == [] {
    } else {
      var n := |keys| - 1;
      var b := KeyBytes(keys) + tail;
      KeysRoundTrip(keys[..n], keys[n] + tail);
      assert b == KeyBytes(keys[..n]) + (keys[n] + tail);
      assert b[32 * n..32 * (n + 1)] == keys[n];
      assert keys == keys[..n] + [keys[n]];
    }
  }

  lemma {:induction false} BytesRoundTrip(b: seq<byte>, n: nat)
    requires |b| >= 32 * n
    ensures KeyBytes(SplitKeys(b, n)) == b[..32 * n]
  {
    if n == 0 {
    } else {
      var keys := SplitKeys(b, n);
      BytesRoundTrip(b, n - 1);
      assert keys[..n - 1] == SplitKeys(b, n - 1);
      assert b[..32 * n] == b[..32 * (n - 1)] + b[32 * (n - 1)..32 * n];
    }
  }

  lemma {:induction false} EncodedPayloadParses(request: Request, tail: seq<byte>)
    requires Encodable(request)
    ensures ParsePayload(EncodePayload(request) + tail) == Ok(request)
  {
    hide U32Bytes, BytesU32, KeyBytes, SplitKeys;
    var payload := EncodePayload(request) + tail;
    assert payload[1..][..4] == U32Bytes(request.session);
    U32RoundTrip(request.session, payload[1..][..4]);
    assert payload[1..][5..] == KeyBytes(request.peers) + tail;
    KeysRoundTrip(request.peers, tail);
  }

  lemma {:induction false} ParsedPayloadEncodes(payload: seq<byte>)
    requires ParsePayload(payload).Ok?
    ensures Encodable(ParsePayload(payload).value)
    ensures EncodePayload(ParsePayload(payload).value) <= payload
  {
    hide U32Bytes, BytesU32, KeyBytes, SplitKeys;
    var request := ParsePayload(payload).value;
    var n, rest := payload[1..][4] as int, payload[1..][5..];
    U32RoundTrip(request.session, payload[1..][..4]);
    BytesRoundTrip(rest, n);
    assert payload[..6 + 32 * n] == [1] + payload[1..][..4] + [payload[1..][4]] + rest[..32 * n];
  }

  /** A payload parses to a request exactly when it starts with that request's encoding; whatever
      follows is ignored. */
  lemma {:induction false} PayloadParsesIff(payload: seq<byte>, request: Request)
    ensures ParsePayload(payload) == Ok(request) <==> Encodable(request) && EncodePayload(request) <= payload
  {
    hide ParsePayload, EncodePayload;
    if Encodable(request) && EncodePayload(request) <= payload {
      var head := EncodePayload(request);
      assert payload == head + payload[|head|..];
      EncodedPayloadParses(request, payload[|head|..]);
    }
    if ParsePayload(payload) == Ok(request) {
      ParsedPayloadEncodes(payload);
    }
  }

  /** The layout of an accepted datagram, in terms of the datagram's own bytes. */
  ghost predicate WellFormed(env: Env, b: seq<byte>, a: Accepted)
  {
    && Encodable(a.request)
    && |b| >= 106 + |EncodePayload(a.request)|
    && b[..2] == [1, PROTOCOL_VERSION]
    && env.validMillis(BytesI64(b[2..10]))
    && a.timestamp == FromMillis(BytesI64(b[2..10]))
    && a.sender == b[74..106]
    && env.validKey(a.sender)
    && env.verify(a.sender, b[2..10] + b[106..], b[10..74])
    && EncodePayload(a.request) <= b[106..]
  }

  lemma {:induction false} RawParsesIff(env: Env, b: seq<byte>)
    requires env.Sound()
    ensures ParseRaw(env, b).Ok? <==>
            |b| >= 106 && b[0] == 1 && b[1] == PROTOCOL_VERSION && env.validMillis(BytesI64(b[2..10]))
    ensures ParseRaw(env, b).Ok? ==>
            var m := ParseRaw(env, b).value;
            && m == SignedMessage(b[74..106], FromMillis(BytesI64(b[2..10])), b[106..], b[10..74])
            && SignedText(m.timestamp, m.payload) == b[2..10] + b[106..]
  {
    if |b| >= 106 {
      assert b[2..][..8] == b[2..10];
      assert b[2..][8..][..64] == b[10..74];
      assert b[2..][8..][64..][..32] == b[74..106];
      assert b[2..][8..][64..][32..] == b[106..];
      I64RoundTrip(0, b[2..10]);
      assert Millis(FromMillis(BytesI64(b[2..10]))) == BytesI64(b[2..10]);
    }
  }

  /** The server accepts a datagram as `a` exactly when it has the layout above. In particular the
      verified text is the datagram's timestamp bytes followed by its payload bytes. */
  lemma {:induction false} RequestParsesIff(env: Env, b: seq<byte>, a: Accepted)
    requires env.Sound()
    ensures ParseRequest(env, b) == Ok(a) <==> WellFormed(env, b, a)
  {
    RawParsesIff(env, b);
    if |b| >= 106 {
      PayloadParsesIff(b[106..], a.request);
      assert b[..2] == [b[0], b[1]];
      assert b[..2] == [1, PROTOCOL_VERSION] <==> b[0] == 1 && b[1] == PROTOCOL_VERSION;
    }
  }

  /** Encoding then parsing returns the request, the signer's key and the timestamp cut down to
      whole milliseconds; a request of n peers takes 112 + 32n bytes, at most 432. */
  lemma {:induction false} RequestRoundTrip(env: Env, key: SecretKey, request: Request, now: DateTime)
    requires env.Sound() && Encodable(request) && env.validMillis(Millis(now))
    ensures ParseRequest(env, EncodeRequest(env, key, request, now))
         == Ok(Accepted(request, env.publicKey(key), FromMillis(Millis(now))))
    ensures |EncodeRequest(env, key, request, now)| == 112 + 32 * |request.peers| <= 432
  {
    var payload := EncodePayload(request);
    var stamp := I64Bytes(Millis(now));
    var b := EncodeRequest(env, key, request, now);
    I64RoundTrip(Millis(now), stamp);
    assert b[2..10] == stamp;
    assert b[10..74] == env.sign(key, SignedText(now, payload));
    assert b[74..106] == env.publicKey(key);
    assert b[106..] == payload;
    RequestParsesIff(env, b, Accepted(request, env.publicKey(key), FromMillis(Millis(now))));
  }

  // ----- server to client

  datatype ServerMessage =
    | InitiateConnection(peer: PublicKey, address: Addr, session: u32, isListener: bool)
    | LostConnection(peer: PublicKey, address: Addr)

  function AddrBytes(a: Addr): (b: seq<byte>)
    ensures |b| == 6
  {
    [a.ip.0, a.ip.1, a.ip.2, a.ip.3] + U16Bytes(a.port)
  }

  function BytesAddr(b: seq<byte>): (a: Addr)
    requires |b| == 6
  {
    Addr((b[0], b[1], b[2], b[3]), BytesU16(b[4..6]))
  }

  function ParseServer(bytes: seq<byte>): (r: Result<ServerMessage>)
  {
    if |bytes| == 0 then Err(TooShort)
    else
      var rest := bytes[1..];
      if bytes[0] == 1 then
        if |rest| < 32 + 4 + 2 + 4 + 1 then Err(TooShort)
        else
          var key := rest[..32];
          var rest := rest[32..];
          var addr := BytesAddr(rest[..6]);
          var rest := rest[6..];
          Ok(InitiateConnection(key, addr, BytesU32(rest[..4]), rest[4] == 1))
      else if bytes[0] == 2 then
        if |rest| < 32 + 4 + 2 then Err(TooShort)
        else Ok(LostConnection(rest[..32], BytesAddr(rest[32..][..6])))
      else Err(InvalidMessageId(bytes[0]))
  }

  function EncodeServer(m: ServerMessage): (b: seq<byte>)
    ensures |b| == if m.InitiateConnection? then 44 else 39
  {
    match m
    case InitiateConnection(peer, address, session, isListener) =>
      [1] + peer + AddrBytes(address) + U32Bytes(session) + [if isListener then 1 else 0]
    case LostConnection(peer, address) =>
      [2] + peer + AddrBytes(address)
  }

  lemma {:induction false} AddrRoundTrip(a: Addr, b: seq<byte>)
    requires |b| == 6
    ensures BytesAddr(AddrBytes(a)) == a
    ensures AddrBytes(BytesAddr(b)) == b
  {
    U16RoundTrip(a.port, b[4..6]);
    assert AddrBytes(a)[4..6] == U16Bytes(a.port);
    assert b == [b[0], b[1], b[2], b[3]] + b[4..6];
  }

  /** The datagram with its listener byte, if it has one, replaced by 1 when it is 1 and 0 otherwise. */
  ghost function Normal(b: seq<byte>): (r: seq<byte>)
  {
    if |b| >= 44 && b[0] == 1 && b[43] != 1 then b[43 := 0] else b
  }

  /** The fields of a server message by their place in the datagram. */
  lemma {:induction false} ServerFields(b: seq<byte>)
    requires |b| >= 39
    ensures b[1..][..32] == b[1..33] == Normal(b)[1..33]
    ensures b[1..][32..][..6] == b[33..39] == Normal(b)[33..39]
    ensures |b| >= 44 ==> b[1..][32..][6..][..4] == b[39..43] == Normal(b)[39..43] && b[1..][32..][6..][4] == b[43]
    ensures Normal(b)[..39] == [b[0]] + b[1..33] + b[33..39]
    ensures |b| >= 44 ==> Normal(b)[..44] == [b[0]] + b[1..33] + b[33..39] + b[39..43] + [Normal(b)[43]]
  {
  }

  lemma {:induction false} PrefixParses(b: seq<byte>, m: ServerMessage)
    requires EncodeServer(m) <= Normal(b)
    ensures ParseServer(b) == Ok(m)
  {
    var e := EncodeServer(m);
    ServerFields(b);
    AddrRoundTrip(m.address, AddrBytes(m.address));
    hide AddrBytes, BytesAddr, U32Bytes, BytesU32;
    assert e[1..33] == m.peer && e[33..39] == AddrBytes(m.address);
    assert Normal(b)[1..33] == e[1..33] && Normal(b)[33..39] == e[33..39];
    assert Normal(b)[0] == e[0];
    if m.InitiateConnection? {
      U32RoundTrip(m.session, e[39..43]);
      assert e[39..43] == U32Bytes(m.session);
      assert Normal(b)[39..43] == e[39..43] && Normal(b)[43] == e[43];
    }
  }

  lemma {:induction false} ParsedIsPrefix(b: seq<byte>, m: ServerMessage)
    requires ParseServer(b) == Ok(m)
    ensures EncodeServer(m) <= Normal(b)
  {
    ServerFields(b);
    AddrRoundTrip(m.address, b[33..39]);
    if m.InitiateConnection? { U32RoundTrip(m.session, b[39..43]); }
    hide AddrBytes, BytesAddr, U32Bytes, BytesU32;
    if m.InitiateConnection? {
      assert EncodeServer(m) == Normal(b)[..44];
    } else {
      assert EncodeServer(m) == Normal(b)[..39];
    }
  }

  /** A datagram parses to `m` exactly when, listener byte aside, it starts with `m`'s encoding. */
  lemma {:induction false} ServerParsesIff(b: seq<byte>, m: ServerMessage)
    ensures ParseServer(b) == Ok(m) <==> EncodeServer(m) <= Normal(b)
  {
    hide ParseServer, EncodeServer, Normal;
    if EncodeServer(m) <= Normal(b) { PrefixParses(b, m); }
    if ParseServer(b) == Ok(m) { ParsedIsPrefix(b, m); }
  }

  /** Server messages survive the wire, and parsing a datagram with any trailing bytes, re-encoding
      and parsing again changes nothing. */
  lemma {:induction false} ServerRoundTrip(m: ServerMessage, b: seq<byte>)
    ensures ParseServer(EncodeServer(m)) == Ok(m)
    ensures ParseServer(b).Ok? ==>
              EncodeServer(ParseServer(b).value) <= Normal(b)
              && ParseServer(EncodeServer(ParseServer(b).value)) == ParseServer(b)
  {
    assert Normal(EncodeServer(m)) == EncodeServer(m);
    ServerParsesIff(EncodeServer(m), m);
    if ParseServer(b).Ok? {
      var n := ParseServer(b).value;
      ServerParsesIff(b, n);
      assert Normal(EncodeServer(n)) == EncodeServer(n);
      ServerParsesIff(EncodeServer(n), n);
    }
  }
}
