/** Wrapped packets, byte for byte (protocol.c): the buffer create_arg_packet fills and
    process_arg_packet takes apart. AES-256-CTR and HMAC-SHA256 are parameters: the byte of the
    key stream at a position, and the code of a byte string. */
module Wrapping {
  import opened GateNetwork
  import opened Octets
  import opened Options
  import opened Protocol
  import opened ProtocolSpec
  import opened Timing
  import Chains

  const IP_HDR_LEN: nat := 20
  const ARG_HDR_LEN: nat := 136
  const SIG_AT: nat := 28             // of the signature, in the packet
  const DATA_AT: nat := 156           // of the encrypted packet
  const RSA_SIG_SIZE: nat := 128
  const HASH_SIZE: nat := 32          // of SHA-256
  const ARG_PROTO: Byte := 253

  type Mac = s: Bytes | |s| == HASH_SIZE witness Zeros(HASH_SIZE)
  type KeyStream = (SymKey, Block, nat) -> Byte
  type MacFn = (SymKey, Bytes) -> Mac
  type Ipv4 = s: Bytes | |s| == 4 witness Zeros(4)

  // The cipher

  /** The whole message against the key stream. */
  function Crypt(ks: KeyStream, key: SymKey, nonce: Block, data: Bytes): (r: Bytes)
    ensures |r| == |data| && forall i :: 0 <= i < |data| ==> r[i] == Xor(data[i], ks(key, nonce, i))
  {
    CryptFrom(ks, key, nonce, data, 0)
  }

  function CryptFrom(ks: KeyStream, key: SymKey, nonce: Block, data: Bytes, pos: nat): (r: Bytes)
    ensures |r| == |data| && forall i :: 0 <= i < |data| ==> r[i] == Xor(data[i], ks(key, nonce, pos + i))
  {
    if data == [] then [] else [Xor(data[0], ks(key, nonce, pos))] + CryptFrom(ks, key, nonce, data[1..], pos + 1)
  }

  lemma CryptTwice(ks: KeyStream, key: SymKey, nonce: Block, data: Bytes)
    ensures Crypt(ks, key, nonce, Crypt(ks, key, nonce, data)) == data
  {
    hide Xor, CryptFrom;
    forall i | 0 <= i < |data|
      ensures Xor(Xor(data[i], ks(key, nonce, i)), ks(key, nonce, i)) == data[i]
    {
      XorTwice(data[i], ks(key, nonce, i));
    }
  }

  /** The IV with its first four bytes changed by those of the sequence number as it stands in
      the packet. */
  function Nonce(iv: Block, seqBytes: Bytes): (r: Block)
    requires |seqBytes| == 4
  {
    seq(AES_BLOCK_SIZE, i requires 0 <= i < AES_BLOCK_SIZE => if i < 4 then Xor(iv[i], seqBytes[i]) else iv[i])
  }

  /** The library's cipher context: a key stream and a position in it. */
  class Cipher {
    const ks: KeyStream
    const key: SymKey
    var nonce: Block
    var pos: nat

    constructor (ks: KeyStream, key: SymKey)
      ensures this.ks == ks && this.key == key
    {
      this.ks, this.key, nonce, pos := ks, key, Zeros(AES_BLOCK_SIZE), 0;
    }

    method Reset(nonce: Block)
      modifies this
      ensures this.nonce == nonce && pos == 0
    {
      this.nonce, pos := nonce, 0;
    }

    method Update(input: Bytes) returns (output: Bytes)
      modifies this
      ensures nonce == old(nonce) && pos == old(pos) + |input|
      ensures |output| == |input| && forall i :: 0 <= i < |input| ==>
          output[i] == Xor(input[i], ks(key, nonce, old(pos) + i))
    {
      hide Xor;
      output := CryptFrom(ks, key, nonce, input, pos);
      pos := pos + |input|;
    }
  }

  /** s with bytes written over it at a position. */
  function Splice(s: Bytes, at: nat, bytes: Bytes): (r: Bytes)
    requires at + |bytes| <= |s|
    ensures |r| == |s|
  {
    s[..at] + bytes + s[at + |bytes|..]
  }

  method Store(d: array<Byte>, at: nat, bytes: Bytes)
    requires at + |bytes| <= d.Length
    modifies d
    ensures d[..] == Splice(old(d[..]), at, bytes)
  {
    forall i | 0 <= i < |bytes| {
      d[at + i] := bytes[i];
    }
  }

  /** The nonce loop. */
  method MakeNonce(iv: Block, seqBytes: Bytes) returns (nonce: Block)
    requires |seqBytes| == 4
    ensures nonce == Nonce(iv, seqBytes)
  {
    hide Xor;
    var d := new Byte[AES_BLOCK_SIZE](i requires 0 <= i < AES_BLOCK_SIZE => iv[i]);
    for i := 0 to 4
      invariant forall k :: 0 <= k < AES_BLOCK_SIZE ==> d[k] == if k < i then Xor(iv[k], seqBytes[k]) else iv[k]
    {
      d[i] := Xor(d[i], seqBytes[i]);
    }
    nonce := d[..];
  }

  /** One round of the loop: at most a block of the data. */
  method CryptBlock(cipher: Cipher, data: Bytes, d: array<Byte>, at: nat, i: nat, ghost before: Bytes)
    returns (ilen: nat)
    requires cipher.pos == i < |data| && at + |data| <= d.Length == |before|
    requires d[..] == Splice(before, at, Crypt(cipher.ks, cipher.key, cipher.nonce, data)[..i])
    modifies cipher, d
    ensures ilen == Chains.Min(|data| - i, AES_BLOCK_SIZE)
    ensures cipher.pos == i + ilen && cipher.nonce == old(cipher.nonce)
    ensures d[..] == Splice(before, at, Crypt(cipher.ks, cipher.key, cipher.nonce, data)[..i + ilen])
  {
    hide Xor, Crypt, CryptFrom, Splice;
    ghost var all := Crypt(cipher.ks, cipher.key, cipher.nonce, data);
    ilen := |data| - i;
    if ilen > AES_BLOCK_SIZE {
      ilen := AES_BLOCK_SIZE;
    }
    var out := cipher.Update(data[i..i + ilen]);
    assert out == all[i..i + ilen];
    Store(d, at + i, out);
    SpliceNext(before, at, all, i, ilen);
  }

  /** The loop that feeds the cipher a block at a time: encryption and decryption alike. */
  method CryptBlocks(cipher: Cipher, data: Bytes, d: array<Byte>, at: nat) returns (total: nat)
    requires cipher.pos == 0 && at + |data| <= d.Length
    modifies cipher, d
    ensures total == |data|
    ensures d[..] == Splice(old(d[..]), at, Crypt(cipher.ks, cipher.key, old(cipher.nonce), data))
  {
    ghost var before, nonce := d[..], cipher.nonce;
    ghost var all := Crypt(cipher.ks, cipher.key, nonce, data);
    assert Splice(before, at, all[..0]) == before;
    hide Crypt, Splice;
    total := 0;
    var i := 0;
    while i < |data|
      invariant i >= 0 && total == cipher.pos == Chains.Min(i, |data|) && cipher.nonce == nonce
      invariant d[..] == Splice(before, at, all[..total])
    {
      var ilen := CryptBlock(cipher, data, d, at, i, before);
      total := total + ilen;
      i := i + AES_BLOCK_SIZE;
    }
    assert all[..total] == all;
  }

  lemma SpliceNext(s: Bytes, at: nat, all: Bytes, i: nat, n: nat)
    requires i + n <= |all| && at + |all| <= |s|
    ensures Splice(Splice(s, at, all[..i]), at + i, all[i..i + n]) == Splice(s, at, all[..i + n])
  {
    assert all[..i + n] == all[..i] + all[i..i + n];
  }

  // The packet

  function IpHeader(totLen: nat, src: Ipv4, dst: Ipv4): (h: Bytes)
    requires totLen < 0x1_0000
    ensures |h| == IP_HDR_LEN
  {
    [0x45, 0] + Short(totLen) + [0, 0, 0, 0, 32, ARG_PROTO, 0, 0] + src + dst
  }

  /** version, type (ARG_WRAPPED_MSG is 0), length, sequence number, signature. */
  function ArgHeader(len: nat, seqNum: Uint32, sig: Bytes): (h: Bytes)
    requires len < 0x1_0000 && |sig| == RSA_SIG_SIZE
    ensures |h| == ARG_HDR_LEN
  {
    [1, 0] + Short(len) + Long(seqNum) + sig
  }

  /** The 16-bit size computation of the buffer leaves room for the packet. */
  predicate Fits(len: nat) {
    IP_HDR_LEN + ARG_HDR_LEN + len + RSA_SIG_SIZE < 0x1_0000
  }

  /** The buffer, whose size is computed in 16 bits, holds the packet exactly for the lengths
      that fit. */
  lemma BufferHoldsIff(len: nat)
    requires len < 0x1_0000
    ensures DATA_AT + len <= (DATA_AT + len + RSA_SIG_SIZE) % 0x1_0000 <==> Fits(len)
  {
  }

  /** A gate's message authentication code, in a signature field that is zero beyond it. */
  function Signature(mac: MacFn, key: SymKey, unsigned: Bytes): (s: Bytes)
    ensures |s| == RSA_SIG_SIZE
  {
    mac(key, unsigned) + Zeros(RSA_SIG_SIZE - HASH_SIZE)
  }

  /** What leaves for a remote with these keys: encrypted for it, authenticated by us. */
  function WrappedPacket(ks: KeyStream, mac: MacFn, own: Keys, remote: Keys, seqNum: Uint32, src: Ipv4, dst: Ipv4,
                         msg: Bytes): (p: Bytes)
    requires Fits(|msg|)
    ensures |p| == DATA_AT + |msg|
  {
    var data := Crypt(ks, remote.symKey, Nonce(remote.iv, Long(seqNum)), msg);
    var len := ARG_HDR_LEN + |msg|;
    var sig := Signature(mac, own.symKey, ArgHeader(len, seqNum, Zeros(RSA_SIG_SIZE)) + data);
    IpHeader(IP_HDR_LEN + len, src, dst) + ArgHeader(len, seqNum, sig) + data
  }

  lemma SpliceMiddle(a: Bytes, b: Bytes, c: Bytes, b': Bytes)
    requires |b| == |b'|
    ensures Splice(a + b + c, |a|, b') == a + b' + c
  {
  }

  /** The buffer once the two headers are begun: no lengths, no signature, no data. */
  lemma HeadersAt(d0: Bytes, src: Ipv4, dst: Ipv4, seqNum: Uint32)
    requires |d0| >= DATA_AT && d0 == Zeros(|d0|)
    ensures Splice(Splice(Splice(d0, 0, IpHeader(IP_HDR_LEN, src, dst)), IP_HDR_LEN, [1, 0]),
                   IP_HDR_LEN + 4, Long(seqNum))
            == IpHeader(IP_HDR_LEN, src, dst) + [1, 0] + [0, 0] + Long(seqNum) + Zeros(|d0| - SIG_AT)
  {
    hide Long, IpHeader;
    var ip, q := IpHeader(IP_HDR_LEN, src, dst), Long(seqNum);
    var n := |d0| - SIG_AT;
    assert d0 == [] + Zeros(20) + Zeros(|d0| - 20);
    SpliceMiddle([], Zeros(20), Zeros(|d0| - 20), ip);
    assert [] + ip + Zeros(|d0| - 20) == ip + [0, 0] + ([0, 0] + Zeros(4) + Zeros(n));
    SpliceMiddle(ip, [0, 0], [0, 0] + Zeros(4) + Zeros(n), [1, 0]);
    assert ip + [1, 0] + ([0, 0] + Zeros(4) + Zeros(n)) == (ip + [1, 0] + [0, 0]) + Zeros(4) + Zeros(n);
    SpliceMiddle(ip + [1, 0] + [0, 0], Zeros(4), Zeros(n), q);
  }

  /** The buffer once data and lengths are in. */
  lemma LengthsAt(d1: Bytes, src: Ipv4, dst: Ipv4, seqNum: Uint32, data: Bytes)
    requires Fits(|data|) && |d1| >= DATA_AT + |data|
    requires d1 == IpHeader(IP_HDR_LEN, src, dst) + [1, 0] + [0, 0] + Long(seqNum) + Zeros(|d1| - SIG_AT)
    ensures var len := ARG_HDR_LEN + |data|;
      Splice(Splice(Splice(d1, DATA_AT, data), IP_HDR_LEN + 2, Short(len)),
             2, Short(IP_HDR_LEN + len))[..IP_HDR_LEN + len]
      == IpHeader(IP_HDR_LEN + len, src, dst) + ArgHeader(len, seqNum, Zeros(RSA_SIG_SIZE)) + data
  {
    hide Long, Short, IpHeader;
    var ip, q, len, n := IpHeader(IP_HDR_LEN, src, dst), Long(seqNum), ARG_HDR_LEN + |data|, |data|;
    var sig, rest := Zeros(RSA_SIG_SIZE), Zeros(|d1| - DATA_AT - |data|);
    var d2 := ip + [1, 0] + [0, 0] + q + sig + data + rest;
    assert d1 == (ip + [1, 0] + [0, 0] + q + sig) + Zeros(n) + rest;
    SpliceMiddle(ip + [1, 0] + [0, 0] + q + sig, Zeros(n), rest, data);
    assert d2 == (ip + [1, 0]) + [0, 0] + (q + sig + data + rest);
    SpliceMiddle(ip + [1, 0], [0, 0], q + sig + data + rest, Short(len));
    var tail := [1, 0] + Short(len) + q + sig + data + rest;
    assert ip + [1, 0] + Short(len) + (q + sig + data + rest) == ip + tail;
    TotalLength(src, dst, tail, IP_HDR_LEN + len);
    assert ArgHeader(len, seqNum, sig) + data + rest == tail;
  }

  lemma TotalLength(src: Ipv4, dst: Ipv4, tail: Bytes, totLen: nat)
    requires totLen < 0x1_0000
    ensures Splice(IpHeader(IP_HDR_LEN, src, dst) + tail, 2, Short(totLen)) == IpHeader(totLen, src, dst) + tail
  {
    hide Short;
    var rest := [0, 0, 0, 0, 32, ARG_PROTO, 0, 0] + src + dst;
    assert IpHeader(IP_HDR_LEN, src, dst) + tail == [0x45, 0] + Short(IP_HDR_LEN) + (rest + tail);
    SpliceMiddle([0x45, 0], Short(IP_HDR_LEN), rest + tail, Short(totLen));
    assert IpHeader(totLen, src, dst) + tail == [0x45, 0] + Short(totLen) + (rest + tail);
  }

  /** The buffer once the authentication code is in. */
  lemma SignatureAt(d: Bytes, len: nat, ip: Bytes, seqNum: Uint32, code: Mac, data: Bytes)
    requires Fits(|data|) && |ip| == IP_HDR_LEN && len == DATA_AT + |data| <= |d|
    requires d[..len] == ip + ArgHeader(ARG_HDR_LEN + |data|, seqNum, Zeros(RSA_SIG_SIZE)) + data
    ensures Splice(d, SIG_AT, code)[..len]
            == ip + ArgHeader(ARG_HDR_LEN + |data|, seqNum, code + Zeros(RSA_SIG_SIZE - HASH_SIZE)) + data
  {
    hide Short, Long;
    var front := ip + ([1, 0] + Short(ARG_HDR_LEN + |data|) + Long(seqNum));
    var pad := Zeros(RSA_SIG_SIZE - HASH_SIZE);
    assert Zeros(RSA_SIG_SIZE) == Zeros(HASH_SIZE) + pad;
    assert d == front + Zeros(HASH_SIZE) + (pad + data + d[len..]) by {
      assert d == d[..len] + d[len..];
      assert d[..len] == front + Zeros(HASH_SIZE) + (pad + data);
    }
    SpliceMiddle(front, Zeros(HASH_SIZE), pad + data + d[len..], code);
    assert front + code + (pad + data + d[len..]) == (front + code + (pad + data)) + d[len..];
    assert ip + ArgHeader(ARG_HDR_LEN + |data|, seqNum, code + pad) + data == front + code + (pad + data);
  }

  /** The buffer with the parts of the headers that are known from the start. */
  method BeginPacket(fullLen: nat, seqNum: Uint32, src: Ipv4, dst: Ipv4) returns (d: array<Byte>)
    requires fullLen >= DATA_AT
    ensures fresh(d) && d.Length == fullLen
    ensures d[..] == IpHeader(IP_HDR_LEN, src, dst) + [1, 0] + [0, 0] + Long(seqNum) + Zeros(fullLen - SIG_AT)
  {
    hide IpHeader, Long;
    d := new Byte[fullLen](_ => 0);
    assert d[..] == Zeros(fullLen);
    HeadersAt(d[..], src, dst, seqNum);
    Store(d, 0, IpHeader(IP_HDR_LEN, src, dst));
    Store(d, IP_HDR_LEN, [1, 0]);
    Store(d, IP_HDR_LEN + 4, Long(seqNum));
  }

  /** Data encrypted into the buffer, and the lengths that follow from it. */
  method FillPacket(ks: KeyStream, remote: Keys, d: array<Byte>, seqNum: Uint32, src: Ipv4, dst: Ipv4, msg: Bytes)
    returns (len: nat)
    requires Fits(|msg|) && d.Length >= DATA_AT + |msg|
    requires d[..] == IpHeader(IP_HDR_LEN, src, dst) + [1, 0] + [0, 0] + Long(seqNum) + Zeros(d.Length - SIG_AT)
    modifies d
    ensures len == DATA_AT + |msg|
    ensures var data := Crypt(ks, remote.symKey, Nonce(remote.iv, Long(seqNum)), msg);
      d[..len] == IpHeader(len, src, dst) + ArgHeader(ARG_HDR_LEN + |msg|, seqNum, Zeros(RSA_SIG_SIZE)) + data
  {
    hide IpHeader, Long, Crypt, Nonce, ArgHeader, Short, Splice;
    ghost var d1 := d[..];
    var cipher := new Cipher(ks, remote.symKey);
    var nonce := MakeNonce(remote.iv, Long(seqNum));
    cipher.Reset(nonce);
    var total := CryptBlocks(cipher, msg, d, DATA_AT);
    Store(d, IP_HDR_LEN + 2, Short(ARG_HDR_LEN + total));
    len := IP_HDR_LEN + ARG_HDR_LEN + total;
    Store(d, 2, Short(len));
    LengthsAt(d1, src, dst, seqNum, Crypt(ks, remote.symKey, nonce, msg));
  }

  /** create_arg_packet for a wrapped message to a connected remote. None stands for writing
      beyond the buffer, which happens exactly when the payload does not fit. */
  method CreateWrapped(ks: KeyStream, mac: MacFn, own: Keys, remote: Keys, seqNum: Uint32, src: Ipv4, dst: Ipv4,
                       msg: Bytes)
    returns (p: Option<Bytes>)
    requires |msg| < 0x1_0000
    ensures p == if Fits(|msg|) then Some(WrappedPacket(ks, mac, own, remote, seqNum, src, dst, msg)) else None
  {
    BufferHoldsIff(|msg|);
    hide IpHeader, Long, Crypt, Nonce, ArgHeader, WrappedPacket;
    var fullLen := (IP_HDR_LEN + ARG_HDR_LEN + |msg| + RSA_SIG_SIZE) % 0x1_0000;
    if fullLen < DATA_AT + |msg| {
      return None;
    }
    var d := BeginPacket(fullLen, seqNum, src, dst);
    var len := FillPacket(ks, remote, d, seqNum, src, dst, msg);
    SignPacket(ks, mac, own, remote, d, len, seqNum, src, dst, msg);
    p := Some(d[..len]);
  }

  /** The code over the packet so far, into its signature field. */
  method SignPacket(ks: KeyStream, mac: MacFn, own: Keys, remote: Keys, d: array<Byte>, len: nat, seqNum: Uint32,
                    src: Ipv4, dst: Ipv4, msg: Bytes)
    requires Fits(|msg|) && len == DATA_AT + |msg| <= d.Length
    requires var data := Crypt(ks, remote.symKey, Nonce(remote.iv, Long(seqNum)), msg);
      d[..len] == IpHeader(len, src, dst) + ArgHeader(ARG_HDR_LEN + |msg|, seqNum, Zeros(RSA_SIG_SIZE)) + data
    modifies d
    ensures d[..len] == WrappedPacket(ks, mac, own, remote, seqNum, src, dst, msg)
  {
    hide IpHeader, Long, Crypt, Nonce, ArgHeader;
    ghost var data := Crypt(ks, remote.symKey, Nonce(remote.iv, Long(seqNum)), msg);
    ghost var unsigned := ArgHeader(ARG_HDR_LEN + |msg|, seqNum, Zeros(RSA_SIG_SIZE)) + data;
    assert d[..len] == IpHeader(len, src, dst) + unsigned;
    assert d[IP_HDR_LEN..len] == unsigned by {
      assert d[IP_HDR_LEN..len] == d[..len][IP_HDR_LEN..];
    }
    var code := mac(own.symKey, d[IP_HDR_LEN..len]);
    SignatureAt(d[..], len, IpHeader(len, src, dst), seqNum, code, data);
    Store(d, SIG_AT, code);
    hide Splice;
  }

  // Taking it apart

  /** What becomes of a packet that arrives: refused before it is looked at, memory read beyond what
      arrived, a wrong code, no message (the caller then follows a null pointer), or a message. */
  datatype Outcome = Ignored | Overrun | BadCode | NoMessage | Message(data: Bytes)

  /** The headers and as much as the length field says lie within what arrived. */
  predicate Framed(p: Bytes) {
    |p| >= DATA_AT && WordAt(p, IP_HDR_LEN + 2) <= |p| - IP_HDR_LEN
  }

  /** What process_arg_packet makes of a wrapped packet from a remote with these keys. */
  function Unwrapped(ks: KeyStream, mac: MacFn, own: Keys, remote: Keys, p: Bytes): Outcome {
    if !Framed(p) then Overrun
    else
      var end := IP_HDR_LEN + WordAt(p, IP_HDR_LEN + 2);
      var blank := Splice(p, SIG_AT, Zeros(RSA_SIG_SIZE));
      if p[SIG_AT..DATA_AT] != Signature(mac, remote.symKey, blank[IP_HDR_LEN..end]) then BadCode
      else if end <= DATA_AT then NoMessage
      else Message(Crypt(ks, own.symKey, Nonce(own.iv, p[IP_HDR_LEN + 4..IP_HDR_LEN + 8]), p[DATA_AT..end]))
  }

  /** The signature field holds the code, under this key, of the bytes from the gate header to the end
      that the length field gives, the field itself counted as zero; beyond the code it is zero. */
  predicate Authentic(mac: MacFn, key: SymKey, p: Bytes) {
    && |p| >= 156 && p[22] as int * 256 + p[23] <= |p| - 20
    && p[28..60] == mac(key, (p[..28] + Zeros(128) + p[156..])[20..20 + p[22] as int * 256 + p[23]])
    && forall i :: 60 <= i < 156 ==> p[i] == 0
  }

  lemma AuthenticIff(mac: MacFn, key: SymKey, p: Bytes)
    requires Framed(p)
    ensures var blank := Splice(p, SIG_AT, Zeros(RSA_SIG_SIZE));
      p[SIG_AT..DATA_AT] == Signature(mac, key, blank[IP_HDR_LEN..IP_HDR_LEN + WordAt(p, IP_HDR_LEN + 2)])
      <==> Authentic(mac, key, p)
  {
    var blank := Splice(p, SIG_AT, Zeros(RSA_SIG_SIZE));
    var end := IP_HDR_LEN + WordAt(p, IP_HDR_LEN + 2);
    var code := mac(key, blank[IP_HDR_LEN..end]);
    var pad: Bytes := Zeros(RSA_SIG_SIZE - HASH_SIZE);
    assert blank == p[..28] + Zeros(128) + p[156..];
    assert p[SIG_AT..DATA_AT] == p[28..60] + p[60..156];
    assert p[60..156] == pad <==> forall i :: 60 <= i < 156 ==> p[i] == 0 by {
      assert forall i :: 60 <= i < 156 ==> p[i] == p[60..156][i - 60];
    }
    assert p[28..60] + p[60..156] == code + pad ==> p[28..60] == code && p[60..156] == pad by {
      assert (p[28..60] + p[60..156])[..32] == p[28..60] && (code + pad)[..32] == code;
      assert (p[28..60] + p[60..156])[32..] == p[60..156] && (code + pad)[32..] == pad;
    }
  }

  /** process_arg_packet for a wrapped message past the sequence number and connection checks. */
  method TakeApart(ks: KeyStream, mac: MacFn, own: Keys, remote: Keys, p: Bytes) returns (r: Outcome)
    ensures r == Unwrapped(ks, mac, own, remote, p)
    ensures r.Message? || r.NoMessage? <==> Authentic(mac, remote.symKey, p)
    ensures r.BadCode? <==> Framed(p) && !Authentic(mac, remote.symKey, p)
  {
    if Framed(p) {
      AuthenticIff(mac, remote.symKey, p);
    }
    hide Crypt, Nonce, Word, Authentic, Signature;
    if |p| < DATA_AT {
      return Overrun;
    }
    var argLen := WordAt(p, IP_HDR_LEN + 2);
    var end := IP_HDR_LEN + argLen;
    if end > |p| {
      return Overrun;
    }
    var good := CheckCode(mac, remote.symKey, p, end);
    if !good {
      return BadCode;
    }
    if argLen <= ARG_HDR_LEN {
      return NoMessage;
    }
    hide Splice;
    var out := new Byte[argLen](_ => 0);
    var cipher := new Cipher(ks, own.symKey);
    var nonce := MakeNonce(own.iv, p[IP_HDR_LEN + 4..IP_HDR_LEN + 8]);
    cipher.Reset(nonce);
    ghost var all := Crypt(ks, own.symKey, nonce, p[DATA_AT..end]);
    var total := CryptBlocks(cipher, p[DATA_AT..end], out, 0);
    assert out[..total] == all by {
      SpliceFront(Zeros(argLen), all);
    }
    r := Message(out[..total]);
  }

  /** The code over a copy with a blank signature field, against all of the field that came. */
  method CheckCode(mac: MacFn, key: SymKey, p: Bytes, end: nat) returns (good: bool)
    requires |p| >= DATA_AT && IP_HDR_LEN <= end <= |p|
    ensures good <==>
      p[SIG_AT..DATA_AT] == Signature(mac, key, Splice(p, SIG_AT, Zeros(RSA_SIG_SIZE))[IP_HDR_LEN..end])
  {
    var copy := new Byte[|p|](i requires 0 <= i < |p| => p[i]);
    assert copy[..] == p;
    Store(copy, SIG_AT, Zeros(RSA_SIG_SIZE));
    ghost var blank := copy[..];
    var code := mac(key, copy[IP_HDR_LEN..end]);
    assert copy[IP_HDR_LEN..end] == blank[IP_HDR_LEN..end];
    Store(copy, SIG_AT, code);
    assert copy[SIG_AT..DATA_AT] == code + Zeros(RSA_SIG_SIZE - HASH_SIZE) by {
      BlankSignature(p, code);
      assert copy[SIG_AT..DATA_AT] == copy[..][SIG_AT..DATA_AT];
    }
    hide Splice;
    good := copy[SIG_AT..DATA_AT] == p[SIG_AT..DATA_AT];
  }

  lemma BlankSignature(p: Bytes, code: Mac)
    requires |p| >= DATA_AT
    ensures Splice(Splice(p, SIG_AT, Zeros(RSA_SIG_SIZE)), SIG_AT, code)[SIG_AT..DATA_AT]
            == code + Zeros(RSA_SIG_SIZE - HASH_SIZE)
  {
  }

  lemma SpliceFront(s: Bytes, bytes: Bytes)
    requires |bytes| <= |s|
    ensures Splice(s, 0, bytes)[..|bytes|] == bytes
  {
  }

  // The round trip

  lemma Fields(ip: Bytes, len: nat, seqNum: Uint32, sig: Bytes, data: Bytes)
    requires |ip| == IP_HDR_LEN && |sig| == RSA_SIG_SIZE && len == ARG_HDR_LEN + |data| < 0x1_0000
    ensures var p := ip + ArgHeader(len, seqNum, sig) + data;
      && p[IP_HDR_LEN + 2..IP_HDR_LEN + 4] == Short(len)
      && p[IP_HDR_LEN + 4..IP_HDR_LEN + 8] == Long(seqNum)
      && p[SIG_AT..DATA_AT] == sig
      && p[DATA_AT..IP_HDR_LEN + len] == data
      && Splice(p, SIG_AT, Zeros(RSA_SIG_SIZE))[IP_HDR_LEN..IP_HDR_LEN + len]
         == ArgHeader(len, seqNum, Zeros(RSA_SIG_SIZE)) + data
  {
    hide Short, Long;
    var p := ip + ArgHeader(len, seqNum, sig) + data;
    var front := ip + ([1, 0] + Short(len) + Long(seqNum));
    assert p == front + sig + data;
    SpliceMiddle(front, sig, data, Zeros(RSA_SIG_SIZE));
    assert front + Zeros(RSA_SIG_SIZE) + data == ip + ArgHeader(len, seqNum, Zeros(RSA_SIG_SIZE)) + data;
  }

  /** Unwrapping inverts wrapping: what a wraps for b, b takes apart into the same bytes, and it
      reads the sequence number that a wrote. */
  lemma WrapUnwrap(ks: KeyStream, mac: MacFn, a: Keys, b: Keys, seqNum: Uint32, src: Ipv4, dst: Ipv4, msg: Bytes)
    requires Fits(|msg|) && msg != []
    ensures var p := WrappedPacket(ks, mac, a, b, seqNum, src, dst, msg);
      && Framed(p) && WordAt(p, 2) == |p| && LongAt(p, IP_HDR_LEN + 4) == seqNum
      && Unwrapped(ks, mac, b, a, p) == Message(msg)
  {
    var len, nonce := ARG_HDR_LEN + |msg|, Nonce(b.iv, Long(seqNum));
    var data := Crypt(ks, b.symKey, nonce, msg);
    var sig := Signature(mac, a.symKey, ArgHeader(len, seqNum, Zeros(RSA_SIG_SIZE)) + data);
    var ip := IpHeader(IP_HDR_LEN + len, src, dst);
    var p := WrappedPacket(ks, mac, a, b, seqNum, src, dst, msg);
    assert p[2..4] == Short(IP_HDR_LEN + len) by {
      assert p[2..4] == ip[2..4];
    }
    hide IpHeader, Short, Long, WordAt, LongAt, ArgHeader, Splice, Crypt, Nonce;
    Fields(ip, len, seqNum, sig, data);
    ShortRoundTrip(p, 2, IP_HDR_LEN + len);
    ShortRoundTrip(p, IP_HDR_LEN + 2, len);
    LongRoundTrip(p, IP_HDR_LEN + 4, seqNum);
    CryptTwice(ks, b.symKey, nonce, msg);
  }

  // The same with the records of the two gates

  datatype Sending = Unconnected | BufferOverrun | Sent(p: Bytes)

  /** send_arg_wrapped, for a payload of any length an IPv4 packet can have. */
  method SendArgWrapped(ks: KeyStream, mac: MacFn, own: Local, remote: Peer, src: Ipv4, dst: Ipv4, msg: Bytes)
    returns (r: Sending)
    requires |msg| < 0x1_0000
    modifies remote
    ensures var s := old(remote.View());
      if !s.connected then r == Unconnected && remote.View() == s
      else
        && remote.View() == s.(outSeqNum := ToUint32(s.outSeqNum + 1))
        && r == if Fits(|msg|) then Sent(WrappedPacket(ks, mac, own.keys, s.keys, s.outSeqNum, src, dst, msg))
                else BufferOverrun
  {
    hide WrappedPacket;
    if !remote.connected {
      return Unconnected;
    }
    var seqNum := remote.outSeqNum;
    remote.outSeqNum := ToUint32(remote.outSeqNum + 1);
    var p := CreateWrapped(ks, mac, own.keys, remote.keys, seqNum, src, dst, msg);
    r := if p.Some? then Sent(p.value) else BufferOverrun;
  }

  /** process_arg_wrapped: the sequence number is recorded before the code is checked. */
  method ProcessArgWrapped(ks: KeyStream, mac: MacFn, own: Local, remote: Peer, p: Bytes) returns (r: Outcome)
    modifies remote
    ensures var s := old(remote.View());
      if !s.connected then r == Ignored && remote.View() == s
      else if |p| < DATA_AT then r == Overrun && remote.View() == s
      else if !InOrder(LongAt(p, IP_HDR_LEN + 4), s.inSeqNum) then r == Ignored && remote.View() == s
      else r == Unwrapped(ks, mac, own.keys, s.keys, p)
           && remote.View() == s.(inSeqNum := LongAt(p, IP_HDR_LEN + 4))
  {
    hide Unwrapped, LongAt;
    if !remote.connected {
      return Ignored;
    }
    if |p| < DATA_AT {
      return Overrun;
    }
    var seqNum := LongAt(p, IP_HDR_LEN + 4);
    if !InOrder(seqNum, remote.inSeqNum) {
      return Ignored;
    }
    remote.inSeqNum := seqNum;
    r := TakeApart(ks, mac, own.keys, remote.keys, p);
  }

  /** Two gates that hold each other as connected and have each other's keys: what one wraps, the
      other puts out unchanged, as long as the sequence number is in order. */
  method SendAcross(ks: KeyStream, mac: MacFn, a: Local, bAtA: Peer, b: Local, aAtB: Peer, src: Ipv4, dst: Ipv4,
                    msg: Bytes)
    returns (r: Outcome)
    requires bAtA != aAtB && bAtA.connected && aAtB.connected
    requires bAtA.keys == b.keys && aAtB.keys == a.keys
    requires InOrder(bAtA.outSeqNum, aAtB.inSeqNum) && Fits(|msg|) && msg != []
    modifies bAtA, aAtB
    ensures r == Message(msg)
    ensures aAtB.inSeqNum == old(bAtA.outSeqNum) && bAtA.outSeqNum == ToUint32(old(bAtA.outSeqNum) + 1)
  {
    hide WrappedPacket, Unwrapped, LongAt, WordAt;
    WrapUnwrap(ks, mac, a.keys, b.keys, bAtA.outSeqNum, src, dst, msg);
    var sent := SendArgWrapped(ks, mac, a, bAtA, src, dst, msg);
    r := ProcessArgWrapped(ks, mac, b, aAtB, sent.p);
  }

  /** In every reachable state of the gates, mutually connected gates meet these conditions: the
      bytes one sends come out of the other. */
  lemma ReachableRoundTrip(ks: KeyStream, mac: MacFn, w: World, ms: seq<Move>, a: Id, b: Id, src: Ipv4, dst: Ipv4,
                           msg: Bytes)
    requires Initial(w) && Knows(GateNetwork.Run(w, ms), a, b) && Knows(GateNetwork.Run(w, ms), b, a)
    requires var now := GateNetwork.Run(w, ms); now.gates[a].remotes[b].connected && now.gates[b].remotes[a].connected
    requires Fits(|msg|) && msg != []
    ensures var now := GateNetwork.Run(w, ms); var A, B := now.gates[a], now.gates[b];
      var p := WrappedPacket(ks, mac, A.own.keys, A.remotes[b].keys, A.remotes[b].outSeqNum, src, dst, msg);
      Unwrapped(ks, mac, B.own.keys, B.remotes[a].keys, p) == Message(msg)
  {
    hide WrappedPacket, Unwrapped, Framed;
    KeyAgreement(w, ms, a, b);
    KeyAgreement(w, ms, b, a);
    var now := GateNetwork.Run(w, ms);
    WrapUnwrap(ks, mac, now.gates[a].own.keys, now.gates[b].own.keys, now.gates[a].remotes[b].outSeqNum, src, dst, msg);
  }
}
