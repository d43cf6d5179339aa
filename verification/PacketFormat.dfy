/** The format of a wrapped packet, byte by byte, and what its receiver makes of every byte string. */
module PacketFormat {
  import opened Octets
  import opened ProtocolSpec
  import opened Wrapping

  // What is sent

  lemma IpBytes(totLen: nat, src: Ipv4, dst: Ipv4)
    requires totLen < 0x1_0000
    ensures var h := IpHeader(totLen, src, dst);
      && h[0] == 0x45 && h[2] as int * 256 + h[3] == totLen && h[8] == 32 && h[9] == 253
      && h[1] == h[4] == h[5] == h[6] == h[7] == h[10] == h[11] == 0
      && h[12..16] == src && h[16..20] == dst
  {
  }

  lemma GateBytes(len: nat, seqNum: Uint32, sig: Bytes)
    requires len < 0x1_0000 && |sig| == RSA_SIG_SIZE
    ensures var h := ArgHeader(len, seqNum, sig);
      && h[0] == 1 && h[1] == 0 && h[2] as int * 256 + h[3] == len && h[4..8] == Long(seqNum)
      && h[4] as int * 0x100_0000 + h[5] as int * 0x1_0000 + h[6] as int * 256 + h[7] == seqNum
  {
    var h := ArgHeader(len, seqNum, sig);
    assert h == [1, 0] + Short(len) + Long(seqNum) + sig;
    assert forall i :: 0 <= i < 4 ==> h[4 + i] == Long(seqNum)[i];
  }

  lemma Parts(ip: Bytes, h: Bytes, data: Bytes)
    requires |ip| == IP_HDR_LEN && |h| == ARG_HDR_LEN
    ensures var p := ip + h + data;
      && (forall i :: 0 <= i < 20 ==> p[i] == ip[i]) && (forall i :: 20 <= i < 156 ==> p[i] == h[i - 20])
      && p[..20] == ip && p[24..28] == h[4..8] && p[156..] == data
  {
  }

  /** Where each byte of a wrapped packet comes from: the IPv4 header (version and header length, total
      length, time to live, protocol 253, addresses), the gate header (version 1, type 0, length,
      sequence number, code of everything from there on with the code zeroed, zeros), and the payload
      under the key stream. */
  lemma WrappedBytes(ks: KeyStream, mac: MacFn, own: Keys, remote: Keys, seqNum: Uint32, src: Ipv4, dst: Ipv4,
                     msg: Bytes)
    requires Fits(|msg|)
    ensures var p := WrappedPacket(ks, mac, own, remote, seqNum, src, dst, msg);
      && p[0] == 0x45 && p[2] as int * 256 + p[3] == |p| && p[8] == 32 && p[9] == 253
      && p[12..16] == src && p[16..20] == dst
      && p[1] == p[4] == p[5] == p[6] == p[7] == p[10] == p[11] == 0
      && p[20] == 1 && p[21] == 0 && p[22] as int * 256 + p[23] == |p| - 20
      && p[24] as int * 0x100_0000 + p[25] as int * 0x1_0000 + p[26] as int * 256 + p[27] == seqNum
      && Authentic(mac, own.symKey, p)
      && p[156..] == Crypt(ks, remote.symKey, Nonce(remote.iv, p[24..28]), msg)
  {
    var len := ARG_HDR_LEN + |msg|;
    var data := Crypt(ks, remote.symKey, Nonce(remote.iv, Long(seqNum)), msg);
    var sig := Signature(mac, own.symKey, ArgHeader(len, seqNum, Zeros(RSA_SIG_SIZE)) + data);
    var ip, h := IpHeader(IP_HDR_LEN + len, src, dst), ArgHeader(len, seqNum, sig);
    var p := WrappedPacket(ks, mac, own, remote, seqNum, src, dst, msg);
    assert p == ip + h + data;
    hide Crypt, Nonce, WrappedPacket, Signature, IpHeader, ArgHeader, Long, Authentic;
    IpBytes(IP_HDR_LEN + len, src, dst);
    GateBytes(len, seqNum, sig);
    Parts(ip, h, data);
    assert ip[12..16] == p[12..16] && ip[16..20] == p[16..20] by {
      assert p[12..16] == p[..20][12..16] && p[16..20] == p[..20][16..20];
    }
    Fields(ip, len, seqNum, sig, data);
    AuthenticIff(mac, own.symKey, p);
  }

  // What is received

  /** For every byte string: it gives a message exactly if its code is right and it has a payload; and
      then the message is the payload under the key stream, starting from our IV with the sequence
      bytes mixed in. */
  lemma MessageIff(ks: KeyStream, mac: MacFn, own: Keys, remote: Keys, p: Bytes)
    ensures Unwrapped(ks, mac, own, remote, p).Message?
            <==> Authentic(mac, remote.symKey, p) && p[22] as int * 256 + p[23] > 136
    ensures Unwrapped(ks, mac, own, remote, p).BadCode?
            <==> |p| >= 156 && p[22] as int * 256 + p[23] <= |p| - 20 && !Authentic(mac, remote.symKey, p)
    ensures Unwrapped(ks, mac, own, remote, p).Message? ==>
      var m, nonce := Unwrapped(ks, mac, own, remote, p).data, Nonce(own.iv, p[24..28]);
      && |m| == p[22] as int * 256 + p[23] - 136
      && (forall i :: 0 <= i < |m| ==> m[i] == Xor(p[156 + i], ks(own.symKey, nonce, i)))
      && (forall k :: 0 <= k < 4 ==> nonce[k] == Xor(own.iv[k], p[24 + k])) && nonce[4..] == own.iv[4..]
  {
    if Framed(p) {
      AuthenticIff(mac, remote.symKey, p);
    }
    hide Authentic, Signature, Splice, CryptFrom, Xor;
  }

  /** Changing the code field of a packet that gives a message, in any way, makes it a bad code. */
  lemma ChangedCodeIsBad(ks: KeyStream, mac: MacFn, own: Keys, remote: Keys, p: Bytes, q: Bytes)
    requires Unwrapped(ks, mac, own, remote, p).Message? && |q| == |p| && q != p
    requires forall i :: 0 <= i < |p| && !(28 <= i < 156) ==> q[i] == p[i]
    ensures Unwrapped(ks, mac, own, remote, q) == BadCode
  {
    MessageIff(ks, mac, own, remote, p);
    MessageIff(ks, mac, own, remote, q);
    assert q[..28] == p[..28] && q[156..] == p[156..];
    if Authentic(mac, remote.symKey, q) {
      assert q[28..60] == p[28..60];
      forall i | 0 <= i < |p|
        ensures q[i] == p[i]
      {
        assert 28 <= i < 60 ==> q[i] == q[28..60][i - 28] && p[i] == p[28..60][i - 28];
      }
    }
    hide Unwrapped, Authentic;
  }

  /** Packets with different sequence numbers start from different points of the cipher. */
  lemma NonceInjective(iv: Block, a: Bytes, b: Bytes)
    requires |a| == 4 && |b| == 4 && Nonce(iv, a) == Nonce(iv, b)
    ensures a == b
  {
    hide Xor;
    forall k | 0 <= k < 4
      ensures a[k] == b[k]
    {
      assert Nonce(iv, a)[k] == Nonce(iv, b)[k];
      XorInjective(iv[k], a[k], b[k]);
    }
  }
}
