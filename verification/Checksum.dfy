/** The TCP and UDP checksum of packet.c, computed in place over the packet's bytes, against the
    one's-complement sum it stands for. */
module Checksum {
  import opened Octets

  newtype uint32 = x: int | 0 <= x < 0x1_0000_0000

  const TCP_PROTO: int := 0x06
  const UDP_PROTO: int := 0x11

  /** The 16-bit words of a byte string; a last odd byte is padded with zero. */
  function WordsOf(s: Bytes): seq<Word16> {
    if s == [] then []
    else if |s| == 1 then [Word(s[0], 0)]
    else [Word(s[0], s[1])] + WordsOf(s[2..])
  }

  function Sum(ws: seq<Word16>): nat {
    if ws == [] then 0 else ws[0] + Sum(ws[1..])
  }

  /** One's-complement addition of 16-bit words: the carry comes back in (RFC 1071, section 1). */
  function OnesAdd(a: Word16, b: Word16): Word16 {
    if a + b >= 0x1_0000 then a + b - 0xFFFF else a + b
  }

  function OnesSum(ws: seq<Word16>): Word16 {
    if ws == [] then 0 else OnesAdd(ws[0], OnesSum(ws[1..]))
  }

  function Fold(x: nat): nat {
    x / 0x1_0000 + x % 0x1_0000
  }

  /** The one representative of x modulo 0xFFFF that keeps zero apart from 0xFFFF. */
  function Norm(x: nat): Word16 {
    if x == 0 then 0 else (x - 1) % 0xFFFF + 1
  }

  /** A fold keeps the value modulo 0xFFFF, and tells zero from the rest. */
  lemma FoldKeepsNorm(x: nat)
    ensures Norm(Fold(x)) == Norm(x)
  {
    var y := Fold(x);
    assert x == y + x / 0x1_0000 * 0xFFFF;
    assert x > 0 ==> y > 0;
    NormShift(y, x / 0x1_0000);
  }

  /** Two folds bring any 32-bit sum down to 16 bits. */
  lemma FoldTwice(x: nat)
    requires x < 0x1_0000_0000
    ensures Fold(Fold(x)) == Norm(x)
  {
    FoldKeepsNorm(x);
    FoldKeepsNorm(Fold(x));
    assert Fold(x) <= 0x1_FFFE;
    assert Fold(Fold(x)) <= 0xFFFF;
    SmallNorm(Fold(Fold(x)));
    hide Norm, Fold;
  }

  lemma SmallNorm(x: nat)
    requires x <= 0xFFFF
    ensures Norm(x) == x
  {
  }

  lemma {:induction false} NormShift(x: nat, k: nat)
    ensures x > 0 ==> Norm(x + k * 0xFFFF) == Norm(x)
  {
    if k > 0 {
      NormShift(x, k - 1);
      if x > 0 {
        var v := x + (k - 1) * 0xFFFF;
        assert (v - 1 + 0xFFFF) % 0xFFFF == (v - 1) % 0xFFFF;
      }
    }
  }

  lemma OnesAddNorm(a: Word16, x: nat)
    ensures OnesAdd(a, Norm(x)) == Norm(a + x)
  {
    if x > 0 {
      var r := (x - 1) % 0xFFFF;
      assert (a + x - 1) % 0xFFFF == (a + r) % 0xFFFF;
    }
  }

  /** Adding with end-around carry is adding and normalising once at the end. */
  lemma {:induction false} OnesSumIsNorm(ws: seq<Word16>)
    ensures OnesSum(ws) == Norm(Sum(ws))
  {
    if ws != [] {
      OnesSumIsNorm(ws[1..]);
      OnesAddNorm(ws[0], Sum(ws[1..]));
    }
  }

  /** Deferring the carries to two folds at the end gives the one's-complement sum. */
  lemma FastSumRefines(ws: seq<Word16>)
    requires Sum(ws) < 0x1_0000_0000
    ensures Fold(Fold(Sum(ws))) == OnesSum(ws)
  {
    FoldTwice(Sum(ws));
    OnesSumIsNorm(ws);
  }

  lemma {:induction false} SumBound(s: Bytes)
    ensures Sum(WordsOf(s)) <= 0xFFFF * ((|s| + 1) / 2)
  {
    if |s| >= 2 {
      SumBound(s[2..]);
    }
  }

  lemma {:induction false} SumAppend(a: seq<Word16>, b: seq<Word16>)
    ensures Sum(a + b) == Sum(a) + Sum(b)
  {
    if a == [] {
      assert a + b == b;
    } else {
      assert (a + b)[1..] == a[1..] + b;
      SumAppend(a[1..], b);
    }
  }

  /** A byte string of even length is read as big-endian words. */
  lemma {:induction false} WordsAt(s: Bytes, k: nat)
    requires |s| % 2 == 0 && k < |s| / 2
    ensures |WordsOf(s)| == |s| / 2 && WordsOf(s)[k] == s[2 * k] as int * 256 + s[2 * k + 1]
  {
    if k > 0 {
      WordsAt(s[2..], k - 1);
      assert s[2..][2 * (k - 1)] == s[2 * k] && s[2..][2 * (k - 1) + 1] == s[2 * k + 1];
    } else {
      WordsCount(s[2..]);
    }
  }

  lemma {:induction false} WordsCount(s: Bytes)
    ensures |WordsOf(s)| == (|s| + 1) / 2
  {
    if |s| >= 2 {
      WordsCount(s[2..]);
    }
  }

  /** And an odd one as if a zero byte followed it (RFC 1071, section 4.1). */
  lemma {:induction false} OddIsPadded(s: Bytes)
    requires |s| % 2 == 1
    ensures WordsOf(s) == WordsOf(s + [0])
  {
    if |s| == 1 {
      assert (s + [0])[2..] == [];
      assert WordsOf(s + [0]) == [Word(s[0], 0)] + WordsOf([]);
    } else {
      assert (s + [0])[2..] == s[2..] + [0];
      OddIsPadded(s[2..]);
    }
  }

  lemma {:induction false} WordsAppend(a: Bytes, b: Bytes)
    requires |a| % 2 == 0
    ensures WordsOf(a + b) == WordsOf(a) + WordsOf(b)
  {
    if a == [] {
      assert a + b == b;
    } else {
      assert (a + b)[2..] == a[2..] + b;
      WordsAppend(a[2..], b);
    }
  }

  /** Where the checksum code finds things: the IP header, the transport header, its check field,
      and the length it sums over. */
  datatype Layout = Layout(ip: nat, trans: nat, check: nat, len: int)

  predicate IsTcp(s: Bytes, ip: nat)
    requires ip + 20 <= |s|
  {
    s[ip + 9] == TCP_PROTO
  }

  predicate IsUdp(s: Bytes, ip: nat)
    requires ip + 20 <= |s|
  {
    s[ip + 9] == UDP_PROTO
  }

  /** The IP header length in bytes, from the low four bits of its first byte. */
  function HeaderLen(first: Byte): (n: nat)
    ensures n % 4 == 0
  {
    first % 16 * 4
  }

  /** The layout of a parsed packet whose IPv4 header starts at ip. */
  function LayoutOf(s: Bytes, ip: nat): Layout
    requires ip + 20 <= |s|
    requires IsTcp(s, ip) || ip + HeaderLen(s[ip]) + 8 <= |s|
  {
    var trans := ip + HeaderLen(s[ip]);
    if IsTcp(s, ip) then Layout(ip, trans, trans + 16, WordAt(s, ip + 2) - HeaderLen(s[ip]))
    else Layout(ip, trans, trans + 6, WordAt(s, trans + 4))
  }

  /** Everything the code reads and writes of a TCP or UDP packet lies within the bytes there are.
      The length may come out negative, for a TCP packet shorter than its own IP header. */
  predicate Complete(s: Bytes, ip: nat) {
    && ip + 20 <= |s|
    && (IsTcp(s, ip) || (IsUdp(s, ip) && ip + HeaderLen(s[ip]) + 8 <= |s|))
    && var l := LayoutOf(s, ip);
       l.trans + l.len <= |s| && l.check + 2 <= |s|
  }

  /** The IP header has its full length, and the summed bytes include the check field. */
  predicate CoversCheck(s: Bytes, ip: nat)
    requires Complete(s, ip)
  {
    var l := LayoutOf(s, ip);
    HeaderLen(s[ip]) >= 20 && l.check + 2 <= l.trans + l.len
  }

  /** The packet with w as the big-endian word at a position. */
  function WithWord(s: Bytes, at: nat, w: Word16): (r: Bytes)
    requires at + 2 <= |s|
    ensures |r| == |s| && WordAt(r, at) == w
    ensures forall i :: 0 <= i < |s| && i != at && i != at + 1 ==> r[i] == s[i]
  {
    s[at := w / 256][at + 1 := w % 256]
  }

  /** The pseudo-header of section 3.1 of RFC 9293 (and RFC 768): source and destination address,
      protocol, and length. */
  function PseudoHeader(s: Bytes, ip: nat, len: Word16): seq<Word16>
    requires ip + 20 <= |s|
  {
    [WordAt(s, ip + 12), WordAt(s, ip + 14), WordAt(s, ip + 16), WordAt(s, ip + 18), s[ip + 9], len]
  }

  /** All words the checksum covers. */
  function Covered(s: Bytes, ip: nat): seq<Word16>
    requires Complete(s, ip) && LayoutOf(s, ip).len >= 0
  {
    var l := LayoutOf(s, ip);
    WordsOf(s[l.trans..l.trans + l.len]) + PseudoHeader(s, ip, l.len)
  }

  /** The bytes that determine the layout are the same. */
  predicate SameFrame(s: Bytes, r: Bytes, ip: nat)
    requires Complete(s, ip)
  {
    var trans := LayoutOf(s, ip).trans;
    && |r| == |s|
    && r[ip] == s[ip] && r[ip + 2] == s[ip + 2] && r[ip + 3] == s[ip + 3] && r[ip + 9] == s[ip + 9]
    && (IsUdp(s, ip) ==> r[trans + 4] == s[trans + 4] && r[trans + 5] == s[trans + 5])
  }

  /** The check field is not among them. */
  lemma CheckIsFree(s: Bytes, r: Bytes, ip: nat)
    requires Complete(s, ip) && |r| == |s|
    requires var at := LayoutOf(s, ip).check; forall i :: 0 <= i < |s| && i != at && i != at + 1 ==> r[i] == s[i]
    ensures SameFrame(s, r, ip)
  {
    hide Word, HeaderLen;
  }

  lemma KeepsLayout(s: Bytes, r: Bytes, ip: nat)
    requires Complete(s, ip) && SameFrame(s, r, ip)
    ensures Complete(r, ip) && LayoutOf(r, ip) == LayoutOf(s, ip)
  {
    hide Word;
  }

  /** The packet with its check field cleared. */
  function Cleared(s: Bytes, ip: nat): (r: Bytes)
    requires Complete(s, ip)
    ensures Complete(r, ip) && LayoutOf(r, ip) == LayoutOf(s, ip)
  {
    var r := WithWord(s, LayoutOf(s, ip).check, 0);
    CheckIsFree(s, r, ip);
    KeepsLayout(s, r, ip);
    r
  }

  function Wrap32(x: int): (r: nat)
    ensures r < 0x1_0000_0000 && (0 <= x < 0x1_0000_0000 ==> r == x)
  {
    x % 0x1_0000_0000
  }

  /** A sum with addresses, protocol and length added, in 32 bits. */
  function AddingPseudo(s: Bytes, ip: nat, len: int, sum: nat): (r: nat)
    requires ip + 20 <= |s|
    ensures r < 0x1_0000_0000
  {
    Wrap32(sum + WordAt(s, ip + 12) + WordAt(s, ip + 14) + WordAt(s, ip + 16) + WordAt(s, ip + 18) + s[ip + 9] + len)
  }

  /** For a negative length nothing of the segment is summed, and adding the length wraps. */
  function DegenerateSum(s: Bytes, ip: nat): (sum: nat)
    requires Complete(s, ip)
    ensures sum < 0x1_0000_0000
  {
    AddingPseudo(s, ip, LayoutOf(s, ip).len, 0)
  }

  /** The checksum RFC 1071 defines, the complement of the one's-complement sum of the covered
      words, of a packet whose check field is clear. */
  function CheckWord(s: Bytes, ip: nat): Word16
    requires Complete(s, ip)
  {
    if LayoutOf(s, ip).len >= 0 then 0xFFFF - OnesSum(Covered(s, ip)) else 0xFFFF - Norm(DegenerateSum(s, ip))
  }

  /** The packet with its checksum, the check field counted as zero. */
  function Checksummed(s: Bytes, ip: nat): (r: Bytes)
    requires Complete(s, ip)
    ensures Complete(r, ip) && LayoutOf(r, ip) == LayoutOf(s, ip)
  {
    var r := WithWord(s, LayoutOf(s, ip).check, CheckWord(Cleared(s, ip), ip));
    CheckIsFree(s, r, ip);
    KeepsLayout(s, r, ip);
    r
  }

  lemma SumStep(s: Bytes)
    requires |s| >= 2
    ensures Sum(WordsOf(s)) == WordAt(s, 0) + Sum(WordsOf(s[2..]))
  {
    hide Word;
    assert WordsOf(s)[1..] == WordsOf(s[2..]);
  }

  /** Storing a word at an even offset adds exactly that word to the sum. */
  lemma {:induction false} SumWithWord(s: Bytes, at: nat, w: Word16)
    requires at + 2 <= |s| && at % 2 == 0
    ensures Sum(WordsOf(WithWord(s, at, w))) == Sum(WordsOf(WithWord(s, at, 0))) + w
  {
    hide Word, WordsOf, Sum;
    SumStep(WithWord(s, at, w));
    SumStep(WithWord(s, at, 0));
    if at > 0 {
      assert WithWord(s, at, w)[2..] == WithWord(s[2..], at - 2, w);
      assert WithWord(s, at, 0)[2..] == WithWord(s[2..], at - 2, 0);
      SumWithWord(s[2..], at - 2, w);
    } else {
      assert WithWord(s, at, w)[2..] == WithWord(s, at, 0)[2..];
    }
  }

  lemma SumSix(ws: seq<Word16>)
    requires |ws| == 6
    ensures Sum(ws) == ws[0] as int + ws[1] + ws[2] + ws[3] + ws[4] + ws[5]
  {
    var a, b, c, d, e := ws[1..], ws[2..], ws[3..], ws[4..], ws[5..];
    assert a[1..] == b && b[1..] == c && c[1..] == d && d[1..] == e;
    assert Sum(e) == e[0] && Sum(d) == d[0] + Sum(e) && Sum(c) == c[0] + Sum(d);
    assert Sum(b) == b[0] + Sum(c) && Sum(a) == a[0] + Sum(b);
  }

  lemma PseudoSum(s: Bytes, ip: nat, len: Word16)
    requires ip + 20 <= |s|
    ensures Sum(PseudoHeader(s, ip, len)) == WordAt(s, ip + 12) as int + WordAt(s, ip + 14) + WordAt(s, ip + 16)
                                             + WordAt(s, ip + 18) + s[ip + 9] + len
  {
    SumSix(PseudoHeader(s, ip, len));
  }

  /** The sum over a packet splits into segment and pseudo-header, and fits 32 bits. */
  lemma CoveredSum(s: Bytes, ip: nat)
    requires Complete(s, ip) && LayoutOf(s, ip).len >= 0
    ensures var l := LayoutOf(s, ip);
      Sum(Covered(s, ip)) == Sum(WordsOf(s[l.trans..l.trans + l.len])) + Sum(PseudoHeader(s, ip, l.len))
    ensures 0 < Sum(Covered(s, ip)) < 0x1_0000_0000
  {
    var l := LayoutOf(s, ip);
    SumBound(s[l.trans..l.trans + l.len]);
    SumAppend(WordsOf(s[l.trans..l.trans + l.len]), PseudoHeader(s, ip, l.len));
    PseudoSum(s, ip, l.len);
  }

  /** The pseudo-header as the bytes of the RFCs: source, destination, zero, protocol, length. */
  function PseudoBytes(s: Bytes, ip: nat, len: Word16): (b: Bytes)
    requires ip + 20 <= |s|
    ensures |b| == 12
  {
    s[ip + 12..ip + 20] + [0, s[ip + 9]] + Short(len)
  }

  /** The Internet checksum of a byte string of even length. */
  function InternetChecksum(bytes: Bytes): Word16
    requires |bytes| % 2 == 0
  {
    0xFFFF - OnesSum(WordsOf(bytes))
  }

  function Padded(s: Bytes): (r: Bytes)
    ensures |r| == (|s| + 1) / 2 * 2
  {
    if |s| % 2 == 0 then s else s + [0]
  }

  lemma PseudoWords(s: Bytes, ip: nat, len: Word16)
    requires ip + 20 <= |s|
    ensures Sum(WordsOf(PseudoBytes(s, ip, len))) == Sum(PseudoHeader(s, ip, len))
  {
    var b := PseudoBytes(s, ip, len);
    assert forall i :: 0 <= i < 8 ==> b[i] == s[ip + 12 + i];
    assert b[8] == 0 && b[9] == s[ip + 9] && b[10] as int * 256 + b[11] == len;
    PseudoSum(s, ip, len);
    hide WordsOf, PseudoHeader, Sum, PseudoBytes;
    WordsAt(b, 0);
    WordsAt(b, 1);
    WordsAt(b, 2);
    WordsAt(b, 3);
    WordsAt(b, 4);
    WordsAt(b, 5);
    SumSix(WordsOf(b));
  }

  lemma PaddingAddsNothing(s: Bytes)
    ensures WordsOf(Padded(s)) == WordsOf(s)
  {
    if |s| % 2 == 1 {
      OddIsPadded(s);
    }
    hide WordsOf;
  }

  /** Pseudo-header and segment; an odd segment is padded with one zero byte at its end, and the length
      in the pseudo-header is the unpadded one. */
  function CoveredBytes(s: Bytes, ip: nat): (b: Bytes)
    requires Complete(s, ip) && LayoutOf(s, ip).len >= 0
    ensures |b| % 2 == 0
  {
    var l := LayoutOf(s, ip);
    PseudoBytes(s, ip, l.len) + Padded(s[l.trans..l.trans + l.len])
  }

  lemma CoveredAsBytes(s: Bytes, ip: nat)
    requires Complete(s, ip) && LayoutOf(s, ip).len >= 0
    ensures Sum(WordsOf(CoveredBytes(s, ip))) == Sum(Covered(s, ip))
  {
    hide WordsOf, PseudoHeader, PseudoBytes, Sum, Covered, Padded, Word, HeaderLen;
    var l := LayoutOf(s, ip);
    var seg := s[l.trans..l.trans + l.len];
    var len: Word16 := l.len;
    assert CoveredBytes(s, ip) == PseudoBytes(s, ip, len) + Padded(seg);
    hide CoveredBytes;
    CoveredSum(s, ip);
    hide Complete, LayoutOf;
    SumOfParts(PseudoBytes(s, ip, len), seg);
    PseudoWords(s, ip, len);
  }

  lemma SumOfParts(pseudo: Bytes, seg: Bytes)
    requires |pseudo| % 2 == 0
    ensures Sum(WordsOf(pseudo + Padded(seg))) == Sum(WordsOf(pseudo)) + Sum(WordsOf(seg))
  {
    hide WordsOf, Sum, Padded;
    PaddingAddsNothing(seg);
    WordsAppend(pseudo, Padded(seg));
    SumAppend(WordsOf(pseudo), WordsOf(seg));
  }

  /** What is stored is the Internet checksum of those bytes. */
  lemma CheckWordIsInternet(s: Bytes, ip: nat)
    requires Complete(s, ip) && LayoutOf(s, ip).len >= 0
    ensures CheckWord(s, ip) == InternetChecksum(CoveredBytes(s, ip))
  {
    hide WordsOf, Sum, OnesSum, Covered, Norm, LayoutOf, Complete, CoveredBytes;
    CoveredAsBytes(s, ip);
    OnesSumIsNorm(Covered(s, ip));
    OnesSumIsNorm(WordsOf(CoveredBytes(s, ip)));
  }

  /** Recomputing the checksum of a checksummed packet changes nothing. */
  lemma ChecksumIdempotent(s: Bytes, ip: nat)
    requires Complete(s, ip)
    ensures Checksummed(Checksummed(s, ip), ip) == Checksummed(s, ip)
  {
    assert Cleared(Checksummed(s, ip), ip) == Cleared(s, ip);
  }

  /** r is s with check word w, seen through what the sum covers. */
  predicate HasCheck(s: Bytes, r: Bytes, ip: nat, w: Word16)
    requires Complete(s, ip)
  {
    var l := LayoutOf(s, ip);
    && Complete(r, ip) && LayoutOf(r, ip) == l && l.len >= 0
    && (l.check == l.trans + 6 || l.check == l.trans + 16) && l.check + 2 <= l.trans + l.len
    && r[l.trans..l.trans + l.len] == WithWord(s[l.trans..l.trans + l.len], l.check - l.trans, w)
    && PseudoHeader(r, ip, l.len) == PseudoHeader(s, ip, l.len)
  }

  /** The check field sits at an even offset of the segment and nowhere in the pseudo-header. */
  lemma CheckPlace(s: Bytes, ip: nat, w: Word16)
    requires Complete(s, ip) && CoversCheck(s, ip)
    ensures HasCheck(s, WithWord(s, LayoutOf(s, ip).check, w), ip, w)
  {
    hide Word;
    var l := LayoutOf(s, ip);
    var r := WithWord(s, l.check, w);
    CheckIsFree(s, r, ip);
    KeepsLayout(s, r, ip);
    assert forall i :: ip <= i < ip + 20 ==> r[i] == s[i];
    assert WordAt(r, ip + 12) == WordAt(s, ip + 12) && WordAt(r, ip + 14) == WordAt(s, ip + 14);
    assert WordAt(r, ip + 16) == WordAt(s, ip + 16) && WordAt(r, ip + 18) == WordAt(s, ip + 18);
  }

  lemma SegmentsDiffer(s: Bytes, r: Bytes, z: Bytes, ip: nat, w: Word16)
    requires Complete(s, ip) && HasCheck(s, r, ip, w) && HasCheck(s, z, ip, 0)
    ensures Sum(Covered(r, ip)) == Sum(Covered(z, ip)) + w
  {
    hide Word, Sum, WordsOf, WithWord, PseudoHeader, Covered, LayoutOf;
    var l := LayoutOf(s, ip);
    SumWithWord(s[l.trans..l.trans + l.len], l.check - l.trans, w);
    CoveredSum(r, ip);
    CoveredSum(z, ip);
  }

  /** The sum over a packet with check word w is the sum over the cleared packet plus w. */
  lemma SumWithCheck(s: Bytes, ip: nat, w: Word16)
    requires Complete(s, ip) && CoversCheck(s, ip)
    ensures var r := WithWord(s, LayoutOf(s, ip).check, w);
      && Complete(r, ip) && LayoutOf(r, ip) == LayoutOf(s, ip)
      && Sum(Covered(r, ip)) == Sum(Covered(Cleared(s, ip), ip)) + w
  {
    CheckPlace(s, ip, w);
    CheckPlace(s, ip, 0);
    var r, z := WithWord(s, LayoutOf(s, ip).check, w), Cleared(s, ip);
    assert Complete(r, ip) && HasCheck(s, z, ip, 0);
    hide HasCheck, Sum, Covered, Complete, WithWord, Cleared, LayoutOf, CoversCheck;
    SegmentsDiffer(s, r, z, ip, w);
  }

  /** Equal, up to the two spellings of zero in one's complement. */
  predicate Alike(a: Word16, b: Word16) {
    a == b || (a == 0 && b == 0xFFFF) || (a == 0xFFFF && b == 0)
  }

  /** What the receiver sums up when the packet arrives with check word w. */
  function Received(s: Bytes, ip: nat, w: Word16): Word16
    requires Complete(s, ip) && CoversCheck(s, ip)
  {
    SumWithCheck(s, ip, w);
    OnesSum(Covered(WithWord(s, LayoutOf(s, ip).check, w), ip))
  }

  lemma ReceivedIsNorm(s: Bytes, ip: nat, w: Word16)
    requires Complete(s, ip) && CoversCheck(s, ip)
    ensures LayoutOf(s, ip).len >= 0
    ensures var sum := Sum(Covered(Cleared(s, ip), ip)); sum > 0 && Received(s, ip, w) == Norm(sum + w)
  {
    assert LayoutOf(s, ip).len >= 0;
    hide Norm, OnesSum, Sum, Covered, Word, HeaderLen;
    SumWithCheck(s, ip, w);
    CoveredSum(Cleared(s, ip), ip);
    OnesSumIsNorm(Covered(WithWord(s, LayoutOf(s, ip).check, w), ip));
  }

  lemma CheckWordIsNorm(s: Bytes, ip: nat)
    requires Complete(s, ip) && LayoutOf(s, ip).len >= 0
    ensures CheckWord(s, ip) == 0xFFFF - Norm(Sum(Covered(s, ip)))
  {
    hide Norm, OnesSum, Sum, Covered, Complete, LayoutOf;
    OnesSumIsNorm(Covered(s, ip));
  }

  /** The receiver's check: summing the packet with its stored checksum gives all ones, and no
      other stored value does, except that zero and all ones cannot be told apart. */
  lemma ReceiverAccepts(s: Bytes, ip: nat, w: Word16)
    requires Complete(s, ip) && CoversCheck(s, ip)
    ensures Received(s, ip, w) == 0xFFFF <==> Alike(w, CheckWord(Cleared(s, ip), ip))
  {
    hide Norm, OnesSum, Sum, Covered, CoversCheck, Complete, LayoutOf, CheckWord, Received;
    ReceivedIsNorm(s, ip, w);
    CheckWordIsNorm(Cleared(s, ip), ip);
    AllOnes(Sum(Covered(Cleared(s, ip), ip)), w);
  }

  /** In particular the packet the code leaves. */
  lemma ChecksummedIsAccepted(s: Bytes, ip: nat)
    requires Complete(s, ip) && CoversCheck(s, ip)
    ensures LayoutOf(s, ip).len >= 0 && OnesSum(Covered(Checksummed(s, ip), ip)) == 0xFFFF
  {
    assert LayoutOf(s, ip).len >= 0;
    hide Norm, OnesSum, Sum, Covered, CoversCheck, Complete, LayoutOf, CheckWord;
    ReceiverAccepts(s, ip, CheckWord(Cleared(s, ip), ip));
  }

  lemma AllOnes(sum: nat, w: Word16)
    requires sum > 0
    ensures Norm(sum + w) == 0xFFFF <==> Alike(w, 0xFFFF - Norm(sum))
  {
    var q, m := (sum - 1) / 0xFFFF, Norm(sum);
    assert sum == q * 0xFFFF + m;
    assert sum + w - 1 == q * 0xFFFF + (m + w - 1);
    NormShift(m + w, q);
  }

  /** A UDP sender must not transmit zero, which would mean "no checksum": RFC 768 asks for all
      ones instead. The code stores zero exactly when the covered sum is a multiple of 0xFFFF. */
  lemma StoresZeroIff(s: Bytes, ip: nat)
    requires Complete(s, ip) && LayoutOf(s, ip).len >= 0
    ensures WordAt(Checksummed(s, ip), LayoutOf(s, ip).check) == 0 <==> Sum(Covered(Cleared(s, ip), ip)) % 0xFFFF == 0
  {
    hide OnesSum, Sum, Covered, Word;
    var z := Cleared(s, ip);
    CoveredSum(z, ip);
    OnesSumIsNorm(Covered(z, ip));
  }

  /** A UDP packet for which that happens. */
  function ZeroChecksumPacket(): Bytes {
    [0x45, 0, 0, 28, 0, 0, 0, 0, 32, UDP_PROTO, 0, 0, 0, 0, 0, 0, 0, 0, 0, 0,
     0xFF, 0xDE, 0, 0, 0, 8, 0, 0]
  }

  lemma SumEightBytes(s: Bytes)
    requires |s| == 8
    ensures Sum(WordsOf(s)) == WordAt(s, 0) as int + WordAt(s, 2) + WordAt(s, 4) + WordAt(s, 6)
  {
    hide Word;
    SumStep(s);
    SumStep(s[2..]);
    SumStep(s[2..][2..]);
    SumStep(s[2..][2..][2..]);
  }

  lemma ZeroUdp(s: Bytes)
    requires |s| == 28 && s[0] == 0x45 && s[9] == UDP_PROTO
    requires forall i :: 12 <= i < 20 ==> s[i] == 0
    requires s[20] == 0xFF && s[21] == 0xDE && s[22] == s[23] == s[24] == 0 && s[25] == 8 && s[26] == s[27] == 0
    ensures Complete(s, 0) && LayoutOf(s, 0).len >= 0 && Sum(Covered(Cleared(s, 0), 0)) == 0xFFFF
  {
    assert HeaderLen(0x45) == 20;
    assert LayoutOf(s, 0) == Layout(0, 20, 26, 8);
    assert Cleared(s, 0) == s;
    SumEightBytes(s[20..28]);
    PseudoSum(s, 0, 8);
    CoveredSum(s, 0);
  }

  lemma ZeroUdpChecksum()
    ensures var s := ZeroChecksumPacket();
      && Complete(s, 0) && IsUdp(s, 0)
      && WordAt(Checksummed(s, 0), LayoutOf(s, 0).check) == 0
  {
    hide Complete, Covered, Sum, Checksummed, LayoutOf, Cleared;
    ZeroUdp(ZeroChecksumPacket());
    StoresZeroIff(ZeroChecksumPacket(), 0);
  }

  /** The code stays within the packet; it does nothing to one that is neither TCP nor UDP. */
  predicate Summable(s: Bytes, ip: nat) {
    && ip + 20 <= |s|
    && (IsTcp(s, ip) || IsUdp(s, ip) ==> Complete(s, ip))
  }

  /** What csum_with_psuedo leaves: a new checksum for TCP and UDP, anything else untouched. */
  function Recomputed(s: Bytes, ip: nat): Bytes
    requires Summable(s, ip)
  {
    if IsTcp(s, ip) || IsUdp(s, ip) then Checksummed(s, ip) else s
  }

  /** Where the transport header and its check field are, and how many bytes to sum; not inside
      when that leads beyond the packet. */
  method Locate(data: array<Byte>, ip: nat) returns (inside: bool, trans: nat, check: nat, len: int)
    requires ip + 20 <= data.Length && (IsTcp(data[..], ip) || IsUdp(data[..], ip))
    ensures inside <==> Complete(data[..], ip)
    ensures inside ==> LayoutOf(data[..], ip) == Layout(ip, trans, check, len)
    ensures trans == ip + data[ip] % 16 * 4 && check == trans + (if data[ip + 9] == 6 then 16 else 6)
    ensures inside ==> len == if data[ip + 9] == 6
                              then data[ip + 2] as int * 256 + data[ip + 3] - data[ip] % 16 * 4
                              else data[trans + 4] as int * 256 + data[trans + 5]
  {
    trans := ip + HeaderLen(data[ip]);
    check, len := trans + 6, 0;
    if data[ip + 9] == TCP_PROTO {
      check := trans + 16;
      len := Word(data[ip + 2], data[ip + 3]) - HeaderLen(data[ip]);
    } else if trans + 8 > data.Length {
      return false, trans, check, len;
    } else {
      len := Word(data[trans + 4], data[trans + 5]);
    }
    inside := trans + len <= data.Length && check + 2 <= data.Length;
  }

  /** csum_with_psuedo, with the sum in an unsigned 32-bit variable. The answer false stands for
      reading or writing beyond the packet, where the model stops before anything is written. */
  method CsumWithPseudo(data: array<Byte>, ip: nat) returns (inside: bool)
    modifies data
    ensures inside <==> Summable(old(data[..]), ip)
    ensures data[..] == if inside then Recomputed(old(data[..]), ip) else old(data[..])
    ensures Complete(old(data[..]), ip) && LayoutOf(old(data[..]), ip).len >= 0 ==>
      WordAt(data[..], LayoutOf(old(data[..]), ip).check)
      == InternetChecksum(CoveredBytes(Cleared(old(data[..]), ip), ip))
  {
    if ip + 20 > data.Length {
      return false;
    }
    if data[ip + 9] != TCP_PROTO && data[ip + 9] != UDP_PROTO {
      return true;
    }
    ghost var s := data[..];
    var trans, check, len;
    inside, trans, check, len := Locate(data, ip);
    if inside {
      StoreWord(data, check, 0);
      assert data[..] == Cleared(s, ip);
      hide Word, WithWord, Cleared, Covered, OnesSum, DegenerateSum, Norm;
      var sum := SumAll(data, ip, trans, len);
      var w := FoldAndComplement(sum);
      CheckStored(s, ip, sum as int, w);
      StoreWord(data, check, w);
      if len >= 0 {
        StoredIsInternet(s, ip);
      }
    }
  }

  lemma StoredIsInternet(s: Bytes, ip: nat)
    requires Complete(s, ip) && LayoutOf(s, ip).len >= 0
    ensures WordAt(Checksummed(s, ip), LayoutOf(s, ip).check) == InternetChecksum(CoveredBytes(Cleared(s, ip), ip))
  {
    CheckWordIsInternet(Cleared(s, ip), ip);
    hide InternetChecksum, CoveredBytes, CheckWord, Word;
  }

  /** The sum the code arrives at before folding. */
  function Total(s: Bytes, ip: nat): nat
    requires Complete(s, ip)
  {
    if LayoutOf(s, ip).len >= 0 then Sum(Covered(s, ip)) else DegenerateSum(s, ip)
  }

  lemma WithWordTwice(s: Bytes, at: nat, v: Word16, w: Word16)
    requires at + 2 <= |s|
    ensures WithWord(WithWord(s, at, v), at, w) == WithWord(s, at, w)
  {
  }

  lemma CheckStored(s: Bytes, ip: nat, sum: nat, w: Word16)
    requires Complete(s, ip) && sum == Total(Cleared(s, ip), ip) && w == 0xFFFF - Norm(sum)
    ensures WithWord(Cleared(s, ip), LayoutOf(s, ip).check, w) == Checksummed(s, ip)
  {
    hide OnesSum, Covered, Norm, DegenerateSum, Sum, Word, HeaderLen;
    var z := Cleared(s, ip);
    assert CheckWord(z, ip) == w by {
      if LayoutOf(s, ip).len >= 0 {
        CheckWordIsNorm(z, ip);
      }
      hide Cleared, LayoutOf, Complete;
    }
    hide Complete, LayoutOf, CheckWord, Total;
    WithWordTwice(s, LayoutOf(s, ip).check, 0, w);
  }

  method FoldAndComplement(total: uint32) returns (w: Word16)
    ensures w == 0xFFFF - Norm(total as int)
  {
    FoldTwice(total as int);
    hide Norm;
    var sum := total / 0x1_0000 + total % 0x1_0000;
    sum := sum / 0x1_0000 + sum % 0x1_0000;
    w := 0xFFFF - sum as int;
  }

  method StoreWord(data: array<Byte>, at: nat, w: Word16)
    requires at + 2 <= data.Length
    modifies data
    ensures data[..] == WithWord(old(data[..]), at, w)
  {
    data[at], data[at + 1] := w / 256, w % 256;
  }

  method SumAll(data: array<Byte>, ip: nat, trans: nat, len: int) returns (sum: uint32)
    requires Complete(data[..], ip)
    requires var l := LayoutOf(data[..], ip); l.trans == trans && l.len == len
    ensures sum as int == Total(data[..], ip)
  {
    assert ip + 20 <= data.Length && trans + len <= data.Length && len < 0x1_0000;
    hide Covered, WordsOf, Sum, Complete, LayoutOf, HeaderLen, AddingPseudo, WordAt, Word, IsTcp, IsUdp;
    sum := 0;
    if len >= 0 {
      assert data[..][trans..trans + len] == data[trans..trans + len];
      sum := SumSegment(data, trans, len);
      CoveredIsAdding(data[..], ip);
    }
    sum := AddPseudo(data, ip, len, sum);
  }

  lemma CoveredIsAdding(s: Bytes, ip: nat)
    requires Complete(s, ip) && LayoutOf(s, ip).len >= 0
    ensures var l := LayoutOf(s, ip);
      Sum(Covered(s, ip)) == AddingPseudo(s, ip, l.len, Sum(WordsOf(s[l.trans..l.trans + l.len])))
  {
    hide Covered, PseudoHeader, WordsOf, Sum, HeaderLen, Word, AddingPseudo;
    var l := LayoutOf(s, ip);
    var len: Word16 := l.len;
    CoveredSum(s, ip);
    PseudoIsAdded(s, ip, len, Sum(WordsOf(s[l.trans..l.trans + l.len])));
    hide Complete, LayoutOf;
  }

  lemma PseudoIsAdded(s: Bytes, ip: nat, len: Word16, sum: nat)
    requires ip + 20 <= |s| && sum + Sum(PseudoHeader(s, ip, len)) < 0x1_0000_0000
    ensures AddingPseudo(s, ip, len, sum) == sum + Sum(PseudoHeader(s, ip, len))
  {
    PseudoSum(s, ip, len);
    hide PseudoHeader, Sum, Wrap32, WordAt;
  }

  /** The loop over the transport segment. */
  method SumSegment(data: array<Byte>, trans: nat, len: nat) returns (sum: uint32)
    requires trans + len <= data.Length && len < 0x1_0000
    ensures sum as int == Sum(WordsOf(data[trans..trans + len])) <= 0x8000 * 0xFFFF
  {
    ghost var seg := data[trans..trans + len];
    SumBound(seg);
    sum := 0;
    var i, curr := len, trans;
    while i > 1
      invariant 0 <= i <= len && curr == trans + len - i
      invariant sum as int + Sum(WordsOf(seg[len - i..])) == Sum(WordsOf(seg))
      decreases i
    {
      assert seg[len - i..][2..] == seg[len - i + 2..];
      sum := sum + Word(data[curr], data[curr + 1]) as uint32;
      i := i - 2;
      curr := curr + 2;
    }
    if i == 1 {
      sum := sum + Word(data[curr], 0) as uint32;
    }
  }

  /** Addresses, protocol and length; the last addition is the only one that can wrap. */
  method AddPseudo(data: array<Byte>, ip: nat, len: int, sum0: uint32) returns (sum: uint32)
    requires ip + 20 <= data.Length && sum0 as int <= 0x8000 * 0xFFFF
    ensures sum as int == AddingPseudo(data[..], ip, len, sum0 as int)
  {
    sum := sum0;
    sum := sum + Word(data[ip + 14], data[ip + 15]) as uint32;
    sum := sum + Word(data[ip + 12], data[ip + 13]) as uint32;
    sum := sum + Word(data[ip + 18], data[ip + 19]) as uint32;
    sum := sum + Word(data[ip + 16], data[ip + 17]) as uint32;
    sum := sum + data[ip + 9] as uint32;
    sum := Wrap32(sum as int + len) as uint32;
  }

  /** udp_csum and then tcp_csum, as the NAT calls them. tcp_csum does not ask whether the packet
      is TCP, so a UDP packet is summed twice; the result is that of one computation. */
  method FixChecksums(data: array<Byte>, ip: nat) returns (inside: bool)
    modifies data
    ensures inside <==> Summable(old(data[..]), ip)
    ensures data[..] == if inside then Recomputed(old(data[..]), ip) else old(data[..])
  {
    if ip + 20 <= data.Length && data[ip + 9] == UDP_PROTO {
      inside := CsumWithPseudo(data, ip);
      if !inside {
        return;
      }
      ChecksumIdempotent(old(data[..]), ip);
    }
    inside := CsumWithPseudo(data, ip);
  }

  /** Address and port fields of the two rewriting directions of nat.c. */
  function AddrAt(ip: nat, inbound: bool): nat {
    if inbound then ip + 16 else ip + 12
  }

  /** A packet with another address (two words) and, for TCP and UDP, another port. */
  function Readdressed(s: Bytes, ip: nat, inbound: bool, hi: Word16, lo: Word16, port: Word16): (r: Bytes)
    requires Summable(s, ip) && HeaderLen(s[ip]) >= 20
    ensures Summable(r, ip) && r[ip] == s[ip] && r[ip + 9] == s[ip + 9]
    ensures IsTcp(s, ip) || IsUdp(s, ip) ==> LayoutOf(r, ip) == LayoutOf(s, ip)
  {
    var r := WithAddress(s, ip, inbound, hi, lo);
    if IsTcp(s, ip) || IsUdp(s, ip) then WithPort(s, r, ip, inbound, port) else r
  }

  function WithAddress(s: Bytes, ip: nat, inbound: bool, hi: Word16, lo: Word16): (r: Bytes)
    requires ip + 20 <= |s|
    ensures |r| == |s| && forall i :: 0 <= i < |s| && !(ip + 12 <= i < ip + 20) ==> r[i] == s[i]
  {
    WithWord(WithWord(s, AddrAt(ip, inbound), hi), AddrAt(ip, inbound) + 2, lo)
  }

  function WithPort(s: Bytes, r: Bytes, ip: nat, inbound: bool, port: Word16): (q: Bytes)
    requires Complete(s, ip) && HeaderLen(s[ip]) >= 20 && |r| == |s|
    requires forall i :: 0 <= i < |s| && !(ip + 12 <= i < ip + 20) ==> r[i] == s[i]
    ensures Complete(q, ip) && LayoutOf(q, ip) == LayoutOf(s, ip) && q[ip] == s[ip] && q[ip + 9] == s[ip + 9]
  {
    var trans := LayoutOf(s, ip).trans;
    var q := WithWord(r, if inbound then trans + 2 else trans, port);
    assert SameFrame(s, q, ip) by {
      hide WithWord, Word, HeaderLen;
    }
    KeepsLayout(s, q, ip);
    q
  }

  /** What a rewrite changes: going in, destination address and port; going out, source address and
      port; the check field; and no other byte. */
  lemma RewriteChanges(s: Bytes, ip: nat, inbound: bool, hi: Word16, lo: Word16, port: Word16)
    requires Summable(s, ip) && HeaderLen(s[ip]) >= 20
    ensures var q := Recomputed(Readdressed(s, ip, inbound, hi, lo, port), ip);
      var ports, trans := s[ip + 9] == 6 || s[ip + 9] == 17, ip + s[ip] % 16 * 4;
      var addr, portAt := ip + (if inbound then 16 else 12), trans + (if inbound then 2 else 0);
      var check := trans + (if s[ip + 9] == 6 then 16 else 6);
      && |q| == |s| && WordAt(q, addr) == hi && WordAt(q, addr + 2) == lo
      && (ports ==> portAt + 2 <= |s| && WordAt(q, portAt) == port)
      && forall i :: 0 <= i < |s| && !(addr <= i < addr + 4) && !(ports && portAt <= i < portAt + 2) ==>
           !(ports && check <= i < check + 2) ==> q[i] == s[i]
  {
    var r := Readdressed(s, ip, inbound, hi, lo, port);
    ReaddressedBytes(s, ip, inbound, hi, lo, port);
    var q := Recomputed(r, ip);
    if IsTcp(s, ip) || IsUdp(s, ip) {
      assert LayoutOf(r, ip) == LayoutOf(s, ip);
      assert forall i :: 0 <= i < |s| && i != LayoutOf(s, ip).check && i != LayoutOf(s, ip).check + 1 ==> q[i] == r[i];
    }
    hide Recomputed, Readdressed, Checksummed;
  }

  lemma ReaddressedBytes(s: Bytes, ip: nat, inbound: bool, hi: Word16, lo: Word16, port: Word16)
    requires Summable(s, ip) && HeaderLen(s[ip]) >= 20
    ensures var r := Readdressed(s, ip, inbound, hi, lo, port);
      var ports, trans := s[ip + 9] == 6 || s[ip + 9] == 17, ip + s[ip] % 16 * 4;
      var addr, portAt := ip + (if inbound then 16 else 12), trans + (if inbound then 2 else 0);
      && |r| == |s| && WordAt(r, addr) == hi && WordAt(r, addr + 2) == lo
      && (ports ==> portAt + 2 <= |s| && WordAt(r, portAt) == port)
      && forall i :: 0 <= i < |s| && !(addr <= i < addr + 4) && !(ports && portAt <= i < portAt + 2) ==> r[i] == s[i]
  {
    var addr := ip + (if inbound then 16 else 12);
    var a := WithWord(s, addr, hi);
    var b := WithWord(a, addr + 2, lo);
    assert WithAddress(s, ip, inbound, hi, lo) == b;
    assert WordAt(b, addr) == hi && WordAt(b, addr + 2) == lo;
    hide WithWord, Word;
  }

  /** The packet rewrite of do_nat_inbound_rewrite and do_nat_outbound_rewrite: the new address and
      port go in, every other byte but the check field stays, and the receiver's sum comes out
      right whatever the old checksum was. */
  method NatRewrite(data: array<Byte>, ip: nat, inbound: bool, hi: Word16, lo: Word16, port: Word16)
    returns (inside: bool)
    requires ip + 20 <= data.Length && HeaderLen(data[ip]) >= 20
    modifies data
    ensures inside <==> Summable(old(data[..]), ip)
    ensures data[..] ==
              if inside then Recomputed(Readdressed(old(data[..]), ip, inbound, hi, lo, port), ip) else old(data[..])
    ensures Complete(old(data[..]), ip) && CoversCheck(old(data[..]), ip) ==> OnesSum(Covered(data[..], ip)) == 0xFFFF
  {
    ghost var s := data[..];
    var ports := data[ip + 9] == TCP_PROTO || data[ip + 9] == UDP_PROTO;
    var trans := ip + HeaderLen(data[ip]);
    if ports {
      var t, check, len;
      inside, t, check, len := Locate(data, ip);
      if !inside {
        return;
      }
    }
    var at := AddrAt(ip, inbound);
    StoreWord(data, at, hi);
    StoreWord(data, at + 2, lo);
    if ports {
      StoreWord(data, if inbound then trans + 2 else trans, port);
    }
    ghost var r := data[..];
    assert r == Readdressed(s, ip, inbound, hi, lo, port);
    hide WithAddress, WithPort, WithWord, Word, Readdressed, HeaderLen;
    inside := FixChecksums(data, ip);
    if Complete(s, ip) && CoversCheck(s, ip) {
      ChecksummedIsAccepted(r, ip);
    }
  }
}
