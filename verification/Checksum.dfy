/**
 The Internet checksum of ping packets: the complement of the ones' complement sum of the packet's 16-bit words
 (section 1 of RFC 1071), for words in the byte order of a little-endian host.
 */
module Checksum {

  type Octet = x: int | 0 <= x < 256
  type Word = x: int | 0 <= x < 65536
  newtype int32 = x: int | -0x8000_0000 <= x < 0x8000_0000

  /** Word k of the packet; a last odd byte is taken as if a zero byte followed. */
  function WordAt(packet: seq<Octet>, k: nat): Word
    requires 2 * k < |packet|
  {
    var low: int, high: int := packet[2 * k], if 2 * k + 1 < |packet| then packet[2 * k + 1] else 0;
    low + 256 * high
  }

  function Words(packet: seq<Octet>): seq<Word> {
    seq((|packet| + 1) / 2, k requires 0 <= k < (|packet| + 1) / 2 => WordAt(packet, k))
  }

  /** Ones' complement addition: a carry out of the word is added back at its low end. */
  function OnesAdd(a: Word, b: Word): Word {
    if a + b < 65536 then a + b else a + b - 65535
  }

  function OnesSum(words: seq<Word>): Word {
    if words == [] then 0 else OnesAdd(OnesSum(words[..|words| - 1]), words[|words| - 1])
  }

  function Complement(w: Word): Word {
    65535 - w
  }

  /** The checksum as RFC 1071 defines it. */
  function Checksum(packet: seq<Octet>): Word {
    Complement(OnesSum(Words(packet)))
  }

  lemma SumAppend(words: seq<Word>, w: Word)
    ensures OnesSum(words + [w]) == OnesAdd(OnesSum(words), w)
  {
    assert (words + [w])[..|words|] == words;
  }

  /** The numerical example of section 3 of RFC 1071, on a little-endian host. */
  lemma ChecksumExample()
    ensures Checksum([0x00, 0x01, 0xf2, 0x03, 0xf4, 0xf5, 0xf6, 0xf7]) == 65535 - 0xf2dd
  {
    assert Words([0x00, 0x01, 0xf2, 0x03, 0xf4, 0xf5, 0xf6, 0xf7]) == [0x0100] + [0x03f2] + [0xf5f4] + [0xf7f6];
    SumAppend([], 0x0100);
    assert [] + [0x0100] == [0x0100];
    SumAppend([0x0100], 0x03f2);
    SumAppend([0x0100] + [0x03f2], 0xf5f4);
    SumAppend([0x0100] + [0x03f2] + [0xf5f4], 0xf7f6);
  }

  // ---------- Words stand for residues modulo 65535, with two forms of zero ----------

  function Total(words: seq<Word>): nat {
    if words == [] then 0 else Total(words[..|words| - 1]) + words[|words| - 1]
  }

  /** What a word says about the total it came from. */
  ghost predicate Stands(w: Word, total: nat) {
    w % 65535 == total % 65535 && (w == 0 <==> total == 0)
  }

  lemma StandsOnce(v: Word, w: Word, total: nat)
    requires Stands(v, total) && Stands(w, total)
    ensures v == w
  {
  }

  lemma {:induction false} SumStands(words: seq<Word>)
    ensures Stands(OnesSum(words), Total(words))
  {
    if words != [] {
      SumStands(words[..|words| - 1]);
    }
  }

  lemma {:induction false} TotalFits(words: seq<Word>)
    ensures Total(words) <= 65535 * |words|
  {
    if words != [] {
      TotalFits(words[..|words| - 1]);
    }
  }

  lemma {:induction false} TotalUpdate(words: seq<Word>, i: nat, w: Word)
    requires i < |words|
    ensures Total(words[i := w]) == Total(words) - words[i] + w
  {
    var n := |words| - 1;
    if i == n {
      assert words[i := w][..n] == words[..n];
    } else {
      assert words[i := w][..n] == words[..n][i := w];
      TotalUpdate(words[..n], i, w);
    }
  }

  // ---------- The loop ----------

  lemma TotalEmpty(words: seq<Word>)
    ensures Total(words[..0]) == 0
  {
  }

  lemma TotalNext(words: seq<Word>, k: nat)
    requires k < |words|
    ensures Total(words[..k + 1]) == Total(words[..k]) + words[k]
    ensures Total(words[..k + 1]) <= 65535 * (k + 1)
  {
    assert words[..k + 1][..k] == words[..k];
    TotalFits(words[..k + 1]);
  }

  /** A sum's high half is added to its low half, and then the carry out of that. */
  function Folded(sum: int32): int32
    requires sum >= 0
  {
    var once := sum / 65536 + sum % 65536;
    once + once / 65536
  }

  /** The two additions keep what the sum stands for, and leave no second carry. */
  lemma FoldStands(sum: int32)
    requires sum >= 0
    ensures 0 <= Folded(sum) && Stands((Folded(sum) % 65536) as int, sum as int)
  {
    var once := sum as int / 65536 + sum as int % 65536;
    assert sum as int == 65535 * (sum as int / 65536) + once;
    assert (once + once / 65536) % 65536 == once - 65535 * (once / 65536);
  }

  /** No sum of up to 32768 words and a byte overflows the 32-bit accumulator. */
  method Cksum(packet: seq<Octet>) returns (answer: Word)
    requires |packet| <= 2 * 32768 + 1
    ensures answer == Checksum(packet)
  {
    hide Total, OnesSum, Stands, Folded;
    var nleft := |packet|;
    var sum: int32 := 0;
    var k := 0;
    ghost var words := Words(packet);
    assert Total(words[..0]) == 0 by { TotalEmpty(words); }
    while nleft > 1
      invariant nleft == |packet| - 2 * k && 0 <= nleft && 0 <= k <= 32768
      invariant k <= |words| == (|packet| + 1) / 2
      invariant sum as int == Total(words[..k]) <= 65535 * k
    {
      TotalNext(words, k);
      sum := sum + WordAt(packet, k) as int32;
      k := k + 1;
      nleft := nleft - 2;
    }
    if nleft == 1 {
      TotalNext(words, k);
      sum := sum + packet[2 * k] as int32;
      k := k + 1;
    }
    assert words[..k] == words;
    FoldStands(sum);
    SumStands(words);
    sum := Folded(sum);
    StandsOnce((sum % 65536) as int, OnesSum(words), Total(words));
    answer := 65535 - (sum % 65536) as int;
  }

  // ---------- What the checksum is for ----------

  /** The packet with word k set to w, low byte first. */
  function Store(packet: seq<Octet>, k: nat, w: Word): seq<Octet>
    requires 2 * k + 1 < |packet|
  {
    packet[2 * k := w % 256][2 * k + 1 := w / 256]
  }

  lemma StoreSetsWord(packet: seq<Octet>, k: nat, w: Word)
    requires 2 * k + 1 < |packet|
    ensures k < |Words(packet)| && Words(Store(packet, k, w)) == Words(packet)[k := w]
  {
    forall i | 0 <= i < |Words(packet)|
      ensures Words(Store(packet, k, w))[i] == Words(packet)[k := w][i]
    {
    }
  }

  /**
   A packet whose checksum field was zero while the checksum was computed passes the receiver's test, recomputing to
   zero, with exactly the computed checksum stored in the field; where that is 0, the other form of zero passes too.
   */
  lemma StoredChecksumVerifies(packet: seq<Octet>, k: nat, w: Word)
    requires 2 * k + 1 < |packet| && packet[2 * k] == 0 && packet[2 * k + 1] == 0
    ensures Checksum(Store(packet, k, w)) == 0 <==> w == Checksum(packet) || (w == 65535 && Checksum(packet) == 0)
  {
    var words := Words(packet);
    StoreSetsWord(packet, k, w);
    TotalUpdate(words, k, w);
    SumStands(words);
    SumStands(words[k := w]);
    assert words[k] == 0;
    Vanishes(OnesSum(words), OnesSum(words[k := w]), Total(words), w);
  }

  lemma Vanishes(before: Word, after: Word, total: nat, w: Word)
    requires Stands(before, total) && Stands(after, total + w)
    ensures after == 65535 <==> w == 65535 - before || (w == 65535 && before == 65535)
  {
    assert (total + w) % 65535 == (before + w) % 65535;
  }

  /**
   A change of one word goes unnoticed only between the two forms of zero, and then only if some other word is not zero.
   */
  lemma ChangeIsNoticed(packet: seq<Octet>, k: nat, w: Word)
    requires 2 * k + 1 < |packet|
    ensures var was := WordAt(packet, k);
            Checksum(Store(packet, k, w)) == Checksum(packet) <==>
              w == was
              || ({w, was} == {0, 65535} && exists i :: 0 <= i < |Words(packet)| && i != k && Words(packet)[i] != 0)
  {
    var words := Words(packet);
    StoreSetsWord(packet, k, w);
    TotalUpdate(words, k, w);
    TotalUpdate(words, k, 0);
    SumStands(words);
    SumStands(words[k := w]);
    TotalZero(words[k := 0]);
    assert forall i :: 0 <= i < |words| && i != k ==> words[k := 0][i] == words[i];
    Unnoticed(OnesSum(words), OnesSum(words[k := w]), Total(words[k := 0]), words[k], w);
  }

  lemma Unnoticed(before: Word, after: Word, rest: nat, was: Word, w: Word)
    requires Stands(before, rest + was) && Stands(after, rest + w)
    ensures before == after <==> w == was || ({w, was} == {0, 65535} && rest != 0)
  {
  }

  lemma {:induction false} TotalZero(words: seq<Word>)
    ensures Total(words) == 0 <==> forall i :: 0 <= i < |words| ==> words[i] == 0
  {
    if words != [] {
      var n := |words| - 1;
      TotalZero(words[..n]);
      assert forall i :: 0 <= i < n ==> words[..n][i] == words[i];
    }
  }

  // ---------- Byte order ----------

  function Swap(w: Word): Word {
    w % 256 * 256 + w / 256
  }

  /** The packet in whole words: with a zero byte behind a last odd one. */
  function Padded(packet: seq<Octet>): (r: seq<Octet>)
    ensures |r| % 2 == 0
  {
    if |packet| % 2 == 0 then packet else packet + [0]
  }

  /** The packet with the two bytes of every word exchanged. */
  function Swapped(packet: seq<Octet>): seq<Octet> {
    var whole := Padded(packet);
    seq(|whole|, i requires 0 <= i < |whole| => whole[if i % 2 == 0 then i + 1 else i - 1])
  }

  function SwapAll(words: seq<Word>): seq<Word> {
    seq(|words|, i requires 0 <= i < |words| => Swap(words[i]))
  }

  lemma SwapStands(w: Word)
    ensures Swap(w) % 65535 == 256 * w % 65535 && (Swap(w) == 0 <==> w == 0)
  {
    assert 256 * w == 65535 * (w / 256) + Swap(w);
  }

  lemma ScaledSum(a: nat, b: nat, c: nat, d: nat)
    requires a % 65535 == 256 * b % 65535 && c % 65535 == 256 * d % 65535
    ensures (a + c) % 65535 == 256 * (b + d) % 65535
  {
    ModSum(a, c);
    ModSum(256 * b, 256 * d);
  }

  lemma ModSum(x: nat, y: nat)
    ensures (x + y) % 65535 == (x % 65535 + y % 65535) % 65535
  {
    assert x + y == x % 65535 + y % 65535 + 65535 * (x / 65535 + y / 65535);
    PlusMultiple(x % 65535 + y % 65535, x / 65535 + y / 65535);
  }

  lemma ScaledSame(a: nat, b: nat)
    requires a % 65535 == b % 65535
    ensures 256 * a % 65535 == 256 * b % 65535
  {
    PlusMultiple(256 * (a % 65535), 256 * (a / 65535));
    PlusMultiple(256 * (b % 65535), 256 * (b / 65535));
  }

  lemma PlusMultiple(x: nat, k: nat)
    ensures (x + 65535 * k) % 65535 == x % 65535
  {
    assert (x + 65535 * k) / 65535 == x / 65535 + k;
  }

  lemma {:induction false} SwapTotal(words: seq<Word>)
    ensures Total(SwapAll(words)) % 65535 == 256 * Total(words) % 65535
    ensures Total(SwapAll(words)) == 0 <==> Total(words) == 0
  {
    if words != [] {
      var n := |words| - 1;
      assert SwapAll(words)[..n] == SwapAll(words[..n]);
      SwapTotal(words[..n]);
      SwapStands(words[n]);
      hide SwapAll, Swap;
      ScaledSum(Total(SwapAll(words[..n])), Total(words[..n]), Swap(words[n]), words[n]);
    }
  }

  lemma WordsOfSwapped(packet: seq<Octet>)
    ensures Words(Swapped(packet)) == SwapAll(Words(packet))
  {
    hide WordAt, Swap;
    forall k | 0 <= k < |Words(packet)|
      ensures WordAt(Swapped(packet), k) == Swap(WordAt(packet, k))
    {
      SwappedWord(packet, k);
    }
  }

  lemma SwappedWord(packet: seq<Octet>, k: nat)
    requires 2 * k < |packet|
    ensures 2 * k < |Swapped(packet)| && WordAt(Swapped(packet), k) == Swap(WordAt(packet, k))
  {
    hide Swap;
    var whole := Padded(packet);
    var low, high := whole[2 * k], whole[2 * k + 1];
    assert Swapped(packet)[2 * k] == high && Swapped(packet)[2 * k + 1] == low;
    SwapOfPair(low, high);
  }

  lemma SwapOfPair(low: Octet, high: Octet)
    ensures Swap(low + 256 * (high as int)) == high + 256 * (low as int)
  {
  }

  lemma SwapComplement(w: Word)
    ensures Complement(Swap(w)) == Swap(Complement(w))
  {
    assert w == 256 * (w / 256) + w % 256;
    assert Complement(w) == 256 * (255 - w / 256) + (255 - w % 256);
  }

  /** Exchanging the bytes of every word exchanges the bytes of the checksum (section 2 of RFC 1071). */
  lemma ChecksumOfSwapped(packet: seq<Octet>)
    ensures Checksum(Swapped(packet)) == Swap(Checksum(packet))
  {
    var words := Words(packet);
    var sum := OnesSum(words);
    WordsOfSwapped(packet);
    SumStands(words);
    SumStands(SwapAll(words));
    SwapTotal(words);
    SwapStands(sum);
    ScaledSame(sum, Total(words));
    SwapComplement(sum);
    hide Total, OnesSum, Swap, SwapAll, Words, Complement;
    StandsOnce(Swap(sum), OnesSum(SwapAll(words)), Total(SwapAll(words)));
  }

  /** A packet has the checksum of the same packet in whole words. */
  lemma ChecksumOfPadded(packet: seq<Octet>)
    ensures Checksum(Padded(packet)) == Checksum(packet)
  {
    assert Words(Padded(packet)) == Words(packet);
  }
}
