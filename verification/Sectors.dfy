/**
 512-byte sectors and the 32-bit little-endian words laid out in them: inode records,
 indirect block tables and the number fields of directory entries.
 */
module Sectors {

  const SECTOR_SIZE: nat := 512
  const WORD_LIMIT: nat := 0x1_0000_0000

  type byte = b: int | 0 <= b < 256

  type Sector = s: seq<byte> | |s| == 512 witness seq(512, i => 0)

  /** The disk, by sector address. */
  type Drive = map<nat, Sector>

  /** A sector of zeros. */
  function ZeroSector(): (s: Sector)
    ensures forall i :: 0 <= i < 512 ==> s[i] == 0
  {
    seq(512, i => 0)
  }

  /** memcpy(dst + off, src, |src|) into a buffer. */
  function Splice(dst: seq<byte>, off: nat, src: seq<byte>): (r: seq<byte>)
    requires off + |src| <= |dst|
    ensures |r| == |dst|
    ensures forall i :: 0 <= i < |dst| ==> r[i] == if off <= i < off + |src| then src[i - off] else dst[i]
  {
    dst[..off] + src + dst[off + |src|..]
  }

  // ---------------------------------------------------------------- words

  function ByteOf(w: nat, j: nat): byte
    requires j < 4
  {
    if j == 0 then w % 256
    else if j == 1 then w / 256 % 256
    else if j == 2 then w / 256 / 256 % 256
    else w / 256 / 256 / 256 % 256
  }

  function EncWords(ws: seq<nat>): (s: seq<byte>)
    ensures |s| == 4 * |ws|
  {
    seq(4 * |ws|, i requires 0 <= i < 4 * |ws| => ByteOf(ws[i / 4], i % 4))
  }

  function DecWord(s: seq<byte>, off: nat): nat
    requires off + 4 <= |s|
  {
    var b0: int, b1: int, b2: int, b3: int := s[off], s[off + 1], s[off + 2], s[off + 3];
    b0 + 256 * b1 + 65536 * b2 + 16777216 * b3
  }

  function DecWords(s: seq<byte>, off: nat, n: nat): (ws: seq<nat>)
    requires off + 4 * n <= |s|
    ensures |ws| == n
  {
    if n == 0 then [] else DecWords(s, off, n - 1) + [DecWord(s, off + 4 * (n - 1))]
  }

  lemma {:induction false} DecWordsAt(s: seq<byte>, off: nat, n: nat, k: nat)
    requires off + 4 * n <= |s| && k < n
    ensures DecWords(s, off, n)[k] == DecWord(s, off + 4 * k)
  {
    if k < n - 1 { DecWordsAt(s, off, n - 1, k); }
  }

  predicate IsWord(w: nat) { w < WORD_LIMIT }

  lemma WordBytes(w: nat)
    requires IsWord(w)
    ensures ByteOf(w, 0) as int + 256 * (ByteOf(w, 1) as int) + 65536 * (ByteOf(w, 2) as int)
          + 16777216 * (ByteOf(w, 3) as int) == w
  {
    var q1 := w / 256;
    var q2 := q1 / 256;
    var q3 := q2 / 256;
    assert w == 256 * q1 + w % 256;
    assert q1 == 256 * q2 + q1 % 256;
    assert q2 == 256 * q3 + q2 % 256;
    assert q3 < 256;
  }

  /** A word written anywhere in a buffer is read back as itself. */
  lemma WordRoundTrip(s: seq<byte>, off: nat, ws: seq<nat>, k: nat)
    requires k < |ws| && IsWord(ws[k])
    requires off + 4 * |ws| <= |s| && s[off..off + 4 * |ws|] == EncWords(ws)
    ensures DecWord(s, off + 4 * k) == ws[k]
  {
    var e := EncWords(ws);
    forall j | 0 <= j < 4
      ensures s[off + 4 * k + j] == ByteOf(ws[k], j)
    {
      assert e[4 * k + j] == ByteOf(ws[(4 * k + j) / 4], (4 * k + j) % 4);
      assert s[off + 4 * k + j] == s[off..off + 4 * |ws|][4 * k + j];
    }
    WordBytes(ws[k]);
  }

  lemma WordsRoundTrip(s: seq<byte>, off: nat, ws: seq<nat>)
    requires forall k :: 0 <= k < |ws| ==> IsWord(ws[k])
    requires off + 4 * |ws| <= |s| && s[off..off + 4 * |ws|] == EncWords(ws)
    ensures DecWords(s, off, |ws|) == ws
  {
    forall k | 0 <= k < |ws|
      ensures DecWords(s, off, |ws|)[k] == ws[k]
    {
      WordRoundTrip(s, off, ws, k);
      DecWordsAt(s, off, |ws|, k);
    }
  }
}
