/**
 The kernel's bitmap: a byte array scanned and edited with one-bit masks.

 The bits are specified as a `seq<bool>`; `BitsOf` reads that sequence off the bytes.
 `bitmap_scan` looks at memory just past the map (the byte after the last one), so the
 class keeps that byte in its array and says so in `Valid`.
 */
module Bitmap {

  // ---------------------------------------------------------------- runs of clear bits

  predicate ClearRun(bits: seq<bool>, i: nat, cnt: nat) {
    i + cnt <= |bits| && forall k :: i <= k < i + cnt ==> !bits[k]
  }

  /** i is the lowest index at which cnt consecutive clear bits start. */
  predicate LowestRun(bits: seq<bool>, i: nat, cnt: nat) {
    ClearRun(bits, i, cnt) && forall j :: 0 <= j < i ==> !ClearRun(bits, j, cnt)
  }

  ghost predicate HasRun(bits: seq<bool>, cnt: nat) {
    exists i :: 0 <= i <= |bits| && ClearRun(bits, i, cnt)
  }

  predicate Full(bits: seq<bool>) {
    forall k :: 0 <= k < |bits| ==> bits[k]
  }

  // ---------------------------------------------------------------- bits of a byte

  function Mask(k: nat): bv8
    requires k < 8
  {
    1 << k
  }

  lemma MaskValues(k: nat)
    requires k < 8
    ensures Mask(k) == if k == 0 then 0x01 else if k == 1 then 0x02 else if k == 2 then 0x04 else if k == 3 then 0x08
                       else if k == 4 then 0x10 else if k == 5 then 0x20 else if k == 6 then 0x40 else 0x80
  {
    if k == 0 {} else if k == 1 {} else if k == 2 {} else if k == 3 {}
    else if k == 4 {} else if k == 5 {} else if k == 6 {} else {}
  }

  predicate BitOf(b: bv8, k: nat)
    requires k < 8
  {
    b & Mask(k) != 0
  }

  function BitsOf(bytes: seq<bv8>): (bits: seq<bool>)
    ensures |bits| == 8 * |bytes|
    ensures forall i :: 0 <= i < |bits| ==> bits[i] == BitOf(bytes[i / 8], i % 8)
  {
    seq(8 * |bytes|, i requires 0 <= i < 8 * |bytes| => BitOf(bytes[i / 8], i % 8))
  }

  lemma SetMask(b: bv8, k: nat, j: nat)
    requires k < 8 && j < 8
    ensures BitOf(b | Mask(k), j) == (j == k || BitOf(b, j))
  {
    MaskValues(k);
    MaskValues(j);
  }

  lemma ClearMask(b: bv8, k: nat, j: nat)
    requires k < 8 && j < 8
    ensures BitOf(b & !Mask(k), j) == (j != k && BitOf(b, j))
  {
    MaskValues(k);
    MaskValues(j);
  }

  function EditByte(b: bv8, k: nat, value: bool): bv8
    requires k < 8
  {
    if value then b | Mask(k) else b & !Mask(k)
  }

  method Edited(b: bv8, k: nat, value: bool) returns (r: bv8)
    requires k < 8
    ensures r == EditByte(b, k, value)
  {
    if value {
      r := b | Mask(k);
    } else {
      r := b & !Mask(k);
    }
  }

  lemma EditByteBit(b: bv8, k: nat, value: bool, j: nat)
    requires k < 8 && j < 8
    ensures BitOf(EditByte(b, k, value), j) == if j == k then value else BitOf(b, j)
  {
    if value { SetMask(b, k, j); } else { ClearMask(b, k, j); }
  }

  /** Editing one byte through its mask changes exactly one bit of the whole map. */
  lemma EditBit(bytes: seq<bv8>, p: nat, k: nat, value: bool)
    requires p < |bytes| && k < 8
    ensures BitsOf(bytes[p := EditByte(bytes[p], k, value)]) == BitsOf(bytes)[8 * p + k := value]
  {
    var after := BitsOf(bytes[p := EditByte(bytes[p], k, value)]);
    var before := BitsOf(bytes);
    forall i | 0 <= i < 8 * |bytes|
      ensures after[i] == before[8 * p + k := value][i]
    {
      EditBitAt(bytes, p, k, value, i);
    }
  }

  lemma EditBitAt(bytes: seq<bv8>, p: nat, k: nat, value: bool, i: nat)
    requires p < |bytes| && k < 8 && i < 8 * |bytes|
    ensures BitsOf(bytes[p := EditByte(bytes[p], k, value)])[i]
         == if i == 8 * p + k then value else BitsOf(bytes)[i]
  {
    if i / 8 == p {
      EditByteBit(bytes[p], k, value, i % 8);
    }
  }

  lemma FullByte(b: bv8)
    ensures b == 0xff <==> forall k :: 0 <= k < 8 ==> BitOf(b, k)
  {
    forall k | 0 <= k < 8 { MaskValues(k); }
    if forall k :: 0 <= k < 8 ==> BitOf(b, k) {
      assert BitOf(b, 0) && BitOf(b, 1) && BitOf(b, 2) && BitOf(b, 3);
      assert BitOf(b, 4) && BitOf(b, 5) && BitOf(b, 6) && BitOf(b, 7);
    }
  }

  // ---------------------------------------------------------------- the bitmap object

  /** bits with the cnt bits from i on set. */
  function SetRun(bits: seq<bool>, i: nat, cnt: nat): (r: seq<bool>)
    requires i + cnt <= |bits|
    ensures |r| == |bits|
    ensures forall k :: 0 <= k < |r| ==> r[k] == (bits[k] || i <= k < i + cnt)
  {
    seq(|bits|, k requires 0 <= k < |bits| => bits[k] || i <= k < i + cnt)
  }

  lemma TakeFits(all: seq<bool>, len: nat, cnt: nat, r: ScanResult)
    requires 8 * len < |all| && cnt >= 1
    requires cnt == 1 && r.Start? ==> LowestRun(all[..8 * len], r.index, 1)
    requires cnt > 1 && r.Start? ==> LowestRun(all[..8 * len + 1], r.index, cnt)
    requires r.NoRun? ==> cnt > 1 && !HasRun(all[..8 * len + 1], cnt)
    ensures r.NoRun? ==> !HasRun(all[..8 * len], cnt)
    ensures r.Start? ==> r.index + cnt <= |all|
    ensures r.Start? && HasRun(all[..8 * len], cnt) ==>
              && LowestRun(all[..8 * len], r.index, cnt)
              && SetRun(all, r.index, cnt)[..8 * len] == SetRun(all[..8 * len], r.index, cnt)
  {
    var view, ins := all[..8 * len], all[..8 * len + 1];
    if r.NoRun? && HasRun(view, cnt) {
      var j :| 0 <= j <= |view| && ClearRun(view, j, cnt);
      forall k | j <= k < j + cnt ensures !ins[k] { assert !view[k]; }
      assert ClearRun(ins, j, cnt);
    }
    if r.Start? && cnt > 1 {
      assert ins == view + [all[8 * len]];
      ScanInBounds(view, all[8 * len], r.index, cnt);
    }
  }

  /** What bitmap_scan does: the ASSERT at its head stops the kernel, or it returns an index or -1. */
  datatype ScanResult = Halted | NoRun | Start(index: nat)

  class BitmapObject {
    var bits: array<bv8>  // the map, then at least one byte of whatever memory follows it
    var len: nat          // btmp_bytes_len

    ghost predicate Valid()
      reads this
    {
      len < bits.Length
    }

    /** Every bit of the backing memory. */
    ghost function All(): (v: seq<bool>)
      reads this, bits
      ensures |v| == 8 * bits.Length
    {
      BitsOf(bits[..])
    }

    /** The bits of the map. */
    ghost function View(): (v: seq<bool>)
      requires Valid()
      reads this, bits
      ensures |v| == 8 * len
    {
      All()[..8 * len]
    }

    /** The bits of the map and the one bit after them that the scan also inspects. */
    ghost function Inspected(): (v: seq<bool>)
      requires Valid()
      reads this, bits
      ensures |v| == 8 * len + 1
    {
      All()[..8 * len + 1]
    }

    constructor (backing: array<bv8>, byteLen: nat)
      requires byteLen < backing.Length
      modifies backing
      ensures Valid() && bits == backing && len == byteLen
      ensures forall i :: 0 <= i < 8 * len ==> !View()[i]
      ensures forall k :: byteLen <= k < backing.Length ==> backing[k] == old(backing[k])
    {
      bits := backing;
      len := byteLen;
      new;
      var k := 0;
      while k < len
        invariant k <= len && bits == backing && len == byteLen
        invariant forall j :: 0 <= j < k ==> bits[j] == 0
        invariant forall j :: byteLen <= j < backing.Length ==> backing[j] == old(backing[j])
      {
        bits[k] := 0;
        k := k + 1;
      }
    }

    method Test(bitIdx: nat) returns (r: bool)
      requires Valid() && bitIdx <= 8 * len
      ensures r == Inspected()[bitIdx]
    {
      r := bits[bitIdx / 8] & Mask(bitIdx % 8) != 0;
    }

    method Set(bitIdx: nat, value: bool)
      requires bitIdx < 8 * bits.Length
      modifies bits
      ensures All() == old(All())[bitIdx := value]
    {
      var byteIdx, odd := bitIdx / 8, bitIdx % 8;
      EditBit(bits[..], byteIdx, odd, value);
      var b := Edited(bits[byteIdx], odd, value);
      bits[byteIdx] := b;
      assert bits[..] == old(bits[..])[byteIdx := b];
    }

    /**
     Scan, then set the run that was found, as vaddr_get does. The bits named by the answer
     and no others change, in the map and in the memory behind it.
     */
    method Take(cnt: nat) returns (r: ScanResult)
      requires Valid() && cnt >= 1
      modifies bits
      ensures r.Halted? <==> Full(old(View()))
      ensures r.Start? ==> r.index + cnt <= |All()| && All() == SetRun(old(All()), r.index, cnt)
      ensures r.Start? && HasRun(old(View()), cnt) ==>
                LowestRun(old(View()), r.index, cnt) && View() == SetRun(old(View()), r.index, cnt)
      ensures !r.Start? ==> All() == old(All())
      ensures r.NoRun? ==> !HasRun(old(View()), cnt)
    {
      r := Scan(cnt);
      ghost var all := All();
      ghost var view := View();
      TakeFits(all, len, cnt, r);
      if !r.Start? { return; }
      var k := 0;
      while k < cnt
        invariant k <= cnt && |All()| == |all|
        invariant All() == SetRun(all, r.index, k)
      {
        Set(r.index + k, true);
        k := k + 1;
      }
    }

    /** Lines 22-43: the first byte with a clear bit, then the first clear bit in it. */
    method ScanOne() returns (halted: bool, start: nat)
      requires Valid()
      ensures halted <==> Full(View())
      ensures !halted ==> LowestRun(View(), start, 1)
    {
      var idxByte := 0;
      while bits[idxByte] == 0xff && idxByte < len
        invariant idxByte <= len
        invariant forall j :: 0 <= j < idxByte ==> bits[j] == 0xff
        decreases len - idxByte
      {
        idxByte := idxByte + 1;
      }
      forall i | 0 <= i < 8 * idxByte
        ensures View()[i]
      {
        FullByte(bits[i / 8]);
      }
      if idxByte == len {
        return true, 0;
      }
      var idxBit := 0;
      FullByte(bits[idxByte]);
      while bits[idxByte] & Mask(idxBit) != 0
        invariant idxBit < 8
        invariant forall k :: 0 <= k < idxBit ==> BitOf(bits[idxByte], k)
        decreases 8 - idxBit
      {
        idxBit := idxBit + 1;
      }
      halted, start := false, idxByte * 8 + idxBit;
      assert start / 8 == idxByte && start % 8 == idxBit;
      assert !View()[start];
      forall j | 0 <= j < start
        ensures !ClearRun(View(), j, 1)
      {
        if j / 8 == idxByte { assert BitOf(bits[idxByte], j % 8); }
        assert View()[j];
      }
    }

    method Scan(cnt: nat) returns (r: ScanResult)
      requires Valid() && cnt >= 1
      ensures r.Halted? <==> Full(View())
      ensures cnt == 1 && r.Start? ==> LowestRun(View(), r.index, 1)
      ensures cnt > 1 && r.Start? ==> LowestRun(Inspected(), r.index, cnt)
      ensures !r.Halted? ==> (r.NoRun? <==> cnt > 1 && !HasRun(Inspected(), cnt))
    {
      var halted, start := ScanOne();
      if halted { return Halted; }
      if cnt == 1 { return Start(start); }
      assert Inspected()[..8 * len] == View();
      r := ScanRun(start, cnt, Inspected());
    }

    /** Lines 48-68: extend the first clear bit to a run of cnt. */
    method ScanRun(start: nat, cnt: nat, ghost ins: seq<bool>) returns (r: ScanResult)
      requires Valid() && cnt > 1
      requires ins == Inspected() && LowestRun(ins[..8 * len], start, 1)
      ensures !r.Halted?
      ensures r.Start? ==> LowestRun(ins, r.index, cnt)
      ensures r.NoRun? ==> !HasRun(ins, cnt)
    {
      hide LowestRun, HasRun, ClearRun, CountAt, NoRunBefore, Inspected, BitsOf;
      FirstInside(ins, start);
      var bitLeft, nextBit, count := len * 8 - start, start + 1, 1;
      StartOfCount(ins, start, cnt);
      CountFits(ins, nextBit, count, cnt);
      while bitLeft > 0
        invariant nextBit + bitLeft == |ins| && bitLeft >= 0 && count < cnt && count <= nextBit
        invariant CountAt(ins, nextBit, count, cnt)
        invariant NoRunBefore(ins, nextBit, cnt)
      {
        bitLeft := bitLeft - 1;
        var taken := Test(nextBit);
        if !taken { count := count + 1; } else { count := 0; }
        if count == cnt {
          EndOfCount(ins, nextBit, cnt);
          return Start(nextBit - cnt + 1);
        }
        NextCount(ins, nextBit, count, cnt);
        nextBit := nextBit + 1;
      }
      NoneAtAll(ins, cnt);
      return NoRun;
    }
  }

  /** count clear bits end just before n, and the bit before them (if any) is set. */
  predicate CountAt(bits: seq<bool>, n: nat, count: nat, cnt: nat) {
    && count < cnt && count <= n <= |bits|
    && (forall k :: n - count <= k < n ==> !bits[k])
    && (n == count || bits[n - count - 1])
  }

  predicate NoRunBefore(bits: seq<bool>, n: nat, cnt: nat) {
    forall j: nat :: j + cnt <= n ==> !ClearRun(bits, j, cnt)
  }

  lemma FirstInside(ins: seq<bool>, start: nat)
    requires |ins| > 0 && LowestRun(ins[..|ins| - 1], start, 1)
    ensures start < |ins| - 1
  {
  }

  lemma CountFits(bits: seq<bool>, n: nat, count: nat, cnt: nat)
    requires CountAt(bits, n, count, cnt)
    ensures count < cnt
  {
  }

  lemma NoneAtAll(bits: seq<bool>, cnt: nat)
    requires NoRunBefore(bits, |bits|, cnt)
    ensures !HasRun(bits, cnt)
  {
  }

  lemma StartOfCount(ins: seq<bool>, start: nat, cnt: nat)
    requires |ins| > 0 && LowestRun(ins[..|ins| - 1], start, 1) && cnt > 1
    ensures CountAt(ins, start + 1, 1, cnt) && NoRunBefore(ins, start + 1, cnt)
  {
    forall j | 0 <= j < start
      ensures ins[j]
    {
      assert !ClearRun(ins[..|ins| - 1], j, 1);
    }
    forall j: nat | j + cnt <= start + 1
      ensures !ClearRun(ins, j, cnt)
    {
      assert ins[j];
    }
  }

  lemma NextCount(bits: seq<bool>, n: nat, count: nat, cnt: nat)
    requires n < |bits| && count < cnt
    requires if bits[n] then count == 0 else count > 0 && CountAt(bits, n, count - 1, cnt)
    requires NoRunBefore(bits, n, cnt)
    ensures CountAt(bits, n + 1, count, cnt) && NoRunBefore(bits, n + 1, cnt)
  {
    forall j: nat | j + cnt <= n + 1
      ensures !ClearRun(bits, j, cnt)
    {
      if j + cnt == n + 1 {
        if bits[n] {} else { assert bits[n - count]; }
      }
    }
  }

  lemma EndOfCount(bits: seq<bool>, n: nat, cnt: nat)
    requires n < |bits| && !bits[n] && cnt > 1
    requires CountAt(bits, n, cnt - 1, cnt) && NoRunBefore(bits, n, cnt)
    ensures LowestRun(bits, n - cnt + 1, cnt)
  {
  }

  // ---------------------------------------------------------------- when the scan stays inside the map

  /**
   For a count of two or more the scan can answer with a run that reaches past the map.
   It stays inside exactly when the map itself has a run; otherwise the run ends with the bit behind the map.
   */
  lemma ScanInBounds(view: seq<bool>, beyond: bool, i: nat, cnt: nat)
    requires cnt > 1 && LowestRun(view + [beyond], i, cnt)
    ensures i + cnt <= |view| <==> HasRun(view, cnt)
    ensures HasRun(view, cnt) ==> LowestRun(view, i, cnt)
    ensures !HasRun(view, cnt) ==> i + cnt == |view| + 1 && !beyond
  {
    var ins := view + [beyond];
    forall j: nat | j + cnt <= |view|
      ensures ClearRun(view, j, cnt) <==> ClearRun(ins, j, cnt)
    {
      if ClearRun(ins, j, cnt) {
        forall k | j <= k < j + cnt ensures !view[k] { assert !ins[k]; }
      }
    }
    if HasRun(view, cnt) {
      var j :| 0 <= j <= |view| && ClearRun(view, j, cnt);
      assert ClearRun(ins, j, cnt);
      assert i <= j;
    }
    if i + cnt <= |view| { assert ClearRun(view, i, cnt); }
    else { assert !ins[|view|]; }
  }

  /** A map of one byte whose last bit is clear, with a clear bit behind it: the answer overruns. */
  lemma ScanOverrunExample()
    ensures LowestRun(BitsOf([0x7f]) + [false], 7, 2)
  {
    var v := BitsOf([0x7f]);
    forall k | 0 <= k < 8 ensures v[k] == (k != 7) {
      MaskValues(k);
      assert v[k] == BitOf([0x7f][k / 8], k % 8);
    }
    forall j | 0 <= j < 7 ensures !ClearRun(v + [false], j, 2) { assert (v + [false])[j]; }
  }
}
