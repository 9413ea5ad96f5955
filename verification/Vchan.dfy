/** The copies of libvchan_readwrite in place: a circular buffer filled and emptied with at most two
    block copies a turn. */
module Vchan {
  import opened Common
  import opened VchanModel

  lemma {:induction false} SendSizeInBounds(r: nat, filled: nat, size: nat)
    requires filled <= BUF_SIZE
    ensures SendSize(r + filled, r, size) == Min(BUF_SIZE - filled, size)
  {
  }

  /** The slots from `pos` on hold `src`. */
  ghost predicate At(buf: seq<byte>, pos: nat, src: seq<byte>)
    requires |buf| == BUF_SIZE
  {
    forall k | 0 <= k < |src| :: buf[Slot(pos + k)] == src[k]
  }

  /** Positions less than a buffer apart: the slot is further on, or further on and wrapped once. */
  lemma {:induction false} SlotAdd(pos: nat, k: nat)
    requires k <= BUF_SIZE
    ensures Slot(pos + k) == if Slot(pos) + k < BUF_SIZE then Slot(pos) + k else Slot(pos) + k - BUF_SIZE
    decreases pos
  {
    if pos >= BUF_SIZE {
      SlotAdd(pos - BUF_SIZE, k);
    }
  }

  function Around(x: nat): nat { if x < BUF_SIZE then x else x - BUF_SIZE }

  /** `slot` is not among the `n` slots from `start` on. */
  predicate Clear(start: nat, n: nat, slot: nat) {
    if start + n <= BUF_SIZE then slot < start || start + n <= slot else start + n - BUF_SIZE <= slot < start
  }

  /** `after` is `before` with `src` in the slots from `start` on, wrapping around. */
  ghost predicate Pasted(before: seq<byte>, after: seq<byte>, start: nat, src: seq<byte>)
    requires |before| == BUF_SIZE && |after| == BUF_SIZE && start < BUF_SIZE && |src| <= BUF_SIZE
  {
    && (forall k | 0 <= k < |src| :: after[Around(start + k)] == src[k])
    && (forall slot | 0 <= slot < BUF_SIZE && Clear(start, |src|, slot) :: after[slot] == before[slot])
  }

  /** Unread bytes are not where the next ones go. */
  lemma {:induction false} BehindIsFree(r: nat, n: nat, size: nat, k: nat)
    requires n + size <= BUF_SIZE && k < n
    ensures Clear(Slot(r + n), size, Slot(r + k))
  {
    SlotAdd(r, n);
    SlotAdd(r, k);
  }

  /** Copying behind the unread bytes appends to them. */
  lemma {:induction false} Append(before: seq<byte>, after: seq<byte>, r: nat, contents: seq<byte>, src: seq<byte>)
    requires |before| == BUF_SIZE && |after| == BUF_SIZE && |contents| + |src| <= BUF_SIZE
    requires At(before, r, contents) && Pasted(before, after, Slot(r + |contents|), src)
    ensures At(after, r, contents + src)
  {
    var n := |contents|;
    forall k | 0 <= k < n + |src| ensures after[Slot(r + k)] == (contents + src)[k] {
      if k < n {
        assert before[Slot(r + k)] == contents[k];
        BehindIsFree(r, n, |src|, k);
      } else {
        SlotAdd(r + n, k - n);
        assert r + n + (k - n) == r + k;
        assert after[Around(Slot(r + n) + (k - n))] == src[k - n];
      }
    }
  }

  /** memcpy into the buffer */
  method CopyIn(data: array<byte>, at: nat, src: seq<byte>)
    requires at + |src| <= data.Length
    modifies data
    ensures forall i | 0 <= i < data.Length :: data[i] == if at <= i < at + |src| then src[i - at] else old(data[i])
  {
    for i := 0 to |src|
      invariant forall k | 0 <= k < data.Length :: data[k] == if at <= k < at + i then src[k - at] else old(data[k])
    {
      data[at + i] := src[i];
    }
  }

  lemma {:induction false} SentMore(all: seq<byte>, src: seq<byte>, k: nat, n: nat, taken: seq<byte>, contents: seq<byte>)
    requires k + n <= |src| && all + src[..k] == taken + contents
    ensures all + src[..k + n] == taken + (contents + src[k..][..n])
  {
    assert src[..k + n] == src[..k] + src[k..][..n];
    assert all + (src[..k] + src[k..][..n]) == (all + src[..k]) + src[k..][..n];
  }

  class VchanBuf {
    var readPos: nat
    var writePos: nat
    const syncData: array<byte>
    /** The bytes written and not yet read. */
    ghost var contents: seq<byte>

    ghost predicate Valid()
      reads this, syncData
    {
      && syncData.Length == BUF_SIZE
      && writePos == readPos + |contents| && |contents| <= BUF_SIZE
      && At(syncData[..], readPos, contents)
    }

    constructor ()
      ensures Valid() && contents == [] && fresh(syncData)
    {
      readPos, writePos, contents := 0, 0, [];
      syncData := new byte[BUF_SIZE](i => 0);
    }

    /** The two copies of a send, from slot `start`. */
    method CopyWrapped(start: nat, src: seq<byte>)
      requires syncData.Length == BUF_SIZE && |src| <= BUF_SIZE && start < BUF_SIZE
      modifies syncData
      ensures Pasted(old(syncData[..]), syncData[..], start, src)
    {
      var size, remain := |src|, 0;
      if start + size > BUF_SIZE {
        remain := start + size - BUF_SIZE;
        size := size - remain;
      }
      CopyIn(syncData, start, src[..size]);
      CopyIn(syncData, 0, src[size..]);
    }

    /** One turn of a send: as much as fits, nothing when the buffer is full. */
    method SendOnce(src: seq<byte>) returns (n: nat)
      requires Valid()
      modifies this`writePos, this`contents, syncData
      ensures Valid() && n == Min(BUF_SIZE - |old(contents)|, |src|)
      ensures contents == old(contents) + src[..n]
    {
      n := SendSize(writePos, readPos, |src|);
      assert n == Min(BUF_SIZE - |contents|, |src|) by { SendSizeInBounds(readPos, |contents|, |src|); }
      SlotIsMod(writePos);
      ghost var before := syncData[..];
      CopyWrapped(writePos % BUF_SIZE, src[..n]);
      Append(before, syncData[..], readPos, contents, src[..n]);
      contents := contents + src[..n];
      writePos := writePos + n;
    }

    /** The two copies of a receive, at the read position. */
    method CopyOut(n: nat) returns (out: seq<byte>)
      requires Valid() && n <= |contents|
      ensures out == contents[..n]
    {
      SlotIsMod(readPos);
      var start := readPos % BUF_SIZE;
      var size, remain := n, 0;
      if start + size > BUF_SIZE {
        remain := start + size - BUF_SIZE;
        size := size - remain;
      }
      out := syncData[start..start + size] + syncData[..remain];
      forall k | 0 <= k < n ensures out[k] == contents[k] {
        SlotAdd(readPos, k);
        assert syncData[..][Slot(readPos + k)] == contents[k];
      }
    }

    /** One turn of a receive: what is there up to `size`, nothing when the buffer is empty. */
    method RecvOnce(size: nat) returns (out: seq<byte>)
      requires Valid()
      modifies this`readPos, this`contents
      ensures Valid() && |out| == Min(|old(contents)|, size)
      ensures old(contents) == out + contents
    {
      var n := RecvSize(writePos, readPos, size);
      out := CopyOut(n);
      ghost var rest := contents[n..];
      forall k | 0 <= k < |rest| ensures syncData[..][Slot(readPos + n + k)] == rest[k] {
        assert syncData[..][Slot(readPos + (n + k))] == contents[n + k];
      }
      contents := rest;
      readPos := readPos + n;
    }

    /** A whole non-stream send while the peer takes `turns[i]` bytes at the i-th wait.  Nothing is lost or
        reordered, and the send is over unless the buffer is full and the peer stopped reading. */
    method Send(src: seq<byte>, turns: seq<nat>) returns (k: nat, taken: seq<byte>)
      requires Valid()
      modifies this, syncData
      ensures Valid() && k <= |src|
      ensures old(contents) + src[..k] == taken + contents
      ensures k < |src| ==> |contents| == BUF_SIZE
    {
      k, taken := 0, [];
      var t := 0;
      while k < |src|
        invariant Valid() && k <= |src| && t <= |turns|
        invariant old(contents) + src[..k] == taken + contents
        decreases |src| - k, |turns| - t
      {
        ghost var before := contents;
        var n := SendOnce(src[k..]);
        if n == 0 {
          if t == |turns| {
            return;
          }
          var out := RecvOnce(turns[t]);
          assert taken + (out + contents) == (taken + out) + contents;
          taken := taken + out;
          t := t + 1;
        } else {
          SentMore(old(contents), src, k, n, taken, before);
          k := k + n;
        }
      }
    }
  }
}
