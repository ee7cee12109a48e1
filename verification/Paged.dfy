/**
 * The page pool behind the KV cache (core-runtime/src/memory/paged.rs): fixed-size pages
 * holding sixteen rows each, handed out once and zeroed when they come back.
 */
module Paged {
  import opened Wrappers

  const PAGE_TOKENS: nat := 16

  /** One appended pair. */
  datatype Row = Row(key: seq<real>, value: seq<real>)

  function Zeros(n: nat): seq<real> { seq(n, _ => 0.0) }

  function ZeroRow(h: nat): Row { Row(Zeros(h), Zeros(h)) }

  // ---------------------------------------------------------------- one page

  /** A page stores its rows flattened, one buffer for keys and one for values. */
  datatype Page = Page(keys: seq<real>, values: seq<real>, usedSlots: nat)

  predicate Sized(p: Page, h: nat) { |p.keys| == |p.values| == PAGE_TOKENS * h }

  function BlankPage(h: nat): Page { Page(Zeros(PAGE_TOKENS * h), Zeros(PAGE_TOKENS * h), 0) }

  lemma SlotFits(slot: nat, h: nat)
    requires slot < PAGE_TOKENS
    ensures slot * h + h <= PAGE_TOKENS * h
  {
    assert (slot + 1) * h <= PAGE_TOKENS * h;
  }

  function Splice(buf: seq<real>, offset: nat, x: seq<real>): (r: seq<real>)
    requires offset + |x| <= |buf|
    ensures |r| == |buf|
  {
    buf[..offset] + x + buf[offset + |x|..]
  }

  /** The row stored at an offset of the buffers, and the buffers with another row there. */
  function ReadAt(p: Page, offset: nat, h: nat): Row
    requires offset + h <= |p.keys| == |p.values|
  {
    Row(p.keys[offset..offset + h], p.values[offset..offset + h])
  }

  function WriteAt(p: Page, offset: nat, row: Row, used: nat): (r: Page)
    requires |row.key| == |row.value| && offset + |row.key| <= |p.keys| == |p.values|
    ensures |r.keys| == |r.values| == |p.keys|
  {
    Page(Splice(p.keys, offset, row.key), Splice(p.values, offset, row.value), used)
  }

  function WriteSlot(p: Page, h: nat, slot: nat, row: Row): (r: Page)
    requires Sized(p, h) && slot < PAGE_TOKENS && |row.key| == |row.value| == h
    ensures Sized(r, h)
  {
    SlotFits(slot, h);
    WriteAt(p, slot * h, row, if p.usedSlots > slot + 1 then p.usedSlots else slot + 1)
  }

  function ReadSlot(p: Page, h: nat, slot: nat): (r: Row)
    requires Sized(p, h) && slot < PAGE_TOKENS
    ensures |r.key| == |r.value| == h
  {
    SlotFits(slot, h);
    ReadAt(p, slot * h, h)
  }

  lemma ReadAtAfterWriteAt(p: Page, offset: nat, row: Row, used: nat, from: nat)
    requires |row.key| == |row.value| && |p.keys| == |p.values|
    requires offset + |row.key| <= |p.keys| && from + |row.key| <= |p.keys|
    requires from == offset || from + |row.key| <= offset || offset + |row.key| <= from
    ensures var h := |row.key|;
            ReadAt(WriteAt(p, offset, row, used), from, h) == if from == offset then row else ReadAt(p, from, h)
  {
  }

  /** A write changes its own slot and no other. */
  lemma ReadAfterWrite(p: Page, h: nat, slot: nat, row: Row, other: nat)
    requires Sized(p, h) && slot < PAGE_TOKENS && other < PAGE_TOKENS && |row.key| == |row.value| == h
    ensures ReadSlot(WriteSlot(p, h, slot, row), h, other) == if other == slot then row else ReadSlot(p, h, other)
  {
    hide Splice;
    SlotFits(slot, h);
    SlotFits(other, h);
    SlotsApart(slot, other, h);
    var used := if p.usedSlots > slot + 1 then p.usedSlots else slot + 1;
    ReadAtAfterWriteAt(p, slot * h, row, used, other * h);
    if slot != other && slot * h == other * h {
      assert h == 0;
    }
  }

  lemma SlotsApart(slot: nat, other: nat, h: nat)
    ensures other < slot ==> other * h + h <= slot * h
    ensures slot < other ==> slot * h + h <= other * h
  {
    if other < slot {
      assert (other + 1) * h <= slot * h;
    } else if slot < other {
      assert (slot + 1) * h <= other * h;
    }
  }

  lemma BlankReads(h: nat, slot: nat)
    requires slot < PAGE_TOKENS
    ensures ReadSlot(BlankPage(h), h, slot) == ZeroRow(h)
  {
    SlotFits(slot, h);
  }

  // ---------------------------------------------------------------- the pool

  ghost predicate Distinct(s: seq<nat>) { forall i, j | 0 <= i < j < |s| :: s[i] != s[j] }

  /** Distinct indices below `n` are at most `n`. */
  lemma {:induction false} DistinctBound(s: seq<nat>, n: nat)
    requires Distinct(s) && forall i | 0 <= i < |s| :: s[i] < n
    ensures |s| <= n
    decreases n
  {
    if k :| 0 <= k < |s| && s[k] == n - 1 {
      var t := s[..k] + s[k + 1..];
      DistinctBound(t, n - 1);
    } else if s != [] {
      assert s[0] < n;
      DistinctBound(s, n - 1);
    }
  }

  /** A list that holds all indices below `n` has at least `n` entries. */
  lemma {:induction false} AllListed(s: seq<nat>, n: nat)
    requires forall i | 0 <= i < n :: i in s
    ensures n <= |s|
    decreases n
  {
    if n > 0 {
      assert n - 1 in s;
      var k :| 0 <= k < |s| && s[k] == n - 1;
      var t := s[..k] + s[k + 1..];
      forall i | 0 <= i < n - 1
        ensures i in t
      {
        assert i in s;
        var j :| 0 <= j < |s| && s[j] == i;
        assert t[if j < k then j else j - 1] == i;
      }
      AllListed(t, n - 1);
    }
  }

  class PageTable {
    const hiddenDim: nat
    const maxPages: nat
    var freePages: seq<nat>
    var pages: seq<Page>
    var nextId: nat

    /** Page ids index `pages`; free pages are distinct and blank. */
    ghost predicate Valid()
      reads this
    {
      && nextId == |pages| <= maxPages
      && (forall i | 0 <= i < |pages| :: Sized(pages[i], hiddenDim))
      && Distinct(freePages)
      && (forall i | 0 <= i < |freePages| :: freePages[i] < |pages|)
      && (forall i | 0 <= i < |pages| && i in freePages :: Blank(i))
    }

    ghost predicate Blank(id: nat)
      reads this
      requires id < |pages|
    {
      pages[id].keys == BlankPage(hiddenDim).keys && pages[id].values == BlankPage(hiddenDim).values
    }

    /** The pages handed out and not returned. */
    ghost function Allocated(): set<nat>
      reads this
    {
      set i | 0 <= i < |pages| && i !in freePages
    }

    /** How many that is. */
    ghost function Used(): nat
      reads this
      requires Valid()
    {
      DistinctBound(freePages, |pages|);
      |pages| - |freePages|
    }

    /** Nothing is handed out exactly when the count says so. */
    lemma NoneAllocated()
      requires Valid()
      ensures Allocated() == {} <==> Used() == 0
    {
      if Allocated() == {} {
        assert forall i | 0 <= i < |pages| :: i in freePages by {
          forall i | 0 <= i < |pages| ensures i in freePages {
            assert i !in Allocated();
          }
        }
        AllListed(freePages, |pages|);
      } else {
        var p :| p in Allocated();
        DistinctBound(freePages + [p], |pages|);
      }
    }

    constructor (hiddenDim: nat, maxPages: nat)
      ensures Valid() && this.hiddenDim == hiddenDim && this.maxPages == maxPages
      ensures Allocated() == {} && Used() == 0
    {
      this.hiddenDim := hiddenDim;
      this.maxPages := maxPages;
      freePages, pages, nextId := [], [], 0;
    }

    /** A page nobody holds, blank; None exactly when all `maxPages` are handed out. */
    method AllocatePage() returns (r: Option<nat>)
      requires Valid()
      modifies this
      ensures Valid()
      ensures r.None? <==> old(Used()) == maxPages
      ensures r.None? ==> pages == old(pages) && freePages == old(freePages)
      ensures r.Some? ==>
                && r.value < |pages| && r.value !in old(Allocated()) && Allocated() == old(Allocated()) + {r.value}
                && Used() == old(Used()) + 1 && Blank(r.value)
      ensures |old(pages)| <= |pages| && pages[..|old(pages)|] == old(pages)
    {
      if freePages != [] {
        r := Some(freePages[0]);
        freePages := freePages[1..];
        assert forall i | 0 <= i < |pages| && i in freePages :: i in old(freePages) && old(Blank(i));
      } else if |pages| >= maxPages {
        r := None;
      } else {
        r := Some(nextId);
        nextId := nextId + 1;
        pages := pages + [BlankPage(hiddenDim)];
      }
    }

    /** Pages returned by their owner: zeroed, and available again. */
    method Free(ids: seq<nat>)
      requires Valid() && Distinct(ids) && forall i | 0 <= i < |ids| :: ids[i] in Allocated()
      modifies this
      ensures Valid()
      ensures Allocated() == old(Allocated()) - (set p | p in ids)
      ensures Used() == old(Used()) - |ids|
      ensures |pages| == |old(pages)| && forall i | 0 <= i < |pages| && i !in ids :: pages[i] == old(pages)[i]
    {
      for k := 0 to |ids|
        invariant Valid() && |pages| == |old(pages)|
        invariant freePages == old(freePages) + ids[..k]
        invariant forall i | 0 <= i < |pages| && i !in ids :: pages[i] == old(pages)[i]
      {
        if ids[k] < |pages| {
          pages := pages[ids[k] := BlankPage(hiddenDim)];
          freePages := freePages + [ids[k]];
        }
      }
      assert ids[..|ids|] == ids;
    }

    /** `page_mut(id)` followed by a write of one slot. */
    method WriteTo(id: nat, slot: nat, row: Row)
      requires Valid() && id in Allocated() && slot < PAGE_TOKENS && |row.key| == |row.value| == hiddenDim
      modifies this
      ensures Valid() && freePages == old(freePages)
      ensures pages == old(pages)[id := WriteSlot(old(pages)[id], hiddenDim, slot, row)]
    {
      pages := pages[id := WriteSlot(pages[id], hiddenDim, slot, row)];
    }
  }
}
