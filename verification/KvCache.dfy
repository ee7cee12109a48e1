/**
 * The paged KV cache (core-runtime/src/memory/kv_cache_core.rs and kv_cache_ops.rs) with
 * its page pool.  Every method is proved to do to the rows, the access order and the page
 * count exactly what `KvReference` says, and to keep every page with at most one owner.
 */
module KvCache {
  import opened Wrappers
  import opened Paged
  import opened Vectors
  import Ref = KvReference

  /** A sequence: its pages in order, and the number of rows appended. */
  datatype Entry = Entry(pageIds: seq<nat>, seqLen: nat)

  // ---------------------------------------------------------------- what an entry holds

  /** The number of rows its pages hold: all full but the last. */
  function KeptLen(e: Entry): nat {
    if e.pageIds == [] then 0
    else PAGE_TOKENS * (|e.pageIds| - 1) + (if e.seqLen % PAGE_TOKENS == 0 then PAGE_TOKENS else e.seqLen % PAGE_TOKENS)
  }

  lemma KeptLenFits(e: Entry)
    ensures KeptLen(e) <= PAGE_TOKENS * |e.pageIds|
    ensures |e.pageIds| == (KeptLen(e) + PAGE_TOKENS - 1) / PAGE_TOKENS
    ensures KeptLen(e) == 0 <==> e.pageIds == []
  {
  }

  /** The entry's pages exist and are full-sized. */
  ghost predicate Readable(pages: seq<Page>, h: nat, ids: seq<nat>) {
    forall i | 0 <= i < |ids| :: ids[i] < |pages| && Sized(pages[ids[i]], h)
  }

  /** The row at position `p` counted from the first page. */
  ghost function SlotAt(pages: seq<Page>, h: nat, ids: seq<nat>, p: nat): Row
    requires Readable(pages, h, ids) && p < PAGE_TOKENS * |ids|
  {
    ReadSlot(pages[ids[p / PAGE_TOKENS]], h, p % PAGE_TOKENS)
  }

  ghost function Rows(pages: seq<Page>, h: nat, ids: seq<nat>, n: nat): (r: seq<Row>)
    requires Readable(pages, h, ids) && n <= PAGE_TOKENS * |ids|
    ensures |r| == n
    ensures forall p | 0 <= p < n :: r[p] == SlotAt(pages, h, ids, p)
  {
    seq(n, p requires 0 <= p < n => SlotAt(pages, h, ids, p))
  }

  /** Slots past the kept rows are zero. */
  ghost predicate CleanTail(pages: seq<Page>, h: nat, e: Entry)
    requires Readable(pages, h, e.pageIds)
  {
    forall p: nat | KeptLen(e) <= p < PAGE_TOKENS * |e.pageIds| :: SlotAt(pages, h, e.pageIds, p) == ZeroRow(h)
  }

  ghost predicate EntryInv(pages: seq<Page>, h: nat, e: Entry) {
    Readable(pages, h, e.pageIds) && CleanTail(pages, h, e) && (e.pageIds != [] ==> e.seqLen > 0)
  }

  ghost function View(pages: seq<Page>, h: nat, e: Entry): (q: Ref.Sequence)
    requires Readable(pages, h, e.pageIds)
    ensures q.len == e.seqLen
  {
    KeptLenFits(e);
    Ref.Sequence(Rows(pages, h, e.pageIds, KeptLen(e)), e.seqLen)
  }

  /** An entry sees only its own pages. */
  lemma ViewFrame(pages: seq<Page>, pages': seq<Page>, h: nat, e: Entry)
    requires EntryInv(pages, h, e) && SamePages(pages, pages', e.pageIds)
    ensures EntryInv(pages', h, e) && View(pages', h, e) == View(pages, h, e)
  {
    KeptLenFits(e);
    forall p: nat | p < PAGE_TOKENS * |e.pageIds|
      ensures SlotAt(pages', h, e.pageIds, p) == SlotAt(pages, h, e.pageIds, p)
    {
    }
  }

  /** What a read by absolute index finds is what the reference model says. */
  lemma ViewRowAt(pages: seq<Page>, h: nat, e: Entry, pos: nat)
    requires EntryInv(pages, h, e)
    ensures Ref.RowAt(h, View(pages, h, e), pos) ==
            if pos / PAGE_TOKENS < |e.pageIds| then Some(SlotAt(pages, h, e.pageIds, pos)) else None
  {
    KeptLenFits(e);
  }

  /** Dropping the first pages drops their rows. */
  lemma ViewDrop(pages: seq<Page>, h: nat, e: Entry, n: nat)
    requires EntryInv(pages, h, e) && n <= |e.pageIds|
    ensures var e' := Entry(e.pageIds[n..], e.seqLen);
            EntryInv(pages, h, e') && View(pages, h, e') == Ref.DropPages(View(pages, h, e), n)
  {
    var e' := Entry(e.pageIds[n..], e.seqLen);
    KeptLenFits(e);
    KeptLenFits(e');
    assert n < |e.pageIds| ==> KeptLen(e') == KeptLen(e) - PAGE_TOKENS * n;
    forall p: nat | p < PAGE_TOKENS * |e'.pageIds|
      ensures SlotAt(pages, h, e'.pageIds, p) == SlotAt(pages, h, e.pageIds, p + PAGE_TOKENS * n)
    {
      assert (p + PAGE_TOKENS * n) / PAGE_TOKENS == p / PAGE_TOKENS + n;
    }
  }

  predicate NeedsPage(e: Entry) { e.seqLen % PAGE_TOKENS == 0 || e.pageIds == [] }

  /** The entry after an append: one page more when it needed one. */
  function Grown(e: Entry, page: nat): Entry {
    Entry(if NeedsPage(e) then e.pageIds + [page] else e.pageIds, e.seqLen + 1)
  }

  ghost predicate BlankAt(pages: seq<Page>, h: nat, page: nat) {
    && page < |pages| && Sized(pages[page], h)
    && forall k | 0 <= k < PAGE_TOKENS :: ReadSlot(pages[page], h, k) == ZeroRow(h)
  }

  /** Writing the new row to the last page of the grown entry appends it to the view. */
  lemma ViewGrow(pages: seq<Page>, h: nat, e: Entry, page: nat, row: Row)
    requires EntryInv(pages, h, e) && |row.key| == |row.value| == h && Distinct(Grown(e, page).pageIds)
    requires NeedsPage(e) ==> BlankAt(pages, h, page)
    ensures var e' := Grown(e, page);
            var last := e'.pageIds[|e'.pageIds| - 1];
            var pages' := pages[last := WriteSlot(pages[last], h, e.seqLen % PAGE_TOKENS, row)];
            EntryInv(pages', h, e') && View(pages', h, e') == Ref.Push(h, View(pages, h, e), row)
  {
    hide SlotAt, WriteSlot, ReadSlot, Sized, KeptLen, Grown;
    var e' := Grown(e, page);
    KeptLenGrown(e, page);
    KeptLenFits(e);
    KeptLenFits(e');
    GrownBefore(pages, h, e, page, 0);
    var last, slot := e'.pageIds[|e'.pageIds| - 1], e.seqLen % PAGE_TOKENS;
    var pages' := pages[last := WriteSlot(pages[last], h, slot, row)];
    assert Readable(pages', h, e'.pageIds) by { GrownSlot(pages, h, e, page, row, 0); }
    forall p: nat | p < PAGE_TOKENS * |e'.pageIds|
      ensures SlotAt(pages', h, e'.pageIds, p) ==
              if p == KeptLen(e') - 1 then row
              else if p < KeptLen(e) then SlotAt(pages, h, e.pageIds, p)
              else ZeroRow(h)
    {
      GrownSlot(pages, h, e, page, row, p);
    }
    assert CleanTail(pages', h, e');
    assert View(pages', h, e').kept == Ref.Push(h, View(pages, h, e), row).kept;
  }

  lemma KeptLenGrown(e: Entry, page: nat)
    requires e.pageIds != [] ==> e.seqLen > 0
    ensures var e' := Grown(e, page);
            && e'.pageIds != [] && e'.seqLen == e.seqLen + 1
            && KeptLen(e') == PAGE_TOKENS * (|e'.pageIds| - 1) + e.seqLen % PAGE_TOKENS + 1
            && KeptLen(e) == (if e.pageIds == [] then 0 else KeptLen(e') - 1)
            && (e.pageIds == [] ==> |e'.pageIds| == 1)
  {
  }

  /** A write to the last of distinct pages, seen at position `p`. */
  lemma WrittenSlot(pages: seq<Page>, h: nat, ids: seq<nat>, slot: nat, row: Row, p: nat)
    requires Readable(pages, h, ids) && Distinct(ids) && |row.key| == |row.value| == h && slot < PAGE_TOKENS
    requires p < PAGE_TOKENS * |ids|
    ensures var last := ids[|ids| - 1];
            var pages' := pages[last := WriteSlot(pages[last], h, slot, row)];
            && Readable(pages', h, ids)
            && SlotAt(pages', h, ids, p) ==
               (if p == PAGE_TOKENS * (|ids| - 1) + slot then row else SlotAt(pages, h, ids, p))
  {
    hide WriteSlot, ReadSlot, Sized;
    var k, last := p / PAGE_TOKENS, ids[|ids| - 1];
    if k == |ids| - 1 {
      ReadAfterWrite(pages[last], h, slot, row, p % PAGE_TOKENS);
    } else {
      assert ids[k] != last;
    }
  }

  /** Before the write, the grown entry shows the kept rows and then zero rows. */
  lemma GrownBefore(pages: seq<Page>, h: nat, e: Entry, page: nat, p: nat)
    requires EntryInv(pages, h, e) && (NeedsPage(e) ==> BlankAt(pages, h, page))
    requires p < PAGE_TOKENS * |Grown(e, page).pageIds|
    ensures Readable(pages, h, Grown(e, page).pageIds)
    ensures SlotAt(pages, h, Grown(e, page).pageIds, p) ==
            if p < KeptLen(e) then SlotAt(pages, h, e.pageIds, p) else ZeroRow(h)
  {
    hide ReadSlot, Sized;
    KeptLenFits(e);
    var ids, ids' := e.pageIds, Grown(e, page).pageIds;
    if p < PAGE_TOKENS * |ids| {
      assert ids'[p / PAGE_TOKENS] == ids[p / PAGE_TOKENS];
      assert SlotAt(pages, h, ids', p) == SlotAt(pages, h, ids, p);
    } else {
      assert p / PAGE_TOKENS == |ids| && ids'[|ids|] == page;
    }
  }

  lemma GrownSlot(pages: seq<Page>, h: nat, e: Entry, page: nat, row: Row, p: nat)
    requires EntryInv(pages, h, e) && |row.key| == |row.value| == h && Distinct(Grown(e, page).pageIds)
    requires NeedsPage(e) ==> BlankAt(pages, h, page)
    requires p < PAGE_TOKENS * |Grown(e, page).pageIds|
    ensures var e' := Grown(e, page);
            var n := |e'.pageIds|;
            var pages' := pages[e'.pageIds[n - 1] := WriteSlot(pages[e'.pageIds[n - 1]], h, e.seqLen % PAGE_TOKENS, row)];
            && Readable(pages', h, e'.pageIds)
            && SlotAt(pages', h, e'.pageIds, p) ==
               (if p == PAGE_TOKENS * (n - 1) + e.seqLen % PAGE_TOKENS then row
                else if p < KeptLen(e) then SlotAt(pages, h, e.pageIds, p)
                else ZeroRow(h))
  {
    hide SlotAt, WriteSlot, ReadSlot, Sized, KeptLen, CleanTail;
    GrownBefore(pages, h, e, page, p);
    WrittenSlot(pages, h, Grown(e, page).pageIds, e.seqLen % PAGE_TOKENS, row, p);
  }

  // ---------------------------------------------------------------- who owns which page

  ghost predicate Owned(entries: map<nat, Entry>, p: nat) {
    exists id :: id in entries && p in entries[id].pageIds
  }

  /**
   * No page is in two sequences or twice in one, every listed page is handed out, and the
   * pages handed out are the listed ones and the leaked ones.
   */
  ghost predicate Owners(entries: map<nat, Entry>, taken: set<nat>, leaked: set<nat>) {
    && (forall id | id in entries :: Distinct(entries[id].pageIds))
    && (forall a, b, p | a in entries && b in entries && p in entries[a].pageIds && p in entries[b].pageIds :: a == b)
    && (forall id, p | id in entries && p in entries[id].pageIds :: p in taken && p !in leaked)
    && leaked <= taken
    && (forall p | p in taken :: p in leaked || Owned(entries, p))
  }

  lemma OwnersRemove(entries: map<nat, Entry>, taken: set<nat>, leaked: set<nat>, id: nat)
    requires Owners(entries, taken, leaked) && id in entries
    ensures Owners(entries - {id}, taken - (set p | p in entries[id].pageIds), leaked)
  {
    var entries', freed := entries - {id}, set p | p in entries[id].pageIds;
    forall p | p in taken - freed && p !in leaked ensures Owned(entries', p) {
      assert Owned(entries, p);
      var a :| a in entries && p in entries[a].pageIds;
      assert a in entries';
    }
  }

  lemma OwnersTake(entries: map<nat, Entry>, taken: set<nat>, leaked: set<nat>, page: nat)
    requires Owners(entries, taken, leaked) && page !in taken
    ensures Owners(entries, taken + {page}, leaked + {page})
  {
  }

  lemma OwnersAttach(entries: map<nat, Entry>, taken: set<nat>, leaked: set<nat>, id: nat, e: Entry, page: nat)
    requires Owners(entries, taken, leaked) && id in entries && page in leaked
    requires e.pageIds == entries[id].pageIds + [page]
    ensures Owners(entries[id := e], taken, leaked - {page})
  {
    var entries' := entries[id := e];
    forall p | p in taken && p !in leaked - {page} ensures Owned(entries', p) {
      if p == page {
        assert p in entries'[id].pageIds;
      } else {
        assert Owned(entries, p);
        var a :| a in entries && p in entries[a].pageIds;
        assert p in entries'[a].pageIds;
      }
    }
  }

  lemma OwnersDrop(entries: map<nat, Entry>, taken: set<nat>, leaked: set<nat>, id: nat, n: nat)
    requires Owners(entries, taken, leaked) && id in entries && n <= |entries[id].pageIds|
    ensures Owners(entries[id := entries[id].(pageIds := entries[id].pageIds[n..])],
                   taken - (set p | p in entries[id].pageIds[..n]), leaked)
    ensures Distinct(entries[id].pageIds[..n])
  {
    var ids := entries[id].pageIds;
    var entries' := entries[id := entries[id].(pageIds := ids[n..])];
    forall p | p in taken - (set q | q in ids[..n]) && p !in leaked ensures Owned(entries', p) {
      assert Owned(entries, p);
      var a :| a in entries && p in entries[a].pageIds;
      assert ids == ids[..n] + ids[n..];
      assert p in entries'[a].pageIds;
    }
    forall p | p in ids[n..] ensures p !in ids[..n] {
      var i :| 0 <= i < |ids[n..]| && ids[n..][i] == p;
      assert ids[n + i] == p;
    }
  }

  // ---------------------------------------------------------------- all entries

  ghost predicate AllInv(pages: seq<Page>, h: nat, entries: map<nat, Entry>) {
    forall id | id in entries :: EntryInv(pages, h, entries[id])
  }

  ghost function Views(pages: seq<Page>, h: nat, entries: map<nat, Entry>): (v: map<nat, Ref.Sequence>)
    requires AllInv(pages, h, entries)
    ensures v.Keys == entries.Keys
  {
    map id | id in entries :: View(pages, h, entries[id])
  }

  /** Both page lists hold the same pages under these ids. */
  ghost predicate SamePages(pages: seq<Page>, pages': seq<Page>, ids: seq<nat>) {
    forall i | 0 <= i < |ids| :: ids[i] < |pages| && ids[i] < |pages'| && pages'[ids[i]] == pages[ids[i]]
  }

  /** Pages that belong to nobody may change. */
  lemma ViewsFrame(pages: seq<Page>, pages': seq<Page>, h: nat, entries: map<nat, Entry>)
    requires AllInv(pages, h, entries) && forall id | id in entries :: SamePages(pages, pages', entries[id].pageIds)
    ensures AllInv(pages', h, entries) && Views(pages', h, entries) == Views(pages, h, entries)
  {
    forall id | id in entries
      ensures EntryInv(pages', h, entries[id]) && View(pages', h, entries[id]) == View(pages, h, entries[id])
    {
      ViewFrame(pages, pages', h, entries[id]);
    }
    hide View;
  }

  lemma ViewPages(pages: seq<Page>, h: nat, e: Entry)
    requires Readable(pages, h, e.pageIds)
    ensures Ref.PagesOf(View(pages, h, e)) == |e.pageIds|
    ensures Ref.NeedsPage(View(pages, h, e)) <==> NeedsPage(e)
  {
    KeptLenFits(e);
  }

  /** The invariants of all entries together with the ownership of their pages. */
  ghost predicate StoreInv(pages: seq<Page>, h: nat, entries: map<nat, Entry>, taken: set<nat>, leaked: set<nat>) {
    Owners(entries, taken, leaked) && AllInv(pages, h, entries)
  }

  lemma StoreReadable(pages: seq<Page>, h: nat, entries: map<nat, Entry>, taken: set<nat>, leaked: set<nat>, id: nat)
    requires StoreInv(pages, h, entries, taken, leaked) && id in entries
    ensures EntryInv(pages, h, entries[id]) && Views(pages, h, entries)[id] == View(pages, h, entries[id])
    ensures Distinct(entries[id].pageIds)
    ensures forall i | 0 <= i < |entries[id].pageIds| :: entries[id].pageIds[i] in taken && entries[id].pageIds[i] < |pages|
    ensures Ref.PagesOf(View(pages, h, entries[id])) == |entries[id].pageIds|
  {
    ViewPages(pages, h, entries[id]);
    hide Views, View, Ref.PagesOf;
  }

  lemma StoreAllocate(pages: seq<Page>, h: nat, entries: map<nat, Entry>, taken: set<nat>, leaked: set<nat>, id: nat)
    requires StoreInv(pages, h, entries, taken, leaked)
    requires id !in entries
    ensures StoreInv(pages, h, entries[id := Entry([], 0)], taken, leaked)
    ensures Views(pages, h, entries[id := Entry([], 0)]) == Views(pages, h, entries)[id := Ref.Sequence([], 0)]
  {
    hide EntryInv, View;
    var entries' := entries[id := Entry([], 0)];
    forall p | p in taken && p !in leaked ensures Owned(entries', p) {
      var a :| a in entries && p in entries[a].pageIds;
      assert p in entries'[a].pageIds;
    }
    NewView(pages, h);
  }

  lemma NewView(pages: seq<Page>, h: nat)
    ensures EntryInv(pages, h, Entry([], 0)) && View(pages, h, Entry([], 0)) == Ref.Sequence([], 0)
  {
  }

  lemma StoreFree(pages: seq<Page>, pages': seq<Page>, h: nat, entries: map<nat, Entry>, taken: set<nat>, leaked: set<nat>, id: nat)
    requires StoreInv(pages, h, entries, taken, leaked) && id in entries && |pages'| == |pages|
    requires forall p | 0 <= p < |pages| && p !in entries[id].pageIds :: pages'[p] == pages[p]
    ensures StoreInv(pages', h, entries - {id}, taken - (set p | p in entries[id].pageIds), leaked)
    ensures Views(pages', h, entries - {id}) == Views(pages, h, entries) - {id}
  {
    hide EntryInv, View;
    OwnersRemove(entries, taken, leaked, id);
    forall a | a in entries - {id} ensures SamePages(pages, pages', entries[a].pageIds) {
      StoreReadable(pages, h, entries, taken, leaked, a);
    }
    assert AllInv(pages, h, entries - {id});
    ViewsFrame(pages, pages', h, entries - {id});
  }

  /** A page taken from the pool, not yet listed by anyone. */
  lemma StoreTake(pages: seq<Page>, pages': seq<Page>, h: nat, entries: map<nat, Entry>, taken: set<nat>, leaked: set<nat>, page: nat)
    requires StoreInv(pages, h, entries, taken, leaked) && page !in taken
    requires |pages| <= |pages'| && pages'[..|pages|] == pages
    ensures StoreInv(pages', h, entries, taken + {page}, leaked + {page})
    ensures Views(pages', h, entries) == Views(pages, h, entries) && page !in leaked
  {
    hide EntryInv, View;
    OwnersTake(entries, taken, leaked, page);
    forall a | a in entries ensures SamePages(pages, pages', entries[a].pageIds) {
      StoreReadable(pages, h, entries, taken, leaked, a);
      assert forall p | 0 <= p < |pages| :: pages'[p] == pages'[..|pages|][p];
    }
    ViewsFrame(pages, pages', h, entries);
  }

  /** Ownership after an append. */
  lemma OwnersGrow(entries: map<nat, Entry>, taken: set<nat>, leaked: set<nat>, id: nat, page: nat)
    requires Owners(entries, taken, leaked) && id in entries && (NeedsPage(entries[id]) ==> page in leaked)
    ensures Owners(entries[id := Grown(entries[id], page)], taken,
                   if NeedsPage(entries[id]) then leaked - {page} else leaked)
  {
    var e' := Grown(entries[id], page);
    if NeedsPage(entries[id]) {
      OwnersAttach(entries, taken, leaked, id, e', page);
    } else {
      var entries' := entries[id := e'];
      forall p | p in taken && p !in leaked ensures Owned(entries', p) {
        var a :| a in entries && p in entries[a].pageIds;
        assert p in entries'[a].pageIds;
      }
    }
  }

  /** One entry changes with pages that belong to no other. */
  lemma ViewsUpdate(pages: seq<Page>, pages': seq<Page>, h: nat, entries: map<nat, Entry>, id: nat, e': Entry)
    requires AllInv(pages, h, entries) && id in entries && EntryInv(pages', h, e')
    requires forall a | a in entries && a != id :: SamePages(pages, pages', entries[a].pageIds)
    ensures AllInv(pages', h, entries[id := e'])
    ensures Views(pages', h, entries[id := e']) == Views(pages, h, entries)[id := View(pages', h, e')]
  {
    forall a | a in entries && a != id
      ensures EntryInv(pages', h, entries[a]) && View(pages', h, entries[a]) == View(pages, h, entries[a])
    {
      ViewFrame(pages, pages', h, entries[a]);
    }
    hide View;
  }

  /** The page an append writes to: handed out, readable, and in no other sequence. */
  lemma LastPage(pages: seq<Page>, h: nat, entries: map<nat, Entry>, taken: set<nat>, leaked: set<nat>, id: nat, page: nat)
    requires StoreInv(pages, h, entries, taken, leaked) && id in entries
    requires NeedsPage(entries[id]) ==> page in leaked && BlankAt(pages, h, page)
    ensures var e' := Grown(entries[id], page);
            && e'.pageIds != [] && Distinct(e'.pageIds)
            && var last := e'.pageIds[|e'.pageIds| - 1];
               && last in taken && last < |pages| && Sized(pages[last], h)
               && (forall a | a in entries && a != id :: last !in entries[a].pageIds)
  {
    hide View, Views, Ref.PagesOf, Sized, ReadSlot;
    StoreReadable(pages, h, entries, taken, leaked, id);
    var e' := Grown(entries[id], page);
    var last := e'.pageIds[|e'.pageIds| - 1];
    if !NeedsPage(entries[id]) {
      assert last in entries[id].pageIds;
    }
  }

  /** A row stored in the last page of a sequence that has room, or in its new page. */
  lemma StoreAppend(pages: seq<Page>, h: nat, entries: map<nat, Entry>, taken: set<nat>, leaked: set<nat>, id: nat, page: nat, row: Row)
    requires StoreInv(pages, h, entries, taken, leaked) && id in entries && |row.key| == |row.value| == h
    requires NeedsPage(entries[id]) ==> page in leaked && BlankAt(pages, h, page)
    ensures var e' := Grown(entries[id], page);
            && e'.pageIds != []
            && var last := e'.pageIds[|e'.pageIds| - 1];
            && last in taken && last < |pages| && Sized(pages[last], h)
            && var pages' := pages[last := WriteSlot(pages[last], h, entries[id].seqLen % PAGE_TOKENS, row)];
            && StoreInv(pages', h, entries[id := e'], taken, if NeedsPage(entries[id]) then leaked - {page} else leaked)
            && Views(pages', h, entries[id := e']) ==
               Views(pages, h, entries)[id := Ref.Push(h, View(pages, h, entries[id]), row)]
  {
    hide WriteSlot, Ref.Push, Sized, View, BlankAt, Grown;
    var e, e' := entries[id], Grown(entries[id], page);
    LastPage(pages, h, entries, taken, leaked, id, page);
    OwnersGrow(entries, taken, leaked, id, page);
    var last := e'.pageIds[|e'.pageIds| - 1];
    var pages' := pages[last := WriteSlot(pages[last], h, e.seqLen % PAGE_TOKENS, row)];
    ViewGrow(pages, h, e, page, row);
    forall a | a in entries && a != id ensures SamePages(pages, pages', entries[a].pageIds) {
      StoreReadable(pages, h, entries, taken, leaked, a);
    }
    hide EntryInv, Owners;
    ViewsUpdate(pages, pages', h, entries, id, e');
  }

  /** The first `n` pages of one sequence given back. */
  lemma StoreDrop(pages: seq<Page>, pages': seq<Page>, h: nat, entries: map<nat, Entry>, taken: set<nat>, leaked: set<nat>, id: nat, n: nat)
    requires StoreInv(pages, h, entries, taken, leaked) && id in entries && n <= |entries[id].pageIds|
    requires |pages'| == |pages|
    requires forall p | 0 <= p < |pages| && p !in entries[id].pageIds[..n] :: pages'[p] == pages[p]
    ensures var e' := Entry(entries[id].pageIds[n..], entries[id].seqLen);
            && StoreInv(pages', h, entries[id := e'], taken - (set p | p in entries[id].pageIds[..n]), leaked)
            && Views(pages', h, entries[id := e']) ==
               Views(pages, h, entries)[id := Ref.DropPages(View(pages, h, entries[id]), n)]
  {
    hide View, Ref.DropPages, Ref.PagesOf, EntryInv;
    var e := entries[id];
    var e' := Entry(e.pageIds[n..], e.seqLen);
    OwnersDrop(entries, taken, leaked, id, n);
    StoreReadable(pages, h, entries, taken, leaked, id);
    ViewDrop(pages, h, e, n);
    assert SamePages(pages, pages', e'.pageIds);
    ViewFrame(pages, pages', h, e');
    forall a | a in entries && a != id ensures SamePages(pages, pages', entries[a].pageIds) {
      StoreReadable(pages, h, entries, taken, leaked, a);
    }
    hide Owners;
    ViewsUpdate(pages, pages', h, entries, id, e');
  }

  class KvCacheManager {
    const cfg: Ref.Config
    const table: PageTable
    var entries: map<nat, Entry>
    var accessOrder: seq<nat>
    var nextSeqId: nat
    ghost var leaked: set<nat>  // pages handed out that no sequence lists

    ghost predicate Valid()
      reads this, table
    {
      && table.Valid() && table.hiddenDim == cfg.hiddenDim && table.maxPages == cfg.maxPages
      && StoreInv(table.pages, cfg.hiddenDim, entries, table.Allocated(), leaked)
      && (forall id | id in entries :: id < nextSeqId)
    }

    /** The cache as the reference model sees it. */
    ghost function Abs(): Ref.Cache
      reads this, table
      requires Valid()
    {
      Ref.Cache(Views(table.pages, cfg.hiddenDim, entries), accessOrder, table.Used(), nextSeqId)
    }

    /**
     * No page belongs to two live sequences or twice to one, and while nothing has been leaked the
     * pages handed out are exactly those of the live sequences.
     */
    lemma PagesOwnedOnce()
      requires Valid()
      ensures OwnedOnce(entries)
      ensures forall p :: p in table.Allocated() <==> p in leaked || Owned(entries, p)
      ensures forall p | p in leaked :: !Owned(entries, p)
    {
      forall a, b, i, j | a in entries && b in entries && 0 <= i < |entries[a].pageIds| && 0 <= j < |entries[b].pageIds|
                       && entries[a].pageIds[i] == entries[b].pageIds[j]
        ensures a == b && i == j
      {
        assert entries[a].pageIds[i] in entries[b].pageIds;
        assert Distinct(entries[a].pageIds);
      }
    }

    constructor (cfg: Ref.Config)
      ensures Valid() && fresh(table) && this.cfg == cfg && Abs() == Ref.EMPTY && leaked == {}
    {
      this.cfg := cfg;
      table := new PageTable(cfg.hiddenDim, cfg.maxPages);
      entries, accessOrder, nextSeqId, leaked := map[], [], 1, {};
    }

    method Touch(seqId: nat)
      requires Valid()
      modifies this`accessOrder
      ensures Valid() && Abs() == Ref.Touch(old(Abs()), seqId)
    {
      accessOrder := Ref.Without(accessOrder, seqId) + [seqId];
    }

    method AllocateSequence() returns (id: nat)
      requires Valid()
      modifies this
      ensures Valid() && Abs() == Ref.Allocate(old(Abs())) && id == old(nextSeqId) && leaked == old(leaked)
      ensures id !in old(entries) && entries == old(entries)[id := Entry([], 0)] && accessOrder == old(accessOrder) + [id]
    {
      hide StoreInv, Views;
      StoreAllocate(table.pages, cfg.hiddenDim, entries, table.Allocated(), leaked, nextSeqId);
      id := nextSeqId;
      nextSeqId := nextSeqId + 1;
      entries := entries[id := Entry([], 0)];
      accessOrder := accessOrder + [id];
    }

    method FreeSequence(seqId: nat) returns (r: Ref.Outcome)
      requires Valid()
      modifies this, table
      ensures Valid() && (Abs(), r) == Ref.Free(old(Abs()), seqId) && leaked == old(leaked)
      ensures entries == old(entries) - {seqId} && (r.Ok? <==> seqId in old(entries))
      ensures seqId in old(entries) ==> seqId !in accessOrder
      ensures forall id | id in entries :: id in old(entries) && entries[id] == old(entries[id])
    {
      hide StoreInv, Views, Ref.PagesOf;
      if seqId !in entries {
        return Err(Ref.SequenceNotFound(seqId));
      }
      var e := entries[seqId];
      ghost var before, taken, all := table.pages, table.Allocated(), entries;
      StoreReadable(before, cfg.hiddenDim, all, taken, leaked, seqId);
      entries := entries - {seqId};
      accessOrder := Ref.Without(accessOrder, seqId);
      table.Free(e.pageIds);
      StoreFree(before, table.pages, cfg.hiddenDim, all, taken, leaked, seqId);
      r := Ok(());
    }

    method EvictLru() returns (r: Ref.Outcome)
      requires Valid()
      modifies this, table
      ensures Valid() && (Abs(), r) == Ref.EvictLru(old(Abs())) && leaked == old(leaked)
      ensures forall id | id in entries :: id in old(entries) && entries[id] == old(entries[id])
    {
      hide StoreInv, Views, Ref.Free;
      if accessOrder != [] {
        var victim := accessOrder[0];
        accessOrder := accessOrder[1..];
        r := FreeSequence(victim);
      } else {
        r := Ok(());
      }
    }

    /** The pool's side of taking a page: it is blank, and nobody's yet. */
    method TakeFromPool() returns (r: Option<nat>)
      requires Valid()
      modifies this`leaked, table
      ensures Valid()
      ensures r.None? <==> old(Abs()).used == cfg.maxPages
      ensures r.None? ==> Abs() == old(Abs()) && leaked == old(leaked)
      ensures r.Some? ==>
                && Abs() == old(Abs()).(used := old(Abs()).used + 1)
                && r.value !in old(leaked) && leaked == old(leaked) + {r.value}
                && BlankAt(table.pages, cfg.hiddenDim, r.value)
    {
      hide StoreInv, Views;
      ghost var before, taken := table.pages, table.Allocated();
      r := table.AllocatePage();
      if r.Some? {
        StoreTake(before, table.pages, cfg.hiddenDim, entries, taken, leaked, r.value);
        leaked := leaked + {r.value};
        BlankPages(table, r.value);
      }
    }

    /** A page for an append: from the pool, or from the sequence least recently used. */
    method TakePage() returns (r: Result<nat, Ref.KvError>)
      requires Valid()
      modifies this, table
      ensures Valid() && Abs() == Ref.TakePage(cfg, old(Abs())).0
      ensures r.Err? ==> Ref.TakePage(cfg, old(Abs())).1 == Err(r.error) && leaked == old(leaked)
      ensures r.Ok? ==>
                && Ref.TakePage(cfg, old(Abs())).1.Ok?
                && r.value !in old(leaked) && leaked == old(leaked) + {r.value}
                && BlankAt(table.pages, cfg.hiddenDim, r.value)
      ensures forall id | id in entries :: id in old(entries) && entries[id] == old(entries[id])
    {
      hide StoreInv, Views, Ref.EvictLru, BlankAt;
      var page := TakeFromPool();
      if page.None? {
        var evicted := EvictLru();
        if evicted.Err? {
          return Err(evicted.error);
        }
        page := TakeFromPool();
        if page.None? {
          return Err(Ref.MemoryExhausted);
        }
      }
      r := Ok(page.value);
    }

    /** Store a row in the last page of a live sequence, first listing its new page if it needed one. */
    method StoreRow(seqId: nat, page: nat, row: Row)
      requires Valid() && seqId in entries && |row.key| == |row.value| == cfg.hiddenDim
      requires NeedsPage(entries[seqId]) ==> page in leaked && BlankAt(table.pages, cfg.hiddenDim, page)
      modifies this`entries, this`leaked, table
      ensures Valid() && (Abs(), Ok(())) == Ref.Store(cfg, old(Abs()), seqId, row)
      ensures leaked == if NeedsPage(old(entries[seqId])) then old(leaked) - {page} else old(leaked)
    {
      hide StoreInv, Views, Ref.Push, BlankAt, WriteSlot, Sized, View;
      ghost var before, taken, all := table.pages, table.Allocated(), entries;
      StoreAppend(before, cfg.hiddenDim, all, taken, leaked, seqId, page, row);
      StoreReadable(before, cfg.hiddenDim, all, taken, leaked, seqId);
      var e := entries[seqId];
      if NeedsPage(e) {
        e := e.(pageIds := e.pageIds + [page]);
        leaked := leaked - {page};
      }
      var last := e.pageIds[|e.pageIds| - 1];
      table.WriteTo(last, e.seqLen % PAGE_TOKENS, row);
      entries := entries[seqId := e.(seqLen := e.seqLen + 1)];
    }

    /**
     * The append.  The row must fit a slot only where it comes to writing it.  A page is leaked
     * exactly when the eviction took the appending sequence itself and its pages freed one.
     */
    method AppendKv(seqId: nat, row: Row) returns (r: Ref.Outcome)
      requires Valid() && (Ref.Append(cfg, Abs(), seqId, row).1.Ok? ==> |row.key| == |row.value| == cfg.hiddenDim)
      modifies this, table
      ensures Valid() && (Abs(), r) == Ref.Append(cfg, old(Abs()), seqId, row)
      ensures if seqId in old(entries) && r == Err(Ref.SequenceNotFound(seqId))
              then exists p :: p !in old(leaked) && leaked == old(leaked) + {p}
              else leaked == old(leaked)
    {
      hide StoreInv, Views, Ref.TakePage, Ref.Push, BlankAt, Ref.NeedsPage, View;
      Touch(seqId);
      if seqId !in entries {
        return Err(Ref.SequenceNotFound(seqId));
      }
      StoreReadable(table.pages, cfg.hiddenDim, entries, table.Allocated(), leaked, seqId);
      ViewPages(table.pages, cfg.hiddenDim, entries[seqId]);
      var page := 0;
      if NeedsPage(entries[seqId]) {
        ghost var c := Abs();
        var t := TakePage();
        if t.Err? {
          TakePageErrors(cfg, c);
          return Err(t.error);
        }
        page := t.value;
      }
      if seqId !in entries {
        r := Err(Ref.SequenceNotFound(seqId));
      } else {
        assert Ref.Append(cfg, old(Abs()), seqId, row).1.Ok?;
        StoreRow(seqId, page, row);
        r := Ok(());
      }
    }

    /** The page list indexed by `pos / PAGE_TOKENS`, then the slot of that page. */
    method FetchRow(e: Entry, pos: nat) returns (row: Option<Row>)
      requires EntryInv(table.pages, cfg.hiddenDim, e)
      ensures row == Ref.RowAt(cfg.hiddenDim, View(table.pages, cfg.hiddenDim, e), pos)
      ensures row.Some? ==> |row.value.key| == |row.value.value| == cfg.hiddenDim
    {
      hide Ref.RowAt, View, ReadSlot, Sized, CleanTail;
      ViewRowAt(table.pages, cfg.hiddenDim, e, pos);
      if pos / PAGE_TOKENS < |e.pageIds| {
        row := Some(ReadSlot(table.pages[e.pageIds[pos / PAGE_TOKENS]], cfg.hiddenDim, pos % PAGE_TOKENS));
      } else {
        row := None;
      }
    }

    /** The row at an absolute position, copied to the caller's buffers. */
    method ReadKv(seqId: nat, pos: nat, keysOut: array<real>, valuesOut: array<real>) returns (r: Ref.Outcome)
      requires Valid() && keysOut != valuesOut
      requires Ref.Read(cfg, Abs(), seqId, pos).1.Ok? ==> keysOut.Length == valuesOut.Length == cfg.hiddenDim
      modifies this`accessOrder, keysOut, valuesOut
      ensures Valid() && Abs() == Ref.Read(cfg, old(Abs()), seqId, pos).0
      ensures match Ref.Read(cfg, old(Abs()), seqId, pos).1
              case Ok(row) => r.Ok? && keysOut[..] == row.key && valuesOut[..] == row.value
              case Err(e) => r == Err(e) && keysOut[..] == old(keysOut[..]) && valuesOut[..] == old(valuesOut[..])
    {
      hide StoreInv, Views, Ref.RowAt, View, EntryInv;
      Touch(seqId);
      if seqId !in entries {
        return Err(Ref.SequenceNotFound(seqId));
      }
      StoreReadable(table.pages, cfg.hiddenDim, entries, table.Allocated(), leaked, seqId);
      var e := entries[seqId];
      if pos >= e.seqLen {
        return Err(Ref.PositionOutOfBounds(pos, e.seqLen));
      }
      var row := FetchRow(e, pos);
      if row.None? {
        return Err(Ref.PageNotFound);
      }
      CopyTo(row.value.key, keysOut);
      CopyTo(row.value.value, valuesOut);
      r := Ok(());
    }

    /** The products of the query with the stored keys; positions without a page are left as they were. */
    method AttentionScores(seqId: nat, query: seq<real>, scoresOut: array<real>) returns (r: Ref.Outcome)
      requires Valid()
      modifies scoresOut
      ensures r == if seqId in Abs().seqs then Ok(()) else Err(Ref.SequenceNotFound(seqId))
      ensures r.Err? ==> scoresOut[..] == old(scoresOut[..])
      ensures r.Ok? ==> forall i | 0 <= i < scoresOut.Length ::
                scoresOut[i] == Ref.ScoreAt(cfg.hiddenDim, Abs().seqs[seqId], query, i, old(scoresOut[i]))
    {
      hide StoreInv, Views, Ref.RowAt, View, Dot, EntryInv;
      if seqId !in entries {
        return Err(Ref.SequenceNotFound(seqId));
      }
      StoreReadable(table.pages, cfg.hiddenDim, entries, table.Allocated(), leaked, seqId);
      var e := entries[seqId];
      ghost var q := View(table.pages, cfg.hiddenDim, e);
      var n := if e.seqLen < scoresOut.Length then e.seqLen else scoresOut.Length;
      for pos := 0 to n
        invariant forall i | 0 <= i < pos :: scoresOut[i] == Ref.ScoreAt(cfg.hiddenDim, q, query, i, old(scoresOut[i]))
        invariant forall i | pos <= i < scoresOut.Length :: scoresOut[i] == old(scoresOut[i])
      {
        var row := FetchRow(e, pos);
        if row.Some? {
          var score := DotProduct(query, row.value.key);
          scoresOut[pos] := score;
        }
      }
      r := Ok(());
    }

    /** Pages wholly before the sliding window go back to the pool. */
    method EvictBeyondWindow(seqId: nat, currentPos: nat) returns (n: nat)
      requires Valid()
      modifies this`entries, table
      ensures Valid() && (Abs(), n) == Ref.EvictBeyondWindow(cfg, old(Abs()), seqId, currentPos)
    {
      hide StoreInv, Views, Ref.DropPages, Ref.PagesOf, View;
      if cfg.window.None? {
        return 0;
      }
      var w := cfg.window.value;
      var keep := if w.size + w.overlap > Ref.USIZE_MAX then Ref.USIZE_MAX else w.size + w.overlap;
      var cutoff := if currentPos > keep then currentPos - keep else 0;
      ghost var before, taken, all := table.pages, table.Allocated(), entries;
      if seqId in entries {
        StoreReadable(before, cfg.hiddenDim, all, taken, leaked, seqId);
        Ref.DropNone(Abs().seqs[seqId]);
        assert Abs().seqs[seqId := Abs().seqs[seqId]] == Abs().seqs;
      }
      if cutoff == 0 || seqId !in entries || cutoff / PAGE_TOKENS == 0 {
        return 0;
      }
      var e := entries[seqId];
      n := if cutoff / PAGE_TOKENS < |e.pageIds| then cutoff / PAGE_TOKENS else |e.pageIds|;
      assert Distinct(e.pageIds[..n]);
      entries := entries[seqId := Entry(e.pageIds[n..], e.seqLen)];
      table.Free(e.pageIds[..n]);
      StoreDrop(before, table.pages, cfg.hiddenDim, all, taken, leaked, seqId, n);
    }

    /** Forgets every sequence without returning its pages: they are all leaked. */
    method Reset()
      requires Valid()
      modifies this
      ensures Valid() && Abs() == Ref.Reset(old(Abs())) && leaked == table.Allocated()
      ensures entries == map[] && accessOrder == [] && nextSeqId == old(nextSeqId)
    {
      entries, accessOrder := map[], [];
      leaked := table.Allocated();
    }
  }

  // ---------------------------------------------------------------- whole runs

  /** Rows of the configured dimension: where it comes to writing one, the source panics on another length. */
  predicate RowFits(cfg: Ref.Config, op: Ref.Op) {
    op.DoAppend? ==> |op.row.key| == |op.row.value| == cfg.hiddenDim
  }

  /** One operation on the paged cache is one step of the reference. */
  method Perform(m: KvCacheManager, op: Ref.Op)
    requires m.Valid() && RowFits(m.cfg, op)
    modifies m, m.table
    ensures m.Valid() && m.Abs() == Ref.Step(m.cfg, old(m.Abs()), op)
    ensures m.leaked == {} <==> old(m.leaked) == {} && !Ref.Leaks(m.cfg, old(m.Abs()), op)
  {
    hide StoreInv, Views, Ref.Alone, Ref.FreesOne, Ref.Append, Ref.EvictBeyondWindow, Ref.Free, Ref.Read;
    match op
    case DoAllocate =>
      var _ := m.AllocateSequence();
    case DoAppend(id, row) =>
      if id in m.entries {
        Ref.AppendLosesItself(m.cfg, m.Abs(), id, row);
      }
      var _ := m.AppendKv(id, row);
    case DoRead(id, pos) =>
      var keys, values := new real[m.cfg.hiddenDim], new real[m.cfg.hiddenDim];
      var _ := m.ReadKv(id, pos, keys, values);
    case DoFree(id) =>
      var _ := m.FreeSequence(id);
    case DoWindow(id, pos) =>
      var _ := m.EvictBeyondWindow(id, pos);
    case DoReset =>
      m.table.NoneAllocated();
      LeakedAllocated(m);
      m.Reset();
  }

  lemma LeakedAllocated(m: KvCacheManager)
    requires m.Valid()
    ensures m.leaked <= m.table.Allocated()
  {
  }

  /**
   * A run of calls on a new cache is the run of the reference, and its allocated pages are exactly
   * the live ones as long as, and only as long as, no call has leaked.
   */
  method Replay(cfg: Ref.Config, ops: seq<Ref.Op>) returns (m: KvCacheManager)
    requires forall i | 0 <= i < |ops| :: RowFits(cfg, ops[i])
    ensures fresh(m) && fresh(m.table) && m.cfg == cfg && m.Valid() && m.Abs() == Ref.Run(cfg, ops)
    ensures Ref.LeakFree(cfg, ops) <==> forall p :: p in m.table.Allocated() <==> Owned(m.entries, p)
    ensures OwnedOnce(m.entries)
  {
    m := new KvCacheManager(cfg);
    for i := 0 to |ops|
      invariant fresh(m) && fresh(m.table) && m.cfg == cfg && m.Valid() && m.Abs() == Ref.Run(cfg, ops[..i])
      invariant m.leaked == {} <==> Ref.LeakFree(cfg, ops[..i])
    {
      assert ops[..i + 1][..i] == ops[..i];
      Perform(m, ops[i]);
    }
    assert ops[..|ops|] == ops;
    m.PagesOwnedOnce();
    assert m.leaked != {} ==> exists p :: p in m.leaked && p in m.table.Allocated() && !Owned(m.entries, p);
  }

  /** No page in two lists, none twice in one. */
  ghost predicate OwnedOnce(entries: map<nat, Entry>) {
    forall a, b, i, j | a in entries && b in entries && 0 <= i < |entries[a].pageIds| && 0 <= j < |entries[b].pageIds| ::
      entries[a].pageIds[i] == entries[b].pageIds[j] ==> a == b && i == j
  }

  /** Reading from the pages after any run: the row appended at that position, if nothing was dropped. */
  method ReplayAndRead(cfg: Ref.Config, ops: seq<Ref.Op>, id: nat, pos: nat) returns (r: Result<Row, Ref.KvError>)
    requires forall i | 0 <= i < |ops| :: RowFits(cfg, ops[i])
    ensures r == Ref.Read(cfg, Ref.Run(cfg, ops), id, pos).1
    ensures var h := Ref.History(cfg, ops, id);
            id in Ref.Run(cfg, ops).seqs && !Ref.Dropped(cfg, ops, id) && pos < |h| ==> r == Ok(h[pos])
  {
    hide Ref.Run, Ref.Read, Ref.History, Ref.Dropped, StoreInv, Views;
    var m := Replay(cfg, ops);
    if id in m.entries && !Ref.Dropped(cfg, ops, id) {
      Ref.ReadsHistory(cfg, ops, id, pos);
    }
    var keys, values := new real[cfg.hiddenDim], new real[cfg.hiddenDim];
    var outcome := m.ReadKv(id, pos, keys, values);
    r := match outcome case Ok(_) => Ok(Row(keys[..], values[..])) case Err(e) => Err(e);
  }

  /** Scoring against the pages after any run: the products with the appended keys. */
  method ReplayAndScore(cfg: Ref.Config, ops: seq<Ref.Op>, id: nat, query: seq<real>, scores: array<real>) returns (r: Ref.Outcome)
    requires forall i | 0 <= i < |ops| :: RowFits(cfg, ops[i])
    modifies scores
    ensures r.Ok? <==> id in Ref.Run(cfg, ops).seqs
    ensures var h := Ref.History(cfg, ops, id);
            r.Ok? && !Ref.Dropped(cfg, ops, id) ==> forall i | 0 <= i < scores.Length ::
              scores[i] == if i < |h| then Dot(query, h[i].key) else old(scores[i])
  {
    hide Ref.Run, Ref.ScoreAt, Ref.History, Ref.Dropped, StoreInv, Views, Dot;
    var m := Replay(cfg, ops);
    r := m.AttentionScores(id, query, scores);
    if r.Ok? && !Ref.Dropped(cfg, ops, id) {
      ghost var h := Ref.History(cfg, ops, id);
      forall i | 0 <= i < scores.Length
        ensures scores[i] == if i < |h| then Dot(query, h[i].key) else old(scores[i])
      {
        Ref.ScoresHistory(cfg, ops, id, query, i, old(scores[i]));
      }
    }
  }

  /** A page is refused for a dead sequence or for lack of memory, never for a live sequence. */
  lemma TakePageErrors(cfg: Ref.Config, c: Ref.Cache)
    ensures match Ref.TakePage(cfg, c).1
            case Err(SequenceNotFound(id)) => id !in c.seqs
            case _ => true
  {
    hide Ref.PagesOf;
  }

  method CopyTo(src: seq<real>, dst: array<real>)
    requires |src| == dst.Length
    modifies dst
    ensures dst[..] == src
  {
    forall i | 0 <= i < dst.Length {
      dst[i] := src[i];
    }
  }

  lemma BlankPages(table: PageTable, id: nat)
    requires table.Valid() && id < |table.pages| && table.Blank(id)
    ensures BlankAt(table.pages, table.hiddenDim, id)
  {
    forall k | 0 <= k < PAGE_TOKENS ensures ReadSlot(table.pages[id], table.hiddenDim, k) == ZeroRow(table.hiddenDim) {
      SlotFits(k, table.hiddenDim);
      BlankReads(table.hiddenDim, k);
    }
  }
}
