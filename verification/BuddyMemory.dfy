/** How the buddy allocator's abstract state lies in memory: a header at the
    start of each block, and free lists threaded through `next`. */
module BuddyMemory {
  import opened Common
  import opened BuddySpec
  import opened BuddyHeap
  import opened BuddyLaws
  import Lists = LinkedLists

  /** `next` is 0 for none. */
  datatype Header = Header(order: nat, isFree: bool, next: nat)

  type Memory = map<nat, Header>

  /** The `next` fields alone. */
  ghost function Nexts(mem: Memory): Lists.Links {
    map a | a in mem :: mem[a].next
  }

  lemma NextsUpdate(mem: Memory, a: nat, v: Header)
    ensures Nexts(mem[a := v]) == Nexts(mem)[a := v.next]
  {
  }

  /** Following `next` from `head` visits exactly `list`, then ends: the list is
      finite and without a cycle. */
  ghost predicate Linked(mem: Memory, head: nat, list: seq<nat>) {
    Lists.Linked(Nexts(mem), head, list)
  }

  ghost predicate AllLinked(mem: Memory, heads: seq<nat>, lists: seq<seq<nat>>) {
    && |heads| == NUM_ORDERS && |lists| == NUM_ORDERS
    && forall k :: 0 <= k < NUM_ORDERS ==> Linked(mem, heads[k], lists[k])
  }

  /** No block is in two lists or twice in one. */
  ghost predicate Apart(lists: seq<seq<nat>>) {
    && (forall k :: 0 <= k < |lists| ==> Distinct(lists[k]))
    && (forall j, k, a :: 0 <= j < |lists| && 0 <= k < |lists| && a in lists[j] && a in lists[k] ==> j == k)
  }

  /** Every block's header has its order, and is marked free exactly if the
      block is not in use; the mark of the block `busy`, which is being worked
      on, says nothing. */
  ghost predicate Marked(mem: Memory, h: Heap, busy: nat) {
    forall a :: a in h.blocks ==>
        && a != 0 && a in mem && mem[a].order == MIN_ORDER + h.blocks[a]
        && (a != busy ==> (mem[a].isFree <==> a !in h.live))
  }

  ghost predicate Represents(mem: Memory, heads: seq<nat>, h: Heap, busy: nat) {
    AllLinked(mem, heads, h.lists) && Marked(mem, h, busy)
  }

  /** Only `next` fields differ. */
  ghost predicate SameMarks(m: Memory, m': Memory) {
    m'.Keys == m.Keys && forall a :: a in m ==> m'[a].order == m[a].order && m'[a].isFree == m[a].isFree
  }

  lemma ListsApart(h: Heap)
    requires ListsOk(h)
    ensures Apart(h.lists)
  {
  }

  // ------------------------------------------------------------------
  // Lists under updates
  // ------------------------------------------------------------------

  /** A list does not notice a write to a header that is not on it. */
  lemma LinkedFrame(mem: Memory, head: nat, list: seq<nat>, a: nat, v: Header)
    requires Linked(mem, head, list) && a !in list
    ensures Linked(mem[a := v], head, list)
  {
    hide Nexts, Lists.Linked;
    NextsUpdate(mem, a, v);
    Lists.LinkedFrame(Nexts(mem), head, list, a, v.next);
  }

  /** Push: a new first block that points at the old first. */
  lemma LinkedPush(mem: Memory, head: nat, list: seq<nat>, a: nat, v: Header)
    requires Linked(mem, head, list) && a !in list && a != 0 && v.next == head
    ensures Linked(mem[a := v], a, [a] + list)
  {
    hide Nexts, Lists.Linked;
    NextsUpdate(mem, a, v);
    Lists.LinkedPush(Nexts(mem), head, list, a);
  }

  /** Pop. */
  lemma LinkedPop(mem: Memory, head: nat, list: seq<nat>)
    requires Linked(mem, head, list) && list != []
    ensures head == list[0] && head in mem && Linked(mem, mem[head].next, list[1..])
  {
    hide Lists.Linked;
    Lists.LinkedHead(Nexts(mem), head, list);
    Lists.LinkedPop(Nexts(mem), head, list);
  }

  lemma {:induction false} RemoveIsCut(list: seq<nat>, b: nat, i: nat)
    requires i < |list| && list[i] == b && b !in list[..i]
    ensures Remove(list, b) == list[..i] + list[i + 1..]
    decreases i
  {
    if i > 0 {
      var rest := list[1..];
      assert rest[..i - 1] == list[1..i];
      assert list[0] in list[..i];
      forall x | x in rest[..i - 1] ensures x in list[..i] {
        assert x in list[1..i];
      }
      RemoveIsCut(rest, b, i - 1);
      assert rest[i..] == list[i + 1..];
    }
  }

  lemma {:induction false} RemoveAbsent(list: seq<nat>, b: nat)
    requires b !in list
    ensures Remove(list, b) == list
    decreases |list|
  {
    if list != [] {
      assert list == [list[0]] + list[1..];
      RemoveAbsent(list[1..], b);
    }
  }

  /** Unlinking: the predecessor points past the removed block. */
  lemma LinkedCut(mem: Memory, head: nat, list: seq<nat>, i: nat)
    requires Linked(mem, head, list) && 0 < i < |list| && list[i - 1] in mem && list[i] in mem
    ensures var p := list[i - 1];
            Linked(mem[p := mem[p].(next := mem[list[i]].next)], head, list[..i] + list[i + 1..])
  {
    hide Lists.Linked;
    var p := list[i - 1];
    NextsUpdate(mem, p, mem[p].(next := mem[list[i]].next));
    Lists.LinkedCut(Nexts(mem), head, list, i);
  }

  /** Other lists are untouched by a change to list `k` alone. */
  lemma AllLinkedUpdate(mem: Memory, heads: seq<nat>, lists: seq<seq<nat>>, k: nat, a: nat, v: Header, head: nat,
      list: seq<nat>)
    requires AllLinked(mem, heads, lists) && k < NUM_ORDERS
    requires forall j :: 0 <= j < NUM_ORDERS && j != k ==> a !in lists[j]
    requires Linked(mem[a := v], head, list)
    ensures AllLinked(mem[a := v], heads[k := head], lists[k := list])
  {
    hide Linked;
    var heads', lists' := heads[k := head], lists[k := list];
    forall j | 0 <= j < NUM_ORDERS
      ensures Linked(mem[a := v], heads'[j], lists'[j])
    {
      if j != k {
        LinkedFrame(mem, heads[j], lists[j], a, v);
      }
    }
  }

  /** A write outside every list. */
  lemma AllLinkedFrame(mem: Memory, heads: seq<nat>, lists: seq<seq<nat>>, a: nat, v: Header)
    requires AllLinked(mem, heads, lists)
    requires forall j :: 0 <= j < NUM_ORDERS ==> a !in lists[j]
    ensures AllLinked(mem[a := v], heads, lists)
  {
    hide Linked;
    forall j | 0 <= j < NUM_ORDERS
      ensures Linked(mem[a := v], heads[j], lists[j])
    {
      LinkedFrame(mem, heads[j], lists[j], a, v);
    }
  }

  lemma HeadsSay(mem: Memory, heads: seq<nat>, lists: seq<seq<nat>>, k: nat)
    requires AllLinked(mem, heads, lists) && k < NUM_ORDERS
    ensures Linked(mem, heads[k], lists[k])
    ensures heads[k] == 0 <==> lists[k] == []
    ensures lists[k] != [] ==> heads[k] == lists[k][0]
  {
  }

  // ------------------------------------------------------------------
  // Steps
  // ------------------------------------------------------------------

  lemma RepTake(mem: Memory, heads: seq<nat>, h: Heap, k: nat)
    requires Represents(mem, heads, h, 0) && ListsOk(h) && k <= TOP && h.lists[k] != []
    ensures heads[k] == h.lists[k][0] && heads[k] in mem
    ensures Represents(mem, heads[k := mem[heads[k]].next], Take(h, k), heads[k])
  {
    hide Linked;
    HeadsSay(mem, heads, h.lists, k);
    LinkedPop(mem, heads[k], h.lists[k]);
    assert Marked(mem, Take(h, k), heads[k]);
  }

  /** A block that is not free is on no list. */
  lemma NotListed(h: Heap, a: nat)
    requires ListsOk(h) && (a in h.live || a !in h.blocks)
    ensures forall j :: 0 <= j < NUM_ORDERS ==> a !in h.lists[j]
  {
  }

  /** One turn of `split`. */
  lemma RepSplit(mem: Memory, heads: seq<nat>, h: Heap, c: nat, k: nat)
    requires |h.lists| == NUM_ORDERS && |heads| == NUM_ORDERS && c in mem && k < TOP && IsLive(h, c)
             && h.blocks[c] == k + 1
    requires Represents(mem, heads, h, c) && WellFormed(h)
    ensures Represents(SplitMemory(mem, heads, c, k), heads[k := c + Size(k)], SplitOnce(h, c, k), c)
  {
    hide Linked, Size, Tiled, Maximal, RegionsOk;
    var b := c + Size(k);
    UpperHalfIsNoBlock(h.blocks, h.regions, c, k);
    NotListed(h, c);
    NotListed(h, b);
    var m1, v := mem[c := mem[c].(order := MIN_ORDER + k)], Header(MIN_ORDER + k, true, heads[k]);
    hide ListsOk;
    AllLinkedFrame(mem, heads, h.lists, c, mem[c].(order := MIN_ORDER + k));
    LinkedPush(m1, heads[k], h.lists[k], b, v);
    AllLinkedUpdate(m1, heads, h.lists, k, b, v, b, [b] + h.lists[k]);
    LiveAreBlocks(h);
    hide AllLinked;
    assert Marked(m1[b := v], SplitOnce(h, c, k), c);
  }

  /** Memory after one turn of `split`: the lower half keeps its header but for
      the order, the upper half gets a new one in front of the list. */
  ghost function SplitMemory(mem: Memory, heads: seq<nat>, c: nat, k: nat): Memory {
    if c in mem && k < |heads| then
      mem[c := mem[c].(order := MIN_ORDER + k)][c + Size(k) := Header(MIN_ORDER + k, true, heads[k])]
    else mem
  }

  /** A header with its order raised. */
  ghost function Raised(mem: Memory, p: nat, k: nat): Memory {
    if p in mem then mem[p := mem[p].(order := MIN_ORDER + k)] else mem
  }

  lemma RepMergeMarks(mem: Memory, m: Memory, h: Heap, a: nat, k: nat)
    requires k < |h.lists| && Aligned(a, k) && IsLive(h, a) && h.blocks[a] == k && IsFree(h, Buddy(a, k), k)
    requires Marked(mem, h, a) && SameMarks(mem, m)
    ensures Floor(a, k + 1) in m
    ensures Marked(Raised(m, Floor(a, k + 1), k + 1), MergeOnce(h, a, k), Floor(a, k + 1))
  {
    hide Size, Floor, Buddy, Remove;
    BuddyFacts(a, k);
  }

  /** One turn of `coalesce`, after the buddy left its list. */
  lemma RepMerge(mem: Memory, m: Memory, heads: seq<nat>, h: Heap, a: nat, k: nat)
    requires |h.lists| == NUM_ORDERS && k < TOP && Aligned(a, k) && IsLive(h, a) && h.blocks[a] == k
    requires IsFree(h, Buddy(a, k), k) && AllLinked(m, heads, h.lists[k := Remove(h.lists[k], Buddy(a, k))])
    requires Marked(mem, h, a) && SameMarks(mem, m) && WellFormed(h)
    ensures Floor(a, k + 1) in m
    ensures Represents(Raised(m, Floor(a, k + 1), k + 1), heads, MergeOnce(h, a, k), Floor(a, k + 1))
  {
    hide Linked, Size, Floor, Buddy, Remove, Tiled, Maximal, Marked, RegionsOk, IsFree;
    var p, h' := Floor(a, k + 1), MergeOnce(h, a, k);
    RepMergeMarks(mem, m, h, a, k);
    MergeKeepsLists(h, a, k);
    MergeLive(h, a, k);
    NotListed(h', p);
    AllLinkedFrame(m, heads, h'.lists, p, m[p].(order := MIN_ORDER + k + 1));
  }

  /** The end of `coalesce`. */
  lemma RepPutBack(mem: Memory, heads: seq<nat>, h: Heap, a: nat, k: nat)
    requires Represents(mem, heads, h, a) && ListsOk(h) && IsLive(h, a) && h.blocks[a] == k && k <= TOP && a != 0
    requires mem[a].isFree
    ensures Represents(mem[a := mem[a].(next := heads[k])], heads[k := a], PutBack(h, a, k), 0)
  {
    hide Linked;
    NotListed(h, a);
    var v := mem[a].(next := heads[k]);
    LinkedPush(mem, heads[k], h.lists[k], a, v);
    AllLinkedUpdate(mem, heads, h.lists, k, a, v, a, [a] + h.lists[k]);
    hide ListsOk, AllLinked;
    assert Marked(mem[a := v], PutBack(h, a, k), 0);
  }

  /** A header write to a block in use, which is on no list. */
  lemma RepMark(mem: Memory, heads: seq<nat>, h: Heap, c: nat, busy: nat, v: Header)
    requires Represents(mem, heads, h, c) && ListsOk(h) && IsLive(h, c)
    requires v.order == mem[c].order && (busy != c ==> !v.isFree)
    ensures Represents(mem[c := v], heads, h, busy)
  {
    hide Linked;
    NotListed(h, c);
    AllLinkedFrame(mem, heads, h.lists, c, v);
  }

  /** `init`. */
  lemma RepAddRegion(mem: Memory, heads: seq<nat>, h: Heap, r: nat, size: nat)
    requires Represents(mem, heads, h, 0) && ListsOk(h) && h.lists[TOP] == [] && r !in h.blocks && r != 0
    ensures Represents(mem[r := Header(MAX_ORDER, true, 0)], heads[TOP := r], AddRegion(h, r, size), 0)
  {
    hide Linked;
    var v := Header(MAX_ORDER, true, 0);
    NotListed(h, r);
    HeadsSay(mem, heads, h.lists, TOP);
    LinkedPush(mem, heads[TOP], [], r, v);
    assert [r] + [] == [r];
    AllLinkedUpdate(mem, heads, h.lists, TOP, r, v, r, [r]);
    hide AllLinked;
    assert Marked(mem[r := v], AddRegion(h, r, size), 0);
  }

  /** Writes inside a block in use, past its header, are not noticed. */
  lemma RepClient(mem: Memory, m: Memory, heads: seq<nat>, h: Heap, c: nat)
    requires Represents(mem, heads, h, 0) && WellFormed(h) && IsLive(h, c)
    requires forall x :: x in mem && !(c < x < c + Size(h.blocks[c])) ==> x in m && m[x] == mem[x]
    ensures Represents(m, heads, h, 0)
  {
    hide Size, Tiled, Maximal, RegionsOk;
    forall x | x in h.blocks
      ensures !(c < x < c + Size(h.blocks[c]))
    {
      if c < x {
        BlocksDisjoint(h, c, x);
      }
    }
    forall k | 0 <= k < NUM_ORDERS
      ensures Linked(m, heads[k], h.lists[k])
    {
      assert Linked(mem, heads[k], h.lists[k]);
      forall i | 0 <= i < |h.lists[k]|
        ensures h.lists[k][i] in m && m[h.lists[k][i]] == mem[h.lists[k][i]]
      {
        assert h.lists[k][i] in h.lists[k];
        assert IsFree(h, h.lists[k][i], k);
      }
    }
  }
}
