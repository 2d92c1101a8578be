/** Free lists threaded through the first word of each free block. */
module LinkedLists {
  import opened Common

  /** The first word of each free block: the next block, or 0 for none. */
  type Links = map<nat, nat>

  function At(list: seq<nat>, i: nat): nat {
    if i < |list| then list[i] else 0
  }

  /** Following the links from `head` visits exactly `list`, then ends. */
  ghost predicate Linked(links: Links, head: nat, list: seq<nat>) {
    && head == At(list, 0)
    && Distinct(list)
    && forall i :: 0 <= i < |list| ==> list[i] != 0 && list[i] in links && links[list[i]] == At(list, i + 1)
  }

  lemma LinkedFrame(links: Links, head: nat, list: seq<nat>, a: nat, v: nat)
    requires Linked(links, head, list) && a !in list
    ensures Linked(links[a := v], head, list)
  {
    hide At;
    forall i | 0 <= i < |list|
      ensures list[i] in links[a := v] && links[a := v][list[i]] == At(list, i + 1)
    {
      assert list[i] in list;
    }
  }

  lemma LinkedPush(links: Links, head: nat, list: seq<nat>, a: nat)
    requires Linked(links, head, list) && a !in list && a != 0
    ensures Linked(links[a := head], a, [a] + list)
  {
    LinkedFrame(links, head, list, a, head);
    var m', l' := links[a := head], [a] + list;
    forall i | 0 <= i < |l'|
      ensures l'[i] != 0 && l'[i] in m' && m'[l'[i]] == At(l', i + 1)
    {
      if i > 0 {
        assert l'[i] == list[i - 1];
      }
    }
    forall i, j | 0 <= i < j < |l'|
      ensures l'[i] != l'[j]
    {
      assert l'[j] == list[j - 1] && list[j - 1] in list;
    }
  }

  lemma LinkedPop(links: Links, head: nat, list: seq<nat>)
    requires Linked(links, head, list) && head != 0
    ensures list != [] && head == list[0] && head in links && head !in list[1..]
    ensures Linked(links, links[head], list[1..])
  {
    var l' := list[1..];
    forall i | 0 <= i < |l'|
      ensures l'[i] != 0 && l'[i] in links && links[l'[i]] == At(l', i + 1)
    {
      assert l'[i] == list[i + 1];
    }
  }

  lemma LinkedHead(links: Links, head: nat, list: seq<nat>)
    requires Linked(links, head, list)
    ensures head == 0 <==> list == []
  {
  }

  /** The links and the head leave no choice of list. */
  lemma {:induction false} LinkedUnique(links: Links, head: nat, a: seq<nat>, b: seq<nat>)
    requires Linked(links, head, a) && Linked(links, head, b)
    ensures a == b
    decreases |a|
  {
    hide Linked;
    LinkedHead(links, head, a);
    LinkedHead(links, head, b);
    if head != 0 {
      LinkedPop(links, head, a);
      LinkedPop(links, head, b);
      LinkedUnique(links, links[head], a[1..], b[1..]);
      assert a == [head] + a[1..] && b == [head] + b[1..];
    }
  }

  /** The i-th block of a walk. */
  lemma LinkedAt(links: Links, head: nat, list: seq<nat>, i: nat)
    requires Linked(links, head, list) && i < |list|
    ensures list[i] != 0 && list[i] in links && links[list[i]] == At(list, i + 1)
  {
  }

  /** What follows the first n blocks is a list of its own. */
  lemma LinkedRest(links: Links, head: nat, list: seq<nat>, n: nat)
    requires Linked(links, head, list) && 0 < n <= |list|
    ensures list[n - 1] in links && Linked(links, links[list[n - 1]], list[n..])
  {
    var rest := list[n..];
    forall i | 0 <= i < |rest|
      ensures rest[i] != 0 && rest[i] in links && links[rest[i]] == At(rest, i + 1)
    {
      assert rest[i] == list[n + i];
    }
    assert links[list[n - 1]] == At(list, n);
  }

  /** Pointing the n-th block at another list joins the first n to it. */
  lemma LinkedJoin(links: Links, head: nat, list: seq<nat>, n: nat, head2: nat, list2: seq<nat>)
    requires Linked(links, head, list) && 0 < n <= |list| && Linked(links, head2, list2)
    requires forall x :: x in list && x in list2 ==> false
    ensures Linked(links[list[n - 1] := head2], head, list[..n] + list2)
  {
    var m', l' := links[list[n - 1] := head2], list[..n] + list2;
    assert list[n - 1] in list;
    LinkedFrame(links, head2, list2, list[n - 1], head2);
    forall i | 0 <= i < |l'|
      ensures l'[i] != 0 && l'[i] in m' && m'[l'[i]] == At(l', i + 1)
    {
      if i < n {
        assert l'[i] == list[i];
      } else {
        assert l'[i] == list2[i - n];
      }
    }
    JoinDistinct(list, list2, n);
  }

  lemma JoinDistinct(list: seq<nat>, list2: seq<nat>, n: nat)
    requires n <= |list| && Distinct(list) && Distinct(list2) && forall x :: x in list && x in list2 ==> false
    ensures Distinct(list[..n] + list2)
  {
    var l' := list[..n] + list2;
    forall i, j | 0 <= i < j < |l'|
      ensures l'[i] != l'[j]
    {
      if i < n <= j {
        assert l'[i] == list[i] && list[i] in list;
        assert l'[j] == list2[j - n] && list2[j - n] in list2;
      }
    }
  }

  /** A list does not notice that memory not on it goes away. */
  lemma LinkedUnmap(links: Links, head: nat, list: seq<nat>, a: nat)
    requires Linked(links, head, list) && a !in list
    ensures Linked(links - {a}, head, list)
  {
    hide At;
    forall i | 0 <= i < |list|
      ensures list[i] in links - {a} && (links - {a})[list[i]] == At(list, i + 1)
    {
      assert list[i] in list;
    }
  }

  /** Unlinking: the predecessor points past the removed block. */
  lemma LinkedCut(links: Links, head: nat, list: seq<nat>, i: nat)
    requires Linked(links, head, list) && 0 < i < |list|
    ensures list[i] in links && Linked(links[list[i - 1] := links[list[i]]], head, list[..i] + list[i + 1..])
  {
    var p := list[i - 1];
    var m', l' := links[p := links[list[i]]], list[..i] + list[i + 1..];
    forall j | 0 <= j < |l'|
      ensures l'[j] != 0 && l'[j] in m' && m'[l'[j]] == At(l', j + 1)
    {
      var t := if j < i then j else j + 1;
      assert l'[j] == list[t];
      assert t != i - 1 ==> list[t] != p;
    }
  }

  /** A run of blocks linked one to the next; where the last one points is open. */
  ghost predicate Segment(links: Links, list: seq<nat>) {
    && Distinct(list)
    && (forall i :: 0 <= i < |list| ==> list[i] != 0 && list[i] in links)
    && (forall i :: 0 <= i < |list| - 1 ==> links[list[i]] == At(list, i + 1))
  }

  /** Pointing the last block elsewhere. */
  lemma SegmentRelink(links: Links, list: seq<nat>, v: nat)
    requires Segment(links, list) && list != []
    ensures Segment(links[list[|list| - 1] := v], list)
  {
    var last := list[|list| - 1];
    forall i | 0 <= i < |list| - 1
      ensures links[last := v][list[i]] == At(list, i + 1)
    {
      assert list[i] != last;
    }
  }

  /** The first n blocks of a list are a segment. */
  lemma SegmentOf(links: Links, head: nat, list: seq<nat>, n: nat)
    requires Linked(links, head, list) && n <= |list|
    ensures Segment(links, list[..n])
  {
    var front := list[..n];
    forall i | 0 <= i < |front| - 1
      ensures links[front[i]] == At(front, i + 1)
    {
      assert front[i] == list[i] && front[i + 1] == list[i + 1];
    }
  }

  /** A segment whose last block points at a list is a list with it. */
  lemma SegmentJoin(links: Links, seg: seq<nat>, head: nat, list: seq<nat>)
    requires Segment(links, seg) && seg != [] && Linked(links, head, list) && links[seg[|seg| - 1]] == head
    requires forall x :: x in seg && x in list ==> false
    ensures Linked(links, seg[0], seg + list)
  {
    var all := seg + list;
    assert seg[..|seg|] == seg;
    JoinDistinct(seg, list, |seg|);
    forall i | 0 <= i < |all|
      ensures all[i] != 0 && all[i] in links && links[all[i]] == At(all, i + 1)
    {
      if i < |seg| {
        assert all[i] == seg[i];
      } else {
        assert all[i] == list[i - |seg|];
      }
    }
  }
}
