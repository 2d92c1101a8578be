/** A magazine: a fixed array of 64 block pointers used as a stack. */
module Magazine {
  import opened Common
  import opened BlockLayout
  import MagazineMachine

  /** `n` blocks in a row. */
  function Row(base: nat, size: nat, n: nat): (s: seq<nat>)
    ensures |s| == n
  {
    seq(n, i requires 0 <= i < n => base + i * size)
  }

  class Magazine {
    const blocks: array<nat>
    var count: nat

    ghost predicate Valid()
      reads this
    {
      blocks.Length == MAGAZINE_CAPACITY && count <= MAGAZINE_CAPACITY
    }

    /** The blocks held, oldest first. */
    ghost function Contents(): seq<nat>
      reads this, blocks
      requires Valid()
    {
      blocks[..count]
    }

    constructor ()
      ensures Valid() && Contents() == [] && fresh(blocks)
    {
      blocks := new nat[64](_ => 0);
      count := 0;
    }

    method Push(p: nat) returns (ok: bool)
      requires Valid()
      modifies this`count, blocks
      ensures Valid() && ok == (|old(Contents())| < MAGAZINE_CAPACITY)
      ensures Contents() == if ok then old(Contents()) + [p] else old(Contents())
    {
      if count >= MAGAZINE_CAPACITY {
        return false;
      }
      blocks[count] := p;
      count := count + 1;
      ok := true;
    }

    method Pop() returns (r: Option<nat>)
      requires Valid()
      modifies this`count
      ensures Valid() && (r == None <==> old(Contents()) == [])
      ensures r == None ==> Contents() == []
      ensures r.Some? ==> old(Contents()) == Contents() + [r.value]
    {
      if count == 0 {
        return None;
      }
      count := count - 1;
      r := Some(blocks[count]);
    }

    method Clear()
      requires Valid()
      modifies this`count
      ensures Valid() && Contents() == []
    {
      count := 0;
    }

    /** As many of the `n` blocks as there is room for, in order. */
    method BulkInit(base: nat, size: nat, n: nat)
      requires Valid()
      modifies this`count, blocks
      ensures Valid()
      ensures Contents() == old(Contents()) + Row(base, size, n)[..MagazineMachine.BulkRoom(|old(Contents())|, n)]
    {
      var toAdd := if n < MAGAZINE_CAPACITY - count then n else MAGAZINE_CAPACITY - count;
      var i := 0;
      while i < toAdd
        invariant i <= toAdd && count == old(count)
        invariant blocks[..count] == old(Contents())
        invariant forall j :: 0 <= j < i ==> blocks[count + j] == Row(base, size, n)[j]
      {
        blocks[count + i] := base + i * size;
        i := i + 1;
      }
      count := count + toAdd;
    }
  }
}
