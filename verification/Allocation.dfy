/** The C allocator, as far as ownership goes: which blocks are live, and in which order blocks were freed. */
module Allocation {

  class Allocator {
    ghost var live: set<object>
    ghost var released: seq<object>

    constructor ()
      ensures live == {} && released == []
    {
      live, released := {}, [];
    }

    /** `free`: only a live block may be freed, and nothing is known of its contents afterwards. */
    method Release(block: object)
      requires block in live && block != this
      modifies this, block
      ensures live == old(live) - {block} && released == old(released) + [block]
    {
      live, released := live - {block}, released + [block];
    }
  }
}
