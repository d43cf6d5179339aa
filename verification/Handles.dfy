/** The hash handle every element carries: uthash.h threads both of its lists through it. */
module Handles {
  /** The key bytes of the integer-keyed tables (HASH_ADD_INT): four bytes, compared as such. */
  type Key = bv32

  class Handle<T> {
    const elt: T
    const key: Key
    var prev: Handle?<T>
    var next: Handle?<T>
    var hhPrev: Handle?<T>
    var hhNext: Handle?<T>

    constructor (key: Key, elt: T)
      ensures this.key == key && this.elt == elt
    {
      this.key, this.elt := key, elt;
      prev, next, hhPrev, hhNext := null, null, null, null;
    }
  }

  function At<T>(s: seq<Handle<T>>, i: int): Handle?<T> {
    if 0 <= i < |s| then s[i] else null
  }
}
