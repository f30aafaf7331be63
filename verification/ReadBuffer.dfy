/** The buffer reads go into: freed by its own deinit, or by the `Data` it was handed to. */
module ReadBuffers {
  import opened Common
  import opened Slices

  class ReadBuffer {
    const pointer: array<Byte>
    const size: nat
    var isOwned: bool
    ghost var wrappers: nat      // live `Data` values whose deallocator will free the pointer
    ghost var deallocations: nat // how often the pointer has been freed
    ghost var stores: nat        // how often libnfs has stored through the pointer
    ghost var strayStores: nat   // how often it stored bytes after the pointer had been freed

    ghost predicate Valid()
      reads this
    {
      pointer.Length == size
    }

    constructor (byteCount: nat)
      ensures Valid() && fresh(pointer) && size == byteCount && isOwned && wrappers == 0 && deallocations == 0
      ensures stores == 0 && strayStores == 0
    {
      pointer := new Byte[byteCount];
      size := byteCount;
      isOwned, wrappers, deallocations, stores, strayStores := true, 0, 0, 0, 0;
    }

    /** libnfs stores the bytes of one read. It has a raw pointer: nothing keeps it from storing after the end. */
    method Store(offset: nat, d: seq<Byte>)
      requires Valid() && offset + |d| <= size
      modifies pointer, this`stores, this`strayStores
      ensures pointer[..] == WriteAt(old(pointer[..]), offset, d) && stores == old(stores) + 1
      ensures strayStores == old(strayStores) + if deallocations > 0 && d != [] then 1 else 0
    {
      stores := stores + 1;
      strayStores := strayStores + if deallocations > 0 && d != [] then 1 else 0;
      forall j | 0 <= j < |d| {
        pointer[offset + j] := d[j];
      }
    }

    method Disown()
      modifies this`isOwned
      ensures !isOwned
    {
      isOwned := false;
    }

    /** `Data(bytesNoCopy:count:deallocator:)` over the front of the buffer. */
    method Wrap(count: nat) returns (data: seq<Byte>)
      requires Valid() && count <= size
      modifies this`wrappers
      ensures data == pointer[..count] && wrappers == old(wrappers) + 1
    {
      wrappers := wrappers + 1;
      data := pointer[..count];
    }

    /** The last reference to one such `Data` goes away. */
    method ReleaseData()
      requires wrappers > 0
      modifies this`wrappers, this`deallocations
      ensures wrappers == old(wrappers) - 1 && deallocations == old(deallocations) + 1
    {
      wrappers, deallocations := wrappers - 1, deallocations + 1;
    }

    method Deinit()
      modifies this`deallocations
      ensures deallocations == old(deallocations) + if isOwned then 1 else 0
    {
      if isOwned {
        deallocations := deallocations + 1;
      }
    }
  }
}
