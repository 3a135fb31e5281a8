/**
 * The compatibility SDK's GUIDs and its reference-counting smart pointers (service_ptr_t in
 * compat/foobar_sdk/foobar2000.h and foobar2000_sdk.h, service_ptr in
 * compat/sdk_implementations/service_base.h). The three pointer classes share one model: they
 * differ only in whether a move constructor, move assignment and is_empty are offered.
 * A service's reference count is a ghost field that add_ref and release move by one.
 */
module Services {
  import opened Ints

  // ---------------------------------------------------------------------------------
  // GUIDs
  // ---------------------------------------------------------------------------------

  type Bytes8 = s: seq<u8> | |s| == 8 witness [0, 0, 0, 0, 0, 0, 0, 0]

  datatype Guid = Guid(data1: u32, data2: u16, data3: u16, data4: Bytes8)

  /**
   * memcmp over the first n bytes: 0 when they agree, otherwise the difference of the first
   * pair of bytes that differ, so its sign orders the two.
   */
  function Memcmp(a: seq<u8>, b: seq<u8>, n: nat): (r: int)
    requires n <= |a| && n <= |b|
    ensures r == 0 <==> a[..n] == b[..n]
    ensures r != 0 ==> exists k :: 0 <= k < n && a[..k] == b[..k] && r == a[k] as int - b[k] as int
  {
    if n == 0 then 0
    else if a[0] != b[0] then
      assert a[..0] == b[..0];
      a[0] as int - b[0] as int
    else
      var r := Memcmp(a[1..], b[1..], n - 1);
      assert a[..n] == [a[0]] + a[1..][..n - 1];
      assert b[..n] == [b[0]] + b[1..][..n - 1];
      if r == 0 then r
      else
        var k :| 0 <= k < n - 1 && a[1..][..k] == b[1..][..k] && r == a[1..][k] as int - b[1..][k] as int;
        assert a[..k + 1] == [a[0]] + a[1..][..k];
        assert b[..k + 1] == [b[0]] + b[1..][..k];
        r
  }

  /** GUID == of foobar2000.h: the three words equal and memcmp of the 8 tail bytes 0. */
  function GuidEqualsMemcmp(a: Guid, b: Guid): (r: bool)
    ensures r <==> a == b
  {
    assert a.data4[..8] == a.data4 && b.data4[..8] == b.data4;
    a.data1 == b.data1 && a.data2 == b.data2 && a.data3 == b.data3 && Memcmp(a.data4, b.data4, 8) == 0
  }

  /** GUID == of service_base.h: the three words and each of the 8 tail bytes equal. */
  function GuidEquals(a: Guid, b: Guid): (r: bool)
    ensures r <==> a == b
  {
    var eq := a.data1 == b.data1 && a.data2 == b.data2 && a.data3 == b.data3
      && a.data4[0] == b.data4[0] && a.data4[1] == b.data4[1]
      && a.data4[2] == b.data4[2] && a.data4[3] == b.data4[3]
      && a.data4[4] == b.data4[4] && a.data4[5] == b.data4[5]
      && a.data4[6] == b.data4[6] && a.data4[7] == b.data4[7];
    assert eq ==> a.data4 == b.data4;
    eq
  }

  /** GUID != of service_base.h: the negation of ==. */
  function GuidNotEquals(a: Guid, b: Guid): (r: bool)
    ensures r <==> a != b
    ensures r <==> !GuidEqualsMemcmp(a, b)
  {
    !GuidEquals(a, b)
  }

  // ---------------------------------------------------------------------------------
  // Services and their pointers
  // ---------------------------------------------------------------------------------

  /** A reference-counted service; only its count is modelled. */
  class Service {
    ghost var refs: int

    constructor (refs: int)
      ensures this.refs == refs
    {
      this.refs := refs;
    }

    method AddRef()
      modifies this
      ensures refs == old(refs) + 1
    {
      refs := refs + 1;
    }

    method Release()
      modifies this
      ensures refs == old(refs) - 1
    {
      refs := refs - 1;
    }
  }

  /** service_factory_base: a singleton whose reference-count calls answer 1 and do nothing. */
  class ServiceFactory {
    constructor ()
    {
    }

    method ServiceAddRef() returns (r: int)
      ensures r == 1
    {
      r := 1;
    }

    method ServiceRelease() returns (r: int)
      ensures r == 1
    {
      r := 1;
    }
  }

  class ServicePtr {
    var ptr: Service?

    /** The default constructor: a null pointer. */
    constructor Empty()
      ensures ptr == null && !IsValid() && IsEmpty()
    {
      ptr := null;
    }

    /** Construction from a raw pointer: one reference taken when it is not null. */
    constructor FromRaw(p: Service?)
      modifies p
      ensures ptr == p
      ensures p != null ==> p.refs == old(p.refs) + 1
    {
      ptr := p;
      new;
      if p != null {
        p.AddRef();
      }
    }

    /** The copy constructor: shares other's pointee and takes one more reference to it. */
    constructor Copy(other: ServicePtr)
      modifies other.ptr
      ensures ptr == other.ptr && other.ptr == old(other.ptr)
      ensures ptr != null ==> ptr.refs == old(other.ptr.refs) + 1
    {
      ptr := other.ptr;
      new;
      if ptr != null {
        ptr.AddRef();
      }
    }

    /** The move constructor: takes other's pointee and empties other, with no count change. */
    constructor Move(other: ServicePtr)
      modifies other
      ensures ptr == old(other.ptr) && other.ptr == null
      ensures ptr != null ==> ptr.refs == old(other.ptr.refs)
    {
      ptr := other.ptr;
      new;
      other.ptr := null;
    }

    /** The destructor: one release when the pointer is not null. */
    method Dispose()
      modifies ptr
      ensures ptr == old(ptr)
      ensures ptr != null ==> ptr.refs == old(ptr.refs) - 1
    {
      if ptr != null {
        ptr.Release();
      }
    }

    /**
     * Copy assignment: nothing on self-assignment; otherwise release the old pointee, share
     * other's and take a reference to it. When both already share a pointee the count is back
     * where it was.
     */
    method Assign(other: ServicePtr)
      modifies this, ptr, other.ptr
      ensures this == other ==> ptr == old(ptr) && (ptr != null ==> ptr.refs == old(ptr.refs))
      ensures this != other ==> ptr == old(other.ptr) && other.ptr == old(other.ptr)
      ensures this != other && old(ptr) != ptr ==>
        (old(ptr) != null ==> old(ptr).refs == old(ptr.refs) - 1)
        && (ptr != null ==> ptr.refs == old(other.ptr.refs) + 1)
      ensures this != other && old(ptr) == ptr && ptr != null ==> ptr.refs == old(ptr.refs)
    {
      if this != other {
        if ptr != null {
          ptr.Release();
        }
        ptr := other.ptr;
        if ptr != null {
          ptr.AddRef();
        }
      }
    }

    /**
     * Move assignment: nothing on self-assignment; otherwise release the old pointee, take
     * other's without a new reference and empty other.
     */
    method MoveAssign(other: ServicePtr)
      modifies this, ptr, other
      ensures this == other ==> ptr == old(ptr) && (ptr != null ==> ptr.refs == old(ptr.refs))
      ensures this != other ==> ptr == old(other.ptr) && other.ptr == null
      ensures this != other && old(ptr) != null ==> old(ptr).refs == old(ptr.refs) - 1
      ensures this != other && ptr != null && ptr != old(ptr) ==> ptr.refs == old(other.ptr.refs)
    {
      if this != other {
        if ptr != null {
          ptr.Release();
        }
        ptr := other.ptr;
        other.ptr := null;
      }
    }

    /** release(): one release and the pointer nulled; on a null pointer nothing happens. */
    method Release()
      modifies this, ptr
      ensures ptr == null
      ensures old(ptr) != null ==> old(ptr).refs == old(ptr.refs) - 1
    {
      if ptr != null {
        ptr.Release();
        ptr := null;
      }
    }

    predicate IsValid()
      reads this
    {
      ptr != null
    }

    predicate IsEmpty()
      reads this
      ensures IsEmpty() <==> !IsValid()
    {
      ptr == null
    }
  }

  // ---------------------------------------------------------------------------------
  // Reference balance over a set of pointers
  // ---------------------------------------------------------------------------------

  /**
   * The pointer operations on a collection of live pointers: slots[i] is the pointee of the
   * i-th pointer (0 for null), and each operation yields the new slots and the add_ref and
   * release calls it makes, in order.
   */
  datatype RefCall = AddRef(target: nat) | ReleaseRef(target: nat)

  datatype PtrStep = PtrStep(slots: seq<nat>, calls: seq<RefCall>)

  /** The net change the calls make to the count of service s. */
  function Net(calls: seq<RefCall>, s: nat): int {
    if calls == [] then 0
    else
      (match calls[0]
       case AddRef(t) => if t == s then 1 else 0
       case ReleaseRef(t) => if t == s then -1 else 0)
      + Net(calls[1..], s)
  }

  /** How many pointers hold s. */
  function Holders(slots: seq<nat>, s: nat): nat {
    multiset(slots)[s]
  }

  /** The operations keep every count in step: each service gains exactly as many references as it gains holders. */
  ghost predicate Balanced(before: seq<nat>, step: PtrStep) {
    forall s :: s != 0 ==> Net(step.calls, s) == Holders(step.slots, s) - Holders(before, s)
  }

  function AddRefIf(p: nat): seq<RefCall> {
    if p != 0 then [AddRef(p)] else []
  }

  function ReleaseIf(p: nat): seq<RefCall> {
    if p != 0 then [ReleaseRef(p)] else []
  }

  lemma NetPair(a: seq<RefCall>, b: seq<RefCall>, s: nat)
    requires |a| <= 1 && |b| <= 1
    ensures Net(a + b, s) == Net(a, s) + Net(b, s)
  {
    if a == [] {
      assert a + b == b;
    } else {
      assert (a + b)[1..] == b;
    }
  }

  function ConstructFrom(slots: seq<nat>, p: nat): PtrStep {
    PtrStep(slots + [p], AddRefIf(p))
  }

  function CopyConstruct(slots: seq<nat>, j: nat): PtrStep
    requires j < |slots|
  {
    PtrStep(slots + [slots[j]], AddRefIf(slots[j]))
  }

  function MoveConstruct(slots: seq<nat>, j: nat): PtrStep
    requires j < |slots|
  {
    PtrStep(slots[j := 0] + [slots[j]], [])
  }

  function Destroy(slots: seq<nat>, i: nat): PtrStep
    requires i < |slots|
  {
    PtrStep(slots[..i] + slots[i + 1..], ReleaseIf(slots[i]))
  }

  function CopyAssign(slots: seq<nat>, i: nat, j: nat): PtrStep
    requires i < |slots| && j < |slots|
  {
    if i == j then PtrStep(slots, [])
    else PtrStep(slots[i := slots[j]], ReleaseIf(slots[i]) + AddRefIf(slots[j]))
  }

  function MoveAssign(slots: seq<nat>, i: nat, j: nat): PtrStep
    requires i < |slots| && j < |slots|
  {
    if i == j then PtrStep(slots, [])
    else PtrStep(slots[i := slots[j]][j := 0], ReleaseIf(slots[i]))
  }

  function ReleaseSlot(slots: seq<nat>, i: nat): PtrStep
    requires i < |slots|
  {
    PtrStep(slots[i := 0], ReleaseIf(slots[i]))
  }

  /** Constructing, copying and moving pointers keep every count equal to its holders. */
  lemma ConstructorsBalanced(slots: seq<nat>, p: nat, j: nat)
    requires j < |slots|
    ensures Balanced(slots, ConstructFrom(slots, p))
    ensures Balanced(slots, CopyConstruct(slots, j))
    ensures Balanced(slots, MoveConstruct(slots, j))
  {
    var m := MoveConstruct(slots, j).slots;
    assert multiset(m) == multiset(slots[j := 0]) + multiset{slots[j]};
    assert multiset(slots[j := 0]) == multiset(slots) - multiset{slots[j]} + multiset{0};
  }

  /** Destroying a pointer drops one holder and releases once. */
  lemma DestroyBalanced(slots: seq<nat>, i: nat)
    requires i < |slots|
    ensures Balanced(slots, Destroy(slots, i))
  {
    assert slots == slots[..i] + [slots[i]] + slots[i + 1..];
    assert multiset(slots) == multiset(slots[..i] + slots[i + 1..]) + multiset{slots[i]};
  }

  /** release() on a pointer turns its holder into a null and releases once. */
  lemma ReleaseBalanced(slots: seq<nat>, i: nat)
    requires i < |slots|
    ensures Balanced(slots, ReleaseSlot(slots, i))
  {
    assert multiset(slots[i := 0]) == multiset(slots) - multiset{slots[i]} + multiset{0};
  }

  /** Copy assignment moves one holder from the old pointee to the new one, with one call each. */
  lemma CopyAssignBalanced(slots: seq<nat>, i: nat, j: nat)
    requires i < |slots| && j < |slots|
    ensures Balanced(slots, CopyAssign(slots, i, j))
  {
    if i != j {
      var t := slots[i := slots[j]];
      assert multiset(t) == multiset(slots) - multiset{slots[i]} + multiset{slots[j]};
      forall s | s != 0
        ensures Net(ReleaseIf(slots[i]) + AddRefIf(slots[j]), s) == Holders(t, s) - Holders(slots, s)
      {
        NetPair(ReleaseIf(slots[i]), AddRefIf(slots[j]), s);
      }
    }
  }

  /** Move assignment hands other's holder over and releases the old pointee once. */
  lemma MoveAssignBalanced(slots: seq<nat>, i: nat, j: nat)
    requires i < |slots| && j < |slots|
    ensures Balanced(slots, MoveAssign(slots, i, j))
  {
    if i != j {
      var t := slots[i := slots[j]];
      assert multiset(t) == multiset(slots) - multiset{slots[i]} + multiset{slots[j]};
      assert t[j] == slots[j];
      assert multiset(t[j := 0]) == multiset(t) - multiset{slots[j]} + multiset{0};
    }
  }
}
