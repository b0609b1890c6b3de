/**
 `ptr::Weak`: the weak handle. Same two fields as a strong handle; it holds
 a weak count on its block and can try to upgrade to a strong handle.

 As with `Shared`, the copy constructor and copy assignment from a `Weak`
 are declared only as templates. A same-type copy therefore reaches the
 implicitly-declared field-by-field member (`ImplicitCopy`,
 `ImplicitCopyAssign`). The templates (`FromWeak`, `AssignWeak`) are
 reached from a handle of another element type, such as a
 `Weak<const T>` made from a `Weak<T>`. Move assignment and everything
 taking a `Shared` reach the templates. All three constructors are
 `explicit`, so copy-initialization ignores them: `Weak<T> w2 =
 std::move(w1)` reaches `ImplicitCopy` and leaves `w1` as it was. Only
 direct-initialization, `Weak<T> w2{std::move(w1)}`, reaches `MoveFrom`.
 */
module WeakHandles {
  import opened Counts
  import opened Blocks
  import opened SharedHandles

  class Weak {
    /** `object`: the pointer a successful `lock` hands out. */
    var obj: Ptr
    /** `control_block`: the block this handle holds a weak count on, if any. */
    var cb: ControlBlock?

    /** `Weak(const Shared&)`: copies both fields and raises weak by one; with no block nothing changes. */
    constructor FromShared(other: Shared)
      modifies other.cb
      ensures obj == other.obj && cb == other.cb
      ensures other.cb != null ==> other.cb.State() == IncWeakStep(old(other.cb.State()))
    {
      obj := other.obj;
      cb := other.cb;
      new;
      if cb != null {
        cb.IncrementWeak();
      }
    }

    /**
     The converting `Weak(const Weak<Other>&)`: copies both fields and
     raises weak by one; with no block nothing changes. A same-type copy is
     evidently meant to do the same.
     */
    constructor FromWeak(other: Weak)
      modifies other.cb
      ensures obj == other.obj && cb == other.cb
      ensures other.cb != null ==> other.cb.State() == IncWeakStep(old(other.cb.State()))
    {
      obj := other.obj;
      cb := other.cb;
      new;
      if cb != null {
        cb.IncrementWeak();
      }
    }

    /**
     The implicitly-declared `Weak(const Weak&)` that a same-type copy
     reaches: both fields are copied and no block is touched, so the new
     handle holds no weak count of its own.
     */
    constructor ImplicitCopy(other: Weak)
      ensures obj == other.obj && cb == other.cb
    {
      obj := other.obj;
      cb := other.cb;
    }

    /** `Weak(Weak&&)`: takes both fields, nulls the source, changes no count. */
    constructor MoveFrom(other: Weak)
      modifies other
      ensures obj == old(other.obj) && cb == old(other.cb)
      ensures other.obj == Nullptr && other.cb == null
    {
      obj := other.obj;
      cb := other.cb;
      new;
      other.obj := Nullptr;
      other.cb := null;
    }

    /** `~Weak()`: one `decrement_weak` on a non-null block, nothing otherwise. */
    method Dispose()
      modifies cb
      ensures cb != null ==> cb.State() == DecWeakStep(old(cb.State()))
    {
      if cb == null {
        return;
      }
      cb.DecrementWeak();
    }

    /**
     The converting `operator=(const Weak<Other>&)`: with a different block,
     the old one (if any) loses a weak count and the new one (if any) gains
     one; with the same block no count changes. `object` is always taken. A
     same-type copy-assignment is evidently meant to do the same.
     */
    method AssignWeak(other: Weak)
      modifies this, cb, other.cb
      ensures obj == old(other.obj) && cb == old(other.cb)
      ensures old(cb) == old(other.cb) && cb != null ==> cb.State() == old(cb.State())
      ensures old(cb) != old(other.cb) && old(cb) != null ==>
        old(cb).State() == DecWeakStep(old(cb.State()))
      ensures old(cb) != old(other.cb) && old(other.cb) != null ==>
        old(other.cb).State() == IncWeakStep(old(other.cb.State()))
    {
      if cb != other.cb {
        if cb != null {
          cb.DecrementWeak();
        }
        if other.cb != null {
          other.cb.IncrementWeak();
        }
        cb := other.cb;
      }
      obj := other.obj;
    }

    /**
     The implicitly-declared `operator=(const Weak&)` that a same-type
     copy-assignment reaches: both fields are overwritten and no block is
     touched.
     */
    method ImplicitCopyAssign(other: Weak)
      modifies this
      ensures obj == old(other.obj) && cb == old(other.cb)
    {
      obj, cb := other.obj, other.cb;
    }

    /** `operator=(const Shared&)`: the same rebinding as `AssignWeak`, from a strong handle. */
    method AssignShared(other: Shared)
      modifies this, cb, other.cb
      ensures obj == old(other.obj) && cb == old(other.cb)
      ensures old(cb) == old(other.cb) && cb != null ==> cb.State() == old(cb.State())
      ensures old(cb) != old(other.cb) && old(cb) != null ==>
        old(cb).State() == DecWeakStep(old(cb.State()))
      ensures old(cb) != old(other.cb) && old(other.cb) != null ==>
        old(other.cb).State() == IncWeakStep(old(other.cb.State()))
    {
      if cb != other.cb {
        if cb != null {
          cb.DecrementWeak();
        }
        if other.cb != null {
          other.cb.IncrementWeak();
        }
        cb := other.cb;
      }
      obj := other.obj;
    }

    /**
     `operator=(Weak&&)` as written: self-move does nothing; otherwise this
     handle takes `other`'s fields and `other` becomes null, and the old
     block loses a weak count only when it differs from `other`'s. When both
     handles share the block, the reference this handle held is overwritten
     without its weak count being released.
     */
    method MoveAssign(other: Weak)
      modifies this, other, cb
      ensures other == this ==> obj == old(obj) && cb == old(cb)
      ensures other != this ==> obj == old(other.obj) && cb == old(other.cb)
      ensures other != this ==> other.obj == Nullptr && other.cb == null
      ensures other != this && old(cb) != null && old(cb) != old(other.cb) ==>
        old(cb).State() == DecWeakStep(old(cb.State()))
      ensures (other == this || old(cb) == old(other.cb)) && cb != null ==>
        cb.State() == old(cb.State())
    {
      if this == other {
        return;
      }
      if cb != null && cb != other.cb {
        cb.DecrementWeak();
      }
      obj := other.obj;
      cb := other.cb;
      other.obj := Nullptr;
      other.cb := null;
    }

    /**
     `operator=(Weak&&)` corrected: the reference this handle held is always
     released, also when `other` shares the block, so that two weak
     references becoming one lowers the weak count by one.
     */
    method MoveAssignReleasing(other: Weak)
      modifies this, other, cb
      ensures other == this ==> obj == old(obj) && cb == old(cb)
      ensures other != this ==> obj == old(other.obj) && cb == old(other.cb)
      ensures other != this ==> other.obj == Nullptr && other.cb == null
      ensures other != this && old(cb) != null ==>
        old(cb).State() == DecWeakStep(old(cb.State()))
      ensures other == this && cb != null ==> cb.State() == old(cb.State())
    {
      if this == other {
        return;
      }
      if cb != null {
        cb.DecrementWeak();
      }
      obj := other.obj;
      cb := other.cb;
      other.obj := Nullptr;
      other.cb := null;
    }

    /** `reset()`: releases the weak count if there is a block, then nulls both fields. */
    method Reset()
      modifies this, cb
      ensures obj == Nullptr && cb == null
      ensures old(cb) != null ==> old(cb).State() == DecWeakStep(old(cb.State()))
    {
      if cb != null {
        cb.DecrementWeak();
      }
      obj := Nullptr;
      cb := null;
    }

    /**
     `lock()`: with no block, a null strong handle. Otherwise one atomic
     "raise strong unless it is zero" step: when strong was zero the word is
     left as it was and the result is null; when it was positive the result
     shares this handle's pointer and block, and strong is one higher.
     */
    method Lock() returns (s: Shared)
      modifies cb
      ensures fresh(s)
      ensures cb == null ==> s.obj == Nullptr && s.cb == null
      ensures cb != null ==> cb.State() == LockStep(old(cb.State()))
      ensures cb != null && old(cb.Counts()).strong == 0 ==>
        s.obj == Nullptr && s.cb == null && cb.refCounts == old(cb.refCounts)
      ensures cb != null && LockDesired(old(cb.Counts())).strong == 0 ==>
        s.obj == Nullptr && s.cb == null
      ensures cb != null && 0 < old(cb.Counts()).strong < MaxCount ==>
        s.obj == obj && s.cb == cb &&
        cb.Counts() == RefCounts(old(cb.Counts()).strong + 1, old(cb.Counts()).weak)
    {
      if cb == null {
        s := new Shared.Null();
        return;
      }
      var desired := cb.LockStrong();
      if desired.strong != 0 {
        s := new Shared.FromParts(obj, cb);
      } else {
        s := new Shared.Null();
      }
    }
  }
}
