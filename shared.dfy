/**
 `ptr::Shared`: the strong handle. A handle is two fields, the pointer it
 exposes (`obj`) and the control block that owns the value (`cb`); the two
 are independent, which is what the aliasing constructors use. Every
 operation here changes those fields and, through the block's methods, the
 block's counts.

 The class declares its copy constructor and copy assignment only as
 templates. A template is never a copy constructor or a copy assignment, so
 C++ still declares both implicitly, as field-by-field copies. For a source
 of the same element type the implicit member is the better match, and it
 is the one called. The template (`Copy`, `CopyAssign`) is reached only from
 a handle of another element type. Moves reach the templates, because no
 implicit move member is declared next to a user-declared destructor.
 */
module SharedHandles {
  import opened Counts
  import opened Blocks

  class Shared {
    /** `object`: what `get()` returns; not necessarily the managed pointer. */
    var obj: Ptr
    /** `control_block`: the block this handle holds a strong count on, if any. */
    var cb: ControlBlock?

    /** The private `Shared(target, control_block)` used by `Weak::lock`: takes both fields, changes no count. */
    constructor FromParts(target: Ptr, block: ControlBlock?)
      ensures obj == target && cb == block
    {
      obj := target;
      cb := block;
    }

    /** `Shared()` and `Shared(nullptr)`. */
    constructor Null()
      ensures obj == Nullptr && cb == null
    {
      obj := Nullptr;
      cb := null;
    }

    /**
     `Shared(raw)`: adopts `raw` with the default deleter, which is
     `Shared(raw, [](Object *o) { delete o; })`.
     */
    constructor Adopt(raw: Ptr)
      ensures obj == raw && fresh(cb)
      ensures cb.kind == Deleting(DefaultDelete, raw)
      ensures cb.Counts() == RefCounts(1, 0) && cb.destroyLog == [] && cb.freeCount == 0
    {
      obj := raw;
      cb := new ControlBlock.DeletingBlock(RefCounts(1, 0), DefaultDelete, raw);
    }

    /** `Shared(raw, deleter)`: a new deleting block with counts {1, 0} that manages `raw`. */
    constructor AdoptWith(raw: Ptr, deleter: Deleter)
      ensures obj == raw && fresh(cb)
      ensures cb.kind == Deleting(deleter, raw)
      ensures cb.Counts() == RefCounts(1, 0) && cb.destroyLog == [] && cb.freeCount == 0
    {
      obj := raw;
      cb := new ControlBlock.DeletingBlock(RefCounts(1, 0), deleter, raw);
    }

    /**
     The converting copy `Shared(const Shared<Other>&)`: the aliasing copy
     with `other.object` as the alias, so strong is one higher. A same-type
     copy is evidently meant to do the same.
     */
    constructor Copy(other: Shared)
      modifies other.cb
      ensures obj == other.obj && cb == other.cb
      ensures other.cb != null ==> other.cb.State() == IncStrongStep(old(other.cb.State()))
    {
      obj := other.obj;
      cb := other.cb;
      new;
      if cb != null {
        cb.IncrementStrong();
      }
    }

    /**
     The implicitly-declared `Shared(const Shared&)` that a same-type copy
     reaches: both fields are copied and no block is touched, so the new
     handle holds no strong count of its own.
     */
    constructor ImplicitCopy(other: Shared)
      ensures obj == other.obj && cb == other.cb
    {
      obj := other.obj;
      cb := other.cb;
    }

    /**
     `Shared(const Shared& other, alias)`: shares `other`'s block, raising its
     strong count by one, but exposes `alias`. With no block nothing changes.
     */
    constructor AliasCopy(other: Shared, alias: Ptr)
      modifies other.cb
      ensures obj == alias && cb == other.cb
      ensures other.cb != null ==> other.cb.State() == IncStrongStep(old(other.cb.State()))
    {
      obj := alias;
      cb := other.cb;
      new;
      if cb != null {
        cb.IncrementStrong();
      }
    }

    /** `Shared(Shared&&)`: the aliasing move with `other.object` as the alias. */
    constructor Move(other: Shared)
      modifies other
      ensures obj == old(other.obj) && cb == old(other.cb)
      ensures other.obj == Nullptr && other.cb == null
    {
      obj := other.obj;
      cb := other.cb;
      new;
      other.cb := null;
      other.obj := Nullptr;
    }

    /**
     `Shared(Shared&& other, alias)`: takes `other`'s block without touching
     any count, exposes `alias`, and leaves `other` null. (The source's
     `&other == this` test cannot succeed for a newly allocated handle.)
     */
    constructor AliasMove(other: Shared, alias: Ptr)
      modifies other
      ensures obj == alias && cb == old(other.cb)
      ensures other.obj == Nullptr && other.cb == null
    {
      obj := alias;
      cb := other.cb;
      new;
      other.cb := null;
      other.obj := Nullptr;
    }

    /** `~Shared()`: one `decrement_strong` on a non-null block, nothing otherwise. */
    method Dispose()
      modifies cb
      ensures cb != null ==> cb.State() == DecStrongStep(old(cb.State()), cb.DestroyAction())
    {
      if cb == null {
        return;
      }
      cb.DecrementStrong();
    }

    /**
     The converting `operator=(const Shared<Other>&)`: with the same block
     only `object` changes; otherwise the old block loses a strong count and
     the new one gains one. A same-type copy-assignment is evidently meant to
     do the same.
     */
    method CopyAssign(other: Shared)
      modifies this, cb, other.cb
      ensures obj == old(other.obj) && cb == old(other.cb)
      ensures old(cb) == old(other.cb) && cb != null ==> cb.State() == old(cb.State())
      ensures old(cb) != old(other.cb) && old(cb) != null ==>
        old(cb).State() == DecStrongStep(old(cb.State()), old(cb).DestroyAction())
      ensures old(cb) != old(other.cb) && old(other.cb) != null ==>
        old(other.cb).State() == IncStrongStep(old(other.cb.State()))
    {
      if other.cb == cb {
        obj := other.obj;
        return;
      }
      // this->~Shared(); new (this) Shared(other);
      Dispose();
      obj := other.obj;
      cb := other.cb;
      if cb != null {
        cb.IncrementStrong();
      }
    }

    /**
     The implicitly-declared `operator=(const Shared&)` that a same-type
     copy-assignment reaches: both fields are overwritten and no block is
     touched. The old block keeps the count this handle held, and the new
     block gains a handle without a count.
     */
    method ImplicitCopyAssign(other: Shared)
      modifies this
      ensures obj == old(other.obj) && cb == old(other.cb)
    {
      obj, cb := other.obj, other.cb;
    }

    /**
     `operator=(Shared&&)`: self-move does nothing; otherwise the old block
     loses a strong count, this handle takes `other`'s fields and `other`
     becomes null. The moved reference itself changes no count.
     */
    method MoveAssign(other: Shared)
      modifies this, other, cb
      ensures other == this ==> obj == old(obj) && cb == old(cb)
      ensures other == this && cb != null ==> cb.State() == old(cb.State())
      ensures other != this ==> obj == old(other.obj) && cb == old(other.cb)
      ensures other != this ==> other.obj == Nullptr && other.cb == null
      ensures other != this && old(cb) != null ==> old(cb).State() == DecStrongStep(old(cb.State()), old(cb).DestroyAction())
      ensures old(other.cb) != null && old(other.cb) != old(cb) ==>
        old(other.cb).State() == old(other.cb.State())
    {
      if other == this {
        return;
      }
      // this->~Shared(); new (this) Shared(std::move(other));
      Dispose();
      obj := other.obj;
      cb := other.cb;
      other.cb := null;
      other.obj := Nullptr;
    }

    /**
     `reset()` as written: `*this = nullptr` cannot deduce `Other` for
     either template assignment, so it converts `nullptr` to a null
     temporary and calls the implicit copy assignment. Both fields become
     null and no block is touched: the count this handle held is never
     released. (The null temporary's destructor does nothing.)
     */
    method Reset()
      modifies this
      ensures obj == Nullptr && cb == null
      ensures old(cb) != null ==> old(cb).State() == old(cb.State())
    {
      var empty := new Shared.Null();
      ImplicitCopyAssign(empty);
    }

    /**
     `reset()` as evidently intended: a move-assignment from a null
     temporary, which releases the old block once (if any) and leaves both
     fields null.
     */
    method ResetReleasing()
      modifies this, cb
      ensures obj == Nullptr && cb == null
      ensures old(cb) != null ==> old(cb).State() == DecStrongStep(old(cb.State()), old(cb).DestroyAction())
    {
      var empty := new Shared.Null();
      MoveAssign(empty);
      empty.Dispose();
    }

    /** `get()`: the tracked pointer, which after an aliasing construction is the alias. */
    function Get(): Ptr
      reads this
    {
      obj
    }
  }

  /**
   `make_shared`: a new in-place block with counts {1, 0} whose storage holds
   the value, and a handle pointing into that storage.
   */
  method MakeShared() returns (result: Shared)
    ensures fresh(result) && fresh(result.cb)
    ensures result.cb.kind == InPlace
    ensures result.cb.Counts() == RefCounts(1, 0)
    ensures result.cb.destroyLog == [] && result.cb.freeCount == 0
    ensures result.obj == result.cb.Object() == Storage(result.cb)
  {
    result := new Shared.Null();
    var block := new ControlBlock.InPlaceBlock(RefCounts(1, 0));
    result.obj := block.Object();
    result.cb := block;
  }

  /** `swap(left, right)`: exchanges both fields; no block is touched. */
  method Swap(left: Shared, right: Shared)
    modifies left, right
    ensures left.obj == old(right.obj) && right.obj == old(left.obj)
    ensures left.cb == old(right.cb) && right.cb == old(left.cb)
  {
    var o := left.obj;
    left.obj := right.obj;
    right.obj := o;
    var c := left.cb;
    left.cb := right.cb;
    right.cb := c;
  }
}
