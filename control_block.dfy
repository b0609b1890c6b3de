/**
 The control block: the counter word shared by every handle of one managed
 value, and the capability to destroy that value. The two C++ variants
 (`InPlaceControlBlock`, whose storage holds the value, and
 `DeletingControlBlock`, which holds a deleter and a pointer to a value
 allocated elsewhere) are one class here, told apart by its `kind`.
 */
module Blocks {
  import opened Counts

  /** The cleanup action of an adopting block: `delete` or a user deleter. */
  datatype Deleter = DefaultDelete | CustomDeleter(id: nat)

  /**
   An object pointer. `Heap` is any address outside control blocks;
   `Storage(b)` is the inline storage of the in-place block `b`.
   */
  datatype Ptr = Nullptr | Heap(addr: nat) | Storage(block: ControlBlock)

  /** Which `destroy` a block runs. */
  datatype Kind = InPlace | Deleting(deleter: Deleter, managed: Ptr)

  /**
   What one call of `destroy` did: ended the lifetime of the value in a
   block's own storage, or called a deleter on a pointer.
   */
  datatype Teardown = EndLifetime(value: Ptr) | Delete(deleter: Deleter, target: Ptr)

  /**
   The abstract state of a block: its counts, every `destroy` run so far
   and how many times the block itself was freed.
   */
  datatype BlockState = BlockState(counts: RefCounts, destroyed: seq<Teardown>, freed: nat)

  /** The state of a block created with counts {1, 0}. */
  function Fresh(): BlockState
  {
    BlockState(RefCounts(1, 0), [], 0)
  }

  /** The effect of the strong-increment loop of an aliasing copy. */
  function IncStrongStep(s: BlockState): BlockState
  {
    s.(counts := AddStrong(s.counts))
  }

  /** The effect of `lock`'s loop. */
  function LockStep(s: BlockState): BlockState
  {
    s.(counts := LockDesired(s.counts))
  }

  /** The effect of `increment_weak`. */
  function IncWeakStep(s: BlockState): BlockState
  {
    s.(counts := AddWeak(s.counts))
  }

  /**
   The effect of `decrement_strong` on a block whose `destroy` does
   `action`: one strong fewer; the value is destroyed when strong reaches
   zero, and the block is freed when it does so with no weak reference left.
   */
  function DecStrongStep(s: BlockState, action: Teardown): BlockState
  {
    var c := SubStrong(s.counts);
    BlockState(c,
               if c.strong == 0 then s.destroyed + [action] else s.destroyed,
               if c.strong == 0 && c.weak == 0 then s.freed + 1 else s.freed)
  }

  /**
   The effect of `decrement_weak`: one weak fewer; the block is freed when
   both counts are now zero.
   */
  function DecWeakStep(s: BlockState): BlockState
  {
    var c := SubWeak(s.counts);
    s.(counts := c, freed := if c.strong == 0 && c.weak == 0 then s.freed + 1 else s.freed)
  }

  /**
   A strong decrement destroys exactly when it drops the last strong count,
   and then it runs the block's own `destroy` once; it frees the block
   exactly when no weak count is left either.
   */
  lemma DecStrongDestroysAtZero(s: BlockState, action: Teardown)
    requires 0 < s.counts.strong
    ensures DecStrongStep(s, action).counts == RefCounts(s.counts.strong - 1, s.counts.weak)
    ensures s.counts.strong == 1 ==> DecStrongStep(s, action).destroyed == s.destroyed + [action]
    ensures s.counts.strong != 1 ==> DecStrongStep(s, action).destroyed == s.destroyed
    ensures DecStrongStep(s, action).freed == s.freed + 1 <==> s.counts == RefCounts(1, 0)
  {
  }

  /** A weak decrement never destroys, and frees exactly when it ends the last reference of any kind. */
  lemma DecWeakFreesAtZero(s: BlockState)
    requires 0 < s.counts.weak
    ensures DecWeakStep(s).counts == RefCounts(s.counts.strong, s.counts.weak - 1)
    ensures DecWeakStep(s).destroyed == s.destroyed
    ensures DecWeakStep(s).freed == s.freed + 1 <==> s.counts == RefCounts(0, 1)
  {
  }

  class ControlBlock {
    /** `ref_counts`: a `RefCounts::as_word()`. */
    var refCounts: Word

    /** Which variant the block is, fixed at construction. */
    const kind: Kind

    /** Every `destroy` run so far, in order. */
    var destroyLog: seq<Teardown>

    /** How many times the block's own storage has been released. */
    var freeCount: nat

    /** The counts the word encodes. */
    function Counts(): RefCounts
      reads this
    {
      FromWord(refCounts)
    }

    function State(): BlockState
      reads this
    {
      BlockState(Counts(), destroyLog, freeCount)
    }

    /** `InPlaceControlBlock(counts)`. */
    constructor InPlaceBlock(counts: RefCounts)
      ensures kind == InPlace
      ensures Counts() == counts
      ensures destroyLog == [] && freeCount == 0
    {
      refCounts := AsWord(counts);
      kind := InPlace;
      destroyLog := [];
      freeCount := 0;
      new;
      FromWordAsWord(counts);
    }

    /** `DeletingControlBlock(counts, deleter, object)`. */
    constructor DeletingBlock(counts: RefCounts, deleter: Deleter, managed: Ptr)
      ensures kind == Deleting(deleter, managed)
      ensures Counts() == counts
      ensures destroyLog == [] && freeCount == 0
    {
      refCounts := AsWord(counts);
      kind := Deleting(deleter, managed);
      destroyLog := [];
      freeCount := 0;
      new;
      FromWordAsWord(counts);
    }

    /** `InPlaceControlBlock::object`: the value lives in the block's own storage. */
    function Object(): Ptr
      requires kind == InPlace
    {
      Storage(this)
    }

    /** What `destroy` does for this block's variant. */
    function DestroyAction(): Teardown
    {
      match kind
      case InPlace => EndLifetime(Object())
      case Deleting(deleter, managed) => Delete(deleter, managed)
    }

    /**
     `destroy`: ends the lifetime of the value in the block's own storage
     (in-place), or calls the stored deleter on the managed pointer the
     block was built with (deleting), never on an alias a handle exposes;
     it never frees the block.
     */
    method Destroy()
      modifies this
      ensures kind == InPlace ==> destroyLog == old(destroyLog) + [EndLifetime(Storage(this))]
      ensures kind.Deleting? ==> destroyLog == old(destroyLog) + [Delete(kind.deleter, kind.managed)]
      ensures refCounts == old(refCounts) && freeCount == old(freeCount)
    {
      destroyLog := destroyLog + [DestroyAction()];
    }

    /** Releases the block itself (`delete` of the control block). */
    method Free()
      modifies this
      ensures freeCount == old(freeCount) + 1
      ensures refCounts == old(refCounts) && destroyLog == old(destroyLog)
    {
      freeCount := freeCount + 1;
    }

    /** The strong-increment compare-and-swap loop, as one atomic step. */
    method IncrementStrong()
      modifies this
      ensures Counts() == AddStrong(old(Counts()))
      ensures State() == IncStrongStep(old(State()))
    {
      refCounts := CasAddStrong(refCounts);
    }

    /**
     `lock`'s compare-and-swap loop, as one atomic step; returns the desired
     pair it wrote, whose strong count says whether the upgrade succeeded.
     */
    method LockStrong() returns (desired: RefCounts)
      modifies this
      ensures desired == LockDesired(old(Counts())) && Counts() == desired
      ensures old(Counts()).strong == 0 ==> refCounts == old(refCounts)
      ensures State() == LockStep(old(State()))
    {
      var r := CasLock(refCounts);
      refCounts, desired := r.0, r.1;
    }

    /** `increment_weak`: one weak reference more. */
    method IncrementWeak()
      modifies this
      ensures Counts() == AddWeak(old(Counts()))
      ensures State() == IncWeakStep(old(State()))
    {
      var c := AddWeak(Counts());
      FromWordAsWord(c);
      refCounts := AsWord(c);
    }

    /**
     `decrement_weak`: one weak reference fewer; frees the block when both
     counts are now zero.
     */
    method DecrementWeak()
      modifies this
      ensures Counts() == SubWeak(old(Counts()))
      ensures State() == DecWeakStep(old(State()))
    {
      var c := SubWeak(Counts());
      FromWordAsWord(c);
      refCounts := AsWord(c);
      if c.strong == 0 && c.weak == 0 {
        Free();
      }
    }

    /**
     `decrement_strong`: one strong reference fewer; when strong reaches
     zero, runs `destroy` once and then frees the block if no weak reference
     is left.
     */
    method DecrementStrong()
      modifies this
      ensures Counts() == SubStrong(old(Counts()))
      ensures State() == DecStrongStep(old(State()), DestroyAction())
    {
      var c := SubStrong(Counts());
      FromWordAsWord(c);
      refCounts := AsWord(c);
      if c.strong == 0 {
        Destroy();
        if c.weak == 0 {
          Free();
        }
      }
    }
  }
}
