/**
 Client programs built from the handle operations alone, each proved from
 the operations' contracts: the two blocks of the library's "breathing"
 test, each both as written and as the test expects it to behave; an
 aliasing copy outliving its owner (`include/ptr/shared.h:115-131`); and a
 weak handle outliving the only strong one (`include/ptr/weak.h:149-169`).
 */
module Scenarios {
  import opened Counts
  import opened Blocks
  import opened SharedHandles
  import opened WeakHandles

  /**
   The first block of the "breathing" test with the copy counted, as the
   test expects: adopt a pointer, copy the handle, destroy both copies. The
   value stays alive while either copy exists, exactly one `delete` of the
   adopted pointer is run, and the block is freed once.
   */
  method AdoptCopyDestroy(raw: Ptr) returns (aliveAfterFirstDrop: bool, log: seq<Teardown>, freed: nat)
    ensures aliveAfterFirstDrop
    ensures log == [Delete(DefaultDelete, raw)]
    ensures freed == 1
  {
    var s1 := new Shared.Adopt(raw);
    var block := s1.cb;
    var s2 := new Shared.Copy(s1);
    assert block.Counts() == RefCounts(2, 0);
    // end of scope: s2 is destroyed first, then s1
    s2.Dispose();
    aliveAfterFirstDrop := block.destroyLog == [];
    s1.Dispose();
    log, freed := block.destroyLog, block.freeCount;
  }

  /**
   The same block as written: `s2 = s1` is a same-type copy, which reaches
   the implicit copy constructor and leaves strong at one. Destroying `s2`
   then deletes the value and frees the block while `s1` still refers to it,
   so the destruction of `s1` that follows works on a freed block.
   */
  method AdoptCopyDestroyAsWritten(raw: Ptr) returns (stillHeld: bool, log: seq<Teardown>, freed: nat)
    ensures stillHeld
    ensures log == [Delete(DefaultDelete, raw)]
    ensures freed == 1
  {
    var s1 := new Shared.Adopt(raw);
    var block := s1.cb;
    var s2 := new Shared.ImplicitCopy(s1);
    assert block.Counts() == RefCounts(1, 0);
    s2.Dispose();
    stillHeld := s1.cb == block;
    log, freed := block.destroyLog, block.freeCount;
  }

  /**
   The second block of the "breathing" test with `reset` releasing, as the
   test expects: make a value in place, observe it weakly twice (the second
   weak handle is a `Weak<const T>`, so the converting copy is used) and
   lock it once, end all of those, then reset the owning handle. The lock
   succeeds, the value's lifetime is ended exactly once, in the block's own
   storage, and the block is freed once.
   */
  method MakeSharedWeakLockReset() returns (block: ControlBlock, locked: bool, log: seq<Teardown>, freed: nat)
    ensures locked
    ensures log == [EndLifetime(Storage(block))]
    ensures freed == 1
  {
    var s3 := new Shared.Null();
    var made := MakeShared();
    block := made.cb;
    s3.MoveAssign(made);
    made.Dispose();
    var w1 := new Weak.FromShared(s3);
    var s4 := w1.Lock();
    locked := s4.cb == block;
    var w2 := new Weak.FromWeak(w1);
    assert block.Counts() == RefCounts(2, 2);
    // end of scope: w2, s4 and w1 are destroyed in reverse order
    w2.Dispose();
    s4.Dispose();
    w1.Dispose();
    assert block.State() == BlockState(RefCounts(1, 0), [], 0);
    s3.ResetReleasing();
    log, freed := block.destroyLog, block.freeCount;
  }

  /**
   The same block as written: `reset` reaches the implicit copy assignment
   from a null temporary, so after it no handle refers to the block, yet the
   counts stay {1, 0}, the value is never destroyed and the block never freed.
   */
  method MakeSharedWeakLockResetAsWritten() returns (block: ControlBlock, locked: bool, state: BlockState)
    ensures locked
    ensures state == BlockState(RefCounts(1, 0), [], 0)
  {
    var s3 := new Shared.Null();
    var made := MakeShared();
    block := made.cb;
    s3.MoveAssign(made);
    made.Dispose();
    var w1 := new Weak.FromShared(s3);
    var s4 := w1.Lock();
    locked := s4.cb == block;
    var w2 := new Weak.FromWeak(w1);
    w2.Dispose();
    s4.Dispose();
    w1.Dispose();
    s3.Reset();
    state := block.State();
  }

  /**
   An aliasing copy of an owning handle keeps the owner's value alive after
   the owner is destroyed, exposes the alias, and when it goes the deleter
   runs on the adopted pointer, not on the alias.
   */
  method AliasKeepsOwnerAlive(raw: Ptr, field: Ptr) returns (seen: Ptr, logAfterOwner: seq<Teardown>, log: seq<Teardown>)
    ensures seen == field
    ensures logAfterOwner == []
    ensures log == [Delete(DefaultDelete, raw)]
  {
    var owner := new Shared.Adopt(raw);
    var block := owner.cb;
    var alias := new Shared.AliasCopy(owner, field);
    owner.Dispose();
    seen := alias.Get();
    logAfterOwner := block.destroyLog;
    alias.Dispose();
    log := block.destroyLog;
  }

  /**
   A weak handle outlives the only strong one: dropping the strong handle
   destroys the value but keeps the block, `lock` then yields a null handle
   without changing the counter word, and dropping the weak handle frees
   the block.
   */
  method WeakOutlivesStrong(raw: Ptr, deleter: Deleter)
    returns (log: seq<Teardown>, freedBefore: nat, relocked: bool, wordKept: bool, freedAfter: nat)
    ensures log == [Delete(deleter, raw)]
    ensures freedBefore == 0
    ensures !relocked && wordKept
    ensures freedAfter == 1
  {
    var s1 := new Shared.AdoptWith(raw, deleter);
    var block := s1.cb;
    var w1 := new Weak.FromShared(s1);
    s1.Dispose();
    log, freedBefore := block.destroyLog, block.freeCount;
    var word := block.refCounts;
    var s2 := w1.Lock();
    relocked := s2.cb != null;
    wordKept := block.refCounts == word;
    w1.Dispose();
    freedAfter := block.freeCount;
  }
}
