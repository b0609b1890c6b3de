/**
 The life of one control block across any sequence of handle operations.
 Each handle operation that touches the block does so through exactly one of
 the steps below (moves, swaps and same-block copy-assignments touch no
 count and do not appear). A `Holders` ledger counts the live handles of
 each kind on the block; a trace is legal when every operation is performed
 through a handle that exists and no count overflows.

 Each operation has the effect its source evidently intends (`Effect`) and
 the effect the source has as written (`EffectAsWritten`). The two differ on
 the same-type copy members, which C++ declares implicitly and which touch no
 count, and on the weak move-assignment between two handles of one block.

 The invariant with the intended effects: the counts equal the ledger, the
 value has been destroyed (once, by the block's own `destroy`) exactly when
 no strong handle is left, and the block has been freed (once) exactly when
 no handle is left. As written, along traces through written members only,
 the same holds except that the weak count exceeds the live weak handles by
 the number of weak move-assignments between two handles of the block, and
 the block is freed only when there were none.
 */
module Lifecycle {
  import opened Counts
  import opened Blocks

  /** What an operation does to the live handles, and through which handle it is performed. */
  datatype Step =
    | GainStrong         // a strong handle copies another strong handle
    | LoseStrong         // a strong handle stops referring to the block
    | GainWeakViaStrong  // a weak handle is made from a strong handle
    | GainWeakViaWeak    // a weak handle is made from a weak handle
    | LoseWeak           // a weak handle stops referring to the block
    | MergeWeak          // one weak handle of the block is move-assigned onto another
    | LockViaWeak        // a weak handle is locked

  /** The kind of member an operation reaches. */
  datatype Member =
    | Written   // a member the source defines
    | Implicit  // an implicitly-declared copy member, which copies the fields and touches no count

  /** One handle operation that touches the block. */
  datatype Op = Op(step: Step, member: Member)

  /** Converting or aliasing copy of a strong handle, or converting copy-assignment from another block. */
  const CopyStrong := Op(GainStrong, Written)
  /** Same-type copy of a strong handle, or same-type copy-assignment from another block. */
  const CopyStrongSameType := Op(GainStrong, Implicit)
  /** Destruction of a strong handle, or a move-assignment onto it. */
  const DropStrong := Op(LoseStrong, Written)
  /** `reset()` of a strong handle, or a same-type copy-assignment onto it from another block. */
  const OverwriteStrong := Op(LoseStrong, Implicit)
  /** `Weak(const Shared&)`, or `Weak = Shared` onto another block. */
  const WeakFromStrong := Op(GainWeakViaStrong, Written)
  /** Converting `Weak(const Weak<Other>&)`, or converting `Weak = Weak` onto another block. */
  const WeakFromWeak := Op(GainWeakViaWeak, Written)
  /** Same-type copy of a weak handle, or same-type copy-assignment from another block. */
  const CopyWeakSameType := Op(GainWeakViaWeak, Implicit)
  /** Destruction or `reset()` of a weak handle, or re-assignment onto it through a written member. */
  const DropWeak := Op(LoseWeak, Written)
  /** Same-type copy-assignment onto a weak handle from another block. */
  const OverwriteWeak := Op(LoseWeak, Implicit)
  /** `lock()` through a weak handle. */
  const Lock := Op(LockViaWeak, Written)
  /** `Weak = std::move(Weak)` between two weak handles of this block. */
  const WeakMoveSameBlock := Op(MergeWeak, Written)

  /** The live handles on the block. */
  datatype Holders = Holders(strong: nat, weak: nat)

  /** An operation can be performed: the handle it goes through exists and no count overflows. */
  predicate Legal(h: Holders, op: Op)
  {
    match op.step
    case GainStrong => 0 < h.strong < MaxCount
    case LoseStrong => 0 < h.strong
    case GainWeakViaStrong => 0 < h.strong && h.weak < MaxCount
    case GainWeakViaWeak => 0 < h.weak < MaxCount
    case LoseWeak => 0 < h.weak
    case MergeWeak => 2 <= h.weak
    case LockViaWeak => 0 < h.weak && h.strong < MaxCount
  }

  /** The live handles after an operation; `lock` adds a strong handle only while one exists. */
  function After(h: Holders, op: Op): Holders
    requires Legal(h, op)
  {
    match op.step
    case GainStrong => h.(strong := h.strong + 1)
    case LoseStrong => h.(strong := h.strong - 1)
    case GainWeakViaStrong | GainWeakViaWeak => h.(weak := h.weak + 1)
    case LoseWeak | MergeWeak => h.(weak := h.weak - 1)
    case LockViaWeak => if h.strong > 0 then h.(strong := h.strong + 1) else h
  }

  /**
   What an operation evidently should do to a block whose `destroy` does
   `action`: every handle gained or lost moves its count by one.
   */
  function Effect(s: BlockState, action: Teardown, op: Op): BlockState
  {
    match op.step
    case GainStrong => IncStrongStep(s)
    case LoseStrong => DecStrongStep(s, action)
    case GainWeakViaStrong | GainWeakViaWeak => IncWeakStep(s)
    case LoseWeak | MergeWeak => DecWeakStep(s)
    case LockViaWeak => LockStep(s)
  }

  /**
   What an operation does as the source is written: the implicit members and
   the weak move-assignment between handles of one block change no count.
   */
  function EffectAsWritten(s: BlockState, action: Teardown, op: Op): BlockState
  {
    if op.member.Implicit? || op.step.MergeWeak? then s else Effect(s, action, op)
  }

  /** A sequence of operations on the block, first operation outermost. */
  datatype Trace = Done | Then(op: Op, rest: Trace)

  function Length(t: Trace): nat
  {
    match t
    case Done => 0
    case Then(_, rest) => 1 + Length(rest)
  }

  /** Every operation of the trace is legal where it is performed. */
  predicate LegalTrace(h: Holders, t: Trace)
    decreases t
  {
    match t
    case Done => true
    case Then(op, rest) => Legal(h, op) && LegalTrace(After(h, op), rest)
  }

  /** The live handles after a legal trace. */
  function HoldersAfter(h: Holders, t: Trace): Holders
    requires LegalTrace(h, t)
    decreases t
  {
    match t
    case Done => h
    case Then(op, rest) => HoldersAfter(After(h, op), rest)
  }

  /** The block after a trace with the intended effects. */
  function Run(s: BlockState, action: Teardown, t: Trace): BlockState
    decreases t
  {
    match t
    case Done => s
    case Then(op, rest) => Run(Effect(s, action, op), action, rest)
  }

  /** The block after a trace with the effects as written. */
  function RunAsWritten(s: BlockState, action: Teardown, t: Trace): BlockState
    decreases t
  {
    match t
    case Done => s
    case Then(op, rest) => RunAsWritten(EffectAsWritten(s, action, op), action, rest)
  }

  /** The block agrees with its live handles. */
  predicate Agrees(h: Holders, s: BlockState, action: Teardown)
  {
    && s.counts.strong == h.strong
    && s.counts.weak == h.weak
    && s.destroyed == (if h.strong == 0 then [action] else [])
    && s.freed == (if h.strong == 0 && h.weak == 0 then 1 else 0)
  }

  /** Every legal operation keeps the block in agreement with its handles. */
  lemma EffectAgrees(h: Holders, s: BlockState, action: Teardown, op: Op)
    requires Agrees(h, s, action) && Legal(h, op)
    ensures Agrees(After(h, op), Effect(s, action, op), action)
  {
  }

  /** Agreement holds along every legal trace. */
  lemma {:induction false} RunAgrees(h: Holders, s: BlockState, action: Teardown, t: Trace)
    requires Agrees(h, s, action) && LegalTrace(h, t)
    ensures Agrees(HoldersAfter(h, t), Run(s, action, t), action)
    decreases t
  {
    match t
    case Done =>
    case Then(op, rest) =>
      EffectAgrees(h, s, action, op);
      RunAgrees(After(h, op), Effect(s, action, op), action, rest);
  }

  /**
   From creation with counts {1, 0} (one strong handle), along any legal
   trace: the counts are the numbers of live handles; `destroy` has run at
   most once, and exactly once precisely when no strong handle is left; the
   block has been freed at most once, and exactly once precisely when no
   handle of either kind is left.
   */
  lemma LifecycleFromCreation(action: Teardown, t: Trace)
    requires LegalTrace(Holders(1, 0), t)
    ensures var h, s := HoldersAfter(Holders(1, 0), t), Run(Fresh(), action, t);
      && s.counts.strong == h.strong && s.counts.weak == h.weak
      && s.destroyed == (if h.strong == 0 then [action] else [])
      && s.freed <= 1 && (s.freed == 1 <==> h == Holders(0, 0))
  {
    RunAgrees(Holders(1, 0), Fresh(), action, t);
  }

  /**
   `lock` after any legal trace from creation fails exactly when the value
   has already been destroyed, and then changes nothing.
   */
  lemma LockFailsExactlyAfterDestroy(action: Teardown, t: Trace)
    requires LegalTrace(Holders(1, 0), t)
    requires HoldersAfter(Holders(1, 0), t).strong < MaxCount
    ensures var s := Run(Fresh(), action, t);
      && (LockDesired(s.counts).strong == 0 <==> s.destroyed != [])
      && (s.destroyed != [] ==> LockStep(s) == s)
  {
    RunAgrees(Holders(1, 0), Fresh(), action, t);
    var s := Run(Fresh(), action, t);
    LockSucceedsIffAlive(s.counts);
  }

  /**
   The block agrees with its live handles as the source is written, where
   `extra` weak counts are held by no handle.
   */
  predicate AgreesAsWritten(h: Holders, s: BlockState, action: Teardown, extra: nat)
  {
    && s.counts.strong == h.strong
    && s.counts.weak == h.weak + extra
    && s.destroyed == (if h.strong == 0 then [action] else [])
    && s.freed == (if h.strong == 0 && h.weak + extra == 0 then 1 else 0)
  }

  /** Every operation of the trace reaches a member the source defines. */
  predicate WrittenOnly(t: Trace)
  {
    match t
    case Done => true
    case Then(op, rest) => !op.member.Implicit? && WrittenOnly(rest)
  }

  /** The number of weak move-assignments between two handles of the block in the trace. */
  function Merges(t: Trace): nat
  {
    match t
    case Done => 0
    case Then(op, rest) => (if op.step.MergeWeak? then 1 else 0) + Merges(rest)
  }

  /**
   Every legal operation through a written member, as written, keeps the
   agreement; a weak move-assignment between two handles of the block adds
   one weak count that no handle holds.
   */
  lemma EffectAsWrittenAgrees(h: Holders, s: BlockState, action: Teardown, extra: nat, op: Op)
    requires AgreesAsWritten(h, s, action, extra) && Legal(h, op) && !op.member.Implicit?
    requires s.counts.weak < MaxCount
    ensures AgreesAsWritten(After(h, op), EffectAsWritten(s, action, op), action, extra + (if op.step.MergeWeak? then 1 else 0))
  {
  }

  /** The agreement holds along every legal as-written trace through written members. */
  lemma {:induction false} RunAsWrittenAgrees(h: Holders, s: BlockState, action: Teardown, extra: nat, t: Trace)
    requires AgreesAsWritten(h, s, action, extra) && LegalTrace(h, t) && WrittenOnly(t)
    requires s.counts.weak + Length(t) < MaxCount
    ensures AgreesAsWritten(HoldersAfter(h, t), RunAsWritten(s, action, t), action, extra + Merges(t))
    decreases t
  {
    match t
    case Done =>
    case Then(op, rest) =>
      EffectAsWrittenAgrees(h, s, action, extra, op);
      RunAsWrittenAgrees(After(h, op), EffectAsWritten(s, action, op), action, extra + (if op.step.MergeWeak? then 1 else 0), rest);
  }

  /**
   As written, along any legal trace from creation through written members:
   strong equals the live strong handles, and weak equals the live weak
   handles plus the number of weak move-assignments between two handles of
   the block; `destroy` has run at most once, and exactly once precisely
   when no strong handle is left; the block has been freed at most once, and
   exactly once precisely when no handle is left and no such
   move-assignment happened.
   */
  lemma LifecycleAsWritten(action: Teardown, t: Trace)
    requires LegalTrace(Holders(1, 0), t) && WrittenOnly(t)
    requires Length(t) < MaxCount
    ensures var h, s := HoldersAfter(Holders(1, 0), t), RunAsWritten(Fresh(), action, t);
      && s.counts.strong == h.strong && s.counts.weak == h.weak + Merges(t)
      && s.destroyed == (if h.strong == 0 then [action] else [])
      && s.freed <= 1 && (s.freed == 1 <==> h == Holders(0, 0) && Merges(t) == 0)
  {
    RunAsWrittenAgrees(Holders(1, 0), Fresh(), action, 0, t);
  }

  /**
   The trace that shows the as-written weak move-assignment leaking: a
   strong handle makes two weak ones; one weak handle is move-assigned onto
   the other; then the strong and the last weak handle are dropped.
   */
  function LeakTrace(): Trace
  {
    Then(WeakFromStrong, Then(WeakFromStrong, Then(WeakMoveSameBlock, Then(DropStrong, Then(DropWeak, Done)))))
  }

  /**
   As written, that trace ends with no live handle, yet the weak count is
   still one and the block is never freed.
   */
  lemma AsWrittenMoveAssignLeaks(action: Teardown)
    ensures LegalTrace(Holders(1, 0), LeakTrace())
    ensures HoldersAfter(Holders(1, 0), LeakTrace()) == Holders(0, 0)
    ensures RunAsWritten(Fresh(), action, LeakTrace()) == BlockState(RefCounts(0, 1), [action], 0)
  {
    LeakTraceLegal();
    LeakTraceShape();
    LifecycleAsWritten(action, LeakTrace());
  }

  /** The leak trace is legal from one strong handle and leaves no live handle. */
  lemma LeakTraceLegal()
    ensures LegalTrace(Holders(1, 0), LeakTrace())
    ensures HoldersAfter(Holders(1, 0), LeakTrace()) == Holders(0, 0)
  {
    assert LeakTrace() == Then(WeakFromStrong, Then(WeakFromStrong, Then(WeakMoveSameBlock, Then(DropStrong, Then(DropWeak, Done)))));
  }

  /** The leak trace goes through written members only and holds one weak move-assignment between two handles of the block. */
  lemma LeakTraceShape()
    ensures WrittenOnly(LeakTrace()) && Length(LeakTrace()) == 5 && Merges(LeakTrace()) == 1
  {
    assert LeakTrace() == Then(WeakFromStrong, Then(WeakFromStrong, Then(WeakMoveSameBlock, Then(DropStrong, Then(DropWeak, Done)))));
  }

  /** With the corrected move-assignment the same trace destroys once and frees the block once. */
  lemma CorrectedMoveAssignFrees(action: Teardown)
    ensures Run(Fresh(), action, LeakTrace()) == BlockState(RefCounts(0, 0), [action], 1)
  {
    AsWrittenMoveAssignLeaks(action);
    LifecycleFromCreation(action, LeakTrace());
  }

  /** `reset()` on the only strong handle. */
  function ResetTrace(): Trace
  {
    Then(OverwriteStrong, Done)
  }

  /**
   As written, `reset()` on the only strong handle leaves no live handle,
   yet the counts stay {1, 0}: the value is never destroyed and the block
   never freed.
   */
  lemma AsWrittenResetLeaks(action: Teardown)
    ensures LegalTrace(Holders(1, 0), ResetTrace())
    ensures HoldersAfter(Holders(1, 0), ResetTrace()) == Holders(0, 0)
    ensures RunAsWritten(Fresh(), action, ResetTrace()) == BlockState(RefCounts(1, 0), [], 0)
  {
    assert ResetTrace() == Then(OverwriteStrong, Done);
  }

  /** With `reset()` releasing, the same trace destroys the value once and frees the block once. */
  lemma CorrectedResetDestroys(action: Teardown)
    ensures Run(Fresh(), action, ResetTrace()) == BlockState(RefCounts(0, 0), [action], 1)
  {
    AsWrittenResetLeaks(action);
    LifecycleFromCreation(action, ResetTrace());
  }

  /** A same-type copy of the only strong handle, then dropping one of the two. */
  function CopyTrace(): Trace
  {
    Then(CopyStrongSameType, Then(DropStrong, Done))
  }

  /**
   As written, the same-type copy takes no count, so dropping one of the two
   handles destroys the value and frees the block while the other handle
   still refers to it.
   */
  lemma AsWrittenSameTypeCopyFreesEarly(action: Teardown)
    ensures LegalTrace(Holders(1, 0), CopyTrace())
    ensures HoldersAfter(Holders(1, 0), CopyTrace()) == Holders(1, 0)
    ensures RunAsWritten(Fresh(), action, CopyTrace()) == BlockState(RefCounts(0, 0), [action], 1)
  {
    assert CopyTrace() == Then(CopyStrongSameType, Then(DropStrong, Done));
  }

  /** With the copy counted, the surviving handle keeps the value alive and the block allocated. */
  lemma CorrectedSameTypeCopyKeepsAlive(action: Teardown)
    ensures Run(Fresh(), action, CopyTrace()) == BlockState(RefCounts(1, 0), [], 0)
  {
    AsWrittenSameTypeCopyFreesEarly(action);
    LifecycleFromCreation(action, CopyTrace());
  }

  /**
   A weak handle made from the only strong handle, a same-type copy of that
   weak handle, then dropping one weak handle and the strong one.
   */
  function WeakCopyTrace(): Trace
  {
    Then(WeakFromStrong, Then(CopyWeakSameType, Then(DropWeak, Then(DropStrong, Done))))
  }

  /**
   As written, the same-type weak copy takes no count, so once the strong
   handle and one weak handle are gone the block is freed while the other
   weak handle still refers to it.
   */
  lemma AsWrittenSameTypeWeakCopyFreesEarly(action: Teardown)
    ensures LegalTrace(Holders(1, 0), WeakCopyTrace())
    ensures HoldersAfter(Holders(1, 0), WeakCopyTrace()) == Holders(0, 1)
    ensures RunAsWritten(Fresh(), action, WeakCopyTrace()) == BlockState(RefCounts(0, 0), [action], 1)
  {
    assert WeakCopyTrace() == Then(WeakFromStrong, Then(CopyWeakSameType, Then(DropWeak, Then(DropStrong, Done))));
  }

  /** With the weak copy counted, the surviving weak handle keeps the block allocated. */
  lemma CorrectedSameTypeWeakCopyKeepsBlock(action: Teardown)
    ensures Run(Fresh(), action, WeakCopyTrace()) == BlockState(RefCounts(0, 1), [action], 0)
  {
    AsWrittenSameTypeWeakCopyFreesEarly(action);
    LifecycleFromCreation(action, WeakCopyTrace());
  }
}
