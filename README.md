# ptr: the reference-counting engine of a shared/weak pointer library, in Dafny

This project models the core of `ptr`, a C++ library of a strong owning
handle (`ptr::Shared`) and a weak observing handle (`ptr::Weak`), both layered over a
control block. The model is a sequential state machine:

- **Counter codec** (`Counts`, `counts.dfy`). `RefCounts` holds two 32-bit counts,
  packed into one 64-bit word as `strong + weak * 2^32`. The module proves the
  round-trip laws in both directions. It also defines the counter arithmetic each
  operation performs. A 32-bit `++`/`--` wraps explicitly.
- **Control block** (`Blocks`, `control_block.dfy`). A class with:
  - the counter word;
  - a constant `kind`: in-place storage, or a deleter plus the managed pointer;
  - a log of every `destroy` run;
  - a count of how often the block itself was freed.

  Its abstract state is `BlockState`. Each method is tied by its `ensures` to a
  pure step function on that state. Each compare-and-swap retry loop is one
  atomic read-modify-write step.
- **Strong handle** (`SharedHandles`, `shared.dfy`). A class `Shared` with the
  two fields of the source, `obj` (the exposed pointer) and `cb` (the block). It has
  the constructors the source defines, the destructor (`Dispose`), both template
  assignments, `reset()`, `get()`, `make_shared` and `swap`. It also has the copy
  constructor and copy assignment that C++ declares implicitly (`ImplicitCopy`,
  `ImplicitCopyAssign`).
- **Weak handle** (`WeakHandles`, `weak.dfy`). A class `Weak` with its
  constructors, destructor, three template assignments, `reset()` and `lock()`,
  and its implicitly-declared copy constructor and copy assignment.
- **Lifecycle** (`Lifecycle`, `lifecycle.dfy`). Any legal sequence of handle
  operations on one block, checked against a ledger of live handles. It proves:
  - the counts equal the live handles;
  - the value is destroyed once, exactly when the last strong handle goes;
  - the block is freed once, exactly when the last handle of either kind goes;
  - `lock` fails exactly after destruction.

  It does so for the effects the source evidently intends, and proves what the
  source as written does instead.
- **Scenarios** (`Scenarios`, `scenarios.dfy`). The library's "breathing" test, the
  aliasing case and the weak-outlives-strong case, as client methods proved from
  the handle contracts alone.

Object pointers are a datatype `Ptr`: `Nullptr`, `Heap(addr)` or
`Storage(block)`. `Storage(block)` is the inline storage of an in-place block. An
alias is any `Ptr` the caller supplies, so what a handle shows is independent of
what its block manages.

`decrement_strong`, `increment_weak` and `decrement_weak` are called by the
handles but are not defined in `include/ptr/detail/control_block.h`. They are
modelled as `ControlBlock.DecrementStrong`, `IncrementWeak` and
`DecrementWeak`. Their behaviour comes from the comments at
`include/ptr/shared.h:151-152` and `include/ptr/detail/control_block.h:32`:
- `increment_weak` raises weak by one.
- `decrement_weak` lowers weak by one, and frees the block when both counts are
  now zero.
- `decrement_strong` lowers strong by one. When strong reaches zero it runs
  `destroy` once, then frees the block if weak is zero too.

Every copying and moving constructor and every assignment of both handles is
a template on another element type. A template is never a copy constructor or
a copy assignment. So C++ still declares both implicitly, and prefers them for
a same-type copy. They copy the two fields and touch no count. The
user-declared destructor suppresses the implicit move members. So the
`Shared` move constructor, and the move assignment of both handles, are
reached through the templates. All three `Weak` constructors are `explicit`
(`include/ptr/weak.h:17-21`), and copy-initialization ignores explicit
constructors. So `Weak<T> w2 = std::move(w1);` also reaches the implicit copy
constructor: `w1` keeps its fields, and both handles share one weak count.
Only direct-initialization (`Weak<T> w2{std::move(w1)}`) reaches the move
template. `Shared::reset()`
assigns `nullptr`. No template assignment can deduce its type from `nullptr`, so
it converts `nullptr` to a null temporary and reaches the implicit copy
assignment. That leaves the old block's counts as they were.

For an in-place block, a transient extra weak count could be held during
`destroy`. In a sequential model that ends in the same state, so it is not
modelled separately.

## Model

| member | source | states |
|---|---|---|
| Counts.AsWord | include/ptr/detail/control_block.h:18-20 | the word's low 32 bits are the strong count and its high 32 bits the weak count |
| Counts.FromWord | include/ptr/detail/control_block.h:14-16 | the decoded pair re-assembles to exactly the word it came from |
| Counts.FromWordAsWord | include/ptr/detail/control_block.h:10-21 | `from_word(as_word(c)) == c` for every pair of 32-bit counts |
| Counts.AsWordFromWord | include/ptr/detail/control_block.h:10-21 | `as_word(from_word(w)) == w` for every 64-bit word |
| Counts.AsWordInjective | include/ptr/detail/control_block.h:18-20 | two pairs with the same word are equal, so a compare-and-swap on the word compares both counts |
| Counts.Inc | include/ptr/shared.h:129 | unsigned 32-bit `++`: one more, and the largest value wraps to zero |
| Counts.Dec | include/ptr/shared.h:151-153 | unsigned 32-bit `--`: one less, and zero wraps to the largest value |
| Counts.AddStrong | include/ptr/shared.h:128-129 | the desired pair of the copy loop: weak unchanged, strong one higher below the wrap point |
| Counts.SubStrong | include/ptr/shared.h:151-153 | a strong release: weak unchanged, a positive strong one lower |
| Counts.AddWeak | include/ptr/weak.h:54 | a weak acquire: strong unchanged, weak one higher below the wrap point |
| Counts.SubWeak | include/ptr/weak.h:83 | a weak release: strong unchanged, a positive weak one lower |
| Counts.LockDesired | include/ptr/weak.h:159-162 | the desired pair of `lock`: unchanged when strong is zero, otherwise strong one higher; weak never changes |
| Counts.LockSucceedsIffAlive | include/ptr/weak.h:159-168 | below the wrap point, the desired strong count is nonzero (lock succeeds) if and only if the observed strong count is nonzero |
| Counts.StepsMoveByOne | include/ptr/weak.h:155-163 | away from overflow every counter step changes exactly one count by exactly one, and lock's step changes strong by one or not at all |
| Counts.CasAddStrong | include/ptr/shared.h:125-130 | one successful iteration of the copy loop writes the word of the observed pair with strong raised |
| Counts.CasLock | include/ptr/weak.h:156-163 | one successful iteration of lock's loop writes the word of the desired pair; with strong observed as zero it writes back the word it read |
| Blocks.DecStrongDestroysAtZero | include/ptr/shared.h:151-153 | a strong release runs the block's own `destroy` exactly when it drops the last strong count, and frees exactly when the counts were {1, 0} |
| Blocks.DecWeakFreesAtZero | include/ptr/weak.h:78-84 | a weak release never destroys, and frees exactly when the counts were {0, 1} |
| Blocks.ControlBlock.InPlaceBlock | include/ptr/detail/control_block.h:27-28 | a new in-place block's word decodes to exactly the counts passed in; nothing destroyed or freed yet |
| Blocks.ControlBlock.DeletingBlock | include/ptr/detail/control_block.h:62-66 | a new deleting block keeps the given deleter and managed pointer, and its word decodes to the counts passed in |
| Blocks.ControlBlock.Destroy | include/ptr/detail/control_block.h:43-70 | in-place: the log gains the end of the lifetime of the value in the block's own storage; deleting: the log gains one call of the stored deleter on the stored managed pointer, never on an alias; the counter word and the free count are left alone |
| Blocks.ControlBlock.Free | include/ptr/detail/control_block.h:30 | releasing the block adds one to its free count and changes nothing else |
| Blocks.ControlBlock.IncrementStrong | include/ptr/shared.h:124-130 | the copy loop as one atomic step: counts become `AddStrong` of the old counts, nothing destroyed or freed |
| Blocks.ControlBlock.LockStrong | include/ptr/weak.h:155-163 | lock's loop as one atomic step: returns and stores `LockDesired` of the old counts; the word is unchanged when strong was zero |
| Blocks.ControlBlock.IncrementWeak | include/ptr/weak.h:54 | weak one higher, nothing destroyed or freed |
| Blocks.ControlBlock.DecrementWeak | include/ptr/weak.h:83 | weak one lower; the block is freed when both counts are now zero |
| Blocks.ControlBlock.DecrementStrong | include/ptr/shared.h:151-153 | strong one lower; on reaching zero `destroy` runs once, then the block is freed if weak is zero |
| SharedHandles.Shared.FromParts | include/ptr/shared.h:73-78 | the private constructor takes both fields and changes no count |
| SharedHandles.Shared.Null | include/ptr/shared.h:80-87 | default and `nullptr` construction give a null pointer and no block |
| SharedHandles.Shared.Adopt | include/ptr/shared.h:89-92 | adopting `raw` makes a new block with counts {1, 0} that manages `raw` with the default `delete`, and `get() == raw` |
| SharedHandles.Shared.AdoptWith | include/ptr/shared.h:94-103 | adopting `raw` with a deleter makes a new block with counts {1, 0} that manages `raw` with that deleter |
| SharedHandles.Shared.Copy | include/ptr/shared.h:105-108 | the converting copy (from a handle of another element type) shares the source's block and pointer; strong one higher, weak unchanged; with no block nothing changes |
| SharedHandles.Shared.ImplicitCopy | include/ptr/shared.h:37-46 | the implicitly-declared same-type copy constructor copies both fields and changes no count |
| SharedHandles.Shared.AliasCopy | include/ptr/shared.h:115-131 | an aliasing copy shares the source's block but exposes the alias; strong one higher, weak unchanged; with no block nothing changes |
| SharedHandles.Shared.Move | include/ptr/shared.h:110-113 | a move takes both of the source's fields without touching any count, and the source ends with both fields null |
| SharedHandles.Shared.AliasMove | include/ptr/shared.h:133-143 | an aliasing move takes the source's block and exposes the alias, touches no count, and nulls the source |
| SharedHandles.Shared.Dispose | include/ptr/shared.h:145-154 | destroying a handle with a block performs one strong release on it; a null handle touches nothing |
| SharedHandles.Shared.CopyAssign | include/ptr/shared.h:156-167 | the converting copy-assignment: both fields become the source's; with the same block no count changes; otherwise the old block is released once and the new one gains one strong count |
| SharedHandles.Shared.MoveAssign | include/ptr/shared.h:169-179 | self-move does nothing; otherwise the old block is released once, this handle takes the source's fields and the source becomes null |
| SharedHandles.Shared.ImplicitCopyAssign | include/ptr/shared.h:46-51 | the implicitly-declared same-type copy assignment copies both fields and changes no count |
| SharedHandles.Shared.Reset | include/ptr/shared.h:181-184 | as written: `reset()` reaches the implicit copy assignment from a null temporary; both fields become null and the old block's state is unchanged |
| SharedHandles.Shared.ResetReleasing | include/ptr/shared.h:181-184 | corrected: `reset()` releases the old block once (if any) and leaves both fields null |
| SharedHandles.MakeShared | include/ptr/shared.h:207-218 | a new in-place block with counts {1, 0}, and a handle whose pointer is that block's `object()`, its own storage |
| SharedHandles.Swap | include/ptr/shared.h:220-225 | both fields of the two handles are exchanged and no block is modified |
| WeakHandles.Weak.FromShared | include/ptr/weak.h:45-55 | copies both fields of a strong handle; weak one higher, strong unchanged; with no block nothing changes |
| WeakHandles.Weak.ImplicitCopy | include/ptr/weak.h:17-24 | the implicitly-declared same-type copy constructor, also reached by copy-initialization from a same-type rvalue because every template constructor is `explicit`, copies both fields and changes no count |
| WeakHandles.Weak.FromWeak | include/ptr/weak.h:57-67 | the converting copy copies both fields of a weak handle; weak one higher, strong unchanged; with no block nothing changes |
| WeakHandles.Weak.MoveFrom | include/ptr/weak.h:69-76 | takes both fields, nulls the source, changes no count |
| WeakHandles.Weak.Dispose | include/ptr/weak.h:78-84 | destroying a handle with a block performs one weak release on it; a null handle does nothing |
| WeakHandles.Weak.ImplicitCopyAssign | include/ptr/weak.h:24-29 | the implicitly-declared same-type copy assignment copies both fields and changes no count |
| WeakHandles.Weak.AssignWeak | include/ptr/weak.h:86-101 | the converting copy-assignment: with a different block the old one (if any) loses a weak count and the new one (if any) gains one; with the same block no count changes; `object` is always taken |
| WeakHandles.Weak.AssignShared | include/ptr/weak.h:123-138 | the same rebinding from a strong handle |
| WeakHandles.Weak.MoveAssign | include/ptr/weak.h:103-121 | as written: self-move is a no-op; otherwise the fields move and the source is nulled; the old block loses a weak count only when it differs from the source's, and otherwise no count changes |
| WeakHandles.Weak.MoveAssignReleasing | include/ptr/weak.h:103-121 | corrected: as above, but the old block, when non-null, always loses the weak count this handle held |
| WeakHandles.Weak.Reset | include/ptr/weak.h:140-147 | releases the weak count if there is a block and leaves both fields null; from null it changes nothing |
| WeakHandles.Weak.Lock | include/ptr/weak.h:149-169 | null block: null result; strong zero: null result and the word unchanged; strong positive: a result with this handle's pointer and block, strong one higher and weak unchanged; whenever the desired strong count is zero, including the 32-bit wrap at the largest count, the result is null |
| Lifecycle.EffectAgrees | include/ptr/weak.h:86-147 | every legal handle operation keeps the block's counts, destroy log and free count in agreement with its live handles |
| Lifecycle.RunAgrees | include/ptr/shared.h:145-184 | agreement between block and live handles holds along every legal trace |
| Lifecycle.LifecycleFromCreation | include/ptr/shared.h:151-153 | from counts {1, 0}, the counts equal the live handles; `destroy` runs at most once, exactly when no strong handle is left; the block is freed at most once, exactly when no handle is left |
| Lifecycle.LockFailsExactlyAfterDestroy | include/ptr/weak.h:155-168 | after any legal trace, `lock` fails if and only if the value has been destroyed, and then it changes nothing |
| Lifecycle.EffectAsWrittenAgrees | include/ptr/weak.h:103-121 | as written, every legal operation through a member the source defines keeps the as-written agreement; a weak move-assignment between two handles of one block leaves one weak count that no handle holds |
| Lifecycle.RunAsWrittenAgrees | include/ptr/weak.h:86-147 | the as-written agreement holds along every legal trace through members the source defines, with the unheld weak counts equal to the number of such move-assignments |
| Lifecycle.LifecycleAsWritten | include/ptr/weak.h:103-121 | as written, from counts {1, 0} through members the source defines: strong equals the live strong handles; weak equals the live weak handles plus the same-block weak move-assignments; `destroy` runs at most once, exactly when no strong handle is left; the block is freed at most once, exactly when no handle is left and no such move-assignment happened |
| Lifecycle.LeakTraceLegal | include/ptr/weak.h:103-121 | the leak trace is legal from one strong handle and leaves no live handle |
| Lifecycle.LeakTraceShape | include/ptr/weak.h:103-121 | the leak trace reaches members the source defines only and holds one same-block weak move-assignment |
| Lifecycle.AsWrittenMoveAssignLeaks | include/ptr/weak.h:110-112 | as written: a strong handle makes two weak ones, one is move-assigned onto the other, then the strong and the last weak handle are dropped; that ends with no live handle but counts {0, 1} and the block never freed |
| Lifecycle.CorrectedMoveAssignFrees | include/ptr/weak.h:103-121 | with the corrected move-assignment the same trace ends at counts {0, 0} with the block freed once |
| Lifecycle.AsWrittenResetLeaks | include/ptr/shared.h:181-184 | as written, `reset()` of the only strong handle leaves no live handle, yet the counts stay {1, 0}: nothing destroyed, nothing freed |
| Lifecycle.CorrectedResetDestroys | include/ptr/shared.h:181-184 | with `reset()` releasing, the same trace destroys once and frees once |
| Lifecycle.AsWrittenSameTypeCopyFreesEarly | include/ptr/shared.h:37-46 | as written, a same-type copy of the only strong handle followed by dropping one of the two destroys and frees while one strong handle is still live |
| Lifecycle.CorrectedSameTypeCopyKeepsAlive | include/ptr/shared.h:105-131 | with the copy counted, the same trace leaves counts {1, 0}, nothing destroyed and nothing freed |
| Lifecycle.AsWrittenSameTypeWeakCopyFreesEarly | include/ptr/weak.h:17-24 | as written, a same-type copy of a weak handle, then dropping one weak handle and the strong one, frees the block while one weak handle is still live |
| Lifecycle.CorrectedSameTypeWeakCopyKeepsBlock | include/ptr/weak.h:57-67 | with the weak copy counted, the same trace leaves counts {0, 1}: destroyed once, not freed |
| Scenarios.AdoptCopyDestroy | test/breathing.cpp:33-39 | with the copy counted, as the test expects: adopt, copy, destroy both: alive after the first drop, exactly one `delete` of the adopted pointer, block freed once |
| Scenarios.AdoptCopyDestroyAsWritten | test/breathing.cpp:33-36 | as written, `s2 = s1` reaches the implicit copy: destroying `s2` runs the one `delete` and frees the block while `s1` still refers to it |
| Scenarios.MakeSharedWeakLockReset | test/breathing.cpp:41-51 | with `reset` releasing, as the test expects: `make_shared`, two weak handles and a `lock`, then `reset`: the lock succeeds, the in-place value's lifetime ends exactly once, block freed once |
| Scenarios.MakeSharedWeakLockResetAsWritten | test/breathing.cpp:41-50 | as written: the lock succeeds, but after `reset` the block is left at counts {1, 0}, nothing destroyed and nothing freed |
| Scenarios.AliasKeepsOwnerAlive | include/ptr/shared.h:115-131 | an aliasing copy keeps the value alive after the owner is destroyed, `get()` on it returns the alias, and the deleter finally runs on the adopted pointer |
| Scenarios.WeakOutlivesStrong | include/ptr/weak.h:149-169 | dropping the only strong handle destroys but does not free; `lock` then fails and leaves the word as it was; dropping the weak handle frees |

## Left out

- Atomics and concurrency: every compare-and-swap retry loop is one atomic step. Spurious `compare_exchange_weak` failures and interleavings are not modelled.
- Byte layout: `std::bit_cast` is fixed as `strong + weak * 2^32`. Endianness, `alignas` storage, `std::launder` and placement `new` are not modelled. `Storage(block)` stands for the in-place storage.
- Element types: one `Ptr` type stands for every element type, and pointer conversions between element types are not modelled. Which member a C++ expression reaches is named explicitly instead. `Copy`, `CopyAssign`, `FromWeak` and `AssignWeak` are the converting templates, reached from a handle of another element type. `ImplicitCopy` and `ImplicitCopyAssign` are the implicitly-declared same-type members.
- User code: the bodies of value destructors and deleters are not modelled. `destroy` records only what it tore down. The forwarded constructor arguments of `make_shared`, and its cleanup when the value's constructor throws, are not modelled.
- `operator*` and `operator->`: undefined on null handles; not modelled.
- `Shared::reset(Target*)` (`include/ptr/shared.h:186-190`): it assigns a raw pointer through an `explicit` constructor, so its meaning is unclear from the source. Not modelled.
- WeakHandles.Weak.MoveFrom: models the move template, which only direct-initialization (`Weak<T> w2{std::move(w1)}`) reaches. A copy-initialization from a `Weak<T>` rvalue, passing one by value, or returning a local one without elision reaches `WeakHandles.Weak.ImplicitCopy` instead: no count is taken and the source keeps its fields.
- `swap` for `Weak` (`include/ptr/weak.h:38-39`): declared but never defined. Not modelled.
- `Shared(raw)` passes the lambda `[](Object *object) {delete object;}` as its deleter (`include/ptr/shared.h:89-92`). `DefaultDelete` stands for that lambda. `include/ptr/detail/default_deleter.h` is not part of this model.
- Use after the block is freed is undefined behaviour in the source. The model does not guard against it.
- Destructors (`Dispose`) do not clear the handle's fields, as in C++. Clients must not use a handle after disposing it.
- Blocks.ControlBlock.DecrementStrong: the transient extra weak count an in-place block may hold while `destroy` runs is not modelled as a separate state. Sequentially the end state is the same.
- Lifecycle.LifecycleFromCreation: proved for the effects the source evidently intends: the corrected weak move-assignment, `reset()` releasing, and same-type copies counted. Its as-written counterpart, `Lifecycle.LifecycleAsWritten`, covers only traces through members the source defines. The implicit copy members are covered by the concrete counterexamples under "## Findings". Overflow of a 32-bit count is excluded from legal traces. The handle methods themselves wrap as unsigned arithmetic does.
- `test.cpp` (a printing demo) is not part of this model.

## Findings

| source | as written | input that shows it | evidently intended | confidence | as-written member | corrected member |
|---|---|---|---|---|---|---|
| include/ptr/weak.h:110-112 | `Weak::operator=(Weak&&)` releases the old block only when it differs from the source's block | a strong handle `s` makes `w1` and `w2` (both `Weak(s)`), `w1 = std::move(w2)`, then `s` and `w1` are destroyed: no handle is left, but the counts are {0, 1} and the block is never freed | the reference the target held is always released (one weak decrement when both handles share the block), so the count tracks live weak handles | high; not executed | Lifecycle.AsWrittenMoveAssignLeaks | Lifecycle.CorrectedMoveAssignFrees |
| include/ptr/shared.h:181-184 | `reset()` is `*this = nullptr`, which reaches the implicitly-declared copy assignment from a null temporary: the fields are nulled and no count changes | the only strong handle is reset: no handle is left, but the counts stay {1, 0}, the value is never destroyed and the block never freed (the "breathing" test expects the destructor to have run) | `reset()` releases the strong count this handle held | high; not executed | Lifecycle.AsWrittenResetLeaks | Lifecycle.CorrectedResetDestroys |
| include/ptr/shared.h:37-49 | only templates are declared, so a same-type copy (`Shared<T> s2 = s1`) and a same-type copy-assignment reach the implicitly-declared members, which copy the fields and take no count | `s2 = s1` from the only strong handle, then `s2` is destroyed: the value is deleted and the block freed while `s1` still refers to it | a same-type copy takes a strong count like the converting copy | high; not executed | Lifecycle.AsWrittenSameTypeCopyFreesEarly | Lifecycle.CorrectedSameTypeCopyKeepsAlive |
| include/ptr/weak.h:17-29 | only templates are declared, so a same-type weak copy (`Weak<T> w2 = w1`) and a same-type copy-assignment reach the implicitly-declared members, which copy the fields and take no count; because the templates are `explicit`, a copy-initialization from an rvalue (`Weak<T> w2 = std::move(w1)`) reaches the implicit copy constructor too, and the source is not nulled | `w1` from the only strong handle, `w2 = w1`, then `w1` and the strong handle are destroyed: the block is freed while `w2` still refers to it | a same-type weak copy takes a weak count like the converting copy | high; not executed | Lifecycle.AsWrittenSameTypeWeakCopyFreesEarly | Lifecycle.CorrectedSameTypeWeakCopyKeepsBlock |

`WeakHandles.Weak.MoveAssign` keeps the source's behaviour. `WeakHandles.Weak.MoveAssignReleasing`
is the corrected method. Likewise `SharedHandles.Shared.Reset` is `reset()` as written and
`SharedHandles.Shared.ResetReleasing` the corrected one. `Shared.ImplicitCopy`,
`Shared.ImplicitCopyAssign`, `Weak.ImplicitCopy` and `Weak.ImplicitCopyAssign` are the
same-type copies as written. `Shared.Copy`, `Shared.CopyAssign`, `Weak.FromWeak` and
`Weak.AssignWeak` give the counting behaviour the same-type copies evidently should have.
`Lifecycle.Effect` uses the corrected steps, which is what `Lifecycle.LifecycleFromCreation`
is proved for. `Lifecycle.EffectAsWritten` is each step as written.
`Scenarios.AdoptCopyDestroyAsWritten` and `Scenarios.MakeSharedWeakLockResetAsWritten` replay
the "breathing" test against the members as written.
