# Lock-less list and live-overclock tunables, modelled in Dafny

This project models two small stateful pieces of a Linux kernel tree for the
S5PV210 platform:

- **The lock-less singly linked list (`lib/llist.c`).** A `llist_head` holds one
  `first` pointer. Callers embed `llist_node`s, each with a `next` link, and the list
  offers four operations:
  - `llist_add` pushes one node;
  - `llist_add_batch` splices a caller-built chain onto the front;
  - `llist_del_first` detaches the front node, or returns NULL when the list is empty;
  - `llist_del_all` exchanges `first` with NULL and hands back the whole chain.

  `llist.dfy` (module `LockLessList`) models `Node` and `Head` as classes. The
  head carries a ghost sequence `Contents` of the nodes on its chain and a
  footprint `Repr`. `cmpxchg` and `xchg` on `head->first` become single atomic
  steps, `CompareExchange` and `Exchange`. Each `do … while (cmpxchg(...) != entry)`
  retry loop stays a loop, and the proofs show three things:
  - run sequentially, the loop ends after its first iteration;
  - it performs the pointer surgery the comments promise;
  - the chain stays NULL-terminated, and therefore acyclic.
- **The live-overclock tunables (`drivers/misc/live_oc.c`).** This code has four
  globals: `oc_value`, `oc_value_on`, `oc_low_freq` and `oc_high_freq`. Three
  sysfs write handlers change them only when the input passes range checks. An
  early-suspend / late-resume pair saves and restores the overclock value.

  `live_oc.dfy` (module `LiveOc`) specifies each handler as a pure function on a
  `Tunables` value. It proves that each handler keeps the invariant
  `90 ≤ oc_value, oc_value_on ≤ 150 ∧ oc_low_freq ≤ oc_high_freq`, with
  `oc_value_on` either equal to `oc_value` or holding a saved overclock above
  100 while `oc_value` is 100, and that the invariant holds in every reachable
  state. The class `Driver` holds the
  globals. Its handler methods are proved against those functions, and it keeps
  a ghost log of `liveoc_update` calls.

Modelling choices:
- `sscanf(buf, "%u\n", &data)` is abstracted to an `Option<u32>`.
- The handlers compare the `unsigned int data` with `int` globals, which C does
  after converting the global to `unsigned int`. The frequencies are therefore
  modelled as 32-bit unsigned values (`u32`) compared as unsigned.
- `oc_value` and `oc_value_on` are `int`. They only ever hold 100 or a parsed
  value in [90, 150], where the signed and unsigned views agree.
- The external flag `bus_limit_automatic` is a parameter of the suspend handler.
- The external function `liveoc_update` is recorded in a ghost log (`updates`)
  with the arguments it receives.

## Model

| member | source | states |
|---|---|---|
| LockLessList.Head.CompareExchange | lib/llist.c:45-48 | `cmpxchg` on `first`: returns the old `first`, and installs the new value exactly when the old one equals the expected one |
| LockLessList.Head.Exchange | lib/llist.c:117 | `xchg` on `first`: returns the old `first` and installs the new value unconditionally |
| LockLessList.Head.Add | lib/llist.c:37-49 | afterwards `first` is the new node, whose `next` is the old `first`. The contents become `[node] + old contents` and the invariant (linked, NULL-terminated) is kept. Only `first` and the new node's `next` change. The retry loop runs exactly once |
| LockLessList.Head.AddBatch | lib/llist.c:52-71 | for a batch running from `new_first` to `new_last` through `next`, disjoint from the list: afterwards `first == new_first` and `new_last.next` is the old `first`. The contents become the batch followed by the old contents, in order. Only `new_last.next` and `first` change |
| LockLessList.Head.DelFirst | lib/llist.c:74-101 | on an empty list returns NULL and leaves it empty. Otherwise returns the old front node and sets `first` to that node's `next`. The contents become the old tail, the footprint loses exactly that node, and the returned node's `next` is unchanged |
| LockLessList.Head.DelAll | lib/llist.c:104-118 | returns the old `first` and empties the list. The returned chain is linked exactly as the old contents, NULL-terminated |
| LockLessList.NullTerminatedIsAcyclic | lib/llist.c:1-2 | a chain whose last `next` is NULL never visits a node twice, so every valid list is acyclic |
| LockLessList.ChainDeterminedByFront | lib/llist.c:108-109 | two NULL-terminated chains that start at the same node are equal, so the pointer returned by `llist_del_all` determines the whole detached chain |
| LockLessList.LinkedConcat | lib/llist.c:67-70 | a chain ending in the front of a second chain, followed by that chain, is one chain: the splice that `llist_add` and `llist_add_batch` perform |
| LockLessList.SpliceBatch | lib/llist.c:67-70 | a batch whose internal links run to `new_last`, with `new_last.next` set to the old front, forms one NULL-terminated chain with the old contents |
| LockLessList.LastInFirstOut | lib/llist.c:37-101 | pushing A, B, C and then popping four times yields C, B, A, then NULL |
| LockLessList.DrainLeavesEmpty | lib/llist.c:104-118 | after `llist_del_all`, a later `llist_del_first` and a later `llist_del_all` both return NULL |
| LockLessList.BatchThenDrain | lib/llist.c:52-118 | a pre-linked batch X→Y→Z that is added and then drained comes back as X→Y→Z followed by the prior contents |
| LiveOc.WriteOcValue | drivers/misc/live_oc.c:48-77 | the globals change iff a value was parsed, lies in [90, `MAX_OCVALUE`=150] and differs from `oc_value`. Then both `oc_value` and `oc_value_on` take it and nothing else changes. The invariant is kept |
| LiveOc.WriteLowFreq | drivers/misc/live_oc.c:79-103 | the globals change iff a value was parsed, differs from `oc_low_freq` and is ≤ `oc_high_freq`. Then only `oc_low_freq` takes it. The invariant is kept |
| LiveOc.WriteHighFreq | drivers/misc/live_oc.c:105-129 | the globals change iff a value was parsed, differs from `oc_high_freq` and is ≥ `oc_low_freq`. Then only `oc_high_freq` takes it. The invariant is kept |
| LiveOc.Suspend | drivers/misc/live_oc.c:181-190 | acts iff `bus_limit_automatic` and `oc_value > 100`. It then saves `oc_value` in `oc_value_on` and sets `oc_value` to 100. Otherwise nothing changes. The invariant is kept |
| LiveOc.Resume | drivers/misc/live_oc.c:193-199 | acts iff `oc_value_on > 100` and `oc_value_on != oc_value`. It then sets `oc_value` to `oc_value_on`. Otherwise nothing changes. The invariant is kept |
| LiveOc.SuspendResumeRestoresOcValue | drivers/misc/live_oc.c:181-199 | in any state satisfying the invariant, suspend followed by resume gives back an `oc_value` above 100, whatever the bus flag |
| LiveOc.ReachableSuspendResumeRestores | drivers/misc/live_oc.c:181-199 | in every state reachable from the initial globals, suspend followed by resume gives back an `oc_value` above 100, with no further condition |
| LiveOc.SuspendResumeRoundTrip | drivers/misc/live_oc.c:181-199 | when `oc_value_on == oc_value`, suspend followed by resume restores every global, whatever the bus flag |
| LiveOc.Apply | drivers/misc/live_oc.c:156-205 | each of the five handlers, in either outcome, keeps the invariant |
| LiveOc.RunPreservesValid | drivers/misc/live_oc.c:22-30 | the invariant survives any sequence of handler invocations |
| LiveOc.ReachableStatesValid | drivers/misc/live_oc.c:22-30 | the initial globals (100, 100, 800000, 1400000) satisfy the invariant, and so does every state reached from them |
| LiveOc.Driver.constructor | drivers/misc/live_oc.c:22-30 | the globals start at 100 %, 100 %, 800000 and 1400000, with no update issued |
| LiveOc.Driver.NotifyUpdate | drivers/misc/live_oc.c:20 | a `liveoc_update` call appends the current `oc_value` and frequencies to the log |
| LiveOc.Driver.OcValueWrite | drivers/misc/live_oc.c:48-77 | the new globals are `WriteOcValue` of the old ones. Exactly one update is logged when they changed and none otherwise. The handler returns `size` |
| LiveOc.Driver.OcTargetLowWrite | drivers/misc/live_oc.c:79-103 | the new globals are `WriteLowFreq` of the old ones. One update is logged exactly when they changed. The handler returns `size` |
| LiveOc.Driver.OcTargetHighWrite | drivers/misc/live_oc.c:105-129 | the new globals are `WriteHighFreq` of the old ones. One update is logged exactly when they changed. The handler returns `size` |
| LiveOc.Driver.PowersaveEarlySuspend | drivers/misc/live_oc.c:181-190 | the new globals are `Suspend` of the old ones. One update is logged exactly when they changed |
| LiveOc.Driver.PowersaveLateResume | drivers/misc/live_oc.c:193-199 | the new globals are `Resume` of the old ones. One update is logged exactly when they changed |
| LiveOc.Driver.GetOcValue | drivers/misc/live_oc.c:133-136 | under the invariant, the value read lies in [90, 150] |
| LiveOc.Driver.GetOcLowFreq | drivers/misc/live_oc.c:139-142 | under the invariant, the lower bound read does not exceed `oc_high_freq` |
| LiveOc.Driver.GetOcHighFreq | drivers/misc/live_oc.c:145-148 | under the invariant, the upper bound read is not below `oc_low_freq` |
| LiveOc.SuspendThenResume | drivers/misc/live_oc.c:181-205 | screen off then on, with the bus limit automatic and nothing else saved, leaves the globals as they were. It logs the two updates (100 %, then the old value) when `oc_value > 100`, and none otherwise |

## Left out

- Concurrency in `lib/llist.c` is not modelled: interleaved producers, linearizability, the ABA hazard of concurrent `llist_del_first` callers (lib/llist.c:80-84) and memory ordering. `cmpxchg` and `xchg` are sequential atomic steps, so each retry loop is proved to run once, not to be lock-free.
- The `BUG_ON(in_nmi())` checks (lib/llist.c:41-43 and similar) depend on interrupt context, which the model does not have.
- `include/linux/llist.h` is not part of this model. The `Head` and `Node` constructors stand for its `LLIST_HEAD_INIT` and for a caller's zeroed node.
- `llist_add_batch` dereferences `new_last`, so the model requires a non-empty batch. Nothing in the code admits an empty one.
- Node allocation, node lifetime and recovering a payload from its embedded node are the caller's concern and are not modelled.
- The `sprintf` read handlers, `liveoc_version`, the `DEVICE_ATTR` and `miscdevice` tables, `liveoc_init` with `register_early_suspend` and `sysfs_create_group`, and all `pr_info`/`pr_err` logging (drivers/misc/live_oc.c:32-45, 151-179 and 201-231) are formatting and registration glue.
- `sscanf` parsing is abstracted to `Option<u32>`. Which strings parse to which numbers is not modelled.
- `liveoc_update` and `bus_limit_automatic` are defined outside this file. The first is a ghost log entry and the second an input flag.
- The frequencies are 32-bit unsigned values with unsigned comparisons. The implementation-defined conversion of a parsed value above `INT_MAX` into the `int` globals is not modelled; the model keeps the unsigned value, which is what every later comparison and `get_oc_*` getter on the 32-bit target sees.
- `arch/arm/mach-s5pv210/refreshrate_mod.c` is not part of this model. It only stores an unchecked `sscanf` result in a global.
