# Full-speed USB driver state, modelled in Dafny

This project models the static state beneath the full-speed USB device driver
of an i.MX RT controller with two instances (USB1 and USB2). Each instance owns
a list of 16 queue heads and a list of 16 transfer descriptors. The driver
publishes the queue-head list to the controller's `ASYNCLISTADDR` register and
then "steals" the slots, receiving a 16-entry array of references per list.

- `wrappers.dfy`: the `Option` type that the handoff arrays hold.
- `handoff.dfy` (module `Handoff`): `ZipAssign`, the value that the handoff
  loop leaves in its output array. The loop walks the output and the arena in
  step and stores `Some` of each arena record. Lemmas give the element at each
  index, a full fill when the arena is at least as long, distinctness, and
  disjointness across arenas.
- `state.dfy` (module `FullSpeedState`):
  - `Qh` and `Td` are opaque record classes.
  - `State` holds the two lists as arrays, plus the addresses where they lie.
    It also holds one ghost flag per list that records the "call only once"
    rule of the steal functions.
  - `Instance` is the register block of one controller, compared by identity.
    Its `asyncListAddr` field is the hardware register.
  - `Statics` holds the two register blocks and the two states (`USB1_STATE`,
    `USB2_STATE`). Its methods are the selector `state()`,
    `assign_endptlistaddr`, `steal_qhs` and `steal_tds`.

The steal methods are proved against `ZipAssign`. Entry `i` of the result is
`Some` of slot `i` of the selected instance's list. The entries are pairwise
distinct. The method changes only its own instance's flag for that list.

## Model

| member | source | states |
|---|---|---|
| Handoff.ZipAssign | src/full_speed/state.rs:100-102 | the zip loop never changes the length of the output array |
| Handoff.ZipAssignAt | src/full_speed/state.rs:100-102 | after the loop, entry k holds `Some(src[k])` where the zip reached it and its old value elsewhere |
| Handoff.ZipAssignFills | src/full_speed/state.rs:96-103 | when the source list is at least as long as the output, every entry ends up `Some`, in source order |
| Handoff.ZipAssignDistinct | src/full_speed/state.rs:100-102 | a filled output has pairwise distinct entries exactly when the source has no repeated record (both directions) |
| Handoff.ZipAssignDisjoint | src/full_speed/state.rs:100-102 | filled outputs over two disjoint lists share no entry |
| FullSpeedState.NewQhList | src/full_speed/state.rs:33-55 | `QH_LIST_INIT`: 16 newly constructed queue heads, pairwise distinct |
| FullSpeedState.NewTdList | src/full_speed/state.rs:9-31 | `TD_LIST_INIT`: 16 newly constructed transfer descriptors, pairwise distinct |
| FullSpeedState.State.constructor | src/full_speed/state.rs:57-65 | `STATE_INIT`: both lists hold 16 new records, lie at distinct 4096- and 32-aligned addresses, and nothing is handed out yet |
| FullSpeedState.Statics.constructor | src/full_speed/state.rs:67-68 | the two statics are distinct states, each with new lists of new records and at addresses of its own; their lists share no record, and nothing is handed out yet |
| FullSpeedState.Statics.ListAddrsDiffer | src/full_speed/state.rs:67-68 | the two controllers' queue-head list addresses are equal exactly when the handles are the same, so no two controllers are given one list |
| FullSpeedState.Statics.StateOf | src/full_speed/state.rs:70-76 | USB1 selects `USB1_STATE` and USB2 selects `USB2_STATE`, each if and only if; any other handle is excluded by the precondition |
| FullSpeedState.Statics.QhListAddr | src/full_speed/state.rs:83 | the address taken is that of slot 0 of the instance's own queue-head list, and it is 4096-aligned |
| FullSpeedState.Statics.AssignEndptListAddr | src/full_speed/state.rs:82-85 | sets only that instance's `ASYNCLISTADDR` to its own queue-head list address, independent of the old value, so repeating it is idempotent |
| FullSpeedState.Statics.StealQhs | src/full_speed/state.rs:87-104 | returns a new 16-entry array, all `Some`, where entry i is queue head i of the selected instance; entries are distinct; only that instance's queue-head flag changes, and it may be called once |
| FullSpeedState.Statics.StealTds | src/full_speed/state.rs:106-123 | the same for transfer descriptors: 16 entries, all `Some`, entry i is descriptor i, distinct, only the descriptor flag of that instance changes |
| FullSpeedState.Statics.HandoutsNeverAlias | src/full_speed/state.rs:67-76 | no queue head or transfer descriptor handed out for one instance is ever handed out for the other |

## Left out

- The register-access layer: `write_reg!` is modelled as an assignment to the `asyncListAddr` field of the register block, with no bus access.
- Contents of `Qh` and `Td` and their `new()` constructors: the records are opaque classes without fields. A record counts as default when it was newly constructed. "Stealing changes no record contents" is expressed by the steal methods' `modifies` clauses.
- Memory layout: `#[repr(align(...))]` is a linker guarantee. It is taken as a precondition on the base addresses given to the constructors, together with the fact that the four lists are separate statics at four different base addresses. Record sizes are not modelled, so the address ranges of the lists and their non-overlap in memory are not modelled either. Only the base addresses are known to differ, and only the records, as objects, are known to be disjoint.
- `ptr as u32`: the target has 32-bit pointers, so addresses are 32-bit values and the cast loses nothing.
- The `unreachable!` arm of `state()` is a precondition, because the register-access layer guarantees that only the two known blocks exist.
- FullSpeedState.Statics.StealQhs: the source only documents the "call only once" rule. The model enforces it as a ghost precondition. A second call that returns empty slots is not modelled, because the source always returns all `Some`.
- FullSpeedState.Statics.StealTds: the "call only once" rule is handled the same way as for StealQhs.
- Concurrent access by the controller's DMA engine and the aliasing semantics of `static mut` go beyond the once-only flags and are not modelled.
