/** Results of kernel operations, and the error kinds the kernel reports. */
module Kinds {

  datatype Option<+T> = None | Some(value: T)

  datatype ErrKind =
    | NoMemory | OutOfMemory | UnknownCapType | UnexpectedCapType | NoEnoughSlot | NotEmptySlot
    | SlotIsEmpty | VaddressAlreadyMapped | PageTableAlreadyMapped | PageTableNotMappedYet
    | PageAlreadyMapped | PageNotMappedYet | UnknownInvocation | CanNotDerivable
    | InvalidOperation | CapNotFound | NotAligned

  /** An operation succeeds, is refused with an error kind and a detail value, or never
      returns: a failed assertion, an arithmetic overflow and an access through a pointer
      that designates no live object all stop the kernel. */
  datatype Result<+T> = Ok(value: T) | Err(kind: ErrKind, detail: nat) | Halt
}
