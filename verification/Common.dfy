/** What several components share. */
module Common {
  datatype Option<T> = None | Some(value: T)

  /** palf's id for "no proposal": the largest 64-bit signed integer. */
  const INVALID_PROPOSAL_ID := 0x7FFF_FFFF_FFFF_FFFF
}
