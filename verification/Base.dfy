/** Vocabulary shared by every component: machine widths, optional values and the protocol's error codes. */
module Base {

  const U64_LIMIT: int := 0x1_0000_0000_0000_0000

  /** An unsigned 64-bit offset, sequence number or byte count. */
  type u64 = x: int | 0 <= x < U64_LIMIT

  /** 64-bit addition as the hardware performs it. */
  function WrapAdd(x: u64, y: u64): (r: u64)
    ensures x + y < U64_LIMIT ==> r == x + y
    ensures x + y >= U64_LIMIT ==> r == x + y - U64_LIMIT && r < x
  {
    (x + y) % U64_LIMIT
  }

  /** 64-bit subtraction as the hardware performs it. */
  function WrapSub(x: u64, y: u64): (r: u64)
    ensures y <= x ==> r == x - y
    ensures y > x ==> r == x - y + U64_LIMIT
  {
    (x - y) % U64_LIMIT
  }

  datatype Option<+T> = None | Some(value: T)

  datatype Result<+T> = Ok(value: T) | Err(code: ErrorCode)

  /** The structured error codes the modelled operations return. */
  datatype ErrorCode =
    | InvalidArgument
    | MessageTooLarge
    | SequenceConflict
    | Conflict
    | ResourceExhausted
    | Unavailable
    | Cancelled
    | DeadlineExceeded
    | OutcomeUnknown
    | PermissionDenied
    | Unauthenticated

  /** Separates the parts of a joined key. */
  const NUL: char := '\0'

  /** A NUL-free first part can be read back from a joined name. */
  lemma JoinInjective(a: string, b: string, x: string, y: string)
    requires NUL !in a && NUL !in x && a + [NUL] + b == x + [NUL] + y
    ensures a == x && b == y
  {
    var s := a + [NUL] + b;
    assert s[|a|] == NUL && s[|x|] == NUL;
    assert forall i :: 0 <= i < |a| ==> s[i] == a[i];
    assert forall i :: 0 <= i < |x| ==> s[i] == x[i];
    assert a == s[..|a|] == x && b == s[|a| + 1..] == y;
  }
}
