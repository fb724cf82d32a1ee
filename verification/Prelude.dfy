/** Shared vocabulary: results of calls that may revert, checked arithmetic as
    the EVM performs it, and finite sums over the mappings of the contracts. */
module Prelude {

  /** An account or a contract; 0 is the zero address. */
  type Address = nat

  const ZERO_ADDRESS: Address := 0

  const TWO_64: nat := 0x1_0000_0000_0000_0000

  /** Block timestamps, durations and epoch numbers. */
  type Uint64 = x: nat | x < TWO_64

  /** A duration that initialization rejects when it is zero. */
  type Duration = x: Uint64 | 0 < x witness 1

  /** Why a call reverted. `Panic` is a checked-arithmetic failure (underflow,
      64-bit overflow, division by zero); `TransferFailed` is a token transfer
      larger than the sender's balance. */
  datatype Error =
    | Panic
    | TransferFailed
    | Unauthorized
    | NotReady
    | NotEligible
    | InvalidState
    | InvalidAmount
    | InvalidDeadline
    | NoLiquidity
    | NothingToClaim
    | TooEarly
    | WrongEpoch
    | DuplicateAttestation
    | RoomManagesBonds
    | NotAuthorized
    | RoomIsClosed
    | RoomNotClosed
    | SequenceRegression
    | StaleAttestation
    | BatchTooLarge
    | LengthMismatch
    | UnknownMarket
    | PermitExpired
    | PermitTooLongLived
    | PermitTooOld
    | PermitNotYetIssued
    | PermitReplayed
    | PermitInvalidSigner
    | PermitMismatch
    | SlotIndexMismatch
    | TemplateNotApproved
    | AnnounceDelayTooShort
    | TooManyOpenSlots
    | HeadlineUnbacked
    | NotHeadlineTemplate
    | InvalidSignature
    | CommitmentExpired
    | CommitmentCancelled
    | AlreadyExecuted
    | TemplateNotAllowed
    | ExposureExceeded
    | TotalExceeded
    | UnknownSlot
    | NotSettled
    | NothingToRelease
    | InvalidCommitment

  /** A call either takes effect or reverts and changes nothing. */
  datatype Result<+T> = Ok(value: T) | Revert(error: Error) {
    predicate IsFailure() {
      Revert?
    }

    function PropagateFailure<U>(): Result<U>
      requires Revert?
    {
      Revert(error)
    }

    function Extract(): T
      requires Ok?
    {
      value
    }
  }

  /** A guard: reverts with `error` unless `condition` holds. */
  function Require(condition: bool, error: Error): Result<()> {
    if condition then Ok(()) else Revert(error)
  }

  // ------------------------------------------------------ checked arithmetic

  /** Checked subtraction on unsigned integers. */
  function Sub(a: nat, b: nat): (r: Result<nat>)
    ensures r.Ok? <==> b <= a
    ensures r.Ok? ==> r.value == a - b
    ensures r.Revert? ==> r.error == Panic
  {
    if b <= a then Ok(a - b) else Revert(Panic)
  }

  /** Checked 64-bit addition. */
  function Add64(a: Uint64, b: Uint64): (r: Result<Uint64>)
    ensures r.Ok? <==> a + b < TWO_64
    ensures r.Ok? ==> r.value == a + b
    ensures r.Revert? ==> r.error == Panic
  {
    if a + b < TWO_64 then Ok(a + b) else Revert(Panic)
  }

  /** floor(x * y / d). */
  function MulDiv(x: nat, y: nat, d: nat): (q: nat)
    requires d > 0
    ensures q * d <= x * y < q * d + d
  {
    DivisionBounds(x * y, d);
    x * y / d
  }

  /** ceil(x * y / d), computed as the floor plus one when a remainder is left. */
  function MulDivCeil(x: nat, y: nat, d: nat): (q: nat)
    requires d > 0
    ensures x * y <= q * d < x * y + d
  {
    DivisionBounds(x * y, d);
    var floor := x * y / d;
    if x * y % d > 0 then
      assert (floor + 1) * d == floor * d + d;
      floor + 1
    else floor
  }

  lemma DivisionBounds(n: nat, d: nat)
    requires d > 0
    ensures 0 <= n / d
    ensures (n / d) * d <= n < (n / d) * d + d
    ensures n % d == n - (n / d) * d
  {
  }

  lemma MulMono(a: int, b: int, c: int)
    requires a <= b && 0 <= c
    ensures a * c <= b * c && c * a <= c * b
  {
  }

  /** From a product comparison back to the factors. */
  lemma MulCancel(a: int, b: int, d: int)
    requires 0 < d && a * d < b * d
    ensures a < b
  {
    if b <= a {
      MulMono(b, a, d);
    }
  }

  function Min(a: int, b: int): int {
    if a <= b then a else b
  }

  function Max(a: int, b: int): int {
    if a >= b then a else b
  }

  // ------------------------------------------------------- mappings and sums

  /** A mapping reads zero at every key never written. */
  function Get<K>(m: map<K, nat>, k: K): nat {
    if k in m then m[k] else 0
  }

  function Credit<K>(m: map<K, nat>, k: K, amount: nat): map<K, nat> {
    m[k := Get(m, k) + amount]
  }

  /** The sum of all values of a finite mapping. */
  ghost function Sum<K>(m: map<K, nat>): nat
    decreases |m|
  {
    if m == map[] then 0
    else
      var k :| k in m;
      m[k] + Sum(m - {k})
  }

  /** The sum does not depend on the key taken out first. */
  lemma {:induction false} SumRemove<K>(m: map<K, nat>, k: K)
    requires k in m
    ensures Sum(m) == m[k] + Sum(m - {k})
    decreases |m|
  {
    var j :| j in m && Sum(m) == m[j] + Sum(m - {j});
    if j != k {
      SumRemove(m - {j}, k);
      SumRemove(m - {k}, j);
      assert m - {j} - {k} == m - {k} - {j};
    }
  }

  /** Writing one key moves the sum by the difference at that key. */
  lemma SumUpdate<K>(m: map<K, nat>, k: K, v: nat)
    ensures Sum(m[k := v]) == Sum(m) - Get(m, k) + v
  {
    SumRemove(m[k := v], k);
    assert m[k := v] - {k} == m - {k};
    if k in m {
      SumRemove(m, k);
    } else {
      assert m - {k} == m;
    }
  }

  lemma SumEmpty<K>(m: map<K, nat>)
    requires m == map[]
    ensures Sum(m) == 0
  {
  }

  lemma SumAtLeast<K>(m: map<K, nat>, k: K)
    ensures Get(m, k) <= Sum(m)
  {
    if k in m {
      SumRemove(m, k);
    }
  }

  lemma {:induction false} AllZero<K>(m: map<K, nat>)
    requires forall k :: k in m ==> m[k] == 0
    ensures Sum(m) == 0
    decreases |m|
  {
    if m != map[] {
      var k :| k in m;
      SumRemove(m, k);
      AllZero(m - {k});
    }
  }
}
