/** The objects of the chain database that voting, the ledger and the scheduler share. */
module ChainTypes {

  /** Account names are fixed-width strings compared as big-endian integers; 0 is the empty name. */
  type Name = nat

  /** The empty name: an account whose proxy is SELF votes for itself. */
  const SELF: Name := 0

  /** Stands for the burn account "none". */
  const NULL_ACCOUNT: Name := 1

  const MAX_PROXY_DEPTH: nat := 4

  const TWO_128: nat := 0x1_0000_0000_0000_0000_0000_0000_0000_0000

  /** The length of a virtual lap: the largest 128-bit value. */
  const LAP_LENGTH: nat := TWO_128 - 1

  /** A pending conversion of vesting shares into balance; `next` is None when nothing is due. */
  datatype Withdrawal = Withdrawal(rate: int, next: Option<nat>, toWithdraw: int, withdrawn: int)

  /** None stands for an exception: the enclosing undo session restores the state. */
  datatype Option<+T> = None | Some(value: T) {
    predicate IsFailure() {
      None?
    }

    function PropagateFailure<U>(): Option<U>
      requires None?
    {
      None
    }

    function Extract(): T
      requires Some?
    {
      value
    }
  }

  /** The proxy of an account and its proxied amounts are columns of their own: see Electors and Index. */
  datatype Account = Account(id: nat, balance: int, vesting: int, votedFor: int, power: Withdrawal, holdings: int)

  datatype Role = Top | Timeshare | Unscheduled

  /** Keys are opaque; key 0 is the null key of a witness that does not sign blocks. */
  datatype Witness = Witness(
    id: nat,
    votes: int,
    lastUpdate: nat,
    position: nat,
    scheduled: nat,
    key: nat,
    role: Role)

  const NO_KEY: nat := 0

  function Total(x: Account): int {
    x.balance + x.vesting
  }

  function FreshAccount(id: nat): Account {
    Account(id, 0, 0, 0, Withdrawal(0, None, 0, 0), 0)
  }

  function FreshWitness(id: nat, key: nat): Witness {
    Witness(id, 0, 0, 0, LAP_LENGTH, key, Unscheduled)
  }
}
