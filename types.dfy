/** The records of `src/types/types.ts` that the modelled stores work on.
    String unions become datatypes; each has a function giving the string the
    source compares against. Amounts are kept as `real` and never computed with. */
module Types {
  import opened Wrappers

  datatype UserRole = Creator | Member | Admin

  /** The value of `UserRole.X`. */
  function RoleName(r: UserRole): string {
    match r
    case Creator => "CREATOR"
    case Member => "MEMBER"
    case Admin => "ADMIN"
  }

  datatype UserStatus = UserActive | UserPending | UserSuspended

  function UserStatusName(s: UserStatus): string {
    match s
    case UserActive => "active"
    case UserPending => "pending"
    case UserSuspended => "suspended"
  }

  datatype User = User(
    id: string,
    firstName: string,
    lastName: string,
    email: string,
    role: UserRole,
    status: UserStatus,
    bankConnected: bool)

  datatype TxStatus = Completed | PendingTx

  datatype TxType = Income | Expense

  /** The value of `tx.type`. */
  function TxTypeName(t: TxType): string {
    match t
    case Income => "INCOME"
    case Expense => "EXPENSE"
  }

  datatype Transaction = Transaction(
    id: string,
    desc: string,
    sub: string,
    date: string,
    status: TxStatus,
    amount: real,
    txType: TxType)

  /** `SplitMember`; `name` is optional. */
  datatype SplitMember = SplitMember(
    id: string,
    email: string,
    name: Option<string>,
    percentage: int)

  /** `Split["status"]`: exactly two values. */
  datatype SplitStatus = Active | Inactive

  datatype Split = Split(
    id: string,
    name: string,
    startDate: string,
    status: SplitStatus,
    creatorId: string,
    creatorName: string,
    creatorPercentage: int,
    members: seq<SplitMember>,
    totalPercentage: int)
}
