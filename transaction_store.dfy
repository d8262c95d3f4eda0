/** The transaction store (`useTransactionStore`): the transaction list and the
    income/expense filter of the transactions page. */
module TransactionStore {
  import opened Types
  import opened Seqs
  import Text

  datatype TxFilter = AllTx | IncomeTx | ExpenseTx

  /** The filter's string value. */
  function FilterName(f: TxFilter): string {
    match f
    case AllTx => "all"
    case IncomeTx => "income"
    case ExpenseTx => "expense"
  }

  /** `tx.type.toLowerCase() === filter.toLowerCase()` */
  function TypeMatches(f: TxFilter): Transaction -> bool {
    (tx: Transaction) => Text.ToLower(TxTypeName(tx.txType)) == Text.ToLower(FilterName(f))
  }

  /** The case-insensitive string comparison selects exactly the transactions
      of the filter's own type, and "all" never matches a type. */
  lemma TypeMatchesIff(f: TxFilter, tx: Transaction)
    ensures TypeMatches(f)(tx) <==> (f == IncomeTx && tx.txType == Income) || (f == ExpenseTx && tx.txType == Expense)
  {
    LowerTypeName(tx.txType);
    LowerFilterName(f);
    var own := if tx.txType == Income then IncomeTx else ExpenseTx;
    assert |FilterName(f)| == |FilterName(own)| ==> f == own;
  }

  /** The filter value a type name lower-cases to. */
  lemma LowerTypeName(t: TxType)
    ensures Text.ToLower(TxTypeName(t)) == FilterName(if t == Income then IncomeTx else ExpenseTx)
  {
    var low := Text.ToLower(TxTypeName(t));
    var want := FilterName(if t == Income then IncomeTx else ExpenseTx);
    assert forall i :: 0 <= i < |low| ==> low[i] == want[i];
  }

  /** The filter values are already lower case. */
  lemma LowerFilterName(f: TxFilter)
    ensures Text.ToLower(FilterName(f)) == FilterName(f)
  {
    var low := Text.ToLower(FilterName(f));
    assert forall i :: 0 <= i < |low| ==> low[i] == FilterName(f)[i];
  }

  /** `getFilteredTransactions()` */
  function FilteredTransactions(txs: seq<Transaction>, f: TxFilter): (r: seq<Transaction>)
    ensures |r| <= |txs|
  {
    if f == AllTx then txs else Filter(txs, TypeMatches(f))
  }

  function IsIncome(tx: Transaction): bool { tx.txType == Income }

  function IsExpense(tx: Transaction): bool { tx.txType == Expense }

  /** Filtering by "income" or "expense" keeps, in order, exactly the
      transactions of that type; "all" keeps the list as it is. */
  lemma FilteredIsExact(txs: seq<Transaction>, f: TxFilter, tx: Transaction)
    ensures IsSubsequence(FilteredTransactions(txs, f), txs)
    ensures f == AllTx ==> FilteredTransactions(txs, f) == txs
    ensures f == IncomeTx ==> (tx in FilteredTransactions(txs, f) <==> tx in txs && tx.txType == Income)
    ensures f == ExpenseTx ==> (tx in FilteredTransactions(txs, f) <==> tx in txs && tx.txType == Expense)
  {
    if f == AllTx {
      IsSubsequenceReflexive(txs);
    } else {
      FilterIsSubsequence(txs, TypeMatches(f));
      FilterMembership(txs, TypeMatches(f), tx);
      TypeMatchesIff(f, tx);
    }
  }

  /** The income view and the expense view together hold every transaction. */
  lemma IncomePlusExpense(txs: seq<Transaction>)
    ensures |FilteredTransactions(txs, IncomeTx)| + |FilteredTransactions(txs, ExpenseTx)| == |txs|
  {
    forall i | 0 <= i < |txs|
      ensures TypeMatches(IncomeTx)(txs[i]) != TypeMatches(ExpenseTx)(txs[i])
    {
      TypeMatchesIff(IncomeTx, txs[i]);
      TypeMatchesIff(ExpenseTx, txs[i]);
    }
    FilterPartition(txs, TypeMatches(IncomeTx), TypeMatches(ExpenseTx));
  }

  class Store {
    var transactions: seq<Transaction>
    var filter: TxFilter

    /** The store starts with the mock transactions and the "all" filter. */
    constructor (initial: seq<Transaction>)
      ensures transactions == initial && filter == AllTx
    {
      transactions := initial;
      filter := AllTx;
    }

    method SetFilter(f: TxFilter)
      modifies this`filter
      ensures filter == f
    {
      filter := f;
    }

    /** The list the page shows: never longer than the store's list, and all
        of it under the "all" filter. */
    function FilteredNow(): (r: seq<Transaction>)
      reads this
      ensures |r| <= |transactions|
      ensures filter == AllTx ==> r == transactions
    {
      FilteredTransactions(transactions, filter)
    }

    function TransactionCount(): (n: nat)
      reads this
      ensures n == |transactions|
    {
      |transactions|
    }
  }
}
