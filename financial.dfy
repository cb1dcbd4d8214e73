/** The financial page: a ledger of tithes, offerings and expenses, newest first,
    with income, expense and balance totals. Amounts are integer cents. */
module Financial {
  import opened Collections

  datatype TxKind = Income | Expense

  datatype Transaction = Transaction(id: nat, kind: TxKind, category: string, description: string,
                                     amount: int, date: string, status: string)

  /** The transaction form; `amount` is the parsed amount field, `None` when it is empty,
      and `date` the ISO value of a date input. */
  datatype TxForm = TxForm(kind: TxKind, amount: Option<int>, description: string,
                           category: string, date: string)

  const EmptyForm := TxForm(Income, None, "", "Dízimo", "")

  function Abs(x: int): nat
  {
    if x < 0 then -x else x
  }

  /** The stored amount: an expense is never positive, an income never negative, and the
      magnitude is the one typed. */
  function SignedAmount(kind: TxKind, x: int): (r: int)
    ensures Abs(r) == Abs(x)
    ensures kind == Expense ==> r <= 0
    ensures kind == Income ==> r >= 0
  {
    if kind == Expense then -(Abs(x) as int) else Abs(x)
  }

  predicate SignAgrees(t: Transaction)
  {
    (t.kind == Expense ==> t.amount <= 0) && (t.kind == Income ==> t.amount >= 0)
  }

  /** Every amount carries the sign of its kind. */
  predicate SignsAgree(txs: seq<Transaction>)
  {
    forall i :: 0 <= i < |txs| ==> SignAgrees(txs[i])
  }

  predicate IsComplete(f: TxForm)
  {
    f.amount.Some? && f.description != "" && f.date != ""
  }

  function NewTransaction(id: nat, f: TxForm, shownDate: string): Transaction
    requires f.amount.Some?
  {
    Transaction(id, f.kind, f.category, f.description, SignedAmount(f.kind, f.amount.value), shownDate, "Concluído")
  }

  /** The ledger after a submit: unchanged unless amount, description and date are all
      given; otherwise the new transaction goes in front. `localeDate` is the
      locale formatting of the ISO date. */
  function LedgerAfterAdd(txs: seq<Transaction>, f: TxForm, freshId: nat, localeDate: string -> string): seq<Transaction>
  {
    if IsComplete(f) then [NewTransaction(freshId, f, localeDate(f.date))] + txs else txs
  }

  predicate IsIncome(t: Transaction) { t.kind == Income }
  predicate IsExpense(t: Transaction) { t.kind == Expense }
  function AmountOf(t: Transaction): int { t.amount }
  function Magnitude(t: Transaction): int { Abs(t.amount) }

  function TotalIncome(txs: seq<Transaction>): int
  {
    Sum(Filter(txs, IsIncome), AmountOf)
  }

  function TotalExpense(txs: seq<Transaction>): int
  {
    Sum(Filter(txs, IsExpense), Magnitude)
  }

  function Balance(txs: seq<Transaction>): int
  {
    TotalIncome(txs) - TotalExpense(txs)
  }

  /** The recent-transactions panel: the first four of the ledger. */
  function Recent(txs: seq<Transaction>): (r: seq<Transaction>)
    ensures |r| == if |txs| < 4 then |txs| else 4
    ensures forall i :: 0 <= i < |r| ==> r[i] == txs[i]
  {
    if |txs| < 4 then txs else txs[..4]
  }

  /** How an amount is shown: a sign prefix and a magnitude. */
  datatype Shown = Shown(prefix: string, magnitude: nat)

  /** The recent panel shows "+" before income and no sign before an expense. */
  function ShownInRecent(t: Transaction): (r: Shown)
    ensures r.magnitude == Abs(t.amount)
    ensures r.prefix == "+" <==> t.kind == Income
    ensures r.prefix == "" <==> t.kind == Expense
  {
    Shown(if t.kind == Income then "+" else "", Abs(t.amount))
  }

  /** The full history shows "+" before income and "-" before an expense. */
  function ShownInHistory(t: Transaction): (r: Shown)
    ensures r.magnitude == Abs(t.amount)
    ensures r.prefix == (if t.kind == Income then "+" else "-")
  {
    Shown(if t.kind == Income then "+" else "-", Abs(t.amount))
  }

  // ---------------------------------------------------------------- lemmas

  /** A missing amount, description or date leaves the ledger unchanged. */
  lemma IncompleteFormKeepsLedger(txs: seq<Transaction>, f: TxForm, freshId: nat, localeDate: string -> string)
    requires f.amount.None? || f.description == "" || f.date == ""
    ensures LedgerAfterAdd(txs, f, freshId, localeDate) == txs
  {
  }

  /** An accepted add puts the new transaction at index 0, with status "Concluído", the
      signed amount, and the earlier ledger after it unchanged. */
  lemma AddPrepends(txs: seq<Transaction>, f: TxForm, freshId: nat, localeDate: string -> string)
    requires IsComplete(f)
    ensures var r := LedgerAfterAdd(txs, f, freshId, localeDate);
      |r| == |txs| + 1 && r[1..] == txs && r[0].id == freshId && r[0].status == "Concluído" &&
      r[0].kind == f.kind && r[0].amount == SignedAmount(f.kind, f.amount.value) &&
      r[0].date == localeDate(f.date)
  {
    assert ([NewTransaction(freshId, f, localeDate(f.date))] + txs)[1..] == txs;
  }

  /** Adding keeps every amount signed by its kind. */
  lemma AddKeepsSigns(txs: seq<Transaction>, f: TxForm, freshId: nat, localeDate: string -> string)
    requires SignsAgree(txs)
    ensures SignsAgree(LedgerAfterAdd(txs, f, freshId, localeDate))
  {
    var r := LedgerAfterAdd(txs, f, freshId, localeDate);
    if IsComplete(f) {
      forall i | 0 <= i < |r| ensures SignAgrees(r[i]) {
        if i > 0 {
          assert r[i] == txs[i - 1];
        }
      }
    }
  }

  /** The total expense is never negative. */
  lemma TotalExpenseNonNegative(txs: seq<Transaction>)
    ensures TotalExpense(txs) >= 0
  {
    SumNonNegative(Filter(txs, IsExpense), Magnitude);
  }

  /** With consistent signs, the balance is the plain sum of all amounts. */
  lemma {:induction false} BalanceIsSumOfAmounts(txs: seq<Transaction>)
    requires SignsAgree(txs)
    ensures Balance(txs) == Sum(txs, AmountOf)
    decreases |txs|
  {
    if txs != [] {
      var t, rest := txs[0], txs[1..];
      BalanceIsSumOfAmounts(rest);
      FilterAppend([t], rest, IsIncome);
      FilterAppend([t], rest, IsExpense);
      assert txs == [t] + rest;
      if t.kind == Income {
        assert Filter(txs, IsIncome) == [t] + Filter(rest, IsIncome);
        assert Filter(txs, IsExpense) == Filter(rest, IsExpense);
        assert ([t] + Filter(rest, IsIncome))[1..] == Filter(rest, IsIncome);
      } else {
        assert Filter(txs, IsIncome) == Filter(rest, IsIncome);
        assert Filter(txs, IsExpense) == [t] + Filter(rest, IsExpense);
        assert ([t] + Filter(rest, IsExpense))[1..] == Filter(rest, IsExpense);
      }
    }
  }

  /** Adding income of `x` raises the income total by |x| and leaves the expense total;
      adding an expense raises the expense total by |x| and leaves the income total. */
  lemma AddMovesOneTotal(txs: seq<Transaction>, f: TxForm, freshId: nat, localeDate: string -> string)
    requires IsComplete(f)
    ensures var r := LedgerAfterAdd(txs, f, freshId, localeDate);
      var x := Abs(f.amount.value);
      (f.kind == Income ==> TotalIncome(r) == TotalIncome(txs) + x && TotalExpense(r) == TotalExpense(txs)) &&
      (f.kind == Expense ==> TotalExpense(r) == TotalExpense(txs) + x && TotalIncome(r) == TotalIncome(txs))
  {
    var r := LedgerAfterAdd(txs, f, freshId, localeDate);
    var t := r[0];
    assert r == [t] + txs;
    FilterAppend([t], txs, IsIncome);
    FilterAppend([t], txs, IsExpense);
    if t.kind == Income {
      assert Filter(r, IsIncome) == [t] + Filter(txs, IsIncome);
      assert Filter(r, IsExpense) == Filter(txs, IsExpense);
      assert ([t] + Filter(txs, IsIncome))[1..] == Filter(txs, IsIncome);
    } else {
      assert Filter(r, IsIncome) == Filter(txs, IsIncome);
      assert Filter(r, IsExpense) == [t] + Filter(txs, IsExpense);
      assert ([t] + Filter(txs, IsExpense))[1..] == Filter(txs, IsExpense);
    }
  }

  /** After an add the recent panel starts with the new transaction, followed by what
      the panel showed before, less its last entry when it was full. */
  lemma RecentAfterAdd(txs: seq<Transaction>, f: TxForm, freshId: nat, localeDate: string -> string)
    requires IsComplete(f)
    ensures var r := LedgerAfterAdd(txs, f, freshId, localeDate);
      Recent(r)[0] == r[0] && Recent(r)[1..] == Recent(txs)[..|Recent(r)| - 1]
  {
    var r := LedgerAfterAdd(txs, f, freshId, localeDate);
    assert r[1..] == txs;
  }

  /** The history label reads back as the stored amount when the sign agrees with the kind. */
  lemma HistoryLabelReadsBack(t: Transaction)
    requires SignAgrees(t)
    ensures var s := ShownInHistory(t);
      (if s.prefix == "-" then -(s.magnitude as int) else s.magnitude) == t.amount
  {
  }

  // ---------------------------------------------------------------- page state

  const SeedLedger: seq<Transaction> := [
    Transaction(1, Income, "Dízimo", "Dízimo - João Silva", 50000, "15/06/2023", "Concluído"),
    Transaction(2, Expense, "Luz", "Conta de Energia (Enel)", -35000, "14/06/2023", "Concluído"),
    Transaction(3, Income, "Oferta", "Oferta Culto de Domingo", 125050, "12/06/2023", "Concluído"),
    Transaction(4, Expense, "Aluguel", "Aluguel do Templo", -250000, "10/06/2023", "Pendente"),
    Transaction(5, Income, "Doação", "Doação para Ação Social", 80000, "08/06/2023", "Concluído")
  ]

  /** The seeded ledger already signs every amount by its kind. */
  lemma SeedSignsAgree()
    ensures SignsAgree(SeedLedger)
  {
  }

  class FinancialPage {
    var transactions: seq<Transaction>

    constructor ()
      ensures transactions == SeedLedger
    {
      transactions := SeedLedger;
    }

    /** `handleAddTransaction`. */
    method AddTransaction(f: TxForm, freshId: nat, localeDate: string -> string) returns (added: bool)
      modifies this
      ensures added == IsComplete(f)
      ensures transactions == LedgerAfterAdd(old(transactions), f, freshId, localeDate)
      ensures SignsAgree(old(transactions)) ==> SignsAgree(transactions)
    {
      if SignsAgree(transactions) {
        AddKeepsSigns(transactions, f, freshId, localeDate);
      }
      added := IsComplete(f);
      if added {
        transactions := [NewTransaction(freshId, f, localeDate(f.date))] + transactions;
      }
    }
  }
}
