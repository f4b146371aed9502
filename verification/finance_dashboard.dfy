/** The ledger screen of src/components/FinanceDashboard.tsx: the income,
    expense and net figures derived from the records, the profit margin, and
    saving a new transaction. The screen does not validate the draft itself;
    the server does. */
module FinanceDashboard {
  import opened Wrappers
  import opened Js
  import opened Seqs
  import opened Api
  import Server

  const Income := "ingreso"
  const Expense := "gasto"

  predicate IsIncome(r: FinanceRecord) {
    r.kind == Income
  }

  predicate IsExpense(r: FinanceRecord) {
    r.kind == Expense
  }

  function Amount(r: FinanceRecord): int {
    r.amount
  }

  /** `totalIncome`: the amounts of the 'ingreso' records, added up. */
  function TotalIncome(rs: seq<FinanceRecord>): int {
    SumOf(Filter(rs, IsIncome), Amount)
  }

  /** `totalExpenses`: the amounts of the 'gasto' records, added up. */
  function TotalExpenses(rs: seq<FinanceRecord>): int {
    SumOf(Filter(rs, IsExpense), Amount)
  }

  /** `netProfit`. */
  function NetProfit(rs: seq<FinanceRecord>): int {
    TotalIncome(rs) - TotalExpenses(rs)
  }

  /** A record put in front of the ledger moves the net figure by its
      amount: up for income, down for an expense, not at all for any other
      type. */
  lemma NetProfitPrepend(r: FinanceRecord, rs: seq<FinanceRecord>)
    ensures IsIncome(r) ==> NetProfit([r] + rs) == NetProfit(rs) + r.amount
    ensures IsExpense(r) ==> NetProfit([r] + rs) == NetProfit(rs) - r.amount
    ensures !IsIncome(r) && !IsExpense(r) ==> NetProfit([r] + rs) == NetProfit(rs)
  {
    assert ([r] + rs)[1..] == rs;
  }

  predicate KnownKinds(rs: seq<FinanceRecord>) {
    forall i :: 0 <= i < |rs| ==> rs[i].kind == Income || rs[i].kind == Expense
  }

  /** When every record is an income or an expense, the two totals together
      are the sum of all amounts. */
  lemma {:induction false} TotalsCoverLedger(rs: seq<FinanceRecord>)
    requires KnownKinds(rs)
    ensures TotalIncome(rs) + TotalExpenses(rs) == SumOf(rs, Amount)
  {
    if |rs| > 0 {
      assert KnownKinds(rs[1..]) by {
        forall i | 0 <= i < |rs[1..]| ensures rs[1..][i].kind == Income || rs[1..][i].kind == Expense {
          assert rs[1..][i] == rs[i + 1];
        }
      }
      TotalsCoverLedger(rs[1..]);
    }
  }

  /** The margin as shown: the literal '0' when there is no income, so no
      division happens; otherwise net over income, as a percentage. */
  datatype Margin = ZeroText | Percent(value: real)

  function ProfitMargin(rs: seq<FinanceRecord>): (m: Margin)
    ensures m.ZeroText? <==> TotalIncome(rs) == 0
    ensures m.Percent? ==> m.value * (TotalIncome(rs) as real) == (NetProfit(rs) as real) * 100.0
  {
    var income := TotalIncome(rs);
    if income == 0 then ZeroText
    else Percent(((NetProfit(rs) as real) / (income as real)) * 100.0)
  }

  // ---------------------------------------------------------------------
  // saving a transaction

  /** The dialog's draft: a record without an id. */
  datatype Draft = Draft(date: string, category: string, project: string, description: string, amount: int, kind: string)

  const EmptyDraft := Draft("", "", "General", "", 0, Expense)

  /** The JSON body the draft becomes. */
  function ToBody(d: Draft): Server.FinanceBody
  {
    Server.FinanceBody(d.date, d.category, d.project, d.description, Some(d.amount), d.kind)
  }

  datatype Screen = Screen(expenses: seq<FinanceRecord>, draft: Draft)

  /** `handleSaveTransaction`: the draft is always sent. An accepted record
      goes first with the others behind it in the same order, and the draft
      is reset to amount 0, project 'General', type 'gasto'. A refusal
      changes nothing. */
  function HandleSaveTransaction(sc: Screen, reply: Result<FinanceRecord, string>): (r: (Screen, Draft))
    ensures r.1 == sc.draft
    ensures reply.Err? ==> r.0 == sc
    ensures reply.Ok? ==>
      && |r.0.expenses| == |sc.expenses| + 1
      && r.0.expenses[0] == reply.value
      && r.0.expenses[1..] == sc.expenses
      && r.0.draft.amount == 0 && r.0.draft.project == "General" && r.0.draft.kind == Expense
      && r.0.draft.date == "" && r.0.draft.category == "" && r.0.draft.description == ""
  {
    match reply
    case Ok(created) => (Screen([created] + sc.expenses, EmptyDraft), sc.draft)
    case Err(_) => (sc, sc.draft)
  }

  /** Saving the reset draft without touching it is refused by the server
      with 400, and the server's ledger is unchanged. */
  lemma EmptyDraftRefused(st: Server.Store, id: string)
    ensures Server.CreateFinance(st, ToBody(EmptyDraft), id) == Server.Handled(st, Err(Server.IncompleteTransaction))
  {
  }

  /** A record the server accepted and the screen placed in front moves the
      net figure by its amount, in the direction of its type. */
  lemma SavedTransactionMovesNet(sc: Screen, st: Server.Store, id: string)
    requires Server.CreateFinance(st, ToBody(sc.draft), id).reply.Ok?
    ensures var created := Server.CreateFinance(st, ToBody(sc.draft), id).reply.value;
      var after := HandleSaveTransaction(sc, Ok(created)).0.expenses;
      && (sc.draft.kind == Income ==> NetProfit(after) == NetProfit(sc.expenses) + sc.draft.amount)
      && (sc.draft.kind == Expense ==> NetProfit(after) == NetProfit(sc.expenses) - sc.draft.amount)
  {
    var created := Server.CreateFinance(st, ToBody(sc.draft), id).reply.value;
    NetProfitPrepend(created, sc.expenses);
  }
}
