/** The transaction register of `src/html/transactions_screen.rs`
    (`load_transactions_into_body`), without the page it builds: each row's
    amount, the running balance and the increase and decrease columns.

    Amounts are f64 in the source. They are modelled as exact reals extended
    with the infinities and NaN an f64 division by zero produces; rounding is
    not modelled. */
module Register {
  import opened Wrappers
  import opened Seqs
  import opened Guids
  import opened DateTimes

  /** An f64 value without rounding: a finite real, an infinity or NaN. */
  datatype Num = Finite(r: real) | PosInf | NegInf | NaN

  /** f64 addition on `Num`. */
  function Add(a: Num, b: Num): (c: Num)
    ensures a.Finite? && b.Finite? ==> c == Finite(a.r + b.r)
    ensures (a.NaN? || b.NaN?) ==> c.NaN?
  {
    match (a, b)
    case (Finite(x), Finite(y)) => Finite(x + y)
    case (NaN, _) => NaN
    case (_, NaN) => NaN
    case (PosInf, NegInf) => NaN
    case (NegInf, PosInf) => NaN
    case (PosInf, _) => PosInf
    case (_, PosInf) => PosInf
    case (NegInf, _) => NegInf
    case (_, NegInf) => NegInf
  }

  lemma AddCommutes(a: Num, b: Num)
    ensures Add(a, b) == Add(b, a)
  {
  }

  /** `amount >= 0.0`: false for NaN and negative infinity. */
  predicate NonNegative(a: Num)
  {
    match a
    case Finite(x) => x >= 0.0
    case PosInf => true
    case NegInf => false
    case NaN => false
  }

  /** `(value_num as f64 / value_denom as f64) * -1.0`: the split seen from
      the other account. Dividing by zero gives an infinity of the opposite
      sign of the numerator after negation, or NaN for 0/0. */
  function Amount(num: int, denom: int): (a: Num)
    ensures denom != 0 ==> a.Finite? && a.r * denom as real == -(num as real)
    ensures denom == 0 ==> (a.NaN? <==> num == 0) && (NonNegative(a) <==> num < 0)
  {
    if denom != 0 then Finite(-(num as real / denom as real))
    else if num > 0 then NegInf
    else if num < 0 then PosInf
    else NaN
  }

  /** The record the register is built from, with the fields the screen reads. */
  datatype TransactionWithSplitInformation = TransactionWithSplitInformation(
    excluded_account_guid: Uuid,
    excluded_account_name: string,
    excluded_account_mnemonic: string,
    guid: Uuid,
    post_date: string,
    description: string,
    memo: string,
    value_num: int,
    value_denom: int,
    account_name: string,
    account_guid: Uuid)

  function AmountOf(t: TransactionWithSplitInformation): Num
  {
    Amount(t.value_num, t.value_denom)
  }

  /** The balance after the given rows: 0 added up with each row's amount in turn. */
  function BalanceAfter(txns: seq<TransactionWithSplitInformation>): Num
  {
    if txns == [] then Finite(0.0)
    else Add(BalanceAfter(txns[..|txns| - 1]), AmountOf(txns[|txns| - 1]))
  }

  /** One row of the register. A column that is `None` shows "0.00"; the
      others show the amount (as money when the mnemonic is USD, which is
      `money`). */
  datatype RegisterRow = RegisterRow(
    postDate: NaiveDateTime,
    description: string,
    memo: Option<string>,
    category: string,
    decrease: Option<Num>,
    increase: Option<Num>,
    change: Num,
    balance: Num,
    money: bool)

  /** The shown post date: the stored text parsed, or 0000-01-01 00:00:00. */
  function ShownPostDate(s: string): (d: NaiveDateTime)
    ensures Parse(s).Some? ==> d == Parse(s).value
    ensures Parse(s).None? ==> d == NullDate
  {
    match ConvertStringToDate(s)
    case Ok(e) => e
    case _ => NullDate
  }

  /** The row shown for a transaction, given the balance after it. A
      transaction with a memo gets a description link showing it. */
  function RowOf(t: TransactionWithSplitInformation, balance: Num): (row: RegisterRow)
    ensures row.change == AmountOf(t) && row.balance == balance
    ensures row.increase.Some? <==> NonNegative(row.change)
    ensures row.decrease.Some? <==> !NonNegative(row.change)
    ensures row.increase.Some? ==> row.increase.value == row.change
    ensures row.decrease.Some? ==> row.decrease.value == row.change
    ensures row.memo.Some? <==> t.memo != ""
  {
    var amount := AmountOf(t);
    RegisterRow(ShownPostDate(t.post_date), t.description, if t.memo != "" then Some(t.memo) else None,
                t.account_name,
                if NonNegative(amount) then None else Some(amount),
                if NonNegative(amount) then Some(amount) else None,
                amount, balance, t.excluded_account_mnemonic == "USD")
  }

  /** What the screen shows: the header's account name and the rows. */
  datatype RegisterView = RegisterView(accountName: string, rows: seq<RegisterRow>)

  /** The rows of the register for the given transactions. */
  function RowsOf(txns: seq<TransactionWithSplitInformation>): (rows: seq<RegisterRow>)
    ensures |rows| == |txns|
  {
    if txns == [] then []
    else RowsOf(txns[..|txns| - 1]) + [RowOf(txns[|txns| - 1], BalanceAfter(txns))]
  }

  /** Row k shows transaction k with the balance after rows 0 to k. */
  lemma {:induction false} RowsOfIndex(txns: seq<TransactionWithSplitInformation>, k: int)
    requires 0 <= k < |txns|
    ensures RowsOf(txns)[k] == RowOf(txns[k], BalanceAfter(txns[..k + 1]))
  {
    var init := txns[..|txns| - 1];
    var last := RowOf(txns[|txns| - 1], BalanceAfter(txns));
    assert RowsOf(txns) == RowsOf(init) + [last];
    if k < |txns| - 1 {
      RowsOfIndex(init, k);
      assert init[..k + 1] == txns[..k + 1] by {
        PrefixOfPrefix(txns, |txns| - 1, k + 1);
      }
      SnocIndex(RowsOf(init), last, k);
    } else {
      assert txns[..k + 1] == txns;
      SnocIndex(RowsOf(init), last, k);
    }
  }

  const EmptyIndexPanic: string := "index out of bounds: the len is 0 but the index is 0"

  /** `load_transactions_into_body`: the header reads the first transaction,
      so an empty list panics; then one row per transaction, the balance
      accumulated as the rows are laid out. */
  method LoadTransactionsIntoBody(txns: seq<TransactionWithSplitInformation>) returns (r: Outcome<RegisterView>)
    ensures txns == [] ==> r == Panic(EmptyIndexPanic)
    ensures txns != [] ==> r == Ok(RegisterView(txns[0].excluded_account_name, RowsOf(txns)))
  {
    if txns == [] {
      return Panic(EmptyIndexPanic);
    }
    var accountName := txns[0].excluded_account_name;
    var rows: seq<RegisterRow> := [];
    var balanceAmount := Finite(0.0);
    for i := 0 to |txns|
      invariant balanceAmount == BalanceAfter(txns[..i])
      invariant rows == RowsOf(txns[..i])
    {
      var txn := txns[i];
      var amount := Amount(txn.value_num, txn.value_denom);
      assert txns[..i + 1][..i] == txns[..i];
      balanceAmount := Add(balanceAmount, amount);
      var increase: Option<Num> := None;
      var decrease: Option<Num> := None;
      if NonNegative(amount) {
        increase := Some(amount);
      } else {
        decrease := Some(amount);
      }
      var memo := if txn.memo != "" then Some(txn.memo) else None;
      rows := rows + [RegisterRow(ShownPostDate(txn.post_date), txn.description, memo, txn.account_name,
                                  decrease, increase, amount, balanceAmount, txn.excluded_account_mnemonic == "USD")];
    }
    assert txns[..|txns|] == txns;
    return Ok(RegisterView(accountName, rows));
  }

  /** The sum of reals, first to last. */
  function RealSum(s: seq<real>): real
  {
    if s == [] then 0.0 else s[0] + RealSum(s[1..])
  }

  lemma {:induction false} RealSumSnoc(s: seq<real>, x: real)
    ensures RealSum(s + [x]) == RealSum(s) + x
  {
    if s == [] {
      assert s + [x] == [x];
      assert [x][1..] == [];
    } else {
      assert (s + [x])[1..] == s[1..] + [x];
      RealSumSnoc(s[1..], x);
    }
  }

  /** The amounts of the rows as reals (for rows with nonzero denominators). */
  function Amounts(txns: seq<TransactionWithSplitInformation>): (s: seq<real>)
    requires forall k :: 0 <= k < |txns| ==> txns[k].value_denom != 0
    ensures |s| == |txns|
  {
    if txns == [] then []
    else Amounts(txns[..|txns| - 1]) + [-(txns[|txns| - 1].value_num as real / txns[|txns| - 1].value_denom as real)]
  }

  /** With nonzero denominators the balance is finite and is the plain sum
      of the negated ratios. */
  lemma {:induction false} FiniteBalance(txns: seq<TransactionWithSplitInformation>)
    requires forall k :: 0 <= k < |txns| ==> txns[k].value_denom != 0
    ensures BalanceAfter(txns) == Finite(RealSum(Amounts(txns)))
  {
    if txns != [] {
      var init := txns[..|txns| - 1];
      var last := txns[|txns| - 1];
      FiniteBalance(init);
      RealSumSnoc(Amounts(init), -(last.value_num as real / last.value_denom as real));
    }
  }

  /** Each row's balance is the previous row's balance plus its amount; the
      first row's is its own amount. */
  lemma BalanceSteps(txns: seq<TransactionWithSplitInformation>, k: int)
    requires 0 <= k < |txns|
    ensures k == 0 ==> BalanceAfter(txns[..1]) == Add(Finite(0.0), AmountOf(txns[0]))
    ensures k > 0 ==> BalanceAfter(txns[..k + 1]) == Add(BalanceAfter(txns[..k]), AmountOf(txns[k]))
  {
    assert txns[..k + 1][..k] == txns[..k];
    assert txns[..k] == [] <==> k == 0;
  }

  /** A NaN amount (a 0/0 split) makes every later balance NaN. */
  lemma {:induction false} NaNPersists(a: seq<TransactionWithSplitInformation>, b: seq<TransactionWithSplitInformation>)
    requires BalanceAfter(a).NaN?
    ensures BalanceAfter(a + b).NaN?
  {
    if b == [] {
      assert a + b == a;
    } else {
      var c := b[..|b| - 1];
      NaNPersists(a, c);
      assert (a + b)[..|a + b| - 1] == a + c;
      assert (a + b)[|a + b| - 1] == b[|b| - 1];
    }
  }
}
