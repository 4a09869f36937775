/** The rows written when ledgers are exported: one row per ledger entry
    except the OPEN entry, in ledger order. A single account's export has the
    columns event, amount, other; the combined export adds the owner and
    takes the accounts in the order given. DEPOSIT and WITHDRAW rows leave
    `other` empty; transfer rows carry the counterparty. */
module Export {
  import opened Outcomes
  import opened Bank

  /** A row of a single account's export. */
  datatype LedgerRow = LedgerRow(event: string, amount: real, other: string)

  /** A row of the combined export. */
  datatype TxRow = TxRow(owner: string, event: string, amount: real, other: string)

  /** The tag the ledger stores in an entry's first position. */
  function EventName(e: Entry): string {
    match e
    case Open(_) => "OPEN"
    case Deposit(_) => "DEPOSIT"
    case Withdraw(_) => "WITHDRAW"
    case TransferOut(_, _) => "TRANSFER_OUT"
    case TransferIn(_, _) => "TRANSFER_IN"
  }

  function OtherOf(e: Entry): string {
    if e.TransferOut? || e.TransferIn? then e.other else ""
  }

  /** The single-account row for one ledger entry. */
  function RowOf(e: Entry): LedgerRow {
    LedgerRow(EventName(e), e.amount, OtherOf(e))
  }

  /** A single account's export (the loop of `export_ledger_to_csv`). */
  function LedgerRows(ledger: seq<Entry>): (rows: seq<LedgerRow>)
    ensures |rows| <= |ledger|
  {
    if ledger == [] then []
    else if ledger[0].Open? then LedgerRows(ledger[1..])
    else [RowOf(ledger[0])] + LedgerRows(ledger[1..])
  }

  /** The combined rows of one account (the inner loop of
      `export_all_transactions_to_csv`). */
  function AccountRows(owner: string, ledger: seq<Entry>): (rows: seq<TxRow>)
    ensures |rows| <= |ledger|
    ensures forall k :: 0 <= k < |rows| ==> rows[k].owner == owner
  {
    if ledger == [] then []
    else if ledger[0].Open? then AccountRows(owner, ledger[1..])
    else [TxRow(owner, EventName(ledger[0]), ledger[0].amount, OtherOf(ledger[0]))]
         + AccountRows(owner, ledger[1..])
  }

  /** The combined export: every account's rows, accounts in the order given. */
  function TransactionRows(accounts: seq<AccountValue>): (rows: seq<TxRow>)
    ensures forall k :: 0 <= k < |rows| ==> rows[k].owner in (set a | a in accounts :: a.owner)
  {
    if accounts == [] then []
    else AccountRows(accounts[0].owner, accounts[0].ledger) + TransactionRows(accounts[1..])
  }

  // ---------------------------------------------------------------------
  // Reading rows back
  // ---------------------------------------------------------------------

  /** The ledger entry a single-account row stands for; None for a row no
      exported entry produces. */
  function EntryOf(row: LedgerRow): Option<Entry> {
    if row.event == "DEPOSIT" && row.other == "" then Some(Deposit(row.amount))
    else if row.event == "WITHDRAW" && row.other == "" then Some(Withdraw(row.amount))
    else if row.event == "TRANSFER_OUT" then Some(TransferOut(row.amount, row.other))
    else if row.event == "TRANSFER_IN" then Some(TransferIn(row.amount, row.other))
    else None
  }

  function EntriesOf(rows: seq<LedgerRow>): Option<seq<Entry>> {
    if rows == [] then Some([])
    else
      match (EntryOf(rows[0]), EntriesOf(rows[1..]))
      case (Some(e), Some(es)) => Some([e] + es)
      case _ => None
  }

  /** The entries of a ledger an export keeps. */
  function Exported(ledger: seq<Entry>): seq<Entry> {
    if ledger == [] then []
    else if ledger[0].Open? then Exported(ledger[1..])
    else [ledger[0]] + Exported(ledger[1..])
  }

  /** The rows of one owner in a combined export, without the owner column. */
  function RowsFor(rows: seq<TxRow>, owner: string): seq<LedgerRow> {
    if rows == [] then []
    else if rows[0].owner == owner then
      [LedgerRow(rows[0].event, rows[0].amount, rows[0].other)] + RowsFor(rows[1..], owner)
    else RowsFor(rows[1..], owner)
  }

  // ---------------------------------------------------------------------
  // Lemmas
  // ---------------------------------------------------------------------

  /** Every row a ledger produces reads back as the entry it came from. */
  lemma RowRoundTrip(e: Entry)
    requires !e.Open?
    ensures EntryOf(RowOf(e)) == Some(e)
  {
  }

  /** A single account's export reads back as exactly its non-OPEN entries,
      in ledger order. */
  lemma {:induction false} LedgerRowsRoundTrip(ledger: seq<Entry>)
    ensures EntriesOf(LedgerRows(ledger)) == Some(Exported(ledger))
    decreases |ledger|
  {
    if ledger != [] {
      LedgerRowsRoundTrip(ledger[1..]);
      if !ledger[0].Open? {
        var rows := LedgerRows(ledger);
        assert rows[0] == RowOf(ledger[0]) && rows[1..] == LedgerRows(ledger[1..]);
        RowRoundTrip(ledger[0]);
      }
    }
  }

  /** For a well-formed account (one OPEN entry, first), the export has one
      row per ledger entry after the first, each the row of that entry. */
  lemma {:induction false} LedgerRowsOfTail(ledger: seq<Entry>)
    requires forall i :: 0 <= i < |ledger| ==> !ledger[i].Open?
    ensures |LedgerRows(ledger)| == |ledger|
    ensures forall k :: 0 <= k < |ledger| ==> LedgerRows(ledger)[k] == RowOf(ledger[k])
    decreases |ledger|
  {
    if ledger != [] {
      assert !ledger[0].Open?;
      LedgerRowsOfTail(ledger[1..]);
      assert forall k :: 1 <= k < |ledger| ==> ledger[1..][k - 1] == ledger[k];
    }
  }

  lemma LedgerRowsOfAccount(a: AccountValue)
    requires WellFormed(a)
    ensures |LedgerRows(a.ledger)| == |a.ledger| - 1
    ensures forall k :: 1 <= k < |a.ledger| ==> LedgerRows(a.ledger)[k - 1] == RowOf(a.ledger[k])
  {
    var tail := a.ledger[1..];
    assert forall i :: 0 <= i < |tail| ==> tail[i] == a.ledger[i + 1];
    LedgerRowsOfTail(tail);
  }

  /** DEPOSIT and WITHDRAW rows leave `other` empty; transfer rows name the
      counterparty the entry recorded. */
  lemma OtherColumn(e: Entry)
    requires !e.Open?
    ensures RowOf(e).event in {"DEPOSIT", "WITHDRAW"} <==> e.Deposit? || e.Withdraw?
    ensures e.Deposit? || e.Withdraw? ==> RowOf(e).other == ""
    ensures e.TransferOut? || e.TransferIn? ==> RowOf(e).other == e.other
  {
  }

  /** The combined export's rows for one account are that account's own
      export with the owner column added. */
  lemma {:induction false} AccountRowsTagged(owner: string, ledger: seq<Entry>)
    ensures |AccountRows(owner, ledger)| == |LedgerRows(ledger)|
    ensures forall k :: 0 <= k < |LedgerRows(ledger)| ==>
      var row := LedgerRows(ledger)[k];
      AccountRows(owner, ledger)[k] == TxRow(owner, row.event, row.amount, row.other)
    decreases |ledger|
  {
    if ledger != [] {
      AccountRowsTagged(owner, ledger[1..]);
    }
  }

  lemma {:induction false} TransactionRowsConcat(first: seq<AccountValue>, rest: seq<AccountValue>)
    ensures TransactionRows(first + rest) == TransactionRows(first) + TransactionRows(rest)
    decreases |first|
  {
    if first == [] {
      assert first + rest == rest;
    } else {
      assert (first + rest)[0] == first[0];
      assert (first + rest)[1..] == first[1..] + rest;
      TransactionRowsConcat(first[1..], rest);
    }
  }

  lemma {:induction false} RowsForConcat(first: seq<TxRow>, rest: seq<TxRow>, owner: string)
    ensures RowsFor(first + rest, owner) == RowsFor(first, owner) + RowsFor(rest, owner)
    decreases |first|
  {
    if first == [] {
      assert first + rest == rest;
    } else {
      assert (first + rest)[0] == first[0];
      assert (first + rest)[1..] == first[1..] + rest;
      RowsForConcat(first[1..], rest, owner);
    }
  }

  /** Selecting one owner's rows from an account's combined rows gives that
      account's single export for its own owner, and nothing for any other. */
  lemma {:induction false} RowsForAccount(owner: string, ledger: seq<Entry>, who: string)
    ensures RowsFor(AccountRows(owner, ledger), who) == if who == owner then LedgerRows(ledger) else []
    decreases |ledger|
  {
    if ledger != [] {
      RowsForAccount(owner, ledger[1..], who);
      if !ledger[0].Open? {
        var rows := AccountRows(owner, ledger);
        assert rows[0].owner == owner && rows[1..] == AccountRows(owner, ledger[1..]);
      }
    }
  }

  /** When owners are distinct, the combined export restricted to one
      account's owner is exactly that account's single export. */
  lemma {:induction false} CombinedRestrictsToSingle(accounts: seq<AccountValue>, i: nat)
    requires i < |accounts|
    requires forall j, k :: 0 <= j < k < |accounts| ==> accounts[j].owner != accounts[k].owner
    ensures RowsFor(TransactionRows(accounts), accounts[i].owner) == LedgerRows(accounts[i].ledger)
    decreases |accounts|
  {
    var head := accounts[0];
    var rest := accounts[1..];
    RowsForConcat(AccountRows(head.owner, head.ledger), TransactionRows(rest), accounts[i].owner);
    RowsForAccount(head.owner, head.ledger, accounts[i].owner);
    if i == 0 {
      NoRowsFor(rest, head.owner);
    } else {
      assert accounts[i] == rest[i - 1];
      CombinedRestrictsToSingle(rest, i - 1);
    }
  }

  lemma {:induction false} NoRowsFor(accounts: seq<AccountValue>, owner: string)
    requires forall j :: 0 <= j < |accounts| ==> accounts[j].owner != owner
    ensures RowsFor(TransactionRows(accounts), owner) == []
    decreases |accounts|
  {
    if accounts != [] {
      var head := accounts[0];
      RowsForConcat(AccountRows(head.owner, head.ledger), TransactionRows(accounts[1..]), owner);
      RowsForAccount(head.owner, head.ledger, owner);
      NoRowsFor(accounts[1..], owner);
    }
  }
}
