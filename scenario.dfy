/** The end-to-end example the repository's own tests walk through: load
    Alice with 100 and Bob with 50, apply a deposit of 20, a withdrawal of 10
    and a transfer of 40 from Alice to Bob, then export every transaction. */
module Scenario {
  import opened Outcomes
  import opened Bank
  import opened Applier
  import opened Loading
  import opened Export

  function OpeningRows(): seq<OwnerRow> {
    [OwnerRow("Alice", 100.0), OwnerRow("Bob", 50.0)]
  }

  function ScenarioRecords(): seq<Record> {
    [DepositRow("Alice", 20.0), WithdrawRow("Alice", 10.0), OutRow("Alice", 40.0, "Bob")]
  }

  /** Loading gives exactly Alice and Bob with their opening balances. */
  lemma ScenarioLoads()
    ensures Loaded(OpeningRows()) == Ok(map["Alice" := NewAccount(OwnerRow("Alice", 100.0)),
                                            "Bob" := NewAccount(OwnerRow("Bob", 50.0))])
  {
    var rows := OpeningRows();
    LoadSnoc([rows[0]], rows[1]);
    assert rows == [rows[0]] + [rows[1]];
    LoadSnoc([], rows[0]);
    assert [rows[0]] == [] + [rows[0]];
  }

  function AliceAfter(): AccountValue {
    AccountValue("Alice", 70.0, [Open(100.0), Deposit(20.0), Withdraw(10.0), Withdraw(40.0), TransferOut(40.0, "Bob")])
  }

  function BobAfter(): AccountValue {
    AccountValue("Bob", 90.0, [Open(50.0), Deposit(40.0), TransferIn(40.0, "Alice")])
  }

  /** The deposit and the withdrawal touch only Alice. */
  lemma ScenarioFirstRows()
    ensures
      var b0 := Start(Loaded(OpeningRows()).value);
      var records := ScenarioRecords();
      && Step(b0, records[0]).Ok?
      && Step(Step(b0, records[0]).value, records[1])
         == Ok(Batch(map["Alice" := AccountValue("Alice", 110.0, [Open(100.0), Deposit(20.0), Withdraw(10.0)]),
                         "Bob" := NewAccount(OwnerRow("Bob", 50.0))], []))
  {
    ScenarioLoads();
    ParseEventNames();
    var alice := NewAccount(OwnerRow("Alice", 100.0));
    var b0 := Start(Loaded(OpeningRows()).value);
    var records := ScenarioRecords();
    assert b0.accounts["Alice"] == alice;
    assert records[0] == DepositRow("Alice", 20.0);
    assert Deposited(alice, 20.0) == Ok(Credit(alice, 20.0));
    DepositWithdrawRows(b0, records[0]);
    assert Step(b0, records[0]) == Ok(Batch(b0.accounts["Alice" := Credit(alice, 20.0)], []));
    var b1 := Step(b0, records[0]).value;
    assert b1.accounts["Alice"] == Credit(alice, 20.0);
    assert Withdrawn(b1.accounts["Alice"], 10.0).Ok?;
    DepositWithdrawRows(b1, records[1]);
    var alice2 := Debit(b1.accounts["Alice"], 10.0);
    assert alice2.ledger == [Open(100.0), Deposit(20.0), Withdraw(10.0)];
    assert Step(b1, records[1]).value.accounts == b1.accounts["Alice" := alice2];
    assert b1.accounts["Alice" := alice2].Keys == {"Alice", "Bob"};
    assert alice2 == AccountValue("Alice", 110.0, [Open(100.0), Deposit(20.0), Withdraw(10.0)]);
    assert b1.accounts["Bob"] == NewAccount(OwnerRow("Bob", 50.0));
    assert b1.accounts["Alice" := alice2] == map["Alice" := alice2, "Bob" := NewAccount(OwnerRow("Bob", 50.0))];
    assert Step(b1, records[1]).value.pairs == [];
  }

  /** The ledgers before the transfer row fold to the balances stored beside them. */
  lemma OpeningLedgers()
    ensures Balance([Open(100.0), Deposit(20.0), Withdraw(10.0)]) == 110.0
    ensures Balance([Open(50.0)]) == 50.0
  {
    var ledger := [Open(100.0), Deposit(20.0), Withdraw(10.0)];
    assert ledger[..2] == [Open(100.0), Deposit(20.0)];
    assert ledger[..2][..1] == [Open(100.0)];
    assert [Open(100.0)][..0] == [];
  }

  /** The transfer row moves 40 from Alice to Bob and logs it on both sides. */
  lemma ScenarioTransferRow(b2: Batch)
    requires b2 == Batch(map["Alice" := AccountValue("Alice", 110.0, [Open(100.0), Deposit(20.0), Withdraw(10.0)]),
                             "Bob" := NewAccount(OwnerRow("Bob", 50.0))], [])
    ensures Step(b2, ScenarioRecords()[2])
         == Ok(Batch(map["Alice" := AliceAfter(), "Bob" := BobAfter()], [Pair("Bob", 40.0, "Alice")]))
  {
    ParseEventNames();
    OpeningLedgers();
    assert ValidAccounts(b2.accounts);
    assert KnownOther(b2.accounts, "Bob");
    TransferredFails(b2.accounts, "Alice", "Bob", 40.0);
    TransferOutRow(b2, ScenarioRecords()[2]);
    TransferBetween(b2.accounts, "Alice", "Bob", 40.0);
    var m3 := Transferred(b2.accounts, "Alice", "Bob", 40.0).value;
    var o := ScenarioRecords()[2];
    assert o == OutRow("Alice", 40.0, "Bob");
    assert ParseEvent(o.event) == Some(TransferOutEvent);
    assert AmountOf(o.amount) == 40.0;
    assert Transferred(b2.accounts, "Alice", "Bob", 40.0).Ok?;
    assert b2.pairs + [Pair("Bob", 40.0, "Alice")] == [Pair("Bob", 40.0, "Alice")];
    assert Step(b2, o) == Ok(Batch(m3, [Pair("Bob", 40.0, "Alice")]));
    assert m3["Alice"].ledger == AliceAfter().ledger;
    assert m3["Bob"].ledger == BobAfter().ledger;
    assert m3.Keys == {"Alice", "Bob"};
    assert m3 == map["Alice" := AliceAfter(), "Bob" := BobAfter()];
  }

  /** After the three rows Alice holds 70 and Bob 90, and both ledgers hold
      the transfer's WITHDRAW/DEPOSIT and its annotations. */
  lemma ScenarioRun()
    ensures Run(Start(Loaded(OpeningRows()).value), ScenarioRecords())
         == (Batch(map["Alice" := AliceAfter(), "Bob" := BobAfter()], [Pair("Bob", 40.0, "Alice")]), Success)
  {
    var b0 := Start(Loaded(OpeningRows()).value);
    var records := ScenarioRecords();
    ScenarioFirstRows();
    var b1 := Step(b0, records[0]).value;
    var b2 := Step(b1, records[1]).value;
    ScenarioTransferRow(b2);
    var b3 := Step(b2, records[2]).value;
    assert records[1..] == [records[1], records[2]];
    assert [records[1], records[2]][1..] == [records[2]];
    assert [records[2]][1..] == [];
    assert Run(b0, records) == Run(b1, [records[1], records[2]]);
    assert Run(b1, [records[1], records[2]]) == Run(b2, [records[2]]);
    assert Run(b2, [records[2]]) == Run(b3, []);
  }

  /** The combined export lists Alice's four rows and then Bob's two,
      including the TRANSFER_OUT and TRANSFER_IN annotations. */
  lemma ScenarioExport()
    ensures TransactionRows([AliceAfter(), BobAfter()])
         == [TxRow("Alice", "DEPOSIT", 20.0, ""),
             TxRow("Alice", "WITHDRAW", 10.0, ""),
             TxRow("Alice", "WITHDRAW", 40.0, ""),
             TxRow("Alice", "TRANSFER_OUT", 40.0, "Bob"),
             TxRow("Bob", "DEPOSIT", 40.0, ""),
             TxRow("Bob", "TRANSFER_IN", 40.0, "Alice")]
  {
    assert [AliceAfter(), BobAfter()][1..] == [BobAfter()];
    assert [BobAfter()][1..] == [];
  }
}
