/** The account-and-ledger model of `src/bank.py`.

    An account has an immutable owner, a cached balance and an append-only
    ledger. Transfers log a WITHDRAW on the sender and a DEPOSIT on the
    receiver (through the ordinary withdraw/deposit operations) and then add
    a TRANSFER_OUT / TRANSFER_IN annotation pair, so the balance is the fold
    OPEN + sum(DEPOSIT) - sum(WITHDRAW) over the ledger and the transfer
    entries contribute nothing to it. */
module Bank {
  import opened Outcomes

  /** One tagged ledger entry. */
  datatype Entry =
    | Open(amount: real)
    | Deposit(amount: real)
    | Withdraw(amount: real)
    | TransferOut(amount: real, other: string)
    | TransferIn(amount: real, other: string)

  /** How much one entry moves the balance. */
  function Effect(e: Entry): real {
    match e
    case Open(a) => a
    case Deposit(a) => a
    case Withdraw(a) => -a
    case TransferOut(_, _) => 0.0
    case TransferIn(_, _) => 0.0
  }

  /** The balance a ledger accounts for, folded from its last entry backwards
      so that appending an entry adds exactly that entry's effect. */
  function Balance(ledger: seq<Entry>): real {
    if ledger == [] then 0.0
    else Balance(ledger[..|ledger| - 1]) + Effect(ledger[|ledger| - 1])
  }

  lemma BalanceSnoc(ledger: seq<Entry>, e: Entry)
    ensures Balance(ledger + [e]) == Balance(ledger) + Effect(e)
  {
    assert (ledger + [e])[..|ledger|] == ledger;
  }

  /** A snapshot of one account: what `BankAccount` stores. */
  datatype AccountValue = AccountValue(owner: string, balance: real, ledger: seq<Entry>)

  /** The invariant every account keeps: a non-empty owner, exactly one OPEN
      entry and it comes first, positive amounts after it, and a non-negative
      balance equal to the fold of the ledger. */
  predicate WellFormed(a: AccountValue) {
    && a.owner != ""
    && |a.ledger| >= 1
    && a.ledger[0].Open?
    && a.ledger[0].amount >= 0.0
    && (forall i :: 1 <= i < |a.ledger| ==> !a.ledger[i].Open? && a.ledger[i].amount > 0.0)
    && a.balance == Balance(a.ledger)
    && a.balance >= 0.0
  }

  /** `_validate_amount`: only a positive amount is accepted. */
  function CheckAmount(amount: real): Status {
    if amount <= 0.0 then Failure(NonPositiveAmount) else Success
  }

  /** The two checks `withdraw` makes before touching anything. */
  function CheckWithdraw(balance: real, amount: real): Status {
    if CheckAmount(amount).Failure? then CheckAmount(amount)
    else if amount > balance then Failure(InsufficientFunds)
    else Success
  }

  /** The state changes of deposit, withdraw and the transfer annotations. */
  function Credit(a: AccountValue, amount: real): AccountValue {
    a.(balance := a.balance + amount, ledger := a.ledger + [Deposit(amount)])
  }

  function Debit(a: AccountValue, amount: real): AccountValue {
    a.(balance := a.balance - amount, ledger := a.ledger + [Withdraw(amount)])
  }

  function Note(a: AccountValue, e: Entry): AccountValue {
    a.(ledger := a.ledger + [e])
  }

  /** `BankAccount(owner, opening_balance)` as a value. */
  function Opened(owner: string, opening: real): Result<AccountValue> {
    if owner == "" then Err(EmptyOwner)
    else if opening < 0.0 then Err(NegativeOpening)
    else Ok(AccountValue(owner, opening, [Open(opening)]))
  }

  /** `deposit(amount)` as a value: fails without a change, or credits. */
  function Deposited(a: AccountValue, amount: real): Result<AccountValue> {
    if CheckAmount(amount).Failure? then Err(NonPositiveAmount)
    else Ok(Credit(a, amount))
  }

  /** `withdraw(amount)` as a value: fails without a change, or debits. */
  function Withdrawn(a: AccountValue, amount: real): Result<AccountValue> {
    var s := CheckWithdraw(a.balance, amount);
    if s.Failure? then Err(s.error)
    else Ok(Debit(a, amount))
  }

  /** `accounts[from].transfer_to(accounts[to], amount)` over a map of
      snapshots keyed by owner; `from == to` is the same account twice.
      The withdraw runs first and is the only step that can fail; the deposit
      that follows cannot, since the amount has already been validated. */
  function Transferred(m: map<string, AccountValue>, from: string, to: string, amount: real)
    : (r: Result<map<string, AccountValue>>)
    requires from in m && to in m
  {
    match Withdrawn(m[from], amount)
    case Err(e) => Err(e)
    case Ok(sender) =>
      var m1 := m[from := sender];
      assert Deposited(m1[to], amount).Ok?;
      var m2 := m1[to := Credit(m1[to], amount)];
      var m3 := m2[from := Note(m2[from], TransferOut(amount, m2[to].owner))];
      Ok(m3[to := Note(m3[to], TransferIn(amount, m3[from].owner))])
  }

  /** Every account of the map is well formed and is stored under its owner. */
  predicate ValidAccounts(m: map<string, AccountValue>) {
    forall k :: k in m ==> m[k].owner == k && WellFormed(m[k])
  }

  // ---------------------------------------------------------------------
  // Properties of the value-level operations
  // ---------------------------------------------------------------------

  /** A new account holds exactly its opening amount and a single OPEN entry;
      it is refused for an empty owner and for a negative opening amount. */
  lemma OpenedSpec(owner: string, opening: real)
    ensures Opened(owner, opening).Err? <==> owner == "" || opening < 0.0
    ensures owner == "" ==> Opened(owner, opening) == Err(EmptyOwner)
    ensures owner != "" && opening < 0.0 ==> Opened(owner, opening) == Err(NegativeOpening)
    ensures Opened(owner, opening).Ok? ==>
      var a := Opened(owner, opening).value;
      WellFormed(a) && a.owner == owner && a.balance == opening && a.ledger == [Open(opening)]
  {
  }

  /** A successful deposit raises the balance by the amount, appends exactly
      DEPOSIT(amount) and keeps the account well formed; it fails exactly on a
      non-positive amount. */
  lemma DepositedSpec(a: AccountValue, amount: real)
    requires WellFormed(a)
    ensures Deposited(a, amount).Err? <==> amount <= 0.0
    ensures Deposited(a, amount).Err? ==> Deposited(a, amount).error == NonPositiveAmount
    ensures Deposited(a, amount).Ok? ==>
      var b := Deposited(a, amount).value;
      && WellFormed(b) && b.owner == a.owner
      && b.balance == a.balance + amount
      && b.ledger == a.ledger + [Deposit(amount)]
  {
    if amount > 0.0 {
      BalanceSnoc(a.ledger, Deposit(amount));
    }
  }

  /** A withdrawal fails on a non-positive amount or on an amount above the
      balance; otherwise it lowers the balance by the amount, appends exactly
      WITHDRAW(amount) and the balance stays non-negative. */
  lemma WithdrawnSpec(a: AccountValue, amount: real)
    requires WellFormed(a)
    ensures Withdrawn(a, amount).Err? <==> amount <= 0.0 || amount > a.balance
    ensures amount <= 0.0 ==> Withdrawn(a, amount) == Err(NonPositiveAmount)
    ensures 0.0 < amount && amount > a.balance ==> Withdrawn(a, amount) == Err(InsufficientFunds)
    ensures Withdrawn(a, amount).Ok? ==>
      var b := Withdrawn(a, amount).value;
      && WellFormed(b) && b.owner == a.owner
      && b.balance == a.balance - amount
      && b.ledger == a.ledger + [Withdraw(amount)]
  {
    if 0.0 < amount <= a.balance {
      BalanceSnoc(a.ledger, Withdraw(amount));
    }
  }

  /** A transfer annotation leaves the balance as it is and the account well
      formed: transfers are already accounted for by WITHDRAW and DEPOSIT. */
  lemma NoteSpec(a: AccountValue, e: Entry)
    requires WellFormed(a)
    requires (e.TransferOut? || e.TransferIn?) && e.amount > 0.0
    ensures WellFormed(Note(a, e))
    ensures Balance(Note(a, e).ledger) == Balance(a.ledger)
  {
    BalanceSnoc(a.ledger, e);
  }

  /** Depositing and then withdrawing the same positive amount returns the
      balance to its prior value and adds exactly two entries. */
  lemma DepositThenWithdraw(a: AccountValue, amount: real)
    requires WellFormed(a) && amount > 0.0
    ensures Deposited(a, amount).Ok?
    ensures Withdrawn(Deposited(a, amount).value, amount).Ok?
    ensures
      var b := Withdrawn(Deposited(a, amount).value, amount).value;
      b.balance == a.balance && b.ledger == a.ledger + [Deposit(amount)] + [Withdraw(amount)]
  {
    DepositedSpec(a, amount);
  }

  /** What `transfer_to` leaves in the map when its withdrawal succeeds:
      between two accounts the sender is debited and notes TRANSFER_OUT, the
      receiver is credited and notes TRANSFER_IN; an account paying itself
      goes through all four steps. */
  lemma TransferredShape(m: map<string, AccountValue>, from: string, to: string, amount: real)
    requires from in m && to in m && m[from].owner == from && m[to].owner == to
    requires CheckWithdraw(m[from].balance, amount).Success?
    ensures from != to ==> Transferred(m, from, to, amount) == Ok(m
      [from := Note(Debit(m[from], amount), TransferOut(amount, to))]
      [to := Note(Credit(m[to], amount), TransferIn(amount, from))])
    ensures from == to ==> Transferred(m, from, to, amount) == Ok(m
      [from := Note(Note(Credit(Debit(m[from], amount), amount), TransferOut(amount, from)), TransferIn(amount, from))])
  {
    var sender := Debit(m[from], amount);
    assert Withdrawn(m[from], amount) == Ok(sender);
    var m1 := m[from := sender];
    var m2 := m1[to := Credit(m1[to], amount)];
    assert m2[to].owner == to;
    var m3 := m2[from := Note(m2[from], TransferOut(amount, to))];
    assert m3[from].owner == from;
    var r := m3[to := Note(m3[to], TransferIn(amount, from))];
    assert Transferred(m, from, to, amount) == Ok(r);
    if from != to {
      assert r == m
        [from := Note(sender, TransferOut(amount, to))]
        [to := Note(Credit(m[to], amount), TransferIn(amount, from))];
    } else {
      assert r == m
        [from := Note(Note(Credit(sender, amount), TransferOut(amount, from)), TransferIn(amount, from))];
    }
  }

  /** `transfer_to` fails exactly when its withdrawal fails, with the same
      error, and a failure leaves every account as it was (an `Err` carries no
      new state). */
  lemma TransferredFails(m: map<string, AccountValue>, from: string, to: string, amount: real)
    requires from in m && to in m
    ensures Transferred(m, from, to, amount).Err? <==> CheckWithdraw(m[from].balance, amount).Failure?
    ensures Transferred(m, from, to, amount).Err? ==>
      Transferred(m, from, to, amount).error == CheckWithdraw(m[from].balance, amount).error
  {
    if CheckWithdraw(m[from].balance, amount).Success? {
      assert Withdrawn(m[from], amount).Ok?;
    }
  }

  /** A transfer between two different accounts: the sender loses the amount
      and logs WITHDRAW then TRANSFER_OUT naming the receiver, the receiver
      gains it and logs DEPOSIT then TRANSFER_IN naming the sender, and no
      other account changes. */
  lemma TransferBetween(m: map<string, AccountValue>, from: string, to: string, amount: real)
    requires ValidAccounts(m) && from in m && to in m && from != to
    requires Transferred(m, from, to, amount).Ok?
    ensures
      var r := Transferred(m, from, to, amount).value;
      && r.Keys == m.Keys
      && (forall k :: k in m && k != from && k != to ==> r[k] == m[k])
      && r[from].balance == m[from].balance - amount
      && r[from].ledger == m[from].ledger + [Withdraw(amount)] + [TransferOut(amount, to)]
      && r[to].balance == m[to].balance + amount
      && r[to].ledger == m[to].ledger + [Deposit(amount)] + [TransferIn(amount, from)]
  {
    TransferredFails(m, from, to, amount);
    TransferredShape(m, from, to, amount);
  }

  /** An account paying itself keeps its balance and logs all four entries:
      WITHDRAW, DEPOSIT, TRANSFER_OUT and TRANSFER_IN, each naming itself. */
  lemma TransferToSelf(m: map<string, AccountValue>, owner: string, amount: real)
    requires ValidAccounts(m) && owner in m
    requires Transferred(m, owner, owner, amount).Ok?
    ensures
      var r := Transferred(m, owner, owner, amount).value;
      && r.Keys == m.Keys
      && (forall k :: k in m && k != owner ==> r[k] == m[k])
      && r[owner].balance == m[owner].balance
      && r[owner].ledger == m[owner].ledger
           + [Withdraw(amount)] + [Deposit(amount)] + [TransferOut(amount, owner)] + [TransferIn(amount, owner)]
  {
    TransferredFails(m, owner, owner, amount);
    TransferredShape(m, owner, owner, amount);
  }

  /** A transfer keeps every account well formed and stored under its owner. */
  lemma TransferredValid(m: map<string, AccountValue>, from: string, to: string, amount: real)
    requires ValidAccounts(m) && from in m && to in m
    requires Transferred(m, from, to, amount).Ok?
    ensures ValidAccounts(Transferred(m, from, to, amount).value)
  {
    TransferredFails(m, from, to, amount);
    TransferredShape(m, from, to, amount);
    var sender := Debit(m[from], amount);
    WithdrawnSpec(m[from], amount);
    if from != to {
      var out := Note(sender, TransferOut(amount, to));
      var credited := Credit(m[to], amount);
      var received := Note(credited, TransferIn(amount, from));
      NoteSpec(sender, TransferOut(amount, to));
      DepositedSpec(m[to], amount);
      NoteSpec(credited, TransferIn(amount, from));
      ValidUpdate(m, from, out);
      ValidUpdate(m[from := out], to, received);
    } else {
      DepositedSpec(sender, amount);
      var both := Credit(sender, amount);
      NoteSpec(both, TransferOut(amount, from));
      NoteSpec(Note(both, TransferOut(amount, from)), TransferIn(amount, from));
      ValidUpdate(m, from, Note(Note(both, TransferOut(amount, from)), TransferIn(amount, from)));
    }
  }

  lemma ValidUpdate(m: map<string, AccountValue>, k: string, a: AccountValue)
    requires ValidAccounts(m) && a.owner == k && WellFormed(a)
    ensures ValidAccounts(m[k := a])
  {
  }

  // ---------------------------------------------------------------------
  // BankAccount
  // ---------------------------------------------------------------------

  /** `BankAccount`: an owner fixed at construction, a cached balance, and a
      ledger the operations only ever append to. */
  class Account {
    const owner: string
    var balance: real
    var ledger: seq<Entry>

    function Value(): AccountValue
      reads this
    {
      AccountValue(owner, balance, ledger)
    }

    ghost predicate Valid()
      reads this
    {
      WellFormed(Value())
    }

    /** The successful path of `__init__`. */
    constructor (owner: string, opening: real)
      requires owner != "" && opening >= 0.0
      ensures Valid()
      ensures this.owner == owner && balance == opening && ledger == [Open(opening)]
    {
      this.owner := owner;
      balance := opening;
      ledger := [Open(opening)];
    }

    /** `__init__` with its checks: an empty owner or a negative opening
        balance is refused. */
    static method Create(owner: string, opening: real) returns (r: Result<Account>)
      ensures r.Err? <==> owner == "" || opening < 0.0
      ensures r.Err? ==> Opened(owner, opening) == Err(r.error)
      ensures r.Ok? ==> fresh(r.value) && r.value.Valid()
      ensures r.Ok? ==> Opened(owner, opening) == Ok(r.value.Value())
    {
      if owner == "" {
        return Err(EmptyOwner);
      }
      if opening < 0.0 {
        return Err(NegativeOpening);
      }
      var a := new Account(owner, opening);
      return Ok(a);
    }

    /** `deposit`: a non-positive amount fails and changes nothing; otherwise
        the balance rises by the amount and exactly DEPOSIT(amount) is logged. */
    method Deposit(amount: real) returns (s: Status)
      requires Valid()
      modifies this
      ensures Valid()
      ensures s == CheckAmount(amount)
      ensures s.Failure? ==> balance == old(balance) && ledger == old(ledger)
      ensures s.Success? ==>
        balance == old(balance) + amount && ledger == old(ledger) + [Entry.Deposit(amount)]
    {
      s := CheckAmount(amount);
      if s.Failure? {
        return;
      }
      DepositedSpec(Value(), amount);
      balance := balance + amount;
      ledger := ledger + [Entry.Deposit(amount)];
    }

    /** `withdraw`: a non-positive amount or one above the balance fails and
        changes nothing; otherwise the balance falls by the amount and exactly
        WITHDRAW(amount) is logged. */
    method Withdraw(amount: real) returns (s: Status)
      requires Valid()
      modifies this
      ensures Valid()
      ensures s == CheckWithdraw(old(balance), amount)
      ensures s.Failure? ==> balance == old(balance) && ledger == old(ledger)
      ensures s.Success? ==>
        balance == old(balance) - amount && ledger == old(ledger) + [Entry.Withdraw(amount)]
    {
      s := CheckAmount(amount);
      if s.Failure? {
        return;
      }
      if amount > balance {
        return Failure(InsufficientFunds);
      }
      WithdrawnSpec(Value(), amount);
      balance := balance - amount;
      ledger := ledger + [Entry.Withdraw(amount)];
    }

    /** `transfer_to`: withdraw from this account (whose failure leaves both
        accounts untouched), deposit into `other`, then log TRANSFER_OUT here
        and TRANSFER_IN there. `other` may be this very account. */
    method TransferTo(other: Account, amount: real) returns (s: Status)
      requires Valid() && other.Valid()
      modifies this, other
      ensures Valid() && other.Valid()
      ensures s == CheckWithdraw(old(balance), amount)
      ensures s.Failure? ==>
        && balance == old(balance) && ledger == old(ledger)
        && other.balance == old(other.balance) && other.ledger == old(other.ledger)
      ensures s.Success? && other != this ==>
        && balance == old(balance) - amount
        && ledger == old(ledger) + [Entry.Withdraw(amount)] + [TransferOut(amount, other.owner)]
        && other.balance == old(other.balance) + amount
        && other.ledger == old(other.ledger) + [Entry.Deposit(amount)] + [TransferIn(amount, owner)]
      ensures s.Success? && other == this ==>
        && balance == old(balance)
        && ledger == old(ledger)
             + [Entry.Withdraw(amount)] + [Entry.Deposit(amount)] + [TransferOut(amount, owner)] + [TransferIn(amount, owner)]
    {
      s := Withdraw(amount);
      if s.Failure? {
        return;
      }
      var d := other.Deposit(amount);
      assert d == Success;
      Annotate(other, amount);
    }

    /** The closing step of `transfer_to`: TRANSFER_OUT naming `other` is
        logged here, then TRANSFER_IN naming this owner is logged on `other`;
        no balance moves. */
    method Annotate(other: Account, amount: real)
      requires Valid() && other.Valid() && amount > 0.0
      modifies this, other
      ensures Valid() && other.Valid()
      ensures balance == old(balance) && other.balance == old(other.balance)
      ensures other != this ==>
        && ledger == old(ledger) + [TransferOut(amount, other.owner)]
        && other.ledger == old(other.ledger) + [TransferIn(amount, owner)]
      ensures other == this ==>
        ledger == old(ledger) + [TransferOut(amount, owner)] + [TransferIn(amount, owner)]
    {
      NoteSpec(Value(), TransferOut(amount, other.owner));
      ledger := ledger + [TransferOut(amount, other.owner)];
      NoteSpec(other.Value(), TransferIn(amount, owner));
      other.ledger := other.ledger + [TransferIn(amount, owner)];
    }

    /** `statement`: a copy of the whole ledger. */
    method Statement() returns (entries: seq<Entry>)
      requires Valid()
      ensures entries == ledger
      ensures |entries| >= 1 && entries[0].Open?
    {
      entries := ledger;
    }
  }

  // ---------------------------------------------------------------------
  // Maps from owner to account object
  // ---------------------------------------------------------------------

  /** Every account is stored under its own owner (as the loader builds the map). */
  predicate Keyed(accounts: map<string, Account>) {
    forall k :: k in accounts ==> accounts[k].owner == k
  }

  ghost predicate AllValid(accounts: map<string, Account>)
    reads accounts.Values
  {
    forall k :: k in accounts ==> accounts[k].Valid()
  }

  /** The values currently held by the accounts of the map. */
  function Snapshot(accounts: map<string, Account>): map<string, AccountValue>
    reads accounts.Values
  {
    map k | k in accounts :: accounts[k].Value()
  }
}
