/** The transaction applier of `src/io_csv.py` (`apply_transactions_from_csv`,
    the per-row loop). Rows arrive already split into their four columns; the
    applier replays them in order against a map from owner to account, stops
    at the first row that fails (earlier rows keep their effect), and uses the
    `auto_pairs` list to skip the TRANSFER_IN mirror of a transfer it has
    already carried out. `Step` and `Run` state the behaviour as values;
    `ApplyTransactions` is the loop over mutable accounts, proved to agree with
    `Run`. */
module Applier {
  import opened Outcomes
  import opened Bank

  /** The amount column: empty, or the number it parses to. */
  datatype AmountField = Blank | Number(value: real)

  /** One transaction row: owner, event, amount, other. */
  datatype Record = Record(owner: string, event: string, amount: AmountField, other: string)

  datatype Event = DepositEvent | WithdrawEvent | TransferOutEvent | TransferInEvent

  /** An `auto_pairs` entry: the (owner, amount, other) of a TRANSFER_IN row
      whose transfer has already been carried out. */
  datatype Pair = Pair(owner: string, amount: real, other: string)

  /** The applier's state between rows: the accounts and `auto_pairs`. */
  datatype Batch = Batch(accounts: map<string, AccountValue>, pairs: seq<Pair>)

  function UpperChar(c: char): char {
    if 'a' <= c <= 'z' then (c as int - 32) as char else c
  }

  /** `str.upper()` on the ASCII letters. */
  function Upper(s: string): string {
    seq(|s|, i requires 0 <= i < |s| => UpperChar(s[i]))
  }

  /** The event column, compared after upper-casing. */
  function ParseEvent(event: string): Option<Event> {
    var e := Upper(event);
    if e == "DEPOSIT" then Some(DepositEvent)
    else if e == "WITHDRAW" then Some(WithdrawEvent)
    else if e == "TRANSFER_OUT" then Some(TransferOutEvent)
    else if e == "TRANSFER_IN" then Some(TransferInEvent)
    else None
  }

  /** An empty amount column reads as 0. */
  function AmountOf(f: AmountField): real {
    match f
    case Blank => 0.0
    case Number(v) => v
  }

  /** A counterparty is usable when it is non-empty and loaded. */
  predicate KnownOther(accounts: map<string, AccountValue>, other: string) {
    other != "" && other in accounts
  }

  /** One row of the loop. */
  function Step(b: Batch, r: Record): (res: Result<Batch>)
    ensures res.Ok? ==> res.value.accounts.Keys == b.accounts.Keys
    ensures res.Ok? ==> b.pairs <= res.value.pairs
  {
    var amount := AmountOf(r.amount);
    if r.owner !in b.accounts then Err(UnknownAccount)
    else
      match ParseEvent(r.event)
      case None => Err(UnknownEvent)
      case Some(DepositEvent) =>
        (match Deposited(b.accounts[r.owner], amount)
         case Err(e) => Err(e)
         case Ok(a) => Ok(b.(accounts := b.accounts[r.owner := a])))
      case Some(WithdrawEvent) =>
        (match Withdrawn(b.accounts[r.owner], amount)
         case Err(e) => Err(e)
         case Ok(a) => Ok(b.(accounts := b.accounts[r.owner := a])))
      case Some(TransferOutEvent) =>
        if !KnownOther(b.accounts, r.other) then Err(InvalidCounterparty)
        else
          (match Transferred(b.accounts, r.owner, r.other, amount)
           case Err(e) => Err(e)
           case Ok(m) => Ok(Batch(m, b.pairs + [Pair(r.other, amount, r.owner)])))
      case Some(TransferInEvent) =>
        if Pair(r.owner, amount, r.other) in b.pairs then Ok(b)
        else if !KnownOther(b.accounts, r.other) then Err(InvalidCounterparty)
        else
          (match Transferred(b.accounts, r.other, r.owner, amount)
           case Err(e) => Err(e)
           case Ok(m) => Ok(Batch(m, b.pairs + [Pair(r.owner, amount, r.other)])))
  }

  /** The whole loop: the state after the rows that succeeded, and the error
      of the first row that failed, if any. */
  function Run(b: Batch, records: seq<Record>): (out: (Batch, Status))
    ensures out.0.accounts.Keys == b.accounts.Keys
    ensures b.pairs <= out.0.pairs
    decreases |records|
  {
    if records == [] then (b, Success)
    else
      match Step(b, records[0])
      case Err(e) => (b, Failure(e))
      case Ok(next) => Run(next, records[1..])
  }

  /** The state the loop starts from: the loaded accounts, no pairs yet. */
  function Start(accounts: map<string, AccountValue>): Batch {
    Batch(accounts, [])
  }

  // ---------------------------------------------------------------------
  // The loop over mutable accounts
  // ---------------------------------------------------------------------

  /** A map that agrees with `before` everywhere except at `from` and `to`
      is `before` with those two entries overwritten. */
  lemma Overwritten(before: map<string, AccountValue>, now: map<string, AccountValue>, from: string, to: string)
    requires from in before && to in before && now.Keys == before.Keys
    requires forall k :: k in before && k != from && k != to ==> now[k] == before[k]
    ensures now == before[from := now[from]][to := now[to]]
    ensures from == to ==> now == before[from := now[from]]
    ensures now[from] == before[from] && now[to] == before[to] ==> now == before
  {
    var expected := before[from := now[from]][to := now[to]];
    assert now.Keys == expected.Keys;
    forall k | k in now ensures now[k] == expected[k] {
    }
    if from == to {
      var single := before[from := now[from]];
      assert now.Keys == single.Keys;
      forall k | k in now ensures now[k] == single[k] {
      }
    }
  }

  /** `accounts[owner].deposit(amount)` seen through the map. */
  method CallDeposit(accounts: map<string, Account>, owner: string, amount: real) returns (s: Status)
    requires Keyed(accounts) && AllValid(accounts) && owner in accounts
    modifies accounts[owner]
    ensures AllValid(accounts)
    ensures Deposited(old(Snapshot(accounts))[owner], amount).Err? <==> s.Failure?
    ensures s.Failure? ==> s == Failure(Deposited(old(Snapshot(accounts))[owner], amount).error)
    ensures s.Failure? ==> Snapshot(accounts) == old(Snapshot(accounts))
    ensures s.Success? ==>
      Snapshot(accounts) == old(Snapshot(accounts))[owner := Deposited(old(Snapshot(accounts))[owner], amount).value]
  {
    ghost var before := Snapshot(accounts);
    var acct := accounts[owner];
    s := acct.Deposit(amount);
    forall k | k in accounts && k != owner
      ensures accounts[k] != acct && accounts[k].Valid() && accounts[k].Value() == before[k]
    {
    }
    ghost var now := Snapshot(accounts);
    Overwritten(before, now, owner, owner);
    if s.Success? {
      assert now[owner] == Deposited(before[owner], amount).value;
    } else {
      assert now[owner] == before[owner];
    }
  }

  /** `accounts[owner].withdraw(amount)` seen through the map. */
  method CallWithdraw(accounts: map<string, Account>, owner: string, amount: real) returns (s: Status)
    requires Keyed(accounts) && AllValid(accounts) && owner in accounts
    modifies accounts[owner]
    ensures AllValid(accounts)
    ensures Withdrawn(old(Snapshot(accounts))[owner], amount).Err? <==> s.Failure?
    ensures s.Failure? ==> s == Failure(Withdrawn(old(Snapshot(accounts))[owner], amount).error)
    ensures s.Failure? ==> Snapshot(accounts) == old(Snapshot(accounts))
    ensures s.Success? ==>
      Snapshot(accounts) == old(Snapshot(accounts))[owner := Withdrawn(old(Snapshot(accounts))[owner], amount).value]
  {
    ghost var before := Snapshot(accounts);
    var acct := accounts[owner];
    s := acct.Withdraw(amount);
    forall k | k in accounts && k != owner
      ensures accounts[k] != acct && accounts[k].Valid() && accounts[k].Value() == before[k]
    {
    }
    ghost var now := Snapshot(accounts);
    Overwritten(before, now, owner, owner);
    if s.Success? {
      assert now[owner] == Withdrawn(before[owner], amount).value;
    } else {
      assert now[owner] == before[owner];
    }
  }

  /** A map that differs from `before` exactly as `transfer_to` promises is
      the one `Transferred` computes. */
  lemma TransferredAgrees(before: map<string, AccountValue>, now: map<string, AccountValue>,
                          from: string, to: string, amount: real)
    requires from in before && to in before && before[from].owner == from && before[to].owner == to
    requires CheckWithdraw(before[from].balance, amount).Success?
    requires now.Keys == before.Keys
    requires forall k :: k in before && k != from && k != to ==> now[k] == before[k]
    requires now[from].owner == from && now[to].owner == to
    requires from != to ==>
      && now[from].balance == before[from].balance - amount
      && now[from].ledger == before[from].ledger + [Withdraw(amount)] + [TransferOut(amount, to)]
      && now[to].balance == before[to].balance + amount
      && now[to].ledger == before[to].ledger + [Deposit(amount)] + [TransferIn(amount, from)]
    requires from == to ==>
      && now[from].balance == before[from].balance
      && now[from].ledger == before[from].ledger
           + [Withdraw(amount)] + [Deposit(amount)] + [TransferOut(amount, from)] + [TransferIn(amount, from)]
    ensures Transferred(before, from, to, amount) == Ok(now)
  {
    TransferredShape(before, from, to, amount);
    if from != to {
      var after := before
        [from := Note(Debit(before[from], amount), TransferOut(amount, to))]
        [to := Note(Credit(before[to], amount), TransferIn(amount, from))];
      assert now[from] == after[from] && now[to] == after[to];
      assert now == after;
    } else {
      var after := before
        [from := Note(Note(Credit(Debit(before[from], amount), amount), TransferOut(amount, from)), TransferIn(amount, from))];
      assert now[from] == after[from];
      assert now == after;
    }
  }

  /** `accounts[from].transfer_to(accounts[to], amount)` seen through the map. */
  method CallTransfer(accounts: map<string, Account>, from: string, to: string, amount: real)
    returns (s: Status)
    requires Keyed(accounts) && AllValid(accounts) && from in accounts && to in accounts
    modifies accounts[from], accounts[to]
    ensures AllValid(accounts)
    ensures Transferred(old(Snapshot(accounts)), from, to, amount).Err? <==> s.Failure?
    ensures s.Failure? ==> s == Failure(Transferred(old(Snapshot(accounts)), from, to, amount).error)
    ensures s.Failure? ==> Snapshot(accounts) == old(Snapshot(accounts))
    ensures s.Success? ==>
      Snapshot(accounts) == Transferred(old(Snapshot(accounts)), from, to, amount).value
  {
    ghost var before := Snapshot(accounts);
    TransferredFails(before, from, to, amount);
    var sender, receiver := accounts[from], accounts[to];
    s := sender.TransferTo(receiver, amount);
    forall k | k in accounts && k != from && k != to
      ensures accounts[k] != sender && accounts[k] != receiver
      ensures accounts[k].Valid() && accounts[k].Value() == before[k]
    {
    }
    ghost var now := Snapshot(accounts);
    Overwritten(before, now, from, to);
    if s.Success? {
      assert now[from] == sender.Value() && now[to] == receiver.Value();
      TransferredAgrees(before, now, from, to, amount);
    } else {
      assert now[from] == before[from] && now[to] == before[to];
    }
  }

  /** The body of the loop for one row (lines 165-192): checks the owner,
      then the event, then applies it to the accounts and extends `auto_pairs`
      as a value-level `Step` does. A failing row changes nothing. */
  method ApplyRecord(accounts: map<string, Account>, autoPairs: seq<Pair>, r: Record, ghost before: Batch)
    returns (s: Status, pairs: seq<Pair>)
    requires Keyed(accounts) && AllValid(accounts)
    requires before == Batch(Snapshot(accounts), autoPairs)
    modifies accounts.Values
    ensures AllValid(accounts)
    ensures s.Failure? ==> Step(before, r) == Err(s.error) && Snapshot(accounts) == before.accounts
    ensures s.Success? ==> Step(before, r) == Ok(Batch(Snapshot(accounts), pairs))
  {
    pairs := autoPairs;
    var amount := AmountOf(r.amount);
    if r.owner !in accounts {
      return Failure(UnknownAccount), pairs;
    }
    match ParseEvent(r.event) {
      case None =>
        return Failure(UnknownEvent), pairs;
      case Some(DepositEvent) =>
        s := CallDeposit(accounts, r.owner, amount);
      case Some(WithdrawEvent) =>
        s := CallWithdraw(accounts, r.owner, amount);
      case Some(TransferOutEvent) =>
        if r.other == "" || r.other !in accounts {
          return Failure(InvalidCounterparty), pairs;
        }
        s := CallTransfer(accounts, r.owner, r.other, amount);
        if s.Success? {
          pairs := pairs + [Pair(r.other, amount, r.owner)];
        }
      case Some(TransferInEvent) =>
        if Pair(r.owner, amount, r.other) in pairs {
          return Success, pairs;
        }
        if r.other == "" || r.other !in accounts {
          return Failure(InvalidCounterparty), pairs;
        }
        s := CallTransfer(accounts, r.other, r.owner, amount);
        if s.Success? {
          pairs := pairs + [Pair(r.owner, amount, r.other)];
        }
    }
  }

  /** `apply_transactions_from_csv`, from the point where the rows have been
      read: each row is checked and applied in turn, the first failing row
      ends the run with its error, and the accounts keep every change made
      before it. */
  method ApplyTransactions(records: seq<Record>, accounts: map<string, Account>) returns (s: Status)
    requires Keyed(accounts) && AllValid(accounts)
    modifies accounts.Values
    ensures AllValid(accounts)
    ensures s == Run(Start(old(Snapshot(accounts))), records).1
    ensures Snapshot(accounts) == Run(Start(old(Snapshot(accounts))), records).0.accounts
  {
    ghost var expected := Run(Start(Snapshot(accounts)), records);
    var autoPairs: seq<Pair> := [];
    var i := 0;
    while i < |records|
      invariant 0 <= i <= |records|
      invariant AllValid(accounts)
      invariant expected == Run(Batch(Snapshot(accounts), autoPairs), records[i..])
    {
      var st;
      st, autoPairs := ApplyNext(accounts, autoPairs, records, i);
      if st.Failure? {
        return st;
      }
      i := i + 1;
    }
    assert records[i..] == [];
    s := Success;
  }

  /** Row i of the loop, stated against the run of the rows from i on: a
      failure ends that run with its error and no change, a success leaves
      the state from which the run of the remaining rows continues. */
  method ApplyNext(accounts: map<string, Account>, autoPairs: seq<Pair>, records: seq<Record>, i: nat)
    returns (s: Status, pairs: seq<Pair>)
    requires Keyed(accounts) && AllValid(accounts) && i < |records|
    modifies accounts.Values
    ensures AllValid(accounts)
    ensures s.Failure? ==> Snapshot(accounts) == old(Snapshot(accounts))
    ensures s.Failure? ==>
      Run(Batch(old(Snapshot(accounts)), autoPairs), records[i..]) == (Batch(Snapshot(accounts), autoPairs), s)
    ensures s.Success? ==>
      Run(Batch(old(Snapshot(accounts)), autoPairs), records[i..]) == Run(Batch(Snapshot(accounts), pairs), records[i + 1..])
  {
    ghost var current := Batch(Snapshot(accounts), autoPairs);
    RunFrom(current, records, i);
    s, pairs := ApplyRecord(accounts, autoPairs, records[i], current);
  }

  /** Running the rows from position i is one step and then the rest. */
  lemma RunFrom(b: Batch, records: seq<Record>, i: nat)
    requires i < |records|
    ensures Step(b, records[i]).Err? ==> Run(b, records[i..]) == (b, Failure(Step(b, records[i]).error))
    ensures Step(b, records[i]).Ok? ==> Run(b, records[i..]) == Run(Step(b, records[i]).value, records[i + 1..])
  {
    assert records[i..][0] == records[i] && records[i..][1..] == records[i + 1..];
  }

  // ---------------------------------------------------------------------
  // Properties of the replay
  // ---------------------------------------------------------------------

  /** Rows spelled as the exporter writes them. */
  function DepositRow(owner: string, amount: real): Record {
    Record(owner, "DEPOSIT", Number(amount), "")
  }

  function WithdrawRow(owner: string, amount: real): Record {
    Record(owner, "WITHDRAW", Number(amount), "")
  }

  function OutRow(owner: string, amount: real, other: string): Record {
    Record(owner, "TRANSFER_OUT", Number(amount), other)
  }

  function InRow(owner: string, amount: real, other: string): Record {
    Record(owner, "TRANSFER_IN", Number(amount), other)
  }

  lemma UpperIdempotent(s: string)
    ensures Upper(Upper(s)) == Upper(s)
  {
    assert forall i :: 0 <= i < |s| ==> UpperChar(UpperChar(s[i])) == UpperChar(s[i]);
  }

  lemma UpperKeeps(s: string)
    requires forall i :: 0 <= i < |s| ==> !('a' <= s[i] <= 'z')
    ensures Upper(s) == s
  {
  }

  /** The event column is read without regard to case. */
  lemma ParseEventIgnoresCase(event: string)
    ensures ParseEvent(event) == ParseEvent(Upper(event))
  {
    UpperIdempotent(event);
  }

  /** The four upper-case spellings name the four kinds. */
  lemma ParseEventNames()
    ensures ParseEvent("DEPOSIT") == Some(DepositEvent)
    ensures ParseEvent("WITHDRAW") == Some(WithdrawEvent)
    ensures ParseEvent("TRANSFER_OUT") == Some(TransferOutEvent)
    ensures ParseEvent("TRANSFER_IN") == Some(TransferInEvent)
  {
    UpperKeeps("DEPOSIT");
    UpperKeeps("WITHDRAW");
    UpperKeeps("TRANSFER_OUT");
    UpperKeeps("TRANSFER_IN");
  }

  /** Records are applied strictly in order: running `first + rest` runs
      `first`, and only if every row of it succeeded goes on with `rest` from
      the state it left. */
  lemma {:induction false} RunConcat(b: Batch, first: seq<Record>, rest: seq<Record>)
    ensures Run(b, first + rest)
         == (if Run(b, first).1.Failure? then Run(b, first) else Run(Run(b, first).0, rest))
    decreases |first|
  {
    if first == [] {
      assert first + rest == rest;
    } else {
      assert (first + rest)[0] == first[0];
      assert (first + rest)[1..] == first[1..] + rest;
      match Step(b, first[0])
      case Err(_) =>
      case Ok(next) => RunConcat(next, first[1..], rest);
    }
  }

  /** The run stops at the first failing row: with the rows before row `i`
      all succeeding and row `i` failing, the result is that row's error
      together with the state the earlier rows left (there is no rollback),
      whatever comes after. */
  lemma RunStopsAtFirstFailure(b: Batch, records: seq<Record>, i: nat)
    requires i < |records|
    requires Run(b, records[..i]).1.Success?
    requires Step(Run(b, records[..i]).0, records[i]).Err?
    ensures Run(b, records)
         == (Run(b, records[..i]).0, Failure(Step(Run(b, records[..i]).0, records[i]).error))
  {
    assert records == records[..i] + records[i..];
    RunConcat(b, records[..i], records[i..]);
    assert records[i..][0] == records[i];
  }

  /** A row whose owner is not loaded fails as an unknown account, before its
      event is even looked at, and the run ends there with nothing touched. */
  lemma UnknownOwnerStops(b: Batch, r: Record, rest: seq<Record>)
    requires r.owner !in b.accounts
    ensures Step(b, r) == Err(UnknownAccount)
    ensures Run(b, [r] + rest) == (b, Failure(UnknownAccount))
  {
    assert ([r] + rest)[0] == r;
  }

  /** A known owner with an event other than the four kinds fails as an
      unknown event and changes nothing. */
  lemma UnknownEventFails(b: Batch, r: Record)
    requires r.owner in b.accounts && ParseEvent(r.event) == None
    ensures Step(b, r) == Err(UnknownEvent)
  {
  }

  /** An empty amount reads as 0, which every event then refuses in amount
      validation, provided a transfer row names a usable counterparty (else
      InvalidCounterparty comes first) and a TRANSFER_IN is not skipped. */
  lemma BlankAmountRefused(b: Batch, r: Record)
    requires r.owner in b.accounts && r.amount == Blank
    requires ParseEvent(r.event).Some?
    requires ParseEvent(r.event) == Some(TransferOutEvent) ==> KnownOther(b.accounts, r.other)
    requires ParseEvent(r.event) == Some(TransferInEvent) ==> KnownOther(b.accounts, r.other)
    requires ParseEvent(r.event) == Some(TransferInEvent) ==> Pair(r.owner, 0.0, r.other) !in b.pairs
    ensures Step(b, r) == Err(NonPositiveAmount)
  {
    if ParseEvent(r.event) == Some(TransferOutEvent) {
      TransferredFails(b.accounts, r.owner, r.other, 0.0);
    } else if ParseEvent(r.event) == Some(TransferInEvent) {
      TransferredFails(b.accounts, r.other, r.owner, 0.0);
    }
  }

  /** DEPOSIT and WITHDRAW hand their amount to the account operation:
      the row fails exactly when that operation does, and otherwise only the
      owner's account changes, in the way the operation says. */
  lemma DepositWithdrawRows(b: Batch, r: Record)
    requires r.owner in b.accounts
    requires ParseEvent(r.event) == Some(DepositEvent) || ParseEvent(r.event) == Some(WithdrawEvent)
    ensures
      var op := if ParseEvent(r.event) == Some(DepositEvent)
                then Deposited(b.accounts[r.owner], AmountOf(r.amount))
                else Withdrawn(b.accounts[r.owner], AmountOf(r.amount));
      && (op.Err? ==> Step(b, r) == Err(op.error))
      && (op.Ok? ==> Step(b, r) == Ok(Batch(b.accounts[r.owner := op.value], b.pairs)))
  {
  }

  /** A TRANSFER_OUT row needs a non-empty, loaded `other`; it then performs
      exactly one owner-to-other transfer and records the triple
      (other, amount, owner) that its mirror row would carry. */
  lemma TransferOutRow(b: Batch, r: Record)
    requires r.owner in b.accounts && ParseEvent(r.event) == Some(TransferOutEvent)
    ensures !KnownOther(b.accounts, r.other) ==> Step(b, r) == Err(InvalidCounterparty)
    ensures KnownOther(b.accounts, r.other) ==>
      var t := Transferred(b.accounts, r.owner, r.other, AmountOf(r.amount));
      && (t.Err? ==> Step(b, r) == Err(t.error))
      && (t.Ok? ==> Step(b, r) == Ok(Batch(t.value, b.pairs + [Pair(r.other, AmountOf(r.amount), r.owner)])))
  {
  }

  /** A TRANSFER_IN row whose (owner, amount, other) is already recorded is
      skipped, before `other` is even checked. Otherwise it needs a non-empty,
      loaded `other`, performs exactly one other-to-owner transfer and records
      its own triple. */
  lemma TransferInRow(b: Batch, r: Record)
    requires r.owner in b.accounts && ParseEvent(r.event) == Some(TransferInEvent)
    ensures Pair(r.owner, AmountOf(r.amount), r.other) in b.pairs ==> Step(b, r) == Ok(b)
    ensures Pair(r.owner, AmountOf(r.amount), r.other) !in b.pairs && !KnownOther(b.accounts, r.other) ==>
      Step(b, r) == Err(InvalidCounterparty)
    ensures Pair(r.owner, AmountOf(r.amount), r.other) !in b.pairs && KnownOther(b.accounts, r.other) ==>
      var t := Transferred(b.accounts, r.other, r.owner, AmountOf(r.amount));
      && (t.Err? ==> Step(b, r) == Err(t.error))
      && (t.Ok? ==> Step(b, r) == Ok(Batch(t.value, b.pairs + [Pair(r.owner, AmountOf(r.amount), r.other)])))
  {
  }

  /** Every row that succeeds keeps all accounts well formed and keyed by owner. */
  lemma StepPreservesValid(b: Batch, r: Record)
    requires ValidAccounts(b.accounts)
    requires Step(b, r).Ok?
    ensures ValidAccounts(Step(b, r).value.accounts)
  {
    var amount := AmountOf(r.amount);
    var m := b.accounts;
    match ParseEvent(r.event)
    case Some(DepositEvent) =>
      DepositedSpec(m[r.owner], amount);
    case Some(WithdrawEvent) =>
      WithdrawnSpec(m[r.owner], amount);
    case Some(TransferOutEvent) =>
      TransferredValid(m, r.owner, r.other, amount);
    case Some(TransferInEvent) =>
      if Pair(r.owner, amount, r.other) !in b.pairs {
        TransferredValid(m, r.other, r.owner, amount);
      }
  }

  /** Whatever the rows, a run keeps every account well formed (in particular
      no balance becomes negative), and no account appears or disappears. */
  lemma {:induction false} RunPreservesValid(b: Batch, records: seq<Record>)
    requires ValidAccounts(b.accounts)
    ensures ValidAccounts(Run(b, records).0.accounts)
    ensures Run(b, records).0.accounts.Keys == b.accounts.Keys
    decreases |records|
  {
    if records != [] {
      match Step(b, records[0])
      case Err(_) =>
      case Ok(next) =>
        StepPreservesValid(b, records[0]);
        RunPreservesValid(next, records[1..]);
    }
  }

  lemma RunTwo(b: Batch, first: Record, second: Record)
    requires Step(b, first).Ok? && Step(Step(b, first).value, second).Ok?
    ensures Run(b, [first, second]) == (Step(Step(b, first).value, second).value, Success)
  {
    var mid := Step(b, first).value;
    assert [first, second][0] == first && [first, second][1..] == [second];
    assert Run(b, [first, second]) == Run(mid, [second]);
    assert [second][1..] == [];
    assert Run(mid, [second]) == Run(Step(mid, second).value, []);
  }

  /** A transfer row followed by its mirror: TRANSFER_OUT owner->other and
      then TRANSFER_IN at other naming owner, with the same amount. The
      transfer is carried out once; the mirror row is skipped. */
  lemma MirrorAfterTransferOutSkipped(b: Batch, from: string, to: string, amount: real)
    requires ValidAccounts(b.accounts) && from in b.accounts && to in b.accounts
    requires Transferred(b.accounts, from, to, amount).Ok?
    ensures Run(b, [OutRow(from, amount, to), InRow(to, amount, from)])
         == (Batch(Transferred(b.accounts, from, to, amount).value, b.pairs + [Pair(to, amount, from)]), Success)
  {
    ParseEventNames();
    var out, mirror := OutRow(from, amount, to), InRow(to, amount, from);
    assert KnownOther(b.accounts, to);
    TransferOutRow(b, out);
    var after := Step(b, out).value;
    assert Pair(to, amount, from) in after.pairs;
    TransferInRow(after, mirror);
    RunTwo(b, out, mirror);
  }

  /** Finding, as written: only TRANSFER_IN rows consult `auto_pairs`. When
      the mirror row comes first it carries out the transfer and records the
      triple, and the TRANSFER_OUT row after it transfers the amount a second
      time: the sender pays twice. */
  lemma MirrorBeforeTransferOutAppliedTwice(b: Batch, from: string, to: string, amount: real)
    requires ValidAccounts(b.accounts) && from in b.accounts && to in b.accounts && from != to
    requires Pair(to, amount, from) !in b.pairs
    requires 0.0 < amount && 2.0 * amount <= b.accounts[from].balance
    ensures Run(b, [InRow(to, amount, from), OutRow(from, amount, to)]).1 == Success
    ensures Run(b, [InRow(to, amount, from), OutRow(from, amount, to)]).0.accounts[from].balance
         == b.accounts[from].balance - 2.0 * amount
    ensures Run(b, [InRow(to, amount, from), OutRow(from, amount, to)]).0.accounts[to].balance
         == b.accounts[to].balance + 2.0 * amount
  {
    ParseEventNames();
    var mirror, out := InRow(to, amount, from), OutRow(from, amount, to);
    assert KnownOther(b.accounts, from);
    TransferredFails(b.accounts, from, to, amount);
    TransferInRow(b, mirror);
    TransferBetween(b.accounts, from, to, amount);
    TransferredValid(b.accounts, from, to, amount);
    var mid := Step(b, mirror).value;
    assert KnownOther(mid.accounts, to);
    TransferredFails(mid.accounts, from, to, amount);
    TransferOutRow(mid, out);
    TransferBetween(mid.accounts, from, to, amount);
    RunTwo(b, mirror, out);
  }

  /** Finding, as written: `auto_pairs` is never pruned. Once one TRANSFER_IN
      row has been carried out, a second row with the same owner, amount and
      other is taken for its mirror and skipped, although it stands for a
      transfer of its own: the receiver is credited once, not twice. */
  lemma RepeatedTransferInSkipped(b: Batch, from: string, to: string, amount: real)
    requires ValidAccounts(b.accounts) && from in b.accounts && to in b.accounts && from != to
    requires Pair(to, amount, from) !in b.pairs
    requires 0.0 < amount && 2.0 * amount <= b.accounts[from].balance
    ensures Run(b, [InRow(to, amount, from), InRow(to, amount, from)]).1 == Success
    ensures Run(b, [InRow(to, amount, from), InRow(to, amount, from)]).0.accounts[from].balance
         == b.accounts[from].balance - amount
    ensures Run(b, [InRow(to, amount, from), InRow(to, amount, from)]).0.accounts[to].balance
         == b.accounts[to].balance + amount
  {
    ParseEventNames();
    var mirror := InRow(to, amount, from);
    assert KnownOther(b.accounts, from);
    TransferredFails(b.accounts, from, to, amount);
    TransferInRow(b, mirror);
    TransferBetween(b.accounts, from, to, amount);
    var mid := Step(b, mirror).value;
    assert Pair(to, amount, from) in mid.pairs;
    TransferInRow(mid, mirror);
    RunTwo(b, mirror, mirror);
  }
}
