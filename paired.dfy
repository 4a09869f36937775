/** The transaction loop with mirror rows matched as evidently intended: a
    TRANSFER_OUT row and its mirror TRANSFER_IN row describe one transfer,
    which must be carried out once whichever of the two rows comes first,
    while a second, independent transfer with the same parties and amount is
    carried out again.

    Each transfer that has been carried out waits for exactly one mirror row:
    the transfers started by a TRANSFER_OUT row wait in `awaitingIn`, those
    started by a TRANSFER_IN row wait in `awaitingOut`. A mirror row consumes
    one waiting copy. Rows other than transfers are handled by the original
    step. */
module PairedApplier {
  import opened Outcomes
  import opened Bank
  import opened Applier

  /** A transfer seen from both ends: who paid, who received, how much. */
  datatype Transfer = Transfer(sender: string, receiver: string, amount: real)

  datatype Pending = Pending(
    accounts: map<string, AccountValue>,
    awaitingIn: multiset<Transfer>,
    awaitingOut: multiset<Transfer>)

  /** One row. A TRANSFER_OUT row checks its counterparty first, as the
      original does; a TRANSFER_IN row first looks for the transfer it
      mirrors, as the original does. */
  function PairedStep(p: Pending, r: Record): (res: Result<Pending>)
    ensures res.Ok? ==> res.value.accounts.Keys == p.accounts.Keys
  {
    var amount := AmountOf(r.amount);
    if r.owner !in p.accounts then Err(UnknownAccount)
    else
      match ParseEvent(r.event)
      case Some(TransferOutEvent) =>
        var t := Transfer(r.owner, r.other, amount);
        if !KnownOther(p.accounts, r.other) then Err(InvalidCounterparty)
        else if t in p.awaitingOut then Ok(p.(awaitingOut := p.awaitingOut - multiset{t}))
        else
          (match Transferred(p.accounts, r.owner, r.other, amount)
           case Err(e) => Err(e)
           case Ok(m) => Ok(Pending(m, p.awaitingIn + multiset{t}, p.awaitingOut)))
      case Some(TransferInEvent) =>
        var t := Transfer(r.other, r.owner, amount);
        if t in p.awaitingIn then Ok(p.(awaitingIn := p.awaitingIn - multiset{t}))
        else if !KnownOther(p.accounts, r.other) then Err(InvalidCounterparty)
        else
          (match Transferred(p.accounts, r.other, r.owner, amount)
           case Err(e) => Err(e)
           case Ok(m) => Ok(Pending(m, p.awaitingIn, p.awaitingOut + multiset{t})))
      case _ =>
        (match Step(Start(p.accounts), r)
         case Err(e) => Err(e)
         case Ok(next) => Ok(p.(accounts := next.accounts)))
  }

  /** All rows in order, stopping at the first failing one. */
  function PairedRun(p: Pending, records: seq<Record>): (out: (Pending, Status))
    ensures out.0.accounts.Keys == p.accounts.Keys
    decreases |records|
  {
    if records == [] then (p, Success)
    else
      match PairedStep(p, records[0])
      case Err(e) => (p, Failure(e))
      case Ok(next) => PairedRun(next, records[1..])
  }

  // ---------------------------------------------------------------------------
  // Lemmas
  // ---------------------------------------------------------------------------

  /** Rows that are not transfers behave exactly as in the original loop. */
  lemma PairedStepAgreesOffTransfers(p: Pending, pairs: seq<Pair>, r: Record)
    requires ParseEvent(r.event) != Some(TransferOutEvent)
    requires ParseEvent(r.event) != Some(TransferInEvent)
    ensures PairedStep(p, r).Ok? <==> Step(Batch(p.accounts, pairs), r).Ok?
    ensures Step(Batch(p.accounts, pairs), r).Err? ==>
      PairedStep(p, r) == Err(Step(Batch(p.accounts, pairs), r).error)
    ensures Step(Batch(p.accounts, pairs), r).Ok? ==>
      PairedStep(p, r) == Ok(p.(accounts := Step(Batch(p.accounts, pairs), r).value.accounts))
  {
  }

  /** Every row that succeeds keeps all accounts well formed and keyed by owner. */
  lemma PairedStepPreservesValid(p: Pending, r: Record)
    requires ValidAccounts(p.accounts)
    requires PairedStep(p, r).Ok?
    ensures ValidAccounts(PairedStep(p, r).value.accounts)
  {
    var amount := AmountOf(r.amount);
    match ParseEvent(r.event)
    case Some(TransferOutEvent) =>
      if Transfer(r.owner, r.other, amount) !in p.awaitingOut {
        TransferredValid(p.accounts, r.owner, r.other, amount);
      }
    case Some(TransferInEvent) =>
      if Transfer(r.other, r.owner, amount) !in p.awaitingIn {
        TransferredValid(p.accounts, r.other, r.owner, amount);
      }
    case _ =>
      StepPreservesValid(Start(p.accounts), r);
  }

  lemma {:induction false} PairedRunPreservesValid(p: Pending, records: seq<Record>)
    requires ValidAccounts(p.accounts)
    ensures ValidAccounts(PairedRun(p, records).0.accounts)
    decreases |records|
  {
    if records != [] {
      match PairedStep(p, records[0])
      case Err(_) =>
      case Ok(next) =>
        PairedStepPreservesValid(p, records[0]);
        PairedRunPreservesValid(next, records[1..]);
    }
  }

  lemma PairedRunTwo(p: Pending, first: Record, second: Record)
    requires PairedStep(p, first).Ok? && PairedStep(PairedStep(p, first).value, second).Ok?
    ensures PairedRun(p, [first, second])
         == (PairedStep(PairedStep(p, first).value, second).value, Success)
  {
    var mid := PairedStep(p, first).value;
    assert [first, second][0] == first && [first, second][1..] == [second];
    assert PairedRun(p, [first, second]) == PairedRun(mid, [second]);
    assert [second][1..] == [];
    assert PairedRun(mid, [second]) == PairedRun(PairedStep(mid, second).value, []);
  }

  /** A TRANSFER_OUT row with a usable counterparty either consumes the
      transfer its mirror started or starts that transfer and waits for its
      mirror. */
  lemma PairedOutRow(p: Pending, r: Record)
    requires r.owner in p.accounts && ParseEvent(r.event) == Some(TransferOutEvent)
    requires KnownOther(p.accounts, r.other)
    ensures
      var t := Transfer(r.owner, r.other, AmountOf(r.amount));
      var x := Transferred(p.accounts, r.owner, r.other, AmountOf(r.amount));
      && (t in p.awaitingOut ==> PairedStep(p, r) == Ok(p.(awaitingOut := p.awaitingOut - multiset{t})))
      && (t !in p.awaitingOut && x.Err? ==> PairedStep(p, r) == Err(x.error))
      && (t !in p.awaitingOut && x.Ok? ==>
            PairedStep(p, r) == Ok(Pending(x.value, p.awaitingIn + multiset{t}, p.awaitingOut)))
  {
  }

  /** The same for a TRANSFER_IN row, which looks for its mirror before it
      checks the counterparty. */
  lemma PairedInRow(p: Pending, r: Record)
    requires r.owner in p.accounts && ParseEvent(r.event) == Some(TransferInEvent)
    ensures
      var t := Transfer(r.other, r.owner, AmountOf(r.amount));
      && (t in p.awaitingIn ==> PairedStep(p, r) == Ok(p.(awaitingIn := p.awaitingIn - multiset{t})))
      && (t !in p.awaitingIn && !KnownOther(p.accounts, r.other) ==> PairedStep(p, r) == Err(InvalidCounterparty))
      && (t !in p.awaitingIn && KnownOther(p.accounts, r.other) ==>
            var x := Transferred(p.accounts, r.other, r.owner, AmountOf(r.amount));
            && (x.Err? ==> PairedStep(p, r) == Err(x.error))
            && (x.Ok? ==> PairedStep(p, r) == Ok(Pending(x.value, p.awaitingIn, p.awaitingOut + multiset{t}))))
  {
  }

  /** Corrected, TRANSFER_OUT first: the transfer is carried out once and
      nothing is left waiting that was not waiting before. */
  lemma MirrorAfterOut(p: Pending, from: string, to: string, amount: real)
    requires ValidAccounts(p.accounts) && from in p.accounts && to in p.accounts
    requires Transfer(from, to, amount) !in p.awaitingOut
    requires Transferred(p.accounts, from, to, amount).Ok?
    ensures PairedRun(p, [OutRow(from, amount, to), InRow(to, amount, from)])
         == (p.(accounts := Transferred(p.accounts, from, to, amount).value), Success)
  {
    ParseEventNames();
    var t := Transfer(from, to, amount);
    var out, mirror := OutRow(from, amount, to), InRow(to, amount, from);
    assert KnownOther(p.accounts, to);
    PairedOutRow(p, out);
    var mid := PairedStep(p, out).value;
    assert t in mid.awaitingIn;
    assert mid.awaitingIn - multiset{t} == p.awaitingIn;
    PairedInRow(mid, mirror);
    PairedRunTwo(p, out, mirror);
  }

  /** Corrected, TRANSFER_IN first: the same outcome. */
  lemma MirrorBeforeOut(p: Pending, from: string, to: string, amount: real)
    requires ValidAccounts(p.accounts) && from in p.accounts && to in p.accounts
    requires Transfer(from, to, amount) !in p.awaitingIn
    requires Transferred(p.accounts, from, to, amount).Ok?
    ensures PairedRun(p, [InRow(to, amount, from), OutRow(from, amount, to)])
         == (p.(accounts := Transferred(p.accounts, from, to, amount).value), Success)
  {
    ParseEventNames();
    var t := Transfer(from, to, amount);
    var out, mirror := OutRow(from, amount, to), InRow(to, amount, from);
    assert KnownOther(p.accounts, from);
    PairedInRow(p, mirror);
    var mid := PairedStep(p, mirror).value;
    assert t in mid.awaitingOut;
    assert mid.awaitingOut - multiset{t} == p.awaitingOut;
    assert KnownOther(mid.accounts, to);
    PairedOutRow(mid, out);
    PairedRunTwo(p, mirror, out);
  }

  /** Corrected: a transfer and its mirror row, in either order, end in the
      same state. */
  lemma MirrorOrderIrrelevant(p: Pending, from: string, to: string, amount: real)
    requires ValidAccounts(p.accounts) && from in p.accounts && to in p.accounts
    requires Transfer(from, to, amount) !in p.awaitingIn
    requires Transfer(from, to, amount) !in p.awaitingOut
    requires Transferred(p.accounts, from, to, amount).Ok?
    ensures PairedRun(p, [OutRow(from, amount, to), InRow(to, amount, from)])
         == PairedRun(p, [InRow(to, amount, from), OutRow(from, amount, to)])
  {
    MirrorAfterOut(p, from, to, amount);
    MirrorBeforeOut(p, from, to, amount);
  }

  /** Corrected: two TRANSFER_IN rows with the same owner, amount and other,
      neither of them a mirror, are two transfers. */
  lemma RepeatedTransferInApplied(p: Pending, from: string, to: string, amount: real)
    requires ValidAccounts(p.accounts) && from in p.accounts && to in p.accounts && from != to
    requires Transfer(from, to, amount) !in p.awaitingIn
    requires 0.0 < amount && 2.0 * amount <= p.accounts[from].balance
    ensures PairedRun(p, [InRow(to, amount, from), InRow(to, amount, from)]).1 == Success
    ensures PairedRun(p, [InRow(to, amount, from), InRow(to, amount, from)]).0.accounts[from].balance
         == p.accounts[from].balance - 2.0 * amount
    ensures PairedRun(p, [InRow(to, amount, from), InRow(to, amount, from)]).0.accounts[to].balance
         == p.accounts[to].balance + 2.0 * amount
  {
    ParseEventNames();
    var mirror := InRow(to, amount, from);
    assert KnownOther(p.accounts, from);
    TransferredFails(p.accounts, from, to, amount);
    TransferBetween(p.accounts, from, to, amount);
    TransferredValid(p.accounts, from, to, amount);
    PairedInRow(p, mirror);
    var mid := PairedStep(p, mirror).value;
    assert mid.awaitingIn == p.awaitingIn;
    assert mid.accounts == Transferred(p.accounts, from, to, amount).value;
    TransferredFails(mid.accounts, from, to, amount);
    TransferBetween(mid.accounts, from, to, amount);
    PairedInRow(mid, mirror);
    PairedRunTwo(p, mirror, mirror);
  }

  /** Where the original gets it right, in the order TRANSFER_OUT then its
      mirror, both loops end with the same accounts. */
  lemma AgreesWhenOutComesFirst(b: Batch, p: Pending, from: string, to: string, amount: real)
    requires b.accounts == p.accounts
    requires ValidAccounts(p.accounts) && from in p.accounts && to in p.accounts
    requires Transfer(from, to, amount) !in p.awaitingIn
    requires Transfer(from, to, amount) !in p.awaitingOut
    requires Transferred(p.accounts, from, to, amount).Ok?
    ensures Run(b, [OutRow(from, amount, to), InRow(to, amount, from)]).1
         == PairedRun(p, [OutRow(from, amount, to), InRow(to, amount, from)]).1 == Success
    ensures Run(b, [OutRow(from, amount, to), InRow(to, amount, from)]).0.accounts
         == PairedRun(p, [OutRow(from, amount, to), InRow(to, amount, from)]).0.accounts
  {
    MirrorAfterTransferOutSkipped(b, from, to, amount);
    MirrorAfterOut(p, from, to, amount);
  }
}
