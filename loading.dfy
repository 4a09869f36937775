/** Building the owner-to-account map from the rows of an accounts file.
    Rows are taken in order; each must name a non-empty owner not seen
    before, with an opening balance an account accepts. The first row that
    fails stops the load. */
module Loading {
  import opened Outcomes
  import opened Bank

  /** One accounts row after trimming: an owner and its opening balance. */
  datatype OwnerRow = OwnerRow(owner: string, opening: real)

  /** One row against the accounts loaded so far. The loader's own checks
      come first; the account's own check on the opening balance last. */
  function LoadStep(m: map<string, AccountValue>, row: OwnerRow): (r: Result<map<string, AccountValue>>)
  {
    if row.owner == "" then Err(EmptyOwnerRow)
    else if row.owner in m then Err(DuplicateOwner)
    else
      match Opened(row.owner, row.opening)
      case Err(e) => Err(e)
      case Ok(a) => Ok(m[row.owner := a])
  }

  function LoadFrom(m: map<string, AccountValue>, rows: seq<OwnerRow>): (r: Result<map<string, AccountValue>>)
    ensures r.Ok? ==> m.Keys <= r.value.Keys
    decreases |rows|
  {
    if rows == [] then Ok(m)
    else
      match LoadStep(m, rows[0])
      case Err(e) => Err(e)
      case Ok(next) => LoadFrom(next, rows[1..])
  }

  /** The accounts a whole file yields, or the error of its first bad row. */
  function Loaded(rows: seq<OwnerRow>): (r: Result<map<string, AccountValue>>)
  {
    LoadFrom(map[], rows)
  }

  // ---------------------------------------------------------------------
  // A reference description of the rows a load accepts
  // ---------------------------------------------------------------------

  function Owners(rows: seq<OwnerRow>): set<string> {
    set r | r in rows :: r.owner
  }

  /** What is wrong with `row` when it follows `earlier`, checked in the
      loader's order; None when it is acceptable. */
  function RowError(earlier: seq<OwnerRow>, row: OwnerRow): Option<Error> {
    if row.owner == "" then Some(EmptyOwnerRow)
    else if row.owner in Owners(earlier) then Some(DuplicateOwner)
    else if row.opening < 0.0 then Some(NegativeOpening)
    else None
  }

  predicate Acceptable(rows: seq<OwnerRow>) {
    forall i :: 0 <= i < |rows| ==> RowError(rows[..i], rows[i]) == None
  }

  /** The account a single accepted row opens. */
  function NewAccount(row: OwnerRow): AccountValue {
    AccountValue(row.owner, row.opening, [Open(row.opening)])
  }

  // ---------------------------------------------------------------------
  // The loop over mutable accounts
  // ---------------------------------------------------------------------

  /** One row: `accounts[owner] = BankAccount(owner, opening_balance)` after
      the loader's checks. */
  method OpenInto(accounts: map<string, Account>, row: OwnerRow) returns (r: Result<map<string, Account>>)
    requires Keyed(accounts) && AllValid(accounts)
    ensures r.Err? <==> LoadStep(Snapshot(accounts), row).Err?
    ensures r.Err? ==> r.error == LoadStep(Snapshot(accounts), row).error
    ensures r.Ok? ==> LoadStep(Snapshot(accounts), row) == Ok(Snapshot(r.value))
    ensures r.Ok? ==> Keyed(r.value) && AllValid(r.value)
    ensures r.Ok? ==> forall k :: k in r.value ==> (k in accounts && r.value[k] == accounts[k]) || fresh(r.value[k])
  {
    if row.owner == "" {
      return Err(EmptyOwnerRow);
    }
    if row.owner in accounts {
      return Err(DuplicateOwner);
    }
    var created := Account.Create(row.owner, row.opening);
    if created.Err? {
      return Err(created.error);
    }
    var next := accounts[row.owner := created.value];
    assert Snapshot(next) == Snapshot(accounts)[row.owner := created.value.Value()];
    return Ok(next);
  }

  /** Loads the rows into a map of newly created accounts. */
  method LoadAccounts(rows: seq<OwnerRow>) returns (r: Result<map<string, Account>>)
    ensures r.Err? <==> Loaded(rows).Err?
    ensures r.Err? ==> r.error == Loaded(rows).error
    ensures r.Ok? ==> Keyed(r.value) && AllValid(r.value)
    ensures r.Ok? ==> Snapshot(r.value) == Loaded(rows).value
    ensures r.Ok? ==> forall k :: k in r.value ==> fresh(r.value[k])
  {
    var accounts: map<string, Account> := map[];
    var i := 0;
    while i < |rows|
      invariant 0 <= i <= |rows|
      invariant Loaded(rows[..i]) == Ok(Snapshot(accounts))
      invariant Keyed(accounts) && AllValid(accounts)
      invariant forall k :: k in accounts ==> fresh(accounts[k])
    {
      var step := LoadNext(accounts, rows, i);
      if step.Err? {
        return Err(step.error);
      }
      accounts := step.value;
      i := i + 1;
    }
    assert rows[..i] == rows;
    return Ok(accounts);
  }

  /** Row i of the loop, stated against the load of the whole file: a
      failure is the whole file's error, a success extends the accounts of
      the first i rows to those of the first i + 1. */
  method LoadNext(accounts: map<string, Account>, rows: seq<OwnerRow>, i: nat) returns (r: Result<map<string, Account>>)
    requires i < |rows| && Loaded(rows[..i]) == Ok(Snapshot(accounts))
    requires Keyed(accounts) && AllValid(accounts)
    ensures r.Err? ==> Loaded(rows) == Err(r.error)
    ensures r.Ok? ==> Loaded(rows[..i + 1]) == Ok(Snapshot(r.value))
    ensures r.Ok? ==> Keyed(r.value) && AllValid(r.value)
    ensures r.Ok? ==> forall k :: k in r.value ==> (k in accounts && r.value[k] == accounts[k]) || fresh(r.value[k])
  {
    LoadSnoc(rows[..i], rows[i]);
    assert rows[..i + 1] == rows[..i] + [rows[i]];
    r := OpenInto(accounts, rows[i]);
    if r.Err? {
      LoadStops(rows[..i + 1], rows[i + 1..]);
      assert rows[..i + 1] + rows[i + 1..] == rows;
    }
  }

  // ---------------------------------------------------------------------
  // Lemmas
  // ---------------------------------------------------------------------

  lemma {:induction false} LoadFromConcat(m: map<string, AccountValue>, first: seq<OwnerRow>, rest: seq<OwnerRow>)
    ensures LoadFrom(m, first + rest)
         == (match LoadFrom(m, first)
             case Err(e) => Err(e)
             case Ok(next) => LoadFrom(next, rest))
    decreases |first|
  {
    if first == [] {
      assert first + rest == rest;
    } else {
      assert (first + rest)[0] == first[0];
      assert (first + rest)[1..] == first[1..] + rest;
      match LoadStep(m, first[0])
      case Err(_) =>
      case Ok(next) => LoadFromConcat(next, first[1..], rest);
    }
  }

  /** Loading one more row: the earlier rows are loaded first. */
  lemma LoadSnoc(rows: seq<OwnerRow>, row: OwnerRow)
    ensures Loaded(rows + [row])
         == (match Loaded(rows)
             case Err(e) => Err(e)
             case Ok(m) => LoadStep(m, row))
  {
    LoadFromConcat(map[], rows, [row]);
    forall m: map<string, AccountValue>
      ensures LoadFrom(m, [row]) == LoadStep(m, row)
    {
      assert [row][1..] == [];
    }
  }

  /** A load that fails on a prefix fails with the same error on the whole file. */
  lemma LoadStops(prefix: seq<OwnerRow>, rest: seq<OwnerRow>)
    ensures Loaded(prefix).Err? ==> Loaded(prefix + rest) == Loaded(prefix)
  {
    LoadFromConcat(map[], prefix, rest);
  }

  lemma AcceptableSnoc(rows: seq<OwnerRow>, row: OwnerRow)
    ensures Acceptable(rows + [row]) <==> Acceptable(rows) && RowError(rows, row) == None
  {
    var all := rows + [row];
    assert all[..|rows|] == rows;
    assert forall i :: 0 <= i < |rows| ==> all[..i] == rows[..i] && all[i] == rows[i];
  }

  /** What a successful load builds: one fresh account per row, stored
      under that row's owner, and nothing else. */
  lemma {:induction false} LoadedContents(rows: seq<OwnerRow>)
    ensures Loaded(rows).Ok? ==> Loaded(rows).value.Keys == Owners(rows)
    ensures Loaded(rows).Ok? ==>
      forall i :: 0 <= i < |rows| ==> Loaded(rows).value[rows[i].owner] == NewAccount(rows[i])
    decreases |rows|
  {
    if rows != [] && Loaded(rows).Ok? {
      var prefix, row := rows[..|rows| - 1], rows[|rows| - 1];
      assert rows == prefix + [row];
      LoadSnoc(prefix, row);
      LoadedContents(prefix);
      var m := Loaded(prefix).value;
      assert Loaded(rows).value == m[row.owner := NewAccount(row)];
      assert Owners(rows) == Owners(prefix) + {row.owner};
      forall i | 0 <= i < |rows|
        ensures Loaded(rows).value[rows[i].owner] == NewAccount(rows[i])
      {
        if i < |prefix| {
          assert rows[i] == prefix[i];
        }
      }
    }
  }

  /** The loader accepts exactly the files whose every row is acceptable
      after the rows before it. */
  lemma {:induction false} LoadedAccepts(rows: seq<OwnerRow>)
    ensures Loaded(rows).Ok? <==> Acceptable(rows)
    decreases |rows|
  {
    if rows == [] {
      assert Loaded(rows) == Ok(map[]);
    } else {
      var prefix, row := rows[..|rows| - 1], rows[|rows| - 1];
      assert rows == prefix + [row];
      LoadSnoc(prefix, row);
      AcceptableSnoc(prefix, row);
      LoadedAccepts(prefix);
      LoadedContents(prefix);
      if Loaded(prefix).Ok? {
        StepMatchesRowError(Loaded(prefix).value, prefix, row);
      }
    }
  }

  /** Against the accounts of the earlier rows, one row is refused exactly
      when the reference description finds it wrong, with the same error. */
  lemma StepMatchesRowError(m: map<string, AccountValue>, earlier: seq<OwnerRow>, row: OwnerRow)
    requires m.Keys == Owners(earlier)
    ensures LoadStep(m, row).Ok? <==> RowError(earlier, row) == None
    ensures LoadStep(m, row).Err? ==> RowError(earlier, row) == Some(LoadStep(m, row).error)
  {
  }

  /** A refused file is refused for the first row that is wrong, with the
      error that row calls for. */
  lemma {:induction false} LoadedFirstError(rows: seq<OwnerRow>)
    ensures Loaded(rows).Err? ==>
      exists i :: 0 <= i < |rows| && Acceptable(rows[..i])
               && RowError(rows[..i], rows[i]) == Some(Loaded(rows).error)
    decreases |rows|
  {
    if rows != [] && Loaded(rows).Err? {
      var prefix, row := rows[..|rows| - 1], rows[|rows| - 1];
      assert rows == prefix + [row];
      LoadSnoc(prefix, row);
      if Loaded(prefix).Err? {
        LoadedFirstError(prefix);
        var i :| 0 <= i < |prefix| && Acceptable(prefix[..i])
                 && RowError(prefix[..i], prefix[i]) == Some(Loaded(prefix).error);
        assert rows[..i] == prefix[..i] && rows[i] == prefix[i];
      } else {
        LoadedAccepts(prefix);
        LoadedContents(prefix);
        StepMatchesRowError(Loaded(prefix).value, prefix, row);
        assert rows[..|prefix|] == prefix;
      }
    }
  }

  /** Every loaded account is well formed and stored under its own owner. */
  lemma {:induction false} LoadedValid(rows: seq<OwnerRow>)
    requires Loaded(rows).Ok?
    ensures ValidAccounts(Loaded(rows).value)
    decreases |rows|
  {
    if rows != [] {
      var prefix, row := rows[..|rows| - 1], rows[|rows| - 1];
      assert rows == prefix + [row];
      LoadSnoc(prefix, row);
      LoadedValid(prefix);
      OpenedSpec(row.owner, row.opening);
    }
  }
}
