/**
  The bank service (`bank-api/server.js`) as pure state transitions. Each request
  handler is one atomic step on the account table and the transaction log; a
  handler that rolls back returns the state it was given.
*/
module LedgerSpec {
  import opened Common
  import opened Credentials
  import AccountNumber

  type AccountNo = string

  datatype Account = Account(digest: Digest, balance: int)

  datatype TxStatus = Pending | Completed

  datatype Tx = Tx(from: AccountNo, to: AccountNo, amount: int, description: string, status: TxStatus)

  /** The `accounts` table keyed by account number, and the `transactions` table in
      insertion order: the row with auto-increment id `k` is `log[k - 1]`. */
  datatype State = State(accounts: map<AccountNo, Account>, log: seq<Tx>)

  /** `initialBalance = 1000` in the create-account handler. */
  const DefaultInitialBalance: int := 1000

  datatype Created = Created(accountNumber: AccountNo, balance: int)

  /** The body of `/api/transfer`; an absent string is "" and an absent amount is 0. */
  datatype TransferRequest = TransferRequest(from: AccountNo, to: AccountNo, amount: int, secret: string, description: string)

  // ---------------------------------------------------------------------------
  // Money

  ghost function PickKey(keys: set<AccountNo>): (k: AccountNo)
    requires keys != {}
    ensures k in keys
  {
    var k :| k in keys; k
  }

  /** The sum of all balances. */
  ghost function Total(m: map<AccountNo, Account>): int
    decreases |m|
  {
    if m == map[] then 0
    else
      var k := PickKey(m.Keys);
      assert |m - {k}| < |m| by { assert (m - {k}).Keys == m.Keys - {k}; }
      m[k].balance + Total(m - {k})
  }

  ghost predicate NonNegative(m: map<AccountNo, Account>) {
    forall a :: a in m ==> m[a].balance >= 0
  }

  lemma {:induction false} TotalRemove(m: map<AccountNo, Account>, k: AccountNo)
    requires k in m
    ensures Total(m) == m[k].balance + Total(m - {k})
    decreases |m|
  {
    var j := PickKey(m.Keys);
    if j != k {
      assert (m - {j}).Keys == m.Keys - {j};
      TotalRemove(m - {j}, k);
      assert (m - {k}).Keys == m.Keys - {k};
      TotalRemove(m - {k}, j);
      assert m - {j} - {k} == m - {k} - {j};
    }
  }

  /** Replacing one account changes the total by the change of that balance. */
  lemma TotalUpdate(m: map<AccountNo, Account>, k: AccountNo, v: Account)
    requires k in m
    ensures Total(m[k := v]) == Total(m) - m[k].balance + v.balance
  {
    TotalRemove(m, k);
    TotalRemove(m[k := v], k);
    assert m[k := v] - {k} == m - {k};
  }

  /** Adding a fresh account adds its balance to the total. */
  lemma TotalInsert(m: map<AccountNo, Account>, k: AccountNo, v: Account)
    requires k !in m
    ensures Total(m[k := v]) == Total(m) + v.balance
  {
    TotalRemove(m[k := v], k);
    assert m[k := v] - {k} == m;
  }

  /** `m'` is `m` after `amount` moved from `from` to `to`: only the two balances
      change, by exactly `amount` each way, and a self-transfer changes nothing. */
  ghost predicate Moved(m: map<AccountNo, Account>, m': map<AccountNo, Account>, from: AccountNo, to: AccountNo, amount: int) {
    && from in m && to in m
    && m'.Keys == m.Keys
    && (forall a :: a in m ==> m'[a].digest == m[a].digest)
    && (forall a :: a in m && a != from && a != to ==> m'[a] == m[a])
    && (from != to ==> m'[from].balance == m[from].balance - amount && m'[to].balance == m[to].balance + amount)
    && (from == to ==> m' == m)
  }

  /** The two balance updates of a money movement, in the order the
      handlers issue them: debit the sender, then credit the receiver. */
  function Settle(m: map<AccountNo, Account>, from: AccountNo, to: AccountNo, amount: int): (m': map<AccountNo, Account>)
    requires from in m && to in m
    ensures Moved(m, m', from, to, amount)
    ensures Total(m') == Total(m)
  {
    var debited := m[from := m[from].(balance := m[from].balance - amount)];
    TotalUpdate(m, from, debited[from]);
    var credited := debited[to := debited[to].(balance := debited[to].balance + amount)];
    TotalUpdate(debited, to, credited[to]);
    assert from == to ==> credited == m by {
      if from == to {
        assert credited[from] == m[from];
      }
    }
    credited
  }

  // ---------------------------------------------------------------------------
  // The transaction log

  predicate IsPending(log: seq<Tx>, id: nat) {
    1 <= id <= |log| && log[id - 1].status == Pending
  }

  /** Every step keeps old rows, except that a pending row may become completed. */
  ghost predicate LogAdvances(log: seq<Tx>, log': seq<Tx>) {
    && |log| <= |log'|
    && forall i :: 0 <= i < |log| ==>
         log'[i] == log[i] || (log[i].status == Pending && log'[i] == log[i].(status := Completed))
  }

  lemma LogAdvancesTransitive(a: seq<Tx>, b: seq<Tx>, c: seq<Tx>)
    requires LogAdvances(a, b) && LogAdvances(b, c)
    ensures LogAdvances(a, c)
  {
  }

  // ---------------------------------------------------------------------------
  // The handlers

  /** `POST /api/create-account`. A draw that collides with an existing number
      makes the INSERT fail (500) and nothing is written. */
  function CreateAccount(s: State, secret: string, initialBalance: Option<int>, draw: AccountNumber.Draw): (r: (Response<Created>, State))
    ensures secret == "" ==> r == (Failure(BadRequest), s)
    ensures r.0.Success? <==> secret != "" && AccountNumber.Generate(draw) !in s.accounts
    ensures secret != "" && AccountNumber.Generate(draw) in s.accounts ==> r == (Failure(ServerError), s)
    ensures r.0.Failure? ==> r.1 == s
    ensures r.0.Success? ==>
      var n := r.0.value.accountNumber;
      && n == AccountNumber.Generate(draw)
      && n !in s.accounts
      && r.0.value.balance == initialBalance.GetOr(DefaultInitialBalance)
      && r.1.accounts == s.accounts[n := Account(Hash(secret), r.0.value.balance)]
      && Matches(secret, r.1.accounts[n].digest)
      && r.1.log == s.log
      && Total(r.1.accounts) == Total(s.accounts) + r.0.value.balance
  {
    if secret == "" then (Failure(BadRequest), s)
    else
      var balance := initialBalance.GetOr(DefaultInitialBalance);
      var n := AccountNumber.Generate(draw);
      if n in s.accounts then (Failure(ServerError), s)
      else
        TotalInsert(s.accounts, n, Account(Hash(secret), balance));
        (Success(Created(n, balance)), State(s.accounts[n := Account(Hash(secret), balance)], s.log))
  }

  /** Every field the transfer needs is present and truthy. */
  predicate FieldsPresent(req: TransferRequest) {
    req.from != "" && req.to != "" && req.amount != 0 && req.secret != ""
  }

  /** Everything a transfer needs in order to commit. */
  ghost predicate TransferAllowed(m: map<AccountNo, Account>, req: TransferRequest) {
    && FieldsPresent(req)
    && req.amount > 0
    && req.from in m
    && Matches(req.secret, m[req.from].digest)
    && m[req.from].balance >= req.amount
    && req.to in m
  }

  /** `POST /api/transfer`: the checks in the handler's order, then debit, credit
      and a `completed` row; the reply carries the new row's id. */
  function Transfer(s: State, req: TransferRequest): (r: (Response<nat>, State))
    ensures r.0.Success? <==> TransferAllowed(s.accounts, req)
    ensures r.0.Failure? ==> r.1 == s
    ensures r.0 == Failure(Unauthorized) <==>
      FieldsPresent(req) && req.amount > 0 && req.from in s.accounts && !Matches(req.secret, s.accounts[req.from].digest)
    ensures r.0 == Failure(NotFound) <==>
      && FieldsPresent(req) && req.amount > 0
      && (req.from !in s.accounts
          || (Matches(req.secret, s.accounts[req.from].digest) && s.accounts[req.from].balance >= req.amount && req.to !in s.accounts))
    ensures r.0 == Failure(BadRequest) <==>
      !FieldsPresent(req) || req.amount <= 0
      || (req.from in s.accounts && Matches(req.secret, s.accounts[req.from].digest) && s.accounts[req.from].balance < req.amount)
    ensures r.0.Success? ==>
      && Moved(s.accounts, r.1.accounts, req.from, req.to, req.amount)
      && r.1.accounts[req.from].balance >= 0
      && r.1.log == s.log + [Tx(req.from, req.to, req.amount, req.description, Completed)]
      && r.0.value == |r.1.log|
    ensures Total(r.1.accounts) == Total(s.accounts)
    ensures NonNegative(s.accounts) ==> NonNegative(r.1.accounts)
    ensures LogAdvances(s.log, r.1.log)
  {
    if !FieldsPresent(req) then (Failure(BadRequest), s)
    else if req.amount <= 0 then (Failure(BadRequest), s)
    else if req.from !in s.accounts then (Failure(NotFound), s)
    else if !Matches(req.secret, s.accounts[req.from].digest) then (Failure(Unauthorized), s)
    else if s.accounts[req.from].balance < req.amount then (Failure(BadRequest), s)
    else if req.to !in s.accounts then (Failure(NotFound), s)
    else
      var log := s.log + [Tx(req.from, req.to, req.amount, req.description, Completed)];
      (Success(|log|), State(Settle(s.accounts, req.from, req.to, req.amount), log))
  }

  /** `POST /api/transaction-record`: no secret, no balance check and no sign check
      on the amount; only a `pending` row is written. */
  function RecordTransaction(s: State, from: AccountNo, to: AccountNo, amount: int, description: string): (r: (Response<nat>, State))
    ensures r.0 == Failure(BadRequest) <==> from == "" || to == "" || amount == 0
    ensures r.0 == Failure(NotFound) <==> from != "" && to != "" && amount != 0 && (from !in s.accounts || to !in s.accounts)
    ensures r.0.Success? <==> from != "" && to != "" && amount != 0 && from in s.accounts && to in s.accounts
    ensures r.1.accounts == s.accounts
    ensures r.0.Failure? ==> r.1 == s
    ensures r.0.Success? ==>
      && r.1.log == s.log + [Tx(from, to, amount, description, Pending)]
      && r.0.value == |r.1.log|
      && IsPending(r.1.log, r.0.value)
    ensures LogAdvances(s.log, r.1.log)
  {
    if from == "" || to == "" || amount == 0 then (Failure(BadRequest), s)
    else if from !in s.accounts || to !in s.accounts then (Failure(NotFound), s)
    else
      var log := s.log + [Tx(from, to, amount, description, Pending)];
      (Success(|log|), State(s.accounts, log))
  }

  /** Everything a validation needs in order to commit. */
  ghost predicate ValidationAllowed(s: State, id: nat, secret: string) {
    && id != 0 && secret != ""
    && IsPending(s.log, id)
    && s.log[id - 1].to in s.accounts
    && Matches(secret, s.accounts[s.log[id - 1].to].digest)
    && s.log[id - 1].from in s.accounts
    && s.accounts[s.log[id - 1].from].balance >= s.log[id - 1].amount
  }

  /** `POST /api/validate-transaction`: only a pending row is found; the receiver's
      secret authorises it; the sender's balance is checked now, not when recorded. */
  function ValidateTransaction(s: State, id: nat, secret: string): (r: (Response<int>, State))
    ensures r.0.Success? <==> ValidationAllowed(s, id, secret)
    ensures r.0.Failure? ==> r.1 == s
    ensures r.0 == Failure(NotFound) <==>
      id != 0 && secret != "" && (!IsPending(s.log, id) || s.log[id - 1].to !in s.accounts)
    ensures r.0 == Failure(Unauthorized) <==>
      && id != 0 && secret != "" && IsPending(s.log, id)
      && s.log[id - 1].to in s.accounts && !Matches(secret, s.accounts[s.log[id - 1].to].digest)
    ensures r.0 == Failure(BadRequest) <==>
      || id == 0 || secret == ""
      || (&& IsPending(s.log, id)
          && s.log[id - 1].to in s.accounts && Matches(secret, s.accounts[s.log[id - 1].to].digest)
          && (s.log[id - 1].from !in s.accounts || s.accounts[s.log[id - 1].from].balance < s.log[id - 1].amount))
    ensures r.0.Success? ==>
      var tx := s.log[id - 1];
      && r.0.value == tx.amount
      && Moved(s.accounts, r.1.accounts, tx.from, tx.to, tx.amount)
      && r.1.log == s.log[id - 1 := tx.(status := Completed)]
      && !IsPending(r.1.log, id)
    ensures Total(r.1.accounts) == Total(s.accounts)
    ensures NonNegative(s.accounts) && (IsPending(s.log, id) ==> s.log[id - 1].amount >= 0) ==> NonNegative(r.1.accounts)
    ensures LogAdvances(s.log, r.1.log)
  {
    if id == 0 || secret == "" then (Failure(BadRequest), s)
    else if !IsPending(s.log, id) then (Failure(NotFound), s)
    else
      var tx := s.log[id - 1];
      if tx.to !in s.accounts then (Failure(NotFound), s)
      else if !Matches(secret, s.accounts[tx.to].digest) then (Failure(Unauthorized), s)
      else if tx.from !in s.accounts || s.accounts[tx.from].balance < tx.amount then (Failure(BadRequest), s)
      else
        (Success(tx.amount), State(Settle(s.accounts, tx.from, tx.to, tx.amount), s.log[id - 1 := tx.(status := Completed)]))
  }

  // ---------------------------------------------------------------------------
  // Sequences of requests

  datatype Request =
    | CreateAccountReq(secret: string, initialBalance: Option<int>, draw: AccountNumber.Draw)
    | BalanceReq(accountNumber: AccountNo)
    | TransferReq(transfer: TransferRequest)
    | RecordReq(from: AccountNo, to: AccountNo, amount: int, description: string)
    | ValidateReq(id: nat, secret: string)

  /** The state after one request; a balance lookup only reads. */
  function Apply(s: State, q: Request): (s': State)
    ensures LogAdvances(s.log, s'.log)
  {
    match q
    case CreateAccountReq(secret, initial, draw) => CreateAccount(s, secret, initial, draw).1
    case BalanceReq(_) => s
    case TransferReq(req) => Transfer(s, req).1
    case RecordReq(from, to, amount, description) => RecordTransaction(s, from, to, amount, description).1
    case ValidateReq(id, secret) => ValidateTransaction(s, id, secret).1
  }

  /** The state after the requests, one at a time, in order. */
  function Run(s: State, qs: seq<Request>): (s': State)
    ensures LogAdvances(s.log, s'.log)
    decreases |qs|
  {
    if qs == [] then s
    else
      var next := Apply(s, qs[0]);
      var last := Run(next, qs[1..]);
      LogAdvancesTransitive(s.log, next.log, last.log);
      last
  }

  /** The balance a request adds to the bank: the opening balance of an account it
      creates, and nothing for every other request. */
  ghost function Minted(s: State, q: Request): int {
    match q
    case CreateAccountReq(secret, initial, draw) =>
      var created := CreateAccount(s, secret, initial, draw).0;
      if created.Success? then created.value.balance else 0
    case _ => 0
  }

  ghost function MintedByRun(s: State, qs: seq<Request>): int
    decreases |qs|
  {
    if qs == [] then 0 else Minted(s, qs[0]) + MintedByRun(Apply(s, qs[0]), qs[1..])
  }

  /** Money enters the bank only through opening balances: transfers and validations
      move it and the other requests leave it alone. */
  lemma {:induction false} MoneyEntersOnlyByCreation(s: State, qs: seq<Request>)
    ensures Total(Run(s, qs).accounts) == Total(s.accounts) + MintedByRun(s, qs)
    decreases |qs|
  {
    if qs != [] {
      MoneyEntersOnlyByCreation(Apply(s, qs[0]), qs[1..]);
    }
  }

  /** Every pending row asks for a non-negative amount. */
  ghost predicate PendingNonNegative(log: seq<Tx>) {
    forall i :: 0 <= i < |log| && log[i].status == Pending ==> log[i].amount >= 0
  }

  /** A request that cannot bring a balance below zero by itself: no negative opening
      balance and no negative pending amount. */
  predicate Benign(q: Request) {
    match q
    case CreateAccountReq(_, initial, _) => initial.GetOr(DefaultInitialBalance) >= 0
    case RecordReq(_, _, amount, _) => amount >= 0
    case _ => true
  }

  /** One benign request keeps every balance and every pending amount non-negative. */
  lemma BenignStep(s: State, q: Request)
    requires NonNegative(s.accounts) && PendingNonNegative(s.log)
    requires Benign(q)
    ensures NonNegative(Apply(s, q).accounts) && PendingNonNegative(Apply(s, q).log)
  {
  }

  /** No overdraft: from a state with no negative balance and no negative pending
      amount, benign requests never drive a balance below zero. */
  lemma {:induction false} NoOverdraft(s: State, qs: seq<Request>)
    requires NonNegative(s.accounts) && PendingNonNegative(s.log)
    requires forall i :: 0 <= i < |qs| ==> Benign(qs[i])
    ensures NonNegative(Run(s, qs).accounts) && PendingNonNegative(Run(s, qs).log)
    decreases |qs|
  {
    if qs != [] {
      BenignStep(s, qs[0]);
      NoOverdraft(Apply(s, qs[0]), qs[1..]);
    }
  }

  /** Settlement happens at most once per id: after a validation succeeds, no later
      validation of the same id succeeds, whatever requests come in between, and one
      that names the id and a secret gets 404. */
  lemma SettledOnce(s: State, id: nat, secret: string, qs: seq<Request>, secret': string)
    requires ValidateTransaction(s, id, secret).0.Success?
    ensures
      var later := ValidateTransaction(Run(ValidateTransaction(s, id, secret).1, qs), id, secret');
      && !later.0.Success?
      && (secret' != "" ==> later.0 == Failure(NotFound))
  {
  }

  /** A transfer that commits leaves every balance non-negative if the sender could
      cover it, even when other accounts were already in the red. */
  lemma TransferNoOverdraft(s: State, req: TransferRequest, a: AccountNo)
    requires Transfer(s, req).0.Success?
    requires a in s.accounts && s.accounts[a].balance >= 0
    ensures a in Transfer(s, req).1.accounts && Transfer(s, req).1.accounts[a].balance >= 0
  {
  }

  /** The record handler checks only that the amount is truthy, so a negative
      pending amount is accepted; validating it moves money from the receiver to
      the sender and can leave the receiver below zero. */
  lemma NegativePendingOverdrawsReceiver()
    ensures
      var s := State(map["A" := Account(Hash("sa"), 0), "B" := Account(Hash("sb"), 0)], []);
      var recorded := RecordTransaction(s, "A", "B", -5, "");
      var validated := ValidateTransaction(recorded.1, 1, "sb");
      && NonNegative(s.accounts)
      && recorded.0 == Success(1)
      && validated.0.Success?
      && validated.1.accounts["B"].balance == -5
      && validated.1.accounts["A"].balance == 5
  {
  }
}
