/**
  The bank service's request handlers as they run: read-check-write steps on the
  account table and the transaction log held by one `Bank` object. Every early exit
  happens before the first write, so the explicit rollbacks of the source restore
  exactly the state the handler started from. Each mutating handler is proved to
  be the atomic step `LedgerSpec` describes; `Balance` states its reply directly.
*/
module Ledger {
  import opened Common
  import opened Credentials
  import AccountNumber
  import opened LedgerSpec

  class Bank {
    var accounts: map<AccountNo, Account>
    var log: seq<Tx>

    /** The database as the pure model sees it. */
    function Snapshot(): State
      reads this
    {
      State(accounts, log)
    }

    constructor ()
      ensures accounts == map[] && log == []
    {
      accounts := map[];
      log := [];
    }

    /** `POST /api/create-account`. */
    method CreateAccount(secret: string, initialBalance: Option<int>, draw: AccountNumber.Draw) returns (r: Response<Created>)
      modifies this
      ensures (r, Snapshot()) == LedgerSpec.CreateAccount(old(Snapshot()), secret, initialBalance, draw)
    {
      if secret == "" {
        return Failure(BadRequest);
      }
      var digest := Hash(secret);
      var accountNumber := AccountNumber.Generate(draw);
      var balance := initialBalance.GetOr(DefaultInitialBalance);
      if accountNumber in accounts {
        // the INSERT violates the key on account_number
        return Failure(ServerError);
      }
      accounts := accounts[accountNumber := Account(digest, balance)];
      r := Success(Created(accountNumber, balance));
    }

    /** `GET /api/balance/:accountNumber`: reads only. */
    method Balance(accountNumber: AccountNo) returns (r: Response<int>)
      ensures accountNumber in accounts ==> r == Success(accounts[accountNumber].balance)
      ensures accountNumber !in accounts ==> r == Failure(NotFound)
    {
      if accountNumber !in accounts {
        return Failure(NotFound);
      }
      r := Success(accounts[accountNumber].balance);
    }

    /** `POST /api/transfer`. */
    method Transfer(req: TransferRequest) returns (r: Response<nat>)
      modifies this
      ensures (r, Snapshot()) == LedgerSpec.Transfer(old(Snapshot()), req)
    {
      if req.from == "" || req.to == "" || req.amount == 0 || req.secret == "" {
        return Failure(BadRequest);
      }
      if req.amount <= 0 {
        return Failure(BadRequest);
      }
      // beginTransaction
      if req.from !in accounts {
        return Failure(NotFound);
      }
      var sender := accounts[req.from];
      if !Matches(req.secret, sender.digest) {
        return Failure(Unauthorized);
      }
      if sender.balance < req.amount {
        return Failure(BadRequest);
      }
      if req.to !in accounts {
        return Failure(NotFound);
      }
      accounts := accounts[req.from := accounts[req.from].(balance := accounts[req.from].balance - req.amount)];
      accounts := accounts[req.to := accounts[req.to].(balance := accounts[req.to].balance + req.amount)];
      log := log + [Tx(req.from, req.to, req.amount, req.description, Completed)];
      // commit
      r := Success(|log|);
    }

    /** `POST /api/transaction-record`. */
    method RecordTransaction(from: AccountNo, to: AccountNo, amount: int, description: string) returns (r: Response<nat>)
      modifies this
      ensures (r, Snapshot()) == LedgerSpec.RecordTransaction(old(Snapshot()), from, to, amount, description)
    {
      if from == "" || to == "" || amount == 0 {
        return Failure(BadRequest);
      }
      if from !in accounts || to !in accounts {
        return Failure(NotFound);
      }
      log := log + [Tx(from, to, amount, description, Pending)];
      r := Success(|log|);
    }

    /** `POST /api/validate-transaction`. */
    method ValidateTransaction(id: nat, toAccountSecret: string) returns (r: Response<int>)
      modifies this
      ensures (r, Snapshot()) == LedgerSpec.ValidateTransaction(old(Snapshot()), id, toAccountSecret)
    {
      if id == 0 || toAccountSecret == "" {
        return Failure(BadRequest);
      }
      // beginTransaction; SELECT ... WHERE id = ? AND status = 'pending'
      if !(1 <= id <= |log|) || log[id - 1].status != Pending {
        return Failure(NotFound);
      }
      var tx := log[id - 1];
      if tx.to !in accounts {
        return Failure(NotFound);
      }
      if !Matches(toAccountSecret, accounts[tx.to].digest) {
        return Failure(Unauthorized);
      }
      if tx.from !in accounts || accounts[tx.from].balance < tx.amount {
        return Failure(BadRequest);
      }
      accounts := accounts[tx.from := accounts[tx.from].(balance := accounts[tx.from].balance - tx.amount)];
      accounts := accounts[tx.to := accounts[tx.to].(balance := accounts[tx.to].balance + tx.amount)];
      log := log[id - 1 := tx.(status := Completed)];
      // commit
      r := Success(tx.amount);
    }
  }

  /** The walk-through of the bank: two accounts, a transfer that commits, one
      refused for funds, one refused for the secret, then a recorded payment that
      the receiver validates, and a second validation that finds nothing pending. */
  method Scenario() {
    var bank := new Bank();
    var a := bank.CreateAccount("s1", Some(1000), 1);
    var b := bank.CreateAccount("s2", Some(0), 2);
    AccountNumber.GenerateInjective(1, 2);
    var accA, accB := AccountNumber.Generate(1), AccountNumber.Generate(2);
    assert bank.accounts == map[accA := Account(Hash("s1"), 1000), accB := Account(Hash("s2"), 0)];
    assert |accA| == 13 && |accB| == 13;
    Payments(bank, accA, accB);
  }

  method Payments(bank: Bank, accA: AccountNo, accB: AccountNo)
    requires accA != "" && accB != "" && accA != accB
    requires bank.accounts == map[accA := Account(Hash("s1"), 1000), accB := Account(Hash("s2"), 0)]
    requires bank.log == []
    modifies bank
  {
    var t1 := bank.Transfer(TransferRequest(accA, accB, 300, "s1", ""));
    assert t1 == Success(1);
    assert bank.accounts[accA].balance == 700 && bank.accounts[accB].balance == 300;

    var t2 := bank.Transfer(TransferRequest(accA, accB, 800, "s1", ""));
    assert t2 == Failure(BadRequest);
    var t3 := bank.Transfer(TransferRequest(accA, accB, 100, "wrong", ""));
    assert t3 == Failure(Unauthorized);
    assert bank.accounts[accA].balance == 700 && bank.accounts[accB].balance == 300;

    var rec := bank.RecordTransaction(accA, accB, 200, "");
    assert rec == Success(2);
    var v := bank.ValidateTransaction(2, "s2");
    assert v == Success(200);
    assert bank.accounts[accA].balance == 500 && bank.accounts[accB].balance == 500;
    var again := bank.ValidateTransaction(2, "s2");
    assert again == Failure(NotFound);
  }
}
