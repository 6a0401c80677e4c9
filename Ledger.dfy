/** The in-memory ledger of src/app/services/banking.service.ts: a sequence of
    accounts and an append-only sequence of transactions, with account CRUD and
    the three balance-changing operations. Amounts are integers (for example
    cents); ids, transaction ids and timestamps come from the caller. */
module Ledger {
  import opened Seqs

  /** Milliseconds since the epoch, as `new Date()` would stamp them. */
  type Date = int

  datatype AccountType = Savings | Checking

  datatype Account = Account(
    id: string,
    ownerId: string,
    fullName: string,
    dateOfBirth: string,
    address: string,
    contactNumber: string,
    email: string,
    accountType: AccountType,
    balance: int,
    createdAt: Date)

  /** What `createAccount` receives: an Account without id, balance and createdAt. */
  datatype AccountData = AccountData(
    ownerId: string,
    fullName: string,
    dateOfBirth: string,
    address: string,
    contactNumber: string,
    email: string,
    accountType: AccountType)

  /** What `updateAccount` receives: any subset of an Account's fields (None = field absent). */
  datatype AccountPatch = AccountPatch(
    id: Option<string>,
    ownerId: Option<string>,
    fullName: Option<string>,
    dateOfBirth: Option<string>,
    address: Option<string>,
    contactNumber: Option<string>,
    email: Option<string>,
    accountType: Option<AccountType>,
    balance: Option<int>,
    createdAt: Option<Date>)

  datatype Kind = Deposit | Withdrawal | Transfer

  datatype Transaction = Transaction(
    id: string,
    accountId: string,
    kind: Kind,
    amount: int,
    date: Date,
    description: string,
    targetAccountId: Option<string>)

  /** The errors the service throws. */
  datatype LedgerError = InvalidAmount | SameAccount | AccountNotFound | InsufficientFunds

  datatype Outcome = Success | Failure(error: LedgerError)

  predicate NonNegative(accounts: seq<Account>) {
    forall i :: 0 <= i < |accounts| ==> accounts[i].balance >= 0
  }

  predicate PositiveAmounts(transactions: seq<Transaction>) {
    forall i :: 0 <= i < |transactions| ==> transactions[i].amount > 0
  }

  /** The sum of all balances. */
  function Total(accounts: seq<Account>): int {
    if accounts == [] then 0 else accounts[0].balance + Total(accounts[1..])
  }

  lemma {:induction false} TotalUpdate(s: seq<Account>, i: nat, a: Account)
    requires i < |s|
    ensures Total(s[i := a]) == Total(s) - s[i].balance + a.balance
  {
    if i == 0 {
      assert s[i := a][1..] == s[1..];
    } else {
      TotalUpdate(s[1..], i - 1, a);
      assert s[i := a][1..] == s[1..][i - 1 := a];
    }
  }

  lemma {:induction false} TotalAppend(s: seq<Account>, a: Account)
    ensures Total(s + [a]) == Total(s) + a.balance
  {
    if s == [] {
      assert s + [a] == [a];
    } else {
      TotalAppend(s[1..], a);
      assert (s + [a])[1..] == s[1..] + [a];
    }
  }

  /** `accounts.findIndex(a => a.id === id)`: the first account with that id. */
  function FindIndex(accounts: seq<Account>, id: string): (r: Option<nat>)
    ensures r.Some? ==> r.value < |accounts| && accounts[r.value].id == id
    ensures forall j :: 0 <= j < |accounts| && (r.None? || j < r.value) ==> accounts[j].id != id
  {
    FindFirst(accounts, (a: Account) => a.id == id)
  }

  /** The lookup depends on the ids alone, so changing balances never moves it. */
  lemma FindIndexSameIds(s: seq<Account>, t: seq<Account>, id: string)
    requires |s| == |t|
    requires forall j :: 0 <= j < |s| ==> s[j].id == t[j].id
    ensures FindIndex(s, id) == FindIndex(t, id)
  {
  }

  function ApplyPatch(a: Account, p: AccountPatch): Account {
    Account(
      if p.id.Some? then p.id.value else a.id,
      if p.ownerId.Some? then p.ownerId.value else a.ownerId,
      if p.fullName.Some? then p.fullName.value else a.fullName,
      if p.dateOfBirth.Some? then p.dateOfBirth.value else a.dateOfBirth,
      if p.address.Some? then p.address.value else a.address,
      if p.contactNumber.Some? then p.contactNumber.value else a.contactNumber,
      if p.email.Some? then p.email.value else a.email,
      if p.accountType.Some? then p.accountType.value else a.accountType,
      if p.balance.Some? then p.balance.value else a.balance,
      if p.createdAt.Some? then p.createdAt.value else a.createdAt)
  }

  /** `getAccountsByOwner`: exactly the accounts of that owner, each as often as
      it occurs, in their original order (Seqs.FilterAppend). */
  function AccountsByOwner(accounts: seq<Account>, ownerId: string): (r: seq<Account>)
    ensures forall i :: 0 <= i < |r| ==> r[i].ownerId == ownerId
    ensures forall a :: multiset(r)[a] == if a.ownerId == ownerId then multiset(accounts)[a] else 0
  {
    var owned := (a: Account) => a.ownerId == ownerId;
    FilterCountAll(accounts, owned);
    Filter(accounts, owned)
  }

  predicate Involves(t: Transaction, accountId: string) {
    t.accountId == accountId || t.targetAccountId == Some(accountId)
  }

  /** `getTransactionsByAccount`: exactly the transactions whose source or
      target is that account, in their original order (Seqs.FilterAppend). */
  function TransactionsByAccount(transactions: seq<Transaction>, accountId: string): (r: seq<Transaction>)
    ensures forall i :: 0 <= i < |r| ==> Involves(r[i], accountId)
    ensures forall t :: multiset(r)[t] == if Involves(t, accountId) then multiset(transactions)[t] else 0
  {
    var involved := (t: Transaction) => Involves(t, accountId);
    FilterCountAll(transactions, involved);
    Filter(transactions, involved)
  }

  /** `deleteAccount`'s filter: every account whose id differs, in order. */
  function WithoutAccount(accounts: seq<Account>, accountId: string): (r: seq<Account>)
    ensures forall i :: 0 <= i < |r| ==> r[i].id != accountId
    ensures forall a :: multiset(r)[a] == if a.id != accountId then multiset(accounts)[a] else 0
  {
    var kept := (a: Account) => a.id != accountId;
    FilterCountAll(accounts, kept);
    Filter(accounts, kept)
  }

  /** Deleting an id no account has changes nothing. */
  lemma DeleteAbsentIsNoOp(accounts: seq<Account>, accountId: string)
    requires FindIndex(accounts, accountId).None?
    ensures WithoutAccount(accounts, accountId) == accounts
  {
    FilterKeepsAll(accounts, (a: Account) => a.id != accountId);
  }

  class BankingService {
    var accounts: seq<Account>
    var transactions: seq<Transaction>

    /** Balances are never negative and every recorded amount is positive. */
    ghost predicate Valid()
      reads this
    {
      NonNegative(accounts) && PositiveAmounts(transactions)
    }

    /** The service starts from whatever the browser storage held. */
    constructor (storedAccounts: seq<Account>, storedTransactions: seq<Transaction>)
      ensures accounts == storedAccounts && transactions == storedTransactions
    {
      accounts := storedAccounts;
      transactions := storedTransactions;
    }

    /** A new account with balance 0 is appended; nothing else changes. */
    method CreateAccount(data: AccountData, id: string, createdAt: Date) returns (account: Account)
      modifies this
      ensures account == Account(id, data.ownerId, data.fullName, data.dateOfBirth, data.address,
                                 data.contactNumber, data.email, data.accountType, 0, createdAt)
      ensures accounts == old(accounts) + [account]
      ensures transactions == old(transactions)
      ensures Total(accounts) == old(Total(accounts))
      ensures old(Valid()) ==> Valid()
    {
      account := Account(id, data.ownerId, data.fullName, data.dateOfBirth, data.address,
                         data.contactNumber, data.email, data.accountType, 0, createdAt);
      TotalAppend(accounts, account);
      accounts := accounts + [account];
    }

    /** Every account with that id receives the supplied fields; the others,
        the order, the length and the transactions stay as they were. */
    method UpdateAccount(accountId: string, patch: AccountPatch)
      modifies this
      ensures |accounts| == |old(accounts)|
      ensures forall i :: 0 <= i < |accounts| ==>
                accounts[i] == if old(accounts[i]).id == accountId then ApplyPatch(old(accounts[i]), patch)
                               else old(accounts[i])
      ensures FindIndex(old(accounts), accountId).None? ==> accounts == old(accounts)
      ensures transactions == old(transactions)
      ensures old(Valid()) && (patch.balance.None? || patch.balance.value >= 0) ==> Valid()
    {
      var before := accounts;
      accounts := seq(|before|, i requires 0 <= i < |before| =>
                        if before[i].id == accountId then ApplyPatch(before[i], patch) else before[i]);
    }

    /** Exactly the accounts with that id are removed; transactions are kept,
        including those that refer to the removed account. */
    method DeleteAccount(accountId: string)
      modifies this
      ensures accounts == WithoutAccount(old(accounts), accountId)
      ensures transactions == old(transactions)
      ensures old(Valid()) ==> Valid()
    {
      var before := accounts;
      accounts := WithoutAccount(before, accountId);
      forall i | 0 <= i < |accounts| ensures accounts[i] in before {
        assert multiset(accounts)[accounts[i]] > 0;
      }
    }

    /** Errors in the order InvalidAmount, AccountNotFound; on success the first
        account with that id gains `amount` and one deposit is recorded. */
    method Deposit(accountId: string, amount: int, txId: string, date: Date, description: string := "Deposit")
      returns (r: Outcome)
      modifies this
      ensures r == if amount <= 0 then Failure(InvalidAmount)
                   else if FindIndex(old(accounts), accountId).None? then Failure(AccountNotFound)
                   else Success
      ensures r.Failure? ==> accounts == old(accounts) && transactions == old(transactions)
      ensures r.Success? ==>
                var i := FindIndex(old(accounts), accountId).value;
                && |accounts| == |old(accounts)|
                && accounts[i] == old(accounts[i]).(balance := old(accounts[i]).balance + amount)
                && (forall j :: 0 <= j < |accounts| && j != i ==> accounts[j] == old(accounts[j]))
                && transactions == old(transactions) + [Transaction(txId, accountId, Kind.Deposit, amount, date, description, None)]
                && Total(accounts) == old(Total(accounts)) + amount
      ensures old(Valid()) ==> Valid()
    {
      if amount <= 0 {
        return Failure(InvalidAmount);
      }
      var index := FindIndex(accounts, accountId);
      if index.None? {
        return Failure(AccountNotFound);
      }
      var i := index.value;
      var credited := accounts[i].(balance := accounts[i].balance + amount);
      TotalUpdate(accounts, i, credited);
      accounts := accounts[i := credited];
      transactions := transactions + [Transaction(txId, accountId, Kind.Deposit, amount, date, description, None)];
      r := Success;
    }

    /** Errors in the order InvalidAmount, AccountNotFound, InsufficientFunds; on
        success the first account with that id loses `amount` (and stays
        non-negative) and one withdrawal is recorded. */
    method Withdraw(accountId: string, amount: int, txId: string, date: Date, description: string := "Withdrawal")
      returns (r: Outcome)
      modifies this
      ensures r == if amount <= 0 then Failure(InvalidAmount)
                   else if FindIndex(old(accounts), accountId).None? then Failure(AccountNotFound)
                   else if old(accounts[FindIndex(accounts, accountId).value]).balance < amount then Failure(InsufficientFunds)
                   else Success
      ensures r.Failure? ==> accounts == old(accounts) && transactions == old(transactions)
      ensures r.Success? ==>
                var i := FindIndex(old(accounts), accountId).value;
                && |accounts| == |old(accounts)|
                && accounts[i] == old(accounts[i]).(balance := old(accounts[i]).balance - amount)
                && accounts[i].balance >= 0
                && (forall j :: 0 <= j < |accounts| && j != i ==> accounts[j] == old(accounts[j]))
                && transactions == old(transactions) + [Transaction(txId, accountId, Kind.Withdrawal, amount, date, description, None)]
                && Total(accounts) == old(Total(accounts)) - amount
      ensures old(Valid()) ==> Valid()
    {
      if amount <= 0 {
        return Failure(InvalidAmount);
      }
      var index := FindIndex(accounts, accountId);
      if index.None? {
        return Failure(AccountNotFound);
      }
      var i := index.value;
      if accounts[i].balance < amount {
        return Failure(InsufficientFunds);
      }
      var debited := accounts[i].(balance := accounts[i].balance - amount);
      TotalUpdate(accounts, i, debited);
      accounts := accounts[i := debited];
      transactions := transactions + [Transaction(txId, accountId, Kind.Withdrawal, amount, date, description, None)];
      r := Success;
    }

    /** Errors in the order InvalidAmount, SameAccount, AccountNotFound (either
        side), InsufficientFunds; on success the source loses and the target
        gains `amount`, so their sum and the ledger total are unchanged, and one
        transfer naming both is recorded. */
    method Transfer(fromId: string, toId: string, amount: int, txId: string, date: Date, description: string := "Transfer")
      returns (r: Outcome)
      modifies this
      ensures r == if amount <= 0 then Failure(InvalidAmount)
                   else if fromId == toId then Failure(SameAccount)
                   else if FindIndex(old(accounts), fromId).None? || FindIndex(old(accounts), toId).None? then Failure(AccountNotFound)
                   else if old(accounts[FindIndex(accounts, fromId).value]).balance < amount then Failure(InsufficientFunds)
                   else Success
      ensures r.Failure? ==> accounts == old(accounts) && transactions == old(transactions)
      ensures r.Success? ==>
                var f, t := FindIndex(old(accounts), fromId).value, FindIndex(old(accounts), toId).value;
                && f != t
                && |accounts| == |old(accounts)|
                && accounts[f] == old(accounts[f]).(balance := old(accounts[f]).balance - amount)
                && accounts[t] == old(accounts[t]).(balance := old(accounts[t]).balance + amount)
                && accounts[f].balance + accounts[t].balance == old(accounts[f].balance + accounts[t].balance)
                && (forall j :: 0 <= j < |accounts| && j != f && j != t ==> accounts[j] == old(accounts[j]))
                && transactions == old(transactions) + [Transaction(txId, fromId, Kind.Transfer, amount, date, description, Some(toId))]
                && Total(accounts) == old(Total(accounts))
      ensures old(Valid()) ==> Valid()
    {
      if amount <= 0 {
        return Failure(InvalidAmount);
      }
      if fromId == toId {
        return Failure(SameAccount);
      }
      var fromIndex := FindIndex(accounts, fromId);
      var toIndex := FindIndex(accounts, toId);
      if fromIndex.None? || toIndex.None? {
        return Failure(AccountNotFound);
      }
      var f, t := fromIndex.value, toIndex.value;
      if accounts[f].balance < amount {
        return Failure(InsufficientFunds);
      }
      var debited := accounts[f].(balance := accounts[f].balance - amount);
      TotalUpdate(accounts, f, debited);
      var updated := accounts[f := debited];
      var credited := updated[t].(balance := updated[t].balance + amount);
      TotalUpdate(updated, t, credited);
      accounts := updated[t := credited];
      transactions := transactions + [Transaction(txId, fromId, Kind.Transfer, amount, date, description, Some(toId))];
      r := Success;
    }
  }

  /** A deposit of x followed by a withdrawal of x from the same account
      restores every balance, provided that account's balance was not
      negative, and records exactly the two transactions, in that order. */
  method DepositThenWithdraw(bank: BankingService, accountId: string, x: int,
                             depositId: string, withdrawalId: string, date: Date)
    requires x > 0 && FindIndex(bank.accounts, accountId).Some?
    requires bank.accounts[FindIndex(bank.accounts, accountId).value].balance >= 0
    modifies bank
    ensures bank.accounts == old(bank.accounts)
    ensures bank.transactions == old(bank.transactions) + [
              Transaction(depositId, accountId, Kind.Deposit, x, date, "Deposit", None),
              Transaction(withdrawalId, accountId, Kind.Withdrawal, x, date, "Withdrawal", None)]
  {
    var before := bank.accounts;
    var r1 := bank.Deposit(accountId, x, depositId, date);
    FindIndexSameIds(before, bank.accounts, accountId);
    var r2 := bank.Withdraw(accountId, x, withdrawalId, date);
    assert r2.Success?;
    assert bank.accounts == before;
  }
}
