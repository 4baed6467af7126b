/**
 * The ledger rules of the finance API: owner-scoped lookups, creations and
 * deletions of accounts, budgets and targets, and the no-overdraft balance update
 * of create_transaction. The database is a `Store` object whose tables are maps
 * from ids to records; the authenticated caller is the id `currentUser`, fresh
 * uuid4 ids and utcnow() are parameters.
 */
module Ledger {
  import opened Results

  type Uuid = nat

  datatype Account = Account(userId: Uuid, name: string, balance: int, currency: string)
  datatype Transaction = Transaction(accountId: Uuid, amount: int, timestamp: int, categoryId: Uuid,
                                     description: Option<string>)
  datatype Budget = Budget(accountId: Uuid, limit: int, startDate: int, endDate: int)
  datatype Target = Target(accountId: Uuid, name: string, targetAmount: int, deadline: int,
                           description: Option<string>, createdAt: int)

  /** Request bodies. AccountCreate has no owner field: the owner is always the caller. */
  datatype AccountCreate = AccountCreate(name: string, balance: int, currency: string)
  datatype TransactionWrite = TransactionWrite(accountId: Uuid, amount: int, categoryId: Uuid,
                                               description: Option<string>)
  datatype BudgetCreate = BudgetCreate(accountId: Uuid, limit: int, startDate: int, endDate: int)
  datatype TargetCreate = TargetCreate(accountId: Uuid, name: string, targetAmount: int, deadline: int,
                                       description: Option<string>)

  /** An HTTPException: status code and detail. */
  datatype HttpError = HttpError(status: int, detail: string)

  const AccountNotFound: HttpError := HttpError(404, "Account not found")
  const NotEnoughMoney: HttpError := HttpError(400, "Not enough money")
  const BudgetNotFound: HttpError := HttpError(404, "Budget not found")
  const TargetNotFound: HttpError := HttpError(404, "Target not found")

  /** The account `id` as the caller may see it: it exists and belongs to `user`. */
  predicate Owns(accounts: map<Uuid, Account>, id: Uuid, user: Uuid) {
    id in accounts && accounts[id].userId == user
  }

  /** The records of a table that hang off an account the user owns (the join on
      Account filtered by Account.user_id). */
  function OwnedRecords<R>(records: map<Uuid, R>, accountOf: R -> Uuid, accounts: map<Uuid, Account>,
                           user: Uuid): (r: map<Uuid, R>)
    ensures forall id :: id in r <==> id in records && Owns(accounts, accountOf(records[id]), user)
    ensures forall id :: id in r ==> r[id] == records[id]
  {
    map id | id in records && Owns(accounts, accountOf(records[id]), user) :: records[id]
  }

  function BudgetAccount(b: Budget): Uuid { b.accountId }
  function TargetAccount(t: Target): Uuid { t.accountId }
  function TransactionAccount(t: Transaction): Uuid { t.accountId }

  /** The balance rule of create_transaction: a transaction that would take the balance
      below zero is refused, any other is added to it. */
  function ApplyAmount(balance: int, amount: int): (r: Option<int>)
    ensures r.None? <==> balance + amount < 0
    ensures r.Some? ==> r.value == balance + amount && r.value >= 0
  {
    if balance + amount < 0 then None else Some(balance + amount)
  }

  function Sum(xs: seq<int>): int {
    if xs == [] then 0 else xs[0] + Sum(xs[1..])
  }

  /** A sequence of transaction requests against one account, in order: the final
      balance and the amounts that were accepted. */
  function Replay(balance: int, amounts: seq<int>): (int, seq<int>)
    decreases |amounts|
  {
    if amounts == [] then (balance, [])
    else match ApplyAmount(balance, amounts[0])
      case None => Replay(balance, amounts[1..])
      case Some(b) =>
        var (final, accepted) := Replay(b, amounts[1..]);
        (final, [amounts[0]] + accepted)
  }

  /** Over any history, the balance moves by exactly the accepted amounts, and once
      it is non-negative it never goes below zero. */
  lemma {:induction false} ReplayKeepsBalance(balance: int, amounts: seq<int>)
    ensures Replay(balance, amounts).0 == balance + Sum(Replay(balance, amounts).1)
    ensures balance >= 0 ==> Replay(balance, amounts).0 >= 0
    ensures |Replay(balance, amounts).1| <= |amounts|
    decreases |amounts|
  {
    if amounts != [] {
      match ApplyAmount(balance, amounts[0])
      case None =>
        ReplayKeepsBalance(balance, amounts[1..]);
      case Some(b) =>
        ReplayKeepsBalance(b, amounts[1..]);
        var accepted := Replay(b, amounts[1..]).1;
        assert ([amounts[0]] + accepted)[1..] == accepted;
    }
  }

  /** Deleting a budget or target that the caller owns changes no other user's view. */
  lemma DeleteIsInvisibleToOthers<R>(records: map<Uuid, R>, accountOf: R -> Uuid, accounts: map<Uuid, Account>,
                                     id: Uuid, owner: Uuid, other: Uuid)
    requires id in records && Owns(accounts, accountOf(records[id]), owner) && other != owner
    ensures OwnedRecords(records - {id}, accountOf, accounts, other) == OwnedRecords(records, accountOf, accounts, other)
  {
    var before := OwnedRecords(records, accountOf, accounts, other);
    var after := OwnedRecords(records - {id}, accountOf, accounts, other);
    assert id !in before;
    assert after.Keys == before.Keys;
  }

  class Store {
    var accounts: map<Uuid, Account>
    var transactions: map<Uuid, Transaction>
    var budgets: map<Uuid, Budget>
    var targets: map<Uuid, Target>

    /** The foreign keys: every transaction, budget and target refers to a stored account. */
    ghost predicate Valid()
      reads this
    {
      && (forall id :: id in transactions ==> transactions[id].accountId in accounts)
      && (forall id :: id in budgets ==> budgets[id].accountId in accounts)
      && (forall id :: id in targets ==> targets[id].accountId in accounts)
    }

    constructor ()
      ensures Valid()
      ensures accounts == map[] && transactions == map[] && budgets == map[] && targets == map[]
    {
      accounts, transactions, budgets, targets := map[], map[], map[], map[];
    }

    /** GET /accounts: current_user.accounts. */
    method GetAllAccounts(currentUser: Uuid) returns (r: map<Uuid, Account>)
      ensures forall id :: id in r <==> Owns(accounts, id, currentUser)
      ensures forall id :: id in r ==> id in accounts && r[id] == accounts[id]
    {
      r := map id | id in accounts && accounts[id].userId == currentUser :: accounts[id];
    }

    /** GET /accounts/{account_id}: 404 unless the account exists and is the caller's. */
    method GetAccountById(accountId: Uuid, currentUser: Uuid) returns (r: Result<Account, HttpError>)
      ensures r.Ok? <==> Owns(accounts, accountId, currentUser)
      ensures r.Ok? ==> r.value == accounts[accountId]
      ensures r.Err? ==> r.error == AccountNotFound
    {
      if accountId in accounts && accounts[accountId].userId == currentUser {
        r := Ok(accounts[accountId]);
      } else {
        r := Err(AccountNotFound);
      }
    }

    /** GET /accounts/{account_id}/transactions: the owned account's transactions. */
    method GetTransactionsByAccount(accountId: Uuid, currentUser: Uuid)
      returns (r: Result<map<Uuid, Transaction>, HttpError>)
      ensures r.Ok? <==> Owns(accounts, accountId, currentUser)
      ensures r.Ok? ==> forall id :: id in r.value <==> id in transactions && transactions[id].accountId == accountId
      ensures r.Ok? ==> forall id :: id in r.value ==> r.value[id] == transactions[id]
      ensures r.Err? ==> r.error == AccountNotFound
    {
      var found := GetAccountById(accountId, currentUser);
      if found.Ok? {
        r := Ok(map id | id in transactions && transactions[id].accountId == accountId :: transactions[id]);
      } else {
        r := Err(found.error);
      }
    }

    /** POST /accounts: the new account belongs to the caller, whatever the body says. */
    method CreateAccount(acctIn: AccountCreate, currentUser: Uuid, newId: Uuid) returns (created: Account)
      requires Valid() && newId !in accounts
      modifies this
      ensures Valid()
      ensures created == Account(currentUser, acctIn.name, acctIn.balance, acctIn.currency)
      ensures accounts == old(accounts)[newId := created]
      ensures transactions == old(transactions) && budgets == old(budgets) && targets == old(targets)
    {
      created := Account(currentUser, acctIn.name, acctIn.balance, acctIn.currency);
      accounts := accounts[newId := created];
    }

    /** POST /accounts/{account_id}/transactions: 404 for an account that is not the
        caller's, 400 when the balance would go below zero; otherwise exactly one
        transaction is stored and the balance moves by exactly its amount. The
        account id of the new transaction is the path's, not the body's. */
    method CreateTransaction(accountId: Uuid, transactionIn: TransactionWrite, currentUser: Uuid,
                             newId: Uuid, now: int) returns (r: Result<Transaction, HttpError>)
      requires Valid() && newId !in transactions
      modifies this
      ensures Valid()
      ensures !Owns(old(accounts), accountId, currentUser) ==> r == Err(AccountNotFound)
      ensures Owns(old(accounts), accountId, currentUser) ==>
        (r == Err(NotEnoughMoney) <==> old(accounts)[accountId].balance + transactionIn.amount < 0)
      ensures r.Ok? <==>
        (Owns(old(accounts), accountId, currentUser)
         && ApplyAmount(old(accounts)[accountId].balance, transactionIn.amount).Some?)
      ensures r.Err? ==> accounts == old(accounts) && transactions == old(transactions)
      ensures r.Ok? ==>
        && Owns(old(accounts), accountId, currentUser)
        && r.value == Transaction(accountId, transactionIn.amount, now, transactionIn.categoryId,
                                  transactionIn.description)
        && transactions == old(transactions)[newId := r.value]
        && accounts == old(accounts)[accountId :=
             old(accounts)[accountId].(balance := old(accounts)[accountId].balance + transactionIn.amount)]
        && accounts[accountId].balance >= 0
      ensures budgets == old(budgets) && targets == old(targets)
    {
      var found := GetAccountById(accountId, currentUser);
      if found.Err? {
        return Err(found.error);
      }
      var account := found.value;
      var newTransaction := Transaction(accountId, transactionIn.amount, now, transactionIn.categoryId,
                                        transactionIn.description);
      match ApplyAmount(account.balance, transactionIn.amount)
      case None =>
        return Err(NotEnoughMoney);
      case Some(newBalance) =>
        transactions := transactions[newId := newTransaction];
        accounts := accounts[accountId := account.(balance := newBalance)];
        r := Ok(newTransaction);
    }

    /** GET /budgets: the budgets of the caller's accounts. */
    method ReadBudgets(currentUser: Uuid) returns (r: map<Uuid, Budget>)
      ensures forall id :: id in r <==> id in budgets && Owns(accounts, budgets[id].accountId, currentUser)
      ensures forall id :: id in r ==> r[id] == budgets[id]
    {
      r := OwnedRecords(budgets, BudgetAccount, accounts, currentUser);
    }

    /** POST /budgets: 404 "Account not found" unless the named account is the caller's. */
    method CreateBudget(budgetIn: BudgetCreate, currentUser: Uuid, newId: Uuid) returns (r: Result<Budget, HttpError>)
      requires Valid() && newId !in budgets
      modifies this
      ensures Valid()
      ensures r.Ok? <==> Owns(old(accounts), budgetIn.accountId, currentUser)
      ensures r.Err? ==> r.error == AccountNotFound && budgets == old(budgets)
      ensures r.Ok? ==>
        && r.value == Budget(budgetIn.accountId, budgetIn.limit, budgetIn.startDate, budgetIn.endDate)
        && budgets == old(budgets)[newId := r.value]
      ensures accounts == old(accounts) && transactions == old(transactions) && targets == old(targets)
    {
      if !(budgetIn.accountId in accounts) || accounts[budgetIn.accountId].userId != currentUser {
        return Err(AccountNotFound);
      }
      var budget := Budget(budgetIn.accountId, budgetIn.limit, budgetIn.startDate, budgetIn.endDate);
      budgets := budgets[newId := budget];
      r := Ok(budget);
    }

    /** DELETE /budgets/{budget_id}: removes exactly that budget when it hangs off an
        account of the caller's; otherwise 404 "Budget not found" and nothing changes. */
    method DeleteBudget(budgetId: Uuid, currentUser: Uuid) returns (r: Result<(), HttpError>)
      requires Valid()
      modifies this
      ensures Valid()
      ensures r.Ok? <==> budgetId in old(budgets) && Owns(old(accounts), old(budgets)[budgetId].accountId, currentUser)
      ensures r.Ok? ==> budgets == old(budgets) - {budgetId}
      ensures r.Err? ==> r.error == BudgetNotFound && budgets == old(budgets)
      ensures accounts == old(accounts) && transactions == old(transactions) && targets == old(targets)
    {
      if budgetId !in budgets || accounts[budgets[budgetId].accountId].userId != currentUser {
        return Err(BudgetNotFound);
      }
      budgets := budgets - {budgetId};
      r := Ok(());
    }

    /** GET /targets: the targets of the caller's accounts. */
    method ReadTargets(currentUser: Uuid) returns (r: map<Uuid, Target>)
      ensures forall id :: id in r <==> id in targets && Owns(accounts, targets[id].accountId, currentUser)
      ensures forall id :: id in r ==> r[id] == targets[id]
    {
      r := OwnedRecords(targets, TargetAccount, accounts, currentUser);
    }

    /** POST /targets: 404 "Account not found" unless the named account is the caller's;
        created_at is the time of the request. */
    method CreateTarget(targetIn: TargetCreate, currentUser: Uuid, newId: Uuid, now: int)
      returns (r: Result<Target, HttpError>)
      requires Valid() && newId !in targets
      modifies this
      ensures Valid()
      ensures r.Ok? <==> Owns(old(accounts), targetIn.accountId, currentUser)
      ensures r.Err? ==> r.error == AccountNotFound && targets == old(targets)
      ensures r.Ok? ==>
        && r.value == Target(targetIn.accountId, targetIn.name, targetIn.targetAmount, targetIn.deadline,
                             targetIn.description, now)
        && targets == old(targets)[newId := r.value]
      ensures accounts == old(accounts) && transactions == old(transactions) && budgets == old(budgets)
    {
      if !(targetIn.accountId in accounts) || accounts[targetIn.accountId].userId != currentUser {
        return Err(AccountNotFound);
      }
      var target := Target(targetIn.accountId, targetIn.name, targetIn.targetAmount, targetIn.deadline,
                           targetIn.description, now);
      targets := targets[newId := target];
      r := Ok(target);
    }

    /** DELETE /targets/{target_id}: removes exactly that target when it hangs off an
        account of the caller's; otherwise 404 "Target not found" and nothing changes. */
    method DeleteTarget(targetId: Uuid, currentUser: Uuid) returns (r: Result<(), HttpError>)
      requires Valid()
      modifies this
      ensures Valid()
      ensures r.Ok? <==> targetId in old(targets) && Owns(old(accounts), old(targets)[targetId].accountId, currentUser)
      ensures r.Ok? ==> targets == old(targets) - {targetId}
      ensures r.Err? ==> r.error == TargetNotFound && targets == old(targets)
      ensures accounts == old(accounts) && transactions == old(transactions) && budgets == old(budgets)
    {
      if targetId !in targets || accounts[targets[targetId].accountId].userId != currentUser {
        return Err(TargetNotFound);
      }
      targets := targets - {targetId};
      r := Ok(());
    }
  }
}
