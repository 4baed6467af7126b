/**
 * The in-memory store of the first practice API: a list of users, each holding a
 * list of account records, each holding a list of transactions. Lookups scan the
 * users in order and, inside a user with the requested id, the accounts in order;
 * the first match wins. Only an account's transaction list is ever changed, by an
 * in-place append, so an account is an object and everything else a value.
 */
module NestedStore {
  import opened Results

  type Uuid = nat

  datatype Category = Category(id: int, name: string)
  datatype Transaction = Transaction(id: Uuid, accountId: Uuid, amount: int, timestamp: string,
                                     category: Category, description: string)

  /** An account record; its transaction list is appended to in place. */
  class Account {
    const id: Uuid
    const userId: Uuid
    const name: string
    const balance: int
    const currency: string
    var transactions: seq<Transaction>

    constructor (id: Uuid, userId: Uuid, name: string, balance: int, currency: string,
                 transactions: seq<Transaction>)
      ensures this.id == id && this.userId == userId && this.name == name
      ensures this.balance == balance && this.currency == currency
      ensures this.transactions == transactions
    {
      this.id, this.userId, this.name, this.balance, this.currency := id, userId, name, balance, currency;
      this.transactions := transactions;
    }
  }

  datatype User = User(id: Uuid, username: string, email: string, createdAt: string, accounts: seq<Account>)

  /** The body of a PUT to an account's transactions. */
  datatype TransactionInput = TransactionInput(amount: int, category: int, description: string)

  /** add_transaction's response: status and the new record. */
  datatype Created = Created(status: int, transaction: Transaction)

  const UnknownCategory: string := "Unknown"

  /** users[i] is the first user with id `userId`. */
  predicate FirstUser(users: seq<User>, userId: Uuid, i: int) {
    0 <= i < |users| && users[i].id == userId && forall k :: 0 <= k < i ==> users[k].id != userId
  }

  /** users[i] has id `userId` and its j-th account has id `accountId`. */
  predicate MatchAt(users: seq<User>, userId: Uuid, accountId: Uuid, i: int, j: int) {
    0 <= i < |users| && users[i].id == userId && 0 <= j < |users[i].accounts|
    && users[i].accounts[j].id == accountId
  }

  /** (i, j) is the first match in scan order: earlier users first, then earlier accounts. */
  ghost predicate FirstMatch(users: seq<User>, userId: Uuid, accountId: Uuid, i: int, j: int) {
    && MatchAt(users, userId, accountId, i, j)
    && forall i', j' :: MatchAt(users, userId, accountId, i', j') ==> i < i' || (i == i' && j <= j')
  }

  /** There is at most one first match. */
  lemma FirstMatchUnique(users: seq<User>, userId: Uuid, accountId: Uuid, i: int, j: int, i': int, j': int)
    requires FirstMatch(users, userId, accountId, i, j) && FirstMatch(users, userId, accountId, i', j')
    ensures i == i' && j == j'
  {
  }

  /** The module-level list of users. The list itself is never changed. */
  class Db {
    const users: seq<User>

    constructor (users: seq<User>)
      ensures this.users == users
    {
      this.users := users;
    }

    /** The seed data: one user owning "Bank Account" and "Crypto Wallet", which are both
        given the id `account0`; the wallet's transactions name `account1` as their
        account. Generated uuid4 values are parameters. */
    constructor Seed(userId: Uuid, account0: Uuid, account1: Uuid, categoryInvestment: Uuid, categoryCrypto: Uuid,
                     categoryOther: Uuid, txIds: seq<Uuid>)
      requires |txIds| == 7
      ensures |users| == 1 && users[0].id == userId && |users[0].accounts| == 2
      ensures users[0].accounts[0].id == account0 && users[0].accounts[0].name == "Bank Account"
      ensures users[0].accounts[1].id == account0 && users[0].accounts[1].name == "Crypto Wallet"
    {
      var bank := new Account(account0, userId, "Bank Account", 1000, "USD", [
        Transaction(txIds[0], account0, 100000, "2023-10-01T12:00:00", Category(categoryOther, "Other"),
                    "Initial deposit"),
        Transaction(txIds[1], account0, -50000, "2023-10-02T13:00:00", Category(categoryInvestment, "Investments"),
                    "купил"),
        Transaction(txIds[2], account0, -50000, "2023-10-03T14:00:00", Category(categoryInvestment, "Investments"),
                    "докупил"),
        Transaction(txIds[3], account0, 1000, "2023-10-04T15:00:00", Category(categoryInvestment, "Investments"),
                    "зафиксировал")]);
      var wallet := new Account(account0, userId, "Crypto Wallet", 0, "BTC", [
        Transaction(txIds[4], account1, 1, "2023-10-01T13:00:00", Category(categoryCrypto, "Crypto"),
                    "купил крипту"),
        Transaction(txIds[5], account1, 2, "2023-10-02T14:00:00", Category(categoryCrypto, "Crypto"),
                    "докупил крипту"),
        Transaction(txIds[6], account1, 3, "2023-10-03T15:00:00", Category(categoryCrypto, "Crypto"),
                    "зафиксировал")]);
      users := [User(userId, "average_crypto_fan", "ilovecrypto@mail.ru", "2023-10-01T12:00:00", [bank, wallet])];
    }

    /** Every account object reachable from the user list. */
    ghost function AllAccounts(): set<Account> {
      set i, j | 0 <= i < |users| && 0 <= j < |users[i].accounts| :: users[i].accounts[j]
    }

    /** GET /users/{user_id}/accounts: the accounts of the first user with that id, or
        404 and an empty list. */
    method GetAllAccounts(userId: Uuid) returns (status: int, accounts: seq<Account>)
      ensures status == 200 <==> exists i :: 0 <= i < |users| && users[i].id == userId
      ensures status == 200 ==> exists i :: FirstUser(users, userId, i) && accounts == users[i].accounts
      ensures status != 200 ==> status == 404 && accounts == []
    {
      for i := 0 to |users|
        invariant forall k :: 0 <= k < i ==> users[k].id != userId
      {
        if users[i].id == userId {
          assert FirstUser(users, userId, i);
          return 200, users[i].accounts;
        }
      }
      return 404, [];
    }

    /** GET /users/{user_id}/accounts/{account_id}: the first matching account. A user
        with the right id but without the account does not end the scan: a later user
        with the same id is searched too. */
    method GetAccountById(userId: Uuid, accountId: Uuid) returns (status: int, account: Option<Account>)
      ensures account.Some? <==> exists i, j :: MatchAt(users, userId, accountId, i, j)
      ensures account.Some? ==> status == 200
      ensures account.Some? ==>
        exists i, j :: FirstMatch(users, userId, accountId, i, j) && account.value == users[i].accounts[j]
      ensures account.None? ==> status == 404
    {
      for i := 0 to |users|
        invariant forall i', j' :: MatchAt(users, userId, accountId, i', j') ==> i <= i'
      {
        if users[i].id == userId {
          var accounts := users[i].accounts;
          for j := 0 to |accounts|
            invariant forall j' :: MatchAt(users, userId, accountId, i, j') ==> j <= j'
          {
            if accounts[j].id == accountId {
              assert FirstMatch(users, userId, accountId, i, j);
              return 200, Some(accounts[j]);
            }
          }
        }
      }
      return 404, None;
    }

    /** GET /users/{user_id}/accounts/{account_id}/transactions: the first matching
        account's transaction list as it is, or 404 and an empty list. */
    method GetTransactionsByAccount(userId: Uuid, accountId: Uuid) returns (status: int, transactions: seq<Transaction>)
      ensures status == 200 <==> exists i, j :: MatchAt(users, userId, accountId, i, j)
      ensures status == 200 ==>
        exists i, j :: FirstMatch(users, userId, accountId, i, j) && transactions == users[i].accounts[j].transactions
      ensures status != 200 ==> status == 404 && transactions == []
    {
      for i := 0 to |users|
        invariant forall i', j' :: MatchAt(users, userId, accountId, i', j') ==> i <= i'
      {
        if users[i].id == userId {
          var accounts := users[i].accounts;
          for j := 0 to |accounts|
            invariant forall j' :: MatchAt(users, userId, accountId, i, j') ==> j <= j'
          {
            if accounts[j].id == accountId {
              assert FirstMatch(users, userId, accountId, i, j);
              return 200, accounts[j].transactions;
            }
          }
        }
      }
      return 404, [];
    }

    /** PUT /users/{user_id}/accounts/{account_id}/transactions: appends one record to the
        first matching account's list and returns it with status 201. The record takes
        its account id from the path and its category name is "Unknown". With no match
        nothing changes and the handler falls off its end (None): there is no 404. */
    method AddTransaction(userId: Uuid, accountId: Uuid, input: TransactionInput, newId: Uuid, now: string)
      returns (r: Option<Created>)
      modifies AllAccounts()
      ensures r.Some? <==> exists i, j :: MatchAt(users, userId, accountId, i, j)
      ensures r.Some? ==>
        && r.value.status == 201
        && r.value.transaction == Transaction(newId, accountId, input.amount, now,
                                              Category(input.category, UnknownCategory), input.description)
        && exists i, j :: FirstMatch(users, userId, accountId, i, j) &&
             var target := users[i].accounts[j];
             && target.transactions == old(target.transactions) + [r.value.transaction]
             && forall a :: a in AllAccounts() && a != target ==> a.transactions == old(a.transactions)
      ensures r.None? ==> forall a :: a in AllAccounts() ==> a.transactions == old(a.transactions)
    {
      for i := 0 to |users|
        invariant forall i', j' :: MatchAt(users, userId, accountId, i', j') ==> i <= i'
      {
        if users[i].id == userId {
          var accounts := users[i].accounts;
          for j := 0 to |accounts|
            invariant forall j' :: MatchAt(users, userId, accountId, i, j') ==> j <= j'
          {
            if accounts[j].id == accountId {
              assert FirstMatch(users, userId, accountId, i, j);
              var newTransaction := Transaction(newId, accountId, input.amount, now,
                                                Category(input.category, UnknownCategory), input.description);
              accounts[j].transactions := accounts[j].transactions + [newTransaction];
              return Some(Created(201, newTransaction));
            }
          }
        }
      }
      return None;
    }
  }

  /** With the seed data, the lookup of `account0` finds "Bank Account" (the wallet
      shares its id and is never reached) and `account1` is not found at all. */
  method SeedLookups(userId: Uuid, account0: Uuid, account1: Uuid, categoryInvestment: Uuid, categoryCrypto: Uuid,
                     categoryOther: Uuid, txIds: seq<Uuid>)
    returns (found: Option<Account>, missingStatus: int)
    requires |txIds| == 7 && account0 != account1
    ensures found.Some? && found.value.name == "Bank Account"
    ensures missingStatus == 404
  {
    var db := new Db.Seed(userId, account0, account1, categoryInvestment, categoryCrypto, categoryOther, txIds);
    var status;
    status, found := db.GetAccountById(userId, account0);
    assert MatchAt(db.users, userId, account0, 0, 0);
    var missing;
    missingStatus, missing := db.GetAccountById(userId, account1);
  }
}
