/** Accounts and the sum of their balances (core/state as the execution code uses it). */
module Ledger {
  import opened Types

  /** `code` is the length of the stored code (0 for none) and `storage` stands for the storage trie. */
  datatype Account = Account(balance: int, nonce: nat, code: nat, storage: int)

  type Accounts = map<Address, Account>

  /** `suicided` and `refund` are per-transaction. */
  datatype World = World(accounts: Accounts, refund: nat, suicided: set<Address>)

  const STARTING_NONCE: nat := 0

  ghost function Total(m: Accounts): int
    decreases |m|
  {
    if m == map[] then 0 else
      var a :| a in m;
      SmallerWithout(m, a);
      m[a].balance + Total(m - {a})
  }

  lemma SmallerWithout(m: Accounts, a: Address)
    requires a in m
    ensures |m - {a}| == |m| - 1
  {
    assert (m - {a}).Keys == m.Keys - {a};
    assert |m.Keys| == |m| && |(m - {a}).Keys| == |m - {a}|;
  }

  /** The sum does not depend on the order of summation. */
  lemma {:induction false} TotalWithout(m: Accounts, a: Address)
    requires a in m
    ensures Total(m) == m[a].balance + Total(m - {a})
    decreases |m|
  {
    SmallerWithout(m, a);
    var b :| b in m && Total(m) == m[b].balance + Total(m - {b});
    if b != a {
      SmallerWithout(m, b);
      TotalWithout(m - {b}, a);
      TotalWithout(m - {a}, b);
      assert m - {b} - {a} == m - {a} - {b};
    }
  }

  function Balance(m: Accounts, a: Address): int {
    if a in m then m[a].balance else 0
  }

  lemma TotalUpdate(m: Accounts, a: Address, acct: Account)
    ensures Total(m[a := acct]) == Total(m) - Balance(m, a) + acct.balance
  {
    var m' := m[a := acct];
    TotalWithout(m', a);
    assert m' - {a} == m - {a};
    if a in m {
      TotalWithout(m, a);
    } else {
      assert m - {a} == m;
    }
  }

  /** Creating an account carries an existing balance over and resets the rest. */
  function CreateAccount(m: Accounts, a: Address): Accounts {
    m[a := Account(Balance(m, a), STARTING_NONCE, 0, 0)]
  }

  function GetOrNew(m: Accounts, a: Address): Account {
    if a in m then m[a] else Account(0, STARTING_NONCE, 0, 0)
  }

  function AddBalance(m: Accounts, a: Address, amount: int): Accounts {
    var acct := GetOrNew(m, a);
    m[a := acct.(balance := acct.balance + amount)]
  }

  function SetNonce(m: Accounts, a: Address, nonce: nat): Accounts {
    m[a := GetOrNew(m, a).(nonce := nonce)]
  }

  function GetNonce(m: Accounts, a: Address): nat {
    GetOrNew(m, a).nonce
  }

  /** Subtracts, then adds; sender and receiver may be the same account, and moving nothing creates nothing. */
  function Transfer(m: Accounts, from: Address, to: Address, value: int): Accounts {
    if value == 0 then m else AddBalance(AddBalance(m, from, -value), to, value)
  }

  lemma BalanceNonNegative(m: Accounts, a: Address)
    requires NonNegative(m)
    ensures Balance(m, a) >= 0
  {
  }

  ghost predicate NonNegative(m: Accounts) {
    forall a :: a in m ==> m[a].balance >= 0
  }

  lemma TotalAddBalance(m: Accounts, a: Address, amount: int)
    ensures Total(AddBalance(m, a, amount)) == Total(m) + amount
    ensures NonNegative(m) && Balance(m, a) + amount >= 0 ==> NonNegative(AddBalance(m, a, amount))
  {
    TotalUpdate(m, a, GetOrNew(m, a).(balance := GetOrNew(m, a).balance + amount));
  }

  lemma TotalTransfer(m: Accounts, from: Address, to: Address, value: int)
    ensures Total(Transfer(m, from, to, value)) == Total(m)
  {
    TotalAddBalance(m, from, -value);
    TotalAddBalance(AddBalance(m, from, -value), to, value);
  }

  lemma TotalCreate(m: Accounts, a: Address)
    ensures Total(CreateAccount(m, a)) == Total(m)
    ensures NonNegative(m) ==> NonNegative(CreateAccount(m, a))
  {
    TotalUpdate(m, a, Account(Balance(m, a), STARTING_NONCE, 0, 0));
  }

  lemma TotalSetNonce(m: Accounts, a: Address, nonce: nat)
    ensures Total(SetNonce(m, a, nonce)) == Total(m)
    ensures NonNegative(m) ==> NonNegative(SetNonce(m, a, nonce))
  {
    TotalUpdate(m, a, GetOrNew(m, a).(nonce := nonce));
  }

  function Only(m: Accounts, owners: set<Address>): Accounts {
    map a | a in m && a in owners :: m[a]
  }

  /** What the accounts of a set hold together. */
  ghost function HeldBy(m: Accounts, owners: set<Address>): int {
    Total(Only(m, owners))
  }

  lemma {:induction false} HeldApart(m: Accounts, owners: set<Address>)
    ensures Total(m) == Total(m - owners) + HeldBy(m, owners)
    decreases |m|
  {
    var held := Only(m, owners);
    if m == map[] {
      assert m - owners == m && held == m;
    } else {
      var a :| a in m;
      var rest := m - {a};
      SmallerWithout(m, a);
      TotalWithout(m, a);
      HeldApart(rest, owners);
      if a in owners {
        TotalWithout(held, a);
        assert held - {a} == Only(rest, owners);
        assert rest - owners == m - owners;
      } else {
        TotalWithout(m - owners, a);
        assert m - owners - {a} == rest - owners;
        assert held == Only(rest, owners);
      }
    }
  }

  lemma {:induction false} TotalNonNegative(m: Accounts)
    requires NonNegative(m)
    ensures Total(m) >= 0
    decreases |m|
  {
    if m != map[] {
      var a :| a in m;
      SmallerWithout(m, a);
      TotalWithout(m, a);
      TotalNonNegative(m - {a});
    }
  }

  lemma HeldNonNegative(m: Accounts, owners: set<Address>)
    requires NonNegative(m)
    ensures HeldBy(m, owners) >= 0
  {
    TotalNonNegative(Only(m, owners));
  }

  lemma {:induction false} EmptyHold(m: Accounts)
    requires forall a :: a in m ==> m[a].balance == 0
    ensures Total(m) == 0
    decreases |m|
  {
    if m != map[] {
      var a :| a in m;
      SmallerWithout(m, a);
      TotalWithout(m, a);
      EmptyHold(m - {a});
    }
  }

  /** Accounts without a balance add nothing to what a set holds. */
  lemma HeldWithEmpty(m: Accounts, owners: set<Address>, empty: set<Address>)
    requires forall a :: a in m && a in empty ==> m[a].balance == 0
    ensures HeldBy(m, owners + empty) == HeldBy(m, owners)
  {
    var all := Only(m, owners + empty);
    HeldApart(all, owners);
    assert Only(all, owners) == Only(m, owners);
    EmptyHold(all - owners);
  }
}
