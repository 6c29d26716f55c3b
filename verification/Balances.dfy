/** Account balances and the total supply of ether. */
module Balances {
  type Address = nat

  function Get(m: map<Address, nat>, a: Address): nat {
    if a in m then m[a] else 0
  }

  ghost function Total(m: map<Address, nat>): nat {
    if m == map[] then 0
    else
      var a :| a in m;
      m[a] + Total(m - {a})
  }

  lemma {:induction false} TotalWithout(m: map<Address, nat>, a: Address)
    requires a in m
    ensures Total(m) == m[a] + Total(m - {a})
    decreases |m|
  {
    var b :| b in m && Total(m) == m[b] + Total(m - {b});
    if a != b {
      TotalWithout(m - {b}, a);
      TotalWithout(m - {a}, b);
      assert m - {b} - {a} == m - {a} - {b};
    }
  }

  /** Setting one balance changes the total by the difference. */
  lemma TotalSet(m: map<Address, nat>, a: Address, v: nat)
    ensures Total(m[a := v]) + Get(m, a) == Total(m) + v
  {
    TotalWithout(m[a := v], a);
    if a in m {
      TotalWithout(m, a);
      assert m[a := v] - {a} == m - {a};
    } else {
      assert m[a := v] - {a} == m;
    }
  }

  lemma GetBounded(m: map<Address, nat>, a: Address)
    ensures Get(m, a) <= Total(m)
  {
  }

  /** What the accounts of a set hold together. */
  ghost function Held(m: map<Address, nat>, accounts: set<Address>): nat {
    Total(Restricted(m, accounts))
  }

  function Restricted(m: map<Address, nat>, accounts: set<Address>): map<Address, nat> {
    map a | a in m && a in accounts :: m[a]
  }

  lemma RestrictedEntries(m: map<Address, nat>, accounts: set<Address>)
    ensures forall a :: a in Restricted(m, accounts) <==> a in m && a in accounts
    ensures forall a :: a in Restricted(m, accounts) ==> Restricted(m, accounts)[a] == m[a]
  {
  }

  lemma NothingTotal()
    ensures Total(map[]) == 0
  {
  }

  /** Deleting accounts takes what they hold out of the total. */
  lemma {:induction false} TotalSplit(m: map<Address, nat>, accounts: set<Address>)
    ensures Total(m) == Total(m - accounts) + Held(m, accounts)
    decreases |m|
  {
    hide Total, Restricted;
    RestrictedEntries(m, accounts);
    if a :| a in m && a in accounts {
      RestrictedEntries(m - {a}, accounts);
      TotalWithout(m, a);
      TotalSplit(m - {a}, accounts);
      assert m - {a} - accounts == m - accounts;
      TotalWithout(Restricted(m, accounts), a);
      assert Restricted(m - {a}, accounts) == Restricted(m, accounts) - {a};
    } else {
      assert m - accounts == m && Restricted(m, accounts) == map[];
      NothingTotal();
    }
  }

  /** Setting one balance changes what a set of accounts holds only if the account is among them. */
  lemma HeldSet(m: map<Address, nat>, accounts: set<Address>, a: Address, v: nat)
    requires Get(m, a) <= v
    ensures Held(m[a := v], accounts) == Held(m, accounts) + if a in accounts then v - Get(m, a) else 0
  {
    var r := Restricted(m, accounts);
    if a in accounts {
      assert Restricted(m[a := v], accounts) == r[a := v];
      TotalSet(r, a, v);
    } else {
      assert Restricted(m[a := v], accounts) == r;
    }
  }
}
