/** Balances, the debit/credit arithmetic on one wallet, and the supply of a
    currency summed over a guild's wallets. */
module Balances {
  import opened Wrappers
  import opened Schema

  type Wallets = map<WalletKey, Wallet>

  /** `wallet[c] || 0`: an absent currency reads as zero. */
  function Balance(b: map<string, int>, c: string): int {
    if c in b then b[c] else 0
  }

  /** `updated[c] = (updated[c] || 0) + delta`: only `c` changes, by `delta`. */
  function Credit(b: map<string, int>, c: string, delta: int): (r: map<string, int>)
    ensures Balance(r, c) == Balance(b, c) + delta
    ensures forall d :: d != c ==> Balance(r, d) == Balance(b, d)
    ensures forall d :: d != c && d in b ==> d in r && r[d] == b[d]
    ensures r.Keys == b.Keys + {c}
  {
    b[c := Balance(b, c) + delta]
  }

  /** The balance of currency `c` held under key `k`; zero when there is no wallet. */
  function BalanceAt(m: Wallets, k: WalletKey, c: string): int {
    if k in m then Balance(m[k].balances, c) else 0
  }

  /** Every wallet is stored under the key of its own guild and user. */
  ghost predicate KeyedByOwner(m: Wallets) {
    forall k :: k in m ==> m[k].Key() == k
  }

  /** No stored balance is negative. */
  ghost predicate Solvent(m: Wallets) {
    forall k, c :: k in m && c in m[k].balances ==> m[k].balances[c] >= 0
  }

  /** What `createUserWallet` writes: an empty balance map and no timestamps. */
  function EmptyWallet(id: nat, g: string, u: string): (w: Wallet)
    ensures w.Key() == WalletKey(g, u)
    ensures forall c :: Balance(w.balances, c) == 0
    ensures w.lastWorked.None? && w.lastStolen.None?
  {
    Wallet(id, g, u, map[], None, None)
  }

  /** The contribution of the wallet under `k` to the supply of `c` in guild `g`. */
  function Share(k: WalletKey, w: Wallet, g: string, c: string): int {
    if k.guildId == g then Balance(w.balances, c) else 0
  }

  /** The total amount of currency `c` held by all wallets of guild `g`. */
  ghost function Supply(m: Wallets, g: string, c: string): int
    decreases |m|
  {
    if m == map[] then 0
    else
      var k :| k in m;
      assert |m - {k}| < |m| by {
        assert (m - {k}).Keys == m.Keys - {k};
      }
      Share(k, m[k], g, c) + Supply(m - {k}, g, c)
  }

  /** The supply splits into any one wallet's share and the rest. */
  lemma {:induction false} SupplyRemove(m: Wallets, k: WalletKey, g: string, c: string)
    requires k in m
    ensures Supply(m, g, c) == Share(k, m[k], g, c) + Supply(m - {k}, g, c)
    decreases |m|
  {
    var j :| j in m && Supply(m, g, c) == Share(j, m[j], g, c) + Supply(m - {j}, g, c);
    if j != k {
      var mj, mk := m - {j}, m - {k};
      assert |mj| < |m| by { assert mj.Keys == m.Keys - {j}; }
      assert |mk| < |m| by { assert mk.Keys == m.Keys - {k}; }
      SupplyRemove(mj, k, g, c);
      SupplyRemove(mk, j, g, c);
      assert mj - {k} == mk - {j};
    }
  }

  /** Replacing (or adding) the wallet under `k` changes the supply by the
      difference of the two shares and by nothing else. */
  lemma SupplyUpdate(m: Wallets, k: WalletKey, w: Wallet, g: string, c: string)
    ensures Supply(m[k := w], g, c)
         == Supply(m, g, c) - (if k in m then Share(k, m[k], g, c) else 0) + Share(k, w, g, c)
  {
    var m' := m[k := w];
    SupplyRemove(m', k, g, c);
    assert m' - {k} == m - {k};
    if k in m {
      SupplyRemove(m, k, g, c);
    } else {
      assert m - {k} == m;
    }
  }

  /** Adding or replacing a wallet by an empty one, or changing a wallet's
      balances by amounts summing to zero in `c`, in another guild or in
      another currency, leaves the supply of `c` in `g` where it was. */
  lemma SupplyUnchangedByBalance(m: Wallets, k: WalletKey, w: Wallet, g: string, c: string)
    requires Share(k, w, g, c) == (if k in m then Share(k, m[k], g, c) else 0)
    ensures Supply(m[k := w], g, c) == Supply(m, g, c)
  {
    SupplyUpdate(m, k, w, g, c);
  }

  /** `transferCurrency`'s two writes: both new balance maps are computed from
      the wallets as they were read, and the receiver's is written second. */
  function Transferred(m: Wallets, g: string, from: string, to: string, c: string, amount: int): (r: Wallets)
    requires WalletKey(g, from) in m && WalletKey(g, to) in m
    ensures r.Keys == m.Keys
  {
    var fk, tk := WalletKey(g, from), WalletKey(g, to);
    var m1 := m[fk := m[fk].(balances := Credit(m[fk].balances, c, -amount))];
    m1[tk := m[tk].(balances := Credit(m[tk].balances, c, amount))]
  }

  /** Between two different users, a transfer debits the sender and credits the
      receiver by exactly `amount`, and touches no other balance or wallet. */
  lemma TransferMovesAmount(m: Wallets, g: string, from: string, to: string, c: string, amount: int)
    requires WalletKey(g, from) in m && WalletKey(g, to) in m && from != to
    ensures var r, fk, tk := Transferred(m, g, from, to, c, amount), WalletKey(g, from), WalletKey(g, to);
      && BalanceAt(r, fk, c) == BalanceAt(m, fk, c) - amount
      && BalanceAt(r, tk, c) == BalanceAt(m, tk, c) + amount
      && (forall d :: d != c ==> BalanceAt(r, fk, d) == BalanceAt(m, fk, d) && BalanceAt(r, tk, d) == BalanceAt(m, tk, d))
      && (forall k :: k in m && k != fk && k != tk ==> r[k] == m[k])
      && r[fk].id == m[fk].id && r[tk].id == m[tk].id
  {
  }

  /** Between two different users, a transfer conserves the supply of every
      currency in every guild. */
  lemma TransferConserves(m: Wallets, g: string, from: string, to: string, c: string, amount: int, g': string, d: string)
    requires WalletKey(g, from) in m && WalletKey(g, to) in m && from != to
    ensures Supply(Transferred(m, g, from, to, c, amount), g', d) == Supply(m, g', d)
  {
    var fk, tk := WalletKey(g, from), WalletKey(g, to);
    var m1 := m[fk := m[fk].(balances := Credit(m[fk].balances, c, -amount))];
    SupplyUpdate(m, fk, m1[fk], g', d);
    SupplyUpdate(m1, tk, m[tk].(balances := Credit(m[tk].balances, c, amount)), g', d);
  }

  /** A transfer to oneself adds `amount`: the receiver's write, computed from the
      balance before the debit, overwrites the sender's. */
  lemma SelfTransferCredits(m: Wallets, g: string, u: string, c: string, amount: int)
    requires WalletKey(g, u) in m
    ensures BalanceAt(Transferred(m, g, u, u, c, amount), WalletKey(g, u), c) == BalanceAt(m, WalletKey(g, u), c) + amount
    ensures Supply(Transferred(m, g, u, u, c, amount), g, c) == Supply(m, g, c) + amount
  {
    var k := WalletKey(g, u);
    var m1 := m[k := m[k].(balances := Credit(m[k].balances, c, -amount))];
    assert Transferred(m, g, u, u, c, amount) == m[k := m[k].(balances := Credit(m[k].balances, c, amount))];
    SupplyUpdate(m, k, m[k].(balances := Credit(m[k].balances, c, amount)), g, c);
  }

  /** A transfer of a non-negative amount that passed the balance check leaves
      no balance negative. */
  lemma TransferKeepsSolvent(m: Wallets, g: string, from: string, to: string, c: string, amount: int)
    requires WalletKey(g, from) in m && WalletKey(g, to) in m
    requires Solvent(m) && 0 <= amount <= BalanceAt(m, WalletKey(g, from), c)
    ensures Solvent(Transferred(m, g, from, to, c, amount))
  {
    var r := Transferred(m, g, from, to, c, amount);
    forall k, d | k in r && d in r[k].balances ensures r[k].balances[d] >= 0 {
      assert Balance(m[k].balances, d) >= 0;
    }
  }
}
