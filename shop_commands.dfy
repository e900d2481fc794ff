/** `/crear-comercio`: buying a shop with the guild's first currency, which
    pays the shop's price and then an initial payment back to the buyer. */
module ShopCommands {
  import opened Wrappers
  import opened Schema
  import opened Seqs
  import opened Balances
  import opened Storage

  /** The price table of the purchase command. */
  function Cost(size: ShopSize): (r: int)
    ensures 2000 <= r <= 6000 && r % 2000 == 0
  {
    match size
    case Chico => 2000
    case Mediano => 4000
    case Grande => 6000
  }

  /** The initial payment table of the purchase command. */
  function InitialEarnings(size: ShopSize): (r: int)
    ensures 0 < r < Cost(size)
  {
    match size
    case Chico => 250
    case Mediano => 500
    case Grande => 750
  }

  /** The most shops one user may hold in a guild. */
  const MaxShops := 3

  /** What a purchase ends in: one of the four refusals, or the new shop. */
  datatype Purchase =
    | NoWallet
    | ShopLimit
    | NoCurrencies
    | CannotAfford(cost: int, currencyName: string)
    | Opened(shop: Shop)

  /** The private reply of a refusal; an opened shop is announced with an embed. */
  function RefusalText(p: Purchase): (r: string)
    requires !p.Opened?
    ensures p.CannotAfford? ==> Text.Contains(r, Text.IntToString(p.cost) + " " + p.currencyName)
  {
    match p
    case NoWallet => "No tienes una billetera. Usa /crear-billetera primero."
    case ShopLimit => "Ya tienes el máximo de 3 comercios permitidos."
    case NoCurrencies => "No hay monedas configuradas en el servidor."
    case CannotAfford(cost, name) =>
      var head, needed := "No tienes suficiente dinero. Necesitas ", Text.IntToString(cost) + " " + name;
      Text.ContainsMiddle(head, needed, "");
      assert head + needed == head + needed + "";
      head + needed
  }

  /** The buyer's balances after the purchase: the price taken from the first
      currency, then the initial payment added to the same entry. */
  function AfterPurchase(b: map<string, int>, c: string, size: ShopSize): (r: map<string, int>)
    ensures Balance(r, c) == Balance(b, c) - Cost(size) + InitialEarnings(size)
    ensures forall d :: d != c ==> Balance(r, d) == Balance(b, d)
    ensures Balance(b, c) >= Cost(size) ==> Balance(r, c) > 0
  {
    var deducted := b[c := Balance(b, c) - Cost(size)];
    deducted[c := Balance(deducted, c) + InitialEarnings(size)]
  }

  /** `/crear-comercio` for user `u` in guild `g`. The checks come in order: a
      wallet, fewer than three shops, a currency, and a first-currency balance
      covering the price; a refusal writes nothing. A purchase deducts the price,
      creates the shop, then adds the initial payment. `deducted` is the wallet
      table at the moment the shop is created. */
  method CreateShopCommand(ledger: Ledger, g: string, u: string, size: ShopSize, nombre: string, tipo: string,
                           imagen: string, now: int)
    returns (outcome: Purchase, ghost deducted: Wallets)
    requires ledger.Valid()
    modifies ledger`wallets, ledger`shops, ledger`nextId
    ensures ledger.Valid()
    ensures var k, cs, owned := WalletKey(g, u), ledger.CurrenciesOf(g), old(ledger.ShopsOfUser(g, u));
      && (k !in old(ledger.wallets) ==> outcome == NoWallet)
      && (k in old(ledger.wallets) && |owned| >= MaxShops ==> outcome == ShopLimit)
      && (k in old(ledger.wallets) && |owned| < MaxShops && cs == [] ==> outcome == NoCurrencies)
      && (k in old(ledger.wallets) && |owned| < MaxShops && cs != [] &&
          BalanceAt(old(ledger.wallets), k, cs[0].name) < Cost(size) ==>
            outcome == CannotAfford(Cost(size), cs[0].name))
      && ((k in old(ledger.wallets) && |owned| < MaxShops && cs != [] &&
           BalanceAt(old(ledger.wallets), k, cs[0].name) >= Cost(size)) ==> outcome.Opened?)
      && (outcome.Opened? ==>
            && k in old(ledger.wallets) && |owned| < MaxShops && cs != []
            && BalanceAt(old(ledger.wallets), k, cs[0].name) >= Cost(size)
            && outcome.shop == Shop(old(ledger.nextId), g, u, nombre, tipo, size, Some(imagen), now, now)
            && ledger.shops == old(ledger.shops) + [outcome.shop]
            && ledger.nextId == old(ledger.nextId) + 1
            && deducted == old(ledger.wallets)[k := old(ledger.wallets)[k].(balances :=
                 old(ledger.wallets)[k].balances[cs[0].name := BalanceAt(old(ledger.wallets), k, cs[0].name) - Cost(size)])]
            && ledger.wallets == old(ledger.wallets)[k := old(ledger.wallets)[k].(balances :=
                 AfterPurchase(old(ledger.wallets)[k].balances, cs[0].name, size))])
    ensures !outcome.Opened? ==>
      ledger.wallets == old(ledger.wallets) && ledger.shops == old(ledger.shops) && ledger.nextId == old(ledger.nextId)
    ensures Solvent(old(ledger.wallets)) ==> Solvent(ledger.wallets)
  {
    deducted := ledger.wallets;
    var wallet := ledger.WalletOf(g, u);
    if wallet.None? {
      return NoWallet, deducted;
    }
    var existingShops := ledger.ShopsOfUser(g, u);
    if |existingShops| >= MaxShops {
      return ShopLimit, deducted;
    }
    var cost := Cost(size);
    var currencies := ledger.CurrenciesOf(g);
    if |currencies| == 0 {
      return NoCurrencies, deducted;
    }
    var currency := currencies[0];
    var balance := Balance(wallet.value.balances, currency.name);
    if balance < cost {
      return CannotAfford(cost, currency.name), deducted;
    }
    if Solvent(ledger.wallets) {
      PurchaseKeepsSolvent(ledger.wallets, WalletKey(g, u), currency.name, size);
    }
    var shop;
    shop, deducted := Open(ledger, g, u, currency.name, size, nombre, tipo, imagen, now);
    outcome := Opened(shop);
  }

  /** The paying part of `/crear-comercio`, once every check has passed. */
  method Open(ledger: Ledger, g: string, u: string, c: string, size: ShopSize, nombre: string, tipo: string,
              imagen: string, now: int)
    returns (shop: Shop, ghost deducted: Wallets)
    requires ledger.Valid() && WalletKey(g, u) in ledger.wallets
    modifies ledger`wallets, ledger`shops, ledger`nextId
    ensures ledger.Valid()
    ensures var k, w := WalletKey(g, u), old(ledger.wallets)[WalletKey(g, u)];
      && shop == Shop(old(ledger.nextId), g, u, nombre, tipo, size, Some(imagen), now, now)
      && ledger.shops == old(ledger.shops) + [shop]
      && ledger.nextId == old(ledger.nextId) + 1
      && deducted == old(ledger.wallets)[k := w.(balances := w.balances[c := Balance(w.balances, c) - Cost(size)])]
      && ledger.wallets == old(ledger.wallets)[k := w.(balances := AfterPurchase(w.balances, c, size))]
  {
    var w := ledger.wallets[WalletKey(g, u)];
    var updatedWallet := w.balances[c := Balance(w.balances, c) - Cost(size)];
    ledger.RewriteBalances(WalletKey(g, u), updatedWallet);
    deducted := ledger.wallets;
    shop := ledger.CreateShop(g, u, nombre, tipo, size, Some(imagen), now);
    updatedWallet := updatedWallet[c := Balance(updatedWallet, c) + InitialEarnings(size)];
    ledger.RewriteBalances(WalletKey(g, u), updatedWallet);
    assert ledger.wallets[WalletKey(g, u)] == w.(balances := AfterPurchase(w.balances, c, size));
  }

  /** A purchase leaves the buyer with at most three shops in the guild: it
      succeeds only below the limit and adds exactly one shop, theirs. */
  lemma PurchaseKeepsLimit(shops: seq<Shop>, s: Shop, g: string, u: string)
    requires |Filter(shops, (x: Shop) => x.guildId == g && x.userId == u)| < MaxShops
    requires s.guildId == g && s.userId == u
    ensures |Filter(shops + [s], (x: Shop) => x.guildId == g && x.userId == u)| <= MaxShops
  {
    FilterConcat(shops, [s], (x: Shop) => x.guildId == g && x.userId == u);
  }

  /** A purchase between solvent wallets leaves every balance non-negative:
      only the buyer's first-currency entry changes, and the guard ensured it
      covered the price. */
  lemma PurchaseKeepsSolvent(m: Wallets, k: WalletKey, c: string, size: ShopSize)
    requires k in m && Solvent(m)
    requires BalanceAt(m, k, c) >= Cost(size)
    ensures Solvent(m[k := m[k].(balances := AfterPurchase(m[k].balances, c, size))])
  {
    var r := m[k := m[k].(balances := AfterPurchase(m[k].balances, c, size))];
    forall j, d | j in r && d in r[j].balances ensures r[j].balances[d] >= 0 {
      if j == k && d != c {
        assert Balance(r[j].balances, d) == Balance(m[k].balances, d);
      }
    }
  }

  /** A purchase changes the guild's supply of the currency paid with by the
      initial payment less the price. */
  lemma PurchaseSupply(m: Wallets, k: WalletKey, c: string, size: ShopSize)
    requires k in m
    ensures Supply(m[k := m[k].(balances := AfterPurchase(m[k].balances, c, size))], k.guildId, c)
         == Supply(m, k.guildId, c) - Cost(size) + InitialEarnings(size)
  {
    SupplyUpdate(m, k, m[k].(balances := AfterPurchase(m[k].balances, c, size)), k.guildId, c);
  }
}
