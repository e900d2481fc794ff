/** The `/monedas`, `/balance`, `/transferir` and `/trabajar` commands. */
module CurrencyCommands {
  import opened Wrappers
  import opened Schema
  import opened Text
  import opened Balances
  import opened Storage
  import opened Random

  /** What the bot answers: a reply everybody sees, or one only the caller sees. */
  datatype Reply = Public(text: string) | Private(text: string)

  const NoCurrencies: string := "No hay monedas " + "configuradas en este servidor."

  const ListingTitle: string := "Monedas disponibles:"
  const ListingHeading: string := ListingTitle + "\n"

  /** `${c.name} (${c.symbol})`: the name first, then the symbol in brackets. */
  function CurrencyEntry(c: Currency): (r: string)
    ensures |r| >= |c.name| && r[..|c.name|] == c.name
    ensures Contains(r, "(" + c.symbol + ")")
  {
    var b := "(" + c.symbol + ")";
    ContainsMiddle(c.name + " ", b, "");
    assert c.name + " " + b + "" == c.name + " " + b;
    c.name + " " + b
  }

  function Entries(cs: seq<Currency>): (r: seq<string>)
    ensures |r| == |cs| && forall i :: 0 <= i < |cs| ==> r[i] == CurrencyEntry(cs[i])
  {
    seq(|cs|, i requires 0 <= i < |cs| => CurrencyEntry(cs[i]))
  }

  /** `/monedas`: the guild's currencies, one per line, or a notice that there are none. */
  function ListCurrencies(cs: seq<Currency>): (r: Reply)
    ensures r.Public?
    ensures cs == [] <==> r.text == NoCurrencies
  {
    if cs == [] then Public(NoCurrencies)
    else
      var text := ListingHeading + Join(Entries(cs), "\n");
      assert text[0] == ListingHeading[0] == 'M';
      assert NoCurrencies[0] == 'N';
      Public(text)
  }

  /** The listing names every currency with its symbol. */
  lemma ListingNamesEvery(cs: seq<Currency>, i: nat)
    requires i < |cs|
    ensures Contains(ListCurrencies(cs).text, CurrencyEntry(cs[i]))
  {
    JoinContains(Entries(cs), "\n", i);
    ContainsAfter(ListingHeading, Join(Entries(cs), "\n"), CurrencyEntry(cs[i]));
  }

  /** When names and symbols hold no line break, the listing has a heading line
      and exactly one more line per currency. */
  lemma ListingLines(cs: seq<Currency>)
    requires cs != []
    requires forall i :: 0 <= i < |cs| ==> '\n' !in cs[i].name && '\n' !in cs[i].symbol
    ensures Count(ListCurrencies(cs).text, '\n') == |cs|
  {
    var es := Entries(cs);
    forall i | 0 <= i < |es| ensures '\n' !in es[i] {
      EntryHasNoBreak(cs[i]);
    }
    JoinLineCount(es);
    HeadingHasOneBreak();
    CountConcat(ListingHeading, Join(es, "\n"), '\n');
  }

  lemma EntryHasNoBreak(c: Currency)
    requires '\n' !in c.name && '\n' !in c.symbol
    ensures '\n' !in CurrencyEntry(c)
  {
    assert '\n' !in " (" && '\n' !in ")";
  }

  lemma HeadingHasOneBreak()
    ensures Count(ListingHeading, '\n') == 1
  {
    assert '\n' !in ListingTitle;
    LineCount(ListingTitle);
  }

  /** `${currency.name}: ${amount} ${currency.symbol}`: the name, then the
      amount held with the symbol after it. */
  function BalanceLine(c: Currency, b: map<string, int>): (r: string)
    ensures |r| >= |c.name| && r[..|c.name|] == c.name
    ensures Contains(r, ": " + IntToString(Balance(b, c.name)) + " " + c.symbol)
  {
    var amount := ": " + IntToString(Balance(b, c.name)) + " " + c.symbol;
    var r := c.name + ": " + IntToString(Balance(b, c.name)) + " " + c.symbol;
    ContainsMiddle(c.name, amount, "");
    assert r == c.name + amount + "";
    r
  }

  function BalanceLines(cs: seq<Currency>, b: map<string, int>): (r: seq<string>)
    ensures |r| == |cs| && forall i :: 0 <= i < |cs| ==> r[i] == BalanceLine(cs[i], b)
  {
    seq(|cs|, i requires 0 <= i < |cs| => BalanceLine(cs[i], b))
  }

  /** `Balance de <@user>:` and a line break. */
  function BalanceHeading(u: string): (r: string)
    ensures Contains(r, "<@" + u + ">")
  {
    var mention := "<@" + u + ">";
    ContainsMiddle("Balance de ", mention, ":\n");
    "Balance de " + mention + ":\n"
  }

  /** The private balance message: a heading naming the user, then the
      guild's currencies in order, one `BalanceLine` each, separated by line
      breaks. */
  function BalanceText(u: string, cs: seq<Currency>, b: map<string, int>): (r: string)
    ensures Contains(r, "<@" + u + ">")
    ensures |r| >= |BalanceHeading(u)| && r[..|BalanceHeading(u)|] == BalanceHeading(u)
    ensures r[|BalanceHeading(u)|..] == Join(BalanceLines(cs, b), "\n")
  {
    var r := BalanceHeading(u) + Join(BalanceLines(cs, b), "\n");
    ContainsBefore(BalanceHeading(u), Join(BalanceLines(cs, b), "\n"), "<@" + u + ">");
    assert r[..|BalanceHeading(u)|] == BalanceHeading(u);
    assert r[|BalanceHeading(u)|..] == Join(BalanceLines(cs, b), "\n");
    r
  }

  /** When the user id, the names and the symbols hold no line break, the
      balance message has a heading line and exactly one more line per
      currency. */
  lemma BalanceTextLines(u: string, cs: seq<Currency>, b: map<string, int>)
    requires cs != [] && '\n' !in u
    requires forall i :: 0 <= i < |cs| ==> '\n' !in cs[i].name && '\n' !in cs[i].symbol
    ensures Count(BalanceText(u, cs, b), '\n') == |cs|
  {
    var ls := BalanceLines(cs, b);
    forall i | 0 <= i < |ls| ensures '\n' !in ls[i] {
      BalanceLineHasNoBreak(cs[i], b);
    }
    JoinLineCount(ls);
    assert '\n' !in "Balance de " + ("<@" + u + ">") + ":";
    LineCount("Balance de " + ("<@" + u + ">") + ":");
    assert BalanceHeading(u) == "Balance de " + ("<@" + u + ">") + ":" + "\n";
    CountConcat(BalanceHeading(u), Join(ls, "\n"), '\n');
    assert BalanceText(u, cs, b) == BalanceHeading(u) + Join(ls, "\n");
  }

  lemma BalanceLineHasNoBreak(c: Currency, b: map<string, int>)
    requires '\n' !in c.name && '\n' !in c.symbol
    ensures '\n' !in BalanceLine(c, b)
  {
    var amount := IntToString(Balance(b, c.name));
    forall i | 0 <= i < |amount| ensures amount[i] != '\n' {
      if Balance(b, c.name) < 0 && i > 0 {
        assert amount[1..][i - 1] == amount[i];
      }
    }
    assert BalanceLine(c, b) == c.name + ": " + amount + " " + c.symbol;
  }

  /** The balance message shows every currency of the guild with the amount held. */
  lemma BalanceShowsEvery(u: string, cs: seq<Currency>, b: map<string, int>, i: nat)
    requires i < |cs|
    ensures Contains(BalanceText(u, cs, b), cs[i].name + ": " + IntToString(Balance(b, cs[i].name)) + " " + cs[i].symbol)
  {
    JoinContains(BalanceLines(cs, b), "\n", i);
    ContainsAfter(BalanceHeading(u), Join(BalanceLines(cs, b), "\n"), BalanceLine(cs[i], b));
  }

  /** A currency the wallet has never held is shown as 0. */
  lemma UnheldShowsZero(c: Currency, b: map<string, int>)
    requires c.name !in b
    ensures BalanceLine(c, b) == c.name + ": 0 " + c.symbol
  {
    assert NatToString(0) == "0";
  }

  /** Creating a missing wallet adds an empty one and changes no supply. */
  lemma NewWalletAddsNothing(m: Wallets, id: nat, g: string, u: string, g': string, c: string)
    requires WalletKey(g, u) !in m
    ensures Supply(m[WalletKey(g, u) := EmptyWallet(id, g, u)], g', c) == Supply(m, g', c)
    ensures Solvent(m) ==> Solvent(m[WalletKey(g, u) := EmptyWallet(id, g, u)])
  {
    SupplyUnchangedByBalance(m, WalletKey(g, u), EmptyWallet(id, g, u), g', c);
  }

  /** Crediting a non-negative amount leaves no balance negative. */
  lemma CreditKeepsSolvent(m: Wallets, k: WalletKey, c: string, earned: nat)
    requires k in m && Solvent(m)
    ensures Solvent(m[k := m[k].(balances := Credit(m[k].balances, c, earned))])
  {
    var r := m[k := m[k].(balances := Credit(m[k].balances, c, earned))];
    forall j, d | j in r && d in r[j].balances ensures r[j].balances[d] >= 0 {
      assert Balance(m[j].balances, d) >= 0;
    }
  }

  /** The caller's wallet, created when it does not exist; creating it changes
      no balance that can be read and no supply. */
  method EnsureWallet(ledger: Ledger, g: string, u: string) returns (w: Wallet)
    requires ledger.Valid()
    modifies ledger`wallets, ledger`nextId
    ensures ledger.Valid()
    ensures WalletKey(g, u) in old(ledger.wallets) ==>
      w == old(ledger.wallets)[WalletKey(g, u)] && ledger.wallets == old(ledger.wallets) && ledger.nextId == old(ledger.nextId)
    ensures WalletKey(g, u) !in old(ledger.wallets) ==>
      && w == EmptyWallet(old(ledger.nextId), g, u)
      && ledger.wallets == old(ledger.wallets)[WalletKey(g, u) := w]
      && ledger.nextId == old(ledger.nextId) + 1
    ensures ledger.wallets.Keys == old(ledger.wallets).Keys + {WalletKey(g, u)}
    ensures ledger.wallets[WalletKey(g, u)] == w
    ensures forall k :: k in old(ledger.wallets) ==> ledger.wallets[k] == old(ledger.wallets)[k]
    ensures forall d :: BalanceAt(ledger.wallets, WalletKey(g, u), d) == BalanceAt(old(ledger.wallets), WalletKey(g, u), d)
    ensures forall g', c :: Supply(ledger.wallets, g', c) == Supply(old(ledger.wallets), g', c)
    ensures Solvent(old(ledger.wallets)) ==> Solvent(ledger.wallets)
  {
    var found := ledger.WalletOf(g, u);
    if found.Some? {
      w := found.value;
    } else {
      ghost var m0 := ledger.wallets;
      w := ledger.CreateUserWallet(g, u);
      forall g', c ensures Supply(ledger.wallets, g', c) == Supply(m0, g', c) {
        NewWalletAddsNothing(m0, w.id, g, u, g', c);
      }
      NewWalletAddsNothing(m0, w.id, g, u, g, "");
    }
  }

  /** `/balance`: creates the caller's wallet when missing (even when the guild
      has no currencies), then answers privately with one line per currency. */
  method ShowBalance(ledger: Ledger, g: string, u: string) returns (reply: Reply)
    requires ledger.Valid()
    modifies ledger`wallets, ledger`nextId
    ensures ledger.Valid()
    ensures WalletKey(g, u) in ledger.wallets
    ensures WalletKey(g, u) in old(ledger.wallets) ==>
      ledger.wallets == old(ledger.wallets) && ledger.nextId == old(ledger.nextId)
    ensures WalletKey(g, u) !in old(ledger.wallets) ==>
      ledger.wallets == old(ledger.wallets)[WalletKey(g, u) := EmptyWallet(old(ledger.nextId), g, u)]
    ensures ledger.CurrenciesOf(g) == [] ==> reply == Public(NoCurrencies)
    ensures ledger.CurrenciesOf(g) != [] ==>
      reply == Private(BalanceText(u, ledger.CurrenciesOf(g), ledger.wallets[WalletKey(g, u)].balances))
    ensures Solvent(old(ledger.wallets)) ==> Solvent(ledger.wallets)
  {
    var wallet := EnsureWallet(ledger, g, u);
    var cs := ledger.CurrenciesOf(g);
    if cs == [] {
      return Public(NoCurrencies);
    }
    reply := Private(BalanceText(u, cs, wallet.balances));
  }

  /** `currencies.find(c => c.name === name)`: the first currency with exactly that name. */
  function FindCurrency(cs: seq<Currency>, name: string): (r: Option<Currency>)
    ensures r.Some? ==> r.value in cs && r.value.name == name
    ensures r.None? <==> forall c :: c in cs ==> c.name != name
    ensures r.Some? ==> exists i :: 0 <= i < |cs| && cs[i] == r.value && forall j :: 0 <= j < i ==> cs[j].name != name
    decreases |cs|
  {
    if cs == [] then None
    else if cs[0].name == name then Some(cs[0])
    else
      var r := FindCurrency(cs[1..], name);
      if r.Some? then
        ghost var i :| 0 <= i < |cs[1..]| && cs[1..][i] == r.value && forall j :: 0 <= j < i ==> cs[1..][j].name != name;
        assert cs[i + 1] == r.value;
        r
      else r
  }

  /** The wallets after `/transferir` has read both wallets and created the
      missing ones: a missing sender's wallet gets id `n`, then a receiver
      missing from the same read gets the next id, so a caller paying
      themself with no wallet gets it created twice. */
  function WithWallets(m: Wallets, n: nat, g: string, from: string, to: string): (r: (Wallets, nat))
    ensures WalletKey(g, from) in r.0 && WalletKey(g, to) in r.0
    ensures r.0.Keys == m.Keys + {WalletKey(g, from), WalletKey(g, to)}
    ensures forall k :: k in m ==> r.0[k] == m[k]
    ensures forall k, c :: k in r.0 && k !in m ==> Balance(r.0[k].balances, c) == 0
    ensures n <= r.1 <= n + 2
  {
    var fk, tk := WalletKey(g, from), WalletKey(g, to);
    var (m1, n1) := if fk in m then (m, n) else (m[fk := EmptyWallet(n, g, from)], n + 1);
    if tk in m then (m1, n1) else (m1[tk := EmptyWallet(n1, g, to)], n1 + 1)
  }

  /** Creating missing wallets changes no supply and keeps every balance non-negative. */
  lemma WithWalletsAddsNothing(m: Wallets, n: nat, g: string, from: string, to: string, g': string, c: string)
    ensures Supply(WithWallets(m, n, g, from, to).0, g', c) == Supply(m, g', c)
    ensures Solvent(m) ==> Solvent(WithWallets(m, n, g, from, to).0)
  {
    var fk, tk := WalletKey(g, from), WalletKey(g, to);
    var (m1, n1) := if fk in m then (m, n) else (m[fk := EmptyWallet(n, g, from)], n + 1);
    if fk !in m {
      NewWalletAddsNothing(m, n, g, from, g', c);
    }
    if tk !in m {
      SupplyUnchangedByBalance(m1, tk, EmptyWallet(n1, g, to), g', c);
      assert tk in m1 ==> Balance(m1[tk].balances, c) == 0;
    }
  }

  /** `/transferir`'s first step: reads both wallets, then creates the missing
      ones; returns the sender's wallet as read (or as created). */
  method PrepareWallets(ledger: Ledger, g: string, from: string, to: string) returns (fromSnapshot: Wallet)
    requires ledger.Valid()
    modifies ledger`wallets, ledger`nextId
    ensures ledger.Valid()
    ensures (ledger.wallets, ledger.nextId) == WithWallets(old(ledger.wallets), old(ledger.nextId), g, from, to)
    ensures forall c :: Balance(fromSnapshot.balances, c) == BalanceAt(old(ledger.wallets), WalletKey(g, from), c)
    ensures forall g', c :: Supply(ledger.wallets, g', c) == Supply(old(ledger.wallets), g', c)
    ensures Solvent(old(ledger.wallets)) ==> Solvent(ledger.wallets)
  {
    ghost var m0, n0 := ledger.wallets, ledger.nextId;
    var fromWallet := ledger.WalletOf(g, from);
    var toWallet := ledger.WalletOf(g, to);
    if fromWallet.None? {
      fromSnapshot := ledger.CreateUserWallet(g, from);
    } else {
      fromSnapshot := fromWallet.value;
    }
    if toWallet.None? {
      var _ := ledger.CreateUserWallet(g, to);
    }
    forall g', c ensures Supply(ledger.wallets, g', c) == Supply(m0, g', c) && (Solvent(m0) ==> Solvent(ledger.wallets)) {
      WithWalletsAddsNothing(m0, n0, g, from, to, g', c);
    }
  }

  function TransferDone(amount: int, symbol: string, to: string): string {
    "Transferencia exitosa: " + IntToString(amount) + " " + symbol + " enviados a <@" + to + ">"
  }

  /** `/transferir`: creates missing wallets, refuses an unknown currency and an
      amount above the sender's balance, and otherwise moves the amount through
      the store. Between different users no supply changes; a caller paying
      themself gains `amount`. No balance becomes negative. */
  method Transfer(ledger: Ledger, g: string, from: string, to: string, currencyName: string, amount: int, now: int)
    returns (reply: Reply)
    requires ledger.Valid()
    requires amount >= 1
    modifies ledger`wallets, ledger`transactions, ledger`nextId
    ensures ledger.Valid()
    ensures var prepared := WithWallets(old(ledger.wallets), old(ledger.nextId), g, from, to).0;
      var found := FindCurrency(ledger.CurrenciesOf(g), currencyName);
      var enough := BalanceAt(old(ledger.wallets), WalletKey(g, from), currencyName) >= amount;
      && (found.None? ==> reply == Private("Moneda no encontrada"))
      && (found.Some? && !enough ==> reply == Private("No tienes suficientes " + found.value.symbol))
      && (found.None? || !enough ==> ledger.wallets == prepared && ledger.transactions == old(ledger.transactions))
      && (found.Some? && enough ==>
            && reply == Public(TransferDone(amount, found.value.symbol, to))
            && ledger.wallets == Transferred(prepared, g, from, to, currencyName, amount)
            && ledger.transactions == old(ledger.transactions)
                 + [Transaction(WithWallets(old(ledger.wallets), old(ledger.nextId), g, from, to).1,
                                g, from, to, currencyName, amount, now)])
    ensures from != to ==> forall g', c :: Supply(ledger.wallets, g', c) == Supply(old(ledger.wallets), g', c)
    ensures from == to && reply.Public? ==>
      Supply(ledger.wallets, g, currencyName) == Supply(old(ledger.wallets), g, currencyName) + amount
    ensures Solvent(old(ledger.wallets)) ==> Solvent(ledger.wallets)
  {
    ghost var m0, n0 := ledger.wallets, ledger.nextId;
    var fromSnapshot := PrepareWallets(ledger, g, from, to);
    ghost var prepared := WithWallets(m0, n0, g, from, to);
    assert ledger.wallets == prepared.0 && ledger.nextId == prepared.1;
    reply := Settle(ledger, g, from, to, currencyName, amount, now, Balance(fromSnapshot.balances, currencyName));
  }

  /** `/transferir` once both wallets exist: the currency and balance checks,
      then the store's transfer, which repeats the balance check on the same
      wallet and so cannot refuse. */
  method Settle(ledger: Ledger, g: string, from: string, to: string, currencyName: string, amount: int, now: int,
                currentBalance: int)
    returns (reply: Reply)
    requires ledger.Valid()
    requires WalletKey(g, from) in ledger.wallets && WalletKey(g, to) in ledger.wallets
    requires currentBalance == BalanceAt(ledger.wallets, WalletKey(g, from), currencyName)
    requires amount >= 1
    modifies ledger`wallets, ledger`transactions, ledger`nextId
    ensures ledger.Valid()
    ensures var found := FindCurrency(ledger.CurrenciesOf(g), currencyName);
      && (found.None? ==> reply == Private("Moneda no encontrada"))
      && (found.Some? && currentBalance < amount ==> reply == Private("No tienes suficientes " + found.value.symbol))
      && (found.Some? && currentBalance >= amount ==> reply == Public(TransferDone(amount, found.value.symbol, to)))
    ensures reply.Private? ==>
      ledger.wallets == old(ledger.wallets) && ledger.transactions == old(ledger.transactions)
    ensures reply.Public? ==>
      && ledger.wallets == Transferred(old(ledger.wallets), g, from, to, currencyName, amount)
      && ledger.transactions == old(ledger.transactions)
           + [Transaction(old(ledger.nextId), g, from, to, currencyName, amount, now)]
    ensures from != to ==> forall g', c :: Supply(ledger.wallets, g', c) == Supply(old(ledger.wallets), g', c)
    ensures from == to && reply.Public? ==>
      Supply(ledger.wallets, g, currencyName) == Supply(old(ledger.wallets), g, currencyName) + amount
    ensures Solvent(old(ledger.wallets)) ==> Solvent(ledger.wallets)
  {
    var currency := FindCurrency(ledger.CurrenciesOf(g), currencyName);
    if currency.None? {
      return Private("Moneda no encontrada");
    }
    if currentBalance < amount {
      return Private("No tienes suficientes " + currency.value.symbol);
    }
    Pay(ledger, g, from, to, currencyName, amount, now);
    reply := Public(TransferDone(amount, currency.value.symbol, to));
  }

  /** The store's transfer once every check of `/transferir` has passed. */
  method Pay(ledger: Ledger, g: string, from: string, to: string, currencyName: string, amount: int, now: int)
    requires ledger.Valid()
    requires WalletKey(g, from) in ledger.wallets && WalletKey(g, to) in ledger.wallets
    requires BalanceAt(ledger.wallets, WalletKey(g, from), currencyName) >= amount >= 1
    modifies ledger`wallets, ledger`transactions, ledger`nextId
    ensures ledger.Valid()
    ensures ledger.wallets == Transferred(old(ledger.wallets), g, from, to, currencyName, amount)
    ensures ledger.transactions == old(ledger.transactions)
           + [Transaction(old(ledger.nextId), g, from, to, currencyName, amount, now)]
    ensures from != to ==> forall g', c :: Supply(ledger.wallets, g', c) == Supply(old(ledger.wallets), g', c)
    ensures from == to ==>
      Supply(ledger.wallets, g, currencyName) == Supply(old(ledger.wallets), g, currencyName) + amount
    ensures Solvent(old(ledger.wallets)) ==> Solvent(ledger.wallets)
  {
    ghost var m := ledger.wallets;
    var result := ledger.TransferCurrency(g, from, to, currencyName, amount, now);
    assert result.Ok?;
    TransferSupply(m, g, from, to, currencyName, amount);
    if Solvent(m) {
      TransferKeepsSolvent(m, g, from, to, currencyName, amount);
    }
  }

  /** The supply after a transfer: unchanged everywhere between different
      users, `amount` more of `c` for a transfer to oneself. */
  lemma TransferSupply(m: Wallets, g: string, from: string, to: string, c: string, amount: int)
    requires WalletKey(g, from) in m && WalletKey(g, to) in m
    ensures from != to ==> forall g', d :: Supply(Transferred(m, g, from, to, c, amount), g', d) == Supply(m, g', d)
    ensures from == to ==> Supply(Transferred(m, g, from, to, c, amount), g, c) == Supply(m, g, c) + amount
  {
    if from != to {
      forall g', d ensures Supply(Transferred(m, g, from, to, c, amount), g', d) == Supply(m, g', d) {
        TransferConserves(m, g, from, to, c, amount, g', d);
      }
    } else {
      SelfTransferCredits(m, g, from, c, amount);
    }
  }

  /** `Math.floor(Math.random() * 41) + 10`: a reward between 10 and 50, each reachable. */
  function WorkReward(u: Draw): (r: nat)
    ensures 10 <= r <= 50
  {
    Pick(u, 41) + 10
  }

  lemma WorkRewardReaches(r: nat)
    requires 10 <= r <= 50
    ensures var u: Draw := (r - 10) as real / 41.0; WorkReward(u) == r
  {
    PickReaches(41, r - 10);
  }

  function WorkDone(earned: nat, c: Currency, newBalance: int): string {
    "¡Has trabajado y ganado " + NatToString(earned) + " " + c.symbol + "!\n"
    + "Tu nuevo balance de " + c.name + " es: " + IntToString(newBalance) + " " + c.symbol
  }

  /** Adds `earned` of currency `c` to the wallet under `k` by rewriting its
      balance map through `updateUserWallet`; the timestamps stay. */
  method Earn(ledger: Ledger, k: WalletKey, c: string, earned: nat) returns (newBalance: int)
    requires ledger.Valid() && k in ledger.wallets
    modifies ledger`wallets
    ensures ledger.Valid()
    ensures ledger.wallets.Keys == old(ledger.wallets).Keys
    ensures forall k' :: k' in ledger.wallets && k' != k ==> ledger.wallets[k'] == old(ledger.wallets)[k']
    ensures newBalance == BalanceAt(ledger.wallets, k, c) == BalanceAt(old(ledger.wallets), k, c) + earned
    ensures forall d :: d != c ==> BalanceAt(ledger.wallets, k, d) == BalanceAt(old(ledger.wallets), k, d)
    ensures ledger.wallets[k].lastWorked == old(ledger.wallets)[k].lastWorked
    ensures ledger.wallets[k] == old(ledger.wallets)[k].(balances := Credit(old(ledger.wallets)[k].balances, c, earned))
    ensures Supply(ledger.wallets, k.guildId, c) == Supply(old(ledger.wallets), k.guildId, c) + earned
    ensures Solvent(old(ledger.wallets)) ==> Solvent(ledger.wallets)
  {
    var wallet := ledger.wallets[k];
    var updated := Credit(wallet.balances, c, earned);
    var _ := ledger.UpdateUserWallet(wallet.id, updated, None, None);
    assert ledger.wallets == old(ledger.wallets)[k := Updated(wallet, updated, None, None)];
    SupplyUpdate(old(ledger.wallets), k, Updated(wallet, updated, None, None), k.guildId, c);
    if Solvent(old(ledger.wallets)) {
      CreditKeepsSolvent(old(ledger.wallets), k, c, earned);
    }
    newBalance := Balance(updated, c);
  }

  /** `/trabajar`: with no currencies nothing changes; otherwise the caller's
      wallet (created when missing) gains a reward of 10 to 50 in one currency
      chosen by the first draw, and the guild's supply of it grows by the same. */
  method Work(ledger: Ledger, g: string, u: string, pickCurrency: Draw, pickAmount: Draw) returns (reply: Reply)
    requires ledger.Valid()
    modifies ledger`wallets, ledger`nextId
    ensures ledger.Valid()
    ensures ledger.CurrenciesOf(g) == [] ==>
      reply == Public(NoCurrencies) && ledger.wallets == old(ledger.wallets) && ledger.nextId == old(ledger.nextId)
    ensures ledger.CurrenciesOf(g) != [] ==>
      var cs := ledger.CurrenciesOf(g);
      var c := cs[Pick(pickCurrency, |cs|)];
      var k := WalletKey(g, u);
      && k in ledger.wallets
      && ledger.wallets.Keys == old(ledger.wallets).Keys + {k}
      && (forall k' :: k' in old(ledger.wallets) && k' != k ==> ledger.wallets[k'] == old(ledger.wallets)[k'])
      && BalanceAt(ledger.wallets, k, c.name) == BalanceAt(old(ledger.wallets), k, c.name) + WorkReward(pickAmount)
      && (forall d :: d != c.name ==> BalanceAt(ledger.wallets, k, d) == BalanceAt(old(ledger.wallets), k, d))
      && Supply(ledger.wallets, g, c.name) == Supply(old(ledger.wallets), g, c.name) + WorkReward(pickAmount)
      && (k in old(ledger.wallets) ==> ledger.wallets[k].lastWorked == old(ledger.wallets)[k].lastWorked)
      && (var w0 := if k in old(ledger.wallets) then old(ledger.wallets)[k] else EmptyWallet(old(ledger.nextId), g, u);
          ledger.wallets[k] == w0.(balances := Credit(w0.balances, c.name, WorkReward(pickAmount))))
      && ledger.nextId == (if k in old(ledger.wallets) then old(ledger.nextId) else old(ledger.nextId) + 1)
      && reply == Public(WorkDone(WorkReward(pickAmount), c, BalanceAt(ledger.wallets, k, c.name)))
    ensures Solvent(old(ledger.wallets)) ==> Solvent(ledger.wallets)
  {
    var cs := ledger.CurrenciesOf(g);
    if cs == [] {
      return Public(NoCurrencies);
    }
    var c := cs[Pick(pickCurrency, |cs|)];
    var earned := WorkReward(pickAmount);
    var newBalance := Reward(ledger, g, u, c.name, earned);
    reply := Public(WorkDone(earned, c, newBalance));
  }

  /** The caller's wallet, created when missing, gains `earned` of `c`. */
  method Reward(ledger: Ledger, g: string, u: string, c: string, earned: nat) returns (newBalance: int)
    requires ledger.Valid()
    modifies ledger`wallets, ledger`nextId
    ensures ledger.Valid()
    ensures var k := WalletKey(g, u);
      && k in ledger.wallets
      && ledger.wallets.Keys == old(ledger.wallets).Keys + {k}
      && (forall k' :: k' in old(ledger.wallets) && k' != k ==> ledger.wallets[k'] == old(ledger.wallets)[k'])
      && newBalance == BalanceAt(ledger.wallets, k, c) == BalanceAt(old(ledger.wallets), k, c) + earned
      && (forall d :: d != c ==> BalanceAt(ledger.wallets, k, d) == BalanceAt(old(ledger.wallets), k, d))
      && Supply(ledger.wallets, g, c) == Supply(old(ledger.wallets), g, c) + earned
      && (k in old(ledger.wallets) ==> ledger.wallets[k].lastWorked == old(ledger.wallets)[k].lastWorked)
      && (var w0 := if k in old(ledger.wallets) then old(ledger.wallets)[k] else EmptyWallet(old(ledger.nextId), g, u);
          ledger.wallets[k] == w0.(balances := Credit(w0.balances, c, earned)))
      && ledger.nextId == (if k in old(ledger.wallets) then old(ledger.nextId) else old(ledger.nextId) + 1)
    ensures Solvent(old(ledger.wallets)) ==> Solvent(ledger.wallets)
  {
    var _ := EnsureWallet(ledger, g, u);
    newBalance := Earn(ledger, WalletKey(g, u), c, earned);
  }
}
