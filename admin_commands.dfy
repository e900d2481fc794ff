/** The two bulk charges of the admin commands: `/cobrar`, a tax on every
    wallet of the guild that is paid to the bot, and `/cobrar-comerciante`,
    a levy on every shop owner that is paid to nobody. */
module AdminCommands {
  import opened Wrappers
  import opened Schema
  import opened Text
  import opened Seqs
  import opened Balances
  import opened Storage

  /** Whether `/cobrar` debits the wallet under `k`: a wallet of the guild,
      not the bot's, whose write does not fail, holding at least the amount
      before the sweep. */
  predicate Charged(m: Wallets, k: WalletKey, g: string, botId: string, moneda: string, cantidad: int,
                    failing: set<string>)
  {
    k in m && k.guildId == g && k.userId != botId && k.userId !in failing && BalanceAt(m, k, moneda) >= cantidad
  }

  /** A wallet after paying `cantidad` of `moneda`: `balance - cantidad` written
      over that one entry. */
  function Debited(w: Wallet, moneda: string, cantidad: int): (r: Wallet)
    ensures r.id == w.id && r.Key() == w.Key() && r.lastWorked == w.lastWorked && r.lastStolen == w.lastStolen
    ensures Balance(r.balances, moneda) == Balance(w.balances, moneda) - cantidad
    ensures forall d :: d != moneda ==> Balance(r.balances, d) == Balance(w.balances, d)
  {
    w.(balances := Credit(w.balances, moneda, -cantidad))
  }

  /** `m1` is `m0` with exactly the wallets under the keys in `done` debited
      by `cantidad` of `moneda`, and no wallet added or removed. */
  ghost predicate DebitedOnly(m0: Wallets, m1: Wallets, done: set<WalletKey>, moneda: string, cantidad: int) {
    m1.Keys == m0.Keys &&
    forall k :: k in m0 ==> m1[k] == if k in done then Debited(m0[k], moneda, cantidad) else m0[k]
  }

  /** Charging keeps balances non-negative when the wallet held the amount. */
  lemma DebitKeepsSolvent(w: Wallet, moneda: string, cantidad: int)
    requires forall d :: d in w.balances ==> w.balances[d] >= 0
    requires Balance(w.balances, moneda) >= cantidad
    ensures forall d :: d in Debited(w, moneda, cantidad).balances ==> Debited(w, moneda, cantidad).balances[d] >= 0
  {
  }

  lemma MulNonNegative(n: nat, c: int)
    requires c >= 0
    ensures n * c >= 0
  {
  }

  /** `n` additions of `c`, the running total of a loop that adds `c` per step. */
  ghost function Times(n: nat, c: int): int
    decreases n
  {
    if n == 0 then 0 else Times(n - 1, c) + c
  }

  /** Adding `c` `n` times gives `c * n`. */
  lemma {:induction false} TimesIsProduct(n: nat, c: int)
    ensures Times(n, c) == c * n
    decreases n
  {
    if n > 0 {
      TimesIsProduct(n - 1, c);
      MulStep(n - 1, c);
    }
  }

  lemma MulStep(n: nat, c: int)
    ensures (n + 1) * c == n * c + c
    ensures c * (n + 1) == c * n + c
  {
  }

  /** The report `/cobrar` edits its reply into. */
  function CobrarReport(cobrados: nat, errorCount: nat): (r: string)
    ensures Contains(r, NatToString(cobrados) + " usuarios pagaron impuestos")
    ensures Contains(r, NatToString(errorCount) + " errores durante el cobro")
  {
    var paid, errors := NatToString(cobrados) + " usuarios pagaron impuestos", NatToString(errorCount) + " errores durante el cobro";
    var head, mid := "Cobro completado:\n✅ ", "\n❌ ";
    var r := head + paid + mid + errors;
    ContainsMiddle(head, paid, mid + errors);
    ContainsMiddle(head + paid + mid, errors, "");
    assert r == head + paid + (mid + errors) == head + paid + mid + errors + "";
    r
  }

  /** One wallet of the sweep: charged when its balance covers the amount and
      the write does not fail; otherwise nothing is written. */
  method ChargeOne(ledger: Ledger, w: Wallet, moneda: string, cantidad: int, fails: bool) returns (charged: bool)
    requires ledger.Valid() && w.Key() in ledger.wallets && ledger.wallets[w.Key()] == w
    modifies ledger`wallets
    ensures ledger.Valid()
    ensures charged <==> !fails && Balance(w.balances, moneda) >= cantidad
    ensures ledger.wallets == if charged then old(ledger.wallets)[w.Key() := Debited(w, moneda, cantidad)]
                              else old(ledger.wallets)
  {
    var balance := Balance(w.balances, moneda);
    if balance >= cantidad && !fails {
      var updated := Credit(w.balances, moneda, -cantidad);
      var _ := ledger.UpdateUserWallet(w.id, updated, None, None);
      assert ledger.wallets == old(ledger.wallets)[w.Key() := Debited(w, moneda, cantidad)];
      charged := true;
    } else {
      charged := false;
    }
  }

  /** The loop of `/cobrar` over every wallet of the guild, skipping the bot's. A
      write that fails is swallowed and the loop goes on; nothing counts it. */
  method Sweep(ledger: Ledger, g: string, botId: string, moneda: string, cantidad: int, failing: set<string>)
    returns (cobrados: nat, ghost done: set<WalletKey>)
    requires ledger.Valid()
    modifies ledger`wallets
    ensures ledger.Valid()
    ensures forall k :: k in done <==> Charged(old(ledger.wallets), k, g, botId, moneda, cantidad, failing)
    ensures cobrados == |done|
    ensures ledger.wallets.Keys == old(ledger.wallets).Keys
    ensures forall k :: k in old(ledger.wallets) ==>
      ledger.wallets[k] == if k in done then Debited(old(ledger.wallets)[k], moneda, cantidad) else old(ledger.wallets)[k]
    ensures Supply(ledger.wallets, g, moneda) == Supply(old(ledger.wallets), g, moneda) - cobrados * cantidad
    ensures Solvent(old(ledger.wallets)) ==> Solvent(ledger.wallets)
  {
    ghost var m0 := ledger.wallets;
    var ws := ledger.AllWallets(g);
    cobrados, done := ChargeEach(ledger, ws, g, botId, moneda, cantidad, failing);
    forall k ensures k in done <==> Charged(m0, k, g, botId, moneda, cantidad, failing) {
      ChargedAmongIff(m0, ws, g, botId, moneda, cantidad, failing, k);
      if Charged(m0, k, g, botId, moneda, cantidad, failing) {
        var w :| w in ws && w.Key() == k;
      }
    }
    DebitsKeepSolvent(m0, ledger.wallets, done, moneda, cantidad);
    SupplyAfterDebits(m0, ledger.wallets, done, g, moneda, cantidad);
  }

  /** The keys of a sequence of wallets. */
  ghost function KeysOf(ws: seq<Wallet>): set<WalletKey> {
    set w | w in ws :: w.Key()
  }

  /** The keys of the wallets among `ws` that `/cobrar` charges, visiting them in order. */
  ghost function ChargedAmong(m: Wallets, ws: seq<Wallet>, g: string, botId: string, moneda: string, cantidad: int,
                              failing: set<string>): set<WalletKey>
    decreases |ws|
  {
    if ws == [] then {}
    else
      var last := ws[|ws| - 1].Key();
      ChargedAmong(m, ws[..|ws| - 1], g, botId, moneda, cantidad, failing)
      + (if Charged(m, last, g, botId, moneda, cantidad, failing) then {last} else {})
  }

  /** A key is charged among `ws` exactly when it is the key of one of them and
      its wallet is chargeable. */
  lemma {:induction false} ChargedAmongIff(m: Wallets, ws: seq<Wallet>, g: string, botId: string, moneda: string,
                                           cantidad: int, failing: set<string>, k: WalletKey)
    ensures k in ChargedAmong(m, ws, g, botId, moneda, cantidad, failing)
        <==> k in KeysOf(ws) && Charged(m, k, g, botId, moneda, cantidad, failing)
    decreases |ws|
  {
    if ws != [] {
      var p := ws[..|ws| - 1];
      ChargedAmongIff(m, p, g, botId, moneda, cantidad, failing, k);
      assert ws == p + [ws[|ws| - 1]];
      assert KeysOf(ws) == KeysOf(p) + {ws[|ws| - 1].Key()};
    }
  }

  /** With distinct keys, the key of `ws[i]` is not among the keys before it. */
  lemma FreshKey(ws: seq<Wallet>, i: nat)
    requires i < |ws|
    requires forall a, b :: 0 <= a < b < |ws| ==> ws[a].Key() != ws[b].Key()
    ensures ws[i].Key() !in KeysOf(ws[..i])
  {
    forall w | w in ws[..i] ensures w.Key() != ws[i].Key() {
      var a :| 0 <= a < i && ws[..i][a] == w;
      assert ws[a] == w;
    }
  }

  /** Visiting `ws[i]` adds its key to those charged before it, when it is
      chargeable, and that key is not among them yet. */
  lemma ChargedStep(m: Wallets, ws: seq<Wallet>, i: nat, g: string, botId: string, moneda: string, cantidad: int,
                    failing: set<string>)
    requires i < |ws|
    requires forall a, b :: 0 <= a < b < |ws| ==> ws[a].Key() != ws[b].Key()
    ensures ws[i].Key() !in ChargedAmong(m, ws[..i], g, botId, moneda, cantidad, failing)
    ensures ChargedAmong(m, ws[..i + 1], g, botId, moneda, cantidad, failing)
         == ChargedAmong(m, ws[..i], g, botId, moneda, cantidad, failing)
            + (if Charged(m, ws[i].Key(), g, botId, moneda, cantidad, failing) then {ws[i].Key()} else {})
  {
    FreshKey(ws, i);
    ChargedAmongIff(m, ws[..i], g, botId, moneda, cantidad, failing, ws[i].Key());
    assert ws[..i + 1][..i] == ws[..i];
  }

  /** The `for` loop of `/cobrar` over the wallets read at its start. */
  method ChargeEach(ledger: Ledger, ws: seq<Wallet>, g: string, botId: string, moneda: string, cantidad: int,
                    failing: set<string>)
    returns (cobrados: nat, ghost done: set<WalletKey>)
    requires ledger.Valid()
    requires forall i :: 0 <= i < |ws| ==>
      ws[i].guildId == g && ws[i].Key() in ledger.wallets && ledger.wallets[ws[i].Key()] == ws[i]
    requires forall i, j :: 0 <= i < j < |ws| ==> ws[i].Key() != ws[j].Key()
    modifies ledger`wallets
    ensures ledger.Valid()
    ensures done == ChargedAmong(old(ledger.wallets), ws, g, botId, moneda, cantidad, failing)
    ensures cobrados == |done|
    ensures DebitedOnly(old(ledger.wallets), ledger.wallets, done, moneda, cantidad)
  {
    ghost var m0 := ledger.wallets;
    cobrados, done := 0, {};
    var i := 0;
    while i < |ws|
      invariant 0 <= i <= |ws|
      invariant ledger.Valid()
      invariant done == ChargedAmong(m0, ws[..i], g, botId, moneda, cantidad, failing)
      invariant cobrados == |done|
      invariant DebitedOnly(m0, ledger.wallets, done, moneda, cantidad)
    {
      ChargedStep(m0, ws, i, g, botId, moneda, cantidad, failing);
      var charged;
      charged, done := Visit(ledger, ws[i], g, botId, moneda, cantidad, failing, m0, done);
      if charged {
        cobrados := cobrados + 1;
      }
      i := i + 1;
    }
    assert ws[..i] == ws;
  }

  /** One pass of the `/cobrar` loop: the bot's wallet is skipped, any other
      wallet goes through `ChargeOne`. */
  method Visit(ledger: Ledger, w: Wallet, g: string, botId: string, moneda: string, cantidad: int,
               failing: set<string>, ghost m0: Wallets, ghost done: set<WalletKey>)
    returns (charged: bool, ghost done': set<WalletKey>)
    requires ledger.Valid()
    requires w.Key() in m0 && m0[w.Key()] == w && w.guildId == g && w.Key() !in done
    requires DebitedOnly(m0, ledger.wallets, done, moneda, cantidad)
    modifies ledger`wallets
    ensures ledger.Valid()
    ensures charged <==> Charged(m0, w.Key(), g, botId, moneda, cantidad, failing)
    ensures done' == if charged then done + {w.Key()} else done
    ensures |done'| == |done| + (if charged then 1 else 0)
    ensures DebitedOnly(m0, ledger.wallets, done', moneda, cantidad)
  {
    done' := done;
    charged := false;
    if w.userId != botId {
      charged := ChargeOne(ledger, w, moneda, cantidad, w.userId in failing);
      if charged {
        done' := done + {w.Key()};
      }
    }
  }

  /** Debiting, each at most once, wallets that held the amount leaves no
      balance negative. */
  lemma DebitsKeepSolvent(m0: Wallets, m1: Wallets, done: set<WalletKey>, moneda: string, cantidad: int)
    requires forall k :: k in done ==> k in m0 && BalanceAt(m0, k, moneda) >= cantidad
    requires DebitedOnly(m0, m1, done, moneda, cantidad)
    ensures Solvent(m0) ==> Solvent(m1)
  {
    if Solvent(m0) {
      forall k, d | k in m1 && d in m1[k].balances
        ensures m1[k].balances[d] >= 0
      {
        if k in done {
          DebitKeepsSolvent(m0[k], moneda, cantidad);
        }
      }
    }
  }

  /** Debiting `cantidad` once from each wallet of a set in guild `g` lowers
      the guild's supply by `cantidad` per wallet. */
  lemma {:induction false} SupplyAfterDebits(m0: Wallets, m1: Wallets, done: set<WalletKey>, g: string, moneda: string,
                                             cantidad: int)
    requires forall k :: k in done ==> k in m0 && k.guildId == g
    requires DebitedOnly(m0, m1, done, moneda, cantidad)
    ensures Supply(m1, g, moneda) == Supply(m0, g, moneda) - |done| * cantidad
    decreases |done|
  {
    if done == {} {
      assert m1 == m0;
    } else {
      var k :| k in done;
      var mid := m1[k := m0[k]];
      assert DebitedOnly(m0, mid, done - {k}, moneda, cantidad);
      SupplyAfterDebits(m0, mid, done - {k}, g, moneda, cantidad);
      SupplyUpdate(mid, k, m1[k], g, moneda);
      assert Share(k, m1[k], g, moneda) == Share(k, m0[k], g, moneda) - cantidad;
      assert mid[k := m1[k]] == m1;
      assert |done| == |done - {k}| + 1;
      MulStep(|done - {k}|, cantidad);
    }
  }

  /** Credits `amount` of `moneda` to the bot's wallet when it exists. When
      the store call fails (`fails`) nothing is written and `ok` is false. */
  method CreditBot(ledger: Ledger, g: string, botId: string, moneda: string, amount: int, fails: bool)
    returns (ok: bool)
    requires ledger.Valid() && amount >= 0
    modifies ledger`wallets
    ensures ledger.Valid()
    ensures ok == !fails
    ensures ledger.wallets.Keys == old(ledger.wallets).Keys
    ensures forall k :: k in old(ledger.wallets) && k != WalletKey(g, botId) ==> ledger.wallets[k] == old(ledger.wallets)[k]
    ensures var bot := WalletKey(g, botId);
      bot in old(ledger.wallets) && ok ==>
        && ledger.wallets[bot] == old(ledger.wallets)[bot].(balances := Credit(old(ledger.wallets)[bot].balances, moneda, amount))
        && BalanceAt(ledger.wallets, bot, moneda) == BalanceAt(old(ledger.wallets), bot, moneda) + amount
        && forall d :: d != moneda ==> BalanceAt(ledger.wallets, bot, d) == BalanceAt(old(ledger.wallets), bot, d)
    ensures WalletKey(g, botId) !in old(ledger.wallets) || !ok ==> ledger.wallets == old(ledger.wallets)
    ensures Supply(ledger.wallets, g, moneda)
         == Supply(old(ledger.wallets), g, moneda) + (if WalletKey(g, botId) in old(ledger.wallets) && ok then amount else 0)
    ensures Solvent(old(ledger.wallets)) ==> Solvent(ledger.wallets)
  {
    if fails {
      return false;
    }
    ok := true;
    var bot := ledger.WalletOf(g, botId);
    if bot.Some? {
      var updated := Credit(bot.value.balances, moneda, amount);
      var _ := ledger.UpdateUserWallet(bot.value.id, updated, None, None);
      assert ledger.wallets == old(ledger.wallets)[WalletKey(g, botId) := bot.value.(balances := updated)];
      SupplyUpdate(old(ledger.wallets), WalletKey(g, botId), bot.value.(balances := updated), g, moneda);
      if Solvent(old(ledger.wallets)) {
        forall k, d | k in ledger.wallets && d in ledger.wallets[k].balances
          ensures ledger.wallets[k].balances[d] >= 0
        {
          if k == WalletKey(g, botId) && d == moneda {
            assert Balance(bot.value.balances, moneda) >= 0;
          }
        }
      }
    }
  }

  /** The reply of `/cobrar` when its outer `catch` is reached. */
  const CobrarFailed: string := "Ocurrió un error al procesar el cobro"

  /** `/cobrar`: charges every chargeable wallet once, then credits the bot's
      wallet, when it exists, with everything collected. The bot's credit is
      outside the per-wallet `try`: when it fails (`botFails`) the charges
      stay, nobody is credited and the reply is the error text. Otherwise the
      report always shows 0 errors. With a credited bot wallet the guild's
      supply is unchanged; otherwise it falls by the amount collected. */
  method Cobrar(ledger: Ledger, g: string, botId: string, moneda: string, cantidad: int, failing: set<string>,
                botFails: bool)
    returns (report: string, cobrados: nat, errorCount: nat, ghost done: set<WalletKey>)
    requires ledger.Valid()
    requires cantidad >= 1
    modifies ledger`wallets
    ensures ledger.Valid()
    ensures errorCount == 0
    ensures report == if botFails then CobrarFailed else CobrarReport(cobrados, errorCount)
    ensures forall k :: k in done <==> Charged(old(ledger.wallets), k, g, botId, moneda, cantidad, failing)
    ensures cobrados == |done|
    ensures ledger.wallets.Keys == old(ledger.wallets).Keys
    ensures forall k :: Charged(old(ledger.wallets), k, g, botId, moneda, cantidad, failing) ==>
      ledger.wallets[k] == Debited(old(ledger.wallets)[k], moneda, cantidad)
    ensures forall k :: k in old(ledger.wallets) && k != WalletKey(g, botId) &&
                        !Charged(old(ledger.wallets), k, g, botId, moneda, cantidad, failing) ==>
      ledger.wallets[k] == old(ledger.wallets)[k]
    ensures var bot := WalletKey(g, botId);
      bot in old(ledger.wallets) ==>
        ledger.wallets[bot] == if botFails then old(ledger.wallets)[bot]
                               else old(ledger.wallets)[bot].(balances :=
                                      Credit(old(ledger.wallets)[bot].balances, moneda, cobrados * cantidad))
    ensures Supply(ledger.wallets, g, moneda)
         == Supply(old(ledger.wallets), g, moneda)
            - (if WalletKey(g, botId) in old(ledger.wallets) && !botFails then 0 else cobrados * cantidad)
    ensures Solvent(old(ledger.wallets)) ==> Solvent(ledger.wallets)
  {
    ghost var m0 := ledger.wallets;
    errorCount := 0;
    cobrados, done := Sweep(ledger, g, botId, moneda, cantidad, failing);
    MulNonNegative(cobrados, cantidad);
    assert WalletKey(g, botId) in m0 ==> ledger.wallets[WalletKey(g, botId)] == m0[WalletKey(g, botId)];
    var credited := CreditBot(ledger, g, botId, moneda, cobrados * cantidad, botFails);
    if !credited {
      return CobrarFailed, cobrados, errorCount, done;
    }
    report := CobrarReport(cobrados, errorCount);
  }

  datatype LevyOutcome =
    | NotAdmin
    | Levied(montoPorUsuario: int, totalCobrado: int, usuariosCobrados: nat)
    | LevyFailed

  /** How many of `n` steps run when the step numbered `failAt` throws: the
      steps before it. A failure at or after `n` stops none of them. */
  function Completed(failAt: Option<nat>, n: nat): (r: nat)
    ensures r <= n
    ensures failAt.Some? && failAt.value < n ==> r == failAt.value
    ensures failAt.None? || failAt.value >= n ==> r == n
  {
    if failAt.Some? && failAt.value < n then failAt.value else n
  }

  /** Whether `/cobrar-comerciante` debits the wallet under `k`: the wallet in
      the guild of one of the shop owners, holding at least the amount. */
  predicate OwesLevy(m: Wallets, owners: seq<string>, k: WalletKey, g: string, moneda: string, monto: int) {
    k in m && k.guildId == g && k.userId in owners && BalanceAt(m, k, moneda) >= monto
  }

  function Owners(shops: seq<Shop>): (r: seq<string>)
    ensures forall u :: u in r <==> exists s :: s in shops && s.userId == u
    ensures Distinct(r)
  {
    var ids := seq(|shops|, i requires 0 <= i < |shops| => shops[i].userId);
    assert forall u :: u in ids <==> exists s :: s in shops && s.userId == u by {
      forall u | u in ids ensures exists s :: s in shops && s.userId == u {
        var i :| 0 <= i < |ids| && ids[i] == u;
        assert shops[i] in shops;
      }
      forall u | exists s :: s in shops && s.userId == u ensures u in ids {
        var s :| s in shops && s.userId == u;
        var i :| 0 <= i < |shops| && shops[i] == s;
        assert ids[i] == u;
      }
    }
    Unique(ids)
  }

  /** `/cobrar-comerciante`: refused to non-admins; otherwise each distinct shop
      owner that has a wallet holding at least `monto` pays it once. Nobody is
      credited, so the guild's supply falls by `monto` per owner charged. The
      loop has no `try` of its own: a store failure at owner `failAt` leaves
      the owners before it charged and the rest not, and the reply is the
      error text; a `failAt` past the last owner is a failure after the loop
      (the log message), with every owner charged and the same reply. */
  method CobrarComerciante(ledger: Ledger, g: string, isAdmin: bool, moneda: string, monto: int, failAt: Option<nat>)
    returns (outcome: LevyOutcome, ghost charged: set<WalletKey>)
    requires ledger.Valid()
    requires monto >= 1
    modifies ledger`wallets
    ensures ledger.Valid()
    ensures !isAdmin ==> outcome == NotAdmin && ledger.wallets == old(ledger.wallets) && charged == {}
    ensures isAdmin ==> (outcome.LevyFailed? <==> failAt.Some?) && (outcome.Levied? <==> failAt.None?)
    ensures isAdmin ==> var owners := Owners(ledger.ShopsOfGuild(g));
      forall k :: k in charged <==>
        OwesLevy(old(ledger.wallets), owners[..Completed(failAt, |owners|)], k, g, moneda, monto)
    ensures outcome.Levied? ==>
      && outcome.montoPorUsuario == monto
      && outcome.usuariosCobrados == |charged|
      && outcome.totalCobrado == monto * outcome.usuariosCobrados
    ensures ledger.wallets.Keys == old(ledger.wallets).Keys
    ensures forall k :: k in old(ledger.wallets) ==>
      ledger.wallets[k] == if k in charged then Debited(old(ledger.wallets)[k], moneda, monto)
                           else old(ledger.wallets)[k]
    ensures Supply(ledger.wallets, g, moneda) == Supply(old(ledger.wallets), g, moneda) - monto * |charged|
    ensures Solvent(old(ledger.wallets)) ==> Solvent(ledger.wallets)
  {
    charged := {};
    if !isAdmin {
      return NotAdmin, charged;
    }
    var totalCobrado, usuariosCobrados;
    totalCobrado, usuariosCobrados, charged := LevyOwners(ledger, g, moneda, monto, failAt);
    if failAt.Some? {
      return LevyFailed, charged;
    }
    outcome := Levied(monto, totalCobrado, usuariosCobrados);
  }

  /** The admin's path of `/cobrar-comerciante`: the levy on the distinct owners
      of the guild's shops, up to the owner where the store fails. */
  method LevyOwners(ledger: Ledger, g: string, moneda: string, monto: int, failAt: Option<nat>)
    returns (totalCobrado: int, usuariosCobrados: nat, ghost charged: set<WalletKey>)
    requires ledger.Valid()
    requires monto >= 1
    modifies ledger`wallets
    ensures ledger.Valid()
    ensures var owners := Owners(ledger.ShopsOfGuild(g));
      forall k :: k in charged <==>
        OwesLevy(old(ledger.wallets), owners[..Completed(failAt, |owners|)], k, g, moneda, monto)
    ensures usuariosCobrados == |charged| && totalCobrado == monto * usuariosCobrados
    ensures DebitedOnly(old(ledger.wallets), ledger.wallets, charged, moneda, monto)
    ensures Supply(ledger.wallets, g, moneda) == Supply(old(ledger.wallets), g, moneda) - totalCobrado
    ensures Solvent(old(ledger.wallets)) ==> Solvent(ledger.wallets)
  {
    ghost var m0 := ledger.wallets;
    var owners := Owners(ledger.ShopsOfGuild(g));
    totalCobrado, usuariosCobrados, charged := LevyEach(ledger, owners, g, moneda, monto, failAt);
    ghost var done := owners[..Completed(failAt, |owners|)];
    forall k ensures k in charged <==> OwesLevy(m0, done, k, g, moneda, monto) {
      LevyAmongIff(m0, done, g, moneda, monto, k);
    }
    DebitsKeepSolvent(m0, ledger.wallets, charged, moneda, monto);
    SupplyAfterDebits(m0, ledger.wallets, charged, g, moneda, monto);
  }

  /** Whether the wallet under `k` is in guild `g` and holds at least `monto`. */
  predicate Covers(m: Wallets, k: WalletKey, g: string, moneda: string, monto: int) {
    k in m && k.guildId == g && BalanceAt(m, k, moneda) >= monto
  }

  /** The keys of the wallets among the users `us` that `/cobrar-comerciante`
      charges, visiting them in order. */
  ghost function LevyAmong(m: Wallets, us: seq<string>, g: string, moneda: string, monto: int): set<WalletKey>
    decreases |us|
  {
    if us == [] then {}
    else
      var k := WalletKey(g, us[|us| - 1]);
      LevyAmong(m, us[..|us| - 1], g, moneda, monto) + (if Covers(m, k, g, moneda, monto) then {k} else {})
  }

  /** A key is charged among `us` exactly when its user is one of them and its
      wallet covers the amount. */
  lemma {:induction false} LevyAmongIff(m: Wallets, us: seq<string>, g: string, moneda: string, monto: int,
                                        k: WalletKey)
    ensures k in LevyAmong(m, us, g, moneda, monto) <==> k.userId in us && Covers(m, k, g, moneda, monto)
    decreases |us|
  {
    if us != [] {
      var p := us[..|us| - 1];
      LevyAmongIff(m, p, g, moneda, monto, k);
      assert us == p + [us[|us| - 1]];
    }
  }

  /** Visiting `us[i]` adds its key when its wallet covers the amount, and with
      distinct users that key is not among those charged before. */
  lemma LevyStep(m: Wallets, us: seq<string>, i: nat, g: string, moneda: string, monto: int)
    requires i < |us| && Distinct(us)
    ensures WalletKey(g, us[i]) !in LevyAmong(m, us[..i], g, moneda, monto)
    ensures LevyAmong(m, us[..i + 1], g, moneda, monto)
         == LevyAmong(m, us[..i], g, moneda, monto)
            + (if Covers(m, WalletKey(g, us[i]), g, moneda, monto) then {WalletKey(g, us[i])} else {})
  {
    LevyAmongIff(m, us[..i], g, moneda, monto, WalletKey(g, us[i]));
    forall a | 0 <= a < i ensures us[..i][a] != us[i] {
      assert us[..i][a] == us[a];
    }
    assert us[..i + 1][..i] == us[..i];
  }

  /** The `for` loop of `/cobrar-comerciante` over the distinct owners, which
      a store failure at owner `failAt` ends. */
  method LevyEach(ledger: Ledger, owners: seq<string>, g: string, moneda: string, monto: int, failAt: Option<nat>)
    returns (totalCobrado: int, usuariosCobrados: nat, ghost charged: set<WalletKey>)
    requires ledger.Valid()
    requires Distinct(owners)
    modifies ledger`wallets
    ensures ledger.Valid()
    ensures charged == LevyAmong(old(ledger.wallets), owners[..Completed(failAt, |owners|)], g, moneda, monto)
    ensures usuariosCobrados == |charged| && totalCobrado == monto * usuariosCobrados
    ensures DebitedOnly(old(ledger.wallets), ledger.wallets, charged, moneda, monto)
  {
    ghost var m0 := ledger.wallets;
    charged := {};
    totalCobrado, usuariosCobrados := 0, 0;
    // The owner whose store call throws, or the end of the list.
    var stop := Completed(failAt, |owners|);
    var i := 0;
    while i < stop
      invariant 0 <= i <= stop
      invariant ledger.Valid()
      invariant charged == LevyAmong(m0, owners[..i], g, moneda, monto)
      invariant usuariosCobrados == |charged| && totalCobrado == Times(usuariosCobrados, monto)
      invariant DebitedOnly(m0, ledger.wallets, charged, moneda, monto)
    {
      totalCobrado, usuariosCobrados, charged := LevyNext(ledger, owners, i, g, moneda, monto, m0, charged,
                                                          totalCobrado, usuariosCobrados);
      i := i + 1;
    }
    TimesIsProduct(usuariosCobrados, monto);
  }

  /** One pass of the `/cobrar-comerciante` loop: levies `owners[i]` and adds
      what it paid to the running totals. */
  method LevyNext(ledger: Ledger, owners: seq<string>, i: nat, g: string, moneda: string, monto: int,
                  ghost m0: Wallets, ghost charged: set<WalletKey>, totalCobrado: int, usuariosCobrados: nat)
    returns (totalCobrado': int, usuariosCobrados': nat, ghost charged': set<WalletKey>)
    requires ledger.Valid()
    requires i < |owners| && Distinct(owners)
    requires charged == LevyAmong(m0, owners[..i], g, moneda, monto)
    requires usuariosCobrados == |charged| && totalCobrado == Times(usuariosCobrados, monto)
    requires DebitedOnly(m0, ledger.wallets, charged, moneda, monto)
    modifies ledger`wallets
    ensures ledger.Valid()
    ensures charged' == LevyAmong(m0, owners[..i + 1], g, moneda, monto)
    ensures usuariosCobrados' == |charged'| && totalCobrado' == Times(usuariosCobrados', monto)
    ensures DebitedOnly(m0, ledger.wallets, charged', moneda, monto)
  {
    LevyStep(m0, owners, i, g, moneda, monto);
    var paid;
    paid, charged' := LevyOne(ledger, g, owners[i], moneda, monto, m0, charged);
    totalCobrado', usuariosCobrados' := totalCobrado, usuariosCobrados;
    if paid {
      totalCobrado', usuariosCobrados' := totalCobrado + monto, usuariosCobrados + 1;
    }
  }

  /** One owner of `/cobrar-comerciante`: skipped without a wallet, charged
      when the wallet holds `monto`. */
  method LevyOne(ledger: Ledger, g: string, u: string, moneda: string, monto: int,
                 ghost m0: Wallets, ghost charged: set<WalletKey>)
    returns (paid: bool, ghost charged': set<WalletKey>)
    requires ledger.Valid()
    requires WalletKey(g, u) !in charged
    requires DebitedOnly(m0, ledger.wallets, charged, moneda, monto)
    modifies ledger`wallets
    ensures ledger.Valid()
    ensures paid <==> Covers(m0, WalletKey(g, u), g, moneda, monto)
    ensures charged' == if paid then charged + {WalletKey(g, u)} else charged
    ensures |charged'| == |charged| + (if paid then 1 else 0)
    ensures DebitedOnly(m0, ledger.wallets, charged', moneda, monto)
  {
    charged' := charged;
    paid := false;
    var wallet := ledger.WalletOf(g, u);
    if wallet.Some? {
      paid := ChargeOne(ledger, wallet.value, moneda, monto, false);
      if paid {
        charged' := charged + {WalletKey(g, u)};
      }
    }
  }

  /** The reply of `/cobrar-comerciante`. */
  function LevyReply(moneda: string, o: LevyOutcome): (r: string)
    ensures o.Levied? ==> Contains(r, "Total cobrado: " + IntToString(o.totalCobrado) + " " + moneda)
    ensures o.Levied? ==> Contains(r, "Usuarios cobrados: " + NatToString(o.usuariosCobrados))
  {
    match o
    case NotAdmin => "No tienes permiso para usar este comando"
    case LevyFailed => "Hubo un error al realizar el cobro"
    case Levied(m, total, n) =>
      var head := "✅ Cobro realizado:\n• Monto por usuario: " + IntToString(m) + " " + moneda + "\n• ";
      var totalLine, usersLine := "Total cobrado: " + IntToString(total) + " " + moneda, "Usuarios cobrados: " + NatToString(n);
      Splice(head, totalLine, "\n• ", usersLine, "")
  }
}
