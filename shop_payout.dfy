/** The weekly shop payout: each shop rolls a d20 that scales its base
    earnings, ten percent goes to the bot's wallet as tax, and the rest to the
    owner's wallet, in the guild's first currency. */
module ShopPayout {
  import opened Wrappers
  import opened Schema
  import opened Seqs
  import opened Balances
  import opened Storage
  import opened Random
  import opened Order

  /** `Math.floor(Math.random() * 20) + 1`. */
  function D20(u: Draw): (r: int)
    ensures 1 <= r <= 20
  {
    Pick(u, 20) + 1
  }

  /** Every face of the d20 can come up. */
  lemma D20Reaches(r: int)
    requires 1 <= r <= 20
    ensures var u: Draw := (r - 1) as real / 20.0; D20(u) == r
  {
    PickReaches(20, r - 1);
  }

  /** The five keys of the multiplier and description tables. */
  datatype Band = OneToFive | SixToTen | ElevenToFifteen | SixteenToNineteen | Twenty

  function Lowest(b: Band): int {
    match b
    case OneToFive => 1
    case SixToTen => 6
    case ElevenToFifteen => 11
    case SixteenToNineteen => 16
    case Twenty => 20
  }

  function Highest(b: Band): int {
    match b
    case OneToFive => 5
    case SixToTen => 10
    case ElevenToFifteen => 15
    case SixteenToNineteen => 19
    case Twenty => 20
  }

  /** The chain of comparisons that picks the multiplier. */
  function BandOf(roll: int): (b: Band)
    ensures roll <= Highest(b) || b == Twenty
    ensures roll >= Lowest(b) || b == OneToFive
  {
    if roll <= 5 then OneToFive
    else if roll <= 10 then SixToTen
    else if roll <= 15 then ElevenToFifteen
    else if roll <= 19 then SixteenToNineteen
    else Twenty
  }

  /** The bands partition the faces of the d20: each face falls in exactly the
      band whose range holds it. */
  lemma BandsPartition(roll: int, b: Band)
    requires 1 <= roll <= 20
    ensures BandOf(roll) == b <==> Lowest(b) <= roll <= Highest(b)
  {
  }

  /** The multiplier table. */
  function Multiplier(b: Band): (r: real)
    ensures 0.5 <= r <= 2.0
    ensures Lowest(b) <= 10 <= Highest(b) <==> r == 1.0
  {
    match b
    case OneToFive => 0.5
    case SixToTen => 1.0
    case ElevenToFifteen => 1.25
    case SixteenToNineteen => 1.5
    case Twenty => 2.0
  }

  /** Each multiplier is a whole number of quarters, so the earnings can be
      computed on integers. */
  function Quarters(b: Band): (q: nat)
    ensures q as real / 4.0 == Multiplier(b)
    ensures 2 <= q <= 8
  {
    match b
    case OneToFive => 2
    case SixToTen => 4
    case ElevenToFifteen => 5
    case SixteenToNineteen => 6
    case Twenty => 8
  }

  /** The base earnings table of the payout. */
  function BaseEarnings(size: ShopSize): (r: nat)
    ensures 250 <= r <= 750 && r % 250 == 0
  {
    match size
    case Chico => 250
    case Mediano => 500
    case Grande => 750
  }

  /** Integer division by a positive number is the floor of real division. */
  lemma FloorDiv(n: nat, d: nat)
    requires d > 0
    ensures n / d == (n as real / d as real).Floor
  {
    var k, r := n / d, n % d;
    assert n == k * d + r;
    assert n as real / d as real == k as real + r as real / d as real;
    assert 0.0 <= r as real / d as real < 1.0;
  }

  /** `Math.floor(baseValue * multiplier)`. */
  function Earnings(size: ShopSize, roll: int): (e: nat)
    ensures e == (BaseEarnings(size) as real * Multiplier(BandOf(roll))).Floor
    ensures BaseEarnings(size) / 2 <= e <= 2 * BaseEarnings(size)
  {
    var n := BaseEarnings(size) * Quarters(BandOf(roll));
    FloorDiv(n, 4);
    assert n as real / 4.0 == BaseEarnings(size) as real * Multiplier(BandOf(roll));
    n / 4
  }

  /** `Math.floor(earnings * 0.1)`. */
  function Tax(e: nat): (t: nat)
    ensures t == (e as real * 0.1).Floor
  {
    FloorDiv(e, 10);
    e / 10
  }

  /** `earnings - tax`: the tax and the net split the earnings, and the owner
      keeps the larger part. */
  function Net(e: nat): (r: int)
    ensures Tax(e) + r == e
    ensures 0 <= Tax(e) <= r
  {
    e - Tax(e)
  }

  /** `updateShopPayout(id, now)` on the whole shops table. */
  function WithPayout(shops: seq<Shop>, id: nat, now: int): (r: seq<Shop>)
    ensures |r| == |shops|
    ensures forall i :: 0 <= i < |r| ==> r[i].(lastPayout := shops[i].lastPayout) == shops[i]
    ensures forall i :: 0 <= i < |r| ==> r[i].lastPayout == (if shops[i].id == id then now else shops[i].lastPayout)
  {
    seq(|shops|, i requires 0 <= i < |shops| => if shops[i].id == id then shops[i].(lastPayout := now) else shops[i])
  }

  /** One shop's payout on the wallet and shop tables, given the guild's
      currencies `gcs` as `getCurrencies` returns them. Without an owner wallet
      or a currency nothing changes. Otherwise the bot's wallet, when it exists,
      gets the tax first; then the owner's balances, as read before that write,
      plus the net are written over the owner's wallet; then `lastPayout` is set. */
  function PayShop(m: Wallets, shops: seq<Shop>, gcs: seq<Currency>, s: Shop, roll: int, botId: string,
                   now: int): (r: (Wallets, seq<Shop>))
    ensures r.0.Keys == m.Keys
  {
    var ok := WalletKey(s.guildId, s.userId);
    if ok !in m || gcs == [] then (m, shops)
    else
      var c, e, bk := gcs[0].name, Earnings(s.size, roll), WalletKey(s.guildId, botId);
      var m1 := if bk in m then m[bk := m[bk].(balances := Credit(m[bk].balances, c, Tax(e)))] else m;
      (m1[ok := m1[ok].(balances := Credit(m[ok].balances, c, Net(e)))], WithPayout(shops, s.id, now))
  }

  /** A shop whose owner has no wallet, or whose guild has no currency, is
      skipped with no write. */
  lemma PayShopSkips(m: Wallets, shops: seq<Shop>, cs: seq<Currency>, s: Shop, roll: int, botId: string, now: int)
    requires WalletKey(s.guildId, s.userId) !in m || forall c :: c in cs ==> c.guildId != s.guildId
    ensures PayShop(m, shops, GuildCurrencies(cs, s.guildId), s, roll, botId, now) == (m, shops)
  {
    var gcs := GuildCurrencies(cs, s.guildId);
    if gcs != [] {
      assert gcs[0] in gcs;
    }
  }

  /** A paid shop: the owner gains the net and the bot the tax, only in the
      guild's first currency by name and only when the bot has a wallet; when
      the bot owns the shop its tax credit is overwritten and it keeps only the
      net. No other wallet, field or currency changes, and the shop's
      `lastPayout` becomes `now`. */
  lemma PayShopPays(m: Wallets, shops: seq<Shop>, cs: seq<Currency>, s: Shop, roll: int, botId: string, now: int)
    requires WalletKey(s.guildId, s.userId) in m
    requires exists c :: c in cs && c.guildId == s.guildId
    ensures var r, ok, bk := PayShop(m, shops, GuildCurrencies(cs, s.guildId), s, roll, botId, now), WalletKey(s.guildId, s.userId),
                             WalletKey(s.guildId, botId);
      var c, e := GuildCurrencies(cs, s.guildId)[0].name, Earnings(s.size, roll);
      && (forall x :: x in cs && x.guildId == s.guildId ==> LexLe(c, x.name))
      && r.0[ok] == m[ok].(balances := Credit(m[ok].balances, c, Net(e)))
      && (bk in m && bk != ok ==> r.0[bk] == m[bk].(balances := Credit(m[bk].balances, c, Tax(e))))
      && BalanceAt(r.0, ok, c) == BalanceAt(m, ok, c) + Net(e)
      && (bk in m && bk != ok ==> BalanceAt(r.0, bk, c) == BalanceAt(m, bk, c) + Tax(e))
      && (forall d :: d != c ==> BalanceAt(r.0, ok, d) == BalanceAt(m, ok, d) && BalanceAt(r.0, bk, d) == BalanceAt(m, bk, d))
      && (forall k :: k in m && k != ok && k != bk ==> r.0[k] == m[k])
      && r.1 == WithPayout(shops, s.id, now)
  {
    var gcs := GuildCurrencies(cs, s.guildId);
    var c :| c in cs && c.guildId == s.guildId;
    assert c in gcs;
    forall x | x in cs && x.guildId == s.guildId ensures LexLe(gcs[0].name, x.name) {
      FirstCurrencyLeast(cs, s.guildId, x);
    }
  }

  /** A paid shop mints its earnings in the guild's first currency: the net,
      plus the tax when the bot has a wallet of its own besides the owner's. */
  lemma PayShopSupply(m: Wallets, shops: seq<Shop>, cs: seq<Currency>, s: Shop, roll: int, botId: string, now: int)
    requires WalletKey(s.guildId, s.userId) in m
    requires exists c :: c in cs && c.guildId == s.guildId
    ensures var ok, bk := WalletKey(s.guildId, s.userId), WalletKey(s.guildId, botId);
      var c, e := GuildCurrencies(cs, s.guildId)[0].name, Earnings(s.size, roll);
      Supply(PayShop(m, shops, GuildCurrencies(cs, s.guildId), s, roll, botId, now).0, s.guildId, c)
        == Supply(m, s.guildId, c) + Net(e) + (if bk in m && bk != ok then Tax(e) else 0)
  {
    var gcs := GuildCurrencies(cs, s.guildId);
    var c0 :| c0 in cs && c0.guildId == s.guildId;
    assert c0 in gcs;
    var ok, bk := WalletKey(s.guildId, s.userId), WalletKey(s.guildId, botId);
    var c, e, g := gcs[0].name, Earnings(s.size, roll), s.guildId;
    var m1 := if bk in m then m[bk := m[bk].(balances := Credit(m[bk].balances, c, Tax(e)))] else m;
    if bk in m {
      SupplyUpdate(m, bk, m1[bk], g, c);
    }
    SupplyUpdate(m1, ok, m1[ok].(balances := Credit(m[ok].balances, c, Net(e))), g, c);
  }

  /** Payouts only add non-negative amounts, so they keep every balance non-negative. */
  lemma PayShopKeepsSolvent(m: Wallets, shops: seq<Shop>, cs: seq<Currency>, s: Shop, roll: int, botId: string,
                            now: int)
    requires Solvent(m)
    ensures Solvent(PayShop(m, shops, GuildCurrencies(cs, s.guildId), s, roll, botId, now).0)
  {
    var r := PayShop(m, shops, GuildCurrencies(cs, s.guildId), s, roll, botId, now).0;
    forall k, d | k in r && d in r[k].balances ensures r[k].balances[d] >= 0 {
      assert Balance(m[k].balances, d) >= 0;
    }
  }

  /** The tables after paying the first `n` shops of `batch` in order, the
      i-th with the i-th draw. */
  function PayAll(m: Wallets, shops: seq<Shop>, cs: seq<Currency>, batch: seq<Shop>, draws: seq<Draw>,
                  botId: string, now: int, n: nat): (r: (Wallets, seq<Shop>))
    requires |draws| == |batch| && n <= |batch|
    ensures |r.1| == |shops|
    ensures forall i :: 0 <= i < |shops| ==> r.1[i].(lastPayout := shops[i].lastPayout) == shops[i]
    ensures forall i :: 0 <= i < |shops| ==> r.1[i].lastPayout == shops[i].lastPayout || r.1[i].lastPayout == now
  {
    if n == 0 then (m, shops)
    else
      var prev := PayAll(m, shops, cs, batch, draws, botId, now, n - 1);
      PayShop(prev.0, prev.1, GuildCurrencies(cs, batch[n - 1].guildId), batch[n - 1], D20(draws[n - 1]), botId, now)
  }

  /** A run of payouts keeps the set of wallets and the solvency of the table. */
  lemma {:induction false} PayAllKeeps(m: Wallets, shops: seq<Shop>, cs: seq<Currency>, batch: seq<Shop>,
                                       draws: seq<Draw>, botId: string, now: int, n: nat)
    requires |draws| == |batch| && n <= |batch|
    ensures PayAll(m, shops, cs, batch, draws, botId, now, n).0.Keys == m.Keys
    ensures Solvent(m) ==> Solvent(PayAll(m, shops, cs, batch, draws, botId, now, n).0)
  {
    if n > 0 {
      PayAllKeeps(m, shops, cs, batch, draws, botId, now, n - 1);
      var prev := PayAll(m, shops, cs, batch, draws, botId, now, n - 1);
      if Solvent(m) {
        PayShopKeepsSolvent(prev.0, prev.1, cs, batch[n - 1], D20(draws[n - 1]), botId, now);
      }
    }
  }

  /** `processShops`: one draw per shop, the shops paid in table order. The
      try/catch is around the whole loop, so a store failure at shop `failAt`
      stops the run there, with the shops before it paid and the rest not. */
  method ProcessShops(ledger: Ledger, botId: string, draws: seq<Draw>, now: int, failAt: Option<nat>)
    returns (processed: nat)
    requires ledger.Valid()
    requires |draws| == |ledger.shops|
    modifies ledger`wallets, ledger`shops
    ensures ledger.Valid()
    ensures processed == if failAt.Some? && failAt.value < |old(ledger.shops)| then failAt.value else |old(ledger.shops)|
    ensures (ledger.wallets, ledger.shops)
         == PayAll(old(ledger.wallets), old(ledger.shops), ledger.currencies, old(ledger.shops), draws, botId, now,
                   processed)
    ensures Solvent(old(ledger.wallets)) ==> Solvent(ledger.wallets)
  {
    var allShops := ledger.shops;
    // The shop whose store call throws, or the end of the table.
    var stop := if failAt.Some? && failAt.value < |allShops| then failAt.value else |allShops|;
    var i := 0;
    while i < stop
      invariant 0 <= i <= stop
      invariant ledger.Valid()
      invariant (ledger.wallets, ledger.shops)
             == PayAll(old(ledger.wallets), old(ledger.shops), ledger.currencies, allShops, draws, botId, now, i)
    {
      PayNext(ledger, old(ledger.wallets), old(ledger.shops), allShops, draws, botId, now, i);
      i := i + 1;
    }
    processed := i;
    PayAllKeeps(old(ledger.wallets), old(ledger.shops), ledger.currencies, allShops, draws, botId, now, processed);
  }

  /** The loop body: pays shop `i` once the first `i` shops are paid. */
  method PayNext(ledger: Ledger, ghost m0: Wallets, ghost s0: seq<Shop>, allShops: seq<Shop>, draws: seq<Draw>,
                 botId: string, now: int, i: nat)
    requires ledger.Valid()
    requires |draws| == |allShops| && i < |allShops|
    requires (ledger.wallets, ledger.shops) == PayAll(m0, s0, ledger.currencies, allShops, draws, botId, now, i)
    modifies ledger`wallets, ledger`shops
    ensures ledger.Valid()
    ensures (ledger.wallets, ledger.shops)
         == PayAll(m0, s0, ledger.currencies, allShops, draws, botId, now, i + 1)
  {
    var roll := D20(draws[i]);
    PayOne(ledger, allShops[i], roll, botId, now);
  }

  /** One iteration of the `processShops` loop. */
  method PayOne(ledger: Ledger, s: Shop, roll: int, botId: string, now: int)
    requires ledger.Valid()
    modifies ledger`wallets, ledger`shops
    ensures ledger.Valid()
    ensures (ledger.wallets, ledger.shops) == PayShop(old(ledger.wallets), old(ledger.shops), GuildCurrencies(ledger.currencies, s.guildId), s, roll, botId,
                                                   now)
  {
    var e := Earnings(s.size, roll);
    var tax := Tax(e);
    var earningsAfterTax := e - tax;
    var wallet := ledger.WalletOf(s.guildId, s.userId);
    if wallet.None? {
      PayShopSkips(ledger.wallets, ledger.shops, ledger.currencies, s, roll, botId, now);
      return;
    }
    var currencies := ledger.CurrenciesOf(s.guildId);
    if |currencies| == 0 {
      PayShopSkips(ledger.wallets, ledger.shops, ledger.currencies, s, roll, botId, now);
      return;
    }
    ghost var m, shops := ledger.wallets, ledger.shops;
    PayShopWrites(m, shops, ledger.currencies, s, roll, botId, now, currencies[0].name);
    PayWrites(ledger, s, currencies[0].name, tax, earningsAfterTax, botId, now);
  }

  /** The writes `PayShop` makes for a paid shop, with its currency named. */
  lemma PayShopWrites(m: Wallets, shops: seq<Shop>, cs: seq<Currency>, s: Shop, roll: int, botId: string, now: int,
                      c: string)
    requires WalletKey(s.guildId, s.userId) in m
    requires GuildCurrencies(cs, s.guildId) != [] && c == GuildCurrencies(cs, s.guildId)[0].name
    ensures var ok, bk, e := WalletKey(s.guildId, s.userId), WalletKey(s.guildId, botId), Earnings(s.size, roll);
      var m1 := if bk in m then m[bk := m[bk].(balances := Credit(m[bk].balances, c, Tax(e)))] else m;
      PayShop(m, shops, GuildCurrencies(cs, s.guildId), s, roll, botId, now)
        == (m1[ok := m1[ok].(balances := Credit(m[ok].balances, c, Net(e)))], WithPayout(shops, s.id, now))
  {
  }

  /** The writes of one paid shop: the bot's tax, the owner's net over the
      balances read before it, and the shop's `lastPayout`. */
  method PayWrites(ledger: Ledger, s: Shop, c: string, tax: int, net: int, botId: string, now: int)
    requires ledger.Valid() && WalletKey(s.guildId, s.userId) in ledger.wallets
    modifies ledger`wallets, ledger`shops
    ensures ledger.Valid()
    ensures var m, ok, bk := old(ledger.wallets), WalletKey(s.guildId, s.userId), WalletKey(s.guildId, botId);
      var m1 := if bk in m then m[bk := m[bk].(balances := Credit(m[bk].balances, c, tax))] else m;
      ledger.wallets == m1[ok := m1[ok].(balances := Credit(m[ok].balances, c, net))]
    ensures ledger.shops == WithPayout(old(ledger.shops), s.id, now)
  {
    var updatedWallet := Credit(ledger.wallets[WalletKey(s.guildId, s.userId)].balances, c, net);
    var botWallet := ledger.WalletOf(s.guildId, botId);
    if botWallet.Some? {
      ledger.RewriteBalances(WalletKey(s.guildId, botId), Credit(botWallet.value.balances, c, tax));
    }
    ledger.RewriteBalances(WalletKey(s.guildId, s.userId), updatedWallet);
    ledger.UpdateShopPayout(s.id, now);
  }

  /** The key of the description table that the log message uses. */
  function DescriptionKeyAsWritten(roll: int): (b: Band)
    ensures b != SixToTen
    ensures roll <= Highest(b) || b == Twenty
  {
    if roll <= 5 then OneToFive
    else if roll <= 15 then ElevenToFifteen
    else if roll <= 19 then SixteenToNineteen
    else Twenty
  }

  /** As written, rolls 6 to 10 are described with the '11-15' text although
      their multiplier is the '6-10' one, and the '6-10' text is never used. */
  lemma DescriptionAsWrittenMislabels(roll: int)
    requires 6 <= roll <= 10
    ensures DescriptionKeyAsWritten(roll) == ElevenToFifteen
    ensures DescriptionKeyAsWritten(roll) != BandOf(roll)
    ensures forall r :: DescriptionKeyAsWritten(r) != SixToTen
  {
  }

  /** The description key with the missing '6-10' test in its chain. By
      design this is the comparison chain that picks the multiplier (`BandOf`),
      so the log describes the band that was applied; `DescriptionKeyMatches`
      records the agreement. */
  function DescriptionKey(roll: int): (b: Band)
    ensures roll <= Highest(b) || b == Twenty
    ensures roll >= Lowest(b) || b == OneToFive
  {
    if roll <= 5 then OneToFive
    else if roll <= 10 then SixToTen
    else if roll <= 15 then ElevenToFifteen
    else if roll <= 19 then SixteenToNineteen
    else Twenty
  }

  /** With the '6-10' test in place the log describes the multiplier that was
      applied on every roll, and agrees with the code as written outside 6 to 10. */
  lemma DescriptionKeyMatches(roll: int)
    ensures DescriptionKey(roll) == BandOf(roll)
    ensures !(6 <= roll <= 10) ==> DescriptionKey(roll) == DescriptionKeyAsWritten(roll)
  {
  }

  /** The description table `rollDescriptions`: one text per band, which
      names that band's effect on the earnings from its second character on. */
  function Description(b: Band): (d: string)
    ensures |d| > 1
  {
    match b
    case OneToFive => "¡Mala suerte! Solo 50% de las ganancias base"
    case SixToTen => "Día normal, ganancias base"
    case ElevenToFifteen => "¡Buen día! +25% de ganancias"
    case SixteenToNineteen => "¡Excelente día! +50% de ganancias"
    case Twenty => "¡CRÍTICO! Doble de ganancias"
  }

  /** Each band has its own text, so the log names the band it describes. */
  lemma DescriptionsDistinct(a: Band, b: Band)
    requires a != b
    ensures Description(a) != Description(b)
  {
    var second := map[OneToFive := 'M', SixToTen := 'í', ElevenToFifteen := 'B', SixteenToNineteen := 'E',
                      Twenty := 'C'];
    var s1 := "¡Mala suerte! Solo 50% de las ganancias base";
    var s2 := "Día normal, ganancias base";
    var s3 := "¡Buen día! +25% de ganancias";
    var s4 := "¡Excelente día! +50% de ganancias";
    var s5 := "¡CRÍTICO! Doble de ganancias";
    assert s1[1] == 'M' && s2[1] == 'í' && s3[1] == 'B' && s4[1] == 'E' && s5[1] == 'C';
    assert Description(a)[1] == second[a] && Description(b)[1] == second[b];
  }
}
