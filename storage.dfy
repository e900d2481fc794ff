/** The store: the currencies, wallets, transactions, shops and characters
    tables held in memory, with the operations the bot performs on them. */
module Storage {
  import opened Wrappers
  import opened Schema
  import opened Text
  import opened Seqs
  import opened Balances
  import opened Order

  datatype StoreError = WalletNotFound(walletId: nat) | CharacterNotFound(characterRecordId: nat)

  datatype TransferError = SourceWalletNotFound | DestinationWalletNotFound | InsufficientFunds

  /** The rank a character gets when none is given. */
  const DefaultRank: string := "Rango E"

  /** `${userId}_${id}`: the characters table's sort key. Creation stores it
      and deletion rebuilds it with this same function. */
  function CharacterKey(userId: string, id: nat): string {
    userId + "_" + NatToString(id)
  }

  /** In `u + "_" + d` with `d` all digits, the '_' at `|u|` is the last one. */
  lemma LastUnderscore(u: string, d: string)
    requires AllDigits(d)
    ensures (u + "_" + d)[|u|] == '_'
    ensures forall j :: |u| < j < |u + "_" + d| ==> (u + "_" + d)[j] != '_'
  {
    forall j | |u| < j < |u + "_" + d|
      ensures (u + "_" + d)[j] != '_'
    {
      assert (u + "_" + d)[j] == d[j - |u| - 1];
    }
  }

  /** The key determines the user and the id, whatever characters the user id
      contains: the last '_' of a key is the one before the id's digits. */
  lemma CharacterKeyInjective(u1: string, i1: nat, u2: string, i2: nat)
    requires CharacterKey(u1, i1) == CharacterKey(u2, i2)
    ensures u1 == u2 && i1 == i2
  {
    var s := CharacterKey(u1, i1);
    var d1, d2 := NatToString(i1), NatToString(i2);
    LastUnderscore(u1, d1);
    LastUnderscore(u2, d2);
    assert |u1| == |u2|;
    assert u1 == s[..|u1|] == u2;
    assert d1 == s[|u1| + 1..] == d2;
    NatToStringInjective(i1, i2);
  }

  /** The index of the first character whose name equals `name` when both are
      lower-cased. */
  function FirstNamed(cs: seq<Character>, name: string): (r: Option<nat>)
    ensures r.Some? ==> r.value < |cs| && Lower(cs[r.value].name) == Lower(name)
    ensures r.Some? ==> forall j :: 0 <= j < r.value ==> Lower(cs[j].name) != Lower(name)
    ensures r.None? ==> forall j :: 0 <= j < |cs| ==> Lower(cs[j].name) != Lower(name)
    decreases |cs|
  {
    if cs == [] then None
    else if Lower(cs[0].name) == Lower(name) then Some(0)
    else match FirstNamed(cs[1..], name)
      case None => None
      case Some(i) => Some(i + 1)
  }

  /** `storage.getCharacter`: among the user's characters in the guild (in
      table order), the first whose name matches ignoring case; the first one
      when no name is given, the name is empty or nothing matches; nothing
      when the user has no character there. */
  function GetCharacter(cs: seq<Character>, g: string, u: string, name: Option<string>): (r: Option<Character>)
    ensures var mine := Filter(cs, (c: Character) => c.guildId == g && c.userId == u);
      && (r.None? <==> mine == [])
      && (r.Some? ==> r.value in cs && r.value.guildId == g && r.value.userId == u)
      && (r.Some? && name.Some? && name.value != [] && FirstNamed(mine, name.value).Some? ==>
            Lower(r.value.name) == Lower(name.value) && r.value == mine[FirstNamed(mine, name.value).value])
      && (r.Some? && (name.None? || name.value == [] || FirstNamed(mine, name.value).None?) ==> r.value == mine[0])
  {
    var mine := Filter(cs, (c: Character) => c.guildId == g && c.userId == u);
    if mine == [] then None
    else if name.Some? && name.value != [] then
      match FirstNamed(mine, name.value)
      case Some(i) => Some(mine[i])
      case None => Some(mine[0])
    else Some(mine[0])
  }

  /** `updateCharacter`'s effect on one record: the fields the patch carries
      are replaced, every other field is kept. */
  function ApplyPatch(c: Character, p: CharacterPatch): (r: Character)
    ensures r.level == (if p.level.Some? then p.level.value else c.level)
    ensures r.rank == (if p.rank.Some? then p.rank.value else c.rank)
    ensures r.(level := c.level, rank := c.rank) == c
  {
    c.(level := if p.level.Some? then p.level.value else c.level,
       rank := if p.rank.Some? then p.rank.value else c.rank)
  }

  /** `updateUserWallet`'s new record: the balance map is replaced wholesale and
      each timestamp is kept unless a new one is given. */
  function Updated(w: Wallet, b: map<string, int>, lastWorked: Option<int>, lastStolen: Option<int>): (r: Wallet)
    ensures r.id == w.id && r.Key() == w.Key() && r.balances == b
    ensures r.lastWorked == (if lastWorked.Some? then lastWorked else w.lastWorked)
    ensures r.lastStolen == (if lastStolen.Some? then lastStolen else w.lastStolen)
  {
    w.(balances := b,
       lastWorked := if lastWorked.Some? then lastWorked else w.lastWorked,
       lastStolen := if lastStolen.Some? then lastStolen else w.lastStolen)
  }

  function CurrencyName(c: Currency): string { c.name }

  function CharacterSortKey(c: Character): string { c.characterId }

  /** `getCurrencies`: a query on the guild's partition of the currencies
      table, whose sort key is the name, so the currencies come back in
      ascending name order. */
  function GuildCurrencies(cs: seq<Currency>, g: string): (r: seq<Currency>)
    ensures forall c :: c in r <==> c in cs && c.guildId == g
    ensures forall i :: 0 < i < |r| ==> LexLe(r[i - 1].name, r[i].name)
  {
    var f := Filter(cs, (c: Currency) => c.guildId == g);
    var r := SortBy(f, CurrencyName);
    assert forall i :: 0 < i < |r| ==> LexLe(CurrencyName(r[i - 1]), CurrencyName(r[i]));
    r
  }

  /** The currency the bot treats as the guild's first one has the least
      name of them all. */
  lemma FirstCurrencyLeast(cs: seq<Currency>, g: string, c: Currency)
    requires c in cs && c.guildId == g
    ensures GuildCurrencies(cs, g) != []
    ensures LexLe(GuildCurrencies(cs, g)[0].name, c.name)
  {
    var r := GuildCurrencies(cs, g);
    var i :| 0 <= i < |r| && r[i] == c;
    assert SortedBy(r, CurrencyName) by {
      forall j | 0 < j < |r| ensures LexLe(CurrencyName(r[j - 1]), CurrencyName(r[j])) {
      }
    }
    SortedFirstLeast(r, CurrencyName, i);
  }

  /** `getCharacters`: a query on the guild's partition of the characters
      table, whose sort key is `characterId`, so they come back in ascending
      key order. */
  function GuildCharacters(cs: seq<Character>, g: string): (r: seq<Character>)
    ensures forall c :: c in r <==> c in cs && c.guildId == g
    ensures forall i :: 0 < i < |r| ==> LexLe(r[i - 1].characterId, r[i].characterId)
  {
    var f := Filter(cs, (c: Character) => c.guildId == g);
    var r := SortBy(f, CharacterSortKey);
    assert forall i :: 0 < i < |r| ==> LexLe(CharacterSortKey(r[i - 1]), CharacterSortKey(r[i]));
    r
  }

  /** `getCharacters` filtered to one user: that user's characters in the
      guild, still in ascending key order. */
  function UserCharacters(cs: seq<Character>, g: string, u: string): (r: seq<Character>)
    ensures forall c :: c in r <==> c in cs && c.guildId == g && c.userId == u
    ensures forall i :: 0 < i < |r| ==> LexLe(r[i - 1].characterId, r[i].characterId)
  {
    var all := GuildCharacters(cs, g);
    assert SortedBy(all, CharacterSortKey) by {
      forall i | 0 < i < |all| ensures LexLe(CharacterSortKey(all[i - 1]), CharacterSortKey(all[i])) {
      }
    }
    var r := Filter(all, (c: Character) => c.userId == u);
    FilterSorted(all, CharacterSortKey, (c: Character) => c.userId == u);
    assert forall i :: 0 < i < |r| ==> LexLe(CharacterSortKey(r[i - 1]), CharacterSortKey(r[i]));
    r
  }

  /** Character ids are unique and each record carries the key built from its
      user and id. */
  ghost predicate CharactersKeyed(cs: seq<Character>) {
    && (forall i, j :: 0 <= i < j < |cs| ==> cs[i].id != cs[j].id)
    && (forall i :: 0 <= i < |cs| ==> cs[i].characterId == CharacterKey(cs[i].userId, cs[i].id))
  }

  lemma {:induction false} FilterKeepsKeyed(cs: seq<Character>, p: Character -> bool)
    requires CharactersKeyed(cs)
    ensures CharactersKeyed(Filter(cs, p))
  {
    if cs != [] {
      assert CharactersKeyed(cs[1..]) by {
        forall i, j | 0 <= i < j < |cs[1..]| ensures cs[1..][i].id != cs[1..][j].id {
          assert cs[1..][i] == cs[i + 1] && cs[1..][j] == cs[j + 1];
        }
      }
      FilterKeepsKeyed(cs[1..], p);
      var rest := Filter(cs[1..], p);
      forall j | 0 <= j < |rest| ensures rest[j].id != cs[0].id {
        assert rest[j] in cs[1..];
        var k :| 0 <= k < |cs[1..]| && cs[1..][k] == rest[j];
        assert cs[k + 1] == rest[j];
      }
    }
  }

  /** Patching a record keeps its id, user and key, so the table stays keyed
      and the record is the only one with its id. */
  lemma PatchKeepsKeyed(cs: seq<Character>, i: nat, p: CharacterPatch)
    requires CharactersKeyed(cs) && i < |cs|
    ensures CharactersKeyed(cs[i := ApplyPatch(cs[i], p)])
    ensures forall j :: 0 <= j < |cs| && cs[j].id == cs[i].id ==> j == i
  {
    var s := cs[i := ApplyPatch(cs[i], p)];
    forall a, b | 0 <= a < b < |s| ensures s[a].id != s[b].id {
      assert s[a].id == cs[a].id && s[b].id == cs[b].id;
    }
  }

  /** In a keyed table, the record with a given id is the only one in its
      guild with that id's key, so deleting by key removes exactly it. */
  lemma DeleteByKeyRemovesId(cs: seq<Character>, i: nat)
    requires CharactersKeyed(cs) && i < |cs|
    ensures var p := (x: Character) => !(x.guildId == cs[i].guildId && x.characterId == CharacterKey(cs[i].userId, cs[i].id));
      forall c :: c in Filter(cs, p) <==> c in cs && c.id != cs[i].id
  {
    var key := CharacterKey(cs[i].userId, cs[i].id);
    var p := (x: Character) => !(x.guildId == cs[i].guildId && x.characterId == key);
    forall j | 0 <= j < |cs|
      ensures p(cs[j]) <==> cs[j].id != cs[i].id
    {
      if cs[j].characterId == key {
        CharacterKeyInjective(cs[j].userId, cs[j].id, cs[i].userId, cs[i].id);
      }
    }
  }

  class Ledger {
    var currencies: seq<Currency>
    var wallets: Wallets
    var transactions: seq<Transaction>
    var shops: seq<Shop>
    var characters: seq<Character>
    /** The next fresh record id (the source uses the clock). */
    var nextId: nat

    /** Every wallet sits under its own key, ids are fresh and unique within
        each table, and each character carries the key built from its user and id. */
    ghost predicate Valid()
      reads this
    {
      WalletsValid() && ShopsValid() && CharactersValid()
    }

    /** Wallets sit under their own keys and carry distinct ids below `nextId`. */
    ghost predicate WalletsValid()
      reads this`wallets, this`nextId
    {
      && KeyedByOwner(wallets)
      && (forall k :: k in wallets ==> wallets[k].id < nextId)
      && (forall k1, k2 :: k1 in wallets && k2 in wallets && wallets[k1].id == wallets[k2].id ==> k1 == k2)
    }

    ghost predicate ShopsValid()
      reads this`shops, this`nextId
    {
      && (forall i :: 0 <= i < |shops| ==> shops[i].id < nextId)
      && (forall i, j :: 0 <= i < j < |shops| ==> shops[i].id != shops[j].id)
    }

    ghost predicate CharactersValid()
      reads this`characters, this`nextId
    {
      && (forall i :: 0 <= i < |characters| ==> characters[i].id < nextId)
      && CharactersKeyed(characters)
    }

    constructor ()
      ensures Valid()
      ensures currencies == [] && wallets == map[] && transactions == [] && shops == [] && characters == []
    {
      currencies, wallets, transactions, shops, characters, nextId := [], map[], [], [], [], 0;
    }

    /** `getCurrencies`: the guild's currencies, in ascending name order. */
    function CurrenciesOf(g: string): (r: seq<Currency>)
      reads this`currencies
      ensures forall c :: c in r <==> c in currencies && c.guildId == g
      ensures forall i :: 0 < i < |r| ==> LexLe(r[i - 1].name, r[i].name)
    {
      GuildCurrencies(currencies, g)
    }

    /** `createCurrency`: a put keyed by guild and name, so an existing currency
        of that name is replaced. */
    method CreateCurrency(g: string, name: string, symbol: string) returns (c: Currency)
      requires Valid()
      modifies this`currencies, this`nextId
      ensures Valid()
      ensures c == Currency(old(nextId), g, name, symbol) && nextId == old(nextId) + 1
      ensures currencies == Filter(old(currencies), (x: Currency) => !(x.guildId == g && x.name == name)) + [c]
    {
      c := Currency(nextId, g, name, symbol);
      nextId := nextId + 1;
      currencies := Filter(currencies, (x: Currency) => !(x.guildId == g && x.name == name)) + [c];
    }

    /** `deleteCurrency`: true whenever the store call does not fail, whether or
        not such a currency existed. */
    method DeleteCurrency(g: string, name: string, storeFails: bool) returns (ok: bool)
      requires Valid()
      modifies this`currencies
      ensures Valid()
      ensures ok == !storeFails
      ensures ok ==> currencies == Filter(old(currencies), (x: Currency) => !(x.guildId == g && x.name == name))
      ensures !ok ==> currencies == old(currencies)
    {
      if storeFails {
        ok := false;
      } else {
        currencies := Filter(currencies, (x: Currency) => !(x.guildId == g && x.name == name));
        ok := true;
      }
    }

    /** `getUserWallet`. */
    function WalletOf(g: string, u: string): (r: Option<Wallet>)
      reads this`wallets
      ensures r.Some? <==> WalletKey(g, u) in wallets
      ensures r.Some? ==> r.value == wallets[WalletKey(g, u)]
    {
      if WalletKey(g, u) in wallets then Some(wallets[WalletKey(g, u)]) else None
    }

    /** `createUserWallet`: a put of an empty wallet with a fresh id. */
    method CreateUserWallet(g: string, u: string) returns (w: Wallet)
      requires Valid()
      modifies this`wallets, this`nextId
      ensures Valid()
      ensures w == EmptyWallet(old(nextId), g, u) && nextId == old(nextId) + 1
      ensures wallets == old(wallets)[WalletKey(g, u) := w]
    {
      w := EmptyWallet(nextId, g, u);
      wallets := wallets[WalletKey(g, u) := w];
      nextId := nextId + 1;
    }

    /** `updateUserWallet`: throws for an unknown id; otherwise rewrites that
        wallet through `Updated`. */
    method UpdateUserWallet(id: nat, b: map<string, int>, lastWorked: Option<int>, lastStolen: Option<int>)
      returns (r: Result<Wallet, StoreError>)
      requires Valid()
      modifies this`wallets
      ensures Valid()
      ensures r.Err? <==> forall k :: k in old(wallets) ==> old(wallets)[k].id != id
      ensures r.Err? ==> r.error == WalletNotFound(id) && wallets == old(wallets)
      ensures forall k :: k in old(wallets) && old(wallets)[k].id == id ==>
        && r == Ok(Updated(old(wallets)[k], b, lastWorked, lastStolen))
        && wallets == old(wallets)[k := r.value]
    {
      if k :| k in wallets && wallets[k].id == id {
        var w := Updated(wallets[k], b, lastWorked, lastStolen);
        wallets := wallets[k := w];
        r := Ok(w);
      } else {
        r := Err(WalletNotFound(id));
      }
    }

    /** `updateUserWallet(wallet.id, b)` for a wallet read from the table under
        `k`: ids are unique, so that wallet is the one rewritten. */
    method RewriteBalances(k: WalletKey, b: map<string, int>)
      requires Valid() && k in wallets
      modifies this`wallets
      ensures Valid()
      ensures wallets == old(wallets)[k := old(wallets)[k].(balances := b)]
    {
      var r := UpdateUserWallet(wallets[k].id, b, None, None);
    }

    /** `createTransaction`: appends one record stamped with `now`. */
    method CreateTransaction(g: string, from: string, to: string, c: string, amount: int, now: int)
      returns (t: Transaction)
      requires Valid()
      modifies this`transactions, this`nextId
      ensures Valid()
      ensures t == Transaction(old(nextId), g, from, to, c, amount, now) && nextId == old(nextId) + 1
      ensures transactions == old(transactions) + [t]
    {
      t := Transaction(nextId, g, from, to, c, amount, now);
      transactions := transactions + [t];
      nextId := nextId + 1;
    }

    /** `transferCurrency`: both wallets must exist and the sender must hold
        `amount`; then both maps are rewritten and one transaction appended. */
    method TransferCurrency(g: string, from: string, to: string, c: string, amount: int, now: int)
      returns (r: Result<Transaction, TransferError>)
      requires Valid()
      modifies this`wallets, this`transactions, this`nextId
      ensures Valid()
      ensures WalletKey(g, from) !in old(wallets) ==> r == Err(SourceWalletNotFound)
      ensures WalletKey(g, from) in old(wallets) && WalletKey(g, to) !in old(wallets) ==>
        r == Err(DestinationWalletNotFound)
      ensures WalletKey(g, from) in old(wallets) && WalletKey(g, to) in old(wallets) ==>
        (r == Err(InsufficientFunds) <==> BalanceAt(old(wallets), WalletKey(g, from), c) < amount)
      ensures r.Err? ==> wallets == old(wallets) && transactions == old(transactions) && nextId == old(nextId)
      ensures r.Ok? <==> WalletKey(g, from) in old(wallets) && WalletKey(g, to) in old(wallets)
                         && BalanceAt(old(wallets), WalletKey(g, from), c) >= amount
      ensures r.Ok? ==>
        && WalletKey(g, from) in old(wallets) && WalletKey(g, to) in old(wallets)
        && wallets == Transferred(old(wallets), g, from, to, c, amount)
        && nextId == old(nextId) + 1
        && r.value == Transaction(old(nextId), g, from, to, c, amount, now)
        && transactions == old(transactions) + [r.value]
    {
      var fromWallet := WalletOf(g, from);
      var toWallet := WalletOf(g, to);
      if fromWallet.None? {
        return Err(SourceWalletNotFound);
      }
      if toWallet.None? {
        return Err(DestinationWalletNotFound);
      }
      var currentBalance := Balance(fromWallet.value.balances, c);
      if currentBalance < amount {
        return Err(InsufficientFunds);
      }
      ghost var m := wallets;
      var fromUpdated := Credit(fromWallet.value.balances, c, -amount);
      var toUpdated := Credit(toWallet.value.balances, c, amount);
      var _ := UpdateUserWallet(fromWallet.value.id, fromUpdated, None, None);
      assert wallets[WalletKey(g, to)].id == toWallet.value.id;
      var _ := UpdateUserWallet(toWallet.value.id, toUpdated, None, None);
      assert wallets == Transferred(m, g, from, to, c, amount);
      var t := CreateTransaction(g, from, to, c, amount, now);
      r := Ok(t);
    }

    /** `getAllWallets`: every wallet of the guild once, in some order. */
    method AllWallets(g: string) returns (ws: seq<Wallet>)
      requires Valid()
      ensures forall i :: 0 <= i < |ws| ==>
        ws[i].guildId == g && ws[i].Key() in wallets && wallets[ws[i].Key()] == ws[i]
      ensures forall k :: k in wallets && k.guildId == g ==> exists w :: w in ws && w.Key() == k
      ensures forall i, j :: 0 <= i < j < |ws| ==> ws[i].Key() != ws[j].Key()
    {
      ws := [];
      var rest := wallets.Keys;
      while rest != {}
        invariant rest <= wallets.Keys
        invariant forall i :: 0 <= i < |ws| ==>
          ws[i].guildId == g && ws[i].Key() in wallets && wallets[ws[i].Key()] == ws[i] && ws[i].Key() !in rest
        invariant forall k :: k in wallets && k.guildId == g && k !in rest ==>
          exists w :: w in ws && w.Key() == k
        invariant forall i, j :: 0 <= i < j < |ws| ==> ws[i].Key() != ws[j].Key()
        decreases rest
      {
        var k :| k in rest;
        if k.guildId == g {
          ws := ws + [wallets[k]];
          assert ws[|ws| - 1].Key() == k;
        }
        rest := rest - {k};
      }
    }

    /** `getShopsByGuild`. */
    function ShopsOfGuild(g: string): (r: seq<Shop>)
      reads this`shops
      ensures forall s :: s in r <==> s in shops && s.guildId == g
    {
      Filter(shops, (s: Shop) => s.guildId == g)
    }

    /** `getShopsByUser`. */
    function ShopsOfUser(g: string, u: string): (r: seq<Shop>)
      reads this`shops
      ensures forall s :: s in r <==> s in shops && s.guildId == g && s.userId == u
    {
      Filter(shops, (s: Shop) => s.guildId == g && s.userId == u)
    }

    /** `createShop`: appends a shop with a fresh id, created and last paid now. */
    method CreateShop(g: string, u: string, name: string, kind: string, size: ShopSize, imageUrl: Option<string>, now: int)
      returns (s: Shop)
      requires Valid()
      modifies this`shops, this`nextId
      ensures Valid()
      ensures s == Shop(old(nextId), g, u, name, kind, size, imageUrl, now, now) && nextId == old(nextId) + 1
      ensures shops == old(shops) + [s]
    {
      s := Shop(nextId, g, u, name, kind, size, imageUrl, now, now);
      shops := shops + [s];
      nextId := nextId + 1;
    }

    /** `updateShopPayout`: sets `lastPayout` of the shop with that id. */
    method UpdateShopPayout(id: nat, now: int)
      requires Valid()
      modifies this`shops
      ensures Valid()
      ensures |shops| == |old(shops)|
      ensures forall i :: 0 <= i < |shops| ==>
        shops[i] == if old(shops)[i].id == id then old(shops)[i].(lastPayout := now) else old(shops)[i]
    {
      shops := seq(|shops|, i requires 0 <= i < |shops| reads this =>
        if shops[i].id == id then shops[i].(lastPayout := now) else shops[i]);
    }

    /** `getCharacters`: the guild's characters, in ascending key order. */
    function CharactersOf(g: string): (r: seq<Character>)
      reads this`characters
      ensures forall c :: c in r <==> c in characters && c.guildId == g
      ensures forall i :: 0 < i < |r| ==> LexLe(r[i - 1].characterId, r[i].characterId)
    {
      GuildCharacters(characters, g)
    }

    /** `createCharacter`: a fresh id, the key `userId_id`, the rank defaulting
        to "Rango E", no alignment and no languages. */
    method CreateCharacter(g: string, u: string, name: string, level: int, characterClass: string, race: string,
                           rank: string, imageUrl: Option<string>, n20Url: Option<string>, now: int)
      returns (c: Character)
      requires Valid()
      modifies this`characters, this`nextId
      ensures Valid()
      ensures c == Character(old(nextId), CharacterKey(u, old(nextId)), g, u, name, level, characterClass, race,
                             None, [], imageUrl, n20Url, if rank == [] then DefaultRank else rank, now)
      ensures nextId == old(nextId) + 1
      ensures characters == old(characters) + [c]
    {
      c := Character(nextId, CharacterKey(u, nextId), g, u, name, level, characterClass, race,
                     None, [], imageUrl, n20Url, if rank == [] then DefaultRank else rank, now);
      characters := characters + [c];
      nextId := nextId + 1;
    }

    /** `updateCharacter`: throws for an unknown id; otherwise patches that
        record and returns the user's first character in the guild, which need
        not be the one just edited. */
    method UpdateCharacter(id: nat, patch: CharacterPatch) returns (r: Result<Character, StoreError>)
      requires Valid()
      modifies this`characters
      ensures Valid()
      ensures r.Err? <==> forall i :: 0 <= i < |old(characters)| ==> old(characters)[i].id != id
      ensures r.Err? ==> r.error == CharacterNotFound(id) && characters == old(characters)
      ensures forall i :: 0 <= i < |old(characters)| && old(characters)[i].id == id ==>
        && characters == old(characters)[i := ApplyPatch(old(characters)[i], patch)]
        && Some(r.value) == GetCharacter(characters, old(characters)[i].guildId, old(characters)[i].userId, None)
    {
      if i :| 0 <= i < |characters| && characters[i].id == id {
        var existing := characters[i];
        PatchKeepsKeyed(characters, i, patch);
        characters := characters[i := ApplyPatch(existing, patch)];
        assert characters[i] in Filter(characters, (c: Character) => c.guildId == existing.guildId && c.userId == existing.userId);
        r := Ok(GetCharacter(characters, existing.guildId, existing.userId, None).value);
      } else {
        r := Err(CharacterNotFound(id));
      }
    }

    /** `deleteCharacter`: finds the record by id, rebuilds its key and deletes
        that key; false when the id is unknown or when the delete request
        throws (`fails`), which the method catches. */
    method DeleteCharacter(id: nat, fails: bool) returns (ok: bool)
      requires Valid()
      modifies this`characters
      ensures Valid()
      ensures ok <==> !fails && exists i :: 0 <= i < |old(characters)| && old(characters)[i].id == id
      ensures ok ==> forall c :: c in characters <==> c in old(characters) && c.id != id
      ensures !ok ==> characters == old(characters)
    {
      if i :| !fails && 0 <= i < |characters| && characters[i].id == id {
        var character := characters[i];
        var key := CharacterKey(character.userId, id);
        DeleteByKeyRemovesId(characters, i);
        FilterKeepsKeyed(characters, (x: Character) => !(x.guildId == character.guildId && x.characterId == key));
        characters := Filter(characters, (x: Character) => !(x.guildId == character.guildId && x.characterId == key));
        ok := true;
      } else {
        ok := false;
      }
    }
  }
}
