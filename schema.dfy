/** The records the bot stores, one datatype per table. Timestamps are
    milliseconds since the epoch; every `id` comes from the store's counter. */
module Schema {
  import opened Wrappers

  /** A guild's currency: a name and a display symbol. */
  datatype Currency = Currency(id: nat, guildId: string, name: string, symbol: string)

  /** The wallets table's key. */
  datatype WalletKey = WalletKey(guildId: string, userId: string)

  /** A user's wallet in one guild. `balances` is the `wallet` column:
      currency name to amount, an absent name meaning zero. */
  datatype Wallet = Wallet(
    id: nat,
    guildId: string,
    userId: string,
    balances: map<string, int>,
    lastWorked: Option<int>,
    lastStolen: Option<int>)
  {
    function Key(): WalletKey {
      WalletKey(guildId, userId)
    }
  }

  /** One completed transfer, as appended to the transactions table. */
  datatype Transaction = Transaction(
    id: nat,
    guildId: string,
    fromUserId: string,
    toUserId: string,
    currencyName: string,
    amount: int,
    timestamp: int)

  /** The three shop sizes the purchase command offers. */
  datatype ShopSize = Chico | Mediano | Grande

  datatype Shop = Shop(
    id: nat,
    guildId: string,
    userId: string,
    name: string,
    kind: string,
    size: ShopSize,
    imageUrl: Option<string>,
    lastPayout: int,
    createdAt: int)

  /** A character sheet. `characterId` is the characters table's sort key. */
  datatype Character = Character(
    id: nat,
    characterId: string,
    guildId: string,
    userId: string,
    name: string,
    level: int,
    characterClass: string,
    race: string,
    alignment: Option<string>,
    languages: seq<string>,
    imageUrl: Option<string>,
    n20Url: Option<string>,
    rank: string,
    createdAt: int)

  /** The fields the edit command may set; an absent field is left as it is. */
  datatype CharacterPatch = CharacterPatch(level: Option<int>, rank: Option<string>)
}
