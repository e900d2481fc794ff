# Guild economy and character registry of an RP Discord bot, in Dafny

This project models the core of a Discord bot that runs a role-play economy
per guild (Discord server), together with its character sheets and two small
utilities. It covers:

- **The ledger** (`Storage.Ledger`). This is the store behind every command:
  - the guild's currencies;
  - one wallet per guild member, with a balance map in which a missing key
    means 0, and the `lastWorked` and `lastStolen` timestamps;
  - the append-only transaction log;
  - the shops;
  - the character sheets.

  Each store operation is a method that rewrites exactly the table it names.
  `transferCurrency` checks funds first, then does two sequential wallet
  writes and appends one record.
- **The economy commands**:
  - `/monedas`, `/balance`, `/transferir`, `/trabajar` (`CurrencyCommands`);
  - the admin sweeps `/cobrar` and `/cobrar-comerciante` (`AdminCommands`);
  - buying a shop with `/crear-comercio` (`ShopCommands`);
  - the weekly shop payout, with its d20 multiplier bands, integer earnings,
    10% tax and the roll description of the payout log (`ShopPayout`).
- **The character commands** (`CharacterCommands`): create, view, delete and
  edit. A sheet is always looked up within the caller's own sheets in the
  guild, matching the name without regard to case.
- **`/me`** (`MeCommand`): its owner-scoped autocomplete, and the posting of
  an action as one of the caller's characters.
- **`/roll`** (`Dice`): the `NdX` notation parser and the roll-and-sum loop.

### What is proved

Across the economy:
- Money is conserved. The ghost `Balances.Supply` sums a currency over a
  guild's wallets, and each command states how it changes that sum.
- Balances stay non-negative (`Balances.Solvent`) under every command
  that writes a wallet: each such method ensures that a solvent table stays solvent.
- Every command states the whole record it writes for each wallet, shop
  or sheet it touches, and that no other record changes.

Commands that work in place are methods on the `Ledger` class, proved
against pure specification functions:
- `Balances.Transferred` for transfers;
- `AdminCommands.Debited` for the admin sweeps;
- `ShopPayout.PayShop` and `ShopPayout.PayAll` for the payout;
- `Storage.ApplyPatch` for the character edit.

Random draws (`Math.random()`) are parameters of type `Random.Draw`, a real
in [0, 1). Each use is modelled as `floor(u * n)`, as the handlers compute
it. Store failures that the handlers react to are also parameters:
- `fails` for a delete;
- `failing` for the wallets whose write throws during `/cobrar`;
- `failAt` for the payout run.

Five store functions are called by the handlers but are not defined in
`server/storage.ts`: `getAllWallets`, `getShopsByGuild`, `getShopsByUser`,
`createShop` and `updateShopPayout`. They are modelled as plain queries and
inserts on the in-memory tables. Their rows below cite the call sites.

A DynamoDB query returns a partition in ascending order of its range key.
So `getCurrencies` lists a guild's currencies by name, and `getCharacters`
lists its sheets by `characterId` (`Order.SortBy`). "The first currency"
of the shop purchase and the payout is therefore the one whose name sorts
first, not the one created first.

The work handler in `server/discord/commands/currency.ts` has no cooldown
and no tax, so the model has none either. Steal, loans and debt are
implemented by none of `server/storage.ts`, `server/index.ts` and the
command files `admin.ts`, `character.ts`, `currency.ts`, `dice.ts`,
`event.ts`, `me.ts`, `misc.ts`, `reputation.ts`, `shop.ts` and `weather.ts`
under `server/discord/commands/`, and are not modelled. The money commands are
registered from `server/discord/commands/money.ts`
(`server/discord/bot.ts:5`, `server/discord/commands/index.ts:3`);
`money.ts` is not part of this model.

## Model

| member | source | states |
|---|---|---|
| Text.Lower | server/storage.ts:334-336 | `toLowerCase` on ASCII: the same length, each 'A'-'Z' replaced by its lower-case letter, every other character kept, and no upper-case letter left |
| Text.LowerIdempotent | server/discord/commands/character.ts:204-206 | lower-casing twice is lower-casing once, so comparing lower-cased names is stable |
| Text.NatToString | server/discord/commands/dice.ts:56-59 | the decimal rendering of a number is all digits |
| Text.IntToString | server/discord/commands/currency.ts:73-76 | a non-empty text starting with '-' exactly when the number is negative; the rest is digits that `parseInt` reads back as the number's magnitude |
| Text.ParseNatToString | server/discord/commands/dice.ts:36-38 | `parseInt` reads back the decimal rendering of every natural number |
| Text.ParseNat | server/discord/commands/dice.ts:36-38 | `parseInt` of a digit run is 0 exactly when every digit is '0', and is below 10 to the power of the run's length (at most as many digits as the run) |
| Text.NatToStringInjective | server/discord/commands/dice.ts:56-59 | distinct numbers render as distinct texts |
| Text.ContainsEmpty | server/discord/commands/me.ts:35 | every text includes the empty text |
| Text.JoinContains | server/discord/commands/currency.ts:45 | each joined line occurs in the joined text |
| Text.JoinLineCount | server/discord/commands/currency.ts:45 | joining n break-free lines with "\n" gives exactly n-1 line breaks |
| Random.Pick | server/discord/commands/currency.ts:194-195 | `Math.floor(Math.random() * n)` lies in [0, n), and is 0 when n is 0 |
| Random.PickReaches | server/discord/commands/currency.ts:194-195 | every index in [0, n) is drawn by some random number |
| Seqs.Filter | server/discord/commands/character.ts:140 | `Array.filter`: no longer than its input, holding exactly the input's elements that pass the test |
| Seqs.FilterConcat | server/discord/commands/shop.ts:98 | filtering a concatenation is concatenating the filtered parts |
| Seqs.FilterFilter | server/discord/commands/me.ts:33-35 | two filters in a row are one filter with the conjunction of the tests |
| Seqs.FilterCongruent | server/discord/commands/character.ts:140 | two tests that agree on every element filter to the same list |
| Order.SortBy | server/storage.ts:9-20 | a query's items in ascending order of the range key: the same length and members as the partition, sorted |
| Order.FilterSorted | server/discord/commands/character.ts:136-140 | filtering a sorted result keeps it sorted |
| Seqs.Unique | server/discord/commands/admin.ts:285 | `[...new Set(xs)]` has no repeats and the same members as `xs` |
| Seqs.UniqueInOrder | server/discord/commands/admin.ts:285 | `[...new Set(xs)]` lists the members in the order of their first occurrence in `xs` |
| Seqs.UniqueRepeat | server/discord/commands/admin.ts:285 | adding a member that is already present does not change the deduplicated list |
| Balances.Credit | server/storage.ts:224-231 | the balance at `c` (0 when missing) plus delta written at `c`: that balance moves by delta; every other balance and entry is kept |
| Balances.EmptyWallet | server/storage.ts:77-94 | a new wallet has the owner's key, a 0 balance in every currency and no timestamps |
| Balances.SupplyRemove | server/storage.ts:224-231 | a guild's supply is one wallet's share plus the supply of the rest |
| Balances.SupplyUpdate | server/storage.ts:224-231 | rewriting one wallet changes the supply by the change in that wallet's share |
| Balances.SupplyUnchangedByBalance | server/storage.ts:77-94 | writing a wallet whose share is unchanged leaves the supply unchanged |
| Balances.Transferred | server/storage.ts:224-231 | the two wallet writes of a transfer keep the set of wallets |
| Balances.TransferMovesAmount | server/storage.ts:224-231 | between two distinct users, the sender loses and the receiver gains exactly the amount in that currency; every other balance and wallet is unchanged |
| Balances.TransferConserves | server/storage.ts:224-231 | between two distinct users, every guild's supply of every currency is unchanged |
| Balances.SelfTransferCredits | server/storage.ts:224-231 | to oneself, the second write wins: the balance and the supply both rise by the amount |
| Balances.TransferKeepsSolvent | server/storage.ts:218-231 | a transfer the balance check lets through keeps every balance non-negative |
| Storage.LastUnderscore | server/storage.ts:256 | in a key `userId_id`, the '_' before the id is the last '_', so the id can be read back from the key |
| Storage.CharacterKeyInjective | server/storage.ts:399 | the key rebuilt for deletion names only the user and id it was built from |
| Storage.FirstNamed | server/storage.ts:333-336 | the first sheet whose name matches ignoring case; nothing when none matches |
| Storage.GetCharacter | server/storage.ts:312-346 | nothing when the user has no sheet in the guild; otherwise the first matching name among them, or their first sheet when no name is given, it is empty or nothing matches |
| Storage.ApplyPatch | server/storage.ts:348-387 | the fields carried by the patch are replaced; every other field is kept |
| Storage.Updated | server/storage.ts:103-113 | the balance map is replaced wholesale; each timestamp is kept unless a new one is given |
| Storage.FilterKeepsKeyed | server/storage.ts:282-310 | a filtered sheet table keeps ids unique and keys matching |
| Storage.PatchKeepsKeyed | server/storage.ts:348-387 | a patched table keeps ids unique, and the patched id is at one place only |
| Storage.DeleteByKeyRemovesId | server/storage.ts:389-430 | deleting by `(guildId, userId_id)` removes exactly the sheets with that id |
| Storage.GuildCurrencies | server/storage.ts:9-20 | exactly the guild's currencies, in ascending order of name |
| Storage.FirstCurrencyLeast | server/discord/commands/shop.ts:124 | when a guild has a currency, its first currency has the name that sorts first |
| Storage.GuildCharacters | server/storage.ts:282-310 | exactly the guild's sheets, in ascending order of `characterId` |
| Storage.UserCharacters | server/discord/commands/character.ts:138-140 | exactly the user's sheets in the guild, in ascending order of `characterId` |
| Storage.Ledger.constructor | server/storage.ts:8 | an empty store |
| Storage.Ledger.CurrenciesOf | server/storage.ts:9-20 | exactly the guild's currencies, in ascending order of name |
| Storage.Ledger.CreateCurrency | server/storage.ts:22-36 | a fresh id; the record replaces any same-named currency in the guild |
| Storage.Ledger.DeleteCurrency | server/storage.ts:38-54 | true exactly when the store does not fail, and then only that guild's currency of that name is removed; the ledger stays valid |
| Storage.Ledger.WalletOf | server/storage.ts:56-75 | the wallet under `(guildId, userId)`, or nothing when there is none |
| Storage.Ledger.CreateUserWallet | server/storage.ts:77-94 | an empty wallet with a fresh id under the user's key; no other wallet changes |
| Storage.Ledger.UpdateUserWallet | server/storage.ts:96-132 | an unknown id is an error with no write; otherwise the wallet with that id gets the new balances and keeps the timestamps not supplied |
| Storage.Ledger.RewriteBalances | server/discord/commands/shop.ts:139-141 | one wallet's balance map is replaced; nothing else changes |
| Storage.Ledger.CreateTransaction | server/storage.ts:163-181 | appends exactly one record, with a fresh id and the given fields |
| Storage.Ledger.TransferCurrency | server/storage.ts:200-241 | a missing source or destination wallet is an error; a balance (missing = 0) below the amount is "insufficient funds"; no error writes anything; success writes `Transferred` and appends one record with the same guild, parties, currency and amount |
| Storage.Ledger.AllWallets | server/discord/commands/admin.ts:208 | every wallet of the guild, exactly once, as stored |
| Storage.Ledger.ShopsOfGuild | server/discord/commands/admin.ts:284 | exactly the guild's shops |
| Storage.Ledger.ShopsOfUser | server/discord/commands/shop.ts:98 | exactly the user's shops in the guild |
| Storage.Ledger.CreateShop | server/discord/commands/shop.ts:158-165 | appends exactly one shop, with a fresh id, both timestamps set to now and the given fields |
| Storage.Ledger.UpdateShopPayout | server/index.ts:100 | only the shop with that id gets `lastPayout := now` |
| Storage.Ledger.CharactersOf | server/storage.ts:282-310 | exactly the guild's sheets, in ascending order of `characterId` |
| Storage.Ledger.CreateCharacter | server/storage.ts:243-280 | appends one sheet with key `userId_id`, no deletion, rank "Rango E" when none is given, and the given fields |
| Storage.Ledger.UpdateCharacter | server/storage.ts:348-387 | an unknown id is an error with no write; otherwise only the sheet with that id is patched |
| Storage.Ledger.DeleteCharacter | server/storage.ts:389-430 | true exactly when the sheet exists and the delete does not throw; then exactly the sheets with that id are gone; a false reply writes nothing |
| CurrencyCommands.CurrencyEntry | server/discord/commands/currency.ts:45 | an entry starts with the currency's name and shows its symbol in parentheses |
| CurrencyCommands.ListCurrencies | server/discord/commands/currency.ts:37-53 | a public reply that is the "no currencies" text exactly when the guild has none |
| CurrencyCommands.ListingNamesEvery | server/discord/commands/currency.ts:45-50 | every currency's entry occurs in the listing |
| CurrencyCommands.ListingLines | server/discord/commands/currency.ts:45-50 | the listing has exactly one line per currency below its title |
| CurrencyCommands.BalanceLine | server/discord/commands/currency.ts:73-76 | a line starts with the currency's name and shows the balance (missing = 0) followed by the symbol |
| CurrencyCommands.BalanceHeading | server/discord/commands/currency.ts:79 | the heading mentions the user it is for |
| CurrencyCommands.BalanceText | server/discord/commands/currency.ts:73-79 | the report mentions the user; it is the heading followed by the guild's currencies in order, the i-th line being currency i's `BalanceLine`, joined by line breaks |
| CurrencyCommands.BalanceTextLines | server/discord/commands/currency.ts:73-79 | with no line break in the user id, names or symbols, the report has exactly one line per currency below its heading |
| CurrencyCommands.BalanceShowsEvery | server/discord/commands/currency.ts:73-76 | every currency's line, with the balance (missing = 0), occurs in the report |
| CurrencyCommands.UnheldShowsZero | server/discord/commands/currency.ts:74 | a currency the wallet never held is shown as 0 |
| CurrencyCommands.CreditKeepsSolvent | server/discord/commands/currency.ts:198-200 | crediting a non-negative amount keeps every balance non-negative |
| CurrencyCommands.NewWalletAddsNothing | server/discord/commands/currency.ts:60-65 | creating an empty wallet changes no supply and keeps balances non-negative |
| CurrencyCommands.EnsureWallet | server/discord/commands/currency.ts:60-65 | an existing wallet is returned unchanged; a missing one is created empty; no other wallet or supply changes; solvency is kept |
| CurrencyCommands.ShowBalance | server/discord/commands/currency.ts:55-88 | the caller's wallet exists afterwards; the reply is the "no currencies" text when the guild has none, and otherwise the per-currency report of the wallet; solvency is kept |
| CurrencyCommands.FindCurrency | server/discord/commands/currency.ts:115-117 | the first currency of that name, or nothing exactly when none has it |
| CurrencyCommands.WithWallets | server/discord/commands/currency.ts:97-112 | sender and receiver wallets exist afterwards; existing wallets are kept; added ones are empty |
| CurrencyCommands.WithWalletsAddsNothing | server/discord/commands/currency.ts:97-112 | creating the missing wallets changes no supply and keeps balances non-negative |
| CurrencyCommands.PrepareWallets | server/discord/commands/currency.ts:97-112 | the wallet table becomes `WithWallets` of the old one, before any other check |
| CurrencyCommands.Transfer | server/discord/commands/currency.ts:90-174 | wallets are created first; an unknown currency or a short balance is refused with no balance change; otherwise the store transfer runs; supply is conserved between distinct users, and a self-transfer mints the amount; balances stay non-negative |
| CurrencyCommands.Settle | server/discord/commands/currency.ts:115-145 | the two guards and the transfer, once both wallets exist |
| CurrencyCommands.Pay | server/discord/commands/currency.ts:133-141 | the store transfer once the checks pass: exactly `Transferred`, one appended record, supply conserved between distinct users and raised by the amount for a self-transfer, balances kept non-negative |
| CurrencyCommands.TransferSupply | server/storage.ts:224-231 | the supply effect of a store transfer, for distinct and for equal parties |
| CurrencyCommands.WorkReward | server/discord/commands/currency.ts:195 | the work amount is between 10 and 50 |
| CurrencyCommands.WorkRewardReaches | server/discord/commands/currency.ts:195 | every amount from 10 to 50 can be drawn |
| CurrencyCommands.Earn | server/discord/commands/currency.ts:198-200 | the wallet record becomes the old one with only the chosen currency raised by the amount earned, so its id and both timestamps are kept; no other wallet changes; the supply rises by the same amount; a solvent table stays solvent |
| CurrencyCommands.Work | server/discord/commands/currency.ts:176-226 | refused with no write when the guild has no currency; otherwise the caller's record is its old one (or a new empty one) with only the drawn currency raised by an amount in [10, 50]; no other wallet changes; a solvent table stays solvent |
| CurrencyCommands.Reward | server/discord/commands/currency.ts:185-200 | the caller's wallet is created empty with the next id when missing; its whole record is then that wallet credited, with id and timestamps kept; a solvent table stays solvent |
| AdminCommands.Debited | server/discord/commands/admin.ts:219-223 | the wallet loses exactly the amount in that currency; every other balance, the id and the timestamps are kept |
| AdminCommands.DebitKeepsSolvent | server/discord/commands/admin.ts:219-223 | a charge the balance covered keeps that wallet non-negative |
| AdminCommands.TimesIsProduct | server/discord/commands/admin.ts:232-237 | adding the amount once per charged user totals `cobrados * cantidad` |
| AdminCommands.ChargeOne | server/discord/commands/admin.ts:219-228 | charged exactly when the balance covers the amount and the write does not throw; then only that wallet is debited |
| AdminCommands.Sweep | server/discord/commands/admin.ts:208-229 | exactly the guild's non-bot wallets covering the amount whose write does not fail are debited, once each; nothing else changes; the supply falls by `cobrados * cantidad` |
| AdminCommands.ChargedAmongIff | server/discord/commands/admin.ts:214-229 | a wallet is charged by the loop exactly when it is chargeable |
| AdminCommands.ChargedStep | server/discord/commands/admin.ts:214-229 | one step of the loop extends the set charged by that wallet exactly when it is chargeable |
| AdminCommands.ChargeEach | server/discord/commands/admin.ts:214-229 | the loop over the wallets, against its specification |
| AdminCommands.Visit | server/discord/commands/admin.ts:216-228 | one iteration of the loop, against its specification |
| AdminCommands.DebitsKeepSolvent | server/discord/commands/admin.ts:219-223 | debiting wallets that covered the amount keeps every balance non-negative |
| AdminCommands.SupplyAfterDebits | server/discord/commands/admin.ts:219-223 | debiting a set of the guild's wallets lowers the supply by the amount times their number |
| AdminCommands.CreditBot | server/discord/commands/admin.ts:232-237 | when the bot's wallet exists and the write does not throw, its whole record gains the amount in that currency and nothing else; otherwise no wallet changes |
| AdminCommands.CobrarReport | server/discord/commands/admin.ts:240-242 | the report shows the number of users charged and the number of errors |
| AdminCommands.Cobrar | server/discord/commands/admin.ts:202-264 | the bot's own wallet is never charged; each chargeable wallet whose write does not throw loses exactly the amount and keeps the rest of its record; the bot's record gains `cobrados * cantidad` when it has a wallet and that write does not throw; with no bot wallet the credit is skipped, the supply falls by `cobrados * cantidad` and the reply is still the report; when the bot's write throws the debits stay, the supply falls the same way and the reply is the failure text; the report counts the charged wallets and always shows 0 errors, since `errorCount` is never raised |
| AdminCommands.Owners | server/discord/commands/admin.ts:284-285 | the distinct owners of the guild's shops |
| AdminCommands.CobrarComerciante | server/discord/commands/admin.ts:265-334 | non-admins are refused with no write; otherwise the distinct owners are visited in order until a write throws; each owner visited with a wallet covering the amount pays it once; a throw keeps the debits made before it and gives the failure reply; `totalCobrado = monto * usuariosCobrados`; nobody is credited, so the supply falls by `monto` per owner charged |
| AdminCommands.LevyOwners | server/discord/commands/admin.ts:284-302 | the levy on the distinct owners, against its specification |
| AdminCommands.LevyAmongIff | server/discord/commands/admin.ts:290-302 | an owner's wallet is charged by the loop exactly when it owes the levy |
| AdminCommands.LevyStep | server/discord/commands/admin.ts:290-302 | one step of the loop adds that owner's wallet exactly when it owes the levy |
| AdminCommands.LevyEach | server/discord/commands/admin.ts:290-302 | the loop over the owners, with its counters, against its specification |
| AdminCommands.LevyNext | server/discord/commands/admin.ts:291-301 | one iteration of the loop: owners without a wallet, or without funds, are skipped |
| AdminCommands.LevyOne | server/discord/commands/admin.ts:293-300 | one owner's charge and the counters' update |
| AdminCommands.Completed | server/discord/commands/admin.ts:290-326 | the number of owners visited before the throw: the throwing index when it lies within the owners, otherwise all of them |
| AdminCommands.LevyReply | server/discord/commands/admin.ts:306-330 | a completed levy's reply shows `totalCobrado` with the currency and `usuariosCobrados` |
| ShopCommands.InitialEarnings | server/discord/commands/shop.ts:168-177 | the initial payment is 250, 500 or 750, positive and below the price |
| ShopCommands.Cost | server/discord/commands/shop.ts:107-111 | the price is 2000, 4000 or 6000 |
| ShopCommands.RefusalText | server/discord/commands/shop.ts:126-130 | refusing a purchase the buyer cannot afford names the price and the currency |
| ShopCommands.AfterPurchase | server/discord/commands/shop.ts:139-177 | the first currency ends at balance - price + payment, positive when the balance covered the price; other balances are kept |
| ShopCommands.CreateShopCommand | server/discord/commands/shop.ts:85-177 | refusals in order, with no write: no wallet, 3 shops already, no currency, a balance in the first currency by name below the 2000/4000/6000 price; when all four checks pass the shop is opened: the price is deducted, then exactly one shop is created, then the payment is added; a solvent table stays solvent |
| ShopCommands.Open | server/discord/commands/shop.ts:136-177 | the deduction, the shop insert and the payment, in that order |
| ShopCommands.PurchaseKeepsLimit | server/discord/commands/shop.ts:98-105 | a purchase leaves the buyer with at most 3 shops in the guild |
| ShopCommands.PurchaseKeepsSolvent | server/discord/commands/shop.ts:126-141 | thanks to the balance check, a purchase keeps every balance non-negative |
| ShopCommands.PurchaseSupply | server/discord/commands/shop.ts:139-177 | the guild's supply changes by the payment minus the price |
| ShopPayout.D20 | server/index.ts:54 | the roll is between 1 and 20 |
| ShopPayout.D20Reaches | server/index.ts:54 | every face from 1 to 20 can be rolled |
| ShopPayout.BandsPartition | server/index.ts:65-70 | the bands 1-5, 6-10, 11-15, 16-19 and 20 partition 1..20 |
| ShopPayout.BandOf | server/index.ts:65-70 | the band the if-chain picks holds the roll (below 1 goes to 1-5, above 20 to 20) |
| ShopPayout.Multiplier | server/index.ts:57-63 | each multiplier lies in [0.5, 2], and is 1 exactly for the band holding 10 |
| ShopPayout.BaseEarnings | server/index.ts:48-55 | the base earnings are 250, 500 or 750 |
| ShopPayout.Quarters | server/index.ts:57-70 | each multiplier is an exact number of quarters: 0.5, 1, 1.25, 1.5, 2 |
| ShopPayout.FloorDiv | server/index.ts:72-73 | integer division is the floor of the real quotient |
| ShopPayout.Earnings | server/index.ts:48-72 | `Math.floor(base * multiplier)`, between half and twice the base |
| ShopPayout.Tax | server/index.ts:73 | `Math.floor(earnings * 0.1)` |
| ShopPayout.Net | server/index.ts:73-74 | tax + net = earnings and 0 <= tax <= net |
| ShopPayout.WithPayout | server/index.ts:100 | the same shops in the same order, each identical to the old one except `lastPayout`, which is now for the paid id and unchanged elsewhere |
| ShopPayout.PayShop | server/index.ts:76-100 | a payout keeps the set of wallets |
| ShopPayout.PayShopSkips | server/index.ts:76-80 | no owner wallet or no guild currency: nothing is written |
| ShopPayout.PayShopPays | server/index.ts:82-100 | in the guild's first currency by name, the owner's whole record gains the net and, only when it has a separate wallet, the bot's whole record gains the tax; ids, `lastWorked` and `lastStolen` are kept; `lastPayout` becomes now; no other wallet or currency changes (a bot-owned shop keeps only the net) |
| ShopPayout.PayShopSupply | server/index.ts:82-100 | a payout mints the net, plus the tax when the bot has a separate wallet |
| ShopPayout.PayShopKeepsSolvent | server/index.ts:82-100 | a payout keeps every balance non-negative |
| ShopPayout.PayAllKeeps | server/index.ts:47-103 | a run of payouts keeps the set of wallets and non-negative balances |
| ShopPayout.PayAll | server/index.ts:47-103 | a run of payouts keeps every shop except its `lastPayout`, which is either kept or now |
| ShopPayout.ProcessShops | server/index.ts:39-107 | the shops are paid in the order of the shop table (creation order; see Left out), one draw each; a failure stops the run there (one try/catch around the loop), leaving the earlier shops paid and the rest untouched; a solvent table stays solvent |
| ShopPayout.PayOne | server/index.ts:48-102 | one iteration of the loop, against `PayShop` |
| ShopPayout.PayNext | server/index.ts:47-103 | one iteration of the loop extends the run by the next shop |
| ShopPayout.PayWrites | server/index.ts:82-100 | the bot's tax write, the owner's net write and the payout stamp, in source order |
| ShopPayout.PayShopWrites | server/index.ts:82-100 | a payout is exactly the bot's tax write, then the owner's net write, then the payout stamp |
| ShopPayout.DescriptionAsWrittenMislabels | server/index.ts:126-130 | as written, rolls 6 to 10 get the 11-15 text, and the 6-10 text is never chosen |
| ShopPayout.DescriptionKeyAsWritten | server/index.ts:126-130 | as written, the chosen text is never the 6-10 one, and belongs to a band no lower than the roll |
| ShopPayout.DescriptionKeyMatches | server/index.ts:118-130 | the corrected choice gives every roll the text of its own band, and agrees with the code outside 6 to 10 |
| ShopPayout.DescriptionKey | server/index.ts:118-130 | the corrected choice picks the band holding the roll |
| ShopPayout.DescriptionsDistinct | server/index.ts:118-124 | the five roll descriptions are pairwise different |
| ShopPayout.Description | server/index.ts:118-124 | the `rollDescriptions` table: one text of at least two characters per band; `DescriptionsDistinct` shows the texts differ |
| CharacterCommands.FindOwned | server/discord/commands/character.ts:257-268 | the first sheet the caller owns whose name matches ignoring case; nothing exactly when there is none |
| CharacterCommands.FindOwnedAgreesWithGetCharacter | server/storage.ts:312-346 | for a non-empty name, the commands' lookup finds a sheet exactly when `getCharacter` finds a named match, and then finds the same sheet |
| CharacterCommands.FindOwnedFirstNamed | server/discord/commands/character.ts:257-268 | searching all sheets for the caller's named one is searching the caller's own sheets for the name |
| CharacterCommands.CreateCharacterCommand | server/discord/commands/character.ts:192-250 | refused with no write exactly when the caller already has a sheet of that name in the guild, ignoring case (other users' sheets do not block it); otherwise one sheet with level 1-20, key `userId_id` and rank defaulting to "Rango E" is appended |
| CharacterCommands.CreateKeepsNamesDistinct | server/discord/commands/character.ts:203-226 | a creation the check admits keeps the caller's names distinct ignoring case |
| CharacterCommands.CreatedBlocksRepeat | server/discord/commands/character.ts:203-214 | once created, a second sheet of the same name for that user is refused |
| CharacterCommands.ViewCharacters | server/discord/commands/character.ts:131-190 | exactly the caller's sheets in the guild, in ascending order of `characterId`; "no sheets" exactly when there are none |
| CharacterCommands.ViewText | server/discord/commands/character.ts:176-180 | the listing's heading shows the number of sheets |
| CharacterCommands.DeleteCharacterCommand | server/discord/commands/character.ts:252-301 | "not found" with no write when the caller has no sheet of that name; the failure reply exactly when the store answers false; otherwise exactly that sheet is removed |
| CharacterCommands.DeleteText | server/discord/commands/character.ts:262-291 | a deletion names the deleted sheet in bold; the not-found reply quotes the name asked for |
| CharacterCommands.EditPatch | server/discord/commands/character.ts:322-325 | the patch carries the level only when it is truthy, and the rank only when it is truthy |
| CharacterCommands.EditedSheet | server/discord/commands/character.ts:322-325 | the edited sheet takes each truthy option and keeps every other field, its name included |
| CharacterCommands.EmptyEditKeepsSheet | server/discord/commands/character.ts:322-325 | with no truthy option, the sheet is written back unchanged |
| CharacterCommands.EditKeepsNamesDistinct | server/discord/commands/character.ts:322-325 | editing keeps the caller's names distinct |
| CharacterCommands.EditCharacterCommand | server/discord/commands/character.ts:303-355 | "not found" with no write when the caller has no sheet of that name; otherwise only that sheet is patched, with level 1-20 |
| MeCommand.Suggestions | server/discord/commands/me.ts:32-41 | at most 25 choices, each with its label equal to its value; `SuggestionsArePrefix`, `SuggestionsSound`, `SuggestionsComplete` and `EmptyTextSuggestsAll` state which characters they are |
| MeCommand.Candidates | server/discord/commands/me.ts:33-35 | exactly the caller's characters whose name contains the typed text ignoring case |
| MeCommand.SuggestionsArePrefix | server/discord/commands/me.ts:32-41 | the suggestions are the first 25 candidates (all when fewer), in the order of the guild's sheets, labelled and valued by name |
| MeCommand.SuggestionsSound | server/discord/commands/me.ts:32-41 | at most 25 suggestions, each naming a character the caller owns that contains the typed text, with label equal to value |
| MeCommand.SuggestionsComplete | server/discord/commands/me.ts:32-41 | with at most 25 candidates, every one is suggested |
| MeCommand.EmptyTextSuggestsAll | server/discord/commands/me.ts:35 | empty text suggests the caller's first 25 characters |
| MeCommand.FilterAll | server/discord/commands/me.ts:35 | a test every character passes filters nothing out |
| MeCommand.MeAction | server/discord/commands/me.ts:54-81 | posted exactly when the caller owns a character of that name ignoring case, and then as the first such character, titled with its name, with the action in italics and its non-empty image as thumbnail; otherwise the not-found reply, quoting the name |
| Dice.DigitRun | server/discord/commands/dice.ts:26 | the length of the leading run of digits |
| Dice.SplitIsDigitRun | server/discord/commands/dice.ts:26 | the 'd' of a match sits where the leading digits end, so a match is unique |
| Dice.ParseDice | server/discord/commands/dice.ts:25-38 | accepted exactly when the lower-cased text is digits, 'd', digits; the two numbers are `parseInt` of the two runs |
| Dice.ParseDiceRoundTrip | server/discord/commands/dice.ts:25-38 | `N`, a 'd' or 'D', and `X` in decimal read back as N dice of X faces; "0dX" is accepted |
| Dice.UpperCaseAccepted | server/discord/commands/dice.ts:26 | "2D20" reads as two twenty-sided dice |
| Dice.LowerNotation | server/discord/commands/dice.ts:26 | lower-casing digits around 'D' gives digits around 'd' |
| Dice.MissingCountRejected | server/discord/commands/dice.ts:26-34 | text starting with 'd' is rejected: the count is mandatory |
| Dice.Face | server/discord/commands/dice.ts:51 | each die shows 1 to `sides`, and 1 when there are no sides |
| Dice.Sum | server/discord/commands/dice.ts:49-53 | the total of the rolls, never negative when no roll is; `SumAppend` and `SumBounds` relate it to the loop and to the face bounds |
| Dice.SumAppend | server/discord/commands/dice.ts:49-53 | one more roll at the end adds it to the total |
| Dice.SumBounds | server/discord/commands/dice.ts:49-53 | rolls between lo and hi total between n*lo and n*hi |
| Dice.Roll | server/discord/commands/dice.ts:48-54 | exactly n results, die i from draw i, and the total is their sum |
| Dice.RollCommand | server/discord/commands/dice.ts:22-61 | an unreadable notation is refused; more than 100 dice are refused and exactly 100 are allowed; otherwise the rolls, with each face in [1, sides] when sides >= 1 and the total their sum (0 dice give no results and total 0) |
| Dice.RollText | server/discord/commands/dice.ts:56-59 | a roll's reply shows the notation `NdX` and the total in bold |
| Dice.RollTextListsEvery | server/discord/commands/dice.ts:56-59 | a roll's reply shows every die's result |

## Left out

- Discord I/O: slash-command builders, replies, deferred replies, embeds and their colours, and the transaction-log channel. Replies are modelled as their text or as an outcome datatype.
- Guild settings (`getGuildSettings`, `setTransactionLogChannel`) and the `canal-registro` command: configuration and channel plumbing only.
- `crear-moneda` and `eliminar-moneda`: their replies are not modelled. Only the store operations `CreateCurrency` and `DeleteCurrency` are.
- `ver-comercios`: a listing of `getShopsByUser` as an embed; display only.
- Concurrency: the `Promise.all` of the payout, and the unlocked read-modify-write between concurrent commands. Steps run sequentially in source order. For the payout this is the bot's tax write, then the owner's write, then the payout stamp.
- Floating point:
  - Multipliers are exact quarters.
  - Tax is the floor of earnings / 10, which agrees with `Math.floor(earnings * 0.1)` on the earnings the payout can produce.
  - `Math.random()` becomes a `Draw` parameter in [0, 1).
- `parseInt` on digit runs longer than JavaScript numbers represent exactly: the model reads unbounded naturals.
- Order.SortBy: states the length, the members and the order of the result, which fix it when the keys are distinct, as range keys are. It does not state a permutation (multiset) equality when keys repeat.
- `toLowerCase` beyond ASCII: `Text.Lower` only folds 'A'-'Z'.
- DynamoDB specifics: Command objects, key schemas, the update-expression building of `updateCharacter`, and `Date.now()` ids. Ids come from a `nextId` counter and never collide.
- Storage.Ledger.UpdateCharacter: modelled as the intended partial update of the sheet with that id. As written, `updateCharacter` first looks the sheet up with `getCharacterById`. That queries an `IdIndex` that `server/setup-dynamodb.ts:111-141` never creates on the characters table, and the query error is caught into `undefined` (`server/storage.ts:449-474`). So every edit throws "not found" and `/editar-personaje` ends in its error reply. The update key `{guildId, userId}` (`server/storage.ts:370-373`) does not match the table key `(guildId, characterId)` either. The model captures neither defect.
- Storage.Ledger.DeleteCharacter: modelled as the intended deletion by id. As written, the same `getCharacterById` lookup answers `undefined`, so `deleteCharacter` returns false and `/eliminar-personaje` always gives its failure reply. The model does not capture this.
- Storage.GetCharacter: `UserIndex` has no range key (`server/setup-dynamodb.ts:122-127`), so DynamoDB promises no order for a user's sheets. The function takes the user's sheets in whatever order the index returns them. `CharacterCommands.FindOwnedAgreesWithGetCharacter` assumes the order of `getCharacters`.
- Storage.Ledger.AllWallets: the order `getAllWallets` returns is unknown. The method promises every wallet of the guild once in some order, and the sweep's results do not depend on it.
- ShopPayout.ProcessShops: `processShops` loops over a DynamoDB Scan of the shops table (`server/index.ts:41-47`), and a Scan promises no order. The model pays the shops in the order of its shop table, which is creation order, so its statement that a failure leaves the most recently created shops unpaid is a property of the model, not of the source.
- AdminCommands.Owners: `getShopsByGuild` is not part of this model, and its order is unknown. The model lists the guild's shops in creation order, so the order in which `/cobrar-comerciante` visits owners, and which owners a throw leaves uncharged, follow that order rather than the store's.
- ShopPayout.ProcessShops: a store failure is modelled only at the start of one shop's iteration (`failAt`). A failure between that shop's wallet writes is not modelled.
- AdminCommands.Cobrar: a failing write is modelled as a whole wallet whose update throws (`failing`). A write that lands and then throws is not modelled.
- The catch-all error replies are modelled for `/cobrar` (`CobrarFailed`) and `/cobrar-comerciante` (`LevyFailed`), together with the writes made before the throw. Elsewhere the catch-all reply ("Hubo un error ...") is not modelled. In `/transferir`, `/trabajar` and `/crear-comercio` the model's failure points are the checks, and a store throw between their writes is not modelled.
- AdminCommands.Cobrar: the log-channel send after `editReply` (`server/discord/commands/admin.ts:246-256`) could throw and replace the report with the failure text. The model leaves out the log channel, so this replacement is not modelled.
- Reputation, weather, events and the other utility commands: thin wrappers or random flavour text, outside the economy and the registry.
- Steal, loans, debt, work cooldowns and a work tax: none of `server/storage.ts`, `server/index.ts` and the command files `admin.ts`, `character.ts`, `currency.ts`, `dice.ts`, `event.ts`, `me.ts`, `misc.ts`, `reputation.ts`, `shop.ts`, `weather.ts` implements them. The money commands of `server/discord/commands/money.ts` (imported at `server/discord/bot.ts:5` and `server/discord/commands/index.ts:3`) are not part of this model.

## Findings

| source | as written | input that shows it | evidently intended | confidence | as-written member | corrected member |
|---|---|---|---|---|---|---|
| server/index.ts:126-130 | the payout log's roll description is chosen `<= 5`, then `<= 15`, so rolls 6 to 10 get the "+25%" text of the 11-15 band and the "ganancias base" text is never used | a roll of 7, which pays a multiplier of 1 but is described as "¡Buen día! +25% de ganancias" | each roll is described by its own band, the same bands that choose the multiplier at lines 66-70 | high (by reading the code; not executed) | ShopPayout.DescriptionAsWrittenMislabels | ShopPayout.DescriptionKeyMatches |
