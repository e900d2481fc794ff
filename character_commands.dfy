/** The character-sheet commands: `/crear-personaje`, `/ver-personajes`,
    `/eliminar-personaje` and `/editar-personaje`. Each reads the guild's
    characters and looks the caller's sheet up by name, ignoring case. */
module CharacterCommands {
  import opened Wrappers
  import opened Schema
  import opened Text
  import opened Seqs
  import opened Storage
  import opened Order

  /** The lookup every command uses: the character belongs to `u` and its name
      equals `name` once both are lower-cased. */
  predicate Owns(c: Character, u: string, name: string) {
    c.userId == u && Lower(c.name) == Lower(name)
  }

  /** `characters.find(c => c.userId === u && c.name.toLowerCase() ===
      name.toLowerCase())`, as the index of the match: the first of `u`'s
      characters with that name, or nothing when `u` has none. */
  function FindOwned(cs: seq<Character>, u: string, name: string): (r: Option<nat>)
    ensures r.Some? ==> r.value < |cs| && Owns(cs[r.value], u, name)
    ensures r.Some? ==> forall j :: 0 <= j < r.value ==> !Owns(cs[j], u, name)
    ensures r.None? <==> forall j :: 0 <= j < |cs| ==> !Owns(cs[j], u, name)
    decreases |cs|
  {
    if cs == [] then None
    else if Owns(cs[0], u, name) then Some(0)
    else match FindOwned(cs[1..], u, name)
      case None => None
      case Some(i) => Some(i + 1)
  }

  /** Where the user index returns a user's sheets in the order
      `getCharacters` does, the commands' lookup among the guild's sheets picks
      the same sheet as `storage.getCharacter` given the same non-empty name,
      and finds nothing exactly when `getCharacter` falls back to the user's
      first sheet or has none to return. */
  lemma FindOwnedAgreesWithGetCharacter(cs: seq<Character>, g: string, u: string, name: string)
    requires name != []
    ensures var all := GuildCharacters(cs, g);
      var f := FindOwned(all, u, name);
      var mine := Filter(all, (c: Character) => c.guildId == g && c.userId == u);
      && (f.Some? <==> FirstNamed(mine, name).Some?)
      && (f.Some? ==> GetCharacter(all, g, u, Some(name)) == Some(all[f.value]))
  {
    var all := GuildCharacters(cs, g);
    FilterCongruent(all, (c: Character) => c.guildId == g && c.userId == u, (c: Character) => c.userId == u);
    FindOwnedFirstNamed(all, u, name);
  }

  /** Searching all characters for `u`'s named one is searching `u`'s own
      characters, in table order, for the name. */
  lemma {:induction false} FindOwnedFirstNamed(s: seq<Character>, u: string, name: string)
    ensures var f := FindOwned(s, u, name);
      var mine := Filter(s, (c: Character) => c.userId == u);
      var n := FirstNamed(mine, name);
      && (f.Some? <==> n.Some?)
      && (f.Some? ==> s[f.value] == mine[n.value])
    decreases |s|
  {
    if s != [] {
      var p := (c: Character) => c.userId == u;
      var rest := Filter(s[1..], p);
      FindOwnedFirstNamed(s[1..], u, name);
      if p(s[0]) {
        var mine := [s[0]] + rest;
        assert Filter(s, p) == mine;
        assert mine[1..] == rest;
        if !Owns(s[0], u, name) {
          assert FirstNamed(mine, name) == match FirstNamed(rest, name)
            case None => None
            case Some(i) => Some(i + 1);
        }
      } else {
        assert Filter(s, p) == rest;
        assert !Owns(s[0], u, name);
      }
    }
  }

  /** Within each guild, no user has two characters whose names differ only in
      case. The create command's duplicate check keeps this. */
  ghost predicate OwnNamesDistinct(cs: seq<Character>) {
    forall i, j :: 0 <= i < j < |cs| && cs[i].guildId == cs[j].guildId && cs[i].userId == cs[j].userId ==>
      Lower(cs[i].name) != Lower(cs[j].name)
  }

  /** What `/crear-personaje` ends in. */
  datatype CreateOutcome = AlreadyExists | Created(character: Character)

  /** `/crear-personaje` for user `u` in guild `g`: refused exactly when `u`
      already has a character of that name in the guild, ignoring case
      (another user's character of that name does not block it); otherwise the
      sheet is stored with the given fields. The level option only admits 1 to
      20 and every option is required, so both URLs are present. */
  method CreateCharacterCommand(ledger: Ledger, g: string, u: string, name: string, level: int,
                                characterClass: string, race: string, rank: string, imageUrl: string,
                                n20Url: string, now: int)
    returns (outcome: CreateOutcome)
    requires ledger.Valid()
    requires 1 <= level <= 20
    modifies ledger`characters, ledger`nextId
    ensures ledger.Valid()
    ensures outcome.AlreadyExists? <==>
      exists c :: c in old(ledger.characters) && c.guildId == g && Owns(c, u, name)
    ensures outcome.AlreadyExists? ==>
      ledger.characters == old(ledger.characters) && ledger.nextId == old(ledger.nextId)
    ensures outcome.Created? ==>
      && outcome.character == Character(old(ledger.nextId), CharacterKey(u, old(ledger.nextId)), g, u, name,
                                        level, characterClass, race, None, [], Some(imageUrl), Some(n20Url),
                                        if rank == [] then DefaultRank else rank, now)
      && 1 <= outcome.character.level <= 20
      && ledger.characters == old(ledger.characters) + [outcome.character]
      && ledger.nextId == old(ledger.nextId) + 1
  {
    var existing := ledger.CharactersOf(g);
    var found := FindOwned(existing, u, name);
    if found.Some? {
      assert existing[found.value] in existing;
      return AlreadyExists;
    }
    var c := ledger.CreateCharacter(g, u, name, level, characterClass, race, rank, Some(imageUrl), Some(n20Url), now);
    outcome := Created(c);
    forall x | x in old(ledger.characters) && x.guildId == g
      ensures !Owns(x, u, name)
    {
      var j :| 0 <= j < |existing| && existing[j] == x;
    }
  }

  /** A successful creation keeps names distinct: the check passed, so the new
      sheet's name differs, ignoring case, from every sheet `u` already has in
      the guild. */
  lemma CreateKeepsNamesDistinct(cs: seq<Character>, c: Character)
    requires OwnNamesDistinct(cs)
    requires FindOwned(Filter(cs, (x: Character) => x.guildId == c.guildId), c.userId, c.name).None?
    ensures OwnNamesDistinct(cs + [c])
  {
    var all := Filter(cs, (x: Character) => x.guildId == c.guildId);
    var s := cs + [c];
    forall i, j | 0 <= i < j < |s| && s[i].guildId == s[j].guildId && s[i].userId == s[j].userId
      ensures Lower(s[i].name) != Lower(s[j].name)
    {
      if j == |cs| {
        assert s[i] == cs[i] && s[j] == c;
        assert cs[i] in all;
        var k :| 0 <= k < |all| && all[k] == cs[i];
        assert !Owns(all[k], c.userId, c.name);
      } else {
        assert s[i] == cs[i] && s[j] == cs[j];
      }
    }
  }

  /** Once a sheet is stored, creating another one with the same name in any
      case is refused. */
  lemma CreatedBlocksRepeat(cs: seq<Character>, c: Character, name: string)
    requires Lower(name) == Lower(c.name)
    ensures FindOwned(cs + [c], c.userId, name).Some?
  {
    assert Owns((cs + [c])[|cs|], c.userId, name);
  }

  /** The reply of `/ver-personajes`. */
  datatype ViewReply = NoCharacters | Listing(characters: seq<Character>)

  /** `/ver-personajes`: the caller's characters among the guild's, in the
      order `getCharacters` returns them, or the "none yet" reply when there
      are none. */
  method ViewCharacters(ledger: Ledger, g: string, u: string) returns (reply: ViewReply)
    requires ledger.Valid()
    ensures reply.NoCharacters? <==> forall c :: c in ledger.characters ==> !(c.guildId == g && c.userId == u)
    ensures reply.Listing? ==> reply.characters == UserCharacters(ledger.characters, g, u)
    ensures reply.Listing? ==> forall c :: c in reply.characters <==>
      c in ledger.characters && c.guildId == g && c.userId == u
    ensures reply.Listing? ==> forall i :: 0 < i < |reply.characters| ==>
      LexLe(reply.characters[i - 1].characterId, reply.characters[i].characterId)
  {
    var userCharacters := UserCharacters(ledger.characters, g, u);
    if |userCharacters| == 0 {
      reply := NoCharacters;
    } else {
      reply := Listing(userCharacters);
      assert userCharacters[0] in userCharacters;
    }
  }

  /** The heading of the reply, which counts the sheets listed. */
  function ViewText(r: ViewReply): (t: string)
    ensures r.Listing? ==> Contains(t, "(" + NatToString(|r.characters|) + ")")
  {
    match r
    case NoCharacters => "No tienes personajes creados aún."
    case Listing(cs) =>
      var t := "**Tus personajes** " + ("(" + NatToString(|cs|) + ")") + ":";
      ContainsMiddle("**Tus personajes** ", "(" + NatToString(|cs|) + ")", ":");
      t
  }

  /** What `/eliminar-personaje` ends in. */
  datatype DeleteOutcome = DeleteNotFound | DeleteFailed | Deleted(character: Character)

  /** `/eliminar-personaje`: only the caller's sheet of that name (ignoring
      case) in the guild is deleted, by its id. Nothing is written when there
      is none; the failure reply is given whenever the store reports false,
      here when its delete request throws (`fails`). */
  method DeleteCharacterCommand(ledger: Ledger, g: string, u: string, name: string, fails: bool)
    returns (outcome: DeleteOutcome)
    requires ledger.Valid()
    modifies ledger`characters
    ensures ledger.Valid()
    ensures var all := old(ledger.CharactersOf(g)); var f := FindOwned(all, u, name);
      && (outcome.DeleteNotFound? <==> f.None?)
      && (outcome.DeleteFailed? <==> f.Some? && fails)
      && (outcome.Deleted? ==> f.Some? && outcome.character == all[f.value])
    ensures !outcome.Deleted? ==> ledger.characters == old(ledger.characters)
    ensures outcome.Deleted? ==>
      && outcome.character in old(ledger.characters)
      && Owns(outcome.character, u, name) && outcome.character.guildId == g
      && forall c :: c in ledger.characters <==> c in old(ledger.characters) && c.id != outcome.character.id
  {
    var characters := ledger.CharactersOf(g);
    var found := FindOwned(characters, u, name);
    if found.None? {
      return DeleteNotFound;
    }
    var character := characters[found.value];
    assert character in ledger.characters;
    var i :| 0 <= i < |ledger.characters| && ledger.characters[i] == character;
    var deleted := ledger.DeleteCharacter(character.id, fails);
    if !deleted {
      return DeleteFailed;
    }
    outcome := Deleted(character);
  }

  /** The reply names the deleted sheet, or the name asked for when nothing
      was deleted. */
  function DeleteText(o: DeleteOutcome, name: string): (t: string)
    ensures o.Deleted? ==> Contains(t, "**" + o.character.name + "**")
    ensures !o.Deleted? ==> Contains(t, "\"" + name + "\"")
  {
    match o
    case DeleteNotFound =>
      var q := "\"" + name + "\"";
      ContainsMiddle("No se encontró ningún personaje con el nombre ", q, " o no eres su propietario.");
      "No se encontró ningún personaje con el nombre " + q + " o no eres su propietario."
    case DeleteFailed =>
      var q := "\"" + name + "\"";
      ContainsMiddle("Hubo un error al eliminar el personaje ", q, ". Por favor, inténtalo de nuevo.");
      "Hubo un error al eliminar el personaje " + q + ". Por favor, inténtalo de nuevo."
    case Deleted(c) =>
      var b := "**" + c.name + "**";
      ContainsMiddle("", b, " ha sido eliminado de tu colección.");
      assert "" + b == b;
      b + " ha sido eliminado de tu colección."
  }

  /** `{...(newLevel && {level: newLevel}), ...(newRank && {rank: newRank})}`:
      a field is carried only when its option is truthy, so a level of 0 and
      an empty rank leave the sheet's values alone. */
  function EditPatch(newLevel: Option<int>, newRank: Option<string>): (p: CharacterPatch)
    ensures p.level.Some? <==> newLevel.Some? && newLevel.value != 0
    ensures p.rank.Some? <==> newRank.Some? && newRank.value != []
  {
    CharacterPatch(if newLevel.Some? && newLevel.value != 0 then newLevel else None,
                   if newRank.Some? && newRank.value != [] then newRank else None)
  }

  /** The edited sheet takes each truthy option's value and keeps every other
      field, including its name, so editing keeps the name lookup working. */
  lemma EditedSheet(c: Character, newLevel: Option<int>, newRank: Option<string>)
    ensures var e := ApplyPatch(c, EditPatch(newLevel, newRank));
      && e.level == (if newLevel.Some? && newLevel.value != 0 then newLevel.value else c.level)
      && e.rank == (if newRank.Some? && newRank.value != [] then newRank.value else c.rank)
      && e.(level := c.level, rank := c.rank) == c
  {
  }

  /** With no truthy option the edit writes back the sheet unchanged. */
  lemma EmptyEditKeepsSheet(c: Character, newLevel: Option<int>, newRank: Option<string>)
    requires newLevel.None? || newLevel.value == 0
    requires newRank.None? || newRank.value == []
    ensures ApplyPatch(c, EditPatch(newLevel, newRank)) == c
  {
    EditedSheet(c, newLevel, newRank);
  }

  /** Editing never changes a name, so distinct names stay distinct. */
  lemma EditKeepsNamesDistinct(cs: seq<Character>, i: nat, p: CharacterPatch)
    requires OwnNamesDistinct(cs) && i < |cs|
    ensures OwnNamesDistinct(cs[i := ApplyPatch(cs[i], p)])
  {
    var s := cs[i := ApplyPatch(cs[i], p)];
    forall a, b | 0 <= a < b < |s| && s[a].guildId == s[b].guildId && s[a].userId == s[b].userId
      ensures Lower(s[a].name) != Lower(s[b].name)
    {
      assert s[a].name == cs[a].name && s[a].guildId == cs[a].guildId && s[a].userId == cs[a].userId;
      assert s[b].name == cs[b].name && s[b].guildId == cs[b].guildId && s[b].userId == cs[b].userId;
    }
  }

  /** What `/editar-personaje` ends in: the sheet as it was found and the
      patch written over it. */
  datatype EditOutcome = EditNotFound | Edited(before: Character, patch: CharacterPatch)

  /** `/editar-personaje`: only the caller's sheet of that name (ignoring case)
      in the guild is patched, by its id, with the truthy options; nothing is
      written when there is none. The level option only admits 1 to 20. */
  method EditCharacterCommand(ledger: Ledger, g: string, u: string, name: string, newLevel: Option<int>,
                              newRank: Option<string>)
    returns (outcome: EditOutcome)
    requires ledger.Valid()
    requires newLevel.Some? ==> 1 <= newLevel.value <= 20
    modifies ledger`characters
    ensures ledger.Valid()
    ensures var all := old(ledger.CharactersOf(g)); var f := FindOwned(all, u, name);
      && (outcome.EditNotFound? <==> f.None?)
      && (outcome.Edited? ==> outcome.before == all[f.value] && outcome.patch == EditPatch(newLevel, newRank))
    ensures outcome.EditNotFound? ==> ledger.characters == old(ledger.characters)
    ensures outcome.Edited? ==>
      && Owns(outcome.before, u, name) && outcome.before.guildId == g
      && exists i :: 0 <= i < |old(ledger.characters)| && old(ledger.characters)[i] == outcome.before &&
           ledger.characters == old(ledger.characters)[i := ApplyPatch(outcome.before, outcome.patch)]
  {
    var characters := ledger.CharactersOf(g);
    var found := FindOwned(characters, u, name);
    if found.None? {
      return EditNotFound;
    }
    var character := characters[found.value];
    assert character in ledger.characters;
    var i :| 0 <= i < |ledger.characters| && ledger.characters[i] == character;
    var patch := EditPatch(newLevel, newRank);
    var updated := ledger.UpdateCharacter(character.id, patch);
    outcome := Edited(character, patch);
  }
}
