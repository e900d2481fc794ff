/** `/me`: posting an action as one of the caller's characters, and the
    autocomplete that suggests the caller's character names as they type. */
module MeCommand {
  import opened Wrappers
  import opened Schema
  import opened Text
  import opened Seqs
  import opened CharacterCommands

  /** An autocomplete choice: the label shown and the value sent back. */
  datatype Choice = Choice(name: string, value: string)

  /** Discord accepts at most this many autocomplete choices. */
  const MaxChoices := 25

  /** The name test of the autocomplete: the typed text occurs in the name,
      both lower-cased. */
  predicate Suggestible(c: Character, typed: string) {
    Contains(Lower(c.name), Lower(typed))
  }

  /** Each character offered as a choice labelled and valued by its name. */
  function Choices(cs: seq<Character>): (r: seq<Choice>)
    ensures |r| == |cs|
    ensures forall i :: 0 <= i < |cs| ==> r[i] == Choice(cs[i].name, cs[i].name)
  {
    seq(|cs|, i requires 0 <= i < |cs| => Choice(cs[i].name, cs[i].name))
  }

  /** The autocomplete's answer for the guild's characters `cs`: the caller's
      characters, then those whose name contains the typed text, turned into
      choices and cut to the first 25. */
  function Suggestions(cs: seq<Character>, u: string, typed: string): (r: seq<Choice>)
    ensures |r| <= MaxChoices
    ensures forall i :: 0 <= i < |r| ==> r[i].name == r[i].value
  {
    var userCharacters := Filter(cs, (c: Character) => c.userId == u);
    var filtered := Choices(Filter(userCharacters, (c: Character) => Suggestible(c, typed)));
    filtered[..if |filtered| < MaxChoices then |filtered| else MaxChoices]
  }

  /** The caller's characters whose name contains the typed text, in table
      order: the list the suggestions are cut from. */
  function Candidates(cs: seq<Character>, u: string, typed: string): (r: seq<Character>)
    ensures forall c :: c in r <==> c in cs && c.userId == u && Suggestible(c, typed)
  {
    Filter(cs, (c: Character) => c.userId == u && Suggestible(c, typed))
  }

  /** The suggestions are the first 25 candidates (all of them when there are
      fewer), each labelled and valued by its name, in table order. */
  lemma SuggestionsArePrefix(cs: seq<Character>, u: string, typed: string)
    ensures var r, m := Suggestions(cs, u, typed), Candidates(cs, u, typed);
      && |r| == (if |m| < MaxChoices then |m| else MaxChoices)
      && forall i :: 0 <= i < |r| ==> r[i] == Choice(m[i].name, m[i].name)
  {
    FilterFilter(cs, (c: Character) => c.userId == u, (c: Character) => Suggestible(c, typed),
                 (c: Character) => c.userId == u && Suggestible(c, typed));
  }

  /** At most 25 suggestions; each one names one of the caller's characters
      whose name contains the typed text, ignoring case, with label equal to
      value. */
  lemma SuggestionsSound(cs: seq<Character>, u: string, typed: string)
    ensures var r := Suggestions(cs, u, typed);
      && |r| <= MaxChoices
      && forall i :: 0 <= i < |r| ==>
           r[i].name == r[i].value && exists c :: c in cs && c.userId == u && Suggestible(c, typed) && c.name == r[i].name
  {
    var r, m := Suggestions(cs, u, typed), Candidates(cs, u, typed);
    SuggestionsArePrefix(cs, u, typed);
    forall i | 0 <= i < |r|
      ensures exists c :: c in cs && c.userId == u && Suggestible(c, typed) && c.name == r[i].name
    {
      assert m[i] in m;
    }
  }

  /** When the caller has at most 25 matching characters, every one of them is
      suggested. */
  lemma SuggestionsComplete(cs: seq<Character>, u: string, typed: string, c: Character)
    requires |Candidates(cs, u, typed)| <= MaxChoices
    requires c in cs && c.userId == u && Suggestible(c, typed)
    ensures Choice(c.name, c.name) in Suggestions(cs, u, typed)
  {
    var r, m := Suggestions(cs, u, typed), Candidates(cs, u, typed);
    SuggestionsArePrefix(cs, u, typed);
    var i :| 0 <= i < |m| && m[i] == c;
    assert r[i] == Choice(c.name, c.name);
  }

  /** Empty typed text matches every name: the suggestions are the caller's
      first 25 characters. */
  lemma EmptyTextSuggestsAll(cs: seq<Character>, u: string)
    ensures var r, mine := Suggestions(cs, u, ""), Filter(cs, (c: Character) => c.userId == u);
      && |r| == (if |mine| < MaxChoices then |mine| else MaxChoices)
      && forall i :: 0 <= i < |r| ==> r[i] == Choice(mine[i].name, mine[i].name)
  {
    var mine := Filter(cs, (c: Character) => c.userId == u);
    forall c: Character ensures Suggestible(c, "") {
      ContainsEmpty(Lower(c.name));
    }
    FilterAll(mine, (c: Character) => Suggestible(c, ""));
  }

  /** Filtering with a test every element passes changes nothing. */
  lemma {:induction false} FilterAll(s: seq<Character>, p: Character -> bool)
    requires forall c :: p(c)
    ensures Filter(s, p) == s
    decreases |s|
  {
    if s != [] {
      FilterAll(s[1..], p);
      assert s == [s[0]] + s[1..];
    }
  }

  /** The answer to `/me`: the not-found reply, or an embed titled with the
      character's name, the action in italics, and the character's image as
      thumbnail when it has a non-empty one. */
  datatype MeReply = NotFound(text: string) | Post(title: string, description: string, thumbnail: Option<string>)

  /** `/me` in a guild whose characters are `cs`: the action is posted only
      as the caller's character whose name matches, ignoring case. */
  function MeAction(cs: seq<Character>, u: string, characterName: string, action: string): (r: MeReply)
    ensures r.Post? <==> exists c :: c in cs && Owns(c, u, characterName)
    ensures r.Post? ==> exists i :: (0 <= i < |cs| && Owns(cs[i], u, characterName) &&
      (forall j :: 0 <= j < i ==> !Owns(cs[j], u, characterName)) &&
      r == Post(cs[i].name, "*" + action + "*",
                if cs[i].imageUrl.Some? && cs[i].imageUrl.value != [] then cs[i].imageUrl else None))
    ensures r.NotFound? ==> Contains(r.text, "\"" + characterName + "\"")
  {
    match FindOwned(cs, u, characterName)
    case None =>
      assert forall c :: c in cs ==> !Owns(c, u, characterName);
      var q := "\"" + characterName + "\"";
      ContainsMiddle("No se encontró el personaje ", q, " o no eres su propietario.");
      NotFound("No se encontró el personaje " + q + " o no eres su propietario.")
    case Some(i) =>
      var c := cs[i];
      Post(c.name, "*" + action + "*", if c.imageUrl.Some? && c.imageUrl.value != [] then c.imageUrl else None)
  }
}
