/** The two document schemas of the stats server and what saving or
    updating a player document does with a request body. */
module Schema {
  import opened Wrappers

  /** A document id (a MongoDB ObjectId). Ids are only compared, and equality
      here stands for comparing their string forms. */
  type Id(==)

  /** The default of the player schema's `avatarUrl`. */
  const PlaceholderAvatar: string := "https://via.placeholder.com/150"

  /** A stored player document. `favoriteCharacter` has no default, so a
      document created without it has no such field. */
  datatype Player = Player(
    name: string,
    avatarUrl: string,
    gamesPlayed: int,
    wins: int,
    favoriteCharacter: Option<string>)

  /** The schema fields a request body supplies; `None` is an absent key. */
  datatype PlayerFields = PlayerFields(
    name: Option<string>,
    avatarUrl: Option<string>,
    gamesPlayed: Option<int>,
    wins: Option<int>,
    favoriteCharacter: Option<string>)

  /** One element of a game's `players` array: a player reference and the
      character that player used. */
  datatype Entry = Entry(player: Option<Id>, character: Option<string>)

  /** A game document (its `date` is left out). */
  datatype Game = Game(players: seq<Entry>, winner: Option<Id>, notes: Option<string>)

  /** What a `required: true` String path accepts: a value that is present
      and not the empty string. */
  predicate HasText(s: Option<string>)
    ensures s == None ==> !HasText(s)
    ensures s == Some("") ==> !HasText(s)
    ensures s.Some? && |s.value| > 0 ==> HasText(s)
  {
    s.Some? && s.value != ""
  }

  /** True when `now` is what a field ends up as when its value was `was`
      and the body supplied `given`: the supplied value, or the old one. */
  predicate Overwrites<T(==)>(was: T, given: Option<T>, now: T) {
    if given.Some? then now == given.value else now == was
  }

  /** The document that saving a new player built from `body` stores: the
      required name is checked, and absent defaulted fields get their
      defaults. */
  function NewPlayer(body: PlayerFields): (r: Result<Player>)
    ensures r.Err? <==> !HasText(body.name)
    ensures r.Err? ==> r.error == Invalid
    ensures r.Ok? ==> r.value.name == body.name.value
    ensures r.Ok? ==> Overwrites(PlaceholderAvatar, body.avatarUrl, r.value.avatarUrl)
    ensures r.Ok? ==> Overwrites(0, body.gamesPlayed, r.value.gamesPlayed)
    ensures r.Ok? ==> Overwrites(0, body.wins, r.value.wins)
    ensures r.Ok? ==> r.value.favoriteCharacter == body.favoriteCharacter
  {
    if !HasText(body.name) then Err(Invalid)
    else Ok(Player(
      body.name.value,
      body.avatarUrl.GetOr(PlaceholderAvatar),
      body.gamesPlayed.GetOr(0),
      body.wins.GetOr(0),
      body.favoriteCharacter))
  }

  /** The document after an update that sets every field `body` supplies.
      Update validators are off, so every supplied value is taken. */
  function Patch(p: Player, body: PlayerFields): (q: Player)
    ensures Overwrites(p.name, body.name, q.name)
    ensures Overwrites(p.avatarUrl, body.avatarUrl, q.avatarUrl)
    ensures Overwrites(p.gamesPlayed, body.gamesPlayed, q.gamesPlayed)
    ensures Overwrites(p.wins, body.wins, q.wins)
    ensures body.favoriteCharacter.Some? ==> q.favoriteCharacter == body.favoriteCharacter
    ensures body.favoriteCharacter.None? ==> q.favoriteCharacter == p.favoriteCharacter
  {
    Player(
      body.name.GetOr(p.name),
      body.avatarUrl.GetOr(p.avatarUrl),
      body.gamesPlayed.GetOr(p.gamesPlayed),
      body.wins.GetOr(p.wins),
      if body.favoriteCharacter.Some? then body.favoriteCharacter else p.favoriteCharacter)
  }

  /** The body that spells out every field of `p`. */
  function FieldsOf(p: Player): PlayerFields {
    PlayerFields(Some(p.name), Some(p.avatarUrl), Some(p.gamesPlayed), Some(p.wins), p.favoriteCharacter)
  }

  /** A body that supplies nothing. */
  const NoFields: PlayerFields := PlayerFields(None, None, None, None, None)

  /** Creating from a body that spells out a record with a name stores
      exactly that record. */
  lemma CreateFromRecord(p: Player)
    requires p.name != ""
    ensures NewPlayer(FieldsOf(p)) == Ok(p)
  {
  }

  /** An update that supplies nothing leaves the document as it was, and
      applying the same update twice is the same as applying it once. */
  lemma PatchNothingAndTwice(p: Player, body: PlayerFields)
    ensures Patch(p, NoFields) == p
    ensures Patch(Patch(p, body), body) == Patch(p, body)
  {
  }

  /** An update that spells out a record replaces the document by it, as
      long as no field has to be removed. */
  lemma PatchWithRecord(p: Player, q: Player)
    requires q.favoriteCharacter.Some? || q.favoriteCharacter == p.favoriteCharacter
    ensures Patch(p, FieldsOf(q)) == q
  {
  }

  /** The game schema's validation: every entry names a character. Neither
      the entries' player references nor the winner are checked. */
  predicate ValidGame(g: Game)
    ensures ValidGame(g) <==> forall e :: e in g.players ==> HasText(e.character)
  {
    forall i :: 0 <= i < |g.players| ==> HasText(g.players[i].character)
  }

  /** Validation accepts a game whatever its winner and player references
      are, also when the winner is not among the players. */
  lemma {:induction false} ValidationIgnoresReferences(g: Game, w: Option<Id>, ps: seq<Option<Id>>)
    requires |ps| == |g.players|
    ensures ValidGame(g) <==>
      ValidGame(g.(winner := w, players := seq(|ps|, i requires 0 <= i < |ps| => g.players[i].(player := ps[i]))))
  {
    var h := g.(winner := w, players := seq(|ps|, i requires 0 <= i < |ps| => g.players[i].(player := ps[i])));
    assert forall i :: 0 <= i < |ps| ==> h.players[i].character == g.players[i].character;
  }
}
