# Player statistics of the board-game stats server

A model of the Express/MongoDB server that records games of a board game
and keeps per-player statistics. The player collection is a table from
document id to player document (`name`, `avatarUrl`, `gamesPlayed`, `wins`,
`favoriteCharacter`), held with the game collection in a `Database` class
whose methods are the routes that change or read them:

- creating a player applies the schema: `name` is required, `avatarUrl`
  defaults to the placeholder image, both counters default to 0;
- getting a player or a game by id, with NotFound for a missing id;
- updating a player sets exactly the fields the body supplies;
- recording a game validates it (every entry needs a `character`), saves it,
  and then runs the stat update: when the game has a winner, the winner's
  `wins` and `gamesPlayed` rise by one, then each entry whose player is not
  the winner adds one game played to that player.

Files: `wrappers.dfy` (Option, Result, the two errors), `schema.dfy` (the
documents, creation defaults, the update merge, game validation),
`stat_update.dfy` (the stat update as the sequence of writes the route
issues, `Replay`, its closed form `Expected`, and the properties proved
through their equality), `store.dfy` (the `Database` class; its
`RecordGame` keeps the route's loop and is proved against `StatsAfter`;
`TwoPlayerGame` there is a worked example of two players and one game).

Modelling decisions, following the code:

- Ids are an opaque type with equality; equality stands for the
  `toString()` comparison of the loop.
- New ids (MongoDB ObjectIds) are generated outside the model and passed in.
  Inserting under an id that is already in use fails with Invalid, as the
  database's duplicate-key error does.
- A `required: true` String rejects an absent value and the empty string
  alike (`HasText`); this holds for the player `name` and an entry's
  `character`.
- `findByIdAndUpdate` runs no validators, so an update takes every
  supplied value, an empty name included.
- An `$inc` aimed at an id with no document matches nothing: no document is
  created and no error is raised (`Bump`).
- If a game has a winner and some entry has no `player`, the loop throws on
  `playerEntry.player.toString()` after the game was saved and after the
  earlier increments were issued. The route then answers 400 (Invalid) and
  what was written stays (`StatsAfter`, `StatsComplete`).
- A game without a winner credits nobody, not even its participants,
  because the whole update sits inside `if (game.winner)`. The winner is
  credited even when no entry names them. Both are kept as written.
- This version of the server has no authentication or ownership (later
  revisions add users and per-user scoping); the model follows this code.
- Player counters are meant to satisfy `wins <= gamesPlayed`. The code keeps
  it only through game recording
  (`StatsAfterKeepsConsistent`); create and update accept any counts
  (`NewPlayerCanBreakConsistency`, `PatchCanBreakConsistency`).

## Model

| member | source | states |
|---|---|---|
| Schema.HasText | index.js:23 | a required String (the player name here, an entry's character at line 34) rejects an absent value and the empty string, and accepts every non-empty string |
| Schema.NewPlayer | index.js:22-28 | creation fails with Invalid exactly when the name is absent or empty; otherwise the name is stored, an absent avatar becomes the placeholder URL and absent counters become 0, and supplied values are kept |
| Schema.CreateFromRecord | index.js:22-28 | a body spelling out a record with a name creates exactly that record |
| Schema.Patch | index.js:76-80 | every supplied field takes the supplied value, every other field keeps its old value |
| Schema.PatchNothingAndTwice | index.js:76-80 | an empty update changes nothing, and an update is idempotent |
| Schema.PatchWithRecord | index.js:76-80 | an update spelling out a record replaces the document by that record |
| Schema.ValidGame | index.js:30-38 | a game passes validation exactly when every entry has a non-empty character; references and winner are not checked |
| Schema.ValidationIgnoresReferences | index.js:32-36 | changing the winner or the entries' player references never changes whether a game passes validation |
| StatUpdate.Bump | index.js:115 | one `$inc`: the named document's counters rise by the deltas, every other document and the set of ids are unchanged, and a missing id changes nothing |
| StatUpdate.Mentions | index.js:118-121 | the count of entries naming a player is at most the number of entries, and zero exactly when no entry names the player |
| StatUpdate.FirstUnnamed | index.js:118-119 | the index where the loop stops: every earlier entry has a player, and the entry there (if any) has none |
| StatUpdate.FirstUnnamedAt | index.js:118-119 | that stopping index is unique: reaching an unnamed entry, or the end, with all earlier entries named fixes it |
| StatUpdate.Replay | index.js:114-122 | the writes in source order (winner first, then each non-winner entry) never add or remove a document |
| StatUpdate.Expected | index.js:114-122 | the closed form of the update keeps the set of documents |
| StatUpdate.ReplayIsExpected | index.js:114-122 | the sequential writes have exactly the closed form's effect, for every table, winner and list of entries |
| StatUpdate.WinnerCreditedOnce | index.js:115-119 | the winner's wins and games played rise by exactly one each however many entries name them, even if none does, and nothing else of theirs changes |
| StatUpdate.ParticipantCredited | index.js:118-121 | a non-winner gains one game played per entry naming them and no win |
| StatUpdate.BystanderUntouched | index.js:118-121 | a player who is neither winner nor named by an entry is unchanged |
| StatUpdate.AbsentEntryIgnored | index.js:120 | an entry whose player has no document changes nothing |
| StatUpdate.AbsentWinnerIgnored | index.js:115 | a winner with no document adds no win to anyone, and entries are credited as usual |
| StatUpdate.ReplayKeepsConsistent | index.js:115-120 | if wins are within games played for every player before the update, they are after it |
| StatUpdate.StatsAfter | index.js:113-123 | the update after a save never adds or removes a player document |
| StatUpdate.StatsComplete | index.js:114-127 | the stat update runs to the end (the route answers with the game) exactly when there is no winner or every entry has a player; otherwise it throws into the 400 answer |
| StatUpdate.NoWinnerNoCredit | index.js:114 | a game without a winner changes no player and completes |
| StatUpdate.StatsAfterKeepsConsistent | index.js:113-123 | recording a game keeps wins within games played, also when the update stops part way |
| StatUpdate.PatchCanBreakConsistency | index.js:76-80 | the update route accepts wins above games played, so it does not keep that invariant |
| StatUpdate.NewPlayerCanBreakConsistency | index.js:64-67 | the create route stores a body with more wins than games played, so it does not keep that invariant |
| Store.Database.GetPlayer | index.js:54-58 | returns the stored document for a present id and NotFound exactly when the id is absent |
| Store.Database.CreatePlayer | index.js:64-71 | fails with Invalid, changing nothing, when the name is missing or the id is in use; otherwise stores the defaulted document under the new id and changes no other document |
| Store.Database.UpdatePlayer | index.js:74-81 | NotFound, changing nothing, for an absent id; otherwise stores and returns the merged document and changes no other document |
| Store.Database.GetGame | index.js:98-102 | returns the stored game for a present id and NotFound exactly when the id is absent |
| Store.Database.RecordGame | index.js:108-128 | an invalid game or used id fails before any write; otherwise the game is saved, the player table becomes `StatsAfter` of the old one, and the answer is the game, or Invalid when the loop hit an entry without a player |

## Left out

- The list routes `GET /api/players` and `GET /api/games` (index.js:45-52, 89-96): they return the collections in the database's natural order, which the map-based model does not have.
- Resolving `players.player` and `winner` to player documents when games are read (`populate`, index.js:91, 100): library-driven read-time joins; `GetGame` returns the stored references.
- The game `date` and its `Date.now` default (index.js:31): it reads the clock.
- Express setup, CORS, JSON parsing, `app.listen`, and the mapping of errors to HTTP status codes (index.js:1-9, 131-134); routes answer with `Result` values instead.
- The database connection and environment configuration (index.js:11-19): I/O.
- Failures of casting ids or body values to schema types, explicit `null` values in a body, keys outside the schema, and store failures, which the GET routes answer with 500 and the others with 400: library behaviour that the source does not show.
- Counters are unbounded integers; the JavaScript numbers they stand for lose precision beyond 2^53, and non-integer counter values are not modelled.
- Concurrency: the awaited increments run one after another in the model; interleaving with other requests and the atomicity of `$inc` are not modelled.
- Authentication, users and per-user scoping: the code has none.
