/** The player and game collections and what the routes do to them. */
module Store {
  import opened Wrappers
  import opened Schema
  import opened StatUpdate

  /** The two collections of the database, each from id to document. */
  class Database {
    var players: Table
    var games: map<Id, Game>

    constructor ()
      ensures players == map[] && games == map[]
    {
      players := map[];
      games := map[];
    }

    /** Looking up a player; a missing id is NotFound. */
    method GetPlayer(id: Id) returns (r: Result<Player>)
      ensures r.Ok? <==> id in players
      ensures r.Ok? ==> r.value == players[id]
      ensures r.Err? ==> r.error == NotFound
    {
      if id in players {
        r := Ok(players[id]);
      } else {
        r := Err(NotFound);
      }
    }

    /** Saving a new player under the freshly generated `id`. A body without
        a name, or an id already in use, is rejected and changes nothing;
        otherwise the defaulted document is stored and returned, and no
        other document changes. */
    method CreatePlayer(id: Id, body: PlayerFields) returns (r: Result<Player>)
      modifies this
      ensures games == old(games)
      ensures r.Ok? <==> HasText(body.name) && id !in old(players)
      ensures r.Err? ==> r.error == Invalid && players == old(players)
      ensures r.Ok? ==> r == NewPlayer(body) && players == old(players)[id := r.value]
    {
      var made := NewPlayer(body);
      if made.Err? || id in players {
        r := Err(Invalid);
        return;
      }
      players := players[id := made.value];
      r := made;
    }

    /** Setting the fields `body` supplies on the player `id` and returning
        the updated document; a missing id is NotFound and changes nothing.
        Other fields and other documents do not change. */
    method UpdatePlayer(id: Id, body: PlayerFields) returns (r: Result<Player>)
      modifies this
      ensures games == old(games)
      ensures r.Ok? <==> id in old(players)
      ensures r.Err? ==> r.error == NotFound && players == old(players)
      ensures r.Ok? ==> r.value == Patch(old(players)[id], body) && players == old(players)[id := r.value]
    {
      if id !in players {
        r := Err(NotFound);
        return;
      }
      var updated := Patch(players[id], body);
      players := players[id := updated];
      r := Ok(updated);
    }

    /** Looking up a game, without resolving its references; a missing id is
        NotFound. */
    method GetGame(id: Id) returns (r: Result<Game>)
      ensures r.Ok? <==> id in games
      ensures r.Ok? ==> r.value == games[id]
      ensures r.Err? ==> r.error == NotFound
    {
      if id in games {
        r := Ok(games[id]);
      } else {
        r := Err(NotFound);
      }
    }

    /** Recording the game `g` under the freshly generated `gid`. An invalid
        game or an id in use is rejected before anything is written. Otherwise
        the game is saved and then the stat update runs; if it reaches an
        entry without a player it throws, the route answers Invalid, and the
        saved game and the increments already issued stay. */
    method RecordGame(gid: Id, g: Game) returns (r: Result<Game>)
      modifies this
      ensures gid in old(games) || !ValidGame(g) ==>
        r == Err(Invalid) && players == old(players) && games == old(games)
      ensures gid !in old(games) && ValidGame(g) ==>
        games == old(games)[gid := g] &&
        players == StatsAfter(old(players), g) &&
        r == (if StatsComplete(g) then Ok(g) else Err(Invalid))
    {
      if gid in games || !ValidGame(g) {
        r := Err(Invalid);
        return;
      }
      games := games[gid := g];
      r := Ok(g);
      if g.winner.Some? {
        var w := g.winner.value;
        var es := g.players;
        players := Bump(players, w, 1, 1);
        var i := 0;
        while i < |es|
          invariant 0 <= i <= |es|
          invariant games == old(games)[gid := g]
          invariant AllNamed(es[..i])
          invariant players == Replay(old(players), w, es[..i])
        {
          if es[i].player.None? {
            FirstUnnamedAt(es, i);
            r := Err(Invalid);
            return;
          }
          var p := es[i].player.value;
          ghost var done := es[..i + 1];
          assert done[..i] == es[..i];
          assert AllNamed(done) by {
            forall j | 0 <= j < |done| ensures done[j].player.Some? {
              if j < i { assert done[j] == es[..i][j]; }
            }
          }
          if p != w {
            players := Bump(players, p, 0, 1);
          }
          i := i + 1;
        }
        FirstUnnamedAt(es, i);
        assert es[..i] == es;
      }
    }
  }

  /** Two players are created and a game between them is recorded with the
      first as winner: the winner has one win in one game, the other player
      no win in one game. */
  method TwoPlayerGame(p1: Id, p2: Id, gid: Id)
    requires p1 != p2
  {
    var db := new Database();
    var r1 := db.CreatePlayer(p1, NoFields.(name := Some("P1")));
    var r2 := db.CreatePlayer(p2, NoFields.(name := Some("P2")));
    assert r1.Ok? && r2.Ok?;
    var g := Game([Entry(Some(p1), Some("Alice")), Entry(Some(p2), Some("Medusa"))], Some(p1), None);
    assert ValidGame(g);
    assert FirstUnnamed(g.players) == 2 by { FirstUnnamedAt(g.players, 2); }
    var rg := db.RecordGame(gid, g);
    assert rg == Ok(g);
    WinnerCreditedOnce(map[p1 := r1.value, p2 := r2.value], p1, g.players);
    ParticipantCredited(map[p1 := r1.value, p2 := r2.value], p1, g.players, p2);
    assert g.players[..2] == g.players;
    assert Mentions(g.players, p2) == 1 by {
      assert g.players[..1] == [Entry(Some(p1), Some("Alice"))];
      assert g.players[..1][..0] == [];
    }
    var a := db.GetPlayer(p1);
    var b := db.GetPlayer(p2);
    assert a.Ok? && a.value.wins == 1 && a.value.gamesPlayed == 1;
    assert b.Ok? && b.value.wins == 0 && b.value.gamesPlayed == 1;
  }
}
