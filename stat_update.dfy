/** The stat update that follows the save of a game: the winner gets one
    win and one game played, then every entry whose player is not the
    winner gets one game played. */
module StatUpdate {
  import opened Wrappers
  import opened Schema

  /** The player collection, from document id to document. */
  type Table = map<Id, Player>

  /** `r` with its two counters raised. */
  function Credit(r: Player, dWins: int, dGames: int): Player {
    r.(wins := r.wins + dWins, gamesPlayed := r.gamesPlayed + dGames)
  }

  /** One `$inc` through findByIdAndUpdate. An id with no document matches
      nothing, so the collection is left as it was and nothing fails. */
  function Bump(t: Table, id: Id, dWins: int, dGames: int): (u: Table)
    ensures u.Keys == t.Keys
    ensures forall p :: p in t && p != id ==> u[p] == t[p]
    ensures id in t ==> u[id] == Credit(t[id], dWins, dGames)
    ensures id !in t ==> u == t
  {
    if id in t then t[id := Credit(t[id], dWins, dGames)] else t
  }

  /** Every entry names a player, so the loop can compare it. */
  predicate AllNamed(es: seq<Entry>) {
    forall i :: 0 <= i < |es| ==> es[i].player.Some?
  }

  /** The number of entries naming `p`. */
  function Mentions(es: seq<Entry>, p: Id): (n: nat)
    ensures n <= |es|
    ensures n == 0 <==> forall i :: 0 <= i < |es| ==> es[i].player != Some(p)
  {
    if es == [] then 0
    else Mentions(es[..|es| - 1], p) + (if es[|es| - 1].player == Some(p) then 1 else 0)
  }

  /** The index of the first entry without a player (or the number of
      entries): the loop gets that far before it throws. */
  function FirstUnnamed(es: seq<Entry>): (k: nat)
    ensures k <= |es|
    ensures AllNamed(es[..k])
    ensures k < |es| ==> es[k].player.None?
  {
    if es == [] || es[0].player.None? then 0
    else
      var k := 1 + FirstUnnamed(es[1..]);
      assert es[..k] == [es[0]] + es[1..][..k - 1];
      k
  }

  /** Reaching entry `i` with every earlier entry named, and finding it
      unnamed or past the end, pins down where the loop stops. */
  lemma {:induction false} FirstUnnamedAt(es: seq<Entry>, i: nat)
    requires i <= |es| && AllNamed(es[..i])
    requires i < |es| ==> es[i].player.None?
    ensures FirstUnnamed(es) == i
  {
    if i > 0 {
      assert es[..i][0] == es[0];
      var rest := es[1..];
      var front := rest[..i - 1];
      assert AllNamed(front) by {
        forall j | 0 <= j < |front| ensures front[j].player.Some? {
          assert front[j] == es[..i][j + 1];
        }
      }
      FirstUnnamedAt(rest, i - 1);
    }
  }

  /** The writes in the order the route issues them: the winner's
      increment, then one increment per entry, skipping the entries whose
      player is the winner. */
  function Replay(t: Table, w: Id, es: seq<Entry>): (u: Table)
    requires AllNamed(es)
    ensures u.Keys == t.Keys
  {
    if es == [] then Bump(t, w, 1, 1)
    else
      var u := Replay(t, w, es[..|es| - 1]);
      var p := es[|es| - 1].player.value;
      if p != w then Bump(u, p, 0, 1) else u
  }

  /** The closed form of the stat update: the winner's counters rise by
      one each, and every other player's games played by the number of
      entries naming them. */
  function Expected(t: Table, w: Id, es: seq<Entry>): (u: Table)
    ensures u.Keys == t.Keys
  {
    map p | p in t :: if p == w then Credit(t[p], 1, 1) else Credit(t[p], 0, Mentions(es, p))
  }

  /** The sequence of writes has the closed form's effect. */
  lemma {:induction false} ReplayIsExpected(t: Table, w: Id, es: seq<Entry>)
    requires AllNamed(es)
    ensures Replay(t, w, es) == Expected(t, w, es)
  {
    if es == [] {
      assert Bump(t, w, 1, 1) == Expected(t, w, es);
    } else {
      var front := es[..|es| - 1];
      assert AllNamed(front) by {
        forall i | 0 <= i < |front| ensures front[i].player.Some? {
          assert front[i] == es[i];
        }
      }
      ReplayIsExpected(t, w, front);
      var q := es[|es| - 1].player.value;
      forall p | p in t
        ensures Replay(t, w, es)[p] == Expected(t, w, es)[p]
      {
        assert Mentions(es, p) == Mentions(front, p) + (if q == p then 1 else 0);
      }
    }
  }

  /** The winner's wins and games played rise by exactly one each, however
      many entries name the winner, and nothing else of theirs changes. The
      winner is credited even when no entry names them. */
  lemma {:induction false} WinnerCreditedOnce(t: Table, w: Id, es: seq<Entry>)
    requires AllNamed(es)
    requires w in t
    ensures w in Replay(t, w, es)
    ensures Replay(t, w, es)[w] == t[w].(wins := t[w].wins + 1, gamesPlayed := t[w].gamesPlayed + 1)
  {
    ReplayIsExpected(t, w, es);
  }

  /** A player other than the winner gains one game played per entry naming
      them, and no win. */
  lemma {:induction false} ParticipantCredited(t: Table, w: Id, es: seq<Entry>, p: Id)
    requires AllNamed(es)
    requires p in t && p != w
    ensures p in Replay(t, w, es)
    ensures Replay(t, w, es)[p] == t[p].(gamesPlayed := t[p].gamesPlayed + Mentions(es, p))
  {
    ReplayIsExpected(t, w, es);
  }

  /** A player who is neither the winner nor named by an entry is untouched. */
  lemma {:induction false} BystanderUntouched(t: Table, w: Id, es: seq<Entry>, p: Id)
    requires AllNamed(es)
    requires p in t && p != w
    requires forall i :: 0 <= i < |es| ==> es[i].player != Some(p)
    ensures p in Replay(t, w, es) && Replay(t, w, es)[p] == t[p]
  {
    ReplayIsExpected(t, w, es);
  }

  /** No document is created, and an entry whose player has no document
      changes nothing. */
  lemma AbsentEntryIgnored(t: Table, w: Id, es: seq<Entry>, e: Entry)
    requires AllNamed(es)
    requires e.player.Some? && e.player.value !in t
    ensures AllNamed(es + [e])
    ensures Replay(t, w, es + [e]) == Replay(t, w, es)
  {
    assert (es + [e])[..|es|] == es;
  }

  /** A winner with no document gains nothing and no one else gains a win. */
  lemma {:induction false} AbsentWinnerIgnored(t: Table, w: Id, es: seq<Entry>)
    requires AllNamed(es)
    requires w !in t
    ensures forall p :: p in t ==>
      Replay(t, w, es)[p] == t[p].(gamesPlayed := t[p].gamesPlayed + Mentions(es, p))
  {
    ReplayIsExpected(t, w, es);
    assert forall p :: p in t ==> p != w;
  }

  /** Every player has won at most as many games as they played. */
  predicate Consistent(t: Table) {
    forall p :: p in t ==> t[p].wins <= t[p].gamesPlayed
  }

  /** The stat update keeps every player's wins within games played. */
  lemma {:induction false} ReplayKeepsConsistent(t: Table, w: Id, es: seq<Entry>)
    requires AllNamed(es)
    requires Consistent(t)
    ensures Consistent(Replay(t, w, es))
  {
    ReplayIsExpected(t, w, es);
  }

  /** The player collection after a validated game `g` is saved: nothing
      happens without a winner; otherwise the writes are issued until the
      loop reaches an entry with no player. */
  function StatsAfter(t: Table, g: Game): (u: Table)
    ensures u.Keys == t.Keys
  {
    if g.winner.None? then t
    else Replay(t, g.winner.value, g.players[..FirstUnnamed(g.players)])
  }

  /** Whether the stat update runs to the end; it stops by throwing when a
      winner is set and some entry has no player. */
  predicate StatsComplete(g: Game)
    ensures StatsComplete(g) <==> g.winner.None? || AllNamed(g.players)
  {
    assert g.players[..|g.players|] == g.players;
    g.winner.None? || FirstUnnamed(g.players) == |g.players|
  }

  /** Without a winner no player is credited, not even the participants. */
  lemma NoWinnerNoCredit(t: Table, g: Game)
    requires g.winner.None?
    ensures StatsAfter(t, g) == t && StatsComplete(g)
  {
  }

  /** Recording a game keeps wins within games played, also when the update
      stops part way. */
  lemma StatsAfterKeepsConsistent(t: Table, g: Game)
    requires Consistent(t)
    ensures Consistent(StatsAfter(t, g))
  {
    if g.winner.Some? {
      ReplayKeepsConsistent(t, g.winner.value, g.players[..FirstUnnamed(g.players)]);
    }
  }

  /** The update route does not keep wins within games played: setting a
      player's wins above their games played is accepted. */
  lemma PatchCanBreakConsistency(t: Table, id: Id)
    requires Consistent(t) && id in t
    ensures !Consistent(t[id := Patch(t[id], NoFields.(wins := Some(t[id].gamesPlayed + 1)))])
  {
    var u := t[id := Patch(t[id], NoFields.(wins := Some(t[id].gamesPlayed + 1)))];
    assert u[id].wins > u[id].gamesPlayed;
  }

  /** Nor does the create route: a body may supply more wins than games
      played, and that player is stored as given. */
  lemma NewPlayerCanBreakConsistency(t: Table, id: Id, name: string, games: int)
    requires Consistent(t) && name != ""
    ensures NewPlayer(NoFields.(name := Some(name), gamesPlayed := Some(games), wins := Some(games + 1))).Ok?
    ensures !Consistent(t[id := NewPlayer(NoFields.(name := Some(name), gamesPlayed := Some(games), wins := Some(games + 1))).value])
  {
    var r := NewPlayer(NoFields.(name := Some(name), gamesPlayed := Some(games), wins := Some(games + 1)));
    assert t[id := r.value][id].wins > t[id := r.value][id].gamesPlayed;
  }
}
