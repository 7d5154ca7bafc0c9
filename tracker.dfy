/**
 * The scorekeeper's session state: the roster and the newest-first event
 * log, with the handlers that update them. Each handler reassigns the
 * roster and the log as the component's state setters do; the clock
 * reading and the display time are passed in.
 */
module Tracker {
  import opened Optional
  import opened Ledger
  import opened Players
  import opened Roster

  class BasketballTracker {
    var players: seq<Player>
    var log: seq<LogEntry>

    /** Every player is well formed. */
    ghost predicate Valid()
      reads this
    {
      forall j :: 0 <= j < |players| ==> WellFormed(players[j])
    }

    /** Every player's ledger satisfies the scoring invariants. */
    ghost predicate Scoring()
      reads this
    {
      forall j :: 0 <= j < |players| ==> Consistent(players[j].stats)
    }

    /** A session starts with two default players and an empty log. */
    constructor ()
      ensures Valid() && Scoring()
      ensures players == InitialRoster && log == []
    {
      players := InitialRoster;
      log := [];
    }

    /**
     * Records `stat` for player `i` (with its derived counters) and logs it
     * under the player's current name at display time `time`.
     */
    method UpdateStat(i: int, stat: string, time: string)
      requires Valid() && 0 <= i < |players|
      modifies this
      ensures Valid()
      ensures players == old(players)[i := Recorded(old(players)[i], stat)]
      ensures log == [LogEntry(old(players)[i].name, Stat(stat), time)] + old(log)
      ensures old(Scoring()) && stat != Points ==> Scoring()
    {
      var p := players[i];
      if Consistent(p.stats) {
        RecordKeepsConsistent(p.stats, stat);
      }
      players := players[i := Recorded(p, stat)];
      log := [LogEntry(p.name, Stat(stat), time)] + log;
    }

    /**
     * Puts player `i` on court at clock reading `now` and logs it; a player
     * already on court is left alone and nothing is logged.
     */
    method HandleSubIn(i: int, now: int, time: string)
      requires Valid() && 0 <= i < |players| && now > 0
      modifies this
      ensures Valid()
      ensures old(players[i].subInTime).None? ==>
        players == old(players)[i := SubbedIn(old(players)[i], now)] &&
        log == [LogEntry(old(players)[i].name, SubIn, time)] + old(log)
      ensures old(players[i].subInTime).Some? ==> players == old(players) && log == old(log)
      ensures old(Scoring()) ==> Scoring()
    {
      var p := players[i];
      if p.subInTime.None? {
        players := players[i := SubbedIn(p, now)];
        log := [LogEntry(p.name, SubIn, time)] + log;
      }
    }

    /**
     * Takes player `i` off court at clock reading `now`, adding the stint's
     * minutes, and logs the elapsed minutes; a player already off court is
     * left alone and nothing is logged.
     */
    method HandleSubOut(i: int, now: int, time: string)
      requires Valid() && 0 <= i < |players|
      modifies this
      ensures Valid()
      ensures old(players[i].subInTime).Some? ==>
        players == old(players)[i := SubbedOut(old(players)[i], now)] &&
        log == [LogEntry(old(players)[i].name, SubOut(MinutesBetween(old(players[i].subInTime).value, now)), time)] + old(log)
      ensures old(players[i].subInTime).None? ==> players == old(players) && log == old(log)
      ensures old(Scoring()) ==> Scoring()
    {
      var p := players[i];
      if p.subInTime.Some? {
        var elapsed := MinutesBetween(p.subInTime.value, now);
        players := players[i := SubbedOut(p, now)];
        log := [LogEntry(p.name, SubOut(elapsed), time)] + log;
      }
    }

    /** Appends a fresh default player; the log is untouched. */
    method AddPlayer()
      requires Valid()
      modifies this
      ensures Valid()
      ensures players == Added(old(players)) && log == old(log)
      ensures old(Scoring()) ==> Scoring()
    {
      players := Added(players);
    }

    /** Drops the player at position `index`, if there is one; the log is untouched. */
    method RemovePlayer(index: int)
      requires Valid()
      modifies this
      ensures Valid()
      ensures players == Without(old(players), index) && log == old(log)
      ensures old(Scoring()) ==> Scoring()
    {
      players := Without(players, index);
    }

    /**
     * Renames player `i`; nothing else about any player changes, and the
     * log keeps the names its entries were written with.
     */
    method Rename(i: int, name: string)
      requires Valid() && 0 <= i < |players|
      modifies this
      ensures Valid()
      ensures players == old(players)[i := old(players)[i].(name := name)] && log == old(log)
      ensures old(Scoring()) ==> Scoring()
    {
      players := players[i := players[i].(name := name)];
    }
  }

  /**
   * A short session: record a made field goal for the first player, sub
   * them in at `t0` and out ninety seconds later, then remove the second
   * player. Sub-in is logged too, so the log holds three entries.
   */
  method Session(t0: int) returns (players: seq<Player>, log: seq<LogEntry>)
    requires t0 > 0
    ensures |players| == 1 && players[0].name == "Player 1"
    ensures players[0].stats == map["FG Made" := 1, "FG Attempt" := 1, Points := 2]
    ensures players[0].subInTime == None && players[0].minutes == 1.5
    ensures log == [LogEntry("Player 1", SubOut(1.5), "t3"),
                    LogEntry("Player 1", SubIn, "t2"),
                    LogEntry("Player 1", Stat("FG Made"), "t1")]
  {
    var game := new BasketballTracker();
    var scored := Recorded(NewPlayer("Player 1"), "FG Made");
    FirstFieldGoal();
    Stint(scored, t0, t0 + 90000);
    assert MinutesBetween(t0, t0 + 90000) == 1.5;
    var second := NewPlayer("Player 2");
    game.UpdateStat(0, "FG Made", "t1");
    assert game.players == [scored, second];
    game.HandleSubIn(0, t0, "t2");
    assert game.players == [SubbedIn(scored, t0), second];
    game.HandleSubOut(0, t0 + 90000, "t3");
    assert game.players == [scored.(minutes := 1.5), second];
    game.RemovePlayer(1);
    players, log := game.players, game.log;
  }
}
