/**
 * The roster: the ordered players on screen. Adding appends a fresh player
 * whose default name comes from the roster's length; removing filters one
 * position out. Neither edits any player.
 */
module Roster {
  import opened Decimal
  import opened Players

  /** The default name of the `n`-th player: "Player n". */
  function DefaultName(n: nat): string
  {
    "Player " + DecimalString(n)
  }

  /** The roster a session starts with. */
  const InitialRoster: seq<Player> := [NewPlayer("Player 1"), NewPlayer("Player 2")]

  /** The roster with one fresh player appended, named after the new length. */
  function Added(ps: seq<Player>): (r: seq<Player>)
    ensures |r| == |ps| + 1 && r[..|ps|] == ps
    ensures r[|ps|] == NewPlayer(DefaultName(|ps| + 1))
  {
    ps + [NewPlayer(DefaultName(|ps| + 1))]
  }

  /**
   * Keeps every element whose position differs from `k`: a position in
   * range is cut out, keeping the others in order; any other `k` keeps all.
   */
  function Without<T>(ps: seq<T>, k: int): (r: seq<T>)
    ensures 0 <= k < |ps| ==> r == ps[..k] + ps[k + 1..]
    ensures !(0 <= k < |ps|) ==> r == ps
    decreases |ps|
  {
    if ps == [] then []
    else (if k == 0 then [] else [ps[0]]) + Without(ps[1..], k - 1)
  }

  /** Removing the player just added gives back the roster before the add. */
  lemma RemoveUndoesAdd(ps: seq<Player>)
    ensures Without(Added(ps), |ps|) == ps
  {
    assert Added(ps)[..|ps|] == ps;
  }

  /** Every player still carries the default name of its position. */
  predicate DefaultNames(ps: seq<Player>)
  {
    forall j :: 0 <= j < |ps| ==> ps[j].name == DefaultName(j + 1)
  }

  /** The starting roster carries the default names. */
  lemma InitialRosterHasDefaultNames()
    ensures DefaultNames(InitialRoster)
  {
    assert DecimalString(1) == "1" && DecimalString(2) == "2";
  }

  /** Adding keeps the roster's names the defaults of their positions. */
  lemma AddedKeepsDefaultNames(ps: seq<Player>)
    requires DefaultNames(ps)
    ensures DefaultNames(Added(ps))
  {
    var r := Added(ps);
    forall j | 0 <= j < |r| ensures r[j].name == DefaultName(j + 1) {
      if j < |ps| {
        assert r[j] == r[..|ps|][j];
      }
    }
  }

  /** Default names of different positions differ. */
  lemma DefaultNameInjective(m: nat, n: nat)
    ensures DefaultName(m) == DefaultName(n) <==> m == n
  {
    var prefix := "Player ";
    if DefaultName(m) == DefaultName(n) {
      assert DecimalString(m) == DefaultName(m)[|prefix|..];
      assert DecimalString(n) == DefaultName(n)[|prefix|..];
    }
    DecimalStringInjective(m, n);
  }

  /** While every name is a default one, no two players share a name. */
  lemma DefaultNamesDistinct(ps: seq<Player>)
    requires DefaultNames(ps)
    ensures forall i, j :: 0 <= i < j < |ps| ==> ps[i].name != ps[j].name
  {
    forall i, j | 0 <= i < j < |ps| ensures ps[i].name != ps[j].name {
      DefaultNameInjective(i + 1, j + 1);
    }
  }

  /**
   * Default names can repeat once a player has been removed: dropping the
   * first starting player and adding one leaves two players named "Player 2".
   */
  lemma DefaultNameCollision()
    ensures var ps := Added(Without(InitialRoster, 0));
      |ps| == 2 && ps[0].name == "Player 2" && ps[1].name == "Player 2"
  {
    assert Without(InitialRoster, 0) == [NewPlayer("Player 2")];
    assert DecimalString(2) == "2";
  }
}
