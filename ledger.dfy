/**
 * The stat ledger of one player: counters keyed by free-form labels, the
 * derived-stat rules that recording a made shot triggers, and the scoring
 * invariants those rules keep.
 */
module Ledger {
  import opened Optional

  /** Counter per stat; a stat is absent until it is first recorded. */
  type Stats = map<string, int>

  /** The labels the scorekeeper offers as buttons, in display order. */
  const StatTypes: seq<string> :=
    ["FG Attempt", "FG Made", "3PT Attempt", "3PT Made", "FT Attempt", "FT Made",
     "Rebound", "Assist", "Steal", "Block", "Foul"]

  /** The derived counter that only the made-shot rules are meant to write. */
  const Points: string := "Points"

  /** Value of a counter, reading an absent stat as 0. */
  function Count(stats: Stats, stat: string): int
  {
    if stat in stats then stats[stat] else 0
  }

  /** Adds `k` to one counter, creating it from 0 when absent. */
  function Bump(stats: Stats, stat: string, k: int): (r: Stats)
    ensures r.Keys == stats.Keys + {stat}
    ensures Count(r, stat) == Count(stats, stat) + k
    ensures forall t :: t != stat ==> Count(r, t) == Count(stats, t)
  {
    stats[stat := Count(stats, stat) + k]
  }

  /** One derived-stat rule: recording `made` also bumps `attempt` and `Points`. */
  datatype Rule = Rule(made: string, attempt: string, points: nat)

  /** The complete rule table; every stat not named here has no secondary effect. */
  const Rules: seq<Rule> :=
    [Rule("FG Made", "FG Attempt", 2), Rule("3PT Made", "3PT Attempt", 3), Rule("FT Made", "FT Attempt", 1)]

  /** The first rule of `rules` whose made stat is `stat`, if any. */
  function Lookup(rules: seq<Rule>, stat: string): Option<Rule>
  {
    if rules == [] then None
    else if rules[0].made == stat then Some(rules[0])
    else Lookup(rules[1..], stat)
  }

  /** The rule that recording `stat` triggers, if any, branch by branch. */
  function RuleFor(stat: string): Option<Rule>
  {
    if stat == "FG Made" then Some(Rule("FG Made", "FG Attempt", 2))
    else if stat == "3PT Made" then Some(Rule("3PT Made", "3PT Attempt", 3))
    else if stat == "FT Made" then Some(Rule("FT Made", "FT Attempt", 1))
    else None
  }

  /** The branches agree with a lookup in the rule table, for every stat. */
  lemma RuleForIsTableLookup(stat: string)
    ensures RuleFor(stat) == Lookup(Rules, stat)
  {
    var fg, three, ft := Rules[0], Rules[1], Rules[2];
    assert Rules[1..] == [three, ft] && [three, ft][1..] == [ft] && [ft][1..] == [];
    assert Lookup([ft], stat) == if ft.made == stat then Some(ft) else None;
    assert Lookup([three, ft], stat) == if three.made == stat then Some(three) else Lookup([ft], stat);
    assert Lookup(Rules, stat) == if fg.made == stat then Some(fg) else Lookup([three, ft], stat);
    assert "FG Made"[1] != "FT Made"[1] && |"FG Made"| != |"3PT Made"| && |"3PT Made"| != |"FT Made"|;
  }

  /** Each rule of the table is the one its made label triggers. */
  lemma RuleForMade(rule: Rule)
    requires rule in Rules
    ensures RuleFor(rule.made) == Some(rule)
  {
    RuleForIsTableLookup(rule.made);
  }

  /** The counters a rule writes besides the recorded stat itself. */
  function SecondaryKeys(stat: string): set<string>
  {
    match RuleFor(stat)
    case None => {}
    case Some(rule) => {rule.attempt, Points}
  }

  /** How much recording `stat` adds to counter `t`, read off the rule table. */
  function Delta(stat: string, t: string): int
  {
    (if t == stat then 1 else 0) +
    match RuleFor(stat)
    case None => 0
    case Some(rule) => (if t == rule.attempt then 1 else 0) + (if t == Points then rule.points else 0)
  }

  /**
   * Records one occurrence of `stat`: its own counter goes up by one, and a
   * made shot also bumps its attempt counter and adds its point value.
   */
  function Record(stats: Stats, stat: string): (r: Stats)
    ensures r.Keys == stats.Keys + {stat} + SecondaryKeys(stat)
    ensures forall t :: Count(r, t) == Count(stats, t) + Delta(stat, t)
  {
    var primary := Bump(stats, stat, 1);
    match RuleFor(stat)
    case None => primary
    case Some(rule) => Bump(Bump(primary, rule.attempt, 1), Points, rule.points)
  }

  /** Every counter is non-negative. */
  predicate NonNegative(stats: Stats)
  {
    forall t :: t in stats ==> stats[t] >= 0
  }

  /**
   * The scoring invariants: no more makes than attempts for each shot kind,
   * and Points equal to the value of the made shots.
   */
  predicate Consistent(stats: Stats)
  {
    && Count(stats, "FG Attempt") >= Count(stats, "FG Made")
    && Count(stats, "3PT Attempt") >= Count(stats, "3PT Made")
    && Count(stats, "FT Attempt") >= Count(stats, "FT Made")
    && Count(stats, Points) == 2 * Count(stats, "FG Made") + 3 * Count(stats, "3PT Made") + Count(stats, "FT Made")
  }

  /** Recording never makes a counter negative. */
  lemma RecordKeepsNonNegative(stats: Stats, stat: string)
    ensures NonNegative(stats) ==> NonNegative(Record(stats, stat))
  {
    var r := Record(stats, stat);
    if NonNegative(stats) {
      forall t | t in r ensures r[t] >= 0 {
        assert Count(r, t) == Count(stats, t) + Delta(stat, t);
      }
    }
  }

  /**
   * Recording a stat keeps the scoring invariants exactly when the stat is
   * not Points itself, which the recorder accepts like any other string.
   */
  lemma RecordKeepsConsistent(stats: Stats, stat: string)
    requires Consistent(stats)
    ensures Consistent(Record(stats, stat)) <==> stat != Points
  {
  }

  /** None of the offered buttons records Points directly. */
  lemma StatTypesExcludePoints()
    ensures Points !in StatTypes
  {
  }

  /** The ledger after recording `labels` in order, oldest first. */
  function RecordAll(stats: Stats, labels: seq<string>): Stats
    decreases |labels|
  {
    if labels == [] then stats else RecordAll(Record(stats, labels[0]), labels[1..])
  }

  /** Any run of recordings that never names Points keeps the scoring invariants. */
  lemma {:induction false} RecordAllKeepsConsistent(stats: Stats, labels: seq<string>)
    requires Consistent(stats)
    requires forall k :: 0 <= k < |labels| ==> labels[k] != Points
    ensures Consistent(RecordAll(stats, labels))
    decreases |labels|
  {
    if labels != [] {
      RecordKeepsConsistent(stats, labels[0]);
      RecordAllKeepsConsistent(Record(stats, labels[0]), labels[1..]);
    }
  }

  /** What the rule table says recording a rule's made stat adds to its three counters. */
  lemma DeltaOfMake(rule: Rule)
    requires rule in Rules
    ensures Delta(rule.made, rule.made) == 1
    ensures Delta(rule.made, rule.attempt) == 1
    ensures Delta(rule.made, Points) == rule.points
  {
    RuleForMade(rule);
  }

  /** `n` copies of one stat. */
  function Repeat(stat: string, n: nat): (s: seq<string>)
  {
    if n == 0 then [] else [stat] + Repeat(stat, n - 1)
  }

  /** Recording `stat` `n` times adds `n` times its increment to every counter. */
  lemma {:induction false} RepeatedRecord(stats: Stats, stat: string, n: nat, t: string)
    ensures Count(RecordAll(stats, Repeat(stat, n)), t) == Count(stats, t) + n * Delta(stat, t)
    decreases n
  {
    if n > 0 {
      var labels := Repeat(stat, n);
      var next := Record(stats, stat);
      assert labels[0] == stat && labels[1..] == Repeat(stat, n - 1);
      assert RecordAll(stats, labels) == RecordAll(next, Repeat(stat, n - 1));
      RepeatedRecord(next, stat, n - 1, t);
      MulStep(n, Delta(stat, t));
    }
  }

  lemma MulStep(n: nat, d: int)
    requires n > 0
    ensures n * d == d + (n - 1) * d
  {
  }

  /**
   * Recording the made stat of a rule `n` times adds `n` makes, `n`
   * attempts and `n` times the rule's point value.
   */
  lemma RepeatedMake(stats: Stats, rule: Rule, n: nat)
    requires rule in Rules
    ensures Count(RecordAll(stats, Repeat(rule.made, n)), rule.made) == Count(stats, rule.made) + n
    ensures Count(RecordAll(stats, Repeat(rule.made, n)), rule.attempt) == Count(stats, rule.attempt) + n
    ensures Count(RecordAll(stats, Repeat(rule.made, n)), Points) == Count(stats, Points) + n * rule.points
  {
    DeltaOfMake(rule);
    RepeatedRecord(stats, rule.made, n, rule.made);
    RepeatedRecord(stats, rule.made, n, rule.attempt);
    RepeatedRecord(stats, rule.made, n, Points);
  }

  /** A first made field goal on an empty ledger creates exactly its three counters. */
  lemma FirstFieldGoal()
    ensures Record(map[], "FG Made") == map["FG Made" := 1, "FG Attempt" := 1, Points := 2]
  {
  }
}
