/**
 * The records the scorekeeper keeps: players with their ledger and
 * substitution clock, and the entries of the event log. The substitution
 * clock turns the wall-clock interval between a sub-in and the following
 * sub-out into minutes played.
 */
module Players {
  import opened Optional
  import opened Ledger

  /**
   * A player: display name, stat ledger, the instant (milliseconds) of the
   * current sub-in when on court, and the minutes of completed stints.
   */
  datatype Player = Player(name: string, stats: Stats, subInTime: Option<int>, minutes: real)

  /** What a log entry records: a stat label, a sub-in, or a sub-out with its elapsed minutes. */
  datatype Event = Stat(stat: string) | SubIn | SubOut(elapsed: real)

  /** One line of the event log: the player's name when it was written, the event, the display time. */
  datatype LogEntry = LogEntry(player: string, event: Event, time: string)

  /** A newly added player: empty ledger, off court, no minutes. */
  function NewPlayer(name: string): Player
  {
    Player(name, map[], None, 0.0)
  }

  /**
   * The state every player keeps: no negative counter, and a stored sub-in
   * instant that is positive, so that "has a sub-in time" and "the sub-in
   * time is truthy" agree.
   */
  predicate WellFormed(p: Player)
  {
    NonNegative(p.stats) && (p.subInTime.Some? ==> p.subInTime.value > 0)
  }

  /** Milliseconds between two clock readings, as minutes. */
  function MinutesBetween(since: int, now: int): real
  {
    (now - since) as real / 60000.0
  }

  /** The player after recording one occurrence of `stat`. */
  function Recorded(p: Player, stat: string): (r: Player)
    ensures r.name == p.name && r.subInTime == p.subInTime && r.minutes == p.minutes
    ensures forall t :: Count(r.stats, t) == Count(p.stats, t) + Delta(stat, t)
    ensures WellFormed(p) ==> WellFormed(r)
  {
    RecordKeepsNonNegative(p.stats, stat);
    p.(stats := Record(p.stats, stat))
  }

  /** The counters that exist after recording: the old ones, the stat and its rule's secondary counters. */
  lemma RecordedKeys(p: Player, stat: string)
    ensures Recorded(p, stat).stats.Keys == p.stats.Keys + {stat} + SecondaryKeys(stat)
  {
  }

  /**
   * Sub-in at clock reading `now`: an off-court player goes on court from
   * `now`; an on-court player is left exactly as is, so the running stint's
   * start is never reset.
   */
  function SubbedIn(p: Player, now: int): (r: Player)
    requires now > 0
    ensures r.subInTime.Some?
    ensures p.subInTime.Some? ==> r == p
    ensures p.subInTime.None? ==> r.subInTime == Some(now)
    ensures r.name == p.name && r.stats == p.stats && r.minutes == p.minutes
    ensures WellFormed(p) ==> WellFormed(r)
  {
    if p.subInTime.None? then p.(subInTime := Some(now)) else p
  }

  /**
   * Sub-out at clock reading `now`: an on-court player goes off court and
   * the stint's minutes are added to the total; an off-court player is left
   * exactly as is.
   */
  function SubbedOut(p: Player, now: int): (r: Player)
    ensures r.subInTime.None?
    ensures p.subInTime.None? ==> r == p
    ensures p.subInTime.Some? ==> r.minutes * 60000.0 == p.minutes * 60000.0 + (now - p.subInTime.value) as real
    ensures p.subInTime.Some? && p.subInTime.value <= now ==> r.minutes >= p.minutes
    ensures r.name == p.name && r.stats == p.stats
    ensures WellFormed(p) ==> WellFormed(r)
  {
    match p.subInTime
    case None => p
    case Some(since) => p.(subInTime := None, minutes := p.minutes + MinutesBetween(since, now))
  }

  /**
   * A full stint: an off-court player subbed in at `t0` and out at `t1`
   * returns to the same record with `t1 - t0` milliseconds added as minutes.
   */
  lemma Stint(p: Player, t0: int, t1: int)
    requires p.subInTime.None? && t0 > 0
    ensures SubbedOut(SubbedIn(p, t0), t1) == p.(minutes := p.minutes + MinutesBetween(t0, t1))
  {
  }

  /** One minute of clock time adds exactly one minute; ninety seconds add one and a half. */
  lemma StintExamples(p: Player, t0: int)
    requires p.subInTime.None? && t0 > 0
    ensures SubbedOut(SubbedIn(p, t0), t0 + 60000).minutes == p.minutes + 1.0
    ensures SubbedOut(SubbedIn(p, t0), t0 + 90000).minutes == p.minutes + 1.5
  {
    Stint(p, t0, t0 + 60000);
    Stint(p, t0, t0 + 90000);
  }
}
