/** The difficulty table of the game: how long a letter takes to fall and how
    often a new one is spawned, in milliseconds. */
module Settings {

  /** The three values the difficulty selector offers. */
  datatype Difficulty = Easy | Medium | Hard

  /** One row of the table. */
  datatype Setting = Setting(fallDuration: nat, generationRate: nat)

  /** The row for a difficulty. Every duration and every period is strictly
      positive, and a letter is spawned more often than one takes to fall;
      a harder level both falls faster and spawns more often. */
  function For(d: Difficulty): (s: Setting)
    ensures s.fallDuration > 0 && s.generationRate > 0
    ensures s.generationRate < s.fallDuration
  {
    match d
    case Easy => Setting(5000, 1500)
    case Medium => Setting(3500, 1000)
    case Hard => Setting(2000, 700)
  }
}
