/** Experience and level of the own character (bot/src/packetProcessor.cpp, 1294-1321). */
module Experience {
  const SP_EXPERIENCE_REQUIRED: nat := 400

  /** exp_C of the levels 1, 2, and so on: each takes some experience, and there are at most 255. */
  ghost predicate LevelsOk(levels: seq<int>)
  {
    0 < |levels| <= 255 && forall i | 0 <= i < |levels| :: 0 < levels[i]
  }

  /** The experience that the first `n` levels take together. */
  function Below(levels: seq<int>, n: nat): int
    requires n <= |levels|
  {
    if n == 0 then 0 else Below(levels, n - 1) + levels[n - 1]
  }

  /** A level of the table, and less experience than it takes. */
  ghost predicate Normal(levels: seq<int>, level: int, exp: int)
  {
    1 <= level <= |levels| && 0 <= exp < levels[level - 1]
  }

  /** All experience gained so far. */
  ghost function Total(levels: seq<int>, level: int, exp: int): int
    requires 1 <= level <= |levels|
  {
    Below(levels, level - 1) + exp
  }

  lemma {:induction false} BelowGrows(levels: seq<int>, m: nat, n: nat)
    requires LevelsOk(levels) && m <= n <= |levels|
    ensures Below(levels, m) <= Below(levels, n) && (m < n ==> Below(levels, m) + levels[m] <= Below(levels, n))
    decreases n - m
  {
    if m < n {
      BelowGrows(levels, m, n - 1);
    }
  }

  /** The total lies between 0 and what the whole table takes. */
  lemma TotalRange(levels: seq<int>, level: int, exp: int)
    requires LevelsOk(levels) && Normal(levels, level, exp)
    ensures 0 <= Total(levels, level, exp) < Below(levels, |levels|)
  {
    BelowGrows(levels, 0, level - 1);
    BelowGrows(levels, level - 1, |levels|);
  }

  /** The total alone determines level and experience. */
  lemma TotalDetermines(levels: seq<int>, level: int, exp: int, level2: int, exp2: int)
    requires LevelsOk(levels) && Normal(levels, level, exp) && Normal(levels, level2, exp2)
    requires Total(levels, level, exp) == Total(levels, level2, exp2)
    ensures level == level2 && exp == exp2
  {
    if level < level2 {
      BelowGrows(levels, level - 1, level2 - 1);
    } else if level2 < level {
      BelowGrows(levels, level2 - 1, level - 1);
    }
  }

  class SelfEntity {
    var currentLevel: int
    var currentExperience: int
    var currentSpExperience: nat

    constructor (level: int, exp: int, sp: nat)
      ensures currentLevel == level && currentExperience == exp && currentSpExperience == sp
    {
      currentLevel, currentExperience, currentSpExperience := level, exp, sp;
    }

    /** serverAgentEntityUpdateExperienceReceived; false when a level is not in the table, which throws and changes
        nothing. */
    method UpdateExperience(levels: seq<int>, gained: int, gainedSp: nat) returns (ok: bool)
      requires LevelsOk(levels) && Normal(levels, currentLevel, currentExperience)
      modifies this
      ensures ok <==> 0 <= Total(levels, old(currentLevel), old(currentExperience)) + gained < Below(levels, |levels|)
      ensures ok ==>
                && Normal(levels, currentLevel, currentExperience)
                && Total(levels, currentLevel, currentExperience) ==
                  Total(levels, old(currentLevel), old(currentExperience)) + gained
                && currentSpExperience ==
                  (old(currentSpExperience) + gainedSp) % 0x1_0000_0000_0000_0000 % SP_EXPERIENCE_REQUIRED
      ensures !ok ==>
                && currentLevel == old(currentLevel) && currentExperience == old(currentExperience)
                && currentSpExperience == old(currentSpExperience)
    {
      TotalRange(levels, currentLevel, currentExperience);
      var level := currentLevel;
      var max := levels[level - 1];
      var exp := currentExperience + gained;
      ghost var total := Total(levels, currentLevel, currentExperience) + gained;
      if gained > 0 {
        while exp >= max
          invariant 1 <= level <= |levels| && max == levels[level - 1] && 0 <= exp && Total(levels, level, exp) == total
          decreases |levels| - level
        {
          exp := exp - max;
          level := level + 1;
          if level > |levels| {
            assert Below(levels, |levels|) == Below(levels, |levels| - 1) + levels[|levels| - 1];
            return false;
          }
          max := levels[level - 1];
        }
      } else if gained < 0 {
        while exp < 0
          invariant 1 <= level <= |levels| && exp < levels[level - 1] && Total(levels, level, exp) == total
          decreases level
        {
          level := level - 1;
          if level < 1 {
            assert Below(levels, 0) == 0;
            return false;
          }
          max := levels[level - 1];
          exp := exp + max;
        }
      }
      TotalRange(levels, level, exp);
      currentSpExperience := (currentSpExperience + gainedSp) % 0x1_0000_0000_0000_0000 % SP_EXPERIENCE_REQUIRED;
      currentExperience := exp;
      if level != currentLevel {
        currentLevel := level;
      }
      return true;
    }

    /** A gain that the table allows, followed by an equal loss, leads back to the same level and experience. */
    method GainAndLose(levels: seq<int>, amount: int) returns (gained: bool, lost: bool)
      requires amount >= 0 && LevelsOk(levels) && Normal(levels, currentLevel, currentExperience)
      modifies this
      ensures gained <==> Total(levels, old(currentLevel), old(currentExperience)) + amount < Below(levels, |levels|)
      ensures gained ==> lost && currentLevel == old(currentLevel) && currentExperience == old(currentExperience)
    {
      TotalRange(levels, currentLevel, currentExperience);
      lost := false;
      gained := UpdateExperience(levels, amount, 0);
      if gained {
        lost := UpdateExperience(levels, -amount, 0);
        TotalDetermines(levels, currentLevel, currentExperience, old(currentLevel), old(currentExperience));
      }
    }
  }
}
