/**
  Scoring: points, level and cleared-line count, the line-clear table with its
  T-spin variants, the perfect-clear bonus and the drop bonuses. Counters are
  unbounded naturals.
*/
module Scoring {

  datatype TSpinType = TNone | Mini | Full

  /** The value state of a score system. */
  datatype ScoreView = ScoreView(score: nat, level: nat, lines: nat)

  /** The level always follows the cleared-line count: one level per ten lines, starting at 1. */
  predicate LevelInv(s: ScoreView)
  {
    s.level == s.lines / 10 + 1
  }

  /** `ScoreSystem::new`. */
  function NewScoreF(): (s: ScoreView)
    ensures LevelInv(s) && s.score == 0 && s.lines == 0
  {
    ScoreView(0, 1, 0)
  }

  /** Points per level for a clear of `lines` rows with no T-spin, as `add_score_for_lines` lists them. */
  function PlainValue(lines: nat): nat
  {
    match lines
    case 1 => 100
    case 2 => 300
    case 3 => 500
    case 4 => 800
    case _ => 0
  }

  /** Points per level for a clear of `lines` >= 1 rows with the given T-spin kind. */
  function LineValue(lines: nat, t: TSpinType): nat
  {
    match (lines, t)
    case (1, Full) => 800
    case (2, Full) => 1200
    case (3, Full) => 1600
    case (1, Mini) => 200
    case (2, Mini) => 400
    case (1, TNone) => 100
    case (2, TNone) => 300
    case (3, TNone) => 500
    case (4, TNone) => 800
    case _ => 0
  }

  /** Points per level for a T-spin that clears nothing. */
  function ZeroLineValue(t: TSpinType): nat
  {
    match t
    case Full => 400
    case Mini => 100
    case TNone => 0
  }

  /** Points per level of the perfect-clear bonus. */
  function PerfectClearValue(lines: nat): nat
  {
    match lines
    case 1 => 800
    case 2 => 1200
    case 3 => 1800
    case 4 => 2000
    case _ => 0
  }

  /** The state after `lines` more cleared lines, with the level recomputed. */
  function WithLines(s: ScoreView, points: nat, lines: nat): (s': ScoreView)
    ensures LevelInv(s') && s'.lines == s.lines + lines && s'.score == s.score + points
  {
    ScoreView(s.score + points, (s.lines + lines) / 10 + 1, s.lines + lines)
  }

  /** `add_score_for_lines`. */
  function AddLinesF(s: ScoreView, lines: nat): (s': ScoreView)
    ensures lines == 0 ==> s' == s
    ensures lines > 0 ==> s'.score == s.score + PlainValue(lines) * s.level && s'.lines == s.lines + lines && LevelInv(s')
  {
    if lines == 0 then s else WithLines(s, PlainValue(lines) * s.level, lines)
  }

  /** `add_score_for_lines_with_tspin`. */
  function AddLinesTspinF(s: ScoreView, lines: nat, t: TSpinType): (s': ScoreView)
    ensures lines == 0 ==> s' == s.(score := s.score + ZeroLineValue(t) * s.level)
    ensures lines > 0 ==> s'.score == s.score + LineValue(lines, t) * s.level && s'.lines == s.lines + lines && LevelInv(s')
  {
    if lines == 0 then s.(score := s.score + ZeroLineValue(t) * s.level)
    else WithLines(s, LineValue(lines, t) * s.level, lines)
  }

  /** `add_perfect_clear_bonus`. */
  function AddPerfectClearF(s: ScoreView, lines: nat): (s': ScoreView)
    ensures s' == s.(score := s.score + PerfectClearValue(lines) * s.level)
  {
    s.(score := s.score + PerfectClearValue(lines) * s.level)
  }

  /** `add_soft_drop_score`: one point per row. */
  function AddSoftDropF(s: ScoreView, rows: nat): (s': ScoreView)
    ensures s' == s.(score := s.score + rows)
  {
    s.(score := s.score + rows)
  }

  /** `add_hard_drop_score`: two points per row. */
  function AddHardDropF(s: ScoreView, rows: nat): (s': ScoreView)
    ensures s' == s.(score := s.score + 2 * rows)
  {
    s.(score := s.score + 2 * rows)
  }

  // ---------------------------------------------------------------------
  // Properties of the scoring rules
  // ---------------------------------------------------------------------

  /** Every scoring operation keeps the level invariant and never lowers the score. */
  lemma ScoringMonotone(s: ScoreView, lines: nat, t: TSpinType, rows: nat)
    requires LevelInv(s)
    ensures LevelInv(AddLinesF(s, lines)) && AddLinesF(s, lines).score >= s.score
    ensures LevelInv(AddLinesTspinF(s, lines, t)) && AddLinesTspinF(s, lines, t).score >= s.score
    ensures LevelInv(AddPerfectClearF(s, lines)) && AddPerfectClearF(s, lines).score >= s.score
    ensures LevelInv(AddSoftDropF(s, rows)) && AddSoftDropF(s, rows).score >= s.score
    ensures LevelInv(AddHardDropF(s, rows)) && AddHardDropF(s, rows).score >= s.score
  {
  }

  /** The cleared-line count grows only when lines are cleared, and never shrinks. */
  lemma LinesGrowOnlyOnClears(s: ScoreView, lines: nat, t: TSpinType)
    ensures AddLinesTspinF(s, lines, t).lines == s.lines + lines
    ensures AddLinesTspinF(s, lines, t).lines > s.lines <==> lines > 0
    ensures AddLinesF(s, lines).lines == s.lines + lines
  {
  }

  /** The level never goes down under the scoring operations. */
  lemma LevelNeverDrops(s: ScoreView, lines: nat, t: TSpinType)
    requires LevelInv(s)
    ensures AddLinesTspinF(s, lines, t).level >= s.level
    ensures AddLinesF(s, lines).level >= s.level
  {
  }

  /** Without a T-spin, the two line-scoring entry points agree. */
  lemma PlainAgreesWithTspinNone(s: ScoreView, lines: nat)
    ensures AddLinesF(s, lines) == AddLinesTspinF(s, lines, TNone)
  {
  }

  /**
    The combinations that the table leaves at zero: a T-spin quad, a Mini
    triple or quad, and anything beyond four lines.
  */
  lemma LineValueZero(lines: nat, t: TSpinType)
    requires lines >= 1
    ensures LineValue(lines, t) == 0 <==> lines > 4 || (t == Full && lines == 4) || (t == Mini && lines >= 3)
  {
  }

  /** A T-spin is worth at least the plain clear of the same size, except for the unlisted Mini triple/quad and T-spin quad. */
  lemma TspinBeatsPlain(lines: nat, t: TSpinType)
    requires 1 <= lines <= 4 && !(t == Full && lines == 4) && !(t == Mini && lines >= 3)
    ensures LineValue(lines, t) >= LineValue(lines, TNone) > 0
  {
  }

  /** The perfect-clear bonus grows with the number of lines and is zero outside 1..4. */
  lemma PerfectClearIncreasing(a: nat, b: nat)
    ensures 1 <= a < b <= 4 ==> PerfectClearValue(a) < PerfectClearValue(b)
    ensures PerfectClearValue(a) > 0 <==> 1 <= a <= 4
  {
  }

  // ---------------------------------------------------------------------
  // The score object
  // ---------------------------------------------------------------------

  class ScoreSystem {
    var score: nat
    var level: nat
    var linesCleared: nat

    function Model(): ScoreView
      reads this
    {
      ScoreView(score, level, linesCleared)
    }

    /** `ScoreSystem::new`. */
    constructor ()
      ensures Model() == NewScoreF()
    {
      score := 0;
      level := 1;
      linesCleared := 0;
    }

    /** A score system holding the given values; with `Clone`, the deep copy a copied game needs. */
    constructor FromView(s: ScoreView)
      ensures Model() == s
    {
      score := s.score;
      level := s.level;
      linesCleared := s.lines;
    }

    method Clone() returns (c: ScoreSystem)
      ensures fresh(c) && c.Model() == Model()
    {
      c := new ScoreSystem.FromView(Model());
    }

    method AddScoreForLines(lines: nat)
      modifies this
      ensures Model() == AddLinesF(old(Model()), lines)
    {
      if lines == 0 {
        return;
      }
      var lineMultiplier := match lines
        case 1 => 100
        case 2 => 300
        case 3 => 500
        case 4 => 800
        case _ => 0;
      score := score + lineMultiplier * level;
      linesCleared := linesCleared + lines;
      level := linesCleared / 10 + 1;
    }

    method AddScoreForLinesWithTspin(lines: nat, tspin: TSpinType)
      modifies this
      ensures Model() == AddLinesTspinF(old(Model()), lines, tspin)
    {
      if lines == 0 {
        match tspin {
          case Full => score := score + 400 * level;
          case Mini => score := score + 100 * level;
          case TNone =>
        }
        return;
      }
      var lineMultiplier := LineValue(lines, tspin);
      score := score + lineMultiplier * level;
      linesCleared := linesCleared + lines;
      level := linesCleared / 10 + 1;
    }

    method AddPerfectClearBonus(lines: nat)
      modifies this
      ensures Model() == AddPerfectClearF(old(Model()), lines)
    {
      var bonus := PerfectClearValue(lines);
      score := score + bonus * level;
    }

    method AddSoftDropScore(rows: nat)
      modifies this
      ensures Model() == AddSoftDropF(old(Model()), rows)
    {
      score := score + rows;
    }

    method AddHardDropScore(rows: nat)
      modifies this
      ensures Model() == AddHardDropF(old(Model()), rows)
    {
      score := score + rows * 2;
    }
  }
}
