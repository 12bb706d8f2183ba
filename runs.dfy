/**
  Runs of a game driver: a function that, from a state being played, makes
  one move and reports whether it made one; `play_game` calls such a driver
  in a loop. Its runs are stated here for any step function, so that
  the facts about runs do not depend on how the bot picks its move.
*/
module Runs {
  import opened TetrisCore
  import opened GameRules

  type Step = GameView -> (bool, GameView)

  /** `t` is a run of `step`: every state before the last is being played, and `step` leads from it, reporting a move, to the next. */
  ghost predicate IsRun(step: Step, t: seq<GameView>)
    decreases |t|
  {
    |t| > 0
    && (|t| == 1
        || (&& IsRun(step, t[..|t| - 1])
            && t[|t| - 2].state == Playing
            && step(t[|t| - 2]) == (true, t[|t| - 1])))
  }

  /** Every move `step` reports keeps the game invariant. */
  ghost predicate StepKeepsInv(step: Step)
  {
    forall v :: Inv(v) && step(v).0 ==> Inv(step(v).1)
  }

  /** A run followed by one more successful step is a run. */
  lemma RunExtends(step: Step, t: seq<GameView>, w: GameView)
    requires IsRun(step, t) && t[|t| - 1].state == Playing && step(t[|t| - 1]) == (true, w)
    ensures IsRun(step, t + [w])
  {
    assert (t + [w])[..|t|] == t;
  }

  /** Every non-empty prefix of a run is a run. */
  lemma {:induction false} RunPrefix(step: Step, t: seq<GameView>, n: nat)
    requires IsRun(step, t) && 0 < n <= |t|
    ensures IsRun(step, t[..n])
    decreases |t|
  {
    if n < |t| {
      assert t[..|t| - 1][..n] == t[..n];
      RunPrefix(step, t[..|t| - 1], n);
    } else {
      assert t[..n] == t;
    }
  }

  /** Runs from the same state agree: the shorter is a prefix of the longer. */
  lemma {:induction false} RunDeterministic(step: Step, t: seq<GameView>, u: seq<GameView>)
    requires IsRun(step, t) && IsRun(step, u) && t[0] == u[0] && |t| <= |u|
    ensures t == u[..|t|]
    decreases |t|
  {
    var n := |t|;
    if n > 1 {
      RunPrefix(step, u, n);
      var p := u[..n];
      assert p[..n - 1] == u[..n - 1];
      RunDeterministic(step, t[..n - 1], p[..n - 1]);
      assert t[n - 2] == p[n - 2];
      assert t == t[..n - 1] + [t[n - 1]] && p == p[..n - 1] + [p[n - 1]];
    }
  }

  /** A step that keeps the invariant keeps it along every run that starts in it. */
  lemma {:induction false} RunKeepsInv(step: Step, t: seq<GameView>)
    requires IsRun(step, t) && Inv(t[0]) && StepKeepsInv(step)
    ensures forall i :: 0 <= i < |t| ==> Inv(t[i])
    decreases |t|
  {
    if |t| > 1 {
      var s := t[..|t| - 1];
      RunKeepsInv(step, s);
      assert Inv(s[|s| - 1]);
      assert Inv(step(t[|t| - 2]).1);
    }
  }
}
