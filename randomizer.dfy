/**
  The 7-bag piece source with a five-slot preview queue. The shuffle is not
  modelled: refill number k installs `source(k)`, seven shapes chosen by
  whoever builds the randomizer; the fairness lemmas that need each of them to
  be a permutation of the seven shapes require `BagSource`. The bag is used
  from its end, so refill k is drawn in the order `Reverse(source(k))`.
*/
module Randomizers {
  import opened Pieces

  /** The seven shapes in the order the refill lists them before shuffling. */
  const AllTypes: seq<PieceType> := [I, O, T, S, Z, J, L]

  /** A permutation of the seven shapes. */
  predicate IsBag(s: seq<PieceType>)
  {
    multiset(s) == multiset(AllTypes)
  }

  /** What a refill installs: seven shapes. */
  type Shuffle = s: seq<PieceType> | |s| == 7 witness AllTypes

  /** The shuffles the randomizer will use, one per refill. */
  type Source = nat -> Shuffle

  /** Every shuffle of `source` is a permutation of the seven shapes, as the shuffled refill always is. */
  ghost predicate BagSource(source: Source)
  {
    forall k :: IsBag(source(k))
  }

  /** Number of preview slots. */
  const PreviewSize: nat := 5

  function Reverse<T>(s: seq<T>): (r: seq<T>)
    ensures |r| == |s|
  {
    if |s| == 0 then [] else [s[|s| - 1]] + Reverse(s[..|s| - 1])
  }

  function Min(a: nat, b: nat): nat
  {
    if a <= b then a else b
  }

  /** The value state of a bag randomizer: bag, preview queue, refills made so far, and the shuffles. */
  datatype RandView = RandView(bag: seq<PieceType>, queue: seq<PieceType>, refills: nat, source: Source)

  /** `refill_bag`: the bag becomes the next shuffle. */
  function RefillF(v: RandView): (v': RandView)
    ensures |v'.bag| == 7 && v'.refills == v.refills + 1
    ensures (v'.queue, v'.source) == (v.queue, v.source)
  {
    v.(bag := v.source(v.refills), refills := v.refills + 1)
  }

  /** One push into the preview: refill if the bag is empty, then move the bag's last piece to the back of the queue. */
  function Step(v: RandView): (v': RandView)
    ensures |v'.queue| == |v.queue| + 1 && v'.queue[..|v.queue|] == v.queue
    ensures |v.bag| > 0 ==> v'.queue[|v.queue|] == v.bag[|v.bag| - 1] && v'.bag == v.bag[..|v.bag| - 1] && v'.refills == v.refills
    ensures |v.bag| == 0 ==> v'.queue[|v.queue|] == v.source(v.refills)[6] && v'.bag == v.source(v.refills)[..6] && v'.refills == v.refills + 1
    ensures v'.source == v.source
  {
    var w := if |v.bag| == 0 then RefillF(v) else v;
    assert |w.bag| > 0;
    w.(queue := w.queue + [w.bag[|w.bag| - 1]], bag := w.bag[..|w.bag| - 1])
  }

  /** `n` pushes in a row. */
  function Steps(v: RandView, n: nat): (v': RandView)
    ensures |v'.queue| == |v.queue| + n && v'.source == v.source
    decreases n
  {
    if n == 0 then v else Steps(Step(v), n - 1)
  }

  /** `BagRandomizer::new`: one refill, then five pushes into the preview. */
  function NewF(source: Source): (v: RandView)
    ensures |v.queue| == PreviewSize && v.source == source
  {
    Steps(RefillF(RandView([], [], 0, source)), PreviewSize)
  }

  /** `next`: the front of the queue, and the state after one more push. */
  function NextF(v: RandView): (res: (PieceType, RandView))
    requires |v.queue| > 0
    ensures res.0 == v.queue[0]
    ensures |res.1.queue| == |v.queue|
  {
    (v.queue[0], Step(v.(queue := v.queue[1..])))
  }

  /** `peek(count)`: the first min(count, len) queue entries, in order. */
  function PeekF(v: RandView, count: nat): (r: seq<PieceType>)
    ensures |r| == Min(count, |v.queue|)
    ensures forall i :: 0 <= i < |r| ==> r[i] == v.queue[i]
  {
    v.queue[..Min(count, |v.queue|)]
  }

  // ---------------------------------------------------------------------
  // Fairness
  // ---------------------------------------------------------------------

  /** Every piece the first `k` refills provide, in the order they are drawn. */
  function Pushed(source: Source, k: nat): (s: seq<PieceType>)
    ensures |s| == 7 * k
  {
    if k == 0 then [] else Pushed(source, k - 1) + Reverse(source(k - 1))
  }

  /** Number of pieces already handed out by `next`. */
  function Drawn(v: RandView): int
  {
    7 * v.refills - |v.queue| - |v.bag|
  }

  /**
    The bag is what remains of the last shuffle, and the queue followed by the
    bag in drawing order is exactly the not-yet-drawn tail of everything
    refilled so far.
  */
  ghost predicate Fair(v: RandView)
  {
    && (v.refills == 0 ==> v.bag == [] && v.queue == [])
    && (v.refills > 0 ==> |v.bag| <= 7 && v.bag == v.source(v.refills - 1)[..|v.bag|])
    && 0 <= Drawn(v)
    && v.queue + Reverse(v.bag) == Pushed(v.source, v.refills)[Drawn(v)..]
  }

  /** The randomizer's invariant: a full preview and the fairness bookkeeping. */
  ghost predicate Valid(v: RandView)
  {
    |v.queue| == PreviewSize && Fair(v)
  }

  /** A push keeps the queue-then-bag sequence and the count of drawn pieces. */
  lemma StepFair(v: RandView)
    requires Fair(v)
    ensures Fair(Step(v)) && Drawn(Step(v)) == Drawn(v)
  {
    var v' := Step(v);
    if |v.bag| == 0 {
      var b := v.source(v.refills);
      assert Pushed(v.source, v.refills + 1) == Pushed(v.source, v.refills) + Reverse(b);
      assert b[..6][..|v'.bag|] == b[..6];
      assert v'.queue + Reverse(v'.bag) == v.queue + Reverse(b);
    } else {
      assert v'.queue + Reverse(v'.bag) == v.queue + ([v.bag[|v.bag| - 1]] + Reverse(v.bag[..|v.bag| - 1]));
    }
  }

  lemma {:induction false} StepsFair(v: RandView, n: nat)
    requires Fair(v)
    ensures Fair(Steps(v, n)) && Drawn(Steps(v, n)) == Drawn(v)
    decreases n
  {
    if n > 0 {
      StepFair(v);
      StepsFair(Step(v), n - 1);
    }
  }

  /** After `new`, the preview holds five pieces and the bag the other two of the first shuffle. */
  lemma NewState(source: Source)
    ensures NewF(source).queue == Reverse(source(0))[..5]
    ensures NewF(source).bag == source(0)[..2]
    ensures NewF(source).queue + Reverse(NewF(source).bag) == Reverse(source(0))
    ensures NewF(source).refills == 1 && Drawn(NewF(source)) == 0
    ensures Valid(NewF(source))
  {
    var v0 := RefillF(RandView([], [], 0, source));
    assert Pushed(source, 1) == Reverse(source(0));
    assert Fair(v0);
    StepsFair(v0, 5);
    var v := NewF(source);
    assert v.refills == 1;
    assert v.queue + Reverse(v.bag) == Reverse(source(0));
    assert v.queue == (v.queue + Reverse(v.bag))[..5];
  }

  /**
    `next` returns the old front, keeps five pieces in the preview, and hands
    out the pieces in the order of the refills: the piece returned is the next
    one of `Pushed`.
  */
  lemma NextFair(v: RandView)
    requires Valid(v)
    ensures Valid(NextF(v).1)
    ensures Drawn(NextF(v).1) == Drawn(v) + 1
    ensures NextF(v).0 == Pushed(v.source, NextF(v).1.refills)[Drawn(v)]
  {
    var w := v.(queue := v.queue[1..]);
    assert Drawn(w) == Drawn(v) + 1;
    assert w.queue + Reverse(w.bag) == Pushed(v.source, v.refills)[Drawn(w)..] by {
      assert v.queue + Reverse(v.bag) == [v.queue[0]] + (w.queue + Reverse(w.bag));
    }
    assert Fair(w);
    StepFair(w);
    PushedPrefix(v.source, v.refills, Step(w).refills);
  }

  /** A later `Pushed` extends an earlier one. */
  lemma {:induction false} PushedPrefix(source: Source, k: nat, k': nat)
    requires k <= k'
    ensures Pushed(source, k')[..7 * k] == Pushed(source, k)
    decreases k'
  {
    if k < k' {
      PushedPrefix(source, k, k' - 1);
      assert Pushed(source, k')[..7 * (k' - 1)] == Pushed(source, k' - 1);
    }
  }

  /** The pieces handed out by the first `n` calls of `next` after `new`, and the state they leave. */
  function Run(source: Source, n: nat): (res: (seq<PieceType>, RandView))
    ensures |res.0| == n && |res.1.queue| == PreviewSize && res.1.source == source
  {
    if n == 0 then ([], NewF(source))
    else
      var prev := Run(source, n - 1);
      var next := NextF(prev.1);
      (prev.0 + [next.0], next.1)
  }

  lemma PrefixExtend<T>(a: seq<T>, b: seq<T>, m: nat)
    requires m < |a| <= |b| && b[..|a|] == a
    ensures a[..m] + [b[m]] == b[..m + 1]
  {
    assert b[..m] == a[..m];
  }

  /** After `n` draws the randomizer is valid and the draws are the first `n` refilled pieces. */
  lemma {:induction false} RunSpec(source: Source, n: nat)
    ensures Valid(Run(source, n).1) && Drawn(Run(source, n).1) == n
    ensures Run(source, n).0 == Pushed(source, Run(source, n).1.refills)[..n]
  {
    if n == 0 {
      NewState(source);
    } else {
      RunSpec(source, n - 1);
      RunStep(source, n);
    }
  }

  /** One more draw after `n - 1` draws that satisfy `RunSpec`. */
  lemma RunStep(source: Source, n: nat)
    requires n > 0
    requires Valid(Run(source, n - 1).1) && Drawn(Run(source, n - 1).1) == n - 1
    requires Run(source, n - 1).0 == Pushed(source, Run(source, n - 1).1.refills)[..n - 1]
    ensures Valid(Run(source, n).1) && Drawn(Run(source, n).1) == n
    ensures Run(source, n).0 == Pushed(source, Run(source, n).1.refills)[..n]
  {
    var prev := Run(source, n - 1);
    var next := NextF(prev.1);
    assert Run(source, n) == (prev.0 + [next.0], next.1);
    NextFair(prev.1);
    var before := Pushed(source, prev.1.refills);
    var after := Pushed(source, next.1.refills);
    PushedPrefix(source, prev.1.refills, next.1.refills);
    assert n - 1 < |before|;
    PrefixExtend(before, after, n - 1);
  }

  lemma {:induction false} ReverseMultiset<T>(s: seq<T>)
    ensures multiset(Reverse(s)) == multiset(s)
  {
    if |s| > 0 {
      ReverseMultiset(s[..|s| - 1]);
      assert s == s[..|s| - 1] + [s[|s| - 1]];
    }
  }

  /** Group `m` of seven pieces in drawing order is the reversed shuffle `m`. */
  lemma {:induction false} PushedGroup(source: Source, k: nat, m: nat)
    requires m < k
    ensures Pushed(source, k)[7 * m..7 * m + 7] == Reverse(source(m))
    decreases k
  {
    if m < k - 1 {
      PushedGroup(source, k - 1, m);
      assert Pushed(source, k)[..7 * (k - 1)] == Pushed(source, k - 1);
      assert Pushed(source, k)[7 * m..7 * m + 7] == Pushed(source, k)[..7 * (k - 1)][7 * m..7 * m + 7];
    } else {
      assert Pushed(source, k)[7 * m..] == Reverse(source(m));
    }
  }

  /**
    Each group of seven `next` results, counted from construction, is the
    reversed shuffle of its refill and so a permutation of the seven shapes.
  */
  lemma BagFairness(source: Source, n: nat, m: nat)
    requires BagSource(source) && 7 * (m + 1) <= n
    ensures Run(source, n).0[7 * m..7 * m + 7] == Reverse(source(m))
    ensures multiset(Run(source, n).0[7 * m..7 * m + 7]) == multiset(AllTypes)
  {
    DrawnGroup(source, n, m);
    ReverseMultiset(source(m));
    assert IsBag(source(m));
  }

  /** Group `m` of the first `n` draws is the reversed shuffle `m`. */
  lemma DrawnGroup(source: Source, n: nat, m: nat)
    requires 7 * (m + 1) <= n
    ensures Run(source, n).0[7 * m..7 * m + 7] == Reverse(source(m))
  {
    RunSpec(source, n);
    var draws := Run(source, n).0;
    var pushed := Pushed(source, Run(source, n).1.refills);
    assert draws[7 * m..7 * m + 7] == pushed[7 * m..7 * m + 7];
    PushedGroup(source, Run(source, n).1.refills, m);
  }

  /** Each shape occurs once in the unshuffled refill. */
  lemma AllTypesOnce(t: PieceType)
    ensures multiset(AllTypes)[t] == 1
  {
    match t
    case I => case O => case T => case S => case Z => case J => case L =>
  }

  /** A permutation of the seven shapes has no repeated shape. */
  lemma BagDistinct(b: seq<PieceType>)
    requires IsBag(b)
    ensures forall i, j :: 0 <= i < j < |b| ==> b[i] != b[j]
  {
    forall i, j | 0 <= i < j < |b|
      ensures b[i] != b[j]
    {
      if b[i] == b[j] {
        assert b == b[..j] + [b[j]] + b[j + 1..];
        assert b[..j][i] == b[i];
        AllTypesOnce(b[i]);
      }
    }
  }

  /** The bag of a valid randomizer never holds a shape twice. */
  lemma BagNoDuplicates(v: RandView)
    requires Valid(v) && BagSource(v.source)
    ensures forall i, j :: 0 <= i < j < |v.bag| ==> v.bag[i] != v.bag[j]
  {
    if v.refills > 0 {
      BagDistinct(v.source(v.refills - 1));
    }
  }

  // ---------------------------------------------------------------------
  // The randomizer object
  // ---------------------------------------------------------------------

  class BagRandomizer {
    var bag: seq<PieceType>
    var previewQueue: seq<PieceType>
    /** How many refills have been made; selects the next shuffle of `source`. */
    var refills: nat
    /** The shuffles, standing for the random generator. */
    const source: Source

    function Model(): RandView
      reads this
    {
      RandView(bag, previewQueue, refills, source)
    }

    /** `BagRandomizer::new`, drawing its shuffles from `source`. */
    constructor (source: Source)
      ensures Model() == NewF(source)
    {
      this.bag := [];
      this.previewQueue := [];
      this.refills := 0;
      this.source := source;
      new;
      RefillBag();
      ghost var v0 := Model();
      for i := 0 to PreviewSize
        invariant Model() == Steps(v0, i)
        invariant this.source == source
      {
        Push();
        StepsLast(v0, i);
      }
    }

    /** The refill-if-empty and push that both `new` and `next` perform. */
    method Push()
      modifies this
      ensures Model() == Step(old(Model()))
    {
      ghost var before := Model();
      if |bag| == 0 {
        RefillBag();
      }
      previewQueue := previewQueue + [bag[|bag| - 1]];
      bag := bag[..|bag| - 1];
      assert Model() == Step(before);
    }

    method RefillBag()
      modifies this
      ensures Model() == RefillF(old(Model()))
    {
      bag := source(refills);
      refills := refills + 1;
    }

    /** `next`: hands out the front of the preview and pushes the bag's next piece behind it. */
    method Next() returns (p: PieceType)
      requires |previewQueue| > 0
      modifies this
      ensures (p, Model()) == NextF(old(Model()))
    {
      p := previewQueue[0];
      previewQueue := previewQueue[1..];
      Push();
    }

    /** `peek(count)`. */
    function Peek(count: nat): (r: seq<PieceType>)
      reads this
      ensures r == PeekF(Model(), count)
    {
      previewQueue[..Min(count, |previewQueue|)]
    }

    /** A copy with the same bag, preview, refill count and shuffles. */
    method Clone() returns (c: BagRandomizer)
      ensures fresh(c) && c.Model() == Model()
    {
      c := new BagRandomizer.Copy(bag, previewQueue, refills, source);
    }

    constructor Copy(bag: seq<PieceType>, previewQueue: seq<PieceType>, refills: nat, source: Source)
      ensures Model() == RandView(bag, previewQueue, refills, source)
    {
      this.bag := bag;
      this.previewQueue := previewQueue;
      this.refills := refills;
      this.source := source;
    }
  }

  lemma {:induction false} StepsLast(v: RandView, n: nat)
    ensures Steps(v, n + 1) == Step(Steps(v, n))
    decreases n
  {
    if n > 0 {
      StepsLast(Step(v), n - 1);
    }
  }
}
