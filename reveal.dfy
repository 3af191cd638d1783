/**
  The typing effect of the hero banner as a state machine: a counter over a fixed
  target string, the prefix it has revealed so far, and whether its interval is
  still live. `Next` is the body of the interval callback.
*/
module Reveal {

  /** The text the hero banner types out. */
  const FullText: string := "Backend-Focused Fullstack Developer"

  datatype Progress = Progress(count: nat, shown: string, running: bool)

  /** The state when the effect starts: nothing shown, interval live. */
  const Start: Progress := Progress(0, "", true)

  /**
    The reveal invariant: the counter stays within the text, exactly its prefix of
    that length is shown, and the interval is cleared only once the text is complete.
  */
  ghost predicate Inv(target: string, p: Progress)
  {
    && p.count <= |target|
    && p.shown == target[..p.count]
    && (!p.running ==> p.count == |target|)
  }

  /** One firing of the interval: reveal one more character, or clear the interval. */
  function Next(target: string, p: Progress): (q: Progress)
    ensures p.count < |target| ==> q.count == p.count + 1 && q.running == p.running
    ensures p.count >= |target| ==> q.count == p.count && q.shown == p.shown && !q.running
  {
    if p.count < |target| then Progress(p.count + 1, target[..p.count + 1], p.running)
    else p.(running := false)
  }

  /**
    The state after `n` firings: from a counter within the target, the counter has
    moved `n` steps, stopping at the target's length.
  */
  function Run(target: string, p: Progress, n: nat): (r: Progress)
    ensures p.count <= |target| ==>
      r.count == if p.count + n <= |target| then p.count + n else |target|
  {
    if n == 0 then p else Next(target, Run(target, p, n - 1))
  }

  lemma StartInv(target: string)
    ensures Inv(target, Start)
  {
  }

  /** Every firing keeps the invariant. */
  lemma NextInv(target: string, p: Progress)
    requires Inv(target, p)
    ensures Inv(target, Next(target, p))
  {
  }

  lemma {:induction false} RunInv(target: string, p: Progress, n: nat)
    requires Inv(target, p)
    ensures Inv(target, Run(target, p, n))
  {
    if n > 0 {
      RunInv(target, p, n - 1);
      NextInv(target, Run(target, p, n - 1));
    }
  }

  /** The text never shrinks and the counter never goes back: `shown` only grows by a prefix step. */
  lemma NextGrows(target: string, p: Progress)
    requires Inv(target, p)
    ensures Next(target, p).count >= p.count
    ensures p.shown <= Next(target, p).shown
  {
  }

  lemma {:induction false} RunGrows(target: string, p: Progress, m: nat, n: nat)
    requires Inv(target, p)
    requires m <= n
    ensures Run(target, p, m).count <= Run(target, p, n).count
    ensures Run(target, p, m).shown <= Run(target, p, n).shown
  {
    if m < n {
      RunGrows(target, p, m, n - 1);
      RunInv(target, p, n - 1);
      NextGrows(target, Run(target, p, n - 1));
    }
  }

  /** For the first `|target|` firings, firing `n` shows the first `n` characters. */
  lemma {:induction false} RunFromStart(target: string, n: nat)
    requires n <= |target|
    ensures Run(target, Start, n) == Progress(n, target[..n], true)
  {
    if n > 0 {
      RunFromStart(target, n - 1);
    }
  }

  /**
    After `|target|` firings the whole text is shown; the next firing clears the interval
    (for an empty target that is the first firing), and from then on nothing changes.
  */
  lemma RunCompletes(target: string, extra: nat)
    ensures Run(target, Start, |target|).shown == target
    ensures Run(target, Start, |target| + 1 + extra) == Progress(|target|, target, false)
  {
    RunFromStart(target, |target|);
    RunStopped(target, Run(target, Start, |target| + 1), extra);
    RunSplit(target, Start, |target| + 1, extra);
  }

  /** A cleared interval is a fixed point of the transition. */
  lemma {:induction false} RunStopped(target: string, p: Progress, n: nat)
    requires Inv(target, p) && !p.running
    ensures Run(target, p, n) == p
  {
    if n > 0 {
      RunStopped(target, p, n - 1);
    }
  }

  lemma {:induction false} RunSplit(target: string, p: Progress, m: nat, n: nat)
    ensures Run(target, p, m + n) == Run(target, Run(target, p, m), n)
  {
    if n > 0 {
      RunSplit(target, p, m, n - 1);
    }
  }

  /** The two-character example: "H", then "Hi", then the interval is cleared. */
  lemma TwoCharacterExample()
    ensures Run("Hi", Start, 1).shown == "H"
    ensures Run("Hi", Start, 2).shown == "Hi"
    ensures Run("Hi", Start, 3) == Progress(2, "Hi", false)
  {
    RunFromStart("Hi", 1);
    RunFromStart("Hi", 2);
  }
}
