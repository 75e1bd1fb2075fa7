/** The batched drain of the viewer's chunk queue (processBufferedChunks and doBatch
    in point-cloud-viewer.ts), for any insert `step`: a state `S`, items `C`, and a
    step that gives the next state and whether the insert finished without
    throwing. PointCloudViewerModel instantiates it with insertChunkIntoPool on the
    pools as values. */
module Drain {
  import opened Common

  /** The items inserted one after the other from `s`, and whether every insert
      finished without throwing. */
  function Run<S, C>(step: (S, C) -> (S, bool), s: S, cs: seq<C>): (S, bool)
    decreases |cs|
  {
    if |cs| == 0 then (s, true)
    else
      var p := Run(step, s, cs[..|cs| - 1]);
      var o := step(p.0, cs[|cs| - 1]);
      (o.0, p.1 && o.1)
  }

  /** One more item after a run of inserts. */
  lemma RunSnoc<S, C>(step: (S, C) -> (S, bool), s: S, cs: seq<C>, c: C)
    ensures var p := Run(step, s, cs);
      var o := step(p.0, c);
      Run(step, s, cs + [c]) == (o.0, p.1 && o.1)
  {
    assert (cs + [c])[..|cs|] == cs;
  }

  /** Inserting `a + b` is inserting `a`, then `b` on what `a` left. */
  lemma {:induction false} RunAppend<S, C>(step: (S, C) -> (S, bool), s: S, a: seq<C>, b: seq<C>)
    ensures var ra := Run(step, s, a);
      var rb := Run(step, ra.0, b);
      Run(step, s, a + b) == (rb.0, ra.1 && rb.1)
    decreases |b|
  {
    if |b| == 0 {
      assert a + b == a;
    } else {
      var b' := b[..|b| - 1];
      var c := b[|b| - 1];
      assert b == b' + [c];
      assert a + b == (a + b') + [c];
      RunAppend(step, s, a, b');
      RunSnoc(step, s, a + b', c);
      RunSnoc(step, Run(step, s, a).0, b', c);
    }
  }

  /** Inserting `cs` from `s` went as a drain goes: when it `failed`, every insert but
      the last finished and the last one threw; otherwise every insert finished. */
  predicate StoppedAt<S, C>(step: (S, C) -> (S, bool), s: S, cs: seq<C>, failed: bool) {
    if failed then
      && |cs| > 0
      && var p := Run(step, s, cs[..|cs| - 1]);
      && p.1 && !step(p.0, cs[|cs| - 1]).1
    else Run(step, s, cs).1
  }

  /** Inserts that all finished, followed by a run that stopped. */
  lemma StoppedAfter<S, C>(step: (S, C) -> (S, bool), s: S, a: seq<C>, b: seq<C>, failed: bool)
    requires StoppedAt(step, s, a, false) && StoppedAt(step, Run(step, s, a).0, b, failed)
    ensures StoppedAt(step, s, a + b, failed)
  {
    if failed {
      DropLastOfAppend(a, b);
      RunAppend(step, s, a, b[..|b| - 1]);
    } else {
      RunAppend(step, s, a, b);
    }
  }

  /** Inserts that finished, then one that threw. */
  lemma StoppedLast<S, C>(step: (S, C) -> (S, bool), s: S, cs: seq<C>, j: nat)
    requires j < |cs|
    requires var p := Run(step, s, cs[..j]); p.1 && !step(p.0, cs[j]).1
    ensures StoppedAt(step, s, cs[..j + 1], true)
  {
    var done := cs[..j + 1];
    TakeOfTake(cs, j + 1, j);
    assert done[..|done| - 1] == cs[..j] && done[|done| - 1] == cs[j];
  }

  /** Where the batch of four that holds the `n`th item of a drain ends. */
  function BatchEnd(n: nat): (e: nat)
    ensures n <= e < n + 4 && e % 4 == 0
  {
    (n + 3) / 4 * 4
  }

  /** The batch holding the `k`th item after a whole number of batches of four ends
      with that batch. */
  lemma BatchEndAfter(d: nat, k: nat)
    requires d % 4 == 0 && 1 <= k <= 4
    ensures BatchEnd(d + k) == d + 4
  {
    assert (d + k + 3) / 4 == d / 4 + 1;
  }

  /** One doBatch on queue `q`, insert log `ins` and state `s`: the first min(4, |q|)
      items left the queue and a prefix of them was inserted in order; the batch
      `failed` exactly when its last insert threw, and otherwise all of it was
      inserted. */
  ghost predicate BatchStep<S, C>(step: (S, C) -> (S, bool), q: seq<C>, ins: seq<C>, s: S,
                                  q': seq<C>, ins': seq<C>, s': S, failed: bool) {
    var b := Min(4, |q|);
    var k := |ins'| - |ins|;
    && q' == q[b..]
    && 0 <= k <= b
    && ins' == ins + q[..k]
    && s' == Run(step, s, q[..k]).0
    && StoppedAt(step, s, q[..k], failed)
    && (!failed ==> k == b)
  }

  /** A drain from `q0`, `ins0`, `s0` that has not failed: whole batches of four left
      the queue, and exactly those items were inserted, each without throwing. */
  ghost predicate Progress<S, C>(step: (S, C) -> (S, bool), q0: seq<C>, ins0: seq<C>, s0: S,
                                 q: seq<C>, ins: seq<C>, s: S) {
    var d := |q0| - |q|;
    && 0 <= d && d % 4 == 0
    && q == q0[d..] && ins == ins0 + q0[..d]
    && s == Run(step, s0, q0[..d]).0
    && StoppedAt(step, s0, q0[..d], false)
  }

  /** A finished drain from `q0`, `ins0`, `s0`: a prefix of the queue was inserted in
      order and the state is what those inserts make of `s0`. It `failed` exactly
      when the last of them threw; the rest of that batch of four is lost and the
      queue keeps what follows it. Otherwise the whole queue was inserted. */
  ghost predicate Drained<S, C>(step: (S, C) -> (S, bool), q0: seq<C>, ins0: seq<C>, s0: S,
                                q: seq<C>, ins: seq<C>, s: S, failed: bool) {
    var n := |ins| - |ins0|;
    && 0 <= n <= |q0| && ins == ins0 + q0[..n]
    && |q| <= |q0| && q == q0[|q0| - |q|..]
    && |q0| - |q| == (if failed then Min(BatchEnd(n), |q0|) else n)
    && s == Run(step, s0, q0[..n]).0
    && StoppedAt(step, s0, q0[..n], failed)
    && (!failed ==> q == [])
  }

  /** A batch of `q` whose first `k` items were inserted, with those outcomes. */
  lemma BatchDone<S, C>(step: (S, C) -> (S, bool), q: seq<C>, ins: seq<C>, s: S, k: nat, failed: bool)
    requires k <= Min(4, |q|)
    requires StoppedAt(step, s, q[..Min(4, |q|)][..k], failed)
    requires !failed ==> k == Min(4, |q|)
    ensures BatchStep(step, q, ins, s, q[Min(4, |q|)..], ins + q[..Min(4, |q|)][..k],
                      Run(step, s, q[..Min(4, |q|)][..k]).0, failed)
  {
    assert q[..Min(4, |q|)][..k] == q[..k];
  }

  /** A drain of an empty queue inserts nothing. */
  lemma NothingToDrain<S, C>(step: (S, C) -> (S, bool), q0: seq<C>, ins0: seq<C>, s0: S)
    requires q0 == []
    ensures Drained(step, q0, ins0, s0, q0, ins0, s0, false)
  {
    assert ins0 + q0[..0] == ins0;
  }

  /** A drain starts in step. */
  lemma ProgressStart<S, C>(step: (S, C) -> (S, bool), q0: seq<C>, ins0: seq<C>, s0: S)
    ensures Progress(step, q0, ins0, s0, q0, ins0, s0)
  {
    assert q0[0..] == q0;
    assert ins0 + q0[..0] == ins0;
  }

  /** A batch keeps a running drain in step, and the batch that ends it (by emptying
      the queue or by throwing) leaves it drained. */
  lemma DrainStep<S, C>(step: (S, C) -> (S, bool), q0: seq<C>, ins0: seq<C>, s0: S,
                        q: seq<C>, ins: seq<C>, s: S,
                        q': seq<C>, ins': seq<C>, s': S, failed: bool)
    requires Progress(step, q0, ins0, s0, q, ins, s) && BatchStep(step, q, ins, s, q', ins', s', failed)
    ensures !failed && q' != [] ==> Progress(step, q0, ins0, s0, q', ins', s')
    ensures failed || q' == [] ==> Drained(step, q0, ins0, s0, q', ins', s', failed)
  {
    var b := Min(4, |q|);
    var k := |ins'| - |ins|;
    var d := |q0| - |q|;
    assert failed ==> k >= 1;
    DrainCounts(|q0|, |q|, |q'|, k, failed);
    SuffixSlices(q0, d, k, b);
    assert q0[..d] + q[..k] == q0[..d + k];
    AppendAssoc(ins0, q0[..d], q[..k]);
    DrainRun(step, s0, q0[..d], s, q[..k], s', failed);
  }

  /** The counts of a drain step: `n0` items queued at the start, `m` before the
      batch and `m'` after it, `k` of them inserted by it. */
  lemma DrainCounts(n0: nat, m: nat, m': nat, k: nat, failed: bool)
    requires m <= n0 && (n0 - m) % 4 == 0 && m' == m - Min(4, m) && k <= Min(4, m)
    requires !failed ==> k == Min(4, m)
    requires failed ==> k >= 1
    ensures !failed ==> n0 - m' == n0 - m + k
    ensures !failed && m' != 0 ==> (n0 - m') % 4 == 0
    ensures failed ==> n0 - m' == Min(BatchEnd(n0 - m + k), n0)
  {
    if failed {
      BatchEndAfter(n0 - m, k);
    }
  }

  /** A run of finished inserts, then a batch that went as `failed` says. */
  lemma DrainRun<S, C>(step: (S, C) -> (S, bool), s0: S, a: seq<C>, s: S, c: seq<C>, s': S, failed: bool)
    requires s == Run(step, s0, a).0 && StoppedAt(step, s0, a, false)
    requires s' == Run(step, s, c).0 && StoppedAt(step, s, c, failed)
    ensures s' == Run(step, s0, a + c).0 && StoppedAt(step, s0, a + c, failed)
  {
    RunAppend(step, s0, a, c);
    StoppedAfter(step, s0, a, c, failed);
  }
}
