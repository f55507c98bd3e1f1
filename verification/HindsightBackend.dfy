/**
 The Hindsight backend as it changes its files: each method is one critical
 section, proved to be the corresponding step of the shared store, and `Retain`
 strings them together with the POST outcome left open.
 */
module HindsightBackend {
  import opened RetainBuffer
  import opened HindsightSpool

  class HindsightBackend {
    var spool: seq<Line>
    var dead: seq<Document>
    var accepted: seq<Document>  // what the server has taken
    var pass: Pass

    ghost function State(): Store
      reads this
    {
      Store(spool, dead, accepted, pass)
    }

    constructor (spool: seq<Line>)
      ensures State() == Store(spool, [], [], Idle)
    {
      this.spool, dead, accepted, pass := spool, [], [], Idle;
    }

    /** Splits items into postable and rejected ones; the rejected ones are dead-lettered. */
    method PartitionItems(items: seq<Document>) returns (valid: seq<Document>, rejected: seq<Document>)
      modifies this`dead
      ensures valid == Sift(items, true) && rejected == Sift(items, false)
      ensures dead == old(dead) + rejected
    {
      valid, rejected := [], [];
      for k := 0 to |items|
        invariant valid == Sift(items[..k], true) && rejected == Sift(items[..k], false)
        invariant dead == old(dead) + rejected
      {
        assert items[..k + 1][..k] == items[..k];
        if Postable(items[k]) {
          valid := valid + [items[k]];
        } else {
          rejected := rejected + [items[k]];
          dead := dead + [items[k]];
        }
      }
      assert items[..|items|] == items;
    }

    method AppendSpool(items: seq<Document>)
      modifies this`spool
      ensures State() == Spool(old(State()), items)
    {
      spool := spool + Lines(items);
    }

    /** Dead-letters the unpostable items of a batch and collects the indices of the others. */
    method SiftBatch(lines: seq<Line>, lo: nat, hi: nat) returns (good: seq<nat>, bad: seq<nat>)
      requires lo <= hi <= |lines|
      modifies this`dead
      ensures good == Indices(lines, lo, hi, true) && bad == Indices(lines, lo, hi, false)
      ensures dead == old(dead) + DocsAt(lines, bad)
    {
      good, bad := [], [];
      for k := lo to hi
        invariant good == Indices(lines, lo, k, true) && bad == Indices(lines, lo, k, false)
        invariant dead == old(dead) + DocsAt(lines, bad)
      {
        if lines[k].Item? {
          if Postable(lines[k].doc) {
            good := good + [k];
          } else {
            DocsAtPush(lines, bad, k);
            bad := bad + [k];
            dead := dead + [lines[k].doc];
          }
        }
      }
    }

    method PostNextBatch(outcome: Outcome)
      requires Inv(State()) && CanPost(State())
      modifies this
      ensures State() == PostBatch(old(State()), outcome)
      ensures var start := old(State());
              var end := if start.pass.next + 20 < |start.pass.snapshot| then start.pass.next + 20
                         else |start.pass.snapshot|;
              DeliveredBy(start, State(), outcome, Sift(NextItems(start), false), Sift(NextItems(start), true), end)
    {
      PostBatchDelivers(State(), outcome);
      var lines, lo, hi := pass.snapshot, pass.next, BatchEnd(pass);
      var good, bad := SiftBatch(lines, lo, hi);
      var flushed := pass.flushed + SetOf(bad);
      if good == [] {
        pass := Posting(lines, hi, flushed);
      } else {
        match outcome {
          case Accept =>
            accepted := accepted + DocsAt(lines, good);
            pass := Posting(lines, hi, flushed + SetOf(good));
          case Reject =>
            dead := dead + DocsAt(lines, good);
            pass := Posting(lines, hi, flushed + SetOf(good));
          case Transient =>
            pass := Posting(lines, |lines|, flushed);
        }
      }
    }

    /** Rewrites the file without the flushed lines; with nothing flushed it is left alone. */
    method RewriteSpool()
      requires Inv(State()) && pass.Posting?
      modifies this`spool, this`pass
      ensures State() == Finish(old(State()))
    {
      if pass.flushed != {} {
        var current, remaining := spool, [];
        for k := 0 to |current|
          invariant remaining == Keep(current[..k], pass.flushed)
        {
          assert current[..k + 1][..k] == current[..k];
          if k !in pass.flushed {
            remaining := remaining + [current[k]];
          }
        }
        assert current[..|current|] == current;
        spool := remaining;
      } else {
        KeepAll(spool);
      }
      pass := Idle;
    }

    /**
     A whole flush pass with nobody interfering. `healthy` is the answer of the health
     check; an unhealthy server or a pass that is under way leaves everything as it is.
     */
    method FlushSpool(healthy: bool, outcomes: Outcomes)
      requires Inv(State())
      modifies this
      ensures Inv(State()) && Conserves(old(State()), State())
      ensures old(pass).Idle? ==> pass.Idle?
      ensures old(accepted) <= accepted && old(dead) <= dead
      ensures !healthy || !old(pass).Idle? ==> State() == old(State())
      ensures healthy && old(pass).Idle? && (forall n :: outcomes(n) != Transient) ==>
                spool == MalformedLines(old(spool))
      ensures healthy && old(pass).Idle? && (forall n :: outcomes(n) == Accept) ==>
                && accepted == old(accepted) + Sift(ItemsOf(old(spool)), true)
                && dead == old(dead) + Sift(ItemsOf(old(spool)), false)
      ensures (forall n :: outcomes(n) != Accept) ==> accepted == old(accepted)
    {
      if spool == [] || !healthy || !pass.Idle? {
        return;
      }
      pass := Posting(spool, 0, {});
      PostAll(outcomes);
      PassConserves(State(), Accept);
      if forall n :: outcomes(n) != Transient { KeepMalformed(spool, pass.flushed); }
      assert pass.snapshot[..|pass.snapshot|] == pass.snapshot;
      RewriteSpool();
    }

    /** The batches of a pass, up to the end or the first transient failure. */
    method PostAll(outcomes: Outcomes)
      requires Inv(State()) && pass.Posting? && pass.next == 0
      modifies this
      ensures PassSoFar(old(State()), State(), outcomes) && pass.next == |pass.snapshot|
      ensures Conserves(old(State()), State())
    {
      while pass.next < |pass.snapshot|
        invariant PassSoFar(old(State()), State(), outcomes) && Conserves(old(State()), State())
        decreases |pass.snapshot| - pass.next
      {
        PassConserves(State(), outcomes(pass.next));
        PassGoesOn(old(State()), State(), outcomes);
        PostNextBatch(outcomes(pass.next));
      }
    }

    /** Every item handed to `retain` ends in the spool, at the server or in the dead letters. */
    method Retain(items: seq<Document>, healthy: bool, outcomes: Outcomes)
      requires Inv(State())
      modifies this
      ensures Inv(State())
      ensures forall w: Weight :: Held(State(), w) == Held(old(State()), w) + HeldDocs(items, w)
      ensures old(accepted) <= accepted && old(dead) + Sift(items, false) <= dead
      ensures !healthy || !old(pass).Idle? ==>
                && spool == old(spool) + Lines(Sift(items, true))
                && dead == old(dead) + Sift(items, false) && accepted == old(accepted)
    {
      if items == [] {
        assert spool + Lines([]) == spool;
        return;
      }
      ghost var start := State();
      var valid, rejected := PartitionItems(items);
      ghost var mid := State();
      if valid != [] {
        AppendSpool(valid);
      } else {
        assert spool + Lines([]) == spool;
      }
      forall w: Weight ensures Held(State(), w) == Held(start, w) + HeldDocs(items, w) {
        SiftHeld(items, w);
        HeldDocsConcat(start.dead, rejected, w);
        SpoolConserves(mid, valid, w);
      }
      FlushSpool(healthy, outcomes);
    }
  }

  lemma {:induction false} KeepAll(lines: seq<Line>)
    ensures Keep(lines, {}) == lines
  {
    if lines == [] {
    } else {
      KeepAll(lines[..|lines| - 1]);
    }
  }
}
