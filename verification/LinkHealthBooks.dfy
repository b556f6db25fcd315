/** The meter as it runs: an array of reused buckets, updated in place. */
module LinkHealthBooks {
  import opened Wrappers
  import opened LinkHealthMeter

  class LinkHealthBooks {
    var buckets: array<Bucket>
    var lastEpisode: Option<Episode>
    var highWaterOrdinal: nat
    var epochFirstEvent: Option<nat>
    var sessionStallCount: nat
    var sessionWorst: real

    ghost predicate Valid()
      reads this, buckets
    {
      buckets.Length == BUCKETS
    }

    ghost function State(): Meter
      reads this, buckets
    {
      Meter(buckets[..], lastEpisode, highWaterOrdinal, epochFirstEvent, sessionStallCount, sessionWorst)
    }

    constructor ()
      ensures Valid() && fresh(buckets) && State() == Fresh
    {
      buckets := new Bucket[BUCKETS](_ => Bucket(None, Nothing()));
      lastEpisode, highWaterOrdinal, epochFirstEvent := None, 0, None;
      sessionStallCount, sessionWorst := 0, 0.0;
      new;
      assert buckets[..] == EmptyBuckets();
    }

    method IncrementBucket(e: Episode)
      requires Valid()
      modifies buckets
      ensures Valid() && buckets[..] == Increment(old(buckets[..]), e)
    {
      var index := e.second % BUCKETS;
      if buckets[index].second != Some(e.second) {
        buckets[index] := Bucket(Some(e.second), Nothing());
      }
      buckets[index] := buckets[index].(tally := Add(buckets[index].tally, TallyOf(e)));
    }

    method UpdateEpisodePeak(e: Episode, worst: real, stage: Outcome)
      requires Valid()
      modifies buckets
      ensures Valid() && buckets[..] == UpdatePeak(old(buckets[..]), e, worst, stage)
    {
      var index := e.second % BUCKETS;
      if buckets[index].second != Some(e.second) { return; }
      var t := buckets[index].tally;
      t := t.(worst := Max(t.worst, worst));
      if e.stage != stage {
        if e.stage == Renderer {
          t := t.(renderers := t.renderers - 1, misses := t.misses + 1);
        } else {
          t := t.(misses := t.misses - 1, renderers := t.renderers + 1);
        }
      }
      buckets[index] := buckets[index].(tally := t);
    }

    method JoinLastEpisode(f: Frame)
      requires Valid() && Joins(lastEpisode, f)
      modifies this`lastEpisode, this`sessionWorst, buckets
      ensures Valid() && State() == Fail(old(State()), f)
    {
      var last := lastEpisode.value;
      if Severity(f) > last.worst {
        UpdateEpisodePeak(last, Severity(f), f.outcome);
      }
      lastEpisode := Some(Extended(last, f));
      sessionWorst := Max(sessionWorst, Severity(f));
    }

    method StartEpisode(e: Episode)
      requires Valid()
      modifies this`lastEpisode, this`sessionStallCount, this`sessionWorst, buckets
      ensures Valid() && buckets[..] == Increment(old(buckets[..]), e)
      ensures lastEpisode == Some(e) && sessionStallCount == old(sessionStallCount) + 1
      ensures sessionWorst == Max(old(sessionWorst), e.worst)
    {
      IncrementBucket(e);
      lastEpisode := Some(e);
      sessionStallCount := sessionStallCount + 1;
      sessionWorst := Max(sessionWorst, e.worst);
    }

    /** Feed one recorded frame; an ordinal at or below the high water is old news. */
    method ObserveFrame(f: Frame)
      requires Valid()
      modifies this, buckets
      ensures Valid() && buckets == old(buckets) && State() == Observe(old(State()), f)
    {
      if f.ordinal <= highWaterOrdinal { return; }
      ghost var before := State();
      highWaterOrdinal := f.ordinal;
      var start := if epochFirstEvent.Some? then epochFirstEvent.value else f.at;
      epochFirstEvent := Some(start);
      if f.at < start || f.at - start < WARMUP || f.outcome == Preserved { return; }
      assert State() == Noted(before, f);
      if lastEpisode.Some? && f.at >= lastEpisode.value.tail && f.at - lastEpisode.value.tail <= COALESCE {
        JoinLastEpisode(f);
      } else {
        StartEpisode(Started(f));
      }
    }

    method ResetEpochKeepingSessionBooks()
      requires Valid()
      modifies this
      ensures Valid() && fresh(buckets) && State() == ResetEpoch(old(State()))
    {
      buckets := new Bucket[BUCKETS](_ => Bucket(None, Nothing()));
      lastEpisode, epochFirstEvent, highWaterOrdinal := None, None, 0;
      assert buckets[..] == EmptyBuckets();
    }

    method ResetSessionBooks()
      requires Valid()
      modifies this
      ensures Valid() && fresh(buckets) && State() == ResetSession(old(State()))
    {
      ResetEpochKeepingSessionBooks();
      sessionStallCount, sessionWorst := 0, 0.0;
    }

    /** Adds up the current second's bucket and the 59 before it. */
    method Assess(now: nat) returns (level: Level, tally: Tally, dominant: Option<Outcome>)
      requires Valid()
      ensures tally == WindowTally(buckets[..], now / SECOND)
      ensures level == LevelOf(tally) && dominant == DominantOf(tally)
    {
      var nowSecond := now / SECOND;
      tally := Nothing();
      var i := 0;
      while i < buckets.Length
        invariant 0 <= i <= buckets.Length
        invariant tally == WindowTally(buckets[..i], nowSecond)
      {
        assert buckets[..i + 1][..i] == buckets[..i];
        var b := buckets[i];
        if b.second.Some? && b.second.value <= nowSecond && nowSecond - b.second.value < BUCKETS {
          tally := Add(tally, b.tally);
        }
        i := i + 1;
      }
      assert buckets[..i] == buckets[..];
      level, dominant := LevelOf(tally), DominantOf(tally);
    }
  }
}
