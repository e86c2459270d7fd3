/** The rate limit validator: one tracker per account slot, changed in place. */
module RateLimitValidators {
  import opened Domain
  import opened RateLimits

  class RateLimitValidator {
    const trackers: array<Tracker>

    ghost predicate Valid()
      reads trackers
    {
      AllFormed(trackers[..])
    }

    constructor ()
      ensures Valid() && fresh(trackers) && trackers[..] == FreshTrackers()
    {
      trackers := new Tracker[MAX_ACCOUNTS](_ => FRESH);
    }

    /** Accept or refuse a message; `EveryRunAgrees` says which. */
    method Check(account: u32, now: u64, limit: u32) returns (accepted: bool)
      requires Valid()
      modifies trackers
      ensures Valid() && (accepted, trackers[..]) == CheckRate(old(trackers[..]), Call(account, now, limit))
    {
      if limit == 0 {
        return true;
      }
      var slot := Slot(account);
      var tr := trackers[slot];
      assert tr == trackers[..][slot];
      if tr.count < limit {
        tr := tr.(timestamps := tr.timestamps[tr.index := now]);
        tr := tr.(index := (tr.index + 1) % WINDOW_SIZE);
        tr := tr.(count := tr.count + 1);
        trackers[slot] := tr;
        return true;
      }
      var oldest := tr.timestamps[OldestSlot(tr.index, limit)];
      if Wrap64(now - oldest) < SECOND {
        assert trackers[..] == trackers[..][slot := tr];
        return false;
      }
      tr := tr.(timestamps := tr.timestamps[tr.index := now]);
      tr := tr.(index := (tr.index + 1) % WINDOW_SIZE);
      trackers[slot] := tr;
      return true;
    }

    /** Back to no acceptances anywhere, where the limiter follows the reference again. */
    method Reset()
      requires Valid()
      modifies trackers
      ensures Valid() && Follows(trackers[..], NoHistories(), 0)
    {
      for a := 0 to trackers.Length
        invariant trackers.Length == MAX_ACCOUNTS && forall i :: 0 <= i < a ==> trackers[i] == FRESH
      {
        trackers[a] := trackers[a].(index := 0, count := 0);
        var cleared: seq<u64> := [];
        for i := 0 to WINDOW_SIZE
          invariant |cleared| == i && forall j :: 0 <= j < i ==> cleared[j] == 0
        {
          cleared := cleared + [0];
        }
        assert cleared == seq(WINDOW_SIZE, _ => 0);
        trackers[a] := trackers[a].(timestamps := cleared);
      }
      assert trackers[..] == FreshTrackers();
      ResetFollows();
    }
  }
}
