/** What a power loss takes of a run's log file is nothing of the run. */
module PowerLoss {
  import opened GraphModel
  import opened RunLog
  import opened Ideal
  import opened FileStore

  /** Records that are not synced when their Append returns hold no progress:
      without those at its end, a log restores the same run. */
  lemma {:induction false} UnsyncedHoldNoProgress(log: seq<Record>, k: nat)
    requires k <= |log| && forall j | k <= j < |log| :: !Durable(log[j])
    ensures Abs(log[..k]) == Abs(log)
    ensures var p, p' := ReplayLog(log[..k]), ReplayLog(log);
      && p'.state == p.state && p'.next == p.next && p'.step == p.step && p'.path == p.path && p'.steps == p.steps
      && p'.pending == p.pending && p'.answer == p.answer
  {
    hide Apply, Advance;
    if k == |log| {
      assert log[..k] == log;
    } else {
      var prev, r := log[..|log| - 1], log[|log| - 1];
      UnsyncedHoldNoProgress(prev, k);
      assert prev[..k] == log[..k] && log == prev + [r];
      AbsSnoc(prev, r);
      ReplaySnoc(prev, r);
      UnsyncedIsNoProgress(ReplayLog(prev), Abs(prev), r);
    }
  }

  lemma UnsyncedIsNoProgress(p: Replay, c: Config, r: Record)
    requires !Durable(r)
    ensures Advance(c, AsSeq(p.answer), r.body) == c
    ensures var p' := Apply(p, r);
      && p'.state == p.state && p'.next == p.next && p'.step == p.step && p'.path == p.path && p'.steps == p.steps
      && p'.pending == p.pending && p'.answer == p.answer
  {}

  /** NO PROGRESS LOST. Let the power fail after a durable record's Append has
      returned, when no record that came after is durable. Then the log that
      Load returns afterwards is a first part of the one before, and the run it
      restores is the same: state, next node, step, path, commits, question and
      answer. */
  lemma {:induction false} NoProgressIsLost(c: Codec, h: seq<Event>, i: nat, loss: Event)
    requires c.Lawful() && History(c, h) && Possible(c, DiskAfter(c, h), loss) && loss.PowerLoss? && DurableAt(h, i)
    requires History(c, h[..i]) && History(c, h[..i + 1]) && DiskAfter(c, h[..i + 1]).named
    requires var n, log := |Loaded(c, DiskAfter(c, h[..i]).bytes)|, Loaded(c, DiskAfter(c, h).bytes);
      forall j | n < j < |log| :: !Durable(log[j])
    ensures History(c, h + [loss])
    ensures var log, log' := Loaded(c, DiskAfter(c, h).bytes), Loaded(c, DiskAfter(c, h + [loss]).bytes);
      && log' <= log && Abs(log') == Abs(log)
      && var p, p' := ReplayLog(log'), ReplayLog(log);
         && p'.state == p.state && p'.next == p.next && p'.step == p.step && p'.path == p.path && p'.steps == p.steps
         && p'.pending == p.pending && p'.answer == p.answer
  {
    hide Codec.Lawful, Read, Good, Loaded, After, Possible, ReplayLog, Abs, Durable;
    var h' := h + [loss];
    assert h'[..|h|] == h && h'[..i] == h[..i] && h'[..i + 1] == h[..i + 1];
    HistoryIsSafe(c, h);
    DurableSurvives(c, h', i);
    var _ := EventIsSafe(c, DiskAfter(c, h), loss);
    var log, log' := Loaded(c, DiskAfter(c, h).bytes), Loaded(c, DiskAfter(c, h').bytes);
    assert log' == log[..|log'|];
    UnsyncedHoldNoProgress(log, |log'|);
  }
}
