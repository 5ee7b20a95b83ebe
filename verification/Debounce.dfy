/** What debouncing means, stated on histories only.

    A history is the merged sequence of handled file events and started
    reloads.  `Disciplined` is the guarantee for arbitrary scheduling delays;
    `Prompt` is the stronger guarantee when every expired timer is served
    before time moves on, and it pins the reload times to an offline
    computation over the event times. */
module Debounce {
  import opened Basics

  datatype Entry = Handled(at: nat) | Reload(at: nat)

  predicate IsHandled(e: Entry) { e.Handled? }
  predicate IsReload(e: Entry) { e.Reload? }

  /** Times never go back, and each reload answers the event directly before it, at least `d` later. */
  ghost predicate Disciplined(log: seq<Entry>, d: nat) {
    && (forall i, j | 0 <= i < j < |log| :: log[i].at <= log[j].at)
    && (forall i | 0 <= i < |log| && log[i].Reload? ::
          i > 0 && log[i - 1].Handled? && log[i].at >= log[i - 1].at + d)
  }

  /** No reload is outstanding: nothing was handled yet, or the last entry is a reload. */
  predicate Settled(log: seq<Entry>) {
    log == [] || log[|log| - 1].Reload?
  }

  /** Each reload needs a handled event of its own; one event may still wait for its reload. */
  lemma {:induction false} ReloadsNeverExceedEvents(log: seq<Entry>, d: nat)
    requires Disciplined(log, d)
    ensures Count(log, IsReload) <= Count(log, IsHandled)
    ensures !Settled(log) ==> Count(log, IsReload) < Count(log, IsHandled)
  {
    if log != [] {
      var front := log[..|log| - 1];
      assert Disciplined(front, d) by {
        assert forall i | 0 <= i < |front| :: front[i] == log[i];
      }
      ReloadsNeverExceedEvents(front, d);
    }
  }

  /** Any two reloads are at least one debounce apart. */
  lemma ReloadsAreSpaced(log: seq<Entry>, d: nat, i: nat, j: nat)
    requires Disciplined(log, d)
    requires i < j < |log| && log[i].Reload? && log[j].Reload?
    ensures log[j].at >= log[i].at + d
  {
    assert log[j - 1].Handled?;
    assert i < j - 1;
    assert log[i].at <= log[j - 1].at;
  }

  /** A reload waits a whole debounce after every event handled before it. */
  lemma ReloadFollowsQuiet(log: seq<Entry>, d: nat, i: nat, j: nat)
    requires Disciplined(log, d)
    requires i < j < |log| && log[i].Handled? && log[j].Reload?
    ensures log[j].at >= log[i].at + d
  {
    if i < j - 1 {
      assert log[i].at <= log[j - 1].at;
    }
  }

  /** How a disciplined history may grow. */
  lemma DisciplinedAppend(log: seq<Entry>, e: Entry, d: nat)
    requires Disciplined(log, d)
    requires log != [] ==> log[|log| - 1].at <= e.at
    requires e.Reload? ==> !Settled(log) && e.at >= log[|log| - 1].at + d
    ensures Disciplined(log + [e], d)
  {
    var all := log + [e];
    forall i, j | 0 <= i < j < |all| ensures all[i].at <= all[j].at {
      if j == |log| && i < |log| - 1 {
        assert log[i].at <= log[|log| - 1].at;
      }
    }
  }

  // ----- prompt firing -----

  /** Every reload starts exactly when its debounce ends, and an event is only
      handled while the debounce of the previous one is still running. */
  ghost predicate Prompt(log: seq<Entry>, d: nat) {
    && Disciplined(log, d)
    && (forall i | 0 < i < |log| && log[i].Reload? :: log[i].at == log[i - 1].at + d)
    && (forall i | 0 < i < |log| && log[i].Handled? && log[i - 1].Handled? :: log[i].at < log[i - 1].at + d)
  }

  lemma PromptAppend(log: seq<Entry>, e: Entry, d: nat)
    requires Prompt(log, d)
    requires log != [] ==> log[|log| - 1].at <= e.at
    requires e.Reload? ==> !Settled(log) && e.at == log[|log| - 1].at + d
    requires e.Handled? && !Settled(log) ==> e.at < log[|log| - 1].at + d
    ensures Prompt(log + [e], d)
  {
    DisciplinedAppend(log, e, d);
    var all := log + [e];
    assert forall i | 0 <= i < |log| :: all[i] == log[i];
  }

  function EventTimes(log: seq<Entry>): seq<nat> {
    if log == [] then []
    else
      var e := log[|log| - 1];
      EventTimes(log[..|log| - 1]) + (if e.Handled? then [e.at] else [])
  }

  function ReloadTimes(log: seq<Entry>): seq<nat> {
    if log == [] then []
    else
      var e := log[|log| - 1];
      ReloadTimes(log[..|log| - 1]) + (if e.Reload? then [e.at] else [])
  }

  /** Event `i` closes a maximal burst: it is the last one or the next comes a full debounce later. */
  predicate ClosesBurst(ts: seq<nat>, d: nat, i: nat)
    requires i < |ts|
  {
    i == |ts| - 1 || ts[i + 1] >= ts[i] + d
  }

  /** The offline computation: one reload per maximal burst, `d` after its closing event. */
  function BurstReloads(ts: seq<nat>, d: nat, n: nat): seq<nat>
    requires n <= |ts|
  {
    if n == 0 then []
    else BurstReloads(ts, d, n - 1) + (if ClosesBurst(ts, d, n - 1) then [ts[n - 1] + d] else [])
  }

  /** Bursts that are closed inside a prefix do not depend on what follows it. */
  lemma {:induction false} BurstReloadsPrefix(ts: seq<nat>, t: nat, d: nat, n: nat)
    requires n < |ts|
    ensures BurstReloads(ts + [t], d, n) == BurstReloads(ts, d, n)
  {
    if n > 0 {
      BurstReloadsPrefix(ts, t, d, n - 1);
    }
  }

  /** A new event either extends the open burst or closes it and opens the next one. */
  lemma BurstReloadsAppend(ts: seq<nat>, t: nat, d: nat)
    requires ts != []
    ensures var last := ts[|ts| - 1]; var before := BurstReloads(ts, d, |ts| - 1);
      && BurstReloads(ts, d, |ts|) == before + [last + d]
      && BurstReloads(ts + [t], d, |ts| + 1) == (if t >= last + d then before + [last + d] else before) + [t + d]
  {
    var n := |ts|;
    var all := ts + [t];
    BurstReloadsPrefix(ts, t, d, n - 1);
    assert all[n - 1] == ts[n - 1] && all[n] == t;
    assert BurstReloads(all, d, n + 1) == BurstReloads(all, d, n) + [t + d];
    assert BurstReloads(all, d, n) ==
      BurstReloads(all, d, n - 1) + (if ClosesBurst(all, d, n - 1) then [all[n - 1] + d] else []);
  }

  /** The last event of a non-empty disciplined history is its last entry or the one before. */
  lemma LastEventTime(log: seq<Entry>, d: nat)
    requires log != [] && Disciplined(log, d)
    ensures var ts := EventTimes(log); var k := |log| - 1;
      ts != [] && ts[|ts| - 1] == if log[k].Handled? then log[k].at else log[k - 1].at
  {
    var k := |log| - 1;
    if log[k].Reload? {
      assert EventTimes(log) == EventTimes(log[..k]);
      assert log[..k][k - 1] == log[k - 1];
    }
  }

  /** The reload times the offline computation predicts for a history so far. */
  function Predicted(log: seq<Entry>, d: nat): seq<nat> {
    if Settled(log) then ReloadTimes(log) else ReloadTimes(log) + [log[|log| - 1].at + d]
  }

  lemma PromptPrefix(log: seq<Entry>, d: nat)
    requires log != [] && Prompt(log, d)
    ensures Prompt(log[..|log| - 1], d)
  {
    var front := log[..|log| - 1];
    assert forall i | 0 <= i < |front| :: front[i] == log[i];
  }

  /** How one more handled event changes the prediction. */
  lemma AppendPredicted(log: seq<Entry>, d: nat)
    requires |log| > 1 && Prompt(log, d) && log[|log| - 1].Handled?
    ensures var k := |log| - 1; var front := log[..k]; var ts := EventTimes(front);
      && ts != []
      && var last := ts[|ts| - 1];
         && (Settled(front) <==> log[k].at >= last + d)
         && (!Settled(front) ==> Predicted(front, d) == ReloadTimes(front) + [last + d])
         && Predicted(log, d) == ReloadTimes(front) + [log[k].at + d]
  {
    var k := |log| - 1;
    PromptPrefix(log, d);
    LastEventTime(log[..k], d);
    assert log[..k][k - 1] == log[k - 1];
    if log[k - 1].Reload? {
      assert log[..k][k - 2] == log[k - 2];
      assert log[k - 1].at <= log[k].at;
    }
  }

  /** An event after a non-empty history keeps the agreement with the offline computation. */
  lemma AgreementAfterEvent(log: seq<Entry>, d: nat)
    requires |log| > 1 && Prompt(log, d) && log[|log| - 1].Handled?
    requires var front := log[..|log| - 1];
      BurstReloads(EventTimes(front), d, |EventTimes(front)|) == Predicted(front, d)
    ensures BurstReloads(EventTimes(log), d, |EventTimes(log)|) == Predicted(log, d)
  {
    var k := |log| - 1;
    var front, t := log[..k], log[k].at;
    var ts := EventTimes(front);
    assert EventTimes(log) == ts + [t];
    AppendPredicted(log, d);
    BurstReloadsAppend(ts, t, d);
    if !Settled(front) {
      SameFront(BurstReloads(ts, d, |ts| - 1), ReloadTimes(front), ts[|ts| - 1] + d);
    }
  }

  /** A reload turns the outstanding prediction into a fact. */
  lemma AgreementAfterReload(log: seq<Entry>, d: nat)
    requires log != [] && Prompt(log, d) && log[|log| - 1].Reload?
    requires var front := log[..|log| - 1];
      BurstReloads(EventTimes(front), d, |EventTimes(front)|) == Predicted(front, d)
    ensures BurstReloads(EventTimes(log), d, |EventTimes(log)|) == Predicted(log, d)
  {
    var k := |log| - 1;
    var front := log[..k];
    assert EventTimes(log) == EventTimes(front) + [] == EventTimes(front);
    assert front[k - 1] == log[k - 1];
  }

  lemma AgreementOnFirst(e: Entry, d: nat)
    requires e.Handled?
    ensures BurstReloads(EventTimes([e]), d, |EventTimes([e])|) == Predicted([e], d)
  {
    assert [e][..0] == [];
    assert EventTimes([e]) == [e.at] && ReloadTimes([e]) == [];
    assert BurstReloads([e.at], d, 1) == BurstReloads([e.at], d, 0) + [e.at + d];
  }

  lemma SameFront(a: seq<nat>, b: seq<nat>, x: nat)
    requires a + [x] == b + [x]
    ensures a == b
  {
    assert a == (a + [x])[..|a|];
    assert b == (b + [x])[..|b|];
  }

  /** The online history and the offline computation agree on every reload
      time; an outstanding debounce is the computation's last entry. */
  lemma {:induction false} PromptMeetsOffline(log: seq<Entry>, d: nat)
    requires Prompt(log, d)
    ensures BurstReloads(EventTimes(log), d, |EventTimes(log)|) == Predicted(log, d)
  {
    if log != [] {
      var k := |log| - 1;
      var front, e := log[..k], log[k];
      PromptPrefix(log, d);
      PromptMeetsOffline(front, d);
      if e.Reload? {
        AgreementAfterReload(log, d);
      } else if front == [] {
        assert log == [e];
        AgreementOnFirst(e, d);
      } else {
        AgreementAfterEvent(log, d);
      }
    }
  }
}
