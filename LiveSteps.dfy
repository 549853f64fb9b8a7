/** The live-step list shown while a streamed reply is being generated
    (Sources/ShellSession.swift:879-906). These functions say what each
    operation does to the list; the session class updates its
    `claudeLiveSteps` field in place and is proved against them. */
module LiveSteps {
  import opened Common
  import opened ShellModels

  /** `lastIndex(where:)` for the two searches the list needs: a step with a
      given title (optionally also running), or any running step. */
  datatype StepQuery = TitleIs(title: string, runningOnly: bool) | AnyRunning

  predicate Matches(q: StepQuery, s: LiveStep) {
    match q
    case TitleIs(title, runningOnly) => s.title == title && (runningOnly ==> s.status == StepRunning)
    case AnyRunning => s.status == StepRunning
  }

  function LastIndexWhere(steps: seq<LiveStep>, q: StepQuery): (r: Option<nat>)
    ensures r.Some? ==> r.value < |steps| && Matches(q, steps[r.value])
    ensures r.Some? ==> forall j :: r.value < j < |steps| ==> !Matches(q, steps[j])
    ensures r.None? ==> forall j :: 0 <= j < |steps| ==> !Matches(q, steps[j])
    decreases |steps|
  {
    if |steps| == 0 then None
    else if Matches(q, steps[|steps| - 1]) then Some(|steps| - 1)
    else LastIndexWhere(steps[..|steps| - 1], q)
  }

  /** `startLiveStep`: an empty title is ignored; a title that already has a
      running step leaves the list as it is (the source rewrites that step's
      status with the value it already has); otherwise a running step is
      appended. */
  function StartStep(steps: seq<LiveStep>, title: string): (r: seq<LiveStep>)
    ensures |title| == 0 ==> r == steps
    ensures |title| > 0 ==> HasRunning(r, title)
    ensures r == steps || r == steps + [LiveStep(title, StepRunning)]
    ensures r == steps + [LiveStep(title, StepRunning)] <==> |title| > 0 && !HasRunning(steps, title)
  {
    if |title| == 0 then steps
    else match LastIndexWhere(steps, TitleIs(title, true))
      case Some(i) =>
        var r := steps[i := steps[i].(status := StepRunning)];
        assert r == steps && steps[i].title == title && steps[i].status == StepRunning;
        assert |r| != |steps + [LiveStep(title, StepRunning)]|;
        r
      case None =>
        var r := steps + [LiveStep(title, StepRunning)];
        assert r[|steps|] == LiveStep(title, StepRunning);
        r
  }

  predicate HasRunning(steps: seq<LiveStep>, title: string) {
    exists i :: 0 <= i < |steps| && steps[i].title == title && steps[i].status == StepRunning
  }

  function Outcome(success: bool): StepStatus {
    if success then StepSuccess else StepFailure
  }

  /** `completeLiveStep`: the latest step with the title takes the outcome;
      a title never started is appended already finished. */
  function CompleteStep(steps: seq<LiveStep>, title: string, success: bool): (r: seq<LiveStep>)
    ensures |r| == |steps| || r == steps + [LiveStep(title, Outcome(success))]
    ensures |r| == |steps| <==> exists i :: 0 <= i < |steps| && steps[i].title == title
    ensures |r| == |steps| ==> exists i :: 0 <= i < |steps| && OnlyChanged(steps, r, i)
                                  && steps[i].title == title && r[i] == steps[i].(status := Outcome(success))
                                  && forall j :: i < j < |steps| ==> steps[j].title != title
  {
    match LastIndexWhere(steps, TitleIs(title, false))
    case Some(i) =>
      var r := steps[i := steps[i].(status := Outcome(success))];
      assert OnlyChanged(steps, r, i);
      r
    case None => steps + [LiveStep(title, Outcome(success))]
  }

  /** `r` is `steps` with at most the element at `i` replaced. */
  predicate OnlyChanged(steps: seq<LiveStep>, r: seq<LiveStep>, i: nat) {
    |r| == |steps| && i < |steps| && forall j :: 0 <= j < |steps| && j != i ==> r[j] == steps[j]
  }

  /** `markLatestRunningStepFailedIfNeeded`: the last running step, if any,
      becomes a failure; nothing else changes. */
  function MarkLatestRunningFailed(steps: seq<LiveStep>): (r: seq<LiveStep>)
    ensures (forall j :: 0 <= j < |steps| ==> steps[j].status != StepRunning) ==> r == steps
    ensures (exists j :: 0 <= j < |steps| && steps[j].status == StepRunning) ==>
      exists i :: 0 <= i < |steps| && OnlyChanged(steps, r, i) && steps[i].status == StepRunning
                  && r[i] == steps[i].(status := StepFailure)
                  && forall j :: i < j < |steps| ==> steps[j].status != StepRunning
  {
    match LastIndexWhere(steps, AnyRunning)
    case Some(i) =>
      var r := steps[i := steps[i].(status := StepFailure)];
      assert OnlyChanged(steps, r, i);
      r
    case None => steps
  }

  /** `finalizeRunningStepsAsSuccess`: every running step succeeds, every
      finished step keeps its outcome. */
  function FinalizeRunning(steps: seq<LiveStep>): (r: seq<LiveStep>)
    ensures |r| == |steps|
    ensures forall j :: 0 <= j < |steps| ==> r[j].title == steps[j].title && r[j].status != StepRunning
    ensures forall j :: 0 <= j < |steps| && steps[j].status != StepRunning ==> r[j] == steps[j]
    ensures forall j :: 0 <= j < |steps| && steps[j].status == StepRunning ==> r[j] == steps[j].(status := StepSuccess)
    decreases |steps|
  {
    if |steps| == 0 then []
    else FinalizeRunning(steps[..|steps| - 1]) + [Finalized(steps[|steps| - 1])]
  }

  function Finalized(s: LiveStep): LiveStep {
    if s.status == StepRunning then s.(status := StepSuccess) else s
  }

  // --------------------------------------------------------- the invariant

  /** No title has two running steps at once. */
  predicate OneRunningPerTitle(steps: seq<LiveStep>) {
    forall i, j :: 0 <= i < j < |steps| && steps[i].status == StepRunning && steps[j].status == StepRunning
      ==> steps[i].title != steps[j].title
  }

  /** Starting a step never opens a second running step under a title. */
  lemma StartKeepsOneRunning(steps: seq<LiveStep>, title: string)
    requires OneRunningPerTitle(steps)
    ensures OneRunningPerTitle(StartStep(steps, title))
  {
    var r := StartStep(steps, title);
    if r != steps {
      forall i, j | 0 <= i < j < |r| && r[i].status == StepRunning && r[j].status == StepRunning
        ensures r[i].title != r[j].title
      {
        if j == |steps| {
          assert r[i] == steps[i];
        }
      }
    }
  }

  /** Completing a step or failing the latest running one only ever takes a
      step out of the running state. */
  lemma CompleteKeepsOneRunning(steps: seq<LiveStep>, title: string, success: bool)
    requires OneRunningPerTitle(steps)
    ensures OneRunningPerTitle(CompleteStep(steps, title, success))
    ensures OneRunningPerTitle(MarkLatestRunningFailed(steps))
  {
    var r := CompleteStep(steps, title, success);
    if |r| == |steps| {
      var i :| 0 <= i < |steps| && OnlyChanged(steps, r, i)
                                  && steps[i].title == title && r[i] == steps[i].(status := Outcome(success));
      NoNewRunning(steps, r, i);
    }
    var m := MarkLatestRunningFailed(steps);
    if exists j :: 0 <= j < |steps| && steps[j].status == StepRunning {
      var i :| 0 <= i < |steps| && OnlyChanged(steps, m, i) && m[i] == steps[i].(status := StepFailure);
      NoNewRunning(steps, m, i);
    }
  }

  lemma NoNewRunning(steps: seq<LiveStep>, r: seq<LiveStep>, i: nat)
    requires OneRunningPerTitle(steps)
    requires OnlyChanged(steps, r, i) && r[i].status != StepRunning
    ensures OneRunningPerTitle(r)
  {
    forall a, b | 0 <= a < b < |r| && r[a].status == StepRunning && r[b].status == StepRunning
      ensures r[a].title != r[b].title
    {
      assert a != i && b != i;
      assert r[a] == steps[a] && r[b] == steps[b];
    }
  }

  /** After finalising, nothing is running, so the invariant holds trivially,
      and failing the latest running step afterwards changes nothing. */
  lemma FinalizeThenMarkFailed(steps: seq<LiveStep>)
    ensures OneRunningPerTitle(FinalizeRunning(steps))
    ensures MarkLatestRunningFailed(FinalizeRunning(steps)) == FinalizeRunning(steps)
  {
  }
}
