/** A concrete run of the protocol in which an approval commits after its
    campaign was marked sent. */
module LateApproval {
  import opened Options
  import opened Outreach
  import Compliance
  import Tracking

  const PHONE: Slot := Compliance.Slot(Compliance.Sms, "9")
  const HELLO: Content := Tracking.Content("hello", None)
  const NO_CHANGE: Change := Tracking.Change("", None)

  /** One unsent campaign, nothing counted and nobody on the DND list. */
  ghost predicate Scene(s: State, approvals: map<nat, Approval>, queue: multiset<Task>,
                        workers: map<nat, Worker>, events: nat)
  {
    && s.tracking == Tracking.State(map[0 := Tracking.Draft(0, PHONE, HELLO)], map[])
    && s.compliance == Compliance.START && s.dnd == {}
    && s.approvals == approvals && s.queue == queue && s.workers == workers && |s.log| == events
  }

  lemma SceneApproved() returns (steps: seq<Step>)
    ensures Scene(Run(START, steps), map[1 := Approval(0, 0, NO_CHANGE, 1, Some(2))], multiset{}, map[], 3)
    ensures forall step | step in steps :: !step.RateCheck? && !step.Tick?
  {
    steps := [Create(0, 0, PHONE, HELLO), ApproveCheck(1, 0, 0, NO_CHANGE), ApproveCommit(1)];
    RunThree(START, steps);
    var s1 := Next(START, steps[0]);
    assert Scene(s1, map[], multiset{}, map[], 1);
    var s2 := Next(s1, steps[1]);
    assert Scene(s2, map[1 := Approval(0, 0, NO_CHANGE, 1, None)], multiset{}, map[], 2);
  }

  lemma SceneEnqueued(s: State)
    requires Scene(s, map[1 := Approval(0, 0, NO_CHANGE, 1, Some(2))], multiset{}, map[], 3)
    ensures Scene(Next(s, ApproveEnqueue(1)), map[], multiset{TASK}, map[], 3)
  {
    assert map[1 := Approval(0, 0, NO_CHANGE, 1, Some(2))] - {1} == map[];
  }

  const TASK: Task := Task(0, 2)

  lemma SceneLoaded(s: State, n: nat)
    requires Scene(s, map[], multiset{TASK}, map[], n)
    ensures Scene(Next(s, Load(0, TASK)), map[], multiset{}, map[0 := Worker(TASK, HELLO, PHONE, n, AtLoad)], n + 1)
  {
    assert CanLoad(s, 0, TASK);
    assert PHONE.identifier == "9";
  }

  lemma SceneCleared(s: State, n: nat)
    requires Scene(s, map[], multiset{}, map[0 := Worker(TASK, HELLO, PHONE, n, AtLoad)], n + 1)
    ensures Scene(Next(s, DndCheck(0)), map[], multiset{},
                  map[0 := Worker(TASK, HELLO, PHONE, n, DndClear(n + 1))], n + 2)
  {
    assert Clear(s, 0);
  }

  /** An approval checked just before the mark, committed just after it. */
  lemma SceneLate(s: State)
    requires Scene(s, map[], multiset{}, map[0 := Worker(TASK, HELLO, PHONE, 3, DndClear(4))], 5)
    ensures var s1 := Next(Next(Next(s, RateCheck(0)), Send(0, "id")), ApproveCheck(1, 0, 0, NO_CHANGE));
            && s1.workers == map[0 := Worker(TASK, HELLO, PHONE, 3, Accepted("id"))]
            && s1.approvals == map[1 := Approval(0, 0, NO_CHANGE, 6, None)] && |s1.log| == 7
  {
    var s1 := Next(s, RateCheck(0));
    assert Compliance.Passes(s.compliance, PHONE);
    assert s1.workers == map[0 := Worker(TASK, HELLO, PHONE, 3, RateClear(4))] && |s1.log| == 5;
    var s2 := Next(s1, Send(0, "id"));
    assert |s2.log| == 6 && s2.approvals == map[] && s2.tracking == s.tracking;
    assert CheckAccepts(s2, 1, 0, 0);
  }

  /** The check and the commit of an approval are separate accesses: a request
      checked before a send can be accepted after the campaign is marked sent. */
  lemma ApprovalAfterMark() returns (steps: seq<Step>)
    ensures var log := Run(START, steps).log;
            exists m, a :: 0 <= m < a < |log| && log[m] == Marked(0) && log[a].Approved? && log[a].c == 0
  {
    var first := SceneApproved();
    var s := Run(START, first);
    var a, b, c := [ApproveEnqueue(1), Load(0, TASK), DndCheck(0)],
                   [RateCheck(0), Send(0, "id"), ApproveCheck(1, 0, 0, NO_CHANGE)],
                   [MarkSent(0), ApproveCommit(1), Tick(0)];
    steps := first + (a + (b + c));
    RunAppend(START, first, a + (b + c));
    RunAppend(s, a, b + c);
    RunThree(s, a);
    SceneEnqueued(s);
    SceneLoaded(Next(s, a[0]), 3);
    SceneCleared(Next(Next(s, a[0]), a[1]), 3);
    var t := Run(s, a);
    RunAppend(t, b, c);
    RunThree(t, b);
    SceneLate(t);
    var u := Run(t, b);
    RunThree(u, c);
    LateCommit(u);
  }

  lemma LateCommit(s: State)
    requires s.workers == map[0 := Worker(TASK, HELLO, PHONE, 3, Accepted("id"))]
    requires s.approvals == map[1 := Approval(0, 0, NO_CHANGE, 6, None)] && |s.log| == 7
    ensures var log := Next(Next(Next(s, MarkSent(0)), ApproveCommit(1)), Tick(0)).log;
            |log| == 9 && log[7] == Marked(0) && log[8] == Approved(0, 0, NO_CHANGE, 6)
  {
    var s1 := Next(s, MarkSent(0));
    assert s1.log == s.log + [Marked(0)] && s1.approvals == s.approvals;
    var s2 := Next(s1, ApproveCommit(1));
    assert s2.log == s1.log + [Approved(0, 0, NO_CHANGE, 6)];
  }
}
