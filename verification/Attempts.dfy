/**
 Retries of a request: the table of current attempts, and what becomes of an attempt that is
 superseded or cleared while it waits or while its inference runs.
 */
module Attempts {

  type Trace = string
  type RequestId = string

  type Table = map<Trace, RequestId>

  predicate Current(t: Table, trace: Trace, id: RequestId) {
    trace == "" || id == "" || (trace in t && t[trace] == id)
  }

  function Marked(t: Table, trace: Trace, id: RequestId): Table {
    if trace == "" || id == "" then t else t[trace := id]
  }

  function Cleared(t: Table, trace: Trace, id: RequestId): Table {
    if trace != "" && id != "" && trace in t && t[trace] == id then t - {trace} else t
  }

  class TraceTable {
    var activeRequests: Table

    constructor ()
      ensures activeRequests == map[]
    {
      activeRequests := map[];
    }

    method MarkRequestActive(trace: Trace, id: RequestId)
      modifies this
      ensures activeRequests == Marked(old(activeRequests), trace, id)
    {
      if trace == "" || id == "" { return; }
      activeRequests := activeRequests[trace := id];
    }

    method IsRequestCurrent(trace: Trace, id: RequestId) returns (current: bool)
      ensures current == Current(activeRequests, trace, id)
    {
      if trace == "" || id == "" { return true; }
      current := trace in activeRequests && activeRequests[trace] == id;
    }

    method ClearRequestIfCurrent(trace: Trace, id: RequestId)
      modifies this
      ensures activeRequests == Cleared(old(activeRequests), trace, id)
    {
      if trace == "" || id == "" { return; }
      if trace in activeRequests && activeRequests[trace] == id {
        activeRequests := activeRequests - {trace};
      }
    }
  }

  // ---- All interleavings --------------------------------------------------------------

  /** `conversation` covers the modes "conversation" and "user_conversation", the other mode is "simple";
      `hasMessages` says that the payload brings a messages array of its own. */
  datatype Attempt = Attempt(trace: Trace, id: RequestId, conversation: bool, hasMessages: bool)

  datatype Outcome = Ok | Failed | Cancelled

  datatype Cause = AtFirstCheck | InPreparation | InInference | AtSecondCheck | AfterSecondCheck

  datatype Work =
    | Queued
    | Preparing   // passed the check before inference
    | Inferring   // its messages are built
    | Accepted    // passed the check after inference
    | Done(outcome: Outcome, cause: Cause)

  /** Storage is told apart by what was written: new conversations, inputs, and answers. */
  datatype State = State(
    table: Table,
    used: set<Attempt>,
    work: map<Attempt, Work>,
    started: set<Attempt>,
    inputs: set<Attempt>,
    answers: set<Attempt>)

  datatype Step =
    | Mark(a: Attempt)
    | Clear(a: Attempt)
    | FirstCheck(a: Attempt)
    | Open(a: Attempt)
    | PreparationFails(a: Attempt)
    | Prepare(a: Attempt)
    | InferenceFails(a: Attempt)
    | SecondCheck(a: Attempt)
    | Persist(a: Attempt)
    | Finish(a: Attempt)
    | FailLate(a: Attempt)

  predicate IsCurrent(s: State, a: Attempt) { Current(s.table, a.trace, a.id) }

  predicate WorkIs(s: State, a: Attempt, w: Work) { a in s.work && s.work[a] == w }

  /** Each attempt has a request id of its own within its trace. */
  predicate Enabled(s: State, step: Step) {
    match step
    case Mark(a) => a.id != "" && forall b | b in s.used :: b.trace == a.trace ==> b.id != a.id
    case Clear(a) => a in s.used
    case FirstCheck(a) => WorkIs(s, a, Queued)
    case Open(a) => WorkIs(s, a, Preparing) && a.conversation
    case PreparationFails(a) => WorkIs(s, a, Preparing)
    case Prepare(a) => WorkIs(s, a, Preparing)
    case InferenceFails(a) => WorkIs(s, a, Inferring)
    case SecondCheck(a) => WorkIs(s, a, Inferring)
    case Persist(a) => WorkIs(s, a, Accepted) && a.conversation
    case Finish(a) => WorkIs(s, a, Accepted)
    case FailLate(a) => WorkIs(s, a, Accepted)
  }

  /** Building the messages of a conversation stores the caller's input, unless the payload brings messages. */
  predicate StoresInput(a: Attempt) { a.conversation && !a.hasMessages }

  /** The result of an attempt that is no longer current after inference is a null value. In the conversation
      modes the worker asks that value for its status, which throws, so the attempt completes with an error. */
  function StaleOutcome(a: Attempt): Outcome { if a.conversation then Failed else Cancelled }

  function Apply(s: State, step: Step): State {
    var a := step.a;
    match step
    case Mark(_) => s.(table := Marked(s.table, a.trace, a.id), used := s.used + {a}, work := s.work[a := Queued])
    case Clear(_) => s.(table := Cleared(s.table, a.trace, a.id))
    case FirstCheck(_) => s.(work := s.work[a := if IsCurrent(s, a) then Preparing else Done(Cancelled, AtFirstCheck)])
    case Open(_) => s.(started := s.started + {a})
    case PreparationFails(_) => s.(work := s.work[a := Done(Failed, InPreparation)])
    case Prepare(_) =>
      s.(work := s.work[a := Inferring], inputs := if StoresInput(a) then s.inputs + {a} else s.inputs)
    case InferenceFails(_) => s.(work := s.work[a := Done(Failed, InInference)])
    case SecondCheck(_) =>
      s.(work := s.work[a := if IsCurrent(s, a) then Accepted else Done(StaleOutcome(a), AtSecondCheck)])
    case Persist(_) => s.(answers := s.answers + {a})
    case Finish(_) => s.(work := s.work[a := Done(Ok, AfterSecondCheck)])
    case FailLate(_) => s.(work := s.work[a := Done(Failed, AfterSecondCheck)])
  }

  function Initial(): State { State(map[], {}, map[], {}, {}, {}) }

  ghost predicate Run(states: seq<State>, steps: seq<Step>) {
    && |states| == |steps| + 1 && states[0] == Initial()
    && forall i | 0 <= i < |steps| :: Enabled(states[i], steps[i]) && states[i + 1] == Apply(states[i], steps[i])
  }

  // ---- What is written when ---------------------------------------------------------------

  /** The attempt got past building its messages. */
  predicate Prepared(s: State, a: Attempt) {
    && a in s.work
    && match s.work[a]
       case Queued => false
       case Preparing => false
       case Inferring => true
       case Accepted => true
       case Done(_, cause) => cause != AtFirstCheck && cause != InPreparation
  }

  predicate PassedSecondCheck(s: State, a: Attempt) {
    a in s.work && (s.work[a].Accepted? || (s.work[a].Done? && s.work[a].cause == AfterSecondCheck))
  }

  predicate PassedFirstCheck(s: State, a: Attempt) {
    a in s.work && s.work[a] != Queued && !(s.work[a].Done? && s.work[a].cause == AtFirstCheck)
  }

  ghost predicate Inv(s: State) {
    && s.work.Keys == s.used
    && (forall a | a in s.answers :: PassedSecondCheck(s, a))
    && (forall a | a in s.started :: PassedFirstCheck(s, a))
    && (forall a :: a in s.inputs <==> StoresInput(a) && Prepared(s, a))
  }

  lemma StepKeepsInv(s: State, step: Step)
    requires Inv(s) && Enabled(s, step)
    ensures Inv(Apply(s, step))
  {}

  /** In every run: answers are stored only after the second check, conversations opened only after the first, and
      inputs stored exactly by the attempts that got past preparation and are to store theirs. */
  lemma {:induction false} RunKeepsInv(states: seq<State>, steps: seq<Step>, i: nat)
    requires Run(states, steps) && i < |states|
    ensures Inv(states[i])
  {
    hide Inv, Apply, Enabled;
    if i > 0 {
      RunKeepsInv(states, steps, i - 1);
      assert Enabled(states[i - 1], steps[i - 1]) && states[i] == Apply(states[i - 1], steps[i - 1]);
      StepKeepsInv(states[i - 1], steps[i - 1]);
    } else {
      InitialInv();
    }
  }

  lemma InitialInv()
    ensures Inv(Initial())
  {}

  // ---- Supersession is permanent ----------------------------------------------------------

  /** Once an attempt of a proper trace is not current, no later step makes it current again. */
  lemma {:induction false} NeverCurrentAgain(states: seq<State>, steps: seq<Step>, i: nat, j: nat, a: Attempt)
    requires Run(states, steps) && i <= j < |states|
    requires a in states[i].used && !IsCurrent(states[i], a)
    ensures a in states[j].used && !IsCurrent(states[j], a)
  {
    if i < j {
      NeverCurrentAgain(states, steps, i, j - 1, a);
      assert Enabled(states[j - 1], steps[j - 1]) && states[j] == Apply(states[j - 1], steps[j - 1]);
    }
  }

  /** Marking a later attempt of the same trace supersedes the earlier one. */
  lemma MarkSupersedes(s: State, a: Attempt, b: Attempt)
    requires Enabled(s, Mark(b)) && a in s.used && a.trace == b.trace != "" && a.id != ""
    ensures !IsCurrent(Apply(s, Mark(b)), a) && IsCurrent(Apply(s, Mark(b)), b)
  {}

  /** Clearing changes the table exactly if the clearing attempt is the current one: an old attempt removes
      nothing, whatever newer attempt is there. */
  lemma ClearRemovesOnlyItself(s: State, a: Attempt)
    requires a.trace != "" && a.id != ""
    ensures Apply(s, Clear(a)) != s <==> IsCurrent(s, a)
    ensures Apply(s, Clear(a)).table == if IsCurrent(s, a) then s.table - {a.trace} else s.table
  {
    if IsCurrent(s, a) { assert a.trace !in (s.table - {a.trace}); }
  }

  // ---- Being current, told by the steps alone ------------------------------------------------

  /** No other attempt of the trace was marked and this one was not cleared at the steps from `from` up to `to`. */
  predicate Undisturbed(steps: seq<Step>, from: nat, to: nat, a: Attempt) {
    forall j | from <= j < to && j < |steps| ::
      !(steps[j].Mark? && steps[j].a.trace == a.trace) && steps[j] != Clear(a)
  }

  ghost predicate MarkedLast(steps: seq<Step>, i: nat, a: Attempt) {
    exists k :: 0 <= k < i && k < |steps| && steps[k] == Mark(a) && Undisturbed(steps, k + 1, i, a)
  }

  ghost predicate IdsDiffer(s: State) {
    && (forall a, b | a in s.used && b in s.used && a.trace == b.trace && a.id == b.id :: a == b)
    && (forall a | a in s.used :: a.id != "")
    && (forall t | t in s.table :: t != "" && exists a :: a in s.used && a.trace == t && a.id == s.table[t])
  }

  lemma StepKeepsIds(s: State, step: Step)
    requires IdsDiffer(s) && Enabled(s, step)
    ensures IdsDiffer(Apply(s, step))
  {
    var s' := Apply(s, step);
    forall t | t in s'.table ensures t != "" && exists a :: a in s'.used && a.trace == t && a.id == s'.table[t] {
      if step.Mark? && step.a.trace == t {
        assert step.a in s'.used;
      } else {
        var a :| a in s.used && a.trace == t && a.id == s.table[t];
        assert a in s'.used;
      }
    }
  }

  lemma {:induction false} RunKeepsIds(states: seq<State>, steps: seq<Step>, i: nat)
    requires Run(states, steps) && i < |states|
    ensures IdsDiffer(states[i])
  {
    hide Apply, Enabled, IdsDiffer;
    if i > 0 {
      RunKeepsIds(states, steps, i - 1);
      assert Enabled(states[i - 1], steps[i - 1]) && states[i] == Apply(states[i - 1], steps[i - 1]);
      StepKeepsIds(states[i - 1], steps[i - 1]);
    } else {
      assert IdsDiffer(Initial()) by { InitialIds(); }
    }
  }

  lemma InitialIds()
    ensures IdsDiffer(Initial())
  {}

  lemma MarkedLastByStep(steps: seq<Step>, i: nat, a: Attempt)
    requires i < |steps|
    ensures MarkedLast(steps, i + 1, a) <==>
            || steps[i] == Mark(a)
            || (MarkedLast(steps, i, a) && !(steps[i].Mark? && steps[i].a.trace == a.trace) && steps[i] != Clear(a))
  {
    if MarkedLast(steps, i + 1, a) && steps[i] != Mark(a) {
      var k :| 0 <= k < i + 1 && k < |steps| && steps[k] == Mark(a) && Undisturbed(steps, k + 1, i + 1, a);
      assert k < i && Undisturbed(steps, k + 1, i, a);
    }
    if steps[i] == Mark(a) { assert Undisturbed(steps, i + 1, i + 1, a); }
    if MarkedLast(steps, i, a) && !(steps[i].Mark? && steps[i].a.trace == a.trace) && steps[i] != Clear(a) {
      var k :| 0 <= k < i && k < |steps| && steps[k] == Mark(a) && Undisturbed(steps, k + 1, i, a);
      assert Undisturbed(steps, k + 1, i + 1, a);
    }
  }

  lemma CurrentByStep(s: State, step: Step, a: Attempt)
    requires IdsDiffer(s) && Enabled(s, step) && a.trace != ""
    requires a in Apply(s, step).used
    ensures IsCurrent(Apply(s, step), a) <==>
            || step == Mark(a)
            || (a in s.used && IsCurrent(s, a) && !(step.Mark? && step.a.trace == a.trace) && step != Clear(a))
  {}

  /** In every reachable state an attempt of a proper trace is current exactly if it is the one of its trace that was
      marked last and it has not been cleared since. */
  lemma {:induction false} CurrentIff(states: seq<State>, steps: seq<Step>, i: nat, a: Attempt)
    requires Run(states, steps) && i < |states| && a.trace != ""
    ensures a in states[i].used && IsCurrent(states[i], a) <==> MarkedLast(steps, i, a)
  {
    hide Apply, Enabled, IdsDiffer, IsCurrent, MarkedLast;
    if i == 0 {
      NothingMarked(steps, a);
    } else {
      var s, step := states[i - 1], steps[i - 1];
      CurrentIff(states, steps, i - 1, a);
      RunKeepsIds(states, steps, i - 1);
      assert Enabled(s, step) && states[i] == Apply(s, step);
      MarkedLastByStep(steps, i - 1, a);
      UsedByStep(s, step, a);
      if a in states[i].used { CurrentByStep(s, step, a); }
    }
  }

  lemma NothingMarked(steps: seq<Step>, a: Attempt)
    ensures !MarkedLast(steps, 0, a) && a !in Initial().used
  {}

  lemma UsedByStep(s: State, step: Step, a: Attempt)
    requires Enabled(s, step)
    ensures a in Apply(s, step).used <==> a in s.used || step == Mark(a)
  {}

  /** An attempt without a trace is always current. */
  lemma UntracedIsCurrent(s: State, a: Attempt)
    requires a.trace == ""
    ensures IsCurrent(s, a)
  {}

  /** Only attempts that are not current are ever cancelled, or fail at a check. */
  lemma {:induction false} OnlySupersededAreStopped(states: seq<State>, steps: seq<Step>, i: nat, a: Attempt)
    requires Run(states, steps) && i < |states| && a in states[i].work && states[i].work[a].Done?
    ensures states[i].work[a].outcome == Cancelled || states[i].work[a].cause in {AtFirstCheck, AtSecondCheck} ==>
              !IsCurrent(states[i], a)
  {
    hide Inv;
    if i > 0 {
      var s, step := states[i - 1], steps[i - 1];
      assert Enabled(s, step) && states[i] == Apply(s, step);
      RunKeepsInv(states, steps, i - 1);
      RunKeepsInv(states, steps, i);
      if a in s.work && s.work[a].Done? {
        OnlySupersededAreStopped(states, steps, i - 1, a);
        WorkIsUsed(states[i - 1], a);
      }
    }
  }

  lemma WorkIsUsed(s: State, a: Attempt)
    requires Inv(s) && a in s.work
    ensures a in s.used
  {}

  // ---- What becomes of a superseded attempt ---------------------------------------------------

  /** Not current any more, and not yet past the check after inference. */
  predicate Doomed(s: State, a: Attempt) {
    && a in s.used && !IsCurrent(s, a) && a in s.work
    && (s.work[a].Queued? || s.work[a].Preparing? || s.work[a].Inferring?)
  }

  /** What can become of a doomed attempt, told by how far it was when it was doomed. */
  predicate Fate(s: State, a: Attempt, from: Work) {
    && a in s.used && !IsCurrent(s, a) && a !in s.answers && a in s.work
    && var w := s.work[a];
       if from.Queued? then w == Queued || w == Done(Cancelled, AtFirstCheck)
       else
         || w == Inferring || w == Done(Failed, InInference) || w == Done(StaleOutcome(a), AtSecondCheck)
         || (from.Preparing? && (w == Preparing || w == Done(Failed, InPreparation)))
  }

  lemma StepKeepsFate(s: State, step: Step, a: Attempt, from: Work)
    requires Enabled(s, step) && Fate(s, a, from)
    ensures Fate(Apply(s, step), a, from)
  {}

  /** An attempt that was superseded or cleared before its check after inference never stores an answer, and can
      only end in one of these ways. */
  lemma {:induction false} DoomedNeverAnswers(states: seq<State>, steps: seq<Step>, i: nat, j: nat, a: Attempt)
    requires Run(states, steps) && i <= j < |states| && Doomed(states[i], a)
    ensures a !in states[j].answers && Fate(states[j], a, states[i].work[a])
  {
    if i == j {
      RunKeepsInv(states, steps, i);
    } else {
      hide Apply, Enabled;
      DoomedNeverAnswers(states, steps, i, j - 1, a);
      assert Enabled(states[j - 1], steps[j - 1]) && states[j] == Apply(states[j - 1], steps[j - 1]);
      StepKeepsFate(states[j - 1], steps[j - 1], a, states[i].work[a]);
    }
  }

  /** Its input is stored exactly if it is one that stores its input and it was past preparation when it was doomed,
      or was preparing then and has got past preparation since: no check stands in between. */
  lemma DoomedStoresInputIff(states: seq<State>, steps: seq<Step>, i: nat, j: nat, a: Attempt)
    requires Run(states, steps) && i <= j < |states| && Doomed(states[i], a)
    ensures var from := states[i].work[a];
            a in states[j].inputs <==>
            StoresInput(a) && (from.Inferring? || (from.Preparing? && Prepared(states[j], a)))
    ensures states[i].work[a].Queued? ==> a !in states[j].inputs && a !in states[j].started
  {
    RunKeepsInv(states, steps, j);
    DoomedNeverAnswers(states, steps, i, j, a);
  }

  /** Nothing holds back the input of an attempt that is doomed while it prepares: its next step can store it. */
  lemma PreparingStillStores(s: State, a: Attempt)
    requires Doomed(s, a) && s.work[a].Preparing?
    ensures Enabled(s, Prepare(a)) && (a in Apply(s, Prepare(a)).inputs <==> StoresInput(a) || a in s.inputs)
  {}

  /** A doomed attempt that has ended is reported as cancelled exactly if it was found out before inference, or after
      an inference that did not throw and its mode is not a conversation mode. */
  lemma DoomedIsCancelledIff(states: seq<State>, steps: seq<Step>, i: nat, j: nat, a: Attempt)
    requires Run(states, steps) && i <= j < |states| && Doomed(states[i], a)
    requires a in states[j].work && states[j].work[a].Done?
    ensures states[j].work[a].outcome == Cancelled <==>
            states[i].work[a].Queued? || (states[j].work[a].cause == AtSecondCheck && !a.conversation)
  {
    DoomedNeverAnswers(states, steps, i, j, a);
  }

  /** A conversation request without messages, and its retry: the first attempt is superseded after it has stored its
      input, ends with an error and not as cancelled, and the retry stores the same input again. */
  lemma SupersededInputIsStoredTwice() returns (states: seq<State>, steps: seq<Step>, a: Attempt, b: Attempt)
    ensures Run(states, steps) && a.trace == b.trace && a != b
    ensures !IsCurrent(states[|steps|], a) && WorkIs(states[|steps|], a, Done(Failed, AtSecondCheck))
    ensures states[|steps|].inputs == {a, b} && states[|steps|].answers == {}
  {
    a := Attempt("t", "1", true, false);
    b := Attempt("t", "2", true, false);
    steps := [Mark(a), FirstCheck(a), Prepare(a), Mark(b), SecondCheck(a), FirstCheck(b), Prepare(b)];
    var s1 := Apply(Initial(), steps[0]);
    var s2 := Apply(s1, steps[1]);
    var s3 := Apply(s2, steps[2]);
    var s4 := Apply(s3, steps[3]);
    var s5 := Apply(s4, steps[4]);
    var s6 := Apply(s5, steps[5]);
    assert s2.work[a] == Preparing && s3.work[a] == Inferring;
    assert s4.table["t"] == "2";
    assert s6.work[b] == Preparing;
    states := [Initial(), s1, s2, s3, s4, s5, s6, Apply(s6, steps[6])];
  }
}
