/** What the world says to a worker process over time, and what it means for a run to follow that. */
module Scripts {
  import opened Bytes
  import opened Lists
  import opened Registry
  import opened ServerState
  import opened ServerRuns
  import opened Signals

  /** What the world answers while an event is handled, and when that is. */
  datatype Answer = Answer(now: int, signals: seq<int>, verdicts: map<Addr, Verdict>, arrivals: seq<Arrival>, env: Env)

  datatype Report = Report(fd: int, ready: Ready, answer: Answer)

  /** What epoll_wait comes to, and when. A report it cannot make stands for a failure. */
  datatype Occasion = Occasion(now: int, reports: seq<Report>)

  function Conditions(reports: seq<Report>): (ready: seq<(int, Ready)>)
    ensures |ready| == |reports|
  {
    seq(|reports|, i requires 0 <= i < |reports| => (reports[i].fd, reports[i].ready))
  }

  function Answers(reports: seq<Report>): (answers: seq<Answer>)
    ensures |answers| == |reports|
  {
    seq(|reports|, i requires 0 <= i < |reports| => reports[i].answer)
  }

  function Times(reports: seq<Report>): (times: seq<int>)
    ensures |times| == |reports|
  {
    seq(|reports|, i requires 0 <= i < |reports| => reports[i].answer.now)
  }

  /** The step of a handler called with these conditions, in the world as it answers. */
  predicate Uses(step: Step, handler: Handler, ready: Ready, answer: Answer) {
    match handler
    case OnSignal => step == Signal(SIGTERM in answer.signals)
    case OnTimer => step == Sweeping(answer.verdicts)
    case OnListen => step.Accepting? && step.arrivals == if ready.inn then answer.arrivals else []
    case OnClient(_) => step.Handling? && step.env == answer.env
    case OnProcess(_) => step == Reaping
  }

  /** The step of the next event in this state, in the world as it answers. */
  predicate Matches(s: State, step: Step, answer: Answer) {
    && s.view.pending != []
    && match HandlerOf(s)
       case None => step == Stale
       case Some(handler) => Uses(step, handler, s.view.pending[0].ready, answer)
  }

  /** Each event was handled in the world as it answered then. */
  predicate AllMatch(handled: seq<(State, Step)>, answers: seq<Answer>) {
    |handled| == |answers| && forall i :: 0 <= i < |handled| ==> Matches(handled[i].0, handled[i].1, answers[i])
  }

  // ---- The clock ------------------------------------------------------------------------------------

  /** The clock does not go back. */
  function Ticked(clock: int, now: int): int {
    if now < clock then clock else now
  }

  function ClockAfter(start: int, times: seq<int>): int {
    if times == [] then start else Ticked(ClockAfter(start, times[..|times| - 1]), times[|times| - 1])
  }

  /** It shows the latest of the times it was looked at, or the one it started with. */
  lemma {:induction false} ClockIsLatest(start: int, times: seq<int>)
    ensures var clock := ClockAfter(start, times);
      && clock in [start] + times && start <= clock && forall k :: 0 <= k < |times| ==> times[k] <= clock
  {
    if times != [] {
      var front, last := times[..|times| - 1], times[|times| - 1];
      ClockIsLatest(start, front);
      assert times == front + [last];
      assert [start] + times == ([start] + front) + [last];
    }
  }

  /** What the clock shows when it is looked at at these times. */
  function Clocks(start: int, times: seq<int>): seq<int> {
    if times == [] then [] else Clocks(start, times[..|times| - 1]) + [ClockAfter(start, times)]
  }

  // ---- Scripts --------------------------------------------------------------------------------------

  /** The reports of the kernel, the answers to the handlers, and the times at which the clock was looked
      at, in order. */
  datatype Script = Script(reports: seq<seq<(int, Ready)>>, answers: seq<Answer>, times: seq<int>)

  function Looked(script: Script, now: int): Script {
    script.(times := script.times + [now])
  }

  function Awoken(script: Script, ready: seq<(int, Ready)>): Script {
    script.(reports := script.reports + [ready])
  }

  function Served(script: Script, reports: seq<Report>): Script {
    script.(answers := script.answers + Answers(reports), times := script.times + Times(reports))
  }

  function ScriptOf(occasions: seq<Occasion>): Script {
    if occasions == [] then Script([], [], [])
    else
      var last := occasions[|occasions| - 1];
      Served(Awoken(Looked(ScriptOf(occasions[..|occasions| - 1]), last.now), Conditions(last.reports)), last.reports)
  }

  /** What the world has said by the end of so many waits, the last of which may have failed. */
  function Spoken(occasions: seq<Occasion>, waits: nat, failed: bool): Script
    requires waits <= |occasions| && (failed ==> waits > 0)
  {
    if failed then Looked(ScriptOf(occasions[..waits - 1]), occasions[waits - 1].now) else ScriptOf(occasions[..waits])
  }

  /** On this run, begun at the time start, the world says just what is in the script. */
  predicate Follows(trace: Trace, start: int, script: Script, clock: int) {
    && Reported(trace.steps) == script.reports
    && AllMatch(Handled(trace), script.answers)
    && Ticks(trace.steps) == Clocks(start, script.times) && clock == ClockAfter(start, script.times)
  }

  lemma FollowsNothing(s: State)
    ensures Follows(Trace([s], []), s.clock, ScriptOf([]), s.clock)
  {
  }

  lemma FollowsTick(trace: Trace, start: int, script: Script, clock: int, now: int, next: Trace)
    requires Follows(trace, start, script, clock)
    requires Reported(next.steps) == Reported(trace.steps) && Handled(next) == Handled(trace)
    requires Ticks(next.steps) == Ticks(trace.steps) + [Ticked(clock, now)]
    ensures Follows(next, start, Looked(script, now), Ticked(clock, now))
  {
    hide AllMatch, Handled, Reported, Ticks;
    assert (script.times + [now])[..|script.times|] == script.times;
  }

  lemma FollowsWake(trace: Trace, start: int, script: Script, clock: int, ready: seq<(int, Ready)>, next: Trace)
    requires Follows(trace, start, script, clock)
    requires Reported(next.steps) == Reported(trace.steps) + [ready] && Handled(next) == Handled(trace)
    requires Ticks(next.steps) == Ticks(trace.steps)
    ensures Follows(next, start, Awoken(script, ready), clock)
  {
    hide AllMatch, Handled, Reported, Ticks, Clocks, ClockAfter;
  }

  lemma FollowsNone(trace: Trace, start: int, script: Script, clock: int, next: Trace)
    requires Follows(trace, start, script, clock)
    requires Reported(next.steps) == Reported(trace.steps) && Handled(next) == Handled(trace)
    requires Ticks(next.steps) == Ticks(trace.steps)
    ensures Follows(next, start, script, clock)
  {
    hide AllMatch, Handled, Reported, Ticks, Clocks, ClockAfter;
  }

  lemma FollowsEvent(trace: Trace, start: int, script: Script, clock: int, t: State, step: Step, answer: Answer, next: Trace)
    requires Follows(trace, start, script, clock) && Matches(t, step, answer)
    requires Reported(next.steps) == Reported(trace.steps) && Handled(next) == Handled(trace) + [(t, step)]
    requires Ticks(next.steps) == Ticks(trace.steps)
    ensures Follows(next, start, script.(answers := script.answers + [answer]), clock)
  {
    hide Matches, Handled, Reported, Ticks, Clocks, ClockAfter;
  }

  lemma ServedNone(script: Script, reports: seq<Report>)
    ensures Served(script, reports[..0]) == script
  {
  }

  lemma ServedOneMore(script: Script, reports: seq<Report>, k: nat)
    requires k < |reports|
    ensures Served(script, reports[..k + 1])
         == Looked(Served(script, reports[..k]), reports[k].answer.now).(
              answers := Served(script, reports[..k]).answers + [reports[k].answer])
  {
    assert Answers(reports[..k + 1]) == Answers(reports[..k]) + [reports[k].answer];
    assert Times(reports[..k + 1]) == Times(reports[..k]) + [reports[k].answer.now];
    assert script.answers + (Answers(reports[..k]) + [reports[k].answer])
        == script.answers + Answers(reports[..k]) + [reports[k].answer];
    assert script.times + (Times(reports[..k]) + [reports[k].answer.now])
        == script.times + Times(reports[..k]) + [reports[k].answer.now];
  }

  lemma UsesMatch(s: State, step: Step, answer: Answer)
    requires s.view.pending != [] && HandlerOf(s).Some?
    requires Uses(step, HandlerOf(s).value, s.view.pending[0].ready, answer)
    ensures Matches(s, step, answer)
  {
  }

  lemma StaleMatches(s: State, answer: Answer)
    requires s.view.pending != [] && HandlerOf(s) == None
    ensures Matches(s, Stale, answer)
  {
  }

  lemma ScriptGoesOn(occasions: seq<Occasion>, k: nat)
    requires k < |occasions|
    ensures var next := occasions[k];
      ScriptOf(occasions[..k + 1])
      == Served(Awoken(Looked(ScriptOf(occasions[..k]), next.now), Conditions(next.reports)), next.reports)
  {
    hide Served, Awoken, Looked;
    assert occasions[..k + 1][..k] == occasions[..k];
  }
}
