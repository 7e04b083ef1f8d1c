/** The direct process runner: start a guest process, drain its output, wait,
    close it, and publish one terminal result to its observer. */
module Runner {
  import opened Common
  import opened Capture

  datatype OutputStream = Stdout | Stderr

  datatype Exit = Exit(code: Option<int>, signal: Option<int>)

  predicate Success(e: Exit) {
    e.code == Some(0) && e.signal.None?
  }

  /** Error texts are never empty. */
  type Text = t: string | |t| > 0 witness "e"

  datatype ProcessError =
    | Spawn(message: Text)
    | WaitFailed(message: Text)
    | CleanupFailed(message: Text)
    | OutputFailed(stream: OutputStream, message: Text, cleanup: Option<Text>)
    | OutputLimitExceeded(stream: OutputStream, limit: nat, cleanup: Option<Text>)
    | OutputAllocationFailed(stream: OutputStream, requested: nat, cleanup: Option<Text>)
    | UnsuccessfulExit(exit: Exit)
    | TimedOut(after: nat, cleanup: Option<Text>)
    | Cancelled(cleanup: Option<Text>)

  datatype ProcessState = Pending | Starting | Running | Finished(exit: Exit) | Failed(error: ProcessError)

  datatype RunResult = Ok(exit: Exit) | Err(error: ProcessError)

  predicate Terminal(s: ProcessState) {
    s.Finished? || s.Failed?
  }

  /** What the observer must hold after a run with this result. */
  function Published(r: RunResult): ProcessState {
    match r
    case Ok(exit) => Finished(exit)
    case Err(error) => Failed(error)
  }

  // ---------------------------------------------------------------------
  // Cleanup errors
  // ---------------------------------------------------------------------

  predicate FromOutput(e: ProcessError) {
    e.OutputFailed? || e.OutputLimitExceeded? || e.OutputAllocationFailed?
  }

  function Merge(first: Option<Text>, second: Option<Text>): Option<Text> {
    match (first, second)
    case (None, None) => None
    case (Some(a), None) => Some(a)
    case (None, Some(b)) => Some(b)
    case (Some(a), Some(b)) => Some(a + "; " + b)
  }

  /** Attach a cleanup failure; only output errors can carry one. */
  function WithCleanup(e: ProcessError, cleanup: Option<Text>): ProcessError {
    if cleanup.None? then e
    else match e
      case OutputFailed(s, m, previous) => OutputFailed(s, m, Merge(previous, cleanup))
      case OutputLimitExceeded(s, l, previous) => OutputLimitExceeded(s, l, Merge(previous, cleanup))
      case OutputAllocationFailed(s, r, previous) => OutputAllocationFailed(s, r, Merge(previous, cleanup))
      case _ => e
  }

  function CleanupOf(e: ProcessError): Option<Text> {
    match e
    case OutputFailed(_, _, c) => c
    case OutputLimitExceeded(_, _, c) => c
    case OutputAllocationFailed(_, _, c) => c
    case TimedOut(_, c) => c
    case Cancelled(c) => c
    case _ => None
  }

  predicate HasAt(text: string, part: string, i: int) {
    0 <= i <= |text| - |part| && text[i..i + |part|] == part
  }

  ghost predicate Contains(text: string, part: string) {
    exists i :: HasAt(text, part, i)
  }

  /** The error tells about the cleanup failure `part`. */
  ghost predicate Tells(e: ProcessError, part: string) {
    match e
    case CleanupFailed(m) => Contains(m, part)
    case OutputFailed(_, _, c) => c.Some? && Contains(c.value, part)
    case OutputLimitExceeded(_, _, c) => c.Some? && Contains(c.value, part)
    case OutputAllocationFailed(_, _, c) => c.Some? && Contains(c.value, part)
    case TimedOut(_, c) => c.Some? && Contains(c.value, part)
    case Cancelled(c) => c.Some? && Contains(c.value, part)
    case _ => false
  }

  lemma ContainsSelf(part: string)
    ensures Contains(part, part)
  {
    assert HasAt(part, part, 0);
  }

  lemma ContainsInside(before: string, text: string, after: string, part: string)
    requires Contains(text, part)
    ensures Contains(before + text + after, part)
  {
    var i :| HasAt(text, part, i);
    var all := before + text + after;
    var k := |before| + i;
    assert all[k..k + |part|] == text[i..i + |part|];
    assert HasAt(all, part, k);
  }

  lemma MergeTells(first: Option<Text>, second: Option<Text>, part: string)
    requires (first.Some? && Contains(first.value, part)) || (second.Some? && Contains(second.value, part))
    ensures Merge(first, second).Some? && Contains(Merge(first, second).value, part)
  {
    if first.Some? && second.Some? {
      if Contains(first.value, part) {
        ContainsInside("", first.value, "; " + second.value, part);
        assert "" + first.value + ("; " + second.value) == first.value + "; " + second.value;
      } else {
        ContainsInside(first.value + "; ", second.value, "", part);
        assert first.value + "; " + second.value + "" == first.value + "; " + second.value;
      }
    }
  }

  // ---------------------------------------------------------------------
  // The lifecycle seen by the observer
  // ---------------------------------------------------------------------

  /** A write to the watched state: a terminal state is never overwritten. */
  function SetState(current: ProcessState, next: ProcessState): ProcessState {
    if Terminal(current) then current else next
  }

  function SetAll(current: ProcessState, writes: seq<ProcessState>): ProcessState
    decreases |writes|
  {
    if |writes| == 0 then current else SetAll(SetState(current, writes[0]), writes[1..])
  }

  /** Once terminal, the observer sees the same state forever, whatever is written later. */
  lemma {:induction false} TerminalIsForever(current: ProcessState, writes: seq<ProcessState>)
    requires current.Finished? || current.Failed?
    ensures SetAll(current, writes) == current
    decreases |writes|
  {
    if |writes| > 0 {
      TerminalIsForever(SetState(current, writes[0]), writes[1..]);
    }
  }

  /** Until then it sees every write: the last one, or the first that is terminal. */
  lemma {:induction false} FirstTerminalStays(current: ProcessState, writes: seq<ProcessState>) returns (i: nat)
    requires !current.Finished? && !current.Failed?
    ensures |writes| == 0 ==> SetAll(current, writes) == current
    ensures |writes| > 0 ==>
              && i < |writes| && SetAll(current, writes) == writes[i]
              && (forall j :: 0 <= j < i ==> !writes[j].Finished? && !writes[j].Failed?)
              && (writes[i].Finished? || writes[i].Failed? || i == |writes| - 1)
    decreases |writes|
  {
    i := 0;
    if |writes| > 0 {
      if writes[0].Finished? || writes[0].Failed? {
        TerminalIsForever(writes[0], writes[1..]);
      } else if |writes| > 1 {
        var k := FirstTerminalStays(writes[0], writes[1..]);
        i := k + 1;
      }
    }
  }

  class Lifecycle {
    var state: ProcessState
    var stdout: Option<seq<byte>>
    var stderr: Option<seq<byte>>
    /** The states the observer was shown, in order. */
    ghost var seen: seq<ProcessState>

    constructor ()
      ensures state == Pending && stdout.None? && stderr.None? && seen == []
    {
      state, stdout, stderr, seen := Pending, None, None, [];
    }

    method Set(next: ProcessState)
      modifies this`state, this`seen
      ensures state == SetState(old(state), next)
      ensures seen == if Terminal(old(state)) then old(seen) else old(seen) + [next]
    {
      if !Terminal(state) {
        state, seen := next, seen + [next];
      }
    }
  }

  /** The handle of a guest process; `closes` counts the close handshakes attempted. */
  class RunningProcess {
    var closed: bool
    ghost var closes: nat

    constructor ()
      ensures !closed && closes == 0
    {
      closed, closes := false, 0;
    }

    /** Stop the process and discard its exit record. */
    method Close(outcome: Option<Text>) returns (error: Option<Text>)
      requires !closed
      modifies this
      ensures closes == old(closes) + 1 && error == outcome && closed == outcome.None?
    {
      closes := closes + 1;
      closed := outcome.None?;
      error := outcome;
    }
  }

  // ---------------------------------------------------------------------
  // Output routes and drains
  // ---------------------------------------------------------------------

  datatype Output = Discard | GuestFile | CaptureTo(options: Options) | HostFile

  predicate HostRoute(o: Output) {
    o.CaptureTo? || o.HostFile?
  }

  /** What happens to one drain: its stream delivers some bytes and ends, an I/O
      operation fails, memory runs out, or the drain itself is lost. */
  datatype Feed =
    | Delivers(chunks: seq<seq<byte>>)
    | Breaks(message: Text)
    | OutOfMemory(requested: nat)
    | Lost(message: Text)

  datatype Join = Drained(stream: OutputStream, captured: Option<seq<byte>>) | DrainFailed(error: ProcessError)

  /** How the drain of one host route ends. */
  ghost predicate EndsAs(stream: OutputStream, route: Output, feed: Feed, j: Join) {
    match feed
    case Lost(m) => j == DrainFailed(OutputFailed(Stdout, m, None))
    case Breaks(m) => j == DrainFailed(OutputFailed(stream, m, None))
    case OutOfMemory(n) => j == DrainFailed(OutputAllocationFailed(stream, n, None))
    case Delivers(chunks) =>
      if route.CaptureTo? then
        (match j
         case Drained(s, c) => s == stream && c.Some? && IsCapture(route.options, Delivered(chunks), Captured(c.value))
         case DrainFailed(e) =>
           && e == OutputLimitExceeded(stream, route.options.limit, None)
           && IsCapture(route.options, Delivered(chunks), LimitExceeded(route.options.limit)))
      else j == Drained(stream, None)
  }

  /** The joins in the order the drains complete: one per host route. */
  ghost predicate JoinsOf(stdout: Output, stderr: Output, outFeed: Feed, errFeed: Feed, joins: seq<Join>) {
    if HostRoute(stdout) && HostRoute(stderr) then
      |joins| == 2 &&
      ((EndsAs(Stdout, stdout, outFeed, joins[0]) && EndsAs(Stderr, stderr, errFeed, joins[1])) ||
       (EndsAs(Stderr, stderr, errFeed, joins[0]) && EndsAs(Stdout, stdout, outFeed, joins[1])))
    else if HostRoute(stdout) then |joins| == 1 && EndsAs(Stdout, stdout, outFeed, joins[0])
    else if HostRoute(stderr) then |joins| == 1 && EndsAs(Stderr, stderr, errFeed, joins[0])
    else joins == []
  }

  /** How the select loop ends, after at most `drainsFirst` completed drains. */
  datatype Ending = WaitOk(exit: Exit) | WaitErr(message: Text) | Timer | CancelRequest

  /** Everything outside the runner's control in one run. */
  datatype Script = Script(
    cancelledFirst: bool,
    spawn: Option<Text>,
    bindOut: Option<Text>,
    bindErr: Option<Text>,
    outFeed: Feed,
    errFeed: Feed,
    joins: seq<Join>,
    drainsFirst: nat,
    ending: Ending,
    close: Option<Text>)

  datatype Job = Job(stdout: Output, stderr: Output, timeout: Option<nat>)

  ghost predicate Possible(job: Job, s: Script) {
    && JoinsOf(job.stdout, job.stderr, s.outFeed, s.errFeed, s.joins)
    && (s.ending.Timer? ==> job.timeout.Some?)
  }

  /** Binding fails for a host route whose bind request fails. */
  predicate BindFails(job: Job, s: Script) {
    (HostRoute(job.stdout) && s.bindOut.Some?) || (HostRoute(job.stderr) && s.bindErr.Some?)
  }

  predicate AllDrained(joins: seq<Join>) {
    DrainedIn(joins, 0, |joins|)
  }

  predicate DrainedIn(joins: seq<Join>, from: nat, to: nat)
    requires to <= |joins|
  {
    forall i :: from <= i < to ==> joins[i].Drained?
  }

  /** A rendering of the error; its exact wording does not matter here. */
  function Render(e: ProcessError): Text {
    match e
    case Spawn(m) => "spawn: " + m
    case WaitFailed(m) => "wait: " + m
    case CleanupFailed(m) => "cleanup: " + m
    case OutputFailed(_, m, _) => "output: " + m
    case OutputLimitExceeded(_, _, _) => "over limit"
    case OutputAllocationFailed(_, _, _) => "no memory"
    case UnsuccessfulExit(_) => "bad exit"
    case TimedOut(_, _) => "timed out"
    case Cancelled(_) => "cancelled"
  }

  /** Join every remaining drain. The first error wins and nothing is left running. */
  method FinishDrains(joins: seq<Join>, from: nat) returns (error: Option<ProcessError>, joined: nat)
    requires from <= |joins|
    ensures joined == |joins| - from
    ensures error.None? <==> DrainedIn(joins, from, |joins|)
    ensures error.Some? ==>
              exists i :: from <= i < |joins| && joins[i] == DrainFailed(error.value) && DrainedIn(joins, from, i)
  {
    error, joined := None, 0;
    for n := from to |joins|
      invariant joined == n - from
      invariant error.None? <==> DrainedIn(joins, from, n)
      invariant error.Some? ==>
                  exists i :: from <= i < n && joins[i] == DrainFailed(error.value) && DrainedIn(joins, from, i)
    {
      joined := joined + 1;
      if joins[n].DrainFailed? && error.None? {
        error := Some(joins[n].error);
      }
    }
  }

  /** The select loop: complete drains until one fails or the run ends otherwise. */
  method Select(joins: seq<Join>, drainsFirst: nat) returns (error: Option<ProcessError>, joined: nat)
    ensures joined <= |joins| && joined <= drainsFirst
    ensures error.Some? ==>
              joined > 0 && joins[joined - 1] == DrainFailed(error.value) && DrainedIn(joins, 0, joined - 1)
    ensures error.None? ==> DrainedIn(joins, 0, joined) && (joined == drainsFirst || joined == |joins|)
  {
    error, joined := None, 0;
    while joined < drainsFirst && joined < |joins|
      invariant joined <= |joins| && joined <= drainsFirst && DrainedIn(joins, 0, joined)
    {
      joined := joined + 1;
      if joins[joined - 1].DrainFailed? {
        return Some(joins[joined - 1].error), joined;
      }
    }
  }

  /** The last bytes a completed drain recorded for a stream. */
  function LastCaptured(joins: seq<Join>, stream: OutputStream, initial: Option<seq<byte>>): Option<seq<byte>>
    decreases |joins|
  {
    if |joins| == 0 then initial
    else
      var last := joins[|joins| - 1];
      if last.Drained? && last.stream == stream && last.captured.Some? then last.captured
      else LastCaptured(joins[..|joins| - 1], stream, initial)
  }

  method Retain(lifecycle: Lifecycle, joins: seq<Join>)
    requires AllDrained(joins)
    modifies lifecycle`stdout, lifecycle`stderr
    ensures lifecycle.stdout == LastCaptured(joins, Stdout, old(lifecycle.stdout))
    ensures lifecycle.stderr == LastCaptured(joins, Stderr, old(lifecycle.stderr))
  {
    for n := 0 to |joins|
      invariant lifecycle.stdout == LastCaptured(joins[..n], Stdout, old(lifecycle.stdout))
      invariant lifecycle.stderr == LastCaptured(joins[..n], Stderr, old(lifecycle.stderr))
    {
      assert joins[..n + 1][..n] == joins[..n];
      if joins[n].captured.Some? {
        match joins[n].stream {
          case Stdout => lifecycle.stdout := joins[n].captured;
          case Stderr => lifecycle.stderr := joins[n].captured;
        }
      }
    }
    assert joins[..|joins|] == joins;
  }

  /** What the observer finds recorded for a route after a finished run. */
  ghost predicate Recorded(route: Output, feed: Feed, initial: Option<seq<byte>>, r: Option<seq<byte>>) {
    if route.CaptureTo? then
      r.Some? && feed.Delivers? && IsCapture(route.options, Delivered(feed.chunks), Captured(r.value))
    else r == initial
  }

  lemma LastCapturedIsRecorded(job: Job, s: Script, out: Option<seq<byte>>, err: Option<seq<byte>>)
    requires Possible(job, s) && AllDrained(s.joins)
    ensures Recorded(job.stdout, s.outFeed, out, LastCaptured(s.joins, Stdout, out))
    ensures Recorded(job.stderr, s.errFeed, err, LastCaptured(s.joins, Stderr, err))
  {
    var j := s.joins;
    forall stream, initial: Option<seq<byte>> | |j| > 0
      ensures LastCaptured(j[..1], stream, initial) ==
              if j[0].Drained? && j[0].stream == stream && j[0].captured.Some? then j[0].captured else initial
    {
      assert j[..1][..0] == [];
      assert LastCaptured([], stream, initial) == initial;
    }
    if |j| == 1 {
      assert j[..1] == j;
    }
  }

  lemma JoinErrorsFromOutput(job: Job, s: Script)
    requires Possible(job, s)
    ensures forall i :: 0 <= i < |s.joins| && s.joins[i].DrainFailed? ==>
              FromOutput(s.joins[i].error) && CleanupOf(s.joins[i].error).None?
  {
  }

  /** The error an interrupted or failed run reports, given how closing and draining went. */
  function FailureOf(job: Job, s: Script, output: Option<ProcessError>,
                     drains: Option<ProcessError>): Option<ProcessError> {
    var drained := if drains.Some? then Some(Render(drains.value)) else None;
    if output.Some? then Some(WithCleanup(output.value, Merge(s.close, drained)))
    else match s.ending
      case WaitOk(exit) =>
        if drains.Some? then Some(WithCleanup(drains.value, s.close))
        else if s.close.Some? then Some(CleanupFailed(s.close.value))
        else if !Success(exit) then Some(UnsuccessfulExit(exit))
        else None
      case WaitErr(m) =>
        if drains.Some? then Some(WithCleanup(drains.value, Merge(Some("wait failed: " + m), s.close)))
        else if s.close.Some? then Some(CleanupFailed("wait failed: " + m + "; cleanup failed: " + s.close.value))
        else Some(WaitFailed(m))
      case Timer => Some(TimedOut(if job.timeout.Some? then job.timeout.value else 0, Merge(s.close, drained)))
      case CancelRequest => Some(Cancelled(Merge(s.close, drained)))
  }

  // ---------------------------------------------------------------------
  // Which error a run reports
  // ---------------------------------------------------------------------

  /** The first drain to end badly, in the order they end. */
  predicate FirstFailing(joins: seq<Join>, i: int) {
    0 <= i < |joins| && joins[i].DrainFailed? && DrainedIn(joins, 0, i)
  }

  /** The same failure of the same stream, whatever is told about the cleanup. */
  predicate SameFailure(e: ProcessError, f: ProcessError) {
    match f
    case OutputFailed(s, m, _) => e.OutputFailed? && e.stream == s && e.message == m
    case OutputLimitExceeded(s, l, _) => e.OutputLimitExceeded? && e.stream == s && e.limit == l
    case OutputAllocationFailed(s, n, _) => e.OutputAllocationFailed? && e.stream == s && e.requested == n
    case _ => false
  }

  /** What a run that got its process reports. A bind that failed names its stream. A drain
      that failed is reported if it was seen before the run ended, or if the run ended by
      itself. Otherwise the way it ended decides: a timer, a cancellation, a failed wait,
      a failed close, an unsuccessful exit. */
  ghost predicate Reported(job: Job, s: Script, e: ProcessError) {
    if (job.stdout.CaptureTo? || job.stdout.HostFile?) && s.bindOut.Some? then
      e == OutputFailed(Stdout, s.bindOut.value, s.close)
    else if (job.stderr.CaptureTo? || job.stderr.HostFile?) && s.bindErr.Some? then
      e == OutputFailed(Stderr, s.bindErr.value, s.close)
    else if exists i :: FirstFailing(s.joins, i) && (i < s.drainsFirst || s.ending.WaitOk? || s.ending.WaitErr?) then
      exists i :: FirstFailing(s.joins, i) && SameFailure(e, s.joins[i].error)
    else match s.ending
      case Timer => e.TimedOut? && job.timeout == Some(e.after)
      case CancelRequest => e.Cancelled?
      case WaitOk(exit) => e == if s.close.Some? then CleanupFailed(s.close.value) else UnsuccessfulExit(exit)
      case WaitErr(m) =>
        e == if s.close.Some? then CleanupFailed("wait failed: " + m + "; cleanup failed: " + s.close.value)
             else WaitFailed(m)
  }

  /** What is told about the cleanup begins with the failed wait or the failed close; without
      either, and with all drains ended well, there is nothing to tell. */
  ghost predicate CleanupTold(s: Script, e: ProcessError) {
    && (CleanupOf(e).Some? && s.ending.WaitErr? && !(exists i :: FirstFailing(s.joins, i) && i < s.drainsFirst) ==>
          "wait failed: " + s.ending.message <= CleanupOf(e).value)
    && (CleanupOf(e).Some? && s.close.Some? && !s.ending.WaitErr? ==> s.close.value <= CleanupOf(e).value)
    && (s.close.None? && AllDrained(s.joins) ==> CleanupOf(e).None?)
  }

  lemma OnlyOneIsFirst(joins: seq<Join>, i: int, j: int)
    requires FirstFailing(joins, i) && FirstFailing(joins, j)
    ensures i == j
  {
  }

  /** What the select loop and the final joins saw, told by the first drain that failed. */
  ghost predicate Saw(joins: seq<Join>, drainsFirst: nat, output: Option<ProcessError>, drains: Option<ProcessError>) {
    if output.Some? then exists i :: FirstFailing(joins, i) && i < drainsFirst && joins[i].error == output.value
    else if drains.Some? then exists i :: FirstFailing(joins, i) && i >= drainsFirst && joins[i].error == drains.value
    else AllDrained(joins)
  }

  lemma DrainsTell(joins: seq<Join>, drainsFirst: nat, selected: nat, output: Option<ProcessError>,
                   drains: Option<ProcessError>)
    requires selected <= |joins| && selected <= drainsFirst
    requires output.Some? ==>
               selected > 0 && joins[selected - 1] == DrainFailed(output.value) && DrainedIn(joins, 0, selected - 1)
    requires output.None? ==> DrainedIn(joins, 0, selected) && (selected == drainsFirst || selected == |joins|)
    requires drains.None? <==> DrainedIn(joins, selected, |joins|)
    requires drains.Some? ==>
               exists i :: selected <= i < |joins| && joins[i] == DrainFailed(drains.value)
                           && DrainedIn(joins, selected, i)
    ensures Saw(joins, drainsFirst, output, drains)
  {
    if output.Some? {
      assert FirstFailing(joins, selected - 1);
    } else if drains.Some? {
      var i :| selected <= i < |joins| && joins[i] == DrainFailed(drains.value) && DrainedIn(joins, selected, i);
      assert FirstFailing(joins, i);
    }
  }

  lemma WithCleanupIsSame(e: ProcessError, cleanup: Option<Text>)
    requires FromOutput(e)
    ensures SameFailure(WithCleanup(e, cleanup), e)
  {
  }

  lemma FailureIsReported(job: Job, s: Script, output: Option<ProcessError>, drains: Option<ProcessError>)
    requires Possible(job, s) && !BindFails(job, s) && Saw(s.joins, s.drainsFirst, output, drains)
    requires FailureOf(job, s, output, drains).Some?
    ensures Reported(job, s, FailureOf(job, s, output, drains).value)
  {
    JoinErrorsFromOutput(job, s);
    var e := FailureOf(job, s, output, drains).value;
    if output.Some? {
      var i :| FirstFailing(s.joins, i) && i < s.drainsFirst && s.joins[i].error == output.value;
      assert SameFailure(e, s.joins[i].error);
    } else if drains.Some? {
      var i :| FirstFailing(s.joins, i) && i >= s.drainsFirst && s.joins[i].error == drains.value;
      if s.ending.Timer? || s.ending.CancelRequest? {
        forall k | FirstFailing(s.joins, k)
          ensures k >= s.drainsFirst
        {
          OnlyOneIsFirst(s.joins, i, k);
        }
      } else {
        assert SameFailure(e, s.joins[i].error);
      }
    }
  }

  lemma MergeBegins(first: Option<Text>, second: Option<Text>)
    requires first.Some?
    ensures Merge(first, second).Some? && first.value <= Merge(first, second).value
  {
  }

  lemma FailureTellsCleanup(job: Job, s: Script, output: Option<ProcessError>, drains: Option<ProcessError>)
    requires Possible(job, s) && Saw(s.joins, s.drainsFirst, output, drains)
    requires FailureOf(job, s, output, drains).Some?
    ensures CleanupTold(s, FailureOf(job, s, output, drains).value)
  {
    JoinErrorsFromOutput(job, s);
    var drained := if drains.Some? then Some(Render(drains.value)) else None;
    if s.close.Some? {
      MergeBegins(s.close, drained);
    }
    if s.ending.WaitErr? {
      MergeBegins(Some("wait failed: " + s.ending.message), s.close);
    }
  }

  lemma WithCleanupTells(e: ProcessError, cleanup: Option<Text>, part: string)
    requires FromOutput(e) && cleanup.Some? && Contains(cleanup.value, part)
    ensures Tells(WithCleanup(e, cleanup), part)
  {
    var previous := match e
      case OutputFailed(_, _, p) => p
      case OutputLimitExceeded(_, _, p) => p
      case OutputAllocationFailed(_, _, p) => p
      case _ => None;
    MergeTells(previous, cleanup, part);
  }

  /** A failed close is never swallowed: the reported error tells about it. */
  lemma CloseFailureIsTold(job: Job, s: Script, output: Option<ProcessError>, drains: Option<ProcessError>)
    requires s.close.Some?
    requires output.Some? ==> FromOutput(output.value)
    requires drains.Some? ==> FromOutput(drains.value)
    ensures FailureOf(job, s, output, drains).Some? && Tells(FailureOf(job, s, output, drains).value, s.close.value)
  {
    var part := s.close.value;
    ContainsSelf(part);
    var drained := if drains.Some? then Some(Render(drains.value)) else None;
    MergeTells(s.close, drained, part);
    if output.Some? {
      WithCleanupTells(output.value, Merge(s.close, drained), part);
    } else if s.ending.WaitOk? && drains.Some? {
      WithCleanupTells(drains.value, s.close, part);
    } else if s.ending.WaitErr? {
      var m := "wait failed: " + s.ending.message;
      MergeTells(Some(m), s.close, part);
      if drains.Some? {
        WithCleanupTells(drains.value, Merge(Some(m), s.close), part);
      } else {
        ContainsInside(m + "; cleanup failed: ", part, "", part);
        assert m + "; cleanup failed: " + part + "" == "wait failed: " + s.ending.message + "; cleanup failed: " + part;
      }
    }
  }

  method Fail(lifecycle: Lifecycle?, error: ProcessError) returns (result: RunResult)
    modifies if lifecycle != null then {lifecycle} else {}
    ensures result == Err(error)
    ensures lifecycle != null ==>
              && lifecycle.state == SetState(old(lifecycle.state), Failed(error))
              && (!Terminal(old(lifecycle.state)) ==> lifecycle.seen == old(lifecycle.seen) + [Failed(error)])
              && lifecycle.stdout == old(lifecycle.stdout) && lifecycle.stderr == old(lifecycle.stderr)
  {
    if lifecycle != null {
      lifecycle.Set(Failed(error));
    }
    result := Err(error);
  }

  /** After a successful spawn: bind and drain the output, wait, close, publish. */
  method Supervise(job: Job, s: Script, lifecycle: Lifecycle?, process: RunningProcess)
    returns (result: RunResult, ghost joined: nat)
    requires Possible(job, s) && !process.closed && process.closes == 0
    modifies process, if lifecycle != null then {lifecycle} else {}
    ensures process.closes == 1
    ensures joined == if BindFails(job, s) then 0 else |s.joins|
    ensures result.Ok? <==>
              && !BindFails(job, s) && s.ending == WaitOk(Exit(Some(0), None)) && s.close.None? && AllDrained(s.joins)
    ensures result.Ok? ==> result.exit == s.ending.exit
    ensures result.Err? ==> Reported(job, s, result.error)
    ensures result.Err? && !BindFails(job, s) ==> CleanupTold(s, result.error)
    ensures s.close.Some? ==> result.Err? && Tells(result.error, s.close.value)
    ensures lifecycle != null ==> lifecycle.state == SetState(old(lifecycle.state), Published(result))
    ensures lifecycle != null && !Terminal(old(lifecycle.state)) ==>
              lifecycle.seen == old(lifecycle.seen) + [Published(result)]
    ensures lifecycle != null && result.Err? ==>
              lifecycle.stdout == old(lifecycle.stdout) && lifecycle.stderr == old(lifecycle.stderr)
    ensures lifecycle != null && result.Ok? ==>
              && Recorded(job.stdout, s.outFeed, old(lifecycle.stdout), lifecycle.stdout)
              && Recorded(job.stderr, s.errFeed, old(lifecycle.stderr), lifecycle.stderr)
  {
    joined := 0;
    if BindFails(job, s) {
      var error := if HostRoute(job.stdout) && s.bindOut.Some? then OutputFailed(Stdout, s.bindOut.value, None)
                   else OutputFailed(Stderr, s.bindErr.value, None);
      var cleanup := process.Close(s.close);
      if s.close.Some? {
        ContainsSelf(s.close.value);
        WithCleanupTells(error, cleanup, s.close.value);
      }
      result := Fail(lifecycle, WithCleanup(error, cleanup));
      return;
    }
    JoinErrorsFromOutput(job, s);
    var output, selected := Select(s.joins, s.drainsFirst);
    var cleanup := process.Close(s.close);
    var drains, rest := FinishDrains(s.joins, selected);
    joined := selected + rest;
    if s.close.Some? {
      CloseFailureIsTold(job, s, output, drains);
    }
    DrainsTell(s.joins, s.drainsFirst, selected, output, drains);
    var failure := FailureOf(job, s, output, drains);
    if failure.Some? {
      FailureIsReported(job, s, output, drains);
      FailureTellsCleanup(job, s, output, drains);
      result := Fail(lifecycle, failure.value);
    } else {
      if lifecycle != null {
        LastCapturedIsRecorded(job, s, lifecycle.stdout, lifecycle.stderr);
        Retain(lifecycle, s.joins);
        lifecycle.Set(Finished(s.ending.exit));
      }
      result := Ok(s.ending.exit);
    }
  }

  /** One run. From a state that is not terminal, the observer ends up with exactly
      the returned result; after a successful spawn the process is closed exactly
      once and every started drain is joined; captured bytes are recorded only by a
      run that finishes, and are then the capture of what the guest wrote. */
  method RunDirectProcess(job: Job, s: Script, lifecycle: Lifecycle?)
    returns (result: RunResult, ghost closes: nat, ghost joined: nat)
    requires Possible(job, s)
    modifies if lifecycle != null then {lifecycle} else {}
    ensures lifecycle != null && !Terminal(old(lifecycle.state)) ==> lifecycle.state == Published(result)
    ensures lifecycle != null && (old(lifecycle.state).Finished? || old(lifecycle.state).Failed?) ==>
              lifecycle.state == old(lifecycle.state)
    ensures closes == if s.cancelledFirst || s.spawn.Some? then 0 else 1
    ensures joined == if closes == 0 || BindFails(job, s) then 0 else |s.joins|
    ensures result.Ok? <==>
              closes == 1 && !BindFails(job, s) && s.ending == WaitOk(Exit(Some(0), None))
              && s.close.None? && AllDrained(s.joins)
    ensures result.Ok? ==> result.exit == s.ending.exit
    ensures s.cancelledFirst ==> result == Err(Cancelled(None))
    ensures !s.cancelledFirst && s.spawn.Some? ==> result == Err(Spawn(s.spawn.value))
    ensures closes == 1 && result.Err? ==> Reported(job, s, result.error)
    ensures closes == 1 && result.Err? && !BindFails(job, s) ==> CleanupTold(s, result.error)
    ensures lifecycle != null && !Terminal(old(lifecycle.state)) ==>
              lifecycle.seen
              == old(lifecycle.seen) + [Starting] + (if closes == 1 then [Running] else []) + [Published(result)]
    ensures closes == 1 && s.close.Some? ==> result.Err? && Tells(result.error, s.close.value)
    ensures lifecycle != null && result.Err? ==>
              lifecycle.stdout == old(lifecycle.stdout) && lifecycle.stderr == old(lifecycle.stderr)
    ensures lifecycle != null && result.Ok? ==>
              && Recorded(job.stdout, s.outFeed, old(lifecycle.stdout), lifecycle.stdout)
              && Recorded(job.stderr, s.errFeed, old(lifecycle.stderr), lifecycle.stderr)
  {
    closes, joined := 0, 0;
    if lifecycle != null {
      lifecycle.Set(Starting);
    }
    if s.cancelledFirst {
      result := Fail(lifecycle, Cancelled(None));
      return;
    }
    if s.spawn.Some? {
      result := Fail(lifecycle, Spawn(s.spawn.value));
      return;
    }
    var process := new RunningProcess();
    if lifecycle != null {
      lifecycle.Set(Running);
    }
    result, joined := Supervise(job, s, lifecycle, process);
    closes := process.closes;
  }
}
