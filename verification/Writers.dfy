/** Any number of processes publishing files under shared names: each writes a
    temporary sibling and renames it into place, retrying while others contend.
    A writer takes one step at a time, its steps interleave with everyone else's,
    and it may stop for good between any two of them. */
module Writers {
  import opened Common

  /** Retries after the first contended rename. */
  const PUBLISH_RETRY_ATTEMPTS: nat := 3

  /** How a rename ends: done, lost to a concurrent writer, or failed otherwise. */
  datatype Rename = Renamed | RenameContended | RenameFailed

  /** How a validation read ends. */
  datatype Validation = Matches | Differs | ReadContended | ReadFailed

  datatype Publication = Published | Refused

  /** What a writer does next. */
  datatype Position =
    | Writing
    | Ready
    | ToValidate(attempt: nat)
    | ToRetry(attempt: nat)
    | ToRemoveStale
    | ToRenameLast
    | ToDiscard(outcome: Publication)
    | ToDiscardAgain
    | Finished(result: Publication)
    | Dead

  /** One call that publishes content under a name. The temporary file is its own:
      no other writer uses its name. */
  datatype Writer<N, C> = Writer(
    name: N,
    content: C,
    at: Position,
    temp: Option<C>,
    renames: nat,
    validations: nat,
    // an own rename won; a validation saw the content; a removal of the temporary
    // file failed; something failed for a reason other than contention
    won: bool,
    seen: bool,
    stuck: bool,
    broken: bool)

  datatype World<N, C> = World(files: map<N, C>, writers: map<int, Writer<N, C>>)

  datatype Step<N, C> =
    | Spawn(w: int, name: N, content: C)
    | WriteSome(w: int, partial: C)
    | WriteAll(w: int)
    | FailWrite(w: int)
    | TryRename(w: int, rename: Rename)
    | TryValidate(w: int, validation: Validation)
    | RemoveStale(w: int, removes: bool)
    | Discard(w: int, removes: bool)
    | Crash(w: int)

  // ---------------------------------------------------------------------
  // Steps
  // ---------------------------------------------------------------------

  predicate Holds<N, C(==)>(files: map<N, C>, n: N, c: C) {
    n in files && files[n] == c
  }

  /** What a step asks of the writer that takes it. */
  predicate May<N, C(==)>(files: map<N, C>, x: Writer<N, C>, step: Step<N, C>) {
    match step
    case Spawn(_, _, _) => false
    case WriteSome(_, _) => x.at == Writing
    case WriteAll(_) => x.at == Writing
    case FailWrite(_) => x.at == Writing
    case TryRename(_, rename) =>
      (x.at == Ready || x.at.ToRetry? || x.at == ToRenameLast) && (rename == Renamed ==> x.temp.Some?)
    case TryValidate(_, validation) =>
      && x.at.ToValidate?
      && (validation == Matches ==> Holds(files, x.name, x.content))
      && (validation == Differs ==> !Holds(files, x.name, x.content))
    case RemoveStale(_, _) => x.at == ToRemoveStale
    case Discard(_, _) => x.at.ToDiscard? || x.at == ToDiscardAgain
    case Crash(_) => !x.at.Finished?
  }

  /** Only content offered for a name is ever published under it. */
  predicate CanStep<N, C(==)>(offered: (N, C) -> bool, s: World<N, C>, step: Step<N, C>) {
    if step.Spawn? then step.w !in s.writers && offered(step.name, step.content)
    else step.w in s.writers && May(s.files, s.writers[step.w], step)
  }

  /** After a rename that did not win. */
  function Beaten(at: Position, rename: Rename): Position {
    if rename == RenameFailed || at == ToRenameLast then ToDiscard(Refused)
    else if at == Ready then ToValidate(0)
    else if at.ToRetry? && at.attempt < PUBLISH_RETRY_ATTEMPTS then ToValidate(at.attempt + 1)
    else ToRemoveStale
  }

  function Moved<N, C>(x: Writer<N, C>, step: Step<N, C>): Writer<N, C> {
    match step
    case Spawn(_, _, _) => x
    case WriteSome(_, partial) => x.(temp := Some(partial))
    case WriteAll(_) => x.(temp := Some(x.content), at := Ready)
    case FailWrite(_) => x.(at := ToDiscardAgain, broken := true)
    case TryRename(_, rename) =>
      if rename == Renamed then x.(at := Finished(Published), temp := None, renames := x.renames + 1, won := true)
      else x.(at := Beaten(x.at, rename), renames := x.renames + 1, broken := x.broken || rename == RenameFailed)
    case TryValidate(_, validation) =>
      var y := x.(validations := x.validations + 1);
      if validation == Matches then y.(at := ToDiscard(Published), seen := true)
      else if validation == ReadFailed then y.(at := ToDiscard(Refused), broken := true)
      else if x.at.ToValidate? then y.(at := ToRetry(x.at.attempt)) else y
    case RemoveStale(_, _) => x.(at := ToRenameLast)
    case Discard(_, removes) =>
      x.(at := match x.at
               case ToDiscard(Published) => Finished(Published)
               case ToDiscard(Refused) => ToDiscardAgain
               case _ => Finished(Refused),
         temp := if removes then None else x.temp,
         stuck := x.stuck || (!removes && x.temp.Some?))
    case Crash(_) => x.(at := Dead)
  }

  function FilesAfter<N, C>(files: map<N, C>, x: Writer<N, C>, step: Step<N, C>): map<N, C> {
    if step.TryRename? && step.rename == Renamed && x.temp.Some? then files[x.name := x.temp.value]
    else if step.RemoveStale? && step.removes then files - {x.name}
    else files
  }

  function DoStep<N, C(==)>(offered: (N, C) -> bool, s: World<N, C>, step: Step<N, C>): World<N, C>
    requires CanStep(offered, s, step)
  {
    if step.Spawn? then
      s.(writers := s.writers[step.w := Writer(step.name, step.content, Writing, None,
                                               0, 0, false, false, false, false)])
    else
      var x := s.writers[step.w];
      World(FilesAfter(s.files, x, step), s.writers[step.w := Moved(x, step)])
  }

  // ---------------------------------------------------------------------
  // The invariant of one writer
  // ---------------------------------------------------------------------

  /** How much of the budget of renames and validations is used at a position. */
  predicate BudgetInv(at: Position, renames: nat, validations: nat) {
    match at
    case Writing => renames == 0 && validations == 0
    case Ready => renames == 0 && validations == 0
    case ToValidate(k) => k <= PUBLISH_RETRY_ATTEMPTS && renames == k + 1 && validations == k
    case ToRetry(k) => k <= PUBLISH_RETRY_ATTEMPTS && renames == k + 1 && validations == k + 1
    case ToRemoveStale => renames == 5 && validations == 4
    case ToRenameLast => renames == 5 && validations == 4
    case _ => renames <= 6 && validations <= 4
  }

  /** From the complete write until its fate is decided the temporary file is whole. */
  predicate Armed(at: Position) {
    at == Ready || at.ToValidate? || at.ToRetry? || at == ToRemoveStale || at == ToRenameLast
  }

  predicate Refusing(at: Position) {
    at == ToDiscard(Refused) || at == ToDiscardAgain || at == Finished(Refused)
  }

  predicate WriterInv<N, C(==)>(x: Writer<N, C>) {
    && BudgetInv(x.at, x.renames, x.validations)
    && (Armed(x.at) ==> x.temp == Some(x.content))
    && (x.at.Finished? && x.temp.Some? ==> x.stuck)
    && (x.at == ToDiscard(Published) ==> x.seen)
    && (x.at == Finished(Published) ==> x.won || x.seen)
    && (x.won ==> x.at == Finished(Published))
    && (Refusing(x.at) ==> x.broken || (x.renames == 6 && x.validations == 4))
  }

  lemma RenameKeepsWriter<N, C>(files: map<N, C>, x: Writer<N, C>, step: Step<N, C>)
    requires WriterInv(x) && step.TryRename? && May(files, x, step)
    ensures WriterInv(Moved(x, step))
  {
  }

  lemma ValidateKeepsWriter<N, C>(files: map<N, C>, x: Writer<N, C>, step: Step<N, C>)
    requires WriterInv(x) && step.TryValidate? && May(files, x, step)
    ensures WriterInv(Moved(x, step))
  {
  }

  lemma DiscardKeepsWriter<N, C>(files: map<N, C>, x: Writer<N, C>, step: Step<N, C>)
    requires WriterInv(x) && step.Discard? && May(files, x, step)
    ensures WriterInv(Moved(x, step))
  {
  }

  lemma MoveKeepsWriter<N, C>(files: map<N, C>, x: Writer<N, C>, step: Step<N, C>)
    requires WriterInv(x) && May(files, x, step)
    ensures WriterInv(Moved(x, step))
  {
    match step
    case TryRename(_, _) => RenameKeepsWriter(files, x, step);
    case TryValidate(_, _) => ValidateKeepsWriter(files, x, step);
    case Discard(_, _) => DiscardKeepsWriter(files, x, step);
    case _ =>
  }

  // ---------------------------------------------------------------------
  // The invariant of all writers together
  // ---------------------------------------------------------------------

  ghost predicate Sound<N, C>(offered: (N, C) -> bool, x: Writer<N, C>) {
    WriterInv(x) && offered(x.name, x.content)
  }

  /** Some writer of that name has exactly this content to publish. */
  ghost predicate SomeWriters<N, C>(s: World<N, C>, n: N, c: C) {
    exists w :: w in s.writers && s.writers[w].name == n && s.writers[w].content == c
  }

  /** A name holds what it held at the start, or one writer's complete content. */
  ghost predicate Complete<N, C>(initial: map<N, C>, s: World<N, C>, n: N) {
    n in s.files ==> Holds(initial, n, s.files[n]) || SomeWriters(s, n, s.files[n])
  }

  ghost predicate WorldInv<N(!new), C>(offered: (N, C) -> bool, initial: map<N, C>, s: World<N, C>) {
    && (forall w :: w in s.writers ==> Sound(offered, s.writers[w]))
    && (forall n :: Complete(initial, s, n))
  }

  lemma StepKeepsWriters<N, C>(offered: (N, C) -> bool, s: World<N, C>, step: Step<N, C>, w: int)
    requires CanStep(offered, s, step) && forall v :: v in s.writers ==> Sound(offered, s.writers[v])
    requires w in DoStep(offered, s, step).writers
    ensures Sound(offered, DoStep(offered, s, step).writers[w])
  {
    if step.w == w && !step.Spawn? {
      MoveKeepsWriter(s.files, s.writers[w], step);
    }
  }

  /** Writers keep their names and contents. */
  lemma StepKeepsContents<N, C>(offered: (N, C) -> bool, s: World<N, C>, step: Step<N, C>, n: N, c: C)
    requires CanStep(offered, s, step) && SomeWriters(s, n, c)
    ensures SomeWriters(DoStep(offered, s, step), n, c)
  {
    var w :| w in s.writers && s.writers[w].name == n && s.writers[w].content == c;
    assert DoStep(offered, s, step).writers[w].name == n && DoStep(offered, s, step).writers[w].content == c;
  }

  lemma StepKeepsComplete<N(!new), C>(offered: (N, C) -> bool, initial: map<N, C>, s: World<N, C>,
                                      step: Step<N, C>, n: N)
    requires CanStep(offered, s, step) && WorldInv(offered, initial, s)
    ensures Complete(initial, DoStep(offered, s, step), n)
  {
    var s' := DoStep(offered, s, step);
    assert Complete(initial, s, n);
    if n in s'.files && n in s.files && s'.files[n] == s.files[n] {
      if SomeWriters(s, n, s.files[n]) {
        StepKeepsContents(offered, s, step, n, s.files[n]);
      }
    } else if n in s'.files {
      assert Sound(offered, s.writers[step.w]);
      assert s'.writers[step.w].name == n && s'.writers[step.w].content == s'.files[n];
    }
  }

  lemma StepKeepsWorld<N(!new), C>(offered: (N, C) -> bool, initial: map<N, C>, s: World<N, C>, step: Step<N, C>)
    requires CanStep(offered, s, step) && WorldInv(offered, initial, s)
    ensures WorldInv(offered, initial, DoStep(offered, s, step))
  {
    var s' := DoStep(offered, s, step);
    forall w | w in s'.writers
      ensures Sound(offered, s'.writers[w])
    {
      StepKeepsWriters(offered, s, step, w);
    }
    forall n: N
      ensures Complete(initial, s', n)
    {
      StepKeepsComplete(offered, initial, s, step, n);
    }
  }

  // ---------------------------------------------------------------------
  // Runs
  // ---------------------------------------------------------------------

  ghost predicate IsRun<N, C>(offered: (N, C) -> bool, worlds: seq<World<N, C>>, steps: seq<Step<N, C>>) {
    && |worlds| == |steps| + 1 && worlds[0].writers == map[]
    && forall i :: 0 <= i < |steps| ==>
         CanStep(offered, worlds[i], steps[i]) && worlds[i + 1] == DoStep(offered, worlds[i], steps[i])
  }

  lemma {:induction false} RunInv<N(!new), C>(offered: (N, C) -> bool, worlds: seq<World<N, C>>,
                                              steps: seq<Step<N, C>>, i: nat)
    requires IsRun(offered, worlds, steps) && i < |worlds|
    ensures WorldInv(offered, worlds[0].files, worlds[i])
  {
    if i == 0 {
      assert forall n :: Complete(worlds[0].files, worlds[0], n);
    } else {
      RunInv(offered, worlds, steps, i - 1);
      StepKeepsWorld(offered, worlds[0].files, worlds[i - 1], steps[i - 1]);
    }
  }

  /** Whatever the writers do, in whatever order, and wherever any of them stops: at
      every moment a name is absent, holds what it held at the start, or holds the
      complete content of one writer of that name. */
  lemma AlwaysComplete<N(!new), C>(offered: (N, C) -> bool, worlds: seq<World<N, C>>,
                                   steps: seq<Step<N, C>>, i: nat, n: N)
    requires IsRun(offered, worlds, steps) && i < |worlds|
    ensures n !in worlds[i].files || Holds(worlds[0].files, n, worlds[i].files[n])
            || SomeWriters(worlds[i], n, worlds[i].files[n])
  {
    RunInv(offered, worlds, steps, i);
    assert Complete(worlds[0].files, worlds[i], n);
  }

  /** The name held the writer's content at some moment of the writer's life. */
  ghost predicate WasThere<N, C>(worlds: seq<World<N, C>>, j: nat, w: int, n: N, c: C) {
    exists i :: 0 <= i < |worlds| && i <= j && w in worlds[i].writers && Holds(worlds[i].files, n, c)
  }

  lemma {:induction false} DecidedWasThere<N(!new), C>(offered: (N, C) -> bool, worlds: seq<World<N, C>>,
                                                       steps: seq<Step<N, C>>, j: nat, w: int)
    requires IsRun(offered, worlds, steps) && j < |worlds| && w in worlds[j].writers
    requires worlds[j].writers[w].won || worlds[j].writers[w].seen
    ensures WasThere(worlds, j, w, worlds[j].writers[w].name, worlds[j].writers[w].content)
  {
    if j > 0 {
      var before, step := worlds[j - 1], steps[j - 1];
      if w in before.writers && (before.writers[w].won || before.writers[w].seen) {
        DecidedWasThere(offered, worlds, steps, j - 1, w);
      } else {
        RunInv(offered, worlds, steps, j - 1);
        DecidingStep(offered, worlds[0].files, before, step, w);
      }
    }
  }

  lemma DecidingStep<N(!new), C>(offered: (N, C) -> bool, initial: map<N, C>, s: World<N, C>, step: Step<N, C>, w: int)
    requires CanStep(offered, s, step) && WorldInv(offered, initial, s) && w in DoStep(offered, s, step).writers
    requires var x := DoStep(offered, s, step).writers[w]; x.won || x.seen
    requires w in s.writers ==> !s.writers[w].won && !s.writers[w].seen
    ensures w in s.writers
    ensures var x := DoStep(offered, s, step).writers[w];
            Holds(s.files, x.name, x.content) || Holds(DoStep(offered, s, step).files, x.name, x.content)
  {
    assert step.w == w && w in s.writers;
    assert Sound(offered, s.writers[w]);
  }

  /** What a writer that has returned can count on: success means its content was in
      place, put there by its own rename or seen there; a refusal means an error other
      than contention or the whole budget spent; and its temporary file is gone unless
      removing it failed. */
  lemma ReturnedMeans<N(!new), C>(offered: (N, C) -> bool, worlds: seq<World<N, C>>,
                                  steps: seq<Step<N, C>>, j: nat, w: int)
    requires IsRun(offered, worlds, steps) && j < |worlds| && w in worlds[j].writers
    requires worlds[j].writers[w].at.Finished?
    ensures var x := worlds[j].writers[w];
            && x.renames <= 6 && x.validations <= 4
            && (x.temp.Some? ==> x.stuck)
            && (x.at.result == Published ==> (x.won || x.seen) && WasThere(worlds, j, w, x.name, x.content))
            && (x.at.result == Refused ==> !x.won && (x.broken || (x.renames == 6 && x.validations == 4)))
  {
    RunInv(offered, worlds, steps, j);
    assert Sound(offered, worlds[j].writers[w]);
    if worlds[j].writers[w].at.result == Published {
      DecidedWasThere(offered, worlds, steps, j, w);
    }
  }

  // ---------------------------------------------------------------------
  // What the others see
  // ---------------------------------------------------------------------

  /** From one moment to a later one a name is left, goes, or gets offered content. */
  ghost predicate Allowed<N(!new), C>(offered: (N, C) -> bool, before: map<N, C>, after: map<N, C>) {
    forall n :: n in after ==> Holds(before, n, after[n]) || offered(n, after[n])
  }

  lemma StepIsAllowed<N(!new), C>(offered: (N, C) -> bool, initial: map<N, C>, s: World<N, C>, step: Step<N, C>)
    requires CanStep(offered, s, step) && WorldInv(offered, initial, s)
    ensures Allowed(offered, s.files, DoStep(offered, s, step).files)
  {
    if !step.Spawn? {
      assert Sound(offered, s.writers[step.w]);
    }
  }

  lemma AllowedTransitive<N(!new), C>(offered: (N, C) -> bool, a: map<N, C>, b: map<N, C>, c: map<N, C>)
    requires Allowed(offered, a, b) && Allowed(offered, b, c)
    ensures Allowed(offered, a, c)
  {
  }

  lemma {:induction false} RunIsAllowed<N(!new), C>(offered: (N, C) -> bool, worlds: seq<World<N, C>>,
                                                    steps: seq<Step<N, C>>, i: nat, k: nat)
    requires IsRun(offered, worlds, steps) && i <= k < |worlds|
    ensures Allowed(offered, worlds[i].files, worlds[k].files)
    decreases k
  {
    if i < k {
      RunIsAllowed(offered, worlds, steps, i, k - 1);
      RunInv(offered, worlds, steps, k - 1);
      StepIsAllowed(offered, worlds[0].files, worlds[k - 1], steps[k - 1]);
      AllowedTransitive(offered, worlds[i].files, worlds[k - 1].files, worlds[k].files);
    }
  }

  /** A name that is absent or holds offered content stays so. */
  ghost predicate Settled<N, C>(offered: (N, C) -> bool, files: map<N, C>, n: N) {
    n in files ==> offered(n, files[n])
  }

  lemma SettledStays<N(!new), C>(offered: (N, C) -> bool, before: map<N, C>, after: map<N, C>, n: N)
    requires Settled(offered, before, n) && Allowed(offered, before, after)
    ensures Settled(offered, after, n)
  {
  }
}
