/** When a healthy index is exact: the life of a rebuildable index whose rows share the
    transactions of the store it projects, while its health flag does not. */
module IndexHealth {
  import opened Model

  datatype Health = Healthy | Degraded | Rebuilding | Unavailable

  /** What happens to an index.
      Begin, End: the outermost transaction opens, and ends with or without an exception.
      Write: the truth changes and the rows follow; a statement may fail on the way.
      Reset: truth and rows start over together.
      Restore: the rows are rebuilt from the truth, or were found equal to what the truth demands.
      Trust: a check found no fault, and the flag is set back.
      Fail: a rebuild or a replay went wrong and the flag says so.
      Break: a replay raised on the way and the flag does not say so.
      Degrade: a query or a check found a fault. */
  datatype Step<T, R> =
    | Begin
    | End(raised: bool)
    | Write(truth: T, rows: R, failed: bool)
    | Reset(truth: T, rows: R)
    | Restore(rebuilt: R)
    | Trust
    | Fail(partial: R)
    | Break(truth: T, rows: R)
    | Degrade

  /** `sure` says that no statement failed since the rows were last rebuilt or started over; `doubtful`, that the
      flag may be healthy over rows that are not what the truth demands. */
  datatype Image<T, R> = Image(truth: T, rows: R, health: Health, sure: bool, doubtful: bool)

  /** `open` is what the outermost transaction puts back; `restored` says that the flag was set back since it opened. */
  datatype Life<T, R> = Life(now: Image<T, R>, open: Option<Image<T, R>>, restored: bool)

  function Worse(health: Health): Health {
    if health == Unavailable then Unavailable else Degraded
  }

  function SetBack(health: Health): Health {
    if health == Unavailable then Unavailable else Healthy
  }

  function Next<T, R>(s: Life<T, R>, step: Step<T, R>): Life<T, R> {
    var now := s.now;
    match step
    case Begin => if s.open.Some? then s else Life(now, Some(now), false)
    case End(raised) =>
      if s.open.None? then s
      else if !raised then s.(open := None)
      else
        var was := s.open.value;
        Life(was.(health := now.health, doubtful := was.doubtful || (s.restored && was.health != Healthy)), None, false)
    case Write(truth, rows, failed) =>
      s.(now := Image(truth, rows, if failed then Worse(now.health) else now.health, now.sure && !failed,
                      now.doubtful))
    case Reset(truth, rows) => s.(now := Image(truth, rows, now.health, true, now.doubtful))
    case Restore(rebuilt) => Life(Image(now.truth, rebuilt, SetBack(now.health), true, false), s.open, true)
    case Trust => Life(now.(health := SetBack(now.health), doubtful := !now.sure), s.open, true)
    case Fail(partial) => s.(now := now.(rows := partial, health := Worse(now.health), sure := false))
    case Break(truth, rows) => s.(now := Image(truth, rows, now.health, false, true))
    case Degrade => s.(now := now.(health := Worse(now.health)))
  }

  /** A write that does not fail keeps exact rows exact; starting over and a rebuild yield exact rows. */
  ghost predicate Faithful<T, R>(exact: (T, R) -> bool, s: Life<T, R>, step: Step<T, R>) {
    match step
    case Write(truth, rows, failed) => !failed && exact(s.now.truth, s.now.rows) ==> exact(truth, rows)
    case Reset(truth, rows) => exact(truth, rows)
    case Restore(rebuilt) => exact(s.now.truth, rebuilt)
    case _ => true
  }

  function Run<T, R>(start: Life<T, R>, steps: seq<Step<T, R>>): Life<T, R>
    decreases |steps|
  {
    if steps == [] then start else Next(Run(start, steps[..|steps| - 1]), steps[|steps| - 1])
  }

  ghost predicate AllFaithful<T, R>(exact: (T, R) -> bool, start: Life<T, R>, steps: seq<Step<T, R>>) {
    forall i :: 0 <= i < |steps| ==> Faithful(exact, Run(start, steps[..i]), steps[i])
  }

  /** A faithful run goes on with a faithful step. */
  lemma GoesOn<T, R>(exact: (T, R) -> bool, start: Life<T, R>, steps: seq<Step<T, R>>, step: Step<T, R>)
    requires AllFaithful(exact, start, steps) && Faithful(exact, Run(start, steps), step)
    ensures AllFaithful(exact, start, steps + [step]) && Run(start, steps + [step]) == Next(Run(start, steps), step)
  {
    var longer := steps + [step];
    assert longer[..|steps|] == steps;
    forall i | 0 <= i < |longer| ensures Faithful(exact, Run(start, longer[..i]), longer[i]) {
      if i < |steps| {
        assert longer[..i] == steps[..i];
      }
    }
  }

  ghost predicate SoundImage<T, R>(exact: (T, R) -> bool, m: Image<T, R>) {
    (m.sure ==> exact(m.truth, m.rows)) && (m.health == Healthy && !m.doubtful ==> m.sure)
  }

  ghost predicate Sound<T, R>(exact: (T, R) -> bool, s: Life<T, R>) {
    && SoundImage(exact, s.now)
    && (s.open.Some? ==> SoundImage(exact, s.open.value))
    && (s.open.Some? && s.now.health == Healthy && !s.restored ==> s.open.value.health == Healthy)
  }

  lemma StepSound<T, R>(exact: (T, R) -> bool, s: Life<T, R>, step: Step<T, R>)
    requires Sound(exact, s) && Faithful(exact, s, step)
    ensures Sound(exact, Next(s, step))
  {
  }

  /** In every state of every run, whatever statements fail, a healthy flag that is not doubtful means exact rows. */
  lemma {:induction false} HealthyIsExact<T, R>(exact: (T, R) -> bool, start: Life<T, R>, steps: seq<Step<T, R>>)
    requires AllFaithful(exact, start, steps) && Sound(exact, start)
    ensures Sound(exact, Run(start, steps))
    ensures var m := Run(start, steps).now; m.health == Healthy && !m.doubtful ==> exact(m.truth, m.rows)
    decreases |steps|
  {
    if steps != [] {
      var n := |steps| - 1;
      var front := steps[..n];
      assert forall i :: 0 <= i < n ==> front[i] == steps[i] && front[..i] == steps[..i];
      HealthyIsExact(exact, start, front);
      assert Faithful(exact, Run(start, steps[..n]), steps[n]);
      StepSound(exact, Run(start, front), steps[n]);
    }
  }

  /******* Where doubt comes from *******/

  /** The flag is set back only outside transactions and, after a mere check, only when no statement had failed
      since the rows were last rebuilt or started over; what breaks is rolled back. */
  predicate Careful<T, R>(start: Life<T, R>, steps: seq<Step<T, R>>) {
    forall i :: 0 <= i < |steps| ==> CarefulStep(Run(start, steps[..i]), steps[i])
  }

  predicate CarefulStep<T, R>(s: Life<T, R>, step: Step<T, R>) {
    match step
    case Restore(_) => s.open.None?
    case Trust => s.open.None? && s.now.sure
    case Break(_, _) => s.open.Some?
    case End(raised) => !raised ==> !s.now.doubtful
    case _ => true
  }

  /** A careful run ends every transaction without doubt: there a healthy index is exact. */
  lemma {:induction false} CarefulIsCertain<T, R>(start: Life<T, R>, steps: seq<Step<T, R>>)
    requires Careful(start, steps) && start.open.None? && !start.now.doubtful
    ensures var s := Run(start, steps);
            if s.open.None? then !s.now.doubtful else !s.open.value.doubtful && !s.restored
    decreases |steps|
  {
    if steps != [] {
      var n := |steps| - 1;
      var front := steps[..n];
      assert forall i :: 0 <= i < n ==> front[i] == steps[i] && front[..i] == steps[..i];
      CarefulIsCertain(start, front);
      assert CarefulStep(Run(start, steps[..n]), steps[n]);
    }
  }

  /** Rebuilding a degraded index inside a transaction that then raises leaves it flagged healthy
      over its old, inexact rows. */
  lemma RebuildRolledBack<T, R>(exact: (T, R) -> bool, s: Life<T, R>, rebuilt: R)
    requires s.now.health == Degraded && s.open.None? && !exact(s.now.truth, s.now.rows) && exact(s.now.truth, rebuilt)
    ensures var r := Next(Next(Next(s, Begin), Restore(rebuilt)), End(true));
            r.now.health == Healthy && !exact(r.now.truth, r.now.rows) && r.open.None? && r.now.doubtful
  {
  }

  /** After five writes, two of them failing, none of which leaves exact rows, a check that finds no fault sets the
      flag back to healthy. */
  lemma TrustedWrongly<T, R>(exact: (T, R) -> bool, start: Life<T, R>, a: (T, R), b: (T, R), c: (T, R), d: (T, R),
                             e: (T, R)) returns (steps: seq<Step<T, R>>)
    requires !exact(a.0, a.1) && !exact(b.0, b.1) && !exact(c.0, c.1) && !exact(d.0, d.1)
    requires start.now.health == Healthy
    ensures AllFaithful(exact, start, steps)
    ensures var s := Run(start, steps);
            && s.now.truth == e.0 && s.now.rows == e.1 && s.open == start.open
            && s.now.health == Healthy && s.now.doubtful
  {
    steps := Continued(exact, start, [], Write(a.0, a.1, true));
    steps := Continued(exact, start, steps, Write(b.0, b.1, false));
    steps := Continued(exact, start, steps, Write(c.0, c.1, true));
    steps := Continued(exact, start, steps, Write(d.0, d.1, false));
    steps := Continued(exact, start, steps, Write(e.0, e.1, false));
    steps := Continued(exact, start, steps, Trust);
  }

  lemma Continued<T, R>(exact: (T, R) -> bool, start: Life<T, R>, steps: seq<Step<T, R>>, step: Step<T, R>)
    returns (longer: seq<Step<T, R>>)
    requires AllFaithful(exact, start, steps) && Faithful(exact, Run(start, steps), step)
    ensures AllFaithful(exact, start, longer) && Run(start, longer) == Next(Run(start, steps), step)
  {
    GoesOn(exact, start, steps, step);
    longer := steps + [step];
  }
}
