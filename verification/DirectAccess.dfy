/** How the last close of a VIRT_DEV keeps readers out of what it is about to free:
    a flag that denies entry and a count of the threads inside, both under one
    spin lock, for any number of threads in any order. */
module DirectAccess {

  type Thread = nat

  /** The closing thread sets the flag, then waits until it reads a count of 0. */
  datatype Closer = Away | Waiting | Drained

  /** 'asleep' are the readers that have left for the time they wait for an event. */
  datatype Access = Access(denied: bool, active: int, inside: set<Thread>, asleep: set<Thread>, closer: Closer)

  datatype Action =
    | Enter(t: Thread)
    | Leave(t: Thread)
    | Sleep(t: Thread)
    | Wake(t: Thread, interrupted: bool)
    | Deny
    | Look

  /** lock_direct_call as a step: in, or turned away. */
  function Lock(s: Access, t: Thread): Access {
    if s.denied then s else s.(active := s.active + 1, inside := s.inside + {t})
  }

  function Unlock(s: Access, t: Thread): Access { s.(active := s.active - 1, inside := s.inside - {t}) }

  function Step(s: Access, a: Action): Access {
    match a
    case Enter(t) => if t in s.inside || t in s.asleep then s else Lock(s, t)
    case Leave(t) => if t in s.inside then Unlock(s, t) else s
    case Sleep(t) => if t in s.inside then Unlock(s, t).(asleep := s.asleep + {t}) else s
    case Wake(t, interrupted) =>
      if t !in s.asleep then s
      else if interrupted then s.(asleep := s.asleep - {t})
      else Lock(s.(asleep := s.asleep - {t}), t)
    case Deny => if s.closer.Away? then s.(denied := true, closer := Waiting) else s
    case Look => if s.closer.Waiting? && !(s.active > 0) then s.(closer := Drained) else s
  }

  /** init_dev */
  function Fresh(): Access { Access(false, 0, {}, {}, Away) }

  function Run(schedule: seq<Action>): Access {
    if schedule == [] then Fresh() else Step(Run(schedule[..|schedule| - 1]), schedule[|schedule| - 1])
  }

  predicate Inv(s: Access) {
    && s.active == |s.inside|
    && s.inside !! s.asleep
    && (s.denied <==> !s.closer.Away?)
    && (s.closer.Drained? ==> s.inside == {})
  }

  lemma LockKeeps(s: Access, t: Thread)
    requires Inv(s) && t !in s.inside && t !in s.asleep
    ensures Inv(Lock(s, t))
  {
  }

  lemma UnlockKeeps(s: Access, t: Thread)
    requires Inv(s) && t in s.inside
    ensures Inv(Unlock(s, t)) && t !in Unlock(s, t).inside
  {
    assert |s.inside - {t}| == |s.inside| - 1;
  }

  lemma AsleepKeeps(s: Access, t: Thread)
    requires Inv(s) && t !in s.inside
    ensures Inv(s.(asleep := s.asleep + {t})) && Inv(s.(asleep := s.asleep - {t}))
  {
  }

  lemma CloserKeeps(s: Access, a: Action)
    requires Inv(s) && (a.Deny? || a.Look?)
    ensures Inv(Step(s, a))
  {
  }

  lemma StepKeeps(s: Access, a: Action)
    requires Inv(s)
    ensures Inv(Step(s, a))
  {
    match a
    case Enter(t) =>
      if t !in s.inside && t !in s.asleep {
        LockKeeps(s, t);
      }
    case Leave(t) =>
      if t in s.inside {
        UnlockKeeps(s, t);
      }
    case Sleep(t) =>
      if t in s.inside {
        UnlockKeeps(s, t);
        AsleepKeeps(Unlock(s, t), t);
      }
    case Wake(t, _) =>
      if t in s.asleep {
        WakeKeeps(s, t);
      }
    case _ => CloserKeeps(s, a);
  }

  lemma WakeKeeps(s: Access, t: Thread)
    requires Inv(s) && t in s.asleep
    ensures Inv(s.(asleep := s.asleep - {t})) && Inv(Lock(s.(asleep := s.asleep - {t}), t))
  {
    AsleepKeeps(s, t);
    LockKeeps(s.(asleep := s.asleep - {t}), t);
  }

  lemma {:induction false} RunInv(schedule: seq<Action>)
    ensures Inv(Run(schedule))
  {
    if schedule != [] {
      RunInv(schedule[..|schedule| - 1]);
      StepKeeps(Run(schedule[..|schedule| - 1]), schedule[|schedule| - 1]);
    }
  }

  /** The count is the number of threads inside, whatever the threads do: no way
      out leaves a place taken or gives one back twice. */
  lemma CountIsInside(schedule: seq<Action>)
    ensures Run(schedule).active == |Run(schedule).inside|
    ensures Run(schedule).active > 0 <==> exists t :: t in Run(schedule).inside
  {
    RunInv(schedule);
    var inside := Run(schedule).inside;
    if |inside| > 0 {
      assert inside != {};
    }
  }

  lemma DeniedStep(s: Access, a: Action)
    requires s.denied
    ensures Step(s, a).denied && Step(s, a).inside <= s.inside && Step(s, a).active <= s.active
    ensures s.closer.Drained? ==> Step(s, a).closer.Drained?
  {
  }

  /** From the moment entry is denied threads only leave; once the closer's wait has
      ended nobody is inside, and nobody will ever be. */
  lemma {:induction false} DrainIsFinal(schedule: seq<Action>, more: seq<Action>)
    requires Run(schedule).denied
    ensures var s, s' := Run(schedule), Run(schedule + more);
      && s'.denied && s'.inside <= s.inside && s'.active <= s.active
      && (s.closer.Drained? ==> s'.closer.Drained? && s'.inside == {} && s'.active == 0)
  {
    hide Step;
    RunInv(schedule + more);
    if more == [] {
      assert schedule + more == schedule;
    } else {
      var upto := schedule + more[..|more| - 1];
      assert (schedule + more)[..|schedule + more| - 1] == upto;
      DrainIsFinal(schedule, more[..|more| - 1]);
      DeniedStep(Run(upto), more[|more| - 1]);
    }
  }

  /** The wait ends at the first look that finds nobody inside, and at no other. */
  lemma WaitEndsIffEmpty(schedule: seq<Action>)
    requires Run(schedule).closer.Waiting?
    ensures Step(Run(schedule), Look).closer.Drained? <==> Run(schedule).inside == {}
  {
    RunInv(schedule);
  }
}
