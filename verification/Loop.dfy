/** The work loop: periodic execution with a one-slot kick channel. */
module Loop {

  /** Before a run of the work function, in it, at the cancellation check after it, asleep, at
      the cancellation check after sleeping, and stopped. */
  datatype Place = Starting | Working | Worked | Asleep | Awake | Stopped

  /** `kicked` says that Kick was called after the last start of the work function. */
  datatype State = State(
    place: Place, token: bool, cancelled: bool, kicks: nat, wakes: nat, starts: nat, kicked: bool)

  datatype Action =
    | Kick
    | Cancel
    | StartWork
    | EndWork
    | CheckAfterWork(late: bool)
    | WakeByKick | WakeByTimer | WakeByCancel
    | CheckAfterSleep

  predicate Enabled(s: State, a: Action) {
    match a
    case Kick => true
    case Cancel => true
    case StartWork => s.place.Starting?
    case EndWork => s.place.Working?
    case CheckAfterWork(_) => s.place.Worked?
    case WakeByKick => s.place.Asleep? && s.token
    case WakeByTimer => s.place.Asleep?
    case WakeByCancel => s.place.Asleep? && s.cancelled
    case CheckAfterSleep => s.place.Awake?
  }

  /** A pass that took the whole interval (`late`) does not sleep and leaves the token. */
  function Step(s: State, a: Action): State
    requires Enabled(s, a)
  {
    match a
    case Kick => s.(token := true, kicks := s.kicks + 1, kicked := true)
    case Cancel => s.(cancelled := true)
    case StartWork => s.(place := Working, starts := s.starts + 1, kicked := false)
    case EndWork => s.(place := Worked)
    case CheckAfterWork(late) => s.(place := if s.cancelled then Stopped else if late then Awake else Asleep)
    case WakeByKick => s.(place := Awake, token := false, wakes := s.wakes + 1)
    case WakeByTimer => s.(place := Awake)
    case WakeByCancel => s.(place := Awake)
    case CheckAfterSleep => s.(place := if s.cancelled then Stopped else Starting)
  }

  ghost predicate Reaches(s: State, actions: seq<Action>, s': State)
    decreases actions
  {
    if actions == [] then s' == s
    else Enabled(s, actions[0]) && Reaches(Step(s, actions[0]), actions[1..], s')
  }

  const START := State(Starting, false, false, 0, 0, 0, false)

  ghost predicate Inv(s: State) {
    && (!s.cancelled && s.kicked ==> s.token || s.place.Awake? || s.place.Starting?)
    && (!s.cancelled ==> !s.place.Stopped?)
    && s.wakes + (if s.token then 1 else 0) <= s.kicks
    && s.wakes <= s.starts
    && (s.place.Awake? || s.place.Asleep? || s.place.Worked? || s.place.Working? ==> s.starts >= 1)
    && (s.place.Working? || s.place.Worked? || s.place.Asleep? ==> s.wakes < s.starts)
  }

  lemma {:induction false} RunKeepsInv(s: State, actions: seq<Action>, s': State)
    requires Inv(s) && Reaches(s, actions, s')
    ensures Inv(s')
    decreases actions
  {
    if actions != [] {
      assert Inv(Step(s, actions[0]));
      RunKeepsInv(Step(s, actions[0]), actions[1..], s');
    }
  }

  /** No kick is lost: while the loop runs, a kick since the last start is still pending as the
      token, or the sleep is over and only the cancellation check precedes the next start; so a
      loop asleep can always wake by it. Kicks cause at most as many wake-ups as there were
      kicks, and at most one per start. */
  lemma NoLostKick(actions: seq<Action>, s: State)
    requires Reaches(START, actions, s)
    ensures !s.cancelled && s.kicked ==> s.token || s.place.Awake? || s.place.Starting?
    ensures !s.cancelled && s.kicked && s.place.Asleep? ==> Enabled(s, WakeByKick)
    ensures s.wakes <= s.kicks && s.wakes <= s.starts
    ensures !s.cancelled ==> !s.place.Stopped?
  {
    RunKeepsInv(START, actions, s);
  }

  /** After cancellation work starts at most once more, and only if the loop was already past its
      last check. */
  lemma {:induction false} CancelledStarts(s: State, more: seq<Action>, s': State)
    requires s.cancelled && Reaches(s, more, s')
    ensures s'.cancelled && s'.starts <= s.starts + if s.place.Starting? then 1 else 0
    decreases more
  {
    if more != [] {
      CancelledStarts(Step(s, more[0]), more[1..], s');
    }
  }

  /** A check that sees the cancellation stops the loop: whatever follows, no work starts. */
  lemma NoWorkAfterSeenCancel(before: seq<Action>, s: State, check: Action, after: seq<Action>, s': State)
    requires Reaches(START, before, s) && s.cancelled && (check.CheckAfterWork? || check.CheckAfterSleep?)
    requires Enabled(s, check) && Reaches(Step(s, check), after, s')
    ensures s'.place.Stopped? && s'.starts == s.starts
  {
    StaysStopped(Step(s, check), after, s');
  }

  lemma {:induction false} StaysStopped(s: State, more: seq<Action>, s': State)
    requires s.place.Stopped? && Reaches(s, more, s')
    ensures s'.place.Stopped? && s'.starts == s.starts
    decreases more
  {
    if more != [] {
      StaysStopped(Step(s, more[0]), more[1..], s');
    }
  }
}
