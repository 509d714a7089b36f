/** The shared id counter: fetch-and-add draws and compare-and-swap observation by concurrent threads. */
module LinkIds {

  type Thread = nat

  /** A thread inside observe_id: the id it observes and the counter value it last saw. */
  datatype Observation = Observation(id: nat, current: nat)

  datatype State = State(
    next: nat,
    observing: map<Thread, Observation>,
    observed: set<nat>,     // history: ids whose observe_id has returned
    issued: seq<nat>)       // history: ids next_link_id has returned

  datatype Action =
    | Issue                           // next_link_id
    | Load(t: Thread, id: nat)        // observe_id: first load
    | Swap(t: Thread, spurious: bool) // observe_id: loop test and compare_exchange_weak

  const START := State(1, map[], {}, [])

  function Step(s: State, a: Action): State {
    match a
    case Issue => s.(next := s.next + 1, issued := s.issued + [s.next])
    case Load(t, id) =>
      if t in s.observing then s else s.(observing := s.observing[t := Observation(id, s.next)])
    case Swap(t, spurious) =>
      if t !in s.observing then s
      else
        var Observation(id, current) := s.observing[t];
        if current > id then s.(observing := s.observing - {t}, observed := s.observed + {id})
        else if !spurious && s.next == current then
          s.(next := id + 1, observing := s.observing - {t}, observed := s.observed + {id})
        else s.(observing := s.observing[t := Observation(id, s.next)])
  }

  function Run(actions: seq<Action>): State {
    if actions == [] then START else Step(Run(actions[..|actions| - 1]), actions[|actions| - 1])
  }

  predicate Inv(s: State) {
    && (forall t | t in s.observing :: s.observing[t].current <= s.next)
    && (forall id | id in s.observed :: id < s.next)
    && (forall i | 0 <= i < |s.issued| :: s.issued[i] < s.next)
    && (forall i, j | 0 <= i < j < |s.issued| :: s.issued[i] < s.issued[j])
  }

  lemma StepKeeps(s: State, a: Action)
    requires Inv(s)
    ensures Inv(Step(s, a)) && s.next <= Step(s, a).next
  {
  }

  lemma {:induction false} RunKeeps(actions: seq<Action>)
    ensures Inv(Run(actions))
  {
    if actions != [] {
      RunKeeps(actions[..|actions| - 1]);
      StepKeeps(Run(actions[..|actions| - 1]), actions[|actions| - 1]);
    }
  }

  /**
   However threads interleave, lost races and spurious failures included, the ids drawn are strictly
   increasing, and the next one drawn is new and greater than every id already observed or issued.
   */
  lemma IdsAreFresh(actions: seq<Action>)
    ensures var s := Run(actions);
            && (forall i, j | 0 <= i < j < |s.issued| :: s.issued[i] < s.issued[j])
            && var drawn := Step(s, Issue).issued[|s.issued|];
               (forall i | 0 <= i < |s.issued| :: s.issued[i] < drawn) && (forall id | id in s.observed :: id < drawn)
  {
    RunKeeps(actions);
  }
}
