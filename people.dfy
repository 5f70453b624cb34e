/** The people of an inflammation study: patients, who keep a growing list of
    dated observations, and doctors, who keep a list of patients with distinct names. */
module People {
  import opened Results

  /** One inflammation reading taken on a study day. */
  datatype Observation = Observation(day: int, value: real)

  /** The latest observation of a list, if it has one. */
  function Last(obs: seq<Observation>): (r: Option<Observation>)
    ensures r.None? <==> obs == []
    ensures r.Some? ==> r.value in obs && r.value == obs[|obs| - 1]
  {
    if obs == [] then None else Some(obs[|obs| - 1])
  }

  /** The day `add_observation` uses when none is given: the day after the latest
      observation, or day 0 when looking up the latest one fails for want of any. */
  function DefaultDay(obs: seq<Observation>): (d: int)
    ensures obs == [] ==> d == 0
    ensures obs != [] ==> d == obs[|obs| - 1].day + 1
  {
    match Last(obs)
    case None => 0
    case Some(latest) => latest.day + 1
  }

  /** The observation `add_observation` appends: the given day, or else the day after
      the latest observation, or day 0 for a patient without observations. */
  function NextObservation(obs: seq<Observation>, value: real, day: Option<int>): (o: Observation)
    ensures o.value == value
    ensures day.Some? ==> o.day == day.value
    ensures day.None? && obs == [] ==> o.day == 0
    ensures day.None? && obs != [] ==> o.day == obs[|obs| - 1].day + 1
  {
    match day
    case Some(d) => Observation(d, value)
    case None => Observation(DefaultDay(obs), value)
  }

  /** The observation list after `add_observation`: the old list, unchanged, followed
      by the new observation, which becomes the latest. */
  function Recorded(obs: seq<Observation>, value: real, day: Option<int>): (r: seq<Observation>)
    ensures |r| == |obs| + 1 && r[..|obs|] == obs
    ensures Last(r) == Some(NextObservation(obs, value, day))
  {
    obs + [NextObservation(obs, value, day)]
  }

  /** Readings recorded one after another, each on its default day. */
  function RecordedAll(obs: seq<Observation>, values: seq<real>): (r: seq<Observation>)
    ensures |r| == |obs| + |values|
    decreases |values|
  {
    if values == [] then obs else RecordedAll(Recorded(obs, values[0], None), values[1..])
  }

  /** Readings recorded on default days keep their order and occupy consecutive days,
      starting the day after the latest observation, or at day 0 without one. */
  lemma {:induction false} RecordedAllConsecutive(obs: seq<Observation>, values: seq<real>)
    ensures RecordedAll(obs, values)[..|obs|] == obs
    ensures forall k :: |obs| <= k < |obs| + |values| ==>
              RecordedAll(obs, values)[k] == Observation(DefaultDay(obs) + (k - |obs|), values[k - |obs|])
    decreases |values|
  {
    if values != [] {
      var next := Recorded(obs, values[0], None);
      assert next[|obs|] == Observation(DefaultDay(obs), values[0]);
      assert DefaultDay(next) == DefaultDay(obs) + 1;
      RecordedAllConsecutive(next, values[1..]);
      var r := RecordedAll(obs, values);
      assert r == RecordedAll(next, values[1..]);
      assert r[..|next|] == next && next[..|obs|] == obs;
      assert r[..|obs|] == r[..|next|][..|obs|] == obs;
      forall k | |obs| <= k < |obs| + |values|
        ensures r[k] == Observation(DefaultDay(obs) + (k - |obs|), values[k - |obs|])
      {
        if k == |obs| {
          assert r[k] == r[..|next|][k] == next[k];
        } else {
          assert values[1..][k - |next|] == values[k - |obs|];
        }
      }
    }
  }

  /** A patient: a name and a list of observations that only grows. */
  class Patient {
    const name: string
    var observations: seq<Observation>

    /** A patient starts with the observations given, or none. */
    constructor(name: string, observations: Option<seq<Observation>>)
      ensures this.name == name
      ensures this.observations == (if observations.Some? then observations.value else [])
    {
      this.name := name;
      match observations
      case None => this.observations := [];
      case Some(given) => this.observations := given;
    }

    /** `last_observation`: the latest observation; a patient without observations
        has none (the source raises `IndexError`). */
    function LastObservation(): (r: Option<Observation>)
      reads this
      ensures r.None? <==> observations == []
      ensures r.Some? ==> r.value == observations[|observations| - 1]
    {
      Last(observations)
    }

    /** `add_observation`: appends one observation on the given or default day and
        returns it; it is then the latest observation. */
    method AddObservation(value: real, day: Option<int>) returns (obs: Observation)
      modifies this
      ensures obs == NextObservation(old(observations), value, day)
      ensures observations == Recorded(old(observations), value, day)
      ensures LastObservation() == Some(obs)
    {
      var d: int;
      match day {
        case Some(given) =>
          d := given;
        case None =>
          if |observations| > 0 {
            d := observations[|observations| - 1].day + 1;
          } else {
            d := 0;
          }
      }
      obs := Observation(d, value);
      observations := observations + [obs];
    }
  }

  /** Some patient of the list is called `name`. */
  predicate NamedIn(ps: seq<Patient>, name: string)
  {
    exists i :: 0 <= i < |ps| && ps[i].name == name
  }

  /** No two patients of the list share a name. */
  predicate DistinctNames(ps: seq<Patient>)
  {
    forall i, k :: 0 <= i < k < |ps| ==> ps[i].name != ps[k].name
  }

  /** The patient list after `add_patient`: unchanged when a patient of that name is
      already on it, otherwise extended by the new patient. */
  function Admitted(ps: seq<Patient>, p: Patient): (r: seq<Patient>)
    ensures NamedIn(r, p.name)
    ensures NamedIn(ps, p.name) ==> r == ps
    ensures !NamedIn(ps, p.name) ==> r == ps + [p]
    ensures DistinctNames(ps) ==> DistinctNames(r)
  {
    if NamedIn(ps, p.name) then ps
    else
      assert (ps + [p])[|ps|] == p;
      ps + [p]
  }

  /** Admitting the same patient twice changes nothing the second time. */
  lemma AdmittedIdempotent(ps: seq<Patient>, p: Patient)
    ensures Admitted(Admitted(ps, p), p) == Admitted(ps, p)
  {
  }

  /** Patients admitted one after another. */
  function AdmittedAll(ps: seq<Patient>, arrivals: seq<Patient>): (r: seq<Patient>)
    decreases |arrivals|
  {
    if arrivals == [] then ps else AdmittedAll(Admitted(ps, arrivals[0]), arrivals[1..])
  }

  /** Starting from a list with distinct names, a run of admissions keeps the old
      patients first, keeps the names distinct, and ends with every arrival's name on
      the list. */
  lemma {:induction false} AdmittedAllDistinct(ps: seq<Patient>, arrivals: seq<Patient>)
    requires DistinctNames(ps)
    ensures var r := AdmittedAll(ps, arrivals);
            |ps| <= |r| <= |ps| + |arrivals| && r[..|ps|] == ps && DistinctNames(r) &&
            forall j :: 0 <= j < |arrivals| ==> NamedIn(r, arrivals[j].name)
    decreases |arrivals|
  {
    if arrivals != [] {
      var next := Admitted(ps, arrivals[0]);
      AdmittedAllDistinct(next, arrivals[1..]);
      var r := AdmittedAll(ps, arrivals);
      assert r == AdmittedAll(next, arrivals[1..]);
      assert r[..|next|] == next && next[..|ps|] == ps;
      assert r[..|ps|] == r[..|next|][..|ps|] == ps;
      var i :| 0 <= i < |next| && next[i].name == arrivals[0].name;
      assert r[i] == r[..|next|][i] == next[i];
      forall j | 0 <= j < |arrivals| ensures NamedIn(r, arrivals[j].name) {
        if j > 0 { assert arrivals[1..][j - 1] == arrivals[j]; }
      }
    }
  }

  /** A doctor: a name and a list of patients. */
  class Doctor {
    const name: string
    var patients: seq<Patient>

    /** A doctor starts without patients. */
    constructor(name: string)
      ensures this.name == name && patients == []
    {
      this.name := name;
      patients := [];
    }

    /** `add_patient`: adds the patient unless one of the same name is already on the
        list; returns the patient when added, and nothing otherwise. */
    method AddPatient(newPatient: Patient) returns (added: Option<Patient>)
      modifies this
      ensures patients == Admitted(old(patients), newPatient)
      ensures added == (if NamedIn(old(patients), newPatient.name) then None else Some(newPatient))
    {
      var i := 0;
      while i < |patients|
        invariant 0 <= i <= |patients|
        invariant forall k :: 0 <= k < i ==> patients[k].name != newPatient.name
      {
        if patients[i].name == newPatient.name {
          return None;
        }
        i := i + 1;
      }
      patients := patients + [newPatient];
      return Some(newPatient);
    }
  }
}
