/** A concrete run: one actuator, one sensor of two scalars, `max_length`
    3, observations `(t, [t], [t, t])` for `t = 0, 1, ...`. Because the
    fill test is `length <= max_length`, four updates keep all four
    observations and only the fifth evicts the first. */
module Scenarios {
  import opened Buffers
  import opened History

  function Obs(t: int): (o: Observation<int>)
  {
    Observation(t, [t], [t, t])
  }

  /** `obs` is the run `Obs(0), Obs(1), ..., Obs(n - 1)`. */
  predicate IsRun(obs: seq<Observation<int>>, n: nat)
  {
    |obs| == n && forall i :: 0 <= i < n ==> obs[i] == Obs(i)
  }

  /** Four updates with `max_length` 3: the buffer holds four entries,
      observations 0 through 3 oldest first, whatever fresh storage held. */
  lemma FourUpdatesKeepAll(blank: int, obs: seq<Observation<int>>)
    requires IsRun(obs, 4)
    ensures AllFit(obs, Model(1, 1, 2))
    ensures Length(UpdateAll(Initialize(Model(1, 1, 2), 3, blank), Model(1, 1, 2), obs)) == 4
    ensures Window(UpdateAll(Initialize(Model(1, 1, 2), 3, blank), Model(1, 1, 2), obs))
            == [Entry(0, [0], [0, 0], [1]), Entry(1, [1], [1, 1], [1]),
                Entry(2, [2], [2, 2], [1]), Entry(3, [3], [3, 3], [1])]
  {
    var m := Model(1, 1, 2);
    assert AllFit(obs, m);
    assert AllValid(1) == [1];
    AfterInitialize(m, 3, blank, obs);
    NewestOfShortRun(obs);
  }

  /** All four stamped observations of a four-observation run. */
  lemma NewestOfShortRun(obs: seq<Observation<int>>)
    requires IsRun(obs, 4)
    ensures Newest(Stamp(obs, [1]), 4)
            == [Entry(0, [0], [0, 0], [1]), Entry(1, [1], [1, 1], [1]),
                Entry(2, [2], [2, 2], [1]), Entry(3, [3], [3, 3], [1])]
  {
    var st := Stamp(obs, [1]);
    assert st == [st[0], st[1], st[2], st[3]];
  }

  /** A fifth update evicts the first observation: the window is
      observations 1 through 4, newest last. */
  lemma FifthUpdateEvictsOldest(blank: int, obs: seq<Observation<int>>)
    requires IsRun(obs, 5)
    ensures AllFit(obs, Model(1, 1, 2))
    ensures Length(UpdateAll(Initialize(Model(1, 1, 2), 3, blank), Model(1, 1, 2), obs)) == 4
    ensures Window(UpdateAll(Initialize(Model(1, 1, 2), 3, blank), Model(1, 1, 2), obs))
            == [Entry(1, [1], [1, 1], [1]), Entry(2, [2], [2, 2], [1]),
                Entry(3, [3], [3, 3], [1]), Entry(4, [4], [4, 4], [1])]
  {
    var m := Model(1, 1, 2);
    assert AllFit(obs, m);
    assert AllValid(1) == [1];
    AfterInitialize(m, 3, blank, obs);
    NewestOfRun(obs);
  }

  /** The newest four stamped observations of a five-observation run. */
  lemma NewestOfRun(obs: seq<Observation<int>>)
    requires IsRun(obs, 5)
    ensures Newest(Stamp(obs, [1]), 4)
            == [Entry(1, [1], [1, 1], [1]), Entry(2, [2], [2, 2], [1]),
                Entry(3, [3], [3, 3], [1]), Entry(4, [4], [4, 4], [1])]
  {
    var st := Stamp(obs, [1]);
    assert st[1..] == [st[1], st[2], st[3], st[4]];
  }
}
