/** What a run of `Update` calls does to the buffer as a whole: the window
    is always the newest `max_length + 1` observations, each stamped with
    the mask that was current when it arrived. */
module History {
  import opened Buffers

  /** The last `k` elements of `s` (all of `s` when it is shorter). This is
      the reference definition of a sliding window of capacity `k`. */
  function Newest<E>(s: seq<E>, k: nat): (r: seq<E>)
    ensures |r| == if |s| <= k then |s| else k
  {
    if |s| <= k then s else s[|s| - k..]
  }

  /** The tuples a run of observations contributes under a fixed mask. */
  function Stamp<T>(obs: seq<Observation<T>>, mask: seq<int>): (es: seq<Entry<T>>)
    ensures |es| == |obs|
    ensures forall i :: 0 <= i < |obs| ==>
              es[i] == Entry(obs[i].time, obs[i].ctrl, obs[i].sensordata, mask)
  {
    seq(|obs|, (i: int) requires 0 <= i < |obs| =>
      Entry(obs[i].time, obs[i].ctrl, obs[i].sensordata, mask))
  }

  predicate AllFit<T>(obs: seq<Observation<T>>, m: Model)
  {
    forall i :: 0 <= i < |obs| ==> Fits(obs[i], m)
  }

  /** `Update` called once per observation, oldest first. The buffer
      invariant, the model shape, the current mask and the bound all
      survive every call. */
  function UpdateAll<T>(b: Buffer<T>, m: Model, obs: seq<Observation<T>>): (r: Buffer<T>)
    requires Valid(b) && Shaped(b, m) && AllFit(obs, m)
    ensures Valid(r) && Shaped(r, m)
    ensures r.mask == b.mask && r.maxLength == b.maxLength
    ensures Length(r) <= b.maxLength + 1
    ensures Window(r) == Newest(Window(b) + Stamp(obs, b.mask), b.maxLength + 1)
    decreases |obs|
  {
    if obs == [] then
      assert Window(b) + Stamp(obs, b.mask) == Window(b);
      b
    else
      SlideStep(b, m, obs);
      UpdateAll(Update(b, m, obs[0]), m, obs[1..])
  }

  /** One `Update` is one step of the reference window: appending the new
      tuple and keeping the newest `max_length + 1`. */
  lemma UpdateIsNewest<T>(b: Buffer<T>, m: Model, data: Observation<T>)
    requires Valid(b) && Shaped(b, m) && Fits(data, m)
    ensures Window(Update(b, m, data))
            == Newest(Window(b) + [Entry(data.time, data.ctrl, data.sensordata, b.mask)], b.maxLength + 1)
  {
    var e := Entry(data.time, data.ctrl, data.sensordata, b.mask);
    NewestStep(Window(b), e, b.maxLength + 1, Window(Update(b, m, data)));
  }

  /** Appending to a window of at most `k` entries and keeping the newest
      `k` drops the oldest exactly when the window was full. */
  lemma NewestStep<E>(w: seq<E>, e: E, k: nat, w': seq<E>)
    requires 1 <= k && |w| <= k
    requires w' == (if |w| < k then w else w[1..]) + [e]
    ensures w' == Newest(w + [e], k)
  {
    if |w| == k {
      assert (w + [e])[1..] == w[1..] + [e];
    }
  }

  /** Trimming to the newest `k` before appending more changes nothing. */
  lemma NewestAbsorbs<E>(s: seq<E>, t: seq<E>, k: nat)
    ensures Newest(Newest(s, k) + t, k) == Newest(s + t, k)
  {
    var n := Newest(s, k);
    var a, b := Newest(n + t, k), Newest(s + t, k);
    assert |a| == |b|;
    forall i | 0 <= i < |a|
      ensures a[i] == b[i]
    {
      var j := |n| + |t| - |a| + i;
      assert a[i] == (n + t)[j];
      if j < |n| {
        assert (n + t)[j] == s[|s| - |n| + j];
      } else {
        assert (n + t)[j] == t[j - |n|];
      }
    }
  }

  /** The first update of a run, followed by the window of the rest, is
      the window of the whole run. */
  lemma SlideStep<T>(b: Buffer<T>, m: Model, obs: seq<Observation<T>>)
    requires Valid(b) && Shaped(b, m) && AllFit(obs, m) && obs != []
    ensures Fits(obs[0], m)
    ensures Newest(Window(Update(b, m, obs[0])) + Stamp(obs[1..], b.mask), b.maxLength + 1)
            == Newest(Window(b) + Stamp(obs, b.mask), b.maxLength + 1)
  {
    var e := Entry(obs[0].time, obs[0].ctrl, obs[0].sensordata, b.mask);
    assert Fits(obs[0], m);
    UpdateIsNewest(b, m, obs[0]);
    StampStep(obs, b.mask);
    StepThenRest(Window(b), Window(Update(b, m, obs[0])), e, Stamp(obs[1..], b.mask), Stamp(obs, b.mask), b.maxLength + 1);
  }

  lemma StampStep<T>(obs: seq<Observation<T>>, mask: seq<int>)
    requires obs != []
    ensures Stamp(obs, mask) == [Entry(obs[0].time, obs[0].ctrl, obs[0].sensordata, mask)] + Stamp(obs[1..], mask)
  {
  }

  /** One window step followed by the rest of the run is the whole run. */
  lemma StepThenRest<E>(w: seq<E>, w': seq<E>, e: E, rest: seq<E>, all: seq<E>, k: nat)
    requires w' == Newest(w + [e], k) && all == [e] + rest
    ensures Newest(w' + rest, k) == Newest(w + all, k)
  {
    NewestAbsorbs(w + [e], rest, k);
    assert w + [e] + rest == w + all;
  }

  /** From an empty buffer, `N` updates leave `min(N, max_length + 1)`
      entries: the newest ones, oldest first, each with the current mask. */
  lemma {:induction false} FromEmpty<T>(b: Buffer<T>, m: Model, obs: seq<Observation<T>>)
    requires Valid(b) && Shaped(b, m) && AllFit(obs, m) && Length(b) == 0
    ensures Length(UpdateAll(b, m, obs)) == if |obs| <= b.maxLength + 1 then |obs| else b.maxLength + 1
    ensures Window(UpdateAll(b, m, obs)) == Newest(Stamp(obs, b.mask), b.maxLength + 1)
  {
    assert Window(b) == [];
    assert Window(b) + Stamp(obs, b.mask) == Stamp(obs, b.mask);
  }

  /** Oldest-first eviction: once more than `max_length + 1` observations
      arrived, entry `i` of the window is observation `N - (max_length + 1) + i`. */
  lemma {:induction false} OldestEvicted<T>(b: Buffer<T>, m: Model, obs: seq<Observation<T>>)
    requires Valid(b) && Shaped(b, m) && AllFit(obs, m) && Length(b) == 0
    requires |obs| > b.maxLength + 1
    ensures Length(UpdateAll(b, m, obs)) == b.maxLength + 1
    ensures forall i :: 0 <= i <= b.maxLength ==>
              var o := obs[|obs| - (b.maxLength + 1) + i];
              Window(UpdateAll(b, m, obs))[i] == Entry(o.time, o.ctrl, o.sensordata, b.mask)
  {
    FromEmpty(b, m, obs);
    NewestStamped(Window(UpdateAll(b, m, obs)), obs, b.mask, b.maxLength + 1);
  }

  /** Entry `i` of the newest `k` stamped observations is observation
      `N - k + i`. */
  lemma NewestStamped<T>(w: seq<Entry<T>>, obs: seq<Observation<T>>, mask: seq<int>, k: nat)
    requires k < |obs| && w == Newest(Stamp(obs, mask), k)
    ensures |w| == k
    ensures forall i :: 0 <= i < k ==>
              var o := obs[|obs| - k + i];
              w[i] == Entry(o.time, o.ctrl, o.sensordata, mask)
  {
  }

  /** A freshly initialized buffer fed `N` observations holds the newest
      `min(N, max_length + 1)` of them, all stamped with the all-valid mask. */
  lemma {:induction false} AfterInitialize<T>(m: Model, maxLength: int, blank: T, obs: seq<Observation<T>>)
    requires 0 <= maxLength && AllFit(obs, m)
    ensures Length(UpdateAll(Initialize(m, maxLength, blank), m, obs))
            == if |obs| <= maxLength + 1 then |obs| else maxLength + 1
    ensures Window(UpdateAll(Initialize(m, maxLength, blank), m, obs))
            == Newest(Stamp(obs, AllValid(m.nsensor)), maxLength + 1)
  {
    FromEmpty(Initialize(m, maxLength, blank), m, obs);
  }

  /** After `Reset`, a run of updates behaves exactly as on a freshly
      initialized buffer with the same bound. */
  lemma {:induction false} ResetLikeInitialize<T>(b: Buffer<T>, m: Model, blank: T, obs: seq<Observation<T>>)
    requires Valid(b) && Shaped(b, m) && AllFit(obs, m)
    ensures Valid(Reset(b)) && Shaped(Reset(b), m)
    ensures Window(UpdateAll(Reset(b), m, obs))
            == Window(UpdateAll(Initialize(m, b.maxLength, blank), m, obs))
  {
    FromEmpty(Reset(b), m, obs);
    AfterInitialize(m, b.maxLength, blank, obs);
  }
}
