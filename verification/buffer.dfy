/** The estimator's measurement buffer (`mjpc::Buffer`): four parallel
    history channels (time, ctrl, sensor data, sensor mask) under one shared
    length, plus the current per-sensor mask stamped onto every new entry.

    Time, control and sensor scalars are only ever copied, so their type is
    the opaque parameter `T`; mask flags are integers. */
module Buffers {
  import opened Channels

  /** The counts the buffer reads from `mjModel`. */
  datatype Model = Model(nu: nat, nsensor: nat, nsensordata: nat)

  /** The fields the buffer reads from `mjData` on each update. */
  datatype Observation<T> = Observation(time: T, ctrl: seq<T>, sensordata: seq<T>)

  datatype Buffer<T> = Buffer(
    sensor: Channel<T>,
    sensorMask: Channel<int>,
    mask: seq<int>,
    ctrl: Channel<T>,
    time: Channel<T>,
    maxLength: int)

  /** One synchronized tuple of the window: entry `i` of every channel. */
  datatype Entry<T> = Entry(time: T, ctrl: seq<T>, sensor: seq<T>, mask: seq<int>)

  /** The observation carries the vector sizes the model declares. */
  predicate Fits<T>(data: Observation<T>, m: Model)
  {
    |data.ctrl| == m.nu && |data.sensordata| == m.nsensordata
  }

  /** Channel dimensions and the current mask agree with the model. */
  predicate Shaped<T>(b: Buffer<T>, m: Model)
  {
    && b.time.dim == 1
    && b.ctrl.dim == m.nu
    && b.sensor.dim == m.nsensordata
    && b.sensorMask.dim == m.nsensor
    && |b.mask| == m.nsensor
  }

  /** The buffer invariant: a non-negative bound, four equal channel
      lengths of at most `maxLength + 1` (the fill test admits one entry
      past `maxLength`), and storage in every channel for that many entries. */
  predicate Valid<T>(b: Buffer<T>)
  {
    && 0 <= b.maxLength
    && b.time.dim == 1
    && |b.mask| == b.sensorMask.dim
    && b.ctrl.length == b.time.length
    && b.sensor.length == b.time.length
    && b.sensorMask.length == b.time.length
    && b.time.length <= b.maxLength + 1
    && Holds(b.time, b.maxLength + 1)
    && Holds(b.ctrl, b.maxLength + 1)
    && Holds(b.sensor, b.maxLength + 1)
    && Holds(b.sensorMask, b.maxLength + 1)
  }

  /** Entries the buffer can hold before it starts shifting. */
  function Capacity(maxLength: int): (c: nat)
  {
    if maxLength < 0 then 0 else maxLength + 1
  }

  /** A mask that flags every one of `n` sensors as valid. */
  function AllValid(n: nat): (r: seq<int>)
    ensures |r| == n
    ensures forall i :: 0 <= i < n ==> r[i] == 1
  {
    seq(n, _ => 1)
  }

  /** `Length()`: the time channel's fill count, which is the length of
      every channel. */
  function Length<T>(b: Buffer<T>): (n: nat)
    ensures Valid(b) ==>
              && n == b.ctrl.length
              && n == b.sensor.length
              && n == b.sensorMask.length
              && n <= b.maxLength + 1
  {
    b.time.length
  }

  lemma ValidRoom<T>(b: Buffer<T>)
    requires Valid(b)
    ensures Holds(b.time, Length(b)) && Holds(b.ctrl, Length(b))
    ensures Holds(b.sensor, Length(b)) && Holds(b.sensorMask, Length(b))
    ensures Length(b) <= b.maxLength ==>
              && Holds(b.time, Length(b) + 1) && Holds(b.ctrl, Length(b) + 1)
              && Holds(b.sensor, Length(b) + 1) && Holds(b.sensorMask, Length(b) + 1)
  {
    var n, k := Length(b), b.maxLength + 1;
    HoldsFewer(b.time, n, k);
    HoldsFewer(b.ctrl, n, k);
    HoldsFewer(b.sensor, n, k);
    HoldsFewer(b.sensorMask, n, k);
    if n < k {
      HoldsFewer(b.time, n + 1, k);
      HoldsFewer(b.ctrl, n + 1, k);
      HoldsFewer(b.sensor, n + 1, k);
      HoldsFewer(b.sensorMask, n + 1, k);
    }
  }

  /** The window as synchronized tuples, oldest first. */
  function Window<T>(b: Buffer<T>): (w: seq<Entry<T>>)
    requires Valid(b)
    ensures |w| == Length(b)
  {
    ValidRoom(b);
    var ts, us, ys, ms := Entries(b.time), Entries(b.ctrl), Entries(b.sensor), Entries(b.sensorMask);
    seq(Length(b), (i: int) requires 0 <= i < Length(b) => Entry(ts[i][0], us[i], ys[i], ms[i]))
  }

  /** Reading the window back: each tuple is entry `i` of the four channels. */
  lemma WindowChannels<T>(b: Buffer<T>)
    requires Valid(b)
    ensures Holds(b.time, Length(b)) && Holds(b.ctrl, Length(b))
    ensures Holds(b.sensor, Length(b)) && Holds(b.sensorMask, Length(b))
    ensures forall i :: 0 <= i < Length(b) ==>
              && Entries(b.time)[i] == [Window(b)[i].time]
              && Entries(b.ctrl)[i] == Window(b)[i].ctrl
              && Entries(b.sensor)[i] == Window(b)[i].sensor
              && Entries(b.sensorMask)[i] == Window(b)[i].mask
  {
    ValidRoom(b);
    forall i | 0 <= i < Length(b)
      ensures Entries(b.time)[i] == [Window(b)[i].time]
    {
      var t := Entries(b.time)[i];
      assert |t| == 1;
      assert t == [t[0]];
    }
  }

  /** A sequence of tuples is the window when the four channels hold its
      components entry by entry. */
  lemma {:induction false} WindowFrom<T>(b: Buffer<T>, es: seq<Entry<T>>)
    requires Valid(b) && |es| == Length(b)
    requires Holds(b.time, Length(b)) && Holds(b.ctrl, Length(b))
    requires Holds(b.sensor, Length(b)) && Holds(b.sensorMask, Length(b))
    requires forall i :: 0 <= i < |es| ==>
               && Entries(b.time)[i] == [es[i].time]
               && Entries(b.ctrl)[i] == es[i].ctrl
               && Entries(b.sensor)[i] == es[i].sensor
               && Entries(b.sensorMask)[i] == es[i].mask
    ensures Window(b) == es
  {
    var w := Window(b);
    forall i | 0 <= i < |es|
      ensures w[i] == es[i]
    {
      assert Entries(b.time)[i][0] == es[i].time;
    }
  }

  /** `Initialize(model, max_length)`: every channel empty with the model's
      dimension, the current mask all valid, the bound recorded. Storage
      allocation belongs to the channel class; it is modelled as room for
      `Capacity(maxLength)` blank entries per channel. */
  function Initialize<T>(m: Model, maxLength: int, blank: T): (b: Buffer<T>)
    ensures Shaped(b, m)
    ensures Length(b) == 0 && b.ctrl.length == 0 && b.sensor.length == 0 && b.sensorMask.length == 0
    ensures b.mask == AllValid(m.nsensor)
    ensures b.maxLength == maxLength
    ensures 0 <= maxLength ==> Valid(b) && Window(b) == []
  {
    var cap := Capacity(maxLength);
    Buffer(
      Init(m.nsensordata, cap, blank),
      Init(m.nsensor, cap, 0),
      AllValid(m.nsensor),
      Init(m.nu, cap, blank),
      Init(1, cap, blank),
      maxLength)
  }

  /** `Reset()`: every channel emptied, the current mask refilled with 1s,
      dimensions, storage and bound kept. */
  function Reset<T>(b: Buffer<T>): (r: Buffer<T>)
    ensures Length(r) == 0 && r.ctrl.length == 0 && r.sensor.length == 0 && r.sensorMask.length == 0
    ensures r.time.dim == b.time.dim && r.ctrl.dim == b.ctrl.dim
    ensures r.sensor.dim == b.sensor.dim && r.sensorMask.dim == b.sensorMask.dim
    ensures r.mask == AllValid(|b.mask|)
    ensures r.maxLength == b.maxLength
    ensures Valid(b) ==> Valid(r) && Window(r) == []
  {
    Buffer(
      Channels.Reset(b.sensor),
      Channels.Reset(b.sensorMask),
      AllValid(|b.mask|),
      Channels.Reset(b.ctrl),
      Channels.Reset(b.time),
      b.maxLength)
  }

  /** The fill branch of `Update`: each channel gets the new entry written
      at stride offset `length * dim` and grows by one. */
  function Fill<T>(b: Buffer<T>, m: Model, data: Observation<T>): (r: Buffer<T>)
    requires Valid(b) && Shaped(b, m) && Fits(data, m)
    requires Length(b) <= b.maxLength
    ensures Valid(r) && Shaped(r, m)
    ensures r.mask == b.mask && r.maxLength == b.maxLength
    ensures Window(r) == Window(b) + [Entry(data.time, data.ctrl, data.sensordata, b.mask)]
  {
    ValidRoom(b);
    var r := Buffer(
      Append(b.sensor, data.sensordata),
      Append(b.sensorMask, b.mask),
      b.mask,
      Append(b.ctrl, data.ctrl),
      Append(b.time, [data.time]),
      b.maxLength);
    FillWindow(b, r, data);
    r
  }

  /** In the fill branch each channel grows by exactly one, and its flat
      storage changes only in the `dim` cells at offset `old length * dim`,
      which now hold the new time, ctrl, sensor data and current mask. */
  lemma FillBranch<T>(b: Buffer<T>, m: Model, data: Observation<T>)
    requires Valid(b) && Shaped(b, m) && Fits(data, m)
    requires Length(b) <= b.maxLength
    ensures Appended(b.time, Fill(b, m, data).time, [data.time])
    ensures Appended(b.ctrl, Fill(b, m, data).ctrl, data.ctrl)
    ensures Appended(b.sensor, Fill(b, m, data).sensor, data.sensordata)
    ensures Appended(b.sensorMask, Fill(b, m, data).sensorMask, b.mask)
  {
    ValidRoom(b);
  }

  lemma {:induction false} FillWindow<T>(b: Buffer<T>, r: Buffer<T>, data: Observation<T>)
    requires Valid(b) && Valid(r) && Length(r) == Length(b) + 1
    requires Holds(b.time, Length(b)) && Holds(b.ctrl, Length(b))
    requires Holds(b.sensor, Length(b)) && Holds(b.sensorMask, Length(b))
    requires Holds(r.time, Length(r)) && Holds(r.ctrl, Length(r))
    requires Holds(r.sensor, Length(r)) && Holds(r.sensorMask, Length(r))
    requires Entries(r.time) == Entries(b.time) + [[data.time]]
    requires Entries(r.ctrl) == Entries(b.ctrl) + [data.ctrl]
    requires Entries(r.sensor) == Entries(b.sensor) + [data.sensordata]
    requires Entries(r.sensorMask) == Entries(b.sensorMask) + [b.mask]
    ensures Window(r) == Window(b) + [Entry(data.time, data.ctrl, data.sensordata, b.mask)]
  {
    WindowChannels(b);
    var w := Window(b);
    var es := w + [Entry(data.time, data.ctrl, data.sensordata, b.mask)];
    forall i | 0 <= i < |es|
      ensures Entries(r.time)[i] == [es[i].time]
      ensures Entries(r.ctrl)[i] == es[i].ctrl
      ensures Entries(r.sensor)[i] == es[i].sensor
      ensures Entries(r.sensorMask)[i] == es[i].mask
    {
      if i < |w| {
        assert es[i] == w[i];
        assert Entries(r.time)[i] == Entries(b.time)[i];
        assert Entries(r.ctrl)[i] == Entries(b.ctrl)[i];
        assert Entries(r.sensor)[i] == Entries(b.sensor)[i];
        assert Entries(r.sensorMask)[i] == Entries(b.sensorMask)[i];
      }
    }
    WindowFrom(r, es);
  }

  /** The shift branch of `Update`: each channel drops its oldest entry and
      the new entry overwrites the last slot. The mask channel's slot index
      is taken from the sensor channel's length, as buffer.cc:109 does. */
  function Shift<T>(b: Buffer<T>, m: Model, data: Observation<T>): (r: Buffer<T>)
    requires Valid(b) && Shaped(b, m) && Fits(data, m)
    requires Length(b) > b.maxLength
    ensures Valid(r) && Shaped(r, m)
    ensures r.mask == b.mask && r.maxLength == b.maxLength
    ensures Length(r) == Length(b) == b.maxLength + 1
    ensures Window(r) == Window(b)[1..] + [Entry(data.time, data.ctrl, data.sensordata, b.mask)]
  {
    ValidRoom(b);
    var r := Buffer(
      ShiftAndSet(b.sensor, data.sensordata, b.sensor.length - 1),
      ShiftAndSet(b.sensorMask, b.mask, b.sensor.length - 1),
      b.mask,
      ShiftAndSet(b.ctrl, data.ctrl, b.ctrl.length - 1),
      ShiftAndSet(b.time, [data.time], b.time.length - 1),
      b.maxLength);
    ShiftWindow(b, r, data);
    r
  }

  /** In the shift branch every channel keeps its length and slides by
      one entry: the oldest is evicted and the new value is the newest. The
      mask write at index `sensor length - 1` lands in the mask channel's
      own last slot. */
  lemma ShiftBranch<T>(b: Buffer<T>, m: Model, data: Observation<T>)
    requires Valid(b) && Shaped(b, m) && Fits(data, m)
    requires Length(b) > b.maxLength
    ensures b.sensor.length - 1 == b.sensorMask.length - 1
    ensures var r := Shift(b, m, data);
      && r.time.length == b.time.length && r.ctrl.length == b.ctrl.length
      && r.sensor.length == b.sensor.length && r.sensorMask.length == b.sensorMask.length
      && Holds(b.time, b.time.length) && Holds(r.time, r.time.length)
      && Holds(b.ctrl, b.ctrl.length) && Holds(r.ctrl, r.ctrl.length)
      && Holds(b.sensor, b.sensor.length) && Holds(r.sensor, r.sensor.length)
      && Holds(b.sensorMask, b.sensorMask.length) && Holds(r.sensorMask, r.sensorMask.length)
      && Entries(r.time) == Entries(b.time)[1..] + [[data.time]]
      && Entries(r.ctrl) == Entries(b.ctrl)[1..] + [data.ctrl]
      && Entries(r.sensor) == Entries(b.sensor)[1..] + [data.sensordata]
      && Entries(r.sensorMask) == Entries(b.sensorMask)[1..] + [b.mask]
  {
    ValidRoom(b);
  }

  lemma {:induction false} ShiftWindow<T>(b: Buffer<T>, r: Buffer<T>, data: Observation<T>)
    requires Valid(b) && Valid(r) && Length(r) == Length(b) >= 1
    requires Holds(b.time, Length(b)) && Holds(b.ctrl, Length(b))
    requires Holds(b.sensor, Length(b)) && Holds(b.sensorMask, Length(b))
    requires Holds(r.time, Length(r)) && Holds(r.ctrl, Length(r))
    requires Holds(r.sensor, Length(r)) && Holds(r.sensorMask, Length(r))
    requires Entries(r.time) == Entries(b.time)[1..] + [[data.time]]
    requires Entries(r.ctrl) == Entries(b.ctrl)[1..] + [data.ctrl]
    requires Entries(r.sensor) == Entries(b.sensor)[1..] + [data.sensordata]
    requires Entries(r.sensorMask) == Entries(b.sensorMask)[1..] + [b.mask]
    ensures Window(r) == Window(b)[1..] + [Entry(data.time, data.ctrl, data.sensordata, b.mask)]
  {
    WindowChannels(b);
    var w := Window(b);
    var es := w[1..] + [Entry(data.time, data.ctrl, data.sensordata, b.mask)];
    forall i | 0 <= i < |es|
      ensures Entries(r.time)[i] == [es[i].time]
      ensures Entries(r.ctrl)[i] == es[i].ctrl
      ensures Entries(r.sensor)[i] == es[i].sensor
      ensures Entries(r.sensorMask)[i] == es[i].mask
    {
      if i < |w| - 1 {
        assert es[i] == w[i + 1];
        assert Entries(r.time)[i] == Entries(b.time)[i + 1];
        assert Entries(r.ctrl)[i] == Entries(b.ctrl)[i + 1];
        assert Entries(r.sensor)[i] == Entries(b.sensor)[i + 1];
        assert Entries(r.sensorMask)[i] == Entries(b.sensorMask)[i + 1];
      }
    }
    WindowFrom(r, es);
  }

  /** `Update(model, data)`: append while `length <= max_length`, otherwise
      evict the oldest entry and append. The new tuple is stamped with the
      current mask, which itself is left unchanged. */
  function Update<T>(b: Buffer<T>, m: Model, data: Observation<T>): (r: Buffer<T>)
    requires Valid(b) && Shaped(b, m) && Fits(data, m)
    ensures Valid(r) && Shaped(r, m)
    ensures r.mask == b.mask && r.maxLength == b.maxLength
    ensures Length(r) == if Length(b) <= b.maxLength then Length(b) + 1 else Length(b)
    ensures Window(r) == (if Length(b) <= b.maxLength then Window(b) else Window(b)[1..])
                         + [Entry(data.time, data.ctrl, data.sensordata, b.mask)]
  {
    if b.time.length <= b.maxLength then Fill(b, m, data) else Shift(b, m, data)
  }
}
