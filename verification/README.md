# Sliding-window measurement buffer

A Dafny model of `mjpc::Buffer` (mjpc/estimators/buffer.cc), the
measurement history kept by the MuJoCo MPC online estimators. The buffer
holds four parallel channels that share one length:

- `time_`, dimension 1;
- `ctrl_`, dimension `nu`;
- `sensor_`, dimension `nsensordata`;
- `sensor_mask_`, one integer flag per sensor (`nsensor`);

plus `mask_`, the current per-sensor mask that each `Update` stamps onto
the new entry, and the bound `max_length_`. `Update` appends while
`length <= max_length` and otherwise shifts every channel down by one entry
and writes the new one into the last slot.

Files:

- `channel.dfy` (module `Channels`): one channel as a record
  `(dim, length, data)` with flat fixed-stride storage, entry `i` at
  `[i * dim, (i + 1) * dim)`, and the entry view `Entries` that reads it
  back. The write patterns the buffer uses (`Append`, `ShiftHead`, `Set`,
  `ShiftAndSet`, `Reset`, `Init`) are proved against that view.
- `buffer.dfy` (module `Buffers`): the buffer record, its invariant
  `Valid`, the tuple view `Window`, and `Initialize`, `Reset`, `Length`,
  `Update` with its fill and shift branches.
- `history.dfy` (module `History`): runs of updates. `Newest(s, k)` (the
  last `k` elements of `s`) is an independent reference definition of a
  sliding window, and the contract of `UpdateAll` proves every run of
  `Update` calls is exactly that window of capacity `max_length + 1`.
- `scenario.dfy` (module `Scenarios`): a concrete run with `max_length`
  3, one actuator and one two-scalar sensor.

The time, control and sensor values are only copied, never computed on,
so they have the opaque type `T`. Mask flags are `int`.

The fill test is modelled as written at buffer.cc:72, `length <= max_length`.
The buffer therefore holds up to `max_length + 1` entries before it starts
evicting, one more than the name suggests; the model follows the code.
`Scenarios.FourUpdatesKeepAll` shows that with `max_length` 3, four
updates keep all four observations, and `Scenarios.FifthUpdateEvictsOldest`
shows that only the fifth evicts the first.

The channel class (`mjpc/estimators/trajectory.h`) is not part of this
model. Its operations are modelled from how buffer.cc uses them:
`ShiftHeadIndex(1)` drops entry 0, moves entries `[1, length)` down one
slot and keeps `length`; `Set(v, idx)` overwrites entry `idx`; `Reset`
is followed by `length_ = 0` and is modelled as only that.

## Model

| member | source | states |
|---|---|---|
| Buffers.Initialize | mjpc/estimators/buffer.cc:27-46 | The four channels are empty and have the model's dimensions (1, `nu`, `nsensordata`, `nsensor`). The current mask has `nsensor` entries, all 1. The bound is the argument. For a non-negative bound the buffer satisfies the invariant and its window is empty. |
| Buffers.Reset | mjpc/estimators/buffer.cc:49-68 | All four lengths become 0 and the current mask is refilled with 1s at its old size. Channel dimensions and the bound are unchanged. A valid buffer stays valid, with an empty window. |
| Buffers.Length | mjpc/estimators/buffer.cc:138 | `Length()` is the time channel's length. Under the invariant it equals the ctrl, sensor and sensor-mask lengths and is at most `max_length + 1`. |
| Buffers.Fill | mjpc/estimators/buffer.cc:72-92 | The fill branch keeps the invariant, the current mask and the bound. The new window is the old window with the tuple (time, ctrl, sensordata, current mask) appended as newest. |
| Buffers.FillBranch | mjpc/estimators/buffer.cc:74-92 | In the fill branch each channel's length grows by exactly 1. Its flat storage changes only in the `dim` cells at offset `old length * dim`, which receive the new time, ctrl, sensor data and current mask respectively. |
| Buffers.Shift | mjpc/estimators/buffer.cc:93-110 | The shift branch keeps the invariant, the current mask, the bound and the length (which is `max_length + 1`). The new window is the old window without its oldest tuple, with the new tuple appended as newest. |
| Buffers.ShiftBranch | mjpc/estimators/buffer.cc:93-110 | In the shift branch every channel keeps its length, its oldest entry is evicted and the written value becomes its newest entry. The mask write at index `sensor_.length_ - 1` is the mask channel's own last slot, because the lengths are equal. |
| Buffers.Update | mjpc/estimators/buffer.cc:71-111 | `Update` keeps the invariant (four equal lengths, at most `max_length + 1`), never changes the current mask or the bound, and grows the length by one exactly when `length <= max_length`. The window gains the new tuple, stamped with the current mask, as newest. It loses its oldest tuple exactly when the buffer was already past `max_length`. |
| Channels.AppendedEntries | mjpc/estimators/buffer.cc:74-91 | A copy of `dim` values into flat storage at stride offset `length * dim`, followed by a length bump, appends exactly that entry to the channel's entry view. All older entries are unchanged. |
| Channels.SetEntries | mjpc/estimators/buffer.cc:96-109 | Overwriting entry `idx` of the valid range replaces exactly that entry. Every other entry reads back unchanged. |
| Channels.ShiftThenSet | mjpc/estimators/buffer.cc:95-109 | `ShiftHeadIndex(1)` followed by `Set` at the last slot slides the channel's entries by one: the oldest is gone and the written value is newest. |
| Channels.OffsetIsProduct | mjpc/estimators/buffer.cc:77-90 | The stride offset of entry `i` is `i * dim`, the pointer arithmetic of the fill branch's copies. |
| History.UpdateAll | mjpc/estimators/buffer.cc:71-111 | Any run of `Update` calls keeps the invariant and the model shape, leaves the current mask and the bound alone, and keeps `Length()` at most `max_length + 1`. The window afterwards is the newest `max_length + 1` tuples of the old window followed by the run's observations, each stamped with the mask that was current when it arrived. |
| History.UpdateIsNewest | mjpc/estimators/buffer.cc:72-110 | One `Update` is one step of the reference sliding window: the new window is the newest `max_length + 1` of (old window + new tuple). |
| History.FromEmpty | mjpc/estimators/buffer.cc:72-109 | From an empty buffer, `N` updates give `Length() == min(N, max_length + 1)`, and the window is the newest of the observations, oldest first. |
| History.OldestEvicted | mjpc/estimators/buffer.cc:93-110 | Once more than `max_length + 1` observations have arrived, eviction has been oldest-first. Window entry `i` is observation `N - (max_length + 1) + i`. |
| History.AfterInitialize | mjpc/estimators/buffer.cc:27-110 | A freshly initialized buffer fed `N` observations holds the newest `min(N, max_length + 1)` of them, each stamped with the all-ones mask. |
| History.ResetLikeInitialize | mjpc/estimators/buffer.cc:49-68 | After `Reset`, any run of updates yields the same window as on a freshly initialized buffer with the same bound. |
| Scenarios.FourUpdatesKeepAll | mjpc/estimators/buffer.cc:72 | With `max_length` 3, four updates leave four entries: the window is observations 0 to 3, oldest first, so nothing has been evicted yet. |
| Scenarios.FifthUpdateEvictsOldest | mjpc/estimators/buffer.cc:93-110 | With `max_length` 3, a fifth update evicts the first observation. The window is observations 1 to 4, newest last. |

## Left out

- `Print` (buffer.cc:119-135): a `printf` dump with no effect on state.
- `UpdateMask` (buffer.cc:114-116): its body is empty, so the current mask only changes through `Initialize` and `Reset`. A caller that edits the mask between updates is covered, because `Update` stamps whatever `mask` the buffer holds.
- `mjModel` and `mjData` are reduced to the counts `nu`, `nsensor` and `nsensordata` (`Model`) and to the time, ctrl and sensor data read on each update (`Observation`).
- `mju_copy` and `memcpy` are modelled as slice writes into flat storage (`Channels.Write`).
- Floating-point semantics: values are only copied, so their type is opaque.
- Storage allocation of the channel class: `Initialize` gives each channel room for `max_length + 1` entries of blank values. This is the room `Update` needs; the real allocation size lives in trajectory.h and is not modelled. `Reset` keeps the stored values and only clears the length.
- A negative `max_length`: `Initialize` accepts it as the source does, but `Update` requires the buffer invariant, which includes `max_length >= 0`. With a negative bound the source would take the shift branch on an empty buffer and write at index -1.
- Dimension checks: the source copies `nu`, `nsensordata` and `nsensor` values without checking the input's sizes. `Update` instead requires the observation to have the model's sizes (`Fits`).
- Model counts across calls: the fill branch strides and copies by `model->nu`, `model->nsensordata` and `model->nsensor` (buffer.cc:77-91), while the shift branch's `Set` copies each channel's own `dim_` (buffer.cc:96-109), and nothing checks that the two agree. `Update` requires `Shaped(b, m)`: the model passed to it has the same counts as the one given to `Initialize`, so the fill branch's `model->nu` stride equals `ctrl_.dim_`, and likewise for the sensor and mask channels. A model with different counts is not modelled.
- Integer width: lengths, `max_length` and stride offsets are unbounded in the model, while the source stores `length_` and `max_length_` as C++ `int` (buffer.cc:27, 45, 72, 138). With `max_length == INT_MAX` the fill test at buffer.cc:72 holds for every `int`, so the shift branch never runs and the `length_++` at buffer.cc:74 overflows after `INT_MAX` fills; the `int` products `length_ * model->nu` and `length_ * model->nsensordata` at buffer.cc:77 and 83 overflow once they pass `INT_MAX`. The model accepts such bounds and keeps counting, so its promises for buffers that large go beyond what the source does.
- Per-entry read accessors (`Get`) belong to the channel class and are represented by the `Entries` and `Window` views.
- Error kinds such as an invalid capacity or an out-of-range index are not raised anywhere in buffer.cc, so the model has no error path.
