# Temperature chart sample window — a Dafny model

This project models the data core of a small web dashboard for a wireless
temperature sensor. The dashboard keeps a short window of recent readings in
its chart. The window is two parallel arrays inside the chart instance: the
values and their time labels. The model covers:

- the chart component's three data effects (`src/components/graph/graph.js`):
  - retroactive unit conversion of every stored value;
  - appending one value and one time label, with eviction of the oldest pair;
  - trimming the window when the capacity changes;
- the controller's state and updaters (`src/App.js`):
  - the capacity buttons;
  - ingestion of a reading or of a synthetic value;
  - the module-level unit that ingestion reads;
  - decoding of a device notification.

Files:

- `units.dfy` (module `Units`): the two units and the two conversion formulas.
- `window.dfy` (module `SampleWindow`): the window operations as functions on
  sequences, and the lemmas about order, length, eviction and conversion.
- `graph.dfy` (module `GraphComponent`): class `Graph`, whose `data` and `labels`
  fields the three effect methods rewrite in place. Each method is proved
  against the `SampleWindow` function it implements.
- `app.dfy` (module `AppComponent`): the updaters as functions, notification
  decoding, and class `App`. `App` holds the controller state and the chart, and
  has one method per user or device event. Each method runs the effects that the
  event triggers, in order.

`App.Valid()` is the invariant every event keeps:

- ingestion reads the selected unit;
- the window is no longer than appends allow for the current capacity;
- every stored value is a ghost Celsius history expressed in the selected unit.

The last point means unit changes re-express the history exactly, over reals,
however often the unit is switched.

Notable behaviour of the code, which the model keeps:

- An append evicts only when `length - 3 > maxPoints`. The window therefore
  holds up to `maxPoints + 4` samples. At capacity 1, two readings are both
  kept (`AppComponent.CapacityOneScenario`).
- The capacity buttons have no lower bound. The capacity reaches 0 and goes
  negative. At a capacity of 0 or below, the capacity effect empties the window.
- A capacity change trims eagerly even when the capacity grows. At a capacity of
  0 or more, "+" on a window of `maxPoints + 4` samples drops three of them
  (`TrimmedAfterIncrement`).
- At capacities of -4 and below, `maxPoints + 4` is not a bound. The window
  still holds the one sample just pushed (`AppendPastNegativeCapacity`), so the
  bound used is `WindowBound`.

## Model

| member | source | states |
|---|---|---|
| `Units.ToFahrenheit` | src/components/graph/graph.js:106 | `v*1.8+32`; the Celsius formula maps the result back to the input |
| `Units.ToCelsius` | src/components/graph/graph.js:108 | `(v-32)/1.8`; the Fahrenheit formula maps the result back to the input |
| `Units.ConvertRoundTrip` | src/components/graph/graph.js:105-108 | converting a value into one unit and then into the other restores it exactly |
| `Units.ConvertStrictlyIncreasing` | src/components/graph/graph.js:105-108 | both formulas are strictly increasing, so conversion keeps the order of values |
| `Units.Convert` | src/components/graph/graph.js:105-109 | the formula is chosen by the selected unit: under Fahrenheit the Celsius formula maps the result back to the value, under Celsius the Fahrenheit formula does |
| `SampleWindow.Shift` | src/components/graph/graph.js:133-134 | `shift()`: the result is the array without its first element; an empty array stays empty |
| `SampleWindow.SliceFrom` | src/components/graph/graph.js:157-158 | `slice(k)` for `k >= 0`: the result is the last `max(length - k, 0)` elements, so a start past the end gives the empty array |
| `SampleWindow.ConvertAll` | src/components/graph/graph.js:100-111 | the converted window has the same length, and each position holds that position's value converted |
| `SampleWindow.AppendWindow` | src/components/graph/graph.js:128-142 | the new element is last. When `length - 3 > maxPoints` and the window is non-empty, exactly the oldest element is dropped and the length stays the same. Otherwise nothing is dropped and the length grows by one |
| `SampleWindow.Trimmed` | src/components/graph/graph.js:151-158 | the result is the newest `min(length, max(maxPoints, 0))` elements, in their original order |
| `SampleWindow.AppendBounded` | src/components/graph/graph.js:128-142 | a window within `WindowBound(maxPoints)` (`maxPoints + 4`, at least 1) is still within it after an append |
| `SampleWindow.AppendPastNegativeCapacity` | src/components/graph/graph.js:131-142 | at capacity -4, an append to an empty window leaves one element, more than `maxPoints + 4` |
| `SampleWindow.AppendKeepsNewest` | src/components/graph/graph.js:131-142 | within the bound, one append leaves exactly the newest `WindowBound` elements of the old window plus the new one |
| `SampleWindow.AppendAllKeepsNewest` | src/components/graph/graph.js:121-147 | FIFO: after any run of appends at one capacity, the window is the newest `WindowBound(maxPoints)` elements received, in arrival order |
| `SampleWindow.TrimmedKeepsShortWindow` | src/components/graph/graph.js:156 | a capacity at least the window's length evicts nothing |
| `SampleWindow.TrimmedAfterIncrement` | src/components/graph/graph.js:151-158 | at a capacity of 0 or more, raising the capacity by one on a window of `maxPoints + 4` samples drops three of them |
| `SampleWindow.ConvertAllRoundTrip` | src/components/graph/graph.js:100-113 | converting the whole window into one unit and then into the other restores it exactly |
| `SampleWindow.ConvertAllAppend` | src/components/graph/graph.js:100-142 | converting after an append equals appending the converted value to the converted window |
| `SampleWindow.ConvertAllTrimmed` | src/components/graph/graph.js:100-158 | conversion commutes with a capacity change |
| `SampleWindow.ZipAppend` | src/components/graph/graph.js:131-142 | appending a value and its label to the parallel arrays keeps them the same length. It equals appending one (value, label) sample to the window of samples |
| `SampleWindow.ZipTrimmed` | src/components/graph/graph.js:151-158 | trimming both arrays keeps them the same length and trims the window of samples |
| `GraphComponent.Graph.constructor` | src/components/graph/graph.js:45-50 | a new chart has empty value and label arrays |
| `GraphComponent.Graph.ConvertUnits` | src/components/graph/graph.js:96-116 | the loop makes the values the element-wise conversion of the old values into the selected unit. Labels are unchanged |
| `GraphComponent.Graph.AddData` | src/components/graph/graph.js:121-147 | values, labels and the (value, label) samples are each the `AppendWindow` of their old contents |
| `GraphComponent.Graph.ApplyMaxPoints` | src/components/graph/graph.js:149-163 | values, labels and samples are each the `Trimmed` of their old contents |
| `AppComponent.HandleMaxPoints` | src/App.js:15-25 | 'add' gives the previous capacity plus one; 'subtract' gives it minus one |
| `AppComponent.SubtractHasNoFloor` | src/App.js:20-21 | `k` clicks on 'subtract' lower the capacity by exactly `k`, past zero |
| `AppComponent.AddSubtractInverse` | src/App.js:18-21 | 'add' then 'subtract', or the reverse, restores the capacity |
| `AppComponent.HandleNewData` | src/App.js:28-42 | Reading under "farenheit": stored as the Fahrenheit of the reading. Reading under Celsius: stored unchanged. Click: a value in [0, 100) |
| `AppComponent.ReadingStoredInActiveUnit` | src/App.js:31-36 | a reading is stored in the active unit; read back in Celsius, it is the reading |
| `AppComponent.ClickIgnoresUnit` | src/App.js:37-38 | the value of a button click is the same whichever unit is active |
| `AppComponent.ExpressedAppend` | src/App.js:28-42 | storing a value of the active unit equals storing its Celsius equivalent in the Celsius history |
| `AppComponent.ExpressedTrimmed` | src/components/graph/graph.js:151-158 | trimming the stored window equals trimming the Celsius history |
| `AppComponent.TrimKeepsInvariant` | src/components/graph/graph.js:151-158 | after a capacity change the stored window is still the trimmed Celsius history in the active unit, values and labels have the same length, and at most `max(maxPoints, 0)` samples remain |
| `AppComponent.Uint16BE` | src/App.js:50 | two bytes read big-endian give a count in [0, 65535] |
| `AppComponent.DecodeNotification` | src/App.js:48-52 | a payload shorter than two bytes decodes to nothing. Otherwise the value is the 16-bit count divided by 100, so it lies in [0, 655.35] |
| `AppComponent.DecodeEncoded` | src/App.js:49-50 | a count encoded most significant byte first, followed by any bytes, decodes to the count divided by 100 |
| `AppComponent.App.constructor` | src/App.js:11-46 | initial state: unit "farenheit", capacity 5, no pending sample, an empty chart, and ingestion reading "farenheit" |
| `AppComponent.App.HandleDisplayUnits` | src/App.js:44-46 | models `handleDisplayUnits` (src/App.js:12), the chart's unit effect (src/components/graph/graph.js:96-116) and the sync effect cited here. A new unit re-expresses every stored value in it and becomes the unit ingestion reads. The Celsius history is unchanged. Choosing the current unit changes nothing |
| `AppComponent.App.HandleMaxPointsClick` | src/App.js:15-25 | the capacity moves by one. The window is trimmed to it and holds at most `max(capacity, 0)` samples |
| `AppComponent.App.HandleNewDataEvent` | src/App.js:28-46 | the pending sample is computed with the unit ingestion reads and appended with its time label. The Celsius history gains its Celsius equivalent |
| `AppComponent.App.HandleNotification` | src/App.js:48-52 | a decodable payload is ingested as a reading; an undecodable one changes nothing |

## Left out

- Chart.js rendering: gradient, chart configuration, chart creation and `update()`. These are calls into a foreign library and styling.
- The x-axis minimum that the append and capacity effects write. It is display state of the chart widget and does not affect the stored window.
- Time-label formatting from the clock. The label is an arbitrary string parameter.
- `Math.random()`: its draw is a parameter in [0, 1). Its distribution is not modelled.
- React scheduling. Each effect is a method call, run in order after the state change that triggers it. The mount runs of the two unit effects (the chart's conversion and the `tempFormula` copy) are kept, in the constructor. The other mount runs do nothing.
- The value of `tempFormula` before the controller's first effect (undefined). No handler can fire before that effect runs.
- A capacity click whose target has neither id 'add' nor 'subtract' (the updater would store an undefined capacity). Both buttons carry those ids.
- Unit strings other than "farenheit" and "celsius". The selector offers only those two.
- Web Bluetooth discovery, connection and the notification subscription. This is asynchronous I/O. The model starts from the notification payload bytes.
- IEEE-754 rounding: values are exact reals. So the round trip is exact here, while the code gets it back only approximately.
- JSX, MUI controls, CSS and console logging.
