/** The controller component: its state (display unit, capacity, pending sample),
    the module-level copy of the unit that ingestion reads, the state updaters of
    the capacity buttons and of data ingestion, the decoding of a device
    notification, and how each user or device event drives the chart's effects. */
module AppComponent {
  import opened Units
  import opened SampleWindow
  import opened GraphComponent

  datatype Option<T> = None | Some(value: T)

  /** The two capacity buttons, by their element ids 'add' and 'subtract'. */
  datatype MaxPointsControl = Add | Subtract

  /** What reaches the data handler: a decoded numeric reading (Celsius, from the
      device) or the click event of the "Add data" button. */
  datatype DataEvent = Reading(celsius: real) | AddDataClick

  /** One byte of a notification payload. */
  newtype byte = x: int | 0 <= x < 256

  // ----- Capacity control -----

  /** The capacity updater: one more for 'add', one fewer for 'subtract', with no
      lower bound. */
  function HandleMaxPoints(prevMax: int, id: MaxPointsControl): (max: int)
    ensures id == Add ==> max == prevMax + 1
    ensures id == Subtract ==> max == prevMax - 1
  {
    match id
    case Add => prevMax + 1
    case Subtract => prevMax - 1
  }

  /** `k` clicks on 'subtract' in a row. */
  function SubtractTimes(max: int, k: nat): int
    decreases k
  {
    if k == 0 then max else SubtractTimes(HandleMaxPoints(max, Subtract), k - 1)
  }

  /** The capacity has no floor: `k` clicks on 'subtract' lower it by exactly `k`,
      through zero and below. */
  lemma {:induction false} SubtractHasNoFloor(max: int, k: nat)
    ensures SubtractTimes(max, k) == max - k
    decreases k
  {
    if k > 0 {
      SubtractHasNoFloor(max - 1, k - 1);
    }
  }

  /** 'add' and then 'subtract' restore the capacity, in either order. */
  lemma AddSubtractInverse(max: int)
    ensures HandleMaxPoints(HandleMaxPoints(max, Add), Subtract) == max
    ensures HandleMaxPoints(HandleMaxPoints(max, Subtract), Add) == max
  {
  }

  // ----- Ingestion -----

  /** The data updater: a numeric reading is converted to Fahrenheit when the
      active unit is Fahrenheit and kept otherwise; a button click yields
      `random * 100`, where `random` is a draw of `Math.random()` in [0, 1). */
  function HandleNewData(e: DataEvent, tempFormula: Unit, random: real): (nextTemp: real)
    requires 0.0 <= random < 1.0
    ensures e.Reading? && tempFormula == Fahrenheit ==> ToCelsius(nextTemp) == e.celsius
    ensures e.Reading? && tempFormula == Celsius ==> nextTemp == e.celsius
    ensures e.AddDataClick? ==> 0.0 <= nextTemp < 100.0
  {
    match e
    case Reading(c) => if tempFormula == Fahrenheit then ToFahrenheit(c) else c
    case AddDataClick => random * 100.0
  }

  /** The Celsius equivalent of a value stored in unit `u`. */
  function CelsiusOf(v: real, u: Unit): real
  {
    match u
    case Fahrenheit => ToCelsius(v)
    case Celsius => v
  }

  /** A window of Celsius values as it is stored when `u` is the active unit. */
  function Expressed(celsius: seq<real>, u: Unit): seq<real>
  {
    match u
    case Fahrenheit => ConvertAll(celsius, Fahrenheit)
    case Celsius => celsius
  }

  /** A reading is stored in the active unit: read back in Celsius it is the
      reading itself, whichever unit is active. */
  lemma ReadingStoredInActiveUnit(c: real, u: Unit, random: real)
    requires 0.0 <= random < 1.0
    ensures CelsiusOf(HandleNewData(Reading(c), u, random), u) == c
    ensures HandleNewData(Reading(c), u, random) == Expressed([c], u)[0]
  {
  }

  /** The synthetic value of a button click does not depend on the active unit. */
  lemma ClickIgnoresUnit(u: Unit, u': Unit, random: real)
    requires 0.0 <= random < 1.0
    ensures HandleNewData(AddDataClick, u, random) == HandleNewData(AddDataClick, u', random)
  {
  }

  /** Storing a value of the active unit in the window is storing its Celsius
      equivalent in the Celsius window. */
  lemma ExpressedAppend(celsius: seq<real>, v: real, maxPoints: int, u: Unit)
    ensures Expressed(AppendWindow(celsius, CelsiusOf(v, u), maxPoints), u)
         == AppendWindow(Expressed(celsius, u), v, maxPoints)
  {
    if u == Fahrenheit {
      var c := ToCelsius(v);
      assert Convert(c, Fahrenheit) == v;
      ConvertAllAppend(celsius, c, maxPoints, Fahrenheit);
    }
  }

  /** Trimming the stored window is trimming the Celsius window. */
  lemma ExpressedTrimmed(celsius: seq<real>, maxPoints: int, u: Unit)
    ensures Expressed(Trimmed(celsius, maxPoints), u) == Trimmed(Expressed(celsius, u), maxPoints)
  {
    if u == Fahrenheit {
      ConvertAllTrimmed(celsius, maxPoints, Fahrenheit);
    }
  }

  /** A capacity change keeps the stored window the Celsius history expressed in
      the active unit, keeps values and labels the same length, and leaves at most
      `max(maxPoints, 0)` samples. */
  lemma TrimKeepsInvariant(data: seq<real>, labels: seq<string>, celsius: seq<real>, u: Unit, maxPoints: int)
    requires |data| == |labels| && data == Expressed(celsius, u)
    ensures Trimmed(data, maxPoints) == Expressed(Trimmed(celsius, maxPoints), u)
    ensures |Trimmed(data, maxPoints)| == |Trimmed(labels, maxPoints)|
    ensures |Trimmed(data, maxPoints)| <= Max(maxPoints, 0) <= WindowBound(maxPoints)
  {
    ExpressedTrimmed(celsius, maxPoints, u);
  }

  // ----- Notifications -----

  /** `DataView.getUint16()` at offset 0: big-endian. */
  function Uint16BE(hi: byte, lo: byte): (n: int)
    ensures 0 <= n < 0x1_0000
  {
    hi as int * 256 + lo as int
  }

  /** A notification payload decoded as a 16-bit unsigned count of hundredths;
      a payload shorter than two bytes makes `getUint16` throw, and nothing is
      ingested. */
  function DecodeNotification(value: seq<byte>): (data: Option<real>)
    ensures |value| < 2 <==> data.None?
    ensures data.Some? ==> data.value * 100.0 == Uint16BE(value[0], value[1]) as real
    ensures data.Some? ==> 0.0 <= data.value <= 655.35
  {
    if |value| < 2 then None else Some(Uint16BE(value[0], value[1]) as real / 100.0)
  }

  /** The device's encoding of a raw 16-bit count, most significant byte first. */
  function EncodeUint16BE(raw: int): (bytes: seq<byte>)
    requires 0 <= raw < 0x1_0000
    ensures |bytes| == 2
  {
    [(raw / 256) as byte, (raw % 256) as byte]
  }

  /** Decoding an encoded count, whatever follows it, gives the count divided by 100. */
  lemma DecodeEncoded(raw: int, rest: seq<byte>)
    requires 0 <= raw < 0x1_0000
    ensures DecodeNotification(EncodeUint16BE(raw) + rest) == Some(raw as real / 100.0)
  {
    var bytes := EncodeUint16BE(raw) + rest;
    assert Uint16BE(bytes[0], bytes[1]) == raw;
  }

  // ----- The controller -----

  class App {
    /** The unit chosen in the selector. */
    var displayUnits: Unit
    /** `maxPoints.max`: the capacity shown between the two buttons. */
    var maxPoints: int
    /** `newData.nextTemp`: the last sample handed to the chart, if any. */
    var newData: Option<real>
    /** The module-level unit that ingestion reads, synchronised by an effect. */
    var tempFormula: Unit
    /** The chart whose effects the state changes drive. */
    const graph: Graph
    /** The Celsius equivalent of every stored sample, in window order. */
    ghost var celsius: seq<real>

    /** Ingestion reads the selected unit; the window stays within what appends
        allow for the current capacity; and every stored value is the Celsius
        history expressed in the selected unit. */
    ghost predicate Valid()
      reads this, graph
    {
      && graph.Valid()
      && tempFormula == displayUnits
      && |graph.data| <= WindowBound(maxPoints)
      && graph.data == Expressed(celsius, displayUnits)
    }

    /** The first render and its effects: unit "farenheit", capacity 5, no
        pending sample, an empty chart, and the unit copied to `tempFormula`. */
    constructor ()
      ensures Valid() && fresh(graph)
      ensures displayUnits == Fahrenheit && tempFormula == Fahrenheit
      ensures maxPoints == 5 && newData == None
      ensures graph.data == [] && graph.labels == [] && celsius == []
    {
      displayUnits := Fahrenheit;
      maxPoints := 5;
      newData := None;
      celsius := [];
      var g := new Graph();
      g.ConvertUnits(Fahrenheit);
      graph := g;
      tempFormula := Fahrenheit;
    }

    /** A choice in the unit selector. A new unit re-expresses the stored history
        in it (the chart's effect) and becomes the unit ingestion uses (the
        controller's effect); choosing the current unit changes nothing. */
    method HandleDisplayUnits(u: Unit)
      requires Valid()
      modifies this, graph
      ensures Valid()
      ensures displayUnits == u && tempFormula == u
      ensures graph.data == if u == old(displayUnits) then old(graph.data)
                            else ConvertAll(old(graph.data), u)
      ensures graph.labels == old(graph.labels)
      ensures celsius == old(celsius)
      ensures maxPoints == old(maxPoints) && newData == old(newData)
    {
      if u != displayUnits {
        displayUnits := u;
        graph.ConvertUnits(u);
        tempFormula := u;
        if u == Celsius {
          ConvertAllRoundTrip(celsius, Fahrenheit);
        }
      }
    }

    /** A click on 'add' or 'subtract': the capacity moves by one and the chart
        trims its window to the new capacity. */
    method HandleMaxPointsClick(id: MaxPointsControl)
      requires Valid()
      modifies this, graph
      ensures Valid()
      ensures maxPoints == HandleMaxPoints(old(maxPoints), id)
      ensures graph.data == Trimmed(old(graph.data), maxPoints)
      ensures graph.labels == Trimmed(old(graph.labels), maxPoints)
      ensures celsius == Trimmed(old(celsius), maxPoints)
      ensures |graph.data| <= Max(maxPoints, 0)
      ensures displayUnits == old(displayUnits) && tempFormula == old(tempFormula)
      ensures newData == old(newData)
    {
      var max := HandleMaxPoints(maxPoints, id);
      TrimKeepsInvariant(graph.data, graph.labels, celsius, displayUnits, max);
      graph.ApplyMaxPoints(max);
      maxPoints := max;
      celsius := Trimmed(celsius, max);
    }

    /** A reading or a click on "Add data": the updater computes the next sample
        from the unit ingestion reads, and the chart appends it with the time
        label `timeString` (the clock is a parameter). */
    method HandleNewDataEvent(e: DataEvent, random: real, timeString: string)
      requires Valid()
      requires 0.0 <= random < 1.0
      modifies this, graph
      ensures Valid()
      ensures newData == Some(HandleNewData(e, old(tempFormula), random))
      ensures graph.data == AppendWindow(old(graph.data), newData.value, maxPoints)
      ensures graph.labels == AppendWindow(old(graph.labels), timeString, maxPoints)
      ensures celsius == AppendWindow(old(celsius), CelsiusOf(newData.value, displayUnits), maxPoints)
      ensures displayUnits == old(displayUnits) && tempFormula == old(tempFormula)
      ensures maxPoints == old(maxPoints)
    {
      var nextTemp := HandleNewData(e, tempFormula, random);
      newData := Some(nextTemp);
      graph.AddData(nextTemp, timeString, maxPoints);
      celsius := AppendWindow(celsius, CelsiusOf(nextTemp, displayUnits), maxPoints);
      ExpressedAppend(old(celsius), nextTemp, maxPoints, displayUnits);
      AppendBounded(old(graph.data), nextTemp, maxPoints);
    }

    /** A device notification: the payload is decoded and ingested as a reading;
        a payload too short to decode throws before anything changes. */
    method HandleNotification(value: seq<byte>, timeString: string)
      requires Valid()
      modifies this, graph
      ensures Valid()
      ensures DecodeNotification(value).None? ==>
        && graph.data == old(graph.data) && graph.labels == old(graph.labels)
        && newData == old(newData) && celsius == old(celsius)
      ensures DecodeNotification(value).Some? ==>
        && newData == Some(HandleNewData(Reading(DecodeNotification(value).value), old(tempFormula), 0.0))
        && graph.data == AppendWindow(old(graph.data), newData.value, maxPoints)
        && graph.labels == AppendWindow(old(graph.labels), timeString, maxPoints)
        && celsius == AppendWindow(old(celsius), CelsiusOf(newData.value, displayUnits), maxPoints)
      ensures displayUnits == old(displayUnits) && maxPoints == old(maxPoints)
    {
      match DecodeNotification(value)
      case None =>
      case Some(data) =>
        HandleNewDataEvent(Reading(data), 0.0, timeString);
    }
  }

  // ----- Scenarios -----

  /** Reading 0 °C while Fahrenheit is active stores 32; switching to Celsius
      turns it into 0; reading 100 °C then stores 100 unconverted. */
  method UnitSwitchScenario()
  {
    var app := new App();
    app.HandleNewDataEvent(Reading(0.0), 0.0, "12:0:0:0");
    assert app.graph.data == [32.0];
    app.HandleDisplayUnits(Celsius);
    assert app.graph.data == [0.0];
    app.HandleNewDataEvent(Reading(100.0), 0.0, "12:0:1:0");
    assert app.graph.data == [0.0, 100.0];
  }

  /** At capacity 1 two readings are both kept: appends evict only once the window
      exceeds the capacity by more than three. */
  method CapacityOneScenario()
  {
    var app := new App();
    app.HandleMaxPointsClick(Subtract);
    app.HandleMaxPointsClick(Subtract);
    app.HandleMaxPointsClick(Subtract);
    app.HandleMaxPointsClick(Subtract);
    assert app.maxPoints == 1;
    app.HandleNewDataEvent(Reading(10.0), 0.0, "12:0:0:0");
    app.HandleNewDataEvent(Reading(20.0), 0.0, "12:0:1:0");
    assert app.graph.data == [50.0, 68.0];
  }
}
