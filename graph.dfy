/** The temperature chart's data: the values array and the time-label array of
    the chart instance, and the three effects of the chart component that
    rewrite them in place. Rendering, styling and the x-axis window are not
    modelled. */
module GraphComponent {
  import opened Units
  import opened SampleWindow

  class Graph {
    /** The values of the chart's only dataset, in arrival order. */
    var data: seq<real>
    /** The time label of each value, at the same position. */
    var labels: seq<string>

    /** The two arrays always describe the same samples. */
    ghost predicate Valid()
      reads this
    {
      |data| == |labels|
    }

    /** The window as (value, time label) samples. */
    ghost function Samples(): seq<(real, string)>
      reads this
      requires Valid()
    {
      Zip(data, labels)
    }

    /** A freshly created chart holds no samples. */
    constructor ()
      ensures Valid() && data == [] && labels == []
    {
      data := [];
      labels := [];
    }

    /** The unit effect: builds a new values array by rewriting every stored value
        into the newly selected unit, then replaces the old one. Labels stay. */
    method ConvertUnits(displayUnits: Unit)
      requires Valid()
      modifies this
      ensures Valid()
      ensures data == ConvertAll(old(data), displayUnits)
      ensures labels == old(labels)
    {
      var newData: seq<real> := [];
      var i := 0;
      while i < |data|
        invariant 0 <= i <= |data|
        invariant |newData| == i
        invariant forall k :: 0 <= k < i ==> newData[k] == Convert(data[k], displayUnits)
      {
        var value := data[i];
        newData := newData + [Convert(value, displayUnits)];
        i := i + 1;
      }
      data := newData;
    }

    /** The new-data effect: shifts out the oldest sample when
        `length - 3 > maxPoints`, then pushes the new value and its time label. */
    method AddData(nextTemp: real, timeString: string, maxPoints: int)
      requires Valid()
      modifies this
      ensures Valid()
      ensures data == AppendWindow(old(data), nextTemp, maxPoints)
      ensures labels == AppendWindow(old(labels), timeString, maxPoints)
      ensures Samples() == AppendWindow(old(Samples()), (nextTemp, timeString), maxPoints)
    {
      var chartLength := |labels|;
      if chartLength - 3 > maxPoints {
        labels := Shift(labels);
        data := Shift(data);
      }
      data := data + [nextTemp];
      labels := labels + [timeString];
      ZipAppend(old(data), old(labels), nextTemp, timeString, maxPoints);
    }

    /** The capacity effect: when the window is longer than `maxPoints`, slices off
        the `length - maxPoints` oldest samples from both arrays. */
    method ApplyMaxPoints(maxPoints: int)
      requires Valid()
      modifies this
      ensures Valid()
      ensures data == Trimmed(old(data), maxPoints)
      ensures labels == Trimmed(old(labels), maxPoints)
      ensures Samples() == Trimmed(old(Samples()), maxPoints)
    {
      var chartLength := |labels|;
      var chartDif := chartLength - maxPoints;
      if chartDif > 0 {
        data := SliceFrom(data, chartDif);
        labels := SliceFrom(labels, chartDif);
      }
      ZipTrimmed(old(data), old(labels), maxPoints);
    }
  }
}
