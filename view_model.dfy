/**
 * The sensitivity editor's view model: the list of rows shown by the
 * editor and the operations the screen triggers on it.
 */
module ISFEditor {
  import opened Grids
  import opened Schedule
  import opened Persistence

  class ViewModel {
    /** The rows being edited. */
    var items: seq<Item>
    /** The active glucose unit, which selects the value grid. */
    var units: GlucoseUnits

    /** A fresh editor: no rows, and mmol/L until settings are read. */
    constructor ()
      ensures items == [] && units == MmolL
    {
      items := [];
      units := MmolL;
    }

    /** The value grid of the active unit. */
    function RateGrid(): (r: seq<int>)
      reads this
      ensures units == MgdL ==> |r| == 532 && forall k :: 0 <= k < |r| ==> r[k] == 900 + 100 * k
      ensures units == MmolL ==> |r| == 296 && forall k :: 0 <= k < |r| ==> r[k] == 50 + 10 * k
      ensures StrictlyIncreasing(r)
    {
      RateValues(units)
    }

    /** Every row addresses existing grid entries for the active unit. */
    predicate IndicesInRange()
      reads this
    {
      AllInGrid(units, items)
    }

    /**
     * Whether another row fits: always on an empty list, otherwise exactly
     * when the last row is before the last slot of the day.
     */
    function CanAdd(): (b: bool)
      reads this
      ensures items == [] ==> b
      ensures items != [] ==> (b <==> items[|items| - 1].timeIndex < 47)
    {
      if items == [] then true else items[|items| - 1].timeIndex < |TimeValues()| - 1
    }

    /**
     * Activation: reads the active unit and replaces the rows by those
     * loaded from the persisted entries (the profile's own unit fields are
     * not consulted).
     */
    method Subscribe(settingsUnits: GlucoseUnits, profile: InsulinSensitivities)
      modifies this
      ensures units == settingsUnits
      ensures items == LoadItems(settingsUnits, profile.sensitivities)
      ensures IndicesInRange()
    {
      units := settingsUnits;
      items := LoadItems(units, profile.sensitivities);
    }

    /**
     * Appends one row: slot 0 with the first value on an empty list,
     * otherwise the slot after the last row's, carrying its value forward.
     * No bounds check: after the last slot the new row is off the grid.
     */
    method Add()
      modifies this
      ensures units == old(units)
      ensures |items| == |old(items)| + 1 && items[..|old(items)|] == old(items)
      ensures old(items) == [] ==> items[|items| - 1] == Item(0, 0)
      ensures old(items) != [] ==>
        var last := old(items)[|old(items)| - 1];
        items[|items| - 1] == Item(last.timeIndex + 1, last.rateIndex)
      ensures old(CanAdd()) ==> items[|items| - 1].timeIndex < |TimeValues()|
      ensures old(!CanAdd() && IndicesInRange()) ==> items[|items| - 1].timeIndex == |TimeValues()|
      ensures old(CanAdd() && IndicesInRange()) ==> IndicesInRange()
    {
      var selected := 0;
      var rate := 0;
      if items != [] {
        var last := items[|items| - 1];
        selected := last.timeIndex + 1;
        rate := last.rateIndex;
      }
      var newItem := Item(selected, rate);
      items := items + [newItem];
    }

    /** The profile to hand to storage, built from the current rows. */
    method Save() returns (profile: InsulinSensitivities)
      requires IndicesInRange()
      ensures profile == SaveProfile(units, items)
      ensures LoadItems(units, profile.sensitivities) == items
    {
      profile := SaveProfile(units, items);
      SaveLoadRoundTrip(units, items);
    }

    /**
     * Normalises the rows: duplicates removed, sorted by slot, first row in
     * slot 0. Rows stay on the grid if they were.
     */
    method Validate()
      modifies this
      ensures units == old(units)
      ensures items == Validated(old(items))
      ensures Normalised(items)
      ensures old(IndicesInRange()) ==> IndicesInRange()
    {
      if IndicesInRange() {
        ValidatedInGrid(units, items);
      }
      var uniq := Dedup(items);
      var sorted := SortByTime(uniq);
      if sorted != [] {
        sorted := sorted[0 := sorted[0].(timeIndex := 0)];
      }
      items := sorted;
    }
  }
}
