/**
 * The persisted form of the schedule and the two mappings between it and
 * the editor's rows: loading (entry to grid indices, exact match or 0) and
 * saving (grid indices to minute offset, "HH:mm:ss" start and value).
 */
module Persistence {
  import opened Options
  import opened Grids
  import opened Schedule

  /**
   * One persisted sensitivity: the value in hundredths of the unit, the
   * offset in minutes from midnight and the start time as "HH:mm:ss".
   */
  datatype InsulinSensitivityEntry = InsulinSensitivityEntry(sensitivity: int, offset: int, start: string)

  /** A persisted profile; the second unit field keeps the stored spelling. */
  datatype InsulinSensitivities =
    InsulinSensitivities(units: GlucoseUnits, userPrefferedUnits: GlucoseUnits, sensitivities: seq<InsulinSensitivityEntry>)

  predicate IsDigit(c: char)
  {
    '0' <= c <= '9'
  }

  function DigitChar(d: int): (c: char)
    requires 0 <= d < 10
    ensures IsDigit(c)
  {
    ('0' as int + d) as char
  }

  function DigitValue(c: char): int
    requires IsDigit(c)
  {
    c as int - '0' as int
  }

  /** A number below 100 written with exactly two decimal digits. */
  function TwoDigits(n: int): (s: string)
    requires 0 <= n < 100
    ensures |s| == 2 && IsDigit(s[0]) && IsDigit(s[1])
    ensures DigitValue(s[0]) * 10 + DigitValue(s[1]) == n
  {
    [DigitChar(n / 10), DigitChar(n % 10)]
  }

  /** The two-digit number at positions i and i + 1 of s. */
  function FieldAt(s: string, i: nat): int
    requires i + 1 < |s| && IsDigit(s[i]) && IsDigit(s[i + 1])
  {
    DigitValue(s[i]) * 10 + DigitValue(s[i + 1])
  }

  /** `s` has the shape "dd:dd:dd". */
  predicate ClockShaped(s: string)
  {
    |s| == 8 && s[2] == ':' && s[5] == ':'
    && IsDigit(s[0]) && IsDigit(s[1]) && IsDigit(s[3]) && IsDigit(s[4]) && IsDigit(s[6]) && IsDigit(s[7])
  }

  /**
   * Reads "HH:mm:ss" as seconds from midnight, with hours below 24 and
   * minutes and seconds below 60: the meaning of the stored start strings.
   */
  function ParseTime(s: string): Option<int>
  {
    if ClockShaped(s) && FieldAt(s, 0) < 24 && FieldAt(s, 3) < 60 && FieldAt(s, 6) < 60 then
      Some(FieldAt(s, 0) * 3600 + FieldAt(s, 3) * 60 + FieldAt(s, 6))
    else
      None
  }

  /**
   * Formats seconds within one day as "HH:mm:ss" on a 24-hour clock, as a
   * UTC formatter does for a time that many seconds after the epoch.
   */
  function FormatTime(seconds: int): (s: string)
    requires 0 <= seconds < DaySeconds
    ensures ClockShaped(s)
    ensures FieldAt(s, 0) == seconds / 3600 && FieldAt(s, 3) == seconds % 3600 / 60 && FieldAt(s, 6) == seconds % 60
    ensures ParseTime(s) == Some(seconds)
  {
    TwoDigits(seconds / 3600) + ":" + TwoDigits(seconds % 3600 / 60) + ":" + TwoDigits(seconds % 60)
  }

  /** Every well-formed start string is the formatting of the time it denotes. */
  lemma FormatParsed(s: string)
    requires ParseTime(s).Some?
    ensures FormatTime(ParseTime(s).value) == s
  {
    var h, m, sec := FieldAt(s, 0), FieldAt(s, 3), FieldAt(s, 6);
    ClockFields(h, m, sec);
    TwoDigitsOfField(s, 0);
    TwoDigitsOfField(s, 3);
    TwoDigitsOfField(s, 6);
    assert s == s[0..2] + ":" + s[3..5] + ":" + s[6..8];
  }

  /** Writing the two-digit field at position i gives back its characters. */
  lemma TwoDigitsOfField(s: string, i: nat)
    requires i + 1 < |s| && IsDigit(s[i]) && IsDigit(s[i + 1])
    ensures TwoDigits(FieldAt(s, i)) == s[i..i + 2]
  {
    var n := FieldAt(s, i);
    assert n / 10 == DigitValue(s[i]) && n % 10 == DigitValue(s[i + 1]);
  }

  lemma ClockFields(h: int, m: int, sec: int)
    requires 0 <= h < 24 && 0 <= m < 60 && 0 <= sec < 60
    ensures (h * 3600 + m * 60 + sec) / 3600 == h
    ensures (h * 3600 + m * 60 + sec) % 3600 / 60 == m
    ensures (h * 3600 + m * 60 + sec) % 60 == sec
  {
  }

  /** Slot arithmetic: a slot's seconds as minutes and as clock fields. */
  lemma SlotClock(t: int)
    requires 0 <= t < 48
    ensures (t * 1800) / 60 == 30 * t
    ensures (t * 1800) / 3600 == t / 2
    ensures (t * 1800) % 3600 / 60 == 30 * (t % 2)
    ensures (t * 1800) % 60 == 0
  {
    var q, r := t / 2, t % 2;
    assert t * 1800 == q * 3600 + r * 1800;
  }

  /** The start string of a slot: hours t / 2, minutes 0 or 30, seconds 00. */
  lemma SlotStart(t: int)
    requires 0 <= t < 48
    ensures FormatTime(t * 1800) == TwoDigits(t / 2) + ":" + TwoDigits(30 * (t % 2)) + ":00"
  {
    SlotClock(t);
    assert TwoDigits(0) == "00";
  }

  /**
   * The entry saved for one row: offset in minutes, start as "HH:mm:ss" of
   * the slot on a UTC clock, and the grid value itself.
   */
  function SaveEntry(units: GlucoseUnits, item: Item): (e: InsulinSensitivityEntry)
    requires InGrid(units, item)
    ensures e.offset == 30 * item.timeIndex
    ensures e.start == TwoDigits(item.timeIndex / 2) + ":" + TwoDigits(30 * (item.timeIndex % 2)) + ":00"
    ensures ParseTime(e.start) == Some(e.offset * 60)
    ensures e.sensitivity == RateValues(units)[item.rateIndex]
  {
    var seconds := TimeValues()[item.timeIndex];
    assert seconds == item.timeIndex * 1800;
    SlotClock(item.timeIndex);
    SlotStart(item.timeIndex);
    assert seconds / 60 * 60 == seconds;
    InsulinSensitivityEntry(RateValues(units)[item.rateIndex], seconds / 60, FormatTime(seconds))
  }

  /**
   * The profile saved from the rows: both unit fields set to the active
   * unit, and one entry per row in row order.
   */
  function SaveProfile(units: GlucoseUnits, items: seq<Item>): (p: InsulinSensitivities)
    requires AllInGrid(units, items)
    ensures p.units == units && p.userPrefferedUnits == units
    ensures |p.sensitivities| == |items|
    ensures forall i :: 0 <= i < |items| ==>
      p.sensitivities[i].offset == 30 * items[i].timeIndex
      && p.sensitivities[i].start == FormatTime(items[i].timeIndex * 1800)
      && p.sensitivities[i].sensitivity == RateValues(units)[items[i].rateIndex]
  {
    InsulinSensitivities(units, units, seq(|items|, i requires 0 <= i < |items| => SaveEntry(units, items[i])))
  }

  /** Minutes against seconds on the time grid. */
  lemma OffsetSeconds(offset: int)
    ensures (0 <= offset * 60 < DaySeconds && (offset * 60) % SlotSeconds == 0)
        <==> (0 <= offset < 1440 && offset % 30 == 0)
    ensures (offset * 60) / SlotSeconds == offset / 30
  {
  }

  /**
   * The row loaded from one entry: the slot of its offset when the offset is
   * a whole slot within the day, else slot 0; the grid position of its value
   * when the value lies on the active unit's grid, else 0.
   */
  function LoadItem(units: GlucoseUnits, e: InsulinSensitivityEntry): (item: Item)
    ensures InGrid(units, item)
    ensures item.timeIndex == if 0 <= e.offset < 1440 && e.offset % 30 == 0 then e.offset / 30 else 0
    ensures units == MgdL ==>
      item.rateIndex == if 900 <= e.sensitivity <= 54000 && e.sensitivity % 100 == 0 then (e.sensitivity - 900) / 100 else 0
    ensures units == MmolL ==>
      item.rateIndex == if 50 <= e.sensitivity <= 3000 && e.sensitivity % 10 == 0 then (e.sensitivity - 50) / 10 else 0
  {
    TimeIndexOf(e.offset * 60);
    OffsetSeconds(e.offset);
    RateIndexOf(units, e.sensitivity);
    Item(IndexOrZero(TimeValues(), e.offset * 60), IndexOrZero(RateValues(units), e.sensitivity))
  }

  /** The rows loaded from persisted entries: one per entry, in entry order, all on the grid. */
  function LoadItems(units: GlucoseUnits, entries: seq<InsulinSensitivityEntry>): (items: seq<Item>)
    ensures |items| == |entries|
    ensures forall i :: 0 <= i < |entries| ==> items[i] == LoadItem(units, entries[i])
    ensures AllInGrid(units, items)
  {
    seq(|entries|, i requires 0 <= i < |entries| => LoadItem(units, entries[i]))
  }

  /** Loading what was saved gives back the same rows. */
  lemma SaveLoadRoundTrip(units: GlucoseUnits, items: seq<Item>)
    requires AllInGrid(units, items)
    ensures LoadItems(units, SaveProfile(units, items).sensitivities) == items
  {
    var entries := SaveProfile(units, items).sensitivities;
    var loaded := LoadItems(units, entries);
    forall i | 0 <= i < |items| ensures loaded[i] == items[i] {
      assert entries[i] == SaveEntry(units, items[i]);
      LoadSavedEntry(units, items[i]);
    }
  }

  /** Loading the entry saved for one row gives back the row. */
  lemma LoadSavedEntry(units: GlucoseUnits, item: Item)
    requires InGrid(units, item)
    ensures LoadItem(units, SaveEntry(units, item)) == item
  {
    var e := SaveEntry(units, item);
    assert e.offset * 60 == TimeValues()[item.timeIndex];
    IndexOfIncreasing(TimeValues(), item.timeIndex);
    IndexOfIncreasing(RateValues(units), item.rateIndex);
  }

  /** An entry as saving writes it: on both grids, with the canonical start string. */
  predicate OnGrid(units: GlucoseUnits, e: InsulinSensitivityEntry)
  {
    0 <= e.offset < 1440 && e.offset % 30 == 0
    && e.sensitivity in RateValues(units)
    && e.start == FormatTime(e.offset * 60)
  }

  /** Saving what was loaded gives back entries that were already on the grid. */
  lemma LoadSaveRoundTrip(units: GlucoseUnits, entries: seq<InsulinSensitivityEntry>)
    requires forall i :: 0 <= i < |entries| ==> OnGrid(units, entries[i])
    ensures SaveProfile(units, LoadItems(units, entries)).sensitivities == entries
  {
    var items := LoadItems(units, entries);
    var saved := SaveProfile(units, items).sensitivities;
    forall i | 0 <= i < |entries| ensures saved[i] == entries[i] {
      assert saved[i] == SaveEntry(units, LoadItem(units, entries[i]));
      SaveLoadedEntry(units, entries[i]);
    }
  }

  /** Saving the row loaded from an entry on the grid gives back the entry. */
  lemma SaveLoadedEntry(units: GlucoseUnits, e: InsulinSensitivityEntry)
    requires OnGrid(units, e)
    ensures SaveEntry(units, LoadItem(units, e)) == e
  {
    var item := LoadItem(units, e);
    var k := IndexOrZero(RateValues(units), e.sensitivity);
    assert item.rateIndex == k;
    assert item.timeIndex * 1800 == e.offset * 60;
  }

  /** A worked case: 90 minutes is slot 3, and a value off the grid falls back to 0. */
  lemma LoadItemExample()
    ensures LoadItem(MgdL, InsulinSensitivityEntry(4550, 90, "01:30:00")) == Item(3, 0)
  {
  }
}
