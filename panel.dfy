/**
 * The floating panel (`createFloatingBookingPanel`): every record, sorted by start time and grouped
 * under its date, one row per record with its times, its count and a colour by booking level.
 * Only the panel's content and visibility are modelled, not its styling.
 */
module BookingPanel {
  import opened Wrappers
  import opened Text
  import opened Workouts
  import opened Matching

  const PanelId := "booking-info-panel"
  const Title := "Class Booking Counts"

  /** One workout line: name, "HH:MM" start and end, the count caption and the count's colour. */
  datatype Row = Row(name: string, start: string, end: string, count: string, colour: string)

  /** One date section: the date key (`startTime.split(" ")[0]`) and its rows. */
  datatype Section = Section(date: string, rows: seq<Row>)

  /** `formatTime` can split both timestamps of `w` (it throws on a timestamp without a space). */
  predicate Displayable(w: Workout) {
    ' ' in w.startTime && ' ' in w.endTime
  }

  predicate AllDisplayable(ws: seq<Workout>) {
    forall k :: 0 <= k < |ws| ==> Displayable(ws[k])
  }

  lemma WellFormedDisplayable(ws: seq<Workout>)
    requires AllWellFormed(ws)
    ensures AllDisplayable(ws)
  {
    forall k | 0 <= k < |ws| ensures Displayable(ws[k]) {
      assert WellFormedWorkout(ws[k]);
      assert ws[k].startTime[10] == ' ' && ws[k].endTime[10] == ' ';
    }
  }

  function RowOf(w: Workout): Row
    requires Displayable(w)
  {
    Row(w.workoutType.name, FormatTime(w.startTime).value, FormatTime(w.endTime).value,
        CountCaption(w.numBooked), Colour(LevelOf(w.numBooked)))
  }

  /** A row shows the record's start and end as "HH:MM", its count, and red, orange or green by its level. */
  lemma RowShowsRecord(w: Workout)
    requires WellFormedWorkout(w)
    ensures Displayable(w)
    ensures RowOf(w).name == w.workoutType.name
    ensures RowOf(w).start == w.startTime[11..16] && RowOf(w).end == w.endTime[11..16]
    ensures AllDigits(RowOf(w).count[5..]) && ParseNat(RowOf(w).count[5..]) == w.numBooked
    ensures RowOf(w).colour == "#e53935" <==> w.numBooked >= 10
    ensures RowOf(w).colour == "#fb8c00" <==> 5 <= w.numBooked < 10
    ensures RowOf(w).colour == "#43a047" <==> w.numBooked < 5
  {
    assert w.startTime[10] == ' ' && w.endTime[10] == ' ';
    TimestampFields(w.startTime);
    TimestampFields(w.endTime);
    CaptionsCarryCount(w.numBooked);
    LevelBands(w.numBooked);
  }

  function Rows(ws: seq<Workout>): (r: seq<Row>)
    requires AllDisplayable(ws)
    ensures |r| == |ws|
  {
    if ws == [] then [] else [RowOf(ws[0])] + Rows(ws[1..])
  }

  lemma WithDateDisplayable(s: seq<Workout>, d: string)
    requires AllDisplayable(s)
    ensures AllDisplayable(WithDate(s, d))
  {
    var g := WithDate(s, d);
    forall k | 0 <= k < |g| ensures Displayable(g[k]) {
      GroupMembership(s, g[k], d);
      var j :| 0 <= j < |s| && s[j] == g[k];
    }
  }

  lemma SortDisplayable(ws: seq<Workout>)
    requires AllDisplayable(ws)
    ensures AllDisplayable(SortByStart(ws))
  {
    var s := SortByStart(ws);
    forall k | 0 <= k < |s| ensures Displayable(s[k]) {
      assert s[k] in multiset(s);
      var j :| 0 <= j < |ws| && ws[j] == s[k];
    }
  }

  lemma SortWellFormed(ws: seq<Workout>)
    requires AllWellFormed(ws)
    ensures AllWellFormed(SortByStart(ws))
  {
    var s := SortByStart(ws);
    forall k | 0 <= k < |s| ensures WellFormedWorkout(s[k]) {
      assert s[k] in multiset(s);
      var j :| 0 <= j < |ws| && ws[j] == s[k];
    }
  }

  /** One section per key, in key order. */
  function Sections(s: seq<Workout>, keys: seq<string>): (r: seq<Section>)
    requires AllDisplayable(s)
    ensures |r| == |keys|
  {
    if keys == [] then []
    else
      WithDateDisplayable(s, keys[0]);
      [Section(keys[0], Rows(WithDate(s, keys[0])))] + Sections(s, keys[1..])
  }

  /** What a newly built panel shows for the records `ws`. */
  function PanelContent(ws: seq<Workout>): seq<Section>
    requires AllDisplayable(ws)
  {
    var sorted := SortByStart(ws);
    SortDisplayable(ws);
    Sections(sorted, Dates(sorted))
  }

  /** All rows of the panel, section after section. */
  function AllRows(sections: seq<Section>): seq<Row> {
    if sections == [] then [] else sections[0].rows + AllRows(sections[1..])
  }

  lemma DisplayableAppend(a: seq<Workout>, b: seq<Workout>)
    requires AllDisplayable(a) && AllDisplayable(b)
    ensures AllDisplayable(a + b)
  {
    forall k | 0 <= k < |a + b| ensures Displayable((a + b)[k]) {
      if k < |a| { assert (a + b)[k] == a[k]; } else { assert (a + b)[k] == b[k - |a|]; }
    }
  }

  lemma {:induction false} RowsAppend(a: seq<Workout>, b: seq<Workout>)
    requires AllDisplayable(a) && AllDisplayable(b)
    ensures AllDisplayable(a + b) && Rows(a + b) == Rows(a) + Rows(b)
    decreases |a|
  {
    DisplayableAppend(a, b);
    if a == [] {
      assert a + b == b;
    } else {
      assert (a + b)[0] == a[0] && (a + b)[1..] == a[1..] + b;
      assert AllDisplayable(a[1..]);
      RowsAppend(a[1..], b);
      assert Rows(a + b) == [RowOf(a[0])] + Rows(a[1..] + b);
      assert Rows(a) == [RowOf(a[0])] + Rows(a[1..]);
    }
  }

  /** Row `k` of the rows shows record `k`. */
  lemma {:induction false} RowsAt(ws: seq<Workout>)
    requires AllDisplayable(ws)
    ensures forall k :: 0 <= k < |ws| ==> Rows(ws)[k] == RowOf(ws[k])
    decreases |ws|
  {
    if ws != [] {
      RowsAt(ws[1..]);
      assert Rows(ws) == [RowOf(ws[0])] + Rows(ws[1..]);
    }
  }

  lemma {:induction false} SectionsFlatten(s: seq<Workout>, keys: seq<string>)
    requires AllDisplayable(s)
    ensures AllDisplayable(Flatten(s, keys)) && AllRows(Sections(s, keys)) == Rows(Flatten(s, keys))
    decreases |keys|
  {
    if keys != [] {
      SectionsFlatten(s, keys[1..]);
      WithDateDisplayable(s, keys[0]);
      RowsAppend(WithDate(s, keys[0]), Flatten(s, keys[1..]));
    }
  }

  /**
   * Read top to bottom, the panel lists one row per record in ascending start order, records
   * starting together in collection order: the rows of the sorted copy.
   */
  lemma PanelListsSortedRecords(ws: seq<Workout>)
    requires AllWellFormed(ws)
    ensures AllDisplayable(ws) && AllDisplayable(SortByStart(ws))
    ensures AllRows(PanelContent(ws)) == Rows(SortByStart(ws))
    ensures |AllRows(PanelContent(ws))| == |ws|
  {
    var sorted := SortByStart(ws);
    WellFormedDisplayable(ws);
    SortDisplayable(ws);
    SortWellFormed(ws);
    SortIsSorted(ws);
    SortedIsDateContiguous(sorted);
    GroupsConcatenate(sorted);
    SectionsFlatten(sorted, Dates(sorted));
    assert |sorted| == |multiset(sorted)| == |multiset(ws)| == |ws|;
  }

  lemma {:induction false} SectionDates(s: seq<Workout>, keys: seq<string>)
    requires AllDisplayable(s)
    ensures forall i :: 0 <= i < |keys| ==> Sections(s, keys)[i].date == keys[i]
    decreases |keys|
  {
    if keys != [] {
      SectionDates(s, keys[1..]);
      forall i | 1 <= i < |keys| ensures Sections(s, keys)[i].date == keys[i] {
        assert Sections(s, keys)[i] == Sections(s, keys[1..])[i - 1];
      }
    }
  }

  /** The section dates, top to bottom. */
  function ShownDates(p: seq<Section>): (r: seq<string>)
    ensures |r| == |p| && forall i :: 0 <= i < |p| ==> r[i] == p[i].date
  {
    if p == [] then [] else [p[0].date] + ShownDates(p[1..])
  }

  lemma SortKeepsMembers(ws: seq<Workout>, w: Workout)
    ensures w in SortByStart(ws) <==> w in ws
  {
    assert w in SortByStart(ws) <==> w in multiset(SortByStart(ws));
    assert w in ws <==> w in multiset(ws);
  }

  /** A date occurs in `b` if it occurs in `a` and every record of `a` is one of `b`. */
  lemma DateCarriesOver(a: seq<Workout>, b: seq<Workout>, d: string, k: nat)
    requires k < |a| && DateKey(a[k].startTime) == d && a[k] in b
    ensures HasDate(b, d)
  {
    var j :| 0 <= j < |b| && b[j] == a[k];
  }

  /** Sorting keeps the set of dates. */
  lemma SortKeepsDates(ws: seq<Workout>, d: string)
    ensures HasDate(SortByStart(ws), d) <==> HasDate(ws, d)
  {
    var sorted := SortByStart(ws);
    if HasDate(sorted, d) {
      var k :| 0 <= k < |sorted| && DateKey(sorted[k].startTime) == d;
      SortKeepsMembers(ws, sorted[k]);
      DateCarriesOver(sorted, ws, d, k);
    }
    if HasDate(ws, d) {
      var k :| 0 <= k < |ws| && DateKey(ws[k].startTime) == d;
      SortKeepsMembers(ws, ws[k]);
      DateCarriesOver(ws, sorted, d, k);
    }
  }

  /** One section per date that some record starts on, and no date twice. */
  lemma PanelSectionsAreDates(ws: seq<Workout>)
    requires AllDisplayable(ws)
    ensures Distinct(ShownDates(PanelContent(ws)))
    ensures forall d :: d in ShownDates(PanelContent(ws)) <==> HasDate(ws, d)
  {
    var sorted := SortByStart(ws);
    SortDisplayable(ws);
    var keys := Dates(sorted);
    DatesAreDistinct(sorted);
    SectionDates(sorted, keys);
    assert ShownDates(PanelContent(ws)) == keys;
    forall d ensures d in keys <==> HasDate(ws, d) {
      SortKeepsDates(ws, d);
    }
  }

  /** A single record gives one section, its date, holding its one row. */
  lemma SingleRecordPanel(w: Workout)
    requires WellFormedWorkout(w)
    ensures AllDisplayable([w])
    ensures PanelContent([w]) == [Section(w.startTime[..10], [RowOf(w)])]
  {
    RowShowsRecord(w);
    TimestampFields(w.startTime);
    var d := w.startTime[..10];
    assert AllDisplayable([w]);
    assert SortByStart([w]) == [w];
    assert [w][..0] == [];
    assert Dates([w]) == [d];
    assert WithDate([w], d) == [w];
    assert Rows([w]) == [RowOf(w)];
    assert Sections([w], [d]) == [Section(d, Rows(WithDate([w], d)))] + Sections([w], []);
  }

  /** A start or end time on 1 May 2024 at the full hour `h1 h2`. */
  function MayFirst(h1: char, h2: char): string {
    "2024-05-01 " + [h1, h2] + ":00:00"
  }

  /** One CrossFit class, 09:00 to 10:00 on 1 May 2024, booked by 12. */
  predicate IsCrossFitExample(w: Workout) {
    w == Workout("1", 12, MayFirst('0', '9'), MayFirst('1', '0'), WorkoutType("CrossFit"))
  }

  lemma CrossFitFields(w: Workout)
    requires IsCrossFitExample(w)
    ensures WellFormedWorkout(w) && w.numBooked == 12 && w.workoutType.name == "CrossFit"
    ensures w.startTime[..10] == "2024-05-01" && w.startTime[11..16] == "09:00" && w.endTime[11..16] == "10:00"
  {
    CrossFitStamp(w.startTime, '0', '9');
    CrossFitStamp(w.endTime, '1', '0');
    assert ['0', '9'] + ":00" == "09:00" && ['1', '0'] + ":00" == "10:00";
  }

  lemma CrossFitStamp(ts: string, h1: char, h2: char)
    requires ts == MayFirst(h1, h2) && IsDigit(h1) && IsDigit(h2)
    ensures WellFormedTimestamp(ts) && ts[..10] == "2024-05-01" && ts[11..16] == [h1, h2] + ":00"
  {
  }

  /**
   * One CrossFit class on 1 May 2024 booked by 12: one section "2024-05-01" holding one row,
   * 09:00 to 10:00, in red.
   */
  lemma CrossFitExample(w: Workout)
    requires IsCrossFitExample(w)
    ensures AllDisplayable([w])
    ensures var p := PanelContent([w]);
      && |p| == 1 && p[0].date == "2024-05-01" && |p[0].rows| == 1
      && p[0].rows[0].start == "09:00" && p[0].rows[0].end == "10:00"
      && p[0].rows[0].name == "CrossFit" && p[0].rows[0].colour == "#e53935"
  {
    CrossFitFields(w);
    SingleRecordPanel(w);
    RowShowsRecord(w);
  }

  // ---------------------------------------------------------------------------
  // Building the panel

  lemma SectionsStep(s: seq<Workout>, keys: seq<string>, i: nat)
    requires AllDisplayable(s) && i < |keys|
    ensures AllDisplayable(WithDate(s, keys[i]))
    ensures Sections(s, keys[i..]) == [Section(keys[i], Rows(WithDate(s, keys[i])))] + Sections(s, keys[i + 1..])
  {
    WithDateDisplayable(s, keys[i]);
    assert keys[i..][0] == keys[i] && keys[i..][1..] == keys[i + 1..];
  }

  /** The rows of one date section, as the inner `forEach` appends them. */
  method RenderRows(group: seq<Workout>) returns (rows: seq<Row>)
    requires AllDisplayable(group)
    ensures rows == Rows(group)
  {
    rows := [];
    var i := 0;
    while i < |group|
      invariant 0 <= i <= |group| && |rows| == i
      invariant forall k :: 0 <= k < i ==> rows[k] == RowOf(group[k])
    {
      rows := rows + [RowOf(group[i])];
      i := i + 1;
    }
    RowsAt(group);
  }

  /** Sort the copy, group it by date, then one section per key in insertion order. */
  method BuildSections(ws: seq<Workout>) returns (sections: seq<Section>)
    requires AllDisplayable(ws)
    ensures sections == PanelContent(ws)
  {
    var sorted := SortByStart(ws);
    SortDisplayable(ws);
    var keys, byDate := GroupByDate(sorted);
    sections := [];
    for i := 0 to |keys|
      invariant sections + Sections(sorted, keys[i..]) == Sections(sorted, keys)
    {
      var date := keys[i];
      assert date in keys;
      var group := byDate[date];
      assert group == WithDate(sorted, date);
      WithDateDisplayable(sorted, date);
      var rows := RenderRows(group);
      SectionsStep(sorted, keys, i);
      sections := sections + [Section(date, rows)];
    }
    assert keys[|keys|..] == [];
  }

  /** The panel element, `#booking-info-panel`: its content is built once; the close button only hides it. */
  class Panel {
    var visible: bool
    const id: string
    const title: string
    const sections: seq<Section>

    /** A fresh panel: its element id, its header title and the sections below the header. */
    constructor (sections: seq<Section>)
      ensures visible && id == PanelId && title == Title && this.sections == sections
    {
      id := PanelId;
      title := Title;
      this.sections := sections;
      visible := true;
    }

    /** The close button: `panel.style.display = "none"`. */
    method Close()
      modifies this
      ensures !visible
    {
      visible := false;
    }

    /** `panel.style.display = "block"` */
    method Show()
      modifies this
      ensures visible
    {
      visible := true;
    }
  }
}
