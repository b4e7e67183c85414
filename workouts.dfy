/** Workout records as the schedule payload delivers them, and the pure computations over them. */
module Workouts {
  import opened Wrappers
  import opened Text

  datatype WorkoutType = WorkoutType(name: string)

  /** One scheduled class. `id` is the record's id as a property key (JavaScript turns a numeric id into its decimal string). */
  datatype Workout = Workout(id: string, numBooked: nat, startTime: string, endTime: string, workoutType: WorkoutType)

  /** The decoded JSON body; `workouts` is absent when the body lacks that field (or holds a falsy value). */
  datatype Payload = Payload(workouts: Option<seq<Workout>>)

  // ---------------------------------------------------------------------------
  // Timestamps "YYYY-MM-DD HH:MM:SS"

  predicate WellFormedTimestamp(ts: string) {
    && |ts| == 19
    && IsDigit(ts[0]) && IsDigit(ts[1]) && IsDigit(ts[2]) && IsDigit(ts[3]) && ts[4] == '-'
    && IsDigit(ts[5]) && IsDigit(ts[6]) && ts[7] == '-' && IsDigit(ts[8]) && IsDigit(ts[9])
    && ts[10] == ' '
    && IsDigit(ts[11]) && IsDigit(ts[12]) && ts[13] == ':' && IsDigit(ts[14]) && IsDigit(ts[15])
    && ts[16] == ':' && IsDigit(ts[17]) && IsDigit(ts[18])
  }

  predicate WellFormedWorkout(w: Workout) {
    WellFormedTimestamp(w.startTime) && WellFormedTimestamp(w.endTime)
  }

  predicate AllWellFormed(ws: seq<Workout>) {
    forall i :: 0 <= i < |ws| ==> WellFormedWorkout(ws[i])
  }

  /** The date a record is grouped under: `startTime.split(" ")[0]`. */
  function DateKey(ts: string): string {
    FirstField(ts)
  }

  /** `formatTime`: `split(" ")[1].substring(0, 5)`; None where JavaScript would throw (no space at all). */
  function FormatTime(ts: string): (r: Option<string>)
    ensures r.None? <==> ' ' !in ts
  {
    if ' ' in ts then Some(Prefix(SecondField(ts), 5)) else None
  }

  /** On a well-formed timestamp the date key is "YYYY-MM-DD" and the displayed time is "HH:MM". */
  lemma TimestampFields(ts: string)
    requires WellFormedTimestamp(ts)
    ensures DateKey(ts) == ts[..10]
    ensures FormatTime(ts) == Some(ts[11..16])
  {
    FirstFieldAt(ts, 10);
    var rest := ts[11..];
    assert ts[|FirstField(ts)| + 1..] == rest;
    FirstFieldAt(rest, 8);
    assert rest[..8] == ts[11..19];
    assert ts[10] == ' ';
    assert SecondField(ts) == ts[11..19];
    assert Prefix(ts[11..19], 5) == ts[11..16];
  }

  // ---------------------------------------------------------------------------
  // Colour thresholds of a panel row

  /** Red "getting full", orange "moderately booked", green "plenty of space". */
  datatype Level = Full | Moderate | Open

  function LevelOf(numBooked: nat): Level {
    if numBooked >= 10 then Full else if numBooked >= 5 then Moderate else Open
  }

  function Colour(l: Level): string {
    match l
    case Full => "#e53935"
    case Moderate => "#fb8c00"
    case Open => "#43a047"
  }

  function Rank(l: Level): nat {
    match l
    case Open => 0
    case Moderate => 1
    case Full => 2
  }

  /** The three bands, both directions of each threshold. */
  lemma LevelBands(n: nat)
    ensures LevelOf(n) == Full <==> 10 <= n
    ensures LevelOf(n) == Moderate <==> 5 <= n < 10
    ensures LevelOf(n) == Open <==> n < 5
  {
  }

  /** More bookings never give a calmer colour. */
  lemma LevelMonotone(a: nat, b: nat)
    requires a <= b
    ensures Rank(LevelOf(a)) <= Rank(LevelOf(b))
  {
  }

  // ---------------------------------------------------------------------------
  // The id index: `workoutsById[workout.id] = workout` over the collection

  /** The index as the loop builds it: record by record, a later record replacing an earlier one with the same id. */
  function IndexById(ws: seq<Workout>): map<string, Workout>
    decreases |ws|
  {
    if ws == [] then map[] else IndexById(ws[..|ws| - 1])[ws[|ws| - 1].id := ws[|ws| - 1]]
  }

  /** Reference definition: the position of the last record carrying `id`, or -1. */
  function LastWithId(ws: seq<Workout>, id: string): (k: int)
    ensures -1 <= k < |ws|
    ensures k >= 0 ==> ws[k].id == id
    ensures forall j :: k < j < |ws| ==> ws[j].id != id
    decreases |ws|
  {
    if ws == [] then -1
    else if ws[|ws| - 1].id == id then |ws| - 1
    else LastWithId(ws[..|ws| - 1], id)
  }

  /** Every id of the collection has an entry, and the entry is the last record carrying it. */
  lemma {:induction false} IndexIsLastWins(ws: seq<Workout>, id: string)
    ensures id in IndexById(ws) <==> LastWithId(ws, id) >= 0
    ensures id in IndexById(ws) ==> IndexById(ws)[id] == ws[LastWithId(ws, id)]
    decreases |ws|
  {
    if ws != [] {
      IndexIsLastWins(ws[..|ws| - 1], id);
    }
  }

  /** `workoutsById` built by the `forEach` loop of a pass. */
  method BuildIndex(ws: seq<Workout>) returns (index: map<string, Workout>)
    ensures index == IndexById(ws)
    ensures forall id :: id in index <==> (exists k :: 0 <= k < |ws| && ws[k].id == id)
  {
    index := map[];
    for i := 0 to |ws|
      invariant index == IndexById(ws[..i])
      invariant forall id :: id in index <==> (exists k :: 0 <= k < i && ws[k].id == id)
    {
      assert ws[..i + 1][..i] == ws[..i];
      index := index[ws[i].id := ws[i]];
    }
    assert ws[..|ws|] == ws;
  }

  // ---------------------------------------------------------------------------
  // The panel's sorted copy: `[...workouts].sort(by startTime)`

  /** Insert `w` before the first record that does not start earlier, so equal start times keep their order. */
  function InsertByStart(w: Workout, s: seq<Workout>): (r: seq<Workout>)
    ensures multiset(r) == multiset(s) + multiset{w}
  {
    if s == [] || LexLe(w.startTime, s[0].startTime) then [w] + s
    else assert s == [s[0]] + s[1..]; [s[0]] + InsertByStart(w, s[1..])
  }

  /** A stable sort by start time (JavaScript's `Array.prototype.sort` is stable). The input itself is a value and stays as it was. */
  function SortByStart(ws: seq<Workout>): (r: seq<Workout>)
    ensures multiset(r) == multiset(ws)
  {
    if ws == [] then [] else assert ws == [ws[0]] + ws[1..]; InsertByStart(ws[0], SortByStart(ws[1..]))
  }

  ghost predicate SortedByStart(s: seq<Workout>) {
    forall i, j :: 0 <= i < j < |s| ==> LexLe(s[i].startTime, s[j].startTime)
  }

  lemma {:induction false} InsertKeepsSorted(w: Workout, s: seq<Workout>)
    requires SortedByStart(s)
    ensures SortedByStart(InsertByStart(w, s))
    decreases |s|
  {
    if s != [] && !LexLe(w.startTime, s[0].startTime) {
      InsertKeepsSorted(w, s[1..]);
      LexTotal(w.startTime, s[0].startTime);
      var r := InsertByStart(w, s);
      var t := InsertByStart(w, s[1..]);
      assert r == [s[0]] + t;
      forall j | 0 < j < |r| ensures LexLe(s[0].startTime, r[j].startTime) {
        assert r[j] in multiset(t);
        assert r[j] in multiset(s[1..]) + multiset{w};
        if r[j] != w {
          assert r[j] in s[1..];
          var m :| 0 <= m < |s[1..]| && s[1..][m] == r[j];
          assert s[m + 1] == r[j];
        }
      }
    } else if s != [] {
      var r := InsertByStart(w, s);
      forall i, j | 0 <= i < j < |r| ensures LexLe(r[i].startTime, r[j].startTime) {
        if i == 0 {
          if j > 1 { LexTrans(w.startTime, s[0].startTime, r[j].startTime); }
        }
      }
    }
  }

  /** The sorted copy is ascending by start time. */
  lemma {:induction false} SortIsSorted(ws: seq<Workout>)
    ensures SortedByStart(SortByStart(ws))
    decreases |ws|
  {
    if ws != [] {
      SortIsSorted(ws[1..]);
      InsertKeepsSorted(ws[0], SortByStart(ws[1..]));
    }
  }

  /** The records that start exactly at `t`, in their order. */
  function WithStart(s: seq<Workout>, t: string): (r: seq<Workout>) {
    if s == [] then [] else (if s[0].startTime == t then [s[0]] else []) + WithStart(s[1..], t)
  }

  function Only(w: Workout, t: string): seq<Workout> {
    if w.startTime == t then [w] else []
  }

  lemma {:induction false} InsertStable(w: Workout, s: seq<Workout>, t: string)
    ensures WithStart(InsertByStart(w, s), t) == Only(w, t) + WithStart(s, t)
    decreases |s|
  {
    if s == [] || LexLe(w.startTime, s[0].startTime) {
      WithStartCons(w, s, t);
    } else {
      InsertStable(w, s[1..], t);
      LexRefl(w.startTime);
      InsertPastHead(w, s[0], s[1..], InsertByStart(w, s[1..]), t);
      assert InsertByStart(w, s) == [s[0]] + InsertByStart(w, s[1..]);
      assert [s[0]] + s[1..] == s;
    }
  }

  /** `w` goes past a head `x` with another start time: the matches for `t` come out in the same order. */
  lemma InsertPastHead(w: Workout, x: Workout, tail: seq<Workout>, inserted: seq<Workout>, t: string)
    requires w.startTime != x.startTime
    requires WithStart(inserted, t) == Only(w, t) + WithStart(tail, t)
    ensures WithStart([x] + inserted, t) == Only(w, t) + WithStart([x] + tail, t)
  {
    WithStartCons(x, inserted, t);
    WithStartCons(x, tail, t);
    OnlyCommute(w, x, t);
  }

  lemma WithStartCons(x: Workout, s: seq<Workout>, t: string)
    ensures WithStart([x] + s, t) == Only(x, t) + WithStart(s, t)
  {
    assert ([x] + s)[0] == x && ([x] + s)[1..] == s;
  }

  lemma OnlyCommute(a: Workout, b: Workout, t: string)
    requires a.startTime != b.startTime
    ensures Only(a, t) + Only(b, t) == Only(b, t) + Only(a, t)
  {
  }

  /** Stability: records with equal start times keep their original relative order. */
  lemma {:induction false} SortIsStable(ws: seq<Workout>, t: string)
    ensures WithStart(SortByStart(ws), t) == WithStart(ws, t)
    decreases |ws|
  {
    if ws != [] {
      SortIsStable(ws[1..], t);
      InsertStable(ws[0], SortByStart(ws[1..]), t);
    }
  }

  // ---------------------------------------------------------------------------
  // Grouping by date: `workoutsByDate[date].push(workout)`, keys in insertion order

  /** The distinct dates in order of first appearance. */
  function Dates(s: seq<Workout>): seq<string>
    decreases |s|
  {
    if s == [] then []
    else
      var prior := Dates(s[..|s| - 1]);
      var d := DateKey(s[|s| - 1].startTime);
      if d in prior then prior else prior + [d]
  }

  /** The records dated `d`, in their order. */
  function WithDate(s: seq<Workout>, d: string): seq<Workout>
    decreases |s|
  {
    if s == [] then []
    else WithDate(s[..|s| - 1], d) + (if DateKey(s[|s| - 1].startTime) == d then [s[|s| - 1]] else [])
  }

  predicate Distinct(keys: seq<string>) {
    forall i, j :: 0 <= i < j < |keys| ==> keys[i] != keys[j]
  }

  /** Some record of `s` starts on date `d`. */
  predicate HasDate(s: seq<Workout>, d: string) {
    exists k :: 0 <= k < |s| && DateKey(s[k].startTime) == d
  }

  /** A record added at the end adds its own date and no other. */
  lemma HasDateSnoc(p: seq<Workout>, w: Workout, d: string)
    ensures HasDate(p + [w], d) <==> HasDate(p, d) || DateKey(w.startTime) == d
  {
    var s := p + [w];
    if HasDate(p, d) {
      var k :| 0 <= k < |p| && DateKey(p[k].startTime) == d;
      assert s[k] == p[k];
    }
    if HasDate(s, d) {
      var k :| 0 <= k < |s| && DateKey(s[k].startTime) == d;
      if k < |p| { assert p[k] == s[k]; }
    }
    assert s[|p|] == w;
  }

  /** The groups: one per distinct date, without repeats, each date that occurs and no other. */
  lemma {:induction false} DatesAreDistinct(s: seq<Workout>)
    ensures Distinct(Dates(s))
    ensures forall d :: d in Dates(s) <==> HasDate(s, d)
    decreases |s|
  {
    if s != [] {
      var p, w := s[..|s| - 1], s[|s| - 1];
      assert s == p + [w];
      DatesAreDistinct(p);
      forall d ensures d in Dates(s) <==> HasDate(s, d) {
        HasDateSnoc(p, w, d);
      }
    }
  }

  /** Each record lands in exactly one group: the one of its own date. */
  lemma {:induction false} GroupMembership(s: seq<Workout>, w: Workout, d: string)
    ensures w in WithDate(s, d) <==> w in s && DateKey(w.startTime) == d
    decreases |s|
  {
    if s != [] {
      var p := s[..|s| - 1];
      GroupMembership(p, w, d);
      assert s == p + [s[|s| - 1]];
    }
  }

  /** `workoutsByDate` and `Object.keys(workoutsByDate)` as the push loop over the sorted copy builds them. */
  method GroupByDate(sorted: seq<Workout>) returns (keys: seq<string>, byDate: map<string, seq<Workout>>)
    ensures keys == Dates(sorted)
    ensures forall d :: d in byDate <==> d in keys
    ensures forall d :: d in byDate ==> byDate[d] == WithDate(sorted, d)
  {
    keys, byDate := [], map[];
    for i := 0 to |sorted|
      invariant keys == Dates(sorted[..i])
      invariant forall d :: d in byDate <==> d in keys
      invariant forall d :: d in byDate ==> byDate[d] == WithDate(sorted[..i], d)
    {
      var w := sorted[i];
      var date := DateKey(w.startTime);
      assert sorted[..i + 1][..i] == sorted[..i] && sorted[..i + 1][i] == w;
      if date !in byDate {
        keys := keys + [date];
        byDate := byDate[date := []];
      }
      byDate := byDate[date := byDate[date] + [w]];
      forall d | d in byDate ensures byDate[d] == WithDate(sorted[..i + 1], d) {
        UnseenDateHasNoGroup(sorted[..i], d);
      }
    }
    assert sorted[..|sorted|] == sorted;
  }

  /** A date that has not occurred yet has an empty group. */
  lemma {:induction false} UnseenDateHasNoGroup(s: seq<Workout>, d: string)
    ensures d !in Dates(s) ==> WithDate(s, d) == []
    decreases |s|
  {
    if s != [] {
      UnseenDateHasNoGroup(s[..|s| - 1], d);
    }
  }

  // ---------------------------------------------------------------------------
  // Concatenating the groups of a sorted copy gives the sorted copy back

  function Flatten(s: seq<Workout>, keys: seq<string>): seq<Workout> {
    if keys == [] then [] else WithDate(s, keys[0]) + Flatten(s, keys[1..])
  }

  /** Records of one date sit next to each other. */
  ghost predicate DateContiguous(s: seq<Workout>) {
    forall i, j, k :: 0 <= i < j < k < |s| && DateKey(s[i].startTime) == DateKey(s[k].startTime)
      ==> DateKey(s[j].startTime) == DateKey(s[i].startTime)
  }

  /** In a sorted run of well-formed records, one date's records are contiguous. */
  lemma SortedIsDateContiguous(s: seq<Workout>)
    requires AllWellFormed(s) && SortedByStart(s)
    ensures DateContiguous(s)
  {
    forall i, j, k | 0 <= i < j < k < |s| && DateKey(s[i].startTime) == DateKey(s[k].startTime)
      ensures DateKey(s[j].startTime) == DateKey(s[i].startTime)
    {
      assert WellFormedWorkout(s[i]) && WellFormedWorkout(s[j]) && WellFormedWorkout(s[k]);
      TimestampFields(s[i].startTime);
      TimestampFields(s[j].startTime);
      TimestampFields(s[k].startTime);
      LexTrans(s[i].startTime, s[j].startTime, s[k].startTime);
      LexBetweenSharesPrefix(s[i].startTime, s[j].startTime, s[k].startTime, 10);
    }
  }

  lemma {:induction false} FlattenLastGroup(s: seq<Workout>, w: Workout, keys: seq<string>)
    requires Distinct(keys) && |keys| > 0 && keys[|keys| - 1] == DateKey(w.startTime)
    ensures Flatten(s + [w], keys) == Flatten(s, keys) + [w]
    decreases |keys|
  {
    assert (s + [w])[..|s + [w]| - 1] == s;
    if |keys| > 1 {
      FlattenLastGroup(s, w, keys[1..]);
      assert keys[0] != DateKey(w.startTime);
    } else {
      assert keys[1..] == [];
    }
  }

  lemma {:induction false} FlattenNewGroup(s: seq<Workout>, w: Workout, keys: seq<string>)
    requires DateKey(w.startTime) !in keys
    ensures Flatten(s + [w], keys) == Flatten(s, keys)
    decreases |keys|
  {
    assert (s + [w])[..|s + [w]| - 1] == s;
    if keys != [] { FlattenNewGroup(s, w, keys[1..]); }
  }

  lemma ContiguousPrefix(s: seq<Workout>)
    requires |s| > 0 && DateContiguous(s)
    ensures DateContiguous(s[..|s| - 1])
  {
    var p := s[..|s| - 1];
    forall i, j, k | 0 <= i < j < k < |p| && DateKey(p[i].startTime) == DateKey(p[k].startTime)
      ensures DateKey(p[j].startTime) == DateKey(p[i].startTime)
    {
      assert p[i] == s[i] && p[j] == s[j] && p[k] == s[k];
    }
  }

  /** When the last record's date occurred before, it is the date of the record just before it. */
  lemma ContiguousRepeat(s: seq<Workout>)
    requires |s| > 1 && DateContiguous(s)
    requires exists k :: 0 <= k < |s| - 1 && DateKey(s[k].startTime) == DateKey(s[|s| - 1].startTime)
    ensures DateKey(s[|s| - 2].startTime) == DateKey(s[|s| - 1].startTime)
  {
    var k :| 0 <= k < |s| - 1 && DateKey(s[k].startTime) == DateKey(s[|s| - 1].startTime);
    if k < |s| - 2 {
      assert DateKey(s[|s| - 2].startTime) == DateKey(s[k].startTime);
    }
  }

  /** Concatenating the groups, in key order, gives back a date-contiguous sequence. */
  lemma {:induction false} GroupsConcatenate(s: seq<Workout>)
    requires DateContiguous(s)
    ensures Flatten(s, Dates(s)) == s
    decreases |s|
  {
    if s != [] {
      var p, w := s[..|s| - 1], s[|s| - 1];
      assert s == p + [w];
      ContiguousPrefix(s);
      GroupsConcatenate(p);
      if DateKey(w.startTime) in Dates(p) {
        ConcatenateRepeat(p, w);
      } else {
        ConcatenateNew(p, w);
      }
    }
  }

  /** The step of `GroupsConcatenate` when the last record joins the last group. */
  lemma ConcatenateRepeat(p: seq<Workout>, w: Workout)
    requires DateContiguous(p + [w]) && Flatten(p, Dates(p)) == p
    requires DateKey(w.startTime) in Dates(p)
    ensures Flatten(p + [w], Dates(p + [w])) == p + [w]
  {
    var s := p + [w];
    assert s[..|s| - 1] == p && s[|s| - 1] == w;
    assert Dates(s) == Dates(p);
    DatesAreDistinct(p);
    var k :| 0 <= k < |p| && DateKey(p[k].startTime) == DateKey(w.startTime);
    assert s[k] == p[k];
    ContiguousRepeat(s);
    assert s[|s| - 2] == p[|p| - 1];
    ContiguousPrefix(s);
    LastDateIsLastKeyExact(p);
    FlattenLastGroup(p, w, Dates(p));
  }

  /** The step of `GroupsConcatenate` when the last record opens a new group. */
  lemma ConcatenateNew(p: seq<Workout>, w: Workout)
    requires Flatten(p, Dates(p)) == p
    requires DateKey(w.startTime) !in Dates(p)
    ensures Flatten(p + [w], Dates(p + [w])) == p + [w]
  {
    var s := p + [w];
    var d := DateKey(w.startTime);
    assert s[..|s| - 1] == p && s[|s| - 1] == w;
    assert Dates(s) == Dates(p) + [d];
    FlattenSplit(s, Dates(p), [d]);
    FlattenNewGroup(p, w, Dates(p));
    UnseenDateHasNoGroup(p, d);
    assert WithDate(s, d) == [w];
    assert [d][1..] == [];
    assert Flatten(s, [d]) == [w];
  }

  lemma {:induction false} FlattenSplit(s: seq<Workout>, a: seq<string>, b: seq<string>)
    ensures Flatten(s, a + b) == Flatten(s, a) + Flatten(s, b)
    decreases |a|
  {
    if a != [] {
      assert (a + b)[0] == a[0] && (a + b)[1..] == a[1..] + b;
      FlattenSplit(s, a[1..], b);
    } else {
      assert a + b == b;
    }
  }

  /** In a date-contiguous sequence the last key is the date of the last record. */
  lemma {:induction false} LastDateIsLastKeyExact(s: seq<Workout>)
    requires |s| > 0 && DateContiguous(s)
    ensures |Dates(s)| > 0 && Dates(s)[|Dates(s)| - 1] == DateKey(s[|s| - 1].startTime)
    decreases |s|
  {
    var p := s[..|s| - 1];
    var d := DateKey(s[|s| - 1].startTime);
    if p != [] {
      ContiguousPrefix(s);
      LastDateIsLastKeyExact(p);
      DatesAreDistinct(p);
      if d in Dates(p) {
        var k :| 0 <= k < |p| && DateKey(p[k].startTime) == d;
        assert s[k] == p[k];
        ContiguousRepeat(s);
        assert s[|s| - 2] == p[|p| - 1];
      }
    }
  }
}
