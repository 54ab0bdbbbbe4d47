/** The stored usage history and the update `fetchData` applies to it on every run. */
module UsageHistory {
  import opened Dates

  /** One reading of the quota endpoint. Only `points` (the points left) is ever inspected;
      `code` and `msg` are carried along untouched. */
  datatype Reading = Reading(code: int, msg: string, points: int)

  /** The contents of the data file: one reading per day. */
  type History = map<Date, Reading>

  /** A top-up: the new reading shows more points than the reading under the newest stored day. */
  ghost predicate IsRefill(h: History, r: Reading) {
    h != map[] && r.points > h[Newest(h.Keys)].points
  }

  /** The history after a run on day `today` that fetched `r`: wiped on a top-up, then
      `today` is set to `r`, replacing an earlier reading of the same day. Nothing is ever
      evicted otherwise. */
  ghost function Updated(h: History, today: Date, r: Reading): (u: History)
    ensures today in u && u[today] == r
    ensures forall d :: d in u && d != today ==> d in h && u[d] == h[d]
    ensures !IsRefill(h, r) ==> forall d :: d in h ==> d in u
  {
    (if IsRefill(h, r) then map[] else h)[today := r]
  }

  /** The in-memory part of `fetchData`: sort the stored days, compare the new points with
      those of the last day, clear the history on an increase, then store today's reading. */
  method Update(data: History, today: Date, newData: Reading) returns (updated: History)
    ensures updated == Updated(data, today, newData)
    ensures today in updated && updated[today] == newData
  {
    updated := data;
    var sortedDates := SortChronological(data.Keys);
    if |sortedDates| > 0 {
      var lastDate := sortedDates[|sortedDates| - 1];
      var lastPoints := data[lastDate].points;
      if newData.points > lastPoints {
        updated := map[];
      }
    }
    updated := updated[today := newData];
  }

  /** With nothing stored there is no top-up check: the history becomes today's reading alone. */
  lemma UpdateOfEmpty(today: Date, r: Reading)
    ensures Updated(map[], today, r) == map[today := r]
  {
  }

  /** A top-up leaves exactly one reading: today's. */
  lemma UpdateOnRefill(h: History, today: Date, r: Reading)
    requires IsRefill(h, r)
    ensures Updated(h, today, r) == map[today := r]
    ensures |Updated(h, today, r)| == 1
  {
  }

  /** Without a top-up the update is an upsert: today gets the new reading, every other day
      keeps its reading, and at most one day is added. */
  lemma UpdateIsUpsert(h: History, today: Date, r: Reading)
    requires !IsRefill(h, r)
    ensures Updated(h, today, r).Keys == h.Keys + {today}
    ensures Updated(h, today, r)[today] == r
    ensures forall d :: d in h && d != today ==> Updated(h, today, r)[d] == h[d]
    ensures |Updated(h, today, r)| == if today in h then |h| else |h| + 1
  {
    var u := Updated(h, today, r);
    if today !in h {
      assert u.Keys == h.Keys + {today};
      assert |u.Keys| == |h.Keys| + 1;
    } else {
      assert u.Keys == h.Keys;
    }
  }

  /** The top-up test reads the last day of the ascending sort, the greatest key. */
  lemma RefillReadsLastSortedDay(h: History, r: Reading)
    ensures IsRefill(h, r) <==>
      var days := Chronological(h.Keys);
      |days| > 0 && r.points > h[days[|days| - 1]].points
  {
  }

  /** No run ever shrinks the history below one entry or grows it by more than one. */
  lemma UpdateSize(h: History, today: Date, r: Reading)
    ensures 1 <= |Updated(h, today, r)| <= |h| + 1
  {
    if IsRefill(h, r) {
      UpdateOnRefill(h, today, r);
      assert |h| >= 1;
    } else {
      UpdateIsUpsert(h, today, r);
    }
  }
}
