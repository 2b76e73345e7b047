/**
 * The JavaScript router routes/data.js over the `newcsv` collection: like routes/data.ts
 * but `/today` sends only `{data}`, `/range` sends the moments themselves, parsed with the
 * explicit format "MM-DD-YYYY", and `/:req_date` sends the parsed rows of the stored CSV.
 */
module DataRoutesJs {
  import opened Wrappers
  import opened Calendar
  import opened Moments
  import opened CsvStore
  import opened Http
  import DataRoutes

  /** `GET /today`: only the data of the record of the day before `now`. */
  function Today(db: Result<seq<Record>>, now: Date): (r: Response)
    requires ValidDate(now) && 1 <= now.year <= 9999
    ensures db.Failure? ==> r == ServerError()
    ensures db.Success? ==> r.status == 200 && r.body.DataOnly?
    ensures db.Success? ==> r.body.data == Lookup(db.value, DataRoutes.TodayKey(now))
  {
    match db
    case Failure(_) => ServerError()
    case Success(records) => Response(200, DataOnly(Lookup(records, DataRoutes.TodayKey(now))))
  }

  /** `GET /range`: `{max, min}` as moments. */
  function Range(db: Result<seq<Record>>, now: Date): (r: Response)
    ensures db.Failure? ==> r == ServerError()
    ensures db.Success? ==> r.status == 200 && r.body.MomentRange?
  {
    match db
    case Failure(_) => ServerError()
    case Success(records) =>
      var ms := DataRoutes.KeyMoments(Dates(records));
      Response(200, MomentRange(Max(ms, now), Min(ms, now)))
  }

  /**
   * With keys that all read as days, the moments sent by `/range` are stored days,
   * the latest and the earliest, and min is not after max.
   */
  lemma RangeIsChronological(records: seq<Record>, now: Date)
    requires |records| > 0 && DataRoutes.AllKeysAreDays(records)
    ensures var b := Range(Success(records), now).body;
      && b.maxMoment.Valid? && b.minMoment.Valid?
      && (exists i :: 0 <= i < |records| && ParseKey(records[i].date) == Some(b.maxMoment.date))
      && (exists i :: 0 <= i < |records| && ParseKey(records[i].date) == Some(b.minMoment.date))
      && NotAfter(b.minMoment.date, b.maxMoment.date)
      && forall i :: 0 <= i < |records| ==>
           NotAfter(ParseKey(records[i].date).value, b.maxMoment.date) &&
           NotAfter(b.minMoment.date, ParseKey(records[i].date).value)
  {
    var ms := DataRoutes.KeyMoments(Dates(records));
    DataRoutes.StoredMoments(records);
    var iMax, iMin := MaxMinExtreme(ms, now);
    assert ParseKey(records[iMax].date) == Some(Max(ms, now).date);
    assert ParseKey(records[iMin].date) == Some(Min(ms, now).date);
  }

  /**
   * `GET /:req_date`: the stored CSV of exactly that key, parsed by `parse` (d3's
   * `csvParse`). With no such record `csvParse(undefined)` throws, so the answer is 500.
   */
  function ByDate(db: Result<seq<Record>>, reqDate: string, parse: string -> seq<Row>): (r: Response)
    ensures db.Failure? ==> r == ServerError()
    ensures db.Success? && Lookup(db.value, reqDate).None? ==> r == ServerError()
    ensures db.Success? && Lookup(db.value, reqDate).Some? ==>
      r == Response(200, Rows(parse(Lookup(db.value, reqDate).value)))
  {
    match db
    case Failure(_) => ServerError()
    case Success(records) =>
      match FindOne(records, reqDate)
      case None => ServerError()
      case Some(rec) => Response(200, Rows(parse(rec.data)))
  }

  /** The record served for `reqDate` is a record whose key equals `reqDate`. */
  lemma ByDateIsExactKey(records: seq<Record>, reqDate: string, parse: string -> seq<Row>)
    requires ByDate(Success(records), reqDate, parse).status == 200
    ensures exists i :: (0 <= i < |records| && records[i].date == reqDate &&
                         ByDate(Success(records), reqDate, parse).body == Rows(parse(records[i].data)))
  {
    var rec := FindOne(records, reqDate).value;
    var i := FindIndex(records, reqDate).value;
    assert records[i] == rec;
  }
}
