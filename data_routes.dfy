/**
 * The TypeScript router routes/data.ts over a read-only snapshot of the `csv` collection.
 * The snapshot is `Success(records)` in collection order, or `Failure` when the query throws.
 * Date keys are read as `MM-DD-YYYY` (see README for the parsing this assumes).
 */
module DataRoutes {
  import opened Wrappers
  import opened Calendar
  import opened Moments
  import opened CsvStore
  import opened Http

  function Project(records: seq<Record>): (items: seq<DateData>)
    ensures |items| == |records|
    ensures forall i :: 0 <= i < |records| ==>
      items[i].data == records[i].data && items[i].date == records[i].date
  {
    if records == [] then [] else [DateData(records[0].data, records[0].date)] + Project(records[1..])
  }

  /** `GET /`: every record as `{data, date}`, in collection order. */
  function ListAll(db: Result<seq<Record>>): (r: Response)
    ensures db.Failure? ==> r == ServerError()
    ensures db.Success? ==> r.status == 200 && r.body.DateDataList? && |r.body.items| == |db.value|
    ensures db.Success? ==> forall i :: 0 <= i < |db.value| ==>
      r.body.items[i] == DateData(db.value[i].data, db.value[i].date)
  {
    match db
    case Failure(_) => ServerError()
    case Success(records) => Response(200, DateDataList(Project(records)))
  }

  /** `findOne({date: key}) || {}` sent as `{date, data}`. */
  function FoundBody(records: seq<Record>, key: string): (b: Body)
    ensures b.DateAndData?
    ensures b.date.Some? <==> b.data.Some?
    ensures b.date.Some? ==> b.date.value == key && Record(key, b.data.value) in records
    ensures b.date.None? <==> forall i :: 0 <= i < |records| ==> records[i].date != key
  {
    match FindOne(records, key)
    case Some(rec) => DateAndData(Some(rec.date), Some(rec.data))
    case None => DateAndData(None, None)
  }

  /** The key of `moment().subtract(1, 'days').format('MM-DD-YYYY')`. */
  function TodayKey(now: Date): (key: string)
    requires ValidDate(now) && 1 <= now.year <= 9999
    ensures ParseKey(key) == Some(Yesterday(now))
  {
    ParseFormatKey(Yesterday(now));
    FormatKey(Yesterday(now))
  }

  /** `GET /today`: the record of the day before `now`. */
  function Today(db: Result<seq<Record>>, now: Date): (r: Response)
    requires ValidDate(now) && 1 <= now.year <= 9999
    ensures db.Failure? ==> r == ServerError()
    ensures db.Success? ==> r.status == 200 && r.body == FoundBody(db.value, TodayKey(now))
  {
    match db
    case Failure(_) => ServerError()
    case Success(records) => Response(200, FoundBody(records, TodayKey(now)))
  }

  /** `GET /:req_date`: the record whose key is exactly `reqDate`. */
  function ByDate(db: Result<seq<Record>>, reqDate: string): (r: Response)
    ensures db.Failure? ==> r == ServerError()
    ensures db.Success? ==> r.status == 200 && r.body == FoundBody(db.value, reqDate)
  {
    match db
    case Failure(_) => ServerError()
    case Success(records) => Response(200, FoundBody(records, reqDate))
  }

  /** Every stored key read as a moment. */
  function KeyMoments(keys: seq<string>): (ms: seq<Moment>)
    ensures |ms| == |keys|
    ensures forall i :: 0 <= i < |keys| ==> ms[i] == FromKey(keys[i])
  {
    if keys == [] then [] else [FromKey(keys[0])] + KeyMoments(keys[1..])
  }

  /** `GET /range`: the latest and the earliest stored day, formatted `MM-DD-YYYY`. */
  function Range(db: Result<seq<Record>>, now: Date): (r: Response)
    requires KeyDate(now)
    ensures db.Failure? ==> r == ServerError()
    ensures db.Success? ==> r.status == 200 && r.body.KeyRange?
  {
    match db
    case Failure(_) => ServerError()
    case Success(records) =>
      var ms := KeyMoments(Dates(records));
      MomentsAreKeyDates(ms, Dates(records), now);
      Response(200, KeyRange(Format(Max(ms, now)), Format(Min(ms, now))))
  }

  lemma MomentsAreKeyDates(ms: seq<Moment>, keys: seq<string>, now: Date)
    requires KeyDate(now) && ms == KeyMoments(keys)
    ensures Max(ms, now).Valid? ==> KeyDate(Max(ms, now).date)
    ensures Min(ms, now).Valid? ==> KeyDate(Min(ms, now).date)
  {
    if ms != [] {
      if AllValid(ms) {
        forall i | 0 <= i < |ms[1..]| ensures ValidDate(ms[1..][i].date) { assert ms[1..][i] == ms[i + 1]; }
        PickFromExtreme(true, ms[0], ms[1..]);
        PickFromExtreme(false, ms[0], ms[1..]);
      } else {
        PickFromInvalid(true, ms[0], ms[1..]);
        PickFromInvalid(false, ms[0], ms[1..]);
      }
    }
  }

  predicate AllKeysAreDays(records: seq<Record>) {
    forall i :: 0 <= i < |records| ==> ParseKey(records[i].date).Some?
  }

  /**
   * Over a non-empty collection whose keys all read as days, `max` is a stored key whose
   * day is not earlier than any stored day, `min` a stored key not later than any, and
   * `min` is not after `max`. The keys come back as the identical strings.
   */
  lemma RangeIsChronological(records: seq<Record>, now: Date)
    requires KeyDate(now) && |records| > 0 && AllKeysAreDays(records)
    ensures var b := Range(Success(records), now).body;
      && (exists i :: 0 <= i < |records| && records[i].date == b.max)
      && (exists i :: 0 <= i < |records| && records[i].date == b.min)
      && ParseKey(b.max).Some? && ParseKey(b.min).Some?
      && NotAfter(ParseKey(b.min).value, ParseKey(b.max).value)
      && forall i :: 0 <= i < |records| ==>
           NotAfter(ParseKey(records[i].date).value, ParseKey(b.max).value) &&
           NotAfter(ParseKey(b.min).value, ParseKey(records[i].date).value)
  {
    var ms := KeyMoments(Dates(records));
    StoredMoments(records);
    var iMax, iMin := MaxMinExtreme(ms, now);
    RangeBody(records, now, iMax, iMin);
  }

  /** Over keys that all read as days, the i-th moment is the i-th stored day. */
  lemma StoredMoments(records: seq<Record>)
    requires AllKeysAreDays(records)
    ensures var ms := KeyMoments(Dates(records));
      && AllValid(ms)
      && forall i :: 0 <= i < |ms| ==>
           ValidDate(ms[i].date) && ms[i].date == ParseKey(records[i].date).value
  {
  }

  /** `/range` formats the picked moments back into the stored keys they came from. */
  lemma RangeBody(records: seq<Record>, now: Date, iMax: nat, iMin: nat)
    requires KeyDate(now) && AllKeysAreDays(records) && iMax < |records| && iMin < |records|
    requires KeyMoments(Dates(records))[iMax] == Max(KeyMoments(Dates(records)), now)
    requires KeyMoments(Dates(records))[iMin] == Min(KeyMoments(Dates(records)), now)
    ensures Range(Success(records), now).body == KeyRange(records[iMax].date, records[iMin].date)
  {
  }

  /** One key that does not read as a day makes both ends "Invalid date". */
  lemma RangeWithInvalidKey(records: seq<Record>, now: Date, i: nat)
    requires KeyDate(now) && i < |records| && ParseKey(records[i].date).None?
    ensures Range(Success(records), now).body == KeyRange("Invalid date", "Invalid date")
  {
    var ms := KeyMoments(Dates(records));
    assert !ms[i].Valid?;
    if i > 0 {
      assert !ms[1..][i - 1].Valid?;
    }
    PickFromInvalid(true, ms[0], ms[1..]);
    PickFromInvalid(false, ms[0], ms[1..]);
  }

  /** An empty collection gives today's date for both ends (moment's empty max/min is now). */
  lemma RangeOfEmptyStore(now: Date)
    requires KeyDate(now)
    ensures Range(Success([]), now).body == KeyRange(FormatKey(now), FormatKey(now))
  {
  }

  /** The dates "01-15-2021", "03-01-2022", "02-20-2021" give min "01-15-2021" and max "03-01-2022". */
  lemma RangeExample(now: Date)
    requires KeyDate(now)
    ensures Range(Success([Record("01-15-2021", "a"), Record("03-01-2022", "b"), Record("02-20-2021", "c")]), now).body
            == KeyRange("03-01-2022", "01-15-2021")
  {
    var records := [Record("01-15-2021", "a"), Record("03-01-2022", "b"), Record("02-20-2021", "c")];
    var a, b, c := Valid(Date(2021, 1, 15)), Valid(Date(2022, 3, 1)), Valid(Date(2021, 2, 20));
    ExampleMoments(records);
    assert [a, b, c][1..] == [b, c];
    PickExample(a, b, c);
    assert FormatKey(Date(2022, 3, 1)) == "03-01-2022";
    assert FormatKey(Date(2021, 1, 15)) == "01-15-2021";
  }

  lemma ExampleMoments(records: seq<Record>)
    requires records == [Record("01-15-2021", "a"), Record("03-01-2022", "b"), Record("02-20-2021", "c")]
    ensures KeyMoments(Dates(records)) == [Valid(Date(2021, 1, 15)), Valid(Date(2022, 3, 1)), Valid(Date(2021, 2, 20))]
  {
    JanuaryKey();
    MarchKey();
    FebruaryKey();
    assert Dates(records) == ["01-15-2021", "03-01-2022", "02-20-2021"];
  }

  lemma JanuaryKey()
    ensures FromKey("01-15-2021") == Valid(Date(2021, 1, 15))
  {
    ParseFormatKey(Date(2021, 1, 15));
    assert FormatKey(Date(2021, 1, 15)) == "01-15-2021";
  }

  lemma MarchKey()
    ensures FromKey("03-01-2022") == Valid(Date(2022, 3, 1))
  {
    ParseFormatKey(Date(2022, 3, 1));
    assert FormatKey(Date(2022, 3, 1)) == "03-01-2022";
  }

  lemma FebruaryKey()
    ensures FromKey("02-20-2021") == Valid(Date(2021, 2, 20))
  {
    ParseFormatKey(Date(2021, 2, 20));
    assert FormatKey(Date(2021, 2, 20)) == "02-20-2021";
  }

  lemma PickExample(a: Moment, b: Moment, c: Moment)
    requires a == Valid(Date(2021, 1, 15)) && b == Valid(Date(2022, 3, 1)) && c == Valid(Date(2021, 2, 20))
    ensures PickFrom(true, a, [b, c]) == b
    ensures PickFrom(false, a, [b, c]) == a
  {
    assert [b, c][1..] == [c] && [c][1..] == [];
    assert PickFrom(true, a, [b, c]) == PickFrom(true, b, [c]) == PickFrom(true, b, []);
    assert PickFrom(false, a, [b, c]) == PickFrom(false, a, [c]) == PickFrom(false, a, []);
  }
}
