/**
 * The `csv` collection of models/Csv.ts: documents `{date, data}` in collection order.
 * `findOne({date})` returns the first document whose `date` equals the key.
 */
module CsvStore {
  import opened Wrappers

  datatype Record = Record(date: string, data: string)

  /** One parsed CSV row, as far as the code looks into it (the numeric columns are not modelled). */
  datatype Row = Row(country: string, fullLocation: string)

  /** Index of the first record with this date, if any. */
  function FindIndex(records: seq<Record>, date: string): (r: Option<nat>)
    ensures r.Some? ==> r.value < |records| && records[r.value].date == date
    ensures r.Some? ==> forall j :: 0 <= j < r.value ==> records[j].date != date
    ensures r.None? <==> forall j :: 0 <= j < |records| ==> records[j].date != date
  {
    if records == [] then None
    else if records[0].date == date then Some(0)
    else match FindIndex(records[1..], date)
      case None => None
      case Some(i) => Some(i + 1)
  }

  /** `findOne({date})`. */
  function FindOne(records: seq<Record>, date: string): (r: Option<Record>)
    ensures r.Some? ==> r.value in records && r.value.date == date
    ensures r.None? <==> forall j :: 0 <= j < |records| ==> records[j].date != date
  {
    match FindIndex(records, date)
    case None => None
    case Some(i) => Some(records[i])
  }

  /** The store seen as a map from date key to data: the data of the first record with that key. */
  function Lookup(records: seq<Record>, date: string): Option<string> {
    match FindOne(records, date)
    case None => None
    case Some(r) => Some(r.data)
  }

  /** Every record's date, in collection order. */
  function Dates(records: seq<Record>): (ds: seq<string>)
    ensures |ds| == |records|
    ensures forall i :: 0 <= i < |records| ==> ds[i] == records[i].date
  {
    if records == [] then [] else [records[0].date] + Dates(records[1..])
  }
}
