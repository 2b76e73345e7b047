/** The JSON responses of the `api/data` routers. */
module Http {
  import opened Wrappers
  import opened CsvStore
  import opened Moments

  /** One element of the list sent by `GET api/data`. */
  datatype DateData = DateData(data: string, date: string)

  datatype Body =
    | DateDataList(items: seq<DateData>)
    | DateAndData(date: Option<string>, data: Option<string>)   // a field is None when undefined
    | DataOnly(data: Option<string>)
    | KeyRange(max: string, min: string)
    | MomentRange(maxMoment: Moment, minMoment: Moment)   // sent as {max, min}
    | Rows(rows: seq<Row>)
    | Message(text: string)

  datatype Response = Response(status: int, body: Body)

  /** What every handler sends when its body throws. */
  function ServerError(): (r: Response)
    ensures r.status == 500 && r.body == Message("Server Error")
  {
    Response(500, Message("Server Error"))
  }
}
