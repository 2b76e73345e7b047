/**
 * The ingestion job of util/getData.ts: list the daily-report directory, keep the
 * files whose names do not end in "2020.csv", fetch each file's blob, derive its date
 * key from the file name, and insert, update or skip the stored record for that key.
 * A failure while handling one file is caught and the batch moves on; a failure of
 * the listing ends the batch with the store untouched.
 *
 * The remote side is given as data: the successive answers the server gives to the
 * listing request and to each blob request (keyed by the blob's sha). The requests
 * are issued one file after the other.
 */
module GetData {
  import opened Wrappers
  import opened CsvStore
  import opened Seqs

  // ---------------------------------------------------------------------
  // Throttled requests
  // ---------------------------------------------------------------------

  /** What the server answers to one attempt of a request. */
  datatype Signal<T> = Ok(body: T) | RateLimited | AbuseLimited | Failed

  /** The outcome of a request and the number of attempts it took. */
  datatype Attempted<T> = Attempted(value: Option<T>, attempts: nat)

  /** `onRateLimit`: retry only a request that has not been retried yet. */
  function OnRateLimit(retryCount: nat): bool {
    retryCount == 0
  }

  /** `onAbuseLimit` only logs; its undefined result means "do not retry". */
  function OnAbuseLimit(retryCount: nat): bool {
    false
  }

  /** Whether the throttling handlers ask for another attempt after this answer. */
  function ShouldRetry<T>(s: Signal<T>, retryCount: nat): bool {
    match s
    case RateLimited => OnRateLimit(retryCount)
    case AbuseLimited => OnAbuseLimit(retryCount)
    case _ => false
  }

  /** The answer to attempt `k`; attempts past the given answers fail in transport. */
  function AnswerAt<T>(answers: seq<Signal<T>>, k: nat): Signal<T> {
    if k < |answers| then answers[k] else Failed
  }

  /** Attempt `retryCount` of a request and the retries the handlers ask for after it. */
  function SendFrom<T>(answers: seq<Signal<T>>, retryCount: nat): (r: Attempted<T>)
    ensures r.attempts > retryCount
    ensures r.value.Some? ==> AnswerAt(answers, r.attempts - 1) == Ok(r.value.value)
    decreases |answers| + 1 - retryCount
  {
    var s := AnswerAt(answers, retryCount);
    if s.Ok? then Attempted(Some(s.body), retryCount + 1)
    else if ShouldRetry(s, retryCount) && retryCount < |answers| then SendFrom(answers, retryCount + 1)
    else Attempted(None, retryCount + 1)
  }

  /** A request through the throttled client. */
  function Send<T>(answers: seq<Signal<T>>): (r: Attempted<T>)
    ensures r.attempts >= 1
    ensures r.value.Some? ==> r.attempts <= |answers| && answers[r.attempts - 1] == Ok(r.value.value)
  {
    SendFrom(answers, 0)
  }

  /**
   * A rate-limited request is retried once and only once; an abuse signal is never
   * retried; the request succeeds exactly when the first answer, or the answer to the
   * single retry after a rate limit, is a success.
   */
  lemma SendRetriesAtMostOnce<T>(answers: seq<Signal<T>>)
    ensures 1 <= Send(answers).attempts <= 2
    ensures Send(answers).attempts == 2 <==> AnswerAt(answers, 0).RateLimited?
    ensures Send(answers).value.Some? <==>
      AnswerAt(answers, 0).Ok? || (AnswerAt(answers, 0).RateLimited? && AnswerAt(answers, 1).Ok?)
    ensures Send(answers).value.Some? ==>
      AnswerAt(answers, Send(answers).attempts - 1) == Ok(Send(answers).value.value)
    ensures AnswerAt(answers, 0).AbuseLimited? ==> Send(answers) == Attempted(None, 1)
  {
    if AnswerAt(answers, 0).RateLimited? && 0 < |answers| {
      assert Send(answers) == SendFrom(answers, 1);
    }
  }

  // ---------------------------------------------------------------------
  // File names
  // ---------------------------------------------------------------------

  /** A directory entry of the listing. */
  datatype Entry = Entry(name: string, sha: string)

  predicate EndsWith(s: string, suffix: string) {
    |suffix| <= |s| && s[|s| - |suffix|..] == suffix
  }

  /** The listing filter: every entry whose name does not end in "2020.csv". */
  predicate IsProcessed(name: string) {
    !EndsWith(name, "2020.csv")
  }

  /** `res.data.filter(i => !i.name.endsWith('2020.csv'))`. */
  function ReportFiles(entries: seq<Entry>): (files: seq<Entry>)
    ensures forall e :: e in files <==> e in entries && IsProcessed(e.name)
    ensures forall e :: multiset(files)[e] == if IsProcessed(e.name) then multiset(entries)[e] else 0
    ensures IsSubsequence(files, entries)
  {
    if entries == [] then []
    else
      assert entries == [entries[0]] + entries[1..];
      if IsProcessed(entries[0].name) then [entries[0]] + ReportFiles(entries[1..])
      else ReportFiles(entries[1..])
  }

  lemma ReportFilesExamples()
    ensures !IsProcessed("01-22-2020.csv")
    ensures IsProcessed("01-01-2021.csv")
    ensures IsProcessed("README.md")
  {
    assert "01-22-2020.csv"[6..] == "2020.csv";
    assert "01-01-2021.csv"[6..] != "2020.csv" by {
      assert "01-01-2021.csv"[6..][3] == '1';
    }
    assert "README.md"[1..] != "2020.csv";
  }

  predicate OccursAt(s: string, pat: string, i: nat) {
    i + |pat| <= |s| && s[i..i + |pat|] == pat
  }

  /** The first position at or after `from` where `pat` occurs in `s`. */
  function IndexOf(s: string, pat: string, from: nat): (r: Option<nat>)
    requires |pat| > 0
    ensures r.Some? ==> from <= r.value && OccursAt(s, pat, r.value)
    ensures r.Some? ==> forall j: nat :: from <= j < r.value ==> !OccursAt(s, pat, j)
    ensures r.None? <==> forall j: nat :: from <= j ==> !OccursAt(s, pat, j)
    decreases |s| - from
  {
    if from + |pat| > |s| then None
    else if s[from..from + |pat|] == pat then assert OccursAt(s, pat, from); Some(from)
    else IndexOf(s, pat, from + 1)
  }

  /** `name.replace('.csv', "")`: the first ".csv" is removed, if there is one. */
  function DateKey(name: string): (key: string)
    ensures IndexOf(name, ".csv", 0).None? ==> key == name
    ensures IndexOf(name, ".csv", 0).Some? ==>
      var i := IndexOf(name, ".csv", 0).value; key == name[..i] + name[i + 4..] && |key| == |name| - 4
  {
    match IndexOf(name, ".csv", 0)
    case None => name
    case Some(i) => name[..i] + name[i + 4..]
  }

  /** For a name `d + ".csv"` where `d` holds no ".csv", the key is `d`. */
  lemma DateKeyStripsExtension(d: string)
    requires forall j: nat :: !OccursAt(d, ".csv", j)
    ensures DateKey(d + ".csv") == d
  {
    var s := d + ".csv";
    assert OccursAt(s, ".csv", |d|);
    forall j: nat | j < |d|
      ensures !OccursAt(s, ".csv", j)
    {
      if j + 4 <= |d| {
        assert s[j..j + 4] == d[j..j + 4];
        assert !OccursAt(d, ".csv", j);
      } else {
        // The window runs into the extension: its character at |d| is '.', where ".csv" has c, s or v.
        assert s[|d|] == '.';
      }
    }
    assert IndexOf(s, ".csv", 0) == Some(|d|);
  }

  /** The key is not injective: "x.csvy" and "xy" share the key "xy". */
  lemma DateKeyNotInjective()
    ensures DateKey("x.csvy") == DateKey("xy") == "xy"
  {
    assert OccursAt("x.csvy", ".csv", 1);
    assert !OccursAt("x.csvy", ".csv", 0) by {
      assert "x.csvy"[0..4][0] != '.';
    }
    assert IndexOf("x.csvy", ".csv", 0) == Some(1);
    assert IndexOf("xy", ".csv", 0) == None;
  }

  // ---------------------------------------------------------------------
  // lowercaseFirstLetter
  // ---------------------------------------------------------------------

  /** `toLowerCase` on one character (letters A to Z; other characters are unchanged). */
  function ToLower(c: char): (r: char)
    ensures 'A' <= c <= 'Z' ==> 'a' <= r <= 'z' && r as int - 'a' as int == c as int - 'A' as int
    ensures !('A' <= c <= 'Z') ==> r == c
  {
    if 'A' <= c <= 'Z' then (c as int + 32) as char else c
  }

  /** `string.charAt(0).toLowerCase() + string.slice(1)`. */
  function LowercaseFirstLetter(s: string): (r: string)
    ensures |r| == |s|
    ensures s == "" ==> r == ""
    ensures s != "" ==> r[0] == ToLower(s[0]) && r[1..] == s[1..]
  {
    if s == "" then "" else [ToLower(s[0])] + s[1..]
  }

  lemma LowercaseFirstLetterIdempotent(s: string)
    ensures LowercaseFirstLetter(LowercaseFirstLetter(s)) == LowercaseFirstLetter(s)
  {
  }

  // ---------------------------------------------------------------------
  // The upsert decision and the batch, as functions of the store
  // ---------------------------------------------------------------------

  /** A write to the collection: `save` of a new document or `findOneAndUpdate`. */
  datatype Write = Insert(date: string) | Update(date: string)

  /** The collection after a batch step and the writes the step performed. */
  datatype Batch = Batch(records: seq<Record>, writes: seq<Write>)

  /** The server's answers to the blob requests, keyed by sha. */
  type Blobs = map<string, seq<Signal<string>>>

  function BlobAnswers(blobs: Blobs, sha: string): seq<Signal<string>> {
    if sha in blobs then blobs[sha] else []
  }

  /** `octo.git.getBlob({file_sha: sha, ...})`: the content is one the server sent for that sha. */
  function Fetch(blobs: Blobs, e: Entry): (r: Option<string>)
    ensures r.Some? ==> e.sha in blobs && Ok(r.value) in blobs[e.sha]
  {
    Send(BlobAnswers(blobs, e.sha)).value
  }

  lemma FindIndexAppend(records: seq<Record>, r: Record, k: string)
    ensures FindIndex(records + [r], k) ==
      if FindIndex(records, k).Some? then FindIndex(records, k)
      else if r.date == k then Some(|records|) else None
  {
    var rs := records + [r];
    match FindIndex(records, k)
    case Some(i) =>
      assert rs[i].date == k;
      assert forall j :: 0 <= j < i ==> rs[j].date != k by {
        forall j | 0 <= j < i ensures rs[j].date != k { assert rs[j] == records[j]; }
      }
      SameIndex(rs, k, i);
    case None =>
      assert forall j :: 0 <= j < |records| ==> rs[j].date != k by {
        forall j | 0 <= j < |records| ensures rs[j].date != k { assert rs[j] == records[j]; }
      }
      if r.date == k {
        SameIndex(rs, k, |records|);
      }
  }

  /** The first index of a date is determined by where the date occurs. */
  lemma SameIndex(records: seq<Record>, k: string, i: nat)
    requires i < |records| && records[i].date == k
    requires forall j :: 0 <= j < i ==> records[j].date != k
    ensures FindIndex(records, k) == Some(i)
  {
  }

  /** Replacing a record by one with the same date moves no date's first index. */
  lemma FindIndexSameDates(records: seq<Record>, i: nat, r: Record, k: string)
    requires i < |records| && records[i].date == r.date
    ensures FindIndex(records[i := r], k) == FindIndex(records, k)
  {
    var rs := records[i := r];
    assert forall j :: 0 <= j < |records| ==> rs[j].date == records[j].date;
    match FindIndex(records, k)
    case Some(n) => SameIndex(rs, k, n);
    case None =>
  }

  /**
   * The insert / update-if-changed / skip decision for one fetched file: afterwards the
   * key holds the fetched data and no other key changed; a write happens exactly when
   * the key was absent (insert) or held different data (update).
   */
  function Upsert(records: seq<Record>, date: string, data: string): (b: Batch)
    ensures Lookup(b.records, date) == Some(data)
    ensures forall k :: k != date ==> Lookup(b.records, k) == Lookup(records, k)
    ensures Lookup(records, date).None? <==> b.writes == [Insert(date)]
    ensures Lookup(records, date).Some? && Lookup(records, date) != Some(data) <==> b.writes == [Update(date)]
    ensures Lookup(records, date) == Some(data) <==> b.writes == []
    ensures b.writes == [] ==> b.records == records
  {
    match FindIndex(records, date)
    case None =>
      var rs := records + [Record(date, data)];
      forall k ensures FindIndex(rs, k) == if k == date then Some(|records|) else FindIndex(records, k) {
        FindIndexAppend(records, Record(date, data), k);
      }
      Batch(rs, [Insert(date)])
    case Some(i) =>
      if records[i].data != data then
        var rs := records[i := Record(date, data)];
        forall k ensures FindIndex(rs, k) == FindIndex(records, k) {
          FindIndexSameDates(records, i, Record(date, data), k);
        }
        Batch(rs, [Update(date)])
      else
        Batch(records, [])
  }

  /** The file was fetched and its key's store operations do not throw, so it reaches Upsert. */
  predicate Stored(unavailable: set<string>, blobs: Blobs, e: Entry) {
    Fetch(blobs, e).Some? && DateKey(e.name) !in unavailable
  }

  /** The per-file pipeline, inside its try/catch: a failed fetch or store operation changes nothing. */
  function ProcessFile(records: seq<Record>, unavailable: set<string>, blobs: Blobs, e: Entry): (b: Batch)
    ensures !Stored(unavailable, blobs, e) ==> b == Batch(records, [])
    ensures Stored(unavailable, blobs, e) ==> Lookup(b.records, DateKey(e.name)) == Fetch(blobs, e)
    ensures |b.writes| <= 1
  {
    if Stored(unavailable, blobs, e) then Upsert(records, DateKey(e.name), Fetch(blobs, e).value)
    else Batch(records, [])
  }

  /** The files of the listing handled one after the other. */
  function Fold(records: seq<Record>, unavailable: set<string>, blobs: Blobs, files: seq<Entry>): (b: Batch)
    ensures |b.writes| <= |files|
    decreases |files|
  {
    if files == [] then Batch(records, [])
    else
      var b := Fold(records, unavailable, blobs, files[..|files| - 1]);
      var c := ProcessFile(b.records, unavailable, blobs, files[|files| - 1]);
      Batch(c.records, b.writes + c.writes)
  }

  /** One run of `getAllFiles`: the listing request, then every report file. */
  function RunBatch(records: seq<Record>, unavailable: set<string>,
                    listing: seq<Signal<seq<Entry>>>, blobs: Blobs): (b: Batch)
    ensures Send(listing).value.None? ==> b.writes == []
    ensures Send(listing).value.Some? ==> |b.writes| <= |ReportFiles(Send(listing).value.value)|
  {
    match Send(listing).value
    case None => Batch(records, [])
    case Some(entries) => Fold(records, unavailable, blobs, ReportFiles(entries))
  }

  // ---------------------------------------------------------------------
  // What a batch does to each key
  // ---------------------------------------------------------------------

  /**
   * Reference definition of a key's value after a batch: the data of the last file with
   * that key that was fetched and stored, or the key's old value when there is none.
   */
  function Expected(records: seq<Record>, unavailable: set<string>, blobs: Blobs,
                    files: seq<Entry>, k: string): (r: Option<string>)
    ensures r != Lookup(records, k) ==>
      exists i :: 0 <= i < |files| && Stored(unavailable, blobs, files[i]) &&
                  DateKey(files[i].name) == k && r == Fetch(blobs, files[i])
    decreases |files|
  {
    if files == [] then Lookup(records, k)
    else
      var e := files[|files| - 1];
      if Stored(unavailable, blobs, e) && DateKey(e.name) == k then Fetch(blobs, e)
      else
        var init := files[..|files| - 1];
        assert forall i :: 0 <= i < |init| ==> init[i] == files[i];
        Expected(records, unavailable, blobs, init, k)
  }

  lemma {:induction false} FoldLookup(records: seq<Record>, unavailable: set<string>, blobs: Blobs,
                                      files: seq<Entry>, k: string)
    ensures Lookup(Fold(records, unavailable, blobs, files).records, k) ==
            Expected(records, unavailable, blobs, files, k)
    decreases |files|
  {
    if files != [] {
      FoldLookup(records, unavailable, blobs, files[..|files| - 1], k);
    }
  }

  /**
   * Failure isolation: a key that no file stored keeps its old value, whatever happened
   * to the files whose fetch or store operations failed.
   */
  lemma {:induction false} FailureIsolation(records: seq<Record>, unavailable: set<string>, blobs: Blobs,
                                            files: seq<Entry>, k: string)
    requires forall i :: 0 <= i < |files| && DateKey(files[i].name) == k ==> !Stored(unavailable, blobs, files[i])
    ensures Lookup(Fold(records, unavailable, blobs, files).records, k) == Lookup(records, k)
    decreases |files|
  {
    FoldLookup(records, unavailable, blobs, files, k);
    ExpectedUntouched(records, unavailable, blobs, files, k);
  }

  lemma {:induction false} ExpectedUntouched(records: seq<Record>, unavailable: set<string>, blobs: Blobs,
                                             files: seq<Entry>, k: string)
    requires forall i :: 0 <= i < |files| && DateKey(files[i].name) == k ==> !Stored(unavailable, blobs, files[i])
    ensures Expected(records, unavailable, blobs, files, k) == Lookup(records, k)
    decreases |files|
  {
    if files != [] {
      var init := files[..|files| - 1];
      assert forall i :: 0 <= i < |init| ==> init[i] == files[i];
      ExpectedUntouched(records, unavailable, blobs, init, k);
    }
  }

  /**
   * A failing file does not stop the others: a file that was fetched and stored, with no
   * later stored file for the same key, leaves its data under its key.
   */
  lemma {:induction false} StoredFileKept(records: seq<Record>, unavailable: set<string>, blobs: Blobs,
                                          files: seq<Entry>, i: nat)
    requires i < |files| && Stored(unavailable, blobs, files[i])
    requires forall j :: i < j < |files| && Stored(unavailable, blobs, files[j]) ==>
               DateKey(files[j].name) != DateKey(files[i].name)
    ensures Lookup(Fold(records, unavailable, blobs, files).records, DateKey(files[i].name)) ==
            Fetch(blobs, files[i])
  {
    FoldLookup(records, unavailable, blobs, files, DateKey(files[i].name));
    ExpectedLast(records, unavailable, blobs, files, i);
  }

  lemma {:induction false} ExpectedLast(records: seq<Record>, unavailable: set<string>, blobs: Blobs,
                                        files: seq<Entry>, i: nat)
    requires i < |files| && Stored(unavailable, blobs, files[i])
    requires forall j :: i < j < |files| && Stored(unavailable, blobs, files[j]) ==>
               DateKey(files[j].name) != DateKey(files[i].name)
    ensures Expected(records, unavailable, blobs, files, DateKey(files[i].name)) == Fetch(blobs, files[i])
    decreases |files|
  {
    if i < |files| - 1 {
      var init := files[..|files| - 1];
      assert forall j :: 0 <= j < |init| ==> init[j] == files[j];
      ExpectedLast(records, unavailable, blobs, init, i);
    }
  }

  /** Files that share a key and are both stored carry the same data. */
  predicate Consistent(unavailable: set<string>, blobs: Blobs, files: seq<Entry>) {
    forall i, j ::
      (0 <= i < |files| && 0 <= j < |files| &&
       Stored(unavailable, blobs, files[i]) && Stored(unavailable, blobs, files[j]) &&
       DateKey(files[i].name) == DateKey(files[j].name))
      ==> Fetch(blobs, files[i]) == Fetch(blobs, files[j])
  }

  /** Every stored file's key already holds that file's data. */
  predicate UpToDate(records: seq<Record>, unavailable: set<string>, blobs: Blobs, files: seq<Entry>) {
    forall i :: 0 <= i < |files| && Stored(unavailable, blobs, files[i]) ==>
      Lookup(records, DateKey(files[i].name)) == Fetch(blobs, files[i])
  }

  lemma {:induction false} FoldUpToDate(records: seq<Record>, unavailable: set<string>, blobs: Blobs, files: seq<Entry>)
    requires UpToDate(records, unavailable, blobs, files)
    ensures Fold(records, unavailable, blobs, files) == Batch(records, [])
    decreases |files|
  {
    if files != [] {
      var init := files[..|files| - 1];
      assert forall j :: 0 <= j < |init| ==> init[j] == files[j];
      FoldUpToDate(records, unavailable, blobs, init);
    }
  }

  lemma {:induction false} ExpectedFromSomeFile(records: seq<Record>, unavailable: set<string>, blobs: Blobs,
                                                files: seq<Entry>, i: nat)
    requires i < |files| && Stored(unavailable, blobs, files[i])
    ensures exists j :: (0 <= j < |files| && Stored(unavailable, blobs, files[j]) &&
                         DateKey(files[j].name) == DateKey(files[i].name) &&
                         Expected(records, unavailable, blobs, files, DateKey(files[i].name)) == Fetch(blobs, files[j]))
    decreases |files|
  {
    var k := DateKey(files[i].name);
    var last := files[|files| - 1];
    if Stored(unavailable, blobs, last) && DateKey(last.name) == k {
      assert files[|files| - 1] == last;
    } else {
      var init := files[..|files| - 1];
      assert i < |init| && init[i] == files[i];
      ExpectedFromSomeFile(records, unavailable, blobs, init, i);
      var j :| 0 <= j < |init| && Stored(unavailable, blobs, init[j]) && DateKey(init[j].name) == k &&
        Expected(records, unavailable, blobs, init, k) == Fetch(blobs, init[j]);
      assert init[j] == files[j];
    }
  }

  /**
   * Idempotence: running the files again over the same remote contents performs no write
   * and leaves the collection as the first run left it.
   */
  lemma FoldIdempotent(records: seq<Record>, unavailable: set<string>, blobs: Blobs, files: seq<Entry>)
    requires Consistent(unavailable, blobs, files)
    ensures var once := Fold(records, unavailable, blobs, files).records;
      Fold(once, unavailable, blobs, files) == Batch(once, [])
  {
    var once := Fold(records, unavailable, blobs, files).records;
    forall i | 0 <= i < |files| && Stored(unavailable, blobs, files[i])
      ensures Lookup(once, DateKey(files[i].name)) == Fetch(blobs, files[i])
    {
      FoldLookup(records, unavailable, blobs, files, DateKey(files[i].name));
      ExpectedFromSomeFile(records, unavailable, blobs, files, i);
    }
    FoldUpToDate(once, unavailable, blobs, files);
  }

  /** A failed listing request leaves the whole collection unchanged, with no write. */
  lemma ListingFailureKeepsStore(records: seq<Record>, unavailable: set<string>,
                                 listing: seq<Signal<seq<Entry>>>, blobs: Blobs)
    requires !(AnswerAt(listing, 0).Ok? || (AnswerAt(listing, 0).RateLimited? && AnswerAt(listing, 1).Ok?))
    ensures RunBatch(records, unavailable, listing, blobs) == Batch(records, [])
  {
    SendRetriesAtMostOnce(listing);
  }

  /** Running the whole job twice over unchanged remote contents: the second run writes nothing. */
  lemma RunBatchIdempotent(records: seq<Record>, unavailable: set<string>,
                           listing: seq<Signal<seq<Entry>>>, blobs: Blobs)
    requires Send(listing).value.Some? ==> Consistent(unavailable, blobs, ReportFiles(Send(listing).value.value))
    ensures var once := RunBatch(records, unavailable, listing, blobs).records;
      RunBatch(once, unavailable, listing, blobs) == Batch(once, [])
  {
    if Send(listing).value.Some? {
      FoldIdempotent(records, unavailable, blobs, ReportFiles(Send(listing).value.value));
    }
  }

  /** Every write of a batch is for the key of a file that was fetched and stored. */
  lemma {:induction false} WritesComeFromStoredFiles(records: seq<Record>, unavailable: set<string>,
                                                     blobs: Blobs, files: seq<Entry>, n: nat)
    requires n < |Fold(records, unavailable, blobs, files).writes|
    ensures exists i :: (0 <= i < |files| && Stored(unavailable, blobs, files[i]) &&
                         Fold(records, unavailable, blobs, files).writes[n].date == DateKey(files[i].name))
    decreases |files|
  {
    var init := files[..|files| - 1];
    var b := Fold(records, unavailable, blobs, init);
    var last := files[|files| - 1];
    if n < |b.writes| {
      WritesComeFromStoredFiles(records, unavailable, blobs, init, n);
      var i :| 0 <= i < |init| && Stored(unavailable, blobs, init[i]) && b.writes[n].date == DateKey(init[i].name);
      assert init[i] == files[i];
    } else {
      assert files[|files| - 1] == last;
    }
  }

  // ---------------------------------------------------------------------
  // The collection and the job itself
  // ---------------------------------------------------------------------

  /**
   * The `csv` collection as the job sees it. Store operations on a key in `unavailable`
   * throw (connection or server errors); `writes` records every write that took effect.
   */
  class CsvCollection {
    var records: seq<Record>
    const unavailable: set<string>
    ghost var writes: seq<Write>

    constructor (initial: seq<Record>, failing: set<string>)
      ensures records == initial && unavailable == failing && writes == []
    {
      records := initial;
      unavailable := failing;
      writes := [];
    }

    /** `Csv.findOne({date})`. */
    method FindOne(date: string) returns (r: Result<Option<Record>>)
      ensures r.Failure? <==> date in unavailable
      ensures r.Success? ==> r.value == CsvStore.FindOne(records, date)
    {
      if date in unavailable {
        r := Failure("store unavailable");
      } else {
        r := Success(CsvStore.FindOne(records, date));
      }
    }

    /** `Csv.findOneAndUpdate({date}, doc)`: replaces the first match, if any; returns it. */
    method FindOneAndUpdate(date: string, doc: Record) returns (r: Result<Option<Record>>)
      modifies this
      ensures r.Failure? <==> date in unavailable
      ensures r.Success? ==> r.value == CsvStore.FindOne(old(records), date)
      ensures records == (if r.Success? && FindIndex(old(records), date).Some?
                          then old(records)[FindIndex(old(records), date).value := doc] else old(records))
      ensures writes == (if r.Success? && FindIndex(old(records), date).Some?
                         then old(writes) + [Update(date)] else old(writes))
    {
      if date in unavailable {
        r := Failure("store unavailable");
      } else {
        r := Success(CsvStore.FindOne(records, date));
        match FindIndex(records, date)
        case Some(i) =>
          records := records[i := doc];
          writes := writes + [Update(date)];
        case None =>
      }
    }

    /** `new Csv(doc).save()`: appends the document. */
    method Save(doc: Record) returns (r: Result<Record>)
      modifies this
      ensures r.Failure? <==> doc.date in unavailable
      ensures records == (if r.Success? then old(records) + [doc] else old(records))
      ensures writes == (if r.Success? then old(writes) + [Insert(doc.date)] else old(writes))
    {
      if doc.date in unavailable {
        r := Failure("store unavailable");
      } else {
        records := records + [doc];
        writes := writes + [Insert(doc.date)];
        r := Success(doc);
      }
    }
  }

  /** The per-file callback of `getAllFiles`, inside its try/catch. */
  method HandleFile(db: CsvCollection, blobs: Blobs, entry: Entry)
    modifies db
    ensures db.records == ProcessFile(old(db.records), db.unavailable, blobs, entry).records
    ensures db.writes == old(db.writes) + ProcessFile(old(db.records), db.unavailable, blobs, entry).writes
  {
    var fetched := Send(BlobAnswers(blobs, entry.sha)).value;
    if fetched.None? {
      return;  // the blob request failed: logged, nothing stored
    }
    var data := fetched.value;
    var date := DateKey(entry.name);
    var found := db.FindOne(date);
    if found.Failure? {
      return;  // the lookup threw: logged, nothing stored
    }
    match found.value
    case Some(doc) =>
      if doc.data != data {
        var _ := db.FindOneAndUpdate(date, Record(date, data));
      }
    case None =>
      var _ := db.Save(Record(date, data));
  }

  /**
   * Handling one more file extends the fold by that file: a collection and a write log
   * that are the fold over `files[..i]` followed by file `i` are the fold over `files[..i + 1]`.
   */
  lemma FoldStep(records: seq<Record>, unavailable: set<string>, blobs: Blobs, files: seq<Entry>, i: nat,
                 w0: seq<Write>, before: seq<Write>, after: seq<Record>, ws: seq<Write>)
    requires i < |files|
    requires before == w0 + Fold(records, unavailable, blobs, files[..i]).writes
    requires after == ProcessFile(Fold(records, unavailable, blobs, files[..i]).records, unavailable, blobs, files[i]).records
    requires ws == before + ProcessFile(Fold(records, unavailable, blobs, files[..i]).records, unavailable, blobs, files[i]).writes
    ensures after == Fold(records, unavailable, blobs, files[..i + 1]).records
    ensures ws == w0 + Fold(records, unavailable, blobs, files[..i + 1]).writes
  {
    assert files[..i + 1][..i] == files[..i];
    assert files[..i + 1][i] == files[i];
  }

  /** The callback run for every report file (`githubFiles.map(...)`), one file after the other. */
  method HandleFiles(db: CsvCollection, blobs: Blobs, files: seq<Entry>)
    modifies db
    ensures db.records == Fold(old(db.records), db.unavailable, blobs, files).records
    ensures db.writes == old(db.writes) + Fold(old(db.records), db.unavailable, blobs, files).writes
  {
    ghost var start := db.records;
    var i := 0;
    while i < |files|
      invariant 0 <= i <= |files|
      invariant db.records == Fold(start, db.unavailable, blobs, files[..i]).records
      invariant db.writes == old(db.writes) + Fold(start, db.unavailable, blobs, files[..i]).writes
    {
      ghost var before := db.writes;
      HandleFile(db, blobs, files[i]);
      FoldStep(start, db.unavailable, blobs, files, i, old(db.writes), before, db.records, db.writes);
      i := i + 1;
    }
    assert files[..|files|] == files;
  }

  /** `getAllFiles`: one ingestion batch against the collection. */
  method GetAllFiles(db: CsvCollection, listing: seq<Signal<seq<Entry>>>, blobs: Blobs)
    modifies db
    ensures db.records == RunBatch(old(db.records), db.unavailable, listing, blobs).records
    ensures db.writes == old(db.writes) + RunBatch(old(db.records), db.unavailable, listing, blobs).writes
  {
    var listed := Send(listing).value;
    if listed.None? {
      return;  // the listing failed: logged, nothing processed
    }
    HandleFiles(db, blobs, ReportFiles(listed.value));
  }
}
