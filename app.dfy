/**
 * Client helpers of client/src/App.jsx: the thousands separator for the tooltip
 * numbers, the date-range guard of the date picker, the country filter and the
 * loading flags.
 */
module App {
  import opened Wrappers
  import opened Calendar
  import opened Moments
  import opened CsvStore
  import opened Seqs
  import DataRoutes

  // ---------------------------------------------------------------------
  // numberWithCommas
  // ---------------------------------------------------------------------

  predicate AllDigits(s: string) {
    forall i :: 0 <= i < |s| ==> IsDigit(s[i])
  }

  /** The decimal digits of `n`, without leading zeros. */
  function NatDigits(n: nat): (s: string)
    ensures |s| >= 1 && AllDigits(s)
    ensures s[0] != '0' || n == 0
    ensures n == 0 ==> s == "0"
  {
    if n < 10 then [DigitChar(n)] else NatDigits(n / 10) + [DigitChar(n % 10)]
  }

  /** The number a string of decimal digits spells, read from the left. */
  function DigitsValue(s: string): nat
    requires AllDigits(s)
  {
    if s == "" then 0 else DigitsValue(s[..|s| - 1]) * 10 + DigitValue(s[|s| - 1])
  }

  /** `NatDigits(n)` spells `n`. */
  lemma {:induction false} NatDigitsValue(n: nat)
    ensures DigitsValue(NatDigits(n)) == n
  {
    var s := NatDigits(n);
    if n < 10 {
      assert s[..0] == "";
    } else {
      assert s[..|s| - 1] == NatDigits(n / 10);
      NatDigitsValue(n / 10);
    }
  }

  lemma {:induction false} NatDigitsLength(n: nat)
    ensures n < 1000 <==> |NatDigits(n)| <= 3
  {
    if n >= 10 {
      NatDigitsLength(n / 10);
    }
  }

  function Abs(n: int): nat {
    if n < 0 then -n else n
  }

  function Sign(n: int): string {
    if n < 0 then "-" else ""
  }

  /** `x.toString()` of an integer. */
  function IntToString(n: int): (s: string)
    ensures |s| >= 1
    ensures n >= 0 ==> s[0] != '0' || n == 0
    ensures n == 0 ==> s == "0"
    ensures n < 0 ==> |s| >= 2 && s[1] != '0'
    ensures n >= 0 ==> AllDigits(s) && DigitsValue(s) == n
    ensures n < 0 ==> |s| >= 2 && s[0] == '-' && AllDigits(s[1..]) && DigitsValue(s[1..]) == -n
  {
    NatDigitsValue(Abs(n));
    assert n >= 0 ==> Sign(n) + NatDigits(Abs(n)) == NatDigits(Abs(n));
    assert n < 0 ==> (Sign(n) + NatDigits(Abs(n)))[1..] == NatDigits(Abs(n));
    Sign(n) + NatDigits(Abs(n))
  }

  /** Length of the run of digits that starts at `i` and cannot be extended to the right. */
  function DigitRun(s: string, i: nat): (n: nat)
    requires i <= |s|
    ensures i + n <= |s|
    ensures i + n < |s| ==> !IsDigit(s[i + n])
    decreases |s| - i
  {
    if i < |s| && IsDigit(s[i]) then 1 + DigitRun(s, i + 1) else 0
  }

  /** Every character of the run is a digit. */
  lemma {:induction false} DigitRunDigits(s: string, i: nat)
    requires i <= |s|
    ensures forall j :: i <= j < i + DigitRun(s, i) ==> IsDigit(s[j])
    decreases |s| - i
  {
    if i < |s| && IsDigit(s[i]) {
      DigitRunDigits(s, i + 1);
    }
  }

  /**
   * Whether `/(-?\d+)(\d{3})/` matches at position `p`, and if so where group 1 ends:
   * the optional '-' is taken when present, and the greedy `\d+` gives back exactly
   * three digits of the run for `\d{3}`.
   */
  function MatchAt(s: string, p: nat): Option<nat>
    requires p <= |s|
  {
    var d := if p < |s| && s[p] == '-' then p + 1 else p;
    var n := DigitRun(s, d);
    if n >= 4 then Some(d + n - 3) else None
  }

  /** The leftmost match at or after `p`, as `pattern.test` and `replace` find it. */
  function FirstMatch(s: string, p: nat): (r: Option<nat>)
    requires p <= |s|
    ensures r.None? <==> forall q: nat :: p <= q <= |s| ==> MatchAt(s, q).None?
    decreases |s| - p
  {
    match MatchAt(s, p)
    case Some(k) => Some(k)
    case None => if p == |s| then None else FirstMatch(s, p + 1)
  }

  /**
   * A match that `FirstMatch` reports is the match at some position `q`, and the pattern
   * matches at no position between `p` and `q`: it is the leftmost match.
   */
  lemma {:induction false} FirstMatchLeftmost(s: string, p: nat) returns (q: nat)
    requires p <= |s| && FirstMatch(s, p).Some?
    ensures p <= q <= |s| && FirstMatch(s, p) == MatchAt(s, q)
    ensures forall q': nat :: p <= q' < q ==> MatchAt(s, q').None?
    decreases |s| - p
  {
    if MatchAt(s, p).Some? {
      FirstMatchHere(s, p);
      q := p;
    } else {
      FirstMatchSkip(s, p);
      q := FirstMatchLeftmost(s, p + 1);
      NoMatchBefore(s, p, q);
    }
  }

  lemma FirstMatchHere(s: string, p: nat)
    requires p <= |s| && MatchAt(s, p).Some?
    ensures FirstMatch(s, p) == MatchAt(s, p)
  {
  }

  lemma FirstMatchSkip(s: string, p: nat)
    requires p <= |s| && MatchAt(s, p).None? && FirstMatch(s, p).Some?
    ensures p < |s| && FirstMatch(s, p) == FirstMatch(s, p + 1)
  {
  }

  lemma NoMatchBefore(s: string, p: nat, q: nat)
    requires p < q <= |s| && MatchAt(s, p).None?
    requires forall q': nat :: p + 1 <= q' < q ==> MatchAt(s, q').None?
    ensures forall q': nat :: p <= q' < q ==> MatchAt(s, q').None?
  {
    forall q': nat | p <= q' < q
      ensures MatchAt(s, q').None?
    {
      if q' == p {
      } else {
        assert p + 1 <= q';
      }
    }
  }

  /** ", g1, g2, ..." : each group preceded by a comma. */
  function Commas(groups: seq<string>): string {
    if groups == [] then "" else "," + groups[0] + Commas(groups[1..])
  }

  function Concat(groups: seq<string>): string {
    if groups == [] then "" else groups[0] + Concat(groups[1..])
  }

  lemma {:induction false} ConcatAppend(groups: seq<string>, g: string)
    ensures Concat(groups + [g]) == Concat(groups) + g
  {
    if groups != [] {
      assert (groups + [g])[1..] == groups[1..] + [g];
      ConcatAppend(groups[1..], g);
    }
  }

  /**
   * The digits split into thousands groups from the right: the first group has one to
   * three digits, every later one exactly three, and together they are the digits.
   */
  function Groups(ds: string): (gs: seq<string>)
    requires |ds| >= 1 && AllDigits(ds)
    ensures |gs| >= 1 && 1 <= |gs[0]| <= 3
    ensures forall i :: 1 <= i < |gs| ==> |gs[i]| == 3
    ensures forall i :: 0 <= i < |gs| ==> AllDigits(gs[i])
    ensures Concat(gs) == ds
    decreases |ds|
  {
    if |ds| <= 3 then [ds]
    else
      var gs := Groups(ds[..|ds| - 3]) + [ds[|ds| - 3..]];
      ConcatAppend(Groups(ds[..|ds| - 3]), ds[|ds| - 3..]);
      gs
  }

  /** The groups written with commas between them. */
  function JoinGroups(groups: seq<string>): string
    requires |groups| >= 1
  {
    groups[0] + Commas(groups[1..])
  }

  /** What numberWithCommas is meant to print for `n`. */
  function Grouped(n: int): string {
    Sign(n) + JoinGroups(Groups(NatDigits(Abs(n))))
  }

  function RemoveCommas(s: string): string {
    if s == "" then "" else Keep(s[0]) + RemoveCommas(s[1..])
  }

  function Keep(c: char): string {
    if c == ',' then "" else [c]
  }

  lemma {:induction false} RemoveCommasAppend(a: string, b: string)
    ensures RemoveCommas(a + b) == RemoveCommas(a) + RemoveCommas(b)
  {
    if a == "" {
      assert a + b == b;
    } else {
      assert (a + b)[0] == a[0];
      assert (a + b)[1..] == a[1..] + b;
      RemoveCommasAppend(a[1..], b);
    }
  }

  lemma {:induction false} RemoveCommasDigits(s: string)
    requires AllDigits(s)
    ensures RemoveCommas(s) == s
  {
    if s != "" {
      RemoveCommasDigits(s[1..]);
    }
  }

  lemma {:induction false} RemoveCommasGroups(groups: seq<string>)
    requires forall i :: 0 <= i < |groups| ==> AllDigits(groups[i])
    ensures RemoveCommas(Commas(groups)) == Concat(groups)
  {
    if groups != [] {
      var g, rest := groups[0], groups[1..];
      assert Commas(groups) == ("," + g) + Commas(rest);
      RemoveCommasAppend("," + g, Commas(rest));
      RemoveCommaGroup(g);
      RemoveCommasGroups(rest);
      assert Concat(groups) == g + Concat(rest);
    }
  }

  lemma RemoveCommaGroup(g: string)
    requires AllDigits(g)
    ensures RemoveCommas("," + g) == g
  {
    var s := "," + g;
    assert s[0] == ',' && s[1..] == g;
    RemoveCommasDigits(g);
  }

  /** Deleting the commas of the grouped text gives back `n.toString()`. */
  lemma GroupedRoundTrip(n: int)
    ensures RemoveCommas(Grouped(n)) == IntToString(n)
  {
    var ds := NatDigits(Abs(n));
    var gs := Groups(ds);
    RemoveCommasAppend(Sign(n), JoinGroups(gs));
    RemoveCommasAppend(gs[0], Commas(gs[1..]));
    RemoveCommasDigits(gs[0]);
    RemoveCommasGroups(gs[1..]);
    assert Concat(gs) == gs[0] + Concat(gs[1..]);
    assert RemoveCommas(Sign(n)) == Sign(n);
  }

  /** Numbers of at most three digits are printed as `toString` prints them. */
  lemma GroupedSmall(n: int)
    requires -1000 < n < 1000
    ensures Grouped(n) == IntToString(n)
  {
    NatDigitsLength(Abs(n));
  }

  lemma {:induction false} RunLength(s: string, i: nat, n: nat)
    requires i + n <= |s|
    requires forall j :: i <= j < i + n ==> IsDigit(s[j])
    requires i + n == |s| || !IsDigit(s[i + n])
    ensures DigitRun(s, i) == n
    decreases n
  {
    if n > 0 {
      RunLength(s, i + 1, n - 1);
    }
  }

  predicate FourDigitsAt(s: string, j: nat)
    requires j + 3 < |s|
  {
    IsDigit(s[j]) && IsDigit(s[j + 1]) && IsDigit(s[j + 2]) && IsDigit(s[j + 3])
  }

  /** No four consecutive digits. */
  predicate NoLongRun(s: string) {
    forall j: nat :: j + 3 < |s| ==> !FourDigitsAt(s, j)
  }

  lemma NoLongRunNoMatch(s: string)
    requires NoLongRun(s)
    ensures FirstMatch(s, 0).None?
  {
    forall q: nat | q <= |s| ensures MatchAt(s, q).None? {
      var d := if q < |s| && s[q] == '-' then q + 1 else q;
      var n := DigitRun(s, d);
      if n >= 4 {
        DigitRunDigits(s, d);
        assert FourDigitsAt(s, d);
      }
    }
  }

  lemma NoLongRunJoin(a: string, b: string)
    requires NoLongRun(a) && NoLongRun(b)
    ensures NoLongRun(a + "," + b)
  {
    var s := a + "," + b;
    forall j: nat | j + 3 < |s|
      ensures !FourDigitsAt(s, j)
    {
      if j + 3 < |a| {
        assert s[j] == a[j] && s[j + 1] == a[j + 1] && s[j + 2] == a[j + 2] && s[j + 3] == a[j + 3];
        assert !FourDigitsAt(a, j);
      } else if j > |a| {
        var k: nat := j - |a| - 1;
        assert s[j] == b[k] && s[j + 1] == b[k + 1] && s[j + 2] == b[k + 2] && s[j + 3] == b[k + 3];
        assert !FourDigitsAt(b, k);
      } else {
        assert s[|a|] == ',';
      }
    }
  }

  lemma {:induction false} NoLongRunCommas(pre: string, groups: seq<string>)
    requires NoLongRun(pre)
    requires forall i :: 0 <= i < |groups| ==> |groups[i]| == 3
    ensures NoLongRun(pre + Commas(groups))
    decreases |groups|
  {
    if groups != [] {
      NoLongRunJoin(pre, groups[0]);
      assert pre + Commas(groups) == (pre + "," + groups[0]) + Commas(groups[1..]);
      NoLongRunCommas(pre + "," + groups[0], groups[1..]);
    } else {
      assert pre + Commas(groups) == pre;
    }
  }

  /** The shape of the text in the loop: sign, a head of digits, then ",ddd" groups. */
  predicate Shaped(x: string, sign: string, head: string, groups: seq<string>) {
    && (sign == "" || sign == "-")
    && |head| >= 1 && AllDigits(head)
    && (forall i :: 0 <= i < |groups| ==> |groups[i]| == 3 && AllDigits(groups[i]))
    && x == sign + head + Commas(groups)
  }

  /** The digit run starting after the sign is exactly the head. */
  lemma HeadRun(x: string, sign: string, head: string, rest: string)
    requires |head| >= 1 && AllDigits(head)
    requires rest == "" || rest[0] == ','
    requires x == sign + head + rest
    ensures DigitRun(x, |sign|) == |head|
  {
    var d := |sign|;
    forall j | d <= j < d + |head| ensures IsDigit(x[j]) {
      assert x[j] == head[j - d];
    }
    if rest != "" {
      assert x[d + |head|] == rest[0];
    }
    RunLength(x, d, |head|);
  }

  lemma HeadMatch(x: string, sign: string, head: string, rest: string)
    requires sign == "" || sign == "-"
    requires |head| >= 4 && AllDigits(head)
    requires rest == "" || rest[0] == ','
    requires x == sign + head + rest
    ensures FirstMatch(x, 0) == Some(|sign| + |head| - 3)
  {
    HeadRun(x, sign, head, rest);
    if sign == "" {
      assert x[0] == head[0];
    } else {
      assert x[0] == '-';
    }
    assert MatchAt(x, 0) == Some(|sign| + |head| - 3);
  }

  /** On shaped text the leftmost match is the head, and only when it has four or more digits. */
  lemma FirstMatchOnShape(x: string, sign: string, head: string, groups: seq<string>)
    requires Shaped(x, sign, head, groups)
    ensures FirstMatch(x, 0) == if |head| >= 4 then Some(|sign| + |head| - 3) else None
  {
    if |head| >= 4 {
      assert groups != [] ==> Commas(groups)[0] == ',';
      HeadMatch(x, sign, head, Commas(groups));
    } else {
      assert NoLongRun(sign + head) by {
        var s := sign + head;
        if |s| == 4 {
          assert s[0] == '-';
          assert !FourDigitsAt(s, 0);
        }
      }
      NoLongRunCommas(sign + head, groups);
      NoLongRunNoMatch(x);
    }
  }

  lemma GroupsStep(head: string)
    requires |head| >= 4 && AllDigits(head)
    ensures Groups(head) == Groups(head[..|head| - 3]) + [head[|head| - 3..]]
  {
  }

  /** One replacement moves the last three digits of the head into a new group. */
  lemma ReplaceStep(x: string, sign: string, head: string, groups: seq<string>, k: nat)
    requires Shaped(x, sign, head, groups) && |head| >= 4 && k == |sign| + |head| - 3
    ensures k <= |x|
    ensures Shaped(x[..k] + "," + x[k..], sign, head[..|head| - 3], [head[|head| - 3..]] + groups)
  {
    var h, last := head[..|head| - 3], head[|head| - 3..];
    var c := Commas(groups);
    assert head == h + last;
    assert x == (sign + h) + (last + c);
    assert x[..k] == sign + h;
    assert x[k..] == last + c;
    assert Commas([last] + groups) == "," + last + c;
    assert x[..k] + "," + x[k..] == sign + h + Commas([last] + groups);
    assert AllDigits(h) && AllDigits(last);
  }

  lemma LoopEntry(n: int)
    ensures Progress(Sign(n), NatDigits(Abs(n)), IntToString(n), NatDigits(Abs(n)), [])
  {
    assert IntToString(n) == Sign(n) + NatDigits(Abs(n)) + Commas([]);
  }

  lemma DigitSlices(head: string)
    requires |head| >= 4 && AllDigits(head)
    ensures AllDigits(head[..|head| - 3]) && AllDigits(head[|head| - 3..])
  {
    var h, l := head[..|head| - 3], head[|head| - 3..];
    forall i | 0 <= i < |h| ensures IsDigit(h[i]) { assert h[i] == head[i]; }
    forall i | 0 <= i < |l| ensures IsDigit(l[i]) { assert l[i] == head[|head| - 3 + i]; }
  }

  lemma GroupsShift(digits: string, head: string, groups: seq<string>)
    requires |digits| >= 1 && AllDigits(digits)
    requires |head| >= 4 && AllDigits(head) && Groups(digits) == Groups(head) + groups
    ensures Groups(digits) == Groups(head[..|head| - 3]) + ([head[|head| - 3..]] + groups)
  {
    DigitSlices(head);
    GroupsStep(head);
    MoveLast(Groups(digits), Groups(head), Groups(head[..|head| - 3]), head[|head| - 3..], groups);
  }

  /** If `whole` is `b + rest` and `b` ends in `l`, then `l` can move to the front of `rest`. */
  lemma MoveLast<T>(whole: seq<T>, b: seq<T>, a: seq<T>, l: T, rest: seq<T>)
    requires whole == b + rest && b == a + [l]
    ensures whole == a + ([l] + rest)
  {
    assert (a + [l]) + rest == a + ([l] + rest);
  }

  /**
   * The loop invariant: `x` is the sign, the digits not yet grouped, then the groups
   * already separated by commas; and those pieces are the reference grouping of `digits`.
   */
  predicate Progress(sign: string, digits: string, x: string, head: string, groups: seq<string>) {
    Shaped(x, sign, head, groups) && |digits| >= 1 && AllDigits(digits) &&
    Groups(digits) == Groups(head) + groups
  }

  /**
   * One rewrite: the leftmost match is at the last three digits of the head, and a comma
   * inserted there moves those digits into the groups.
   */
  lemma LoopStep(sign: string, digits: string, x: string, head: string, groups: seq<string>, k: nat)
    requires Progress(sign, digits, x, head, groups) && FirstMatch(x, 0) == Some(k)
    ensures |head| >= 4 && k == |sign| + |head| - 3 && k <= |x|
    ensures Progress(sign, digits, x[..k] + "," + x[k..], head[..|head| - 3], [head[|head| - 3..]] + groups)
  {
    FirstMatchOnShape(x, sign, head, groups);
    ReplaceStep(x, sign, head, groups, k);
    GroupsShift(digits, head, groups);
  }

  lemma GroupsOfShortHead(head: string)
    requires 1 <= |head| <= 3 && AllDigits(head)
    ensures Groups(head) == [head]
  {
  }

  lemma GroupedFromGroups(n: int, head: string, groups: seq<string>)
    requires Groups(NatDigits(Abs(n))) == [head] + groups
    ensures Grouped(n) == Sign(n) + head + Commas(groups)
  {
    var gs := Groups(NatDigits(Abs(n)));
    assert gs[0] == head;
    assert gs[1..] == groups;
  }

  lemma LoopExit(n: int, x: string, head: string, groups: seq<string>)
    requires Progress(Sign(n), NatDigits(Abs(n)), x, head, groups) && FirstMatch(x, 0).None?
    ensures x == Grouped(n)
    ensures RemoveCommas(x) == IntToString(n)
    ensures -1000 < n < 1000 ==> x == IntToString(n)
    ensures |x| >= 1 && (x[0] == '-' <==> n < 0)
  {
    GroupedRoundTrip(n);
    if -1000 < n < 1000 {
      GroupedSmall(n);
    }
    FirstMatchOnShape(x, Sign(n), head, groups);
    GroupsOfShortHead(head);
    GroupedFromGroups(n, head, groups);
    assert x[|Sign(n)|] == head[0];
  }

  /**
   * `numberWithCommas(x)` for an integer `x`: `x.toString()`, then the regex replacement
   * `(-?\d+)(\d{3})` -> `$1,$2` repeated while the pattern matches.
   */
  method NumberWithCommas(n: int) returns (r: string)
    ensures r == Grouped(n)
    ensures RemoveCommas(r) == IntToString(n)
    ensures -1000 < n < 1000 ==> r == IntToString(n)
    ensures |r| >= 1 && (r[0] == '-' <==> n < 0)
  {
    var x := IntToString(n);
    ghost var sign, digits := Sign(n), NatDigits(Abs(n));
    ghost var head := digits;
    ghost var groups: seq<string> := [];
    LoopEntry(n);
    while FirstMatch(x, 0).Some?
      invariant Progress(sign, digits, x, head, groups)
      decreases |head|
    {
      var k := FirstMatch(x, 0).value;
      LoopStep(sign, digits, x, head, groups, k);
      x := x[..k] + "," + x[k..];
      head, groups := head[..|head| - 3], [head[|head| - 3..]] + groups;
    }
    LoopExit(n, x, head, groups);
    r := x;
  }

  // ---------------------------------------------------------------------
  // checkDateInRange and changeDate
  // ---------------------------------------------------------------------

  /** The `{min, max}` answer of `GET /data/range`, each end read with `moment(...)`. */
  datatype DateRange = DateRange(min: Moment, max: Moment)

  /**
   * `checkDateInRange`: `isBetween(min, max, undefined, '[)')`, so the first day is
   * selectable and the last is not. Before the range has loaded both ends read as the
   * current moment `now`, and nothing is in range.
   */
  function CheckDateInRange(d: Moment, range: Option<DateRange>, now: Date): (r: bool)
    ensures r <==>
      && range.Some? && d.Valid? && range.value.min.Valid? && range.value.max.Valid?
      && NotAfter(range.value.min.date, d.date) && Before(d.date, range.value.max.date)
  {
    var from := if range.Some? then range.value.min else Valid(now);
    var to := if range.Some? then range.value.max else Valid(now);
    IsBetween(d, from, to, true, false)
  }

  /** Both ends of a loaded range, when valid, are days printable as `MM-DD-YYYY`. */
  predicate RangeOfKeys(range: Option<DateRange>) {
    range.Some? ==>
      (range.value.min.Valid? ==> KeyDate(range.value.min.date)) &&
      (range.value.max.Valid? ==> KeyDate(range.value.max.date))
  }

  /** The selected date after `changeDate`, and the path it fetches, if any. */
  datatype Picked = Picked(date: Option<Moment>, fetch: Option<string>)

  /**
   * `changeDate`: a date outside the range is ignored, with no fetch; otherwise it
   * becomes the selected date and its data is requested as `/data/MM-DD-YYYY`, a key
   * that reads back as the same day.
   */
  function ChangeDate(current: Option<Moment>, newDate: Moment, range: Option<DateRange>, now: Date): (p: Picked)
    requires newDate.Valid? ==> ValidDate(newDate.date)
    requires RangeOfKeys(range)
    ensures !CheckDateInRange(newDate, range, now) ==> p == Picked(current, None)
    ensures CheckDateInRange(newDate, range, now) ==>
      && p.date == Some(newDate)
      && p.fetch == Some("/data/" + FormatKey(newDate.date))
      && ParseKey(FormatKey(newDate.date)) == Some(newDate.date)
  {
    if !CheckDateInRange(newDate, range, now) then Picked(current, None)
    else
      assert KeyDate(newDate.date);
      ParseFormatKey(newDate.date);
      Picked(Some(newDate), Some("/data/" + Format(newDate)))
  }

  /**
   * With the range served by `GET /range` over a store whose keys are all days, a stored
   * day can be picked exactly when it is not the latest one.
   */
  lemma StoredDaySelectable(records: seq<Record>, now: Date, i: nat)
    requires KeyDate(now) && i < |records| && DataRoutes.AllKeysAreDays(records)
    ensures var b := DataRoutes.Range(Success(records), now).body;
      CheckDateInRange(FromKey(records[i].date), Some(DateRange(FromKey(b.min), FromKey(b.max))), now)
      <==> ParseKey(records[i].date) != ParseKey(b.max)
  {
    DataRoutes.RangeIsChronological(records, now);
    var b := DataRoutes.Range(Success(records), now).body;
    assert ParseKey(records[i].date).Some?;
    var d, lo, hi := ParseKey(records[i].date).value, ParseKey(b.min).value, ParseKey(b.max).value;
    assert NotAfter(lo, d) && NotAfter(d, hi);
    BeforeIsStrictTotalOrder(d, hi, lo);
  }

  // ---------------------------------------------------------------------
  // The country filter of updateFilterData
  // ---------------------------------------------------------------------

  /** How many rows belong to country `c`. */
  function CountCountry(rows: seq<Row>, c: string): nat {
    if rows == [] then 0
    else (if rows[0].country == c then 1 else 0) + CountCountry(rows[1..], c)
  }

  /** `data.filter(i => i?.country === c)`. */
  function KeepCountry(rows: seq<Row>, c: string): (r: seq<Row>)
    ensures IsSubsequence(r, rows)
    ensures forall i :: 0 <= i < |r| ==> r[i].country == c
    ensures |r| == CountCountry(rows, c)
  {
    if rows == [] then []
    else if rows[0].country == c then [rows[0]] + KeepCountry(rows[1..], c)
    else KeepCountry(rows[1..], c)
  }

  /** A subsequence made of rows of country `c` has at most as many rows as there are. */
  lemma {:induction false} CountBound(r: seq<Row>, rows: seq<Row>, c: string)
    requires IsSubsequence(r, rows) && forall i :: 0 <= i < |r| ==> r[i].country == c
    ensures |r| <= CountCountry(rows, c)
    decreases |rows|
  {
    if r != [] && rows != [] {
      if r[0] == rows[0] {
        CountBound(r[1..], rows[1..], c);
      } else {
        CountBound(r, rows[1..], c);
      }
    }
  }

  /**
   * The contract of `KeepCountry` determines its result: the only subsequence made of
   * rows of country `c` that has all of them is the filter's answer.
   */
  lemma {:induction false} KeepCountryUnique(r: seq<Row>, rows: seq<Row>, c: string)
    requires IsSubsequence(r, rows) && forall i :: 0 <= i < |r| ==> r[i].country == c
    requires |r| == CountCountry(rows, c)
    ensures r == KeepCountry(rows, c)
    decreases |rows|
  {
    if rows != [] {
      if r == [] {
        KeepCountryUnique(r, rows[1..], c);
      } else if r[0] == rows[0] {
        KeepCountryUnique(r[1..], rows[1..], c);
      } else {
        CountBound(r, rows[1..], c);
        KeepCountryUnique(r, rows[1..], c);
      }
    }
  }

  /**
   * The rows shown for the active country: with a non-empty country name, its rows in
   * their original order; with none (or an empty name, which is falsy), all the rows.
   */
  function FilterByCountry(data: seq<Row>, active: Option<string>): (r: seq<Row>)
    ensures active.None? || active.value == "" ==> r == data
    ensures active.Some? && active.value != "" ==>
      && IsSubsequence(r, data)
      && (forall i :: 0 <= i < |r| ==> r[i].country == active.value)
      && |r| == CountCountry(data, active.value)
  {
    if active.Some? && active.value != "" then KeepCountry(data, active.value) else data
  }

  /** Filtering the filtered rows again by the same country changes nothing. */
  lemma FilterByCountryIdempotent(data: seq<Row>, active: Option<string>)
    ensures FilterByCountry(FilterByCountry(data, active), active) == FilterByCountry(data, active)
  {
    if active.Some? && active.value != "" {
      var c := active.value;
      var r := KeepCountry(data, c);
      KeepAll(r, c);
      KeepCountryUnique(r, r, c);
    }
  }

  /** A sequence of rows is a subsequence of itself, and all of them are counted. */
  lemma {:induction false} KeepAll(r: seq<Row>, c: string)
    requires forall i :: 0 <= i < |r| ==> r[i].country == c
    ensures IsSubsequence(r, r) && CountCountry(r, c) == |r|
  {
    if r != [] {
      KeepAll(r[1..], c);
    }
  }

  // ---------------------------------------------------------------------
  // Loading flags
  // ---------------------------------------------------------------------

  /** The `loading` state: one flag per pending activity. */
  type Flags = map<string, bool>

  /** The flags the app starts with: only the data is loading. */
  const InitialLoading: Flags := map["dateRange" := false, "data" := true, "filter" := false, "max" := false]

  /** `startLoading(val)`: the snapshot with flag `val` set; every other flag kept. */
  function StartLoading(loading: Flags, val: string): (r: Flags)
    ensures r.Keys == loading.Keys + {val} && r[val]
    ensures forall k :: k in loading && k != val ==> r[k] == loading[k]
  {
    loading[val := true]
  }

  /** `stopLoading(val)`: the snapshot with flag `val` cleared; every other flag kept. */
  function StopLoading(loading: Flags, val: string): (r: Flags)
    ensures r.Keys == loading.Keys + {val} && !r[val]
    ensures forall k :: k in loading && k != val ==> r[k] == loading[k]
  {
    loading[val := false]
  }

  /** `Object.values(loading).some(i => i)`. */
  predicate IsLoading(loading: Flags)
    ensures IsLoading(loading) <==> true in loading.Values
  {
    exists k :: k in loading && loading[k]
  }

  /** The spinner shows from the start, while the first data loads. */
  lemma InitiallyLoading()
    ensures IsLoading(InitialLoading)
  {
    assert InitialLoading["data"];
  }

  /** After `startLoading` the app is loading. */
  lemma StartedIsLoading(loading: Flags, val: string)
    ensures IsLoading(StartLoading(loading, val))
  {
    assert StartLoading(loading, val)[val];
  }

  /** After `stopLoading(val)` the app is loading exactly when some other flag is set. */
  lemma StoppedIsLoading(loading: Flags, val: string)
    ensures IsLoading(StopLoading(loading, val)) <==> exists k :: k in loading && k != val && loading[k]
  {
    var r := StopLoading(loading, val);
    if IsLoading(r) {
      var k :| k in r && r[k];
      assert k != val && k in loading && loading[k];
    }
    if exists k :: k in loading && k != val && loading[k] {
      var k :| k in loading && k != val && loading[k];
      assert r[k];
    }
  }
}
