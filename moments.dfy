/**
 * The parts of the moment library that the routes and the client rely on, at day
 * granularity: a parsed key is a valid moment or an invalid one, `moment.max` and
 * `moment.min` pick from a list, and `isBetween` tests a range with given inclusivity.
 */
module Moments {
  import opened Wrappers
  import opened Calendar

  datatype Moment = Valid(date: Date) | Invalid

  /** Reading a stored date key as `MM-DD-YYYY`. */
  function FromKey(key: string): (m: Moment)
    ensures m.Valid? <==> ParseKey(key).Some?
    ensures m.Valid? ==> KeyDate(m.date) && FormatKey(m.date) == key
  {
    match ParseKey(key)
    case Some(d) => FormatParseKey(key); Valid(d)
    case None => Invalid
  }

  /** `format('MM-DD-YYYY')`; an invalid moment formats as "Invalid date". */
  function Format(m: Moment): (s: string)
    requires m.Valid? ==> KeyDate(m.date)
    ensures m.Valid? ==> ParseKey(s) == Some(m.date)
    ensures !m.Valid? ==> s == "Invalid date" && ParseKey(s).None?
  {
    if m.Valid? then ParseFormatKey(m.date); FormatKey(m.date) else "Invalid date"
  }

  /** `a.isAfter(b)`: false whenever either side is invalid. */
  predicate IsAfter(a: Moment, b: Moment) {
    a.Valid? && b.Valid? && Before(b.date, a.date)
  }

  /** `a.isBefore(b)`: false whenever either side is invalid. */
  predicate IsBefore(a: Moment, b: Moment) {
    a.Valid? && b.Valid? && Before(a.date, b.date)
  }

  predicate AllValid(ms: seq<Moment>) {
    forall i :: 0 <= i < |ms| ==> ms[i].Valid?
  }

  /**
   * The loop of moment's `pickBy`: starting from `res`, an element replaces it when
   * it is invalid or when it compares favourably (`isAfter` for max, `isBefore` for min).
   */
  function PickFrom(pickMax: bool, res: Moment, rest: seq<Moment>): (r: Moment)
    ensures r == res || r in rest
    decreases |rest|
  {
    if rest == [] then res
    else
      var m := rest[0];
      var better := if pickMax then IsAfter(m, res) else IsBefore(m, res);
      PickFrom(pickMax, if !m.Valid? || better then m else res, rest[1..])
  }

  /** `moment.max(ms)`; with no moments it returns the current moment `now`. */
  function Max(ms: seq<Moment>, now: Date): (r: Moment)
    ensures ms == [] ==> r == Valid(now)
    ensures ms != [] ==> r in ms
  {
    if ms == [] then Valid(now) else PickFrom(true, ms[0], ms[1..])
  }

  /** `moment.min(ms)`; with no moments it returns the current moment `now`. */
  function Min(ms: seq<Moment>, now: Date): (r: Moment)
    ensures ms == [] ==> r == Valid(now)
    ensures ms != [] ==> r in ms
  {
    if ms == [] then Valid(now) else PickFrom(false, ms[0], ms[1..])
  }

  /** Over valid moments the pick is one of them and is the latest (max) or earliest (min). */
  lemma {:induction false} PickFromExtreme(pickMax: bool, res: Moment, rest: seq<Moment>)
    requires res.Valid? && ValidDate(res.date) && AllValid(rest)
    requires forall i :: 0 <= i < |rest| ==> ValidDate(rest[i].date)
    ensures var r := PickFrom(pickMax, res, rest);
      && r.Valid?
      && (r == res || r in rest)
      && NotAfter(if pickMax then res.date else r.date, if pickMax then r.date else res.date)
      && forall i :: 0 <= i < |rest| ==>
           NotAfter(if pickMax then rest[i].date else r.date, if pickMax then r.date else rest[i].date)
    decreases |rest|
  {
    if rest != [] {
      var m := rest[0];
      var better := if pickMax then IsAfter(m, res) else IsBefore(m, res);
      var next := if !m.Valid? || better then m else res;
      assert AllValid(rest[1..]);
      PickFromExtreme(pickMax, next, rest[1..]);
      var r := PickFrom(pickMax, next, rest[1..]);
      forall i | 0 <= i < |rest|
        ensures NotAfter(if pickMax then rest[i].date else r.date, if pickMax then r.date else rest[i].date)
      {
        if i > 0 {
          assert rest[i] == rest[1..][i - 1];
        }
      }
    }
  }

  /** One invalid moment makes the pick invalid. */
  lemma {:induction false} PickFromInvalid(pickMax: bool, res: Moment, rest: seq<Moment>)
    requires !res.Valid? || !AllValid(rest)
    ensures !PickFrom(pickMax, res, rest).Valid?
    decreases |rest|
  {
    if rest != [] {
      var m := rest[0];
      var better := if pickMax then IsAfter(m, res) else IsBefore(m, res);
      var next := if !m.Valid? || better then m else res;
      if next.Valid? {
        assert res.Valid? && m.Valid?;
        var i :| 0 <= i < |rest| && !rest[i].Valid?;
        assert i > 0;
        assert !rest[1..][i - 1].Valid?;
      }
      PickFromInvalid(pickMax, next, rest[1..]);
    }
  }

  /**
   * Over a non-empty list of valid days, `moment.max` is one of them and not earlier than
   * any of them, and `moment.min` is one of them and not later than any of them.
   */
  lemma MaxMinExtreme(ms: seq<Moment>, now: Date) returns (iMax: nat, iMin: nat)
    requires |ms| > 0 && AllValid(ms)
    requires forall i :: 0 <= i < |ms| ==> ValidDate(ms[i].date)
    ensures iMax < |ms| && ms[iMax] == Max(ms, now)
    ensures iMin < |ms| && ms[iMin] == Min(ms, now)
    ensures forall i :: 0 <= i < |ms| ==>
      NotAfter(ms[i].date, Max(ms, now).date) && NotAfter(Min(ms, now).date, ms[i].date)
  {
    var rest := ms[1..];
    forall i | 0 <= i < |rest| ensures rest[i].Valid? && ValidDate(rest[i].date) {
      assert rest[i] == ms[i + 1];
    }
    PickFromExtreme(true, ms[0], rest);
    PickFromExtreme(false, ms[0], rest);
    iMax := IndexIn(ms, Max(ms, now));
    iMin := IndexIn(ms, Min(ms, now));
    forall i | 0 <= i < |ms|
      ensures NotAfter(ms[i].date, Max(ms, now).date) && NotAfter(Min(ms, now).date, ms[i].date)
    {
      if i > 0 {
        assert ms[i] == rest[i - 1];
      }
    }
  }

  /** The position of a moment that is the head of the list or in its tail. */
  lemma IndexIn(ms: seq<Moment>, m: Moment) returns (i: nat)
    requires |ms| > 0 && (m == ms[0] || m in ms[1..])
    ensures i < |ms| && ms[i] == m
  {
    if m == ms[0] {
      i := 0;
    } else {
      var j :| 0 <= j < |ms[1..]| && ms[1..][j] == m;
      i := j + 1;
    }
  }

  /** `moment(x).isBetween(from, to, undefined, incl)` with `[`/`]` inclusive and `(`/`)` exclusive ends. */
  predicate IsBetween(x: Moment, from: Moment, to: Moment, fromInclusive: bool, toInclusive: bool)
    ensures IsBetween(x, from, to, fromInclusive, toInclusive) <==>
      x.Valid? && from.Valid? && to.Valid? &&
      (if fromInclusive then NotAfter(from.date, x.date) else Before(from.date, x.date)) &&
      (if toInclusive then NotAfter(x.date, to.date) else Before(x.date, to.date))
  {
    x.Valid? && from.Valid? && to.Valid? &&
    (if fromInclusive then !IsBefore(x, from) else IsAfter(x, from)) &&
    (if toInclusive then !IsAfter(x, to) else IsBefore(x, to))
  }
}
