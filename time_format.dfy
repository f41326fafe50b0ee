/**
 * `Economy.display_time` (casinobank/casinobank.py): a number of seconds as
 * "2 days, 1 hour", largest unit first, nonzero amounts only.
 */
module TimeFormat {

  /** A unit name and its length in seconds. */
  datatype Unit = Unit(name: string, size: int)

  const Intervals: seq<Unit> := [
    Unit("weeks", 604800),
    Unit("days", 86400),
    Unit("hours", 3600),
    Unit("minutes", 60),
    Unit("seconds", 1)
  ]

  /** Units listed from largest to smallest, each of positive length. */
  predicate Descending(units: seq<Unit>) {
    && (forall i :: 0 <= i < |units| ==> units[i].size > 0)
    && (forall i, j :: 0 <= i < j < |units| ==> units[i].size > units[j].size)
  }

  /** One nonzero part of the text: an amount of one unit. */
  datatype Part = Part(amount: int, unit: Unit)

  /**
   * The loop of `display_time` over `units`: each unit takes the remaining
   * seconds floor-divided by its size (Dafny's `/` agrees with Python's `//`
   * for a positive divisor), and a nonzero amount is subtracted and kept.
   */
  function Parts(seconds: int, units: seq<Unit>): (r: seq<Part>)
    requires forall i :: 0 <= i < |units| ==> units[i].size > 0
    ensures |r| <= |units|
    ensures seconds == 0 ==> r == []
    decreases |units|
  {
    if |units| == 0 then []
    else
      var value := seconds / units[0].size;
      if value != 0 then [Part(value, units[0])] + Parts(seconds - value * units[0].size, units[1..])
      else Parts(seconds, units[1..])
  }

  /** The seconds the parts stand for. */
  function Value(parts: seq<Part>): int {
    if |parts| == 0 then 0 else parts[0].amount * parts[0].unit.size + Value(parts[1..])
  }

  /** `name.rstrip('s')`: every trailing 's' removed. */
  function RStrip(name: string): (r: string)
    ensures |r| <= |name| && r == name[..|r|]
    ensures |r| > 0 ==> r[|r| - 1] != 's'
    ensures forall i :: |r| <= i < |name| ==> name[i] == 's'
  {
    if |name| > 0 && name[|name| - 1] == 's' then RStrip(name[..|name| - 1]) else name
  }

  function DigitChar(d: int): char
    requires 0 <= d < 10
  {
    "0123456789"[d]
  }

  /** Python's `str` of an integer: decimal digits, with '-' when negative. */
  function NatToString(n: nat): string
    decreases n
  {
    if n < 10 then [DigitChar(n)] else NatToString(n / 10) + [DigitChar(n % 10)]
  }

  function IntToString(i: int): string {
    if i < 0 then "-" + NatToString(-i) else NatToString(i)
  }

  /** `"{} {}".format(value, name)`, with the singular name for an amount of 1. */
  function Render(p: Part): string {
    IntToString(p.amount) + " " + (if p.amount == 1 then RStrip(p.unit.name) else p.unit.name)
  }

  function RenderAll(parts: seq<Part>): (r: seq<string>)
    ensures |r| == |parts|
  {
    if |parts| == 0 then [] else [Render(parts[0])] + RenderAll(parts[1..])
  }

  /** `s[:n]` of Python: a negative bound counts from the end, and bounds are clipped. */
  function PyPrefix<T>(s: seq<T>, n: int): (r: seq<T>)
    ensures n >= 0 ==> r == s[..if n < |s| then n else |s|]
    ensures n < 0 ==> r == s[..if |s| + n > 0 then |s| + n else 0]
  {
    var stop := if n < 0 then |s| + n else n;
    var end := if stop < 0 then 0 else if stop > |s| then |s| else stop;
    s[..end]
  }

  /** `', '.join(items)`. */
  function Join(items: seq<string>): string {
    if |items| == 0 then ""
    else if |items| == 1 then items[0]
    else items[0] + ", " + Join(items[1..])
  }

  lemma JoinTwo(a: string, b: string)
    ensures Join([a, b]) == a + ", " + b
  {
    assert [a, b][1..] == [b];
  }

  /** The text the source returns, as a function of its inputs. */
  function Display(seconds: int, granularity: int): (r: string)
    ensures seconds == 0 || granularity == 0 ==> r == ""
  {
    Join(PyPrefix(RenderAll(Parts(seconds, Intervals)), granularity))
  }

  /** `Parts` unfolded once, with the quotient and the remainder named. */
  lemma PartsCons(seconds: int, units: seq<Unit>, value: int, rest: int)
    requires |units| > 0 && forall i :: 0 <= i < |units| ==> units[i].size > 0
    requires value == seconds / units[0].size && rest == seconds - value * units[0].size
    ensures value != 0 ==> Parts(seconds, units) == [Part(value, units[0])] + Parts(rest, units[1..])
    ensures value == 0 ==> Parts(seconds, units) == Parts(seconds, units[1..])
  {
  }

  /** One round of the loop: the first unit's part, if any, ahead of the rest. */
  lemma PartsStep(seconds: int, units: seq<Unit>, value: int, rest: int)
    requires |units| > 0 && forall i :: 0 <= i < |units| ==> units[i].size > 0
    requires value == seconds / units[0].size && rest == seconds - value * units[0].size
    ensures value != 0 ==> RenderAll(Parts(seconds, units)) == [Render(Part(value, units[0]))] + RenderAll(Parts(rest, units[1..]))
    ensures value == 0 ==> RenderAll(Parts(seconds, units)) == RenderAll(Parts(seconds, units[1..]))
  {
    PartsCons(seconds, units, value, rest);
    if value != 0 {
      var tail := Parts(rest, units[1..]);
      assert ([Part(value, units[0])] + tail)[1..] == tail;
    }
  }

  /** One round of the loop, stated on what is left to render; `line` is the round's rendered part. */
  lemma CollectStep(result: seq<string>, remaining: int, rest: seq<Unit>, target: seq<string>, value: int, next: int, line: string)
    requires |rest| > 0 && forall i :: 0 <= i < |rest| ==> rest[i].size > 0
    requires value == remaining / rest[0].size && next == remaining - value * rest[0].size
    requires line == Render(Part(value, rest[0]))
    requires result + RenderAll(Parts(remaining, rest)) == target
    ensures value != 0 ==> (result + [line]) + RenderAll(Parts(next, rest[1..])) == target
    ensures value == 0 ==> result + RenderAll(Parts(remaining, rest[1..])) == target
  {
    PartsStep(remaining, rest, value, next);
  }

  /** The loop of `display_time` over a table of units. */
  method CollectParts(seconds: int, units: seq<Unit>) returns (result: seq<string>)
    requires forall i :: 0 <= i < |units| ==> units[i].size > 0
    ensures result == RenderAll(Parts(seconds, units))
  {
    ghost var target := RenderAll(Parts(seconds, units));
    result := [];
    var remaining := seconds;
    var rest := units;
    while |rest| > 0
      invariant forall i :: 0 <= i < |rest| ==> rest[i].size > 0
      invariant result + RenderAll(Parts(remaining, rest)) == target
      decreases |rest|
    {
      var count := rest[0].size;
      var value := remaining / count;
      var next := remaining - value * count;
      if value != 0 {
        var name := rest[0].name;
        if value == 1 {
          name := RStrip(name);
        }
        var line := IntToString(value) + " " + name;
        CollectStep(result, remaining, rest, target, value, next, line);
        remaining := next;
        result := result + [line];
      } else {
        CollectStep(result, remaining, rest, target, value, next, Render(Part(value, rest[0])));
      }
      rest := rest[1..];
    }
  }

  /** `display_time(seconds, granularity)`. */
  method DisplayTime(seconds: int, granularity: int) returns (text: string)
    ensures text == Display(seconds, granularity)
  {
    var result := CollectParts(seconds, Intervals);
    text := Join(PyPrefix(result, granularity));
  }

  /** Read back, the parts add up to the seconds given (the last unit is one second). */
  lemma {:induction false} PartsAddUp(seconds: int, units: seq<Unit>)
    requires Descending(units) && |units| > 0 && units[|units| - 1].size == 1
    ensures Value(Parts(seconds, units)) == seconds
    decreases |units|
  {
    var size := units[0].size;
    var value := seconds / size;
    var rest := seconds - value * size;
    PartsCons(seconds, units, value, rest);
    if |units| == 1 {
      assert size == 1 && rest == 0;
      assert Parts(rest, units[1..]) == [] && Parts(seconds, units[1..]) == [];
    } else {
      assert Descending(units[1..]);
      if value != 0 {
        PartsAddUp(rest, units[1..]);
        var parts := [Part(value, units[0])] + Parts(rest, units[1..]);
        assert parts[1..] == Parts(rest, units[1..]);
      } else {
        PartsAddUp(seconds, units[1..]);
      }
    }
  }

  /** Each part is a nonzero amount of one of the given units. */
  predicate Nonzero(parts: seq<Part>, units: seq<Unit>) {
    forall i :: 0 <= i < |parts| ==> parts[i].amount != 0 && parts[i].unit in units
  }

  /** Larger units come first. */
  predicate LargestFirst(parts: seq<Part>) {
    forall i, j :: 0 <= i < j < |parts| ==> parts[i].unit.size > parts[j].unit.size
  }

  /** Every kept amount is nonzero and of one of the units. */
  lemma {:induction false} PartsNonzero(seconds: int, units: seq<Unit>)
    requires forall i :: 0 <= i < |units| ==> units[i].size > 0
    ensures Nonzero(Parts(seconds, units), units)
    decreases |units|
  {
    if |units| > 0 {
      var value := seconds / units[0].size;
      var rest := seconds - value * units[0].size;
      PartsCons(seconds, units, value, rest);
      var next := if value != 0 then rest else seconds;
      PartsNonzero(next, units[1..]);
      var tail := Parts(next, units[1..]);
      assert forall u :: u in units[1..] ==> u in units;
      if value != 0 {
        var parts := [Part(value, units[0])] + tail;
        assert forall i :: 1 <= i < |parts| ==> parts[i] == tail[i - 1];
      }
    }
  }

  lemma HeadIsLargest(units: seq<Unit>)
    requires Descending(units) && |units| > 0
    ensures forall u :: u in units[1..] ==> units[0].size > u.size
  {
    forall u | u in units[1..]
      ensures units[0].size > u.size
    {
      var k :| 0 <= k < |units[1..]| && units[1..][k] == u;
      assert units[k + 1] == u;
    }
  }

  /** The units of the parts appear largest first. */
  lemma {:induction false} PartsLargestFirst(seconds: int, units: seq<Unit>)
    requires Descending(units)
    ensures LargestFirst(Parts(seconds, units))
    decreases |units|
  {
    if |units| > 0 {
      var value := seconds / units[0].size;
      var rest := seconds - value * units[0].size;
      PartsCons(seconds, units, value, rest);
      assert Descending(units[1..]);
      if value != 0 {
        PartsLargestFirst(rest, units[1..]);
        PartsNonzero(rest, units[1..]);
        var tail := Parts(rest, units[1..]);
        HeadIsLargest(units);
        var parts := [Part(value, units[0])] + tail;
        assert forall i :: 1 <= i < |parts| ==> parts[i] == tail[i - 1];
      } else {
        PartsLargestFirst(seconds, units[1..]);
      }
    }
  }

  /** The amounts a non-negative count produces: positive, none worth more than the count. */
  predicate WithinCount(parts: seq<Part>, seconds: int) {
    forall i :: 0 <= i < |parts| ==> 0 < parts[i].amount && parts[i].amount * parts[i].unit.size <= seconds
  }

  /** A floor quotient times its positive divisor is at most the dividend. */
  lemma DivBelow(seconds: int, size: int)
    requires 0 <= seconds && 0 < size
    ensures 0 <= seconds / size
    ensures 0 <= seconds - (seconds / size) * size < size
  {
  }

  /** On a non-negative count each amount is positive and worth at most the count. */
  lemma {:induction false} PartsBounded(seconds: int, units: seq<Unit>)
    requires forall i :: 0 <= i < |units| ==> units[i].size > 0
    requires 0 <= seconds
    ensures WithinCount(Parts(seconds, units), seconds)
    decreases |units|
  {
    if |units| > 0 {
      var size := units[0].size;
      var value := seconds / size;
      var rest := seconds - value * size;
      PartsCons(seconds, units, value, rest);
      DivBelow(seconds, size);
      if value != 0 {
        PartsBounded(rest, units[1..]);
        var tail := Parts(rest, units[1..]);
        var parts := [Part(value, units[0])] + tail;
        assert forall i :: 1 <= i < |parts| ==> parts[i] == tail[i - 1];
      } else {
        PartsBounded(seconds, units[1..]);
      }
    }
  }

  /** The fixed table is largest first and ends with the second. */
  lemma IntervalsDescending()
    ensures Descending(Intervals) && Intervals[|Intervals| - 1].size == 1
  {
  }

  /** The singular names `display_time` prints for an amount of 1. */
  lemma SingularNames()
    ensures RStrip("weeks") == "week" && RStrip("days") == "day" && RStrip("hours") == "hour"
    ensures RStrip("minutes") == "minute" && RStrip("seconds") == "second"
  {
    assert "weeks"[..4] == "week" && "week"[3] != 's';
    assert "days"[..3] == "day" && "day"[2] != 's';
    assert "hours"[..4] == "hour" && "hour"[3] != 's';
    assert "minutes"[..6] == "minute" && "minute"[5] != 's';
    assert "seconds"[..6] == "second" && "second"[5] != 's';
  }

  /** At most `granularity` parts are printed, the leading ones. */
  lemma DisplayKeepsLeadingParts(seconds: int, granularity: int)
    ensures var all := RenderAll(Parts(seconds, Intervals));
            var shown := PyPrefix(all, granularity);
            && shown == all[..|shown|]
            && (granularity >= 0 ==> |shown| == if granularity < |all| then granularity else |all|)
  {
  }

  /** The parts of 90061 seconds: one day, one hour, one minute and one second. */
  lemma ExampleParts()
    ensures Parts(90061, Intervals) ==
              [Part(1, Intervals[1]), Part(1, Intervals[2]), Part(1, Intervals[3]), Part(1, Intervals[4])]
  {
    var u := Intervals;
    var p := [Part(1, u[1]), Part(1, u[2]), Part(1, u[3]), Part(1, u[4])];
    assert Parts(1, u[4..]) == p[3..];
    assert Parts(61, u[3..]) == p[2..];
    assert Parts(3661, u[2..]) == p[1..];
    assert Parts(90061, u[1..]) == p;
  }

  /** The two leading lines for 90061 seconds. */
  lemma ExampleLines()
    ensures PyPrefix(RenderAll(Parts(90061, Intervals)), 2) == ["1 day", "1 hour"]
  {
    SingularNames();
    ExampleParts();
    var u := Intervals;
    var p := [Part(1, u[1]), Part(1, u[2]), Part(1, u[3]), Part(1, u[4])];
    assert IntToString(1) == "1";
    assert Render(p[0]) == "1 day" && Render(p[1]) == "1 hour";
    assert RenderAll(p) == [Render(p[0]), Render(p[1])] + RenderAll(p[2..]);
  }

  /** A worked case: 90061 seconds is shown as one day and one hour. */
  lemma DisplayExample()
    ensures Display(90061, 2) == "1 day, 1 hour"
  {
    ExampleLines();
    JoinTwo("1 day", "1 hour");
  }
}
