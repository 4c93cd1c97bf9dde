/**
 * tft/services.py: turning scraped table cells into ranked rows, and the
 * text helpers the embeds use (`friendly_time_delta`, `markdown_syntax`).
 * A `td` element is modelled by its text; HTML parsing itself is not.
 */
module TftServices {
  import opened Wrappers
  import opened TftSchema

  // ---------------------------------------------------------------------------
  // str.strip()

  /** The characters Python's `str.isspace` accepts. */
  predicate IsSpace(c: char) {
    var n := c as int;
    || (9 <= n <= 13) || (28 <= n <= 32) || n == 0x85 || n == 0xA0 || n == 0x1680
    || (0x2000 <= n <= 0x200A) || n == 0x2028 || n == 0x2029 || n == 0x202F || n == 0x205F || n == 0x3000
  }

  function StripLeft(s: string): (r: string)
  {
    if s != [] && IsSpace(s[0]) then StripLeft(s[1..]) else s
  }

  function StripRight(s: string): (r: string)
  {
    if s != [] && IsSpace(s[|s| - 1]) then StripRight(s[..|s| - 1]) else s
  }

  /** `s.strip()`: `s` without its leading and trailing whitespace. */
  function Strip(s: string): (r: string)
  {
    StripRight(StripLeft(s))
  }

  /** `lstrip` cuts a run of whitespace off the front and stops at the first other character. */
  lemma {:induction false} StripLeftCutsSpace(s: string)
    ensures var r := StripLeft(s);
      && |r| <= |s| && r == s[|s| - |r|..]
      && (r != [] ==> !IsSpace(r[0]))
      && (forall i :: 0 <= i < |s| - |r| ==> IsSpace(s[i]))
  {
    if s != [] && IsSpace(s[0]) {
      StripLeftCutsSpace(s[1..]);
      var r := StripLeft(s);
      forall i | 0 <= i < |s| - |r| ensures IsSpace(s[i]) {
        if i > 0 {
          assert s[i] == s[1..][i - 1];
        }
      }
    }
  }

  /** `rstrip` cuts a run of whitespace off the end and stops at the last other character. */
  lemma {:induction false} StripRightCutsSpace(s: string)
    ensures var r := StripRight(s);
      && |r| <= |s| && r == s[..|r|]
      && (r != [] ==> !IsSpace(r[|r| - 1]))
      && (forall i :: |r| <= i < |s| ==> IsSpace(s[i]))
  {
    if s != [] && IsSpace(s[|s| - 1]) {
      StripRightCutsSpace(s[..|s| - 1]);
      var r := StripRight(s);
      forall i | |r| <= i < |s| ensures IsSpace(s[i]) {
        if i < |s| - 1 {
          assert s[i] == s[..|s| - 1][i];
        }
      }
    }
  }

  /**
   * What `strip` keeps: a contiguous part of `s` that neither begins nor ends
   * with whitespace, and only whitespace was cut off on either side.
   */
  lemma StripCutsOnlySpace(s: string)
    ensures var r := Strip(s);
      && (r != [] ==> !IsSpace(r[0]) && !IsSpace(r[|r| - 1]))
      && exists i :: 0 <= i <= |s| - |r| && r == s[i..][..|r|]
          && (forall j :: 0 <= j < i ==> IsSpace(s[j]))
          && (forall j :: i + |r| <= j < |s| ==> IsSpace(s[j]))
  {
    StripLeftCutsSpace(s);
    var l := StripLeft(s);
    StripRightCutsSpace(l);
    var i := |s| - |l|;
    var r := StripRight(l);
    if r != [] {
      assert r[0] == l[0];
    }
    assert r == s[i..][..|r|];
    forall j | i + |r| <= j < |s| ensures IsSpace(s[j]) {
      assert s[j] == l[j - i];
    }
  }

  /** Stripping twice is stripping once. */
  lemma StripIdempotent(s: string)
    ensures Strip(Strip(s)) == Strip(s)
  {
    StripCutsOnlySpace(s);
    StripKeepsTrimmed(Strip(s));
  }

  /** A string that neither begins nor ends with whitespace is its own strip. */
  lemma StripKeepsTrimmed(s: string)
    requires s != [] ==> !IsSpace(s[0]) && !IsSpace(s[|s| - 1])
    ensures Strip(s) == s
  {
  }

  // ---------------------------------------------------------------------------
  // Row grouping: parse_leaderboard and parse_competition

  /** `n` cells hold `n / size` complete groups of `size` and fewer than `size` cells more. */
  lemma GroupCount(n: nat, size: nat)
    requires size > 0
    ensures size * (n / size) <= n < size * (n / size) + size
  {
  }

  /** Row `k` of the leaderboard table: cells `4k .. 4k+3`, ranked `k + 1`; the first cell is not read. */
  function LeaderboardRow(cells: seq<string>, k: nat): (e: LeaderboardEntry)
    requires 4 * k + 3 < |cells|
  {
    LeaderboardEntry(k + 1, StrValue(Strip(cells[4 * k + 1])), StrValue(Strip(cells[4 * k + 2])),
                     StrValue(Strip(cells[4 * k + 3])))
  }

  /** The rows `zip(*[iter(cells)] * 4)` forms: complete groups of 4 only. */
  function LeaderboardRows(cells: seq<string>): (rows: seq<LeaderboardEntry>)
    ensures |rows| == |cells| / 4
    ensures forall k :: 0 <= k < |rows| ==> rows[k] == LeaderboardRow(cells, k)
  {
    seq(|cells| / 4, k requires 0 <= k < |cells| / 4 => LeaderboardRow(cells, k))
  }

  /**
   * `parse_leaderboard` over the text of the page's `td` cells in document
   * order.
   */
  method ParseLeaderboard(cells: seq<string>) returns (container: seq<LeaderboardEntry>)
    ensures container == LeaderboardRows(cells)
  {
    container := [];
    var count := |cells| / 4;
    GroupCount(|cells|, 4);
    var idx := 0;
    while idx < count
      invariant 0 <= idx <= count && 4 * count <= |cells|
      invariant |container| == idx
      invariant forall k :: 0 <= k < idx ==> container[k] == LeaderboardRow(cells, k)
    {
      var rank := idx + 1;
      var name := Strip(cells[4 * idx + 1]);
      var roi := Strip(cells[4 * idx + 2]);
      var profit := Strip(cells[4 * idx + 3]);
      container := container + [LeaderboardEntry(rank, StrValue(name), StrValue(roi), StrValue(profit))];
      idx := idx + 1;
    }
  }

  /**
   * What the rows are: one per complete group of 4 cells, so `n` cells give
   * `n / 4` rows; row `k` is ranked `k + 1` whatever the cells say, and holds
   * the stripped text of the group's cells 1, 2 and 3.
   */
  lemma LeaderboardRowsMeaning(cells: seq<string>)
    ensures var rows := LeaderboardRows(cells);
      && 4 * |rows| <= |cells| < 4 * |rows| + 4
      && forall k :: 0 <= k < |rows| ==>
           && rows[k].rank == k + 1
           && rows[k].name == StrValue(Strip(cells[4 * k + 1]))
           && rows[k].roi == StrValue(Strip(cells[4 * k + 2]))
           && rows[k].profit == StrValue(Strip(cells[4 * k + 3]))
  {
  }

  /** A trailing incomplete group is dropped: up to three extra cells change nothing. */
  lemma LeaderboardDropsIncompleteGroup(cells: seq<string>, extra: seq<string>)
    requires |cells| % 4 == 0 && |extra| < 4
    ensures LeaderboardRows(cells + extra) == LeaderboardRows(cells)
  {
    var a := LeaderboardRows(cells + extra);
    var b := LeaderboardRows(cells);
    assert |a| == |b|;
    forall k | 0 <= k < |a| ensures a[k] == b[k] {
      assert 4 * k + 3 < |cells|;
    }
  }

  /** Row `k` of a competition table: cells `5k .. 5k+4`, ranked `k + 1`; the first cell is not read. */
  function CompetitionRow(cells: seq<string>, k: nat): (e: CompetitionEntry)
    requires 5 * k + 4 < |cells|
  {
    CompetitionEntry(k + 1, StrValue(Strip(cells[5 * k + 1])), StrValue(Strip(cells[5 * k + 2])),
                     StrValue(Strip(cells[5 * k + 3])), StrValue(Strip(cells[5 * k + 4])))
  }

  function CompetitionRows(cells: seq<string>): (rows: seq<CompetitionEntry>)
    ensures |rows| == |cells| / 5
    ensures forall k :: 0 <= k < |rows| ==> rows[k] == CompetitionRow(cells, k)
  {
    seq(|cells| / 5, k requires 0 <= k < |cells| / 5 => CompetitionRow(cells, k))
  }

  /**
   * `parse_competition`. `bodies` holds, for each element with id
   * `leaderboardBody` in document order, the text of its `td` cells. The
   * loop returns while handling the first body, so later bodies are never
   * read; with no body the function falls off its end and returns None.
   */
  method ParseCompetition(bodies: seq<seq<string>>) returns (r: Option<seq<CompetitionEntry>>)
    ensures bodies == [] ==> r == None
    ensures bodies != [] ==> r == Some(CompetitionRows(bodies[0]))
  {
    if bodies == [] {
      return None;
    }
    var cells := bodies[0];
    var container: seq<CompetitionEntry> := [];
    var count := |cells| / 5;
    GroupCount(|cells|, 5);
    var idx := 0;
    while idx < count
      invariant 0 <= idx <= count && 5 * count <= |cells|
      invariant |container| == idx
      invariant forall k :: 0 <= k < idx ==> container[k] == CompetitionRow(cells, k)
    {
      var entry := CompetitionEntry(idx + 1, StrValue(Strip(cells[5 * idx + 1])), StrValue(Strip(cells[5 * idx + 2])),
                                    StrValue(Strip(cells[5 * idx + 3])), StrValue(Strip(cells[5 * idx + 4])));
      container := container + [entry];
      idx := idx + 1;
    }
    assert container == CompetitionRows(cells);
    return Some(container);
  }

  /** Competition rows: complete groups of 5, ranked 1..k in order, with the stripped text of cells 1 to 4. */
  lemma CompetitionRowsMeaning(cells: seq<string>)
    ensures var rows := CompetitionRows(cells);
      && 5 * |rows| <= |cells| < 5 * |rows| + 5
      && forall k :: 0 <= k < |rows| ==>
           && rows[k].rank == k + 1
           && rows[k].name == StrValue(Strip(cells[5 * k + 1]))
           && rows[k].roi == StrValue(Strip(cells[5 * k + 2]))
           && rows[k].back == StrValue(Strip(cells[5 * k + 3]))
           && rows[k].prize == StrValue(Strip(cells[5 * k + 4]))
  {
  }

  // ---------------------------------------------------------------------------
  // friendly_time_delta

  /** A unit of time and how many seconds it lasts. */
  datatype Period = Period(name: string, length: Positive)

  type Positive = n: int | n >= 1 witness 1

  /** The units, largest first: a year is 365 days and a month 30. */
  const Periods: seq<Period> := [
    Period("year", 60 * 60 * 24 * 365),
    Period("month", 60 * 60 * 24 * 30),
    Period("day", 60 * 60 * 24),
    Period("hour", 60 * 60),
    Period("minute", 60),
    Period("second", 1)
  ]

  /** One `"<count> <unit>[s]"` piece of the answer. */
  datatype Part = Part(period: Period, count: nat)

  function Digit(d: nat): (c: char)
    requires d < 10
    ensures '0' <= c <= '9'
  {
    ('0' as int + d) as char
  }

  /** `"%s" % n` for a natural number: its decimal digits. */
  function NatToString(n: nat): (s: string)
    ensures s != [] && forall i :: 0 <= i < |s| ==> '0' <= s[i] <= '9'
  {
    if n < 10 then [Digit(n)] else NatToString(n / 10) + [Digit(n % 10)]
  }

  /** The number a string of decimal digits denotes. */
  function DigitsValue(s: string): (n: nat)
    requires forall i :: 0 <= i < |s| ==> '0' <= s[i] <= '9'
  {
    if s == [] then 0 else 10 * DigitsValue(s[..|s| - 1]) + (s[|s| - 1] as int - '0' as int)
  }

  /** The decimal text of `n` reads back as `n`, and has no leading zero unless it is "0". */
  lemma {:induction false} NatToStringRoundTrip(n: nat)
    ensures DigitsValue(NatToString(n)) == n
    ensures NatToString(n)[0] == '0' ==> n == 0
  {
    if n >= 10 {
      NatToStringRoundTrip(n / 10);
      var s := NatToString(n);
      assert s[..|s| - 1] == NatToString(n / 10);
    }
  }

  /** The pieces `friendly_time_delta` emits for `seconds`, looking at the units from `periods[i]` on. */
  function PartsFrom(periods: seq<Period>, seconds: int, i: nat): (parts: seq<Part>)
    requires i <= |periods|
    decreases |periods| - i
  {
    if i == |periods| then []
    else
      var p := periods[i];
      if seconds > p.length then
        [Part(p, seconds / p.length)] + PartsFrom(periods, seconds % p.length, i + 1)
      else PartsFrom(periods, seconds, i + 1)
  }

  function Parts(seconds: int): seq<Part> {
    PartsFrom(Periods, seconds, 0)
  }

  /** The number of seconds the pieces add up to. */
  function Total(parts: seq<Part>): int {
    if parts == [] then 0 else parts[0].count * parts[0].period.length + Total(parts[1..])
  }

  function Label(p: Part): string {
    NatToString(p.count) + " " + p.period.name + (if p.count > 1 then "s" else "")
  }

  function Labels(parts: seq<Part>): (r: seq<string>)
    ensures |r| == |parts|
  {
    seq(|parts|, k requires 0 <= k < |parts| => Label(parts[k]))
  }

  /** `sep.join(strs)`. */
  function Join(strs: seq<string>, sep: string): string {
    if strs == [] then ""
    else if |strs| == 1 then strs[0]
    else strs[0] + sep + Join(strs[1..], sep)
  }

  /**
   * `friendly_time_delta` on the whole number of seconds left: for each unit,
   * largest first, a unit strictly shorter than what is left takes as many
   * whole units as fit, and the rest goes on to the next unit.
   */
  method FriendlyTimeDelta(total: int) returns (r: string)
    ensures r == Join(Labels(Parts(total)), ", ")
  {
    var periods := Periods;
    var seconds := total;
    var strings: seq<string> := [];
    ghost var done: seq<Part> := [];
    var i := 0;
    while i < |periods|
      invariant 0 <= i <= |periods|
      invariant done + PartsFrom(periods, seconds, i) == PartsFrom(periods, total, 0)
      invariant strings == Labels(done)
    {
      var period := periods[i];
      if seconds > period.length {
        PartsFromTakes(periods, seconds, i);
        var value := seconds / period.length;
        seconds := seconds % period.length;
        var hasS := if value > 1 then "s" else "";
        strings := strings + [NatToString(value) + " " + period.name + hasS];
        assert done + [Part(period, value)] + PartsFrom(periods, seconds, i + 1) == PartsFrom(periods, total, 0);
        done := done + [Part(period, value)];
      }
      i := i + 1;
    }
    assert done == Parts(total);
    r := Join(strings, ", ");
  }

  /** A unit shorter than what is left takes the whole units that fit, at least one. */
  lemma PartsFromTakes(periods: seq<Period>, seconds: int, i: nat)
    requires i < |periods| && seconds > periods[i].length
    ensures seconds / periods[i].length >= 1
    ensures PartsFrom(periods, seconds, i)
      == [Part(periods[i], seconds / periods[i].length)] + PartsFrom(periods, seconds % periods[i].length, i + 1)
  {
    DivMod(seconds, periods[i].length);
  }

  /** `divmod(n, d)` for a positive divisor. */
  lemma DivMod(n: int, d: Positive)
    ensures n == n / d * d + n % d && 0 <= n % d < d
    ensures n > d ==> n / d >= 1
  {
  }

  /** Units listed largest first, down to the single second. */
  ghost predicate Descending(periods: seq<Period>) {
    && periods != [] && periods[|periods| - 1].length == 1
    && forall a, b :: 0 <= a < b < |periods| ==> periods[a].length > periods[b].length
  }

  lemma PeriodsDescend()
    ensures Descending(Periods)
  {
  }

  /** Every piece is of one of the units, taken at least once, and no longer than the unit it starts from. */
  lemma {:induction false} PartsFromUnits(periods: seq<Period>, seconds: int, i: nat)
    requires Descending(periods) && i <= |periods|
    ensures forall part :: part in PartsFrom(periods, seconds, i) ==>
      && part.period in periods && part.count >= 1
      && (i < |periods| ==> part.period.length <= periods[i].length)
    decreases |periods| - i
  {
    if i < |periods| {
      var p := periods[i];
      if seconds > p.length {
        DivMod(seconds, p.length);
        var left := seconds % p.length;
        PartsFromUnits(periods, left, i + 1);
      } else {
        PartsFromUnits(periods, seconds, i + 1);
      }
    }
  }

  ghost predicate LargestFirst(parts: seq<Part>) {
    forall k :: 0 < k < |parts| ==> parts[k - 1].period.length > parts[k].period.length
  }

  /** The pieces come largest unit first, each unit strictly shorter than the one before. */
  lemma {:induction false} PartsFromOrdered(periods: seq<Period>, seconds: int, i: nat)
    requires Descending(periods) && i <= |periods|
    ensures LargestFirst(PartsFrom(periods, seconds, i))
    decreases |periods| - i
  {
    if i < |periods| {
      var p := periods[i];
      if seconds > p.length {
        var left := seconds % p.length;
        PartsFromOrdered(periods, left, i + 1);
        var rest := PartsFrom(periods, left, i + 1);
        var parts := PartsFrom(periods, seconds, i);
        assert parts == [Part(p, seconds / p.length)] + rest;
        if rest != [] {
          PartsFromUnits(periods, left, i + 1);
          assert rest[0] in rest && i + 1 < |periods|;
          assert parts[1] == rest[0];
        }
        forall k | 1 < k < |parts| ensures parts[k - 1].period.length > parts[k].period.length {
          assert parts[k - 1] == rest[k - 2] && parts[k] == rest[k - 1];
        }
      } else {
        PartsFromOrdered(periods, seconds, i + 1);
      }
    }
  }

  /** From any unit on, no piece at all comes out exactly when at most one second is left. */
  lemma {:induction false} PartsFromEmpty(periods: seq<Period>, seconds: int, i: nat)
    requires Descending(periods) && i < |periods|
    ensures PartsFrom(periods, seconds, i) == [] <==> seconds <= 1
    decreases |periods| - i
  {
    if i < |periods| - 1 && seconds <= periods[i].length {
      PartsFromEmpty(periods, seconds, i + 1);
    }
  }

  /** For a count that is not negative the pieces account for all of it, or all but the last second. */
  lemma {:induction false} PartsFromTotal(periods: seq<Period>, seconds: int, i: nat)
    requires Descending(periods) && i < |periods| && seconds >= 0
    ensures seconds - 1 <= Total(PartsFrom(periods, seconds, i)) <= seconds
    decreases |periods| - i
  {
    var p := periods[i];
    if i == |periods| - 1 {
      assert p.length == 1;
    } else if seconds > p.length {
      DivMod(seconds, p.length);
      PartsFromTotal(periods, seconds % p.length, i + 1);
    } else {
      PartsFromTotal(periods, seconds, i + 1);
    }
  }

  /** A joined list is empty only when the list is empty or holds only empty strings. */
  lemma {:induction false} JoinEmpty(strs: seq<string>, sep: string)
    requires sep != [] && forall k :: 0 <= k < |strs| ==> strs[k] != []
    ensures Join(strs, sep) == [] <==> strs == []
  {
    if |strs| > 1 {
      assert |Join(strs, sep)| >= |strs[0]|;
    }
  }

  /**
   * What `friendly_time_delta` answers: comma-separated pieces, largest unit
   * first, each unit at most once and taken at least once; the empty string
   * exactly when at most one second is left; and the pieces add up to the
   * seconds left, or to one less when a lone last second is dropped.
   */
  lemma FriendlyTimeDeltaMeaning(seconds: int)
    ensures var parts := Parts(seconds);
      && LargestFirst(parts)
      && (forall part :: part in parts ==> part.period in Periods && part.count >= 1)
      && (Join(Labels(parts), ", ") == "" <==> seconds <= 1)
      && (seconds >= 0 ==> seconds - 1 <= Total(parts) <= seconds)
  {
    PeriodsDescend();
    PartsFromUnits(Periods, seconds, 0);
    PartsFromOrdered(Periods, seconds, 0);
    PartsFromEmpty(Periods, seconds, 0);
    if seconds >= 0 {
      PartsFromTotal(Periods, seconds, 0);
    }
    JoinEmpty(Labels(Parts(seconds)), ", ");
  }

  /** A piece reads "<count> <unit>", with an "s" added exactly when the count is more than one. */
  lemma LabelPlural(part: Part)
    requires part.period in Periods
    ensures var text := Label(part);
      && text[..|NatToString(part.count)| + 1] == NatToString(part.count) + " "
      && (text[|text| - 1] == 's' <==> part.count > 1)
  {
  }

  /** An hour left reads as sixty minutes: a unit is used only for strictly more than one of it. */
  lemma AnHourReadsAsMinutes()
    ensures Parts(3600) == [Part(Period("minute", 60), 60)]
  {
  }

  /** A minute and a second read as "1 minute": a lone last second is dropped. */
  lemma LoneSecondIsDropped()
    ensures Parts(61) == [Part(Period("minute", 60), 1)]
    ensures Join(Labels(Parts(61)), ", ") == "1 minute"
  {
  }

  // ---------------------------------------------------------------------------
  // markdown_syntax

  /** The lines of `s`, split at each newline; there is always at least one. */
  function Lines(s: string): (ls: seq<string>)
    ensures |ls| >= 1
  {
    if s == [] then [""] else LinesStep(s[0], Lines(s[1..]))
  }

  /** The lines of a text that starts with `c`, given the lines of the rest. */
  function LinesStep(c: char, rest: seq<string>): (ls: seq<string>)
    requires |rest| >= 1
    ensures |ls| >= 1
  {
    if c == '\n' then [""] + rest else [[c] + rest[0]] + rest[1..]
  }

  /** `ls` with `tail` glued to its last line. */
  function GrowLast(ls: seq<string>, tail: string): (r: seq<string>)
    requires |ls| >= 1
    ensures |r| == |ls|
  {
    ls[..|ls| - 1] + [ls[|ls| - 1] + tail]
  }

  /** `"\n".join(ls)`. */
  function Unlines(ls: seq<string>): string
    requires |ls| >= 1
  {
    if |ls| == 1 then ls[0] else ls[0] + "\n" + Unlines(ls[1..])
  }

  ghost predicate NoNewline(s: string) {
    '\n' !in s
  }

  /** Splitting and joining again gives back the text. */
  lemma {:induction false} UnlinesLines(s: string)
    ensures Unlines(Lines(s)) == s
  {
    if s != [] {
      UnlinesLines(s[1..]);
      var rest := Lines(s[1..]);
      if s[0] != '\n' {
        if |rest| > 1 {
          assert rest == [rest[0]] + rest[1..];
          assert Unlines(rest) == rest[0] + "\n" + Unlines(rest[1..]);
        }
      }
    }
  }

  /** A text without newline is one line. */
  lemma {:induction false} LinesOfOneLine(s: string)
    requires NoNewline(s)
    ensures Lines(s) == [s]
  {
    if s != [] {
      assert s[0] in s && forall c :: c in s[1..] ==> c in s;
      LinesOfOneLine(s[1..]);
      assert [s[0]] + s[1..] == s;
    }
  }

  /** A first line followed by a newline comes off the front of the split. */
  lemma {:induction false} LinesAfterFirst(a: string, b: string)
    requires NoNewline(a)
    ensures Lines(a + "\n" + b) == [a] + Lines(b)
  {
    if a != [] {
      assert a[0] in a && forall c :: c in a[1..] ==> c in a;
      assert (a + "\n" + b)[1..] == a[1..] + "\n" + b;
      LinesAfterFirst(a[1..], b);
      assert [a[0]] + a[1..] == a;
    } else {
      assert a + "\n" + b == "\n" + b;
    }
  }

  /** Text without newline glued on the end lengthens the last line only. */
  lemma {:induction false} LinesWithTail(s: string, tail: string)
    requires NoNewline(tail)
    ensures Lines(s + tail) == GrowLast(Lines(s), tail)
  {
    if s == [] {
      LinesOfOneLine(tail);
      assert s + tail == tail;
    } else {
      assert (s + tail)[1..] == s[1..] + tail;
      LinesWithTail(s[1..], tail);
      LastLineGrows(s[0], Lines(s[1..]), tail);
    }
  }

  /** A step of `Lines` commutes with lengthening the last line. */
  lemma LastLineGrows(c: char, rest: seq<string>, tail: string)
    requires |rest| >= 1
    ensures LinesStep(c, GrowLast(rest, tail)) == GrowLast(LinesStep(c, rest), tail)
  {
    var n := |rest| - 1;
    var ls := LinesStep(c, rest);
    if c == '\n' {
      assert ls[..|ls| - 1] == [""] + rest[..n];
    } else if n == 0 {
      assert [c] + (rest[0] + tail) == ls[0] + tail;
    } else {
      assert ls[..|ls| - 1] == [[c] + rest[0]] + rest[1..n];
    }
  }

  /** Splitting what was joined from lines without newline gives back the lines. */
  lemma {:induction false} LinesUnlines(ls: seq<string>)
    requires |ls| >= 1 && forall k :: 0 <= k < |ls| ==> NoNewline(ls[k])
    ensures Lines(Unlines(ls)) == ls
  {
    if |ls| == 1 {
      LinesOfOneLine(ls[0]);
    } else {
      LinesUnlines(ls[1..]);
      LinesAfterFirst(ls[0], Unlines(ls[1..]));
    }
  }

  /** A line of nothing but spaces and tabs, at least one: what `^[ \t]+$` matches. */
  predicate Blank(line: string) {
    line != [] && forall c :: c in line ==> c == ' ' || c == '\t'
  }

  function ClearBlank(line: string): string {
    if Blank(line) then "" else line
  }

  /**
   * `textwrap.dedent` on a text whose first line begins with a character
   * other than space or tab: the common margin is then empty, so the only
   * change is that each line of spaces and tabs is emptied.
   */
  function Dedent(s: string): string {
    var ls := Lines(s);
    Unlines(seq(|ls|, k requires 0 <= k < |ls| => ClearBlank(ls[k])))
  }

  /** The text the f-string builds: a fence line naming the syntax, the text, and the closing fence right after it. */
  function Fenced(syntax: string, text: string): string {
    "```" + syntax + "\n" + text + "```"
  }

  /** `markdown_syntax(syntax, text)`. */
  function MarkdownSyntax(syntax: string, text: string): string {
    Strip(Dedent(Fenced(syntax, text)))
  }

  /** The lines a text splits into hold no newline. */
  lemma {:induction false} LinesHaveNoNewline(s: string)
    ensures forall k :: 0 <= k < |Lines(s)| ==> NoNewline(Lines(s)[k])
  {
    if s != [] {
      LinesHaveNoNewline(s[1..]);
    }
  }

  /** A joined text ends with its last line. */
  lemma {:induction false} UnlinesEndsWithLast(ls: seq<string>)
    requires |ls| >= 1
    ensures var text, last := Unlines(ls), ls[|ls| - 1];
      |last| <= |text| && text[|text| - |last|..] == last
  {
    if |ls| > 1 {
      UnlinesEndsWithLast(ls[1..]);
      var tail := Unlines(ls[1..]);
      var text := Unlines(ls);
      assert text == ls[0] + "\n" + tail;
      assert text[|text| - |tail|..] == tail;
    }
  }

  /** Dedenting empties exactly the lines of spaces and tabs and leaves every other line as it was. */
  lemma DedentClearsBlankLines(s: string)
    ensures var before, after := Lines(s), Lines(Dedent(s));
      && |after| == |before|
      && forall k :: 0 <= k < |before| ==> after[k] == (if Blank(before[k]) then "" else before[k])
  {
    var ls := Lines(s);
    LinesHaveNoNewline(s);
    var cleared := seq(|ls|, k requires 0 <= k < |ls| => ClearBlank(ls[k]));
    LinesUnlines(cleared);
  }

  /** A line with a character other than space or tab is not blank. */
  lemma NotBlank(line: string, i: int)
    requires 0 <= i < |line| && line[i] != ' ' && line[i] != '\t'
    ensures !Blank(line)
  {
    assert line[i] in line;
  }

  /**
   * The lines of the fenced text: the opening fence with the syntax name,
   * then the lines of `text`, the last of them with the closing fence glued on.
   */
  lemma FencedLines(syntax: string, text: string)
    requires NoNewline(syntax)
    ensures var lt := Lines(text);
      Lines(Fenced(syntax, text)) == ["```" + syntax] + lt[..|lt| - 1] + [lt[|lt| - 1] + "```"]
  {
    var a, b := "```" + syntax, text + "```";
    assert Fenced(syntax, text) == a + "\n" + b;
    assert NoNewline(a) by {
      assert forall c :: c in a ==> c == '`' || c in syntax;
    }
    LinesAfterFirst(a, b);
    LinesWithTail(text, "```");
  }

  /** Neither the first nor the last line of the fenced text is blank: both hold a backtick. */
  lemma FencedEnds(syntax: string, text: string)
    requires NoNewline(syntax)
    ensures var ls := Lines(Fenced(syntax, text));
      && |ls| >= 2 && ls[0] == "```" + syntax && !Blank(ls[0])
      && |ls[|ls| - 1]| >= 3 && ls[|ls| - 1][|ls[|ls| - 1]| - 3..] == "```" && !Blank(ls[|ls| - 1])
  {
    FencedLines(syntax, text);
    var ls := Lines(Fenced(syntax, text));
    NotBlank(ls[0], 0);
    var last := ls[|ls| - 1];
    NotBlank(last, |last| - 1);
  }

  /**
   * What `markdown_syntax` returns for a syntax name on one line: the opening
   * fence with the name and a newline first, the closing fence last, and
   * `strip` takes nothing off, since the text begins and ends with a backtick.
   */
  lemma MarkdownSyntaxFences(syntax: string, text: string)
    requires NoNewline(syntax)
    ensures var r := MarkdownSyntax(syntax, text);
      && r == Dedent(Fenced(syntax, text))
      && |r| >= |syntax| + 7
      && r[..|syntax| + 4] == "```" + syntax + "\n"
      && r[|r| - 3..] == "```"
  {
    FencedEnds(syntax, text);
    var ls := Lines(Fenced(syntax, text));
    var cleared := seq(|ls|, k requires 0 <= k < |ls| => ClearBlank(ls[k]));
    var first, last := ls[0], ls[|ls| - 1];
    assert cleared[0] == first && cleared[|ls| - 1] == last;
    var d := Unlines(cleared);
    assert d == first + "\n" + Unlines(cleared[1..]);
    UnlinesEndsWithLast(cleared);
    assert d[|d| - |last|..][|last| - 3..] == d[|d| - 3..];
    assert d[..|syntax| + 4] == first + "\n";
    StripKeepsTrimmed(d);
  }

  /**
   * When no line of `text` but its last is made of spaces and tabs alone, the
   * text comes back exactly as the f-string built it.
   */
  lemma MarkdownSyntaxKeepsText(syntax: string, text: string)
    requires NoNewline(syntax)
    requires forall k :: 0 <= k < |Lines(text)| - 1 ==> !Blank(Lines(text)[k])
    ensures MarkdownSyntax(syntax, text) == Fenced(syntax, text)
  {
    MarkdownSyntaxFences(syntax, text);
    FencedLines(syntax, text);
    FencedEnds(syntax, text);
    var ls := Lines(Fenced(syntax, text));
    var cleared := seq(|ls|, k requires 0 <= k < |ls| => ClearBlank(ls[k]));
    forall k | 0 <= k < |ls| ensures cleared[k] == ls[k] {
      if 0 < k < |ls| - 1 {
        assert ls[k] == Lines(text)[k - 1];
      }
    }
    assert cleared == ls;
    UnlinesLines(Fenced(syntax, text));
  }
}
