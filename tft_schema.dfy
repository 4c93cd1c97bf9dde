/**
 * tft/schema.py: the rows the pollers scrape, and `flatten`, which picks
 * attributes of a row by name for the table of an embed.
 */
module TftSchema {
  import opened Wrappers

  /** A value held by a row attribute: the dataclasses do not enforce their annotations, so JSON can put `None` there. */
  datatype Value = NoneValue | IntValue(i: int) | StrValue(s: string)

  datatype LeaderboardEntry = LeaderboardEntry(rank: int, name: Value, roi: Value, profit: Value)

  datatype CompetitionEntry = CompetitionEntry(rank: int, name: Value, roi: Value, back: Value, prize: Value)

  /** `getattr(entry, attr)` on a leaderboard row; None stands for AttributeError. */
  function LeaderboardAttribute(e: LeaderboardEntry, attr: string): (r: Option<Value>)
    ensures r.Some? <==> attr in {"rank", "name", "roi", "profit"}
  {
    if attr == "rank" then Some(IntValue(e.rank))
    else if attr == "name" then Some(e.name)
    else if attr == "roi" then Some(e.roi)
    else if attr == "profit" then Some(e.profit)
    else None
  }

  /** The attribute table of a row: what `getattr` finds on it. */
  function LeaderboardFields(e: LeaderboardEntry): (m: map<string, Value>)
    ensures forall attr :: (attr in m <==> LeaderboardAttribute(e, attr).Some?)
    ensures forall attr :: attr in m ==> Some(m[attr]) == LeaderboardAttribute(e, attr)
  {
    map["rank" := IntValue(e.rank), "name" := e.name, "roi" := e.roi, "profit" := e.profit]
  }

  /** `getattr(entry, attr)` on a competition row; None stands for AttributeError. */
  function CompetitionAttribute(e: CompetitionEntry, attr: string): (r: Option<Value>)
    ensures r.Some? <==> attr in {"rank", "name", "roi", "back", "prize"}
  {
    if attr == "rank" then Some(IntValue(e.rank))
    else if attr == "name" then Some(e.name)
    else if attr == "roi" then Some(e.roi)
    else if attr == "back" then Some(e.back)
    else if attr == "prize" then Some(e.prize)
    else None
  }

  /** The attribute table of a competition row: what `getattr` finds on it. */
  function CompetitionFields(e: CompetitionEntry): (m: map<string, Value>)
    ensures forall attr :: (attr in m <==> CompetitionAttribute(e, attr).Some?)
    ensures forall attr :: attr in m ==> Some(m[attr]) == CompetitionAttribute(e, attr)
  {
    map["rank" := IntValue(e.rank), "name" := e.name, "roi" := e.roi, "back" := e.back, "prize" := e.prize]
  }

  /** The values of `attrs` in `fields`, in the order asked for, with the `None` ones left out. */
  function Kept(fields: map<string, Value>, attrs: seq<string>): (r: seq<Value>)
    requires forall a :: a in attrs ==> a in fields
    ensures |r| <= |attrs|
    ensures NoneValue !in r
  {
    if attrs == [] then []
    else
      var last := attrs[|attrs| - 1];
      var front := Kept(fields, attrs[..|attrs| - 1]);
      if fields[last].NoneValue? then front else front + [fields[last]]
  }

  /** The first name of `attrs` that is not an attribute: where `getattr` raises. */
  ghost predicate FirstMissing(fields: map<string, Value>, attrs: seq<string>, k: int) {
    && 0 <= k < |attrs| && attrs[k] !in fields
    && forall j :: 0 <= j < k ==> attrs[j] in fields
  }

  /**
   * `Flatten.flatten`: the value of each named attribute in turn, skipping
   * `None`; an unknown name raises AttributeError (the failure carries it)
   * and nothing is returned.
   */
  method Flatten(fields: map<string, Value>, attrs: seq<string>) returns (r: Result<seq<Value>, string>)
    ensures r.Success? <==> forall a :: a in attrs ==> a in fields
    ensures r.Success? ==> r.value == Kept(fields, attrs)
    ensures r.Failure? ==> exists k :: FirstMissing(fields, attrs, k) && r.error == attrs[k]
  {
    var container: seq<Value> := [];
    var i := 0;
    while i < |attrs|
      invariant 0 <= i <= |attrs|
      invariant forall a :: a in attrs[..i] ==> a in fields
      invariant container == Kept(fields, attrs[..i])
    {
      if attrs[i] !in fields {
        assert FirstMissing(fields, attrs, i);
        return Failure(attrs[i]);
      }
      var value := fields[attrs[i]];
      assert attrs[..i + 1][..i] == attrs[..i];
      if !value.NoneValue? {
        container := container + [value];
      }
      i := i + 1;
    }
    assert attrs[..i] == attrs;
    r := Success(container);
  }

  /**
   * `LeaderboardEntry.flatten`, the override with the same loop: it computes
   * exactly what `Flatten.flatten` computes on the row's attribute table.
   */
  method FlattenLeaderboardEntry(e: LeaderboardEntry, attrs: seq<string>) returns (r: Result<seq<Value>, string>)
    ensures var fields := LeaderboardFields(e);
      && (r.Success? <==> forall a :: a in attrs ==> a in fields)
      && (r.Success? ==> r.value == Kept(fields, attrs))
      && (r.Failure? ==> exists k :: FirstMissing(fields, attrs, k) && r.error == attrs[k])
  {
    var container: seq<Value> := [];
    var i := 0;
    while i < |attrs|
      invariant 0 <= i <= |attrs|
      invariant forall a :: a in attrs[..i] ==> a in LeaderboardFields(e)
      invariant container == Kept(LeaderboardFields(e), attrs[..i])
    {
      var value := LeaderboardAttribute(e, attrs[i]);
      if value.None? {
        assert FirstMissing(LeaderboardFields(e), attrs, i);
        return Failure(attrs[i]);
      }
      assert attrs[..i + 1][..i] == attrs[..i];
      if !value.value.NoneValue? {
        container := container + [value.value];
      }
      i := i + 1;
    }
    assert attrs[..i] == attrs;
    r := Success(container);
  }

  /**
   * `CompetitionEntry.flatten`, inherited from `Flatten`: the shared loop run
   * on the competition row's attribute table.
   */
  method FlattenCompetitionEntry(e: CompetitionEntry, attrs: seq<string>) returns (r: Result<seq<Value>, string>)
    ensures var fields := CompetitionFields(e);
      && (r.Success? <==> forall a :: a in attrs ==> CompetitionAttribute(e, a).Some?)
      && (r.Success? ==> r.value == Kept(fields, attrs))
      && (r.Failure? ==> exists k :: FirstMissing(fields, attrs, k) && r.error == attrs[k])
  {
    r := Flatten(CompetitionFields(e), attrs);
  }

  // ---------------------------------------------------------------------------
  // What flatten keeps

  /** Order: flattening two runs of names is flattening each and concatenating. */
  lemma {:induction false} KeptConcat(fields: map<string, Value>, a: seq<string>, b: seq<string>)
    requires forall x :: x in a + b ==> x in fields
    ensures Kept(fields, a + b) == Kept(fields, a) + Kept(fields, b)
    decreases |b|
  {
    assert forall x :: x in a ==> x in a + b;
    if b != [] {
      var front := b[..|b| - 1];
      assert (a + b)[..|a + b| - 1] == a + front;
      assert forall x :: x in front ==> x in b;
      KeptConcat(fields, a, front);
    } else {
      assert a + b == a;
    }
  }

  /** Exactly the non-`None` values of the requested attributes appear. */
  lemma {:induction false} KeptMembers(fields: map<string, Value>, attrs: seq<string>, v: Value)
    requires forall a :: a in attrs ==> a in fields
    ensures v in Kept(fields, attrs) <==> v != NoneValue && exists a :: a in attrs && fields[a] == v
    decreases |attrs|
  {
    if attrs != [] {
      var front := attrs[..|attrs| - 1];
      var last := attrs[|attrs| - 1];
      assert forall a :: a in front ==> a in attrs;
      KeptMembers(fields, front, v);
      assert attrs == front + [last];
      if v != NoneValue && (exists a :: a in attrs && fields[a] == v) {
        var a :| a in attrs && fields[a] == v;
        if a != last {
          assert a in front;
        }
      }
    }
  }

  /** Nothing is dropped when none of the requested attributes is `None`. */
  lemma {:induction false} KeptAllWhenNoNone(fields: map<string, Value>, attrs: seq<string>)
    requires forall a :: a in attrs ==> a in fields && fields[a] != NoneValue
    ensures |Kept(fields, attrs)| == |attrs|
    ensures forall i :: 0 <= i < |attrs| ==> Kept(fields, attrs)[i] == fields[attrs[i]]
    decreases |attrs|
  {
    if attrs != [] {
      var front := attrs[..|attrs| - 1];
      assert forall a :: a in front ==> a in attrs;
      KeptAllWhenNoNone(fields, front);
    }
  }
}
