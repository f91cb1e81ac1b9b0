/**
 Vintage normalization: a provider response of observations with their revisions becomes rows whose real-time
 intervals say which revision was in force on which day.  Dates are day numbers; `None` is a date, a column set or a
 number the source cannot parse.
 */
module Vintages {
  import opened Common

  /** Output type 1 carries one explicit interval per observation, output type 3 one column per vintage. */
  datatype Kind = Intervals | Columns

  /** A value is not text, text that is no finite number, or the canonical text of a number or of the missing mark. */
  datatype Text = NotText | NotANumber | Canonical(text: string)

  datatype Version = Version(start: Option<int>, end: Option<int>, value: Text)

  datatype Observation =
    | NotAMapping
    | Observation(period: Option<int>, interval: Version, columns: Option<seq<Version>>)

  datatype Response = Response(observations: Option<seq<Observation>>, count: Option<int>, offset: Option<int>)

  datatype Row = Row(period: int, start: int, end: int, value: string)

  datatype Key = Key(period: int, start: int)

  datatype Refusal =
    | ObservationsMissing | IncompletePage | ObservationInvalid | DateInvalid | ColumnInvalid
    | VintageInvalid | ValueInvalid | ConflictingVintage | OverlappingVintage

  /** 9999-12-31, the last day a date can name. */
  const FOREVER := 3_652_059

  function KeyOf(r: Row): Key { Key(r.period, r.start) }

  predicate Before(a: Key, b: Key) {
    a.period < b.period || (a.period == b.period && a.start < b.start)
  }

  function Checked(period: int, v: Version): Result<Row, Refusal> {
    if v.start.None? || v.end.None? then Err(DateInvalid)
    else if v.start.value > v.end.value || v.start.value < period || v.value.NotText? then Err(VintageInvalid)
    else if v.value.NotANumber? then Err(ValueInvalid)
    else Ok(Row(period, v.start.value, v.end.value, v.value.text))
  }

  /** What an observation contributes: its versions, or the one reason it cannot be read. */
  function Contributions(o: Observation, kind: Kind): seq<Result<Row, Refusal>> {
    if o.NotAMapping? then [Err(ObservationInvalid)]
    else if o.period.None? then [Err(DateInvalid)]
    else match kind
      case Intervals => [Checked(o.period.value, o.interval)]
      case Columns =>
        if o.columns.None? || o.columns.value == [] then [Err(ColumnInvalid)]
        else
          var vs := o.columns.value;
          seq(|vs|, i requires 0 <= i < |vs| => Checked(o.period.value, vs[i].(end := Some(FOREVER))))
  }

  function All(observations: seq<Observation>, kind: Kind): seq<Result<Row, Refusal>>
    decreases |observations|
  {
    if observations == [] then []
    else All(observations[..|observations| - 1], kind) + Contributions(observations[|observations| - 1], kind)
  }

  /** One step of the `unique` dictionary: the first unreadable or conflicting version refuses the response. */
  function Add(unique: Result<map<Key, Row>, Refusal>, c: Result<Row, Refusal>): Result<map<Key, Row>, Refusal> {
    if unique.Err? then unique
    else if c.Err? then Err(c.reason)
    else if KeyOf(c.value) in unique.value && unique.value[KeyOf(c.value)] != c.value then Err(ConflictingVintage)
    else Ok(unique.value[KeyOf(c.value) := c.value])
  }

  function Collect(cs: seq<Result<Row, Refusal>>): Result<map<Key, Row>, Refusal>
    decreases |cs|
  {
    if cs == [] then Ok(map[]) else Add(Collect(cs[..|cs| - 1]), cs[|cs| - 1])
  }

  lemma CollectOne(cs: seq<Result<Row, Refusal>>, c: Result<Row, Refusal>)
    ensures Collect(cs + [c]) == Add(Collect(cs), c)
  {
    assert (cs + [c])[..|cs|] == cs;
  }

  lemma {:induction false} RefusalStays(cs: seq<Result<Row, Refusal>>, more: seq<Result<Row, Refusal>>)
    requires Collect(cs).Err?
    ensures Collect(cs + more) == Collect(cs)
    decreases |more|
  {
    if more == [] {
      assert cs + more == cs;
    } else {
      RefusalStays(cs, more[..|more| - 1]);
      assert cs + more == cs + more[..|more| - 1] + [more[|more| - 1]];
      CollectOne(cs + more[..|more| - 1], more[|more| - 1]);
    }
  }

  /** Every version is readable and versions with one period and start agree. */
  ghost predicate Agreeing(cs: seq<Result<Row, Refusal>>) {
    && (forall c :: c in cs ==> c.Ok?)
    && (forall c, d :: c in cs && d in cs && c.Ok? && d.Ok? && KeyOf(c.value) == KeyOf(d.value) ==> c == d)
  }

  ghost predicate Holds(unique: map<Key, Row>, cs: seq<Result<Row, Refusal>>) {
    && (forall k :: k in unique ==> KeyOf(unique[k]) == k && Ok(unique[k]) in cs)
    && (forall c :: c in cs && c.Ok? ==> KeyOf(c.value) in unique && unique[KeyOf(c.value)] == c.value)
  }

  /** A response is collected exactly when its versions agree, and then the dictionary holds just those versions. */
  lemma {:induction false} CollectMeaning(cs: seq<Result<Row, Refusal>>)
    ensures Collect(cs).Ok? <==> Agreeing(cs)
    ensures Collect(cs).Ok? ==> Holds(Collect(cs).value, cs)
    decreases |cs|
  {
    if cs != [] {
      var init, last := cs[..|cs| - 1], cs[|cs| - 1];
      assert cs == init + [last];
      CollectMeaning(init);
      assert forall c :: c in init ==> c in cs;
      assert last in cs;
      if Collect(cs).Ok? {
        AddHolds(init, last);
      } else if Agreeing(cs) {
        assert Agreeing(init);
      }
    }
  }

  lemma AddHolds(init: seq<Result<Row, Refusal>>, last: Result<Row, Refusal>)
    requires Collect(init).Ok? && Holds(Collect(init).value, init) && Agreeing(init)
    requires Add(Collect(init), last).Ok?
    ensures Holds(Add(Collect(init), last).value, init + [last]) && Agreeing(init + [last])
  {
    var was := Collect(init).value;
    var unique := Add(Collect(init), last).value;
    assert forall c :: c in init + [last] <==> c in init || c == last;
  }

  /** The dictionary depends on which versions are listed, not on their order. */
  lemma CollectUnordered(cs: seq<Result<Row, Refusal>>, ds: seq<Result<Row, Refusal>>)
    requires forall c :: c in cs <==> c in ds
    ensures Collect(cs).Ok? <==> Collect(ds).Ok?
    ensures Collect(cs).Ok? ==> Collect(cs) == Collect(ds)
  {
    CollectMeaning(cs);
    CollectMeaning(ds);
    if Collect(cs).Ok? {
      var a, b := Collect(cs).value, Collect(ds).value;
      forall k ensures k in a <==> k in b {
        if k in a { assert Ok(a[k]) in ds; }
        if k in b { assert Ok(b[k]) in cs; }
      }
      assert a == b;
    }
  }

  lemma {:induction false} AllHoldsEach(observations: seq<Observation>, kind: Kind, c: Result<Row, Refusal>)
    ensures c in All(observations, kind) <==> exists o :: o in observations && c in Contributions(o, kind)
    decreases |observations|
  {
    if observations != [] {
      var init, last := observations[..|observations| - 1], observations[|observations| - 1];
      AllHoldsEach(init, kind, c);
      assert observations == init + [last];
    }
  }

  // ------------------------------------------------------------------- sorting and closing

  ghost predicate Sorted(rows: seq<Row>) {
    forall i, j :: 0 <= i < j < |rows| ==> Before(KeyOf(rows[i]), KeyOf(rows[j]))
  }

  ghost predicate Lists(rows: seq<Row>, unique: map<Key, Row>) {
    && (forall i :: 0 <= i < |rows| ==> KeyOf(rows[i]) in unique && unique[KeyOf(rows[i])] == rows[i])
    && (forall k :: k in unique ==> unique[k] in rows)
  }

  predicate SamePeriod(rows: seq<Row>, i: nat)
    requires i < |rows|
  {
    i + 1 < |rows| && rows[i].period == rows[i + 1].period
  }

  /** A vintage column is in force until the day before the next one of its observation date. */
  function Closed(rows: seq<Row>, i: nat, kind: Kind): Row
    requires i < |rows|
  {
    if kind.Columns? && SamePeriod(rows, i) then rows[i].(end := rows[i + 1].start - 1) else rows[i]
  }

  predicate OverlapsNext(rows: seq<Row>, i: nat, kind: Kind)
    requires i < |rows|
  {
    kind.Intervals? && SamePeriod(rows, i) && rows[i].end >= rows[i + 1].start
  }

  ghost predicate Overlapping(rows: seq<Row>, kind: Kind) {
    exists i :: 0 <= i < |rows| && OverlapsNext(rows, i, kind)
  }

  lemma {:induction false} LeastKey(keys: set<Key>) returns (least: Key)
    requires keys != {}
    ensures least in keys && forall k :: k in keys ==> k == least || Before(least, k)
    decreases |keys|
  {
    var k :| k in keys;
    var rest := keys - {k};
    assert keys == {k} + rest;
    if rest == {} {
      least := k;
    } else {
      var l := LeastKey(rest);
      least := if Before(k, l) then k else l;
    }
  }

  /** The dictionary's rows by ascending key. */
  method SortedRows(unique: map<Key, Row>) returns (rows: seq<Row>)
    requires forall k :: k in unique ==> KeyOf(unique[k]) == k
    ensures Sorted(rows) && Lists(rows, unique)
  {
    rows := [];
    var left := unique.Keys;
    while left != {}
      invariant left <= unique.Keys && Sorted(rows)
      invariant forall i :: 0 <= i < |rows| ==> KeyOf(rows[i]) in unique && unique[KeyOf(rows[i])] == rows[i]
      invariant forall i, k :: 0 <= i < |rows| && k in left ==> Before(KeyOf(rows[i]), k)
      invariant forall k :: k in unique && k !in left ==> unique[k] in rows
      decreases |left|
    {
      ghost var first := LeastKey(left);
      var k :| k in left && forall j :: j in left ==> j == k || Before(k, j);
      rows, left := rows + [unique[k]], left - {k};
    }
  }

  /** The rows of a dictionary in order are unique. */
  lemma {:induction false} SortedUnique(a: seq<Row>, b: seq<Row>)
    requires Sorted(a) && Sorted(b) && forall r :: r in a <==> r in b
    ensures a == b
    decreases |a|
  {
    if a != [] { assert a[0] in b; }
    if b != [] { assert b[0] in a; }
    if a != [] && b != [] {
      assert a[|a| - 1] in b && b[|b| - 1] in a;
      var i :| 0 <= i < |b| && b[i] == a[|a| - 1];
      var j :| 0 <= j < |a| && a[j] == b[|b| - 1];
      var p, q := a[..|a| - 1], b[..|b| - 1];
      assert a[|a| - 1] == b[|b| - 1];
      forall r ensures r in p <==> r in q {
        if r in p { var m :| 0 <= m < |p| && p[m] == r; assert a[m] == r; assert r in b; }
        if r in q { var m :| 0 <= m < |q| && q[m] == r; assert b[m] == r; assert r in a; }
      }
      SortedUnique(p, q);
    }
  }

  /** What normalization makes of the collected versions. */
  ghost predicate Normal(unique: map<Key, Row>, kind: Kind, rows: seq<Row>) {
    exists sorted :: NormalFrom(unique, kind, rows, sorted)
  }

  ghost predicate NormalFrom(unique: map<Key, Row>, kind: Kind, rows: seq<Row>, sorted: seq<Row>) {
    && Sorted(sorted) && Lists(sorted, unique) && !Overlapping(sorted, kind)
    && |rows| == |sorted| && forall i :: 0 <= i < |rows| ==> rows[i] == Closed(sorted, i, kind)
  }

  method CloseRows(sorted: seq<Row>, kind: Kind) returns (res: Result<seq<Row>, Refusal>)
    requires Sorted(sorted)
    ensures res == Err(OverlappingVintage) <==> Overlapping(sorted, kind)
    ensures res.Ok? <==> !Overlapping(sorted, kind)
    ensures res.Ok? ==> |res.value| == |sorted| && forall i :: 0 <= i < |sorted| ==> res.value[i] == Closed(sorted, i, kind)
  {
    var rows := sorted;
    for index := 0 to Max(0, |sorted| - 1)
      invariant |rows| == |sorted|
      invariant forall i :: 0 <= i < index ==> rows[i] == Closed(sorted, i, kind) && !OverlapsNext(sorted, i, kind)
      invariant forall i :: index <= i < |rows| ==> rows[i] == sorted[i]
    {
      var following := rows[index + 1];
      if rows[index].period != following.period { continue; }
      if kind.Columns? {
        rows := rows[index := rows[index].(end := following.start - 1)];
      } else if rows[index].end >= following.start {
        assert OverlapsNext(sorted, index, kind);
        return Err(OverlappingVintage);
      }
    }
    res := Ok(rows);
  }

  // ------------------------------------------------------------------- the whole operation

  /** The inner loop: one observation's versions enter `unique` one by one. */
  method AddVersions(unique: map<Key, Row>, versions: seq<Result<Row, Refusal>>, ghost before: seq<Result<Row, Refusal>>)
    returns (res: Result<map<Key, Row>, Refusal>)
    requires Ok(unique) == Collect(before)
    ensures res == Collect(before + versions)
  {
    var found := unique;
    assert before + versions[..0] == before;
    for j := 0 to |versions|
      invariant Ok(found) == Collect(before + versions[..j])
    {
      var v := versions[j];
      assert before + versions[..j + 1] == before + versions[..j] + [v];
      CollectOne(before + versions[..j], v);
      if v.Err? || (KeyOf(v.value) in found && found[KeyOf(v.value)] != v.value) {
        PrefixRefuses(before + versions[..j + 1], before + versions);
        return Err(if v.Err? then v.reason else ConflictingVintage);
      }
      found := found[KeyOf(v.value) := v.value];
    }
    assert versions[..|versions|] == versions;
    res := Ok(found);
  }

  /** The loops over observations and their versions; the first refusal ends them. */
  method CollectVersions(observations: seq<Observation>, kind: Kind) returns (res: Result<map<Key, Row>, Refusal>)
    ensures res == Collect(All(observations, kind))
  {
    var unique: map<Key, Row> := map[];
    for i := 0 to |observations|
      invariant Ok(unique) == Collect(All(observations[..i], kind))
    {
      var versions := Contributions(observations[i], kind);
      AllOne(observations, kind, i);
      var more := AddVersions(unique, versions, All(observations[..i], kind));
      if more.Err? {
        AllPrefix(observations, kind, i + 1);
        PrefixRefuses(All(observations[..i + 1], kind), All(observations, kind));
        return more;
      }
      unique := more.value;
    }
    assert observations[..|observations|] == observations;
    res := Ok(unique);
  }

  lemma AllOne(observations: seq<Observation>, kind: Kind, i: nat)
    requires i < |observations|
    ensures All(observations[..i + 1], kind) == All(observations[..i], kind) + Contributions(observations[i], kind)
  {
    assert observations[..i + 1][..i] == observations[..i];
  }

  lemma {:induction false} AllPrefix(observations: seq<Observation>, kind: Kind, i: nat)
    requires i <= |observations|
    ensures All(observations[..i], kind) <= All(observations, kind)
    decreases |observations| - i
  {
    if i == |observations| {
      assert observations[..i] == observations;
    } else {
      AllOne(observations, kind, i);
      AllPrefix(observations, kind, i + 1);
    }
  }

  /** A version that refuses the response refuses it whatever follows. */
  lemma PrefixRefuses(cs: seq<Result<Row, Refusal>>, longer: seq<Result<Row, Refusal>>)
    requires cs <= longer && Collect(cs).Err?
    ensures Collect(longer) == Collect(cs)
  {
    RefusalStays(cs, longer[|cs|..]);
    assert longer == cs + longer[|cs|..];
  }

  predicate Complete(r: Response) {
    r.observations.Some? && r.count == Some(|r.observations.value|) && r.offset == Some(0)
  }

  /** Which answer a response gets. */
  ghost predicate Answers(r: Response, kind: Kind, res: Result<seq<Row>, Refusal>) {
    if r.observations.None? then res == Err(ObservationsMissing)
    else if !Complete(r) then res == Err(IncompletePage)
    else
      var unique := Collect(All(r.observations.value, kind));
      if unique.Err? then res == Err(unique.reason)
      else if res.Ok? then Normal(unique.value, kind, res.value)
      else res == Err(OverlappingVintage) && exists rows :: Sorted(rows) && Lists(rows, unique.value) && Overlapping(rows, kind)
  }

  method NormalizeVintages(r: Response, kind: Kind) returns (res: Result<seq<Row>, Refusal>)
    ensures Answers(r, kind, res)
    ensures res.Ok? <==> Acceptable(r, kind)
    ensures res.Ok? ==> RowsMean(r.observations.value, kind, res.value)
  {
    res := AnswerResponse(r, kind);
    AcceptedIff(r, kind, res);
    if res.Ok? { AcceptedRows(r, kind, res.value); }
  }

  method AnswerResponse(r: Response, kind: Kind) returns (res: Result<seq<Row>, Refusal>)
    ensures Answers(r, kind, res)
  {
    if r.observations.None? { return Err(ObservationsMissing); }
    if !Complete(r) { return Err(IncompletePage); }
    var unique := CollectVersions(r.observations.value, kind);
    if unique.Err? { return Err(unique.reason); }
    CollectMeaning(All(r.observations.value, kind));
    var rows := SortedRows(unique.value);
    res := CloseRows(rows, kind);
    assert res.Ok? ==> NormalFrom(unique.value, kind, res.value, rows);
  }

  lemma ListsSame(a: seq<Row>, b: seq<Row>, unique: map<Key, Row>)
    requires Sorted(a) && Sorted(b) && Lists(a, unique) && Lists(b, unique)
    ensures a == b
  {
    forall r ensures r in a <==> r in b {
      if r in a { assert unique[KeyOf(r)] in b; }
      if r in b { assert unique[KeyOf(r)] in a; }
    }
    SortedUnique(a, b);
  }

  lemma SameObservations(a: seq<Observation>, b: seq<Observation>, kind: Kind)
    requires multiset(a) == multiset(b)
    ensures forall c :: c in All(a, kind) <==> c in All(b, kind)
  {
    forall o ensures o in a <==> o in b { assert o in multiset(a) <==> o in multiset(b); }
    forall c ensures c in All(a, kind) <==> c in All(b, kind) {
      AllHoldsEach(a, kind, c);
      AllHoldsEach(b, kind, c);
    }
  }

  lemma AnswerUnique(unique: map<Key, Row>, kind: Kind, a: seq<Row>, b: seq<Row>)
    requires Normal(unique, kind, a) && Normal(unique, kind, b)
    ensures a == b
  {
    var sa :| NormalFrom(unique, kind, a, sa);
    var sb :| NormalFrom(unique, kind, b, sb);
    ListsSame(sa, sb, unique);
  }

  lemma AnswerNotBoth(unique: map<Key, Row>, kind: Kind, a: seq<Row>, rows: seq<Row>)
    requires Normal(unique, kind, a) && Sorted(rows) && Lists(rows, unique)
    ensures !Overlapping(rows, kind)
  {
    var sa :| NormalFrom(unique, kind, a, sa);
    ListsSame(sa, rows, unique);
  }

  /** The order in which the provider lists its observations decides neither acceptance nor the rows. */
  lemma OrderIrrelevant(a: Response, b: Response, kind: Kind, x: Result<seq<Row>, Refusal>, y: Result<seq<Row>, Refusal>)
    requires Answers(a, kind, x) && Answers(b, kind, y)
    requires a.count == b.count && a.offset == b.offset && a.observations.Some? && b.observations.Some?
    requires multiset(a.observations.value) == multiset(b.observations.value)
    ensures x.Ok? <==> y.Ok?
    ensures x.Ok? ==> x == y
  {
    var os, ps := a.observations.value, b.observations.value;
    assert |os| == |multiset(os)| == |ps|;
    SameObservations(os, ps, kind);
    CollectUnordered(All(os, kind), All(ps, kind));
    if Complete(a) && Collect(All(os, kind)).Ok? {
      var unique := Collect(All(os, kind)).value;
      if x.Ok? && y.Ok? {
        AnswerUnique(unique, kind, x.value, y.value);
      } else if x.Ok? {
        var rows :| Sorted(rows) && Lists(rows, unique) && Overlapping(rows, kind);
        AnswerNotBoth(unique, kind, x.value, rows);
      } else if y.Ok? {
        var rows :| Sorted(rows) && Lists(rows, unique) && Overlapping(rows, kind);
        AnswerNotBoth(unique, kind, y.value, rows);
      }
    }
  }

  // ------------------------------------------------------------------- what acceptance means

  /** The version can be read: dated, not before its observation date, not ending before it starts, and a number or the
      missing mark. */
  ghost predicate ReadsAs(v: Version, row: Row) {
    && v.start == Some(row.start) && v.end == Some(row.end) && v.value == Canonical(row.value)
    && row.period <= row.start <= row.end
  }

  ghost predicate CanRead(v: Version, period: int) {
    v.start.Some? && v.end.Some? && v.value.Canonical? && period <= v.start.value <= v.end.value
  }

  /** The observation states this version; a vintage column states no end, and runs to the last day there is. */
  ghost predicate States(o: Observation, kind: Kind, row: Row) {
    && o.Observation? && o.period == Some(row.period)
    && match kind
       case Intervals => ReadsAs(o.interval, row)
       case Columns =>
         && o.columns.Some? && row.end == 3_652_059
         && exists v :: v in o.columns.value && ReadsAs(v.(end := Some(3_652_059)), row)
  }

  /** Nothing in the observation is unreadable. */
  ghost predicate Readable(o: Observation, kind: Kind) {
    && o.Observation? && o.period.Some?
    && match kind
       case Intervals => CanRead(o.interval, o.period.value)
       case Columns =>
         && o.columns.Some? && o.columns.value != []
         && forall v :: v in o.columns.value ==> CanRead(v.(end := Some(3_652_059)), o.period.value)
  }

  ghost predicate Offered(observations: seq<Observation>, kind: Kind, row: Row) {
    exists o :: o in observations && States(o, kind, row)
  }

  lemma CheckedReads(period: int, v: Version)
    ensures Checked(period, v).Ok? <==> CanRead(v, period)
    ensures forall row: Row :: Checked(period, v) == Ok(row) <==> row.period == period && ReadsAs(v, row)
  {
  }

  lemma ColumnsState(o: Observation, c: Result<Row, Refusal>)
    requires o.Observation? && o.period.Some? && o.columns.Some? && o.columns.value != []
    ensures c in Contributions(o, Columns) <==>
            exists v :: v in o.columns.value && c == Checked(o.period.value, v.(end := Some(FOREVER)))
  {
    var vs, cs := o.columns.value, Contributions(o, Columns);
    if c in cs {
      var i :| 0 <= i < |cs| && cs[i] == c;
      assert vs[i] in vs;
    }
    if exists v :: v in vs && c == Checked(o.period.value, v.(end := Some(FOREVER))) {
      var v :| v in vs && c == Checked(o.period.value, v.(end := Some(FOREVER)));
      var i :| 0 <= i < |vs| && vs[i] == v;
      assert cs[i] == c;
    }
  }

  lemma ContributesStated(o: Observation, kind: Kind, row: Row)
    ensures Ok(row) in Contributions(o, kind) <==> States(o, kind, row)
  {
    if o.Observation? && o.period.Some? {
      if kind.Intervals? {
        CheckedReads(o.period.value, o.interval);
      } else if o.columns.Some? && o.columns.value != [] {
        ColumnsState(o, Ok(row));
        forall v { CheckedReads(o.period.value, v); }
      }
    }
  }

  lemma ContributesReadable(o: Observation, kind: Kind)
    ensures (forall c :: c in Contributions(o, kind) ==> c.Ok?) <==> Readable(o, kind)
  {
    if o.NotAMapping? || o.period.None? {
      assert Contributions(o, kind)[0] in Contributions(o, kind);
    } else if kind.Intervals? {
      assert Contributions(o, kind)[0] in Contributions(o, kind);
      CheckedReads(o.period.value, o.interval);
    } else if o.columns.None? || o.columns.value == [] {
      assert Contributions(o, kind)[0] in Contributions(o, kind);
    } else {
      ColumnsReadable(o);
    }
  }

  lemma ColumnsReadable(o: Observation)
    requires o.Observation? && o.period.Some? && o.columns.Some? && o.columns.value != []
    ensures (forall c :: c in Contributions(o, Columns) ==> c.Ok?) <==> Readable(o, Columns)
  {
    var vs, period := o.columns.value, o.period.value;
    forall c ensures c in Contributions(o, Columns) <==> exists v :: v in vs && c == Checked(period, v.(end := Some(FOREVER))) {
      ColumnsState(o, c);
    }
    forall v { CheckedReads(period, v); }
    if forall c :: c in Contributions(o, Columns) ==> c.Ok? {
      forall v | v in vs ensures CanRead(v.(end := Some(3_652_059)), period) {
        var c := Checked(period, v.(end := Some(FOREVER)));
        assert c in Contributions(o, Columns);
      }
    }
  }

  lemma AllOffers(observations: seq<Observation>, kind: Kind, row: Row)
    ensures Ok(row) in All(observations, kind) <==> Offered(observations, kind, row)
  {
    AllHoldsEach(observations, kind, Ok(row));
    forall o ensures Ok(row) in Contributions(o, kind) <==> States(o, kind, row) { ContributesStated(o, kind, row); }
  }

  lemma AllReadable(observations: seq<Observation>, kind: Kind)
    ensures (forall c :: c in All(observations, kind) ==> c.Ok?) <==> forall o :: o in observations ==> Readable(o, kind)
  {
    forall c ensures c in All(observations, kind) <==> exists o :: o in observations && c in Contributions(o, kind) {
      AllHoldsEach(observations, kind, c);
    }
    forall o ensures (forall c :: c in Contributions(o, kind) ==> c.Ok?) <==> Readable(o, kind) { ContributesReadable(o, kind); }
  }

  /** Versions of one date and start are one version. */
  ghost predicate OneEach(observations: seq<Observation>, kind: Kind) {
    forall a, b :: Offered(observations, kind, a) && Offered(observations, kind, b) && a.period == b.period && a.start == b.start ==> a == b
  }

  /** Two stated versions of one date, the earlier not ended when the later starts. */
  ghost predicate OffersOverlap(os: seq<Observation>, kind: Kind) {
    exists a, b :: Offered(os, kind, a) && Offered(os, kind, b) && a.period == b.period && a.start < b.start && a.end >= b.start
  }

  ghost predicate Consistent(observations: seq<Observation>, kind: Kind) {
    OneEach(observations, kind) && (kind.Intervals? ==> !OffersOverlap(observations, kind))
  }

  /** A complete page of readable, consistent versions. */
  ghost predicate Acceptable(r: Response, kind: Kind) {
    && r.observations.Some? && r.count == Some(|r.observations.value|) && r.offset == Some(0)
    && (forall o :: o in r.observations.value ==> Readable(o, kind))
    && Consistent(r.observations.value, kind)
  }

  lemma ListsOffered(os: seq<Observation>, kind: Kind, unique: map<Key, Row>, sorted: seq<Row>, row: Row)
    requires Collect(All(os, kind)) == Ok(unique) && Lists(sorted, unique)
    ensures row in sorted <==> Offered(os, kind, row)
  {
    var cs := All(os, kind);
    CollectMeaning(cs);
    AllOffers(os, kind, row);
    if Ok(row) in cs { var k := Listed(cs, unique, sorted, row); }
    if row in sorted { assert Ok(unique[KeyOf(row)]) in cs; }
  }

  lemma PlacesFollowKeys(sorted: seq<Row>, i: nat, j: nat)
    requires Sorted(sorted) && i < |sorted| && j < |sorted| && Before(KeyOf(sorted[i]), KeyOf(sorted[j]))
    ensures i < j
  {
  }

  /** Overlapping intervals of one date make two neighbours overlap. */
  lemma OverlapIsNear(sorted: seq<Row>, a: Row, b: Row)
    requires Sorted(sorted) && a in sorted && b in sorted && a.period == b.period && a.start < b.start && a.end >= b.start
    ensures Overlapping(sorted, Intervals)
  {
    var i :| 0 <= i < |sorted| && sorted[i] == a;
    var j :| 0 <= j < |sorted| && sorted[j] == b;
    PlacesFollowKeys(sorted, i, j);
    Adjacent(sorted, i, j);
    assert OverlapsNext(sorted, i, Intervals);
  }

  lemma NearOverlaps(sorted: seq<Row>, kind: Kind) returns (a: Row, b: Row)
    requires Sorted(sorted) && Overlapping(sorted, kind)
    ensures a in sorted && b in sorted && a.period == b.period && a.start < b.start && a.end >= b.start
  {
    var i :| 0 <= i < |sorted| && OverlapsNext(sorted, i, kind);
    assert Before(KeyOf(sorted[i]), KeyOf(sorted[i + 1]));
    a, b := sorted[i], sorted[i + 1];
  }

  lemma OverlapIsOffered(os: seq<Observation>, kind: Kind, unique: map<Key, Row>, sorted: seq<Row>)
    requires Collect(All(os, kind)) == Ok(unique) && Sorted(sorted) && Lists(sorted, unique)
    ensures Overlapping(sorted, kind) <==> kind.Intervals? && OffersOverlap(os, kind)
  {
    if Overlapping(sorted, kind) {
      var a, b := NearOverlaps(sorted, kind);
      ListsOffered(os, kind, unique, sorted, a);
      ListsOffered(os, kind, unique, sorted, b);
    }
    if kind.Intervals? && OffersOverlap(os, kind) {
      var a, b :| Offered(os, kind, a) && Offered(os, kind, b) && a.period == b.period && a.start < b.start && a.end >= b.start;
      ListsOffered(os, kind, unique, sorted, a);
      ListsOffered(os, kind, unique, sorted, b);
      OverlapIsNear(sorted, a, b);
    }
  }

  lemma CollectedIff(os: seq<Observation>, kind: Kind)
    ensures Collect(All(os, kind)).Ok? <==>
            && (forall o :: o in os ==> Readable(o, kind))
            && OneEach(os, kind)
  {
    var cs := All(os, kind);
    CollectMeaning(cs);
    AllReadable(os, kind);
    forall row ensures Ok(row) in cs <==> Offered(os, kind, row) { AllOffers(os, kind, row); }
    if OneEach(os, kind) {
      forall c, d | c in cs && d in cs && c.Ok? && d.Ok? && KeyOf(c.value) == KeyOf(d.value) ensures c == d {
        assert Offered(os, kind, c.value) && Offered(os, kind, d.value);
      }
    }
    if Agreeing(cs) {
      forall a, b | Offered(os, kind, a) && Offered(os, kind, b) && a.period == b.period && a.start == b.start ensures a == b {
        var c: Result<Row, Refusal>, d: Result<Row, Refusal> := Ok(a), Ok(b);
        assert c in cs && d in cs;
      }
    }
  }

  /** A response is accepted exactly when it is a complete page of readable, consistent versions. */
  lemma {:induction false} AcceptedIff(r: Response, kind: Kind, res: Result<seq<Row>, Refusal>)
    requires Answers(r, kind, res)
    ensures res.Ok? <==> Acceptable(r, kind)
  {
    if Complete(r) {
      CollectedIff(r.observations.value, kind);
      if Collect(All(r.observations.value, kind)).Ok? {
        OverlapDecides(r.observations.value, kind, Collect(All(r.observations.value, kind)).value, res);
      }
    }
  }

  /** Collected versions are refused exactly for an overlap. */
  lemma OverlapDecides(os: seq<Observation>, kind: Kind, unique: map<Key, Row>, res: Result<seq<Row>, Refusal>)
    requires Collect(All(os, kind)) == Ok(unique)
    requires res.Ok? ==> Normal(unique, kind, res.value)
    requires res.Err? ==> exists rows :: Sorted(rows) && Lists(rows, unique) && Overlapping(rows, kind)
    ensures res.Ok? <==> !(kind.Intervals? && OffersOverlap(os, kind))
  {
    if res.Ok? {
      var sorted :| NormalFrom(unique, kind, res.value, sorted);
      OverlapIsOffered(os, kind, unique, sorted);
    } else {
      var rows :| Sorted(rows) && Lists(rows, unique) && Overlapping(rows, kind);
      OverlapIsOffered(os, kind, unique, rows);
    }
  }

  /** The accepted rows: by date and start, one for each version stated, with its value; a vintage column's ends the day
      before the next of its date starts, or on the last day there is. */
  ghost predicate RowsMean(os: seq<Observation>, kind: Kind, rows: seq<Row>) {
    && Ascends(rows)
    && (forall i :: 0 <= i < |rows| ==> RowMeans(os, kind, rows, i))
    && (forall v :: Offered(os, kind, v) ==> Shown(rows, v))
  }

  ghost predicate Ascends(rows: seq<Row>) {
    forall i, j :: 0 <= i < j < |rows| ==>
      rows[i].period < rows[j].period || (rows[i].period == rows[j].period && rows[i].start < rows[j].start)
  }

  ghost predicate Shown(rows: seq<Row>, v: Row) { exists i :: 0 <= i < |rows| && Shows(rows[i], v) }

  ghost predicate Shows(row: Row, v: Row) { row.period == v.period && row.start == v.start && row.value == v.value }

  ghost predicate RowMeans(os: seq<Observation>, kind: Kind, rows: seq<Row>, i: nat)
    requires i < |rows|
  {
    match kind
    case Intervals => Offered(os, kind, rows[i])
    case Columns =>
      && Offered(os, kind, rows[i].(end := 3_652_059))
      && rows[i].end == if i + 1 < |rows| && rows[i + 1].period == rows[i].period then rows[i + 1].start - 1 else 3_652_059
  }

  lemma {:induction false} AcceptedRows(r: Response, kind: Kind, rows: seq<Row>)
    requires Answers(r, kind, Ok(rows))
    ensures RowsMean(r.observations.value, kind, rows)
  {
    var os := r.observations.value;
    var unique := Collect(All(os, kind)).value;
    var sorted :| NormalFrom(unique, kind, rows, sorted);
    NormalShape(unique, kind, rows);
    SortedAscends(rows);
    forall i | 0 <= i < |rows| ensures RowMeans(os, kind, rows, i) { RowIsMeant(r, kind, unique, rows, sorted, i); }
    forall v | Offered(os, kind, v) ensures Shown(rows, v) { OfferIsShown(os, kind, unique, rows, sorted, v); }
  }

  lemma SortedAscends(rows: seq<Row>)
    requires Sorted(rows)
    ensures Ascends(rows)
  {
    forall i, j | 0 <= i < j < |rows|
      ensures rows[i].period < rows[j].period || (rows[i].period == rows[j].period && rows[i].start < rows[j].start)
    {
      assert Before(KeyOf(rows[i]), KeyOf(rows[j]));
    }
  }

  lemma OfferIsShown(os: seq<Observation>, kind: Kind, unique: map<Key, Row>, rows: seq<Row>, sorted: seq<Row>, v: Row)
    requires Collect(All(os, kind)) == Ok(unique) && NormalFrom(unique, kind, rows, sorted) && Offered(os, kind, v)
    ensures Shown(rows, v)
  {
    ListsOffered(os, kind, unique, sorted, v);
    var i :| 0 <= i < |sorted| && sorted[i] == v;
    assert Shows(rows[i], v);
  }

  lemma RowIsMeant(r: Response, kind: Kind, unique: map<Key, Row>, rows: seq<Row>, sorted: seq<Row>, i: nat)
    requires r.observations.Some? && Collect(All(r.observations.value, kind)) == Ok(unique)
    requires NormalFrom(unique, kind, rows, sorted) && i < |rows|
    ensures RowMeans(r.observations.value, kind, rows, i)
  {
    ListsOffered(r.observations.value, kind, unique, sorted, sorted[i]);
    assert sorted[i] in sorted;
    if kind.Columns? {
      ColumnsRunForever(r, unique, KeyOf(sorted[i]));
      assert rows[i].(end := 3_652_059) == sorted[i];
    }
  }

  // ------------------------------------------------------------------- what is in force

  predicate InForce(r: Row, day: int) { r.start <= day <= r.end }

  lemma Adjacent(sorted: seq<Row>, i: nat, j: nat)
    requires Sorted(sorted) && i < j < |sorted| && sorted[i].period == sorted[j].period
    ensures SamePeriod(sorted, i) && sorted[i + 1].start <= sorted[j].start
  {
    assert Before(KeyOf(sorted[i]), KeyOf(sorted[i + 1]));
    if i + 1 < j { assert Before(KeyOf(sorted[i + 1]), KeyOf(sorted[j])); }
  }

  /** The rows keep period, start and value, are strictly ordered, and each ends before the next of its period. */
  lemma NormalShape(unique: map<Key, Row>, kind: Kind, rows: seq<Row>)
    requires Normal(unique, kind, rows)
    ensures Sorted(rows)
    ensures forall i, j :: 0 <= i < j < |rows| && rows[i].period == rows[j].period ==> rows[i].end < rows[j].start
  {
    var sorted :| NormalFrom(unique, kind, rows, sorted);
    forall i, j | 0 <= i < j < |rows| && rows[i].period == rows[j].period ensures rows[i].end < rows[j].start {
      Adjacent(sorted, i, j);
      assert !OverlapsNext(sorted, i, kind);
    }
  }

  /** On any day at most one row of an observation date is in force. */
  lemma AtMostOneInForce(r: Response, kind: Kind, rows: seq<Row>, day: int, i: nat, j: nat)
    requires Answers(r, kind, Ok(rows))
    requires i < |rows| && j < |rows| && rows[i].period == rows[j].period
    requires InForce(rows[i], day) && InForce(rows[j], day)
    ensures i == j
  {
    NormalShape(Collect(All(r.observations.value, kind)).value, kind, rows);
  }

  ghost predicate Started(sorted: seq<Row>, period: int, day: int, i: int) {
    0 <= i < |sorted| && sorted[i].period == period && sorted[i].start <= day
  }

  lemma {:induction false} LatestStarted(sorted: seq<Row>, period: int, day: int, n: nat) returns (i: int)
    requires n <= |sorted| && exists k :: 0 <= k < n && Started(sorted, period, day, k)
    ensures 0 <= i < n && Started(sorted, period, day, i)
    ensures forall k :: i < k < n ==> !Started(sorted, period, day, k)
    decreases n
  {
    if Started(sorted, period, day, n - 1) { i := n - 1; } else { i := LatestStarted(sorted, period, day, n - 1); }
  }

  /** The versions of a column response all run to the last day. */
  lemma ColumnsRunForever(r: Response, unique: map<Key, Row>, k: Key)
    requires r.observations.Some? && Collect(All(r.observations.value, Columns)) == Ok(unique) && k in unique
    ensures unique[k].end == FOREVER
  {
    var cs, row := All(r.observations.value, Columns), unique[k];
    assert Ok(row) in cs by { CollectMeaning(cs); }
    AllHoldsEach(r.observations.value, Columns, Ok(row));
    var o :| o in r.observations.value && Ok(row) in Contributions(o, Columns);
    ColumnRunsForever(o, row);
  }

  lemma ColumnRunsForever(o: Observation, row: Row)
    requires Ok(row) in Contributions(o, Columns)
    ensures row.end == FOREVER
  {
  }

  lemma ClosedInForce(sorted: seq<Row>, i: nat, day: int)
    requires Sorted(sorted) && i < |sorted| && sorted[i].end == FOREVER && day <= FOREVER
    requires Started(sorted, sorted[i].period, day, i)
    requires forall k :: i < k < |sorted| ==> !Started(sorted, sorted[i].period, day, k)
    ensures InForce(Closed(sorted, i, Columns), day)
  {
    if SamePeriod(sorted, i) { assert !Started(sorted, sorted[i].period, day, i + 1); }
  }

  lemma Listed(cs: seq<Result<Row, Refusal>>, unique: map<Key, Row>, sorted: seq<Row>, v: Row) returns (k: nat)
    requires Holds(unique, cs) && Lists(sorted, unique) && Ok(v) in cs
    ensures k < |sorted| && sorted[k] == v
  {
    assert unique[KeyOf(v)] in sorted by { var c: Result<Row, Refusal> := Ok(v); assert c in cs && c.Ok?; }
    k :| 0 <= k < |sorted| && sorted[k] == v;
  }

  lemma LatestInForce(cs: seq<Result<Row, Refusal>>, unique: map<Key, Row>, rows: seq<Row>, sorted: seq<Row>, v: Row, day: int)
    returns (i: nat)
    requires Holds(unique, cs) && NormalFrom(unique, Columns, rows, sorted)
    requires day <= FOREVER && forall k :: k in unique ==> unique[k].end == FOREVER
    requires Ok(v) in cs && v.start <= day
    ensures i < |rows| && rows[i].period == v.period && InForce(rows[i], day)
    ensures rows[i].start == sorted[i].start && Ok(rows[i].(end := FOREVER)) in cs
    ensures forall k :: i < k < |sorted| ==> !Started(sorted, v.period, day, k)
  {
    var k := Listed(cs, unique, sorted, v);
    assert Started(sorted, v.period, day, k);
    i := LatestStarted(sorted, v.period, day, |sorted|);
    ClosedInForce(sorted, i, day);
    assert rows[i].(end := FOREVER) == sorted[i] == unique[KeyOf(sorted[i])];
  }

  lemma NoneLater(cs: seq<Result<Row, Refusal>>, unique: map<Key, Row>, sorted: seq<Row>, i: nat, v: Row, day: int)
    requires Holds(unique, cs) && Sorted(sorted) && Lists(sorted, unique) && i < |sorted|
    requires forall k :: i < k < |sorted| ==> !Started(sorted, v.period, day, k)
    requires Ok(v) in cs && v.start <= day && v.period == sorted[i].period
    ensures v.start <= sorted[i].start
  {
    var k := Listed(cs, unique, sorted, v);
    assert Started(sorted, v.period, day, k);
    if k < i { assert Before(KeyOf(sorted[k]), KeyOf(sorted[i])); }
  }

  /** From the first vintage of an observation date on, the row of a column response in force on a day is exactly the
      version started last by that day, with that version's value. */
  lemma LatestVintageInForce(r: Response, rows: seq<Row>, v: Row, day: int) returns (i: nat)
    requires Answers(r, Columns, Ok(rows)) && day <= FOREVER
    requires Ok(v) in All(r.observations.value, Columns) && v.start <= day
    ensures i < |rows| && rows[i].period == v.period && InForce(rows[i], day)
    ensures Ok(rows[i].(end := FOREVER)) in All(r.observations.value, Columns)
    ensures forall w :: Ok(w) in All(r.observations.value, Columns) && w.period == v.period && w.start <= day ==> w.start <= rows[i].start
  {
    var cs := All(r.observations.value, Columns);
    var unique := Collect(cs).value;
    CollectMeaning(cs);
    var sorted :| NormalFrom(unique, Columns, rows, sorted);
    forall k | k in unique ensures unique[k].end == FOREVER { ColumnsRunForever(r, unique, k); }
    i := LatestInForce(cs, unique, rows, sorted, v, day);
    forall w | Ok(w) in cs && w.period == v.period && w.start <= day ensures w.start <= rows[i].start {
      NoneLater(cs, unique, sorted, i, w, day);
    }
  }

  // ------------------------------------------------------------------- consumers

  /** The rows a consumer selects, in order. */
  function Select(rows: seq<Row>, keep: Row -> bool): seq<Row>
    decreases |rows|
  {
    if rows == [] then []
    else Select(rows[..|rows| - 1], keep) + (if keep(rows[|rows| - 1]) then [rows[|rows| - 1]] else [])
  }

  /** The macro snapshot: in force at the vintage cutoff, observed by the local day. */
  function MacroSnapshot(rows: seq<Row>, cutoff: int, localDay: int): seq<Row> {
    Select(rows, (r: Row) => InForce(r, cutoff) && r.period <= localDay)
  }

  /** The treasury quote: in force on the vintage day for one observation date. */
  function TreasuryQuote(rows: seq<Row>, observation: int, vintage: int): seq<Row> {
    Select(rows, (r: Row) => r.period == observation && InForce(r, vintage))
  }

  lemma {:induction false} SelectHolds(rows: seq<Row>, keep: Row -> bool, r: Row)
    ensures r in Select(rows, keep) <==> r in rows && keep(r)
    decreases |rows|
  {
    if rows != [] {
      SelectHolds(rows[..|rows| - 1], keep, r);
      assert rows == rows[..|rows| - 1] + [rows[|rows| - 1]];
    }
  }

  ghost function Periods(rows: seq<Row>): set<int> { set r | r in rows :: r.period }

  /** Selected rows of which at most one per period can be kept have as many periods as rows. */
  lemma {:induction false} SelectDistinct(rows: seq<Row>, keep: Row -> bool)
    requires forall i, j :: 0 <= i < j < |rows| && keep(rows[i]) && keep(rows[j]) ==> rows[i].period != rows[j].period
    ensures |Periods(Select(rows, keep))| == |Select(rows, keep)|
    decreases |rows|
  {
    if rows != [] {
      var init, last := rows[..|rows| - 1], rows[|rows| - 1];
      SelectDistinct(init, keep);
      if keep(last) {
        var chosen := Select(init, keep);
        forall r | r in chosen ensures r.period != last.period {
          SelectHolds(init, keep, r);
          var i :| 0 <= i < |init| && init[i] == r;
          assert rows[i] == r;
        }
        assert Select(rows, keep) == chosen + [last];
        assert Periods(chosen + [last]) == Periods(chosen) + {last.period} by {
          assert forall r :: r in chosen + [last] <==> r in chosen || r == last;
        }
      } else {
        assert Select(rows, keep) == Select(init, keep);
      }
    }
  }

  /** The conflicting-snapshot branch of the macro state cannot be taken on normalized rows. */
  lemma MacroNeverConflicts(r: Response, kind: Kind, rows: seq<Row>, cutoff: int, localDay: int)
    requires Answers(r, kind, Ok(rows))
    ensures |Periods(MacroSnapshot(rows, cutoff, localDay))| == |MacroSnapshot(rows, cutoff, localDay)|
    ensures forall row :: row in MacroSnapshot(rows, cutoff, localDay) <==>
              row in rows && row.start <= cutoff <= row.end && row.period <= localDay
  {
    forall row ensures row in MacroSnapshot(rows, cutoff, localDay) <==> row in rows && InForce(row, cutoff) && row.period <= localDay {
      SelectHolds(rows, (r: Row) => InForce(r, cutoff) && r.period <= localDay, row);
    }
    NormalShape(Collect(All(r.observations.value, kind)).value, kind, rows);
    SelectDistinct(rows, (r: Row) => InForce(r, cutoff) && r.period <= localDay);
  }

  /** A treasury quote is never ambiguous, and on a column response it is missing exactly when no vintage of that
      observation date had started. */
  lemma TreasuryNeverConflicts(r: Response, kind: Kind, rows: seq<Row>, observation: int, vintage: int)
    requires Answers(r, kind, Ok(rows)) && vintage <= FOREVER
    ensures |TreasuryQuote(rows, observation, vintage)| <= 1
    ensures forall row :: row in TreasuryQuote(rows, observation, vintage) <==>
              row in rows && row.period == observation && row.start <= vintage <= row.end
    ensures kind.Columns? ==> (|TreasuryQuote(rows, observation, vintage)| == 1 <==>
              exists v :: Ok(v) in All(r.observations.value, kind) && v.period == observation && v.start <= vintage)
  {
    var keep := (r: Row) => r.period == observation && InForce(r, vintage);
    var chosen := TreasuryQuote(rows, observation, vintage);
    NormalShape(Collect(All(r.observations.value, kind)).value, kind, rows);
    SelectDistinct(rows, keep);
    forall q ensures q in chosen <==> q in rows && keep(q) { SelectHolds(rows, keep, q); }
    assert Periods(chosen) <= {observation};
    AtMostSingleton(Periods(chosen), observation);
    if kind.Columns? {
      if exists v :: Ok(v) in All(r.observations.value, kind) && v.period == observation && v.start <= vintage {
        var v :| Ok(v) in All(r.observations.value, kind) && v.period == observation && v.start <= vintage;
        var i := LatestVintageInForce(r, rows, v, vintage);
        SelectHolds(rows, keep, rows[i]);
      } else if chosen != [] {
        SelectHolds(rows, keep, chosen[0]);
        RowFromVersion(r, rows, chosen[0]);
      }
    }
  }

  lemma AtMostSingleton(s: set<int>, x: int)
    requires s <= {x}
    ensures |s| <= 1
  {
    if s != {} { assert s == {x}; }
  }

  lemma RowFromVersion(r: Response, rows: seq<Row>, row: Row)
    requires Answers(r, Columns, Ok(rows)) && row in rows
    ensures exists v :: Ok(v) in All(r.observations.value, Columns) && v.period == row.period && v.start == row.start
  {
    var cs := All(r.observations.value, Columns);
    var unique := Collect(cs).value;
    CollectMeaning(cs);
    var sorted :| NormalFrom(unique, Columns, rows, sorted);
    var i :| 0 <= i < |rows| && rows[i] == row;
    assert Ok(unique[KeyOf(sorted[i])]) in cs;
  }
}
