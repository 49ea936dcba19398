/** The daily token summary of internal/heatmap/heatmap.go. Days are ordered keys; the calendar lists the days of
    the window, and a key between its ends that it does not list stands for a date that does not exist. */
module Heatmap {
  import opened Int64

  // ---------- Names in byte order ----------

  predicate Less(a: string, b: string) {
    b != "" && (a == "" || a[0] < b[0] || (a[0] == b[0] && Less(a[1..], b[1..])))
  }

  lemma {:induction false} LessIsOrder(a: string, b: string)
    ensures a == b || Less(a, b) || Less(b, a)
    ensures !(Less(a, b) && Less(b, a)) && !(a == b && Less(a, b))
  {
    if a != "" && b != "" {
      LessIsOrder(a[1..], b[1..]);
      assert a == [a[0]] + a[1..] && b == [b[0]] + b[1..];
    }
  }

  lemma {:induction false} LessTransitive(a: string, b: string, c: string)
    requires Less(a, b) && Less(b, c)
    ensures Less(a, c)
  {
    if a != "" && a[0] == b[0] && b[0] == c[0] {
      LessTransitive(a[1..], b[1..], c[1..]);
    }
  }

  // ---------- Rows and sums over them ----------

  type Key = int

  datatype Row = Row(day: Key, model: string, tokens: int)

  type Calendar = c: seq<Key> | c != [] && forall i, j | 0 <= i < j < |c| :: c[i] < c[j] witness [0]

  predicate Kept(c: Calendar, row: Row) {
    c[0] <= row.day <= c[|c|-1] && row.tokens > 0
  }

  function Name(row: Row): string {
    if row.model == "" then "Unknown" else row.model
  }

  /** Which kept rows a sum is over. */
  datatype Pick = Everything | OnDay(day: Key) | OnDays(days: set<Key>)
                | OfModel(name: string) | OfModels(names: set<string>)
                | DayModel(day: Key, name: string) | DayModels(day: Key, names: set<string>)

  predicate Picks(p: Pick, row: Row) {
    match p
    case Everything => true
    case OnDay(d) => row.day == d
    case OnDays(ds) => row.day in ds
    case OfModel(n) => Name(row) == n
    case OfModels(ns) => Name(row) in ns
    case DayModel(d, n) => row.day == d && Name(row) == n
    case DayModels(d, ns) => row.day == d && Name(row) in ns
  }

  function Weight(c: Calendar, p: Pick, row: Row): nat {
    if Kept(c, row) && Picks(p, row) then row.tokens else 0
  }

  function Total(c: Calendar, rows: seq<Row>, p: Pick): nat {
    if rows == [] then 0 else Total(c, rows[..|rows|-1], p) + Weight(c, p, rows[|rows|-1])
  }

  lemma TotalPush(c: Calendar, rows: seq<Row>, row: Row, p: Pick)
    ensures Total(c, rows + [row], p) == Total(c, rows, p) + Weight(c, p, row)
  {
    assert (rows + [row])[..|rows|] == rows;
  }

  lemma {:induction false} Additive(c: Calendar, rows: seq<Row>, p: Pick, q: Pick, r: Pick)
    requires forall row | row in rows :: Weight(c, p, row) == Weight(c, q, row) + Weight(c, r, row)
    ensures Total(c, rows, p) == Total(c, rows, q) + Total(c, rows, r)
  {
    if rows != [] {
      var last := rows[|rows|-1];
      assert last in rows && rows == rows[..|rows|-1] + [last];
      Additive(c, rows[..|rows|-1], p, q, r);
    }
  }

  lemma {:induction false} SameTotal(c: Calendar, rows: seq<Row>, p: Pick, q: Pick)
    requires forall row | row in rows :: Weight(c, p, row) == Weight(c, q, row)
    ensures Total(c, rows, p) == Total(c, rows, q)
  {
    if rows != [] {
      var last := rows[|rows|-1];
      assert last in rows && rows == rows[..|rows|-1] + [last];
      SameTotal(c, rows[..|rows|-1], p, q);
    }
  }

  lemma {:induction false} ZeroTotal(c: Calendar, rows: seq<Row>, p: Pick)
    ensures Total(c, rows, p) == 0 <==> forall row | row in rows :: Weight(c, p, row) == 0
  {
    if rows != [] {
      var last := rows[|rows|-1];
      assert last in rows && rows == rows[..|rows|-1] + [last];
      ZeroTotal(c, rows[..|rows|-1], p);
    }
  }

  lemma {:induction false} TotalConcat(c: Calendar, x: seq<Row>, y: seq<Row>, p: Pick)
    ensures Total(c, x + y, p) == Total(c, x, p) + Total(c, y, p)
  {
    if y == [] {
      assert x + y == x;
    } else {
      assert (x + y)[..|x + y|-1] == x + y[..|y|-1];
      TotalConcat(c, x, y[..|y|-1], p);
    }
  }

  lemma SomeElement<T>(s: seq<T>)
    requires s != []
    ensures exists e :: e in s
  {
    assert s[0] in s;
  }

  lemma BagWithout(x: seq<Row>, y: seq<Row>, i: nat)
    requires x != [] && multiset(x) == multiset(y) && i < |y| && y[i] == x[|x|-1]
    ensures multiset(y[..i] + y[i+1..]) == multiset(x[..|x|-1])
  {
    assert x == x[..|x|-1] + [x[|x|-1]];
    assert y == y[..i] + [y[i]] + y[i+1..];
    assert multiset(y) == multiset(y[..i]) + multiset{y[i]} + multiset(y[i+1..]);
    assert multiset(x) == multiset(x[..|x|-1]) + multiset{y[i]};
    assert multiset(y[..i] + y[i+1..]) == multiset(y[..i]) + multiset(y[i+1..]);
    assert multiset(y[..i] + y[i+1..]) == multiset(y) - multiset{y[i]};
    assert multiset(x[..|x|-1]) == multiset(x) - multiset{y[i]};
  }

  lemma TotalWithout(c: Calendar, y: seq<Row>, i: nat, p: Pick)
    requires i < |y|
    ensures Total(c, y, p) == Total(c, y[..i] + y[i+1..], p) + Weight(c, p, y[i])
  {
    assert y == y[..i] + [y[i]] + y[i+1..];
    TotalConcat(c, y[..i] + [y[i]], y[i+1..], p);
    TotalPush(c, y[..i], y[i], p);
    TotalConcat(c, y[..i], y[i+1..], p);
  }

  lemma LastOccurs(x: seq<Row>, y: seq<Row>)
    requires x != [] && multiset(x) == multiset(y)
    ensures x[|x|-1] in y
  {
    assert x[|x|-1] in x && x[|x|-1] in multiset(x) && x[|x|-1] in multiset(y);
  }

  /** The order of the rows does not matter. */
  lemma {:induction false} TotalOfPermutation(c: Calendar, x: seq<Row>, y: seq<Row>, p: Pick)
    requires multiset(x) == multiset(y)
    ensures Total(c, x, p) == Total(c, y, p)
  {
    hide Weight;
    if x == [] {
      assert |multiset(y)| == 0 && |y| == |multiset(y)|;
    } else {
      LastOccurs(x, y);
      var i :| 0 <= i < |y| && y[i] == x[|x|-1];
      BagWithout(x, y, i);
      TotalWithout(c, y, i, p);
      TotalOfPermutation(c, x[..|x|-1], y[..i] + y[i+1..], p);
    }
  }

  // ---------- The report ----------

  datatype Color = Uncolored | Palette(index: nat) | OtherColor

  const PALETTE_SIZE := 6

  datatype Day = Day(date: Key, tokens: int, model: string, level: int, color: Color)

  datatype Model = Model(name: string, tokens: int, color: Color)

  datatype Report = Report(totalTokens: int, activeDays: int, peakTokens: int, days: seq<Day>, models: seq<Model>)

  datatype Entry = Entry(name: string, tokens: int)

  /** Most tokens first, then by name. */
  predicate Before(a: Entry, b: Entry) {
    a.tokens > b.tokens || (a.tokens == b.tokens && Less(a.name, b.name))
  }

  ghost predicate Ranked(list: seq<Entry>) {
    forall i, j | 0 <= i < j < |list| :: Before(list[i], list[j])
  }

  /** The ranking of all models that have kept tokens. */
  ghost predicate IsRanking(c: Calendar, rows: seq<Row>, list: seq<Entry>) {
    Ranked(list) && forall e :: e in list <==> e.tokens > 0 && e.tokens == Total(c, rows, OfModel(e.name))
  }

  function ColorAt(i: nat): Color {
    if i < PALETTE_SIZE then Palette(i) else OtherColor
  }

  function Tokens(list: seq<Entry>): (r: seq<int>)
    ensures |r| == |list| && forall i | 0 <= i < |list| :: r[i] == list[i].tokens
  {
    seq(|list|, i requires 0 <= i < |list| => list[i].tokens)
  }

  /** Six models with colours of their own, the rest folded into one. */
  function Legend(list: seq<Entry>): seq<Model> {
    var named :=
        seq(Min(|list|, PALETTE_SIZE), i requires 0 <= i < |list| => Model(list[i].name, list[i].tokens, ColorAt(i)));
    if |list| <= PALETTE_SIZE then named
    else named + [Model("Other models", Sum(Tokens(list[PALETTE_SIZE..])), OtherColor)]
  }

  function ModelTokens(models: seq<Model>): (r: seq<int>)
    ensures |r| == |models| && forall i | 0 <= i < |models| :: r[i] == models[i].tokens
  {
    Tokens(seq(|models|, i requires 0 <= i < |models| => Entry(models[i].name, models[i].tokens)))
  }

  /** The favourite of a day: the most tokens, the smallest name among equals; none on an empty day. */
  ghost predicate IsFavorite(c: Calendar, rows: seq<Row>, day: Key, name: string) {
    if Total(c, rows, OnDay(day)) == 0 then name == ""
    else
      && Total(c, rows, DayModel(day, name)) > 0
      && forall n :: n != name ==>
          Before(Entry(name, Total(c, rows, DayModel(day, name))), Entry(n, Total(c, rows, DayModel(day, n))))
  }

  /** The colour a name has in the ranking. */
  ghost predicate IsColor(list: seq<Entry>, name: string, color: Color) {
    exists i :: 0 <= i < |list| && list[i].name == name && color == ColorAt(i)
  }

  function Insert(sorted: seq<int>, x: int): seq<int> {
    if sorted == [] || x <= sorted[0] then [x] + sorted else [sorted[0]] + Insert(sorted[1..], x)
  }

  function Sorted(values: seq<int>): seq<int> {
    if values == [] then [] else Insert(Sorted(values[..|values|-1]), values[|values|-1])
  }

  function Nonzero(tokens: seq<int>): seq<int> {
    if tokens == [] then []
    else Nonzero(tokens[..|tokens|-1]) + (if tokens[|tokens|-1] > 0 then [tokens[|tokens|-1]] else [])
  }

  /** One for being active, one more for each quartile boundary reached. */
  function Level(tokens: int, sorted: seq<int>): int {
    if tokens == 0 || sorted == [] then 0
    else
      1 + (if tokens >= sorted[(|sorted| - 1) * 1 / 4] then 1 else 0)
        + (if tokens >= sorted[(|sorted| - 1) * 2 / 4] then 1 else 0)
        + (if tokens >= sorted[(|sorted| - 1) * 3 / 4] then 1 else 0)
  }

  function DayTokens(c: Calendar, rows: seq<Row>, n: nat): (r: seq<int>)
    requires n <= |c|
    ensures |r| == n && forall i | 0 <= i < n :: r[i] == Total(c, rows, OnDay(c[i]))
  {
    seq(n, i requires 0 <= i < n => Total(c, rows, OnDay(c[i])))
  }

  function Peak(values: seq<int>): (m: int)
    ensures 0 <= m && forall i | 0 <= i < |values| :: values[i] <= m
    ensures m == 0 || m in values
  {
    if values == [] then 0
    else
      var rest, last := values[..|values|-1], values[|values|-1];
      assert values == rest + [last];
      if last > Peak(rest) then last else Peak(rest)
  }

  ghost predicate IsDay(c: Calendar, rows: seq<Row>, list: seq<Entry>, i: nat, d: Day)
    requires i < |c|
  {
    var tokens := DayTokens(c, rows, |c|);
    && d.date == c[i] && d.tokens == tokens[i]
    && IsFavorite(c, rows, c[i], d.model)
    && d.level == Level(d.tokens, Sorted(Nonzero(tokens)))
    && (if d.tokens == 0 then d.color == Uncolored else IsColor(list, d.model, d.color))
  }

  ghost predicate IsReport(c: Calendar, rows: seq<Row>, r: Report) {
    var tokens := DayTokens(c, rows, |c|);
    exists list ::
      && IsRanking(c, rows, list)
      && r.models == Legend(list)
      && |r.days| == |c| && (forall i: nat | i < |c| :: IsDay(c, rows, list, i, r.days[i]))
      && r.totalTokens == Sum(tokens) && r.activeDays == |Nonzero(tokens)| && r.peakTokens == Peak(tokens)
  }

  // ---------- Order of rows and maps ----------

  lemma {:induction false} RankingIsUnique(x: seq<Entry>, y: seq<Entry>)
    requires Ranked(x) && Ranked(y) && forall e :: e in x <==> e in y
    ensures x == y
  {
    if x == [] {
      if y != [] {
        SomeElement(y);
      }
    } else {
      assert x[0] in x && x[0] in y && y[0] in y && y[0] in x;
      LessIsOrder(x[0].name, y[0].name);
      assert x[0] == y[0];
      forall e ensures e in x[1..] <==> e in y[1..] {
        LessIsOrder(x[0].name, x[0].name);
        assert e in x <==> e == x[0] || e in x[1..];
        assert e in y <==> e == y[0] || e in y[1..];
      }
      RankingIsUnique(x[1..], y[1..]);
    }
  }

  lemma FavoriteIsUnique(c: Calendar, rows: seq<Row>, day: Key, m: string, n: string)
    requires IsFavorite(c, rows, day, m) && IsFavorite(c, rows, day, n)
    ensures m == n
  {
    LessIsOrder(m, n);
  }

  lemma ColorIsUnique(c: Calendar, rows: seq<Row>, list: seq<Entry>, name: string, x: Color, y: Color)
    requires IsRanking(c, rows, list) && IsColor(list, name, x) && IsColor(list, name, y)
    ensures x == y
  {
    var i :| 0 <= i < |list| && list[i].name == name && x == ColorAt(i);
    var j :| 0 <= j < |list| && list[j].name == name && y == ColorAt(j);
    assert list[i] in list && list[j] in list;
    LessIsOrder(name, name);
  }

  /** The report depends on the rows as a bag only, and on no map order: permuted rows give the same report. */
  lemma ReportIsOrderFree(c: Calendar, xs: seq<Row>, ys: seq<Row>, r: Report, q: Report)
    requires multiset(xs) == multiset(ys)
    ensures IsReport(c, xs, r) && IsReport(c, ys, q) ==> r == q
  {
    forall p: Pick ensures Total(c, xs, p) == Total(c, ys, p) {
      TotalOfPermutation(c, xs, ys, p);
    }
    assert DayTokens(c, xs, |c|) == DayTokens(c, ys, |c|);
    hide Total;
    hide Legend;
    hide IsDay;
    if IsReport(c, xs, r) && IsReport(c, ys, q) {
      var a :| IsRanking(c, xs, a) && r.models == Legend(a) && |r.days| == |c|
        && (forall i: nat | i < |c| :: IsDay(c, xs, a, i, r.days[i]));
      var b :| IsRanking(c, ys, b) && q.models == Legend(b) && |q.days| == |c|
        && (forall i: nat | i < |c| :: IsDay(c, ys, b, i, q.days[i]));
      RankingIsUnique(a, b);
      forall i: nat | i < |c| ensures r.days[i] == q.days[i] {
        DayIsUnique(c, xs, ys, a, i, r.days[i], q.days[i]);
      }
      assert r.days == q.days;
    }
  }

  lemma DayIsUnique(c: Calendar, xs: seq<Row>, ys: seq<Row>, list: seq<Entry>, i: nat, x: Day, y: Day)
    requires forall p: Pick :: Total(c, xs, p) == Total(c, ys, p)
    requires i < |c| && IsRanking(c, xs, list) && IsDay(c, xs, list, i, x) && IsDay(c, ys, list, i, y)
    ensures x == y
  {
    hide Total;
    hide Before;
    hide Level;
    assert DayTokens(c, xs, |c|) == DayTokens(c, ys, |c|);
    assert IsFavorite(c, xs, c[i], y.model);
    hide IsRanking;
    FavoriteIsUnique(c, xs, c[i], x.model, y.model);
    if x.tokens != 0 {
      ColorIsUnique(c, xs, list, x.model, x.color, y.color);
    }
  }

  // ---------- Conservation ----------

  function DaySet(days: seq<Key>): set<Key> {
    set d | d in days
  }

  function Names(list: seq<Entry>): set<string> {
    set e | e in list :: e.name
  }

  lemma {:induction false} SumOfDays(c: Calendar, rows: seq<Row>, n: nat)
    requires n <= |c|
    ensures Sum(DayTokens(c, rows, n)) == Total(c, rows, OnDays(DaySet(c[..n])))
  {
    if n == 0 {
      ZeroTotal(c, rows, OnDays(DaySet(c[..0])));
    } else {
      SumOfDays(c, rows, n - 1);
      assert DayTokens(c, rows, n)[..n-1] == DayTokens(c, rows, n - 1);
      var fewer, more := DaySet(c[..n-1]), DaySet(c[..n]);
      assert c[..n] == c[..n-1] + [c[n-1]];
      assert more == fewer + {c[n-1]} && c[n-1] !in fewer;
      Additive(c, rows, OnDays(more), OnDays(fewer), OnDay(c[n-1]));
    }
  }

  lemma NamesPush(list: seq<Entry>, e: Entry)
    ensures Names(list + [e]) == Names(list) + {e.name}
  {
    forall n ensures n in Names(list + [e]) <==> n in Names(list) || n == e.name {
      if n in Names(list) {
        var x :| x in list && x.name == n;
        assert x in list + [e];
      }
      assert e in list + [e];
    }
  }

  lemma NamesDistinct(c: Calendar, rows: seq<Row>, list: seq<Entry>, n: nat)
    requires n < |list| && IsRanking(c, rows, list)
    ensures list[n].name !in Names(list[..n])
  {
    hide Total;
    forall i: nat | i < n ensures list[i].name != list[n].name {
      assert list[i] in list && list[n] in list && Before(list[i], list[n]);
      LessIsOrder(list[i].name, list[n].name);
    }
    forall x | x in list[..n] ensures x.name != list[n].name {
      var i :| 0 <= i < n && list[..n][i] == x;
      assert list[i] == x;
    }
  }

  lemma {:induction false} SumOfModels(c: Calendar, rows: seq<Row>, list: seq<Entry>, n: nat)
    requires n <= |list| && IsRanking(c, rows, list)
    ensures Sum(Tokens(list[..n])) == Total(c, rows, OfModels(Names(list[..n])))
  {
    if n == 0 {
      ZeroTotal(c, rows, OfModels(Names(list[..0])));
    } else {
      hide Total;
      hide Names;
      hide IsRanking;
      SumOfModels(c, rows, list, n - 1);
      RankedModel(c, rows, list, n - 1);
      assert Tokens(list[..n])[..n-1] == Tokens(list[..n-1]);
    }
  }

  lemma RankedModel(c: Calendar, rows: seq<Row>, list: seq<Entry>, n: nat)
    requires n < |list| && IsRanking(c, rows, list)
    ensures Total(c, rows, OfModels(Names(list[..n+1]))) == Total(c, rows, OfModels(Names(list[..n]))) + list[n].tokens
  {
    assert list[..n+1] == list[..n] + [list[n]] && list[n] in list;
    NamesPush(list[..n], list[n]);
    NamesDistinct(c, rows, list, n);
    OneMoreModel(c, rows, Names(list[..n]), list[n].name);
  }

  lemma OneMoreModel(c: Calendar, rows: seq<Row>, names: set<string>, name: string)
    requires name !in names
    ensures Total(c, rows, OfModels(names + {name})) == Total(c, rows, OfModels(names)) + Total(c, rows, OfModel(name))
  {
    Additive(c, rows, OfModels(names + {name}), OfModels(names), OfModel(name));
  }

  /** The legend accounts for every model, folded or not. */
  lemma LegendConserves(list: seq<Entry>)
    ensures Sum(ModelTokens(Legend(list))) == Sum(Tokens(list))
  {
    var all, legend := Tokens(list), ModelTokens(Legend(list));
    if |list| > PALETTE_SIZE {
      var rest := all[PALETTE_SIZE..];
      assert rest == Tokens(list[PALETTE_SIZE..]);
      assert all == all[..PALETTE_SIZE] + rest;
      assert legend == all[..PALETTE_SIZE] + [Sum(rest)];
      SumConcat(all[..PALETTE_SIZE], rest);
      SumPush(all[..PALETTE_SIZE], Sum(rest));
    } else {
      assert legend == all;
    }
  }

  /** Every kept row falls on a day that exists. */
  ghost predicate DatesExist(c: Calendar, rows: seq<Row>) {
    forall row | row in rows && Kept(c, row) :: row.day in c
  }

  lemma DaySumIsKept(c: Calendar, rows: seq<Row>)
    ensures Sum(DayTokens(c, rows, |c|)) <= Total(c, rows, Everything)
    ensures Sum(DayTokens(c, rows, |c|)) == Total(c, rows, Everything) <==> DatesExist(c, rows)
  {
    SumOfDays(c, rows, |c|);
    assert c[..|c|] == c;
    OnDaysBound(c, rows, DaySet(c));
  }

  lemma {:induction false} OnDaysBound(c: Calendar, rows: seq<Row>, days: set<Key>)
    ensures Total(c, rows, OnDays(days)) <= Total(c, rows, Everything)
    ensures Total(c, rows, OnDays(days)) == Total(c, rows, Everything)
            <==> forall row | row in rows && Kept(c, row) :: row.day in days
  {
    if rows != [] {
      var last := rows[|rows|-1];
      assert last in rows && rows == rows[..|rows|-1] + [last];
      OnDaysBound(c, rows[..|rows|-1], days);
    }
  }

  lemma ModelSumIsKept(c: Calendar, rows: seq<Row>, list: seq<Entry>)
    requires IsRanking(c, rows, list)
    ensures Sum(Tokens(list)) == Total(c, rows, Everything)
  {
    SumOfModels(c, rows, list, |list|);
    assert list[..|list|] == list;
    var names := Names(list);
    forall row | row in rows ensures Weight(c, OfModels(names), row) == Weight(c, Everything, row) {
      if Kept(c, row) {
        ZeroTotal(c, rows, OfModel(Name(row)));
        assert Weight(c, OfModel(Name(row)), row) != 0;
        assert Entry(Name(row), Total(c, rows, OfModel(Name(row)))) in list;
      }
    }
    SameTotal(c, rows, OfModels(names), Everything);
  }

  /** The listed models always add up to the kept rows. The days do so exactly when every kept row is dated on a
      day that exists: a row of an impossible date inside the window is in the models but on no day. */
  lemma ReportConserves(c: Calendar, rows: seq<Row>, r: Report)
    ensures IsReport(c, rows, r) ==>
      && Sum(ModelTokens(r.models)) == Total(c, rows, Everything)
      && r.totalTokens <= Sum(ModelTokens(r.models))
      && (r.totalTokens == Sum(ModelTokens(r.models)) <==> DatesExist(c, rows))
  {
    if IsReport(c, rows, r) {
      var list :| IsRanking(c, rows, list) && r.models == Legend(list);
      LegendConserves(list);
      ModelSumIsKept(c, rows, list);
      DaySumIsKept(c, rows);
    }
  }

  // ---------- Levels ----------

  lemma {:induction false} InsertElements(sorted: seq<int>, x: int)
    ensures |Insert(sorted, x)| == |sorted| + 1 && forall v :: v in Insert(sorted, x) <==> v == x || v in sorted
  {
    if sorted != [] && x > sorted[0] {
      InsertElements(sorted[1..], x);
      assert forall v :: v in sorted <==> v == sorted[0] || v in sorted[1..];
    }
  }

  lemma {:induction false} SortedElements(values: seq<int>)
    ensures |Sorted(values)| == |values| && forall v :: v in Sorted(values) <==> v in values
  {
    if values != [] {
      SortedElements(values[..|values|-1]);
      InsertElements(Sorted(values[..|values|-1]), values[|values|-1]);
      assert values == values[..|values|-1] + [values[|values|-1]];
    }
  }

  ghost predicate Ascending(s: seq<int>) {
    forall i, j | 0 <= i < j < |s| :: s[i] <= s[j]
  }

  lemma {:induction false} InsertAscends(sorted: seq<int>, x: int)
    requires Ascending(sorted)
    ensures Ascending(Insert(sorted, x))
  {
    if sorted != [] && x > sorted[0] {
      var rest := Insert(sorted[1..], x);
      InsertAscends(sorted[1..], x);
      InsertElements(sorted[1..], x);
      forall i | 0 <= i < |rest| ensures sorted[0] <= rest[i] {
        assert rest[i] in rest;
      }
      assert Insert(sorted, x) == [sorted[0]] + rest;
    }
  }

  lemma {:induction false} InsertAdds(sorted: seq<int>, x: int)
    ensures multiset(Insert(sorted, x)) == multiset(sorted) + multiset{x}
  {
    if sorted != [] && x > sorted[0] {
      InsertAdds(sorted[1..], x);
      assert sorted == [sorted[0]] + sorted[1..];
    } else {
      assert multiset([x] + sorted) == multiset{x} + multiset(sorted);
    }
  }

  /** The sorting function sorts: the same values, in ascending order. */
  lemma {:induction false} SortedSorts(values: seq<int>)
    ensures Ascending(Sorted(values)) && multiset(Sorted(values)) == multiset(values)
  {
    hide Ascending;
    hide Insert;
    if values == [] {
      NothingToSort();
    } else {
      var rest, last := values[..|values|-1], values[|values|-1];
      SortedSorts(rest);
      InsertAscends(Sorted(rest), last);
      InsertAdds(Sorted(rest), last);
      assert multiset(values) == multiset(rest) + multiset{last} by {
        assert values == rest + [last];
      }
    }
  }

  lemma NothingToSort()
    ensures Ascending([])
  {
  }

  /** How many values are at most t. */
  function UpTo(values: seq<int>, t: int): nat {
    if values == [] then 0 else UpTo(values[..|values|-1], t) + (if values[|values|-1] <= t then 1 else 0)
  }

  lemma {:induction false} UpToConcat(x: seq<int>, y: seq<int>, t: int)
    ensures UpTo(x + y, t) == UpTo(x, t) + UpTo(y, t)
  {
    if y == [] {
      assert x + y == x;
    } else {
      assert (x + y)[..|x + y|-1] == x + y[..|y|-1];
      UpToConcat(x, y[..|y|-1], t);
    }
  }

  lemma {:induction false} UpToBounds(values: seq<int>, t: int)
    ensures UpTo(values, t) <= |values|
    ensures (forall i | 0 <= i < |values| :: values[i] <= t) ==> UpTo(values, t) == |values|
    ensures (forall i | 0 <= i < |values| :: values[i] > t) ==> UpTo(values, t) == 0
  {
    if values != [] {
      UpToBounds(values[..|values|-1], t);
    }
  }

  lemma {:induction false} UpToInserted(sorted: seq<int>, x: int, t: int)
    ensures UpTo(Insert(sorted, x), t) == UpTo(sorted, t) + UpTo([x], t)
  {
    if sorted != [] && x > sorted[0] {
      UpToInserted(sorted[1..], x, t);
      UpToConcat([sorted[0]], Insert(sorted[1..], x), t);
      UpToConcat([sorted[0]], sorted[1..], t);
      assert sorted == [sorted[0]] + sorted[1..];
    } else {
      UpToConcat([x], sorted, t);
    }
  }

  lemma {:induction false} UpToSorted(values: seq<int>, t: int)
    ensures UpTo(Sorted(values), t) == UpTo(values, t)
  {
    if values != [] {
      var rest, last := values[..|values|-1], values[|values|-1];
      UpToSorted(rest, t);
      UpToInserted(Sorted(rest), last, t);
      UpToConcat(rest, [last], t);
      assert values == rest + [last];
    }
  }

  /** In ascending order, the value at place k is at most t exactly when more than k values are. */
  lemma {:induction false} AscendingRank(s: seq<int>, t: int, k: nat)
    requires Ascending(s) && k < |s|
    ensures s[k] <= t <==> UpTo(s, t) > k
  {
    var rest, last := s[..|s|-1], s[|s|-1];
    if k < |rest| {
      assert Ascending(rest) && rest[k] == s[k] <= last;
      AscendingRank(rest, t, k);
    } else if last <= t {
      assert forall i | 0 <= i < |s| :: s[i] <= last;
      UpToBounds(s, t);
    } else {
      UpToBounds(rest, t);
    }
  }

  lemma {:induction false} NonzeroElements(tokens: seq<int>)
    ensures forall v :: v in Nonzero(tokens) <==> v in tokens && v > 0
  {
    if tokens != [] {
      NonzeroElements(tokens[..|tokens|-1]);
      assert tokens == tokens[..|tokens|-1] + [tokens[|tokens|-1]];
    }
  }

  lemma ActiveDaysHaveLevels(tokens: seq<int>, t: int)
    requires t in tokens && t > 0
    ensures var sorted := Sorted(Nonzero(tokens));
            sorted != [] && forall i | 0 <= i < |sorted| :: sorted[i] in tokens && sorted[i] > 0
  {
    var sorted := Sorted(Nonzero(tokens));
    NonzeroElements(tokens);
    SortedElements(Nonzero(tokens));
    hide Sorted;
    hide Nonzero;
    assert t in Nonzero(tokens);
    assert t in sorted;
    forall i | 0 <= i < |sorted| ensures sorted[i] in tokens && sorted[i] > 0 {
      var v := sorted[i];
      assert v in sorted;
      assert v in Nonzero(tokens);
    }
  }

  /** Level 0 is exactly an empty day; active days get 1 to 4, more tokens never a lower level, and every peak day 4. */
  lemma LevelsAreMonotone(c: Calendar, rows: seq<Row>, r: Report, i: nat, j: nat)
    requires i < |r.days| && j < |r.days|
    ensures IsReport(c, rows, r) ==>
      && 0 <= r.days[i].level <= 4
      && (r.days[i].level == 0 <==> r.days[i].tokens == 0)
      && (r.days[i].tokens <= r.days[j].tokens ==> r.days[i].level <= r.days[j].level)
      && (r.days[i].tokens == r.peakTokens > 0 ==> r.days[i].level == 4)
  {
    if IsReport(c, rows, r) {
      DayLevels(c, rows, r, i, j);
    }
  }

  lemma DayLevels(c: Calendar, rows: seq<Row>, r: Report, i: nat, j: nat)
    requires IsReport(c, rows, r) && i < |r.days| && j < |r.days|
    ensures 0 <= r.days[i].level <= 4
    ensures r.days[i].level == 0 <==> r.days[i].tokens == 0
    ensures r.days[i].tokens <= r.days[j].tokens ==> r.days[i].level <= r.days[j].level
    ensures r.days[i].tokens == r.peakTokens > 0 ==> r.days[i].level == 4
  {
    hide IsRanking;
    hide Legend;
    hide IsFavorite;
    hide IsColor;
    hide Total;
    hide Sum;
    var tokens := DayTokens(c, rows, |c|);
    var list :| |r.days| == |c| && forall k: nat | k < |c| :: IsDay(c, rows, list, k, r.days[k]);
    assert IsDay(c, rows, list, i, r.days[i]) && IsDay(c, rows, list, j, r.days[j]);
    assert tokens[i] in tokens && tokens[j] in tokens;
    if tokens[i] > 0 {
      ActiveDaysHaveLevels(tokens, tokens[i]);
    }
    if tokens[j] > 0 {
      ActiveDaysHaveLevels(tokens, tokens[j]);
    }
  }

  /** How many active days have at most t tokens. */
  function ActiveUpTo(days: seq<Day>, t: int): nat {
    if days == [] then 0
    else ActiveUpTo(days[..|days|-1], t) + (if 0 < days[|days|-1].tokens <= t then 1 else 0)
  }

  lemma {:induction false} ActiveUpToCounts(days: seq<Day>, tokens: seq<int>, t: int)
    requires |days| == |tokens| && forall i | 0 <= i < |days| :: days[i].tokens == tokens[i]
    ensures ActiveUpTo(days, t) == UpTo(Nonzero(tokens), t)
  {
    if days != [] {
      var rest, last := tokens[..|tokens|-1], tokens[|tokens|-1];
      ActiveUpToCounts(days[..|days|-1], rest, t);
      UpToConcat(Nonzero(rest), if last > 0 then [last] else [], t);
      assert UpTo([], t) == 0;
    }
  }

  /** Day i is above level q exactly when it passes the q-th quartile: more than that share of the active days, the
      lowest one aside, have no more tokens than it. */
  ghost predicate AtQuartile(r: Report, i: nat, q: int)
    requires i < |r.days|
  {
    1 <= q <= 3 && r.days[i].tokens > 0 ==>
      (r.days[i].level > q <==> ActiveUpTo(r.days, r.days[i].tokens) > (r.activeDays - 1) * q / 4)
  }

  ghost predicate LevelsAreQuartiles(r: Report) {
    forall i: nat, q | i < |r.days| :: AtQuartile(r, i, q)
  }

  /** The level of an active day is its rank among the active days, in quarters; no sorting is involved in saying so. */
  lemma LevelsRankDays(c: Calendar, rows: seq<Row>, r: Report)
    ensures IsReport(c, rows, r) ==> LevelsAreQuartiles(r)
  {
    if IsReport(c, rows, r) {
      forall i: nat, q | i < |r.days| ensures AtQuartile(r, i, q) {
        LevelRanksDay(c, rows, r, i, q);
      }
    }
  }

  lemma LevelRanksDay(c: Calendar, rows: seq<Row>, r: Report, i: nat, q: int)
    requires IsReport(c, rows, r) && i < |r.days|
    ensures AtQuartile(r, i, q)
  {
    hide IsRanking;
    hide Legend;
    hide IsFavorite;
    hide IsColor;
    hide Total;
    hide Peak;
    hide Sum;
    var tokens := DayTokens(c, rows, |c|);
    var list :| |r.days| == |c| && forall k: nat | k < |c| :: IsDay(c, rows, list, k, r.days[k]);
    forall k: nat | k < |c| ensures r.days[k].tokens == tokens[k] {
      assert IsDay(c, rows, list, k, r.days[k]);
    }
    var t := r.days[i].tokens;
    if 1 <= q <= 3 && t > 0 {
      assert IsDay(c, rows, list, i, r.days[i]);
      assert tokens[i] in tokens;
      ActiveDaysHaveLevels(tokens, t);
      ActiveUpToCounts(r.days, tokens, t);
      LevelCounts(Nonzero(tokens), t, q);
    }
  }

  lemma LevelCounts(active: seq<int>, t: int, q: int)
    requires active != [] && t > 0 && 1 <= q <= 3
    ensures Level(t, Sorted(active)) > q <==> UpTo(active, t) > (|active| - 1) * q / 4
  {
    var sorted := Sorted(active);
    SortedSorts(active);
    SortedElements(active);
    UpToSorted(active, t);
    hide Sorted;
    hide UpTo;
    var n := |active| - 1;
    assert 0 <= n * 1 / 4 <= n * 2 / 4 <= n * 3 / 4 <= n;
    assert sorted[n * 1 / 4] <= sorted[n * 2 / 4] <= sorted[n * 3 / 4];
    AscendingRank(sorted, t, n * q / 4);
  }

  // ---------- The report, from the rows alone ----------

  /** The tokens of the rows that count, where only positive ones do. */
  function SumWhere(rows: seq<Row>, keep: Row -> bool): int {
    if rows == [] then 0
    else
      var last := rows[|rows|-1];
      SumWhere(rows[..|rows|-1], keep) + (if last.tokens > 0 && keep(last) then last.tokens else 0)
  }

  lemma {:induction false} TotalIsSum(c: Calendar, rows: seq<Row>, p: Pick, keep: Row -> bool)
    requires forall row :: Weight(c, p, row) == if row.tokens > 0 && keep(row) then row.tokens else 0
    ensures Total(c, rows, p) == SumWhere(rows, keep)
  {
    if rows != [] {
      TotalIsSum(c, rows[..|rows|-1], p, keep);
    }
  }

  function OnDayOf(day: Key): Row -> bool {
    (row: Row) => row.day == day
  }

  function InWindowOf(from: Key, to: Key, name: string): Row -> bool {
    (row: Row) => from <= row.day <= to && (if row.model == "" then "Unknown" else row.model) == name
  }

  function OnDayBy(day: Key, name: string): Row -> bool {
    (row: Row) => row.day == day && (if row.model == "" then "Unknown" else row.model) == name
  }

  lemma InCalendar(c: Calendar, i: nat)
    requires i < |c|
    ensures c[0] <= c[i] <= c[|c|-1]
  {
  }

  /** Every day of the window is listed, the first and the last included, with the tokens of its rows. */
  lemma DaysAreSums(c: Calendar, rows: seq<Row>, r: Report, i: nat)
    requires i < |c|
    ensures IsReport(c, rows, r) ==>
              |r.days| == |c| && r.days[i].date == c[i] && r.days[i].tokens == SumWhere(rows, OnDayOf(c[i]))
  {
    if IsReport(c, rows, r) {
      var list :| |r.days| == |c| && forall k: nat | k < |c| :: IsDay(c, rows, list, k, r.days[k]);
      assert IsDay(c, rows, list, i, r.days[i]);
      InCalendar(c, i);
      TotalIsSum(c, rows, OnDay(c[i]), OnDayOf(c[i]));
    }
  }

  function TokensOfDays(days: seq<Day>): (r: seq<int>)
    ensures |r| == |days| && forall i | 0 <= i < |days| :: r[i] == days[i].tokens
  {
    Tokens(seq(|days|, i requires 0 <= i < |days| => Entry(days[i].model, days[i].tokens)))
  }

  /** The three figures of the report are those of its days: their sum, how many are not empty, and the largest. */
  lemma FiguresAreThoseOfDays(c: Calendar, rows: seq<Row>, r: Report)
    ensures IsReport(c, rows, r) ==>
              && r.totalTokens == Sum(TokensOfDays(r.days))
              && r.activeDays == |set i: nat | i < |r.days| && r.days[i].tokens > 0|
              && (forall d | d in r.days :: d.tokens <= r.peakTokens)
              && (r.peakTokens == 0 || exists d | d in r.days :: d.tokens == r.peakTokens)
  {
    if IsReport(c, rows, r) {
      var tokens := DayTokens(c, rows, |c|);
      var list :| |r.days| == |c| && forall k: nat | k < |c| :: IsDay(c, rows, list, k, r.days[k]);
      forall k: nat | k < |c| ensures r.days[k].tokens == tokens[k] {
        assert IsDay(c, rows, list, k, r.days[k]);
      }
      assert TokensOfDays(r.days) == tokens;
      ActiveIsCount(r.days, tokens, |c|);
      FiguresOfTokens(r, tokens);
    }
  }

  lemma FiguresOfTokens(r: Report, tokens: seq<int>)
    requires |r.days| == |tokens| && forall i | 0 <= i < |tokens| :: r.days[i].tokens == tokens[i]
    requires r.peakTokens == Peak(tokens)
    ensures forall d | d in r.days :: d.tokens <= r.peakTokens
    ensures r.peakTokens == 0 || exists d | d in r.days :: d.tokens == r.peakTokens
  {
    forall d | d in r.days ensures d.tokens <= r.peakTokens {
      var i :| 0 <= i < |r.days| && r.days[i] == d;
      assert tokens[i] <= Peak(tokens);
    }
    if r.peakTokens != 0 {
      var i :| 0 <= i < |tokens| && tokens[i] == r.peakTokens;
      assert r.days[i] in r.days;
    }
  }

  lemma {:induction false} ActiveIsCount(days: seq<Day>, tokens: seq<int>, n: nat)
    requires n <= |days| == |tokens| && forall i | 0 <= i < |tokens| :: days[i].tokens == tokens[i]
    ensures |Nonzero(tokens[..n])| == |set i: nat | i < n && days[i].tokens > 0|
    ensures tokens[..|tokens|] == tokens
  {
    if n > 0 {
      ActiveIsCount(days, tokens, n - 1);
      assert tokens[..n][..n-1] == tokens[..n-1];
      var fewer, more := set i: nat | i < n - 1 && days[i].tokens > 0, set i: nat | i < n && days[i].tokens > 0;
      assert more == if days[n-1].tokens > 0 then fewer + {n - 1} else fewer;
    }
  }

  /** The order of names is by the first character in which they differ; a name comes before its extensions. */
  lemma {:induction false} LessIsLexicographic(a: string, b: string)
    ensures Less(a, b)
            <==> exists n: nat :: n <= |a| && n < |b| && a[..n] == b[..n] && (n == |a| || a[n] < b[n])
  {
    if a != "" && b != "" && a[0] == b[0] {
      LessIsLexicographic(a[1..], b[1..]);
      if Less(a, b) {
        var n: nat :| n <= |a[1..]| && n < |b[1..]| && a[1..][..n] == b[1..][..n]
            && (n == |a[1..]| || a[1..][n] < b[1..][n]);
        assert a[..n+1] == [a[0]] + a[1..][..n] && b[..n+1] == [b[0]] + b[1..][..n];
      }
      if n: nat :| n <= |a| && n < |b| && a[..n] == b[..n] && (n == |a| || a[n] < b[n]) {
        assert n > 0 && a[..n][1..] == a[1..][..n-1] && b[..n][1..] == b[1..][..n-1];
      }
    } else if Less(a, b) {
      assert a[..0] == b[..0];
    }
  }

  /** Each listed model has the tokens of its rows in the window, unnamed ones under Unknown; the first six have a
      colour
      of their own, and each is ahead of the next by tokens, then by name. */
  lemma ModelsAreSums(c: Calendar, rows: seq<Row>, r: Report, i: nat)
    requires i < |r.models| && i < 6
    ensures IsReport(c, rows, r) ==>
              && r.models[i].tokens == SumWhere(rows, InWindowOf(c[0], c[|c|-1], r.models[i].name)) > 0
              && r.models[i].color == Palette(i)
              && forall j: nat | i < j < |r.models| && j < 6 ::
                   || r.models[i].tokens > r.models[j].tokens
                   || (r.models[i].tokens == r.models[j].tokens && Less(r.models[i].name, r.models[j].name))
  {
    if IsReport(c, rows, r) {
      hide IsDay;
      hide Total;
      var list: seq<Entry> :| IsRanking(c, rows, list) && r.models == Legend(list);
      assert list[i] in list && r.models[i].name == list[i].name;
      ModelTotal(c, rows, list[i].name);
      forall j: nat | i < j < |r.models| && j < 6
        ensures Before(Entry(r.models[i].name, r.models[i].tokens), Entry(r.models[j].name, r.models[j].tokens))
      {
        assert Before(list[i], list[j]);
      }
    }
  }

  lemma ModelTotal(c: Calendar, rows: seq<Row>, name: string)
    ensures Total(c, rows, OfModel(name)) == SumWhere(rows, InWindowOf(c[0], c[|c|-1], name))
  {
    TotalIsSum(c, rows, OfModel(name), InWindowOf(c[0], c[|c|-1], name));
  }

  /** A seventh line appears exactly when there are more models, under one name and colour; every model with tokens is
      listed by name or is among those. */
  lemma AllModelsListed(c: Calendar, rows: seq<Row>, r: Report, name: string)
    ensures IsReport(c, rows, r) ==>
              && |r.models| <= 7
              && (|r.models| == 7 ==> r.models[6].name == "Other models" && r.models[6].color == OtherColor)
              && (SumWhere(rows, InWindowOf(c[0], c[|c|-1], name)) > 0 ==>
                    (exists i: nat :: i < |r.models| && i < 6 && r.models[i].name == name) || |r.models| == 7)
  {
    if IsReport(c, rows, r) {
      hide IsDay;
      hide Total;
      var list :| IsRanking(c, rows, list) && r.models == Legend(list);
      ModelTotal(c, rows, name);
      if Total(c, rows, OfModel(name)) > 0 {
        var e := Entry(name, Total(c, rows, OfModel(name)));
        assert e in list;
        var i: nat :| i < |list| && list[i] == e;
        assert i < 6 ==> r.models[i].name == name;
      }
    }
  }

  /** The favourite of a day that is not empty has tokens on it, and is ahead of every other model of the day by tokens,
      then by name; its colour is the one it has in the list, or the common one. */
  lemma FavoriteIsLargest(c: Calendar, rows: seq<Row>, r: Report, i: nat, other: string)
    requires i < |c|
    ensures IsReport(c, rows, r) && r.days[i].tokens > 0 ==>
              var name := r.days[i].model;
              var most, its := SumWhere(rows, OnDayBy(c[i], name)), SumWhere(rows, OnDayBy(c[i], other));
              && most > 0 && (other != name ==> most > its || (most == its && Less(name, other)))
              && (forall j: nat | j < |r.models| && j < 6 && r.models[j].name == name :: r.days[i].color == Palette(j))
              && (r.days[i].color.OtherColor? || exists j: nat :: j < |r.models| && j < 6 && r.models[j].name == name)
    ensures IsReport(c, rows, r) && r.days[i].tokens == 0 ==> r.days[i].model == "" && r.days[i].color == Uncolored
  {
    if IsReport(c, rows, r) {
      var list :| IsRanking(c, rows, list) && r.models == Legend(list) && |r.days| == |c|
        && (forall k: nat | k < |c| :: IsDay(c, rows, list, k, r.days[k]));
      assert IsDay(c, rows, list, i, r.days[i]);
      hide Total;
      hide Level;
      if r.days[i].tokens > 0 {
        DayModelTotal(c, rows, i, r.days[i].model);
        DayModelTotal(c, rows, i, other);
        FavoriteColor(c, rows, list, r.models, r.days[i].model, r.days[i].color);
      }
    }
  }

  lemma DayModelTotal(c: Calendar, rows: seq<Row>, i: nat, name: string)
    requires i < |c|
    ensures Total(c, rows, DayModel(c[i], name)) == SumWhere(rows, OnDayBy(c[i], name))
  {
    InCalendar(c, i);
    TotalIsSum(c, rows, DayModel(c[i], name), OnDayBy(c[i], name));
  }

  lemma FavoriteColor(c: Calendar, rows: seq<Row>, list: seq<Entry>, models: seq<Model>, name: string, color: Color)
    requires IsRanking(c, rows, list) && models == Legend(list) && IsColor(list, name, color)
    ensures forall j: nat | j < |models| && j < 6 && models[j].name == name :: color == Palette(j)
    ensures color.OtherColor? || exists j: nat :: j < |models| && j < 6 && models[j].name == name
  {
    hide Total;
    var i :| 0 <= i < |list| && list[i].name == name && color == ColorAt(i);
    assert i < 6 ==> models[i].name == name;
    forall j: nat | j < |models| && j < 6 && models[j].name == name ensures color == Palette(j) {
      assert list[j].name == name;
      assert IsColor(list, name, ColorAt(j));
      ColorIsUnique(c, rows, list, name, color, ColorAt(j));
    }
  }

  // ---------- Building the report ----------

  type Tally = map<string, int>

  function Amount(m: Tally, name: string): int {
    if name in m then m[name] else 0
  }

  function TallyOf(byDay: map<Key, Tally>, day: Key): Tally {
    if day in byDay then byDay[day] else map[]
  }

  /** The map holds the models with a positive total, and those totals. */
  ghost predicate Holds(c: Calendar, rows: seq<Row>, m: Tally, p: string -> Pick) {
    forall n :: Amount(m, n) == Total(c, rows, p(n)) && (n in m ==> m[n] > 0)
  }

  function PerModel(): string -> Pick {
    n => OfModel(n)
  }

  function PerDay(day: Key): string -> Pick {
    n => DayModel(day, n)
  }

  lemma HoldsPush(c: Calendar, rows: seq<Row>, row: Row, m: Tally, p: string -> Pick)
    requires Holds(c, rows, m, p) && Kept(c, row)
    requires forall n :: Picks(p(n), row) <==> n == Name(row)
    ensures Holds(c, rows + [row], m[Name(row) := Amount(m, Name(row)) + row.tokens], p)
  {
    var next := m[Name(row) := Amount(m, Name(row)) + row.tokens];
    forall n ensures Amount(next, n) == Total(c, rows + [row], p(n)) && (n in next ==> next[n] > 0) {
      TotalPush(c, rows, row, p(n));
      assert Amount(m, n) == Total(c, rows, p(n));
    }
  }

  lemma HoldsSkip(c: Calendar, rows: seq<Row>, row: Row, m: Tally, p: string -> Pick)
    requires Holds(c, rows, m, p)
    requires forall n :: Weight(c, p(n), row) == 0
    ensures Holds(c, rows + [row], m, p)
  {
    forall n ensures Amount(m, n) == Total(c, rows + [row], p(n)) && (n in m ==> m[n] > 0) {
      TotalPush(c, rows, row, p(n));
    }
  }

  /** The first loop: tokens by model, and by day and model. */
  method Aggregate(c: Calendar, rows: seq<Row>) returns (byDay: map<Key, Tally>, byModel: Tally)
    ensures Holds(c, rows, byModel, PerModel())
    ensures forall d :: Holds(c, rows, TallyOf(byDay, d), PerDay(d))
  {
    hide Holds;
    byDay, byModel := map[], map[];
    HoldsNothing(c, PerModel());
    forall d ensures Holds(c, [], TallyOf(byDay, d), PerDay(d)) {
      HoldsNothing(c, PerDay(d));
    }
    for i := 0 to |rows|
      invariant Holds(c, rows[..i], byModel, PerModel())
      invariant forall d :: Holds(c, rows[..i], TallyOf(byDay, d), PerDay(d))
    {
      var row := rows[i];
      ghost var seen := rows[..i];
      assert rows[..i+1] == seen + [row];
      if !Kept(c, row) {
        HoldsSkip(c, seen, row, byModel, PerModel());
        forall d ensures Holds(c, seen + [row], TallyOf(byDay, d), PerDay(d)) {
          HoldsSkip(c, seen, row, TallyOf(byDay, d), PerDay(d));
        }
        continue;
      }
      var name := Name(row);
      var day := TallyOf(byDay, row.day);
      HoldsPush(c, seen, row, byModel, PerModel());
      HoldsPush(c, seen, row, day, PerDay(row.day));
      forall d | d != row.day ensures Holds(c, seen + [row], TallyOf(byDay, d), PerDay(d)) {
        HoldsSkip(c, seen, row, TallyOf(byDay, d), PerDay(d));
      }
      byDay := byDay[row.day := day[name := Amount(day, name) + row.tokens]];
      byModel := byModel[name := Amount(byModel, name) + row.tokens];
    }
    assert rows[..|rows|] == rows;
  }

  lemma HoldsNothing(c: Calendar, p: string -> Pick)
    ensures Holds(c, [], map[], p)
  {
  }

  function Place(list: seq<Entry>, e: Entry): seq<Entry> {
    if list == [] || Before(e, list[0]) then [e] + list else [list[0]] + Place(list[1..], e)
  }

  lemma BeforeTransitive(a: Entry, b: Entry, e: Entry)
    requires Before(a, b) && Before(b, e)
    ensures Before(a, e)
  {
    if a.tokens == b.tokens == e.tokens {
      LessTransitive(a.name, b.name, e.name);
    }
  }

  lemma {:induction false} PlaceKeepsRanked(list: seq<Entry>, e: Entry)
    requires Ranked(list) && forall x | x in list :: x.name != e.name
    ensures Ranked(Place(list, e)) && forall x :: x in Place(list, e) <==> x == e || x in list
  {
    if list == [] {
    } else if Before(e, list[0]) {
      forall j | 0 <= j < |list| ensures Before(e, list[j]) {
        if j > 0 {
          BeforeTransitive(e, list[0], list[j]);
        }
      }
    } else {
      assert list[0] in list;
      LessIsOrder(list[0].name, e.name);
      assert Before(list[0], e);
      PlaceKeepsRanked(list[1..], e);
      var placed := Place(list[1..], e);
      forall j | 0 <= j < |placed| ensures Before(list[0], placed[j]) {
        if placed[j] != e {
          assert placed[j] in placed && placed[j] in list[1..];
        }
      }
      assert forall x :: x in list <==> x == list[0] || x in list[1..];
    }
  }

  /** Rank the models, which the map yields in any order. */
  method RankModels(byModel: Tally) returns (list: seq<Entry>)
    ensures Ranked(list) && forall e :: e in list <==> e.name in byModel && e.tokens == byModel[e.name]
  {
    list := [];
    var names := byModel.Keys;
    while names != {}
      invariant names <= byModel.Keys
      invariant Ranked(list)
      invariant forall e :: e in list <==> e.name in byModel && e.name !in names && e.tokens == byModel[e.name]
    {
      var name :| name in names;
      names := names - {name};
      PlaceKeepsRanked(list, Entry(name, byModel[name]));
      list := Place(list, Entry(name, byModel[name]));
    }
  }

  /** Among the models seen so far, none is ahead of the favourite. */
  ghost predicate Leads(m: Tally, seen: set<string>, name: string, favorite: int) {
    if seen == {} then name == "" && favorite == 0
    else name in seen && name in m && favorite == m[name] && favorite > 0
         && forall n | n in seen && n in m && n != name :: Before(Entry(name, favorite), Entry(n, m[n]))
  }

  lemma LeadChanges(m: Tally, seen: set<string>, name: string, favorite: int, next: string)
    requires Leads(m, seen, name, favorite) && next in m && next !in seen && m[next] > 0
    ensures if m[next] > favorite || (m[next] == favorite && Less(next, name))
            then Leads(m, seen + {next}, next, m[next]) else Leads(m, seen + {next}, name, favorite)
  {
    LessIsOrder(name, next);
    if seen != {} && Before(Entry(next, m[next]), Entry(name, favorite)) {
      forall n | n in seen && n in m && n != name ensures Before(Entry(next, m[next]), Entry(n, m[n])) {
        BeforeTransitive(Entry(next, m[next]), Entry(name, favorite), Entry(n, m[n]));
      }
    }
  }

  /** The models of one day, in any order: its total and its favourite. */
  method SummarizeDay(c: Calendar, ghost rows: seq<Row>, day: Key, m: Tally) returns (tokens: int, name: string)
    requires Holds(c, rows, m, PerDay(day))
    ensures tokens == Total(c, rows, OnDay(day)) && IsFavorite(c, rows, day, name)
    ensures tokens > 0 ==> name in m
  {
    hide Leads;
    tokens, name := 0, "";
    var favorite := 0;
    var names := m.Keys;
    ghost var seen: set<string> := {};
    LeadsNobody(m);
    ZeroTotal(c, rows, DayModels(day, {}));
    while names != {}
      invariant names <= m.Keys && seen == m.Keys - names
      invariant tokens == Total(c, rows, DayModels(day, seen))
      invariant Leads(m, seen, name, favorite)
    {
      var next :| next in names;
      LeadChanges(m, seen, name, favorite, next);
      Additive(c, rows, DayModels(day, seen + {next}), DayModels(day, seen), DayModel(day, next));
      assert Amount(m, next) == Total(c, rows, PerDay(day)(next));
      tokens := tokens + m[next];
      if m[next] > favorite || (m[next] == favorite && Less(next, name)) {
        name, favorite := next, m[next];
      }
      names := names - {next};
      seen := seen + {next};
    }
    assert seen == m.Keys;
    DaySummary(c, rows, day, m, tokens, name, favorite);
  }

  lemma LeadsNobody(m: Tally)
    ensures Leads(m, {}, "", 0)
  {
  }

  lemma DayIsTallied(c: Calendar, rows: seq<Row>, day: Key, m: Tally)
    requires Holds(c, rows, m, PerDay(day))
    ensures Total(c, rows, DayModels(day, m.Keys)) == Total(c, rows, OnDay(day))
  {
    forall row | row in rows ensures Weight(c, DayModels(day, m.Keys), row) == Weight(c, OnDay(day), row) {
      ZeroTotal(c, rows, DayModel(day, Name(row)));
      assert Amount(m, Name(row)) == Total(c, rows, PerDay(day)(Name(row)));
    }
    SameTotal(c, rows, DayModels(day, m.Keys), OnDay(day));
  }

  lemma DaySummary(c: Calendar, rows: seq<Row>, day: Key, m: Tally, tokens: int, name: string, favorite: int)
    requires Holds(c, rows, m, PerDay(day)) && Leads(m, m.Keys, name, favorite)
    requires tokens == Total(c, rows, DayModels(day, m.Keys))
    ensures tokens == Total(c, rows, OnDay(day)) && IsFavorite(c, rows, day, name)
    ensures tokens > 0 ==> name in m
  {
    DayIsTallied(c, rows, day, m);
    if m == map[] {
      ZeroTotal(c, rows, DayModels(day, {}));
    } else {
      forall n ensures Amount(m, n) == Total(c, rows, DayModel(day, n)) {
        assert Amount(m, n) == Total(c, rows, PerDay(day)(n));
      }
      Additive(c, rows, DayModels(day, m.Keys), DayModels(day, m.Keys - {name}), DayModel(day, name));
    }
  }

  lemma RankedTotals(c: Calendar, rows: seq<Row>, byModel: Tally, list: seq<Entry>)
    requires Holds(c, rows, byModel, PerModel())
    requires Ranked(list) && forall e :: e in list <==> e.name in byModel && e.tokens == byModel[e.name]
    ensures IsRanking(c, rows, list)
  {
    forall e ensures e in list <==> e.tokens > 0 && e.tokens == Total(c, rows, OfModel(e.name)) {
      assert Amount(byModel, e.name) == Total(c, rows, PerModel()(e.name));
    }
  }

  /** A day's favourite has a place in the ranking. */
  lemma FavoriteIsRanked(c: Calendar, rows: seq<Row>, list: seq<Entry>, day: Key, name: string)
    requires IsRanking(c, rows, list) && IsFavorite(c, rows, day, name) && Total(c, rows, OnDay(day)) > 0
    ensures exists i :: 0 <= i < |list| && list[i].name == name
  {
    ZeroTotal(c, rows, DayModel(day, name));
    ZeroTotal(c, rows, OfModel(name));
    var row :| row in rows && Weight(c, DayModel(day, name), row) != 0;
    assert Weight(c, OfModel(name), row) != 0;
    var e := Entry(name, Total(c, rows, OfModel(name)));
    assert e in list;
    var i :| 0 <= i < |list| && list[i] == e;
  }

  /** The colour of a name, looked up in the ranking. */
  method FindColor(list: seq<Entry>, name: string) returns (color: Color)
    requires exists i :: 0 <= i < |list| && list[i].name == name
    ensures IsColor(list, name, color)
  {
    var i := 0;
    while list[i].name != name
      invariant 0 <= i < |list| && exists j :: i <= j < |list| && list[j].name == name
      decreases |list| - i
    {
      i := i + 1;
    }
    color := ColorAt(i);
  }

  /** A day before the levels are known. */
  ghost predicate IsDraft(c: Calendar, rows: seq<Row>, list: seq<Entry>, i: nat, d: Day)
    requires i < |c|
  {
    && d.date == c[i] && d.tokens == Total(c, rows, OnDay(c[i])) && IsFavorite(c, rows, c[i], d.model)
    && (if d.tokens == 0 then d.color == Uncolored else IsColor(list, d.model, d.color))
  }

  lemma DraftDay(c: Calendar, rows: seq<Row>, list: seq<Entry>, i: nat, d: Day)
    requires i < |c| && d.date == c[i] && d.tokens == Total(c, rows, OnDay(c[i])) && IsFavorite(c, rows, c[i], d.model)
    requires if d.tokens == 0 then d.color == Uncolored else IsColor(list, d.model, d.color)
    ensures IsDraft(c, rows, list, i, d)
  {
  }

  lemma NoDays(c: Calendar, rows: seq<Row>)
    ensures var tokens := DayTokens(c, rows, 0); Nonzero(tokens) == [] && Sum(tokens) == 0 && Peak(tokens) == 0
  {
  }

  lemma OneMoreDay(c: Calendar, rows: seq<Row>, i: nat)
    requires i < |c|
    ensures var fewer, more, t := DayTokens(c, rows, i), DayTokens(c, rows, i + 1), Total(c, rows, OnDay(c[i]));
            && Nonzero(more) == Nonzero(fewer) + (if t > 0 then [t as int] else [])
            && Sum(more) == Sum(fewer) + t
            && Peak(more) == if t > Peak(fewer) then t else Peak(fewer)
  {
    assert DayTokens(c, rows, i + 1)[..i] == DayTokens(c, rows, i);
  }

  /** The whole aggregation: the report the rows determine. */
  method Build(c: Calendar, rows: seq<Row>) returns (r: Report)
    ensures IsReport(c, rows, r) && LevelsAreQuartiles(r)
  {
    hide LevelsAreQuartiles;
    hide Holds;
    hide IsRanking;
    hide IsFavorite;
    hide IsColor;
    hide Total;
    hide Sum;
    hide Nonzero;
    hide Peak;
    hide DayTokens;
    hide Legend;
    hide IsDraft;
    hide IsReport;
    NoDays(c, rows);
    var byDay, byModel := Aggregate(c, rows);
    var list := RankModels(byModel);
    RankedTotals(c, rows, byModel, list);
    var days: seq<Day> := [];
    var nonzero: seq<int> := [];
    var total, active, peak := 0, 0, 0;
    for i := 0 to |c|
      invariant |days| == i && forall k: nat | k < i :: IsDraft(c, rows, list, k, days[k])
      invariant nonzero == Nonzero(DayTokens(c, rows, i)) && active == |nonzero|
      invariant total == Sum(DayTokens(c, rows, i)) && peak == Peak(DayTokens(c, rows, i))
    {
      var tokens, name := SummarizeDay(c, rows, c[i], TallyOf(byDay, c[i]));
      var color := Uncolored;
      OneMoreDay(c, rows, i);
      if tokens > 0 {
        FavoriteIsRanked(c, rows, list, c[i], name);
        color := FindColor(list, name);
        active := active + 1;
        nonzero := nonzero + [tokens];
      }
      total := total + tokens;
      peak := if tokens > peak then tokens else peak;
      DraftDay(c, rows, list, i, Day(c[i], tokens, name, 0, color));
      days := days + [Day(c[i], tokens, name, 0, color)];
    }
    var leveled := SetLevels(days, Sorted(nonzero));
    r := Report(total, active, peak, leveled, Legend(list));
    Assembled(c, rows, list, days, r);
    LevelsRankDays(c, rows, r);
  }

  /** The last loop: levels from the quartiles of the active days. */
  method SetLevels(days: seq<Day>, sorted: seq<int>) returns (r: seq<Day>)
    ensures |r| == |days| && forall i | 0 <= i < |r| :: r[i] == days[i].(level := Level(days[i].tokens, sorted))
  {
    r := [];
    for i := 0 to |days|
      invariant |r| == i && forall k | 0 <= k < i :: r[k] == days[k].(level := Level(days[k].tokens, sorted))
    {
      var level := 0;
      if days[i].tokens != 0 && sorted != [] {
        level := 1;
        for q := 1 to 4
          invariant level == 1 + (if q > 1 && days[i].tokens >= sorted[(|sorted| - 1) * 1 / 4] then 1 else 0)
                              + (if q > 2 && days[i].tokens >= sorted[(|sorted| - 1) * 2 / 4] then 1 else 0)
                              + (if q > 3 && days[i].tokens >= sorted[(|sorted| - 1) * 3 / 4] then 1 else 0)
        {
          if days[i].tokens >= sorted[(|sorted| - 1) * q / 4] {
            level := level + 1;
          }
        }
      }
      r := r + [days[i].(level := level)];
    }
  }

  lemma Assembled(c: Calendar, rows: seq<Row>, list: seq<Entry>, days: seq<Day>, r: Report)
    requires IsRanking(c, rows, list) && |days| == |c| && forall k: nat | k < |c| :: IsDraft(c, rows, list, k, days[k])
    requires |r.days| == |days| && r.models == Legend(list)
    requires var tokens := DayTokens(c, rows, |c|);
             && (forall k: nat | k < |c| ::
                 r.days[k] == days[k].(level := Level(days[k].tokens, Sorted(Nonzero(tokens)))))
             && r.totalTokens == Sum(tokens) && r.activeDays == |Nonzero(tokens)| && r.peakTokens == Peak(tokens)
    ensures IsReport(c, rows, r)
  {
    hide IsRanking;
    hide IsFavorite;
    hide IsColor;
    hide Level;
    hide Legend;
    forall k: nat | k < |c| ensures IsDay(c, rows, list, k, r.days[k]) {
      assert IsDraft(c, rows, list, k, days[k]);
    }
  }
}
