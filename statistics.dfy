/** calculate_statistics, flow_id_to_company_ids and update_statistics of
    statistics.py, with the record defaults of models/statistics_data.py:
    transactions are folded into one overall running-statistics record, one
    record per flow id and an (exported, imported) pair of records per
    company. */
module Statistics {
  import opened Wrappers

  /* ---------- Flow ids ---------- */

  /** Number of occurrences of k in xs: of a separator in a flow id, or of
      a flow or company id among a transaction's legs. */
  function Count<T(==)>(xs: seq<T>, k: T): (n: nat)
    ensures n > 0 <==> k in xs
    ensures n <= |xs|
  {
    if xs == [] then 0 else (if xs[0] == k then 1 else 0) + Count(xs[1..], k)
  }

  /** One more element adds one to its own count and nothing to others. */
  lemma CountSnoc<T>(xs: seq<T>, x: T, k: T)
    ensures Count(xs + [x], k) == Count(xs, k) + (if k == x then 1 else 0)
  {
    CountAppend(xs, [x], k);
    assert [x][1..] == [];
  }

  lemma {:induction false} CountAppend<T>(a: seq<T>, b: seq<T>, k: T)
    ensures Count(a + b, k) == Count(a, k) + Count(b, k)
    decreases |a|
  {
    if a == [] {
      assert a + b == b;
    } else {
      CountAppend(a[1..], b, k);
      assert (a + b)[1..] == a[1..] + b;
    }
  }

  /** str.split(sep): the pieces between separators, empty ones included;
      there is always one piece more than there are separators. */
  function Split(s: string, sep: char): (pieces: seq<string>)
    ensures |pieces| == Count(s, sep) + 1
    ensures forall i :: 0 <= i < |pieces| ==> sep !in pieces[i]
    decreases |s|
  {
    if s == [] then [""]
    else
      var rest := Split(s[1..], sep);
      if s[0] == sep then [""] + rest
      else [[s[0]] + rest[0]] + rest[1..]
  }

  /** sep.join(pieces). */
  function Join(pieces: seq<string>, sep: char): string
    requires |pieces| >= 1
    decreases |pieces|
  {
    if |pieces| == 1 then pieces[0]
    else pieces[0] + [sep] + Join(pieces[1..], sep)
  }

  /** Joining the pieces of a split gives back the string. */
  lemma {:induction false} JoinSplit(s: string, sep: char)
    ensures Join(Split(s, sep), sep) == s
    decreases |s|
  {
    if s != [] {
      var rest := Split(s[1..], sep);
      JoinSplit(s[1..], sep);
      if s[0] == sep {
        assert ([""] + rest)[1..] == rest;
      } else if |rest| > 1 {
        assert ([[s[0]] + rest[0]] + rest[1..])[1..] == rest[1..];
      }
    }
  }

  /** Splitting a string that starts with a separator-free prefix a glues a
      to the first piece of the rest. */
  lemma {:induction false} SplitPrefix(a: string, sep: char, t: string)
    requires sep !in a
    ensures Split(a + t, sep) == [a + Split(t, sep)[0]] + Split(t, sep)[1..]
    decreases |a|
  {
    var st := Split(t, sep);
    if a != [] {
      SplitPrefix(a[1..], sep, t);
      var rest := Split(a[1..] + t, sep);
      assert (a + t)[0] == a[0] && (a + t)[1..] == a[1..] + t;
      assert Split(a + t, sep) == [[a[0]] + rest[0]] + rest[1..];
      assert rest[0] == a[1..] + st[0] && rest[1..] == st[1..];
      assert [a[0]] + (a[1..] + st[0]) == a + st[0];
    } else {
      assert a + t == t && a + st[0] == st[0];
      assert [st[0]] + st[1..] == st;
    }
  }

  /** Splitting the join of separator-free pieces gives back the pieces. */
  lemma {:induction false} SplitJoin(pieces: seq<string>, sep: char)
    requires |pieces| >= 1
    requires forall i :: 0 <= i < |pieces| ==> sep !in pieces[i]
    ensures Split(Join(pieces, sep), sep) == pieces
    decreases |pieces|
  {
    var p := pieces[0];
    if |pieces| == 1 {
      SplitPrefix(p, sep, []);
      assert p + [] == p;
    } else {
      var j := Join(pieces[1..], sep);
      SplitJoin(pieces[1..], sep);
      assert Join(pieces, sep) == p + ([sep] + j);
      SplitPrefix(p, sep, [sep] + j);
      assert ([sep] + j)[1..] == j;
      assert p + [] == p;
    }
  }

  /** {'sender': ..., 'receiver': ...}. */
  datatype CompanyIds = CompanyIds(sender: string, receiver: string)

  /** ValueError('Invalid flow_id format: ...'). */
  datatype InvalidFlowId = InvalidFlowId(flowId: string)

  /** flow_id_to_company_ids: the first two '_'-separated pieces; later
      pieces are ignored, and a flow id without '_' is an error. */
  function FlowIdToCompanyIds(flowId: string): (r: Result<CompanyIds, InvalidFlowId>)
    ensures r.Ok? <==> '_' in flowId
    ensures r.Err? ==> r.error == InvalidFlowId(flowId)
    ensures r.Ok? ==> '_' !in r.value.sender && '_' !in r.value.receiver
  {
    var companyIds := Split(flowId, '_');
    if |companyIds| < 2 then Err(InvalidFlowId(flowId))
    else Ok(CompanyIds(companyIds[0], companyIds[1]))
  }

  /** The sender and receiver are the text before the first '_' and between
      the first and the second '_' (or the end). */
  lemma FlowIdLayout(flowId: string)
    requires FlowIdToCompanyIds(flowId).Ok?
    ensures var ids := FlowIdToCompanyIds(flowId).value;
            var n := |ids.sender| + 1 + |ids.receiver|;
            n <= |flowId| && flowId[..n] == ids.sender + "_" + ids.receiver
            && (n == |flowId| || flowId[n] == '_')
  {
    var pieces := Split(flowId, '_');
    JoinSplit(flowId, '_');
    var a, b := pieces[0], pieces[1];
    var tail := if |pieces| == 2 then "" else "_" + Join(pieces[2..], '_');
    assert Join(pieces[1..], '_') == b + tail by {
      if |pieces| > 2 {
        assert pieces[1..][1..] == pieces[2..];
      }
    }
    assert flowId == (a + "_" + b) + tail by {
      assert flowId == a + ['_'] + Join(pieces[1..], '_');
    }
    var n := |a| + 1 + |b|;
    assert flowId[..n] == a + "_" + b;
    if n < |flowId| {
      assert flowId[n] == tail[0];
    }
  }

  /** A flow id made of separator-free company ids joined by '_' gives back
      those ids. */
  lemma FlowIdRoundTrip(sender: string, receiver: string)
    requires '_' !in sender && '_' !in receiver
    ensures FlowIdToCompanyIds(sender + "_" + receiver) == Ok(CompanyIds(sender, receiver))
  {
    SplitJoin([sender, receiver], '_');
    assert Join([sender, receiver], '_') == sender + "_" + receiver;
  }

  /* ---------- Running statistics of a sequence of values ---------- */

  /** The +inf-or-number that min_value holds. */
  datatype Extended = PosInfinity | Finite(value: int)

  /** Python's min(m, v) for an extended m. */
  function MinWith(m: Extended, v: int): (r: Extended)
    ensures r.Finite? && r.value <= v
    ensures m.Finite? ==> r.value <= m.value
    ensures r == Finite(v) || r == m
  {
    match m
    case PosInfinity => Finite(v)
    case Finite(x) => if v < x then Finite(v) else Finite(x)
  }

  function Sum(vs: seq<int>): int
  {
    if vs == [] then 0 else Sum(vs[..|vs| - 1]) + vs[|vs| - 1]
  }

  /** max(init, vs[0], ..., vs[n-1]): the running maximum that starts at init. */
  function MaxFrom(init: int, vs: seq<int>): (m: int)
    ensures init <= m
    ensures forall i :: 0 <= i < |vs| ==> vs[i] <= m
    ensures m == init || m in vs
  {
    if vs == [] then init
    else
      var m0 := MaxFrom(init, vs[..|vs| - 1]);
      assert forall i :: 0 <= i < |vs| - 1 ==> vs[..|vs| - 1][i] == vs[i];
      if m0 < vs[|vs| - 1] then vs[|vs| - 1] else m0
  }

  /** The running minimum that starts at +inf. */
  function MinOf(vs: seq<int>): (m: Extended)
    ensures m.PosInfinity? <==> vs == []
    ensures m.Finite? ==> m.value in vs && forall i :: 0 <= i < |vs| ==> m.value <= vs[i]
  {
    if vs == [] then PosInfinity
    else
      var m0 := MinOf(vs[..|vs| - 1]);
      assert forall i :: 0 <= i < |vs| - 1 ==> vs[..|vs| - 1][i] == vs[i];
      MinWith(m0, vs[|vs| - 1])
  }

  /** total / quantity when quantity > 0, else 0.0. */
  function Average(total: int, quantity: nat): real
  {
    if quantity > 0 then total as real / quantity as real else 0.0
  }

  /** The value of max_value before any update (statistics_data.py). */
  const InitialMax: int := 0

  /** A sum of n values in [lo, hi] lies in [n * lo, n * hi]. */
  lemma {:induction false} SumBounds(vs: seq<int>, lo: int, hi: int)
    requires forall i :: 0 <= i < |vs| ==> lo <= vs[i] <= hi
    ensures |vs| * lo <= Sum(vs) <= |vs| * hi
  {
    if vs != [] {
      var init := vs[..|vs| - 1];
      assert forall i :: 0 <= i < |init| ==> init[i] == vs[i];
      SumBounds(init, lo, hi);
      assert |vs| * lo == |init| * lo + lo && |vs| * hi == |init| * hi + hi;
    }
  }


  /* ---------- Records ---------- */

  /** The five fields of a TransactionStatistics record. */
  datatype Stats = Stats(quantity: nat, totalValue: int, averageValue: real, maxValue: int, minValue: Extended)

  /** A fresh TransactionStatistics(): quantity 0, total 0, average 0, max 0
      and min +inf. */
  const Initial: Stats := Stats(0, 0, 0.0, InitialMax, PosInfinity)

  /** update_statistics(stats, value) on the fields of one record. */
  function UpdateStatistics(s: Stats, value: int): Stats
  {
    var quantity := s.quantity + 1;
    var totalValue := s.totalValue + value;
    Stats(quantity, totalValue, Average(totalValue, quantity),
          if s.maxValue < value then value else s.maxValue, MinWith(s.minValue, value))
  }

  /** One update: one more value, its total, a max and a min that take the
      value in, and the new mean total / quantity. */
  lemma UpdateStatisticsMeaning(s: Stats, value: int)
    ensures var r := UpdateStatistics(s, value);
            r.quantity == s.quantity + 1 && r.totalValue == s.totalValue + value
            && s.maxValue <= r.maxValue && value <= r.maxValue
            && (r.maxValue == s.maxValue || r.maxValue == value)
            && r.minValue.Finite? && r.minValue.value <= value
            && (s.minValue.Finite? ==> r.minValue.value <= s.minValue.value)
            && (r.minValue == s.minValue || r.minValue == Finite(value))
            && r.averageValue == r.totalValue as real / r.quantity as real
  {
  }

  /** The record s after update_statistics has folded in vs, oldest first. */
  function FoldFrom(s: Stats, vs: seq<int>): Stats
  {
    if vs == [] then s else UpdateStatistics(FoldFrom(s, vs[..|vs| - 1]), vs[|vs| - 1])
  }

  /** The statistics of a sequence of values: how many, their sum and mean,
      their maximum (never below the initial 0) and their minimum. */
  function StatsOf(vs: seq<int>): Stats
  {
    Stats(|vs|, Sum(vs), Average(Sum(vs), |vs|), MaxFrom(InitialMax, vs), MinOf(vs))
  }

  /** A fresh record that takes the values vs holds their statistics. */
  lemma {:induction false} FoldIsStatistics(vs: seq<int>)
    ensures FoldFrom(Initial, vs) == StatsOf(vs)
  {
    if vs != [] {
      FoldIsStatistics(vs[..|vs| - 1]);
    }
  }

  /** Taking a, then b, is taking a + b. */
  lemma {:induction false} FoldAppend(s: Stats, a: seq<int>, b: seq<int>)
    ensures FoldFrom(FoldFrom(s, a), b) == FoldFrom(s, a + b)
    decreases |b|
  {
    if b == [] {
      assert a + b == a;
    } else {
      FoldAppend(s, a, b[..|b| - 1]);
      assert (a + b)[..|a + b| - 1] == a + b[..|b| - 1];
    }
  }

  /** The statistics of vs after one more value are the update of those of vs. */
  lemma StatsStep(vs: seq<int>, v: int)
    ensures StatsOf(vs + [v]) == UpdateStatistics(StatsOf(vs), v)
  {
    FoldIsStatistics(vs);
    FoldIsStatistics(vs + [v]);
    assert (vs + [v])[..|vs|] == vs;
  }

  /** A record that has taken at least one value: min <= every value <= max,
      and the mean, total / quantity, lies between min and max. */
  lemma RecordBounds(vs: seq<int>)
    requires vs != []
    ensures var s := StatsOf(vs);
            s.quantity > 0 && s.averageValue == s.totalValue as real / s.quantity as real
            && s.minValue.Finite?
            && (forall i :: 0 <= i < |vs| ==> s.minValue.value <= vs[i] <= s.maxValue)
            && s.minValue.value as real <= s.averageValue <= s.maxValue as real
  {
    var lo, hi := MinOf(vs).value, MaxFrom(InitialMax, vs);
    SumBounds(vs, lo, hi);
    MeanBetween(Sum(vs), |vs|, lo, hi);
  }

  /** n * lo <= total <= n * hi gives lo <= total / n <= hi. */
  lemma MeanBetween(total: int, n: nat, lo: int, hi: int)
    requires n > 0 && n * lo <= total <= n * hi
    ensures lo as real <= total as real / n as real <= hi as real
  {
    var q := total as real / n as real;
    assert q * n as real == total as real;
    assert (n * lo) as real == n as real * lo as real;
    assert (n * hi) as real == n as real * hi as real;
  }

  /** TransactionStatistics, changed in place by update_statistics. */
  class TransactionStatistics {
    var quantity: nat
    var totalValue: int
    var averageValue: real
    var maxValue: int
    var minValue: Extended
    /** The order values folded in so far, oldest first. */
    ghost var values: seq<int>

    function Fields(): Stats
      reads this
    {
      Stats(quantity, totalValue, averageValue, maxValue, minValue)
    }

    /** The fields are the statistics of the values taken. */
    ghost predicate Valid()
      reads this
    {
      Fields() == StatsOf(values)
    }

    /** TransactionStatistics(): the defaults of statistics_data.py. */
    constructor ()
      ensures Fields() == Initial && values == [] && Valid()
    {
      quantity := 0;
      totalValue := 0;
      averageValue := 0.0;
      maxValue := InitialMax;
      minValue := PosInfinity;
      values := [];
    }

    /** update_statistics(stats, value): the record's fields, and nothing
        else, become their update by value. */
    method Update(value: int)
      modifies this
      ensures Fields() == UpdateStatistics(old(Fields()), value)
      ensures values == old(values) + [value]
      ensures old(Valid()) ==> Valid()
    {
      quantity := quantity + 1;
      totalValue := totalValue + value;
      maxValue := if maxValue < value then value else maxValue;
      minValue := MinWith(minValue, value);
      averageValue := if quantity > 0 then totalValue as real / quantity as real else 0.0;
      values := values + [value];
      assert Fields() == UpdateStatistics(old(Fields()), value);
      if old(Valid()) {
        StatsStep(old(values), value);
      }
    }
  }

  /** CompanyTransactionStatistics: the exported and imported records. */
  datatype CompanyStats = CompanyStats(exported: Stats, imported: Stats)

  /** GlobalTransactionStatistics: the overall record, a record per flow id
      and a record pair per company id. */
  datatype GlobalStats = GlobalStats(
    globalStatistics: Stats,
    statisticsPerFlow: map<string, Stats>,
    statisticsPerCompany: map<string, CompanyStats>)

  /* ---------- Transactions ---------- */

  /** A Transaction (models/csv_data.py); order values are integers. */
  datatype Transaction = Transaction(
    productName: string, productCategory: string,
    flowIdSupplier: string, flowIdInternal: string, flowIdCustomer: string,
    orderValue: int)

  /** The three flow ids of a transaction, in the order they are processed. */
  function Legs(t: Transaction): seq<string>
  {
    [t.flowIdSupplier, t.flowIdInternal, t.flowIdCustomer]
  }

  /** [flow_id_to_company_ids(f) for f in flowIds]: all pairs, or the error
      of the first malformed flow id. */
  function ParseAll(flowIds: seq<string>): (r: Result<seq<CompanyIds>, InvalidFlowId>)
    ensures r.Ok? <==> forall i :: 0 <= i < |flowIds| ==> '_' in flowIds[i]
    ensures r.Ok? ==> |r.value| == |flowIds|
                      && forall i :: 0 <= i < |flowIds| ==> FlowIdToCompanyIds(flowIds[i]) == Ok(r.value[i])
  {
    if flowIds == [] then Ok([])
    else
      match FlowIdToCompanyIds(flowIds[0])
      case Err(e) => Err(e)
      case Ok(ids) =>
        match ParseAll(flowIds[1..])
        case Err(e) => Err(e)
        case Ok(rest) =>
          assert forall i :: 1 <= i < |flowIds| ==> flowIds[i] == flowIds[1..][i - 1];
          Ok([ids] + rest)
  }

  /** The error is that of the first flow id without '_'. */
  lemma {:induction false} ParseAllError(flowIds: seq<string>)
    requires ParseAll(flowIds).Err?
    ensures exists k :: 0 <= k < |flowIds| && '_' !in flowIds[k]
                        && ParseAll(flowIds).error == InvalidFlowId(flowIds[k])
                        && forall i :: 0 <= i < k ==> '_' in flowIds[i]
  {
    if '_' in flowIds[0] {
      ParseAllError(flowIds[1..]);
      var k :| 0 <= k < |flowIds[1..]| && '_' !in flowIds[1..][k]
               && ParseAll(flowIds[1..]).error == InvalidFlowId(flowIds[1..][k])
               && forall i :: 0 <= i < k ==> '_' in flowIds[1..][i];
      assert forall i :: 1 <= i < k + 1 ==> flowIds[i] == flowIds[1..][i - 1];
      assert '_' !in flowIds[k + 1];
    } else {
      assert '_' !in flowIds[0];
    }
  }

  /** [id['sender'] for id in companyIds]. */
  function Senders(companyIds: seq<CompanyIds>): seq<string>
  {
    seq(|companyIds|, i requires 0 <= i < |companyIds| => companyIds[i].sender)
  }

  /** [id['receiver'] for id in companyIds]. */
  function Receivers(companyIds: seq<CompanyIds>): seq<string>
  {
    seq(|companyIds|, i requires 0 <= i < |companyIds| => companyIds[i].receiver)
  }

  /* ---------- What calculate_statistics computes ---------- */

  /** Every leg of every transaction is a well-formed flow id. */
  ghost predicate WellFormed(ts: seq<Transaction>)
  {
    forall i :: 0 <= i < |ts| ==> ParseAll(Legs(ts[i])).Ok?
  }

  /** The error calculate_statistics raises: that of the first malformed
      leg of the first transaction that has one. */
  function FirstError(ts: seq<Transaction>): Option<InvalidFlowId>
  {
    if ts == [] then None
    else
      match ParseAll(Legs(ts[0]))
      case Err(e) => Some(e)
      case Ok(_) => FirstError(ts[1..])
  }

  /** There is no error exactly when every leg is well formed. */
  lemma {:induction false} FirstErrorNone(ts: seq<Transaction>)
    ensures FirstError(ts).None? <==> WellFormed(ts)
  {
    if ts != [] {
      FirstErrorNone(ts[1..]);
      assert forall i :: 1 <= i < |ts| ==> ts[i] == ts[1..][i - 1];
    }
  }

  /** When the transactions before ts[k] are well formed and ts[k] is not,
      the error is that of ts[k]. */
  lemma {:induction false} FirstErrorAt(ts: seq<Transaction>, k: nat)
    requires k < |ts| && WellFormed(ts[..k]) && ParseAll(Legs(ts[k])).Err?
    ensures FirstError(ts) == Some(ParseAll(Legs(ts[k])).error)
  {
    if k > 0 {
      assert ts[0] == ts[..k][0];
      var q := ts[1..][..k - 1];
      forall j | 0 <= j < |q|
        ensures ParseAll(Legs(q[j])).Ok?
      {
        assert q[j] == ts[..k][j + 1];
      }
      FirstErrorAt(ts[1..], k - 1);
    }
  }

  /** n copies of v. */
  function Repeat(v: int, n: nat): (vs: seq<int>)
    ensures |vs| == n && forall i :: 0 <= i < n ==> vs[i] == v
  {
    if n == 0 then [] else Repeat(v, n - 1) + [v]
  }

  function ToSet(xs: seq<string>): set<string>
  {
    set x | x in xs
  }

  /** The order value of each transaction, in order. */
  function OrderValues(ts: seq<Transaction>): seq<int>
  {
    seq(|ts|, i requires 0 <= i < |ts| => ts[i].orderValue)
  }

  /** The companies a transaction exports from: the senders of its legs. */
  function Exporters(t: Transaction): seq<string>
  {
    match ParseAll(Legs(t))
    case Ok(ids) => Senders(ids)
    case Err(_) => []
  }

  /** The companies a transaction imports to: the receivers of its legs. */
  function Importers(t: Transaction): seq<string>
  {
    match ParseAll(Legs(t))
    case Ok(ids) => Receivers(ids)
    case Err(_) => []
  }

  /** The flow ids that occur as a leg of some transaction. */
  function FlowKeys(ts: seq<Transaction>): set<string>
  {
    if ts == [] then {} else FlowKeys(ts[..|ts| - 1]) + ToSet(Legs(ts[|ts| - 1]))
  }

  /** The values a flow's record takes: each transaction's order value,
      once per leg that has this flow id. */
  function FlowSeries(ts: seq<Transaction>, f: string): seq<int>
  {
    if ts == [] then []
    else
      var t := ts[|ts| - 1];
      FlowSeries(ts[..|ts| - 1], f) + Repeat(t.orderValue, Count(Legs(t), f))
  }

  /** The company ids that occur as a sender or a receiver. */
  function CompanyKeys(ts: seq<Transaction>): set<string>
  {
    if ts == [] then {}
    else
      var t := ts[|ts| - 1];
      CompanyKeys(ts[..|ts| - 1]) + ToSet(Exporters(t) + Importers(t))
  }

  /** The values a company's exported record takes: the order value once
      per leg that the company sends. */
  function ExportSeries(ts: seq<Transaction>, c: string): seq<int>
  {
    if ts == [] then []
    else
      var t := ts[|ts| - 1];
      ExportSeries(ts[..|ts| - 1], c) + Repeat(t.orderValue, Count(Exporters(t), c))
  }

  /** The values a company's imported record takes: the order value once
      per leg that the company receives. */
  function ImportSeries(ts: seq<Transaction>, c: string): seq<int>
  {
    if ts == [] then []
    else
      var t := ts[|ts| - 1];
      ImportSeries(ts[..|ts| - 1], c) + Repeat(t.orderValue, Count(Importers(t), c))
  }

  /** Each flow id seen has a record, holding the statistics of its values. */
  ghost predicate FlowsOk(m: map<string, Stats>, ts: seq<Transaction>)
  {
    m.Keys == FlowKeys(ts) && forall f | f in m :: m[f] == StatsOf(FlowSeries(ts, f))
  }

  /** Each company seen has a record pair, holding the statistics of what it
      exported and what it imported. */
  ghost predicate CompaniesOk(m: map<string, CompanyStats>, ts: seq<Transaction>)
  {
    m.Keys == CompanyKeys(ts)
    && forall c | c in m :: m[c] == CompanyStats(StatsOf(ExportSeries(ts, c)), StatsOf(ImportSeries(ts, c)))
  }

  /** The results calculate_statistics returns for ts. */
  ghost predicate Summarises(results: GlobalStats, ts: seq<Transaction>)
  {
    results.globalStatistics == StatsOf(OrderValues(ts))
    && FlowsOk(results.statisticsPerFlow, ts)
    && CompaniesOk(results.statisticsPerCompany, ts)
  }

  /** Flow f has values exactly when it is a leg of some transaction. */
  lemma {:induction false} FlowKeysSeries(ts: seq<Transaction>, f: string)
    ensures FlowSeries(ts, f) != [] <==> f in FlowKeys(ts)
  {
    if ts != [] {
      FlowKeysSeries(ts[..|ts| - 1], f);
    }
  }

  /** Company c has values exactly when it sends or receives on some leg. */
  lemma {:induction false} CompanyKeysSeries(ts: seq<Transaction>, c: string)
    ensures ExportSeries(ts, c) != [] || ImportSeries(ts, c) != [] <==> c in CompanyKeys(ts)
  {
    if ts != [] {
      var t := ts[|ts| - 1];
      CompanyKeysSeries(ts[..|ts| - 1], c);
      assert c in Exporters(t) + Importers(t) <==> c in Exporters(t) || c in Importers(t);
    }
  }


  /** All legs of all transactions, in order. */
  function AllLegs(ts: seq<Transaction>): seq<string>
  {
    if ts == [] then [] else AllLegs(ts[..|ts| - 1]) + Legs(ts[|ts| - 1])
  }

  /** All senders, and all receivers, of all legs, in order. */
  function AllExporters(ts: seq<Transaction>): seq<string>
  {
    if ts == [] then [] else AllExporters(ts[..|ts| - 1]) + Exporters(ts[|ts| - 1])
  }

  function AllImporters(ts: seq<Transaction>): seq<string>
  {
    if ts == [] then [] else AllImporters(ts[..|ts| - 1]) + Importers(ts[|ts| - 1])
  }

  /** A flow's record counts every leg with its id, so an id that is two
      legs of one transaction counts twice. */
  lemma {:induction false} FlowSeriesLength(ts: seq<Transaction>, k: string)
    ensures |FlowSeries(ts, k)| == Count(AllLegs(ts), k)
  {
    if ts != [] {
      var p := ts[..|ts| - 1];
      FlowSeriesLength(p, k);
      CountAppend(AllLegs(p), Legs(ts[|ts| - 1]), k);
    }
  }

  /** A company's exported record counts every leg it sends. */
  lemma {:induction false} ExportSeriesLength(ts: seq<Transaction>, k: string)
    ensures |ExportSeries(ts, k)| == Count(AllExporters(ts), k)
  {
    if ts != [] {
      var p := ts[..|ts| - 1];
      ExportSeriesLength(p, k);
      CountAppend(AllExporters(p), Exporters(ts[|ts| - 1]), k);
    }
  }

  /** A company's imported record counts every leg it receives. */
  lemma {:induction false} ImportSeriesLength(ts: seq<Transaction>, k: string)
    ensures |ImportSeries(ts, k)| == Count(AllImporters(ts), k)
  {
    if ts != [] {
      var p := ts[..|ts| - 1];
      ImportSeriesLength(p, k);
      CountAppend(AllImporters(p), Importers(ts[|ts| - 1]), k);
    }
  }

  /* ---------- calculate_statistics ---------- */

  /** The record of flow f in m, or a fresh one. */
  function GetOr(m: map<string, Stats>, f: string): Stats
  {
    if f in m then m[f] else Initial
  }

  /** The record pair of company c in m, or a fresh one. */
  function GetCompany(m: map<string, CompanyStats>, c: string): CompanyStats
  {
    if c in m then m[c] else CompanyStats(Initial, Initial)
  }

  /** The record s after update_statistics(s, value) was applied n times. */
  function UpdatedTimes(s: Stats, value: int, n: nat): Stats
  {
    if n == 0 then s else UpdateStatistics(UpdatedTimes(s, value, n - 1), value)
  }

  /** Taking value n times is taking n copies of value. */
  lemma {:induction false} UpdatedTimesFold(s: Stats, value: int, n: nat)
    ensures UpdatedTimes(s, value, n) == FoldFrom(s, Repeat(value, n))
  {
    if n > 0 {
      UpdatedTimesFold(s, value, n - 1);
      assert Repeat(value, n)[..n - 1] == Repeat(value, n - 1);
    }
  }

  /** m is perFlow after each id of ids took value once per occurrence,
      fresh records made on first sight. */
  ghost predicate FlowsTaken(perFlow: map<string, Stats>, m: map<string, Stats>, ids: seq<string>, value: int)
  {
    m.Keys == perFlow.Keys + ToSet(ids)
    && forall f | f in m :: m[f] == UpdatedTimes(GetOr(perFlow, f), value, Count(ids, f))
  }

  lemma FlowsTakenStep(perFlow: map<string, Stats>, m: map<string, Stats>, flowIds: seq<string>, j: nat, value: int)
    requires j < |flowIds| && FlowsTaken(perFlow, m, flowIds[..j], value)
    ensures FlowsTaken(perFlow, m[flowIds[j] := UpdateStatistics(GetOr(m, flowIds[j]), value)], flowIds[..j + 1], value)
  {
    var ids, ids', x := flowIds[..j], flowIds[..j + 1], flowIds[j];
    assert ids' == ids + [x];
    assert ToSet(ids') == ToSet(ids) + {x};
    var m' := m[x := UpdateStatistics(GetOr(m, x), value)];
    forall f | f in m'
      ensures m'[f] == UpdatedTimes(GetOr(perFlow, f), value, Count(ids', f))
    {
      FlowTakenAt(perFlow, m, ids, x, value, f);
    }
  }

  /** One key of FlowsTakenStep. */
  lemma FlowTakenAt(perFlow: map<string, Stats>, m: map<string, Stats>, ids: seq<string>, x: string, value: int, f: string)
    requires f in m ==> m[f] == UpdatedTimes(GetOr(perFlow, f), value, Count(ids, f))
    requires f in m <==> f in perFlow || f in ids
    requires f in m || f == x
    ensures var m' := m[x := UpdateStatistics(GetOr(m, x), value)];
            m'[f] == UpdatedTimes(GetOr(perFlow, f), value, Count(ids + [x], f))
  {
    CountSnoc(ids, x, f);
    if f == x && x !in m {
      assert Count(ids, x) == 0;
    }
  }

  /** Creating a missing record and then updating it is updating the
      record that GetOr supplies. */
  lemma CreateThenUpdate(m: map<string, Stats>, x: string, value: int)
    ensures var created := if x in m then m else m[x := Initial];
            created[x := UpdateStatistics(created[x], value)] == m[x := UpdateStatistics(GetOr(m, x), value)]
  {
  }

  /** The `for flow_id in flow_ids` loop of calculate_statistics: each
      flow id of the list gets a record, fresh on first sight, and takes
      the value once per occurrence. */
  method UpdateFlows(perFlow: map<string, Stats>, flowIds: seq<string>, value: int)
    returns (m: map<string, Stats>)
    ensures m.Keys == perFlow.Keys + ToSet(flowIds)
    ensures forall f | f in m :: m[f] == UpdatedTimes(GetOr(perFlow, f), value, Count(flowIds, f))
  {
    m := perFlow;
    for j := 0 to |flowIds|
      invariant FlowsTaken(perFlow, m, flowIds[..j], value)
    {
      var flowId := flowIds[j];
      FlowsTakenStep(perFlow, m, flowIds, j, value);
      CreateThenUpdate(m, flowId, value);
      if flowId !in m {
        m := m[flowId := Initial];
      }
      m := m[flowId := UpdateStatistics(m[flowId], value)];
    }
    assert flowIds[..|flowIds|] == flowIds;
  }

  /** The first per-company loop of calculate_statistics, over exporters
      then importers: each company id of the list gets a record pair, fresh on
      first sight; pairs already there are kept. */
  method AddCompanies(perCompany: map<string, CompanyStats>, companyIds: seq<string>)
    returns (m: map<string, CompanyStats>)
    ensures m.Keys == perCompany.Keys + ToSet(companyIds)
    ensures forall c | c in m :: m[c] == GetCompany(perCompany, c)
  {
    m := perCompany;
    for j := 0 to |companyIds|
      invariant m.Keys == perCompany.Keys + ToSet(companyIds[..j])
      invariant forall c | c in m :: m[c] == GetCompany(perCompany, c)
    {
      var companyId := companyIds[j];
      assert companyIds[..j + 1] == companyIds[..j] + [companyId];
      if companyId !in m {
        m := m[companyId := CompanyStats(Initial, Initial)];
      }
    }
    assert companyIds[..|companyIds|] == companyIds;
  }

  /** m is perCompany after the exported record of each company of ids
      took value once per occurrence. */
  ghost predicate ExportedTaken(perCompany: map<string, CompanyStats>, m: map<string, CompanyStats>,
                                ids: seq<string>, value: int)
  {
    m.Keys == perCompany.Keys
    && forall c | c in m ::
         m[c] == perCompany[c].(exported := UpdatedTimes(perCompany[c].exported, value, Count(ids, c)))
  }

  lemma ExportedTakenStep(perCompany: map<string, CompanyStats>, m: map<string, CompanyStats>,
                          companyIds: seq<string>, j: nat, value: int)
    requires j < |companyIds| && ExportedTaken(perCompany, m, companyIds[..j], value) && companyIds[j] in m
    ensures var x := companyIds[j];
            ExportedTaken(perCompany, m[x := m[x].(exported := UpdateStatistics(m[x].exported, value))],
                          companyIds[..j + 1], value)
  {
    var ids, ids', x := companyIds[..j], companyIds[..j + 1], companyIds[j];
    assert ids' == ids + [x] && ids'[..j] == ids;
    var m' := m[x := m[x].(exported := UpdateStatistics(m[x].exported, value))];
    forall c | c in m'
      ensures m'[c] == perCompany[c].(exported := UpdatedTimes(perCompany[c].exported, value, Count(ids', c)))
    {
      CountSnoc(ids, x, c);
    }
  }

  /** The `for company_id in exporting_companies` loop of
      calculate_statistics: the exported record of each listed company
      takes the value once per occurrence; imported records are untouched. */
  method UpdateExported(perCompany: map<string, CompanyStats>, companyIds: seq<string>, value: int)
    returns (m: map<string, CompanyStats>)
    requires forall i :: 0 <= i < |companyIds| ==> companyIds[i] in perCompany
    ensures m.Keys == perCompany.Keys
    ensures forall c | c in m ::
              m[c] == perCompany[c].(exported := UpdatedTimes(perCompany[c].exported, value, Count(companyIds, c)))
  {
    m := perCompany;
    for j := 0 to |companyIds|
      invariant ExportedTaken(perCompany, m, companyIds[..j], value)
    {
      var companyId := companyIds[j];
      ExportedTakenStep(perCompany, m, companyIds, j, value);
      m := m[companyId := m[companyId].(exported := UpdateStatistics(m[companyId].exported, value))];
    }
    assert companyIds[..|companyIds|] == companyIds;
  }

  /** m is perCompany after the imported record of each company of ids
      took value once per occurrence. */
  ghost predicate ImportedTaken(perCompany: map<string, CompanyStats>, m: map<string, CompanyStats>,
                                ids: seq<string>, value: int)
  {
    m.Keys == perCompany.Keys
    && forall c | c in m ::
         m[c] == perCompany[c].(imported := UpdatedTimes(perCompany[c].imported, value, Count(ids, c)))
  }

  lemma ImportedTakenStep(perCompany: map<string, CompanyStats>, m: map<string, CompanyStats>,
                          companyIds: seq<string>, j: nat, value: int)
    requires j < |companyIds| && ImportedTaken(perCompany, m, companyIds[..j], value) && companyIds[j] in m
    ensures var x := companyIds[j];
            ImportedTaken(perCompany, m[x := m[x].(imported := UpdateStatistics(m[x].imported, value))],
                          companyIds[..j + 1], value)
  {
    var ids, ids', x := companyIds[..j], companyIds[..j + 1], companyIds[j];
    assert ids' == ids + [x] && ids'[..j] == ids;
    var m' := m[x := m[x].(imported := UpdateStatistics(m[x].imported, value))];
    forall c | c in m'
      ensures m'[c] == perCompany[c].(imported := UpdatedTimes(perCompany[c].imported, value, Count(ids', c)))
    {
      CountSnoc(ids, x, c);
    }
  }

  /** The `for company_id in importing_companies` loop of
      calculate_statistics: the imported record of each listed company
      takes the value once per occurrence; exported records are untouched. */
  method UpdateImported(perCompany: map<string, CompanyStats>, companyIds: seq<string>, value: int)
    returns (m: map<string, CompanyStats>)
    requires forall i :: 0 <= i < |companyIds| ==> companyIds[i] in perCompany
    ensures m.Keys == perCompany.Keys
    ensures forall c | c in m ::
              m[c] == perCompany[c].(imported := UpdatedTimes(perCompany[c].imported, value, Count(companyIds, c)))
  {
    m := perCompany;
    for j := 0 to |companyIds|
      invariant ImportedTaken(perCompany, m, companyIds[..j], value)
    {
      var companyId := companyIds[j];
      ImportedTakenStep(perCompany, m, companyIds, j, value);
      m := m[companyId := m[companyId].(imported := UpdateStatistics(m[companyId].imported, value))];
    }
    assert companyIds[..|companyIds|] == companyIds;
  }

  /** The overall record after one more transaction. */
  lemma GlobalStep(p: seq<Transaction>, t: Transaction)
    ensures StatsOf(OrderValues(p + [t])) == UpdateStatistics(StatsOf(OrderValues(p)), t.orderValue)
  {
    assert OrderValues(p + [t]) == OrderValues(p) + [t.orderValue];
    StatsStep(OrderValues(p), t.orderValue);
  }

  /** The flow records after one more transaction. */
  lemma FlowsStep(m0: map<string, Stats>, m: map<string, Stats>, p: seq<Transaction>, t: Transaction)
    requires FlowsOk(m0, p)
    requires m.Keys == m0.Keys + ToSet(Legs(t))
    requires forall f | f in m :: m[f] == UpdatedTimes(GetOr(m0, f), t.orderValue, Count(Legs(t), f))
    ensures FlowsOk(m, p + [t])
  {
    var q := p + [t];
    assert q[..|q| - 1] == p;
    forall f | f in m
      ensures m[f] == StatsOf(FlowSeries(q, f))
    {
      var before := FlowSeries(p, f);
      var added := Repeat(t.orderValue, Count(Legs(t), f));
      FlowKeysSeries(p, f);
      UpdatedTimesFold(GetOr(m0, f), t.orderValue, Count(Legs(t), f));
      FoldIsStatistics(before);
      assert GetOr(m0, f) == FoldFrom(Initial, before);
      FoldAppend(Initial, before, added);
      FoldIsStatistics(before + added);
    }
  }

  /** The company records after one more transaction. */
  lemma CompaniesStep(m0: map<string, CompanyStats>, m1: map<string, CompanyStats>,
                      m2: map<string, CompanyStats>, m3: map<string, CompanyStats>,
                      p: seq<Transaction>, t: Transaction)
    requires CompaniesOk(m0, p)
    requires m1.Keys == m0.Keys + ToSet(Exporters(t) + Importers(t))
    requires forall c | c in m1 :: m1[c] == GetCompany(m0, c)
    requires m2.Keys == m1.Keys && m3.Keys == m2.Keys
    requires forall c | c in m2 ::
               m2[c] == m1[c].(exported := UpdatedTimes(m1[c].exported, t.orderValue, Count(Exporters(t), c)))
    requires forall c | c in m3 ::
               m3[c] == m2[c].(imported := UpdatedTimes(m2[c].imported, t.orderValue, Count(Importers(t), c)))
    ensures CompaniesOk(m3, p + [t])
  {
    var q := p + [t];
    assert q[..|q| - 1] == p;
    forall c | c in m3
      ensures m3[c] == CompanyStats(StatsOf(ExportSeries(q, c)), StatsOf(ImportSeries(q, c)))
    {
      var exportedBefore, importedBefore := ExportSeries(p, c), ImportSeries(p, c);
      var exportedAdded := Repeat(t.orderValue, Count(Exporters(t), c));
      var importedAdded := Repeat(t.orderValue, Count(Importers(t), c));
      CompanyKeysSeries(p, c);
      UpdatedTimesFold(m1[c].exported, t.orderValue, Count(Exporters(t), c));
      UpdatedTimesFold(m2[c].imported, t.orderValue, Count(Importers(t), c));
      FoldIsStatistics(exportedBefore);
      FoldIsStatistics(importedBefore);
      assert GetCompany(m0, c) == CompanyStats(FoldFrom(Initial, exportedBefore), FoldFrom(Initial, importedBefore));
      FoldAppend(Initial, exportedBefore, exportedAdded);
      FoldAppend(Initial, importedBefore, importedAdded);
      FoldIsStatistics(exportedBefore + exportedAdded);
      FoldIsStatistics(importedBefore + importedAdded);
    }
  }

  /** One more well-formed transaction keeps the prefix well formed. */
  lemma WellFormedStep(ts: seq<Transaction>, i: nat)
    requires i < |ts| && WellFormed(ts[..i]) && ParseAll(Legs(ts[i])).Ok?
    ensures ts[..i + 1] == ts[..i] + [ts[i]] && WellFormed(ts[..i + 1])
  {
    assert ts[..i + 1] == ts[..i] + [ts[i]];
  }

  /** The results after one more well-formed transaction. */
  lemma TransactionStep(ts: seq<Transaction>, i: nat, results: GlobalStats, globalStatistics: Stats,
                        perFlow: map<string, Stats>, m1: map<string, CompanyStats>,
                        m2: map<string, CompanyStats>, m3: map<string, CompanyStats>)
    requires i < |ts| && WellFormed(ts[..i]) && Summarises(results, ts[..i])
    requires ParseAll(Legs(ts[i])).Ok?
    requires globalStatistics == UpdateStatistics(results.globalStatistics, ts[i].orderValue)
    requires perFlow.Keys == results.statisticsPerFlow.Keys + ToSet(Legs(ts[i]))
    requires forall f | f in perFlow ::
               perFlow[f] == UpdatedTimes(GetOr(results.statisticsPerFlow, f), ts[i].orderValue, Count(Legs(ts[i]), f))
    requires m1.Keys == results.statisticsPerCompany.Keys + ToSet(Exporters(ts[i]) + Importers(ts[i]))
    requires forall c | c in m1 :: m1[c] == GetCompany(results.statisticsPerCompany, c)
    requires m2.Keys == m1.Keys && m3.Keys == m2.Keys
    requires forall c | c in m2 ::
               m2[c] == m1[c].(exported := UpdatedTimes(m1[c].exported, ts[i].orderValue, Count(Exporters(ts[i]), c)))
    requires forall c | c in m3 ::
               m3[c] == m2[c].(imported := UpdatedTimes(m2[c].imported, ts[i].orderValue, Count(Importers(ts[i]), c)))
    ensures WellFormed(ts[..i + 1]) && Summarises(GlobalStats(globalStatistics, perFlow, m3), ts[..i + 1])
  {
    var p, t := ts[..i], ts[i];
    WellFormedStep(ts, i);
    GlobalStep(p, t);
    FlowsStep(results.statisticsPerFlow, perFlow, p, t);
    CompaniesStep(results.statisticsPerCompany, m1, m2, m3, p, t);
  }

  /** calculate_statistics(transactions): the overall record takes every
      order value once, each flow's record takes it once per leg with that
      id, and each company's exported (imported) record once per leg it
      sends (receives). A malformed flow id raises the ValueError of the
      first such leg, and no results are returned. */
  method CalculateStatistics(transactions: seq<Transaction>) returns (r: Result<GlobalStats, InvalidFlowId>)
    ensures r.Err? <==> FirstError(transactions).Some?
    ensures r.Err? ==> r.error == FirstError(transactions).value
    ensures r.Ok? ==> Summarises(r.value, transactions)
  {
    var results := GlobalStats(Initial, map[], map[]);
    for i := 0 to |transactions|
      invariant WellFormed(transactions[..i])
      invariant Summarises(results, transactions[..i])
    {
      var t := transactions[i];
      var value := t.orderValue;
      var flowIds := [t.flowIdSupplier, t.flowIdInternal, t.flowIdCustomer];
      var parsed := ParseAll(flowIds);
      if parsed.Err? {
        FirstErrorAt(transactions, i);
      }
      var companyIds :- parsed;
      var exportingCompanies := Senders(companyIds);
      var importingCompanies := Receivers(companyIds);

      var globalStatistics := UpdateStatistics(results.globalStatistics, value);
      var perFlow := UpdateFlows(results.statisticsPerFlow, flowIds, value);
      var added := AddCompanies(results.statisticsPerCompany, exportingCompanies + importingCompanies);
      var exported := UpdateExported(added, exportingCompanies, value);
      var imported := UpdateImported(exported, importingCompanies, value);

      TransactionStep(transactions, i, results, globalStatistics, perFlow, added, exported, imported);
      results := GlobalStats(globalStatistics, perFlow, imported);
    }
    assert transactions[..|transactions|] == transactions;
    FirstErrorNone(transactions);
    r := Ok(results);
  }
}
