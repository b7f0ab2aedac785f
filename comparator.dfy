/** The comparison table of the single-page application: the rows the user
    edits, the query that filters them, the yearly cost of each row with and
    without VAT, the ordering by cost including VAT and the saving between the
    cheapest and the dearest row. */
module Comparator {
  import opened JsText
  import opened Offers
  import Seqs
  import opened Wrappers

  /** A row of the table: an id, a supplier, a contract label and the eight
      tariff components. */
  datatype ProviderRow = ProviderRow(id: string, name: string, contractType: string, tariff: Tariff)

  // ---------------------------------------------------------------- number input

  /** What the number normaliser receives: a number, or the text typed in a cell. */
  datatype FieldInput = NumberInput(n: JsNumber) | TextInput(text: string)

  /** `toNumberSafe`: a number is kept, a text is read by `parseFloat` after its
      first comma becomes a period; whatever is not a finite number becomes 0. */
  function ToNumberSafe(v: FieldInput): (r: real)
    ensures v.NumberInput? && v.n.Finite? ==> r == v.n.value
    ensures r != 0.0 ==>
      || v == NumberInput(Finite(r))
      || (v.TextInput? && ParseFloat(ReplaceFirst(v.text, ',', '.')) == Finite(r))
  {
    var n := match v
      case NumberInput(x) => x
      case TextInput(t) => ParseFloat(ReplaceFirst(t, ',', '.'));
    if n.Finite? then n.value else 0.0
  }

  /** A decimal written with a comma is read as the decimal it denotes. */
  lemma ToNumberSafeReadsDecimalComma(d: string, f: string)
    requires |d| > 0 && forall k :: 0 <= k < |d| ==> IsDigit(d[k])
    requires forall k :: 0 <= k < |f| ==> IsDigit(f[k])
    ensures ToNumberSafe(TextInput(d + "," + f)) == DecimalValue(d, f)
  {
    ReplaceFirstAfter(d, f, ',', '.');
    ParseFloatOfDecimal(d, f);
  }

  /** A decimal written with a period is read the same way. */
  lemma ToNumberSafeReadsDecimalPoint(d: string, f: string)
    requires |d| > 0 && forall k :: 0 <= k < |d| ==> IsDigit(d[k])
    requires forall k :: 0 <= k < |f| ==> IsDigit(f[k])
    ensures ToNumberSafe(TextInput(d + "." + f)) == DecimalValue(d, f)
  {
    var s := d + "." + f;
    assert ',' !in s by {
      forall k | 0 <= k < |s| ensures s[k] != ',' {
        if k < |d| { assert s[k] == d[k]; }
        else if k > |d| { assert s[k] == f[k - |d| - 1]; }
      }
    }
    ParseFloatOfDecimal(d, f);
  }

  /** A leading minus sign is kept: the normaliser does not clamp at 0. */
  lemma ToNumberSafeKeepsSign(d: string, f: string)
    requires |d| > 0 && forall k :: 0 <= k < |d| ==> IsDigit(d[k])
    requires forall k :: 0 <= k < |f| ==> IsDigit(f[k])
    ensures ToNumberSafe(TextInput("-" + d + "," + f)) == -DecimalValue(d, f)
  {
    var t := SignedCommaReplaced(d, f);
    var body := d + "." + f;
    assert body[0] == d[0];
    DecimalPrefixOfDecimal(d, f);
    ParseFloatNegated(body);
  }

  /** The comma of `-d,f` becomes a period. */
  lemma SignedCommaReplaced(d: string, f: string) returns (t: string)
    requires forall k :: 0 <= k < |d| ==> IsDigit(d[k])
    ensures t == ReplaceFirst("-" + d + "," + f, ',', '.')
    ensures t == ['-'] + (d + "." + f)
  {
    var rest := d + "," + f;
    var s := "-" + d + "," + f;
    assert s == ['-'] + rest;
    assert s[1..] == rest;
    assert ',' !in d by {
      forall k | 0 <= k < |d| ensures d[k] != ',' {
        assert IsDigit(d[k]);
      }
    }
    ReplaceFirstAfter(d, f, ',', '.');
    t := ['-'] + (d + "." + f);
  }

  /** A text without a single digit is not a number, so it becomes 0. */
  lemma ToNumberSafeNoDigits(s: string)
    requires forall k :: 0 <= k < |s| ==> !IsDigit(s[k])
    ensures ToNumberSafe(TextInput(s)) == 0.0
  {
    var u := ReplaceFirst(s, ',', '.');
    assert forall k :: 0 <= k < |u| ==> !IsDigit(u[k]);
    ParseFloatWithoutDigits(u);
  }

  // ---------------------------------------------------------------- filter

  /** A row mentions a lower-case query when its supplier and contract label,
      joined by a space and lower-cased, contain it. */
  predicate Mentions(r: ProviderRow, q: string)
    ensures Contains(Lower(r.name), q) ==> Mentions(r, q)
    ensures Contains(Lower(r.contractType), q) ==> Mentions(r, q)
  {
    LowerAppend(r.name + " ", r.contractType);
    LowerAppend(r.name, " ");
    assert Lower(r.name + " " + r.contractType) == Lower(r.name) + (Lower(" ") + Lower(r.contractType));
    if Contains(Lower(r.name), q) then
      IndexAppendMonotone(Lower(r.name), Lower(" ") + Lower(r.contractType), q);
      Contains(Lower(r.name + " " + r.contractType), q)
    else if Contains(Lower(r.contractType), q) then
      ContainsPrepend(Lower(r.name + " "), Lower(r.contractType), q);
      Contains(Lower(r.name + " " + r.contractType), q)
    else
      Contains(Lower(r.name + " " + r.contractType), q)
  }

  /** `filtered`: every row when the trimmed query is empty, otherwise the rows
      that mention the trimmed, lower-cased query, in table order. */
  function FilterRows(rows: seq<ProviderRow>, query: string): (r: seq<ProviderRow>)
    ensures |r| <= |rows|
  {
    var q := Lower(Trim(query));
    if q == [] then rows else Seqs.Filter(rows, MentionsQuery(q))
  }

  /** `(r) => [r.name, r.type].join(" ").toLowerCase().includes(q)`. */
  function MentionsQuery(q: string): (keep: ProviderRow -> bool)
    ensures forall r :: keep(r) == Mentions(r, q)
  {
    r => Mentions(r, q)
  }

  lemma FilterRowsSpec(rows: seq<ProviderRow>, query: string)
    ensures Seqs.IsSubsequence(FilterRows(rows, query), rows)
    ensures Trim(query) == [] ==> FilterRows(rows, query) == rows
    ensures forall x :: x in FilterRows(rows, query) <==>
      x in rows && (Trim(query) == [] || Mentions(x, Lower(Trim(query))))
  {
    var q := Lower(Trim(query));
    if q == [] {
      Seqs.SubsequenceOfSelf(rows);
    } else {
      Seqs.FilterIsSubsequence(rows, MentionsQuery(q));
    }
  }

  /** The query is matched without regard to case. */
  lemma FilterIgnoresQueryCase(rows: seq<ProviderRow>, query: string)
    ensures FilterRows(rows, Lower(query)) == FilterRows(rows, query)
  {
    LowerTrim(query);
    LowerIdempotent(Trim(query));
  }

  /** White space around the query does not matter. */
  lemma FilterIgnoresPadding(rows: seq<ProviderRow>, query: string)
    ensures FilterRows(rows, Trim(query)) == FilterRows(rows, query)
  {
    TrimIdempotent(query);
  }

  // ---------------------------------------------------------------- costs

  /** The consumption in MWh a year and the VAT rates on the fixed and on the
      consumption-based part. */
  datatype Settings = Settings(consumption: real, tvaFixe: real, tvaVar: real)

  /** 600 MWh, 5.5 % and 20 %. */
  const InitialSettings: Settings := Settings(600.0, 0.055, 0.2)

  /** A row with its yearly costs: the part that grows with consumption, the
      fixed part, the total before VAT (`ht`) and the total with VAT (`ttc`). */
  datatype PricedRow = PricedRow(row: ProviderRow, variable: real, fixes: real, ht: real, ttc: real)

  /** The price per MWh: molecule, CEE, transport and TICGN. */
  function UnitPrice(t: Tariff): real
  {
    t.prixMolecule + t.cee + t.transport + t.ticgn
  }

  /** The yearly fixed charges: subscription, distribution, transport and CTA. */
  function FixedCharges(t: Tariff): real
  {
    t.abonnementF + t.distribution + t.transportAnn + t.cta
  }

  function Times(a: real, b: real): real
  {
    a * b
  }

  /** The costs of one row: the total before VAT is the sum of both parts, and
      VAT adds each part's own rate to it. */
  function Priced(p: ProviderRow, s: Settings): (r: PricedRow)
    ensures r.row == p
    ensures r.variable == Times(s.consumption, UnitPrice(p.tariff))
    ensures r.fixes == FixedCharges(p.tariff)
    ensures r.ht == r.variable + r.fixes
    ensures r.ttc == r.ht + Times(r.fixes, s.tvaFixe) + Times(r.variable, s.tvaVar)
  {
    var variable := Times(s.consumption, UnitPrice(p.tariff));
    var fixes := FixedCharges(p.tariff);
    PricedRow(p, variable, fixes, variable + fixes,
      Times(fixes, 1.0 + s.tvaFixe) + Times(variable, 1.0 + s.tvaVar))
  }

  predicate NonNegativeTariff(t: Tariff)
  {
    forall f :: t.Get(f) >= 0.0
  }

  predicate NonNegativeSettings(s: Settings)
  {
    s.consumption >= 0.0 && s.tvaFixe >= 0.0 && s.tvaVar >= 0.0
  }

  /** With non-negative inputs, VAT can only add to the total. */
  lemma PricedBounds(p: ProviderRow, s: Settings)
    requires NonNegativeTariff(p.tariff) && NonNegativeSettings(s)
    ensures 0.0 <= Priced(p, s).ht <= Priced(p, s).ttc
  {
    var t := p.tariff;
    assert t.Get(PrixMolecule) >= 0.0 && t.Get(Cee) >= 0.0 && t.Get(Transport) >= 0.0 && t.Get(Ticgn) >= 0.0;
    assert t.Get(AbonnementF) >= 0.0 && t.Get(Distribution) >= 0.0 && t.Get(TransportAnn) >= 0.0 && t.Get(Cta) >= 0.0;
    var r := Priced(p, s);
    assert r.variable >= 0.0;
    assert Times(r.fixes, s.tvaFixe) >= 0.0 && Times(r.variable, s.tvaVar) >= 0.0;
  }

  /** More consumption never makes a row cheaper when its prices and the VAT
      rate are non-negative. */
  lemma PricedMonotoneInConsumption(p: ProviderRow, s: Settings, c: real)
    requires NonNegativeTariff(p.tariff) && NonNegativeSettings(s)
    requires s.consumption <= c
    ensures Priced(p, s).ttc <= Priced(p, s.(consumption := c)).ttc
  {
    var t := p.tariff;
    assert t.Get(PrixMolecule) >= 0.0 && t.Get(Cee) >= 0.0 && t.Get(Transport) >= 0.0 && t.Get(Ticgn) >= 0.0;
    var u := UnitPrice(t);
    assert Times(s.consumption, u) <= Times(c, u);
    assert Times(Times(s.consumption, u), s.tvaVar) <= Times(Times(c, u), s.tvaVar);
  }

  /** `computed` before sorting: the costs of each filtered row, in order. */
  function PriceAll(rows: seq<ProviderRow>, s: Settings): (r: seq<PricedRow>)
    ensures |r| == |rows|
    ensures forall k :: 0 <= k < |r| ==> r[k] == Priced(rows[k], s)
  {
    if rows == [] then [] else [Priced(rows[0], s)] + PriceAll(rows[1..], s)
  }

  // ---------------------------------------------------------------- ordering

  predicate SortedByTtc(xs: seq<PricedRow>)
  {
    forall i, j :: 0 <= i < j < |xs| ==> xs[i].ttc <= xs[j].ttc
  }

  /** Places `x` in front of the first row that costs at least as much. */
  function InsertByTtc(x: PricedRow, s: seq<PricedRow>): (r: seq<PricedRow>)
    ensures multiset(r) == multiset(s) + multiset{x}
    ensures forall y :: y in r ==> y == x || y in s
  {
    if s == [] || x.ttc <= s[0].ttc then [x] + s
    else
      assert s == [s[0]] + s[1..];
      [s[0]] + InsertByTtc(x, s[1..])
  }

  /** `.sort((a, b) => a.ttc - b.ttc)`. */
  function SortByTtc(xs: seq<PricedRow>): (r: seq<PricedRow>)
    ensures multiset(r) == multiset(xs)
  {
    if xs == [] then []
    else
      assert xs == [xs[0]] + xs[1..];
      InsertByTtc(xs[0], SortByTtc(xs[1..]))
  }

  lemma {:induction false} InsertKeepsSorted(x: PricedRow, s: seq<PricedRow>)
    requires SortedByTtc(s)
    ensures SortedByTtc(InsertByTtc(x, s))
  {
    if s != [] && x.ttc > s[0].ttc {
      var t := s[1..];
      assert SortedByTtc(t);
      InsertKeepsSorted(x, t);
      var u := InsertByTtc(x, t);
      assert forall y :: y in t ==> s[0].ttc <= y.ttc;
      SortedCons(s[0], u);
    }
  }

  /** A row no dearer than every row of a sorted sequence can go in front of it. */
  lemma SortedCons(x: PricedRow, u: seq<PricedRow>)
    requires SortedByTtc(u)
    requires forall y :: y in u ==> x.ttc <= y.ttc
    ensures SortedByTtc([x] + u)
  {
    var r := [x] + u;
    forall i, j | 0 <= i < j < |r|
      ensures r[i].ttc <= r[j].ttc
    {
      assert r[j] == u[j - 1];
      if i > 0 {
        assert r[i] == u[i - 1];
      }
    }
  }

  /** The ordering keeps exactly the rows it is given and puts them in
      non-decreasing order of cost including VAT. */
  lemma {:induction false} SortByTtcSpec(xs: seq<PricedRow>)
    ensures SortedByTtc(SortByTtc(xs))
    ensures multiset(SortByTtc(xs)) == multiset(xs)
  {
    if xs != [] {
      SortByTtcSpec(xs[1..]);
      InsertKeepsSorted(xs[0], SortByTtc(xs[1..]));
    }
  }

  // ---------------------------------------------------------------- best and worst

  /** `computed[0]`, absent for an empty table. */
  function Best(computed: seq<PricedRow>): (r: Option<PricedRow>)
    ensures r.Some? <==> |computed| > 0
    ensures r.Some? ==> r.value in computed
  {
    if |computed| == 0 then None else Some(computed[0])
  }

  /** `computed[computed.length - 1]`, absent for an empty table. */
  function Worst(computed: seq<PricedRow>): (r: Option<PricedRow>)
    ensures r.Some? <==> |computed| > 0
    ensures r.Some? ==> r.value in computed
  {
    if |computed| == 0 then None else Some(computed[|computed| - 1])
  }

  /** `potentialSave`: what the dearest row costs more than the cheapest, 0
      for an empty table. */
  function PotentialSave(computed: seq<PricedRow>): (r: real)
    ensures |computed| == 0 ==> r == 0.0
    ensures SortedByTtc(computed) ==> r >= 0.0
  {
    match (Best(computed), Worst(computed))
    case (Some(b), Some(w)) => w.ttc - b.ttc
    case _ => 0.0
  }

  /** On the sorted table, the best row is the cheapest of all the rows it was
      made from, the worst the dearest, and the potential saving the largest
      difference between two of them. */
  lemma CheapestAndDearest(xs: seq<PricedRow>)
    ensures Best(SortByTtc(xs)).Some? <==> |xs| > 0
    ensures Best(SortByTtc(xs)).Some? ==>
      && Best(SortByTtc(xs)).value in xs && Worst(SortByTtc(xs)).value in xs
      && forall k :: 0 <= k < |xs| ==>
           Best(SortByTtc(xs)).value.ttc <= xs[k].ttc <= Worst(SortByTtc(xs)).value.ttc
    ensures forall i, j :: 0 <= i < |xs| && 0 <= j < |xs| ==>
      xs[j].ttc - xs[i].ttc <= PotentialSave(SortByTtc(xs))
  {
    var c := SortByTtc(xs);
    SortByTtcSpec(xs);
    assert |c| == |xs| by {
      assert |multiset(c)| == |multiset(xs)|;
    }
    if |xs| > 0 {
      SortedEnds(c, xs);
    }
  }

  /** The first and the last row of a sorted arrangement of `xs` bound every row of `xs`. */
  lemma SortedEnds(c: seq<PricedRow>, xs: seq<PricedRow>)
    requires SortedByTtc(c) && multiset(c) == multiset(xs) && |c| > 0
    ensures c[0] in xs && c[|c| - 1] in xs
    ensures forall k :: 0 <= k < |xs| ==> c[0].ttc <= xs[k].ttc <= c[|c| - 1].ttc
  {
    assert c[0] in multiset(c) && c[|c| - 1] in multiset(c);
    forall k | 0 <= k < |xs|
      ensures c[0].ttc <= xs[k].ttc <= c[|c| - 1].ttc
    {
      assert xs[k] in multiset(c);
      var p := Seqs.PositionOf(c, xs[k]);
    }
  }

  // ---------------------------------------------------------------- edits

  /** `{ ...r, [field]: x }` for the row with the given id, the row itself otherwise. */
  function UpdatedRow(r: ProviderRow, id: string, field: NumericField, x: real): (u: ProviderRow)
    ensures u.id == r.id && u.name == r.name && u.contractType == r.contractType
    ensures u.tariff.Get(field) == if r.id == id then x else r.tariff.Get(field)
    ensures forall g :: g != field ==> u.tariff.Get(g) == r.tariff.Get(g)
  {
    if r.id == id then r.(tariff := r.tariff.With(field, x)) else r
  }

  /** `prev.map(...)`: every row updated in its place. */
  function UpdatedRows(rows: seq<ProviderRow>, id: string, field: NumericField, x: real): (r: seq<ProviderRow>)
    ensures |r| == |rows|
    ensures forall k :: 0 <= k < |r| ==> r[k] == UpdatedRow(rows[k], id, field, x)
  {
    if rows == [] then [] else [UpdatedRow(rows[0], id, field, x)] + UpdatedRows(rows[1..], id, field, x)
  }

  /** An edit sets the field of the rows with that id and changes nothing else:
      ids, names, labels and the other components stay. */
  lemma UpdateTouchesOneField(rows: seq<ProviderRow>, id: string, field: NumericField, x: real, k: nat)
    requires k < |rows|
    ensures var r := UpdatedRows(rows, id, field, x)[k];
      && r.id == rows[k].id && r.name == rows[k].name && r.contractType == rows[k].contractType
      && r.tariff.Get(field) == (if rows[k].id == id then x else rows[k].tariff.Get(field))
      && forall g :: g != field ==> r.tariff.Get(g) == rows[k].tariff.Get(g)
  {
  }

  /** An edit of an id that no row has changes nothing. */
  lemma UpdateAbsentId(rows: seq<ProviderRow>, id: string, field: NumericField, x: real)
    requires forall k :: 0 <= k < |rows| ==> rows[k].id != id
    ensures UpdatedRows(rows, id, field, x) == rows
  {
  }

  /** Repeating an edit changes nothing more. */
  lemma UpdateIdempotent(rows: seq<ProviderRow>, id: string, field: NumericField, x: real)
    ensures UpdatedRows(UpdatedRows(rows, id, field, x), id, field, x) == UpdatedRows(rows, id, field, x)
  {
    var once := UpdatedRows(rows, id, field, x);
    forall k | 0 <= k < |rows|
      ensures UpdatedRow(once[k], id, field, x) == once[k]
    {
      if rows[k].id == id {
        TariffExtensional(once[k].tariff.With(field, x), once[k].tariff);
      }
    }
  }

  /** An edit leaves supplier and label alone, so the filter keeps the same
      rows before and after it. */
  lemma UpdateCommutesWithFilter(rows: seq<ProviderRow>, query: string, id: string, field: NumericField, x: real)
    ensures FilterRows(UpdatedRows(rows, id, field, x), query) == UpdatedRows(FilterRows(rows, query), id, field, x)
  {
    var q := Lower(Trim(query));
    if q != [] {
      var keep := MentionsQuery(q);
      assert forall r :: keep(UpdatedRow(r, id, field, x)) == keep(r) by {
        forall r
          ensures Mentions(UpdatedRow(r, id, field, x), q) == Mentions(r, q)
        {
          var u := UpdatedRow(r, id, field, x);
          assert u.name == r.name && u.contractType == r.contractType;
        }
      }
      UpdateCommutesWithKeep(rows, keep, id, field, x);
    }
  }

  lemma {:induction false} UpdateCommutesWithKeep(rows: seq<ProviderRow>, keep: ProviderRow -> bool, id: string, field: NumericField, x: real)
    requires forall r :: keep(UpdatedRow(r, id, field, x)) == keep(r)
    ensures Seqs.Filter(UpdatedRows(rows, id, field, x), keep) == UpdatedRows(Seqs.Filter(rows, keep), id, field, x)
  {
    if rows != [] {
      UpdateCommutesWithKeep(rows[1..], keep, id, field, x);
      assert UpdatedRows(rows, id, field, x)[1..] == UpdatedRows(rows[1..], id, field, x);
    }
  }

  /** The row a new line of the table starts as. */
  function NewRow(id: string): (r: ProviderRow)
    ensures r.id == id
  {
    ProviderRow(id, "Nouveau fournisseur", "Fixe 12 mois", Tariff(0.0, 0.0, 0.0, 0.0, 0.0, 0.0, 0.0, 17.16))
  }

  /** A new row costs only its TICGN: no fixed charges, 17.16 € per MWh. */
  lemma NewRowCost(id: string, s: Settings)
    ensures Priced(NewRow(id), s).fixes == 0.0
    ensures Priced(NewRow(id), s).variable == Times(s.consumption, 17.16)
    ensures Priced(NewRow(id), s).ttc == Times(Times(s.consumption, 17.16), 1.0 + s.tvaVar)
  {
    var t := NewRow(id).tariff;
    assert UnitPrice(t) == 17.16;
    assert FixedCharges(t) == 0.0;
    var v := Times(s.consumption, 17.16);
    assert Times(v, 1.0 + s.tvaVar) == v + Times(v, s.tvaVar);
  }

  /** The total with VAT is affine in the consumption: what the row costs at
      no consumption, plus the consumption times the unit price with its VAT. */
  lemma TtcAffineInConsumption(p: ProviderRow, s: Settings)
    ensures Priced(p, s).ttc
         == Priced(p, s.(consumption := 0.0)).ttc + Times(s.consumption, Times(UnitPrice(p.tariff), 1.0 + s.tvaVar))
  {
    var c, u, v := s.consumption, UnitPrice(p.tariff), s.tvaVar;
    assert Times(0.0, u) == 0.0;
    assert Times(Times(c, u), v) == Times(c, Times(u, v));
    assert Times(c, Times(u, 1.0 + v)) == Times(c, u) + Times(c, Times(u, v));
  }

  /** `prev.filter((r) => r.id !== id)`. */
  function RemainingRows(rows: seq<ProviderRow>, id: string): (r: seq<ProviderRow>)
    ensures forall x :: x in r <==> x in rows && x.id != id
  {
    Seqs.Filter(rows, (x: ProviderRow) => x.id != id)
  }

  /** Removal keeps the other rows in their order and drops every row with the id. */
  lemma RemoveKeepsOrder(rows: seq<ProviderRow>, id: string)
    ensures Seqs.IsSubsequence(RemainingRows(rows, id), rows)
    ensures forall k :: 0 <= k < |RemainingRows(rows, id)| ==> RemainingRows(rows, id)[k].id != id
    ensures forall x: ProviderRow :: x.id != id ==> multiset(RemainingRows(rows, id))[x] == multiset(rows)[x]
  {
    Seqs.FilterIsSubsequence(rows, (x: ProviderRow) => x.id != id);
    forall x: ProviderRow | x.id != id
      ensures multiset(RemainingRows(rows, id))[x] == multiset(rows)[x]
    {
      Seqs.FilterMultiplicity(rows, (x: ProviderRow) => x.id != id, x);
    }
  }

  /** Removing a row just added under a fresh id restores the table. */
  lemma RemoveUndoesAdd(rows: seq<ProviderRow>, id: string)
    requires forall k :: 0 <= k < |rows| ==> rows[k].id != id
    ensures RemainingRows(rows + [NewRow(id)], id) == rows
  {
    Seqs.FilterAppend(rows, [NewRow(id)], (x: ProviderRow) => x.id != id);
    Seqs.FilterAll(rows, (x: ProviderRow) => x.id != id);
    assert Seqs.Filter([NewRow(id)], (x: ProviderRow) => x.id != id) == [];
  }

  /** Removing twice is removing once. */
  lemma RemoveIdempotent(rows: seq<ProviderRow>, id: string)
    ensures RemainingRows(RemainingRows(rows, id), id) == RemainingRows(rows, id)
  {
    Seqs.FilterAll(RemainingRows(rows, id), (x: ProviderRow) => x.id != id);
  }

  /** With an empty query a row just added is listed, with its costs. */
  lemma AddedRowIsListed(rows: seq<ProviderRow>, query: string, s: Settings, id: string)
    requires Trim(query) == []
    ensures Priced(NewRow(id), s) in SortByTtc(PriceAll(FilterRows(rows + [NewRow(id)], query), s))
  {
    var all := rows + [NewRow(id)];
    FilterRowsSpec(all, query);
    var priced := PriceAll(all, s);
    assert priced[|rows|] == Priced(NewRow(id), s);
    SortByTtcSpec(priced);
    assert Priced(NewRow(id), s) in multiset(SortByTtc(priced));
  }

  // ---------------------------------------------------------------- the table

  /** The table's state: its rows, the search query and the cost settings. */
  class ComparisonTable {
    var rows: seq<ProviderRow>
    var query: string
    var settings: Settings

    constructor()
      ensures rows == [] && query == [] && settings == InitialSettings
    {
      rows := [];
      query := [];
      settings := InitialSettings;
    }

    /** `computed`: the filtered rows with their costs, cheapest first. */
    function Computed(): (r: seq<PricedRow>)
      reads this
      ensures SortedByTtc(r)
      ensures multiset(r) == multiset(PriceAll(FilterRows(rows, query), settings))
    {
      SortByTtcSpec(PriceAll(FilterRows(rows, query), settings));
      SortByTtc(PriceAll(FilterRows(rows, query), settings))
    }

    /** `potentialSave` of the current table. */
    function Saving(): (r: real)
      reads this
      ensures r >= 0.0
      ensures rows == [] ==> r == 0.0
    {
      PotentialSave(Computed())
    }

    /** `updateRow`: the typed text, normalised, goes into the field of the rows with that id. */
    method UpdateRow(id: string, field: NumericField, value: string)
      modifies this
      ensures rows == UpdatedRows(old(rows), id, field, ToNumberSafe(TextInput(value)))
      ensures query == old(query) && settings == old(settings)
    {
      rows := UpdatedRows(rows, id, field, ToNumberSafe(TextInput(value)));
    }

    /** `addRow`, with the id the random UUID generator would give. */
    method AddRow(id: string)
      modifies this
      ensures rows == old(rows) + [NewRow(id)]
      ensures query == old(query) && settings == old(settings)
    {
      rows := rows + [NewRow(id)];
    }

    /** `removeRow`. */
    method RemoveRow(id: string)
      modifies this
      ensures rows == RemainingRows(old(rows), id)
      ensures query == old(query) && settings == old(settings)
    {
      rows := RemainingRows(rows, id);
    }
  }
}
