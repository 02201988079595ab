/** The back-office dashboard: the four counters, the histogram of property
    types with its bar scale, and the five most recent listings. */
module AdminDashboard {
  import opened Types
  import opened Sequences

  // ------------------------------------------------------------ counters

  predicate IsPublished(p: Property) { p.estado_publicacion == Publicado }

  predicate IsDraft(p: Property) { p.estado_publicacion == Borrador }

  predicate IsFeatured(p: Property) { p.es_destacado }

  /** A status other than the two counted ones (`pausado`, or any other). */
  predicate IsOtherStatus(p: Property) { !IsPublished(p) && !IsDraft(p) }

  datatype Stats = Stats(total: nat, published: nat, drafts: nat, featured: nat)

  /** `stats`: the list length and three `filter(...).length` counts. */
  function ComputeStats(props: seq<Property>): (s: Stats)
    ensures s.total == |props|
    ensures s.published == |Filter(props, IsPublished)|
    ensures s.drafts == |Filter(props, IsDraft)|
    ensures s.featured == |Filter(props, IsFeatured)|
  {
    Stats(|props|, |Filter(props, IsPublished)|, |Filter(props, IsDraft)|, |Filter(props, IsFeatured)|)
  }

  /** Every record is published, a draft, or has another status. */
  lemma {:induction false} StatusPartition(props: seq<Property>)
    ensures |Filter(props, IsPublished)| + |Filter(props, IsDraft)| + |Filter(props, IsOtherStatus)| == |props|
  {
    if props != [] {
      StatusPartition(props[1..]);
    }
  }

  /** Published and draft counts never exceed the total; they reach it
      exactly when no record has another status. Featured records are
      counted whatever their status. */
  lemma StatsBounds(props: seq<Property>)
    ensures ComputeStats(props).published + ComputeStats(props).drafts <= ComputeStats(props).total
    ensures ComputeStats(props).published + ComputeStats(props).drafts == ComputeStats(props).total
      <==> forall p :: p in props ==> IsPublished(p) || IsDraft(p)
    ensures ComputeStats(props).featured <= ComputeStats(props).total
  {
    StatusPartition(props);
    var others := Filter(props, IsOtherStatus);
    if others != [] {
      assert others[0] in others;
    } else {
      assert forall p :: p in props && IsOtherStatus(p) ==> p in others;
    }
  }

  // ------------------------------------------------------------ types histogram

  /** One bar of the histogram: a property type and how many records have it. */
  datatype TypeCount = TypeCount(tipo: string, count: nat)

  predicate HasType(props: seq<Property>, t: string) {
    exists i :: 0 <= i < |props| && props[i].tipo_propiedad == t
  }

  /** How many records have type `t` (the accumulator entry for `t`). */
  function CountType(props: seq<Property>, t: string): (n: nat)
    ensures n > 0 <==> HasType(props, t)
    ensures n <= |props|
  {
    if props == [] then 0
    else
      var init := props[..|props| - 1];
      var n := CountType(init, t) + (if props[|props| - 1].tipo_propiedad == t then 1 else 0);
      assert HasType(init, t) ==> HasType(props, t) by {
        if HasType(init, t) {
          var i :| 0 <= i < |init| && init[i].tipo_propiedad == t;
          assert props[i] == init[i];
        }
      }
      assert HasType(props, t) && props[|props| - 1].tipo_propiedad != t ==> HasType(init, t) by {
        if HasType(props, t) && props[|props| - 1].tipo_propiedad != t {
          var i :| 0 <= i < |props| && props[i].tipo_propiedad == t;
          assert init[i] == props[i];
        }
      }
      n
  }

  /** The types in the order they first occur: the key order of the
      accumulator object. */
  function FirstSeen(props: seq<Property>): (r: seq<string>)
    ensures forall t :: t in r <==> HasType(props, t)
    ensures forall i, j :: 0 <= i < j < |r| ==> r[i] != r[j]
  {
    if props == [] then []
    else
      var init := props[..|props| - 1];
      var prev := FirstSeen(init);
      var t := props[|props| - 1].tipo_propiedad;
      assert forall u :: HasType(props, u) <==> HasType(init, u) || u == t by {
        forall u ensures HasType(props, u) <==> HasType(init, u) || u == t {
          if HasType(init, u) {
            var i :| 0 <= i < |init| && init[i].tipo_propiedad == u;
            assert props[i] == init[i];
          }
          if HasType(props, u) && u != t {
            var i :| 0 <= i < |props| && props[i].tipo_propiedad == u;
            assert init[i] == props[i];
          }
        }
      }
      if t in prev then prev else prev + [t]
  }

  /** The entries for the given keys, with their counts. */
  function Entries(keys: seq<string>, props: seq<Property>): (r: seq<TypeCount>)
    ensures |r| == |keys|
    ensures forall k :: 0 <= k < |keys| ==> r[k] == TypeCount(keys[k], CountType(props, keys[k]))
  {
    if keys == [] then [] else [TypeCount(keys[0], CountType(props, keys[0]))] + Entries(keys[1..], props)
  }

  /** `Object.entries(counts)`. */
  function TypeEntries(props: seq<Property>): seq<TypeCount> {
    Entries(FirstSeen(props), props)
  }

  function Sum(entries: seq<TypeCount>): nat {
    if entries == [] then 0 else entries[0].count + Sum(entries[1..])
  }

  lemma CountAppend(props: seq<Property>, p: Property, t: string)
    ensures CountType(props + [p], t) == CountType(props, t) + (if p.tipo_propiedad == t then 1 else 0)
  {
    assert (props + [p])[..|props|] == props;
  }

  /** The total of the counts of `keys`. */
  function CountSum(keys: seq<string>, props: seq<Property>): nat {
    if keys == [] then 0 else CountType(props, keys[0]) + CountSum(keys[1..], props)
  }

  lemma {:induction false} SumEntries(keys: seq<string>, props: seq<Property>)
    ensures Sum(Entries(keys, props)) == CountSum(keys, props)
  {
    if keys != [] {
      assert Entries(keys, props)[1..] == Entries(keys[1..], props);
      SumEntries(keys[1..], props);
    }
  }

  predicate Distinct(keys: seq<string>) {
    forall i, j :: 0 <= i < j < |keys| ==> keys[i] != keys[j]
  }

  lemma DistinctRest(keys: seq<string>)
    requires keys != [] && Distinct(keys)
    ensures Distinct(keys[1..]) && keys[0] !in keys[1..]
  {
    var rest := keys[1..];
    forall i, j | 0 <= i < j < |rest| ensures rest[i] != rest[j] {
      assert rest[i] == keys[i + 1] && rest[j] == keys[j + 1];
    }
    forall k | 0 <= k < |rest| ensures rest[k] != keys[0] {
      assert rest[k] == keys[k + 1];
    }
  }

  /** The sum of the counts of distinct keys, one record more. */
  lemma {:induction false} SumStep(keys: seq<string>, props: seq<Property>, p: Property)
    requires Distinct(keys)
    ensures CountSum(keys, props + [p]) == CountSum(keys, props) + (if p.tipo_propiedad in keys then 1 else 0)
  {
    if keys != [] {
      var rest := keys[1..];
      DistinctRest(keys);
      SumStep(rest, props, p);
      CountAppend(props, p, keys[0]);
      assert p.tipo_propiedad in keys <==> p.tipo_propiedad == keys[0] || p.tipo_propiedad in rest by {
        assert keys == [keys[0]] + rest;
      }
    }
  }

  lemma {:induction false} SumAppendKey(keys: seq<string>, t: string, props: seq<Property>)
    ensures CountSum(keys + [t], props) == CountSum(keys, props) + CountType(props, t)
  {
    if keys == [] {
      assert CountSum([t], props) == CountType(props, t) + CountSum([], props);
    } else {
      assert (keys + [t])[1..] == keys[1..] + [t];
      SumAppendKey(keys[1..], t, props);
    }
  }

  /** Every record is counted once, under its own type. */
  lemma {:induction false} FirstSeenSum(props: seq<Property>)
    ensures CountSum(FirstSeen(props), props) == |props|
  {
    if props != [] {
      var init := props[..|props| - 1];
      var p := props[|props| - 1];
      var keys := FirstSeen(init);
      assert props == init + [p];
      FirstSeenSum(init);
      SumStep(keys, init, p);
      if p.tipo_propiedad !in keys {
        SumAppendKey(keys, p.tipo_propiedad, props);
        CountAppend(init, p, p.tipo_propiedad);
        assert CountType(init, p.tipo_propiedad) == 0;
      }
    }
  }

  /** The histogram accounts for every record exactly once. */
  lemma TypeEntriesSum(props: seq<Property>)
    ensures Sum(TypeEntries(props)) == |props|
  {
    FirstSeenSum(props);
    SumEntries(FirstSeen(props), props);
  }

  // Sorting the entries keeps their sum and their distinct keys.

  function NegCount(e: TypeCount): int { -(e.count as int) }

  /** The histogram as shown: the entries sorted by count, largest first
      (a stable sort, so equal counts keep their first-seen order). */
  function ByType(props: seq<Property>): seq<TypeCount> {
    SortBy(TypeEntries(props), NegCount)
  }

  predicate DistinctTipos(s: seq<TypeCount>) {
    forall i, j :: 0 <= i < j < |s| ==> s[i].tipo != s[j].tipo
  }

  lemma {:induction false} SumInsert(x: TypeCount, s: seq<TypeCount>)
    ensures Sum(Insert(x, s, NegCount)) == x.count + Sum(s)
  {
    if s != [] && NegCount(x) > NegCount(s[0]) {
      SumInsert(x, s[1..]);
      assert Insert(x, s, NegCount)[1..] == Insert(x, s[1..], NegCount);
    } else {
      assert ([x] + s)[1..] == s;
    }
  }

  lemma {:induction false} SumSortBy(s: seq<TypeCount>)
    ensures Sum(SortBy(s, NegCount)) == Sum(s)
  {
    if s != [] {
      SumSortBy(s[1..]);
      SumInsert(s[0], SortBy(s[1..], NegCount));
    }
  }

  lemma DistinctTail(s: seq<TypeCount>)
    requires s != [] && DistinctTipos(s)
    ensures DistinctTipos(s[1..])
  {
    var tail := s[1..];
    forall i, j | 0 <= i < j < |tail| ensures tail[i].tipo != tail[j].tipo {
      assert tail[i] == s[i + 1] && tail[j] == s[j + 1];
    }
  }

  lemma {:induction false} DistinctInsert(x: TypeCount, s: seq<TypeCount>)
    requires DistinctTipos(s)
    requires forall y :: y in s ==> y.tipo != x.tipo
    ensures DistinctTipos(Insert(x, s, NegCount))
  {
    if s != [] && NegCount(x) > NegCount(s[0]) {
      var rest := Insert(x, s[1..], NegCount);
      DistinctTail(s);
      DistinctInsert(x, s[1..]);
      forall y | y in rest ensures y.tipo != s[0].tipo {
        InsertMember(x, s[1..], NegCount, y);
        if y != x {
          var j :| 0 <= j < |s[1..]| && s[1..][j] == y;
          assert s[j + 1] == y;
        }
      }
      assert Insert(x, s, NegCount) == [s[0]] + rest;
    }
  }

  lemma {:induction false} DistinctSortBy(s: seq<TypeCount>)
    requires DistinctTipos(s)
    ensures DistinctTipos(SortBy(s, NegCount))
  {
    if s != [] {
      var tail := s[1..];
      DistinctTail(s);
      DistinctSortBy(tail);
      var sorted := SortBy(tail, NegCount);
      forall y | y in sorted ensures y.tipo != s[0].tipo {
        assert y in multiset(sorted);
        var j :| 0 <= j < |tail| && tail[j] == y;
        assert s[j + 1] == y;
      }
      DistinctInsert(s[0], sorted);
    }
  }

  /** Sorting keeps the entries, as a bag. */
  lemma ByTypeSameEntries(props: seq<Property>, e: TypeCount)
    ensures e in ByType(props) <==> e in TypeEntries(props)
  {
    var entries := TypeEntries(props);
    assert multiset(ByType(props)) == multiset(entries);
    assert e in ByType(props) <==> e in multiset(ByType(props));
  }

  /** No type has two bars. */
  lemma ByTypeDistinct(props: seq<Property>)
    ensures DistinctTipos(ByType(props))
  {
    DistinctSortBy(TypeEntries(props));
  }

  /** Every type present has a bar. */
  lemma ByTypeCovers(props: seq<Property>, t: string)
    requires HasType(props, t)
    ensures exists e :: e in ByType(props) && e.tipo == t
  {
    var keys := FirstSeen(props);
    var k :| 0 <= k < |keys| && keys[k] == t;
    var e := TypeEntries(props)[k];
    ByTypeSameEntries(props, e);
    assert e in ByType(props) && e.tipo == t;
  }

  /** Every bar is for a type present. */
  lemma ByTypeOnlyPresent(props: seq<Property>, e: TypeCount)
    requires e in ByType(props)
    ensures HasType(props, e.tipo)
  {
    ByTypeSameEntries(props, e);
  }

  /** Each bar carries its type's count, which is at least one. */
  lemma ByTypeCounts(props: seq<Property>, e: TypeCount)
    requires e in ByType(props)
    ensures e.count == CountType(props, e.tipo) && e.count >= 1
  {
    ByTypeSameEntries(props, e);
  }

  /** The bars account for every record exactly once. */
  lemma ByTypeSum(props: seq<Property>)
    ensures Sum(ByType(props)) == |props|
  {
    TypeEntriesSum(props);
    SumSortBy(TypeEntries(props));
  }

  /** Largest count first. */
  lemma ByTypeDescending(props: seq<Property>)
    ensures forall i, j :: 0 <= i < j < |ByType(props)| ==> ByType(props)[i].count >= ByType(props)[j].count
  {
    SortBySorted(TypeEntries(props), NegCount);
  }

  /** Types with the same count keep the order in which they first occur. */
  lemma ByTypeTies(props: seq<Property>, k: int)
    ensures WithKey(ByType(props), NegCount, k) == WithKey(TypeEntries(props), NegCount, k)
  {
    SortByStable(TypeEntries(props), NegCount, k);
  }

  /** The step of the accumulator loop: one more record adds its type at the
      end of the key order if it is new, and adds one to its count. */
  /** The accumulator state after reading `prefix`: its keys in insertion
      order, and each key's count. */
  ghost predicate Tracks(counts: map<string, nat>, order: seq<string>, prefix: seq<Property>) {
    && order == FirstSeen(prefix)
    && (forall t :: t in counts <==> t in order)
    && (forall t :: t in counts ==> counts[t] == CountType(prefix, t))
  }

  lemma FirstSeenAppend(prefix: seq<Property>, p: Property)
    ensures FirstSeen(prefix + [p]) ==
      if p.tipo_propiedad in FirstSeen(prefix) then FirstSeen(prefix) else FirstSeen(prefix) + [p.tipo_propiedad]
  {
    assert (prefix + [p])[..|prefix|] == prefix;
  }

  /** `acc[t] = (acc[t] || 0) + 1`. */
  function Bump(counts: map<string, nat>, t: string): map<string, nat> {
    counts[t := (if t in counts then counts[t] else 0) + 1]
  }

  lemma BumpKeys(counts: map<string, nat>, order: seq<string>, prefix: seq<Property>, p: Property)
    requires Tracks(counts, order, prefix)
    ensures var t := p.tipo_propiedad;
      forall u :: u in Bump(counts, t) <==> u in (if t in counts then order else order + [t])
  {
    var t := p.tipo_propiedad;
    forall u ensures u in Bump(counts, t) <==> u in (if t in counts then order else order + [t]) {
      assert u in order + [t] <==> u in order || u == t;
    }
  }

  lemma BumpCounts(counts: map<string, nat>, order: seq<string>, prefix: seq<Property>, p: Property)
    requires Tracks(counts, order, prefix)
    ensures var t := p.tipo_propiedad;
      forall u :: u in Bump(counts, t) ==> Bump(counts, t)[u] == CountType(prefix + [p], u)
  {
    var t := p.tipo_propiedad;
    forall u | u in Bump(counts, t) ensures Bump(counts, t)[u] == CountType(prefix + [p], u) {
      CountAppend(prefix, p, u);
      if u == t && t !in counts {
        assert !HasType(prefix, t);
      }
    }
  }

  /** One step of `reduce`: the type's count goes up by one, a new type going
      to the end of the key order. */
  lemma TracksStep(counts: map<string, nat>, order: seq<string>, prefix: seq<Property>, p: Property)
    requires Tracks(counts, order, prefix)
    ensures var t := p.tipo_propiedad;
      Tracks(Bump(counts, t), if t in counts then order else order + [t], prefix + [p])
  {
    FirstSeenAppend(prefix, p);
    BumpKeys(counts, order, prefix, p);
    BumpCounts(counts, order, prefix, p);
  }

  /** The accumulator object's entries, in key order. */
  function Tabulate(order: seq<string>, counts: map<string, nat>): (r: seq<TypeCount>)
    requires forall t :: t in order ==> t in counts
    ensures |r| == |order|
  {
    seq(|order|, k requires 0 <= k < |order| => TypeCount(order[k], counts[order[k]]))
  }

  lemma TabulateEntries(order: seq<string>, counts: map<string, nat>, props: seq<Property>)
    requires Tracks(counts, order, props)
    ensures Tabulate(order, counts) == TypeEntries(props)
  {
  }

  /** `propertiesByType`: the accumulator loop over the records, then a copy
      of its entries sorted by count, largest first. */
  method PropertiesByType(props: seq<Property>) returns (r: seq<TypeCount>)
    ensures r == ByType(props)
  {
    var counts: map<string, nat> := map[];
    var order: seq<string> := [];
    var i := 0;
    while i < |props|
      invariant 0 <= i <= |props|
      invariant Tracks(counts, order, props[..i])
    {
      var t := props[i].tipo_propiedad;
      assert props[..i + 1] == props[..i] + [props[i]];
      TracksStep(counts, order, props[..i], props[i]);
      if t !in counts {
        order := order + [t];
      }
      counts := Bump(counts, t);
      i := i + 1;
    }
    assert props[..i] == props;
    var entries := Tabulate(order, counts);
    TabulateEntries(order, counts, props);
    r := SortedCopy(entries, NegCount);
  }

  /** `Math.max(1, ...counts)`. */
  function MaxCount(entries: seq<TypeCount>): (m: nat)
    ensures m >= 1
    ensures forall e :: e in entries ==> e.count <= m
    ensures m == 1 || exists e :: e in entries && e.count == m
  {
    if entries == [] then 1
    else
      var rest := MaxCount(entries[1..]);
      if entries[0].count > rest then entries[0].count else rest
  }

  /** The width of a bar, in percent of the track. */
  function BarPercent(count: nat, max: nat): real
    requires max >= 1
  {
    (count as real / max as real) * 100.0
  }

  /** Every bar fits its track. */
  lemma BarsFit(entries: seq<TypeCount>, e: TypeCount)
    requires e in entries
    ensures 0.0 <= BarPercent(e.count, MaxCount(entries)) <= 100.0
  {
    RatioAtMostOne(e.count as real, MaxCount(entries) as real);
  }

  lemma RatioAtMostOne(a: real, b: real)
    requires 0.0 <= a <= b && 0.0 < b
    ensures 0.0 <= a / b <= 1.0
  {
    assert a / b * b == a;
  }

  // ------------------------------------------------------------ recent

  function NegDate(p: Property): int { -p.fecha_publicacion }

  /** The five newest records, newest first. */
  function Newest(props: seq<Property>): seq<Property> {
    var sorted := SortBy(props, NegDate);
    if |sorted| <= 5 then sorted else sorted[..5]
  }

  /** `recentProperties`: a sorted copy of the records, cut to five. */
  method RecentProperties(props: seq<Property>) returns (r: seq<Property>)
    ensures r == Newest(props)
  {
    r := SortedCopy(props, NegDate);
    if |r| > 5 {
      r := r[..5];
    }
  }

  /** At most five records, all taken from the list. */
  lemma NewestSize(props: seq<Property>)
    ensures |Newest(props)| == if |props| < 5 then |props| else 5
    ensures multiset(Newest(props)) <= multiset(props)
  {
    var sorted := SortBy(props, NegDate);
    if |sorted| > 5 {
      assert sorted == Newest(props) + sorted[5..];
    }
  }

  /** Newest first. */
  lemma NewestOrdered(props: seq<Property>)
    ensures forall i, j :: 0 <= i < j < |Newest(props)| ==>
      Newest(props)[i].fecha_publicacion >= Newest(props)[j].fecha_publicacion
  {
    SortBySorted(props, NegDate);
  }

  /** Every record left out is no newer than the last one shown. */
  lemma NewestCutoff(props: seq<Property>, q: Property)
    requires q in props && q !in Newest(props)
    ensures q.fecha_publicacion <= Newest(props)[|Newest(props)| - 1].fecha_publicacion
  {
    var sorted := SortBy(props, NegDate);
    SortBySorted(props, NegDate);
    assert q in multiset(sorted);
    var k :| 0 <= k < |sorted| && sorted[k] == q;
    assert NegDate(sorted[4]) <= NegDate(sorted[k]);
  }
}
