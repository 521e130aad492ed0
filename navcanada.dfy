/** What the alpha-report request does with a response: keep the reports
    whose text mentions one of the requested aerodromes, then order them by
    start of validity, latest first, with a stable sort. */
module NavCanada {
  import opened Outcomes

  /** One report of the response's "data" list; only its text and its start
      of validity are read. */
  datatype AlphaReport = AlphaReport(text: string, startValidity: string)

  /** A response other than HTTP 200 raises instead of returning a list. */
  datatype RequestError = RequestFailed(status: int)

  // ---------------------------------------------------------------------------
  // Substrings and string order, as Python's `in` and `<=` on str

  /** `sub in text`: sub occurs somewhere in text (the empty string always does). */
  function Contains(text: string, sub: string): bool
    decreases |text|
  {
    sub <= text || (text != [] && Contains(text[1..], sub))
  }

  /** sub occurs in text starting at index i. */
  predicate OccursAt(text: string, sub: string, i: int) {
    0 <= i <= |text| - |sub| && text[i..i + |sub|] == sub
  }

  /** Contains agrees with "there is an index where sub occurs". */
  lemma {:induction false} ContainsAt(text: string, sub: string)
    ensures Contains(text, sub) <==> exists i :: OccursAt(text, sub, i)
    decreases |text|
  {
    if sub <= text {
      assert OccursAt(text, sub, 0);
    } else if text == [] {
    } else {
      ContainsAt(text[1..], sub);
      if i :| OccursAt(text, sub, i) {
        assert i != 0;
        assert text[1..][i - 1..i - 1 + |sub|] == sub;
        assert OccursAt(text[1..], sub, i - 1);
      }
      if i :| OccursAt(text[1..], sub, i) {
        assert text[i + 1..i + 1 + |sub|] == sub;
        assert OccursAt(text, sub, i + 1);
      }
    }
  }

  /** `any(icao_id in text for icao_id in icaos)`. */
  predicate MentionsAny(text: string, icaos: seq<string>) {
    exists id :: id in icaos && Contains(text, id)
  }

  /** Python's `a <= b` on str: lexicographic by code point. */
  predicate StrLe(a: string, b: string)
    decreases |a|
  {
    a == [] || (b != [] && (a[0] < b[0] || (a[0] == b[0] && StrLe(a[1..], b[1..]))))
  }

  lemma {:induction false} StrLeReflexive(a: string)
    ensures StrLe(a, a)
    decreases |a|
  {
    if a != [] { StrLeReflexive(a[1..]); }
  }

  lemma {:induction false} StrLeTotal(a: string, b: string)
    ensures StrLe(a, b) || StrLe(b, a)
    decreases |a|
  {
    if a != [] && b != [] && a[0] == b[0] { StrLeTotal(a[1..], b[1..]); }
  }

  lemma {:induction false} StrLeTransitive(a: string, b: string, c: string)
    requires StrLe(a, b) && StrLe(b, c)
    ensures StrLe(a, c)
    decreases |a|
  {
    if a != [] && b != [] && c != [] && a[0] == b[0] == c[0] {
      StrLeTransitive(a[1..], b[1..], c[1..]);
    }
  }

  lemma {:induction false} StrLeAntisymmetric(a: string, b: string)
    requires StrLe(a, b) && StrLe(b, a)
    ensures a == b
    decreases |a|
  {
    if a != [] {
      StrLeAntisymmetric(a[1..], b[1..]);
      assert a == [a[0]] + a[1..] && b == [b[0]] + b[1..];
    }
  }

  // ---------------------------------------------------------------------------
  // Specification of the filter and of the sort

  /** The reports that mention a requested aerodrome, in response order. */
  function Kept(data: seq<AlphaReport>, icaos: seq<string>): seq<AlphaReport> {
    if data == [] then []
    else (if MentionsAny(data[0].text, icaos) then [data[0]] else []) + Kept(data[1..], icaos)
  }

  /** The reports whose start of validity is `start`, in their order in s. */
  function WithStart(s: seq<AlphaReport>, start: string): seq<AlphaReport> {
    if s == [] then []
    else (if s[0].startValidity == start then [s[0]] else []) + WithStart(s[1..], start)
  }

  /** Latest start of validity first (non-increasing). */
  predicate SortedDesc(s: seq<AlphaReport>) {
    forall i, j :: 0 <= i < j < |s| ==> StrLe(s[j].startValidity, s[i].startValidity)
  }

  lemma {:induction false} KeptAppend(a: seq<AlphaReport>, b: seq<AlphaReport>, icaos: seq<string>)
    ensures Kept(a + b, icaos) == Kept(a, icaos) + Kept(b, icaos)
    decreases |a|
  {
    if a == [] {
      assert a + b == b;
    } else {
      assert (a + b)[1..] == a[1..] + b;
      KeptAppend(a[1..], b, icaos);
    }
  }

  lemma {:induction false} WithStartAppend(a: seq<AlphaReport>, b: seq<AlphaReport>, start: string)
    ensures WithStart(a + b, start) == WithStart(a, start) + WithStart(b, start)
    decreases |a|
  {
    if a == [] {
      assert a + b == b;
    } else {
      assert (a + b)[1..] == a[1..] + b;
      WithStartAppend(a[1..], b, start);
    }
  }

  /** Every kept report mentions a requested aerodrome. */
  lemma {:induction false} KeptMention(data: seq<AlphaReport>, icaos: seq<string>)
    ensures forall x :: x in Kept(data, icaos) ==> MentionsAny(x.text, icaos)
    decreases |data|
  {
    if data != [] { KeptMention(data[1..], icaos); }
  }

  /** Each report that mentions a requested aerodrome is kept as many times
      as it occurs in the response, and no other report is kept. */
  lemma {:induction false} KeptCount(data: seq<AlphaReport>, icaos: seq<string>, x: AlphaReport)
    ensures multiset(Kept(data, icaos))[x] ==
      if MentionsAny(x.text, icaos) then multiset(data)[x] else 0
    decreases |data|
  {
    if data != [] {
      KeptCount(data[1..], icaos, x);
      assert data == [data[0]] + data[1..];
    }
  }

  /** The filter never lengthens the list, and with no aerodrome requested it keeps nothing. */
  lemma {:induction false} KeptBounds(data: seq<AlphaReport>, icaos: seq<string>)
    ensures |Kept(data, icaos)| <= |data|
    ensures icaos == [] ==> Kept(data, icaos) == []
    decreases |data|
  {
    if data != [] { KeptBounds(data[1..], icaos); }
  }

  /** Filtering and picking the reports of one start of validity commute. */
  lemma {:induction false} KeptWithStart(data: seq<AlphaReport>, icaos: seq<string>, start: string)
    ensures WithStart(Kept(data, icaos), start) == Kept(WithStart(data, start), icaos)
    decreases |data|
  {
    if data != [] {
      var x := data[0];
      var kx := if MentionsAny(x.text, icaos) then [x] else [];
      var wx := if x.startValidity == start then [x] else [];
      WithStartAppend(kx, Kept(data[1..], icaos), start);
      KeptAppend(wx, WithStart(data[1..], start), icaos);
      KeptWithStart(data[1..], icaos, start);
      assert kx == [] || kx == [x];
      assert wx == [] || wx == [x];
      if kx == [x] { assert kx[1..] == []; }
      if wx == [x] { assert wx[1..] == []; }
    }
  }

  // ---------------------------------------------------------------------------
  // The request's post-processing as the program performs it

  /** Builds the filtered list by appending, in response order, each report
      that mentions a requested aerodrome. */
  method FilterReports(data: seq<AlphaReport>, icaos: seq<string>) returns (filtered: seq<AlphaReport>)
    ensures filtered == Kept(data, icaos)
  {
    filtered := [];
    for i := 0 to |data|
      invariant filtered == Kept(data[..i], icaos)
    {
      var item := data[i];
      var mentioned := false;
      for k := 0 to |icaos|
        invariant mentioned <==> exists id :: id in icaos[..k] && Contains(item.text, id)
      {
        assert icaos[..k + 1] == icaos[..k] + [icaos[k]];
        if Contains(item.text, icaos[k]) {
          mentioned := true;
          assert icaos[k] in icaos[..k + 1];
        }
      }
      assert icaos[..|icaos|] == icaos;
      assert data[..i + 1] == data[..i] + [item];
      KeptAppend(data[..i], [item], icaos);
      if mentioned {
        filtered := filtered + [item];
      }
    }
    assert data[..|data|] == data;
  }

  /** Inserts x after every report whose start of validity is not earlier
      than x's, which keeps the list sorted and x behind its equals. */
  method InsertDesc(sorted: seq<AlphaReport>, x: AlphaReport) returns (r: seq<AlphaReport>)
    requires SortedDesc(sorted)
    ensures SortedDesc(r)
    ensures multiset(r) == multiset(sorted) + multiset{x}
    ensures forall start ::
      WithStart(r, start) == WithStart(sorted, start) + (if x.startValidity == start then [x] else [])
  {
    var j := 0;
    while j < |sorted| && StrLe(x.startValidity, sorted[j].startValidity)
      invariant j <= |sorted|
      invariant forall m :: 0 <= m < j ==> StrLe(x.startValidity, sorted[m].startValidity)
    {
      j := j + 1;
    }
    StartsEarlierFrom(sorted, j, x);
    r := sorted[..j] + [x] + sorted[j..];
    InsertSorted(sorted, j, x);
    assert sorted == sorted[..j] + sorted[j..];
    forall start
      ensures WithStart(r, start) ==
        WithStart(sorted, start) + (if x.startValidity == start then [x] else [])
    {
      InsertWithStart(sorted, j, x, start);
    }
  }

  /** Once the scan stops at j, every report from j on starts strictly earlier than x. */
  lemma StartsEarlierFrom(sorted: seq<AlphaReport>, j: nat, x: AlphaReport)
    requires SortedDesc(sorted) && j <= |sorted|
    requires j < |sorted| ==> !StrLe(x.startValidity, sorted[j].startValidity)
    ensures forall m :: j <= m < |sorted| ==>
      StrLe(sorted[m].startValidity, x.startValidity) && sorted[m].startValidity != x.startValidity
  {
    forall m | j <= m < |sorted|
      ensures StrLe(sorted[m].startValidity, x.startValidity)
      ensures sorted[m].startValidity != x.startValidity
    {
      StrLeTotal(x.startValidity, sorted[j].startValidity);
      if m > j {
        StrLeTransitive(sorted[m].startValidity, sorted[j].startValidity, x.startValidity);
      }
      if sorted[m].startValidity == x.startValidity {
        StrLeReflexive(x.startValidity);
      }
    }
  }

  lemma InsertSorted(sorted: seq<AlphaReport>, j: nat, x: AlphaReport)
    requires SortedDesc(sorted) && j <= |sorted|
    requires forall m :: 0 <= m < j ==> StrLe(x.startValidity, sorted[m].startValidity)
    requires forall m :: j <= m < |sorted| ==> StrLe(sorted[m].startValidity, x.startValidity)
    ensures SortedDesc(sorted[..j] + [x] + sorted[j..])
  {
  }

  lemma InsertWithStart(sorted: seq<AlphaReport>, j: nat, x: AlphaReport, start: string)
    requires j <= |sorted|
    requires forall m :: j <= m < |sorted| ==> sorted[m].startValidity != x.startValidity
    ensures WithStart(sorted[..j] + [x] + sorted[j..], start) ==
      WithStart(sorted, start) + (if x.startValidity == start then [x] else [])
  {
    assert sorted == sorted[..j] + sorted[j..];
    WithStartAppend(sorted[..j] + [x], sorted[j..], start);
    WithStartAppend(sorted[..j], [x], start);
    WithStartAppend(sorted[..j], sorted[j..], start);
    if x.startValidity == start {
      NoneWithStart(sorted[j..], start);
    }
  }

  lemma {:induction false} NoneWithStart(s: seq<AlphaReport>, start: string)
    requires forall m :: 0 <= m < |s| ==> s[m].startValidity != start
    ensures WithStart(s, start) == []
    decreases |s|
  {
    if s != [] { NoneWithStart(s[1..], start); }
  }

  /** `sorted(items, key=startValidity, reverse=True)`: latest first, a
      permutation of the input, and reports with the same start of validity
      in their input order (Python's sort is stable also when reversed). */
  method SortByStartDesc(items: seq<AlphaReport>) returns (sorted: seq<AlphaReport>)
    ensures SortedDesc(sorted)
    ensures multiset(sorted) == multiset(items)
    ensures forall start :: WithStart(sorted, start) == WithStart(items, start)
  {
    sorted := [];
    for i := 0 to |items|
      invariant SortedDesc(sorted)
      invariant multiset(sorted) == multiset(items[..i])
      invariant forall start :: WithStart(sorted, start) == WithStart(items[..i], start)
    {
      sorted := InsertDesc(sorted, items[i]);
      assert items[..i + 1] == items[..i] + [items[i]];
      forall start ensures WithStart(items[..i + 1], start) ==
        WithStart(items[..i], start) + (if items[i].startValidity == start then [items[i]] else [])
      {
        WithStartAppend(items[..i], [items[i]], start);
      }
    }
    assert items[..|items|] == items;
  }

  lemma {:induction false} WithStartMember(s: seq<AlphaReport>, start: string, x: AlphaReport)
    ensures x in WithStart(s, start) <==> x in s && x.startValidity == start
    decreases |s|
  {
    if s != [] { WithStartMember(s[1..], start, x); }
  }

  /** A descending order that keeps equal starts in input order is unique:
      two such arrangements of the same reports are the same list, so the
      insertion sort above returns exactly what any stable descending sort
      returns. */
  lemma {:induction false} StableOrderUnique(s: seq<AlphaReport>, t: seq<AlphaReport>)
    requires SortedDesc(s) && SortedDesc(t)
    requires forall start :: WithStart(s, start) == WithStart(t, start)
    ensures s == t
    decreases |s|
  {
    if s == [] || t == [] {
      if s != [] {
        assert s[0] in WithStart(s, s[0].startValidity) by { WithStartMember(s, s[0].startValidity, s[0]); }
        assert false;
      } else if t != [] {
        assert t[0] in WithStart(t, t[0].startValidity) by { WithStartMember(t, t[0].startValidity, t[0]); }
        assert false;
      }
    } else {
      var a, b := s[0].startValidity, t[0].startValidity;
      // The first report of each list has the latest start, so both start at the same time.
      WithStartMember(t, b, t[0]);
      WithStartMember(s, b, t[0]);
      WithStartMember(s, a, s[0]);
      WithStartMember(t, a, s[0]);
      var i :| 0 <= i < |s| && s[i] == t[0];
      var k :| 0 <= k < |t| && t[k] == s[0];
      if i > 0 {} else { StrLeReflexive(a); }
      if k > 0 {} else { StrLeReflexive(b); }
      StrLeAntisymmetric(a, b);
      // Both lists therefore begin with the first report starting at a.
      assert s[0] == WithStart(s, a)[0] == WithStart(t, a)[0] == t[0];
      forall start ensures WithStart(s[1..], start) == WithStart(t[1..], start) {
        assert WithStart(s, start) == (if a == start then [s[0]] else []) + WithStart(s[1..], start);
        assert WithStart(t, start) == (if a == start then [t[0]] else []) + WithStart(t[1..], start);
        assert WithStart(s, start) == WithStart(t, start);
        if a == start {
          assert WithStart(s[1..], start) == WithStart(s, start)[1..];
          assert WithStart(t[1..], start) == WithStart(t, start)[1..];
        } else {
          assert WithStart(s[1..], start) == WithStart(s, start);
          assert WithStart(t[1..], start) == WithStart(t, start);
        }
      }
      StableOrderUnique(s[1..], t[1..]);
      assert s == [s[0]] + s[1..] && t == [t[0]] + t[1..];
    }
  }

  /** The response handling of the alpha-report request: on HTTP 200 the
      kept reports, latest start of validity first; otherwise an error. */
  method HandleResponse(status: int, data: seq<AlphaReport>, icaos: seq<string>)
    returns (r: Result<seq<AlphaReport>, RequestError>)
    ensures r.Err? <==> status != 200
    ensures r.Err? ==> r.error == RequestFailed(status)
    ensures r.Ok? ==>
      && (forall x :: x in r.value ==> MentionsAny(x.text, icaos))
      && (forall x :: multiset(r.value)[x] == if MentionsAny(x.text, icaos) then multiset(data)[x] else 0)
      && |r.value| <= |data|
      && SortedDesc(r.value)
      && (forall start :: WithStart(r.value, start) == Kept(WithStart(data, start), icaos))
      && (icaos == [] ==> r.value == [])
  {
    if status != 200 {
      return Err(RequestFailed(status));
    }
    var filtered := FilterReports(data, icaos);
    var sorted := SortByStartDesc(filtered);
    KeptMention(data, icaos);
    KeptBounds(data, icaos);
    forall x: AlphaReport ensures multiset(sorted)[x] == if MentionsAny(x.text, icaos) then multiset(data)[x] else 0 {
      KeptCount(data, icaos, x);
    }
    forall start ensures WithStart(sorted, start) == Kept(WithStart(data, start), icaos) {
      KeptWithStart(data, icaos, start);
    }
    assert |sorted| == |multiset(sorted)| == |multiset(filtered)| == |filtered|;
    r := Ok(sorted);
  }
}
