/** Per-airport weather tabs: which of the METAR, TAF and PIREP results get a
    tab, which raw text a tab shows, and how that text is broken into lines
    before the BECMG, FM, PROB and RMK groups. */
module ReportTabs {
  import opened Outcomes

  /** One decoded JSON record of a report response; only its string fields matter here. */
  type Record = map<string, string>

  /** The tab names, in the order tabs are added. */
  const TAB_ORDER: seq<string> := ["metar", "taf", "pirep"]

  /** Position of a tab name in TAB_ORDER. */
  function Rank(tab: string): nat {
    if tab == "metar" then 0 else if tab == "taf" then 1 else 2
  }

  /** The response a tab name stands for. */
  function ResultFor(tab: string, metar: seq<Record>, taf: seq<Record>, pirep: seq<Record>): seq<Record> {
    if tab == "metar" then metar else if tab == "taf" then taf else pirep
  }

  /** Adds a tab, with its response, for each non-empty response, in the
      order metar, taf, pirep. */
  method SelectTabs(metar: seq<Record>, taf: seq<Record>, pirep: seq<Record>)
    returns (tabs: seq<string>, tabsInfo: seq<seq<Record>>)
    ensures |tabs| == |tabsInfo|
    ensures forall i :: 0 <= i < |tabs| ==>
      && tabs[i] in TAB_ORDER
      && tabsInfo[i] == ResultFor(tabs[i], metar, taf, pirep)
      && tabsInfo[i] != []
    ensures forall i, j :: 0 <= i < j < |tabs| ==> Rank(tabs[i]) < Rank(tabs[j])
    ensures "metar" in tabs <==> metar != []
    ensures "taf" in tabs <==> taf != []
    ensures "pirep" in tabs <==> pirep != []
  {
    tabs, tabsInfo := [], [];
    if metar != [] {
      tabs := tabs + ["metar"];
      tabsInfo := tabsInfo + [metar];
    }
    if taf != [] {
      tabs := tabs + ["taf"];
      tabsInfo := tabsInfo + [taf];
    }
    if pirep != [] {
      tabs := tabs + ["pirep"];
      tabsInfo := tabsInfo + [pirep];
    }
  }

  /** The raw text a tab shows from the first record of its response: the
      observation if the record has one, otherwise the forecast; a record
      with neither raises KeyError. */
  function RawText(first: Record): Option<string> {
    if "rawOb" in first then Some(first["rawOb"])
    else if "rawTAF" in first then Some(first["rawTAF"])
    else None
  }

  // ---------------------------------------------------------------------------
  // str.replace and the line breaks

  /** Python's str.replace for a non-empty pattern: scanning left to right,
      each occurrence not overlapping an earlier replaced one is replaced. */
  function Replace(s: string, pat: string, rep: string): string
    requires pat != []
    decreases |s|
  {
    if s == [] then []
    else if pat <= s then rep + Replace(s[|pat|..], pat, rep)
    else [s[0]] + Replace(s[1..], pat, rep)
  }

  /** Replaces each keyword occurrence by a newline followed by the keyword. */
  function BreakBefore(s: string, keyword: string): string
    requires keyword != []
  {
    Replace(s, keyword, "\n" + keyword)
  }

  /** The displayed form of a raw report. */
  function Format(raw: string): string {
    BreakBefore(BreakBefore(BreakBefore(BreakBefore(raw, "BECMG"), "FM"), "PROB"), "RMK")
  }

  /** Undoes Format: removes the newline in front of each keyword, last keyword first. */
  function Unformat(text: string): string {
    var t := Replace(text, "\nRMK", "RMK");
    var t' := Replace(t, "\nPROB", "PROB");
    var t'' := Replace(t', "\nFM", "FM");
    Replace(t'', "\nBECMG", "BECMG")
  }

  /** The text with every newline dropped. */
  function DropNewlines(s: string): string {
    if s == [] then [] else (if s[0] == '\n' then [] else [s[0]]) + DropNewlines(s[1..])
  }

  lemma BreakStartsWithNewline(s: string, keyword: string)
    requires keyword != [] && keyword <= s
    ensures BreakBefore(s, keyword) != [] && BreakBefore(s, keyword)[0] == '\n'
  {
  }

  /** A newline-free prefix of the broken text is already a prefix of the
      original: breaking only ever puts a newline in front of what it keeps. */
  lemma {:induction false} PrefixBeforeBreak(s: string, keyword: string, p: string)
    requires keyword != []
    requires '\n' !in p
    requires p <= BreakBefore(s, keyword)
    ensures p <= s
    decreases |s|
  {
    if s == [] || p == [] {
    } else if keyword <= s {
      BreakStartsWithNewline(s, keyword);
      assert false;
    } else {
      var rest := BreakBefore(s[1..], keyword);
      assert BreakBefore(s, keyword) == [s[0]] + rest;
      assert p[1..] <= rest;
      PrefixBeforeBreak(s[1..], keyword, p[1..]);
    }
  }

  lemma ConsPrefix(c: char, k: string, d: char, r: string)
    requires [c] + k <= [d] + r
    ensures c == d && k <= r
  {
    assert ([c] + k)[0] == ([d] + r)[0];
    assert forall i :: 0 <= i < |k| ==> k[i] == ([c] + k)[i + 1] == ([d] + r)[i + 1] == r[i];
  }

  /** Removing the newline in front of each keyword restores the text that
      BreakBefore was given, provided the keyword has no newline in it. */
  lemma {:induction false} UnbreakBreak(s: string, keyword: string)
    requires keyword != [] && '\n' !in keyword
    ensures Replace(BreakBefore(s, keyword), "\n" + keyword, keyword) == s
    decreases |s|
  {
    var nk := "\n" + keyword;
    var t := BreakBefore(s, keyword);
    if s == [] {
    } else if keyword <= s {
      var rest := BreakBefore(s[|keyword|..], keyword);
      assert t == nk + rest;
      assert nk <= t;
      assert t[|nk|..] == rest;
      UnbreakBreak(s[|keyword|..], keyword);
      assert s == keyword + s[|keyword|..];
    } else {
      var rest := BreakBefore(s[1..], keyword);
      assert t == [s[0]] + rest;
      if nk <= t {
        ConsPrefix('\n', keyword, s[0], rest);
        PrefixBeforeBreak(s[1..], keyword, keyword);
        // so BreakBefore put a newline at the head of rest, which keyword cannot match
        assert false;
      }
      assert t[1..] == rest;
      UnbreakBreak(s[1..], keyword);
    }
  }

  /** Formatting is undone by Unformat: the displayed text is the raw text
      with newlines added and nothing else changed. */
  lemma FormatRoundTrip(raw: string)
    ensures Unformat(Format(raw)) == raw
  {
    var t1 := BreakBefore(raw, "BECMG");
    var t2 := BreakBefore(t1, "FM");
    var t3 := BreakBefore(t2, "PROB");
    assert "\n" + "RMK" == "\nRMK" && "\n" + "PROB" == "\nPROB";
    assert "\n" + "FM" == "\nFM" && "\n" + "BECMG" == "\nBECMG";
    UnbreakBreak(t3, "RMK");
    UnbreakBreak(t2, "PROB");
    UnbreakBreak(t1, "FM");
    UnbreakBreak(raw, "BECMG");
  }

  lemma {:induction false} DropNewlinesAppend(a: string, b: string)
    ensures DropNewlines(a + b) == DropNewlines(a) + DropNewlines(b)
    decreases |a|
  {
    if a == [] {
      assert a + b == b;
    } else {
      assert (a + b)[1..] == a[1..] + b;
      DropNewlinesAppend(a[1..], b);
    }
  }

  lemma DropLeadingNewline(t: string)
    ensures DropNewlines("\n" + t) == DropNewlines(t)
  {
    assert ("\n" + t)[1..] == t;
  }

  /** Apart from newlines, BreakBefore leaves the text as it was. */
  lemma {:induction false} BreakAddsOnlyNewlines(s: string, keyword: string)
    requires keyword != []
    ensures DropNewlines(BreakBefore(s, keyword)) == DropNewlines(s)
    decreases |s|
  {
    if s == [] {
    } else if keyword <= s {
      var rest := s[|keyword|..];
      calc {
        DropNewlines(BreakBefore(s, keyword));
        DropNewlines(("\n" + keyword) + BreakBefore(rest, keyword));
        { DropNewlinesAppend("\n" + keyword, BreakBefore(rest, keyword)); }
        DropNewlines("\n" + keyword) + DropNewlines(BreakBefore(rest, keyword));
        { DropLeadingNewline(keyword); BreakAddsOnlyNewlines(rest, keyword); }
        DropNewlines(keyword) + DropNewlines(rest);
        { DropNewlinesAppend(keyword, rest); }
        DropNewlines(keyword + rest);
        { assert keyword + rest == s; }
        DropNewlines(s);
      }
    } else {
      calc {
        DropNewlines(BreakBefore(s, keyword));
        DropNewlines([s[0]] + BreakBefore(s[1..], keyword));
        { DropNewlinesAppend([s[0]], BreakBefore(s[1..], keyword)); }
        DropNewlines([s[0]]) + DropNewlines(BreakBefore(s[1..], keyword));
        { BreakAddsOnlyNewlines(s[1..], keyword); }
        DropNewlines([s[0]]) + DropNewlines(s[1..]);
        { DropNewlinesAppend([s[0]], s[1..]); assert [s[0]] + s[1..] == s; }
        DropNewlines(s);
      }
    }
  }

  /** The displayed text differs from the raw text only in newlines. */
  lemma FormatAddsOnlyNewlines(raw: string)
    ensures DropNewlines(Format(raw)) == DropNewlines(raw)
  {
    var t1 := BreakBefore(raw, "BECMG");
    var t2 := BreakBefore(t1, "FM");
    var t3 := BreakBefore(t2, "PROB");
    BreakAddsOnlyNewlines(raw, "BECMG");
    BreakAddsOnlyNewlines(t1, "FM");
    BreakAddsOnlyNewlines(t2, "PROB");
    BreakAddsOnlyNewlines(t3, "RMK");
  }

  // ---------------------------------------------------------------------------
  // Each keyword of the displayed text sits right after a newline

  /** The keywords Format puts a newline in front of. */
  const KEYWORDS: seq<string> := ["BECMG", "FM", "PROB", "RMK"]

  /** kw occurs in t starting at index i. */
  predicate KeywordAt(t: string, kw: string, i: int) {
    0 <= i && i + |kw| <= |t| && t[i..i + |kw|] == kw
  }

  /** Every occurrence of kw in t, except possibly one at index 0, follows a newline. */
  ghost predicate NewlineBeforeInner(t: string, kw: string) {
    forall i :: 0 < i && KeywordAt(t, kw, i) ==> t[i - 1] == '\n'
  }

  /** Every occurrence of kw in t follows a newline. */
  ghost predicate NewlineBeforeEach(t: string, kw: string) {
    forall i :: KeywordAt(t, kw, i) ==> 0 < i && t[i - 1] == '\n'
  }

  /** No two occurrences of kw can overlap: no proper suffix of kw starts kw. */
  ghost predicate SelfOverlapFree(kw: string) {
    forall d :: 0 < d < |kw| ==> !(kw[d..] <= kw)
  }

  lemma ShiftKeywordAt(x: string, u: string, kw: string, i: int)
    requires i >= |x|
    ensures KeywordAt(x + u, kw, i) <==> KeywordAt(u, kw, i - |x|)
  {
    if i + |kw| <= |x + u| {
      assert (x + u)[i..i + |kw|] == u[i - |x|..i - |x| + |kw|];
    }
  }

  /** An occurrence of kw that starts inside the copy of kw right after the
      inserted newline makes a proper suffix of kw a prefix of kw. */
  lemma OverlapInsideCopy(kw: string, rest: string, i: int)
    requires 1 < i < 1 + |kw|
    requires KeywordAt(("\n" + kw) + rest, kw, i)
    ensures kw[i - 1..] <= kw
  {
    var t := ("\n" + kw) + rest;
    assert forall k :: 0 <= k < |kw| - (i - 1) ==> kw[i - 1..][k] == t[i + k] == kw[k];
  }

  /** After one BreakBefore pass, every occurrence of a keyword that has no
      newline and cannot overlap itself follows a newline. */
  lemma {:induction false} BreakMarksKeyword(s: string, kw: string)
    requires kw != [] && '\n' !in kw && SelfOverlapFree(kw)
    ensures NewlineBeforeEach(BreakBefore(s, kw), kw)
    decreases |s|
  {
    var t := BreakBefore(s, kw);
    if s == [] {
    } else if kw <= s {
      var x := "\n" + kw;
      var rest := BreakBefore(s[|kw|..], kw);
      assert t == x + rest;
      BreakMarksKeyword(s[|kw|..], kw);
      forall i | KeywordAt(t, kw, i) ensures 0 < i && t[i - 1] == '\n' {
        assert t[i] == kw[0] && t[0] == '\n';
        if i >= |x| {
          ShiftKeywordAt(x, rest, kw, i);
        } else if i > 1 {
          OverlapInsideCopy(kw, rest, i);
          assert false;
        }
      }
    } else {
      var rest := BreakBefore(s[1..], kw);
      assert t == [s[0]] + rest;
      BreakMarksKeyword(s[1..], kw);
      forall i | KeywordAt(t, kw, i) ensures 0 < i && t[i - 1] == '\n' {
        if i == 0 {
          assert kw <= t by { assert t[..|kw|] == kw; }
          PrefixBeforeBreak(s, kw, kw);
          assert false;
        }
        ShiftKeywordAt([s[0]], rest, kw, i);
      }
    }
  }

  /** A suffix keeps the inner marks of the text it is cut from. */
  lemma InnerSuffix(t: string, kw: string, n: nat)
    requires n <= |t| && NewlineBeforeInner(t, kw)
    ensures NewlineBeforeInner(t[n..], kw)
  {
    forall j | 0 < j && KeywordAt(t[n..], kw, j) ensures t[n..][j - 1] == '\n' {
      assert t == t[..n] + t[n..];
      ShiftKeywordAt(t[..n], t[n..], kw, j + n);
    }
  }

  /** A newline-free keyword that starts the broken text already started the
      original. */
  lemma BreakKeepsStart(t: string, kw: string, kw2: string)
    requires kw2 != [] && '\n' !in kw
    ensures KeywordAt(BreakBefore(t, kw2), kw, 0) ==> KeywordAt(t, kw, 0)
  {
    var u := BreakBefore(t, kw2);
    if KeywordAt(u, kw, 0) {
      assert kw <= u by { assert u[..|kw|] == kw; }
      PrefixBeforeBreak(t, kw2, kw);
      assert t[0..|kw|] == kw;
    }
  }

  /** An occurrence of kw that starts inside the inserted copy of kw2, after
      its first character, was already in t at the matching place. */
  lemma InsideCopy(t: string, kw: string, kw2: string, i: int)
    requires kw != [] && '\n' !in kw && kw2 != [] && kw2 <= t
    requires 1 < i < 1 + |kw2|
    requires KeywordAt(("\n" + kw2) + BreakBefore(t[|kw2|..], kw2), kw, i)
    ensures KeywordAt(t, kw, i - 1)
  {
    var x := "\n" + kw2;
    var t' := t[|kw2|..];
    var rest := BreakBefore(t', kw2);
    var u := x + rest;
    var d := i - 1;
    var m := |x| - i;
    assert t == kw2 + t';
    if |kw| <= m {
      assert u[i..i + |kw|] == t[d..d + |kw|];
    } else {
      assert kw == u[i..i + |kw|];
      assert kw[..m] == u[i..|x|] == t[d..|kw2|];
      assert kw[m..] == rest[..|kw| - m];
      assert forall c :: c in kw[m..] ==> c in kw;
      PrefixBeforeBreak(t', kw2, kw[m..]);
      assert t[d..d + |kw|] == t[d..|kw2|] + t'[..|kw| - m];
      assert kw == kw[..m] + kw[m..];
    }
  }

  /** A BreakBefore pass for another newline-free keyword keeps a newline in
      front of every occurrence of kw that is not at index 0 and had one. */
  lemma {:induction false} BreakKeepsMarks(t: string, kw: string, kw2: string)
    requires kw != [] && '\n' !in kw && kw2 != [] && '\n' !in kw2
    requires NewlineBeforeInner(t, kw)
    ensures NewlineBeforeInner(BreakBefore(t, kw2), kw)
    decreases |t|
  {
    var u := BreakBefore(t, kw2);
    if t == [] {
    } else if kw2 <= t {
      var x := "\n" + kw2;
      var t' := t[|kw2|..];
      var rest := BreakBefore(t', kw2);
      assert u == x + rest;
      InnerSuffix(t, kw, |kw2|);
      BreakKeepsMarks(t', kw, kw2);
      BreakKeepsStart(t', kw, kw2);
      forall i | 0 < i && KeywordAt(u, kw, i) ensures u[i - 1] == '\n' {
        if i >= |x| {
          ShiftKeywordAt(x, rest, kw, i);
          if i == |x| {
            assert t == kw2 + t';
            ShiftKeywordAt(kw2, t', kw, |kw2|);
          }
        } else if i > 1 {
          InsideCopy(t, kw, kw2, i);
        }
      }
    } else {
      var t' := t[1..];
      var rest := BreakBefore(t', kw2);
      assert u == [t[0]] + rest;
      InnerSuffix(t, kw, 1);
      BreakKeepsMarks(t', kw, kw2);
      BreakKeepsStart(t', kw, kw2);
      forall i | 0 < i && KeywordAt(u, kw, i) ensures u[i - 1] == '\n' {
        ShiftKeywordAt([t[0]], rest, kw, i);
        if i == 1 {
          assert t == [t[0]] + t';
          ShiftKeywordAt([t[0]], t', kw, 1);
        }
      }
    }
  }

  /** Marks made by an earlier pass survive a later pass. */
  lemma KeepMarks(t: string, kw: string, kw2: string)
    requires kw != [] && '\n' !in kw && kw2 != [] && '\n' !in kw2
    requires NewlineBeforeEach(t, kw)
    ensures NewlineBeforeEach(BreakBefore(t, kw2), kw)
  {
    BreakKeepsMarks(t, kw, kw2);
    BreakKeepsStart(t, kw, kw2);
  }

  lemma KeywordsSelfOverlapFree()
    ensures SelfOverlapFree("BECMG") && SelfOverlapFree("FM")
    ensures SelfOverlapFree("PROB") && SelfOverlapFree("RMK")
  {
    var b, f, p, r := "BECMG", "FM", "PROB", "RMK";
    assert forall d :: 0 < d < |b| ==> b[d..][0] != b[0];
    assert forall d :: 0 < d < |f| ==> f[d..][0] != f[0];
    assert forall d :: 0 < d < |p| ==> p[d..][0] != p[0];
    assert forall d :: 0 < d < |r| ==> r[d..][0] != r[0];
  }

  /** In the displayed text every BECMG, FM, PROB and RMK directly follows a
      newline (and none of them starts the text). */
  lemma FormatBreaksBeforeKeywords(raw: string)
    ensures forall kw, i :: kw in KEYWORDS && KeywordAt(Format(raw), kw, i) ==>
      0 < i && Format(raw)[i - 1] == '\n'
  {
    var t1 := BreakBefore(raw, "BECMG");
    var t2 := BreakBefore(t1, "FM");
    var t3 := BreakBefore(t2, "PROB");
    var t4 := BreakBefore(t3, "RMK");
    KeywordsSelfOverlapFree();
    BreakMarksKeyword(raw, "BECMG");
    KeepMarks(t1, "BECMG", "FM");
    KeepMarks(t2, "BECMG", "PROB");
    KeepMarks(t3, "BECMG", "RMK");
    BreakMarksKeyword(t1, "FM");
    KeepMarks(t2, "FM", "PROB");
    KeepMarks(t3, "FM", "RMK");
    BreakMarksKeyword(t2, "PROB");
    KeepMarks(t3, "PROB", "RMK");
    BreakMarksKeyword(t3, "RMK");
    assert Format(raw) == t4;
  }

  /** Shows each tab's formatted text in turn. A tab whose first record has
      neither raw field raises, so only the tabs before it are shown. */
  method ShowTabs(tabsInfo: seq<seq<Record>>) returns (shown: seq<string>, failed: bool)
    requires forall i :: 0 <= i < |tabsInfo| ==> tabsInfo[i] != []
    ensures |shown| <= |tabsInfo|
    ensures failed <==> |shown| < |tabsInfo|
    ensures failed ==> RawText(tabsInfo[|shown|][0]).None?
    ensures forall i :: 0 <= i < |shown| ==>
      RawText(tabsInfo[i][0]).Some? && shown[i] == Format(RawText(tabsInfo[i][0]).value)
  {
    shown, failed := [], false;
    var i := 0;
    while i < |tabsInfo|
      invariant i <= |tabsInfo|
      invariant |shown| == i
      invariant forall k :: 0 <= k < i ==>
        RawText(tabsInfo[k][0]).Some? && shown[k] == Format(RawText(tabsInfo[k][0]).value)
    {
      var content := RawText(tabsInfo[i][0]);
      if content.None? {
        failed := true;
        return;
      }
      shown := shown + [Format(content.value)];
      i := i + 1;
    }
  }
}
