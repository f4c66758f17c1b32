/**
 * The date-bucketing core of the DateSelector menu: labelling a due date, grouping
 * todos under their labels, the three statistics the menu shows, and what a click
 * on a menu entry reports. The system clock is replaced by an explicit `now`.
 */
module DateSelector {
  import opened DateFns
  import opened OrderedBuckets

  datatype Option<T> = None | Some(value: T)

  /** A todo record. Only `date` is read; `details` stands for the rest of the record, passed through untouched. */
  datatype Todo = Todo(date: Instant, details: string)

  // ---------------------------------------------------------------------------
  // formatDate

  /** Which of formatDate's four returns a date takes. */
  datatype LabelKind = TodayLabel | TomorrowLabel | WeekdayLabel | MonthDayLabel(withYear: bool)

  /** The earlier tests of formatDate take precedence: today, then tomorrow, then this week, then a month and day. */
  function KindOf(cal: Calendar, now: Instant, date: Instant): (k: LabelKind)
    ensures k == TodayLabel <==> IsToday(cal, now, date)
    ensures k == TomorrowLabel <==> IsTomorrow(cal, now, date)
    ensures k == WeekdayLabel <==>
      IsThisWeek(cal, now, date) && !IsToday(cal, now, date) && !IsTomorrow(cal, now, date)
    ensures k == MonthDayLabel(true) <==>
      !IsThisWeek(cal, now, date) && !IsToday(cal, now, date) && !IsTomorrow(cal, now, date) && !IsThisYear(cal, now, date)
    ensures k == MonthDayLabel(false) <==>
      !IsThisWeek(cal, now, date) && !IsToday(cal, now, date) && !IsTomorrow(cal, now, date) && IsThisYear(cal, now, date)
  {
    if IsToday(cal, now, date) then TodayLabel
    else if IsTomorrow(cal, now, date) then TomorrowLabel
    else if IsThisWeek(cal, now, date) then WeekdayLabel
    else MonthDayLabel(!IsThisYear(cal, now, date))
  }

  const WeekdayPattern: string := "dddd"
  const MonthDayPattern: string := "MMM Do"
  const YearSuffix: string := ", YYYY"

  predicate HasYearSuffix(pattern: string)
  {
    |pattern| >= |YearSuffix| && pattern[|pattern| - |YearSuffix|..] == YearSuffix
  }

  /** The date-fns pattern handed to `format`; the Today and Tomorrow labels are literals and use none. */
  function Pattern(k: LabelKind): (p: Option<string>)
    ensures p.Some? <==> k == WeekdayLabel || k.MonthDayLabel?
    ensures p.Some? ==> (HasYearSuffix(p.value) <==> k == MonthDayLabel(true))
  {
    match k
    case TodayLabel => None
    case TomorrowLabel => None
    case WeekdayLabel => Some(WeekdayPattern)
    case MonthDayLabel(withYear) =>
      var p := MonthDayPattern + (if withYear then YearSuffix else "");
      assert withYear ==> p[|p| - |YearSuffix|..] == YearSuffix;
      assert !withYear ==> p[|p| - |YearSuffix|..] != YearSuffix by {
        if !withYear { assert p[0] == 'M' && YearSuffix[0] == ','; }
      }
      Some(p)
  }

  /** The menu label of a due date. */
  function FormatDate(cal: Calendar, now: Instant, date: Instant): (text: string)
    ensures IsToday(cal, now, date) ==> text == "Today"
    ensures IsTomorrow(cal, now, date) ==> text == "Tomorrow"
    ensures !IsToday(cal, now, date) && !IsTomorrow(cal, now, date) ==>
      text == cal.format(date, Pattern(KindOf(cal, now, date)).value)
  {
    var k := KindOf(cal, now, date);
    match k
    case TodayLabel => "Today"
    case TomorrowLabel => "Tomorrow"
    case _ => cal.format(date, Pattern(k).value)
  }

  /** The pattern carries ", YYYY" exactly for a month-day label of another year; no other label has a year. */
  lemma YearSuffixExactlyForOtherYears(cal: Calendar, now: Instant, date: Instant)
    ensures
      var p := Pattern(KindOf(cal, now, date));
      (p.Some? && HasYearSuffix(p.value)) <==>
        !IsToday(cal, now, date) && !IsTomorrow(cal, now, date) && !IsThisWeek(cal, now, date) && !IsThisYear(cal, now, date)
  {
  }

  // ---------------------------------------------------------------------------
  // groupByDate

  /** `list.filter(keep)`. */
  function Filter(list: seq<Todo>, keep: Todo -> bool): (kept: seq<Todo>)
    ensures |kept| <= |list|
    decreases |list|
  {
    if list == [] then []
    else
      var last := list[|list| - 1];
      Filter(list[..|list| - 1], keep) + (if keep(last) then [last] else [])
  }

  lemma {:induction false} FilterMembers(list: seq<Todo>, keep: Todo -> bool)
    ensures forall x :: x in Filter(list, keep) <==> x in list && keep(x)
    decreases |list|
  {
    if list != [] {
      var init, last := list[..|list| - 1], list[|list| - 1];
      FilterMembers(init, keep);
      assert list == init + [last];
    }
  }

  /** The number of positions of `list` whose item passes `keep`: an index-based count to check Filter against. */
  function CountWhere(list: seq<Todo>, keep: Todo -> bool): nat
  {
    |set i | 0 <= i < |list| && keep(list[i])|
  }

  lemma {:induction false} FilterCount(list: seq<Todo>, keep: Todo -> bool)
    ensures |Filter(list, keep)| == CountWhere(list, keep)
    decreases |list|
  {
    if list != [] {
      var n := |list| - 1;
      var init := list[..n];
      FilterCount(init, keep);
      var before := set i | 0 <= i < n && keep(init[i]);
      var after := set i | 0 <= i < |list| && keep(list[i]);
      assert |Filter(list, keep)| == |Filter(init, keep)| + (if keep(list[n]) then 1 else 0);
      assert forall i :: 0 <= i < n ==> init[i] == list[i];
      if keep(list[n]) {
        assert after == before + {n};
        assert n !in before;
        assert |after| == |before| + 1;
      } else {
        assert after == before;
      }
    }
  }

  /** The items of `list` that pass `keep` and carry label `k`, in list order. */
  function Matching(cal: Calendar, now: Instant, list: seq<Todo>, keep: Todo -> bool, k: string): seq<Todo>
    decreases |list|
  {
    if list == [] then []
    else
      var last := list[|list| - 1];
      Matching(cal, now, list[..|list| - 1], keep, k) + (if keep(last) && FormatDate(cal, now, last.date) == k then [last] else [])
  }

  /** Matching holds exactly the matching items of the list. */
  lemma {:induction false} MatchingMembers(cal: Calendar, now: Instant, list: seq<Todo>, keep: Todo -> bool, k: string)
    ensures forall x :: x in Matching(cal, now, list, keep, k) <==> x in list && keep(x) && FormatDate(cal, now, x.date) == k
    decreases |list|
  {
    if list != [] {
      var init, last := list[..|list| - 1], list[|list| - 1];
      MatchingMembers(cal, now, init, keep, k);
      assert list == init + [last];
    }
  }

  /** The labels of the kept items, in list order, repeats included. */
  function KeptLabels(cal: Calendar, now: Instant, list: seq<Todo>, keep: Todo -> bool): seq<string>
    decreases |list|
  {
    if list == [] then []
    else
      var last := list[|list| - 1];
      KeptLabels(cal, now, list[..|list| - 1], keep) + (if keep(last) then [FormatDate(cal, now, last.date)] else [])
  }

  /** Each string of `s` once, in the order of its first occurrence. */
  function FirstOccurrences(s: seq<string>): (d: seq<string>)
    ensures Distinct(d)
    ensures forall k :: k in d <==> k in s
    decreases |s|
  {
    if s == [] then []
    else
      var d := FirstOccurrences(s[..|s| - 1]);
      assert forall k :: k in s <==> k in s[..|s| - 1] || k == s[|s| - 1];
      if s[|s| - 1] in d then d else d + [s[|s| - 1]]
  }

  /** The position of the first occurrence of `k` in `s`, or |s| when `k` does not occur. */
  function FirstIndex(s: seq<string>, k: string): (i: nat)
    ensures i <= |s| && k !in s[..i]
    ensures i < |s| <==> k in s
    ensures i < |s| ==> s[i] == k
    decreases |s|
  {
    if s == [] then 0
    else if s[0] == k then 0
    else
      var i := 1 + FirstIndex(s[1..], k);
      assert s[..i] == [s[0]] + s[1..][..i - 1];
      assert s == [s[0]] + s[1..];
      i
  }

  /** A position holding `k` with no `k` before it is the first index of `k`. */
  lemma FirstIndexAt(s: seq<string>, k: string, p: nat)
    requires p < |s| && s[p] == k && k !in s[..p]
    ensures FirstIndex(s, k) == p
  {
  }

  /** FirstOccurrences lists each string in the order of the position where it first occurs in `s`. */
  lemma {:induction false} FirstOccurrencesOrder(s: seq<string>)
    ensures forall i, j :: 0 <= i < j < |FirstOccurrences(s)| ==>
      FirstIndex(s, FirstOccurrences(s)[i]) < FirstIndex(s, FirstOccurrences(s)[j])
    decreases |s|
  {
    if s != [] {
      var n := |s| - 1;
      var init, last := s[..n], s[n];
      var d, di := FirstOccurrences(s), FirstOccurrences(init);
      FirstOccurrencesOrder(init);
      assert s == init + [last];
      forall k | k in init
        ensures FirstIndex(s, k) == FirstIndex(init, k)
      {
        var p := FirstIndex(init, k);
        assert s[..p] == init[..p] && s[p] == init[p];
        FirstIndexAt(s, k, p);
      }
      if last in di {
        assert d == di;
        forall i | 0 <= i < |d|
          ensures FirstIndex(s, d[i]) == FirstIndex(init, d[i])
        {
          assert d[i] in di;
        }
      } else {
        assert d == di + [last];
        assert s[..n] == init;
        FirstIndexAt(s, last, n);
        forall i | 0 <= i < |di|
          ensures d[i] == di[i] && FirstIndex(s, d[i]) == FirstIndex(init, d[i]) < n
        {
          assert di[i] in di;
        }
      }
    }
  }

  /** The `reduce` of groupByDate over the already filtered items. */
  function Grouped(cal: Calendar, now: Instant, kept: seq<Todo>): (b: Buckets<Todo>)
    ensures Valid(b)
    decreases |kept|
  {
    if kept == [] then Empty()
    else
      var last := kept[|kept| - 1];
      Append(Grouped(cal, now, kept[..|kept| - 1]), FormatDate(cal, now, last.date), last)
  }

  /** What groupByDate(list, keep) returns. */
  function GroupedBy(cal: Calendar, now: Instant, list: seq<Todo>, keep: Todo -> bool): (b: Buckets<Todo>)
    ensures Valid(b)
  {
    Grouped(cal, now, Filter(list, keep))
  }

  /**
   * groupByDate: filter, then walk the kept items in order, appending each to the
   * array under its label and creating the key the first time the label is seen.
   */
  method GroupByDate(cal: Calendar, now: Instant, list: seq<Todo>, keep: Todo -> bool) returns (r: Buckets<Todo>)
    ensures r == GroupedBy(cal, now, list, keep)
  {
    var kept := Filter(list, keep);
    var keys: seq<string> := [];
    var entries: map<string, seq<Todo>> := map[];
    for i := 0 to |kept|
      invariant Buckets(keys, entries) == Grouped(cal, now, kept[..i])
    {
      var item := kept[i];
      var key := FormatDate(cal, now, item.date);
      GroupedStep(cal, now, kept, i);
      ghost var before := Buckets(keys, entries);
      var existing := if key in entries then entries[key] else [];
      if key !in entries {
        keys := keys + [key];
      }
      entries := entries[key := existing + [item]];
      assert Buckets(keys, entries) == Append(before, key, item);
    }
    assert kept[..|kept|] == kept;
    r := Buckets(keys, entries);
  }

  lemma GroupedStep(cal: Calendar, now: Instant, kept: seq<Todo>, i: nat)
    requires i < |kept|
    ensures Grouped(cal, now, kept[..i + 1]) == Append(Grouped(cal, now, kept[..i]), FormatDate(cal, now, kept[i].date), kept[i])
  {
    assert kept[..i + 1][..i] == kept[..i];
  }

  /** One more item at the end of the list: grouping files it after everything already grouped. */
  lemma GroupedBySnoc(cal: Calendar, now: Instant, list: seq<Todo>, keep: Todo -> bool)
    requires list != []
    ensures
      var init, last := list[..|list| - 1], list[|list| - 1];
      GroupedBy(cal, now, list, keep) ==
        if keep(last) then Append(GroupedBy(cal, now, init, keep), FormatDate(cal, now, last.date), last)
        else GroupedBy(cal, now, init, keep)
  {
    var init, last := list[..|list| - 1], list[|list| - 1];
    var f, fi := Filter(list, keep), Filter(init, keep);
    assert f == fi + (if keep(last) then [last] else []);
    if keep(last) {
      assert f[..|f| - 1] == fi && f[|f| - 1] == last;
      assert Grouped(cal, now, f) == Append(Grouped(cal, now, fi), FormatDate(cal, now, last.date), last);
    } else {
      assert f == fi;
    }
  }

  /**
   * The key `k` is present exactly when some kept item carries label `k`, and its
   * array is then exactly those items, in list order.
   */
  lemma {:induction false} GroupedByContents(cal: Calendar, now: Instant, list: seq<Todo>, keep: Todo -> bool, k: string)
    ensures k in GroupedBy(cal, now, list, keep).entries <==> Matching(cal, now, list, keep, k) != []
    ensures k in GroupedBy(cal, now, list, keep).entries ==>
      GroupedBy(cal, now, list, keep).entries[k] == Matching(cal, now, list, keep, k)
    decreases |list|
  {
    if list != [] {
      var init, last := list[..|list| - 1], list[|list| - 1];
      GroupedByContents(cal, now, init, keep, k);
      GroupedBySnoc(cal, now, list, keep);
      var b, bi := GroupedBy(cal, now, list, keep), GroupedBy(cal, now, init, keep);
      var m, mi := Matching(cal, now, list, keep, k), Matching(cal, now, init, keep, k);
      var l := FormatDate(cal, now, last.date);
      assert Get(bi, k) == mi;
      if keep(last) {
        assert b.entries == bi.entries[l := Get(bi, l) + [last]];
        if l == k {
          assert m == mi + [last];
        } else {
          assert m == mi;
        }
      } else {
        assert b == bi && m == mi;
      }
    }
  }

  /**
   * The keys are exactly the labels of the kept items, each once, listed in the order
   * of the first kept item that carries them.
   */
  lemma GroupedByKeysInFirstOccurrenceOrder(cal: Calendar, now: Instant, list: seq<Todo>, keep: Todo -> bool)
    ensures
      var keys, labels := GroupedBy(cal, now, list, keep).keys, KeptLabels(cal, now, list, keep);
      && (forall k :: k in keys <==> k in labels)
      && (forall i, j :: 0 <= i < j < |keys| ==> FirstIndex(labels, keys[i]) < FirstIndex(labels, keys[j]))
  {
    GroupedByKeyOrder(cal, now, list, keep);
    FirstOccurrencesOrder(KeptLabels(cal, now, list, keep));
  }

  /** The key order of the fold is the append-if-new walk over the kept labels. */
  lemma {:induction false} GroupedByKeyOrder(cal: Calendar, now: Instant, list: seq<Todo>, keep: Todo -> bool)
    ensures GroupedBy(cal, now, list, keep).keys == FirstOccurrences(KeptLabels(cal, now, list, keep))
    decreases |list|
  {
    if list != [] {
      var init, last := list[..|list| - 1], list[|list| - 1];
      GroupedByKeyOrder(cal, now, init, keep);
      GroupedBySnoc(cal, now, list, keep);
      var s, si := KeptLabels(cal, now, list, keep), KeptLabels(cal, now, init, keep);
      if keep(last) {
        var l := FormatDate(cal, now, last.date);
        var bi := GroupedBy(cal, now, init, keep);
        assert s == si + [l];
        assert s[..|s| - 1] == si && s[|s| - 1] == l;
        assert FirstOccurrences(s) == if l in FirstOccurrences(si) then FirstOccurrences(si) else FirstOccurrences(si) + [l];
        assert l in bi.entries <==> l in bi.keys;
        assert GroupedBy(cal, now, list, keep).keys == if l in bi.entries then bi.keys else bi.keys + [l];
      } else {
        assert s == si;
      }
    }
  }

  /** No item is dropped or duplicated: the arrays hold as many items as passed the filter. */
  lemma {:induction false} GroupedBySize(cal: Calendar, now: Instant, list: seq<Todo>, keep: Todo -> bool)
    ensures Size(GroupedBy(cal, now, list, keep)) == |Filter(list, keep)| == CountWhere(list, keep)
    decreases |list|
  {
    FilterCount(list, keep);
    if list != [] {
      var init, last := list[..|list| - 1], list[|list| - 1];
      GroupedBySize(cal, now, init, keep);
      GroupedBySnoc(cal, now, list, keep);
      if keep(last) {
        AppendSize(GroupedBy(cal, now, init, keep), FormatDate(cal, now, last.date), last);
      }
    }
  }

  /**
   * Every item under key `k` is an item of the list that passed the filter and is
   * labelled `k`; conversely every such item is filed under its label.
   */
  lemma KeyLabelAgreement(cal: Calendar, now: Instant, list: seq<Todo>, keep: Todo -> bool)
    ensures
      var b := GroupedBy(cal, now, list, keep);
      forall k, x :: k in b.entries && x in b.entries[k] ==> x in list && keep(x) && FormatDate(cal, now, x.date) == k
    ensures
      var b := GroupedBy(cal, now, list, keep);
      forall x :: x in list && keep(x) ==>
        FormatDate(cal, now, x.date) in b.entries && x in b.entries[FormatDate(cal, now, x.date)]
  {
    var b := GroupedBy(cal, now, list, keep);
    forall k, x | k in b.entries && x in b.entries[k]
      ensures x in list && keep(x) && FormatDate(cal, now, x.date) == k
    {
      GroupedByContents(cal, now, list, keep, k);
      MatchingMembers(cal, now, list, keep, k);
    }
    forall x | x in list && keep(x)
      ensures FormatDate(cal, now, x.date) in b.entries && x in b.entries[FormatDate(cal, now, x.date)]
    {
      var k := FormatDate(cal, now, x.date);
      GroupedByContents(cal, now, list, keep, k);
      MatchingMembers(cal, now, list, keep, k);
    }
  }

  /** An item that fails the filter is in no array. */
  lemma FilteredOutNowhere(cal: Calendar, now: Instant, list: seq<Todo>, keep: Todo -> bool, x: Todo)
    requires !keep(x)
    ensures forall k :: k in GroupedBy(cal, now, list, keep).entries ==> x !in GroupedBy(cal, now, list, keep).entries[k]
  {
    KeyLabelAgreement(cal, now, list, keep);
  }

  /** The result has no key at all exactly when no item passes the filter; then it is the initial `{}`. */
  lemma {:induction false} GroupedByEmpty(cal: Calendar, now: Instant, list: seq<Todo>, keep: Todo -> bool)
    ensures GroupedBy(cal, now, list, keep).keys == [] <==> forall i :: 0 <= i < |list| ==> !keep(list[i])
    ensures GroupedBy(cal, now, list, keep).keys == [] ==> GroupedBy(cal, now, list, keep) == Empty()
  {
    var b := GroupedBy(cal, now, list, keep);
    if b.keys == [] {
      assert b.entries == map[];
      forall i | 0 <= i < |list|
        ensures !keep(list[i])
      {
        KeyLabelAgreement(cal, now, list, keep);
        assert list[i] in list;
      }
    } else {
      var k := b.keys[0];
      GroupedByContents(cal, now, list, keep, k);
      MatchingMembers(cal, now, list, keep, k);
      var x := Matching(cal, now, list, keep, k)[0];
      assert x in list && keep(x);
    }
  }

  /** The first item of the array under `k` is the first item of the list that is kept and labelled `k`. */
  predicate IsFirstMatch(cal: Calendar, now: Instant, list: seq<Todo>, keep: Todo -> bool, k: string, i: int)
  {
    && 0 <= i < |list|
    && keep(list[i]) && FormatDate(cal, now, list[i].date) == k
    && forall j :: 0 <= j < i ==> !(keep(list[j]) && FormatDate(cal, now, list[j].date) == k)
  }

  lemma {:induction false} MatchingHead(cal: Calendar, now: Instant, list: seq<Todo>, keep: Todo -> bool, k: string)
    requires Matching(cal, now, list, keep, k) != []
    ensures exists i :: IsFirstMatch(cal, now, list, keep, k, i) && Matching(cal, now, list, keep, k)[0] == list[i]
    decreases |list|
  {
    var n := |list| - 1;
    var init, last := list[..n], list[n];
    var m, mi := Matching(cal, now, list, keep, k), Matching(cal, now, init, keep, k);
    assert m == mi + (if keep(last) && FormatDate(cal, now, last.date) == k then [last] else []);
    if mi != [] {
      MatchingHead(cal, now, init, keep, k);
      var i :| IsFirstMatch(cal, now, init, keep, k, i) && mi[0] == init[i];
      FirstMatchExtends(cal, now, list, keep, k, i);
      assert m[0] == mi[0];
    } else {
      FirstMatchLast(cal, now, list, keep, k);
      assert m == [last];
    }
  }

  /** A first match of the list without its last item is a first match of the whole list. */
  lemma FirstMatchExtends(cal: Calendar, now: Instant, list: seq<Todo>, keep: Todo -> bool, k: string, i: int)
    requires list != [] && IsFirstMatch(cal, now, list[..|list| - 1], keep, k, i)
    ensures IsFirstMatch(cal, now, list, keep, k, i) && list[i] == list[..|list| - 1][i]
  {
    var init := list[..|list| - 1];
    assert forall j :: 0 <= j <= i ==> list[j] == init[j];
  }

  /** When no earlier item matches, the last item, if it matches, is the first match. */
  lemma FirstMatchLast(cal: Calendar, now: Instant, list: seq<Todo>, keep: Todo -> bool, k: string)
    requires list != [] && Matching(cal, now, list[..|list| - 1], keep, k) == []
    requires keep(list[|list| - 1]) && FormatDate(cal, now, list[|list| - 1].date) == k
    ensures IsFirstMatch(cal, now, list, keep, k, |list| - 1)
  {
    var n := |list| - 1;
    var init := list[..n];
    MatchingMembers(cal, now, init, keep, k);
    forall j | 0 <= j < n
      ensures !(keep(list[j]) && FormatDate(cal, now, list[j].date) == k)
    {
      assert list[j] == init[j] && init[j] in init;
    }
  }

  lemma BucketHead(cal: Calendar, now: Instant, list: seq<Todo>, keep: Todo -> bool, k: string)
    requires k in GroupedBy(cal, now, list, keep).entries
    ensures exists i :: IsFirstMatch(cal, now, list, keep, k, i) && GroupedBy(cal, now, list, keep).entries[k][0] == list[i]
  {
    GroupedByContents(cal, now, list, keep, k);
    MatchingHead(cal, now, list, keep, k);
  }

  // ---------------------------------------------------------------------------
  // getFilters: one menu entry per key, labelled with the number of items under it

  datatype FilterEntry = FilterEntry(name: string, count: nat)

  function GetFilters(b: Buckets<Todo>): (entries: seq<FilterEntry>)
    requires Valid(b)
    ensures |entries| == |b.keys|
    ensures forall i :: 0 <= i < |entries| ==> entries[i].name == b.keys[i] && entries[i].count == |b.entries[b.keys[i]]|
  {
    seq(|b.keys|, i requires 0 <= i < |b.keys| => FilterEntry(b.keys[i], |b.entries[b.keys[i]]|))
  }

  function SumCounts(entries: seq<FilterEntry>): nat
    decreases |entries|
  {
    if entries == [] then 0 else SumCounts(entries[..|entries| - 1]) + entries[|entries| - 1].count
  }

  /** The counts shown beside the keys are positive and add up to the number of items grouped. */
  lemma GetFiltersCounts(b: Buckets<Todo>)
    requires Valid(b)
    ensures forall e :: e in GetFilters(b) ==> e.count > 0
    ensures SumCounts(GetFilters(b)) == Size(b)
  {
    var es := GetFilters(b);
    forall e | e in es
      ensures e.count > 0
    {
      var i :| 0 <= i < |es| && es[i] == e;
    }
    SumCountsPrefix(b, |b.keys|);
    assert es[..|b.keys|] == es && b.keys[..|b.keys|] == b.keys;
  }

  lemma {:induction false} SumCountsPrefix(b: Buckets<Todo>, n: nat)
    requires Valid(b) && n <= |b.keys|
    ensures SumCounts(GetFilters(b)[..n]) == SumSizes(b.keys[..n], b.entries)
  {
    if n > 0 {
      SumCountsPrefix(b, n - 1);
      assert GetFilters(b)[..n][..n - 1] == GetFilters(b)[..n - 1];
      assert b.keys[..n][..n - 1] == b.keys[..n - 1];
    }
  }

  // ---------------------------------------------------------------------------
  // getStats

  datatype Stats = Stats(totalToday: nat, thisWeek: Buckets<Todo>, upcoming: Buckets<Todo>)

  /** The filter of `totalToday`; on a valid calendar a todo due today is due this week. */
  function DueToday(cal: Calendar, now: Instant): (keep: Todo -> bool)
    ensures forall todo: Todo :: keep(todo) <==> IsToday(cal, now, todo.date)
    ensures ValidCalendar(cal) ==> forall todo: Todo :: keep(todo) ==> IsThisWeek(cal, now, todo.date)
  {
    (todo: Todo) => IsToday(cal, now, todo.date)
  }

  /** Strictly after now and strictly before the end of the week: on a valid calendar, a later instant of this week. */
  function LaterThisWeek(cal: Calendar, now: Instant): (keep: Todo -> bool)
    ensures ValidCalendar(cal) ==> forall todo: Todo :: keep(todo) ==> now < todo.date && IsThisWeek(cal, now, todo.date)
    ensures ValidCalendar(cal) ==> forall todo: Todo :: IsThisWeek(cal, now, todo.date) && now < todo.date < EndOfWeek(cal, now) ==> keep(todo)
  {
    (todo: Todo) => IsAfter(todo.date, now) && IsBefore(todo.date, EndOfWeek(cal, now))
  }

  /** Outside now's week: on a valid calendar, before the week starts or after it ends, and never today. */
  function NotThisWeek(cal: Calendar, now: Instant): (keep: Todo -> bool)
    ensures ValidCalendar(cal) ==> forall todo: Todo :: keep(todo) ==>
      !IsToday(cal, now, todo.date) && (todo.date < cal.weekStart(now) || EndOfWeek(cal, now) < todo.date)
    ensures ValidCalendar(cal) ==> forall todo: Todo :: keep(todo) ==> !LaterThisWeek(cal, now)(todo)
  {
    (todo: Todo) => !IsThisWeek(cal, now, todo.date)
  }

  function GetStats(cal: Calendar, now: Instant, list: seq<Todo>): (s: Stats)
    ensures s.totalToday == |set i | 0 <= i < |list| && IsToday(cal, now, list[i].date)|
    ensures Valid(s.thisWeek) && Valid(s.upcoming)
  {
    FilterCount(list, DueToday(cal, now));
    assert (set i | 0 <= i < |list| && DueToday(cal, now)(list[i])) == (set i | 0 <= i < |list| && IsToday(cal, now, list[i].date));
    Stats(
      |Filter(list, DueToday(cal, now))|,
      GroupedBy(cal, now, list, LaterThisWeek(cal, now)),
      GroupedBy(cal, now, list, NotThisWeek(cal, now)))
  }

  /** An empty list gives a zero count and two empty groupings. */
  lemma EmptyStats(cal: Calendar, now: Instant)
    ensures GetStats(cal, now, []) == Stats(0, Empty(), Empty())
  {
  }

  /** No item is in both groupings: a date after now and before the end of the week is in this week. */
  lemma ThisWeekUpcomingDisjoint(cal: Calendar, now: Instant, list: seq<Todo>)
    requires ValidCalendar(cal)
    ensures
      var s := GetStats(cal, now, list);
      forall k, k', x :: k in s.thisWeek.entries && k' in s.upcoming.entries && x in s.thisWeek.entries[k] ==>
        x !in s.upcoming.entries[k']
  {
    KeyLabelAgreement(cal, now, list, LaterThisWeek(cal, now));
    KeyLabelAgreement(cal, now, list, NotThisWeek(cal, now));
  }

  /**
   * The this-week labels are Today, Tomorrow or a weekday name; the upcoming labels
   * are Tomorrow (when tomorrow opens the next week) or a month-day label.
   */
  lemma GroupingLabelKinds(cal: Calendar, now: Instant, list: seq<Todo>)
    requires ValidCalendar(cal)
    ensures
      var s := GetStats(cal, now, list);
      forall k, x :: k in s.thisWeek.entries && x in s.thisWeek.entries[k] ==>
        KindOf(cal, now, x.date) in {TodayLabel, TomorrowLabel, WeekdayLabel}
    ensures
      var s := GetStats(cal, now, list);
      forall k, x :: k in s.upcoming.entries && x in s.upcoming.entries[k] ==>
        KindOf(cal, now, x.date) == TomorrowLabel || KindOf(cal, now, x.date).MonthDayLabel?
  {
    KeyLabelAgreement(cal, now, list, LaterThisWeek(cal, now));
    KeyLabelAgreement(cal, now, list, NotThisWeek(cal, now));
  }

  /**
   * Todos due today are not kept out of the groupings: one due later today is counted
   * in totalToday and is also filed under "Today" in this week's grouping.
   */
  lemma LaterTodayCountedAndGrouped(cal: Calendar, now: Instant, list: seq<Todo>, x: Todo)
    requires x in list && IsToday(cal, now, x.date) && LaterThisWeek(cal, now)(x)
    ensures GetStats(cal, now, list).totalToday > 0
    ensures "Today" in GetStats(cal, now, list).thisWeek.entries && x in GetStats(cal, now, list).thisWeek.entries["Today"]
  {
    KeyLabelAgreement(cal, now, list, LaterThisWeek(cal, now));
    assert FormatDate(cal, now, x.date) == "Today";
    FilterMembers(list, DueToday(cal, now));
    assert x in Filter(list, DueToday(cal, now));
  }

  /**
   * A todo of the list is in neither grouping exactly when it is due this week but not
   * strictly between now and the end of the week: earlier this week, now itself, or
   * the week's last millisecond.
   */
  lemma InNeitherGrouping(cal: Calendar, now: Instant, list: seq<Todo>, x: Todo)
    requires x in list
    ensures
      var s := GetStats(cal, now, list);
      (&& (forall k :: k in s.thisWeek.entries ==> x !in s.thisWeek.entries[k])
       && (forall k :: k in s.upcoming.entries ==> x !in s.upcoming.entries[k]))
      <==> IsThisWeek(cal, now, x.date) && !(IsAfter(x.date, now) && IsBefore(x.date, EndOfWeek(cal, now)))
  {
    KeyLabelAgreement(cal, now, list, LaterThisWeek(cal, now));
    KeyLabelAgreement(cal, now, list, NotThisWeek(cal, now));
  }

  /** `!Object.entries(upcoming).length`: the "Nothing yet!" entry is shown when the upcoming object has no entry. */
  predicate ShowsPlaceholder(upcoming: Buckets<Todo>): (shown: bool)
    ensures Valid(upcoming) ==> (shown <==> upcoming.entries == map[])
  {
    assert upcoming.entries.Keys == {} ==> upcoming.entries == map[];
    assert upcoming.keys != [] ==> upcoming.keys[0] in upcoming.keys;
    |upcoming.keys| == 0
  }

  lemma PlaceholderIffAllThisWeek(cal: Calendar, now: Instant, list: seq<Todo>)
    ensures ShowsPlaceholder(GetStats(cal, now, list).upcoming) <==>
      forall i :: 0 <= i < |list| ==> IsThisWeek(cal, now, list[i].date)
  {
    GroupedByEmpty(cal, now, list, NotThisWeek(cal, now));
  }

  // ---------------------------------------------------------------------------
  // The click handlers

  datatype SelectionEvent = SelectionEvent(key: string, value: Instant)

  /** Why `const [firstTodo] = ...; firstTodo.date` throws: no array under the name, or an empty one. */
  datatype SelectError = UnknownBucket | EmptyBucket

  datatype Result<T> = Ok(value: T) | Err(error: SelectError)

  function HandleTodayFilter(now: Instant): (e: SelectionEvent)
    ensures e.key == "Today" && e.value == now
  {
    SelectionEvent("Today", now)
  }

  /** `thisWeek[name] || upcoming[name]`, then the date of the first item. */
  function HandleAnyOtherFilter(thisWeek: Buckets<Todo>, upcoming: Buckets<Todo>, name: string): (r: Result<SelectionEvent>)
    ensures r.Ok? ==> r.value.key == name
    ensures name in thisWeek.entries ==>
      if thisWeek.entries[name] == [] then r == Err(EmptyBucket)
      else r == Ok(SelectionEvent(name, thisWeek.entries[name][0].date))
    ensures name !in thisWeek.entries && name in upcoming.entries ==>
      if upcoming.entries[name] == [] then r == Err(EmptyBucket)
      else r == Ok(SelectionEvent(name, upcoming.entries[name][0].date))
    ensures name !in thisWeek.entries && name !in upcoming.entries ==> r == Err(UnknownBucket)
  {
    var bucket :=
      if name in thisWeek.entries then Some(thisWeek.entries[name])
      else if name in upcoming.entries then Some(upcoming.entries[name])
      else None;
    match bucket
    case None => Err(UnknownBucket)
    case Some(todos) =>
      if todos == [] then Err(EmptyBucket) else Ok(SelectionEvent(name, todos[0].date))
  }

  /**
   * Selecting a key of the freshly computed statistics succeeds and reports the date
   * of the first todo of the list filed under it, this week's grouping taking
   * precedence; it fails exactly for a name that is a key of neither grouping.
   */
  lemma RepresentativeDate(cal: Calendar, now: Instant, list: seq<Todo>, name: string)
    ensures
      var s := GetStats(cal, now, list);
      var r := HandleAnyOtherFilter(s.thisWeek, s.upcoming, name);
      r.Err? <==> name !in s.thisWeek.keys && name !in s.upcoming.keys
    ensures
      var s := GetStats(cal, now, list);
      var r := HandleAnyOtherFilter(s.thisWeek, s.upcoming, name);
      name in s.thisWeek.keys ==>
        exists i :: IsFirstMatch(cal, now, list, LaterThisWeek(cal, now), name, i) && r == Ok(SelectionEvent(name, list[i].date))
    ensures
      var s := GetStats(cal, now, list);
      var r := HandleAnyOtherFilter(s.thisWeek, s.upcoming, name);
      name !in s.thisWeek.keys && name in s.upcoming.keys ==>
        exists i :: IsFirstMatch(cal, now, list, NotThisWeek(cal, now), name, i) && r == Ok(SelectionEvent(name, list[i].date))
  {
    var s := GetStats(cal, now, list);
    if name in s.thisWeek.keys {
      BucketHead(cal, now, list, LaterThisWeek(cal, now), name);
    } else if name in s.upcoming.keys {
      BucketHead(cal, now, list, NotThisWeek(cal, now), name);
    }
  }

  // ---------------------------------------------------------------------------
  // A worked example on the uniform calendar, whose formatter returns the pattern itself

  /** The labels and filter verdicts of the four todos of the worked example. */
  lemma ScenarioVerdicts()
    ensures
      var cal := UniformCalendar();
      && FormatDate(cal, 0, DayMs) == "Tomorrow"
      && FormatDate(cal, 0, 10 * DayMs) == "MMM Do"
      && FormatDate(cal, 0, 400 * DayMs) == "MMM Do, YYYY"
      && IsToday(cal, 0, 0) && !IsToday(cal, 0, DayMs) && !IsToday(cal, 0, 10 * DayMs) && !IsToday(cal, 0, 400 * DayMs)
      && !LaterThisWeek(cal, 0)(Todo(0, "a")) && LaterThisWeek(cal, 0)(Todo(DayMs, "b"))
      && !LaterThisWeek(cal, 0)(Todo(10 * DayMs, "c")) && !LaterThisWeek(cal, 0)(Todo(400 * DayMs, "d"))
      && !NotThisWeek(cal, 0)(Todo(0, "a")) && !NotThisWeek(cal, 0)(Todo(DayMs, "b"))
      && NotThisWeek(cal, 0)(Todo(10 * DayMs, "c")) && NotThisWeek(cal, 0)(Todo(400 * DayMs, "d"))
  {
    var cal := UniformCalendar();
    assert cal.day(0) == 0 && cal.day(DayMs) == 1 && cal.day(10 * DayMs) == 10 && cal.day(400 * DayMs) == 400;
    assert cal.weekStart(0) == 0 && cal.weekStart(DayMs) == 0;
    assert cal.weekStart(10 * DayMs) == WeekMs && cal.weekStart(400 * DayMs) == 57 * WeekMs;
    assert cal.year(10 * DayMs) == 0 && cal.year(400 * DayMs) == 1 && cal.year(0) == 0;
    assert EndOfWeek(cal, 0) == WeekMs - 1;
  }

  /** Filtering a list with one more item at the end keeps at most that item more, at the end. */
  lemma FilterSnoc(init: seq<Todo>, x: Todo, keep: Todo -> bool)
    ensures Filter(init + [x], keep) == Filter(init, keep) + (if keep(x) then [x] else [])
  {
    assert (init + [x])[..|init|] == init;
  }

  lemma FilterOfFour(w: Todo, x: Todo, y: Todo, z: Todo, keep: Todo -> bool)
    ensures Filter([w, x, y, z], keep) ==
      (if keep(w) then [w] else []) + (if keep(x) then [x] else []) + (if keep(y) then [y] else []) + (if keep(z) then [z] else [])
  {
    FilterSnoc([], w, keep);
    FilterSnoc([w], x, keep);
    FilterSnoc([w, x], y, keep);
    FilterSnoc([w, x, y], z, keep);
    assert [] + [w] == [w] && [w] + [x] == [w, x] && [w, x] + [y] == [w, x, y] && [w, x, y] + [z] == [w, x, y, z];
  }

  lemma ScenarioFilters()
    ensures
      var cal := UniformCalendar();
      var a, b, c, d := Todo(0, "a"), Todo(DayMs, "b"), Todo(10 * DayMs, "c"), Todo(400 * DayMs, "d");
      && Filter([a, b, c, d], DueToday(cal, 0)) == [a]
      && Filter([a, b, c, d], LaterThisWeek(cal, 0)) == [b]
      && Filter([a, b, c, d], NotThisWeek(cal, 0)) == [c, d]
  {
    var cal := UniformCalendar();
    var a, b, c, d := Todo(0, "a"), Todo(DayMs, "b"), Todo(10 * DayMs, "c"), Todo(400 * DayMs, "d");
    ScenarioVerdicts();
    FilterOfFour(a, b, c, d, DueToday(cal, 0));
    FilterOfFour(a, b, c, d, LaterThisWeek(cal, 0));
    FilterOfFour(a, b, c, d, NotThisWeek(cal, 0));
  }

  lemma GroupedOfTwo(cal: Calendar, now: Instant, x: Todo, y: Todo)
    ensures Grouped(cal, now, [x]) == Append(Empty(), FormatDate(cal, now, x.date), x)
    ensures Grouped(cal, now, [x, y]) == Append(Grouped(cal, now, [x]), FormatDate(cal, now, y.date), y)
  {
    assert [x, y][..1] == [x] && [x][..0] == [];
  }

  lemma ScenarioThisWeek()
    ensures
      var cal := UniformCalendar();
      var a, b, c, d := Todo(0, "a"), Todo(DayMs, "b"), Todo(10 * DayMs, "c"), Todo(400 * DayMs, "d");
      GroupedBy(cal, 0, [a, b, c, d], LaterThisWeek(cal, 0)) == Buckets(["Tomorrow"], map["Tomorrow" := [b]])
  {
    var cal := UniformCalendar();
    var a, b, c, d := Todo(0, "a"), Todo(DayMs, "b"), Todo(10 * DayMs, "c"), Todo(400 * DayMs, "d");
    ScenarioVerdicts();
    ScenarioFilters();
    GroupedOfTwo(cal, 0, b, b);
    var e: Buckets<Todo> := Empty();
    assert Get(e, "Tomorrow") + [b] == [b];
  }

  lemma GroupedTwoLabels(cal: Calendar, now: Instant, x: Todo, y: Todo)
    requires FormatDate(cal, now, x.date) != FormatDate(cal, now, y.date)
    ensures
      var lx, ly := FormatDate(cal, now, x.date), FormatDate(cal, now, y.date);
      Grouped(cal, now, [x, y]) == Buckets([lx, ly], map[lx := [x], ly := [y]])
  {
    var lx, ly := FormatDate(cal, now, x.date), FormatDate(cal, now, y.date);
    GroupedOfTwo(cal, now, x, y);
    AppendTwoKeys(lx, x, ly, y);
  }

  lemma ScenarioUpcoming()
    ensures
      var cal := UniformCalendar();
      var a, b, c, d := Todo(0, "a"), Todo(DayMs, "b"), Todo(10 * DayMs, "c"), Todo(400 * DayMs, "d");
      GroupedBy(cal, 0, [a, b, c, d], NotThisWeek(cal, 0)) ==
        Buckets(["MMM Do", "MMM Do, YYYY"], map["MMM Do" := [c], "MMM Do, YYYY" := [d]])
  {
    var cal := UniformCalendar();
    var a, b, c, d := Todo(0, "a"), Todo(DayMs, "b"), Todo(10 * DayMs, "c"), Todo(400 * DayMs, "d");
    ScenarioVerdicts();
    ScenarioFilters();
    assert "MMM Do, YYYY" != "MMM Do" by { assert |"MMM Do, YYYY"| != |"MMM Do"|; }
    GroupedTwoLabels(cal, 0, c, d);
  }

  /**
   * Todos due now, in one day, in ten days and in four hundred days, at the epoch (the
   * first day of a week): one is due today, this week holds the Tomorrow todo, and
   * upcoming holds a month-day key without a year and one with a year.
   */
  lemma Scenario()
    ensures
      var cal := UniformCalendar();
      var a, b, c, d := Todo(0, "a"), Todo(DayMs, "b"), Todo(10 * DayMs, "c"), Todo(400 * DayMs, "d");
      GetStats(cal, 0, [a, b, c, d]) ==
        Stats(
          1,
          Buckets(["Tomorrow"], map["Tomorrow" := [b]]),
          Buckets(["MMM Do", "MMM Do, YYYY"], map["MMM Do" := [c], "MMM Do, YYYY" := [d]]))
  {
    var cal := UniformCalendar();
    var a, b, c, d := Todo(0, "a"), Todo(DayMs, "b"), Todo(10 * DayMs, "c"), Todo(400 * DayMs, "d");
    ScenarioFilters();
    ScenarioThisWeek();
    ScenarioUpcoming();
  }
}
