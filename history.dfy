/**
 * The history sidebar: formatting a day as `YYYY-MM-DD`, the search box
 * filter, labelling each history entry "today", "yesterday" or "older",
 * grouping the sorted entries into collapsible category groups, deleting a
 * whole category, and the query that viewing or re-running an entry sends.
 *
 * The wall clock is not modelled: the formatted dates of today and
 * yesterday are parameters (`DayStamps`), and so are the translated
 * category names (`CategoryTexts`). The ordering by `'-createdAt'` comes
 * from a helper that is not part of this model and is a parameter too.
 */
module History {
  import opened Types
  import opened JsStrings

  /** One entry of the request history (`IHistoryItem`); `verb` is its `method` field. */
  datatype HistoryItem = HistoryItem(
    url: string,
    verb: string,
    body: Body,
    headers: seq<Header>,
    createdAt: string,
    status: int,
    statusText: string,
    duration: int,
    result: Body,
    responseHeaders: seq<Header>,
    category: string)

  // ---------------------------------------------------------------------
  // formatDate
  // ---------------------------------------------------------------------

  /** A month or day number with a leading `0` when it is below 10. */
  function PadTwo(n: nat): string {
    (if n < 10 then "0" else "") + NatToString(n)
  }

  /** `formatDate`: the year, the month `getMonth() + 1` and the day, joined by `-`. */
  function FormatDate(fullYear: int, monthIndex: nat, day: nat): string {
    IntToString(fullYear) + "-" + PadTwo(monthIndex + 1) + "-" + PadTwo(day)
  }

  datatype DateParts = DateParts(fullYear: nat, monthIndex: nat, day: nat)

  /**
   * Reads a `YYYY-MM-DD` string back: the text before the last two dashes
   * is the year, then two month digits and two day digits.
   */
  function ParseDate(s: string): Option<DateParts> {
    if |s| < 7 || s[|s| - 6] != '-' || s[|s| - 3] != '-' then None
    else
      var y, m, d := s[..|s| - 6], s[|s| - 5..|s| - 3], s[|s| - 2..];
      if IsDigits(y) && IsDigits(m) && IsDigits(d) && 1 <= DigitsValue(m) then
        Some(DateParts(DigitsValue(y), DigitsValue(m) - 1, DigitsValue(d)))
      else None
  }

  lemma PadTwoDigits(n: nat)
    requires n < 100
    ensures |PadTwo(n)| == 2 && IsDigits(PadTwo(n)) && DigitsValue(PadTwo(n)) == n
  {
    var p := PadTwo(n);
    if n < 10 {
      assert p == ['0'] + NatToString(n);
      assert p[..1] == "0";
    } else {
      assert NatToString(n) == NatToString(n / 10) + [DigitChar(n % 10)];
    }
  }

  /** Every month and day comes out as exactly two digits, the month one higher than `getMonth()`. */
  lemma {:induction false} FormatDateRoundTrip(fullYear: nat, monthIndex: nat, day: nat)
    requires monthIndex < 12 && 1 <= day <= 31
    ensures ParseDate(FormatDate(fullYear, monthIndex, day)) == Some(DateParts(fullYear, monthIndex, day))
  {
    var y, m, d := NatToString(fullYear), PadTwo(monthIndex + 1), PadTwo(day);
    PadTwoDigits(monthIndex + 1);
    PadTwoDigits(day);
    var s := FormatDate(fullYear, monthIndex, day);
    assert s == y + "-" + m + "-" + d;
    assert s[..|s| - 6] == y;
    assert s[|s| - 5..|s| - 3] == m;
    assert s[|s| - 2..] == d;
  }

  /** Two different days never format to the same string. */
  lemma FormatDateInjective(y1: nat, m1: nat, d1: nat, y2: nat, m2: nat, d2: nat)
    requires m1 < 12 && 1 <= d1 <= 31 && m2 < 12 && 1 <= d2 <= 31
    requires FormatDate(y1, m1, d1) == FormatDate(y2, m2, d2)
    ensures y1 == y2 && m1 == m2 && d1 == d2
  {
    FormatDateRoundTrip(y1, m1, d1);
    FormatDateRoundTrip(y2, m2, d2);
  }

  /** For a four-digit year the result is `YYYY-MM-DD`, ten characters with dashes at 4 and 7. */
  lemma FormatDateShape(fullYear: nat, monthIndex: nat, day: nat)
    requires 1000 <= fullYear <= 9999 && monthIndex < 12 && 1 <= day <= 31
    ensures var s := FormatDate(fullYear, monthIndex, day);
      |s| == 10 && s[4] == '-' && s[7] == '-' && IsDigits(s[..4])
  {
    var y := NatToString(fullYear);
    assert y == NatToString(fullYear / 10) + [DigitChar(fullYear % 10)];
    assert NatToString(fullYear / 10) == NatToString(fullYear / 100) + [DigitChar(fullYear / 10 % 10)];
    assert NatToString(fullYear / 100) == NatToString(fullYear / 1000) + [DigitChar(fullYear / 100 % 10)];
    assert |y| == 4;
    PadTwoDigits(monthIndex + 1);
    PadTwoDigits(day);
    var s := FormatDate(fullYear, monthIndex, day);
    assert s == y + "-" + PadTwo(monthIndex + 1) + "-" + PadTwo(day);
    assert s[..4] == y;
  }

  // ---------------------------------------------------------------------
  // searchValueChanged
  // ---------------------------------------------------------------------

  /** The filter callback: the lower-cased url, lower-cased again, includes the keyword. */
  predicate UrlMatches(item: HistoryItem, keyword: string) {
    Includes(Lower(Lower(item.url)), keyword)
  }

  /** `history.filter(...)` with an already lower-cased keyword. */
  function SearchFilter(history: seq<HistoryItem>, keyword: string): (r: seq<HistoryItem>)
    ensures |r| <= |history|
    ensures forall x :: x in r <==> x in history && UrlMatches(x, keyword)
  {
    if history == [] then []
    else
      var rest := SearchFilter(history[1..], keyword);
      assert forall x :: x in history <==> x == history[0] || x in history[1..];
      if UrlMatches(history[0], keyword) then [history[0]] + rest else rest
  }

  /** The search keeps the entries whose lower-cased url contains the lower-cased search text. */
  lemma SearchMatchesLowerCase(item: HistoryItem, value: string)
    ensures UrlMatches(item, Lower(value)) <==> Includes(Lower(item.url), Lower(value))
  {
    LowerIdempotent(item.url);
  }

  /** The filter keeps the original order: it distributes over concatenation. */
  lemma {:induction false} SearchFilterAppend(a: seq<HistoryItem>, b: seq<HistoryItem>, keyword: string)
    ensures SearchFilter(a + b, keyword) == SearchFilter(a, keyword) + SearchFilter(b, keyword)
  {
    if a == [] {
      assert a + b == b;
    } else {
      assert (a + b)[0] == a[0];
      assert (a + b)[1..] == a[1..] + b;
      SearchFilterAppend(a[1..], b, keyword);
    }
  }

  /** Each matching entry is kept as often as it occurs; the others are dropped. */
  lemma {:induction false} SearchFilterMultiset(history: seq<HistoryItem>, keyword: string, x: HistoryItem)
    ensures multiset(SearchFilter(history, keyword))[x] ==
      if UrlMatches(x, keyword) then multiset(history)[x] else 0
  {
    if history != [] {
      SearchFilterMultiset(history[1..], keyword, x);
      assert history == [history[0]] + history[1..];
    }
  }

  // ---------------------------------------------------------------------
  // getItems
  // ---------------------------------------------------------------------

  /** The formatted dates of today and of yesterday. */
  datatype DayStamps = DayStamps(today: string, yesterday: string)

  /** The translated names of the three categories. */
  datatype CategoryTexts = CategoryTexts(today: string, yesterday: string, older: string)

  /** One step of the running label: an entry created today or yesterday sets it, any other keeps it. */
  function NextLabel(item: HistoryItem, days: DayStamps, texts: CategoryTexts, date: string): string {
    if Includes(item.createdAt, days.today) then texts.today
    else if Includes(item.createdAt, days.yesterday) then texts.yesterday
    else date
  }

  /** The labelling pass over `history` when the running label is `date`. */
  function LabelFrom(history: seq<HistoryItem>, days: DayStamps, texts: CategoryTexts, date: string): seq<HistoryItem> {
    if history == [] then []
    else
      var d := NextLabel(history[0], days, texts, date);
      [history[0].(category := d)] + LabelFrom(history[1..], days, texts, d)
  }

  /** `getItems` before sorting: the running label starts as the "older" text. */
  function Labelled(history: seq<HistoryItem>, days: DayStamps, texts: CategoryTexts): seq<HistoryItem> {
    LabelFrom(history, days, texts, texts.older)
  }

  /** The entry was created on today's or yesterday's date. */
  predicate DatedRecently(item: HistoryItem, days: DayStamps) {
    Includes(item.createdAt, days.today) || Includes(item.createdAt, days.yesterday)
  }

  lemma {:induction false} LabelFromShape(history: seq<HistoryItem>, days: DayStamps, texts: CategoryTexts, date: string)
    ensures |LabelFrom(history, days, texts, date)| == |history|
    ensures forall i :: 0 <= i < |history| ==>
      LabelFrom(history, days, texts, date)[i] == history[i].(category := LabelFrom(history, days, texts, date)[i].category)
  {
    if history != [] {
      LabelFromShape(history[1..], days, texts, NextLabel(history[0], days, texts, date));
    }
  }

  lemma {:induction false} LabelFromStep(history: seq<HistoryItem>, days: DayStamps, texts: CategoryTexts, date: string, i: nat)
    requires i < |history|
    ensures |LabelFrom(history, days, texts, date)| == |history|
    ensures LabelFrom(history, days, texts, date)[i].category ==
      NextLabel(history[i], days, texts, if i == 0 then date else LabelFrom(history, days, texts, date)[i - 1].category)
  {
    LabelFromShape(history, days, texts, date);
    if i > 0 {
      var d := NextLabel(history[0], days, texts, date);
      LabelFromShape(history[1..], days, texts, d);
      LabelFromStep(history[1..], days, texts, d, i - 1);
    }
  }

  /**
   * `getItems` keeps every entry, in input order before the sort, and
   * changes nothing but its category.
   */
  lemma LabelledKeepsEntries(history: seq<HistoryItem>, days: DayStamps, texts: CategoryTexts)
    ensures |Labelled(history, days, texts)| == |history|
    ensures forall i :: 0 <= i < |history| ==>
      Labelled(history, days, texts)[i] == history[i].(category := Labelled(history, days, texts)[i].category)
  {
    LabelFromShape(history, days, texts, texts.older);
  }

  /**
   * The category of entry `i` is the running label after entry `i`: "today"
   * or "yesterday" when the entry's date says so, otherwise the category of
   * the entry before it ("older" for the first one).
   */
  lemma LabelledRunningLabel(history: seq<HistoryItem>, days: DayStamps, texts: CategoryTexts, i: nat)
    requires i < |history|
    ensures |Labelled(history, days, texts)| == |history|
    ensures var r := Labelled(history, days, texts);
      && (Includes(history[i].createdAt, days.today) ==> r[i].category == texts.today)
      && (!Includes(history[i].createdAt, days.today) && Includes(history[i].createdAt, days.yesterday) ==>
            r[i].category == texts.yesterday)
      && (!DatedRecently(history[i], days) ==>
            r[i].category == if i == 0 then texts.older else r[i - 1].category)
  {
    LabelFromStep(history, days, texts, texts.older, i);
  }

  /** Every entry gets one of the three category texts. */
  lemma {:induction false} LabelledCategories(history: seq<HistoryItem>, days: DayStamps, texts: CategoryTexts, i: nat)
    requires i < |history|
    ensures |Labelled(history, days, texts)| == |history|
    ensures Labelled(history, days, texts)[i].category in {texts.today, texts.yesterday, texts.older}
  {
    LabelledRunningLabel(history, days, texts, i);
    if i > 0 {
      LabelledCategories(history, days, texts, i - 1);
    }
  }

  /**
   * Labels are sticky: when the three texts differ, an entry is labelled
   * "older" exactly when neither it nor any earlier entry was created on
   * today's or yesterday's date.
   */
  lemma {:induction false} LabelledOlderIff(history: seq<HistoryItem>, days: DayStamps, texts: CategoryTexts, i: nat)
    requires i < |history|
    requires texts.older != texts.today && texts.older != texts.yesterday
    ensures |Labelled(history, days, texts)| == |history|
    ensures Labelled(history, days, texts)[i].category == texts.older <==>
      forall j :: 0 <= j <= i ==> !DatedRecently(history[j], days)
  {
    LabelledRunningLabel(history, days, texts, i);
    if i > 0 {
      LabelledOlderIff(history, days, texts, i - 1);
    }
  }

  /** `getItems`: label every entry with the running label, then sort by `'-createdAt'`. */
  method GetItems(history: seq<HistoryItem>, days: DayStamps, texts: CategoryTexts,
                  sortByCreatedAtDesc: seq<HistoryItem> -> seq<HistoryItem>)
    returns (items: seq<HistoryItem>)
    ensures items == sortByCreatedAtDesc(Labelled(history, days, texts))
  {
    items := [];
    var date := texts.older;
    assert history[0..] == history;
    for i := 0 to |history|
      invariant items + LabelFrom(history[i..], days, texts, date) == Labelled(history, days, texts)
    {
      var element := history[i];
      ghost var rest := LabelFrom(history[i..], days, texts, date);
      assert history[i..][0] == element && history[i..][1..] == history[i + 1..];
      if Includes(element.createdAt, days.today) {
        date := texts.today;
      } else if Includes(element.createdAt, days.yesterday) {
        date := texts.yesterday;
      }
      assert rest == [element.(category := date)] + LabelFrom(history[i + 1..], days, texts, date);
      items := items + [element.(category := date)];
    }
    assert history[|history|..] == [];
    assert items + [] == items;
    items := sortByCreatedAtDesc(items);
  }

  // ---------------------------------------------------------------------
  // generateGroupedList
  // ---------------------------------------------------------------------

  /** One category group of the list (`IGroup`). */
  datatype Group = Group(name: string, key: string, startIndex: nat, isCollapsed: bool, count: nat)

  /** `items.filter(query => query.category === category)`. */
  function ItemsInCategory(items: seq<HistoryItem>, category: string): seq<HistoryItem> {
    if items == [] then []
    else
      var rest := ItemsInCategory(items[1..], category);
      if items[0].category == category then [items[0]] + rest else rest
  }

  /** The number of entries with the given category. */
  function CountCategory(items: seq<HistoryItem>, category: string): nat {
    |ItemsInCategory(items, category)|
  }

  /**
   * The groups the loop of `generateGroupedList` still adds from position
   * `i` on, when the categories in `seen` already have a group and the
   * earlier groups hold `previousCount` entries.
   */
  function GroupsFrom(items: seq<HistoryItem>, i: nat, seen: set<string>, previousCount: nat): seq<Group>
    requires i <= |items|
    decreases |items| - i
  {
    if i == |items| then []
    else
      var c := items[i].category;
      if c in seen then GroupsFrom(items, i + 1, seen, previousCount)
      else
        var count := CountCategory(items, c);
        [Group(c, c, previousCount, false, count)] + GroupsFrom(items, i + 1, seen + {c}, previousCount + count)
  }

  /** The `categories` that `generateGroupedList` computes for the sorted entries. */
  function GroupsOf(items: seq<HistoryItem>): seq<Group> {
    GroupsFrom(items, 0, {}, 0)
  }

  /** The categories of the entries, in list order. */
  function CategoriesOf(items: seq<HistoryItem>): (r: seq<string>)
    ensures |r| == |items|
    ensures forall k :: 0 <= k < |items| ==> r[k] == items[k].category
  {
    seq(|items|, k requires 0 <= k < |items| => items[k].category)
  }

  /** The names of the groups, in order. */
  function Names(groups: seq<Group>): seq<string> {
    if groups == [] then [] else [groups[0].name] + Names(groups[1..])
  }

  lemma {:induction false} NamesAt(groups: seq<Group>)
    ensures |Names(groups)| == |groups|
    ensures forall j :: 0 <= j < |groups| ==> Names(groups)[j] == groups[j].name
  {
    if groups != [] {
      NamesAt(groups[1..]);
    }
  }

  /**
   * The distinct elements of `s` in order of first occurrence, built from
   * the back: the last element is added unless an earlier one equals it.
   */
  function FirstOccurrences(s: seq<string>): seq<string> {
    if s == [] then []
    else
      var d := FirstOccurrences(s[..|s| - 1]);
      if s[|s| - 1] in d then d else d + [s[|s| - 1]]
  }

  lemma {:induction false} FirstOccurrencesMembers(s: seq<string>)
    ensures forall x :: x in FirstOccurrences(s) <==> x in s
  {
    if s != [] {
      FirstOccurrencesMembers(s[..|s| - 1]);
      assert forall x :: x in s <==> x in s[..|s| - 1] || x == s[|s| - 1];
    }
  }

  lemma {:induction false} FirstOccurrencesDistinct(s: seq<string>)
    ensures forall j, k :: 0 <= j < k < |FirstOccurrences(s)| ==> FirstOccurrences(s)[j] != FirstOccurrences(s)[k]
  {
    if s != [] {
      FirstOccurrencesDistinct(s[..|s| - 1]);
    }
  }

  /** The sum of the counts of the given groups. */
  function SumCounts(groups: seq<Group>): nat {
    if groups == [] then 0 else groups[0].count + SumCounts(groups[1..])
  }

  /** The number of entries whose category is not in `s`. */
  function CountNotIn(items: seq<HistoryItem>, s: set<string>): nat {
    if items == [] then 0
    else (if items[0].category in s then 0 else 1) + CountNotIn(items[1..], s)
  }

  lemma {:induction false} CountNotInEmpty(items: seq<HistoryItem>)
    ensures CountNotIn(items, {}) == |items|
  {
    if items != [] {
      CountNotInEmpty(items[1..]);
    }
  }

  lemma {:induction false} CountNotInSplit(items: seq<HistoryItem>, s: set<string>, c: string)
    requires c !in s
    ensures CountNotIn(items, s) == CountCategory(items, c) + CountNotIn(items, s + {c})
  {
    if items != [] {
      CountNotInSplit(items[1..], s, c);
    }
  }

  lemma {:induction false} CountNotInNone(items: seq<HistoryItem>, s: set<string>)
    requires forall k :: 0 <= k < |items| ==> items[k].category in s
    ensures CountNotIn(items, s) == 0
  {
    if items != [] {
      CountNotInNone(items[1..], s);
    }
  }

  lemma FirstOccurrencesSnoc(p: seq<string>, c: string)
    ensures FirstOccurrences(p + [c]) == if c in p then FirstOccurrences(p) else FirstOccurrences(p) + [c]
  {
    FirstOccurrencesMembers(p);
    var s := p + [c];
    assert s[..|s| - 1] == p && s[|s| - 1] == c;
  }

  /** The names the loop still adds from position `i` on of the categories `s`. */
  function NewNamesFrom(s: seq<string>, i: nat, seen: set<string>): seq<string>
    requires i <= |s|
    decreases |s| - i
  {
    if i == |s| then []
    else if s[i] in seen then NewNamesFrom(s, i + 1, seen)
    else [s[i]] + NewNamesFrom(s, i + 1, seen + {s[i]})
  }

  lemma {:induction false} GroupsFromNewNames(items: seq<HistoryItem>, i: nat, seen: set<string>, previousCount: nat)
    requires i <= |items|
    ensures Names(GroupsFrom(items, i, seen, previousCount)) == NewNamesFrom(CategoriesOf(items), i, seen)
    decreases |items| - i
  {
    if i < |items| {
      var c := items[i].category;
      if c in seen {
        GroupsFromNewNames(items, i + 1, seen, previousCount);
      } else {
        var count := CountCategory(items, c);
        var rest := GroupsFrom(items, i + 1, seen + {c}, previousCount + count);
        GroupsFromNewNames(items, i + 1, seen + {c}, previousCount + count);
        var gs := [Group(c, c, previousCount, false, count)] + rest;
        assert gs[1..] == rest;
      }
    }
  }

  /** The names still to come complete the first occurrences seen so far. */
  lemma {:induction false} NewNamesComplete(s: seq<string>, i: nat, seen: set<string>)
    requires i <= |s|
    requires forall x :: x in seen <==> x in s[..i]
    ensures FirstOccurrences(s[..i]) + NewNamesFrom(s, i, seen) == FirstOccurrences(s)
    decreases |s| - i
  {
    if i == |s| {
      assert s[..i] == s;
    } else {
      var c := s[i];
      var before := FirstOccurrences(s[..i]);
      assert s[..i + 1] == s[..i] + [c];
      FirstOccurrencesSnoc(s[..i], c);
      if c in seen {
        NewNamesComplete(s, i + 1, seen);
      } else {
        NewNamesComplete(s, i + 1, seen + {c});
        var rest := NewNamesFrom(s, i + 1, seen + {c});
        assert NewNamesFrom(s, i, seen) == [c] + rest;
        assert before + ([c] + rest) == (before + [c]) + rest;
      }
    }
  }

  /** The groups still to come count every entry whose category has no group yet. */
  lemma {:induction false} GroupsFromSum(items: seq<HistoryItem>, i: nat, seen: set<string>, previousCount: nat)
    requires i <= |items|
    requires forall k :: 0 <= k < i ==> items[k].category in seen
    ensures SumCounts(GroupsFrom(items, i, seen, previousCount)) == CountNotIn(items, seen)
    decreases |items| - i
  {
    if i == |items| {
      CountNotInNone(items, seen);
    } else {
      var c := items[i].category;
      if c in seen {
        GroupsFromSum(items, i + 1, seen, previousCount);
      } else {
        GroupsFromSum(items, i + 1, seen + {c}, previousCount + CountCategory(items, c));
        CountNotInSplit(items, seen, c);
      }
    }
  }

  /** A group as `generateGroupedList` builds it, starting at `startIndex`. */
  predicate WellFormedGroup(items: seq<HistoryItem>, g: Group, startIndex: nat) {
    && g.key == g.name
    && !g.isCollapsed
    && g.count == CountCategory(items, g.name)
    && g.startIndex == startIndex
  }

  /** Each group still to come is expanded, counts its entries and starts after the ones before it. */
  lemma {:induction false} GroupsFromFields(items: seq<HistoryItem>, i: nat, seen: set<string>, previousCount: nat, j: nat)
    requires i <= |items|
    requires j < |GroupsFrom(items, i, seen, previousCount)|
    ensures var gs := GroupsFrom(items, i, seen, previousCount);
      WellFormedGroup(items, gs[j], previousCount + SumCounts(gs[..j]))
    decreases |items| - i
  {
    var c := items[i].category;
    var gs := GroupsFrom(items, i, seen, previousCount);
    if c in seen {
      GroupsFromFields(items, i + 1, seen, previousCount, j);
    } else {
      var count := CountCategory(items, c);
      var rest := GroupsFrom(items, i + 1, seen + {c}, previousCount + count);
      assert gs == [Group(c, c, previousCount, false, count)] + rest;
      if j == 0 {
        assert gs[..0] == [];
      } else {
        GroupsFromFields(items, i + 1, seen + {c}, previousCount + count, j - 1);
        assert gs[j] == rest[j - 1];
        assert gs[..j][0] == gs[0] && gs[..j][1..] == rest[..j - 1];
      }
    }
  }

  /**
   * `generateGroupedList` makes exactly one group per distinct category, in
   * order of first occurrence in the sorted entries; each group is expanded,
   * its key is its name and its count is the number of its entries.
   */
  lemma GroupsFollowFirstOccurrence(items: seq<HistoryItem>)
    ensures Names(GroupsOf(items)) == FirstOccurrences(CategoriesOf(items))
    ensures forall j, k :: 0 <= j < k < |GroupsOf(items)| ==> GroupsOf(items)[j].name != GroupsOf(items)[k].name
    ensures forall c :: c in Names(GroupsOf(items)) <==> exists i :: 0 <= i < |items| && items[i].category == c
    ensures forall j :: 0 <= j < |GroupsOf(items)| ==>
      && GroupsOf(items)[j].key == GroupsOf(items)[j].name
      && !GroupsOf(items)[j].isCollapsed
      && GroupsOf(items)[j].count == CountCategory(items, GroupsOf(items)[j].name)
  {
    var cats := CategoriesOf(items);
    GroupsFromNewNames(items, 0, {}, 0);
    assert cats[..0] == [];
    NewNamesComplete(cats, 0, {});
    forall j | 0 <= j < |GroupsOf(items)|
      ensures WellFormedGroup(items, GroupsOf(items)[j], SumCounts(GroupsOf(items)[..j]))
    {
      GroupsFromFields(items, 0, {}, 0, j);
    }
    NamesAt(GroupsOf(items));
    FirstOccurrencesDistinct(cats);
    FirstOccurrencesMembers(cats);
    forall c ensures c in cats <==> exists i :: 0 <= i < |items| && items[i].category == c {
      if c in cats {
        var i :| 0 <= i < |cats| && cats[i] == c;
      }
    }
  }

  /**
   * Each group starts where the earlier groups end (`startIndex` is the sum
   * of the earlier counts), and the counts add up to the number of entries.
   */
  lemma GroupsPartitionEntries(items: seq<HistoryItem>)
    ensures forall j :: 0 <= j < |GroupsOf(items)| ==> GroupsOf(items)[j].startIndex == SumCounts(GroupsOf(items)[..j])
    ensures SumCounts(GroupsOf(items)) == |items|
  {
    forall j | 0 <= j < |GroupsOf(items)|
      ensures WellFormedGroup(items, GroupsOf(items)[j], SumCounts(GroupsOf(items)[..j]))
    {
      GroupsFromFields(items, 0, {}, 0, j);
    }
    GroupsFromSum(items, 0, {}, 0);
    CountNotInEmpty(items);
  }

  // ---------------------------------------------------------------------
  // onViewQuery and onRunQuery
  // ---------------------------------------------------------------------

  /** What `parseSampleUrl` returns for the entry's url (not part of this model). */
  datatype ParsedUrl = ParsedUrl(sampleUrl: string, queryVersion: string)

  /** The query that is loaded into the request area (`IQuery`). */
  datatype SampleQuery = SampleQuery(
    sampleUrl: string,
    selectedVerb: string,
    sampleBody: Body,
    sampleHeaders: seq<Header>,
    selectedVersion: string)

  /** The stored response that viewing an entry shows again. */
  datatype GraphResponse = GraphResponse(body: Body, headers: seq<Header>)

  /** Everything `onViewQuery` dispatches. */
  datatype ViewQueryEffects = ViewQueryEffects(sampleQuery: SampleQuery, response: GraphResponse, status: QueryStatus)

  function SampleQueryOf(query: HistoryItem, parsed: ParsedUrl): SampleQuery {
    SampleQuery(parsed.sampleUrl, query.verb, query.body, query.headers, parsed.queryVersion)
  }

  /** `onViewQuery`: nothing is dispatched without actions. */
  function OnViewQuery(query: HistoryItem, parsed: ParsedUrl, hasActions: bool): Option<ViewQueryEffects> {
    if !hasActions then None
    else
      Some(ViewQueryEffects(
        SampleQueryOf(query, parsed),
        GraphResponse(query.result, query.responseHeaders),
        QueryStatus(query.status < 300, query.statusText, query.status,
                    if query.status < 300 then Success else Error, query.duration)))
  }

  /**
   * Viewing an entry reports success, both as `ok` and as the message type,
   * exactly when its status is below 300, and shows its stored response.
   */
  lemma ViewQueryStatus(query: HistoryItem, parsed: ParsedUrl, hasActions: bool)
    ensures OnViewQuery(query, parsed, hasActions).Some? <==> hasActions
    ensures hasActions ==> var e := OnViewQuery(query, parsed, hasActions).value;
      && (e.status.ok <==> query.status < 300)
      && (e.status.messageType == Success <==> e.status.ok)
      && e.status.status == query.status
      && e.status.statusText == query.statusText
      && e.status.duration == query.duration
      && e.response == GraphResponse(query.result, query.responseHeaders)
      && e.sampleQuery.sampleBody == query.body
      && e.sampleQuery.selectedVerb == query.verb
      && e.sampleQuery.sampleHeaders == query.headers
      && e.sampleQuery.sampleUrl == parsed.sampleUrl
      && e.sampleQuery.selectedVersion == parsed.queryVersion
  {
  }

  /** `onRunQuery`: the query that is both loaded and run; a GET is sent with an empty object as body. */
  function OnRunQuery(query: HistoryItem, parsed: ParsedUrl, hasActions: bool): Option<SampleQuery> {
    if !hasActions then None
    else
      var sampleQuery := SampleQueryOf(query, parsed);
      if sampleQuery.selectedVerb == "GET" then Some(sampleQuery.(sampleBody := EmptyObject))
      else Some(sampleQuery)
  }

  /**
   * Re-running a GET entry sends an empty object whatever body was stored;
   * any other verb sends the stored body; the rest of the query is the entry's.
   */
  lemma RunQueryBody(query: HistoryItem, parsed: ParsedUrl, hasActions: bool)
    ensures OnRunQuery(query, parsed, hasActions).Some? <==> hasActions
    ensures hasActions ==> var q := OnRunQuery(query, parsed, hasActions).value;
      && q.sampleBody == (if query.verb == "GET" then EmptyObject else query.body)
      && q.selectedVerb == query.verb
      && q.sampleHeaders == query.headers
      && q.sampleUrl == parsed.sampleUrl
      && q.selectedVersion == parsed.queryVersion
  {
  }

  // ---------------------------------------------------------------------
  // The component's state
  // ---------------------------------------------------------------------

  /** The `History` component's state: the grouped list and the delete dialog. */
  class HistoryView {
    var items: seq<HistoryItem>
    var categories: seq<Group>
    var hideDialog: bool
    var category: string

    /** The groups are always those `generateGroupedList` computes for the items shown. */
    predicate Grouped()
      reads this
    {
      categories == GroupsOf(items)
    }

    constructor ()
      ensures items == [] && categories == [] && hideDialog && category == ""
      ensures Grouped()
    {
      items := [];
      categories := [];
      hideDialog := true;
      category := "";
    }

    /** `generateGroupedList`: label and sort the entries, then group them by category. */
    method GenerateGroupedList(history: seq<HistoryItem>, days: DayStamps, texts: CategoryTexts,
                               sortByCreatedAtDesc: seq<HistoryItem> -> seq<HistoryItem>)
      modifies this
      ensures items == sortByCreatedAtDesc(Labelled(history, days, texts))
      ensures categories == GroupsOf(items)
      ensures Grouped()
      ensures hideDialog == old(hideDialog) && category == old(category)
    {
      var seen: set<string> := {};
      var groups: seq<Group> := [];
      var sorted := GetItems(history, days, texts, sortByCreatedAtDesc);

      var previousCount: nat := 0;
      for i := 0 to |sorted|
        invariant GroupsOf(sorted) == groups + GroupsFrom(sorted, i, seen, previousCount)
      {
        var c := sorted[i].category;
        assert GroupsFrom(sorted, i, seen, previousCount) ==
          if c in seen then GroupsFrom(sorted, i + 1, seen, previousCount)
          else [Group(c, c, previousCount, false, CountCategory(sorted, c))]
               + GroupsFrom(sorted, i + 1, seen + {c}, previousCount + CountCategory(sorted, c));
        if c !in seen {
          seen := seen + {c};
          var count := CountCategory(sorted, c);
          groups := groups + [Group(c, c, previousCount, false, count)];
          previousCount := previousCount + count;
        }
      }

      items := sorted;
      categories := groups;
    }

    /** `searchValueChanged`: regroup only the entries whose url contains the search text. */
    method SearchValueChanged(history: seq<HistoryItem>, value: string, days: DayStamps, texts: CategoryTexts,
                              sortByCreatedAtDesc: seq<HistoryItem> -> seq<HistoryItem>)
      modifies this
      ensures items == sortByCreatedAtDesc(Labelled(SearchFilter(history, Lower(value)), days, texts))
      ensures categories == GroupsOf(items)
      ensures Grouped()
      ensures hideDialog == old(hideDialog) && category == old(category)
    {
      var keyword := Lower(value);
      var filteredSamples := SearchFilter(history, keyword);
      GenerateGroupedList(filteredSamples, days, texts, sortByCreatedAtDesc);
    }

    /** `showDialog`: ask to confirm deleting one category. */
    method ShowDialog(c: string)
      modifies this
      ensures !hideDialog && category == c
      ensures items == old(items) && categories == old(categories)
      ensures old(Grouped()) ==> Grouped()
    {
      hideDialog, category := false, c;
    }

    /** `closeDialog`. */
    method CloseDialog()
      modifies this
      ensures hideDialog && category == ""
      ensures items == old(items) && categories == old(categories)
      ensures old(Grouped()) ==> Grouped()
    {
      hideDialog, category := true, "";
    }

    /**
     * `deleteHistoryCategory`: the entries handed to `bulkRemoveHistoryItems`
     * (none when there are no actions), then the dialog is closed.
     */
    method DeleteHistoryCategory(hasActions: bool) returns (removed: Option<seq<HistoryItem>>)
      modifies this
      ensures removed == if hasActions then Some(ItemsInCategory(old(items), old(category))) else None
      ensures hideDialog && category == ""
      ensures items == old(items) && categories == old(categories)
      ensures old(Grouped()) ==> Grouped()
      ensures old(Grouped()) && hasActions ==> forall j :: 0 <= j < |categories| && categories[j].name == old(category) ==>
        |removed.value| == categories[j].count
    {
      GroupsFollowFirstOccurrence(items);
      var itemsToDelete := ItemsInCategory(items, category);
      removed := None;
      if hasActions {
        removed := Some(itemsToDelete);
      }
      CloseDialog();
    }
  }

  /** Selecting a category distributes over concatenation, so the selected entries keep their list order. */
  lemma {:induction false} ItemsInCategoryAppend(a: seq<HistoryItem>, b: seq<HistoryItem>, category: string)
    ensures ItemsInCategory(a + b, category) == ItemsInCategory(a, category) + ItemsInCategory(b, category)
  {
    if a == [] {
      assert a + b == b;
    } else {
      assert (a + b)[0] == a[0];
      assert (a + b)[1..] == a[1..] + b;
      ItemsInCategoryAppend(a[1..], b, category);
    }
  }

  /** The entries handed over for deletion are exactly those of the chosen category, each as often as it is listed. */
  lemma {:induction false} DeletedEntriesAreTheCategory(items: seq<HistoryItem>, category: string)
    ensures forall x :: x in ItemsInCategory(items, category) <==> x in items && x.category == category
    ensures forall x :: multiset(ItemsInCategory(items, category))[x] ==
                         if x.category == category then multiset(items)[x] else 0
  {
    if items != [] {
      DeletedEntriesAreTheCategory(items[1..], category);
      assert items == [items[0]] + items[1..];
    }
  }
}
