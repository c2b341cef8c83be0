/**
 * The report after the walk: the WeChat mini-program categories first, in
 * their declared order and only when they have lines, then every other
 * language the accumulator holds in ascending string order, and the total
 * of all entries. The column layout of the printout is not modelled.
 */
module Report {
  import opened Text
  import opened LanguageCounts

  /** The WeChat mini-program labels (template, style, script), in the order they are printed. */
  function WeChatLabels(): seq<string>
  {
    ["微信模板", "微信样式", "微信脚本"]
  }

  /** One printed line of the table: a language and its line count. */
  datatype Row = Row(language: string, lines: nat)

  /** The printed table and the total under it. */
  datatype Summary = Summary(rows: seq<Row>, total: nat)

  /** `x` comes first among `s` in string order. */
  predicate IsLeast(x: string, s: set<string>)
  {
    x in s && forall y :: y in s ==> !LexLess(y, x)
  }

  /** Every non-empty set of strings has a first element. */
  lemma {:induction false} LeastExists(s: set<string>)
    requires s != {}
    ensures exists x :: IsLeast(x, s)
    decreases |s|
  {
    var a :| a in s;
    var rest := s - {a};
    if rest == {} {
      assert s == {a};
      LexLessIrreflexive(a);
      assert IsLeast(a, s);
    } else {
      LeastExists(rest);
      var m :| IsLeast(m, rest);
      if LexLess(a, m) {
        forall y | y in s ensures !LexLess(y, a) {
          if y == a {
            LexLessIrreflexive(a);
          } else if LexLess(y, a) {
            LexLessTransitive(y, a, m);
          }
        }
        assert IsLeast(a, s);
      } else {
        assert IsLeast(m, s);
      }
    }
  }

  /** The first element is unique, as string order is total. */
  lemma LeastUnique(s: set<string>)
    ensures forall x, y :: IsLeast(x, s) && IsLeast(y, s) ==> x == y
  {
    forall x, y | IsLeast(x, s) && IsLeast(y, s) ensures x == y {
      if x != y {
        LexLessTotal(x, y);
      }
    }
  }

  /** `sorted(s)`: the elements of `s` in ascending string order. */
  function SortedLabels(s: set<string>): seq<string>
    decreases |s|
  {
    if s == {} then []
    else
      LeastExists(s);
      LeastUnique(s);
      var x :| IsLeast(x, s);
      [x] + SortedLabels(s - {x})
  }

  /** `sorted` lists every element exactly once, each before all greater ones. */
  lemma {:induction false} SortedLabelsSpec(s: set<string>)
    ensures |SortedLabels(s)| == |s|
    ensures forall l :: l in SortedLabels(s) <==> l in s
    ensures forall i, j :: 0 <= i < j < |SortedLabels(s)| ==> LexLess(SortedLabels(s)[i], SortedLabels(s)[j])
    decreases |s|
  {
    if s != {} {
      LeastExists(s);
      LeastUnique(s);
      var x :| IsLeast(x, s);
      var tail := SortedLabels(s - {x});
      SortedLabelsSpec(s - {x});
      assert SortedLabels(s) == [x] + tail;
      forall j | 0 <= j < |tail| ensures LexLess(x, tail[j]) {
        assert tail[j] in s - {x};
        LexLessTotal(x, tail[j]);
      }
    }
  }

  /** The rows for the categories `cats` that have lines, in the order of `cats`. */
  function CategoryRows(counts: map<string, nat>, cats: seq<string>): (rows: seq<Row>)
    ensures forall i :: 0 <= i < |rows| ==> rows[i].language in cats
  {
    if cats == [] then []
    else
      (if Get(counts, cats[0]) > 0 then [Row(cats[0], counts[cats[0]])] else [])
      + CategoryRows(counts, cats[1..])
  }

  /** The rows for the labels of `labels` that are not WeChat categories, in the order of `labels`. */
  function LabelRows(counts: map<string, nat>, labels: seq<string>): seq<Row>
    requires forall l :: l in labels ==> l in counts
  {
    if labels == [] then []
    else
      (if labels[0] !in WeChatLabels() then [Row(labels[0], counts[labels[0]])] else [])
      + LabelRows(counts, labels[1..])
  }

  /** The WeChat section: the categories that have lines, in declared order. */
  function WeChatRows(counts: map<string, nat>): seq<Row>
  {
    CategoryRows(counts, WeChatLabels())
  }

  /** The rest of the table: every other recorded language, in sorted order. */
  function OtherRows(counts: map<string, nat>): seq<Row>
  {
    SortedLabelsSpec(counts.Keys);
    LabelRows(counts, SortedLabels(counts.Keys))
  }

  /** The table rows: the WeChat categories that have lines, then the other languages. */
  function Rows(counts: map<string, nat>): (rows: seq<Row>)
  {
    WeChatRows(counts) + OtherRows(counts)
  }

  /** `sum(language_counts.values())`. */
  function Total(counts: map<string, nat>): (total: nat)
  {
    SumOver(counts, SortedLabels(counts.Keys))
  }

  /** What the report shows for an accumulator. */
  function Summarize(counts: map<string, nat>): (s: Summary)
  {
    Summary(Rows(counts), Total(counts))
  }

  /** The languages that have a row. */
  function Listed(rows: seq<Row>): set<string>
  {
    set i | 0 <= i < |rows| :: rows[i].language
  }

  /** The lines of all rows together. */
  function RowsSum(rows: seq<Row>): nat
  {
    if rows == [] then 0 else rows[0].lines + RowsSum(rows[1..])
  }

  /** The position of `x` in `xs`. */
  function IndexOf(xs: seq<string>, x: string): (k: nat)
    requires x in xs
    ensures k < |xs| && xs[k] == x
    ensures forall j :: 0 <= j < k ==> xs[j] != x
  {
    if xs[0] == x then 0 else 1 + IndexOf(xs[1..], x)
  }

  /** `rows` starts with `head` and goes on with `tail`: its languages are theirs. */
  lemma ListedAppend(head: seq<Row>, tail: seq<Row>)
    ensures Listed(head + tail) == Listed(head) + Listed(tail)
  {
    var rows := head + tail;
    forall l | l in Listed(rows) ensures l in Listed(head) + Listed(tail) {
      var i :| 0 <= i < |rows| && rows[i].language == l;
      if i < |head| {
        assert rows[i] == head[i];
      } else {
        assert rows[i] == tail[i - |head|];
      }
    }
    forall l | l in Listed(head) ensures l in Listed(rows) {
      var i :| 0 <= i < |head| && head[i].language == l;
      assert rows[i] == head[i];
    }
    forall l | l in Listed(tail) ensures l in Listed(rows) {
      var i :| 0 <= i < |tail| && tail[i].language == l;
      assert rows[|head| + i] == tail[i];
    }
  }

  /** Each category row shows a category of `cats` with its positive count. */
  lemma {:induction false} CategoryRowsValues(counts: map<string, nat>, cats: seq<string>)
    ensures forall i :: 0 <= i < |CategoryRows(counts, cats)| ==>
              var r := CategoryRows(counts, cats)[i];
              r.language in cats && r.language in counts && r.lines == counts[r.language] && r.lines > 0
  {
    if cats != [] {
      var tail := CategoryRows(counts, cats[1..]);
      var head: seq<Row> := if Get(counts, cats[0]) > 0 then [Row(cats[0], counts[cats[0]])] else [];
      CategoryRowsValues(counts, cats[1..]);
      assert CategoryRows(counts, cats) == head + tail;
      forall i | |head| <= i < |head + tail| ensures (head + tail)[i].language in cats {
        assert (head + tail)[i] == tail[i - |head|];
        assert tail[i - |head|].language in cats[1..];
      }
    }
  }

  /** Exactly the categories of `cats` with a positive count have a row. */
  lemma {:induction false} CategoryRowsListed(counts: map<string, nat>, cats: seq<string>)
    ensures forall c :: c in Listed(CategoryRows(counts, cats)) <==> c in cats && Get(counts, c) > 0
  {
    if cats != [] {
      var tail := CategoryRows(counts, cats[1..]);
      var head: seq<Row> := if Get(counts, cats[0]) > 0 then [Row(cats[0], counts[cats[0]])] else [];
      CategoryRowsListed(counts, cats[1..]);
      assert CategoryRows(counts, cats) == head + tail;
      ListedAppend(head, tail);
      assert Listed(head) == if Get(counts, cats[0]) > 0 then {cats[0]} else {};
      assert forall c :: c in cats <==> c == cats[0] || c in cats[1..];
    }
  }

  /** In a list without repeats, an element of the tail sits one further along in the whole. */
  lemma IndexOfTail(xs: seq<string>, x: string)
    requires forall i, j :: 0 <= i < j < |xs| ==> xs[i] != xs[j]
    requires xs != [] && x in xs[1..]
    ensures IndexOf(xs, x) == 1 + IndexOf(xs[1..], x)
  {
    var k :| 0 <= k < |xs[1..]| && xs[1..][k] == x;
    assert xs[0] != xs[k + 1];
  }

  /** Joining two runs of rows, each ordered by `before`, with every row of the first before every row of the second. */
  lemma JoinOrdered(head: seq<Row>, tail: seq<Row>, before: (string, string) -> bool)
    requires forall i, j :: 0 <= i < j < |head| ==> before(head[i].language, head[j].language)
    requires forall i, j :: 0 <= i < j < |tail| ==> before(tail[i].language, tail[j].language)
    requires forall i, j :: 0 <= i < |head| && 0 <= j < |tail| ==> before(head[i].language, tail[j].language)
    ensures forall i, j :: 0 <= i < j < |head + tail| ==> before((head + tail)[i].language, (head + tail)[j].language)
  {
    var rows := head + tail;
    forall i, j | 0 <= i < j < |rows| ensures before(rows[i].language, rows[j].language) {
      if j < |head| {
        assert rows[i] == head[i] && rows[j] == head[j];
      } else if i >= |head| {
        assert rows[i] == tail[i - |head|] && rows[j] == tail[j - |head|];
      } else {
        assert rows[i] == head[i] && rows[j] == tail[j - |head|];
      }
    }
  }

  /** Joining two runs of rows keeps the order within each. */
  lemma JoinSegments(head: seq<Row>, tail: seq<Row>, first: (string, string) -> bool, second: (string, string) -> bool)
    requires forall i, j :: 0 <= i < j < |head| ==> first(head[i].language, head[j].language)
    requires forall i, j :: 0 <= i < j < |tail| ==> second(tail[i].language, tail[j].language)
    ensures forall i, j :: 0 <= i < j < |head| ==> first((head + tail)[i].language, (head + tail)[j].language)
    ensures forall i, j :: |head| <= i < j < |head + tail| ==> second((head + tail)[i].language, (head + tail)[j].language)
  {
    var rows := head + tail;
    forall i, j | 0 <= i < j < |head| ensures first(rows[i].language, rows[j].language) {
      assert rows[i] == head[i] && rows[j] == head[j];
    }
    forall i, j | |head| <= i < j < |rows| ensures second(rows[i].language, rows[j].language) {
      assert rows[i] == tail[i - |head|] && rows[j] == tail[j - |head|];
    }
  }

  /** A property of every row of both runs holds for every row of their join. */
  lemma JoinAll(head: seq<Row>, tail: seq<Row>, p: Row -> bool)
    requires forall i :: 0 <= i < |head| ==> p(head[i])
    requires forall i :: 0 <= i < |tail| ==> p(tail[i])
    ensures forall i :: 0 <= i < |head + tail| ==> p((head + tail)[i])
  {
    var rows := head + tail;
    forall i | 0 <= i < |rows| ensures p(rows[i]) {
      if i < |head| {
        assert rows[i] == head[i];
      } else {
        assert rows[i] == tail[i - |head|];
      }
    }
  }

  /** When `p` holds of the languages of the first run and of none of the second, it marks the first run. */
  lemma JoinSplit(head: seq<Row>, tail: seq<Row>, p: string -> bool)
    requires forall i :: 0 <= i < |head| ==> p(head[i].language)
    requires forall i :: 0 <= i < |tail| ==> !p(tail[i].language)
    ensures forall i :: 0 <= i < |head + tail| ==> (p((head + tail)[i].language) <==> i < |head|)
  {
    var rows := head + tail;
    forall i | 0 <= i < |rows| ensures p(rows[i].language) <==> i < |head| {
      if i < |head| {
        assert rows[i] == head[i];
      } else {
        assert rows[i] == tail[i - |head|];
      }
    }
  }

  /** The category rows follow the order of `cats`. */
  lemma {:induction false} CategoryRowsOrdered(counts: map<string, nat>, cats: seq<string>)
    requires forall i, j :: 0 <= i < j < |cats| ==> cats[i] != cats[j]
    ensures forall i, j :: 0 <= i < j < |CategoryRows(counts, cats)| ==>
              IndexOf(cats, CategoryRows(counts, cats)[i].language) < IndexOf(cats, CategoryRows(counts, cats)[j].language)
  {
    if cats != [] {
      var rest := cats[1..];
      var tail := CategoryRows(counts, rest);
      var head: seq<Row> := if Get(counts, cats[0]) > 0 then [Row(cats[0], counts[cats[0]])] else [];
      assert forall i, j :: 0 <= i < j < |rest| ==> rest[i] != rest[j];
      CategoryRowsOrdered(counts, rest);
      var before := (a, b) => a in cats && b in cats && IndexOf(cats, a) < IndexOf(cats, b);
      forall j | 0 <= j < |tail| ensures IndexOf(cats, tail[j].language) == 1 + IndexOf(rest, tail[j].language) {
        IndexOfTail(cats, tail[j].language);
      }
      JoinOrdered(head, tail, before);
      assert CategoryRows(counts, cats) == head + tail;
    }
  }

  /** Each label row shows a non-WeChat label of `labels` with its count. */
  lemma {:induction false} LabelRowsValues(counts: map<string, nat>, labels: seq<string>)
    requires forall l :: l in labels ==> l in counts
    ensures forall i :: 0 <= i < |LabelRows(counts, labels)| ==>
              var r := LabelRows(counts, labels)[i];
              r.language in labels && r.language !in WeChatLabels() && r.lines == counts[r.language]
  {
    if labels != [] {
      var l0 := labels[0];
      var tail := LabelRows(counts, labels[1..]);
      var head: seq<Row> := if l0 !in WeChatLabels() then [Row(l0, counts[l0])] else [];
      LabelRowsValues(counts, labels[1..]);
      assert LabelRows(counts, labels) == head + tail;
      forall i | |head| <= i < |head + tail| ensures (head + tail)[i].language in labels {
        assert (head + tail)[i] == tail[i - |head|];
        assert tail[i - |head|].language in labels[1..];
      }
    }
  }

  /** Exactly the labels of `labels` that are not WeChat categories have a row. */
  lemma {:induction false} LabelRowsListed(counts: map<string, nat>, labels: seq<string>)
    requires forall l :: l in labels ==> l in counts
    ensures forall l :: l in Listed(LabelRows(counts, labels)) <==> l in labels && l !in WeChatLabels()
  {
    if labels != [] {
      var l0 := labels[0];
      var tail := LabelRows(counts, labels[1..]);
      var head: seq<Row> := if l0 !in WeChatLabels() then [Row(l0, counts[l0])] else [];
      LabelRowsListed(counts, labels[1..]);
      assert LabelRows(counts, labels) == head + tail;
      ListedAppend(head, tail);
      assert Listed(head) == if l0 !in WeChatLabels() then {l0} else {};
      assert forall l :: l in labels <==> l == l0 || l in labels[1..];
    }
  }

  /** Label rows taken from an ascending list are ascending. */
  lemma {:induction false} LabelRowsAscending(counts: map<string, nat>, labels: seq<string>)
    requires forall l :: l in labels ==> l in counts
    requires forall i, j :: 0 <= i < j < |labels| ==> LexLess(labels[i], labels[j])
    ensures forall i, j :: 0 <= i < j < |LabelRows(counts, labels)| ==>
              LexLess(LabelRows(counts, labels)[i].language, LabelRows(counts, labels)[j].language)
  {
    if labels != [] {
      var l0 := labels[0];
      var rest := labels[1..];
      var tail := LabelRows(counts, rest);
      var head: seq<Row> := if l0 !in WeChatLabels() then [Row(l0, counts[l0])] else [];
      assert forall i, j :: 0 <= i < j < |rest| ==> LexLess(rest[i], rest[j]);
      LabelRowsAscending(counts, rest);
      LabelRowsValues(counts, rest);
      forall j | 0 <= j < |tail| ensures LexLess(l0, tail[j].language) {
        var k :| 0 <= k < |rest| && rest[k] == tail[j].language;
        assert labels[k + 1] == tail[j].language;
      }
      JoinOrdered(head, tail, (a, b) => LexLess(a, b));
      assert LabelRows(counts, labels) == head + tail;
    }
  }

  /** The three WeChat labels are distinct. */
  lemma WeChatLabelsDistinct()
    ensures forall i, j :: 0 <= i < j < |WeChatLabels()| ==> WeChatLabels()[i] != WeChatLabels()[j]
  {
  }

  /** Each row shows a language of the accumulator with its count, and no language twice. */
  lemma RowsValues(counts: map<string, nat>)
    ensures forall i :: 0 <= i < |Rows(counts)| ==>
              Rows(counts)[i].language in counts && Rows(counts)[i].lines == counts[Rows(counts)[i].language]
    ensures forall i, j :: 0 <= i < j < |Rows(counts)| ==> Rows(counts)[i].language != Rows(counts)[j].language
  {
    var w := WeChatRows(counts);
    var o := OtherRows(counts);
    var labels := SortedLabels(counts.Keys);
    SortedLabelsSpec(counts.Keys);
    WeChatLabelsDistinct();
    CategoryRowsValues(counts, WeChatLabels());
    CategoryRowsOrdered(counts, WeChatLabels());
    LabelRowsValues(counts, labels);
    LabelRowsAscending(counts, labels);
    forall i | 0 <= i < |o| ensures !LexLess(o[i].language, o[i].language) {
      LexLessIrreflexive(o[i].language);
    }
    JoinAll(w, o, (r: Row) => r.language in counts && r.lines == counts[r.language]);
    JoinOrdered(w, o, (a, b) => a != b);
  }

  /**
   * A language has a row exactly when the accumulator holds it, and, for a
   * WeChat category, its count is positive; other languages with 0 lines keep
   * their row.
   */
  lemma RowsListed(counts: map<string, nat>)
    ensures forall l :: l in Listed(Rows(counts)) <==> l in counts && (l in WeChatLabels() ==> counts[l] > 0)
  {
    SortedLabelsSpec(counts.Keys);
    CategoryRowsListed(counts, WeChatLabels());
    LabelRowsListed(counts, SortedLabels(counts.Keys));
    ListedAppend(WeChatRows(counts), OtherRows(counts));
  }

  /**
   * The WeChat categories come first, in declared order; every other row
   * follows, in ascending string order.
   */
  lemma RowsOrder(counts: map<string, nat>)
    ensures forall i :: 0 <= i < |Rows(counts)| ==>
              (Rows(counts)[i].language in WeChatLabels() <==> i < |WeChatRows(counts)|)
    ensures forall i, j :: 0 <= i < j < |WeChatRows(counts)| ==>
              IndexOf(WeChatLabels(), Rows(counts)[i].language) < IndexOf(WeChatLabels(), Rows(counts)[j].language)
    ensures forall i, j :: |WeChatRows(counts)| <= i < j < |Rows(counts)| ==>
              LexLess(Rows(counts)[i].language, Rows(counts)[j].language)
  {
    var w := WeChatRows(counts);
    var o := OtherRows(counts);
    var labels := SortedLabels(counts.Keys);
    SortedLabelsSpec(counts.Keys);
    WeChatLabelsDistinct();
    CategoryRowsOrdered(counts, WeChatLabels());
    LabelRowsValues(counts, labels);
    LabelRowsAscending(counts, labels);
    var cats := WeChatLabels();
    JoinSplit(w, o, l => l in cats);
    JoinSegments(w, o, (a, b) => a in cats && b in cats && IndexOf(cats, a) < IndexOf(cats, b), (a, b) => LexLess(a, b));
  }

  /** A map whose every value is 0 sums to 0. */
  lemma {:induction false} MapSumZero(m: map<string, nat>)
    requires forall k :: k in m ==> m[k] == 0
    ensures MapSum(m) == 0
    decreases |m|
  {
    if m != map[] {
      var k :| k in m;
      MapSumRemove(m, k);
      MapSumZero(m - {k});
    }
  }

  /**
   * Rows that list distinct keys with their values, leaving out only keys whose
   * value is 0, add up to the sum of the map.
   */
  lemma {:induction false} RowsSumIsMapSum(counts: map<string, nat>, rows: seq<Row>)
    requires forall i :: 0 <= i < |rows| ==> rows[i].language in counts && rows[i].lines == counts[rows[i].language]
    requires forall i, j :: 0 <= i < j < |rows| ==> rows[i].language != rows[j].language
    requires forall k :: k in counts && k !in Listed(rows) ==> counts[k] == 0
    ensures RowsSum(rows) == MapSum(counts)
  {
    if rows == [] {
      MapSumZero(counts);
    } else {
      var l := rows[0].language;
      var rest := rows[1..];
      var smaller := counts - {l};
      forall k | k in smaller && k !in Listed(rest) ensures smaller[k] == 0 {
        forall i | 0 <= i < |rows| ensures rows[i].language != k {
          if i > 0 {
            assert rows[i] == rest[i - 1];
          }
        }
      }
      forall i | 0 <= i < |rest| ensures rest[i].language in smaller && rest[i].lines == smaller[rest[i].language] {
        assert rest[i] == rows[i + 1];
      }
      RowsSumIsMapSum(smaller, rest);
      MapSumRemove(counts, l);
    }
  }

  /** The printed total is the sum of all entries, and so the sum of the printed rows. */
  lemma TotalSpec(counts: map<string, nat>)
    ensures Total(counts) == MapSum(counts)
    ensures RowsSum(Rows(counts)) == Total(counts)
  {
    var labels := SortedLabels(counts.Keys);
    SortedLabelsSpec(counts.Keys);
    forall i, j | 0 <= i < j < |labels| ensures labels[i] != labels[j] {
      LexLessIrreflexive(labels[i]);
    }
    assert (set k | k in labels) == counts.Keys;
    SumOverListing(counts, labels);
    RowsValues(counts);
    RowsListed(counts);
    RowsSumIsMapSum(counts, Rows(counts));
  }
}
