/**
 * The help centre (frontend/src/app/help/page.tsx): the knowledge-base and FAQ search,
 * the category list, the service status colours and the "Popular Guides" list.
 *
 * The articles and FAQs are the page's constant data; here they are parameters. The
 * knowledge base is one module-level array shared by every render, and the popular-guides
 * list sorts that array itself, in place.
 */
module HelpPage {

  import opened Text
  import opened Badges
  import Dedup
  import Sorting

  datatype Article = Article(
    id: nat,
    title: string,
    category: string,
    content: string,
    tags: seq<string>,
    readTime: string,
    popularity: int)

  datatype Faq = Faq(question: string, answer: string)

  // --- the knowledge-base and FAQ search

  /** Case-insensitive substring test, as `a.toLowerCase().includes(b.toLowerCase())`. */
  predicate Includes(text: string, query: string) {
    Contains(Lower(text), Lower(query))
  }

  predicate MatchesSearch(a: Article, query: string) {
    Includes(a.title, query) || Includes(a.content, query)
    || exists k :: 0 <= k < |a.tags| && Includes(a.tags[k], query)
  }

  predicate MatchesCategory(a: Article, category: string) {
    category == "all" || a.category == category
  }

  predicate ArticleShown(query: string, category: string, a: Article) {
    MatchesSearch(a, query) && MatchesCategory(a, category)
  }

  /** `filteredKnowledge`: the articles shown for the search box and the selected category, in order. */
  function FilterKnowledge(kb: seq<Article>, query: string, category: string): (r: seq<Article>)
    ensures |r| <= |kb|
  {
    Sorting.Filter(kb, a => ArticleShown(query, category, a))
  }

  /**
   * An article is listed exactly when the query occurs in its title, its content or one of its
   * tags, ignoring case, and the category is `all` or the article's own.
   */
  lemma FilterKnowledgeExactly(kb: seq<Article>, query: string, category: string, a: Article)
    ensures a in FilterKnowledge(kb, query, category) <==>
      a in kb
      && (Includes(a.title, query) || Includes(a.content, query)
          || exists k :: 0 <= k < |a.tags| && Includes(a.tags[k], query))
      && (category == "all" || a.category == category)
  {
    Sorting.FilterIn(kb, a => ArticleShown(query, category, a), a);
  }

  /** Everything includes the empty string. */
  lemma IncludesEmpty(text: string)
    ensures Includes(text, "")
  {
    assert HasAt(Lower(text), 0, Lower(""));
  }

  /** An empty search with the category `all` lists the whole knowledge base. */
  lemma EmptySearchShowsAll(kb: seq<Article>)
    ensures FilterKnowledge(kb, "", "all") == kb
  {
    forall k | 0 <= k < |kb| ensures ArticleShown("", "all", kb[k]) {
      IncludesEmpty(kb[k].title);
    }
    Sorting.FilterAll(kb, a => ArticleShown("", "all", a));
  }

  predicate FaqShown(query: string, f: Faq) {
    Includes(f.question, query) || Includes(f.answer, query)
  }

  /** `filteredFaqs`: the questions whose question or answer contains the search, in order. */
  function FilterFaqs(faqs: seq<Faq>, query: string): (r: seq<Faq>)
    ensures |r| <= |faqs|
  {
    Sorting.Filter(faqs, f => FaqShown(query, f))
  }

  /** A FAQ is listed exactly when its question or its answer contains the search, ignoring case. */
  lemma FilterFaqsExactly(faqs: seq<Faq>, query: string, f: Faq)
    ensures f in FilterFaqs(faqs, query) <==>
      f in faqs && (Includes(f.question, query) || Includes(f.answer, query))
  {
    Sorting.FilterIn(faqs, f => FaqShown(query, f), f);
  }

  // --- the category list

  /** `knowledgeBase.map(item => item.category)`. */
  function CategoryColumn(kb: seq<Article>): (r: seq<string>)
    ensures |r| == |kb| && forall i :: 0 <= i < |kb| ==> r[i] == kb[i].category
  {
    seq(|kb|, i requires 0 <= i < |kb| => kb[i].category)
  }

  /** `["all", ...Array.from(new Set(categories))]`. */
  function Categories(kb: seq<Article>): (r: seq<string>)
    ensures r != [] && r[0] == "all"
    ensures forall i, j :: 1 <= i < j < |r| ==> r[i] != r[j]
  {
    var distinct := Dedup.DedupFrom(CategoryColumn(kb), c => c, {});
    assert forall i :: 1 <= i < |distinct| + 1 ==> (["all"] + distinct)[i] == distinct[i - 1];
    ["all"] + distinct
  }

  /** Every article's category is offered after `all`. */
  lemma CategoriesComplete(kb: seq<Article>, a: Article)
    requires a in kb
    ensures a.category in Categories(kb)[1..]
  {
    var column := CategoryColumn(kb);
    var k :| 0 <= k < |kb| && kb[k] == a;
    assert column[k] == a.category;
    Dedup.DedupKeepsEveryKey(column, c => c, {}, a.category);
    assert Categories(kb)[1..] == Dedup.DedupFrom(column, c => c, {});
  }

  /** Only categories of articles are offered after `all`. */
  lemma CategoriesSound(kb: seq<Article>, i: nat)
    requires 1 <= i < |Categories(kb)|
    ensures exists k :: 0 <= k < |kb| && kb[k].category == Categories(kb)[i]
  {
    var column := CategoryColumn(kb);
    var distinct := Dedup.DedupFrom(column, c => c, {});
    assert Categories(kb)[i] == distinct[i - 1];
    assert distinct[i - 1] in column;
  }

  /** The categories after `all` come in the order of their first article. */
  lemma CategoriesInFirstAppearanceOrder(kb: seq<Article>, i: nat, j: nat)
    requires 1 <= i < j < |Categories(kb)|
    ensures var column := CategoryColumn(kb);
      Dedup.FirstIndexWithKey(column, c => c, Categories(kb)[i])
      < Dedup.FirstIndexWithKey(column, c => c, Categories(kb)[j])
  {
    var column := CategoryColumn(kb);
    var distinct := Dedup.DedupFrom(column, c => c, {});
    assert Categories(kb)[i] == distinct[i - 1] && Categories(kb)[j] == distinct[j - 1];
    Dedup.DedupKeepsOrder(column, c => c, {}, i - 1, j - 1);
  }

  // --- getStatusColor

  /** The classes of a service status: the hue's text at shade 600 on its background at shade 100. */
  function StatusClasses(h: Hue): string {
    var n := HueName(h);
    "text-" + n + ("-600 bg-" + n + "-100")
  }

  lemma StatusClassesInjective(g: Hue, h: Hue)
    ensures StatusClasses(g) == StatusClasses(h) <==> g == h
  {
    if StatusClasses(g) == StatusClasses(h) {
      var m, n := HueName(g), HueName(h);
      NameAfterPrefix("text-", m, n, "-600 bg-" + m + "-100", "-600 bg-" + n + "-100");
      HueNameInjective(g, h);
    }
  }

  predicate IsKnownStatus(status: string) {
    status == "operational" || status == "degraded" || status == "outage"
  }

  /** `getStatusColor`: green, yellow and red for the three service states, gray for anything else. */
  function StatusColor(status: string): (r: string)
    ensures r == StatusClasses(Gray) <==> !IsKnownStatus(status)
    ensures status == "operational" ==> r == StatusClasses(Green)
    ensures status == "degraded" ==> r == StatusClasses(Yellow)
    ensures status == "outage" ==> r == StatusClasses(Red)
  {
    var h :=
      if status == "operational" then Green
      else if status == "degraded" then Yellow
      else if status == "outage" then Red
      else Gray;
    StatusClassesInjective(h, Gray);
    StatusClasses(h)
  }

  // --- Popular Guides

  /**
   * The comparator `(a, b) => b.popularity - a.popularity` as the relation "`a` may stay
   * before `b`": the comparator is not positive.
   */
  predicate ByPopularity(a: Article, b: Article) {
    b.popularity - a.popularity <= 0
  }

  lemma ByPopularityPreorder()
    ensures Sorting.Preorder(ByPopularity)
  {
  }

  /** How many guides the list shows. */
  const GuideCount := 5

  /**
   * Placing `x` after the first `j` elements of a list sorted by popularity is what the
   * specification's insertion does, when the elements before that point are at least as
   * popular as `x` and those after it are less popular.
   */
  lemma {:induction false} InsertAt(x: Article, s: seq<Article>, j: nat)
    requires Sorting.Sorted(s, ByPopularity) && j <= |s|
    requires j > 0 ==> ByPopularity(s[j - 1], x)
    requires forall k :: j <= k < |s| ==> s[k].popularity < x.popularity
    ensures Sorting.Insert(x, s, ByPopularity) == s[..j] + [x] + s[j..]
  {
    if s == [] {
    } else if j == 0 {
      assert !ByPopularity(s[0], x);
    } else {
      assert ByPopularity(s[0], x) by {
        if j > 1 {
          assert ByPopularity(s[0], s[j - 1]);
        }
      }
      var t := s[1..];
      assert Sorting.Sorted(t, ByPopularity);
      assert forall k :: j - 1 <= k < |t| ==> t[k].popularity < x.popularity by {
        forall k | j - 1 <= k < |t| ensures t[k].popularity < x.popularity {
          assert t[k] == s[k + 1];
        }
      }
      assert j - 1 > 0 ==> t[j - 2] == s[j - 1];
      InsertAt(x, t, j - 1);
      assert Sorting.Insert(x, s, ByPopularity) == [s[0]] + Sorting.Insert(x, t, ByPopularity);
      ConsSplit(s, j, x);
    }
  }

  /** Inserting into the tail, behind the head, is inserting one place further into the list. */
  lemma ConsSplit<T>(s: seq<T>, j: nat, x: T)
    requires 1 <= j <= |s|
    ensures [s[0]] + (s[1..][..j - 1] + [x] + s[1..][j - 1..]) == s[..j] + [x] + s[j..]
  {
    assert s[..j] == [s[0]] + s[1..][..j - 1];
    assert s[j..] == s[1..][j - 1..];
  }

  /** One more element of the input: the sorted prefix grows by one insertion. */
  lemma SortStep(s: seq<Article>, i: nat)
    requires i < |s|
    ensures Sorting.Sort(s[..i + 1], ByPopularity) == Sorting.Insert(s[i], Sorting.Sort(s[..i], ByPopularity), ByPopularity)
  {
    assert s[..i + 1][..i] == s[..i];
  }

  /**
   * One step of the insertion sort: `a[i]` moves left past the less popular elements of the
   * sorted prefix `a[..i]`, which shift one place right.
   */
  method InsertInto(a: array<Article>, i: nat)
    requires i < a.Length && Sorting.Sorted(a[..i], ByPopularity)
    modifies a
    ensures a[..] == Sorting.Insert(old(a[i]), old(a[..i]), ByPopularity) + old(a[i + 1..])
  {
    ghost var sorted, rest := a[..i], a[i + 1..];
    var x := a[i];
    var j := i;
    while j > 0 && a[j - 1].popularity < x.popularity
      invariant 0 <= j <= i
      invariant forall k :: 0 <= k < j ==> a[k] == sorted[k]
      invariant forall k :: j < k <= i ==> a[k] == sorted[k - 1]
      invariant forall k :: i < k < a.Length ==> a[k] == rest[k - i - 1]
      invariant forall k :: j <= k < i ==> sorted[k].popularity < x.popularity
    {
      a[j] := a[j - 1];
      j := j - 1;
    }
    a[j] := x;
    assert a[..] == sorted[..j] + [x] + sorted[j..] + rest;
    InsertAt(x, sorted, j);
  }

  /**
   * `knowledgeBase.sort((a, b) => b.popularity - a.popularity)`: an insertion sort on the
   * array itself, with the result that `Array.prototype.sort`'s stable sort gives.
   */
  method SortByPopularity(a: array<Article>)
    modifies a
    ensures a[..] == Sorting.Sort(old(a[..]), ByPopularity)
  {
    ghost var s := a[..];
    var i := 0;
    while i < a.Length
      invariant 0 <= i <= a.Length
      invariant a[..] == Sorting.Sort(s[..i], ByPopularity) + s[i..]
    {
      ghost var before := a[..];
      SortedByPopularity(s[..i]);
      SplitAt(before, Sorting.Sort(s[..i], ByPopularity), s[i..]);
      InsertInto(a, i);
      SortAdvance(s, i, before, a[..]);
      i := i + 1;
    }
    assert s[..a.Length] == s && s[a.Length..] == [];
  }

  lemma SortedByPopularity(t: seq<Article>)
    ensures Sorting.Sorted(Sorting.Sort(t, ByPopularity), ByPopularity)
  {
    ByPopularityPreorder();
    Sorting.SortSorted(t, ByPopularity);
  }

  /** The array after one insertion step holds the sort of one more element of the input. */
  lemma SortAdvance(s: seq<Article>, i: nat, before: seq<Article>, after: seq<Article>)
    requires i < |s| && before == Sorting.Sort(s[..i], ByPopularity) + s[i..]
    requires after == Sorting.Insert(before[i], before[..i], ByPopularity) + before[i + 1..]
    ensures after == Sorting.Sort(s[..i + 1], ByPopularity) + s[i + 1..]
  {
    SplitAt(before, Sorting.Sort(s[..i], ByPopularity), s[i..]);
    SortStep(s, i);
  }

  /** The parts of a concatenation, read back by position. */
  lemma SplitAt<T>(whole: seq<T>, p: seq<T>, q: seq<T>)
    requires whole == p + q && q != []
    ensures whole[..|p|] == p && whole[|p|] == q[0] && whole[|p| + 1..] == q[1..]
  {
  }

  function Min(a: int, b: int): int {
    if a < b then a else b
  }

  /** The "Popular Guides" list: the shared array is sorted in place and its first five shown. */
  method PopularGuides(kb: array<Article>) returns (guides: seq<Article>)
    modifies kb
    ensures kb[..] == Sorting.Sort(old(kb[..]), ByPopularity)
    ensures guides == kb[..Min(GuideCount, kb.Length)]
  {
    SortByPopularity(kb);
    guides := kb[..Min(GuideCount, kb.Length)];
  }

  /** The first `GuideCount` articles of a list sorted by popularity. */
  function TopGuides(kb: seq<Article>): (r: seq<Article>) {
    Sorting.Sort(kb, ByPopularity)[..Min(GuideCount, |kb|)]
  }

  /**
   * At most five guides are shown, from the most popular down, and none of the articles left
   * out is more popular than any shown; the sort only reorders the knowledge base.
   */
  lemma TopGuidesSpec(kb: seq<Article>)
    ensures var sorted, top := Sorting.Sort(kb, ByPopularity), TopGuides(kb);
      && |top| <= GuideCount && (|kb| >= GuideCount ==> |top| == GuideCount)
      && multiset(sorted) == multiset(kb)
      && (forall i, j :: 0 <= i < j < |top| ==> top[i].popularity >= top[j].popularity)
      && (forall i, j :: 0 <= i < |top| <= j < |sorted| ==> top[i].popularity >= sorted[j].popularity)
  {
    ByPopularityPreorder();
    Sorting.SortSorted(kb, ByPopularity);
  }

  /** Guides of equal popularity keep their order in the knowledge base. */
  lemma PopularityTiesKeepOrder(kb: seq<Article>, c: Article)
    ensures Sorting.Filter(Sorting.Sort(kb, ByPopularity), a => Sorting.Tied(ByPopularity, a, c))
         == Sorting.Filter(kb, a => Sorting.Tied(ByPopularity, a, c))
  {
    ByPopularityPreorder();
    Sorting.SortStable(kb, ByPopularity, c);
  }

  /**
   * Every render sorts the shared array again; from the second render on it is already sorted,
   * so the order no longer changes.
   */
  lemma ResortChangesNothing(kb: seq<Article>)
    ensures Sorting.Sort(Sorting.Sort(kb, ByPopularity), ByPopularity) == Sorting.Sort(kb, ByPopularity)
  {
    ByPopularityPreorder();
    Sorting.SortSorted(kb, ByPopularity);
    Sorting.SortOfSorted(Sorting.Sort(kb, ByPopularity), ByPopularity);
  }
}
