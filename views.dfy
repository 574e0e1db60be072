/** The two derived views of the link list: `filterLinks` (by status and by website)
    and the `groupedLinks` fold that buckets the filtered links by their date text. */
module Views {
  import Sequences
  import Strings
  import Priority
  import opened Links

  /** The status filters that the `switch` in `filterLinks` singles out; any other value,
      `"all"` and `"none"` included, falls through to its default branch. */
  predicate IsStatusFilter(activeFilter: string)
  {
    activeFilter == Priority.PENDING || activeFilter == Priority.DONE || activeFilter == Priority.REMAINING
  }

  /** The website part of the test: an empty website text matches every link, otherwise
      the link's host name must contain the lower-cased text. */
  predicate DomainMatches(filterDomain: string, host: string -> string, l: Link)
  {
    filterDomain == "" || Strings.Contains(host(l.url), Strings.ToLower(filterDomain))
  }

  /** The test one link must pass to be shown. */
  predicate Shown(activeFilter: string, filterDomain: string, host: string -> string, l: Link)
  {
    if IsStatusFilter(activeFilter) then l.priority == activeFilter && DomainMatches(filterDomain, host, l)
    else DomainMatches(filterDomain, host, l)
  }

  function ShownFn(activeFilter: string, filterDomain: string, host: string -> string): Link -> bool
  {
    (l: Link) => Shown(activeFilter, filterDomain, host, l)
  }

  /** `filterLinks`: the links that pass the status and website filters, in list order.
      `host` stands for `getUrlHostname`. */
  function FilterLinks(links: seq<Link>, activeFilter: string, filterDomain: string, host: string -> string): (r: seq<Link>)
    ensures forall i :: 0 <= i < |r| ==> r[i] in links
    ensures forall i :: 0 <= i < |links| ==> (links[i] in r <==> Shown(activeFilter, filterDomain, host, links[i]))
    ensures Sequences.IsSubsequence(r, links)
    ensures IsStatusFilter(activeFilter) ==> forall i :: 0 <= i < |r| ==> r[i].priority == activeFilter
    ensures filterDomain != "" ==>
      forall i :: 0 <= i < |r| ==> Strings.Contains(host(r[i].url), Strings.ToLower(filterDomain))
  {
    Sequences.FilterIsSubsequence(ShownFn(activeFilter, filterDomain, host), links);
    Sequences.Filter(ShownFn(activeFilter, filterDomain, host), links)
  }

  /** With no status filter and no website text, every link is shown, in the same order. */
  lemma FilterLinksShowsAll(links: seq<Link>, activeFilter: string, host: string -> string)
    requires !IsStatusFilter(activeFilter)
    ensures FilterLinks(links, activeFilter, "", host) == links
  {
    Sequences.FilterAllPass(ShownFn(activeFilter, "", host), links);
  }

  /** The website filter ignores the case of the typed text: lower-casing it first shows
      the same links. */
  lemma FilterLinksCaseInsensitive(links: seq<Link>, activeFilter: string, filterDomain: string, host: string -> string)
    ensures FilterLinks(links, activeFilter, Strings.ToLower(filterDomain), host) ==
      FilterLinks(links, activeFilter, filterDomain, host)
  {
    Strings.ToLowerIdempotent(filterDomain);
    var lower := Strings.ToLower(filterDomain);
    assert (lower == "") == (filterDomain == "");
    Sequences.FilterAgree(ShownFn(activeFilter, lower, host), ShownFn(activeFilter, filterDomain, host), links);
  }

  /** Each shown link is shown as often as it occurs in the list. */
  lemma FilterLinksCount(links: seq<Link>, activeFilter: string, filterDomain: string, host: string -> string, l: Link)
    ensures multiset(FilterLinks(links, activeFilter, filterDomain, host))[l] ==
      if Shown(activeFilter, filterDomain, host, l) then multiset(links)[l] else 0
  {
    Sequences.FilterCount(ShownFn(activeFilter, filterDomain, host), links);
  }

  /** The links of one date, in the order they were met. */
  datatype Bucket = Bucket(date: string, links: seq<Link>)

  function Keys(g: seq<Bucket>): seq<string>
  {
    seq(|g|, i requires 0 <= i < |g| => g[i].date)
  }

  ghost function Dates(s: seq<Link>): seq<string>
  {
    seq(|s|, i requires 0 <= i < |s| => s[i].date)
  }

  function DateIs(date: string): Link -> bool
  {
    (l: Link) => l.date == date
  }

  /** One step of the `reduce`: append the link to the bucket of its date, opening a new
      bucket at the end when the date is met for the first time. */
  function Push(g: seq<Bucket>, l: Link): seq<Bucket>
  {
    var k := Sequences.IndexOf(Keys(g), l.date);
    if k < 0 then g + [Bucket(l.date, [l])]
    else g[k := Bucket(g[k].date, g[k].links + [l])]
  }

  /** `groupedLinks` before `Object.entries`: the buckets built by folding `Push` over the
      list from left to right. */
  function Group(s: seq<Link>): seq<Bucket>
    decreases |s|
  {
    if s == [] then [] else Push(Group(s[..|s| - 1]), s[|s| - 1])
  }

  /** The buckets' links one after another, as the page lists them. */
  function Flatten(g: seq<Bucket>): seq<Link>
  {
    if g == [] then [] else g[0].links + Flatten(g[1..])
  }

  /** Each key comes before every later key in the order of first occurrence in `dates`. */
  ghost predicate FirstSeenOrder(keys: seq<string>, dates: seq<string>)
  {
    forall i, j :: 0 <= i < j < |keys| ==> Sequences.IndexOf(dates, keys[i]) < Sequences.IndexOf(dates, keys[j])
  }

  /** `Push` keeps the keys, and adds the link's date at the end when it is new. */
  lemma PushKeys(g: seq<Bucket>, l: Link)
    ensures Keys(Push(g, l)) == if l.date in Keys(g) then Keys(g) else Keys(g) + [l.date]
  {
  }

  /** Meeting one more date keeps the keys in first-seen order and in step with the dates. */
  lemma KeysAppend(keys: seq<string>, dates: seq<string>, d: string)
    requires forall k :: k in keys <==> k in dates
    requires FirstSeenOrder(keys, dates)
    ensures var keys' := if d in keys then keys else keys + [d];
      (forall k :: k in keys' <==> k in dates + [d]) && FirstSeenOrder(keys', dates + [d])
  {
    var keys' := if d in keys then keys else keys + [d];
    forall i | 0 <= i < |keys| ensures Sequences.IndexOf(dates + [d], keys[i]) == Sequences.IndexOf(dates, keys[i]) {
      Sequences.IndexOfAppend(dates, d, keys[i]);
    }
    if d !in keys {
      Sequences.IndexOfAppend(dates, d, d);
      assert keys'[|keys|] == d;
    }
  }

  /** The bucket keys are exactly the dates of the list, each once, ordered by where the
      date first occurs in the list. */
  lemma {:induction false} GroupKeys(s: seq<Link>)
    ensures forall d :: d in Keys(Group(s)) <==> d in Dates(s)
    ensures FirstSeenOrder(Keys(Group(s)), Dates(s))
    ensures forall i, j :: 0 <= i < j < |Group(s)| ==> Group(s)[i].date != Group(s)[j].date
  {
    if s != [] {
      var p, x := s[..|s| - 1], s[|s| - 1];
      GroupKeys(p);
      assert Dates(s) == Dates(p) + [x.date];
      PushKeys(Group(p), x);
      KeysAppend(Keys(Group(p)), Dates(p), x.date);
    }
    var keys := Keys(Group(s));
    forall i, j | 0 <= i < j < |Group(s)| ensures Group(s)[i].date != Group(s)[j].date {
      assert keys[i] == Group(s)[i].date && keys[j] == Group(s)[j].date;
    }
  }

  /** Each bucket holds exactly the links of its date, in list order. */
  lemma {:induction false} GroupBuckets(s: seq<Link>)
    ensures forall i :: 0 <= i < |Group(s)| ==> Group(s)[i].links == Sequences.Filter(DateIs(Group(s)[i].date), s)
  {
    if s != [] {
      var p, x := s[..|s| - 1], s[|s| - 1];
      var gp, g := Group(p), Group(s);
      GroupBuckets(p);
      GroupKeys(p);
      assert s == p + [x];
      assert g == Push(gp, x);
      var k := Sequences.IndexOf(Keys(gp), x.date);
      forall i | 0 <= i < |g| ensures g[i].links == Sequences.Filter(DateIs(g[i].date), s) {
        Sequences.FilterAppend(DateIs(g[i].date), p, x);
        if i < |gp| {
          assert g[i].date == gp[i].date;
          if i != k {
            assert Keys(gp)[i] == gp[i].date;
            assert gp[i].date != x.date;
          }
        } else {
          assert x.date !in Dates(p);
          forall j | 0 <= j < |p| ensures !DateIs(x.date)(p[j]) {
            assert Dates(p)[j] == p[j].date;
          }
          Sequences.FilterNonePass(DateIs(x.date), p);
        }
      }
    }
  }

  lemma {:induction false} FlattenUpdate(g: seq<Bucket>, k: nat, b: Bucket)
    requires k < |g|
    ensures multiset(Flatten(g[k := b])) + multiset(g[k].links) == multiset(Flatten(g)) + multiset(b.links)
  {
    var g' := g[k := b];
    if k == 0 {
      assert g'[1..] == g[1..];
    } else {
      FlattenUpdate(g[1..], k - 1, b);
      assert g'[0] == g[0] && g'[1..] == g[1..][k - 1 := b];
      calc {
        multiset(Flatten(g')) + multiset(g[k].links);
        multiset(g[0].links) + multiset(Flatten(g'[1..])) + multiset(g[k].links);
        { assert g[1..][k - 1] == g[k]; }
        multiset(g[0].links) + (multiset(Flatten(g[1..][k - 1 := b])) + multiset(g[1..][k - 1].links));
        multiset(g[0].links) + (multiset(Flatten(g[1..])) + multiset(b.links));
        multiset(Flatten(g)) + multiset(b.links);
      }
    }
  }

  lemma {:induction false} FlattenAppend(g: seq<Bucket>, b: Bucket)
    ensures Flatten(g + [b]) == Flatten(g) + b.links
  {
    if g == [] {
      assert Flatten([b]) == b.links + Flatten([]);
    } else {
      FlattenAppend(g[1..], b);
      assert (g + [b])[1..] == g[1..] + [b];
    }
  }

  /** One `Push` adds exactly its link to the buckets' contents. */
  lemma PushPermutation(g: seq<Bucket>, l: Link)
    ensures multiset(Flatten(Push(g, l))) == multiset(Flatten(g)) + multiset{l}
  {
    var k := Sequences.IndexOf(Keys(g), l.date);
    if k < 0 {
      FlattenAppend(g, Bucket(l.date, [l]));
    } else {
      var b := Bucket(g[k].date, g[k].links + [l]);
      assert Push(g, l) == g[k := b];
      FlattenUpdate(g, k, b);
      assert multiset(b.links) == multiset(g[k].links) + multiset{l};
      var before, after := multiset(Flatten(g)), multiset(Flatten(g[k := b]));
      assert after + multiset(g[k].links) == (before + multiset{l}) + multiset(g[k].links);
      forall x ensures after[x] == (before + multiset{l})[x] {
        assert (after + multiset(g[k].links))[x] == ((before + multiset{l}) + multiset(g[k].links))[x];
      }
    }
  }

  /** The buckets together hold every link of the list exactly as often as it occurs, so the
      bucket sizes add up to the length of the list. */
  lemma {:induction false} GroupPermutation(s: seq<Link>)
    ensures multiset(Flatten(Group(s))) == multiset(s)
    ensures |Flatten(Group(s))| == |s|
  {
    if s != [] {
      var p, x := s[..|s| - 1], s[|s| - 1];
      assert s == p + [x];
      assert multiset(s) == multiset(p) + multiset{x};
      GroupPermutation(p);
      PushPermutation(Group(p), x);
      assert Group(s) == Push(Group(p), x);
    }
    var flat := Flatten(Group(s));
    assert |multiset(flat)| == |flat| && |multiset(s)| == |s|;
  }

  /** Every link lands in one bucket, the one keyed by its own date, and in no other. */
  lemma {:induction false} LinkInItsBucket(s: seq<Link>, l: Link)
    requires l in s
    ensures exists i :: 0 <= i < |Group(s)| && Group(s)[i].date == l.date && l in Group(s)[i].links
    ensures forall i :: 0 <= i < |Group(s)| && l in Group(s)[i].links ==> Group(s)[i].date == l.date
  {
    var g := Group(s);
    GroupKeys(s);
    GroupBuckets(s);
    var n :| 0 <= n < |s| && s[n] == l;
    assert Dates(s)[n] == l.date;
    var i := Sequences.IndexOf(Keys(g), l.date);
    assert g[i].date == l.date;
    Sequences.FilterMember(DateIs(l.date), s, l);
    forall j | 0 <= j < |g| && l in g[j].links ensures g[j].date == l.date {
      Sequences.FilterMember(DateIs(g[j].date), s, l);
    }
  }

  /** Links all added on one day form a single bucket holding all of them in list order. */
  lemma {:induction false} SameDayOneBucket(s: seq<Link>, date: string)
    requires s != []
    requires forall i :: 0 <= i < |s| ==> s[i].date == date
    ensures Group(s) == [Bucket(date, s)]
  {
    var p, x := s[..|s| - 1], s[|s| - 1];
    if p == [] {
      assert s == [x];
    } else {
      SameDayOneBucket(p, date);
      assert Keys(Group(p)) == [date];
      assert Sequences.IndexOf([date], date) == 0;
      assert s == p + [x];
    }
  }
}
