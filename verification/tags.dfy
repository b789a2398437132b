/**
 * Keyword-based market tagging (lib/shared/tags.ts): the keyword table,
 * tag detection from a title, manual add/remove overrides, and the sorted
 * union of every known tag.
 */
module Tags {
  import opened Common
  import opened Text

  /** A manual override for one market: tags to add and tags to remove. */
  datatype TagOverride = TagOverride(conditionId: string, addTags: seq<string>, removeTags: seq<string>)

  /** The number of entries of KEYWORD_TAG_MAP. */
  const KeywordCount: nat := 67

  /** Entry `i` of KEYWORD_TAG_MAP (keyword, tags), in the object's key order. Every keyword is lower-case. */
  function KeywordEntry(i: nat): (string, seq<string>)
    requires i < KeywordCount
  {
    match i
    case 0 => ("bitcoin", ["crypto", "btc"])
    case 1 => ("btc", ["crypto", "btc"])
    case 2 => ("ethereum", ["crypto", "eth"])
    case 3 => ("eth", ["crypto", "eth"])
    case 4 => ("solana", ["crypto", "sol"])
    case 5 => ("xrp", ["crypto", "xrp"])
    case 6 => ("dogecoin", ["crypto", "doge"])
    case 7 => ("doge", ["crypto", "doge"])
    case 8 => ("crypto", ["crypto"])
    case 9 => ("blockchain", ["crypto"])
    case 10 => ("trump", ["politics"])
    case 11 => ("biden", ["politics"])
    case 12 => ("election", ["politics"])
    case 13 => ("president", ["politics"])
    case 14 => ("congress", ["politics"])
    case 15 => ("senate", ["politics"])
    case 16 => ("democrat", ["politics"])
    case 17 => ("republican", ["politics"])
    case 18 => ("governor", ["politics"])
    case 19 => ("vote", ["politics"])
    case 20 => ("primary", ["politics"])
    case 21 => ("nba", ["sports", "basketball"])
    case 22 => ("nfl", ["sports", "football"])
    case 23 => ("mlb", ["sports", "baseball"])
    case 24 => ("nhl", ["sports", "hockey"])
    case 25 => ("soccer", ["sports", "soccer"])
    case 26 => ("premier", ["sports", "soccer"])
    case 27 => ("champions league", ["sports", "soccer"])
    case 28 => ("ufc", ["sports", "mma"])
    case 29 => ("tennis", ["sports", "tennis"])
    case 30 => ("super bowl", ["sports"])
    case 31 => ("superbowl", ["sports"])
    case 32 => ("playoff", ["sports"])
    case 33 => ("championship", ["sports"])
    case 34 => ("up or down", ["directional"])
    case 35 => ("above or below", ["directional"])
    case 36 => ("higher or lower", ["directional"])
    case 37 => ("over or under", ["directional"])
    case 38 => ("5-minute", ["short-term"])
    case 39 => ("5 minute", ["short-term"])
    case 40 => ("1-minute", ["short-term"])
    case 41 => ("1 minute", ["short-term"])
    case 42 => ("hourly", ["short-term"])
    case 43 => ("daily", ["medium-term"])
    case 44 => ("weekly", ["medium-term"])
    case 45 => ("monthly", ["long-term"])
    case 46 => ("fed", ["economy"])
    case 47 => ("interest rate", ["economy"])
    case 48 => ("inflation", ["economy"])
    case 49 => ("gdp", ["economy"])
    case 50 => ("stock market", ["economy", "stocks"])
    case 51 => ("stock price", ["economy", "stocks"])
    case 52 => ("s&p", ["economy", "stocks"])
    case 53 => ("nasdaq", ["economy", "stocks"])
    case 54 => ("dow jones", ["economy", "stocks"])
    case 55 => ("oscar", ["entertainment"])
    case 56 => ("grammy", ["entertainment"])
    case 57 => ("emmy", ["entertainment"])
    case 58 => ("movie", ["entertainment"])
    case 59 => ("box office", ["entertainment"])
    case 60 => ("ai", ["tech"])
    case 61 => ("spacex", ["tech", "space"])
    case 62 => ("nasa", ["tech", "space"])
    case 63 => ("launch", ["tech", "space"])
    case 64 => ("hurricane", ["weather"])
    case 65 => ("temperature", ["weather"])
    case _ => ("weather", ["weather"])
  }

  /** `Object.keys(KEYWORD_TAG_MAP)`. */
  function Keywords(): (r: seq<string>)
    ensures |r| == KeywordCount
    ensures forall i :: 0 <= i < |r| ==> r[i] == KeywordEntry(i).0
  {
    seq(KeywordCount, (i: nat) requires i < KeywordCount => KeywordEntry(i).0)
  }

  /** The tags of the first entry from index `i` on whose keyword is `k`. */
  function LookupFrom(i: nat, k: string): seq<string>
    requires i <= KeywordCount
    decreases KeywordCount - i
  {
    if i == KeywordCount then []
    else if KeywordEntry(i).0 == k then KeywordEntry(i).1
    else LookupFrom(i + 1, k)
  }

  /** `KEYWORD_TAG_MAP[k]`. */
  function TagsFor(k: string): seq<string> {
    LookupFrom(0, k)
  }

  // ---------------------------------------------------------------------------
  // SORTED_KEYWORDS: keys sorted by length, longest first (a stable sort).
  // ---------------------------------------------------------------------------

  function InsertByLength(x: string, s: seq<string>): seq<string> {
    if s == [] || |s[0]| <= |x| then [x] + s else [s[0]] + InsertByLength(x, s[1..])
  }

  function SortByLengthDesc(s: seq<string>): seq<string> {
    if s == [] then [] else InsertByLength(s[0], SortByLengthDesc(s[1..]))
  }

  ghost predicate LongestFirst(s: seq<string>) {
    forall i, j :: 0 <= i < j < |s| ==> |s[i]| >= |s[j]|
  }

  lemma {:induction false} InsertByLengthCorrect(x: string, s: seq<string>)
    requires LongestFirst(s)
    ensures LongestFirst(InsertByLength(x, s))
    ensures multiset(InsertByLength(x, s)) == multiset(s) + multiset{x}
  {
    InsertByLengthSorted(x, s);
    InsertByLengthCounts(x, s);
  }

  lemma {:induction false} InsertByLengthCounts(x: string, s: seq<string>)
    ensures multiset(InsertByLength(x, s)) == multiset(s) + multiset{x}
  {
    if s != [] && |s[0]| > |x| {
      InsertByLengthCounts(x, s[1..]);
      assert s == [s[0]] + s[1..];
    }
  }

  lemma {:induction false} InsertByLengthElems(x: string, s: seq<string>)
    ensures forall y :: y in InsertByLength(x, s) ==> y == x || y in s
  {
    if s != [] && |s[0]| > |x| {
      InsertByLengthElems(x, s[1..]);
    }
  }

  lemma {:induction false} InsertByLengthSorted(x: string, s: seq<string>)
    requires LongestFirst(s)
    ensures LongestFirst(InsertByLength(x, s))
  {
    if s != [] && |s[0]| > |x| {
      var t := InsertByLength(x, s[1..]);
      InsertByLengthSorted(x, s[1..]);
      InsertByLengthElems(x, s[1..]);
      forall k | 0 <= k < |t| ensures |s[0]| >= |t[k]| {
        assert t[k] in t;
        if t[k] != x {
          var j :| 0 <= j < |s[1..]| && s[1..][j] == t[k];
          assert s[j + 1] == t[k];
        }
      }
      assert InsertByLength(x, s) == [s[0]] + t;
    }
  }

  /** Sorting by length keeps exactly the same keywords and puts longer ones first. */
  lemma {:induction false} SortByLengthDescCorrect(s: seq<string>)
    ensures LongestFirst(SortByLengthDesc(s))
    ensures multiset(SortByLengthDesc(s)) == multiset(s)
  {
    if s != [] {
      SortByLengthDescCorrect(s[1..]);
      InsertByLengthCorrect(s[0], SortByLengthDesc(s[1..]));
      assert s == [s[0]] + s[1..];
    }
  }

  /** SORTED_KEYWORDS. */
  function SortedKeywords(): seq<string> {
    SortByLengthDesc(Keywords())
  }

  /** SORTED_KEYWORDS is ordered by non-increasing length and is a permutation of the map's keys. */
  lemma SortedKeywordsSpec()
    ensures LongestFirst(SortedKeywords())
    ensures multiset(SortedKeywords()) == multiset(Keywords())
    ensures forall k :: k in SortedKeywords() <==> k in Keywords()
  {
    SortByLengthDescCorrect(Keywords());
    forall k ensures k in SortedKeywords() <==> k in Keywords() {
      assert k in SortedKeywords() <==> k in multiset(SortedKeywords());
      assert k in Keywords() <==> k in multiset(Keywords());
    }
  }

  // ---------------------------------------------------------------------------
  // detectTags
  // ---------------------------------------------------------------------------

  /** The tag set after the first `n` keywords of `kws` have been tried against `lower`. */
  function DetectUpTo(lower: string, kws: seq<string>, n: nat): seq<string>
    requires n <= |kws|
  {
    if n == 0 then []
    else
      var k := kws[n - 1];
      if Contains(lower, k) then AddAll(DetectUpTo(lower, kws, n - 1), TagsFor(k))
      else DetectUpTo(lower, kws, n - 1)
  }

  /** The tags `detectTags(title)` returns. */
  function Detected(title: string): seq<string> {
    var kws := SortedKeywords();
    DetectUpTo(Lower(title), kws, |kws|)
  }

  /** Some keyword occurring in `lower` maps to `t`. */
  ghost predicate Matches(lower: string, t: string) {
    exists k :: k in Keywords() && Contains(lower, k) && t in TagsFor(k)
  }

  lemma {:induction false} DetectUpToSpec(lower: string, kws: seq<string>, n: nat)
    requires n <= |kws|
    ensures NoDup(DetectUpTo(lower, kws, n))
    ensures forall t :: t in DetectUpTo(lower, kws, n) <==>
      exists i :: 0 <= i < n && Contains(lower, kws[i]) && t in TagsFor(kws[i])
  {
    if n > 0 {
      DetectUpToSpec(lower, kws, n - 1);
    }
  }

  /** detectTags output has no duplicates, and `t` is in it iff some keyword occurring
      in the lower-cased title maps to `t`. */
  lemma DetectedSpec(title: string)
    ensures NoDup(Detected(title))
    ensures forall t :: t in Detected(title) <==> Matches(Lower(title), t)
  {
    var lower := Lower(title);
    var sk := SortedKeywords();
    DetectUpToSpec(lower, sk, |sk|);
    SortedKeywordsSpec();
    forall t ensures t in Detected(title) <==> Matches(lower, t) {
      if t in Detected(title) {
        var i :| 0 <= i < |sk| && Contains(lower, sk[i]) && t in TagsFor(sk[i]);
        assert sk[i] in sk;
      }
      if Matches(lower, t) {
        var k :| k in Keywords() && Contains(lower, k) && t in TagsFor(k);
        assert k in sk;
        var i :| 0 <= i < |sk| && sk[i] == k;
      }
    }
  }

  /** Adds each tag of `kwTags` to the Set `tags`. */
  method AddTags(tags: seq<string>, kwTags: seq<string>) returns (r: seq<string>)
    ensures r == AddAll(tags, kwTags)
    ensures NoDup(tags) ==> NoDup(r)
    ensures Elems(r) == Elems(tags) + Elems(kwTags)
  {
    r := tags;
    var j := 0;
    while j < |kwTags|
      invariant 0 <= j <= |kwTags|
      invariant r == AddAll(tags, kwTags[..j])
    {
      assert kwTags[..j + 1][..j] == kwTags[..j];
      r := SetAdd(r, kwTags[j]);
      j := j + 1;
    }
    assert kwTags[..j] == kwTags;
    assert forall x :: x in Elems(r) <==> x in Elems(tags) + Elems(kwTags);
  }

  /** The loop of detectTags over a keyword list. */
  method DetectOver(lower: string, keywords: seq<string>) returns (tags: seq<string>)
    ensures tags == DetectUpTo(lower, keywords, |keywords|)
  {
    tags := [];
    var i := 0;
    while i < |keywords|
      invariant 0 <= i <= |keywords|
      invariant tags == DetectUpTo(lower, keywords, i)
    {
      var keyword := keywords[i];
      ghost var next := DetectUpTo(lower, keywords, i + 1);
      if Contains(lower, keyword) {
        assert next == AddAll(tags, TagsFor(keyword));
        tags := AddTags(tags, TagsFor(keyword));
      } else {
        assert next == tags;
      }
      i := i + 1;
    }
  }

  /** detectTags: tries every keyword, longest first, adding its tags to a Set. */
  method DetectTags(title: string) returns (tags: seq<string>)
    ensures tags == Detected(title)
    ensures NoDup(tags)
    ensures forall t :: t in tags <==> Matches(Lower(title), t)
  {
    tags := DetectOver(Lower(title), SortedKeywords());
    DetectedSpec(title);
  }

  // ---------------------------------------------------------------------------
  // resolveTags
  // ---------------------------------------------------------------------------

  function NotRemoved(removeTags: seq<string>): string -> bool {
    t => t !in removeTags
  }

  /** (auto - removeTags), then every add tag not already present, in first-seen order. */
  function ApplyOverride(auto: seq<string>, o: TagOverride): seq<string> {
    AddAll(Filter(auto, NotRemoved(o.removeTags)), AddAll([], o.addTags))
  }

  /** The tags `resolveTags(title, override)` returns. */
  function Resolved(title: string, o: Option<TagOverride>): seq<string> {
    match o
    case None => Detected(title)
    case Some(ov) => ApplyOverride(Detected(title), ov)
  }

  /** Adding a de-duplicated list is the same as adding the list itself. */
  lemma {:induction false} AddAllDedup(f: seq<string>, xs: seq<string>)
    ensures AddAll(f, AddAll([], xs)) == AddAll(f, xs)
  {
    if xs != [] {
      var init := xs[..|xs| - 1];
      var last := xs[|xs| - 1];
      AddAllDedup(f, init);
      var d := AddAll([], init);
      if last in d {
        assert AddAll([], xs) == d;
      } else {
        var d' := d + [last];
        assert AddAll([], xs) == d';
        assert d'[..|d'| - 1] == d;
      }
    }
  }

  /** What resolveTags promises about its output. */
  lemma ApplyOverrideSpec(auto: seq<string>, o: TagOverride)
    requires NoDup(auto)
    ensures var r := ApplyOverride(auto, o);
      var kept := Filter(auto, NotRemoved(o.removeTags));
      && NoDup(r)
      && (forall t :: t in o.addTags ==> t in r)
      && (forall t :: t in auto && t in o.removeTags && t !in o.addTags ==> t !in r)
      && (forall t :: t in r <==> (t in auto && t !in o.removeTags) || t in o.addTags)
      && r[..|kept|] == kept
      && (forall t :: t in r[|kept|..] ==> t in o.addTags && t !in kept)
  {
    var kept := Filter(auto, NotRemoved(o.removeTags));
    FilterNoDup(auto, NotRemoved(o.removeTags));
    AddAllDedup(kept, o.addTags);
    AddAllSuffix(kept, o.addTags);
  }

  /** Everything AddAll appends comes from `xs` and was not already there. */
  lemma {:induction false} AddAllSuffix(s: seq<string>, xs: seq<string>)
    requires NoDup(s)
    ensures forall t :: t in AddAll(s, xs)[|s|..] ==> t in xs && t !in s
  {
    if xs != [] {
      var init := xs[..|xs| - 1];
      AddAllSuffix(s, init);
      var a := AddAll(s, init);
      var last := xs[|xs| - 1];
      if last !in a {
        assert AddAll(s, xs)[|s|..] == a[|s|..] + [last];
      }
    }
  }

  /** resolveTags with no override is detectTags. */
  lemma ResolvedNoOverride(title: string)
    ensures Resolved(title, None) == Detected(title)
  {
  }

  /** resolveTags: filters the detected tags, then pushes the de-duplicated add tags
      that are not already present. */
  method ResolveTags(title: string, o: Option<TagOverride>) returns (r: seq<string>)
    ensures r == Resolved(title, o)
    ensures NoDup(r)
    ensures o.Some? ==> forall t :: t in o.value.addTags ==> t in r
  {
    var auto := DetectTags(title);
    if o.None? {
      return auto;
    }
    var ov := o.value;
    var filtered := Filter(auto, NotRemoved(ov.removeTags));
    r := PushMissing(filtered, AddAll([], ov.addTags));
    ApplyOverrideSpec(auto, ov);
  }

  /** The loop of resolveTags: pushes each tag of `addSet` that `filtered` does not hold yet. */
  method PushMissing(filtered: seq<string>, addSet: seq<string>) returns (r: seq<string>)
    ensures r == AddAll(filtered, addSet)
  {
    r := filtered;
    var i := 0;
    while i < |addSet|
      invariant 0 <= i <= |addSet|
      invariant r == AddAll(filtered, addSet[..i])
    {
      assert addSet[..i + 1][..i] == addSet[..i];
      if addSet[i] !in r {
        r := r + [addSet[i]];
      }
      i := i + 1;
    }
    assert addSet[..i] == addSet;
  }

  // ---------------------------------------------------------------------------
  // getAllKnownTags
  // ---------------------------------------------------------------------------

  function InsertSorted(x: string, s: seq<string>): (r: seq<string>)
    ensures multiset(r) == multiset(s) + multiset{x}
    ensures forall y :: y in r <==> y == x || y in s
  {
    if s == [] || !StrLt(s[0], x) then [x] + s
    else
      assert s == [s[0]] + s[1..];
      [s[0]] + InsertSorted(x, s[1..])
  }

  /** `Array.prototype.sort()` with the default string comparison (an insertion sort). */
  function SortStrings(s: seq<string>): seq<string> {
    if s == [] then [] else InsertSorted(s[0], SortStrings(s[1..]))
  }

  ghost predicate Ascending(s: seq<string>) {
    forall i, j :: 0 <= i < j < |s| ==> StrLt(s[i], s[j])
  }

  lemma {:induction false} InsertSortedAscending(x: string, s: seq<string>)
    requires Ascending(s) && x !in s
    ensures Ascending(InsertSorted(x, s))
  {
    if s == [] {
    } else if !StrLt(s[0], x) {
      StrLtTotal(s[0], x);
      forall j | 0 < j < |s| ensures StrLt(x, s[j]) {
        StrLtTrans(x, s[0], s[j]);
      }
    } else {
      InsertSortedAscending(x, s[1..]);
      var t := InsertSorted(x, s[1..]);
      forall k | 0 <= k < |t| ensures StrLt(s[0], t[k]) {
        assert t[k] in t;
      }
    }
  }

  /** Sorting a duplicate-free list gives an ascending permutation of it. */
  lemma {:induction false} SortStringsCorrect(s: seq<string>)
    requires NoDup(s)
    ensures Ascending(SortStrings(s))
    ensures multiset(SortStrings(s)) == multiset(s)
  {
    if s != [] {
      assert s == [s[0]] + s[1..];
      assert NoDup(s[1..]);
      SortStringsCorrect(s[1..]);
      assert s[0] !in s[1..];
      assert s[0] !in multiset(SortStrings(s[1..]));
      InsertSortedAscending(s[0], SortStrings(s[1..]));
    }
  }

  function Elems(s: seq<string>): set<string> {
    set x | x in s
  }

  /** Every tag detected in some title. */
  ghost function TitleTags(titles: seq<string>): set<string> {
    if titles == [] then {} else TitleTags(titles[..|titles| - 1]) + Elems(Detected(titles[|titles| - 1]))
  }

  /** Every add tag of some override. */
  ghost function OverrideTags(os: set<TagOverride>): set<string> {
    set o, t | o in os && t in o.addTags :: t
  }

  /** Some title of `titles` has `t` among its detected tags. */
  ghost predicate DetectedIn(titles: seq<string>, t: string) {
    exists title :: title in titles && t in Detected(title)
  }

  lemma {:induction false} TitleTagsSpec(titles: seq<string>)
    ensures forall t :: t in TitleTags(titles) <==> DetectedIn(titles, t)
  {
    if titles != [] {
      var init := titles[..|titles| - 1];
      var last := titles[|titles| - 1];
      TitleTagsSpec(init);
      assert titles == init + [last];
      forall t ensures DetectedIn(titles, t) <==> DetectedIn(init, t) || t in Detected(last) {
        DetectedInSnoc(init, last, t);
      }
    }
  }

  lemma DetectedInSnoc(init: seq<string>, last: string, t: string)
    ensures DetectedIn(init + [last], t) <==> DetectedIn(init, t) || t in Detected(last)
  {
    if DetectedIn(init + [last], t) {
      var title :| title in init + [last] && t in Detected(title);
      if title != last {
        assert title in init;
      }
    }
    if DetectedIn(init, t) {
      var title :| title in init && t in Detected(title);
      assert title in init + [last];
    }
    if t in Detected(last) {
      assert last in init + [last];
    }
  }

  /** The first loop of getAllKnownTags: the detected tags of every title, added to one Set. */
  method GatherTitleTags(titles: seq<string>) returns (all: seq<string>)
    ensures NoDup(all)
    ensures Elems(all) == TitleTags(titles)
  {
    all := [];
    var i := 0;
    while i < |titles|
      invariant 0 <= i <= |titles|
      invariant NoDup(all)
      invariant Elems(all) == TitleTags(titles[..i])
    {
      assert titles[..i + 1][..i] == titles[..i];
      assert titles[..i + 1][i] == titles[i];
      var tags := DetectTags(titles[i]);
      all := AddTags(all, tags);
      i := i + 1;
    }
    assert titles[..i] == titles;
  }

  /** The second loop of getAllKnownTags: the add tags of every override, added to the Set. */
  method GatherOverrideTags(tags: seq<string>, os: set<TagOverride>) returns (all: seq<string>)
    requires NoDup(tags)
    ensures NoDup(all)
    ensures Elems(all) == Elems(tags) + OverrideTags(os)
  {
    all := tags;
    var remaining := os;
    ghost var done: set<TagOverride> := {};
    while remaining != {}
      invariant remaining + done == os
      invariant NoDup(all)
      invariant Elems(all) == Elems(tags) + OverrideTags(done)
      decreases remaining
    {
      var o :| o in remaining;
      all := AddTags(all, o.addTags);
      assert OverrideTags(done + {o}) == OverrideTags(done) + Elems(o.addTags);
      remaining := remaining - {o};
      done := done + {o};
    }
  }

  /** getAllKnownTags: the union of the detected tags of every title and the add tags
      of every override (remove tags are not applied), sorted ascending. */
  method GetAllKnownTags(titles: seq<string>, overrides: map<string, TagOverride>) returns (r: seq<string>)
    ensures Ascending(r)
    ensures forall t :: t in r <==>
      (exists title :: title in titles && t in Detected(title)) ||
      (exists o :: o in overrides.Values && t in o.addTags)
  {
    var titleTags := GatherTitleTags(titles);
    var all := GatherOverrideTags(titleTags, overrides.Values);
    r := SortStrings(all);
    SortedUnion(all, titles, overrides.Values);
  }

  lemma SortedUnion(all: seq<string>, titles: seq<string>, os: set<TagOverride>)
    requires NoDup(all)
    requires Elems(all) == TitleTags(titles) + OverrideTags(os)
    ensures Ascending(SortStrings(all))
    ensures forall t :: t in SortStrings(all) <==>
      (exists title :: title in titles && t in Detected(title)) ||
      (exists o :: o in os && t in o.addTags)
  {
    var r := SortStrings(all);
    SortStringsCorrect(all);
    TitleTagsSpec(titles);
    forall t ensures t in r <==>
      (exists title :: title in titles && t in Detected(title)) ||
      (exists o :: o in os && t in o.addTags)
    {
      assert t in r <==> t in multiset(r);
      assert t in all <==> t in multiset(all);
      assert t in all <==> t in Elems(all);
      assert t in OverrideTags(os) <==> exists o :: o in os && t in o.addTags;
    }
  }
}
