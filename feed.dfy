/**
 * The meme feed: upvotes grouped by meme, the feed order (most upvoted first,
 * then newest first) and which of the feed's screens is shown.
 */
module Feed {
  import opened Wrappers

  datatype Meme = Meme(id: string, imageUrl: string, createdAt: int, userId: string)
  datatype Upvote = Upvote(id: string, memeId: string, userId: string)

  // ---------------------------------------------------------------------------
  // Grouping
  // ---------------------------------------------------------------------------

  /** The upvotes of one meme, in input order. */
  function ForMeme(ups: seq<Upvote>, memeId: string): (r: seq<Upvote>)
    ensures |r| <= |ups|
    ensures forall u :: u in r ==> u in ups && u.memeId == memeId
    ensures forall i :: 0 <= i < |ups| && ups[i].memeId == memeId ==> ups[i] in r
    decreases |ups|
  {
    if ups == [] then []
    else
      var init := ups[..|ups| - 1];
      var last := ups[|ups| - 1];
      var r := ForMeme(init, memeId) + (if last.memeId == memeId then [last] else []);
      assert forall i :: 0 <= i < |init| ==> init[i] == ups[i];
      r
  }

  /** The meme ids that have at least one upvote. */
  function MemeIds(ups: seq<Upvote>): set<string> {
    set i | 0 <= i < |ups| :: ups[i].memeId
  }

  /** The reference grouping: each meme id with upvotes, mapped to that
      meme's upvotes in input order. */
  function ByMeme(ups: seq<Upvote>): (g: map<string, seq<Upvote>>)
    ensures g.Keys == MemeIds(ups)
  {
    map k | k in MemeIds(ups) :: ForMeme(ups, k)
  }

  lemma ForMemeSnoc(ups: seq<Upvote>, u: Upvote, memeId: string)
    ensures ForMeme(ups + [u], memeId) == ForMeme(ups, memeId) + (if u.memeId == memeId then [u] else [])
  {
    assert (ups + [u])[..|ups|] == ups;
  }

  lemma {:induction false} ForMemeAbsent(ups: seq<Upvote>, memeId: string)
    requires memeId !in MemeIds(ups)
    ensures ForMeme(ups, memeId) == []
    decreases |ups|
  {
    if ups != [] {
      var init := ups[..|ups| - 1];
      assert MemeIds(init) <= MemeIds(ups) by {
        forall k | k in MemeIds(init) ensures k in MemeIds(ups) {
          var i :| 0 <= i < |init| && init[i].memeId == k;
          assert ups[i].memeId == k;
        }
      }
      ForMemeAbsent(init, memeId);
      assert ups[|ups| - 1].memeId in MemeIds(ups);
    }
  }

  lemma MemeIdsSnoc(ups: seq<Upvote>, u: Upvote)
    ensures MemeIds(ups + [u]) == MemeIds(ups) + {u.memeId}
  {
    var t := ups + [u];
    forall k | k in MemeIds(t) ensures k in MemeIds(ups) + {u.memeId} {
      var j :| 0 <= j < |t| && t[j].memeId == k;
      if j < |ups| {
        assert ups[j].memeId == k;
      }
    }
    forall k | k in MemeIds(ups) ensures k in MemeIds(t) {
      var j :| 0 <= j < |ups| && ups[j].memeId == k;
      assert t[j].memeId == k;
    }
    assert t[|ups|].memeId == u.memeId;
  }

  /** One `forEach` step: create the group if it is missing, then push. */
  function AddUpvote(g: map<string, seq<Upvote>>, u: Upvote): map<string, seq<Upvote>> {
    var created := if u.memeId in g then g else g[u.memeId := []];
    created[u.memeId := created[u.memeId] + [u]]
  }

  /** `upvotesByMeme`: the steps applied to the upvotes in order. */
  function Grouped(ups: seq<Upvote>): (g: map<string, seq<Upvote>>)
    ensures forall k :: k in g ==> |g[k]| >= 1
    decreases |ups|
  {
    if ups == [] then map[] else AddUpvote(Grouped(ups[..|ups| - 1]), ups[|ups| - 1])
  }

  /** The grouping keys exactly the meme ids with upvotes, and each group is
      that meme's upvotes in input order. */
  lemma {:induction false} GroupedMeaning(ups: seq<Upvote>)
    ensures Grouped(ups).Keys == MemeIds(ups)
    ensures forall k :: k in Grouped(ups) ==> Grouped(ups)[k] == ForMeme(ups, k)
    decreases |ups|
  {
    if ups != [] {
      var init, u := ups[..|ups| - 1], ups[|ups| - 1];
      assert ups == init + [u];
      GroupedMeaning(init);
      MemeIdsSnoc(init, u);
      var g := Grouped(init);
      forall k | k in Grouped(ups) ensures Grouped(ups)[k] == ForMeme(ups, k) {
        ForMemeSnoc(init, u, k);
        if k == u.memeId && k !in g {
          ForMemeAbsent(init, k);
        }
      }
    }
  }

  lemma GroupedIsByMeme(ups: seq<Upvote>)
    ensures Grouped(ups) == ByMeme(ups)
  {
    GroupedMeaning(ups);
  }

  /** `upvotes.forEach(...)` fills the dictionary in place. */
  method GroupByMeme(ups: seq<Upvote>) returns (grouped: map<string, seq<Upvote>>)
    ensures grouped == Grouped(ups)
    ensures grouped == ByMeme(ups)
  {
    grouped := map[];
    var i := 0;
    while i < |ups|
      invariant 0 <= i <= |ups|
      invariant grouped == Grouped(ups[..i])
    {
      var u := ups[i];
      ghost var before := grouped;
      if u.memeId !in grouped {
        grouped := grouped[u.memeId := []];
      }
      grouped := grouped[u.memeId := grouped[u.memeId] + [u]];
      assert grouped == AddUpvote(before, u);
      assert ups[..i + 1][..i] == ups[..i];
      i := i + 1;
    }
    assert ups[..i] == ups;
    GroupedIsByMeme(ups);
  }

  /** Every upvote is in the group of its own meme and in no other. */
  lemma GroupMembership(ups: seq<Upvote>, u: Upvote, k: string)
    requires k in Grouped(ups)
    ensures u in Grouped(ups)[k] <==> u in ups && u.memeId == k
  {
    GroupedMeaning(ups);
    if u in ups && u.memeId == k {
      var i :| 0 <= i < |ups| && ups[i] == u;
    }
  }

  /** The keys in order of first appearance. */
  function Keys(ups: seq<Upvote>): (ks: seq<string>)
    ensures forall k :: k in ks <==> k in MemeIds(ups)
    ensures forall i, j :: 0 <= i < j < |ks| ==> ks[i] != ks[j]
    decreases |ups|
  {
    if ups == [] then []
    else
      var init := ups[..|ups| - 1];
      var last := ups[|ups| - 1];
      var ks := Keys(init);
      assert forall i :: 0 <= i < |init| ==> init[i] == ups[i];
      assert ups == init + [last];
      MemeIdsSnoc(init, last);
      if last.memeId in ks then ks else ks + [last.memeId]
  }

  function SumSizes(ups: seq<Upvote>, ks: seq<string>): nat
    decreases |ks|
  {
    if ks == [] then 0 else |ForMeme(ups, ks[0])| + SumSizes(ups, ks[1..])
  }

  lemma {:induction false} SumSizesAppend(ups: seq<Upvote>, ks: seq<string>, k: string)
    ensures SumSizes(ups, ks + [k]) == SumSizes(ups, ks) + |ForMeme(ups, k)|
    decreases |ks|
  {
    if ks != [] {
      assert (ks + [k])[1..] == ks[1..] + [k];
      SumSizesAppend(ups, ks[1..], k);
    }
  }

  /** Adding one upvote adds one to the group of its meme, if that meme is
      among the (distinct) keys summed, and nothing otherwise. */
  lemma {:induction false} SumSizesSnoc(ups: seq<Upvote>, u: Upvote, ks: seq<string>)
    requires forall i, j :: 0 <= i < j < |ks| ==> ks[i] != ks[j]
    ensures SumSizes(ups + [u], ks) == SumSizes(ups, ks) + (if u.memeId in ks then 1 else 0)
    decreases |ks|
  {
    if ks != [] {
      ForMemeSnoc(ups, u, ks[0]);
      SumSizesSnoc(ups, u, ks[1..]);
      if u.memeId == ks[0] {
        assert u.memeId !in ks[1..];
      }
      assert u.memeId in ks <==> u.memeId == ks[0] || u.memeId in ks[1..];
    }
  }

  /** The group sizes add up to the number of upvotes. */
  lemma {:induction false} GroupSizesSum(ups: seq<Upvote>)
    ensures SumSizes(ups, Keys(ups)) == |ups|
    decreases |ups|
  {
    if ups != [] {
      var init := ups[..|ups| - 1];
      var u := ups[|ups| - 1];
      assert ups == init + [u];
      GroupSizesSum(init);
      var ks := Keys(init);
      SumSizesSnoc(init, u, ks);
      if u.memeId !in ks {
        SumSizesAppend(ups, ks, u.memeId);
        ForMemeSnoc(init, u, u.memeId);
        ForMemeAbsent(init, u.memeId);
      }
    }
  }

  // ---------------------------------------------------------------------------
  // Order
  // ---------------------------------------------------------------------------

  /** `upvotesByMeme[id]?.length || 0`. */
  function Count(groups: map<string, seq<Upvote>>, id: string): (n: nat)
    ensures id !in groups ==> n == 0
  {
    if id in groups then |groups[id]| else 0
  }

  /** The count read from the grouping is the number of upvotes for the meme. */
  lemma CountIsUpvotes(ups: seq<Upvote>, id: string)
    ensures Count(Grouped(ups), id) == |ForMeme(ups, id)|
  {
    GroupedMeaning(ups);
    if id !in MemeIds(ups) {
      ForMemeAbsent(ups, id);
    }
  }

  /** The comparator: more upvotes first, then the later `createdAt`. */
  function Compare(a: Meme, b: Meme, groups: map<string, seq<Upvote>>): (r: int)
    ensures r < 0 <==> Count(groups, a.id) > Count(groups, b.id)
                       || (Count(groups, a.id) == Count(groups, b.id) && a.createdAt > b.createdAt)
    ensures r == 0 <==> Count(groups, a.id) == Count(groups, b.id) && a.createdAt == b.createdAt
  {
    var ca, cb := Count(groups, a.id), Count(groups, b.id);
    if cb != ca then cb - ca else b.createdAt - a.createdAt
  }

  /** `a` may come before `b`. */
  predicate Precedes(a: Meme, b: Meme, groups: map<string, seq<Upvote>>) {
    Compare(a, b, groups) <= 0
  }

  lemma PrecedesTotal(a: Meme, b: Meme, groups: map<string, seq<Upvote>>)
    ensures Precedes(a, b, groups) || Precedes(b, a, groups)
  {
  }

  lemma PrecedesTransitive(a: Meme, b: Meme, c: Meme, groups: map<string, seq<Upvote>>)
    requires Precedes(a, b, groups) && Precedes(b, c, groups)
    ensures Precedes(a, c, groups)
  {
  }

  ghost predicate Sorted(s: seq<Meme>, groups: map<string, seq<Upvote>>) {
    forall i :: 0 <= i < |s| - 1 ==> Precedes(s[i], s[i + 1], groups)
  }

  function Insert(m: Meme, s: seq<Meme>, groups: map<string, seq<Upvote>>): (r: seq<Meme>)
    ensures |r| == |s| + 1
    ensures r[0] == m || (|s| > 0 && r[0] == s[0])
    ensures multiset(r) == multiset(s) + multiset{m}
    decreases |s|
  {
    if s == [] || Precedes(m, s[0], groups) then [m] + s
    else
      assert s == [s[0]] + s[1..];
      [s[0]] + Insert(m, s[1..], groups)
  }

  /** A reference sort: insertion of each meme into the sorted rest. */
  function SortMemes(memes: seq<Meme>, groups: map<string, seq<Upvote>>): (r: seq<Meme>)
    ensures multiset(r) == multiset(memes) && |r| == |memes|
    decreases |memes|
  {
    if memes == [] then []
    else
      assert memes == [memes[0]] + memes[1..];
      Insert(memes[0], SortMemes(memes[1..], groups), groups)
  }

  lemma {:induction false} InsertSorted(m: Meme, s: seq<Meme>, groups: map<string, seq<Upvote>>)
    requires Sorted(s, groups)
    ensures Sorted(Insert(m, s, groups), groups)
    decreases |s|
  {
    if s != [] && !Precedes(m, s[0], groups) {
      PrecedesTotal(m, s[0], groups);
      InsertSorted(m, s[1..], groups);
      var rest := Insert(m, s[1..], groups);
      var r := [s[0]] + rest;
      forall i | 0 <= i < |r| - 1 ensures Precedes(r[i], r[i + 1], groups) {
        if i > 0 {
          assert r[i] == rest[i - 1] && r[i + 1] == rest[i];
        }
      }
    }
  }

  lemma {:induction false} SortMemesSorted(memes: seq<Meme>, groups: map<string, seq<Upvote>>)
    ensures Sorted(SortMemes(memes, groups), groups)
    decreases |memes|
  {
    if memes != [] {
      SortMemesSorted(memes[1..], groups);
      InsertSorted(memes[0], SortMemes(memes[1..], groups), groups);
    }
  }

  /** Adjacent order gives the order of every pair. */
  lemma {:induction false} SortedPairwise(s: seq<Meme>, groups: map<string, seq<Upvote>>, i: nat, j: nat)
    requires Sorted(s, groups) && i < j < |s|
    ensures Precedes(s[i], s[j], groups)
    decreases j - i
  {
    if i + 1 < j {
      SortedPairwise(s, groups, i + 1, j);
      PrecedesTransitive(s[i], s[i + 1], s[j], groups);
    }
  }

  /** `sortedMemes`: a permutation of the memes in feed order. The sort works
      on a copy, so the loaded list itself is left as it was. */
  lemma FeedOrder(memes: seq<Meme>, ups: seq<Upvote>)
    ensures var s := SortMemes(memes, Grouped(ups));
            && multiset(s) == multiset(memes)
            && forall i :: 0 <= i < |s| - 1 ==>
                 var ca, cb := |ForMeme(ups, s[i].id)|, |ForMeme(ups, s[i + 1].id)|;
                 ca > cb || (ca == cb && s[i].createdAt >= s[i + 1].createdAt)
  {
    var g := Grouped(ups);
    var s := SortMemes(memes, g);
    SortMemesSorted(memes, g);
    forall i | 0 <= i < |s| - 1
      ensures var ca, cb := |ForMeme(ups, s[i].id)|, |ForMeme(ups, s[i + 1].id)|;
              ca > cb || (ca == cb && s[i].createdAt >= s[i + 1].createdAt)
    {
      CountIsUpvotes(ups, s[i].id);
      CountIsUpvotes(ups, s[i + 1].id);
    }
  }

  // ---------------------------------------------------------------------------
  // Screens
  // ---------------------------------------------------------------------------

  /** One card: the meme and `upvotesByMeme[meme.id] || []`. */
  datatype Card = Card(meme: Meme, upvotes: seq<Upvote>)

  datatype View = Loading | Failed(message: string) | NoMemes | Grid(cards: seq<Card>)

  function GroupOf(groups: map<string, seq<Upvote>>, id: string): seq<Upvote> {
    if id in groups then groups[id] else []
  }

  /** The screen chosen from the loading flag, the component's `error` state
      and the memes and upvotes taken from the query. */
  function FeedView(isLoading: bool, error: Option<string>, memes: seq<Meme>, ups: seq<Upvote>): (v: View)
    ensures v == Loading <==> isLoading
    ensures v.Failed? <==> !isLoading && error.Some?
    ensures v.Failed? ==> v.message == error.value
  {
    var groups := Grouped(ups);
    var sorted := SortMemes(memes, groups);
    if isLoading then Loading
    else if error.Some? then Failed(error.value)
    else if |sorted| == 0 then NoMemes
    else Grid(seq(|sorted|, i requires 0 <= i < |sorted| => Card(sorted[i], GroupOf(groups, sorted[i].id))))
  }

  /** "No memes yet!" is shown exactly when loading has finished, the `error`
      state is null and there are no memes; otherwise the grid has one card per meme
      carrying that meme's upvotes. */
  lemma FeedViewCases(isLoading: bool, error: Option<string>, memes: seq<Meme>, ups: seq<Upvote>)
    ensures var v := FeedView(isLoading, error, memes, ups);
            && (v == NoMemes <==> !isLoading && error.None? && memes == [])
            && (v.Grid? ==> && |v.cards| == |memes|
                            && forall i :: 0 <= i < |v.cards| ==> v.cards[i].upvotes == ForMeme(ups, v.cards[i].meme.id))
  {
    var v := FeedView(isLoading, error, memes, ups);
    GroupedMeaning(ups);
    if v.Grid? {
      forall i | 0 <= i < |v.cards| ensures v.cards[i].upvotes == ForMeme(ups, v.cards[i].meme.id) {
        var id := v.cards[i].meme.id;
        if id !in MemeIds(ups) {
          ForMemeAbsent(ups, id);
        }
      }
    }
  }

  /** What the query delivers; `data` is undefined while loading and after a
      failed query. */
  datatype Snapshot = Snapshot(memes: seq<Meme>, upvotes: seq<Upvote>)

  /** `MemeFeed` as written: `data?.memes || []`, `data?.upvotes || []`, and
      the `error` state, which starts null and which nothing sets. The error
      screen is never shown, and a failed query shows "No memes yet!". */
  function MemeFeedView(isLoading: bool, data: Option<Snapshot>): (v: View)
    ensures v == Loading <==> isLoading
    ensures !v.Failed?
    ensures !isLoading && data.None? ==> v == NoMemes
    ensures !isLoading && data.Some? ==> (v == NoMemes <==> data.value.memes == [])
  {
    var memes := if data.Some? then data.value.memes else [];
    var ups := if data.Some? then data.value.upvotes else [];
    FeedViewCases(isLoading, None, memes, ups);
    FeedView(isLoading, None, memes, ups)
  }
}
