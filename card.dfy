/**
 * The upvote button and the timestamp of a meme, shared by the card in the
 * feed and the enlarged modal view: the count, whether the signed-in user
 * has upvoted, which transaction a click issues, and the relative time.
 */
module UpvoteCard {
  import opened Wrappers
  import opened Feed

  datatype User = User(id: string)

  /** `upvotes?.length || 0`. */
  function UpvoteCount(upvotes: Option<seq<Upvote>>): (n: nat)
    ensures upvotes.None? ==> n == 0
    ensures upvotes.Some? ==> n == |upvotes.value|
  {
    match upvotes
    case None => 0
    case Some(ups) => |ups|
  }

  predicate ByUser(u: Upvote, userId: string) {
    u.userId == userId
  }

  /** `upvotes.some(upvote => upvote.userId === user.id)`, as a loop-free scan. */
  function SomeByUser(ups: seq<Upvote>, userId: string): (b: bool)
    ensures b <==> exists i :: 0 <= i < |ups| && ByUser(ups[i], userId)
    decreases |ups|
  {
    if ups == [] then false
    else
      assert forall i :: 1 <= i < |ups| ==> ups[1..][i - 1] == ups[i];
      ByUser(ups[0], userId) || SomeByUser(ups[1..], userId)
  }

  /** `hasUpvoted`: false without a user or a list. */
  function HasUpvoted(user: Option<User>, upvotes: Option<seq<Upvote>>): (b: bool)
    ensures user.None? || upvotes.None? ==> !b
    ensures user.Some? && upvotes.Some? ==>
              (b <==> exists i :: 0 <= i < |upvotes.value| && upvotes.value[i].userId == user.value.id)
  {
    if user.None? || upvotes.None? then false
    else SomeByUser(upvotes.value, user.value.id)
  }

  /** `upvotes.find(upvote => upvote.userId === user.id)`. */
  function FindByUser(ups: seq<Upvote>, userId: string): (r: Option<nat>)
    ensures r.None? <==> forall i :: 0 <= i < |ups| ==> !ByUser(ups[i], userId)
    ensures r.Some? ==> r.value < |ups| && ByUser(ups[r.value], userId)
                        && forall i :: 0 <= i < r.value ==> !ByUser(ups[i], userId)
    decreases |ups|
  {
    if ups == [] then None
    else if ByUser(ups[0], userId) then Some(0)
    else
      match FindByUser(ups[1..], userId)
      case None =>
        assert forall i :: 1 <= i < |ups| ==> ups[1..][i - 1] == ups[i];
        None
      case Some(k) =>
        assert forall i :: 1 <= i < k + 1 ==> ups[1..][i - 1] == ups[i];
        Some(k + 1)
  }

  /** The transaction a click on the upvote button issues. */
  datatype Action =
    | SignInAlert                                 // no user: alert, nothing written
    | DeleteUpvote(upvoteId: string)
    | CreateUpvote(upvoteId: string, memeId: string, userId: string)
    | NoTransaction                               // upvoted, but no upvote found

  /** `handleUpvote`; `newId` stands for `crypto.randomUUID()`. */
  function HandleUpvote(user: Option<User>, memeId: string, upvotes: Option<seq<Upvote>>, newId: string): (a: Action)
    ensures user.None? <==> a == SignInAlert
    ensures a.DeleteUpvote? ==> HasUpvoted(user, upvotes)
    ensures a.CreateUpvote? ==> a == CreateUpvote(newId, memeId, user.value.id) && !HasUpvoted(user, upvotes)
  {
    if user.None? then SignInAlert
    else if HasUpvoted(user, upvotes) then
      match FindByUser(upvotes.value, user.value.id)
      case Some(i) => DeleteUpvote(upvotes.value[i].id)
      case None => NoTransaction
    else CreateUpvote(newId, memeId, user.value.id)
  }

  /** The `if (existingUpvote)` guard always holds: a signed-in click
      deletes the user's first upvote when there is one and creates one
      otherwise. */
  lemma HandleUpvoteDecision(user: User, memeId: string, upvotes: Option<seq<Upvote>>, newId: string)
    ensures var a := HandleUpvote(Some(user), memeId, upvotes, newId);
            if HasUpvoted(Some(user), upvotes) then
              exists i :: 0 <= i < |upvotes.value| && upvotes.value[i].userId == user.id
                          && a == DeleteUpvote(upvotes.value[i].id)
                          && forall j :: 0 <= j < i ==> upvotes.value[j].userId != user.id
            else a == CreateUpvote(newId, memeId, user.id)
  {
    if HasUpvoted(Some(user), upvotes) {
      var i := FindByUser(upvotes.value, user.id).value;
      assert upvotes.value[i].userId == user.id;
    }
  }

  /** The effect of the issued transaction on the meme's upvotes: a delete
      removes the upvote with that id, a create adds the new upvote. */
  function Commit(ups: seq<Upvote>, a: Action): (r: seq<Upvote>)
    ensures a.DeleteUpvote? ==> forall u :: u in r <==> u in ups && u.id != a.upvoteId
    ensures a.CreateUpvote? ==> |r| == |ups| + 1 && r[..|ups|] == ups && r[|ups|] == Upvote(a.upvoteId, a.memeId, a.userId)
    ensures a.SignInAlert? || a.NoTransaction? ==> r == ups
  {
    match a
    case DeleteUpvote(id) => Without(ups, id)
    case CreateUpvote(id, memeId, userId) => ups + [Upvote(id, memeId, userId)]
    case _ => ups
  }

  function Without(ups: seq<Upvote>, id: string): (r: seq<Upvote>)
    ensures forall u :: u in r <==> u in ups && u.id != id
    decreases |ups|
  {
    if ups == [] then []
    else
      assert ups == [ups[0]] + ups[1..];
      (if ups[0].id == id then [] else [ups[0]]) + Without(ups[1..], id)
  }

  /** The user holds at most one upvote on the meme. */
  ghost predicate AtMostOne(ups: seq<Upvote>, userId: string) {
    forall i, j :: 0 <= i < j < |ups| && ups[i].userId == userId ==> ups[j].userId != userId
  }

  /** A signed-in click toggles `hasUpvoted`, provided the user held at most
      one upvote on the meme. */
  lemma UpvoteToggles(user: User, memeId: string, ups: seq<Upvote>, newId: string)
    requires AtMostOne(ups, user.id)
    ensures var after := Commit(ups, HandleUpvote(Some(user), memeId, Some(ups), newId));
            HasUpvoted(Some(user), Some(after)) == !HasUpvoted(Some(user), Some(ups))
  {
    var a := HandleUpvote(Some(user), memeId, Some(ups), newId);
    var after := Commit(ups, a);
    HandleUpvoteDecision(user, memeId, Some(ups), newId);
    if HasUpvoted(Some(user), Some(ups)) {
      var i :| 0 <= i < |ups| && ups[i].userId == user.id && a == DeleteUpvote(ups[i].id);
      forall k | 0 <= k < |after| ensures after[k].userId != user.id {
        assert after[k] in after;
        var j :| 0 <= j < |ups| && ups[j] == after[k];
        assert ups[j].id != ups[i].id;
        assert j != i;
      }
    } else {
      assert after[|ups|].userId == user.id;
    }
  }

  /** The modal decides on the list it was opened with, which later commits do
      not refresh: a user who had not upvoted and clicks twice issues two
      creates, and ends up holding two upvotes on the meme. */
  lemma ModalRepeatedClicks(user: User, memeId: string, shown: seq<Upvote>, firstId: string, secondId: string)
    requires !HasUpvoted(Some(user), Some(shown))
    ensures var first := HandleUpvote(Some(user), memeId, Some(shown), firstId);
            var second := HandleUpvote(Some(user), memeId, Some(shown), secondId);
            var live := Commit(Commit(shown, first), second);
            && first == CreateUpvote(firstId, memeId, user.id)
            && second == CreateUpvote(secondId, memeId, user.id)
            && !AtMostOne(live, user.id)
  {
    var first := HandleUpvote(Some(user), memeId, Some(shown), firstId);
    var second := HandleUpvote(Some(user), memeId, Some(shown), secondId);
    var live := Commit(Commit(shown, first), second);
    assert live[|shown|].userId == user.id && live[|shown| + 1].userId == user.id;
  }

  // ---------------------------------------------------------------------------
  // Relative time
  // ---------------------------------------------------------------------------

  datatype Ago = DaysAgo(days: int) | HoursAgo(hours: int) | MinutesAgo(minutes: int) | JustNow

  /** `formatDate`, with the clock reading `now` as a parameter. For a
      positive divisor Dafny's `/` rounds down, as `Math.floor(diff / d)`
      does, also for a timestamp in the future. */
  function FormatDate(now: int, timestamp: int): (r: Ago)
    ensures r.DaysAgo? ==> r.days >= 1
    ensures r.HoursAgo? ==> 1 <= r.hours < 24
    ensures r.MinutesAgo? ==> 1 <= r.minutes < 60
  {
    var diff := now - timestamp;
    var seconds := diff / 1000;
    var minutes := seconds / 60;
    var hours := minutes / 60;
    var days := hours / 24;
    if days > 0 then DaysAgo(days)
    else if hours > 0 then HoursAgo(hours)
    else if minutes > 0 then MinutesAgo(minutes)
    else JustNow
  }

  /** Rounding down twice is rounding down once by the product. */
  lemma MinutesFloor(diff: int)
    ensures (diff / 1000) / 60 == diff / 60000
  {
  }

  lemma HoursFloor(diff: int)
    ensures (diff / 60000) / 60 == diff / 3600000
  {
  }

  lemma DaysFloor(diff: int)
    ensures (diff / 3600000) / 24 == diff / 86400000
  {
  }

  /** The four labels partition elapsed time: whole days from 24 hours on,
      whole hours (1 to 23) from one hour on, whole minutes (1 to 59) from
      one minute on, and "Just now" below a minute or for a future time. */
  lemma FormatDateBuckets(now: int, timestamp: int)
    ensures var diff, r := now - timestamp, FormatDate(now, timestamp);
            && (r.DaysAgo? <==> diff >= 86400000)
            && (r.DaysAgo? ==> r.days == diff / 86400000 && r.days >= 1)
            && (r.HoursAgo? <==> 3600000 <= diff < 86400000)
            && (r.HoursAgo? ==> r.hours == diff / 3600000 && 1 <= r.hours < 24)
            && (r.MinutesAgo? <==> 60000 <= diff < 3600000)
            && (r.MinutesAgo? ==> r.minutes == diff / 60000 && 1 <= r.minutes < 60)
            && (r.JustNow? <==> diff < 60000)
  {
    var diff := now - timestamp;
    MinutesFloor(diff);
    HoursFloor(diff);
    DaysFloor(diff);
    var minutes := diff / 60000;
    var hours := diff / 3600000;
    var days := diff / 86400000;
    assert hours == minutes / 60;
    assert days == hours / 24;
  }

  /** The text shown: `${n}d ago`, `${n}h ago`, `${n}m ago` or "Just now". */
  function Label(a: Ago): (s: string)
    ensures !a.JustNow? ==> |s| >= 6 && (s[0] == '-' || '0' <= s[0] <= '9')
    ensures s == "Just now" <==> a.JustNow?
    ensures a.DaysAgo? ==> s[|s| - 5..] == "d ago"
    ensures a.HoursAgo? ==> s[|s| - 5..] == "h ago"
    ensures a.MinutesAgo? ==> s[|s| - 5..] == "m ago"
  {
    match a
    case DaysAgo(n) => Decimal(n) + "d ago"
    case HoursAgo(n) => Decimal(n) + "h ago"
    case MinutesAgo(n) => Decimal(n) + "m ago"
    case JustNow => "Just now"
  }

  function Decimal(n: int): (s: string)
    ensures |s| >= 1 && (s[0] == '-' || '0' <= s[0] <= '9')
    decreases if n < 0 then 1 - n else n
  {
    if n < 0 then "-" + Decimal(-n)
    else if n < 10 then ["0123456789"[n]]
    else Decimal(n / 10) + ["0123456789"[n % 10]]
  }

  /** The value of a decimal digit. */
  function DigitValue(c: char): int {
    if '0' <= c <= '9' then c as int - '0' as int else 0
  }

  /** Reading a string of decimal digits back as a number. */
  function ParseDecimal(s: string): int
    decreases |s|
  {
    if s == [] then 0 else ParseDecimal(s[..|s| - 1]) * 10 + DigitValue(s[|s| - 1])
  }

  lemma DigitRoundTrip(k: int)
    requires 0 <= k < 10
    ensures DigitValue("0123456789"[k]) == k
  {
    if k == 0 {} else if k == 1 {} else if k == 2 {} else if k == 3 {} else if k == 4 {}
    else if k == 5 {} else if k == 6 {} else if k == 7 {} else if k == 8 {} else {}
  }

  /** The digits of a count spell that count. */
  lemma {:induction false} DecimalRoundTrip(n: nat)
    ensures ParseDecimal(Decimal(n)) == n
    decreases n
  {
    var s := Decimal(n);
    DigitRoundTrip(n % 10);
    if n >= 10 {
      DecimalRoundTrip(n / 10);
      assert s[..|s| - 1] == Decimal(n / 10);
    } else {
      assert s[..|s| - 1] == [];
    }
  }

  /** Before its unit suffix, a label spells the bucket's count. */
  lemma LabelSpellsCount(a: Ago)
    requires a.DaysAgo? ==> a.days >= 0
    requires a.HoursAgo? ==> a.hours >= 0
    requires a.MinutesAgo? ==> a.minutes >= 0
    ensures var s := Label(a);
            && (a.DaysAgo? ==> ParseDecimal(s[..|s| - 5]) == a.days)
            && (a.HoursAgo? ==> ParseDecimal(s[..|s| - 5]) == a.hours)
            && (a.MinutesAgo? ==> ParseDecimal(s[..|s| - 5]) == a.minutes)
  {
    var s := Label(a);
    match a
    case DaysAgo(n) => DecimalRoundTrip(n); assert s[..|s| - 5] == Decimal(n);
    case HoursAgo(n) => DecimalRoundTrip(n); assert s[..|s| - 5] == Decimal(n);
    case MinutesAgo(n) => DecimalRoundTrip(n); assert s[..|s| - 5] == Decimal(n);
    case JustNow =>
  }
}
