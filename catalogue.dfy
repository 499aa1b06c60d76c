/** The pure logic of the app's story catalogue: the initial merge, lookup by id,
    the current index, next/previous navigation, the night-time theme rule,
    validation of a contributed story, and the two orders in which
    submissions are kept. */
module Catalogue {
  import opened Stories

  // ---------------------------------------------------------------------------
  // Initial catalogue

  /** The catalogue at start-up: the bundled stories, then the stored user
      submissions in stored order. `saved` is None when nothing is stored. */
  function InitialCatalogue(bundled: seq<Story>, saved: Option<seq<Story>>): (r: seq<Story>)
    ensures saved.None? ==> r == bundled
    ensures |r| == |bundled| + |saved.GetOr([])|
    ensures forall i :: 0 <= i < |bundled| ==> r[i] == bundled[i]
    ensures forall i :: 0 <= i < |saved.GetOr([])| ==> r[|bundled| + i] == saved.GetOr([])[i]
  {
    bundled + saved.GetOr([])
  }

  // ---------------------------------------------------------------------------
  // Lookup by id

  /** The least index whose story has id `id`, or -1 when there is none
      (`findIndex` with an id test). */
  function FirstIndexOfId(stories: seq<Story>, id: string): (k: int)
    ensures -1 <= k < |stories|
    ensures k >= 0 ==> stories[k].id == id
    ensures forall j :: 0 <= j < k ==> stories[j].id != id
    ensures k == -1 <==> forall j :: 0 <= j < |stories| ==> stories[j].id != id
    decreases |stories|
  {
    if |stories| == 0 then -1
    else if stories[0].id == id then 0
    else
      var k := FirstIndexOfId(stories[1..], id);
      if k == -1 then -1 else k + 1
  }

  /** With unique ids, the first index of a story's id is that story's index. */
  lemma FirstIndexOfUniqueId(stories: seq<Story>, i: int)
    requires UniqueIds(stories) && 0 <= i < |stories|
    ensures FirstIndexOfId(stories, stories[i].id) == i
  {
  }

  /** The first story with the given id, if any (`stories.find`). */
  function FindById(stories: seq<Story>, id: string): (r: Option<Story>)
    ensures r.None? <==> forall j :: 0 <= j < |stories| ==> stories[j].id != id
    ensures r.Some? ==> exists k :: 0 <= k < |stories| && r.value == stories[k] && r.value.id == id
                                  && forall j :: 0 <= j < k ==> stories[j].id != id
  {
    var k := FirstIndexOfId(stories, id);
    if k < 0 then None else Some(stories[k])
  }

  /** The story a pin click selects: the first catalogue entry with the pin's
      id, or the pin's own data when the catalogue has none. */
  function PinLookup(stories: seq<Story>, pin: Story): (r: Story)
    ensures (forall j :: 0 <= j < |stories| ==> stories[j].id != pin.id) ==> r == pin
    ensures (exists j :: 0 <= j < |stories| && stories[j].id == pin.id) ==>
              exists k :: 0 <= k < |stories| && r == stories[k] && r.id == pin.id
                          && forall j :: 0 <= j < k ==> stories[j].id != pin.id
  {
    FindById(stories, pin.id).GetOr(pin)
  }

  /** The index of the active story in the catalogue: the least index whose id
      is the active story's id, or -1 when no story is active or none matches. */
  function CurrentIndex(stories: seq<Story>, active: Option<Story>): (r: int)
    ensures -1 <= r < |stories|
    ensures r == -1 <==> active.None? || forall j :: 0 <= j < |stories| ==> stories[j].id != active.value.id
    ensures r >= 0 ==> active.Some? && stories[r].id == active.value.id
    ensures active.Some? ==> forall j :: 0 <= j < r ==> stories[j].id != active.value.id
  {
    match active
    case None => -1
    case Some(a) => FirstIndexOfId(stories, a.id)
  }

  // ---------------------------------------------------------------------------
  // Navigation

  /** JavaScript's `a % n`: the remainder of division truncated toward zero.
      It differs from a multiple of n by a multiple of n and takes the sign
      of the dividend (-0 is the integer 0); Dafny's `%` is Euclidean and
      never negative. */
  function JsRem(a: int, n: int): (r: int)
    requires n > 0
    ensures exists q: int :: a == q * n + r
    ensures a >= 0 ==> 0 <= r < n
    ensures a < 0 ==> -n < r <= 0
  {
    var r := if a >= 0 then a % n else -((-a) % n);
    assert a == (if a >= 0 then a / n else -((-a) / n)) * n + r;
    r
  }

  /** `(currentIndex + 1) % stories.length`: the following index, wrapping from
      the last to the first; from -1 (no current story) it is the first. */
  function NextIndex(current: int, n: int): (r: int)
    requires n > 0 && -1 <= current < n
    ensures 0 <= r < n
    ensures r == if current == n - 1 then 0 else current + 1
  {
    assert current + 1 < n ==> (current + 1) % n == current + 1;
    assert current + 1 == n ==> current + 1 == 1 * n + 0;
    JsRem(current + 1, n)
  }

  /** `(currentIndex - 1 + stories.length) % stories.length`: the preceding
      index, wrapping from the first to the last. From -1 it is n - 2, not
      the last index, except in a one-story catalogue. */
  function PrevIndex(current: int, n: int): (r: int)
    requires n > 0 && -1 <= current < n
    ensures 0 <= r < n
    ensures current >= 1 ==> r == current - 1
    ensures current == 0 ==> r == n - 1
    ensures current == -1 ==> r == if n == 1 then 0 else n - 2
  {
    assert current >= 1 ==> current - 1 + n == 1 * n + (current - 1);
    assert 0 <= current - 1 + n < n ==> (current - 1 + n) % n == current - 1 + n;
    JsRem(current - 1 + n, n)
  }

  /** The active story after "Next": unchanged on an empty catalogue;
      otherwise the story after the current one, the first story after the
      last one, and the first story when none is current. */
  function NextStory(stories: seq<Story>, active: Option<Story>): (r: Option<Story>)
    ensures |stories| == 0 ==> r == active
    ensures |stories| > 0 ==> r.Some? && r.value in stories
    ensures |stories| > 0 && CurrentIndex(stories, active) in {-1, |stories| - 1} ==> r == Some(stories[0])
    ensures 0 <= CurrentIndex(stories, active) < |stories| - 1 ==>
              r == Some(stories[CurrentIndex(stories, active) + 1])
  {
    if |stories| == 0 then active
    else Some(stories[NextIndex(CurrentIndex(stories, active), |stories|)])
  }

  /** The active story after "Prev": unchanged on an empty catalogue;
      otherwise the story before the current one and the last story before
      the first one. When none is current it is the last but one story (the
      only story in a one-story catalogue). */
  function PrevStory(stories: seq<Story>, active: Option<Story>): (r: Option<Story>)
    ensures |stories| == 0 ==> r == active
    ensures |stories| > 0 ==> r.Some? && r.value in stories
    ensures |stories| > 0 && CurrentIndex(stories, active) == 0 ==> r == Some(stories[|stories| - 1])
    ensures CurrentIndex(stories, active) >= 1 ==> r == Some(stories[CurrentIndex(stories, active) - 1])
    ensures |stories| > 0 && CurrentIndex(stories, active) == -1 ==>
              r == Some(stories[if |stories| == 1 then 0 else |stories| - 2])
  {
    if |stories| == 0 then active
    else Some(stories[PrevIndex(CurrentIndex(stories, active), |stories|)])
  }

  /** With unique ids, Next then Prev, and Prev then Next, return to the story
      one started from. */
  lemma NavigationRoundTrip(stories: seq<Story>, i: int)
    requires UniqueIds(stories) && 0 <= i < |stories|
    ensures PrevStory(stories, NextStory(stories, Some(stories[i]))) == Some(stories[i])
    ensures NextStory(stories, PrevStory(stories, Some(stories[i]))) == Some(stories[i])
  {
    var n := |stories|;
    FirstIndexOfUniqueId(stories, i);
    var j := NextIndex(i, n);
    FirstIndexOfUniqueId(stories, j);
    assert PrevIndex(j, n) == i;
    var k := PrevIndex(i, n);
    FirstIndexOfUniqueId(stories, k);
    assert NextIndex(k, n) == i;
  }

  // ---------------------------------------------------------------------------
  // Night-time theme

  /** The theme after the start-up day/night rule: between 18:00 and 06:00 the
      theme becomes Historical unless it is Sci-Fi; by day it is unchanged. */
  function NightTheme(hour: int, t: Theme): (r: Theme)
    ensures (hour >= 18 || hour < 6) ==> r != Cultural && (r == SciFi <==> t == SciFi)
    ensures 6 <= hour < 18 ==> r == t
  {
    if hour >= 18 || hour < 6 then (if t == SciFi then SciFi else Historical) else t
  }

  // ---------------------------------------------------------------------------
  // Contributed stories

  const DefaultContent := "A user-submitted story."
  const MissingFieldsAlert := "Provide title, lat and lng"

  /** The number a string of decimal digits spells, most significant digit first. */
  function DigitsValue(s: string): (v: nat)
    requires forall i :: 0 <= i < |s| ==> '0' <= s[i] <= '9'
  {
    if s == [] then 0
    else DigitsValue(s[..|s| - 1]) * 10 + (s[|s| - 1] as int - '0' as int)
  }

  /** The decimal digits of `n`, as `String(n)` writes a non-negative integer:
      they spell n and have no leading zero. */
  function DecimalDigits(n: nat): (s: string)
    ensures |s| >= 1
    ensures forall i :: 0 <= i < |s| ==> '0' <= s[i] <= '9'
    ensures DigitsValue(s) == n
    ensures |s| > 1 ==> s[0] != '0'
    ensures n > 0 ==> s[0] != '0'
  {
    var d := ['0' + (n % 10) as char];
    if n < 10 then d
    else
      var prefix := DecimalDigits(n / 10);
      assert (prefix + d)[..|prefix|] == prefix;
      prefix + d
  }

  /** Different numbers have different decimal forms, so stories submitted at
      different milliseconds get different ids. */
  lemma DecimalDigitsInjective(a: nat, b: nat)
    requires DecimalDigits(a) == DecimalDigits(b)
    ensures a == b
  {
  }

  /** The id of a story submitted at time `now` (milliseconds): `u` followed
      by the decimal form of the timestamp. */
  function UserStoryId(now: nat): (id: string)
    ensures |id| >= 2 && id[0] == 'u'
    ensures id[1..] == DecimalDigits(now)
    ensures DigitsValue(id[1..]) == now
  {
    "u" + DecimalDigits(now)
  }

  /** Submission ids are unique per timestamp. */
  lemma UserStoryIdInjective(a: nat, b: nat)
    requires UserStoryId(a) == UserStoryId(b)
    ensures a == b
  {
    DecimalDigitsInjective(a, b);
  }

  /** The contribute form's decision: rejected with the alert text when the
      title, latitude or longitude text is empty; otherwise the new record.
      Coordinates that do not parse as numbers are not rejected. */
  function Submission(title: string, lat: string, lng: string, content: string,
                      now: nat, parseFloat: string -> Coord): (r: Result<Story, string>)
    ensures r.Failure? <==> title == "" || lat == "" || lng == ""
    ensures r.Failure? ==> r.error == MissingFieldsAlert
    ensures r.Success? ==> r.value.id == UserStoryId(now) && r.value.title == title
    ensures r.Success? ==> r.value.lat == parseFloat(lat) && r.value.lng == parseFloat(lng)
    ensures r.Success? ==> r.value.content == (if content == "" then DefaultContent else content)
                           && r.value.content != ""
    ensures r.Success? ==> r.value.media == Media(None) && r.value.size.None? && r.value.color.None?
  {
    if title == "" || lat == "" || lng == "" then Failure(MissingFieldsAlert)
    else Success(Story(UserStoryId(now), title, parseFloat(lat), parseFloat(lng),
                       if content == "" then DefaultContent else content,
                       Media(None), None, None))
  }

  // ---------------------------------------------------------------------------
  // Session order versus stored order

  function Reversed(s: seq<Story>): (r: seq<Story>)
    ensures |r| == |s|
  {
    if s == [] then [] else [s[|s| - 1]] + Reversed(s[..|s| - 1])
  }

  lemma {:induction false} ReversedAt(s: seq<Story>, k: int)
    requires 0 <= k < |s|
    ensures Reversed(s)[k] == s[|s| - 1 - k]
  {
    if k > 0 {
      ReversedAt(s[..|s| - 1], k - 1);
    }
  }

  lemma {:induction false} ReversedMultiset(s: seq<Story>)
    ensures multiset(Reversed(s)) == multiset(s)
  {
    if s != [] {
      ReversedMultiset(s[..|s| - 1]);
      assert s == s[..|s| - 1] + [s[|s| - 1]];
    }
  }

  /** The in-memory catalogue after the submissions `subs`, oldest first, each
      put at the front by `onAdd`: one entry more per submission, the earlier
      catalogue unchanged at the back, the newest submission first. */
  function SessionCatalogue(catalogue: seq<Story>, subs: seq<Story>): (r: seq<Story>)
    ensures |r| == |catalogue| + |subs|
    ensures r[|subs|..] == catalogue
    ensures subs != [] ==> r[0] == subs[|subs| - 1]
    decreases |subs|
  {
    if subs == [] then catalogue
    else
      var r := SessionCatalogue([subs[0]] + catalogue, subs[1..]);
      assert r[|subs|..] == r[|subs| - 1..][1..];
      r
  }

  /** The stored list after the submissions `subs`, oldest first, each pushed
      to the end by `onAdd`: one entry more per submission, the earlier list
      unchanged at the front, the newest submission last. */
  function SessionStore(stored: seq<Story>, subs: seq<Story>): (r: seq<Story>)
    ensures |r| == |stored| + |subs|
    ensures r[..|stored|] == stored
    ensures subs != [] ==> r[|r| - 1] == subs[|subs| - 1]
    decreases |subs|
  {
    if subs == [] then stored
    else
      var r := SessionStore(stored + [subs[0]], subs[1..]);
      assert r[..|stored|] == r[..|stored| + 1][..|stored|];
      r
  }

  /** In memory, submissions sit newest first in front of the catalogue. */
  lemma {:induction false} SessionCatalogueNewestFirst(catalogue: seq<Story>, subs: seq<Story>)
    ensures SessionCatalogue(catalogue, subs) == Reversed(subs) + catalogue
    decreases |subs|
  {
    if subs != [] {
      SessionCatalogueNewestFirst([subs[0]] + catalogue, subs[1..]);
      ReversedFront(subs);
    }
  }

  lemma {:induction false} ReversedFront(s: seq<Story>)
    requires s != []
    ensures Reversed(s) == Reversed(s[1..]) + [s[0]]
    decreases |s|
  {
    if |s| > 1 {
      ReversedFront(s[..|s| - 1]);
      assert s[..|s| - 1][1..] == s[1..][..|s| - 2];
    }
  }

  /** In storage, submissions sit oldest first after what was stored before. */
  lemma {:induction false} SessionStoreOldestLast(stored: seq<Story>, subs: seq<Story>)
    ensures SessionStore(stored, subs) == stored + subs
    decreases |subs|
  {
    if subs != [] {
      SessionStoreOldestLast(stored + [subs[0]], subs[1..]);
      assert stored + [subs[0]] + subs[1..] == stored + subs;
    }
  }

  /** The session shows the submissions newest first before the bundled
      stories; the reloaded catalogue shows the bundled stories first and the
      submissions oldest first at the end. */
  lemma ReloadReorders(bundled: seq<Story>, saved: seq<Story>, subs: seq<Story>)
    ensures SessionCatalogue(InitialCatalogue(bundled, Some(saved)), subs) == Reversed(subs) + bundled + saved
    ensures InitialCatalogue(bundled, Some(SessionStore(saved, subs))) == bundled + saved + subs
  {
    SessionOrder(bundled, saved, subs);
    ReloadedOrder(bundled, saved, subs);
  }

  /** The session order after the submissions, from the start-up catalogue. */
  lemma SessionOrder(bundled: seq<Story>, saved: seq<Story>, subs: seq<Story>)
    ensures SessionCatalogue(InitialCatalogue(bundled, Some(saved)), subs) == Reversed(subs) + bundled + saved
  {
    var start := InitialCatalogue(bundled, Some(saved));
    assert start == bundled + saved;
    SessionCatalogueNewestFirst(start, subs);
    assert Reversed(subs) + start == Reversed(subs) + bundled + saved;
  }

  /** The reloaded order after the submissions. */
  lemma ReloadedOrder(bundled: seq<Story>, saved: seq<Story>, subs: seq<Story>)
    ensures InitialCatalogue(bundled, Some(SessionStore(saved, subs))) == bundled + saved + subs
  {
    SessionStoreOldestLast(saved, subs);
    assert InitialCatalogue(bundled, Some(saved + subs)) == bundled + (saved + subs);
  }

  /** A reload keeps every story of the session: the two catalogues hold the
      same stories, each as often. */
  lemma ReloadKeepsStories(bundled: seq<Story>, saved: seq<Story>, subs: seq<Story>)
    ensures multiset(SessionCatalogue(InitialCatalogue(bundled, Some(saved)), subs))
            == multiset(InitialCatalogue(bundled, Some(SessionStore(saved, subs))))
  {
    ReloadReorders(bundled, saved, subs);
    ReversedMultiset(subs);
    var rs := Reversed(subs);
    assert multiset(rs + bundled + saved) == multiset(rs) + multiset(bundled) + multiset(saved);
    assert multiset(bundled + saved + subs) == multiset(bundled) + multiset(saved) + multiset(subs);
  }

  /** The two orders differ whenever the newest submission is not the first
      bundled story: the session starts with the newest submission, the
      reloaded catalogue with the first bundled story. */
  lemma ReloadChangesOrder(bundled: seq<Story>, saved: seq<Story>, subs: seq<Story>)
    requires |subs| > 0 && |bundled| > 0 && subs[|subs| - 1] != bundled[0]
    ensures SessionCatalogue(InitialCatalogue(bundled, Some(saved)), subs)
            != InitialCatalogue(bundled, Some(SessionStore(saved, subs)))
  {
    ReloadReorders(bundled, saved, subs);
    ReversedAt(subs, 0);
    assert (Reversed(subs) + bundled + saved)[0] == subs[|subs| - 1];
    assert (bundled + saved + subs)[0] == bundled[0];
  }
}
