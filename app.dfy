/** The app's state and its handlers: the catalogue, the active story, the
    theme, the stored user submissions, and the contribute form. */
module App {
  import opened Stories
  import opened Catalogue
  import Globe

  /** The contribute form's four text fields. */
  class ContributeForm {
    var title: string
    var lat: string
    var lng: string
    var content: string

    constructor ()
      ensures title == "" && lat == "" && lng == "" && content == ""
    {
      title, lat, lng, content := "", "", "", "";
    }

    /** Form submission at time `now`: on a missing title, latitude or
        longitude, the alert text and no change; otherwise the new record, to
        be handed to `onAdd`, and all four fields cleared. */
    method HandleSubmit(now: nat, parseFloat: string -> Coord) returns (outcome: Result<Story, string>)
      modifies this
      ensures outcome == Submission(old(title), old(lat), old(lng), old(content), now, parseFloat)
      ensures outcome.Failure? ==> title == old(title) && lat == old(lat) && lng == old(lng) && content == old(content)
      ensures outcome.Success? ==> title == "" && lat == "" && lng == "" && content == ""
    {
      outcome := Submission(title, lat, lng, content, now, parseFloat);
      if outcome.Failure? {
        return;
      }
      title := "";
      lat := "";
      lng := "";
      content := "";
    }
  }

  /** The app's state. `stored` is the `userStories` entry of local storage.
      `startStories` is the catalogue of the first render: the globe registers
      its click listener once, at mount, so the pin handler it calls is the
      first render's and looks pins up in that catalogue. The ghost fields
      record where the catalogue came from: the bundled stories, the stored
      submissions found at start-up, and the submissions of this session,
      oldest first. */
  class StoryGlobe {
    const startStories: seq<Story>
    var stories: seq<Story>
    var activeStory: Option<Story>
    var theme: Theme
    var stored: seq<Story>

    ghost var bundled: seq<Story>
    ghost var loaded: seq<Story>
    ghost var added: seq<Story>

    /** In memory the session's submissions come newest first before the
        bundled stories; in storage they come oldest first after the earlier
        ones. */
    ghost predicate Valid()
      reads this
    {
      && startStories == bundled + loaded
      && stories == Reversed(added) + bundled + loaded
      && stored == loaded + added
    }

    /** Start-up: merge the bundled stories with what storage holds (`saved` is
        None when it holds nothing), no story open, the Cultural theme. */
    constructor (bundledStories: seq<Story>, saved: Option<seq<Story>>)
      ensures Valid()
      ensures stories == InitialCatalogue(bundledStories, saved) && startStories == stories
      ensures stored == saved.GetOr([])
      ensures activeStory == None && theme == Cultural
      ensures bundled == bundledStories && loaded == saved.GetOr([]) && added == []
    {
      stories := bundledStories + saved.GetOr([]);
      startStories := stories;
      activeStory := None;
      theme := Cultural;
      stored := saved.GetOr([]);
      bundled, loaded, added := bundledStories, saved.GetOr([]), [];
    }

    /** The start-up day/night effect, given the local hour. */
    method ApplyNightTheme(hour: int)
      modifies this`theme
      ensures theme == NightTheme(hour, old(theme))
    {
      theme := NightTheme(hour, theme);
    }

    /** A theme button: reselecting the current theme changes nothing. */
    method SetTheme(t: Theme)
      modifies this`theme
      ensures theme == t
    {
      theme := t;
    }

    /** A pin click, through the handler the globe holds: open the first story
        of the start-up catalogue with the pin's id, or the pin's own data
        when there is none. */
    method OnPinClick(pin: Story)
      modifies this`activeStory
      ensures activeStory == Some(PinLookup(startStories, pin))
    {
      activeStory := Some(PinLookup(startStories, pin));
    }

    /** A click in the story list opens that story. */
    method OnListClick(s: Story)
      modifies this`activeStory
      ensures activeStory == Some(s)
    {
      activeStory := Some(s);
    }

    /** Closing the modal. */
    method OnClose()
      modifies this`activeStory
      ensures activeStory == None
    {
      activeStory := None;
    }

    /** "Next": nothing on an empty catalogue; otherwise the story after the
        current one, wrapping from the last to the first. */
    method GoNext()
      modifies this`activeStory
      ensures activeStory == NextStory(stories, old(activeStory))
      ensures |stories| == 0 ==> activeStory == old(activeStory)
      ensures |stories| > 0 ==> activeStory == Some(stories[NextIndex(CurrentIndex(stories, old(activeStory)), |stories|)])
    {
      if |stories| == 0 {
        return;
      }
      var nextIndex := NextIndex(CurrentIndex(stories, activeStory), |stories|);
      activeStory := Some(stories[nextIndex]);
    }

    /** "Prev": nothing on an empty catalogue; otherwise the story before the
        current one, wrapping from the first to the last. */
    method GoPrev()
      modifies this`activeStory
      ensures activeStory == PrevStory(stories, old(activeStory))
      ensures |stories| == 0 ==> activeStory == old(activeStory)
      ensures |stories| > 0 ==> activeStory == Some(stories[PrevIndex(CurrentIndex(stories, old(activeStory)), |stories|)])
    {
      if |stories| == 0 {
        return;
      }
      var prevIndex := PrevIndex(CurrentIndex(stories, activeStory), |stories|);
      activeStory := Some(stories[prevIndex]);
    }

    /** `onAdd`: the new story goes to the front of the catalogue and to the
        end of the stored list; nothing else changes. */
    method OnAdd(newStory: Story)
      requires Valid()
      modifies this
      ensures Valid()
      ensures stories == [newStory] + old(stories)
      ensures stored == old(stored) + [newStory]
      ensures activeStory == old(activeStory) && theme == old(theme)
      ensures bundled == old(bundled) && loaded == old(loaded) && added == old(added) + [newStory]
    {
      stories := [newStory] + stories;
      var existing := stored;
      existing := existing + [newStory];
      stored := existing;
      added := added + [newStory];
      assert Reversed(added)[1..] == Reversed(old(added)) by {
        assert added[..|added| - 1] == old(added);
      }
    }

    /** Submitting the contribute form: a rejected submission changes neither
        the app nor the form; an accepted one is added exactly once and clears
        the form. */
    method SubmitForm(form: ContributeForm, now: nat, parseFloat: string -> Coord)
      returns (outcome: Result<Story, string>)
      requires Valid()
      modifies this, form
      ensures Valid()
      ensures outcome == Submission(old(form.title), old(form.lat), old(form.lng), old(form.content), now, parseFloat)
      ensures outcome.Failure? ==> stories == old(stories) && stored == old(stored)
      ensures outcome.Failure? ==> form.title == old(form.title) && form.lat == old(form.lat)
                                   && form.lng == old(form.lng) && form.content == old(form.content)
      ensures outcome.Success? ==> stories == [outcome.value] + old(stories)
      ensures outcome.Success? ==> stored == old(stored) + [outcome.value]
      ensures outcome.Success? ==> form.title == "" && form.lat == "" && form.lng == "" && form.content == ""
      ensures activeStory == old(activeStory) && theme == old(theme)
    {
      outcome := form.HandleSubmit(now, parseFloat);
      if outcome.Success? {
        OnAdd(outcome.value);
      }
    }

    /** A click on the globe: when the click finds pin data, the pin-click
        handler runs once with it; otherwise nothing changes. */
    method OnGlobeClick(hit: Option<seq<Globe.SceneNode>>) returns (pin: Option<Story>)
      modifies this`activeStory
      ensures pin == (if hit.Some? then Globe.NearestData(hit.value) else None)
      ensures pin.Some? ==> activeStory == Some(PinLookup(startStories, pin.value))
      ensures pin.None? ==> activeStory == old(activeStory)
    {
      pin := Globe.ClickedPinData(hit);
      if pin.Some? {
        OnPinClick(pin.value);
      }
    }
  }

  /** A pin of a bundled story, as built or after any number of recolourings
      (both keep the story's id), always finds a story with its id in a
      catalogue holding the bundled stories, so the fallback to the pin's own
      data is never taken; with unique ids it finds the bundled story itself,
      without the pin's size and colour. This holds of the start-up catalogue
      the globe's handler searches (`added` empty) and of any later one. */
  lemma PinFindsBundledStory(bundled: seq<Story>, loaded: seq<Story>, added: seq<Story>,
                             pin: Story, i: int)
    requires 0 <= i < |bundled| && pin.id == bundled[i].id
    ensures var catalogue := Reversed(added) + bundled + loaded;
            var r := PinLookup(catalogue, pin);
            r in catalogue && r.id == bundled[i].id
            && (UniqueIds(catalogue) ==> r == bundled[i])
  {
    var catalogue := Reversed(added) + bundled + loaded;
    var at := |added| + i;
    assert catalogue[at] == bundled[i];
    assert catalogue[at].id == pin.id;
    if UniqueIds(catalogue) {
      FirstIndexOfUniqueId(catalogue, at);
    }
  }

  /** The pins a click can deliver, those of the first commit and of every
      later theme change, carry the id of the bundled story at their
      position. */
  lemma GlobePinsKeepIds(bundled: seq<Story>, themes: seq<Theme>, t: Theme, i: int)
    requires 0 <= i < |bundled|
    ensures var points := Globe.RecolorAll(Globe.BuildPoints(bundled, t), themes);
            |points| == |bundled| && points[i].id == bundled[i].id
  {
  }

  /** Entries in front that do not carry an id do not change which later
      entry a search for that id finds. */
  lemma {:induction false} FirstIndexPastPrefix(prefix: seq<Story>, rest: seq<Story>, id: string)
    requires forall j :: 0 <= j < |prefix| ==> prefix[j].id != id
    ensures FirstIndexOfId(prefix + rest, id)
            == if FirstIndexOfId(rest, id) < 0 then -1 else |prefix| + FirstIndexOfId(rest, id)
    decreases |prefix|
  {
    if prefix == [] {
      assert prefix + rest == rest;
    } else {
      assert (prefix + rest)[0] == prefix[0];
      assert (prefix + rest)[1..] == prefix[1..] + rest;
      FirstIndexPastPrefix(prefix[1..], rest, id);
    }
  }

  /** `find` past a prefix that does not carry the id finds what it finds in
      the rest. */
  lemma FindByIdPastPrefix(prefix: seq<Story>, rest: seq<Story>, id: string)
    requires forall j :: 0 <= j < |prefix| ==> prefix[j].id != id
    ensures FindById(prefix + rest, id) == FindById(rest, id)
  {
    FirstIndexPastPrefix(prefix, rest, id);
    var k := FirstIndexOfId(rest, id);
    if k >= 0 {
      assert (prefix + rest)[|prefix| + k] == rest[k];
    }
  }

  /** The globe's handler searches the start-up catalogue, not the current
      one. The two searches agree on every pin whose id no submission of the
      session carries. */
  lemma StartUpLookupAgrees(bundled: seq<Story>, loaded: seq<Story>, added: seq<Story>, pin: Story)
    requires forall j :: 0 <= j < |added| ==> added[j].id != pin.id
    ensures PinLookup(bundled + loaded, pin) == PinLookup(Reversed(added) + bundled + loaded, pin)
  {
    var front := Reversed(added);
    forall j | 0 <= j < |front| ensures front[j].id != pin.id {
      ReversedAt(added, j);
    }
    FindByIdPastPrefix(front, bundled + loaded, pin.id);
    assert Reversed(added) + bundled + loaded == front + (bundled + loaded);
  }

  /** Where a submission shares a start-up story's id, the globe's handler
      opens the start-up story while the current catalogue lists the
      submission first. */
  lemma StartUpLookupCanDiffer(b: Story, u: Story, pin: Story)
    requires b.id == u.id == pin.id && b != u
    ensures PinLookup([b], pin) == b
    ensures PinLookup([u, b], pin) == u
  {
    assert FirstIndexOfId([u, b], pin.id) == 0;
  }
}
