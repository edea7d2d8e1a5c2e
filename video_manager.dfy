/**
  The video manager: the list of captured videos, its grouping into days for
  the capture list, and the table of observers told when the list changes.
  Fetching the videos from the photo library is outside the model; the list
  arrives as a parameter.
 */
module Videos {
  import opened Wrappers

  /** A point in time, in ticks of a fixed fine-grained unit. Dates are
      totally ordered instants; they are only compared and handed to the
      calendar. */
  type Date = int

  /** The components the calendar computes for a date. */
  datatype DateComponents = DateComponents(year: int, month: int, day: int)

  /** The Gregorian calendar in the device's current time zone, which is
      part of the environment and so is given as a parameter. */
  type Calendar = Date -> DateComponents

  /** A captured video: the photo-library asset it stands for and that
      asset's creation date, which the library may not know. */
  datatype Video = Video(asset: nat, creationDate: Option<Date>)

  /** The videos of one day, with the date of the first of them. */
  datatype VideoGroup = VideoGroup(date: Date, videos: seq<Video>)

  // ---------------------------------------------------------------------
  // Sorting newest first

  /** The comparator given to `sorted(by:)`: `lhs` goes before `rhs` when
      `lhs` has no date and `rhs` has one, or both have dates and `lhs`'s
      is later. */
  predicate SortsBefore(lhs: Video, rhs: Video)
  {
    match (lhs.creationDate, rhs.creationDate)
    case (None, None) => false
    case (None, Some(_)) => true
    case (Some(_), None) => false
    case (Some(dateL), Some(dateR)) => dateL > dateR
  }

  /** No element is preceded by one that the comparator puts after it. */
  ghost predicate NewestFirst(s: seq<Video>)
  {
    forall i, j :: 0 <= i < j < |s| ==> !SortsBefore(s[j], s[i])
  }

  /** "Not after" is transitive, as a sort's comparator requires. */
  lemma NotBeforeTransitive(a: Video, b: Video, c: Video)
    requires !SortsBefore(a, b) && !SortsBefore(b, c)
    ensures !SortsBefore(a, c)
  {
  }

  /** Inserts `v` into a list that is already newest first. */
  function Insert(v: Video, s: seq<Video>): (r: seq<Video>)
    ensures multiset(r) == multiset(s) + multiset{v}
    ensures NewestFirst(s) ==> NewestFirst(r)
  {
    if s == [] then [v]
    else if SortsBefore(s[0], v) then
      var rest := Insert(v, s[1..]);
      assert s == [s[0]] + s[1..];
      assert NewestFirst(s) ==> NewestFirst([s[0]] + rest) by {
        if NewestFirst(s) {
          forall j | 0 < j < |rest| + 1
            ensures !SortsBefore(([s[0]] + rest)[j], s[0])
          {
            var x := rest[j - 1];
            assert x in multiset(rest);
            if x != v {
              assert x in multiset(s[1..]);
              var k :| 0 <= k < |s[1..]| && s[1..][k] == x;
              assert s[k + 1] == x;
            }
          }
        }
      }
      [s[0]] + rest
    else
      assert NewestFirst(s) ==> NewestFirst([v] + s) by {
        if NewestFirst(s) {
          forall j | 0 < j < |s| + 1
            ensures !SortsBefore(([v] + s)[j], v)
          {
            if j > 1 {
              NotBeforeTransitive(s[j - 1], s[0], v);
            }
          }
        }
      }
      [v] + s
  }

  /** `self.allVideos.sorted { ... }`: undated videos first, then the dated
      ones from the newest to the oldest. The library sort does not promise
      an order among videos the comparator does not separate; this one
      keeps their original order. */
  function SortNewestFirst(videos: seq<Video>): (r: seq<Video>)
    ensures multiset(r) == multiset(videos)
    ensures NewestFirst(r)
  {
    if videos == [] then []
    else
      assert videos == [videos[0]] + videos[1..];
      Insert(videos[0], SortNewestFirst(videos[1..]))
  }

  /** In a newest-first list every undated video precedes every dated one,
      and the dated ones never get later. */
  lemma NewestFirstOrder(s: seq<Video>, i: int, j: int)
    requires NewestFirst(s) && 0 <= i < j < |s|
    ensures s[j].creationDate.None? ==> s[i].creationDate.None?
    ensures s[i].creationDate.Some? && s[j].creationDate.Some? ==>
              s[i].creationDate.value >= s[j].creationDate.value
  {
  }

  // ---------------------------------------------------------------------
  // Grouping into days

  /** `onSameDay`: the two dates have the same year and the same day of the
      month. The month itself is not compared. */
  predicate OnSameDay(calendar: Calendar, lhs: Date, rhs: Date)
  {
    calendar(lhs).year == calendar(rhs).year && calendar(lhs).day == calendar(rhs).day
  }

  /** Two dates in the same year on the same day number count as one day
      even when their months differ, and the relation is an equivalence. */
  lemma OnSameDayIgnoresMonth(calendar: Calendar, a: Date, b: Date, c: Date)
    ensures (calendar(a).year == calendar(b).year && calendar(a).day == calendar(b).day)
              ==> OnSameDay(calendar, a, b)
    ensures OnSameDay(calendar, a, a)
    ensures OnSameDay(calendar, a, b) ==> OnSameDay(calendar, b, a)
    ensures OnSameDay(calendar, a, b) && OnSameDay(calendar, b, c) ==> OnSameDay(calendar, a, c)
  {
  }

  /** The state of the grouping loop: the groups flushed so far and the
      group being filled. */
  datatype GroupingState = GroupingState(done: seq<VideoGroup>, current: Option<VideoGroup>)

  /** `flush()`: the flushed groups followed by the current one, if any. */
  function Flushed(st: GroupingState): seq<VideoGroup>
  {
    if st.current.Some? then st.done + [st.current.value] else st.done
  }

  /** One iteration of the grouping loop. */
  function Step(calendar: Calendar, st: GroupingState, video: Video): GroupingState
  {
    match video.creationDate
    case None => st
    case Some(creationDate) =>
      if st.current.Some? && OnSameDay(calendar, st.current.value.date, creationDate) then
        st.(current := Some(st.current.value.(videos := st.current.value.videos + [video])))
      else
        GroupingState(Flushed(st), Some(VideoGroup(creationDate, [video])))
  }

  /** The loop state after the loop has gone through `videos`. */
  function Scan(calendar: Calendar, videos: seq<Video>): GroupingState
  {
    if videos == [] then GroupingState([], None)
    else Step(calendar, Scan(calendar, videos[..|videos| - 1]), videos[|videos| - 1])
  }

  /** The groups `recalculateGroups` builds from an already sorted list. */
  function GroupVideos(calendar: Calendar, sorted: seq<Video>): seq<VideoGroup>
  {
    Flushed(Scan(calendar, sorted))
  }

  /** The videos that have a creation date, in their order. */
  function Dated(videos: seq<Video>): (r: seq<Video>)
    ensures forall v :: v in r ==> v in videos && v.creationDate.Some?
  {
    if videos == [] then []
    else
      var last := videos[|videos| - 1];
      Dated(videos[..|videos| - 1]) + (if last.creationDate.Some? then [last] else [])
  }

  /** The groups' video lists, one after the other. */
  function Concat(groups: seq<VideoGroup>): seq<Video>
  {
    if groups == [] then [] else Concat(groups[..|groups| - 1]) + groups[|groups| - 1].videos
  }

  lemma ConcatAppend(groups: seq<VideoGroup>, g: VideoGroup)
    ensures Concat(groups + [g]) == Concat(groups) + g.videos
  {
    assert (groups + [g])[..|groups|] == groups;
  }

  /** Every group is non-empty, starts with a video of its own date, and
      holds only videos on the same day as that date; and each group's date
      is not on the same day as the previous group's. */
  ghost predicate WellGrouped(calendar: Calendar, groups: seq<VideoGroup>)
  {
    && (forall k :: 0 <= k < |groups| ==>
          groups[k].videos != [] && groups[k].videos[0].creationDate == Some(groups[k].date))
    && (forall k, i :: 0 <= k < |groups| && 0 <= i < |groups[k].videos| ==>
          groups[k].videos[i].creationDate.Some?
          && OnSameDay(calendar, groups[k].date, groups[k].videos[i].creationDate.value))
    && (forall k :: 0 < k < |groups| ==> !OnSameDay(calendar, groups[k - 1].date, groups[k].date))
  }

  /** What holds of the grouping loop's state after each iteration. */
  ghost predicate ScanInvariant(calendar: Calendar, videos: seq<Video>, st: GroupingState)
  {
    && (st.current.None? ==> st.done == [])
    && Concat(Flushed(st)) == Dated(videos)
    && WellGrouped(calendar, Flushed(st))
  }

  lemma DatedAppend(videos: seq<Video>, video: Video)
    ensures Dated(videos + [video]) == Dated(videos) + (if video.creationDate.Some? then [video] else [])
  {
    assert (videos + [video])[..|videos|] == videos;
  }

  /** A dated video on the same day as the current group joins it. */
  lemma JoinCurrentKeepsInvariant(calendar: Calendar, videos: seq<Video>, st: GroupingState, video: Video)
    requires ScanInvariant(calendar, videos, st)
    requires video.creationDate.Some? && st.current.Some?
    requires OnSameDay(calendar, st.current.value.date, video.creationDate.value)
    ensures ScanInvariant(calendar, videos + [video], Step(calendar, st, video))
  {
    var c := st.current.value;
    var c' := c.(videos := c.videos + [video]);
    var next := Step(calendar, st, video);
    assert next == st.(current := Some(c'));
    DatedAppend(videos, video);
    ConcatAppend(st.done, c);
    ConcatAppend(st.done, c');
    var old_gs := Flushed(st);
    var gs := Flushed(next);
    assert gs == st.done + [c'];
    assert |gs| == |old_gs|;
    forall k | 0 <= k < |gs|
      ensures gs[k].date == old_gs[k].date
      ensures gs[k].videos != [] && gs[k].videos[0] == old_gs[k].videos[0]
    {
    }
    forall k, i | 0 <= k < |gs| && 0 <= i < |gs[k].videos|
      ensures gs[k].videos[i].creationDate.Some?
      ensures OnSameDay(calendar, gs[k].date, gs[k].videos[i].creationDate.value)
    {
      if k < |st.done| {
        assert gs[k] == old_gs[k];
      } else if i < |c.videos| {
        assert gs[k].videos[i] == old_gs[k].videos[i];
      }
    }
  }

  /** A dated video that does not join the current group starts a new one. */
  lemma StartGroupKeepsInvariant(calendar: Calendar, videos: seq<Video>, st: GroupingState, video: Video)
    requires ScanInvariant(calendar, videos, st)
    requires video.creationDate.Some?
    requires !(st.current.Some? && OnSameDay(calendar, st.current.value.date, video.creationDate.value))
    ensures ScanInvariant(calendar, videos + [video], Step(calendar, st, video))
  {
    var g := VideoGroup(video.creationDate.value, [video]);
    var next := Step(calendar, st, video);
    assert next == GroupingState(Flushed(st), Some(g));
    DatedAppend(videos, video);
    ConcatAppend(Flushed(st), g);
    assert Flushed(next) == Flushed(st) + [g];
  }

  lemma {:induction false} ScanKeepsInvariant(calendar: Calendar, videos: seq<Video>)
    ensures ScanInvariant(calendar, videos, Scan(calendar, videos))
  {
    if videos != [] {
      var prefix := videos[..|videos| - 1];
      var video := videos[|videos| - 1];
      assert videos == prefix + [video];
      var st := Scan(calendar, prefix);
      ScanKeepsInvariant(calendar, prefix);
      if video.creationDate.None? {
        DatedAppend(prefix, video);
      } else if st.current.Some? && OnSameDay(calendar, st.current.value.date, video.creationDate.value) {
        JoinCurrentKeepsInvariant(calendar, prefix, st, video);
      } else {
        StartGroupKeepsInvariant(calendar, prefix, st, video);
      }
    }
  }

  /** The groups built from a list hold exactly its dated videos, in order,
      each once, and are grouped into days as described by `WellGrouped`. */
  lemma GroupVideosCorrect(calendar: Calendar, sorted: seq<Video>)
    ensures Concat(GroupVideos(calendar, sorted)) == Dated(sorted)
    ensures WellGrouped(calendar, GroupVideos(calendar, sorted))
  {
    ScanKeepsInvariant(calendar, sorted);
  }

  /** A video without a creation date is in no group. */
  lemma UndatedInNoGroup(calendar: Calendar, sorted: seq<Video>, v: Video)
    requires v.creationDate.None?
    ensures v !in Concat(GroupVideos(calendar, sorted))
  {
    GroupVideosCorrect(calendar, sorted);
  }

  // ---------------------------------------------------------------------
  // The manager object

  /** Observer tokens, as handed out by `register`: the counter starts at 0
      and only grows, so tokens are never negative. */
  type Token = nat

  /** A registered observer callback, known by its identity. */
  datatype Observer = Observer(id: nat)

  /** One call of an observer: which entry was called and the grouped
      videos it could see at that moment. */
  datatype ObserverCall = ObserverCall(token: Token, observer: Observer, groupsSeen: seq<VideoGroup>)

  /** The tokens of the observers called, in a list of calls. */
  function Tokens(calls: seq<ObserverCall>): set<Token>
  {
    set c | c in calls :: c.token
  }

  class VideoManager {
    var observers: map<Token, Observer>
    var currentToken: Token
    var allVideos: seq<Video>
    var groupedVideos: seq<VideoGroup>

    /** Every registered token was handed out by `register`, so lies in
        `1..currentToken`. */
    ghost predicate Valid()
      reads this
    {
      forall t :: t in observers ==> 1 <= t <= currentToken
    }

    /** `init()`, before the first fetch from the photo library arrives. */
    constructor ()
      ensures Valid()
      ensures observers == map[] && currentToken == 0
      ensures allVideos == [] && groupedVideos == []
    {
      observers := map[];
      currentToken := 0;
      allVideos := [];
      groupedVideos := [];
    }

    /** `flush()`: appends the current group, if there is one. */
    method Flush(currentGroup: Option<VideoGroup>)
      modifies this`groupedVideos
      ensures groupedVideos == Flushed(GroupingState(old(groupedVideos), currentGroup))
    {
      if currentGroup.Some? {
        groupedVideos := groupedVideos + [currentGroup.value];
      }
    }

    /** `recalculateGroups()`: sorts the videos newest first and buckets the
        dated ones into days. */
    method RecalculateGroups(calendar: Calendar)
      modifies this`groupedVideos
      ensures groupedVideos == GroupVideos(calendar, SortNewestFirst(allVideos))
    {
      var sorted := SortNewestFirst(allVideos);
      groupedVideos := [];
      var currentGroup: Option<VideoGroup> := None;
      for i := 0 to |sorted|
        invariant GroupingState(groupedVideos, currentGroup) == Scan(calendar, sorted[..i])
      {
        var video := sorted[i];
        assert sorted[..i + 1][..i] == sorted[..i];
        match video.creationDate {
          case None =>
          case Some(creationDate) =>
            if currentGroup.Some? && OnSameDay(calendar, currentGroup.value.date, creationDate) {
              currentGroup := Some(currentGroup.value.(videos := currentGroup.value.videos + [video]));
            } else {
              Flush(currentGroup);
              currentGroup := Some(VideoGroup(creationDate, [video]));
            }
        }
      }
      assert sorted[..|sorted|] == sorted;
      Flush(currentGroup);
    }

    /** Assigning `allVideos`: its `didSet` recomputes the groups and then
        calls every registered observer once, so that each sees the new
        groups. What the observers do is outside the model. */
    method SetAllVideos(videos: seq<Video>, calendar: Calendar) returns (calls: seq<ObserverCall>)
      requires Valid()
      modifies this
      ensures Valid()
      ensures allVideos == videos
      ensures groupedVideos == GroupVideos(calendar, SortNewestFirst(videos))
      ensures observers == old(observers) && currentToken == old(currentToken)
      ensures Tokens(calls) == observers.Keys
      ensures forall i, j :: 0 <= i < j < |calls| ==> calls[i].token != calls[j].token
      ensures forall c :: c in calls ==> c.token in observers && c.observer == observers[c.token]
      ensures forall c :: c in calls ==> c.groupsSeen == groupedVideos
    {
      allVideos := videos;
      RecalculateGroups(calendar);
      calls := [];
      var pending := observers.Keys;
      while pending != {}
        invariant pending <= observers.Keys
        invariant Tokens(calls) == observers.Keys - pending
        invariant forall i, j :: 0 <= i < j < |calls| ==> calls[i].token != calls[j].token
        invariant forall c :: c in calls ==> c.token in observers && c.observer == observers[c.token]
        invariant forall c :: c in calls ==> c.groupsSeen == groupedVideos
        modifies {}
        decreases pending
      {
        var token :| token in pending;
        var call := ObserverCall(token, observers[token], groupedVideos);
        assert token !in Tokens(calls);
        assert forall i :: 0 <= i < |calls| ==> calls[i].token != token by {
          forall i | 0 <= i < |calls| ensures calls[i].token != token {
            assert calls[i] in calls;
          }
        }
        assert Tokens(calls + [call]) == Tokens(calls) + {token};
        calls := calls + [call];
        pending := pending - {token};
      }
    }

    /** `register(observer:)`: hands out the next token and files the
        observer under it. */
    method Register(observer: Observer) returns (token: Token)
      requires Valid()
      modifies this`observers, this`currentToken
      ensures Valid()
      ensures token == currentToken == old(currentToken) + 1
      ensures forall t :: t in old(observers) ==> t < token
      ensures observers == old(observers)[token := observer]
    {
      currentToken := currentToken + 1;
      token := currentToken;
      observers := observers[token := observer];
    }

    /** `unregister(token:)`: the token must be registered; only its entry
        is removed. */
    method Unregister(token: Token)
      requires Valid()
      requires token in observers
      modifies this`observers
      ensures Valid()
      ensures observers == old(observers) - {token}
    {
      observers := observers - {token};
    }
  }
}
