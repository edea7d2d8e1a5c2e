/**
  The scrubbing logic of the mark screen: a pan gesture asks the player to
  seek, and at most one seek is outstanding at a time; a request that
  arrives while a seek is running is parked until it completes.

  Times (`CMTime`) are counts of ticks of one fixed timescale. The player
  itself is outside the model: asking it to seek appends the target to a
  log, and its completion handler is a method the environment calls.
 */
module MarkView {
  import opened Wrappers
  import Videos

  /** A media time, in ticks. */
  type Time = int

  datatype State =
    | Loading
    | Failed
    | Idle
    | Seeking(target: Time)
    | SeekingWithPendingSeek(target: Time)

  /** `min(maximum, max(minimum, t))` with `minimum` the zero time. */
  function Clamp(t: Time, maximum: Time): (r: Time)
    ensures 0 <= maximum ==> 0 <= r <= maximum
    ensures 0 <= t <= maximum ==> r == t
    ensures t < 0 <= maximum ==> r == 0
    ensures maximum < t ==> r == maximum
  {
    var atLeastZero := if t < 0 then 0 else t;
    if maximum < atLeastZero then maximum else atLeastZero
  }

  /** What a transition does: the state it moves to and the seek, if any,
      that it asks the player for. */
  datatype Transition = Transition(next: State, seek: Option<Time>)

  /** The seeks a transition issues, as a list. */
  function Issued(t: Transition): seq<Time>
  {
    if t.seek.Some? then [t.seek.value] else []
  }

  /** `handleGesture`'s switch on the state, for a clamped target. */
  function OnGesture(s: State, target: Time): Transition
  {
    match s
    case Loading => Transition(Loading, None)
    case Failed => Transition(Failed, None)
    case Idle => Transition(Seeking(target), Some(target))
    case Seeking(t) => Transition(SeekingWithPendingSeek(t), None)
    case SeekingWithPendingSeek(_) => Transition(SeekingWithPendingSeek(target), None)
  }

  /** The seek completion handler's switch on the state. Completion in any
      other state is a fatal error in the source, so it is excluded here. */
  function OnSeekCompleted(s: State): Transition
    requires s.Seeking? || s.SeekingWithPendingSeek?
  {
    match s
    case Seeking(_) => Transition(Idle, None)
    case SeekingWithPendingSeek(p) => Transition(Seeking(p), Some(p))
  }

  /** The number of seeks a state has outstanding. */
  function InFlight(s: State): nat
  {
    if s.Seeking? || s.SeekingWithPendingSeek? then 1 else 0
  }

  /** Before the asset is loaded, and after a failure, a gesture changes
      nothing and issues no seek. */
  lemma GestureIgnoredUntilLoaded(s: State, target: Time)
    requires s.Loading? || s.Failed?
    ensures OnGesture(s, target) == Transition(s, None)
  {
  }

  /** From idle, a gesture issues one seek, to its target, and waits for it. */
  lemma GestureFromIdleSeeks(target: Time)
    ensures OnGesture(Idle, target).seek == Some(target)
    ensures OnGesture(Idle, target).next == Seeking(target)
  {
  }

  /** While a seek runs, a gesture issues nothing: from `seeking(t)` it parks
      the in-flight `t` (not its own target) as the pending seek, and with
      a seek already pending it replaces the pending target by its own. */
  lemma GestureWhileSeekingParks(s: State, target: Time)
    requires s.Seeking? || s.SeekingWithPendingSeek?
    ensures OnGesture(s, target).seek == None
    ensures s.Seeking? ==> OnGesture(s, target).next == SeekingWithPendingSeek(s.target)
    ensures s.SeekingWithPendingSeek? ==> OnGesture(s, target).next == SeekingWithPendingSeek(target)
  {
  }

  /** A completion ends a plain seek, and turns a pending seek into the
      next seek issued. */
  lemma CompletionAdvances(s: State)
    requires s.Seeking? || s.SeekingWithPendingSeek?
    ensures s.Seeking? ==> OnSeekCompleted(s) == Transition(Idle, None)
    ensures s.SeekingWithPendingSeek? ==>
              OnSeekCompleted(s) == Transition(Seeking(s.target), Some(s.target))
  {
  }

  /** Every transition keeps the count of outstanding seeks at what the
      state says: a seek is issued exactly when the state starts waiting
      for one. */
  lemma TransitionsKeepOneInFlight(s: State, target: Time)
    ensures InFlight(OnGesture(s, target).next) == InFlight(s) + |Issued(OnGesture(s, target))|
    ensures (s.Seeking? || s.SeekingWithPendingSeek?) ==>
              InFlight(OnSeekCompleted(s).next) + 1 == InFlight(s) + |Issued(OnSeekCompleted(s))|
  {
  }

  // ---------------------------------------------------------------------
  // Runs of the state machine

  /** The gesture transition as written, or as evidently intended (the
      parked seek is the latest target). */
  datatype Variant = AsWritten | Corrected

  /** The gesture transition with the evidently intended parking rule: from
      `seeking(t)` the gesture's own target becomes the pending seek. */
  function OnGestureCorrected(s: State, target: Time): Transition
  {
    match s
    case Seeking(_) => Transition(SeekingWithPendingSeek(target), None)
    case _ => OnGesture(s, target)
  }

  function GestureTransition(v: Variant, s: State, target: Time): Transition
  {
    if v.AsWritten? then OnGesture(s, target) else OnGestureCorrected(s, target)
  }

  /** What happens to the screen: a pan asks for a time (before clamping),
      or the player finishes a seek. */
  datatype Event = Pan(requested: Time) | SeekFinished

  /** The screen with its player: the state, every seek issued so far, how
      many of them have completed, and the latest clamped pan target. */
  datatype Machine = Machine(state: State, issued: seq<Time>, completed: nat, latest: Option<Time>)

  /** One event. The player reports completion only of a seek it was given,
      so a completion with nothing outstanding does not happen; a
      completion that finds no seek in the state is the source's fatal
      error, and yields `None`. */
  function Apply(v: Variant, m: Machine, e: Event, duration: Time): Option<Machine>
  {
    match e
    case Pan(requested) =>
      var target := Clamp(requested, duration);
      var tr := GestureTransition(v, m.state, target);
      Some(Machine(tr.next, m.issued + Issued(tr), m.completed, Some(target)))
    case SeekFinished =>
      if |m.issued| <= m.completed then Some(m)
      else if m.state.Seeking? || m.state.SeekingWithPendingSeek? then
        var tr := OnSeekCompleted(m.state);
        Some(Machine(tr.next, m.issued + Issued(tr), m.completed + 1, m.latest))
      else None
  }

  /** A sequence of events, stopping at a fatal error. */
  function Run(v: Variant, m: Machine, events: seq<Event>, duration: Time): Option<Machine>
    decreases |events|
  {
    if events == [] then Some(m)
    else
      match Apply(v, m, events[0], duration)
      case None => None
      case Some(m') => Run(v, m', events[1..], duration)
  }

  /** A loaded screen: seeks outstanding match the state (so at most one is
      in flight), the running seek is the last one issued, and every target
      lies within the item. */
  ghost predicate Consistent(m: Machine, duration: Time)
  {
    && !m.state.Loading? && !m.state.Failed?
    && |m.issued| == m.completed + InFlight(m.state)
    && (m.state.Seeking? ==> m.issued != [] && m.issued[|m.issued| - 1] == m.state.target)
    && (m.state.SeekingWithPendingSeek? ==> 0 <= m.state.target <= duration)
    && (forall k :: 0 <= k < |m.issued| ==> 0 <= m.issued[k] <= duration)
  }

  lemma ApplyKeepsConsistent(v: Variant, m: Machine, e: Event, duration: Time)
    requires 0 <= duration && Consistent(m, duration)
    ensures Apply(v, m, e, duration).Some?
    ensures Consistent(Apply(v, m, e, duration).value, duration)
  {
    var m' := Apply(v, m, e, duration).value;
    assert forall k :: 0 <= k < |m.issued| ==> m'.issued[k] == m.issued[k];
  }

  /** Starting from a loaded screen, no sequence of pans and seek
      completions reaches the fatal "Unexpected transition", never more
      than one seek is in flight, and every seek target lies in
      `[0, duration]`. */
  lemma {:induction false} NoUnexpectedTransition(v: Variant, m: Machine, events: seq<Event>, duration: Time)
    requires 0 <= duration && Consistent(m, duration)
    ensures Run(v, m, events, duration).Some?
    ensures Consistent(Run(v, m, events, duration).value, duration)
    ensures |Run(v, m, events, duration).value.issued| <= Run(v, m, events, duration).value.completed + 1
    decreases |events|
  {
    if events != [] {
      ApplyKeepsConsistent(v, m, events[0], duration);
      NoUnexpectedTransition(v, Apply(v, m, events[0], duration).value, events[1..], duration);
    }
  }

  /** The parked seek of the corrected machine is always the latest target,
      so once idle the last seek issued went to the latest target. */
  ghost predicate TracksLatest(m: Machine)
  {
    && (m.state.Idle? && m.latest.Some? ==> m.issued != [] && m.issued[|m.issued| - 1] == m.latest.value)
    && (m.state.Seeking? ==> m.latest == Some(m.state.target))
    && (m.state.SeekingWithPendingSeek? ==> m.latest == Some(m.state.target))
  }

  lemma {:induction false} CorrectedSettlesOnLatest(m: Machine, events: seq<Event>, duration: Time)
    requires 0 <= duration && Consistent(m, duration) && TracksLatest(m)
    ensures Run(Corrected, m, events, duration).Some?
    ensures TracksLatest(Run(Corrected, m, events, duration).value)
    decreases |events|
  {
    if events != [] {
      ApplyKeepsConsistent(Corrected, m, events[0], duration);
      var m' := Apply(Corrected, m, events[0], duration).value;
      assert TracksLatest(m');
      CorrectedSettlesOnLatest(m', events[1..], duration);
    }
  }

  lemma RunCons(v: Variant, m: Machine, e: Event, rest: seq<Event>, duration: Time)
    requires Apply(v, m, e, duration).Some?
    ensures Run(v, m, [e] + rest, duration) == Run(v, Apply(v, m, e, duration).value, rest, duration)
  {
    assert ([e] + rest)[0] == e;
    assert ([e] + rest)[1..] == rest;
  }

  /** As written, a pan that arrives while a seek runs is lost: two pans and
      the two completions they lead to leave the player idle at the first
      target, though the latest pan asked for the second. */
  lemma AsWrittenLosesLatestPan()
    ensures var r := Run(AsWritten, Machine(Idle, [], 0, None), [Pan(10), Pan(20), SeekFinished, SeekFinished], 100);
            r.Some? && r.value.state == Idle && r.value.latest == Some(20) && r.value.issued == [10, 10]
  {
    var m1 := Machine(Seeking(10), [10], 0, Some(10));
    var m2 := Machine(SeekingWithPendingSeek(10), [10], 0, Some(20));
    var m3 := Machine(Seeking(10), [10, 10], 1, Some(20));
    var m4 := Machine(Idle, [10, 10], 2, Some(20));
    assert [10] + [] == [10] && [10, 10] + [] == [10, 10] && [10] + [10] == [10, 10];
    RunCons(AsWritten, m3, SeekFinished, [], 100);
    RunCons(AsWritten, m2, SeekFinished, [SeekFinished], 100);
    RunCons(AsWritten, m1, Pan(20), [SeekFinished, SeekFinished], 100);
    RunCons(AsWritten, Machine(Idle, [], 0, None), Pan(10), [Pan(20), SeekFinished, SeekFinished], 100);
  }

  /** With the corrected rule the same pans leave the player at the latest
      target. */
  lemma CorrectedReachesLatestPan()
    ensures var r := Run(Corrected, Machine(Idle, [], 0, None), [Pan(10), Pan(20), SeekFinished, SeekFinished], 100);
            r.Some? && r.value.state == Idle && r.value.issued == [10, 20]
  {
    var m1 := Machine(Seeking(10), [10], 0, Some(10));
    var m2 := Machine(SeekingWithPendingSeek(20), [10], 0, Some(20));
    var m3 := Machine(Seeking(20), [10, 20], 1, Some(20));
    assert [10] + [] == [10] && [10, 20] + [] == [10, 20] && [10] + [20] == [10, 20];
    RunCons(Corrected, m3, SeekFinished, [], 100);
    RunCons(Corrected, m2, SeekFinished, [SeekFinished], 100);
    RunCons(Corrected, m1, Pan(20), [SeekFinished, SeekFinished], 100);
    RunCons(Corrected, Machine(Idle, [], 0, None), Pan(10), [Pan(20), SeekFinished, SeekFinished], 100);
  }

  // ---------------------------------------------------------------------
  // The view controller

  class MarkViewController {
    /** Which parking rule `handleGesture` follows: the source's, or the
        corrected one. */
    const variant: Variant
    var state: State
    var model: Option<Videos.Video>
    /** Whether the player exists, which it does once the asset has loaded. */
    var hasPlayer: bool
    /** The duration of the player's current item. */
    var duration: Time
    var gestureStartTime: Time
    var markedStartTime: Time
    /** Every target handed to `player.seek`, in order. */
    var issued: seq<Time>
    /** How many seek completion handlers have run. */
    var completed: nat

    ghost predicate Valid()
      reads this
    {
      && (state.Loading? <==> !hasPlayer)
      && 0 <= duration
      && if hasPlayer then Consistent(Machine(state, issued, completed, None), duration)
         else issued == [] && completed == 0
    }

    /** A fresh screen is loading, with no model and zero times. */
    constructor (variant: Variant)
      ensures Valid()
      ensures this.variant == variant
      ensures state == Loading && model == None && !hasPlayer
      ensures gestureStartTime == 0 && markedStartTime == 0
      ensures issued == [] && completed == 0
    {
      this.variant := variant;
      state := Loading;
      model := None;
      hasPlayer := false;
      duration := 0;
      gestureStartTime := 0;
      markedStartTime := 0;
      issued := [];
      completed := 0;
    }

    /** `setModel`: may be called only once. Requesting the asset is the
        environment's part; its arrival is `AssetLoaded`. */
    method SetModel(m: Videos.Video)
      requires model.None?
      modifies this`model
      ensures model == Some(m)
    {
      model := Some(m);
    }

    /** The asset request's callback: the player is made and the state
        becomes idle. It runs once, after `setModel`, while loading. */
    method AssetLoaded(itemDuration: Time)
      requires Valid() && model.Some? && state.Loading? && 0 <= itemDuration
      modifies this`state, this`hasPlayer, this`duration
      ensures Valid()
      ensures state == Idle && hasPlayer && duration == itemDuration
    {
      duration := itemDuration;
      hasPlayer := true;
      state := Idle;
    }

    /** `seek(to:)`: waits for a seek to `target` and asks the player for
        it. Without a player nothing happens. */
    method Seek(target: Time)
      modifies this`state, this`issued
      ensures old(hasPlayer) ==> state == Seeking(target) && issued == old(issued) + [target]
      ensures !old(hasPlayer) ==> state == old(state) && issued == old(issued)
    {
      if !hasPlayer {
        return;
      }
      state := Seeking(target);
      issued := issued + [target];
    }

    /** `handleGesture`: the target is the gesture's start time plus the
        pan offset, clamped to the item; then the state decides. Without a
        player nothing happens. A gesture during a running seek parks the
        in-flight target as written, or its own target under the corrected
        rule. */
    method HandleGesture(began: bool, currentTime: Time, offset: Time)
      requires Valid()
      modifies this`state, this`issued, this`gestureStartTime
      ensures Valid()
      ensures !old(hasPlayer) ==>
                state == old(state) && issued == old(issued) && gestureStartTime == old(gestureStartTime)
      ensures old(hasPlayer) ==>
                && gestureStartTime == (if began then currentTime else old(gestureStartTime))
                && var tr := GestureTransition(variant, old(state), Clamp(gestureStartTime + offset, duration));
                   state == tr.next && issued == old(issued) + Issued(tr)
    {
      if !hasPlayer {
        return;
      }
      if began {
        gestureStartTime := currentTime;
      }
      var target := Clamp(gestureStartTime + offset, duration);
      ghost var before := Machine(state, issued, completed, None);
      match state {
        case Loading =>
        case Failed =>
        case Idle =>
          Seek(target);
        case Seeking(time) =>
          state := SeekingWithPendingSeek(if variant.AsWritten? then time else target);
        case SeekingWithPendingSeek(_) =>
          state := SeekingWithPendingSeek(target);
      }
      assert forall k :: 0 <= k < |before.issued| ==> issued[k] == before.issued[k];
    }

    /** The completion handler of a seek: the player reports it finished
        (the source insists it always does), and only for a seek it was
        given, so one is outstanding. A plain seek ends, a pending one is
        issued. The state is then always a seeking one, so the source's
        fatal error is never reached. */
    method SeekCompleted(finished: bool)
      requires Valid()
      requires finished
      requires |issued| > completed
      modifies this`state, this`issued, this`completed
      ensures Valid()
      ensures old(state).Seeking? || old(state).SeekingWithPendingSeek?
      ensures completed == old(completed) + 1
      ensures var tr := OnSeekCompleted(old(state)); state == tr.next && issued == old(issued) + Issued(tr)
    {
      ghost var before := Machine(state, issued, completed, None);
      match state {
        case Seeking(_) =>
          state := Idle;
        case SeekingWithPendingSeek(newTarget) =>
          Seek(newTarget);
      }
      completed := completed + 1;
      assert forall k :: 0 <= k < |before.issued| ==> issued[k] == before.issued[k];
    }

    /** `handleMarkStartTime`: remembers the player's current time. */
    method HandleMarkStartTime(currentTime: Time)
      requires hasPlayer
      modifies this`markedStartTime
      ensures markedStartTime == currentTime
    {
      markedStartTime := currentTime;
    }
  }
}
