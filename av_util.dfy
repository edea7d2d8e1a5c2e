/**
  Capture helpers: the mappings between interface, device and capture
  orientations, the highest frame rate a capture format supports, and the
  choice of the best format for a capture device.
 */
module AVUtil {
  import opened Wrappers

  /** The orientation of the user interface. */
  datatype InterfaceOrientation =
    | InterfaceUnknown
    | InterfacePortrait
    | InterfacePortraitUpsideDown
    | InterfaceLandscapeLeft
    | InterfaceLandscapeRight

  /** The physical orientation of the device. */
  datatype DeviceOrientation =
    | DeviceUnknown
    | DevicePortrait
    | DevicePortraitUpsideDown
    | DeviceLandscapeLeft
    | DeviceLandscapeRight
    | DeviceFaceUp
    | DeviceFaceDown

  /** The orientation of captured video. */
  datatype CaptureOrientation =
    | Portrait
    | PortraitUpsideDown
    | LandscapeRight
    | LandscapeLeft

  /** `interfaceOrientation`: each capture orientation as the interface
      orientation of the same name. */
  function ToInterfaceOrientation(o: CaptureOrientation): (r: InterfaceOrientation)
    ensures r != InterfaceUnknown
  {
    match o
    case LandscapeLeft => InterfaceLandscapeLeft
    case LandscapeRight => InterfaceLandscapeRight
    case Portrait => InterfacePortrait
    case PortraitUpsideDown => InterfacePortraitUpsideDown
  }

  /** `init(interfaceOrientation:)`: the capture orientation of the same
      name, and portrait for an unknown interface orientation. */
  function FromInterfaceOrientation(i: InterfaceOrientation): CaptureOrientation
  {
    match i
    case InterfaceLandscapeRight => LandscapeRight
    case InterfaceLandscapeLeft => LandscapeLeft
    case InterfacePortrait => Portrait
    case InterfacePortraitUpsideDown => PortraitUpsideDown
    case _ => Portrait
  }

  /** `init?(deviceOrientation:)`: landscape is mirrored (the device's left
      is the capture's right), portrait is kept, and a device lying flat or
      in an unknown position gives no capture orientation. */
  function FromDeviceOrientation(d: DeviceOrientation): Option<CaptureOrientation>
  {
    match d
    case DeviceLandscapeRight => Some(LandscapeLeft)
    case DeviceLandscapeLeft => Some(LandscapeRight)
    case DevicePortrait => Some(Portrait)
    case DevicePortraitUpsideDown => Some(PortraitUpsideDown)
    case _ => None
  }

  /** Going to the interface orientation and back is the identity, and the
      way back is onto: every capture orientation comes from one interface
      orientation other than the unknown one. */
  lemma InterfaceRoundTrip(o: CaptureOrientation, i: InterfaceOrientation)
    ensures FromInterfaceOrientation(ToInterfaceOrientation(o)) == o
    ensures i != InterfaceUnknown ==> ToInterfaceOrientation(FromInterfaceOrientation(i)) == i
    ensures i == InterfaceUnknown ==> FromInterfaceOrientation(i) == Portrait
  {
  }

  /** The device mapping is defined exactly on the four upright positions
      and is one-to-one there, swapping the two landscape orientations. */
  lemma DeviceMapping(d: DeviceOrientation, e: DeviceOrientation)
    ensures FromDeviceOrientation(d).None? <==> d in {DeviceUnknown, DeviceFaceUp, DeviceFaceDown}
    ensures FromDeviceOrientation(DeviceLandscapeLeft) == Some(LandscapeRight)
    ensures FromDeviceOrientation(DeviceLandscapeRight) == Some(LandscapeLeft)
    ensures FromDeviceOrientation(DevicePortrait) == Some(Portrait)
    ensures FromDeviceOrientation(DevicePortraitUpsideDown) == Some(PortraitUpsideDown)
    ensures FromDeviceOrientation(d).Some? && FromDeviceOrientation(d) == FromDeviceOrientation(e) ==> d == e
  {
  }

  // ---------------------------------------------------------------------
  // Frame rates and formats

  /** A frame-rate range of a capture format; rates in frames per second. */
  datatype FrameRateRange = FrameRateRange(minFrameRate: real, maxFrameRate: real)

  /** A capture format: its frame-rate ranges and the media subtype code of
      its format description. */
  datatype Format = Format(ranges: seq<FrameRateRange>, mediaSubType: bv32)

  /** The running maximum over the ranges' maximum rates, starting at 0. */
  function MaxFrameRate(ranges: seq<FrameRateRange>): real
  {
    if ranges == [] then 0.0
    else
      var m := MaxFrameRate(ranges[..|ranges| - 1]);
      var rate := ranges[|ranges| - 1].maxFrameRate;
      if rate > m then rate else m
  }

  /** The running maximum is at least 0 and every range's maximum rate, and
      it is 0 or one of those rates. */
  lemma {:induction false} MaxFrameRateIsMaximum(ranges: seq<FrameRateRange>)
    ensures MaxFrameRate(ranges) >= 0.0
    ensures forall k :: 0 <= k < |ranges| ==> ranges[k].maxFrameRate <= MaxFrameRate(ranges)
    ensures MaxFrameRate(ranges) == 0.0
              || exists k :: 0 <= k < |ranges| && ranges[k].maxFrameRate == MaxFrameRate(ranges)
  {
    if ranges != [] {
      var prefix := ranges[..|ranges| - 1];
      MaxFrameRateIsMaximum(prefix);
      assert forall k :: 0 <= k < |prefix| ==> prefix[k] == ranges[k];
    }
  }

  /** `maxSupportedFrameRate`: the loop over the format's ranges. */
  method MaxSupportedFrameRate(format: Format) returns (m: real)
    ensures m == MaxFrameRate(format.ranges)
    ensures m >= 0.0
    ensures forall k :: 0 <= k < |format.ranges| ==> format.ranges[k].maxFrameRate <= m
    ensures m == 0.0 || exists k :: 0 <= k < |format.ranges| && format.ranges[k].maxFrameRate == m
  {
    m := 0.0;
    for i := 0 to |format.ranges|
      invariant m == MaxFrameRate(format.ranges[..i])
    {
      assert format.ranges[..i + 1][..i] == format.ranges[..i];
      if format.ranges[i].maxFrameRate > m {
        m := format.ranges[i].maxFrameRate;
      }
    }
    assert format.ranges[..|format.ranges|] == format.ranges;
    MaxFrameRateIsMaximum(format.ranges);
  }

  /** Swift's `Int(x)` for a rate: truncation toward zero. */
  function Truncate(x: real): int
  {
    if x >= 0.0 then x.Floor else -((-x).Floor)
  }

  /** A full-range format: the low byte of its media subtype is `'f'` (102). */
  predicate IsFull(format: Format)
  {
    format.mediaSubType & 0xFF == 102
  }

  /** `formatPriority`: twice the whole frame rate, plus one for full range. */
  function Priority(format: Format): int
  {
    Truncate(MaxFrameRate(format.ranges)) * 2 + (if IsFull(format) then 1 else 0)
  }

  /** A higher whole frame rate wins whatever the range; at an equal whole
      frame rate, full range wins. */
  lemma PriorityOrder(a: Format, b: Format)
    ensures Truncate(MaxFrameRate(a.ranges)) > Truncate(MaxFrameRate(b.ranges)) ==> Priority(a) > Priority(b)
    ensures Truncate(MaxFrameRate(a.ranges)) == Truncate(MaxFrameRate(b.ranges)) ==>
              (Priority(a) > Priority(b) <==> IsFull(a) && !IsFull(b))
  {
  }

  /** The order `sort(by:)` establishes: priorities never increase. */
  ghost predicate ByPriority(s: seq<Format>)
  {
    forall i, j :: 0 <= i < j < |s| ==> Priority(s[i]) >= Priority(s[j])
  }

  /** Exchanges two elements of the array. */
  method Swap(a: array<Format>, i: int, j: int)
    requires 0 <= i < a.Length && 0 <= j < a.Length
    modifies a
    ensures a[..] == old(a[..])[i := old(a[j])][j := old(a[i])]
    ensures multiset(a[..]) == multiset(old(a[..]))
  {
    a[i], a[j] := a[j], a[i];
  }

  /** The state of the insertion of `s[j]` (which started at `i`) into the
      sorted prefix: the prefix up to `i` is in order except around `j`, and
      what lies after `j` has lower priority than `s[j]`. */
  ghost predicate Inserting(s: seq<Format>, i: int, j: int)
  {
    && 0 <= j <= i < |s|
    && (forall k, l :: 0 <= k < l <= i && l != j && k != j ==> Priority(s[k]) >= Priority(s[l]))
    && (forall k, l :: 0 <= k < j < l <= i ==> Priority(s[k]) >= Priority(s[l]))
    && (forall l :: j < l <= i ==> Priority(s[j]) > Priority(s[l]))
  }

  lemma InsertingStarts(s: seq<Format>, i: int)
    requires 0 <= i < |s| && ByPriority(s[..i])
    ensures Inserting(s, i, i)
  {
    forall k, l | 0 <= k < l < i
      ensures Priority(s[k]) >= Priority(s[l])
    {
      assert s[..i][k] == s[k] && s[..i][l] == s[l];
    }
  }

  lemma InsertingSwaps(s: seq<Format>, i: int, j: int)
    requires Inserting(s, i, j) && 0 < j && Priority(s[j - 1]) < Priority(s[j])
    ensures Inserting(s[j - 1 := s[j]][j := s[j - 1]], i, j - 1)
  {
  }

  lemma InsertingEnds(s: seq<Format>, i: int, j: int)
    requires Inserting(s, i, j) && (j == 0 || Priority(s[j - 1]) >= Priority(s[j]))
    ensures ByPriority(s[..i + 1])
  {
    forall k, l | 0 <= k < l <= i
      ensures Priority(s[k]) >= Priority(s[l])
    {
      if l == j && k < j - 1 {
        assert Priority(s[k]) >= Priority(s[j - 1]);
      }
    }
  }

  /** Exchanging two elements at or before `i` leaves what lies after `i` alone. */
  lemma SwapKeepsSuffix(s: seq<Format>, j: int, i: int)
    requires 0 < j <= i < |s|
    ensures s[j - 1 := s[j]][j := s[j - 1]][i + 1..] == s[i + 1..]
  {
  }

  /** When the suffix after `i` is unchanged, a permutation of the whole is a
      permutation of the prefix up to `i`. */
  lemma PrefixPermutation(s: seq<Format>, t: seq<Format>, i: int)
    requires 0 <= i < |s| == |t|
    requires s[i + 1..] == t[i + 1..] && multiset(s) == multiset(t)
    ensures multiset(s[..i + 1]) == multiset(t[..i + 1])
  {
    assert s == s[..i + 1] + s[i + 1..];
    assert t == t[..i + 1] + t[i + 1..];
    var prefixS, prefixT, suffix := multiset(s[..i + 1]), multiset(t[..i + 1]), multiset(s[i + 1..]);
    assert prefixS + suffix == prefixT + suffix;
    forall f ensures prefixS[f] == prefixT[f] {
      assert (prefixS + suffix)[f] == (prefixT + suffix)[f];
    }
  }

  /** Moves `a[i]` down into the sorted prefix `a[..i]`. */
  method InsertIntoPrefix(a: array<Format>, i: int)
    requires 0 <= i < a.Length
    requires ByPriority(a[..i])
    modifies a
    ensures ByPriority(a[..i + 1])
    ensures multiset(a[..i + 1]) == multiset(old(a[..i + 1]))
    ensures a[i + 1..] == old(a[i + 1..])
    ensures multiset(a[..]) == multiset(old(a[..]))
  {
    ghost var original := a[..];
    InsertingStarts(a[..], i);
    var j := i;
    while j > 0 && Priority(a[j - 1]) < Priority(a[j])
      invariant Inserting(a[..], i, j)
      invariant a[..][i + 1..] == original[i + 1..]
      invariant multiset(a[..]) == multiset(original)
    {
      InsertingSwaps(a[..], i, j);
      SwapKeepsSuffix(a[..], j, i);
      Swap(a, j - 1, j);
      j := j - 1;
    }
    InsertingEnds(a[..], i, j);
    PrefixPermutation(a[..], original, i);
    assert a[..i + 1] == a[..][..i + 1];
    assert a[i + 1..] == a[..][i + 1..];
  }

  /** `formats.sort(by: { formatPriority($0) > formatPriority($1) })`, in
      place: an insertion sort on the priority. */
  method SortByPriority(a: array<Format>)
    modifies a
    ensures ByPriority(a[..])
    ensures multiset(a[..]) == multiset(old(a[..]))
  {
    for i := 0 to a.Length
      invariant ByPriority(a[..i])
      invariant multiset(a[..]) == multiset(old(a[..]))
    {
      InsertIntoPrefix(a, i);
    }
    assert a[..a.Length] == a[..];
  }

  /** A capture device: its formats and the one it is set to. */
  class CaptureDevice {
    const formats: seq<Format>
    var activeFormat: Format

    constructor (formats: seq<Format>, activeFormat: Format)
      ensures this.formats == formats && this.activeFormat == activeFormat
    {
      this.formats := formats;
      this.activeFormat := activeFormat;
    }

    /** `setBestFormat`: sorts a copy of the formats by priority and makes
        the first the active format if its rate exceeds 60 frames per
        second and the device can be locked for configuration. Returns the
        format considered, if there is any format at all. */
    method SetBestFormat(lockSucceeds: bool) returns (considered: Option<Format>)
      modifies this
      ensures considered.Some? <==> formats != []
      ensures considered.Some? ==> considered.value in formats
      ensures considered.Some? ==> forall f :: f in formats ==> Priority(considered.value) >= Priority(f)
      ensures activeFormat == (if considered.Some? && MaxFrameRate(considered.value.ranges) > 60.0 && lockSucceeds
                               then considered.value else old(activeFormat))
    {
      var sorted := new Format[|formats|](i requires 0 <= i < |formats| reads this => formats[i]);
      assert sorted[..] == formats;
      SortByPriority(sorted);
      if sorted.Length == 0 {
        return None;
      }
      var first := sorted[0];
      assert first in multiset(formats) by {
        assert first in sorted[..];
      }
      forall f | f in formats
        ensures Priority(first) >= Priority(f)
      {
        assert f in multiset(sorted[..]);
        var k :| 0 <= k < sorted.Length && sorted[k] == f;
        assert k == 0 || Priority(sorted[0]) >= Priority(sorted[k]);
      }
      considered := Some(first);
      var rate := MaxSupportedFrameRate(first);
      if rate > 60.0 {
        if lockSucceeds {
          activeFormat := first;
        }
      }
    }
  }
}
