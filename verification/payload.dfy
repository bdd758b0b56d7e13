/**
 * The fields of the "object detected" trigger payload that are built from
 * the event by plain string construction: the clip URL and the
 * comma-joined zone lists. Images are represented only by where they come
 * from (the NVR, or the placeholder asset).
 */
module Payload {
  import opened Events

  /** Path pieces of the NVR's clip endpoint. */
  const ClipPrefix: string := "/api/events/"
  const ClipSuffix: string := "/clip.mp4"

  /** The separator the zone lists are joined with. */
  const ZoneSeparator: char := ','

  /** The clip URL: empty unless the event has a clip. */
  function ClipURL(frigateURL: string, hasClip: bool, eventId: string): (url: string)
    ensures url == "" <==> !hasClip
    ensures hasClip ==> |url| == |frigateURL| + |ClipPrefix| + |eventId| + |ClipSuffix|
  {
    if hasClip then frigateURL + ClipPrefix + eventId + ClipSuffix else ""
  }

  /** Reads the event id back out of a clip URL for the given NVR base URL. */
  function ParseClipURL(frigateURL: string, url: string): (id: Option<string>)
    ensures id.Some? ==> |url| == |frigateURL| + |ClipPrefix| + |id.value| + |ClipSuffix|
  {
    var head := frigateURL + ClipPrefix;
    if |url| >= |head| + |ClipSuffix| && url[..|head|] == head
       && url[|url| - |ClipSuffix|..] == ClipSuffix
    then Some(url[|head|..|url| - |ClipSuffix|])
    else None
  }

  /** A clip URL names its event: parsing it gives back the id. */
  lemma ClipURLRoundTrip(frigateURL: string, eventId: string)
    ensures ParseClipURL(frigateURL, ClipURL(frigateURL, true, eventId)) == Some(eventId)
  {
  }

  /** Conversely, every URL the parser accepts is the clip URL of the id it reads. */
  lemma ParseClipURLSound(frigateURL: string, url: string)
    requires ParseClipURL(frigateURL, url).Some?
    ensures ClipURL(frigateURL, true, ParseClipURL(frigateURL, url).value) == url
  {
  }

  /** `Array.prototype.join` with a one-character separator. */
  function Join(xs: seq<string>, sep: char): (s: string)
    ensures |xs| == 1 ==> s == xs[0]
    ensures (forall i :: 0 <= i < |xs| ==> sep !in xs[i]) ==>
      multiset(s)[sep] == if |xs| == 0 then 0 else |xs| - 1
  {
    if |xs| == 0 then ""
    else if |xs| == 1 then xs[0]
    else xs[0] + [sep] + Join(xs[1..], sep)
  }

  /** `String.prototype.split` on one character: the pieces between separators. */
  function Split(s: string, sep: char): (parts: seq<string>)
    ensures |parts| == multiset(s)[sep] + 1
    ensures forall i :: 0 <= i < |parts| ==> sep !in parts[i]
  {
    if |s| == 0 then [""]
    else
      var rest := Split(s[1..], sep);
      assert s == [s[0]] + s[1..];
      if s[0] == sep then [""] + rest
      else [[s[0]] + rest[0]] + rest[1..]
  }

  /** Splitting a separator-free prefix glued to `t` extends the first piece of `t`. */
  lemma {:induction false} SplitPrefix(a: string, t: string, sep: char)
    requires sep !in a
    ensures Split(a + t, sep) == [a + Split(t, sep)[0]] + Split(t, sep)[1..]
  {
    if |a| > 0 {
      var parts := Split(t, sep);
      var rest := Split((a + t)[1..], sep);
      assert (a + t)[1..] == a[1..] + t;
      SplitPrefix(a[1..], t, sep);
      assert rest == [a[1..] + parts[0]] + parts[1..];
      assert (a + t)[0] == a[0] != sep;
      assert Split(a + t, sep) == [[a[0]] + rest[0]] + rest[1..];
      assert [a[0]] + (a[1..] + parts[0]) == a + parts[0];
    } else {
      var parts := Split(t, sep);
      assert a + t == t && a + parts[0] == parts[0];
      assert parts == [parts[0]] + parts[1..];
    }
  }

  /** Joining zone names that contain no comma and splitting again gives the names back. */
  lemma {:induction false} SplitJoin(xs: seq<string>, sep: char)
    requires |xs| > 0
    requires forall i :: 0 <= i < |xs| ==> sep !in xs[i]
    ensures Split(Join(xs, sep), sep) == xs
  {
    if |xs| == 1 {
      SplitPrefix(xs[0], "", sep);
      assert xs[0] + "" == xs[0];
    } else {
      var tail := Join(xs[1..], sep);
      SplitJoin(xs[1..], sep);
      assert Split([sep] + tail, sep) == [""] + Split(tail, sep) by {
        assert ([sep] + tail)[1..] == tail;
      }
      assert xs[0] + [sep] + tail == xs[0] + ([sep] + tail);
      SplitPrefix(xs[0], [sep] + tail, sep);
      assert xs[0] + "" == xs[0];
      assert xs == [xs[0]] + xs[1..];
    }
  }

  /** A zone list as sent in the payload: `(zones || []).join(',')`. */
  function ZonesField(zones: Option<seq<string>>): (s: string)
    ensures zones.None? ==> s == ""
    ensures zones.Some? && zones.value == [] ==> s == ""
    ensures zones.Some? && (forall i :: 0 <= i < |zones.value| ==> ZoneSeparator !in zones.value[i]) ==>
      multiset(s)[ZoneSeparator] == if |zones.value| == 0 then 0 else |zones.value| - 1
  {
    Join(zones.GetOr([]), ZoneSeparator)
  }

  /** A present, non-empty list of comma-free zone names can be read back from its field. */
  lemma ZonesFieldSplitsBack(zones: seq<string>)
    requires |zones| > 0
    requires forall i :: 0 <= i < |zones| ==> ZoneSeparator !in zones[i]
    ensures Split(ZonesField(Some(zones)), ZoneSeparator) == zones
  {
    SplitJoin(zones, ZoneSeparator);
  }

  /** The two images attached to a trigger. */
  datatype ImageKind = SnapshotImage | ThumbnailImage

  /** Where an image attached to the trigger comes from: the NVR's endpoint for the event, or the placeholder asset. */
  datatype ImageSource = FromNvr(kind: ImageKind, eventId: string) | Placeholder(kind: ImageKind)

  /** The image of the given kind for an event, fetched only when the event has a snapshot. */
  function ImageFor(kind: ImageKind, after: EventState): (img: ImageSource)
    ensures img.kind == kind
    ensures img.FromNvr? <==> after.hasSnapshot
    ensures img.FromNvr? ==> img.eventId == after.id
  {
    if after.hasSnapshot then FromNvr(kind, after.id) else Placeholder(kind)
  }

  /** The payload handed to both trigger cards. */
  datatype TriggerPayload = TriggerPayload(
    objectLabel: string,
    cameraName: string,
    snapshot: ImageSource,
    thumbnail: ImageSource,
    clipURL: string,
    eventId: string,
    currentZones: string,
    enteredZones: string)

  /** Builds the trigger payload for an event whose tracked label is `tracked`. */
  function MakePayload(e: Event, tracked: string, frigateURL: string): (p: TriggerPayload)
    ensures p.objectLabel == tracked && p.cameraName == e.after.camera && p.eventId == e.after.id
    ensures p.snapshot == ImageFor(SnapshotImage, e.after)
    ensures p.thumbnail == ImageFor(ThumbnailImage, e.after)
    ensures p.clipURL == "" <==> !e.after.hasClip
    ensures e.after.hasClip ==> ParseClipURL(frigateURL, p.clipURL) == Some(p.eventId)
    ensures p.currentZones == ZonesField(e.after.currentZones)
    ensures p.enteredZones == ZonesField(e.after.enteredZones)
  {
    ClipURLRoundTrip(frigateURL, e.after.id);
    TriggerPayload(
      tracked, e.after.camera,
      ImageFor(SnapshotImage, e.after), ImageFor(ThumbnailImage, e.after),
      ClipURL(frigateURL, e.after.hasClip, e.after.id),
      e.after.id,
      ZonesField(e.after.currentZones),
      ZonesField(e.after.enteredZones))
  }
}
