/** Per-type track extraction from the streams the media probe reports
    (get_audio_tracks and get_subtitle_tracks), and the lookup of a track by
    its id that subtitle burn-in performs. */
module Tracks {
  import opened Text

  /** One entry of the probe's `streams` list: its optional `codec_type`
      and its `tags` mapping (an absent mapping is the empty one). */
  datatype Stream = Stream(codecType: Option<string>, tags: map<string, string>)

  /** A track descriptor: the id counts tracks of one type from zero. */
  datatype Track = Track(id: nat, title: string, language: string)

  predicate OfType(s: Stream, kind: string) {
    s.codecType == Some(kind)
  }

  /** The `title` tag, else the `handler_name` tag, else "Untitled". */
  function Title(tags: map<string, string>): string {
    if "title" in tags then tags["title"]
    else if "handler_name" in tags then tags["handler_name"]
    else "Untitled"
  }

  /** The `language` tag, else "unknown". */
  function Language(tags: map<string, string>): string {
    if "language" in tags then tags["language"] else "unknown"
  }

  function Describe(id: nat, s: Stream): Track {
    Track(id, Title(s.tags), Language(s.tags))
  }

  /** The positions, in stream order, of the streams of the given type. */
  function Positions(streams: seq<Stream>, kind: string): (ps: seq<nat>)
    ensures |ps| <= |streams|
    ensures forall k :: 0 <= k < |ps| ==> ps[k] < |streams|
  {
    if streams == [] then []
    else
      var n := |streams| - 1;
      Positions(streams[..n], kind) + (if OfType(streams[n], kind) then [n] else [])
  }

  /** The positions are exactly those of the streams of the requested type,
      each once and in increasing order. */
  lemma {:induction false} PositionsExact(streams: seq<Stream>, kind: string)
    ensures forall k :: 0 <= k < |Positions(streams, kind)| ==> OfType(streams[Positions(streams, kind)[k]], kind)
    ensures forall k, l :: 0 <= k < l < |Positions(streams, kind)| ==> Positions(streams, kind)[k] < Positions(streams, kind)[l]
    ensures forall j :: 0 <= j < |streams| && OfType(streams[j], kind) ==> j in Positions(streams, kind)
  {
    if streams != [] {
      var n := |streams| - 1;
      var front := streams[..n];
      PositionsExact(front, kind);
      var ps := Positions(streams, kind);
      var qs := Positions(front, kind);
      assert ps[..|qs|] == qs;
      forall k | 0 <= k < |ps| ensures OfType(streams[ps[k]], kind) {
        if k < |qs| {
          assert ps[k] == qs[k] && streams[ps[k]] == front[qs[k]];
          assert OfType(front[qs[k]], kind);
        } else {
          assert OfType(streams[n], kind) && ps == qs + [n];
        }
      }
    }
  }

  /** The tracks of the requested type, as the extraction loop builds them. */
  function TracksOf(streams: seq<Stream>, kind: string): (ts: seq<Track>) {
    var ps := Positions(streams, kind);
    seq(|ps|, k requires 0 <= k < |ps| => Describe(k, streams[ps[k]]))
  }

  /** The loop of get_audio_tracks / get_subtitle_tracks: keeps the streams
      of the requested type, numbering them from zero in stream order. */
  method ExtractTracks(streams: seq<Stream>, kind: string) returns (tracks: seq<Track>)
    ensures tracks == TracksOf(streams, kind)
    ensures forall k :: 0 <= k < |tracks| ==> tracks[k].id == k
  {
    tracks := [];
    var i := 0;
    while i < |streams|
      invariant 0 <= i <= |streams|
      invariant tracks == TracksOf(streams[..i], kind)
    {
      assert streams[..i + 1][..i] == streams[..i];
      var stream := streams[i];
      if OfType(stream, kind) {
        var trackId := |tracks|;
        tracks := tracks + [Track(trackId, Title(stream.tags), Language(stream.tags))];
      }
      i := i + 1;
    }
    assert streams[..i] == streams;
  }

  /** The probe result as the extraction sees it: None when the probe failed
      or reported no `streams` key, in which case there are no tracks. */
  method GetTracks(probe: Option<seq<Stream>>, kind: string) returns (tracks: seq<Track>)
    ensures probe.None? ==> tracks == []
    ensures probe.Some? ==> tracks == TracksOf(probe.value, kind)
  {
    if probe.None? {
      return [];
    }
    tracks := ExtractTracks(probe.value, kind);
  }

  /** Track k describes the k-th stream of the requested type. */
  lemma TracksOfDescribe(streams: seq<Stream>, kind: string, k: nat)
    requires k < |TracksOf(streams, kind)|
    ensures var ps := Positions(streams, kind);
      && TracksOf(streams, kind)[k].id == k
      && OfType(streams[ps[k]], kind)
      && TracksOf(streams, kind)[k].title == Title(streams[ps[k]].tags)
      && TracksOf(streams, kind)[k].language == Language(streams[ps[k]].tags)
  {
    PositionsExact(streams, kind);
  }

  /** The first track with the given id, as `next(...)` finds it. */
  function FirstWithId(tracks: seq<Track>, id: int): (r: Option<Track>)
    ensures r.Some? ==> r.value.id == id && r.value in tracks
    ensures r.None? <==> forall k :: 0 <= k < |tracks| ==> tracks[k].id != id
    ensures r.Some? ==> exists i :: 0 <= i < |tracks| && tracks[i] == r.value
                                    && forall j :: 0 <= j < i ==> tracks[j].id != id
  {
    if tracks == [] then None
    else if tracks[0].id == id then Some(tracks[0])
    else FirstWithId(tracks[1..], id)
  }

  /** The search of subtitle burn-in over the track list. */
  method FindTrack(tracks: seq<Track>, id: int) returns (found: Option<Track>)
    ensures found == FirstWithId(tracks, id)
  {
    var i := 0;
    while i < |tracks|
      invariant 0 <= i <= |tracks|
      invariant FirstWithId(tracks, id) == FirstWithId(tracks[i..], id)
    {
      if tracks[i].id == id {
        return Some(tracks[i]);
      }
      assert tracks[i..][1..] == tracks[i + 1..];
      i := i + 1;
    }
    return None;
  }

  /** For extracted tracks, whose ids are their positions, an id is found
      exactly when it lies in 0 .. count-1. */
  lemma FoundIffInRange(tracks: seq<Track>, id: int)
    requires forall k :: 0 <= k < |tracks| ==> tracks[k].id == k
    ensures FirstWithId(tracks, id).Some? <==> 0 <= id < |tracks|
  {
    if 0 <= id < |tracks| {
      assert tracks[id].id == id;
    }
  }
}
