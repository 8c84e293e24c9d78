/** The ffmpeg command assembly of encode_video: the video-argument list,
    the audio-argument list and the optional `-filter_complex` graph, built
    stage by stage (audio, subtitle burn-in, preset, scale, stream copy),
    then laid out as one argument vector.

    The stages are specified by pure functions over `Config`; the class
    `CommandBuilder` updates the three lists in place the way the source
    updates `cmd_config`, and each of its methods is proved to move its
    state as the matching stage function says. */
module Command {
  import opened Text
  import opened FilterPath
  import opened Tracks
  import opened Presets

  const OutputSuffix := "_done"
  const OutputExtension := ".mp4"
  const MergedAudioCodec := "aac"

  /** The answers for one file, typed at the prompts or replayed from the
      cache of the first file. */
  datatype Answers = Answers(
    audioChoice: string,   // "1": include tracks, "2": merge tracks (an empty prompt answer is already "1");
                           // anything else adds no audio arguments
    audioTracks: string,   // space-separated track ids ("" = all, "-" = none when including)
    subtitle: string,      // subtitle track id to burn in ("" = none)
    reencode: bool,        // the reencode answer (lower-cased answer == "y"), consulted only when
                           // burn-in does not force reencoding
    resolution: string)    // target height ("" = keep the original)

  /** The three parts of `cmd_config` that the stages change; an empty
      `filter` stands for the source's `None`. */
  datatype Config = Config(video: seq<string>, audio: seq<string>, filter: string)

  const InitialConfig := Config(["-map", "0:v"], [], "")
  const CopyVideoArgs := ["-map", "0:v", "-c:v", "copy"]
  const IncludeAllAudioArgs := ["-map", "0:a", "-c:a", "copy"]
  const NoAudioArgs := ["-an"]
  const MergedAudioArgs := ["-map", "[aout]", "-c:a", MergedAudioCodec]

  // ---------------------------------------------------------------------
  // Output naming
  // ---------------------------------------------------------------------

  /** `parent / name` for a POSIX path: "." contributes nothing and a
      parent that already ends in "/" (the root) gets no second one. */
  function JoinPath(parent: string, name: string): string {
    if parent == "." then name
    else if parent != "" && parent[|parent| - 1] == '/' then parent + name
    else parent + "/" + name
  }

  /** The output file: `<stem>_done.mp4` beside the input. */
  function OutputPath(parent: string, stem: string): (r: string)
    ensures |r| >= |stem| + 9 && r[|r| - |stem| - 9..] == stem + OutputSuffix + OutputExtension
    ensures parent == "." ==> r == stem + OutputSuffix + OutputExtension
    ensures parent != "." ==> StartsWith(r, parent)
    ensures parent != "." ==>
      var gap := |r| - |stem| - 9 - |parent|;
      && (gap == 0 || gap == 1)
      && (gap == 1 <==> parent == "" || parent[|parent| - 1] != '/')
      && (gap == 1 ==> r[|parent|] == '/')
  {
    JoinPath(parent, stem + OutputSuffix + OutputExtension)
  }

  // ---------------------------------------------------------------------
  // Audio: include or merge
  // ---------------------------------------------------------------------

  /** `graph;fragment`, or the fragment alone when there is no graph yet. */
  function AppendFragment(graph: string, fragment: string): string {
    if graph != "" then graph + ";" + fragment else fragment
  }

  /** `-map 0:a:<id> -c:a copy` for each id, in order. */
  function IncludeArgs(ids: seq<string>): seq<string> {
    if ids == [] then []
    else
      var n := |ids| - 1;
      IncludeArgs(ids[..n]) + ["-map", "0:a:" + ids[n], "-c:a", "copy"]
  }

  /** Four arguments per id, in input order, the id passed through as
      typed. */
  lemma {:induction false} IncludeArgsAt(ids: seq<string>)
    ensures |IncludeArgs(ids)| == 4 * |ids|
    ensures forall k :: 0 <= k < |ids| ==>
      && IncludeArgs(ids)[4 * k] == "-map"
      && IncludeArgs(ids)[4 * k + 1] == "0:a:" + ids[k]
      && IncludeArgs(ids)[4 * k + 2] == "-c:a"
      && IncludeArgs(ids)[4 * k + 3] == "copy"
  {
    if ids != [] {
      var n := |ids| - 1;
      IncludeArgsAt(ids[..n]);
      assert forall k :: 0 <= k < n ==> ids[..n][k] == ids[k];
    }
  }

  function InputLabel(id: string): string {
    "[0:a:" + id + "]"
  }

  /** The `[0:a:<id>]` input labels of the merge filter, in order. */
  function MergeInputs(ids: seq<string>): string {
    if ids == [] then []
    else
      var n := |ids| - 1;
      MergeInputs(ids[..n]) + InputLabel(ids[n])
  }

  /** The audio merge fragment: the input labels, then
      `amerge=inputs=<N>[aout]` with N the number of ids. */
  function MergeFragment(ids: seq<string>): string {
    MergeInputs(ids) + "amerge=inputs=" + NatToString(|ids|) + "[aout]"
  }

  /** The audio stage (the `if audio_tracks:` block). */
  function AudioStage(c: Config, hasAudio: bool, choice: string, trackList: string): Config {
    if !hasAudio then c.(audio := NoAudioArgs)
    else if choice == "1" then
      if trackList == "" then c.(audio := IncludeAllAudioArgs)
      else if trackList == "-" then c.(audio := NoAudioArgs)
      else c.(audio := IncludeArgs(Split(trackList)))
    else if choice == "2" then
      if trackList != "" then
        c.(filter := AppendFragment(c.filter, MergeFragment(Split(trackList))), audio := MergedAudioArgs)
      else c
    else c
  }

  // ---------------------------------------------------------------------
  // Reading a merge fragment back
  // ---------------------------------------------------------------------

  /** Index of the first `]`, or the length when there is none. */
  function CloseIndex(s: string): (n: nat)
    ensures n <= |s|
    ensures forall i :: 0 <= i < n ==> s[i] != ']'
    ensures n < |s| ==> s[n] == ']'
  {
    if s == [] || s[0] == ']' then 0 else 1 + CloseIndex(s[1..])
  }

  /** Reads the run of `[0:a:<id>]` labels at the front of a fragment:
      the ids, and the text after them. */
  function ReadInputLabels(s: string): (seq<string>, string)
    decreases |s|
  {
    if StartsWith(s, "[0:a:") then
      var n := CloseIndex(s[5..]);
      if 5 + n < |s| then
        var (ids, rest) := ReadInputLabels(s[5 + n + 1..]);
        ([s[5..5 + n]] + ids, rest)
      else ([], s)
    else ([], s)
  }

  /** The ids a merge fragment merges, if it is one whose input count
      matches its labels. */
  function ReadMergeFragment(s: string): Option<seq<string>> {
    var (ids, rest) := ReadInputLabels(s);
    if rest == "amerge=inputs=" + NatToString(|ids|) + "[aout]" then Some(ids) else None
  }

  lemma {:induction false} MergeInputsFront(ids: seq<string>)
    requires ids != []
    ensures MergeInputs(ids) == InputLabel(ids[0]) + MergeInputs(ids[1..])
    decreases |ids|
  {
    var n := |ids| - 1;
    if n > 0 {
      MergeInputsFront(ids[..n]);
      assert ids[..n][1..] == ids[1..][..n - 1];
      assert ids[1..][n - 1] == ids[n];
    } else {
      assert ids[..n] == [] && ids[1..] == [];
    }
  }

  /** One label read off the front. */
  lemma ReadOneLabel(id: string, after: string)
    requires ']' !in id
    ensures ReadInputLabels(InputLabel(id) + after)
         == ([id] + ReadInputLabels(after).0, ReadInputLabels(after).1)
  {
    var s := InputLabel(id) + after;
    assert s == "[0:a:" + (id + "]" + after);
    assert s[..5] == "[0:a:";
    var t := s[5..];
    assert t == id + "]" + after;
    assert t[|id|] == ']';
    assert CloseIndex(t) == |id|;
    assert s[5..5 + |id|] == id;
    assert s[5 + |id| + 1..] == after;
  }

  lemma {:induction false} ReadInputLabelsOf(ids: seq<string>, tail: string)
    requires forall k :: 0 <= k < |ids| ==> ']' !in ids[k]
    requires !StartsWith(tail, "[0:a:")
    ensures ReadInputLabels(MergeInputs(ids) + tail) == (ids, tail)
    decreases |ids|
  {
    if ids == [] {
      assert MergeInputs(ids) + tail == tail;
    } else {
      MergeInputsFront(ids);
      var after := MergeInputs(ids[1..]) + tail;
      assert MergeInputs(ids) + tail == InputLabel(ids[0]) + after;
      ReadOneLabel(ids[0], after);
      ReadInputLabelsOf(ids[1..], tail);
      assert ids == [ids[0]] + ids[1..];
    }
  }

  /** Reading the merge fragment back gives the ids it was built from, for
      ids without a `]` in them (ids are not checked, so one that contains
      `]` would break the label syntax). */
  lemma MergeFragmentRoundTrip(ids: seq<string>)
    requires forall k :: 0 <= k < |ids| ==> ']' !in ids[k]
    ensures ReadMergeFragment(MergeFragment(ids)) == Some(ids)
  {
    var tail := "amerge=inputs=" + NatToString(|ids|) + "[aout]";
    assert MergeFragment(ids) == MergeInputs(ids) + tail;
    assert tail[0] == 'a';
    ReadInputLabelsOf(ids, tail);
  }

  /** The merge fragment always names the `[aout]` label. */
  lemma MergeFragmentHasAout(ids: seq<string>)
    ensures Contains(MergeFragment(ids), "[aout]")
  {
    ContainsSuffix(MergeInputs(ids) + "amerge=inputs=" + NatToString(|ids|), "[aout]");
  }

  // ---------------------------------------------------------------------
  // Subtitle burn-in
  // ---------------------------------------------------------------------

  /** `['-map', '[vout]'] + video[2:]`. */
  function MapVideoOutput(video: seq<string>): seq<string> {
    ["-map", "[vout]"] + (if |video| >= 2 then video[2..] else [])
  }

  function SubtitleFragment(escapedPath: string, id: int): string {
    "[0:v]subtitles='" + escapedPath + "':si=" + IntToString(id) + "[vout]"
  }

  /** The subtitle track burned in: the answer must be non-empty, read as
      an integer by int(), and name the id of a listed track. */
  function BurnInTrack(tracks: seq<Track>, answer: string): Option<int> {
    if |tracks| > 0 && answer != "" then
      match ParseInt(answer)
      case None => None
      case Some(id) => if FirstWithId(tracks, id).Some? then Some(id) else None
    else None
  }

  /** The subtitle stage (the `if subtitle_tracks:` block). */
  function SubtitleStage(c: Config, tracks: seq<Track>, answer: string, inputPath: string): Config {
    match BurnInTrack(tracks, answer)
    case None => c
    case Some(id) =>
      c.(filter := AppendFragment(c.filter, SubtitleFragment(EscapeFilterPath(inputPath), id)),
         video := MapVideoOutput(c.video))
  }

  /** When burn-in happens, and what it does to the state: the fragment is
      appended after any earlier graph, the video map becomes `[vout]`, and
      the audio arguments are untouched; otherwise nothing changes. */
  lemma SubtitleStageEffect(c: Config, tracks: seq<Track>, answer: string, inputPath: string)
    requires forall k :: 0 <= k < |tracks| ==> tracks[k].id == k
    ensures BurnInTrack(tracks, answer).Some? <==>
      answer != "" && ParseInt(answer).Some? && 0 <= ParseInt(answer).value < |tracks|
    ensures BurnInTrack(tracks, answer).None? ==> SubtitleStage(c, tracks, answer, inputPath) == c
    ensures BurnInTrack(tracks, answer).Some? ==>
      var id := BurnInTrack(tracks, answer).value;
      var r := SubtitleStage(c, tracks, answer, inputPath);
      && r.audio == c.audio
      && r.video[..2] == ["-map", "[vout]"]
      && (c.filter == "" ==> r.filter == SubtitleFragment(EscapeFilterPath(inputPath), id))
      && (c.filter != "" ==> r.filter == c.filter + ";" + SubtitleFragment(EscapeFilterPath(inputPath), id))
  {
    if answer != "" && ParseInt(answer).Some? {
      FoundIffInRange(tracks, ParseInt(answer).value);
    }
  }

  // ---------------------------------------------------------------------
  // Scale
  // ---------------------------------------------------------------------

  /** The target height, when the answer is all digits. */
  function ScaleHeight(answer: string): Option<nat> {
    if answer != "" && IsDigits(answer) then Some(DigitsValue(answer)) else None
  }

  function ScaleFilter(height: nat): string {
    "scale=-1:" + NatToString(height)
  }

  /** The scale fragment that reads the raw video. */
  function RawScale(height: nat): string {
    "[0:v]" + ScaleFilter(height) + "[vout]"
  }

  /** What the rewrite of the scale stage puts in place of `[vout]`: the
      earlier output is renamed `[vtmp]` and scaled into `[vout]`. */
  function ChainedScale(height: nat): string {
    "[vtmp];[vtmp]" + ScaleFilter(height) + "[vout]"
  }

  /** The scale stage: with no graph, the graph becomes the scale fragment;
      with `[aout]` anywhere in the graph, a scale fragment reading `[0:v]`
      is appended; otherwise every `[vout]` in the graph is rewritten to
      `[vtmp];[vtmp]scale=-1:H[vout]`. */
  function ScaleStage(c: Config, answer: string): Config {
    match ScaleHeight(answer)
    case None => c
    case Some(height) =>
      if c.filter != "" then
        if Contains(c.filter, "[aout]") then
          c.(filter := c.filter + ";" + RawScale(height), video := MapVideoOutput(c.video))
        else
          c.(filter := ReplaceAll(c.filter, "[vout]", ChainedScale(height)))
      else
        c.(filter := RawScale(height), video := MapVideoOutput(c.video))
  }

  // ---------------------------------------------------------------------
  // Cache replay of the subtitle and resolution answers
  // ---------------------------------------------------------------------

  /** What the first file stores for a subtitle or resolution answer: the
      number when the answer is all digits, else nothing. */
  function StoredAnswer(answer: string): Option<nat> {
    if IsDigits(answer) then Some(DigitsValue(answer)) else None
  }

  /** The answer a later file replays from the stored value: str() of the
      number, or the empty answer. */
  function ReplayedAnswer(stored: Option<nat>): string {
    match stored
    case Some(n) => NatToString(n)
    case None => ""
  }

  /** The answers a later file of the batch uses, from what the first file
      stored. The audio answers are stored as given, but only when the first
      file had audio tracks (an empty choice stands for the stored None,
      which matches neither "1" nor "2"). The subtitle answer goes through
      the stored number, and is stored only when the first file had
      subtitle tracks. The reencode answer is stored only when it was
      asked, that is when no subtitle was burned in; otherwise the stored
      value stays false. The resolution goes through the stored number,
      and is stored only when the first file was reencoded. */
  function ReplayedAnswers(firstAudio: seq<Track>, firstSubtitles: seq<Track>, ans: Answers): Answers {
    Answers(
      if |firstAudio| > 0 then ans.audioChoice else "",
      if |firstAudio| > 0 then ans.audioTracks else "",
      if |firstSubtitles| > 0 then ReplayedAnswer(StoredAnswer(ans.subtitle)) else "",
      if BurnInTrack(firstSubtitles, ans.subtitle).Some? then false else ans.reencode,
      if Reencodes(firstSubtitles, ans) then ReplayedAnswer(StoredAnswer(ans.resolution)) else "")
  }

  // ---------------------------------------------------------------------
  // The whole assembly
  // ---------------------------------------------------------------------

  /** Burn-in forces reencoding; otherwise the reencode answer decides. */
  predicate Reencodes(subtitleTracks: seq<Track>, ans: Answers) {
    BurnInTrack(subtitleTracks, ans.subtitle).Some? || ans.reencode
  }

  /** The configuration encode_video builds for one file. `preset` is the
      one get_encoding_preset returns; it is used only when reencoding. */
  function Compose(audioTracks: seq<Track>, subtitleTracks: seq<Track>, inputPath: string,
                   ans: Answers, preset: Preset): Config
  {
    var afterAudio := AudioStage(InitialConfig, |audioTracks| > 0, ans.audioChoice, ans.audioTracks);
    var afterSubtitle := SubtitleStage(afterAudio, subtitleTracks, ans.subtitle, inputPath);
    if Reencodes(subtitleTracks, ans) then
      ScaleStage(afterSubtitle.(video := afterSubtitle.video + PresetArgs(preset)), ans.resolution)
    else afterSubtitle.(video := CopyVideoArgs)
  }

  /** The final argument vector: `ffmpeg -i <input>`, the graph only when
      there is one, the video arguments, the audio arguments, the output. */
  function Argv(input: string, output: string, c: Config): seq<string> {
    ["ffmpeg", "-i", input]
    + (if c.filter != "" then ["-filter_complex", c.filter] else [])
    + c.video + c.audio + [output]
  }

  /** The command-configuration record of encode_video, updated in place. */
  class CommandBuilder {
    const input: string
    const output: string
    var video: seq<string>
    var audio: seq<string>
    var filter: string

    function State(): Config
      reads this
    {
      Config(video, audio, filter)
    }

    constructor (input: string, output: string)
      ensures this.input == input && this.output == output
      ensures State() == InitialConfig
    {
      this.input := input;
      this.output := output;
      video := ["-map", "0:v"];
      audio := [];
      filter := "";
    }

    /** Audio handling for a file; `hasAudio` says whether the probe found
        any audio track. */
    method ApplyAudio(hasAudio: bool, choice: string, trackList: string)
      modifies this
      ensures State() == AudioStage(old(State()), hasAudio, choice, trackList)
    {
      if !hasAudio {
        audio := NoAudioArgs;
        return;
      }
      if choice == "1" {
        if trackList == "" {
          audio := IncludeAllAudioArgs;
        } else if trackList == "-" {
          audio := NoAudioArgs;
        } else {
          var ids := Split(trackList);
          var args := [];
          var i := 0;
          while i < |ids|
            invariant 0 <= i <= |ids|
            invariant args == IncludeArgs(ids[..i])
          {
            assert ids[..i + 1][..i] == ids[..i];
            args := args + ["-map", "0:a:" + ids[i], "-c:a", "copy"];
            i := i + 1;
          }
          assert ids[..i] == ids;
          audio := args;
        }
      } else if choice == "2" {
        if trackList != "" {
          var ids := Split(trackList);
          var parts := "";
          var i := 0;
          while i < |ids|
            invariant 0 <= i <= |ids|
            invariant parts == MergeInputs(ids[..i])
          {
            assert ids[..i + 1][..i] == ids[..i];
            parts := parts + "[0:a:" + ids[i] + "]";
            i := i + 1;
          }
          assert ids[..i] == ids;
          parts := parts + "amerge=inputs=" + NatToString(|ids|) + "[aout]";
          if filter != "" {
            filter := filter + ";" + parts;
          } else {
            filter := parts;
          }
          audio := MergedAudioArgs;
        }
      }
    }

    /** Subtitle burn-in; `burned` tells whether it forces reencoding. */
    method ApplySubtitle(tracks: seq<Track>, answer: string) returns (burned: bool)
      modifies this
      ensures State() == SubtitleStage(old(State()), tracks, answer, input)
      ensures burned == BurnInTrack(tracks, answer).Some?
    {
      burned := false;
      if |tracks| > 0 && answer != "" {
        var parsed := ParseInt(answer);
        if parsed.Some? {
          var subId := parsed.value;
          var selected := FindTrack(tracks, subId);
          if selected.Some? {
            burned := true;
            var subPath := EscapeFilterPath(input);
            var subtitleFilter := "[0:v]subtitles='" + subPath + "':si=" + IntToString(subId) + "[vout]";
            if filter != "" {
              filter := filter + ";" + subtitleFilter;
            } else {
              filter := subtitleFilter;
            }
            video := MapVideoOutput(video);
          }
        }
      }
    }

    /** The codec and every preset parameter, appended to the video
        arguments. */
    method ApplyPreset(preset: Preset)
      modifies this
      ensures State() == old(State()).(video := old(video) + PresetArgs(preset))
    {
      var args := ["-c:v", preset.codec];
      var params := preset.params;
      var i := 0;
      while i < |params|
        invariant 0 <= i <= |params|
        invariant args == ["-c:v", preset.codec] + ParamArgs(params[..i])
      {
        assert params[..i + 1][..i] == params[..i];
        var (key, value) := params[i];
        args := args + ["-" + key, Render(value)];
        i := i + 1;
      }
      assert params[..i] == params;
      video := video + args;
    }

    /** The resolution stage. */
    method ApplyScale(answer: string)
      modifies this
      ensures State() == ScaleStage(old(State()), answer)
    {
      if answer != "" && IsDigits(answer) {
        var height := DigitsValue(answer);
        var scaleFilter := "scale=-1:" + NatToString(height);
        if filter != "" {
          if Contains(filter, "[aout]") {
            var videoFilter := "[0:v]" + scaleFilter + "[vout]";
            filter := filter + ";" + videoFilter;
            video := MapVideoOutput(video);
          } else {
            filter := ReplaceAll(filter, "[vout]", "[vtmp];[vtmp]" + scaleFilter + "[vout]");
          }
        } else {
          filter := "[0:v]" + scaleFilter + "[vout]";
          video := MapVideoOutput(video);
        }
      }
    }

    /** Without reencoding the video stream is copied. */
    method UseStreamCopy()
      modifies this
      ensures State() == old(State()).(video := CopyVideoArgs)
    {
      video := ["-map", "0:v", "-c:v", "copy"];
    }

    /** The final command line, built from the record. */
    method Arguments() returns (argv: seq<string>)
      ensures argv == Argv(input, output, State())
    {
      argv := ["ffmpeg", "-i", input];
      if filter != "" {
        argv := argv + ["-filter_complex", filter];
      }
      argv := argv + video;
      argv := argv + audio;
      argv := argv + [output];
    }
  }

  /** encode_video's assembly for one file, from the probed track lists and
      the answers, up to the argument vector handed to ffmpeg. `parent` and
      `stem` are the input path's directory and file name without its
      extension. */
  method BuildCommand(inputPath: string, parent: string, stem: string, audioTracks: seq<Track>,
                      subtitleTracks: seq<Track>, ans: Answers, preset: Preset)
    returns (argv: seq<string>)
    ensures argv == Argv(inputPath, OutputPath(parent, stem), Compose(audioTracks, subtitleTracks, inputPath, ans, preset))
  {
    var outputPath := JoinPath(parent, stem + OutputSuffix + OutputExtension);
    var config := new CommandBuilder(inputPath, outputPath);
    config.ApplyAudio(|audioTracks| > 0, ans.audioChoice, ans.audioTracks);
    var shouldReencode := config.ApplySubtitle(subtitleTracks, ans.subtitle);
    if !shouldReencode {
      shouldReencode := ans.reencode;
    }
    if shouldReencode {
      config.ApplyPreset(preset);
      config.ApplyScale(ans.resolution);
    } else {
      config.UseStreamCopy();
    }
    argv := config.Arguments();
  }
}
