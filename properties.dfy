/** Properties of the whole assembly: what the final video arguments, audio
    arguments and filter graph are for each combination of answers, how the
    stages interact through the labels of the graph, the layout of the
    argument vector, and what replaying the first file's answers keeps. */
module CommandProperties {
  import opened Text
  import opened FilterPath
  import opened Tracks
  import opened Presets
  import opened Command

  /** The audio answers ask for a merge, and there are audio tracks to
      merge. */
  predicate MergeRequested(audioTracks: seq<Track>, ans: Answers) {
    |audioTracks| > 0 && ans.audioChoice == "2" && ans.audioTracks != ""
  }

  /** A resolution is applied: only when reencoding, and only for an
      all-digit answer. */
  predicate Scales(subtitleTracks: seq<Track>, ans: Answers) {
    Reencodes(subtitleTracks, ans) && ScaleHeight(ans.resolution).Some?
  }

  // ---------------------------------------------------------------------
  // The subtitle fragment and the two labels
  // ---------------------------------------------------------------------

  /** A six-character label such as `[vout]` or `[aout]`: four letters
      from "aotuv" between brackets. The only `[` in the subtitle
      fragment's fixed text and id is the one before `0:v]`, so no label
      can begin inside them. */
  predicate IsLabel(p: string) {
    |p| == 6 && p[0] == '[' && p[5] == ']' && forall i :: 1 <= i < 5 ==> p[i] in "aotuv"
  }

  /** str() of an integer: digits, perhaps after a minus sign, ending in a
      digit. */
  lemma NumeralChars(i: int)
    ensures |IntToString(i)| > 0 && IsDigit(IntToString(i)[|IntToString(i)| - 1])
    ensures forall k :: 0 <= k < |IntToString(i)| ==> IsDigit(IntToString(i)[k]) || IntToString(i)[k] == '-'
  {
    if i < 0 {
      var n := NatToString(-i);
      assert IntToString(i) == "-" + n;
      assert forall k :: 1 <= k < |IntToString(i)| ==> IntToString(i)[k] == n[k - 1];
    }
  }

  /** A five-character head followed by a text that starts with `s` and
      holds no `[` cannot contain a label. */
  lemma HeadThenWord(p: string, a: string, b: string)
    requires IsLabel(p) && |a| == 5 && b != [] && b[0] == 's' && '[' !in b
    ensures !Contains(a + b, p)
  {
    ShortAbsent(a, p);
    AbsentWithoutFirstChar(b, p);
    ContainsConcat(a, b, p);
  }

  /** The fixed pieces of a subtitle fragment hold no label. */
  lemma OpeningFree(p: string)
    requires IsLabel(p)
    ensures !Contains("[0:v]subtitles='", p)
  {
    var a := "[0:v]subtitles='";
    HeadThenWord(p, a[..5], a[5..]);
    assert a == a[..5] + a[5..];
  }

  lemma IndexKeyFree(p: string)
    requires IsLabel(p)
    ensures !Contains("':si=", p)
  {
    var b := "':si=";
    AbsentWithoutFirstChar(b[..], p);
  }

  lemma NumeralFree(id: int, p: string)
    requires IsLabel(p)
    ensures !Contains(IntToString(id), p)
  {
    var n := IntToString(id);
    NumeralChars(id);
    assert '[' !in n;
    AbsentWithoutFirstChar(n, p);
  }

  /** No label can straddle a seam between the pieces of a subtitle
      fragment and the path. */
  lemma PathSeams(esc: string, p: string)
    requires IsLabel(p)
    ensures SeamSafe("[0:v]subtitles='", esc, p)
    ensures SeamSafe("[0:v]subtitles='" + esc, "':si=", p)
  {
  }

  lemma NumeralSeams(esc: string, id: int, p: string)
    requires IsLabel(p)
    ensures SeamSafe("[0:v]subtitles='" + esc + "':si=", IntToString(id), p)
    ensures SeamSafe("[0:v]subtitles='" + esc + "':si=" + IntToString(id), "[vout]", p)
  {
    var x := "[0:v]subtitles='" + esc + "':si=";
    assert x[|x| - 1] == '=';
    var n := IntToString(id);
    NumeralChars(id);
    var y := x + n;
    assert y[|y| - 1] == n[|n| - 1];
  }

  /** A label occurs in a subtitle fragment exactly when it occurs in the
      embedded path or is the fragment's own output label. */
  lemma SubtitleFragmentContains(esc: string, id: int, p: string)
    requires IsLabel(p)
    ensures Contains(SubtitleFragment(esc, id), p) <==> Contains(esc, p) || Contains("[vout]", p)
  {
    OpeningFree(p);
    IndexKeyFree(p);
    NumeralFree(id, p);
    PathSeams(esc, p);
    NumeralSeams(esc, id, p);
    var a := "[0:v]subtitles='";
    var n := IntToString(id);
    ContainsConcat(a, esc, p);
    ContainsConcat(a + esc, "':si=", p);
    ContainsConcat(a + esc + "':si=", n, p);
    ContainsConcat(a + esc + "':si=" + n, "[vout]", p);
  }

  /** Replacing a label in a subtitle fragment replaces it inside the
      embedded path and in the output label, and nowhere else. */
  lemma SubtitleFragmentReplace(esc: string, id: int, p: string, r: string)
    requires IsLabel(p)
    ensures ReplaceAll(SubtitleFragment(esc, id), p, r)
      == "[0:v]subtitles='" + ReplaceAll(esc, p, r) + "':si=" + IntToString(id) + ReplaceAll("[vout]", p, r)
  {
    OpeningFree(p);
    IndexKeyFree(p);
    NumeralFree(id, p);
    PathSeams(esc, p);
    NumeralSeams(esc, id, p);
    var a := "[0:v]subtitles='";
    var n := IntToString(id);
    ReplaceAllConcat(a + esc + "':si=" + n, "[vout]", p, r);
    ReplaceAllConcat(a + esc + "':si=", n, p, r);
    ReplaceAllConcat(a + esc, "':si=", p, r);
    ReplaceAllConcat(a, esc, p, r);
    ReplaceAllAbsent(a, p, r);
    ReplaceAllAbsent("':si=", p, r);
    ReplaceAllAbsent(n, p, r);
  }

  /** `[aout]` occurs in a subtitle fragment exactly when it occurs in the
      embedded path. */
  lemma SubtitleFragmentAout(esc: string, id: int)
    ensures Contains(SubtitleFragment(esc, id), "[aout]") <==> Contains(esc, "[aout]")
  {
    var v := "[vout]";
    SubtitleFragmentContains(esc, id, "[aout]");
    assert !StartsWith(v, "[aout]") by { assert v[1] != "[aout]"[1]; }
    ShortAbsent(v[1..], "[aout]");
  }

  /** Rewriting every `[vout]` of a subtitle fragment rewrites its output
      label and every `[vout]` inside the embedded path, and nothing else. */
  lemma SubtitleFragmentRewrite(esc: string, id: int, r: string)
    ensures ReplaceAll(SubtitleFragment(esc, id), "[vout]", r)
      == "[0:v]subtitles='" + ReplaceAll(esc, "[vout]", r) + "':si=" + IntToString(id) + r
  {
    var v := "[vout]";
    SubtitleFragmentReplace(esc, id, v, r);
    assert StartsWith(v, v) && v[6..] == [];
    assert ReplaceAll(v, v, r) == r + ReplaceAll(v[6..], v, r);
  }

  // ---------------------------------------------------------------------
  // The stages one at a time
  // ---------------------------------------------------------------------

  /** The audio stage on the initial configuration leaves the raw video map,
      and produces a graph only for a merge. */
  lemma AudioStageGraph(hasAudio: bool, choice: string, trackList: string)
    ensures AudioStage(InitialConfig, hasAudio, choice, trackList).video == ["-map", "0:v"]
    ensures AudioStage(InitialConfig, hasAudio, choice, trackList).filter
      == if hasAudio && choice == "2" && trackList != "" then MergeFragment(Split(trackList)) else ""
  {
  }

  lemma SubtitleStageCases(c: Config, tracks: seq<Track>, answer: string, path: string)
    ensures SubtitleStage(c, tracks, answer, path).audio == c.audio
    ensures BurnInTrack(tracks, answer).None? ==> SubtitleStage(c, tracks, answer, path) == c
    ensures BurnInTrack(tracks, answer).Some? ==>
      && SubtitleStage(c, tracks, answer, path).filter
         == AppendFragment(c.filter, SubtitleFragment(EscapeFilterPath(path), BurnInTrack(tracks, answer).value))
      && SubtitleStage(c, tracks, answer, path).video == MapVideoOutput(c.video)
  {
  }

  lemma ScaleStageCases(c: Config, answer: string)
    ensures ScaleStage(c, answer).audio == c.audio
    ensures ScaleHeight(answer).None? ==> ScaleStage(c, answer) == c
    ensures ScaleHeight(answer).Some? && c.filter == "" ==>
      ScaleStage(c, answer) == c.(filter := RawScale(ScaleHeight(answer).value), video := MapVideoOutput(c.video))
    ensures ScaleHeight(answer).Some? && c.filter != "" && Contains(c.filter, "[aout]") ==>
      ScaleStage(c, answer)
      == c.(filter := c.filter + ";" + RawScale(ScaleHeight(answer).value), video := MapVideoOutput(c.video))
    ensures ScaleHeight(answer).Some? && c.filter != "" && !Contains(c.filter, "[aout]") ==>
      ScaleStage(c, answer) == c.(filter := ReplaceAll(c.filter, "[vout]", ChainedScale(ScaleHeight(answer).value)))
  {
  }

  /** Appending a fragment keeps every label of the graph and of the
      fragment. */
  lemma AppendKeeps(graph: string, fragment: string, p: string)
    ensures Contains(graph, p) ==> Contains(AppendFragment(graph, fragment), p)
    ensures Contains(fragment, p) ==> Contains(AppendFragment(graph, fragment), p)
  {
    if Contains(graph, p) {
      ContainsExtend(graph, ";", p);
      ContainsExtend(graph + ";", fragment, p);
    }
    if Contains(fragment, p) && graph != "" {
      ContainsPrepend(graph + ";", fragment, p);
    }
  }

  /** A requested merge puts `[aout]` in the graph before the scale stage
      looks for it. */
  lemma MergeKeepsAout(audioTracks: seq<Track>, subtitleTracks: seq<Track>, path: string, ans: Answers)
    requires MergeRequested(audioTracks, ans)
    ensures Contains(SubtitleStage(AudioStage(InitialConfig, |audioTracks| > 0, ans.audioChoice, ans.audioTracks),
                                   subtitleTracks, ans.subtitle, path).filter, "[aout]")
  {
    var a := AudioStage(InitialConfig, |audioTracks| > 0, ans.audioChoice, ans.audioTracks);
    AudioStageGraph(|audioTracks| > 0, ans.audioChoice, ans.audioTracks);
    SubtitleStageCases(a, subtitleTracks, ans.subtitle, path);
    MergeFragmentHasAout(Split(ans.audioTracks));
    if BurnInTrack(subtitleTracks, ans.subtitle).Some? {
      AppendKeeps(a.filter, SubtitleFragment(EscapeFilterPath(path), BurnInTrack(subtitleTracks, ans.subtitle).value), "[aout]");
    }
  }

  // ---------------------------------------------------------------------
  // Audio and video arguments
  // ---------------------------------------------------------------------

  /** The audio arguments in every case of the audio answers. Track ids are
      passed through as typed, four arguments per id. */
  lemma AudioStageArgs(hasAudio: bool, choice: string, trackList: string)
    ensures !hasAudio ==> AudioStage(InitialConfig, hasAudio, choice, trackList).audio == NoAudioArgs
    ensures hasAudio && choice == "1" && trackList == "" ==>
      AudioStage(InitialConfig, hasAudio, choice, trackList).audio == IncludeAllAudioArgs
    ensures hasAudio && choice == "1" && trackList == "-" ==>
      AudioStage(InitialConfig, hasAudio, choice, trackList).audio == NoAudioArgs
    ensures hasAudio && choice == "1" && trackList != "" && trackList != "-" ==>
      && |AudioStage(InitialConfig, hasAudio, choice, trackList).audio| == 4 * |Split(trackList)|
      && forall k :: 0 <= k < |Split(trackList)| ==>
           AudioStage(InitialConfig, hasAudio, choice, trackList).audio[4 * k..4 * k + 4]
           == ["-map", "0:a:" + Split(trackList)[k], "-c:a", "copy"]
    ensures hasAudio && choice == "2" && trackList != "" ==>
      AudioStage(InitialConfig, hasAudio, choice, trackList).audio == MergedAudioArgs
    ensures hasAudio && choice == "2" && trackList == "" ==>
      AudioStage(InitialConfig, hasAudio, choice, trackList).audio == []
    ensures hasAudio && choice != "1" && choice != "2" ==>
      AudioStage(InitialConfig, hasAudio, choice, trackList).audio == []
  {
    if hasAudio && choice == "1" && trackList != "" && trackList != "-" {
      assert AudioStage(InitialConfig, hasAudio, choice, trackList).audio == IncludeArgs(Split(trackList));
      IncludeArgsBlocks(Split(trackList));
    }
  }

  /** Four arguments per included id, in order. */
  lemma IncludeArgsBlocks(ids: seq<string>)
    ensures |IncludeArgs(ids)| == 4 * |ids|
    ensures forall k :: 0 <= k < |ids| ==> IncludeArgs(ids)[4 * k..4 * k + 4] == ["-map", "0:a:" + ids[k], "-c:a", "copy"]
  {
    var args := IncludeArgs(ids);
    IncludeArgsAt(ids);
    forall k | 0 <= k < |ids|
      ensures args[4 * k..4 * k + 4] == ["-map", "0:a:" + ids[k], "-c:a", "copy"]
    {
      assert args[4 * k..4 * k + 4] == [args[4 * k], args[4 * k + 1], args[4 * k + 2], args[4 * k + 3]];
    }
  }

  /** Burn-in, the preset, the scale and stream copy never touch the audio
      arguments: the command's audio arguments are those of the audio
      stage. */
  lemma LaterStagesKeepAudio(audioTracks: seq<Track>, subtitleTracks: seq<Track>, path: string,
                             ans: Answers, preset: Preset)
    ensures Compose(audioTracks, subtitleTracks, path, ans, preset).audio
      == AudioStage(InitialConfig, |audioTracks| > 0, ans.audioChoice, ans.audioTracks).audio
  {
    var a := AudioStage(InitialConfig, |audioTracks| > 0, ans.audioChoice, ans.audioTracks);
    var s := SubtitleStage(a, subtitleTracks, ans.subtitle, path);
    SubtitleStageCases(a, subtitleTracks, ans.subtitle, path);
    ScaleStageCases(s.(video := s.video + PresetArgs(preset)), ans.resolution);
  }

  /** Mapping `[vout]` replaces the map target and keeps the encoder
      arguments after it. */
  lemma MapKeepsEncoderArgs(target: string, encoder: seq<string>)
    ensures MapVideoOutput(["-map", target] + encoder) == ["-map", "[vout]"] + encoder
  {
    assert (["-map", target] + encoder)[2..] == encoder;
  }

  /** The video arguments of the command: stream copy without reencoding;
      with it, the map pair, then the codec and every preset parameter in
      order. The map names `[vout]` exactly when a subtitle is burned in
      or a resolution is applied. */
  lemma FinalVideoArgs(audioTracks: seq<Track>, subtitleTracks: seq<Track>, path: string,
                       ans: Answers, preset: Preset, c: Config)
    requires c == Compose(audioTracks, subtitleTracks, path, ans, preset)
    ensures !Reencodes(subtitleTracks, ans) ==> c.video == CopyVideoArgs
    ensures Reencodes(subtitleTracks, ans) ==>
      c.video == ["-map", if BurnInTrack(subtitleTracks, ans.subtitle).Some? || Scales(subtitleTracks, ans)
                          then "[vout]" else "0:v"]
                 + PresetArgs(preset)
  {
    var a := AudioStage(InitialConfig, |audioTracks| > 0, ans.audioChoice, ans.audioTracks);
    var s := SubtitleStage(a, subtitleTracks, ans.subtitle, path);
    AudioStageGraph(|audioTracks| > 0, ans.audioChoice, ans.audioTracks);
    SubtitleStageCases(a, subtitleTracks, ans.subtitle, path);
    if Reencodes(subtitleTracks, ans) {
      var burn := BurnInTrack(subtitleTracks, ans.subtitle).Some?;
      var target := if burn then "[vout]" else "0:v";
      assert s.video == ["-map", target];
      var v := s.(video := s.video + PresetArgs(preset));
      assert v.video == ["-map", target] + PresetArgs(preset);
      ScaleStageCases(v, ans.resolution);
      MapKeepsEncoderArgs(target, PresetArgs(preset));
      if Scales(subtitleTracks, ans) && v.filter != "" && !Contains(v.filter, "[aout]") {
        if MergeRequested(audioTracks, ans) {
          MergeKeepsAout(audioTracks, subtitleTracks, path, ans);
        }
        assert burn;
      }
    }
  }

  // ---------------------------------------------------------------------
  // The filter graph
  // ---------------------------------------------------------------------

  /** The graph is absent exactly when no stage adds a fragment. */
  lemma GraphEmptyIff(audioTracks: seq<Track>, subtitleTracks: seq<Track>, path: string,
                      ans: Answers, preset: Preset, c: Config)
    requires c == Compose(audioTracks, subtitleTracks, path, ans, preset)
    ensures c.filter == "" <==>
      !MergeRequested(audioTracks, ans) && BurnInTrack(subtitleTracks, ans.subtitle).None? && !Scales(subtitleTracks, ans)
  {
    var a := AudioStage(InitialConfig, |audioTracks| > 0, ans.audioChoice, ans.audioTracks);
    var s := SubtitleStage(a, subtitleTracks, ans.subtitle, path);
    AudioStageGraph(|audioTracks| > 0, ans.audioChoice, ans.audioTracks);
    SubtitleStageCases(a, subtitleTracks, ans.subtitle, path);
    if Reencodes(subtitleTracks, ans) {
      var v := s.(video := s.video + PresetArgs(preset));
      ScaleStageCases(v, ans.resolution);
      if s.filter != "" && Scales(subtitleTracks, ans) {
        ReplaceAllLength(s.filter, "[vout]", ChainedScale(ScaleHeight(ans.resolution).value));
      }
    }
  }

  /** Appending to a graph that is, or starts with, a leading fragment
      keeps that fragment first. */
  lemma LeadingFragmentKept(m: string, graph: string, fragment: string)
    requires graph == m || StartsWith(graph, m + ";")
    ensures StartsWith(graph + ";" + fragment, m + ";")
  {
    var lead := m + ";";
    if graph == m {
      assert graph + ";" + fragment == lead + fragment;
      assert (lead + fragment)[..|lead|] == lead;
    } else {
      assert graph + ";" + fragment == graph + (";" + fragment);
      PrefixOfConcat(graph, ";" + fragment, lead);
    }
  }

  /** A merge fragment is always the first fragment of the graph, and the
      graph keeps the `[aout]` label it produces. */
  lemma MergeGraphFirst(audioTracks: seq<Track>, subtitleTracks: seq<Track>, path: string,
                        ans: Answers, preset: Preset, c: Config)
    requires c == Compose(audioTracks, subtitleTracks, path, ans, preset)
    requires MergeRequested(audioTracks, ans)
    ensures c.filter == MergeFragment(Split(ans.audioTracks))
         || StartsWith(c.filter, MergeFragment(Split(ans.audioTracks)) + ";")
    ensures Contains(c.filter, "[aout]")
  {
    var m := MergeFragment(Split(ans.audioTracks));
    var a := AudioStage(InitialConfig, |audioTracks| > 0, ans.audioChoice, ans.audioTracks);
    var s := SubtitleStage(a, subtitleTracks, ans.subtitle, path);
    AudioStageGraph(|audioTracks| > 0, ans.audioChoice, ans.audioTracks);
    SubtitleStageCases(a, subtitleTracks, ans.subtitle, path);
    MergeKeepsAout(audioTracks, subtitleTracks, path, ans);
    MergeFragmentHasAout(Split(ans.audioTracks));
    if BurnInTrack(subtitleTracks, ans.subtitle).Some? {
      LeadingFragmentKept(m, m, SubtitleFragment(EscapeFilterPath(path), BurnInTrack(subtitleTracks, ans.subtitle).value));
    }
    if Reencodes(subtitleTracks, ans) {
      var v := s.(video := s.video + PresetArgs(preset));
      ScaleStageCases(v, ans.resolution);
      if Scales(subtitleTracks, ans) {
        var g := RawScale(ScaleHeight(ans.resolution).value);
        LeadingFragmentKept(m, s.filter, g);
        AppendKeeps(s.filter, g, "[aout]");
      }
    }
  }

  /** Without burn-in, the graph holds the merge fragment, the scale
      fragment reading the raw video, both joined by `;`, or nothing: the
      scale never reads the merged audio and the merge never reads the
      video. */
  lemma GraphWithoutBurnIn(audioTracks: seq<Track>, subtitleTracks: seq<Track>, path: string,
                           ans: Answers, preset: Preset, c: Config)
    requires c == Compose(audioTracks, subtitleTracks, path, ans, preset)
    requires BurnInTrack(subtitleTracks, ans.subtitle).None?
    ensures !MergeRequested(audioTracks, ans) && !Scales(subtitleTracks, ans) ==> c.filter == ""
    ensures MergeRequested(audioTracks, ans) && !Scales(subtitleTracks, ans) ==>
      c.filter == MergeFragment(Split(ans.audioTracks))
    ensures !MergeRequested(audioTracks, ans) && Scales(subtitleTracks, ans) ==>
      c.filter == RawScale(ScaleHeight(ans.resolution).value)
    ensures MergeRequested(audioTracks, ans) && Scales(subtitleTracks, ans) ==>
      c.filter == MergeFragment(Split(ans.audioTracks)) + ";" + RawScale(ScaleHeight(ans.resolution).value)
  {
    var a := AudioStage(InitialConfig, |audioTracks| > 0, ans.audioChoice, ans.audioTracks);
    var s := SubtitleStage(a, subtitleTracks, ans.subtitle, path);
    AudioStageGraph(|audioTracks| > 0, ans.audioChoice, ans.audioTracks);
    SubtitleStageCases(a, subtitleTracks, ans.subtitle, path);
    if MergeRequested(audioTracks, ans) {
      MergeKeepsAout(audioTracks, subtitleTracks, path, ans);
    }
    if Reencodes(subtitleTracks, ans) {
      ScaleStageCases(s.(video := s.video + PresetArgs(preset)), ans.resolution);
    }
  }

  /** Merge and burn-in together: the subtitle fragment follows the merge
      fragment. A resolution is then added as a second fragment reading the
      raw video, because the graph contains `[aout]`: the graph ends up with
      two fragments that both output `[vout]`, and the scaled one does not
      carry the subtitles. */
  lemma GraphMergeAndBurnIn(audioTracks: seq<Track>, subtitleTracks: seq<Track>, path: string,
                            ans: Answers, preset: Preset, c: Config)
    requires c == Compose(audioTracks, subtitleTracks, path, ans, preset)
    requires MergeRequested(audioTracks, ans) && BurnInTrack(subtitleTracks, ans.subtitle).Some?
    ensures !Scales(subtitleTracks, ans) ==>
      c.filter == MergeFragment(Split(ans.audioTracks)) + ";"
                  + SubtitleFragment(EscapeFilterPath(path), BurnInTrack(subtitleTracks, ans.subtitle).value)
    ensures Scales(subtitleTracks, ans) ==>
      c.filter == MergeFragment(Split(ans.audioTracks)) + ";"
                  + SubtitleFragment(EscapeFilterPath(path), BurnInTrack(subtitleTracks, ans.subtitle).value)
                  + ";" + RawScale(ScaleHeight(ans.resolution).value)
  {
    var a := AudioStage(InitialConfig, |audioTracks| > 0, ans.audioChoice, ans.audioTracks);
    var s := SubtitleStage(a, subtitleTracks, ans.subtitle, path);
    AudioStageGraph(|audioTracks| > 0, ans.audioChoice, ans.audioTracks);
    SubtitleStageCases(a, subtitleTracks, ans.subtitle, path);
    MergeKeepsAout(audioTracks, subtitleTracks, path, ans);
    ScaleStageCases(s.(video := s.video + PresetArgs(preset)), ans.resolution);
  }

  /** Burn-in without a merge: the graph is the subtitle fragment; with a
      resolution, the scale is chained after the burn-in by rewriting every
      `[vout]`, unless the path itself contains `[aout]`, in which case the
      scale fragment reads the raw video instead. */
  lemma GraphBurnInWithoutMerge(audioTracks: seq<Track>, subtitleTracks: seq<Track>, path: string,
                                ans: Answers, preset: Preset, c: Config)
    requires c == Compose(audioTracks, subtitleTracks, path, ans, preset)
    requires !MergeRequested(audioTracks, ans) && BurnInTrack(subtitleTracks, ans.subtitle).Some?
    ensures !Scales(subtitleTracks, ans) ==>
      c.filter == SubtitleFragment(EscapeFilterPath(path), BurnInTrack(subtitleTracks, ans.subtitle).value)
    ensures Scales(subtitleTracks, ans) && !Contains(path, "[aout]") ==>
      c.filter == "[0:v]subtitles='"
                  + ReplaceAll(EscapeFilterPath(path), "[vout]", ChainedScale(ScaleHeight(ans.resolution).value))
                  + "':si=" + IntToString(BurnInTrack(subtitleTracks, ans.subtitle).value)
                  + ChainedScale(ScaleHeight(ans.resolution).value)
    ensures Scales(subtitleTracks, ans) && Contains(path, "[aout]") ==>
      c.filter == SubtitleFragment(EscapeFilterPath(path), BurnInTrack(subtitleTracks, ans.subtitle).value)
                  + ";" + RawScale(ScaleHeight(ans.resolution).value)
  {
    var a := AudioStage(InitialConfig, |audioTracks| > 0, ans.audioChoice, ans.audioTracks);
    var s := SubtitleStage(a, subtitleTracks, ans.subtitle, path);
    BurnInOnlyGraph(audioTracks, subtitleTracks, path, ans);
    ScaleStageCases(s.(video := s.video + PresetArgs(preset)), ans.resolution);
    if Scales(subtitleTracks, ans) {
      var esc := EscapeFilterPath(path);
      var id := BurnInTrack(subtitleTracks, ans.subtitle).value;
      SubtitleFragmentRewrite(esc, id, ChainedScale(ScaleHeight(ans.resolution).value));
    }
  }

  /** Burn-in without a merge: before the scale stage the graph is the
      subtitle fragment alone, and it holds `[aout]` only when the path
      does. */
  lemma BurnInOnlyGraph(audioTracks: seq<Track>, subtitleTracks: seq<Track>, path: string, ans: Answers)
    requires !MergeRequested(audioTracks, ans) && BurnInTrack(subtitleTracks, ans.subtitle).Some?
    ensures SubtitleStage(AudioStage(InitialConfig, |audioTracks| > 0, ans.audioChoice, ans.audioTracks),
                          subtitleTracks, ans.subtitle, path).filter
      == SubtitleFragment(EscapeFilterPath(path), BurnInTrack(subtitleTracks, ans.subtitle).value)
    ensures Contains(SubtitleFragment(EscapeFilterPath(path), BurnInTrack(subtitleTracks, ans.subtitle).value), "[aout]")
      <==> Contains(path, "[aout]")
  {
    var a := AudioStage(InitialConfig, |audioTracks| > 0, ans.audioChoice, ans.audioTracks);
    AudioStageGraph(|audioTracks| > 0, ans.audioChoice, ans.audioTracks);
    SubtitleStageCases(a, subtitleTracks, ans.subtitle, path);
    PathFragmentAout(path, BurnInTrack(subtitleTracks, ans.subtitle).value);
  }

  lemma PathFragmentAout(path: string, id: int)
    ensures Contains(SubtitleFragment(EscapeFilterPath(path), id), "[aout]") <==> Contains(path, "[aout]")
  {
    ContainsEscaped(path, "[aout]");
    SubtitleFragmentAout(EscapeFilterPath(path), id);
  }

  /** On a path without `[vout]` the rewrite leaves the embedded path as
      it is. */
  lemma PlainPathChain(path: string, id: int, h: nat)
    requires !Contains(path, "[vout]")
    ensures "[0:v]subtitles='" + ReplaceAll(EscapeFilterPath(path), "[vout]", ChainedScale(h)) + "':si="
            + IntToString(id) + ChainedScale(h)
         == "[0:v]subtitles='" + EscapeFilterPath(path) + "':si=" + IntToString(id) + ChainedScale(h)
  {
    ContainsEscaped(path, "[vout]");
    ReplaceAllAbsent(EscapeFilterPath(path), "[vout]", ChainedScale(h));
  }

  /** On a path with `[vout]` the rewrite lengthens the embedded path. */
  lemma RewrittenPathLonger(path: string, id: int, h: nat)
    requires Contains(path, "[vout]")
    ensures |"[0:v]subtitles='" + ReplaceAll(EscapeFilterPath(path), "[vout]", ChainedScale(h)) + "':si="
            + IntToString(id) + ChainedScale(h)|
          > |"[0:v]subtitles='" + EscapeFilterPath(path) + "':si=" + IntToString(id) + ChainedScale(h)|
  {
    ContainsEscaped(path, "[vout]");
    ReplaceAllLength(EscapeFilterPath(path), "[vout]", ChainedScale(h));
  }

  /** Burn-in and a resolution on a path free of both labels give the
      intended two-stage chain: the subtitle fragment outputs `[vtmp]`, the
      scale fragment `[vtmp]scale=-1:H[vout]` reads it, and the video map
      names `[vout]`. */
  lemma BurnInThenScaleChain(audioTracks: seq<Track>, subtitleTracks: seq<Track>, path: string,
                             ans: Answers, preset: Preset, c: Config)
    requires c == Compose(audioTracks, subtitleTracks, path, ans, preset)
    requires !MergeRequested(audioTracks, ans) && BurnInTrack(subtitleTracks, ans.subtitle).Some?
    requires ScaleHeight(ans.resolution).Some?
    requires !Contains(path, "[aout]") && !Contains(path, "[vout]")
    ensures c.filter == "[0:v]subtitles='" + EscapeFilterPath(path) + "':si="
                        + IntToString(BurnInTrack(subtitleTracks, ans.subtitle).value)
                        + ChainedScale(ScaleHeight(ans.resolution).value)
    ensures c.video[..2] == ["-map", "[vout]"]
  {
    GraphBurnInWithoutMerge(audioTracks, subtitleTracks, path, ans, preset, c);
    PlainPathChain(path, BurnInTrack(subtitleTracks, ans.subtitle).value, ScaleHeight(ans.resolution).value);
    FinalVideoArgs(audioTracks, subtitleTracks, path, ans, preset, c);
  }

  /** A path that contains `[vout]` (and not `[aout]`) is itself rewritten
      by the scale stage: the graph is longer than the intended chain, so
      the subtitle filter no longer names the input file. */
  lemma VoutInPathIsRewritten(audioTracks: seq<Track>, subtitleTracks: seq<Track>, path: string,
                              ans: Answers, preset: Preset, c: Config)
    requires c == Compose(audioTracks, subtitleTracks, path, ans, preset)
    requires !MergeRequested(audioTracks, ans) && BurnInTrack(subtitleTracks, ans.subtitle).Some?
    requires ScaleHeight(ans.resolution).Some?
    requires !Contains(path, "[aout]") && Contains(path, "[vout]")
    ensures |c.filter| > |"[0:v]subtitles='" + EscapeFilterPath(path) + "':si="
                          + IntToString(BurnInTrack(subtitleTracks, ans.subtitle).value)
                          + ChainedScale(ScaleHeight(ans.resolution).value)|
  {
    GraphBurnInWithoutMerge(audioTracks, subtitleTracks, path, ans, preset, c);
    RewrittenPathLonger(path, BurnInTrack(subtitleTracks, ans.subtitle).value, ScaleHeight(ans.resolution).value);
  }

  /** The subtitle fragment and both scale fragments output `[vout]`
      last. */
  lemma FragmentsEndInVout(esc: string, id: int, h: nat)
    ensures EndsWith(SubtitleFragment(esc, id), "[vout]")
    ensures EndsWith(RawScale(h), "[vout]")
    ensures EndsWith(ChainedScale(h), "[vout]")
  {
    var v := "[vout]";
    EndsWithSuffix("[0:v]subtitles='" + esc + "':si=" + IntToString(id), v);
    EndsWithSuffix("[0:v]" + ScaleFilter(h), v);
    EndsWithSuffix("[vtmp];[vtmp]" + ScaleFilter(h), v);
  }

  /** Without burn-in, a scaled graph ends with the scale fragment's
      `[vout]`. */
  lemma VoutLastWithoutBurnIn(audioTracks: seq<Track>, subtitleTracks: seq<Track>, path: string,
                              ans: Answers, preset: Preset, c: Config)
    requires c == Compose(audioTracks, subtitleTracks, path, ans, preset)
    requires BurnInTrack(subtitleTracks, ans.subtitle).None? && Scales(subtitleTracks, ans)
    ensures EndsWith(c.filter, "[vout]")
  {
    var h := ScaleHeight(ans.resolution).value;
    GraphWithoutBurnIn(audioTracks, subtitleTracks, path, ans, preset, c);
    FragmentsEndInVout("", 0, h);
    if MergeRequested(audioTracks, ans) {
      EndsWithAppend(MergeFragment(Split(ans.audioTracks)) + ";", RawScale(h), "[vout]");
    }
  }

  /** With merge and burn-in, the graph ends with the subtitle fragment's
      `[vout]`, or with the appended scale fragment's. */
  lemma VoutLastMergeAndBurnIn(audioTracks: seq<Track>, subtitleTracks: seq<Track>, path: string,
                               ans: Answers, preset: Preset, c: Config)
    requires c == Compose(audioTracks, subtitleTracks, path, ans, preset)
    requires MergeRequested(audioTracks, ans) && BurnInTrack(subtitleTracks, ans.subtitle).Some?
    ensures EndsWith(c.filter, "[vout]")
  {
    var m := MergeFragment(Split(ans.audioTracks));
    var f := SubtitleFragment(EscapeFilterPath(path), BurnInTrack(subtitleTracks, ans.subtitle).value);
    GraphMergeAndBurnIn(audioTracks, subtitleTracks, path, ans, preset, c);
    if Scales(subtitleTracks, ans) {
      var h := ScaleHeight(ans.resolution).value;
      FragmentsEndInVout("", 0, h);
      EndsWithAppend(m + ";" + f + ";", RawScale(h), "[vout]");
    } else {
      FragmentsEndInVout(EscapeFilterPath(path), BurnInTrack(subtitleTracks, ans.subtitle).value, 0);
      EndsWithAppend(m + ";", f, "[vout]");
    }
  }

  /** Burn-in without a merge: the graph ends with the subtitle fragment's
      `[vout]`, the chained scale's, or the appended scale fragment's. */
  lemma VoutLastBurnInWithoutMerge(audioTracks: seq<Track>, subtitleTracks: seq<Track>, path: string,
                                   ans: Answers, preset: Preset, c: Config)
    requires c == Compose(audioTracks, subtitleTracks, path, ans, preset)
    requires !MergeRequested(audioTracks, ans) && BurnInTrack(subtitleTracks, ans.subtitle).Some?
    ensures EndsWith(c.filter, "[vout]")
  {
    var esc := EscapeFilterPath(path);
    var id := BurnInTrack(subtitleTracks, ans.subtitle).value;
    GraphBurnInWithoutMerge(audioTracks, subtitleTracks, path, ans, preset, c);
    if Scales(subtitleTracks, ans) {
      var h := ScaleHeight(ans.resolution).value;
      FragmentsEndInVout(esc, id, h);
      if Contains(path, "[aout]") {
        EndsWithAppend(SubtitleFragment(esc, id) + ";", RawScale(h), "[vout]");
      } else {
        EndsWithAppend("[0:v]subtitles='" + ReplaceAll(esc, "[vout]", ChainedScale(h)) + "':si=" + IntToString(id),
                       ChainedScale(h), "[vout]");
      }
    } else {
      FragmentsEndInVout(esc, id, 0);
    }
  }

  /** Every label the command maps is produced by the graph: `[aout]` stays
      in the graph when the audio is merged, and when the video map names
      `[vout]` the graph's last fragment outputs it. */
  lemma MappedLabelsExist(audioTracks: seq<Track>, subtitleTracks: seq<Track>, path: string,
                          ans: Answers, preset: Preset, c: Config)
    requires c == Compose(audioTracks, subtitleTracks, path, ans, preset)
    ensures MergeRequested(audioTracks, ans) ==> Contains(c.filter, "[aout]")
    ensures c.video[1] == "[vout]" ==> EndsWith(c.filter, "[vout]")
  {
    FinalVideoArgs(audioTracks, subtitleTracks, path, ans, preset, c);
    if MergeRequested(audioTracks, ans) {
      MergeGraphFirst(audioTracks, subtitleTracks, path, ans, preset, c);
    }
    if c.video[1] == "[vout]" {
      if BurnInTrack(subtitleTracks, ans.subtitle).None? {
        VoutLastWithoutBurnIn(audioTracks, subtitleTracks, path, ans, preset, c);
      } else if MergeRequested(audioTracks, ans) {
        VoutLastMergeAndBurnIn(audioTracks, subtitleTracks, path, ans, preset, c);
      } else {
        VoutLastBurnInWithoutMerge(audioTracks, subtitleTracks, path, ans, preset, c);
      }
    }
  }

  // ---------------------------------------------------------------------
  // The argument vector
  // ---------------------------------------------------------------------

  /** The layout of the argument vector: the input first, the graph right
      after it exactly when there is one, then the video arguments, the
      audio arguments, and the output last. */
  lemma ArgvLayout(input: string, output: string, c: Config, argv: seq<string>)
    requires argv == Argv(input, output, c)
    requires |c.video| > 0 && c.video[0] == "-map"
    ensures argv[..3] == ["ffmpeg", "-i", input]
    ensures argv[|argv| - 1] == output
    ensures argv[3] == "-filter_complex" <==> c.filter != ""
    ensures c.filter != "" ==> argv[4] == c.filter
    ensures var start := if c.filter != "" then 5 else 3;
      && |argv| == start + |c.video| + |c.audio| + 1
      && argv[start..start + |c.video|] == c.video
      && argv[start + |c.video|..|argv| - 1] == c.audio
  {
    var start := if c.filter != "" then 5 else 3;
    var head := ["ffmpeg", "-i", input] + (if c.filter != "" then ["-filter_complex", c.filter] else []);
    assert |head| == start;
    assert argv == head + c.video + c.audio + [output];
    assert argv[start..start + |c.video|] == c.video;
    assert argv[start + |c.video|..|argv| - 1] == c.audio;
  }

  /** The default preset's encoder arguments. */
  lemma DefaultPresetArgs()
    ensures PresetArgs(DefaultPreset) == ["-c:v", "libx264", "-crf", "24", "-preset", "veryslow"]
  {
    var params := DefaultPreset.params;
    ParamArgsAt(params);
    assert DigitChar(2) == '2' && DigitChar(4) == '4';
    assert NatToString(24) == NatToString(2) + [DigitChar(4)];
    assert Render(params[0].1) == "24";
    var args := PresetArgs(DefaultPreset);
    assert args[2] == "-crf" && args[3] == "24" && args[4] == "-preset" && args[5] == "veryslow";
  }

  /** The parts of the configuration in the scenario below. */
  lemma IncludeAllWithBurnInParts(audioTracks: seq<Track>, subtitleTracks: seq<Track>, path: string,
                                  reencode: bool, c: Config)
    requires |audioTracks| == 2 && |subtitleTracks| == 1 && subtitleTracks[0].id == 0
    requires c == Compose(audioTracks, subtitleTracks, path, Answers("1", "", "0", reencode, ""), DefaultPreset)
    ensures c.filter == SubtitleFragment(EscapeFilterPath(path), 0) && c.filter != ""
    ensures c.video == ["-map", "[vout]", "-c:v", "libx264", "-crf", "24", "-preset", "veryslow"]
    ensures c.audio == IncludeAllAudioArgs
  {
    var ans := Answers("1", "", "0", reencode, "");
    assert IsDigits("0") && DigitsValue("0") == 0 by { assert "0"[..0] == ""; }
    assert BurnInTrack(subtitleTracks, "0") == Some(0);
    assert ScaleHeight("") == None;
    FinalVideoArgs(audioTracks, subtitleTracks, path, ans, DefaultPreset, c);
    DefaultPresetArgs();
    LaterStagesKeepAudio(audioTracks, subtitleTracks, path, ans, DefaultPreset);
    AudioStageArgs(true, "1", "");
    GraphBurnInWithoutMerge(audioTracks, subtitleTracks, path, ans, DefaultPreset, c);
  }

  /** Two audio tracks included whole, subtitle 0 burned in with the
      default preset and no resolution change: the complete command, for
      any input path. */
  lemma IncludeAllWithBurnInScenario(audioTracks: seq<Track>, subtitleTracks: seq<Track>, path: string,
                                     output: string, reencode: bool)
    requires |audioTracks| == 2 && |subtitleTracks| == 1 && subtitleTracks[0].id == 0
    ensures Argv(path, output, Compose(audioTracks, subtitleTracks, path, Answers("1", "", "0", reencode, ""), DefaultPreset))
      == ["ffmpeg", "-i", path,
          "-filter_complex", SubtitleFragment(EscapeFilterPath(path), 0),
          "-map", "[vout]", "-c:v", "libx264", "-crf", "24", "-preset", "veryslow",
          "-map", "0:a", "-c:a", "copy",
          output]
  {
    var c := Compose(audioTracks, subtitleTracks, path, Answers("1", "", "0", reencode, ""), DefaultPreset);
    IncludeAllWithBurnInParts(audioTracks, subtitleTracks, path, reencode, c);
    IncludeAllWithBurnInArgv(path, output, c);
  }

  /** The argument vector of the scenario above, from its parts. */
  lemma IncludeAllWithBurnInArgv(path: string, output: string, c: Config)
    requires c.filter == SubtitleFragment(EscapeFilterPath(path), 0) && c.filter != ""
    requires c.video == ["-map", "[vout]", "-c:v", "libx264", "-crf", "24", "-preset", "veryslow"]
    requires c.audio == IncludeAllAudioArgs
    ensures Argv(path, output, c)
      == ["ffmpeg", "-i", path,
          "-filter_complex", SubtitleFragment(EscapeFilterPath(path), 0),
          "-map", "[vout]", "-c:v", "libx264", "-crf", "24", "-preset", "veryslow",
          "-map", "0:a", "-c:a", "copy",
          output]
  {
    ArgvWithGraph(path, output, c);
  }

  /** The subtitle fragment burning in track 0. */
  lemma SubtitleFragmentOfTrackZero(esc: string)
    ensures SubtitleFragment(esc, 0) == "[0:v]subtitles='" + esc + "':si=0[vout]"
  {
    var a := "[0:v]subtitles='";
    var tail := "':si=" + IntToString(0) + "[vout]";
    assert IntToString(0) == "0";
    assert tail == "':si=0[vout]";
    assert SubtitleFragment(esc, 0) == a + esc + tail;
  }

  /** The argument vector of a command with a graph. */
  lemma ArgvWithGraph(input: string, output: string, c: Config)
    requires c.filter != ""
    ensures Argv(input, output, c) == ["ffmpeg", "-i", input, "-filter_complex", c.filter] + c.video + c.audio + [output]
  {
  }

  /** The track list "0 2" reads as the ids 0 and 2. */
  lemma SplitZeroTwo()
    ensures Split("0 2") == ["0", "2"]
  {
    var ids := ["0", "2"];
    assert Unwords(ids) == "0 2";
    SplitUnwords(ids);
  }

  /** The input labels of the ids 0 and 2. */
  lemma MergeInputsOfZeroTwo()
    ensures MergeInputs(["0", "2"]) == "[0:a:0][0:a:2]"
  {
    var ids := ["0", "2"];
    var zero := ids[..1];
    assert zero[..0] == [];
    assert MergeInputs(zero) == [] + InputLabel(zero[0]);
    assert ids[..1] == zero && zero[0] == "0" && ids[1] == "2";
    assert MergeInputs(ids) == InputLabel("0") + InputLabel("2");
  }

  /** The fixed part of a merge fragment follows its input labels. */
  lemma MergeFragmentTail(ids: seq<string>)
    ensures MergeFragment(ids) == MergeInputs(ids) + ("amerge=inputs=" + NatToString(|ids|) + "[aout]")
  {
    RegroupTail(MergeInputs(ids), "amerge=inputs=", NatToString(|ids|), "[aout]");
  }

  lemma RegroupTail(w: string, x: string, y: string, z: string)
    ensures w + x + y + z == w + (x + y + z)
  {
  }

  /** The merge fragment of the ids 0 and 2. */
  lemma MergeFragmentOfZeroTwo()
    ensures MergeFragment(["0", "2"]) == "[0:a:0][0:a:2]amerge=inputs=2[aout]"
  {
    MergeInputsOfZeroTwo();
    MergeFragmentTail(["0", "2"]);
    var labels := "[0:a:0][0:a:2]";
    var tail := "amerge=inputs=" + NatToString(2) + "[aout]";
    assert NatToString(2) == "2";
    assert tail == "amerge=inputs=2[aout]";
    assert labels + tail == "[0:a:0][0:a:2]amerge=inputs=2[aout]";
  }

  /** Merging tracks 0 and 2 (typed "0 2") gives the two input labels and
      an input count of 2, and maps the merged output with the merged-audio
      codec. */
  lemma MergeZeroAndTwo(audioTracks: seq<Track>, subtitleTracks: seq<Track>, path: string, ans: Answers,
                        preset: Preset, c: Config)
    requires c == Compose(audioTracks, subtitleTracks, path, ans, preset)
    requires |audioTracks| > 0 && ans.audioChoice == "2" && ans.audioTracks == "0 2"
    requires BurnInTrack(subtitleTracks, ans.subtitle).None? && !Scales(subtitleTracks, ans)
    ensures c.filter == "[0:a:0][0:a:2]amerge=inputs=2[aout]"
    ensures c.audio == ["-map", "[aout]", "-c:a", "aac"]
  {
    GraphWithoutBurnIn(audioTracks, subtitleTracks, path, ans, preset, c);
    SplitZeroTwo();
    MergeFragmentOfZeroTwo();
    LaterStagesKeepAudio(audioTracks, subtitleTracks, path, ans, preset);
    AudioStageArgs(true, "2", "0 2");
  }

  // ---------------------------------------------------------------------
  // Replaying the first file's answers
  // ---------------------------------------------------------------------

  /** The stored number survives replay: storing the replayed answer gives
      the stored value back. */
  lemma StoredReplayRoundTrip(stored: Option<nat>)
    ensures StoredAnswer(ReplayedAnswer(stored)) == stored
  {
    if stored.None? {
      assert !IsDigits("");
    }
  }

  /** A replayed resolution answer selects the same height as the original
      one. */
  lemma ReplayKeepsScale(answer: string)
    ensures ScaleHeight(ReplayedAnswer(StoredAnswer(answer))) == ScaleHeight(answer)
  {
  }

  /** A replayed subtitle answer burns in the same track as the original,
      unless the original was read by int() without being all digits. */
  lemma ReplayKeepsBurnIn(tracks: seq<Track>, answer: string)
    requires answer == "" || IsDigits(answer) || ParseInt(answer).None?
    ensures BurnInTrack(tracks, ReplayedAnswer(StoredAnswer(answer))) == BurnInTrack(tracks, answer)
  {
    if IsDigits(answer) {
      ParseIntOfNatToString(DigitsValue(answer));
    }
  }

  /** A later file with the same tracks gets the same command as the first
      file, for every subtitle answer that the cache stores faithfully. */
  lemma ReplayKeepsCommand(audioTracks: seq<Track>, subtitleTracks: seq<Track>, path: string,
                           ans: Answers, preset: Preset)
    requires ans.subtitle == "" || IsDigits(ans.subtitle) || ParseInt(ans.subtitle).None?
    ensures Compose(audioTracks, subtitleTracks, path, ReplayedAnswers(audioTracks, subtitleTracks, ans), preset)
         == Compose(audioTracks, subtitleTracks, path, ans, preset)
  {
    var r := ReplayedAnswers(audioTracks, subtitleTracks, ans);
    ReplayKeepsBurnIn(subtitleTracks, ans.subtitle);
    ReplayKeepsScale(ans.resolution);
    assert BurnInTrack(subtitleTracks, r.subtitle) == BurnInTrack(subtitleTracks, ans.subtitle);
    assert Reencodes(subtitleTracks, r) == Reencodes(subtitleTracks, ans);
    var a := AudioStage(InitialConfig, |audioTracks| > 0, ans.audioChoice, ans.audioTracks);
    assert AudioStage(InitialConfig, |audioTracks| > 0, r.audioChoice, r.audioTracks) == a;
    SubtitleStageCases(a, subtitleTracks, ans.subtitle, path);
    SubtitleStageCases(a, subtitleTracks, r.subtitle, path);
    var s := SubtitleStage(a, subtitleTracks, ans.subtitle, path);
    if Reencodes(subtitleTracks, ans) {
      ScaleStageCases(s.(video := s.video + PresetArgs(preset)), ans.resolution);
      ScaleStageCases(s.(video := s.video + PresetArgs(preset)), r.resolution);
    }
  }

  /** Burn-in on the first file leaves the stored reencode answer false: a
      later file that lacks the replayed subtitle track is not reencoded,
      whatever the reencode answer would have been. */
  lemma ReplayedBurnInDoesNotForceReencode(firstAudio: seq<Track>, firstSubtitles: seq<Track>, ans: Answers,
                                           audioTracks: seq<Track>, subtitleTracks: seq<Track>, path: string,
                                           preset: Preset)
    requires BurnInTrack(firstSubtitles, ans.subtitle).Some?
    requires BurnInTrack(subtitleTracks, ReplayedAnswers(firstAudio, firstSubtitles, ans).subtitle).None?
    ensures Compose(audioTracks, subtitleTracks, path, ReplayedAnswers(firstAudio, firstSubtitles, ans), preset).video
         == CopyVideoArgs
  {
    var r := ReplayedAnswers(firstAudio, firstSubtitles, ans);
    assert !Reencodes(subtitleTracks, r);
  }

  /** A signed subtitle answer such as "+1" burns in track 1 for the first
      file, but is stored as no answer, so later files burn in nothing. */
  lemma SignedSubtitleAnswerNotReplayed(tracks: seq<Track>)
    requires |tracks| >= 2 && forall k :: 0 <= k < |tracks| ==> tracks[k].id == k
    ensures BurnInTrack(tracks, "+1") == Some(1)
    ensures BurnInTrack(tracks, ReplayedAnswer(StoredAnswer("+1"))) == None
  {
    var body := "+1"[1..];
    assert body == "1" && IsGroupedDigits(body);
    assert WithoutUnderscores(body) == "1";
    assert DigitsValue("1") == 1 by { assert "1"[..0] == ""; }
    assert ParseInt("+1") == Some(1);
    FoundIffInRange(tracks, 1);
    assert !IsDigits("+1");
  }
}
