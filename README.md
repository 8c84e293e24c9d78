# encode-script command assembly, in Dafny

This project models the core of `encode.py`, a batch front end to ffmpeg.
For each input file it builds one ffmpeg command line from two things: the
audio and subtitle tracks the media probe reports, and the user's answers
(which audio tracks to include or merge, which subtitle track to burn in,
whether to reencode, which encoding preset, which target height). The
model covers:

- **Track extraction** (`Tracks`): the streams of one type, numbered from
  zero, with their title and language fallbacks. Also the lookup of a
  track by id that burn-in performs.
- **Preset choice** (`Presets`): the answer rule of `get_encoding_preset`
  (empty means 0, digits only, index in range), its retry loop, and the
  encoder arguments a preset contributes.
- **Filter-path escaping** (`FilterPath`): the two `str.replace` calls
  that escape the input path before it goes into the `subtitles` filter.
- **Command assembly** (`Command`). The stages of `encode_video` are:
  - audio (include, merge or none);
  - subtitle burn-in;
  - preset arguments;
  - the scale stage, which picks its branch by `'[aout]' in filter` and
    rewrites every `[vout]`;
  - stream copy;
  - the argument-vector layout;
  - the output name;
  - the answers a later file replays from the first file's cache.

  Each stage is a function over `Config`, the three parts of
  `cmd_config` that change: video arguments, audio arguments and the
  graph, with `""` standing for `None`. `CommandBuilder` is a class that
  updates those fields in place, as the source does. Each of its methods
  is proved to move its state exactly as the matching stage function
  says. `BuildCommand` runs the stages in the source's order and is
  proved to produce `Argv(..., Compose(...))`.
- **Properties** (`CommandProperties`): what the final command is for each
  combination of answers.

`Text` supplies the Python string built-ins that the core relies on:
`str.split()`, `str.isdigit()`, `int()`, `str(int)`, `in` and
`str.replace()`.

The model follows the code as written:

- Track ids typed by the user are passed through unchecked.
- Merge mode with an empty track list, and an audio choice other than
  "1" or "2", both leave the audio arguments empty.
- When the graph holds `[aout]`, the scale stage appends a second fragment
  that outputs `[vout]` (`GraphMergeAndBurnIn`). In that case the scaled
  video does not carry the subtitles.
- When the graph has no `[aout]`, the scale stage rewrites every `[vout]`,
  including one inside the escaped input path (`VoutInPathIsRewritten`).
- A path containing `[aout]` switches the scale stage to the other branch
  (`GraphBurnInWithoutMerge`).

## Model

| member | source | states |
|---|---|---|
| Text.Split | encode.py:231 | every word `str.split()` returns is non-empty and free of whitespace |
| Text.SplitKeepsEveryOtherChar | encode.py:231 | the words put back together are exactly the input's non-whitespace characters, in order |
| Text.SplitSpacedWords | encode.py:231 | for any non-empty whitespace-free words separated by non-empty whitespace runs, with any whitespace (or none) before and after, `str.split()` returns exactly those words: the words are the maximal runs |
| Text.SplitDecomposes | encode.py:231 | every string is `str.split()`'s words interleaved with whitespace runs of that shape, so no other choice of words decomposes it |
| Text.SplitUnwords | encode.py:240 | splitting a single-space-joined list of words gives the words back |
| Text.NatToString | encode.py:244 | `str(n)` is all digits, reads back as n, and has no leading zero |
| Text.ParseInt | encode.py:282 | `int()` accepts exactly an optional sign followed by digits grouped by single underscores (ending in a digit, every `_` followed by a digit), and its value is the signed value of the digits with the underscores dropped; an all-digit answer is its own value and a negative result needs `-` |
| Text.ParseIntUnderscores | encode.py:282 | "1_0" reads as 10 and "-1_0" as -10, while "1__0", "1_", "_1" and a lone "+" are refused |
| Text.ParseIntOfNatToString | encode.py:269 | `int(str(n)) == n`: a stored number comes back as itself |
| Text.ParseIntOfIntToString | encode.py:289 | `int(str(i)) == i` for every integer, negative ones included: the id written into the subtitle fragment is the one that was read |
| Text.ReplaceAllAbsent | encode.py:344 | `str.replace` changes nothing when the pattern does not occur |
| Text.ReplaceAllConcat | encode.py:344 | `str.replace` distributes over a concatenation when no occurrence straddles the seam |
| Text.ContainsConcat | encode.py:336 | `p in x + y` holds exactly when `p in x` or `p in y`, when no occurrence straddles the seam |
| Text.ReplaceAllLength | encode.py:344 | replacing by a text at least as long never shortens the string, and lengthens it when the pattern occurs and the replacement is longer |
| Text.ReplaceAllKeepsTarget | encode.py:344 | when the replacement contains the pattern, the rewritten string still contains it |
| FilterPath.EscapeFilterPath | encode.py:286 | defines the escaping as the two replacements in the source's order; its properties are stated by `EscapeIsSinglePass`, `UnescapeInvertsEscape` and `PlainPathUnchanged` |
| FilterPath.EscapeIsSinglePass | encode.py:286 | the two successive replacements equal escaping each character once: the backslash added before a colon is never doubled |
| FilterPath.EscapedLength | encode.py:286 | the escaped path is longer by exactly the number of backslashes plus the number of colons |
| FilterPath.UnescapeInvertsEscape | encode.py:286 | reading each backslash as "take the next character literally" gives the original path back |
| FilterPath.ContainsEscaped | encode.py:286 | a text without `\` and `:` (such as a filter label) occurs in the escaped path exactly when it occurs in the path |
| FilterPath.PlainPathUnchanged | encode.py:286 | a path without `\` and `:` is embedded unchanged |
| Tracks.Positions | encode.py:90-91 | at most one position per stream, each a valid stream index |
| Tracks.PositionsExact | encode.py:90-91 | the kept positions are exactly the streams of the requested type, each once and in increasing order |
| Tracks.ExtractTracks | encode.py:89-101 | the loop builds the per-type track list, and track k has id k |
| Tracks.GetTracks | encode.py:107-123 | a failed probe or one without `streams` gives no tracks; otherwise the per-type track list |
| Tracks.TracksOfDescribe | encode.py:111-123 | track k describes the k-th stream of the type: id k, the title fallback (`title`, `handler_name`, `Untitled`) and the language fallback (`unknown`) |
| Tracks.FirstWithId | encode.py:283 | the found track has the requested id and sits at a position before which no track has that id, so it is the first match; nothing is found exactly when no track has that id |
| Tracks.FindTrack | encode.py:283 | the search returns the first track with the id |
| Tracks.FoundIffInRange | encode.py:283 | for extracted tracks, an id is found exactly when it lies in 0 .. count-1 |
| Presets.ParamArgsAt | encode.py:319-320 | each preset parameter contributes `-<key>` then `str(value)`, in the mapping's order, two arguments per parameter |
| Presets.ChoiceIndex | encode.py:166-168 | an answer is accepted exactly when it is empty (meaning 0, if there is a preset) or all digits naming an index below the preset count |
| Presets.ChosenPresetFirstAccepted | encode.py:165-174 | a preset is chosen exactly when some answer is accepted, and then it is the one named by the first accepted answer, with every earlier answer refused |
| Presets.SelectPreset | encode.py:153-174 | a single preset is taken without reading an answer; otherwise answers are read until the first accepted one, which names the preset, and only refused answers come before it |
| Command.OutputPath | encode.py:182 | the output name ends in `<stem>_done.mp4`. For the directory "." it is just that name. Otherwise it starts with the directory, and one `/` separates the two exactly when the directory does not already end in `/` |
| Command.IncludeArgsAt | encode.py:231-237 | four arguments per included id, in order, `-map 0:a:<id> -c:a copy`, with the id as typed |
| Command.MergeFragmentRoundTrip | encode.py:240-244 | the merge fragment reads back as the ids it was built from, with an input count equal to their number |
| Command.MergeFragmentHasAout | encode.py:244 | the merge fragment names `[aout]` |
| Command.SubtitleStageEffect | encode.py:280-294 | burn-in happens exactly when the answer is non-empty and int() reads it as an id in range. It then appends the fragment after any earlier graph and maps `[vout]`, leaving the audio untouched; otherwise nothing changes |
| Command.AudioStage | encode.py:222-260 | defines the audio stage's effect on the record; its cases are stated by `AudioStageArgs`, `MergeFragmentRoundTrip` and `MergeGraphFirst` |
| Command.SubtitleStage | encode.py:280-294 | defines the burn-in stage's effect on the record; stated by `SubtitleStageEffect` |
| Command.ScaleStage | encode.py:330-348 | defines the scale stage's three cases; stated by `GraphWithoutBurnIn`, `GraphMergeAndBurnIn`, `GraphBurnInWithoutMerge` and `FinalVideoArgs` |
| Command.Compose | encode.py:181-352 | defines the record the stages build, in the source's order; the in-place `BuildCommand` is proved equal to it, and `ArgvLayout`, `GraphEmptyIff` and `MappedLabelsExist` state its shape |
| Command.ReplayedAnswers | encode.py:197-328 | defines the answers a later file replays from the cache; stated by `ReplayKeepsCommand`, `ReplayKeepsBurnIn`, `ReplayKeepsScale` and `ReplayedBurnInDoesNotForceReencode` |
| Command.CommandBuilder.constructor | encode.py:185-191 | the record starts with `-map 0:v`, no audio arguments and no graph |
| Command.CommandBuilder.ApplyAudio | encode.py:222-260 | the in-place audio stage (no tracks, include all, none, specific ids, merge) moves the record as the audio stage function says |
| Command.CommandBuilder.ApplySubtitle | encode.py:280-296 | the in-place burn-in moves the record as the subtitle stage says, and reports whether it forces reencoding |
| Command.CommandBuilder.ApplyPreset | encode.py:313-320 | the codec and every parameter are appended to the video arguments; nothing else changes |
| Command.CommandBuilder.ApplyScale | encode.py:330-348 | the in-place scale stage moves the record as the scale stage says |
| Command.CommandBuilder.UseStreamCopy | encode.py:351-352 | without reencoding, the video arguments become `-map 0:v -c:v copy` |
| Command.CommandBuilder.Arguments | encode.py:355-362 | the command line is the layout `Argv` of the record |
| Command.BuildCommand | encode.py:181-362 | the assembly for one file yields the argument vector of the composed stages, writing to `OutputPath` of the input's directory and stem |
| CommandProperties.AudioStageArgs | encode.py:222-260 | the audio arguments in every case: `-an` without tracks, copy all for "", `-an` for "-", four per id, the merged map and codec, and none for an empty merge list or an unknown choice |
| CommandProperties.IncludeArgsBlocks | encode.py:233-237 | each included id owns the four-argument block at 4k |
| CommandProperties.LaterStagesKeepAudio | encode.py:262-352 | burn-in, preset, scale and stream copy never change the audio arguments |
| CommandProperties.FinalVideoArgs | encode.py:309-352 | the video arguments are stream copy without reencoding. With reencoding they are the map, then the codec and the preset parameters; the map names `[vout]` exactly when a subtitle is burned in or a height is applied |
| CommandProperties.GraphEmptyIff | encode.py:357-358 | there is no `-filter_complex` exactly when there is no merge, no burn-in and no scale |
| CommandProperties.MergeGraphFirst | encode.py:247-250 | the merge fragment is the graph's first fragment and `[aout]` stays in the graph |
| CommandProperties.GraphWithoutBurnIn | encode.py:334-348 | without burn-in the graph is nothing, the merge fragment, the raw scale fragment, or both joined by `;` |
| CommandProperties.GraphMergeAndBurnIn | encode.py:336-341 | with merge and burn-in, a height adds a second fragment reading the raw video, so two fragments output `[vout]` |
| CommandProperties.GraphBurnInWithoutMerge | encode.py:342-344 | burn-in alone gives the subtitle fragment. A height then rewrites every `[vout]`, inside the path too, unless the path contains `[aout]`, which selects the appended raw scale |
| CommandProperties.BurnInThenScaleChain | encode.py:344 | on a path free of both labels, burn-in and a height give the intended chain through `[vtmp]`, mapped as `[vout]` |
| CommandProperties.VoutInPathIsRewritten | encode.py:344 | a path containing `[vout]` is itself rewritten, so the graph is longer than the intended chain |
| CommandProperties.FragmentsEndInVout | encode.py:289-344 | the subtitle fragment and both scale fragments end in `[vout]` |
| CommandProperties.MappedLabelsExist | encode.py:253-348 | every label the command maps is produced by the graph: `[aout]` stays in the graph when the audio is merged (its fragment comes first, `MergeGraphFirst`), and when the video map names `[vout]` the graph ends in `[vout]`, so its last fragment outputs it |
| CommandProperties.ArgvLayout | encode.py:355-362 | the input comes first, the graph directly after it exactly when there is one, then the video arguments, the audio arguments, and the output last |
| CommandProperties.DefaultPresetArgs | encode.py:8-15 | the default preset contributes `-c:v libx264 -crf 24 -preset veryslow` |
| CommandProperties.IncludeAllWithBurnInScenario | encode.py:181-362 | two audio tracks included whole and subtitle 0 burned in with the default preset give the complete command for any path |
| CommandProperties.SubtitleFragmentOfTrackZero | encode.py:289 | the burn-in fragment for track 0 reads `[0:v]subtitles='<path>':si=0[vout]` |
| CommandProperties.SubtitleFragmentContains | encode.py:289 | a label occurs in a subtitle fragment exactly when it occurs in the embedded path or is `[vout]` |
| CommandProperties.SubtitleFragmentRewrite | encode.py:344 | rewriting `[vout]` in a subtitle fragment rewrites it in the embedded path and in the output label, and nowhere else |
| CommandProperties.SplitZeroTwo | encode.py:240 | the track list "0 2" reads as the ids 0 and 2 |
| CommandProperties.MergeFragmentOfZeroTwo | encode.py:241-244 | the merge fragment of ids 0 and 2 is `[0:a:0][0:a:2]amerge=inputs=2[aout]` |
| CommandProperties.MergeZeroAndTwo | encode.py:238-256 | merging "0 2" gives that graph and maps `[aout]` with the aac codec |
| CommandProperties.StoredReplayRoundTrip | encode.py:269 | the replayed answer stores back as the same number or None |
| CommandProperties.ReplayKeepsScale | encode.py:324-330 | a replayed resolution selects the same height as the original answer |
| CommandProperties.ReplayKeepsBurnIn | encode.py:269-283 | a replayed subtitle answer burns in the same track, unless the original answer was read by int() without being all digits |
| CommandProperties.ReplayKeepsCommand | encode.py:197-330 | a later file with the same tracks gets the same command, for every subtitle answer the cache stores faithfully |
| CommandProperties.ReplayedBurnInDoesNotForceReencode | encode.py:299-306 | after burn-in on the first file the stored reencode answer is false, so a later file lacking that subtitle track is stream-copied |
| CommandProperties.SignedSubtitleAnswerNotReplayed | encode.py:278-282 | "+1" burns in track 1 for the first file, but is stored as None, so later files burn in nothing |

## Left out

- Running ffprobe and ffmpeg, and the video-file check (encode.py:51-79, 125-143, 378-385): subprocess I/O. The probe result is a parameter (`Tracks.GetTracks`), and the built argument vector is the end of the model.
- Loading presets from `.presets.json` (encode.py:26-49): file I/O and JSON decoding. Presets are given as a list, and a preset's `params` is an ordered list of key/value pairs.
- Floating-point preset values: `Presets.Scalar` has integers, strings, booleans and null only, so `str()` of a float is not modelled.
- Prompts and printed messages (encode.py:160-163, 201-209, 271-275, 296, 364-376): console I/O. Each answer is an already-stripped string in `Answers`, with the audio choice's empty-answer default `"1"` (encode.py:209) already applied, and the reencode answer is the boolean result of its comparison with "y".
- The main loop, file checks and the "use the same settings" prompt (encode.py:394-446): these only decide which files are encoded and whether the cache is used. The cache's effect on one later file is modelled by `Command.ReplayedAnswers`.
- Exceptions (encode.py:387-392) are not modelled. These include:
  - the UnboundLocalError when the first file's audio choice is neither "1" nor "2";
  - the KeyError of a preset from `.presets.json` that lacks `name`, `codec` or `params` (encode.py:163, 315, 319); the cache itself always holds all seven keys (encode.py:404-412);
  - a later file that needs reencoding while the first file did not, which gets the stored `None` preset and fails at encode.py:315.
- The cached-preset branch of `get_encoding_preset` (encode.py:150-151): it returns the stored preset unchanged, so `BuildCommand` just takes the preset as a parameter.
- Path handling beyond a POSIX join: `Path.parent` and `Path.stem` are given strings, and `str(input_path)` is the input string as given.
- Unicode digits: `str.isdigit()` and `int()` are modelled for ASCII digits only. `int()` also ignores surrounding whitespace, which the stripped answers never carry.
- Text.ParseInt: does not accept non-ASCII decimal digits, which Python's int() does.
