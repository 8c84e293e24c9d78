/** Encoding presets: the built-in default, the rule get_encoding_preset
    applies to the user's answer, its retry loop, and the encoder arguments
    a preset contributes when the video is reencoded. */
module Presets {
  import opened Text

  /** A scalar value of a preset's `params` mapping, as JSON decoding gives
      it. */
  datatype Scalar = IntValue(i: int) | StrValue(s: string) | BoolValue(b: bool) | NullValue

  /** A preset: `params` keeps the mapping's insertion order. */
  datatype Preset = Preset(name: string, codec: string, params: seq<(string, Scalar)>)

  const DefaultPreset := Preset("Default x264", "libx264", [("crf", IntValue(24)), ("preset", StrValue("veryslow"))])

  /** Python's str() of a scalar. */
  function Render(v: Scalar): string {
    match v
    case IntValue(i) => IntToString(i)
    case StrValue(s) => s
    case BoolValue(b) => if b then "True" else "False"
    case NullValue => "None"
  }

  /** `-<key>`, str(value) for each parameter, in order. */
  function ParamArgs(params: seq<(string, Scalar)>): seq<string> {
    if params == [] then []
    else
      var n := |params| - 1;
      ParamArgs(params[..n]) + ["-" + params[n].0, Render(params[n].1)]
  }

  /** Every parameter contributes exactly its flag and its value, in the
      mapping's order. */
  lemma {:induction false} ParamArgsAt(params: seq<(string, Scalar)>)
    ensures |ParamArgs(params)| == 2 * |params|
    ensures forall k :: 0 <= k < |params| ==>
      ParamArgs(params)[2 * k] == "-" + params[k].0 && ParamArgs(params)[2 * k + 1] == Render(params[k].1)
  {
    if params != [] {
      var n := |params| - 1;
      ParamArgsAt(params[..n]);
      assert forall k :: 0 <= k < n ==> params[..n][k] == params[k];
    }
  }

  /** The arguments a preset adds to the video arguments when reencoding. */
  function PresetArgs(p: Preset): seq<string> {
    ["-c:v", p.codec] + ParamArgs(p.params)
  }

  /** The answer rule of get_encoding_preset: an empty answer means "0";
      an answer is accepted only if it is all digits and names an index
      below the number of presets. */
  function ChoiceIndex(answer: string, count: nat): (r: Option<nat>)
    ensures r.Some? ==> r.value < count
    ensures r.Some? <==> (answer == "" && count > 0) || (IsDigits(answer) && DigitsValue(answer) < count)
    ensures answer == "" && count > 0 ==> r == Some(0)
    ensures r.Some? && answer != "" ==> r == Some(DigitsValue(answer))
  {
    var choice := if answer == "" then "0" else answer;
    assert DigitsValue("0") == 0 by { assert "0"[..0] == ""; }
    if IsDigits(choice) && DigitsValue(choice) < count then Some(DigitsValue(choice)) else None
  }

  /** The preset the answers select: the first accepted answer decides;
      None when every answer is refused. */
  function ChosenPreset(presets: seq<Preset>, answers: seq<string>): Option<Preset> {
    if answers == [] then None
    else
      match ChoiceIndex(answers[0], |presets|)
      case Some(i) => Some(presets[i])
      case None => ChosenPreset(presets, answers[1..])
  }

  /** A preset is chosen exactly when some answer is accepted, and then it
      is the one the first accepted answer names. */
  lemma {:induction false} ChosenPresetFirstAccepted(presets: seq<Preset>, answers: seq<string>)
    ensures ChosenPreset(presets, answers).Some? <==>
      exists j :: 0 <= j < |answers| && ChoiceIndex(answers[j], |presets|).Some?
    ensures ChosenPreset(presets, answers).Some? ==>
      exists j :: 0 <= j < |answers| && ChoiceIndex(answers[j], |presets|).Some?
        && (forall l :: 0 <= l < j ==> ChoiceIndex(answers[l], |presets|).None?)
        && ChosenPreset(presets, answers).value == presets[ChoiceIndex(answers[j], |presets|).value]
    decreases |answers|
  {
    if answers != [] {
      ChosenPresetFirstAccepted(presets, answers[1..]);
      assert forall j :: 1 <= j < |answers| ==> answers[j] == answers[1..][j - 1];
      if ChoiceIndex(answers[0], |presets|).None? && ChosenPreset(presets, answers).Some? {
        var j :| 0 <= j < |answers[1..]| && ChoiceIndex(answers[1..][j], |presets|).Some?
          && (forall l :: 0 <= l < j ==> ChoiceIndex(answers[1..][l], |presets|).None?)
          && ChosenPreset(presets, answers[1..]).value == presets[ChoiceIndex(answers[1..][j], |presets|).value];
        assert forall l :: 0 <= l < j + 1 ==> ChoiceIndex(answers[l], |presets|).None? by {
          forall l | 0 <= l < j + 1 ensures ChoiceIndex(answers[l], |presets|).None? {
            if l > 0 {
              assert answers[l] == answers[1..][l - 1];
            }
          }
        }
      }
    }
  }

  /** get_encoding_preset without a cached choice: a single preset is taken
      without consulting any answer; otherwise answers are read one after
      another until one is accepted. `used` is how many answers were read;
      None means the answers ran out first. */
  method SelectPreset(presets: seq<Preset>, answers: seq<string>) returns (chosen: Option<Preset>, used: nat)
    ensures |presets| == 1 ==> chosen == Some(presets[0]) && used == 0
    ensures |presets| != 1 ==> chosen == ChosenPreset(presets, answers)
    ensures |presets| != 1 ==> used <= |answers|
    ensures |presets| != 1 ==> forall j :: 0 <= j < used - 1 ==> ChoiceIndex(answers[j], |presets|).None?
    ensures |presets| != 1 && chosen.Some? ==>
      && used > 0
      && ChoiceIndex(answers[used - 1], |presets|).Some?
      && chosen.value == presets[ChoiceIndex(answers[used - 1], |presets|).value]
    ensures |presets| != 1 && chosen.None? ==> used == |answers|
  {
    if |presets| == 1 {
      return Some(presets[0]), 0;
    }
    var i := 0;
    while i < |answers|
      invariant 0 <= i <= |answers|
      invariant forall j :: 0 <= j < i ==> ChoiceIndex(answers[j], |presets|).None?
      invariant ChosenPreset(presets, answers) == ChosenPreset(presets, answers[i..])
    {
      var index := ChoiceIndex(answers[i], |presets|);
      if index.Some? {
        return Some(presets[index.value]), i + 1;
      }
      assert answers[i..][1..] == answers[i + 1..];
      i := i + 1;
    }
    return None, i;
  }
}
