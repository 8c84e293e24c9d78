/** Escaping of the input path before it is embedded in the `subtitles`
    filter of the filter graph: backslashes are doubled first, then every
    colon gets a backslash in front of it, by two successive str.replace
    calls. */
module FilterPath {
  import opened Text

  /** The path as encode_video escapes it: `\` becomes `\\`, then `:`
      becomes `\:`. */
  function EscapeFilterPath(path: string): string {
    ReplaceAll(ReplaceAll(path, "\\", "\\\\"), ":", "\\:")
  }

  /** Escaping of one character, as a single pass would do it. */
  function EscapeChar(c: char): string {
    if c == '\\' then "\\\\" else if c == ':' then "\\:" else [c]
  }

  /** Reference definition: every character escaped on its own, left to
      right. */
  function EscapeEach(s: string): string {
    if s == [] then [] else EscapeChar(s[0]) + EscapeEach(s[1..])
  }

  /** Reading an escaped path back: a backslash stands for the character
      after it. */
  function Unescape(s: string): string
    decreases |s|
  {
    if s == [] then []
    else if s[0] == '\\' && |s| >= 2 then [s[1]] + Unescape(s[2..])
    else [s[0]] + Unescape(s[1..])
  }

  function Count(s: string, c: char): nat {
    if s == [] then 0 else (if s[0] == c then 1 else 0) + Count(s[1..], c)
  }

  /** One-character replacement, character by character. */
  function MapChar(s: string, c: char, r: string): string {
    if s == [] then [] else (if s[0] == c then r else [s[0]]) + MapChar(s[1..], c, r)
  }

  lemma {:induction false} ReplaceCharIsMap(s: string, c: char, r: string)
    ensures ReplaceAll(s, [c], r) == MapChar(s, c, r)
    decreases |s|
  {
    if s != [] {
      ReplaceCharIsMap(s[1..], c, r);
      assert StartsWith(s, [c]) <==> s[0] == c;
    }
  }

  /** The second replacement sees the doubled backslashes of the first one
      and leaves them alone: the two passes together escape each character
      on its own. In particular the backslash that the colon step adds is
      never doubled. */
  lemma {:induction false} EscapeIsSinglePass(path: string)
    ensures EscapeFilterPath(path) == EscapeEach(path)
  {
    ReplaceCharIsMap(path, '\\', "\\\\");
    assert "\\" == ['\\'] && ":" == [':'];
    DoubledThenColons(path);
  }

  lemma {:induction false} DoubledThenColons(s: string)
    ensures ReplaceAll(MapChar(s, '\\', "\\\\"), ":", "\\:") == EscapeEach(s)
    decreases |s|
  {
    if s != [] {
      var head := if s[0] == '\\' then "\\\\" else [s[0]];
      assert MapChar(s, '\\', "\\\\") == head + MapChar(s[1..], '\\', "\\\\");
      ReplaceAllConcat(head, MapChar(s[1..], '\\', "\\\\"), ":", "\\:");
      DoubledThenColons(s[1..]);
      assert ":" == [':'];
      ReplaceCharIsMap(head, ':', "\\:");
      assert MapChar(head, ':', "\\:") == EscapeChar(s[0]);
    }
  }

  /** Each backslash and each colon costs one extra character; nothing else
      changes length. */
  lemma {:induction false} EscapedLength(path: string)
    ensures |EscapeFilterPath(path)| == |path| + Count(path, '\\') + Count(path, ':')
  {
    EscapeIsSinglePass(path);
    EscapeEachLength(path);
  }

  lemma {:induction false} EscapeEachLength(s: string)
    ensures |EscapeEach(s)| == |s| + Count(s, '\\') + Count(s, ':')
    decreases |s|
  {
    if s != [] {
      EscapeEachLength(s[1..]);
    }
  }

  /** Characters other than `\` and `:` come through unchanged and in
      order: dropping the added backslashes gives the path back. */
  lemma {:induction false} UnescapeInvertsEscape(path: string)
    ensures Unescape(EscapeFilterPath(path)) == path
  {
    EscapeIsSinglePass(path);
    UnescapeEach(path);
  }

  lemma {:induction false} UnescapeEach(s: string)
    ensures Unescape(EscapeEach(s)) == s
    decreases |s|
  {
    if s != [] {
      UnescapeEach(s[1..]);
      var e := EscapeEach(s);
      assert e == EscapeChar(s[0]) + EscapeEach(s[1..]);
      if s[0] == '\\' || s[0] == ':' {
        assert e[0] == '\\' && e[1] == s[0] && e[2..] == EscapeEach(s[1..]);
      } else {
        assert e[0] == s[0] && e[1..] == EscapeEach(s[1..]);
      }
    }
  }

  /** A text free of `\` and `:`: a filter label such as `[vout]`. */
  predicate PlainText(p: string) {
    '\\' !in p && ':' !in p
  }

  lemma {:induction false} StartsWithEscaped(s: string, p: string)
    requires PlainText(p)
    ensures StartsWith(EscapeEach(s), p) <==> StartsWith(s, p)
    decreases |p|
  {
    if p != [] && s != [] {
      var e := EscapeEach(s);
      assert e == EscapeChar(s[0]) + EscapeEach(s[1..]);
      if s[0] == '\\' || s[0] == ':' {
        assert e[0] == '\\' && p[0] != '\\' && s[0] != p[0];
      } else {
        assert e[1..] == EscapeEach(s[1..]);
        StartsWithEscaped(s[1..], p[1..]);
        assert p[1..] == p[1..] && forall c :: c in p[1..] ==> c in p;
        StartsWithFirst(e, p);
        StartsWithFirst(s, p);
      }
    }
  }

  /** Escaping neither creates nor destroys an occurrence of a text without
      `\` and `:`: a filter label occurs in the escaped path exactly when it
      occurs in the path itself. */
  lemma {:induction false} ContainsEscaped(path: string, p: string)
    requires PlainText(p)
    ensures Contains(EscapeFilterPath(path), p) <==> Contains(path, p)
  {
    EscapeIsSinglePass(path);
    ContainsEach(path, p);
  }

  lemma {:induction false} ContainsEach(s: string, p: string)
    requires PlainText(p)
    ensures Contains(EscapeEach(s), p) <==> Contains(s, p)
    decreases |s|
  {
    var e := EscapeEach(s);
    StartsWithEscaped(s, p);
    if s != [] {
      ContainsEach(s[1..], p);
      assert e == EscapeChar(s[0]) + EscapeEach(s[1..]);
      if s[0] == '\\' || s[0] == ':' {
        if p != [] {
          assert e[1..] == [s[0]] + EscapeEach(s[1..]);
          assert e[1..][1..] == EscapeEach(s[1..]);
          assert !StartsWith(e[1..], p) by { assert e[1..][0] == s[0]; }
          assert Contains(e, p) <==> Contains(e[1..], p);
          assert Contains(e[1..], p) <==> Contains(EscapeEach(s[1..]), p);
        }
      } else {
        assert e[1..] == EscapeEach(s[1..]);
      }
    }
  }

  /** A path without `\` and `:` is embedded as it is. */
  lemma {:induction false} PlainPathUnchanged(path: string)
    requires PlainText(path)
    ensures EscapeFilterPath(path) == path
  {
    EscapeIsSinglePass(path);
    PlainEach(path);
  }

  lemma {:induction false} PlainEach(s: string)
    requires PlainText(s)
    ensures EscapeEach(s) == s
    decreases |s|
  {
    if s != [] {
      assert s[0] in s;
      assert forall c :: c in s[1..] ==> c in s;
      PlainEach(s[1..]);
    }
  }
}
