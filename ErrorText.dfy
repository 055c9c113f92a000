/** Normalisation of the error text reported by a failed completion before it
    is shown in the chat: the client's `StatusNotOk("…")` wrapper is removed,
    two escape sequences are decoded and JSON bodies are pretty-printed. */
module ErrorText {
  import opened Common

  const StatusPrefix: string := "StatusNotOk(\""
  const StatusSuffix: string := "\")"
  /** A backslash followed by `n`, and a backslash followed by a double quote. */
  const EscapedNewline: string := "\\n"
  const EscapedQuote: string := "\\\""

  /** `strip_prefix(prefix).unwrap_or(s)`. */
  function StripPrefix(s: string, prefix: string): (r: string)
    ensures prefix <= s ==> s == prefix + r
    ensures !(prefix <= s) ==> r == s
  {
    if prefix <= s then s[|prefix|..] else s
  }

  /** True when `s` ends with `suffix`. */
  predicate EndsWith(s: string, suffix: string)
  {
    |suffix| <= |s| && s[|s| - |suffix|..] == suffix
  }

  /** Two `pop`s when the text ends with the closing `")` of the wrapper. */
  function DropClosing(s: string): (r: string)
    ensures EndsWith(s, StatusSuffix) ==> r + StatusSuffix == s
    ensures !EndsWith(s, StatusSuffix) ==> r == s
  {
    if EndsWith(s, StatusSuffix) then s[..|s| - 2] else s
  }

  /** `str::replace`: every occurrence of `pat`, found left to right without
      overlap, is replaced by `rep`. */
  function ReplaceAll(s: string, pat: string, rep: string): (r: string)
    requires pat != []
    ensures |s| > 0 && rep != [] ==> |r| > 0 && (r[0] == s[0] || (pat <= s && r[0] == rep[0]))
    decreases |s|
  {
    if s == [] then []
    else if pat <= s then rep + ReplaceAll(s[|pat|..], pat, rep)
    else [s[0]] + ReplaceAll(s[1..], pat, rep)
  }

  /** The pattern occurs at no position of `s` before `n`. */
  predicate NoMatchBefore(s: string, pat: string, n: nat)
  {
    forall k :: 0 <= k < n && k <= |s| ==> !(pat <= s[k..])
  }

  /** Text in which the pattern never occurs is left unchanged. */
  lemma {:induction false} ReplaceAllNoMatch(s: string, pat: string, rep: string)
    requires pat != [] && NoMatchBefore(s, pat, |s|)
    ensures ReplaceAll(s, pat, rep) == s
    decreases |s|
  {
    if s != [] {
      assert s[0..] == s;
      assert NoMatchBefore(s[1..], pat, |s| - 1) by {
        forall k | 0 <= k < |s| - 1
          ensures !(pat <= s[1..][k..])
        {
          assert s[1..][k..] == s[k + 1..];
        }
      }
      ReplaceAllNoMatch(s[1..], pat, rep);
    }
  }

  /** The leftmost occurrence of the pattern is replaced and the search goes
      on after it: text before it is kept as it is. */
  lemma {:induction false} ReplaceAllFirstMatch(a: string, b: string, pat: string, rep: string)
    requires pat != []
    requires NoMatchBefore(a + pat + b, pat, |a|)
    ensures ReplaceAll(a + pat + b, pat, rep) == a + rep + ReplaceAll(b, pat, rep)
    decreases |a|
  {
    var s := a + pat + b;
    if a == [] {
      assert s == pat + b && pat <= s && s[|pat|..] == b;
    } else {
      assert s[0..] == s;
      assert s[1..] == a[1..] + pat + b;
      assert NoMatchBefore(a[1..] + pat + b, pat, |a| - 1) by {
        forall k | 0 <= k < |a| - 1
          ensures !(pat <= (a[1..] + pat + b)[k..])
        {
          assert (a[1..] + pat + b)[k..] == s[k + 1..];
        }
      }
      ReplaceAllFirstMatch(a[1..], b, pat, rep);
      assert [s[0]] + (a[1..] + rep + ReplaceAll(b, pat, rep)) == a + rep + ReplaceAll(b, pat, rep);
    }
  }

  /** The text after unwrapping and decoding, before the JSON step. */
  function Formatted(raw: string): string
  {
    var clean := DropClosing(StripPrefix(raw, StatusPrefix));
    ReplaceAll(ReplaceAll(clean, EscapedNewline, "\n"), EscapedQuote, "\"")
  }

  /** The final text: the pretty-printed JSON when the formatted text parses
      and prints (`pretty` stands for both steps), the formatted text otherwise. */
  function Normalize(raw: string, pretty: string -> Option<string>): (r: string)
    ensures pretty(Formatted(raw)).None? ==> r == Formatted(raw)
    ensures pretty(Formatted(raw)).Some? ==> r == pretty(Formatted(raw)).value
    ensures pretty(Formatted(raw)).None? ==> NoPair(r, '\\', 'n')
  {
    FormattedHasNoEscapedNewline(raw);
    var formatted := Formatted(raw);
    match pretty(formatted)
    case Some(json) => json
    case None => formatted
  }

  /** No character `x` is immediately followed by a character `y`. */
  predicate NoPair(s: string, x: char, y: char)
  {
    forall k :: 0 <= k < |s| - 1 ==> !(s[k] == x && s[k + 1] == y)
  }

  /** Text without the first character of the pattern is left alone, also in
      front of other text. */
  lemma {:induction false} ReplaceAllSkipsPlainPrefix(a: string, t: string, pat: string, rep: string)
    requires pat != [] && pat[0] !in a
    ensures ReplaceAll(a + t, pat, rep) == a + ReplaceAll(t, pat, rep)
    decreases |a|
  {
    if a != [] {
      assert (a + t)[0] == a[0] && a[0] != pat[0];
      assert !(pat <= a + t);
      assert (a + t)[1..] == a[1..] + t;
      ReplaceAllSkipsPlainPrefix(a[1..], t, pat, rep);
    } else {
      assert a + t == t;
    }
  }

  /** Replacing a two-character pattern `xy` by text without `x` and `y`
      leaves no `x` directly followed by `y`, and so does any such
      replacement in text that had none. */
  lemma {:induction false} ReplaceLeavesNoPair(s: string, pat: string, rep: string, x: char, y: char)
    requires pat != [] && rep != [] && x !in rep && y !in rep
    requires pat == [x, y] || NoPair(s, x, y)
    ensures NoPair(ReplaceAll(s, pat, rep), x, y)
    decreases |s|
  {
    if s == [] {
    } else if pat <= s {
      var rest := s[|pat|..];
      assert pat == [x, y] || NoPair(rest, x, y) by {
        if pat != [x, y] {
          forall k | 0 <= k < |rest| - 1
            ensures !(rest[k] == x && rest[k + 1] == y)
          {
            assert rest[k] == s[k + |pat|] && rest[k + 1] == s[k + 1 + |pat|];
          }
        }
      }
      ReplaceLeavesNoPair(rest, pat, rep, x, y);
      var tail := ReplaceAll(rest, pat, rep);
      var r := rep + tail;
      forall k | 0 <= k < |r| - 1
        ensures !(r[k] == x && r[k + 1] == y)
      {
        if k < |rep| {
          assert r[k] == rep[k];
        } else {
          assert r[k] == tail[k - |rep|] && r[k + 1] == tail[k + 1 - |rep|];
        }
      }
    } else {
      var rest := s[1..];
      assert pat == [x, y] || NoPair(rest, x, y) by {
        if pat != [x, y] {
          forall k | 0 <= k < |rest| - 1
            ensures !(rest[k] == x && rest[k + 1] == y)
          {
            assert rest[k] == s[k + 1] && rest[k + 1] == s[k + 2];
          }
        }
      }
      ReplaceLeavesNoPair(rest, pat, rep, x, y);
      var tail := ReplaceAll(rest, pat, rep);
      var r := [s[0]] + tail;
      forall k | 0 <= k < |r| - 1
        ensures !(r[k] == x && r[k + 1] == y)
      {
        if k == 0 {
          assert |rest| > 0 ==> tail[0] == rest[0] || tail[0] == rep[0];
        } else {
          assert r[k] == tail[k - 1] && r[k + 1] == tail[k];
        }
      }
    }
  }

  /** Neither decoding step leaves a backslash directly followed by `n`. */
  lemma FormattedHasNoEscapedNewline(raw: string)
    ensures NoPair(Formatted(raw), '\\', 'n')
  {
    var clean := DropClosing(StripPrefix(raw, StatusPrefix));
    assert EscapedNewline == ['\\', 'n'];
    ReplaceLeavesNoPair(clean, EscapedNewline, "\n", '\\', 'n');
    var decoded := ReplaceAll(clean, EscapedNewline, "\n");
    assert NoPair(decoded, '\\', 'n');
    ReplaceLeavesNoPair(decoded, EscapedQuote, "\"", '\\', 'n');
  }

  /** The body of a `StatusNotOk("…")` wrapper without backslashes is shown
      as it is, when it is not JSON. */
  lemma WrappedBodyUnwrapped(body: string, pretty: string -> Option<string>)
    requires '\\' !in body && pretty(body).None?
    ensures Normalize(StatusPrefix + body + StatusSuffix, pretty) == body
  {
    var raw := StatusPrefix + body + StatusSuffix;
    assert raw == StatusPrefix + (body + StatusSuffix);
    assert StripPrefix(raw, StatusPrefix) == body + StatusSuffix;
    assert EndsWith(body + StatusSuffix, StatusSuffix) by {
      assert (body + StatusSuffix)[|body|..] == StatusSuffix;
    }
    assert DropClosing(body + StatusSuffix) == body;
    ReplaceAllSkipsPlainPrefix(body, [], EscapedNewline, "\n");
    ReplaceAllSkipsPlainPrefix(body, [], EscapedQuote, "\"");
    assert body + [] == body;
  }

  /** Text with no wrapper, no backslash and no JSON is shown unchanged. */
  lemma PlainTextUnchanged(raw: string, pretty: string -> Option<string>)
    requires '\\' !in raw && !(StatusPrefix <= raw) && !EndsWith(raw, StatusSuffix)
    requires pretty(raw).None?
    ensures Normalize(raw, pretty) == raw
  {
    ReplaceAllSkipsPlainPrefix(raw, [], EscapedNewline, "\n");
    ReplaceAllSkipsPlainPrefix(raw, [], EscapedQuote, "\"");
    assert raw + [] == raw;
  }

  /** An escaped newline between plain texts becomes a line break. */
  lemma EscapedNewlineDecoded(a: string, b: string)
    requires '\\' !in a && '\\' !in b
    ensures ReplaceAll(ReplaceAll(a + EscapedNewline + b, EscapedNewline, "\n"), EscapedQuote, "\"") == a + "\n" + b
  {
    var t := EscapedNewline + b;
    assert a + EscapedNewline + b == a + t;
    ReplaceAllSkipsPlainPrefix(a, t, EscapedNewline, "\n");
    assert EscapedNewline <= t && t[|EscapedNewline|..] == b;
    assert ReplaceAll(t, EscapedNewline, "\n") == "\n" + ReplaceAll(b, EscapedNewline, "\n");
    ReplaceAllSkipsPlainPrefix(b, [], EscapedNewline, "\n");
    assert b + [] == b;
    var decoded := a + "\n" + b;
    assert ReplaceAll(a + EscapedNewline + b, EscapedNewline, "\n") == decoded;
    assert '\\' !in decoded;
    ReplaceAllSkipsPlainPrefix(decoded, [], EscapedQuote, "\"");
    assert decoded + [] == decoded;
  }
}
