/** The handful of Rust `str` operations the dashboard uses to take apart the text printed
    by `docker` and `kubectl` and to assemble command lines: `split` on a character,
    `lines`, `split_whitespace`, `trim`, `trim_end_matches`, `strip_suffix`, and decimal
    formatting of unsigned integers (`{}` and `{:02}`). */
module Text {
  import opened Base

  /** Rust's `char::is_whitespace`: the Unicode White_Space property, listed out. */
  predicate IsWhitespace(c: char) {
    || c == ' '
    || ('\t' <= c <= '\r')
    || c == '\U{85}' || c == '\U{A0}' || c == '\U{1680}'
    || ('\U{2000}' <= c <= '\U{200A}')
    || c == '\U{2028}' || c == '\U{2029}' || c == '\U{202F}' || c == '\U{205F}' || c == '\U{3000}'
  }

  predicate NoWhitespace(s: string) {
    forall i :: 0 <= i < |s| ==> !IsWhitespace(s[i])
  }

  predicate AllWhitespace(s: string) {
    forall i :: 0 <= i < |s| ==> IsWhitespace(s[i])
  }

  // ---------------------------------------------------------------------------
  // split(d) and its inverse

  /** Glues pieces back together with `d` between neighbours (`[..].join(d)`). */
  function Join(parts: seq<string>, d: char): string
  {
    if |parts| == 0 then ""
    else if |parts| == 1 then parts[0]
    else parts[0] + [d] + Join(parts[1..], d)
  }

  /** `s.split(d)`: the maximal runs between occurrences of `d`, in order. Rust yields at
      least one piece even for the empty string, and an empty piece on either side of a
      leading or trailing separator. */
  function Split(s: string, d: char): (r: seq<string>)
    ensures |r| >= 1
    ensures forall i :: 0 <= i < |r| ==> d !in r[i]
    ensures Join(r, d) == s
  {
    if |s| == 0 then [""]
    else
      var rest := Split(s[1..], d);
      if s[0] == d then
        assert Join([""] + rest, d) == [d] + Join(rest, d) by {
          assert ([""] + rest)[1..] == rest;
        }
        [""] + rest
      else
        var r := [[s[0]] + rest[0]] + rest[1..];
        assert Join(r, d) == [s[0]] + Join(rest, d) by {
          if |rest| > 1 {
            assert r[1..] == rest[1..];
          }
        }
        assert s == [s[0]] + s[1..];
        r
  }

  /** Splitting a string that starts with a separator-free prefix `p`: the prefix is glued
      onto the first piece of the rest. */
  lemma {:induction false} SplitPrefix(p: string, t: string, d: char)
    requires d !in p
    ensures Split(p + t, d) == [p + Split(t, d)[0]] + Split(t, d)[1..]
    decreases |p|
  {
    if |p| == 0 {
      var u := Split(t, d);
      assert p + t == t;
      assert p + u[0] == u[0];
      assert u == [u[0]] + u[1..];
    } else {
      var r := Split(p[1..] + t, d);
      var u := Split(t, d);
      assert (p + t)[1..] == p[1..] + t;
      assert (p + t)[0] == p[0] != d;
      SplitPrefix(p[1..], t, d);
      assert Split(p + t, d) == [[p[0]] + r[0]] + r[1..];
      assert r[0] == p[1..] + u[0] && r[1..] == u[1..];
      assert [p[0]] + (p[1..] + u[0]) == p + u[0];
    }
  }

  /** `Split` undoes `Join` whenever no piece contains the separator. */
  lemma {:induction false} SplitJoin(parts: seq<string>, d: char)
    requires |parts| >= 1
    requires forall i :: 0 <= i < |parts| ==> d !in parts[i]
    ensures Split(Join(parts, d), d) == parts
    decreases |parts|
  {
    if |parts| == 1 {
      SplitPrefix(parts[0], "", d);
      assert parts[0] + "" == parts[0];
    } else {
      var rest := Join(parts[1..], d);
      SplitJoin(parts[1..], d);
      assert parts[0] + [d] + rest == parts[0] + ([d] + rest);
      SplitPrefix(parts[0], [d] + rest, d);
      assert ([d] + rest)[1..] == rest;
      assert ([d] + rest)[0] == d;
      var u := Split([d] + rest, d);
      assert u == [""] + parts[1..];
      assert u[0] == "" && u[1..] == parts[1..];
      assert parts[0] + u[0] == parts[0];
      assert parts == [parts[0]] + parts[1..];
    }
  }

  /** A character that is neither the separator nor in any piece is not in the joined text. */
  lemma {:induction false} JoinExcludes(parts: seq<string>, d: char, c: char)
    requires c != d
    requires forall i :: 0 <= i < |parts| ==> c !in parts[i]
    ensures c !in Join(parts, d)
    decreases |parts|
  {
    if |parts| > 1 {
      JoinExcludes(parts[1..], d, c);
    }
  }

  // ---------------------------------------------------------------------------
  // lines()

  /** Removes one trailing carriage return, as `lines` does before each line feed. */
  function StripCarriageReturn(line: string): string
  {
    if |line| > 0 && line[|line| - 1] == '\r' then line[..|line| - 1] else line
  }

  /** `s.lines()`: the text between line feeds, each with a `\r` directly before its line
      feed removed; a final line feed does not start an extra, empty line, and a `\r` at
      the very end without a line feed stays. */
  function Lines(s: string): (r: seq<string>)
    ensures forall i :: 0 <= i < |r| ==> '\n' !in r[i]
  {
    var pieces := Split(s, '\n');
    var body := seq(|pieces| - 1, i requires 0 <= i < |pieces| - 1 => StripCarriageReturn(pieces[i]));
    var last := pieces[|pieces| - 1];
    if last == "" then body else body + [last]
  }

  /** The text a tool prints for a list of lines: each line followed by a line feed. */
  function Unlines(ls: seq<string>): string
  {
    if |ls| == 0 then "" else ls[0] + "\n" + Unlines(ls[1..])
  }

  lemma {:induction false} UnlinesIsJoin(ls: seq<string>)
    ensures Unlines(ls) == Join(ls + [""], '\n')
    decreases |ls|
  {
    if |ls| > 0 {
      UnlinesIsJoin(ls[1..]);
      assert (ls + [""])[1..] == ls[1..] + [""];
    }
  }

  /** Reading back printed lines gives the lines, as long as none contains a line feed or
      ends in a carriage return. */
  lemma LinesUnlines(ls: seq<string>)
    requires forall i :: 0 <= i < |ls| ==> '\n' !in ls[i]
    requires forall i :: 0 <= i < |ls| ==> |ls[i]| == 0 || ls[i][|ls[i]| - 1] != '\r'
    ensures Lines(Unlines(ls)) == ls
  {
    UnlinesIsJoin(ls);
    SplitJoin(ls + [""], '\n');
    var pieces := Split(Unlines(ls), '\n');
    assert pieces == ls + [""];
    forall i | 0 <= i < |ls|
      ensures StripCarriageReturn(pieces[i]) == ls[i]
    {
      assert pieces[i] == ls[i];
    }
  }

  // ---------------------------------------------------------------------------
  // split_whitespace()

  /** The end of the run of non-whitespace characters starting at `i`. */
  function WordEnd(s: string, i: nat): (k: nat)
    requires i <= |s|
    ensures i <= k <= |s|
    ensures forall j :: i <= j < k ==> !IsWhitespace(s[j])
    ensures k < |s| ==> IsWhitespace(s[k])
    decreases |s| - i
  {
    if i == |s| || IsWhitespace(s[i]) then i else WordEnd(s, i + 1)
  }

  /** `s.split_whitespace()`: the maximal non-empty runs of non-whitespace characters. */
  function Words(s: string): (r: seq<string>)
    ensures forall i :: 0 <= i < |r| ==> |r[i]| > 0 && NoWhitespace(r[i])
    decreases |s|
  {
    if |s| == 0 then []
    else if IsWhitespace(s[0]) then Words(s[1..])
    else
      var k := WordEnd(s, 0);
      [s[..k]] + Words(s[k..])
  }

  /** Words laid out in columns: `gaps[0]` before the first word, `gaps[k]` between
      words `k - 1` and `k`, and the last gap after the last word. */
  function Spaced(ws: seq<string>, gaps: seq<string>): string
    requires |gaps| == |ws| + 1
    decreases |ws|
  {
    if |ws| == 0 then gaps[0] else gaps[0] + ws[0] + Spaced(ws[1..], gaps[1..])
  }

  /** Whitespace-only gaps, with at least one character between two neighbouring words;
      the first and last gap may be empty. */
  predicate Gaps(gaps: seq<string>) {
    && (forall k :: 0 <= k < |gaps| ==> AllWhitespace(gaps[k]))
    && (forall k :: 0 < k < |gaps| - 1 ==> |gaps[k]| > 0)
  }

  /** Laying out words that do not contain `c` with gaps that do not contain it
      introduces no `c`. */
  lemma {:induction false} SpacedExcludes(ws: seq<string>, gaps: seq<string>, c: char)
    requires |gaps| == |ws| + 1
    requires forall i :: 0 <= i < |ws| ==> c !in ws[i]
    requires forall k :: 0 <= k < |gaps| ==> c !in gaps[k]
    ensures c !in Spaced(ws, gaps)
    decreases |ws|
  {
    if |ws| > 0 {
      assert forall k :: 0 <= k < |gaps[1..]| ==> gaps[1..][k] == gaps[k + 1];
      SpacedExcludes(ws[1..], gaps[1..], c);
    }
  }

  lemma {:induction false} WordsOfBlankPrefix(b: string, t: string)
    requires AllWhitespace(b)
    ensures Words(b + t) == Words(t)
    decreases |b|
  {
    if |b| > 0 {
      assert (b + t)[1..] == b[1..] + t;
      WordsOfBlankPrefix(b[1..], t);
    } else {
      assert b + t == t;
    }
  }

  /** A word followed by whitespace (or nothing) is read as exactly that word. */
  lemma WordsOfWordPrefix(w: string, t: string)
    requires |w| > 0 && NoWhitespace(w)
    requires |t| == 0 || IsWhitespace(t[0])
    ensures Words(w + t) == [w] + Words(t)
  {
    var s := w + t;
    WordEndOfPrefix(w, t, 0);
    assert s[0] == w[0];
    assert s[..|w|] == w && s[|w|..] == t;
  }

  lemma {:induction false} WordEndOfPrefix(w: string, t: string, i: nat)
    requires i <= |w| && NoWhitespace(w)
    requires |t| == 0 || IsWhitespace(t[0])
    ensures WordEnd(w + t, i) == |w|
    decreases |w| - i
  {
    if i < |w| {
      assert (w + t)[i] == w[i];
      WordEndOfPrefix(w, t, i + 1);
    } else if |t| > 0 {
      assert (w + t)[i] == t[0];
    }
  }

  /** A layout whose first gap is non-empty (or that has no words) starts with whitespace. */
  lemma SpacedStartsBlank(ws: seq<string>, gaps: seq<string>)
    requires |gaps| == |ws| + 1 && AllWhitespace(gaps[0])
    requires |ws| > 0 ==> |gaps[0]| > 0
    ensures var t := Spaced(ws, gaps); |t| == 0 || IsWhitespace(t[0])
  {
    if |ws| > 0 {
      assert Spaced(ws, gaps) == gaps[0] + (ws[0] + Spaced(ws[1..], gaps[1..]));
    }
  }

  /** `split_whitespace` reads back non-empty, whitespace-free words however much
      whitespace surrounds and separates them. */
  lemma {:induction false} WordsSpaced(ws: seq<string>, gaps: seq<string>)
    requires forall i :: 0 <= i < |ws| ==> |ws[i]| > 0 && NoWhitespace(ws[i])
    requires |gaps| == |ws| + 1 && Gaps(gaps)
    ensures Words(Spaced(ws, gaps)) == ws
    decreases |ws|
  {
    if |ws| == 0 {
      WordsOfBlankPrefix(gaps[0], "");
      assert gaps[0] + "" == gaps[0];
    } else {
      var rest := Spaced(ws[1..], gaps[1..]);
      assert Gaps(gaps[1..]) by {
        assert forall k :: 0 <= k < |gaps[1..]| ==> gaps[1..][k] == gaps[k + 1];
      }
      WordsSpaced(ws[1..], gaps[1..]);
      SpacedStartsBlank(ws[1..], gaps[1..]);
      assert gaps[0] + ws[0] + rest == gaps[0] + (ws[0] + rest);
      WordsOfBlankPrefix(gaps[0], ws[0] + rest);
      WordsOfWordPrefix(ws[0], rest);
      assert ws == [ws[0]] + ws[1..];
    }
  }

  // ---------------------------------------------------------------------------
  // trim(), trim_end_matches(c), strip_suffix(suffix)

  /** `s.trim_start()`: the suffix left after dropping leading whitespace. */
  function TrimStart(s: string): (r: string)
    ensures |r| <= |s| && r == s[|s| - |r|..]
    ensures AllWhitespace(s[..|s| - |r|])
    ensures |r| > 0 ==> !IsWhitespace(r[0])
  {
    if |s| > 0 && IsWhitespace(s[0]) then TrimStart(s[1..]) else s
  }

  /** `s.trim_end()`: the prefix left after dropping trailing whitespace. */
  function TrimEnd(s: string): (r: string)
    ensures |r| <= |s| && r == s[..|r|]
    ensures AllWhitespace(s[|r|..])
    ensures |r| > 0 ==> !IsWhitespace(r[|r| - 1])
  {
    if |s| > 0 && IsWhitespace(s[|s| - 1]) then TrimEnd(s[..|s| - 1]) else s
  }

  /** `s.trim()`: the middle of `s` left after dropping an all-whitespace prefix and an
      all-whitespace suffix, neither end of it being whitespace. */
  function Trim(s: string): (r: string)
    ensures var a := |s| - |TrimStart(s)|;
      && a + |r| <= |s| && r == s[a..a + |r|]
      && AllWhitespace(s[..a]) && AllWhitespace(s[a + |r|..])
    ensures |r| > 0 ==> !IsWhitespace(r[0]) && !IsWhitespace(r[|r| - 1])
  {
    TrimEnd(TrimStart(s))
  }

  /** Surrounding whitespace never affects the trimmed text, and trimming is idempotent. */
  lemma TrimPadded(b: string, core: string, e: string)
    requires AllWhitespace(b) && AllWhitespace(e)
    requires |core| == 0 || (!IsWhitespace(core[0]) && !IsWhitespace(core[|core| - 1]))
    ensures Trim(b + core + e) == core
  {
    if |core| == 0 {
      assert b + core + e == (b + e) + "";
      TrimStartPadded(b + e, "");
    } else {
      assert b + core + e == b + (core + e);
      TrimStartPadded(b, core + e);
      TrimEndPadded(core, e);
    }
  }

  lemma {:induction false} TrimStartPadded(b: string, t: string)
    requires AllWhitespace(b)
    requires |t| == 0 || !IsWhitespace(t[0])
    ensures TrimStart(b + t) == t
    decreases |b|
  {
    if |b| == 0 {
      assert b + t == t;
    } else {
      assert (b + t)[1..] == b[1..] + t;
      TrimStartPadded(b[1..], t);
    }
  }

  lemma {:induction false} TrimEndPadded(t: string, e: string)
    requires AllWhitespace(e)
    requires |t| > 0 && !IsWhitespace(t[|t| - 1])
    ensures TrimEnd(t + e) == t
    decreases |e|
  {
    if |e| == 0 {
      assert t + e == t;
    } else {
      assert (t + e)[..|t + e| - 1] == t + e[..|e| - 1];
      TrimEndPadded(t, e[..|e| - 1]);
    }
  }

  /** `s.trim_end_matches(c)`: drops every trailing copy of `c`. */
  function TrimEndChar(s: string, c: char): (r: string)
    ensures |r| <= |s| && r == s[..|r|]
    ensures forall i :: |r| <= i < |s| ==> s[i] == c
    ensures |r| > 0 ==> r[|r| - 1] != c
  {
    if |s| > 0 && s[|s| - 1] == c then TrimEndChar(s[..|s| - 1], c) else s
  }

  /** `s.strip_suffix(suffix)`: what precedes `suffix` when `s` ends with it. */
  function StripSuffix(s: string, suffix: string): (r: Option<string>)
    ensures r.Some? ==> r.value + suffix == s
  {
    if |suffix| <= |s| && s[|s| - |suffix|..] == suffix then Some(s[..|s| - |suffix|]) else None
  }

  lemma StripSuffixOfAppend(p: string, suffix: string)
    ensures StripSuffix(p + suffix, suffix) == Some(p)
  {
    assert (p + suffix)[|p|..] == suffix;
    assert (p + suffix)[..|p|] == p;
  }

  lemma StripSuffixNone(s: string, suffix: string)
    requires StripSuffix(s, suffix).None?
    ensures forall p :: p + suffix != s
  {
    forall p | p + suffix == s
      ensures false
    {
      StripSuffixOfAppend(p, suffix);
    }
  }

  // ---------------------------------------------------------------------------
  // Decimal formatting: `{}` and `{:02}` of an unsigned integer

  predicate IsDigit(c: char) {
    '0' <= c <= '9'
  }

  predicate AllDigits(s: string) {
    forall i :: 0 <= i < |s| ==> IsDigit(s[i])
  }

  function DigitChar(d: nat): (c: char)
    requires d < 10
    ensures IsDigit(c)
  {
    (48 + d) as char
  }

  /** The number a string of decimal digits denotes. */
  function DigitsValue(s: string): nat
    requires AllDigits(s)
  {
    if |s| == 0 then 0 else DigitsValue(s[..|s| - 1]) * 10 + (s[|s| - 1] as int - 48)
  }

  /** `format!("{}", n)`: the shortest decimal numeral of `n` (no leading zeros). */
  function NatToString(n: nat): (r: string)
    ensures |r| >= 1 && AllDigits(r)
    ensures |r| > 1 ==> r[0] != '0'
    ensures n < 10 <==> |r| == 1
    ensures n < 100 ==> |r| <= 2
  {
    if n < 10 then [DigitChar(n)] else NatToString(n / 10) + [DigitChar(n % 10)]
  }

  /** Reading the numeral back gives the number. */
  lemma {:induction false} NatToStringValue(n: nat)
    ensures DigitsValue(NatToString(n)) == n
  {
    if n >= 10 {
      NatToStringValue(n / 10);
      var s := NatToString(n);
      assert s[..|s| - 1] == NatToString(n / 10);
    }
  }

  /** `format!("{:02}", n)`: the numeral of `n`, left-padded with zeros to two characters. */
  function Pad2(n: nat): (r: string)
    ensures |r| >= 2 && AllDigits(r)
    ensures n < 100 ==> |r| == 2
    ensures DigitsValue(r) == n
  {
    NatToStringValue(n);
    if n < 10 then
      var r := "0" + NatToString(n);
      assert r[..1] == "0";
      r
    else NatToString(n)
  }
}
