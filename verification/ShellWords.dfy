/**
  `sconv`: splitting a command line into words as /bin/sh does, and quoting words back into one.
  A Go string is a sequence of bytes; a byte is written as the character with that code.
*/
module ShellWords {
  import opened Basics

  datatype Error = UnterminatedSingleQuote | UnterminatedDoubleQuote | UnterminatedEscape

  const splitChars := " \n\t"
  const doubleEscapeChars := "$`\"\n\\"
  const specialChars := "\\'\"`${[|&;<>()*?!"
  const extraSpecialChars := " \t\n"
  const prefixChars := "~"

  // ---- runes ----

  predicate Ascii(c: char) { c as int < 0x80 }

  predicate InRange(c: char, lo: int, hi: int) { lo <= c as int <= hi }

  /** The allowed second bytes of a multi-byte UTF-8 sequence, by its first byte. */
  predicate SecondOk(a: char, b: char) {
    if a as int == 0xE0 then InRange(b, 0xA0, 0xBF)
    else if a as int == 0xED then InRange(b, 0x80, 0x9F)
    else if a as int == 0xF0 then InRange(b, 0x90, 0xBF)
    else if a as int == 0xF4 then InRange(b, 0x80, 0x8F)
    else InRange(b, 0x80, 0xBF)
  }

  /** How many bytes `utf8.DecodeRuneInString` consumes: 0 at the end, 1 for an invalid byte. */
  function RuneLen(s: string): (l: nat)
    ensures l <= |s| && (l == 0 <==> s == "")
    ensures s != "" && Ascii(s[0]) ==> l == 1
    ensures forall i :: 0 <= i < l && !Ascii(s[0]) ==> !Ascii(s[i])
  {
    if s == "" then 0
    else if InRange(s[0], 0xC2, 0xDF) && |s| >= 2 && SecondOk(s[0], s[1]) then 2
    else if InRange(s[0], 0xE0, 0xEF) && |s| >= 3 && SecondOk(s[0], s[1]) && InRange(s[2], 0x80, 0xBF) then 3
    else if InRange(s[0], 0xF0, 0xF4) && |s| >= 4 && SecondOk(s[0], s[1]) && InRange(s[2], 0x80, 0xBF)
      && InRange(s[3], 0x80, 0xBF) then 4
    else 1
  }

  /**
    The decoded rune. The code compares runes with ASCII characters only, so every other rune
    (and the error rune of the empty string) is represented by one replacement character.
  */
  function Rune(s: string): (c: char)
    ensures s != "" && Ascii(s[0]) ==> c == s[0]
    ensures s == "" || !Ascii(s[0]) ==> !Ascii(c)
  {
    if s != "" && Ascii(s[0]) then s[0] else '\U{FFFD}'
  }

  // ---- the reference automaton, one byte at a time ----

  datatype Mode = Between | BetweenEscape | Raw | Escape | Single | Double | DoubleEscape

  datatype Shell = Shell(words: seq<string>, word: string, mode: Mode)

  /** The characters a backslash escapes inside double quotes. */
  predicate DoubleEscapable(c: char) { c in doubleEscapeChars }

  function Step(s: Shell, c: char): Shell {
    match s.mode
    case Between =>
      if c in splitChars then s
      else if c == '\\' then s.(mode := BetweenEscape)
      else if c == '\'' then s.(mode := Single)
      else if c == '"' then s.(mode := Double)
      else s.(mode := Raw, word := [c])
    case BetweenEscape =>
      if c == '\n' then s.(mode := Between) else s.(mode := Raw, word := [c])
    case Raw =>
      if c in splitChars then Shell(s.words + [s.word], "", Between)
      else if c == '\\' then s.(mode := Escape)
      else if c == '\'' then s.(mode := Single)
      else if c == '"' then s.(mode := Double)
      else s.(word := s.word + [c])
    case Escape =>
      if c == '\n' then s.(mode := Raw) else s.(mode := Raw, word := s.word + [c])
    case Single =>
      if c == '\'' then s.(mode := Raw) else s.(word := s.word + [c])
    case Double =>
      if c == '"' then s.(mode := Raw)
      else if c == '\\' then s.(mode := DoubleEscape)
      else s.(word := s.word + [c])
    case DoubleEscape =>
      if c == '\n' then s.(mode := Double)
      else if DoubleEscapable(c) then s.(mode := Double, word := s.word + [c])
      else s.(mode := Double, word := s.word + ['\\', c])
  }

  function Run(s: Shell, input: string): Shell
    decreases |input|
  {
    if input == "" then s else Run(Step(s, input[0]), input[1..])
  }

  datatype Split = Split(words: seq<string>, err: Option<Error>)

  /** The words completed so far, with the error for the construct left open at the end, if any. */
  function Finish(s: Shell): Split {
    match s.mode
    case Between => Split(s.words, None)
    case Raw => Split(s.words + [s.word], None)
    case BetweenEscape | Escape => Split(s.words, Some(UnterminatedEscape))
    case Single => Split(s.words, Some(UnterminatedSingleQuote))
    case Double | DoubleEscape => Split(s.words, Some(UnterminatedDoubleQuote))
  }

  const START := Shell([], "", Between)

  // ---- properties of the automaton ----

  lemma {:induction false} RunConcat(s: Shell, a: string, b: string)
    ensures Run(s, a + b) == Run(Run(s, a), b)
    decreases |a|
  {
    if a == "" {
      assert a + b == b;
    } else {
      assert (a + b)[0] == a[0] && (a + b)[1..] == a[1..] + b;
      RunConcat(Step(s, a[0]), a[1..], b);
    }
  }

  /** A character that stands for itself in the given mode. */
  predicate Plain(mode: Mode, c: char) {
    match mode
    case Raw => c !in splitChars && c != '\\' && c != '\'' && c != '"'
    case Single => c != '\''
    case Double => c != '"' && c != '\\'
    case _ => false
  }

  lemma {:induction false} RunPlain(s: Shell, a: string)
    requires forall i :: 0 <= i < |a| ==> Plain(s.mode, a[i])
    ensures Run(s, a) == s.(word := s.word + a)
    decreases |a|
  {
    if a == "" {
      assert s.word + a == s.word;
    } else {
      assert Step(s, a[0]) == s.(word := s.word + [a[0]]);
      assert s.word + a == (s.word + [a[0]]) + a[1..];
      RunPlain(Step(s, a[0]), a[1..]);
    }
  }

  lemma RunFirst(s: Shell, input: string)
    requires input != ""
    ensures Run(s, input) == Run(Step(s, input[0]), input[1..])
  {
  }

  lemma RunOne(s: Shell, c: char)
    ensures Run(s, [c]) == Step(s, c)
  {
    assert Run(Step(s, c), [c][1..]) == Step(s, c);
  }

  /** The rest of a multi-byte rune is never special, so its bytes are copied like any others. */
  lemma RunTail(s: Shell, input: string)
    requires input != "" && s.mode in {Raw, Double}
    ensures var l := RuneLen(input);
            l >= 1 && Run(s, input[1..]) == Run(s.(word := s.word + input[1..l]), input[l..])
  {
    var l := RuneLen(input);
    assert forall i :: 1 <= i < l ==> Plain(s.mode, input[i]);
    assert input[1..] == input[1..l] + input[l..];
    RunConcat(s, input[1..l], input[l..]);
    RunPlain(s, input[1..l]);
  }

  lemma FirstPlain(mode: Mode, input: string)
    requires input != "" && mode in {Raw, Double} && Plain(mode, Rune(input))
    ensures Plain(mode, input[0])
  {
  }

  /** A rune that is not special in the current mode is copied whole. */
  lemma RunRune(s: Shell, input: string)
    requires input != "" && s.mode in {Raw, Double} && Plain(s.mode, Rune(input))
    ensures var l := RuneLen(input);
            l >= 1 && Run(s, input) == Run(s.(word := s.word + input[..l]), input[l..])
  {
    hide RuneLen, Rune;
    var l := RuneLen(input);
    FirstPlain(s.mode, input);
    var s1 := Step(s, input[0]);
    assert s1 == s.(word := s.word + [input[0]]);
    hide Step, Plain;
    RunTail(s1, input);
    assert (s.word + [input[0]]) + input[1..l] == s.word + input[..l];
  }

  // ---- the scanner ----

  /** How the slices the scanners take move when a cursor at `d` advances by `l`. */
  lemma Slices(w: string, k: nat, d: nat, l: nat)
    requires k <= d && d + l <= |w|
    ensures w[d..][l..] == w[d + l..]
    ensures w[k..][0..d - k] == w[k..d]
    ensures w[..d + l] == w[..d] + w[d..][..l]
    ensures w[k..d + l] == w[k..d] + w[d..][..l]
  {
  }

  /** `strings.IndexRune` for an ASCII character. */
  function IndexRune(s: string, c: char): (i: int)
    ensures -1 <= i < |s|
    ensures i == -1 ==> c !in s
    ensures i >= 0 ==> s[i] == c && c !in s[..i]
    decreases |s|
  {
    if s == "" then -1
    else if s[0] == c then 0
    else
      var j := IndexRune(s[1..], c);
      if j == -1 then -1 else
        assert s[..j + 1] == [s[0]] + s[1..][..j];
        j + 1
  }

  /** Where one labelled block of the word scanner leaves off. */
  datatype Exit = ToRaw | ToEscape | ToSingle | ToDouble | WordEnd | Done

  ghost function Resume(ws: seq<string>, buf: string, e: Exit): Shell {
    match e
    case ToRaw | Done => Shell(ws, buf, Raw)
    case ToEscape => Shell(ws, buf, Escape)
    case ToSingle => Shell(ws, buf, Single)
    case ToDouble => Shell(ws, buf, Double)
    case WordEnd => Shell(ws + [buf], "", Between)
  }

  /** The `raw` block: copies plain slices up to the next special character. */
  method ScanRaw(input: string, buf: string, ghost ws: seq<string>) returns (buf': string, rest: string, exit: Exit)
    ensures Run(Shell(ws, buf, Raw), input) == Run(Resume(ws, buf', exit), rest)
    ensures exit in {ToSingle, ToDouble, ToEscape, WordEnd, Done}
    ensures exit == Done ==> rest == ""
    ensures |rest| <= |input| && (exit != Done ==> |rest| < |input|)
  {
    hide Run, RuneLen, Rune;
    var cur := input;
    ghost var k := 0;
    assert buf + input[..0] == buf;
    while |cur| > 0
      invariant 0 <= k <= |input| && cur == input[k..]
      invariant Run(Shell(ws, buf, Raw), input) == Run(Shell(ws, buf + input[..k], Raw), cur)
      decreases |cur|
    {
      var c, l := Rune(cur), RuneLen(cur);
      ghost var here := cur;
      cur := cur[l..];
      Slices(input, 0, k, l);
      RunFirst(Shell(ws, buf + input[..k], Raw), here);
      if c == '\'' {
        return buf + input[0..|input| - |cur| - l], cur, ToSingle;
      } else if c == '"' {
        return buf + input[0..|input| - |cur| - l], cur, ToDouble;
      } else if c == '\\' {
        return buf + input[0..|input| - |cur| - l], cur, ToEscape;
      } else if c in splitChars {
        return buf + input[0..|input| - |cur| - l], cur, WordEnd;
      }
      RunRune(Shell(ws, buf + input[..k], Raw), here);
      assert buf + input[..k + l] == buf + input[..k] + here[..l];
      k := k + l;
    }
    assert input[..k] == input;
    return buf + input, "", Done;
  }

  /** The `escape` block: an escaped newline disappears, any other rune is copied. */
  method ScanEscape(input: string, buf: string, ghost ws: seq<string>) returns (buf': string, rest: string, err: Option<Error>)
    ensures err.None? ==> Run(Shell(ws, buf, Escape), input) == Run(Shell(ws, buf', Raw), rest) && |rest| < |input|
    ensures err.Some? ==> err == Some(UnterminatedEscape) && input == ""
  {
    if |input| == 0 {
      return buf, input, Some(UnterminatedEscape);
    }
    var c, l := Rune(input), RuneLen(input);
    RunTail(Step(Shell(ws, buf, Escape), input[0]), input);
    assert buf + input[..l] == (buf + [input[0]]) + input[1..l];
    assert c == '\n' ==> buf + input[1..l] == buf;
    return if c == '\n' then buf else buf + input[..l], input[l..], None;
  }

  /** The `single` block: everything up to the closing quote is copied. */
  method ScanSingle(input: string, buf: string, ghost ws: seq<string>) returns (buf': string, rest: string, err: Option<Error>)
    ensures err.None? ==> Run(Shell(ws, buf, Single), input) == Run(Shell(ws, buf', Raw), rest) && |rest| < |input|
    ensures err.Some? ==> err == Some(UnterminatedSingleQuote) && Finish(Run(Shell(ws, buf, Single), input)) == Split(ws, err)
  {
    var i := IndexRune(input, '\'');
    if i == -1 {
      RunPlain(Shell(ws, buf, Single), input);
      return buf, input, Some(UnterminatedSingleQuote);
    }
    assert input == input[..i] + input[i..];
    RunConcat(Shell(ws, buf, Single), input[..i], input[i..]);
    RunPlain(Shell(ws, buf, Single), input[..i]);
    return buf + input[0..i], input[i + 1..], None;
  }

  /** An escape inside double quotes: a recognised one yields its character, any other keeps the backslash. */
  lemma RunDoubleEscape(s: Shell, input: string)
    requires input != "" && s.mode == DoubleEscape
    ensures var c, l := Rune(input), RuneLen(input);
            Run(s, input) == Run(Shell(s.words, s.word + (if c == '\n' then ""
                                                          else if DoubleEscapable(c) then [c]
                                                          else "\\" + input[..l]), Double), input[l..])
  {
    var c, l := Rune(input), RuneLen(input);
    var s1 := Step(s, input[0]);
    RunTail(s1, input);
    if DoubleEscapable(c) {
      assert input[1..l] == "" && s.word + "" == s.word && s1.word + "" == s1.word;
    } else {
      assert s1.word + input[1..l] == s.word + ("\\" + input[..l]);
    }
  }

  /** One turn of the `double` loop at a backslash followed by `rest`. */
  lemma DoubleBackslash(s: Shell, rest: string)
    requires s.mode == Double
    ensures DoubleEscapable('\n')
    ensures var c, l := Rune(rest), RuneLen(rest);
            Finish(Run(s, ['\\'] + rest)) ==
            Finish(Run(s.(word := s.word + (if c == '\n' then ""
                                            else if DoubleEscapable(c) then [c]
                                            else "\\" + rest[..l])), rest[l..]))
  {
    var s1 := s.(mode := DoubleEscape);
    assert (['\\'] + rest)[1..] == rest;
    if rest != "" {
      RunDoubleEscape(s1, rest);
    }
  }

  lemma DoubleKnown(s: Shell, rest: string)
    requires s.mode == Double && DoubleEscapable(Rune(rest)) && Rune(rest) != '\n'
    ensures RuneLen(rest) == 1
    ensures Finish(Run(s, ['\\'] + rest)) == Finish(Run(s.(word := s.word + [Rune(rest)]), rest[1..]))
  {
    DoubleBackslash(s, rest);
  }

  lemma DoubleNewline(s: Shell, rest: string)
    requires s.mode == Double && Rune(rest) == '\n'
    ensures RuneLen(rest) == 1 && DoubleEscapable('\n')
    ensures Finish(Run(s, ['\\'] + rest)) == Finish(Run(s, rest[1..]))
  {
    DoubleBackslash(s, rest);
    assert s.word + "" == s.word;
  }

  lemma DoubleOther(s: Shell, rest: string)
    requires s.mode == Double && !DoubleEscapable(Rune(rest))
    ensures Finish(Run(s, ['\\'] + rest))
         == Finish(Run(s.(word := s.word + ("\\" + rest[..RuneLen(rest)])), rest[RuneLen(rest)..]))
  {
    DoubleBackslash(s, rest);
  }

  lemma DoubleClose(s: Shell, input: string)
    requires input != "" && s.mode == Double && Rune(input) == '"'
    ensures RuneLen(input) == 1 && Run(s, input) == Run(s.(mode := Raw), input[1..])
  {
  }

  lemma RunEmpty(s: Shell)
    ensures Run(s, "") == s
  {
  }

  /** Where the `double` block stands: `start` up to `k` is still to be copied, the rest still to be read. */
  ghost predicate Doubling(ws: seq<string>, buf: string, input: string, buf': string, start: string, k: nat) {
    && k <= |start| <= |input|
    && Finish(Run(Shell(ws, buf, Double), input)) == Finish(Run(Shell(ws, buf' + start[..k], Double), start[k..]))
  }

  lemma DoublingStart(ws: seq<string>, buf: string, input: string)
    ensures Doubling(ws, buf, input, buf, input, 0)
  {
    assert buf + input[..0] == buf && input[0..] == input;
  }

  lemma DoublingClose(ws: seq<string>, buf: string, input: string, buf': string, start: string, k: nat)
    requires Doubling(ws, buf, input, buf', start, k) && k < |start| && Rune(start[k..]) == '"'
    ensures RuneLen(start[k..]) == 1
    ensures Finish(Run(Shell(ws, buf, Double), input)) == Finish(Run(Shell(ws, buf' + start[..k], Raw), start[k + 1..]))
  {
    DoubleClose(Shell(ws, buf' + start[..k], Double), start[k..]);
    hide Run, RuneLen, Rune, Finish;
    assert start[k..][1..] == start[k + 1..];
  }

  lemma DoublingPlain(ws: seq<string>, buf: string, input: string, buf': string, start: string, k: nat, l: nat)
    requires Doubling(ws, buf, input, buf', start, k) && k < |start| && l == RuneLen(start[k..])
    requires Rune(start[k..]) !in {'"', '\\'}
    ensures k + l <= |start| && Doubling(ws, buf, input, buf', start, k + l)
  {
    var s, here := Shell(ws, buf' + start[..k], Double), start[k..];
    FirstPlain(Double, here);
    RunRune(s, here);
    hide Run, RuneLen, Rune, Finish;
    assert buf' + start[..k + l] == s.word + here[..l] && here[l..] == start[k + l..];
  }

  lemma BackslashIsByte(rest: string)
    requires rest != "" && Rune(rest) == '\\'
    ensures RuneLen(rest) == 1 && rest == ['\\'] + rest[1..]
  {
  }

  lemma DoublingOther(ws: seq<string>, buf: string, input: string, buf': string, start: string, k: nat, l2: nat)
    requires Doubling(ws, buf, input, buf', start, k) && k < |start| && Rune(start[k..]) == '\\'
    requires !DoubleEscapable(Rune(start[k + 1..])) && l2 == RuneLen(start[k + 1..])
    ensures k + 1 + l2 <= |start| && Doubling(ws, buf, input, buf', start, k + 1 + l2)
  {
    var s, here, after := Shell(ws, buf' + start[..k], Double), start[k..], start[k + 1..];
    BackslashIsByte(here);
    assert here[1..] == after;
    DoubleOther(s, after);
    hide Run, RuneLen, Rune, Finish, DoubleEscapable;
    assert buf' + start[..k + 1 + l2] == s.word + ("\\" + after[..l2]) && after[l2..] == start[k + 1 + l2..];
  }

  lemma DoublingKnown(ws: seq<string>, buf: string, input: string, buf': string, start: string, k: nat)
    requires Doubling(ws, buf, input, buf', start, k) && k < |start| && Rune(start[k..]) == '\\'
    requires DoubleEscapable(Rune(start[k + 1..]))
    ensures RuneLen(start[k + 1..]) == 1 && k + 2 <= |start|
    ensures var c := Rune(start[k + 1..]);
      Doubling(ws, buf, input, buf' + start[..k] + if c == '\n' then "" else [c], start[k + 2..], 0)
  {
    var s, here, after := Shell(ws, buf' + start[..k], Double), start[k..], start[k + 1..];
    var c := Rune(after);
    BackslashIsByte(here);
    assert here[1..] == after;
    if c == '\n' {
      DoubleNewline(s, after);
    } else {
      DoubleKnown(s, after);
    }
    hide Run, Rune, Finish, DoubleEscapable;
    var next, word := start[k + 2..], buf' + start[..k] + if c == '\n' then "" else [c];
    assert after[1..] == next == next[0..] && word + next[..0] == word;
    assert c == '\n' ==> word == buf' + start[..k];
  }

  lemma DoublingEnd(ws: seq<string>, buf: string, input: string, buf': string, start: string)
    requires Doubling(ws, buf, input, buf', start, |start|)
    ensures Finish(Run(Shell(ws, buf, Double), input)) == Split(ws, Some(UnterminatedDoubleQuote))
  {
    assert start[|start|..] == "";
    RunEmpty(Shell(ws, buf' + start[..|start|], Double));
  }

  /** The `double` block: copies slices between recognised escapes up to the closing quote. */
  method ScanDouble(input: string, buf: string, ghost ws: seq<string>) returns (buf': string, rest: string, err: Option<Error>)
    ensures err.None? ==> Finish(Run(Shell(ws, buf, Double), input)) == Finish(Run(Shell(ws, buf', Raw), rest)) && |rest| < |input|
    ensures err.Some? ==> err == Some(UnterminatedDoubleQuote) && Finish(Run(Shell(ws, buf, Double), input)) == Split(ws, err)
  {
    hide Step, Run, RuneLen, Rune, DoubleEscapable, Finish, Doubling;
    var cur, start := input, input;
    buf' := buf;
    ghost var k := 0;
    DoublingStart(ws, buf, input);
    while |cur| > 0
      invariant 0 <= k <= |start| <= |input| && cur == start[k..] && Doubling(ws, buf, input, buf', start, k)
      decreases |cur|
    {
      var c, l := Rune(cur), RuneLen(cur);
      cur := cur[l..];
      assert cur == start[k + l..];
      if c == '"' {
        DoublingClose(ws, buf, input, buf', start, k);
        return buf' + start[0..|start| - |cur| - l], cur, None;
      } else if c == '\\' {
        BackslashIsByte(start[k..]);
        var c2, l2 := Rune(cur), RuneLen(cur);
        cur := cur[l2..];
        assert cur == start[k + l + l2..];
        if DoubleEscapable(c2) {
          DoublingKnown(ws, buf, input, buf', start, k);
          buf' := buf' + start[0..|start| - |cur| - l - l2];
          if c2 != '\n' {
            buf' := buf' + [c2];
          } else {
            assert buf' + "" == buf';
          }
          start, k := cur, 0;
        } else {
          DoublingOther(ws, buf, input, buf', start, k, l2);
          k := k + l + l2;
        }
      } else {
        DoublingPlain(ws, buf, input, buf', start, k, l);
        k := k + l;
      }
    }
    DoublingEnd(ws, buf, input, buf', start);
    return buf', cur, Some(UnterminatedDoubleQuote);
  }

  /** `splitWord`: the goto-connected blocks, from the start of a word to its end or to an error. */
  method SplitWord(input: string, ghost ws: seq<string>) returns (word: string, remainder: string, err: Option<Error>)
    ensures err.None? ==>
              Finish(Run(Shell(ws, "", Raw), input)) == Finish(Run(Shell(ws + [word], "", Between), remainder))
    ensures err.None? && input != "" ==> |remainder| < |input|
    ensures err.Some? ==> Finish(Run(Shell(ws, "", Raw), input)) == Split(ws, err)
    ensures |remainder| <= |input|
  {
    var buf, rest, next := "", input, ToRaw;
    while next != WordEnd && next != Done
      invariant Finish(Run(Shell(ws, "", Raw), input)) == Finish(Run(Resume(ws, buf, next), rest))
      invariant |rest| <= |input| && (next == Done ==> rest == "")
      invariant next != ToRaw && next != Done ==> |rest| < |input|
      decreases |rest|, next == ToRaw, next != Done
    {
      err := None;
      match next {
        case ToRaw => buf, rest, next := ScanRaw(rest, buf, ws);
        case ToEscape =>
          buf, rest, err := ScanEscape(rest, buf, ws);
          next := ToRaw;
        case ToSingle =>
          buf, rest, err := ScanSingle(rest, buf, ws);
          next := ToRaw;
        case ToDouble =>
          buf, rest, err := ScanDouble(rest, buf, ws);
          next := ToRaw;
      }
      if err.Some? {
        return "", "", err;
      }
    }
    return buf, rest, None;
  }

  /** `StringToArgs` equals the automaton on every input: same words, same error, and it always ends. */
  method StringToArgs(input: string) returns (words: seq<string>, err: Option<Error>)
    ensures Split(words, err) == Finish(Run(START, input))
  {
    words, err := [], None;
    var rest := input;
    while |rest| > 0
      invariant Finish(Run(START, input)) == Finish(Run(Shell(words, "", Between), rest))
      invariant err.None?
      decreases |rest|
    {
      ghost var s := Shell(words, "", Between);
      var c, l := Rune(rest), RuneLen(rest);
      if c in splitChars {
        rest := rest[l..];
        continue;
      } else if c == '\\' {
        var next := rest[l..];
        if |next| == 0 {
          return words, Some(UnterminatedEscape);
        }
        var c2, l2 := Rune(next), RuneLen(next);
        if c2 == '\n' {
          rest := next[l2..];
          continue;
        }
      }
      StartWord(words, rest);
      var word;
      word, rest, err := SplitWord(rest, words);
      if err.Some? {
        return words, err;
      }
      words := words + [word];
    }
  }

  /** Unless it begins with a separator or an escaped newline, input between words starts a word. */
  lemma StartWord(ws: seq<string>, input: string)
    requires input != "" && input[0] !in splitChars
    requires input[0] == '\\' ==> |input| > 1 && input[1] != '\n'
    ensures Run(Shell(ws, "", Between), input) == Run(Shell(ws, "", Raw), input)
  {
    if input[0] == '\\' {
      assert input[1..][0] == input[1];
      assert Step(Shell(ws, "", BetweenEscape), input[1]) == Step(Shell(ws, "", Escape), input[1]);
    } else {
      assert Step(Shell(ws, "", Between), input[0]) == Step(Shell(ws, "", Raw), input[0]);
    }
  }

  // ---- quoting ----

  const expandChars := "`${[|&;<>()*?!"

  /** One of the quoter's special characters where a shell would act on it, or a tilde at the start of a word. */
  predicate Live(mode: Mode, c: char) {
    (mode in {Between, Raw} && c in expandChars) || (mode == Between && c in prefixChars)
  }

  /** No character of `input`, read from `s`, is live: the shell takes the text literally. */
  predicate Inert(s: Shell, input: string)
    decreases |input|
  {
    input == "" || (!Live(s.mode, input[0]) && Inert(Step(s, input[0]), input[1..]))
  }

  /** Left bare, each of these characters is live, and so is a tilde in front of a word. */
  lemma BareIsLive(c: char)
    ensures (c == '`' || c == '$' || c == '{' || c == '[' || c == '|' || c == '&' || c == ';' || c == '<' || c == '>'
             || c == '(' || c == ')' || c == '*' || c == '?' || c == '!') ==> !Inert(START, [c]) && !Inert(START, ['x', c])
    ensures !Inert(START, "~")
  {
    assert ['x', c][1..] == [c];
    assert "~"[0] == prefixChars[0];
  }

  lemma {:induction false} InertConcat(s: Shell, a: string, b: string)
    ensures Inert(s, a + b) <==> Inert(s, a) && Inert(Run(s, a), b)
    decreases |a|
  {
    if a == "" {
      assert a + b == b;
    } else {
      assert (a + b)[0] == a[0] && (a + b)[1..] == a[1..] + b;
      InertConcat(Step(s, a[0]), a[1..], b);
    }
  }

  lemma {:induction false} InertPlain(s: Shell, a: string)
    requires forall i :: 0 <= i < |a| ==> Plain(s.mode, a[i]) && !Live(s.mode, a[i])
    ensures Inert(s, a)
    decreases |a|
  {
    if a != "" {
      InertPlain(Step(s, a[0]), a[1..]);
    }
  }

  lemma InertOne(s: Shell, c: char)
    requires !Live(s.mode, c)
    ensures Inert(s, [c])
  {
    assert [c][1..] == "";
  }

  /** No word of `input`, read from `s`, starts with a bare `#`, at which a shell would start a comment. */
  predicate NoComment(s: Shell, input: string)
    decreases |input|
  {
    input == "" || (!(s.mode == Between && input[0] == '#') && NoComment(Step(s, input[0]), input[1..]))
  }

  lemma {:induction false} NoCommentConcat(s: Shell, a: string, b: string)
    ensures NoComment(s, a + b) <==> NoComment(s, a) && NoComment(Run(s, a), b)
    decreases |a|
  {
    if a == "" {
      assert a + b == b;
    } else {
      assert (a + b)[0] == a[0] && (a + b)[1..] == a[1..] + b;
      NoCommentConcat(Step(s, a[0]), a[1..], b);
    }
  }

  lemma {:induction false} WordsGrow(s: Shell, input: string)
    ensures |Run(s, input).words| >= |s.words|
    decreases |input|
  {
    if input != "" {
      WordsGrow(Step(s, input[0]), input[1..]);
    }
  }

  /** Inside a word there is no comment: to be between words again takes finishing the word. */
  lemma {:induction false} NoCommentInside(s: Shell, input: string)
    requires s.mode !in {Between, BetweenEscape} && |Run(s, input).words| == |s.words|
    ensures NoComment(s, input)
    decreases |input|
  {
    if input != "" {
      WordsGrow(Step(s, input[0]), input[1..]);
      NoCommentInside(Step(s, input[0]), input[1..]);
    }
  }

  /** The words a quoter that does not know comments leaves with a bare `#` in front. */
  predicate StartsComment(word: string) {
    word != "" && word[0] == '#' && forall i :: 0 <= i < |word| ==> !ExtraSpecial(word[i])
  }

  /** `q` starts a word: not with a separator, an escaped newline or a live tilde. */
  predicate Opens(q: string) {
    && q != "" && q[0] !in splitChars && q[0] !in prefixChars
    && (q[0] == '\\' ==> |q| > 1 && q[1] != '\n')
  }

  /** `q` read from the start of a word is literal text that leaves the word at `w`, still open. */
  ghost predicate Spells(ws: seq<string>, q: string, w: string) {
    && Run(Shell(ws, "", Raw), q) == Shell(ws, w, Raw)
    && Inert(Shell(ws, "", Raw), q)
    && (q != "" ==> Opens(q))
  }

  lemma SpellsMore(ws: seq<string>, q: string, w: string, q': string, w': string)
    requires Spells(ws, q, w) && (q == "" ==> Opens(q'))
    requires Run(Shell(ws, w, Raw), q') == Shell(ws, w', Raw) && Inert(Shell(ws, w, Raw), q')
    ensures Spells(ws, q + q', w')
  {
    hide Step, Run, Inert;
    RunConcat(Shell(ws, "", Raw), q, q');
    InertConcat(Shell(ws, "", Raw), q, q');
    assert q == "" ==> q + q' == q';
  }

  lemma RunEscaped(ws: seq<string>, w: string, c: char)
    requires c != '\n'
    ensures Run(Shell(ws, w, Raw), ['\\', c]) == Shell(ws, w + [c], Raw)
    ensures Inert(Shell(ws, w, Raw), ['\\', c])
  {
    hide Run, Inert;
    assert ['\\', c] == ['\\'] + [c];
    RunConcat(Shell(ws, w, Raw), ['\\'], [c]);
    RunOne(Shell(ws, w, Raw), '\\');
    RunOne(Shell(ws, w, Escape), c);
    InertConcat(Shell(ws, w, Raw), ['\\'], [c]);
    InertOne(Shell(ws, w, Raw), '\\');
    InertOne(Shell(ws, w, Escape), c);
  }

  lemma RunQuoted(ws: seq<string>, w: string, t: string)
    requires '\'' !in t
    ensures Run(Shell(ws, w, Raw), "'" + t + "'") == Shell(ws, w + t, Raw)
    ensures Inert(Shell(ws, w, Raw), "'" + t + "'")
  {
    hide Run, Inert;
    InertConcat(Shell(ws, w, Raw), "'" + t, "'");
    InertConcat(Shell(ws, w, Raw), "'", t);
    InertOne(Shell(ws, w, Raw), '\'');
    InertPlain(Shell(ws, w, Single), t);
    InertOne(Shell(ws, w + t, Single), '\'');
    RunConcat(Shell(ws, w, Raw), "'" + t, "'");
    RunConcat(Shell(ws, w, Raw), "'", t);
    RunOne(Shell(ws, w, Raw), '\'');
    RunPlain(Shell(ws, w, Single), t);
    RunOne(Shell(ws, w + t, Single), '\'');
  }

  lemma RunCopied(ws: seq<string>, w: string, rest: string)
    requires rest != "" && !Special(Rune(rest)) && !ExtraSpecial(Rune(rest))
    ensures Run(Shell(ws, w, Raw), rest[..RuneLen(rest)]) == Shell(ws, w + rest[..RuneLen(rest)], Raw)
    ensures Inert(Shell(ws, w, Raw), rest[..RuneLen(rest)])
    ensures forall i :: 0 <= i < RuneLen(rest) ==> !ExtraSpecial(rest[i])
    ensures rest[0] !in prefixChars ==> Opens(rest[..RuneLen(rest)])
  {
    hide RuneLen, Special, ExtraSpecial, Plain, Live;
    forall i | 0 <= i < RuneLen(rest) ensures !ExtraSpecial(rest[i]) && Plain(Raw, rest[i]) && !Live(Raw, rest[i]) {
      OrdinaryIsPlain(rest[i]);
    }
    RunPlain(Shell(ws, w, Raw), rest[..RuneLen(rest)]);
    InertPlain(Shell(ws, w, Raw), rest[..RuneLen(rest)]);
    if rest[0] !in prefixChars {
      OpensPlain(rest[..RuneLen(rest)]);
    }
  }

  predicate Special(c: char) { c in specialChars }

  predicate ExtraSpecial(c: char) { c in extraSpecialChars }

  lemma SpecialIsByte(rest: string)
    requires rest != "" && (Special(Rune(rest)) || ExtraSpecial(Rune(rest)) || Rune(rest) in prefixChars)
    ensures Rune(rest) == rest[0] && RuneLen(rest) == 1
  {
  }

  lemma EscapeTurn(ws: seq<string>, q: string, w: string, c: char)
    requires Spells(ws, q, w) && (Special(c) || c in prefixChars)
    ensures Spells(ws, q + ['\\', c], w + [c]) && !ExtraSpecial(c)
  {
    hide Run, Inert, Spells;
    SpecialIsNotBlank(c);
    RunEscaped(ws, w, c);
    EscapeOpens(c);
    SpellsMore(ws, q, w, ['\\', c], w + [c]);
  }

  lemma SpecialIsNotBlank(c: char)
    requires Special(c) || c in prefixChars
    ensures !ExtraSpecial(c) && c != '\n'
  {
  }

  lemma EscapeOpens(c: char)
    requires c != '\n'
    ensures Opens(['\\', c])
  {
  }

  lemma CopyTurn(ws: seq<string>, q: string, w: string, rest: string)
    requires Spells(ws, q, w) && rest != "" && !Special(Rune(rest)) && !ExtraSpecial(Rune(rest))
    requires q == "" ==> rest[0] !in prefixChars
    ensures var l := RuneLen(rest);
            Spells(ws, q + rest[..l], w + rest[..l]) && forall i :: 0 <= i < l ==> !ExtraSpecial(rest[i])
  {
    hide Spells, Run;
    RunCopied(ws, w, rest);
    SpellsMore(ws, q, w, rest[..RuneLen(rest)], w + rest[..RuneLen(rest)]);
  }

  /** What backslash mode has done at `d`: the text of `out` and of the stretch from `k` on spells the word so far. */
  ghost predicate Quoting(ws: seq<string>, word: string, out: string, k: nat, d: nat) {
    && k <= d <= |word| && Spells(ws, out + word[k..d], word[..d])
    && (forall i :: 0 <= i < d ==> !ExtraSpecial(word[i])) && out + word[k..d] == Escaped(word, d)
    && if d == 0 then out == "" else out + word[k..d] != "" && ((out + word[k..d])[0] == '#' <==> word[0] == '#')
  }

  lemma QuotingStart(ws: seq<string>, word: string)
    ensures Quoting(ws, word, "", 0, 0)
  {
    SpellsNothing(ws);
    EscapedNone(word);
    assert "" + word[0..0] == "" && word[..0] == "";
  }

  lemma QuotingEscape(ws: seq<string>, word: string, out: string, k: nat, d: nat, c: char)
    requires Quoting(ws, word, out, k, d) && d < |word| && c == Rune(word[d..])
    requires Special(c) || (d == 0 && c in prefixChars)
    ensures RuneLen(word[d..]) == 1 && Quoting(ws, word, out + word[k..d] + ['\\', c], d + 1, d + 1)
  {
    hide Spells, Special, ExtraSpecial, Escaped;
    var q := out + word[k..d];
    SpecialIsByte(word[d..]);
    EscapedOne(word, out, k, d, c);
    EscapeTurn(ws, q, word[..d], c);
    HashIsPlain(c);
    hide Rune, RuneLen;
    assert word[..d] + [c] == word[..d + 1];
    assert q + ['\\', c] + word[d + 1..d + 1] == q + ['\\', c];
  }

  lemma HashIsPlain(c: char)
    requires Special(c) || c in prefixChars
    ensures c != '#'
  {
  }

  lemma NoPrefix(rest: string)
    requires rest != ""
    ensures Rune(rest) !in prefixChars ==> rest[0] !in prefixChars
  {
  }

  lemma QuotingCopy(ws: seq<string>, word: string, out: string, k: nat, d: nat, l: nat)
    requires Quoting(ws, word, out, k, d) && d < |word| && l == RuneLen(word[d..])
    requires var c := Rune(word[d..]); !Special(c) && !ExtraSpecial(c) && (d == 0 ==> c !in prefixChars)
    ensures d + l <= |word| && Quoting(ws, word, out, k, d + l)
  {
    hide Spells, Special, ExtraSpecial, Rune, Escaped, RuneLen;
    var q, here := out + word[k..d], word[d..];
    NoPrefix(here);
    EscapedRune(word, out, k, d, l);
    CopyTurn(ws, q, word[..d], here);
    Stretched(word, out, k, d, l);
    assert forall i :: d <= i < d + l ==> word[i] == here[i - d];
  }

  lemma Stretched(word: string, out: string, k: nat, d: nat, l: nat)
    requires k <= d && d + l <= |word| && l > 0
    ensures out + word[k..d + l] == out + word[k..d] + word[d..][..l] && word[..d + l] == word[..d] + word[d..][..l]
    ensures d == 0 && out == "" ==> (out + word[k..d + l])[0] == word[0]
    ensures out + word[k..d] != "" ==> (out + word[k..d + l])[0] == (out + word[k..d])[0]
  {
  }

  /** The characters that get a backslash: those with a meaning to a shell, and a tilde in front. */
  predicate Needs(word: string, i: nat)
    requires i < |word|
  {
    || word[i] == '\\' || word[i] == '\'' || word[i] == '"' || word[i] == '`' || word[i] == '$' || word[i] == '{'
    || word[i] == '[' || word[i] == '|' || word[i] == '&' || word[i] == ';' || word[i] == '<' || word[i] == '>'
    || word[i] == '(' || word[i] == ')' || word[i] == '*' || word[i] == '?' || word[i] == '!' || (i == 0 && word[i] == '~')
  }

  /** The first `n` characters with their backslashes, and all others as they are. */
  function Escaped(word: string, n: nat): string
    requires n <= |word|
  {
    if n == 0 then "" else Escaped(word, n - 1) + if Needs(word, n - 1) then ['\\', word[n - 1]] else [word[n - 1]]
  }

  lemma NeedsIs(word: string, d: nat)
    requires d < |word|
    ensures Needs(word, d) <==> Special(word[d]) || (d == 0 && word[d] in prefixChars)
  {
  }

  lemma {:induction false} EscapedCopy(word: string, d: nat, l: nat)
    requires d + l <= |word| && forall i :: d <= i < d + l ==> !Needs(word, i)
    ensures Escaped(word, d + l) == Escaped(word, d) + word[d..d + l]
    decreases l
  {
    hide Needs;
    if l > 0 {
      EscapedCopy(word, d, l - 1);
      assert word[d..d + l] == word[d..d + l - 1] + [word[d + l - 1]];
      Assoc(Escaped(word, d), word[d..d + l - 1], [word[d + l - 1]]);
    } else {
      assert word[d..d] == "";
    }
  }

  /** A rune that needs no backslash is copied whole. */
  lemma EscapedRune(word: string, out: string, k: nat, d: nat, l: nat)
    requires k <= d < |word| && l == RuneLen(word[d..]) && out + word[k..d] == Escaped(word, d)
    requires var c := Rune(word[d..]); !Special(c) && (d == 0 ==> c !in prefixChars)
    ensures d + l <= |word| && out + word[k..d + l] == Escaped(word, d + l)
  {
    forall i | d <= i < d + l ensures !Needs(word, i) {
      NeedsIs(word, i);
      assert word[i] == word[d..][i - d];
      NotAscii(word[d..], i - d);
    }
    hide Needs, RuneLen, Rune, Escaped;
    EscapedCopy(word, d, l);
    Assoc(out, word[k..d], word[d..d + l]);
    assert word[k..d + l] == word[k..d] + word[d..d + l];
  }

  lemma NotAscii(rest: string, i: nat)
    requires i < RuneLen(rest) && !Special(Rune(rest))
    ensures i < |rest| && (i == 0 && Ascii(rest[0]) ==> rest[i] == Rune(rest)) && !Special(rest[i])
    ensures i > 0 ==> !Ascii(rest[i])
    ensures Rune(rest) !in prefixChars ==> rest[i] !in prefixChars
  {
  }

  /** Backslash mode: what is appended to the buffer, unless it gives up (`None`) at a blank, tab or newline. */
  method QuoteBackslash(word: string, ghost ws: seq<string>) returns (r: Option<string>)
    ensures r.Some? ==> Spells(ws, r.value, word)
    ensures r.None? <==> exists i :: 0 <= i < |word| && (word[i] == ' ' || word[i] == '\t' || word[i] == '\n')
    ensures r.Some? ==> r.value == Escaped(word, |word|)
    ensures r.Some? && word != "" ==> r.value != "" && (r.value[0] == '#' <==> word[0] == '#')
  {
    hide Quoting, Spells, RuneLen, Rune, Special, ExtraSpecial, Escaped;
    var cur, prev, atStart := word, word, true;
    var out := "";
    ghost var d, k := 0, 0;
    QuotingStart(ws, word);
    while |cur| > 0
      invariant 0 <= k <= d <= |word| && cur == word[d..] && prev == word[k..] && (atStart <==> d == 0)
      invariant Quoting(ws, word, out, k, d)
      decreases |cur|
    {
      var c, l := Rune(cur), RuneLen(cur);
      Slices(word, k, d, l);
      cur := cur[l..];
      if Special(c) || (atStart && c in prefixChars) {
        QuotingEscape(ws, word, out, k, d, c);
        if |cur| < |prev| {
          out := out + prev[0..|prev| - |cur| - l];
        }
        out := out + ['\\', c];
        d := d + l;
        prev, k := cur, d;
      } else if ExtraSpecial(c) {
        SpecialIsByte(word[d..]);
        GivesUp(word, d);
        return None;
      } else {
        QuotingCopy(ws, word, out, k, d, l);
        d := d + l;
      }
      atStart := false;
    }
    QuotingEnd(ws, word, out, k);
    if |prev| > 0 {
      out := out + prev;
    }
    return Some(out);
  }

  lemma GivesUp(word: string, d: nat)
    requires d < |word| && ExtraSpecial(word[d])
    ensures exists i :: 0 <= i < |word| && (word[i] == ' ' || word[i] == '\t' || word[i] == '\n')
  {
  }

  lemma EscapedNone(word: string)
    ensures Escaped(word, 0) == ""
  {
  }

  lemma EscapedOne(word: string, out: string, k: nat, d: nat, c: char)
    requires k <= d < |word| && c == Rune(word[d..]) && out + word[k..d] == Escaped(word, d)
    requires Special(c) || (d == 0 && c in prefixChars)
    ensures out + word[k..d] + ['\\', c] == Escaped(word, d + 1)
    ensures out + word[k..d] + ['\\', c] + word[d + 1..d + 1] == Escaped(word, d + 1)
  {
    SpecialIsByte(word[d..]);
    NeedsIs(word, d);
    hide Needs, Special, Rune, RuneLen;
    assert word[d + 1..d + 1] == "";
  }

  lemma QuotingEnd(ws: seq<string>, word: string, out: string, k: nat)
    requires Quoting(ws, word, out, k, |word|)
    ensures var q := if |word[k..]| > 0 then out + word[k..] else out;
      Spells(ws, q, word) && q == Escaped(word, |word|) && (word != "" ==> q != "" && (q[0] == '#' <==> word[0] == '#'))
    ensures !exists i :: 0 <= i < |word| && (word[i] == ' ' || word[i] == '\t' || word[i] == '\n')
  {
    hide Spells, Escaped;
    assert word[k..|word|] == word[k..] && word[..|word|] == word;
    assert word[k..] == "" ==> out + word[k..] == out;
  }

  lemma SpellsNothing(ws: seq<string>)
    ensures Spells(ws, "", "")
  {
  }

  lemma OpensPlain(q: string)
    requires q != "" && Plain(Raw, q[0]) && q[0] !in prefixChars
    ensures Opens(q)
  {
  }

  lemma OrdinaryIsPlain(c: char)
    requires !Ascii(c) || (!Special(c) && !ExtraSpecial(c))
    ensures Plain(Raw, c) && !ExtraSpecial(c) && !Live(Raw, c)
  {
    assert specialChars[0] == '\\' && specialChars[1] == '\'' && specialChars[2] == '"';
    assert extraSpecialChars[0] == ' ' && extraSpecialChars[1] == '\t' && extraSpecialChars[2] == '\n';
  }

  /** Quote mode: single-quoted stretches, with each embedded single quote escaped outside them. */
  method QuoteSingle(word: string, ghost ws: seq<string>) returns (out: string)
    ensures Quoted(ws, out, word)
  {
    hide Spells, Run, IndexRune, Quoted;
    var rest, inQuote := word, false;
    out := "";
    ghost var d := 0;
    QuotedNothing(ws);
    while |rest| > 0
      invariant !inQuote && 0 <= d <= |word| && rest == word[d..] && Quoted(ws, out, word[..d])
      decreases |rest|
    {
      var i := IndexRune(rest, '\'');
      if i == -1 {
        break;
      }
      ghost var out0 := out;
      if i > 0 {
        if !inQuote {
          out := out + "'";
          inQuote := true;
        }
        out := out + rest[0..i];
      }
      if inQuote {
        out := out + "'";
        inQuote := false;
      }
      out := out + "\\'";
      QuoteStretch(ws, out0, word, d, i, out);
      rest := rest[i + 1..];
      d := d + i + 1;
    }
    ghost var out0 := out;
    if |rest| > 0 {
      if !inQuote {
        out := out + "'";
      }
      out := out + rest;
      out := out + "'";
    }
    QuoteRest(ws, out0, word, d, out);
  }

  /** The output so far spells the word so far, and does not start with a bare `#`. */
  ghost predicate Quoted(ws: seq<string>, q: string, w: string) {
    Spells(ws, q, w) && (q != "" ==> q[0] != '#')
  }

  lemma QuotedNothing(ws: seq<string>)
    ensures Quoted(ws, "", "")
  {
    SpellsNothing(ws);
  }

  lemma QuotedMore(ws: seq<string>, q: string, w: string, t: string)
    requires Quoted(ws, q, w) && '\'' !in t
    ensures Quoted(ws, q + ("'" + t + "'"), w + t)
  {
    hide Spells, Run;
    RunQuoted(ws, w, t);
    SpellsMore(ws, q, w, "'" + t + "'", w + t);
  }

  lemma QuotedEscape(ws: seq<string>, q: string, w: string)
    requires Quoted(ws, q, w)
    ensures Quoted(ws, q + "\\'", w + "'")
  {
    hide Spells, Run;
    RunEscaped(ws, w, '\'');
    SpellsMore(ws, q, w, "\\'", w + "'");
  }

  /** One turn of quote mode: a possibly empty stretch free of quotes, then an escaped quote. */
  lemma QuoteStretch(ws: seq<string>, q: string, word: string, d: nat, i: nat, out: string)
    requires d + i < |word| && Quoted(ws, q, word[..d]) && word[d + i] == '\'' && '\'' !in word[d..][..i]
    requires out == if i == 0 then q + "\\'" else q + "'" + word[d..][0..i] + "'" + "\\'"
    ensures Quoted(ws, out, word[..d + i + 1])
  {
    hide Quoted;
    var w, t := word[..d], word[d..][..i];
    assert word[..d + i + 1] == w + t + "'";
    if i == 0 {
      assert w + t == w;
      QuotedEscape(ws, q, w);
    } else {
      QuotedMore(ws, q, w, t);
      QuotedEscape(ws, q + ("'" + t + "'"), w + t);
      assert q + "'" + t + "'" == q + ("'" + t + "'");
    }
  }

  lemma QuoteRest(ws: seq<string>, q: string, word: string, d: nat, out: string)
    requires d <= |word| && Quoted(ws, q, word[..d]) && '\'' !in word[d..]
    requires out == if d == |word| then q else q + "'" + word[d..] + "'"
    ensures Quoted(ws, out, word)
  {
    hide Quoted;
    var t := word[d..];
    assert word[..d] + t == word;
    if d < |word| {
      QuotedMore(ws, q, word[..d], t);
      assert q + "'" + t + "'" == q + ("'" + t + "'");
    } else {
      assert word[..d] == word;
    }
  }

  /** `quote` appends to the buffer a text that a shell reads as exactly the given word. */
  method Quote(word: string, buf: string, ghost ws: seq<string>) returns (out: string, ghost piece: string)
    ensures out == buf + piece && piece != "" && Spells(ws, piece, word) && (piece[0] == '#' <==> StartsComment(word))
  {
    if |word| == 0 {
      RunQuoted(ws, "", "");
      assert "'" + "" + "'" == "''";
      return buf + "''", "''";
    }
    var r := QuoteBackslash(word, ws);
    if r.Some? {
      return buf + r.value, r.value;
    }
    var quoted := QuoteSingle(word, ws);
    return buf + quoted, quoted;
  }

  /** `ArgsToString`: splitting the result gives back the arguments, whatever they contain. */
  method ArgsToString(args: seq<string>) returns (s: string)
    ensures Finish(Run(START, s)) == Split(args, None)
    ensures Inert(START, s)
    ensures NoComment(START, s) <==> forall i :: 0 <= i < |args| ==> !StartsComment(args[i])
  {
    hide Spells, Run, Inert, NoComment, StartsComment;
    InertPlain(START, "");
    assert NoComment(START, "") by { NoCommentNone(START); }
    s := "";
    RunEmpty(START);
    for i := 0 to |args|
      invariant i == 0 ==> s == ""
      invariant Inert(START, s)
      invariant NoComment(START, s) <==> forall j :: 0 <= j < i ==> !StartsComment(args[j])
      invariant i > 0 ==> Run(START, s) == Shell(args[..i - 1], args[i - 1], Raw)
    {
      if i != 0 {
        RunConcat(START, s, " ");
        RunOne(Shell(args[..i - 1], args[i - 1], Raw), ' ');
        InertConcat(START, s, " ");
        InertOne(Shell(args[..i - 1], args[i - 1], Raw), ' ');
        NoCommentConcat(START, s, " ");
        NoCommentOne(Shell(args[..i - 1], args[i - 1], Raw), ' ');
        assert args[..i] == args[..i - 1] + [args[i - 1]];
        s := s + " ";
      }
      assert args[..0] == [];
      assert Run(START, s) == Shell(args[..i], "", Between);
      ghost var before, piece := s, "";
      s, piece := Quote(args[i], s, args[..i]);
      SpelledWord(args[..i], piece, args[i]);
      RunConcat(START, before, piece);
      InertConcat(START, before, piece);
      NoCommentConcat(START, before, piece);
    }
    assert args == [] || args == args[..|args| - 1] + [args[|args| - 1]];
  }

  lemma SpelledWord(ws: seq<string>, q: string, w: string)
    requires Spells(ws, q, w) && q != ""
    ensures Run(Shell(ws, "", Between), q) == Shell(ws, w, Raw)
    ensures Inert(Shell(ws, "", Between), q)
    ensures NoComment(Shell(ws, "", Between), q) <==> q[0] != '#'
  {
    StartWord(ws, q);
    StartInert(ws, q);
    NoCommentInside(Shell(ws, "", Raw), q);
    StartNoComment(ws, q);
  }

  lemma StartNoComment(ws: seq<string>, q: string)
    requires Opens(q) && NoComment(Shell(ws, "", Raw), q)
    ensures NoComment(Shell(ws, "", Between), q) <==> q[0] != '#'
  {
    if q[0] == '\\' {
      assert q[1..][0] == q[1];
      assert Step(Shell(ws, "", BetweenEscape), q[1]) == Step(Shell(ws, "", Escape), q[1]);
    } else {
      assert Step(Shell(ws, "", Between), q[0]) == Step(Shell(ws, "", Raw), q[0]);
    }
  }

  lemma NoCommentNone(s: Shell)
    ensures NoComment(s, "")
  {
  }

  lemma NoCommentOne(s: Shell, c: char)
    requires s.mode != Between
    ensures NoComment(s, [c])
  {
    assert [c][1..] == "";
  }

  lemma StartInert(ws: seq<string>, q: string)
    requires Opens(q) && Inert(Shell(ws, "", Raw), q)
    ensures Inert(Shell(ws, "", Between), q)
  {
    if q[0] == '\\' {
      assert q[1..][0] == q[1];
      assert Step(Shell(ws, "", BetweenEscape), q[1]) == Step(Shell(ws, "", Escape), q[1]);
    } else {
      assert Step(Shell(ws, "", Between), q[0]) == Step(Shell(ws, "", Raw), q[0]);
    }
  }

  /** The word `#` is left bare, and a shell would read a comment. */
  method HashLeftBare() returns (s: string)
    ensures Finish(Run(START, s)) == Split(["#"], None) && !NoComment(START, s)
  {
    assert StartsComment(["#"][0]);
    s := ArgsToString(["#"]);
  }

  /** Quoting then splitting is the identity on every list of byte strings. */
  method RoundTrip(args: seq<string>) returns (words: seq<string>, err: Option<Error>)
    ensures words == args && err == None
  {
    var s := ArgsToString(args);
    words, err := StringToArgs(s);
  }
}
