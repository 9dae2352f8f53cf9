/** The parts of Go's strings package the modelled code relies on. */
module GoStrings {
  /** unicode.IsSpace. */
  predicate IsSpace(c: char) {
    c in " \t\n\r" || c == '\U{0B}' || c == '\U{0C}' || c == '\U{85}' || c == '\U{A0}' || c == '\U{1680}'
    || '\U{2000}' <= c <= '\U{200A}' || c == '\U{2028}' || c == '\U{2029}' || c == '\U{202F}'
    || c == '\U{205F}' || c == '\U{3000}'
  }

  function TrimLeft(s: string): string {
    if s == "" || !IsSpace(s[0]) then s else TrimLeft(s[1..])
  }

  function TrimRight(s: string): string {
    if s == "" || !IsSpace(s[|s| - 1]) then s else TrimRight(s[..|s| - 1])
  }

  function TrimSpace(s: string): string {
    TrimRight(TrimLeft(s))
  }

  predicate HasPrefix(s: string, prefix: string) {
    prefix <= s
  }

  function TrimPrefix(s: string, prefix: string): string {
    if prefix <= s then s[|prefix|..] else s
  }

  /** Lower case of ASCII letters and of the two other characters whose lower case is ASCII. */
  function LowerChar(c: char): char {
    if 'A' <= c <= 'Z' then (c as int + 32) as char
    else if c == '\U{212A}' then 'k'
    else if c == '\U{130}' then 'i'
    else c
  }

  function ToLower(s: string): string {
    if s == "" then "" else [LowerChar(s[0])] + ToLower(s[1..])
  }

  /** unicode.SimpleFold, for the characters that fold to ASCII. */
  function FoldChar(c: char): char {
    if 'A' <= c <= 'Z' then (c as int + 32) as char
    else if c == '\U{212A}' then 'k'
    else if c == '\U{17F}' then 's'
    else c
  }

  predicate EqualFold(s: string, t: string) {
    |s| == |t| && forall i | 0 <= i < |s| :: FoldChar(s[i]) == FoldChar(t[i])
  }

  predicate IsBlank(s: string) {
    TrimSpace(s) == ""
  }

  /** A string that starts and ends with other characters is not trimmed. */
  lemma NothingToTrim(s: string)
    requires s != "" ==> !IsSpace(s[0]) && !IsSpace(s[|s| - 1])
    ensures TrimSpace(s) == s
  {}

  lemma {:induction false} NotBlank(s: string)
    requires s != "" && !IsSpace(s[0])
    ensures !IsBlank(s)
  {
    NeverTrimmedAway(s);
  }

  lemma {:induction false} NeverTrimmedAway(s: string)
    requires s != "" && !IsSpace(s[0])
    ensures TrimRight(s) != ""
  {
    if IsSpace(s[|s| - 1]) {
      NeverTrimmedAway(s[..|s| - 1]);
    }
  }

  lemma {:induction false} AlreadyLower(s: string)
    requires forall c | c in s :: LowerChar(c) == c
    ensures ToLower(s) == s
  {
    if s != "" {
      AlreadyLower(s[1..]);
    }
  }

  function ContainsAt(s: string, sub: string): bool {
    sub <= s || (s != "" && ContainsAt(s[1..], sub))
  }

  /** strings.Split(s, "\n"). */
  function SplitLines(s: string): seq<string>
    ensures SplitLines(s) != []
  {
    if s == "" then [""]
    else
      var rest := SplitLines(s[1..]);
      if s[0] == '\n' then [""] + rest else [[s[0]] + rest[0]] + rest[1..]
  }

  /** strings.Join(lines, "\n"). */
  function JoinLines(lines: seq<string>): string {
    if lines == [] then "" else if |lines| == 1 then lines[0] else lines[0] + "\n" + JoinLines(lines[1..])
  }

  lemma {:induction false} SplitFirstLine(line: string, rest: string)
    requires '\n' !in line
    ensures SplitLines(line + "\n" + rest) == [line] + SplitLines(rest)
    ensures SplitLines(line) == [line]
    decreases line
  {
    var text := line + "\n" + rest;
    if line == "" {
      assert text[1..] == rest;
    } else {
      SplitFirstLine(line[1..], rest);
      assert text[1..] == line[1..] + "\n" + rest;
      assert [line[0]] + line[1..] == line;
    }
  }

  /** Splitting undoes joining for lines that contain no newline. */
  lemma {:induction false} SplitJoin(lines: seq<string>)
    requires lines != [] && forall l | l in lines :: '\n' !in l
    ensures SplitLines(JoinLines(lines)) == lines
    decreases lines
  {
    if |lines| == 1 {
      SplitFirstLine(lines[0], "");
    } else {
      SplitFirstLine(lines[0], JoinLines(lines[1..]));
      SplitJoin(lines[1..]);
    }
  }
}
