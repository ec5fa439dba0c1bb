/**
 The text functions the batch parser relies on: Go's `strings.Fields`, `TrimSpace`, `Trim` and `Join`,
 `strconv.Atoi` and `Itoa`, and line scanning with `bufio.Scanner`.
 */
module BatchText {
  import opened Common

  /** `unicode.IsSpace`. */
  predicate IsSpace(c: char) {
    || c == ' ' || '\t' <= c <= '\r' || c == '\U{85}' || c == '\U{A0}' || c == '\U{1680}'
    || '\U{2000}' <= c <= '\U{200A}' || c == '\U{2028}' || c == '\U{2029}' || c == '\U{202F}' || c == '\U{205F}'
    || c == '\U{3000}'
  }

  predicate IsWord(w: string) {
    w != "" && forall i :: 0 <= i < |w| ==> !IsSpace(w[i])
  }

  predicate AllWords(ws: seq<string>) {
    forall i :: 0 <= i < |ws| ==> IsWord(ws[i])
  }

  /** Non-empty, with no white space at either end. */
  predicate Trimmed(s: string) {
    s != "" && !IsSpace(s[0]) && !IsSpace(s[|s| - 1])
  }

  /** The only white space is single blanks. */
  ghost predicate Spaced(s: string) {
    && (forall i :: 0 <= i < |s| && IsSpace(s[i]) ==> s[i] == ' ')
    && (forall i, j :: 0 <= i < j < |s| && j == i + 1 ==> !(s[i] == ' ' && s[j] == ' '))
  }

  predicate NoSpace(s: string) {
    forall i :: 0 <= i < |s| ==> !IsSpace(s[i])
  }

  function DropSpaces(s: string): string {
    if s != "" && IsSpace(s[0]) then DropSpaces(s[1..]) else s
  }

  function DropTrailingSpaces(s: string): string {
    if s != "" && IsSpace(s[|s| - 1]) then DropTrailingSpaces(s[..|s| - 1]) else s
  }

  function TrimSpace(s: string): string {
    DropTrailingSpaces(DropSpaces(s))
  }

  lemma {:induction false} DroppedFront(s: string) returns (i: nat)
    ensures i <= |s| && DropSpaces(s) == s[i..]
    ensures i < |s| ==> !IsSpace(s[i])
  {
    if s != "" && IsSpace(s[0]) {
      i := DroppedFront(s[1..]);
      i := i + 1;
    } else {
      i := 0;
    }
  }

  lemma {:induction false} DroppedBack(s: string) returns (j: nat)
    ensures j <= |s| && DropTrailingSpaces(s) == s[..j]
    ensures 0 < j ==> !IsSpace(s[j - 1])
  {
    if s != "" && IsSpace(s[|s| - 1]) {
      j := DroppedBack(s[..|s| - 1]);
      assert s[..|s| - 1][..j] == s[..j];
    } else {
      j := |s|;
      assert s[..j] == s;
    }
  }

  /** Trimming cuts out a part that is empty or has no white space at its ends. */
  lemma TrimSpaceIsPart(s: string) returns (i: nat, j: nat)
    ensures i <= j <= |s| && TrimSpace(s) == s[i..j]
    ensures TrimSpace(s) != "" ==> Trimmed(TrimSpace(s))
  {
    i := DroppedFront(s);
    var n := DroppedBack(s[i..]);
    j := i + n;
    assert s[i..][..n] == s[i..j];
  }

  lemma TrimmedIsFixed(s: string)
    requires Trimmed(s)
    ensures TrimSpace(s) == s
  {
  }

  /** `strings.Fields`, with the part of a word read so far. */
  function FieldsFrom(word: string, s: string): seq<string>
    decreases s
  {
    if s == "" then (if word == "" then [] else [word])
    else if IsSpace(s[0]) then (if word == "" then [] else [word]) + FieldsFrom("", s[1..])
    else FieldsFrom(word + [s[0]], s[1..])
  }

  function Fields(s: string): seq<string> {
    FieldsFrom("", s)
  }

  lemma {:induction false} FieldsFromAreWords(word: string, s: string)
    requires NoSpace(word)
    ensures AllWords(FieldsFrom(word, s))
    decreases s
  {
    if s != "" {
      if IsSpace(s[0]) {
        FieldsFromAreWords("", s[1..]);
      } else {
        FieldsFromAreWords(word + [s[0]], s[1..]);
      }
    }
  }

  lemma FieldsAreWords(s: string)
    ensures AllWords(Fields(s))
  {
    FieldsFromAreWords("", s);
  }

  lemma {:induction false} FieldsFromStart(word: string, s: string)
    requires word != ""
    ensures FieldsFrom(word, s) != [] && FieldsFrom(word, s)[0] != "" && FieldsFrom(word, s)[0][0] == word[0]
    decreases s
  {
    if s != "" && !IsSpace(s[0]) {
      FieldsFromStart(word + [s[0]], s[1..]);
    }
  }

  /** A trimmed line has a first field, so taking it never fails. */
  lemma FieldsOfTrimmed(s: string)
    requires Trimmed(s)
    ensures Fields(s) != [] && Fields(s)[0] != "" && Fields(s)[0][0] == s[0]
  {
    FieldsFromStart("" + [s[0]], s[1..]);
  }

  lemma {:induction false} ReadWord(word: string, more: string, rest: string)
    requires NoSpace(more)
    ensures FieldsFrom(word, more + rest) == FieldsFrom(word + more, rest)
    decreases more
  {
    if more == "" {
      assert more + rest == rest && word + more == word;
    } else {
      assert (more + rest)[1..] == more[1..] + rest;
      ReadWord(word + [more[0]], more[1..], rest);
      assert word + [more[0]] + more[1..] == word + more;
    }
  }

  function Join(ws: seq<string>, sep: char): string {
    if ws == [] then "" else if |ws| == 1 then ws[0] else ws[0] + [sep] + Join(ws[1..], sep)
  }

  lemma FieldsOfWord(w: string)
    requires IsWord(w)
    ensures Fields(w) == [w]
  {
    ReadWord("", w, "");
    assert w + "" == w && "" + w == w;
  }

  lemma FieldsCons(w: string, s: string)
    requires IsWord(w)
    ensures Fields(w + [' '] + s) == [w] + Fields(s)
  {
    assert w + [' '] + s == w + ([' '] + s);
    ReadWord("", w, [' '] + s);
    assert "" + w == w && ([' '] + s)[1..] == s;
  }

  /** Splitting undoes joining. */
  lemma {:induction false} FieldsOfJoin(ws: seq<string>)
    requires AllWords(ws)
    ensures Fields(Join(ws, ' ')) == ws
  {
    if |ws| == 1 {
      FieldsOfWord(ws[0]);
    } else if |ws| > 1 {
      FieldsOfJoin(ws[1..]);
      FieldsCons(ws[0], Join(ws[1..], ' '));
    }
  }

  lemma {:induction false} FirstWord(s: string) returns (n: nat)
    ensures n <= |s| && NoSpace(s[..n]) && (n < |s| ==> IsSpace(s[n]))
  {
    n := 0;
    while n < |s| && !IsSpace(s[n])
      invariant n <= |s| && NoSpace(s[..n])
    {
      n := n + 1;
    }
  }

  /** Joining undoes splitting, on text whose white space is single inner blanks. */
  lemma {:induction false} JoinOfFields(s: string)
    requires Trimmed(s) && Spaced(s)
    ensures Join(Fields(s), ' ') == s
    decreases |s|
  {
    var n := FirstWord(s);
    if n == |s| {
      assert s[..n] == s;
      FieldsOfWord(s);
    } else {
      var w, rest := s[..n], s[n + 1..];
      RestIsNormal(s, n);
      JoinOfFields(rest);
      FieldsCons(w, rest);
      FieldsOfTrimmed(rest);
      assert ([w] + Fields(rest))[1..] == Fields(rest);
    }
  }

  /** After its first word, normal text continues with one blank and normal text. */
  lemma RestIsNormal(s: string, n: nat)
    requires Trimmed(s) && Spaced(s) && n < |s| && IsSpace(s[n])
    ensures n + 1 < |s| && s == s[..n] + [' '] + s[n + 1..]
    ensures Trimmed(s[n + 1..]) && Spaced(s[n + 1..])
  {
    assert s[n] == ' ' && n != |s| - 1 && s[n + 1] != ' ';
    SpacedPart(s, n + 1, |s|);
    assert s[n + 1..|s|] == s[n + 1..];
  }

  lemma {:induction false} JoinIsNormal(ws: seq<string>)
    requires AllWords(ws) && ws != []
    ensures Trimmed(Join(ws, ' ')) && Spaced(Join(ws, ' '))
    ensures Join(ws, ' ')[0] == ws[0][0]
  {
    if |ws| > 1 {
      JoinIsNormal(ws[1..]);
      NormalConcat(ws[0], Join(ws[1..], ' '));
    }
  }

  lemma NormalConcat(w: string, rest: string)
    requires IsWord(w) && Trimmed(rest) && Spaced(rest)
    ensures Trimmed(w + [' '] + rest) && Spaced(w + [' '] + rest)
  {
    var s := w + [' '] + rest;
    forall i | 0 <= i < |s|
      ensures if i < |w| then s[i] == w[i] else if i == |w| then s[i] == ' ' else s[i] == rest[i - |w| - 1]
    {
    }
  }

  // ---- Quotes ----

  const QUOTE := '"'

  function TrimLeftQuotes(s: string): string {
    if s != "" && s[0] == QUOTE then TrimLeftQuotes(s[1..]) else s
  }

  function TrimRightQuotes(s: string): string {
    if s != "" && s[|s| - 1] == QUOTE then TrimRightQuotes(s[..|s| - 1]) else s
  }

  function TrimQuotes(s: string): string {
    TrimRightQuotes(TrimLeftQuotes(s))
  }

  predicate Unquoted(s: string) {
    s != "" ==> s[0] != QUOTE && s[|s| - 1] != QUOTE
  }

  lemma TrimQuotesOfQuoted(m: string)
    requires Unquoted(m)
    ensures TrimQuotes([QUOTE] + m + [QUOTE]) == m
  {
    var s, t := [QUOTE] + m + [QUOTE], m + [QUOTE];
    assert s[1..] == t && t[..|m|] == m;
    if m == "" {
      assert t[1..] == "";
      assert TrimLeftQuotes(s) == TrimLeftQuotes(t) == TrimLeftQuotes(t[1..]) == "";
    } else {
      assert TrimLeftQuotes(s) == TrimLeftQuotes(t) == t;
      assert TrimRightQuotes(t) == TrimRightQuotes(m) == m;
    }
  }

  lemma {:induction false} QuotesDroppedFront(s: string) returns (i: nat)
    ensures i <= |s| && TrimLeftQuotes(s) == s[i..] && (i < |s| ==> s[i] != QUOTE)
  {
    if s != "" && s[0] == QUOTE {
      i := QuotesDroppedFront(s[1..]);
      i := i + 1;
    } else {
      i := 0;
    }
  }

  lemma {:induction false} QuotesDroppedBack(s: string) returns (j: nat)
    ensures j <= |s| && TrimRightQuotes(s) == s[..j] && (0 < j ==> s[j - 1] != QUOTE)
  {
    if s != "" && s[|s| - 1] == QUOTE {
      j := QuotesDroppedBack(s[..|s| - 1]);
      assert s[..|s| - 1][..j] == s[..j];
    } else {
      j := |s|;
      assert s[..j] == s;
    }
  }

  lemma TrimQuotesIsPart(s: string) returns (i: nat, j: nat)
    ensures i <= j <= |s| && TrimQuotes(s) == s[i..j] && Unquoted(TrimQuotes(s))
  {
    i := QuotesDroppedFront(s);
    var n := QuotesDroppedBack(s[i..]);
    j := i + n;
    assert s[i..][..n] == s[i..j];
  }

  lemma SpacedPart(s: string, i: nat, j: nat)
    requires Spaced(s) && i <= j <= |s|
    ensures Spaced(s[i..j])
  {
    assert forall k :: 0 <= k < j - i ==> s[i..j][k] == s[i + k];
  }

  // ---- Numbers ----

  predicate IsDigit(c: char) {
    '0' <= c <= '9'
  }

  predicate AllDigits(s: string) {
    s != "" && forall i :: 0 <= i < |s| ==> IsDigit(s[i])
  }

  function DigitOf(n: nat): (c: char)
    requires n < 10
    ensures IsDigit(c)
  {
    '0' + n as char
  }

  function Digits(n: nat): (s: string)
    ensures AllDigits(s)
  {
    if n < 10 then [DigitOf(n)] else Digits(n / 10) + [DigitOf(n % 10)]
  }

  function Itoa(n: int): string {
    if n < 0 then "-" + Digits(-n) else Digits(n)
  }

  function DigitValue(c: char): nat
    requires IsDigit(c)
  {
    c as int - '0' as int
  }

  function DigitsValue(s: string): nat
    requires forall i :: 0 <= i < |s| ==> IsDigit(s[i])
  {
    if s == "" then 0 else 10 * DigitsValue(s[..|s| - 1]) + DigitValue(s[|s| - 1])
  }

  predicate FitsInt64(n: int) {
    -0x8000_0000_0000_0000 <= n < 0x8000_0000_0000_0000
  }

  /** An optional sign, then decimal digits, within 64 bits. */
  function Atoi(s: string): Option<int> {
    var signed := s != "" && (s[0] == '-' || s[0] == '+');
    var digits := if signed then s[1..] else s;
    if AllDigits(digits) then
      var value: int := if signed && s[0] == '-' then 0 - DigitsValue(digits) else DigitsValue(digits);
      if FitsInt64(value) then Some(value) else None
    else None
  }

  lemma {:induction false} ValueOfDigits(n: nat)
    ensures DigitsValue(Digits(n)) == n
  {
    if n < 10 {
      assert [DigitOf(n)][..0] == "";
    } else {
      ValueOfDigits(n / 10);
      assert Digits(n)[..|Digits(n)| - 1] == Digits(n / 10);
    }
  }

  lemma AtoiOfPositive(s: string)
    requires AllDigits(s) && FitsInt64(DigitsValue(s))
    ensures Atoi(s) == Some(DigitsValue(s)) && IsWord(s)
  {
    assert IsDigit(s[0]);
  }

  lemma AtoiOfNegative(s: string, n: int)
    requires AllDigits(s) && DigitsValue(s) == -n && FitsInt64(n)
    ensures Atoi("-" + s) == Some(n) && IsWord("-" + s)
  {
    var signed := "-" + s;
    assert signed[0] == '-' && signed[1..] == s;
    assert forall i :: 0 < i < |signed| ==> signed[i] == s[i - 1];
  }

  lemma AtoiOfItoa(n: int)
    requires FitsInt64(n)
    ensures Atoi(Itoa(n)) == Some(n)
    ensures IsWord(Itoa(n))
  {
    if n < 0 {
      ValueOfDigits(-n);
      AtoiOfNegative(Digits(-n), n);
    } else {
      ValueOfDigits(n);
      AtoiOfPositive(Digits(n));
    }
  }

  // ---- Lines ----

  /** `bufio.MaxScanTokenSize`: a line that does not fit the scanner's buffer ends the scan. */
  const MAX_LINE := 64 * 1024

  function Utf8Length(c: char): nat {
    if c < '\U{80}' then 1 else if c < '\U{800}' then 2 else if c < '\U{10000}' then 3 else 4
  }

  function ByteLength(s: string): nat {
    if s == "" then 0 else Utf8Length(s[0]) + ByteLength(s[1..])
  }

  function DropCarriageReturn(s: string): string {
    if s != "" && s[|s| - 1] == '\r' then s[..|s| - 1] else s
  }

  /** The lines a scanner yields, with the part of a line read so far; an over-long line silently ends the scan. */
  function ScanFrom(line: string, s: string): seq<string>
    decreases s
  {
    if s == "" then
      if line == "" || ByteLength(line) >= MAX_LINE then [] else [DropCarriageReturn(line)]
    else if s[0] == '\n' then
      if ByteLength(line) >= MAX_LINE then [] else [DropCarriageReturn(line)] + ScanFrom("", s[1..])
    else ScanFrom(line + [s[0]], s[1..])
  }

  function Scan(source: string): seq<string> {
    ScanFrom("", source)
  }

  /** A line the parser keeps: trimmed, not a comment, on one line. */
  predicate ScriptLine(l: string) {
    Trimmed(l) && l[0] != '#' && OneLine(l)
  }

  predicate ScriptLines(lines: seq<string>) {
    forall i :: 0 <= i < |lines| ==> ScriptLine(lines[i])
  }

  predicate ShortLines(lines: seq<string>) {
    forall i :: 0 <= i < |lines| ==> ByteLength(lines[i]) < MAX_LINE
  }

  /** Trims each line and drops empty lines and comments. */
  function Keep(lines: seq<string>): seq<string> {
    if lines == [] then [] else
      var line := TrimSpace(lines[|lines| - 1]);
      Keep(lines[..|lines| - 1]) + if line != "" && line[0] != '#' then [line] else []
  }

  lemma {:induction false} ByteLengthOfConcat(a: string, b: string)
    ensures ByteLength(a + b) == ByteLength(a) + ByteLength(b)
  {
    if a == "" {
      assert a + b == b;
    } else {
      assert (a + b)[1..] == a[1..] + b;
      ByteLengthOfConcat(a[1..], b);
    }
  }

  lemma ByteLengthCut(s: string, i: nat)
    requires i <= |s|
    ensures ByteLength(s) == ByteLength(s[..i]) + ByteLength(s[i..])
  {
    ByteLengthOfConcat(s[..i], s[i..]);
    assert s[..i] + s[i..] == s;
  }

  lemma ByteLengthOfPart(s: string, i: nat, j: nat)
    requires i <= j <= |s|
    ensures ByteLength(s[i..j]) <= ByteLength(s)
  {
    ByteLengthCut(s, j);
    ByteLengthCut(s[..j], i);
    assert s[..j][i..] == s[i..j];
  }

  predicate OneLine(s: string) {
    forall i :: 0 <= i < |s| ==> s[i] != '\n'
  }

  lemma {:induction false} ScannedLinesFrom(line: string, s: string)
    requires OneLine(line)
    ensures ShortLines(ScanFrom(line, s))
    ensures forall i :: 0 <= i < |ScanFrom(line, s)| ==> OneLine(ScanFrom(line, s)[i])
    decreases s
  {
    ByteLengthOfPart(line, 0, |DropCarriageReturn(line)|);
    assert line[0..|DropCarriageReturn(line)|] == DropCarriageReturn(line);
    if s != "" {
      if s[0] == '\n' {
        ScannedLinesFrom("", s[1..]);
      } else {
        ScannedLinesFrom(line + [s[0]], s[1..]);
      }
    }
  }

  lemma KeptLine(line: string)
    requires ByteLength(line) < MAX_LINE && OneLine(line)
    ensures ByteLength(TrimSpace(line)) < MAX_LINE && OneLine(TrimSpace(line))
    ensures TrimSpace(line) != "" ==> Trimmed(TrimSpace(line))
  {
    var i, j := TrimSpaceIsPart(line);
    ByteLengthOfPart(line, i, j);
  }

  lemma {:induction false} KeptLines(lines: seq<string>)
    requires ShortLines(lines) && forall i :: 0 <= i < |lines| ==> OneLine(lines[i])
    ensures ScriptLines(Keep(lines)) && ShortLines(Keep(lines))
  {
    if lines != [] {
      KeptLines(lines[..|lines| - 1]);
      KeptLine(lines[|lines| - 1]);
    }
  }

  lemma {:induction false} KeepScriptLines(lines: seq<string>)
    requires ScriptLines(lines)
    ensures Keep(lines) == lines
  {
    if lines != [] {
      var rest, last := lines[..|lines| - 1], lines[|lines| - 1];
      KeepScriptLines(rest);
      TrimmedIsFixed(last);
      assert Keep(lines) == rest + [last];
      assert lines == rest + [last];
    }
  }

  lemma {:induction false} ReadLine(line: string, more: string, rest: string)
    requires OneLine(more)
    ensures ScanFrom(line, more + rest) == ScanFrom(line + more, rest)
    decreases more
  {
    if more == "" {
      assert more + rest == rest && line + more == line;
    } else {
      assert (more + rest)[1..] == more[1..] + rest;
      ReadLine(line + [more[0]], more[1..], rest);
      assert line + [more[0]] + more[1..] == line + more;
    }
  }

  lemma ScanCons(line: string, s: string)
    requires ScriptLine(line) && ByteLength(line) < MAX_LINE
    ensures Scan(line) == [line] && Scan(line + ['\n'] + s) == [line] + Scan(s)
  {
    ReadLine("", line, "");
    assert line + "" == line && "" + line == line;
    assert line + ['\n'] + s == line + (['\n'] + s);
    ReadLine("", line, ['\n'] + s);
    assert (['\n'] + s)[1..] == s;
  }

  /** Scanning undoes joining with line feeds. */
  lemma {:induction false} ScanOfJoin(lines: seq<string>)
    requires ScriptLines(lines) && ShortLines(lines)
    ensures Scan(Join(lines, '\n')) == lines
  {
    if |lines| == 1 {
      ScanCons(lines[0], "");
    } else if |lines| > 1 {
      ScanCons(lines[0], Join(lines[1..], '\n'));
      ScanOfJoin(lines[1..]);
    }
  }

  // ---- Lines as people write them ----

  predicate AllSpace(s: string) {
    forall i :: 0 <= i < |s| ==> IsSpace(s[i])
  }

  /** White space around a text that neither begins nor ends with white space. */
  ghost predicate Pads(raw: string, front: string, line: string, back: string) {
    raw == front + line + back && AllSpace(front) && AllSpace(back) && Trimmed(line)
  }

  /** A line of white space only, or with nothing before a `#` but white space. */
  ghost predicate Idle(raw: string) {
    AllSpace(raw) || exists front, line, back :: Pads(raw, front, line, back) && line[0] == '#'
  }

  /** The script line `line` with any white space around it. */
  ghost predicate Shows(raw: string, line: string) {
    line != "" && line[0] != '#' && exists front, back :: Pads(raw, front, line, back)
  }

  /** The raw lines are the given lines in order, with white space around them and idle lines anywhere between. */
  ghost predicate Written(raw: seq<string>, lines: seq<string>) {
    if raw == [] then lines == [] else
    var init, last := raw[..|raw| - 1], raw[|raw| - 1];
    || (Idle(last) && Written(init, lines))
    || (lines != [] && Shows(last, lines[|lines| - 1]) && Written(init, lines[..|lines| - 1]))
  }

  lemma {:induction false} DropFront(front: string, rest: string)
    requires AllSpace(front) && (rest != "" ==> !IsSpace(rest[0]))
    ensures DropSpaces(front + rest) == rest
    decreases front
  {
    if front == "" {
      assert front + rest == rest;
    } else {
      assert (front + rest)[1..] == front[1..] + rest;
      DropFront(front[1..], rest);
    }
  }

  lemma {:induction false} DropBack(rest: string, back: string)
    requires AllSpace(back) && (rest != "" ==> !IsSpace(rest[|rest| - 1]))
    ensures DropTrailingSpaces(rest + back) == rest
    decreases back
  {
    if back == "" {
      assert rest + back == rest;
    } else {
      assert (rest + back)[..|rest + back| - 1] == rest + back[..|back| - 1];
      DropBack(rest, back[..|back| - 1]);
    }
  }

  /** Trimming takes away exactly the white space around a text. */
  lemma TrimOfPadded(raw: string, front: string, line: string, back: string)
    requires Pads(raw, front, line, back)
    ensures TrimSpace(raw) == line
  {
    assert raw == front + (line + back);
    DropFront(front, line + back);
    DropBack(line, back);
  }

  lemma TrimOfSpace(raw: string)
    requires AllSpace(raw)
    ensures TrimSpace(raw) == ""
  {
    DropFront(raw, "");
    assert raw + "" == raw;
  }

  lemma {:induction false} SpaceBefore(s: string) returns (front: string)
    ensures AllSpace(front) && front + DropSpaces(s) == s
  {
    if s != "" && IsSpace(s[0]) {
      var rest := SpaceBefore(s[1..]);
      front := [s[0]] + rest;
    } else {
      front := "";
    }
  }

  lemma {:induction false} SpaceAfter(s: string) returns (back: string)
    ensures AllSpace(back) && DropTrailingSpaces(s) + back == s
  {
    if s != "" && IsSpace(s[|s| - 1]) {
      var rest := SpaceAfter(s[..|s| - 1]);
      back := rest + [s[|s| - 1]];
    } else {
      back := "";
    }
  }

  /** Every line is white space only, or white space around its trimmed form. */
  lemma EveryLineIsPadded(raw: string) returns (front: string, back: string)
    ensures if TrimSpace(raw) == "" then AllSpace(raw) else Pads(raw, front, TrimSpace(raw), back)
  {
    front := SpaceBefore(raw);
    back := SpaceAfter(DropSpaces(raw));
    var i, j := TrimSpaceIsPart(raw);
    assert raw == front + (TrimSpace(raw) + back);
    assert raw == front + TrimSpace(raw) + back;
  }

  lemma IdleIff(raw: string)
    ensures Idle(raw) <==> TrimSpace(raw) == "" || TrimSpace(raw)[0] == '#'
  {
    var front, back := EveryLineIsPadded(raw);
    if AllSpace(raw) {
      TrimOfSpace(raw);
    }
    forall front, line, back | Pads(raw, front, line, back)
      ensures TrimSpace(raw) == line
    {
      TrimOfPadded(raw, front, line, back);
    }
  }

  lemma ShowsIff(raw: string, line: string)
    ensures Shows(raw, line) <==> line == TrimSpace(raw) && line != "" && line[0] != '#'
  {
    var front, back := EveryLineIsPadded(raw);
    forall front, back | Pads(raw, front, line, back)
      ensures TrimSpace(raw) == line
    {
      TrimOfPadded(raw, front, line, back);
    }
  }

  /** What is kept of raw lines is exactly the list they are a way of writing. */
  lemma {:induction false} KeepIff(raw: seq<string>, lines: seq<string>)
    ensures Keep(raw) == lines <==> Written(raw, lines)
  {
    if raw != [] {
      var init, last := raw[..|raw| - 1], raw[|raw| - 1];
      var line := TrimSpace(last);
      IdleIff(last);
      KeepIff(init, lines);
      if lines != [] {
        ShowsIff(last, lines[|lines| - 1]);
        KeepIff(init, lines[..|lines| - 1]);
        assert lines == lines[..|lines| - 1] + [lines[|lines| - 1]];
      }
    }
  }

  // ---- Texts ----

  /** What is left of a text line when the scanner has dropped a carriage return at its end. */
  function DropReturns(raw: seq<string>): seq<string> {
    if raw == [] then [] else [DropCarriageReturn(raw[0])] + DropReturns(raw[1..])
  }

  /** Lines of a text, none too long; the last one is not empty, as it would not count as a line. */
  predicate TextLines(raw: seq<string>) {
    && (forall i :: 0 <= i < |raw| ==> OneLine(raw[i]) && ByteLength(raw[i]) < MAX_LINE)
    && (raw != [] ==> raw[|raw| - 1] != "")
  }

  lemma ScanLine(line: string, s: string)
    requires OneLine(line) && ByteLength(line) < MAX_LINE
    ensures Scan(line + ['\n'] + s) == [DropCarriageReturn(line)] + Scan(s)
    ensures line != "" ==> Scan(line) == [DropCarriageReturn(line)]
  {
    ReadLine("", line, "");
    assert line + "" == line && "" + line == line;
    assert line + ['\n'] + s == line + (['\n'] + s);
    ReadLine("", line, ['\n'] + s);
    assert (['\n'] + s)[1..] == s;
  }

  /** Scanning a text of any such lines gives them back without carriage returns at their ends. */
  lemma {:induction false} ScanOfText(raw: seq<string>)
    requires TextLines(raw)
    ensures Scan(Join(raw, '\n')) == DropReturns(raw)
  {
    if |raw| == 1 {
      ScanLine(raw[0], "");
    } else if |raw| > 1 {
      ScanLine(raw[0], Join(raw[1..], '\n'));
      ScanOfText(raw[1..]);
    }
  }

  lemma ReturnedLine(line: string, s: string)
    requires OneLine(line) && ByteLength(line) < 65535
    ensures Scan(line + ['\r'] + ['\n'] + s) == [line] + Scan(s)
  {
    ByteLengthOfConcat(line, ['\r']);
    assert ['\r'][1..] == "";
    ScanLine(line + ['\r'], s);
    assert (line + ['\r'])[..|line|] == line;
  }

  lemma LongLine(line: string, s: string)
    requires OneLine(line) && ByteLength(line) >= 65536
    ensures Scan(line + ['\n'] + s) == []
  {
    assert line + ['\n'] + s == line + (['\n'] + s) && "" + line == line;
    ReadLine("", line, ['\n'] + s);
  }

  /** Either line ending ends a line, and a line of 64 KiB or more ends the scan. */
  lemma LineEnds(line: string, s: string)
    requires OneLine(line) && (line != "" ==> line[|line| - 1] != '\r')
    ensures ByteLength(line) < 65535 ==>
              Scan(line + ['\n'] + s) == Scan(line + ['\r'] + ['\n'] + s) == [line] + Scan(s)
    ensures ByteLength(line) >= 65536 ==> Scan(line + ['\n'] + s) == []
  {
    if ByteLength(line) < 65535 {
      ScanLine(line, s);
      ReturnedLine(line, s);
    } else if ByteLength(line) >= 65536 {
      LongLine(line, s);
    }
  }

  /** The text in which every line ends with a line feed. */
  function Terminated(raw: seq<string>): string {
    if raw == [] then "" else raw[0] + ['\n'] + Terminated(raw[1..])
  }

  lemma {:induction false} ScanOfTerminated(raw: seq<string>)
    requires forall i :: 0 <= i < |raw| ==> OneLine(raw[i]) && ByteLength(raw[i]) < MAX_LINE
    ensures Scan(Terminated(raw)) == DropReturns(raw)
  {
    if raw != [] {
      ScanLine(raw[0], Terminated(raw[1..]));
      ScanOfTerminated(raw[1..]);
    }
  }

  /** A carriage return at the end of a line is white space like any other. */
  lemma TrimOfReturn(raw: string)
    ensures TrimSpace(DropCarriageReturn(raw)) == TrimSpace(raw)
  {
    var short := DropCarriageReturn(raw);
    if short != raw {
      assert raw == short + ['\r'];
      var front, back := EveryLineIsPadded(short);
      if TrimSpace(short) == "" {
        TrimOfSpace(raw);
      } else {
        assert raw == front + TrimSpace(short) + (back + ['\r']);
        TrimOfPadded(raw, front, TrimSpace(short), back + ['\r']);
      }
    }
  }

  lemma {:induction false} ReturnsDropped(raw: seq<string>, i: nat)
    ensures |DropReturns(raw)| == |raw| && (i < |raw| ==> DropReturns(raw)[i] == DropCarriageReturn(raw[i]))
  {
    if raw != [] {
      ReturnsDropped(raw[1..], if i > 0 then i - 1 else 0);
    }
  }

  lemma {:induction false} KeepAgrees(a: seq<string>, b: seq<string>)
    requires |a| == |b| && forall i :: 0 <= i < |a| ==> TrimSpace(a[i]) == TrimSpace(b[i])
    ensures Keep(a) == Keep(b)
  {
    if a != [] {
      KeepAgrees(a[..|a| - 1], b[..|b| - 1]);
    }
  }

  lemma KeepWithoutReturns(raw: seq<string>)
    ensures Keep(DropReturns(raw)) == Keep(raw)
  {
    ReturnsDropped(raw, 0);
    forall i | 0 <= i < |raw|
      ensures TrimSpace(DropReturns(raw)[i]) == TrimSpace(raw[i])
    {
      ReturnsDropped(raw, i);
      TrimOfReturn(raw[i]);
    }
    KeepAgrees(DropReturns(raw), raw);
  }

  // ---- Words among any white space ----

  /** The text is the given words in order, with white space between them and possibly around. */
  ghost predicate Spread(s: string, words: seq<string>)
    decreases |words|
  {
    if words == [] then AllSpace(s) else exists front, rest :: SpreadFirst(s, front, words[0], rest) && Spread(rest, words[1..])
  }

  ghost predicate SpreadFirst(s: string, front: string, word: string, rest: string) {
    s == front + word + rest && AllSpace(front) && IsWord(word) && (rest == "" || IsSpace(rest[0]))
  }

  lemma {:induction false} SkipSpaces(front: string, rest: string)
    requires AllSpace(front)
    ensures Fields(front + rest) == Fields(rest)
    decreases front
  {
    if front == "" {
      assert front + rest == rest;
    } else {
      assert (front + rest)[1..] == front[1..] + rest;
      SkipSpaces(front[1..], rest);
    }
  }

  lemma FirstField(s: string, front: string, word: string, rest: string)
    requires SpreadFirst(s, front, word, rest)
    ensures Fields(s) == [word] + Fields(rest)
  {
    assert s == front + (word + rest);
    SkipSpaces(front, word + rest);
    ReadWord("", word, rest);
    assert "" + word == word;
  }

  lemma {:induction false} FieldsOfSpread(s: string, words: seq<string>)
    requires Spread(s, words)
    ensures Fields(s) == words
    decreases |words|
  {
    if words == [] {
      SkipSpaces(s, "");
      assert s + "" == s;
    } else {
      var front, rest :| SpreadFirst(s, front, words[0], rest) && Spread(rest, words[1..]);
      FirstField(s, front, words[0], rest);
      FieldsOfSpread(rest, words[1..]);
    }
  }

  lemma {:induction false} WordBefore(s: string) returns (word: string, rest: string)
    ensures s == word + rest && NoSpace(word) && (rest == "" || IsSpace(rest[0]))
  {
    if s == "" || IsSpace(s[0]) {
      word, rest := "", s;
    } else {
      word, rest := WordBefore(s[1..]);
      word := [s[0]] + word;
    }
  }

  lemma {:induction false} SpreadOfFields(s: string)
    ensures Spread(s, Fields(s))
    decreases |s|
  {
    var front := SpaceBefore(s);
    var tail := DropSpaces(s);
    var i := DroppedFront(s);
    if tail == "" {
      assert s == front;
      SkipSpaces(s, "");
      assert s + "" == s;
    } else {
      var word, rest := WordBefore(tail);
      assert s == front + word + rest && SpreadFirst(s, front, word, rest);
      FirstField(s, front, word, rest);
      SpreadOfFields(rest);
      assert Fields(s)[0] == word && Fields(s)[1..] == Fields(rest);
    }
  }

  /** The fields of a text are exactly the words it spreads. */
  lemma FieldsIff(s: string, words: seq<string>)
    ensures Fields(s) == words <==> Spread(s, words)
  {
    SpreadOfFields(s);
    if Spread(s, words) {
      FieldsOfSpread(s, words);
    }
  }

  lemma {:induction false} FieldsWithSpaceAfter(word: string, s: string, c: char)
    requires IsSpace(c)
    ensures FieldsFrom(word, s + [c]) == FieldsFrom(word, s)
    decreases s
  {
    if s == "" {
      assert (s + [c])[1..] == "";
    } else {
      assert (s + [c])[1..] == s[1..] + [c];
      if IsSpace(s[0]) {
        FieldsWithSpaceAfter("", s[1..], c);
      } else {
        FieldsWithSpaceAfter(word + [s[0]], s[1..], c);
      }
    }
  }

  lemma {:induction false} FieldsWithoutTrailing(s: string)
    ensures Fields(DropTrailingSpaces(s)) == Fields(s)
  {
    if s != "" && IsSpace(s[|s| - 1]) {
      FieldsWithoutTrailing(s[..|s| - 1]);
      assert s == s[..|s| - 1] + [s[|s| - 1]];
      FieldsWithSpaceAfter("", s[..|s| - 1], s[|s| - 1]);
    }
  }

  /** Trimming a text does not change its words. */
  lemma FieldsOfTrimSpace(s: string)
    ensures Fields(TrimSpace(s)) == Fields(s)
  {
    FieldsWithoutTrailing(DropSpaces(s));
    var front := SpaceBefore(s);
    SkipSpaces(front, DropSpaces(s));
  }

  // ---- Numbers and quotes by their form ----

  /** A number is read exactly if it has the form of an optionally signed sequence of digits and fits 64 bits. */
  lemma AtoiMeans(digits: string)
    requires AllDigits(digits)
    ensures Atoi(digits) == Atoi("+" + digits) == if FitsInt64(DigitsValue(digits)) then Some(DigitsValue(digits)) else None
    ensures Atoi("-" + digits) == if FitsInt64(0 - DigitsValue(digits)) then Some(0 - DigitsValue(digits)) else None
  {
    assert IsDigit(digits[0]);
    assert ("+" + digits)[1..] == digits && ("-" + digits)[1..] == digits;
  }

  lemma AtoiHasForm(s: string) returns (digits: string)
    requires Atoi(s).Some?
    ensures AllDigits(digits) && (s == digits || s == "+" + digits || s == "-" + digits)
  {
    digits := if s[0] == '-' || s[0] == '+' then s[1..] else s;
  }

  predicate AllQuotes(s: string) {
    forall i :: 0 <= i < |s| ==> s[i] == QUOTE
  }

  lemma {:induction false} LeftQuotesDropped(front: string, rest: string)
    requires AllQuotes(front) && (rest != "" ==> rest[0] != QUOTE)
    ensures TrimLeftQuotes(front + rest) == rest
    decreases front
  {
    if front == "" {
      assert front + rest == rest;
    } else {
      assert (front + rest)[1..] == front[1..] + rest;
      LeftQuotesDropped(front[1..], rest);
    }
  }

  lemma {:induction false} RightQuotesDropped(rest: string, back: string)
    requires AllQuotes(back) && (rest != "" ==> rest[|rest| - 1] != QUOTE)
    ensures TrimRightQuotes(rest + back) == rest
    decreases back
  {
    if back == "" {
      assert rest + back == rest;
    } else {
      assert (rest + back)[..|rest + back| - 1] == rest + back[..|back| - 1];
      RightQuotesDropped(rest, back[..|back| - 1]);
    }
  }

  /** All quotes around a text go, and none inside it. */
  lemma QuotesAroundDropped(front: string, text: string, back: string)
    requires AllQuotes(front) && AllQuotes(back) && text != "" && text[0] != QUOTE && text[|text| - 1] != QUOTE
    ensures TrimQuotes(front + text + back) == text
  {
    assert front + text + back == front + (text + back);
    LeftQuotesDropped(front, text + back);
    RightQuotesDropped(text, back);
  }
}
