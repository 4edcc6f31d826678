/**
 * Ordered markers in a serial log, and the report that lists where they were
 * found (scripts/verify_marker_sequence.py).
 */
module MarkerSequence {
  import opened Wrappers
  import opened Text

  /** The regular-expression engine: which patterns compile, and which lines they are found in. */
  datatype Engine = Engine(compiles: string -> bool, found: (string, string) -> bool)

  datatype Match = Match(pattern: string, lineNumber: nat)

  datatype MarkerError =
    | NoMarkers
    | EmptyMarker
    | InvalidMarker(pattern: string)
    | Missing(afterLine: nat, pattern: string)

  /** Marker `i` is found in line `at[i]` (counted from 0), each marker after the one before. */
  ghost predicate Embeds(engine: Engine, lines: seq<string>, patterns: seq<string>, at: seq<nat>) {
    && |at| == |patterns|
    && (forall i | 0 <= i < |at| :: at[i] < |lines| && engine.found(patterns[i], lines[at[i]]))
    && (forall i, j | 0 <= i < j < |at| :: at[i] < at[j])
  }

  ghost predicate Embeddable(engine: Engine, lines: seq<string>, patterns: seq<string>) {
    exists at :: Embeds(engine, lines, patterns, at)
  }

  /** No embedding puts any marker on an earlier line. */
  ghost predicate Earliest(engine: Engine, lines: seq<string>, patterns: seq<string>, at: seq<nat>) {
    && Embeds(engine, lines, patterns, at)
    && forall other | Embeds(engine, lines, patterns, other) :: forall i | 0 <= i < |at| :: at[i] <= other[i]
  }

  predicate Usable(engine: Engine, pattern: string) {
    pattern != "" && engine.compiles(pattern)
  }

  predicate UsableUpTo(engine: Engine, patterns: seq<string>, k: nat)
    requires k <= |patterns|
  {
    forall i | 0 <= i < k :: Usable(engine, patterns[i])
  }

  /** Where the search for the next marker begins. */
  ghost function Cursor(at: seq<nat>): nat {
    if at == [] then 0 else at[|at| - 1] + 1
  }

  ghost function Positions(matches: seq<Match>): seq<nat>
    requires forall m | m in matches :: m.lineNumber > 0
  {
    seq(|matches|, i requires 0 <= i < |matches| => matches[i].lineNumber - 1)
  }

  /** Marker `k` ends the shortest prefix that cannot be embedded; the ones before it end at line `afterLine`. */
  ghost predicate StuckAt(engine: Engine, lines: seq<string>, patterns: seq<string>, k: nat, afterLine: nat)
    requires k < |patterns|
  {
    && !Embeddable(engine, lines, patterns[..k + 1])
    && exists at :: Earliest(engine, lines, patterns[..k], at) && afterLine == Cursor(at)
  }

  /** The verdict on a log, stated without saying how to find it. */
  ghost predicate Verdict(engine: Engine, lines: seq<string>, patterns: seq<string>,
                          result: Result<seq<Match>, MarkerError>) {
    match result
    case Ok(matches) =>
      && patterns != [] && UsableUpTo(engine, patterns, |patterns|)
      && |matches| == |patterns|
      && (forall i | 0 <= i < |matches| :: matches[i].pattern == patterns[i] && matches[i].lineNumber > 0)
      && Earliest(engine, lines, patterns, Positions(matches))
    case Err(NoMarkers) => patterns == []
    case Err(EmptyMarker) =>
      exists k | 0 <= k < |patterns| ::
        patterns[k] == "" && UsableUpTo(engine, patterns, k)
    case Err(InvalidMarker(pattern)) =>
      exists k | 0 <= k < |patterns| ::
        patterns[k] == pattern != "" && !engine.compiles(pattern) && UsableUpTo(engine, patterns, k)
    case Err(Missing(afterLine, pattern)) =>
      && UsableUpTo(engine, patterns, |patterns|)
      && exists k | 0 <= k < |patterns| :: patterns[k] == pattern && StuckAt(engine, lines, patterns, k, afterLine)
  }

  lemma EmbedsPrefix(engine: Engine, lines: seq<string>, patterns: seq<string>, at: seq<nat>, k: nat)
    requires Embeds(engine, lines, patterns, at) && k <= |patterns|
    ensures Embeds(engine, lines, patterns[..k], at[..k])
  {
  }

  /** One step of the greedy search keeps the embedding earliest. */
  lemma {:induction false} Extend(engine: Engine, lines: seq<string>, patterns: seq<string>, at: seq<nat>,
                                  pattern: string, index: nat)
    requires Earliest(engine, lines, patterns, at)
    requires Cursor(at) <= index < |lines| && engine.found(pattern, lines[index])
    requires forall i | Cursor(at) <= i < index :: !engine.found(pattern, lines[i])
    ensures Earliest(engine, lines, patterns + [pattern], at + [index])
  {
    forall other | Embeds(engine, lines, patterns + [pattern], other)
      ensures forall i | 0 <= i < |at| + 1 :: (at + [index])[i] <= other[i]
    {
      LastIsLater(engine, lines, patterns, at, pattern, other);
    }
  }

  lemma {:induction false} LastIsLater(engine: Engine, lines: seq<string>, patterns: seq<string>, at: seq<nat>,
                                       pattern: string, other: seq<nat>)
    requires Earliest(engine, lines, patterns, at) && Embeds(engine, lines, patterns + [pattern], other)
    ensures forall i | 0 <= i < |at| :: at[i] <= other[i]
    ensures Cursor(at) <= other[|at|] < |lines| && engine.found(pattern, lines[other[|at|]])
  {
    assert (patterns + [pattern])[..|patterns|] == patterns;
    EmbedsPrefix(engine, lines, patterns + [pattern], other, |patterns|);
    assert Embeds(engine, lines, patterns, other[..|patterns|]);
    assert forall i | 0 <= i < |at| :: at[i] <= other[..|patterns|][i];
  }

  /** If the greedy search fails, no embedding exists at all. */
  lemma {:induction false} NoneLeft(engine: Engine, lines: seq<string>, patterns: seq<string>, at: seq<nat>,
                                    pattern: string)
    requires Earliest(engine, lines, patterns, at)
    requires forall i | Cursor(at) <= i < |lines| :: !engine.found(pattern, lines[i])
    ensures !Embeddable(engine, lines, patterns + [pattern])
  {
    if other :| Embeds(engine, lines, patterns + [pattern], other) {
      LastIsLater(engine, lines, patterns, at, pattern, other);
    }
  }

  method VerifySequence(engine: Engine, lines: seq<string>, patterns: seq<string>)
    returns (result: Result<seq<Match>, MarkerError>)
    ensures Verdict(engine, lines, patterns, result)
  {
    if patterns == [] {
      return Err(NoMarkers);
    }
    for i := 0 to |patterns|
      invariant UsableUpTo(engine, patterns, i)
    {
      if patterns[i] == "" {
        return Err(EmptyMarker);
      }
      if !engine.compiles(patterns[i]) {
        return Err(InvalidMarker(patterns[i]));
      }
    }
    var cursor: nat := 0;
    var matches: seq<Match> := [];
    ghost var at: seq<nat> := [];
    for k := 0 to |patterns|
      invariant |matches| == k && cursor == Cursor(at) <= |lines|
      invariant Earliest(engine, lines, patterns[..k], at)
      invariant forall i | 0 <= i < k ::
        matches[i].pattern == patterns[i] && matches[i].lineNumber > 0 && at[i] == matches[i].lineNumber - 1
    {
      assert patterns[..k + 1] == patterns[..k] + [patterns[k]];
      var index := cursor;
      while index < |lines| && !engine.found(patterns[k], lines[index])
        invariant cursor <= index <= |lines|
        invariant forall i | cursor <= i < index :: !engine.found(patterns[k], lines[i])
      {
        index := index + 1;
      }
      if index == |lines| {
        NoneLeft(engine, lines, patterns[..k], at, patterns[k]);
        assert StuckAt(engine, lines, patterns, k, cursor);
        return Err(Missing(cursor, patterns[k]));
      }
      Extend(engine, lines, patterns[..k], at, patterns[k], index);
      matches := matches + [Match(patterns[k], index + 1)];
      at := at + [index];
      cursor := index + 1;
    }
    assert patterns[..|patterns|] == patterns;
    assert Positions(matches) == at;
    return Ok(matches);
  }

  /** Acceptance is exactly the existence of an embedding of usable markers. */
  lemma {:induction false} AcceptsExactlyEmbeddable(engine: Engine, lines: seq<string>, patterns: seq<string>,
                                 result: Result<seq<Match>, MarkerError>)
    requires Verdict(engine, lines, patterns, result)
    ensures result.Ok? <==>
      patterns != [] && UsableUpTo(engine, patterns, |patterns|) && Embeddable(engine, lines, patterns)
  {
    match result
    case Ok(matches) =>
    case Err(NoMarkers) =>
    case Err(EmptyMarker) => assert exists k | 0 <= k < |patterns| :: !Usable(engine, patterns[k]);
    case Err(InvalidMarker(_)) => assert exists k | 0 <= k < |patterns| :: !Usable(engine, patterns[k]);
    case Err(Missing(_, _)) =>
      var k :| 0 <= k < |patterns| && patterns[k] == result.error.pattern
        && StuckAt(engine, lines, patterns, k, result.error.afterLine);
      PrefixEmbeds(engine, lines, patterns, k + 1);
  }

  lemma {:induction false} PrefixEmbeds(engine: Engine, lines: seq<string>, patterns: seq<string>, k: nat)
    requires k <= |patterns|
    ensures Embeddable(engine, lines, patterns) ==> Embeddable(engine, lines, patterns[..k])
  {
    if at :| Embeds(engine, lines, patterns, at) {
      EmbedsPrefix(engine, lines, patterns, at, k);
    }
  }

  lemma {:induction false} Shorter(engine: Engine, lines: seq<string>, patterns: seq<string>, few: nat, many: nat)
    requires few <= many <= |patterns|
    ensures Embeddable(engine, lines, patterns[..many]) ==> Embeddable(engine, lines, patterns[..few])
  {
    PrefixEmbeds(engine, lines, patterns[..many], few);
    assert patterns[..many][..few] == patterns[..few];
  }

  lemma {:induction false} EarliestIsUnique(engine: Engine, lines: seq<string>, patterns: seq<string>, left: seq<nat>,
                                            right: seq<nat>)
    requires Earliest(engine, lines, patterns, left) && Earliest(engine, lines, patterns, right)
    ensures left == right
  {
    forall i | 0 <= i < |left|
      ensures left[i] == right[i]
    {
      assert left[i] <= right[i] && right[i] <= left[i];
    }
  }

  lemma {:induction false} StuckIsUnique(engine: Engine, lines: seq<string>, patterns: seq<string>, j: nat, k: nat,
                                         a: nat, b: nat)
    requires j < |patterns| && k < |patterns|
    requires StuckAt(engine, lines, patterns, j, a) && StuckAt(engine, lines, patterns, k, b)
    ensures j == k && a == b
  {
    var at :| Earliest(engine, lines, patterns[..j], at) && a == Cursor(at);
    var other :| Earliest(engine, lines, patterns[..k], other) && b == Cursor(other);
    Shorter(engine, lines, patterns, if k < j then k + 1 else j, j);
    Shorter(engine, lines, patterns, if j < k then j + 1 else k, k);
    EarliestIsUnique(engine, lines, patterns[..j], at, other);
  }

  lemma FirstUnusable(engine: Engine, patterns: seq<string>, j: nat, k: nat)
    requires j < |patterns| && k < |patterns|
    requires !Usable(engine, patterns[j]) && !Usable(engine, patterns[k])
    requires UsableUpTo(engine, patterns, j)
    requires UsableUpTo(engine, patterns, k)
    ensures j == k
  {
  }

  /** The verdict determines the result: the line numbers, or which error and which marker it names. */
  lemma {:induction false} VerdictIsUnique(engine: Engine, lines: seq<string>, patterns: seq<string>,
                        left: Result<seq<Match>, MarkerError>, right: Result<seq<Match>, MarkerError>)
    requires Verdict(engine, lines, patterns, left) && Verdict(engine, lines, patterns, right)
    ensures left == right
  {
    AcceptsExactlyEmbeddable(engine, lines, patterns, left);
    AcceptsExactlyEmbeddable(engine, lines, patterns, right);
    if left.Ok? {
      EarliestIsUnique(engine, lines, patterns, Positions(left.value), Positions(right.value));
      forall i | 0 <= i < |patterns|
        ensures left.value[i] == right.value[i]
      {
        assert Positions(left.value)[i] == Positions(right.value)[i];
      }
      assert left.value == right.value;
    } else if left.error.Missing? && right.error.Missing? {
      var j :| 0 <= j < |patterns| && patterns[j] == left.error.pattern
        && StuckAt(engine, lines, patterns, j, left.error.afterLine);
      var k :| 0 <= k < |patterns| && patterns[k] == right.error.pattern
        && StuckAt(engine, lines, patterns, k, right.error.afterLine);
      StuckIsUnique(engine, lines, patterns, j, k, left.error.afterLine, right.error.afterLine);
    } else if !left.error.NoMarkers? && !left.error.Missing? {
      var j := BadMarker(engine, lines, patterns, left);
      var k := BadMarker(engine, lines, patterns, right);
      FirstUnusable(engine, patterns, j, k);
    }
  }

  lemma {:induction false} BadMarker(engine: Engine, lines: seq<string>, patterns: seq<string>,
                                     result: Result<seq<Match>, MarkerError>)
    returns (k: nat)
    requires Verdict(engine, lines, patterns, result)
    requires exists i | 0 <= i < |patterns| :: !Usable(engine, patterns[i])
    ensures k < |patterns| && !Usable(engine, patterns[k]) && UsableUpTo(engine, patterns, k)
    ensures result == Err(if patterns[k] == "" then EmptyMarker else InvalidMarker(patterns[k]))
  {
    if result.Err? && result.error.EmptyMarker? {
      k :| 0 <= k < |patterns| && patterns[k] == "" && UsableUpTo(engine, patterns, k);
    } else {
      k :| 0 <= k < |patterns| && !Usable(engine, patterns[k]) && patterns[k] != ""
        && UsableUpTo(engine, patterns, k) && result == Err(InvalidMarker(patterns[k]));
    }
  }

  // ----------------------------------------------------------------- the report

  function Replace(text: string, c: char, with: string): string {
    if text == "" then "" else (if text[0] == c then with else [text[0]]) + Replace(text[1..], c, with)
  }

  /** Four replacements, one after another. */
  function TsvEscape(value: string): string {
    Replace(Replace(Replace(Replace(value, '\\', "\\\\"), '\t', "\\t"), '\r', "\\r"), '\n', "\\n")
  }

  function EscapedChar(c: char): string {
    match c
    case '\\' => "\\\\"
    case '\t' => "\\t"
    case '\r' => "\\r"
    case '\n' => "\\n"
    case _ => [c]
  }

  /** All four at once. */
  function OnePass(value: string): string {
    if value == "" then "" else EscapedChar(value[0]) + OnePass(value[1..])
  }

  predicate Control(c: char) {
    c == '\t' || c == '\r' || c == '\n'
  }

  function Unescape(text: string): Option<string> {
    if text == "" then Some("")
    else if Control(text[0]) then None
    else if text[0] != '\\' then
      match Unescape(text[1..])
      case None => None
      case Some(rest) => Some([text[0]] + rest)
    else if |text| == 1 || text[1] !in "\\trn" then None
    else
      match Unescape(text[2..])
      case None => None
      case Some(rest) =>
        Some([match text[1] case 't' => '\t' case 'r' => '\r' case 'n' => '\n' case _ => '\\'] + rest)
  }

  lemma Associative(a: string, b: string, c: string)
    ensures a + (b + c) == a + b + c
  {
  }

  lemma {:induction false} ReplaceConcat(left: string, right: string, c: char, with: string)
    ensures Replace(left + right, c, with) == Replace(left, c, with) + Replace(right, c, with)
  {
    if left == "" {
      assert left + right == right;
    } else {
      ReplaceConcat(left[1..], right, c, with);
      assert (left + right)[0] == left[0] && (left + right)[1..] == left[1..] + right;
      Associative(if left[0] == c then with else [left[0]], Replace(left[1..], c, with), Replace(right, c, with));
    }
  }

  lemma {:induction false} ReplaceOne(c: char, other: char, with: string)
    ensures Replace([c], other, with) == if c == other then with else [c]
  {
    assert [c][1..] == "";
    assert Replace([c][1..], other, with) == "";
  }

  lemma {:induction false} ReplaceTwo(a: char, b: char, other: char, with: string)
    requires a != other && b != other
    ensures Replace([a, b], other, with) == [a, b]
  {
    assert [a, b] == [a] + [b];
    ReplaceConcat([a], [b], other, with);
    ReplaceOne(a, other, with);
    ReplaceOne(b, other, with);
  }

  lemma {:induction false} EscapeOne(c: char)
    ensures TsvEscape([c]) == EscapedChar(c)
  {
    ReplaceOne(c, '\\', "\\\\");
    ReplaceOne(c, '\t', "\\t");
    ReplaceOne(c, '\r', "\\r");
    ReplaceOne(c, '\n', "\\n");
    ReplaceTwo('\\', '\\', '\t', "\\t");
    ReplaceTwo('\\', '\\', '\r', "\\r");
    ReplaceTwo('\\', '\\', '\n', "\\n");
    ReplaceTwo('\\', 't', '\r', "\\r");
    ReplaceTwo('\\', 't', '\n', "\\n");
    ReplaceTwo('\\', 'r', '\n', "\\n");
  }

  lemma {:induction false} EscapeConcat(left: string, right: string)
    ensures TsvEscape(left + right) == TsvEscape(left) + TsvEscape(right)
  {
    ReplaceConcat(left, right, '\\', "\\\\");
    var l1, r1 := Replace(left, '\\', "\\\\"), Replace(right, '\\', "\\\\");
    ReplaceConcat(l1, r1, '\t', "\\t");
    var l2, r2 := Replace(l1, '\t', "\\t"), Replace(r1, '\t', "\\t");
    ReplaceConcat(l2, r2, '\r', "\\r");
    ReplaceConcat(Replace(l2, '\r', "\\r"), Replace(r2, '\r', "\\r"), '\n', "\\n");
  }

  /** The chain of replacements never escapes what an earlier one wrote. */
  lemma {:induction false} EscapeIsOnePass(value: string)
    ensures TsvEscape(value) == OnePass(value)
  {
    if value == "" {
      assert TsvEscape("") == "";
    } else {
      EscapeOne(value[0]);
      EscapeIsOnePass(value[1..]);
      EscapeConcat([value[0]], value[1..]);
      assert value == [value[0]] + value[1..];
    }
  }

  lemma {:induction false} UnescapeStep(c: char, rest: string)
    requires Unescape(rest).Some?
    ensures Unescape(EscapedChar(c) + rest) == Some([c] + Unescape(rest).value)
    ensures forall x | x in EscapedChar(c) :: !Control(x)
  {
    var escaped := EscapedChar(c);
    var text := escaped + rest;
    assert text[0] == escaped[0] && text[|escaped|..] == rest;
    if |escaped| == 2 {
      assert text[1] == escaped[1] && text[2..] == rest;
    }
  }

  lemma {:induction false} UnescapeOfOnePass(value: string)
    ensures Unescape(OnePass(value)) == Some(value)
    ensures forall c | c in OnePass(value) :: !Control(c)
  {
    if value != "" {
      UnescapeOfOnePass(value[1..]);
      UnescapeStep(value[0], OnePass(value[1..]));
      assert value == [value[0]] + value[1..];
    }
  }

  /** Escaping loses nothing and writes neither of the characters that separate fields and rows. */
  lemma {:induction false} UnescapeOfEscape(value: string)
    ensures Unescape(TsvEscape(value)) == Some(value)
    ensures forall c | c in TsvEscape(value) :: !Control(c)
  {
    EscapeIsOnePass(value);
    UnescapeOfOnePass(value);
  }

  lemma {:induction false} EscapeIsInjective(left: string, right: string)
    requires TsvEscape(left) == TsvEscape(right)
    ensures left == right
  {
    UnescapeOfEscape(left);
    UnescapeOfEscape(right);
  }

  /** What unescaping accepts are exactly the escaped texts. */
  lemma {:induction false} EscapeOfUnescape(text: string)
    requires Unescape(text).Some?
    ensures TsvEscape(Unescape(text).value) == text
  {
    EscapeIsOnePass(Unescape(text).value);
    OnePassOfUnescape(text);
  }

  lemma {:induction false} OnePassOfUnescape(text: string)
    requires Unescape(text).Some?
    ensures OnePass(Unescape(text).value) == text
  {
    if text != "" {
      var value := Unescape(text).value;
      var width := if text[0] == '\\' then 2 else 1;
      OnePassOfUnescape(text[width..]);
      assert value[1..] == Unescape(text[width..]).value;
      assert EscapedChar(value[0]) == text[..width];
      assert text == text[..width] + text[width..];
    }
  }

  const HEADER := "marker\tline_number"

  function Row(m: Match): string {
    TsvEscape(m.pattern) + "\t" + Decimal(m.lineNumber)
  }

  function Join(parts: seq<string>, separator: char): string {
    if parts == [] then ""
    else if |parts| == 1 then parts[0]
    else parts[0] + [separator] + Join(parts[1..], separator)
  }

  function Body(matches: seq<Match>): seq<string> {
    [HEADER] + seq(|matches|, i requires 0 <= i < |matches| => Row(matches[i]))
  }

  /** The text of the report. */
  function Report(matches: seq<Match>): string {
    Join(Body(matches), '\n') + "\n"
  }

  function Split(text: string, separator: char): (parts: seq<string>)
    ensures |parts| > 0
  {
    if text == "" then [""]
    else
      var rest := Split(text[1..], separator);
      if text[0] == separator then [""] + rest else [[text[0]] + rest[0]] + rest[1..]
  }

  function ParseRow(row: string): Option<Match> {
    var fields := Split(row, '\t');
    if |fields| != 2 then None
    else if Unescape(fields[0]).None? || ParseDecimal(fields[1]).None? then None
    else Some(Match(Unescape(fields[0]).value, ParseDecimal(fields[1]).value))
  }

  function ParseRows(rows: seq<string>): Option<seq<Match>> {
    if rows == [] then Some([])
    else match ParseRow(rows[0])
      case None => None
      case Some(m) =>
        match ParseRows(rows[1..])
        case None => None
        case Some(rest) => Some([m] + rest)
  }

  function ParseReport(text: string): Option<seq<Match>> {
    var rows := Split(text, '\n');
    if |rows| < 2 || rows[0] != HEADER || rows[|rows| - 1] != "" then None
    else ParseRows(rows[1..|rows| - 1])
  }

  lemma {:induction false} SplitHead(head: string, tail: string, separator: char)
    requires separator !in head
    ensures Split(head + [separator] + tail, separator) == [head] + Split(tail, separator)
    ensures Split(head, separator) == [head]
  {
    var text := head + [separator] + tail;
    if head == "" {
      assert text[1..] == tail;
    } else {
      SplitHead(head[1..], tail, separator);
      assert text[1..] == head[1..] + [separator] + tail;
      assert [head[0]] + head[1..] == head;
    }
  }

  lemma {:induction false} SplitOfJoin(parts: seq<string>, separator: char)
    requires parts != [] && forall p | p in parts :: separator !in p
    ensures Split(Join(parts, separator) + [separator], separator) == parts + [""]
  {
    if |parts| == 1 {
      assert parts[0] + [separator] == parts[0] + [separator] + "";
      SplitHead(parts[0], "", separator);
    } else {
      SplitOfJoin(parts[1..], separator);
      var rest := Join(parts[1..], separator) + [separator];
      assert Join(parts, separator) + [separator] == parts[0] + [separator] + rest;
      SplitHead(parts[0], rest, separator);
    }
  }

  lemma {:induction false} ParseOfRow(m: Match)
    ensures ParseRow(Row(m)) == Some(m)
    ensures '\n' !in Row(m)
  {
    UnescapeOfEscape(m.pattern);
    ParseOfDecimal(m.lineNumber);
    SplitHead(TsvEscape(m.pattern), Decimal(m.lineNumber), '\t');
    SplitHead(Decimal(m.lineNumber), "", '\t');
  }

  lemma {:induction false} ParseOfRows(matches: seq<Match>)
    ensures ParseRows(Body(matches)[1..]) == Some(matches)
  {
    var rows := Body(matches)[1..];
    hide Row, ParseRow;
    if matches != [] {
      ParseOfRow(matches[0]);
      ParseOfRows(matches[1..]);
      assert rows[0] == Row(matches[0]) && rows[1..] == Body(matches[1..])[1..];
      assert [matches[0]] + matches[1..] == matches;
    }
  }

  /** The report gives back exactly the patterns and line numbers it was written from. */
  lemma {:induction false} ParseOfReport(matches: seq<Match>)
    ensures ParseReport(Report(matches)) == Some(matches)
    ensures "marker\tline_number\n" <= Report(matches)
  {
    hide Row, ParseRow, ParseRows, Split;
    var body := Body(matches);
    forall p | p in body
      ensures '\n' !in p
    {
      if p != HEADER {
        var i :| 0 <= i < |matches| && p == Row(matches[i]);
        ParseOfRow(matches[i]);
      }
    }
    SplitOfJoin(body, '\n');
    ParseOfRows(matches);
    assert (body + [""])[1..|body|] == body[1..];
  }
}
