/** Lines and IRC messages: the line splitter, the tokenizer and the printer (section 2.3.1 of RFC 1459
    describes the message format). */
module Irc {
  import opened Bytes
  import opened Framing

  const NEWLINE: byte := 10
  const RETURN: byte := 13
  const SPACE: byte := 32
  const COLON: byte := 58

  // ---------------------------------------------------------------------- lines

  const LINE_LIMIT := 4096

  /** QByteArray::indexOf from the start; the length when there is none. */
  function IndexOf(s: seq<byte>, c: byte): (i: nat)
    ensures i <= |s|
    ensures forall j | 0 <= j < i :: s[j] != c
    ensures i < |s| ==> s[i] == c
  {
    if s == [] then 0 else if s[0] == c then 0 else 1 + IndexOf(s[1..], c)
  }

  /** The splitter's decision. */
  function NextLine(s: seq<byte>): Step {
    var p := IndexOf(s, NEWLINE);
    if p == |s| then if |s| > LINE_LIMIT then Stop else Wait
    else if p > LINE_LIMIT then Stop
    else Take(p + 1)
  }

  lemma IndexOfAppend(s: seq<byte>, t: seq<byte>, c: byte)
    ensures IndexOf(s, c) < |s| ==> IndexOf(s + t, c) == IndexOf(s, c)
    ensures IndexOf(s, c) == |s| ==> IndexOf(s + t, c) >= |s|
  {
    if s != [] {
      IndexOfAppend(s[1..], t, c);
      assert (s + t)[1..] == s[1..] + t;
    }
  }

  lemma NextLineIsStable()
    ensures Stable(NextLine)
  {
    hide IndexOf;
    forall s: seq<byte>, t: seq<byte> ensures StableAt(NextLine, s, t) {
      IndexOfAppend(s, t, NEWLINE);
    }
  }

  predicate IsSpace(c: byte) {
    9 <= c <= 13 || c == 32
  }

  function TrimLeft(s: seq<byte>): seq<byte> {
    if s != [] && IsSpace(s[0]) then TrimLeft(s[1..]) else s
  }

  function TrimRight(s: seq<byte>): seq<byte> {
    if s != [] && IsSpace(s[|s| - 1]) then TrimRight(s[..|s| - 1]) else s
  }

  /** QByteArray::trimmed. */
  function Trim(s: seq<byte>): seq<byte> {
    TrimRight(TrimLeft(s))
  }

  /** What handleLine is called with. */
  function LineOf(unit: seq<byte>): seq<byte> {
    Trim(if unit == [] then [] else unit[..|unit| - 1])
  }

  /** A line is what stands between the white space around it: tabs, line ends, form feeds and spaces. */
  lemma LineIsTrimmed(left: seq<byte>, line: seq<byte>, right: seq<byte>)
    requires (forall c <- left :: c in {9, 10, 11, 12, 13, 32}) && (forall c <- right :: c in {9, 10, 11, 12, 13, 32})
    requires IsTrimmed(line)
    ensures LineOf(left + line + right + [NEWLINE]) == line
  {
    hide Trim;
    var unit := left + line + right + [NEWLINE];
    assert unit[..|unit| - 1] == left + line + right;
    TrimAround(left, line, right);
  }

  lemma TrimAround(left: seq<byte>, line: seq<byte>, right: seq<byte>)
    requires (forall c <- left :: IsSpace(c)) && (forall c <- right :: IsSpace(c)) && IsTrimmed(line)
    ensures Trim(left + line + right) == line
    decreases |left| + |right|
  {
    if left != [] {
      assert left[0] in left;
      assert forall c <- left[1..] :: c in left;
      assert (left + line + right)[1..] == left[1..] + line + right;
      TrimAround(left[1..], line, right);
    } else {
      assert left + line + right == line + right;
      if line == [] {
        AllSpaces(right);
        assert line + right == right;
      } else {
        assert TrimLeft(line + right) == line + right;
        TrimEnd(line, right);
      }
    }
  }

  lemma AllSpaces(s: seq<byte>)
    requires forall c <- s :: IsSpace(c)
    ensures TrimLeft(s) == []
    decreases |s|
  {
    if s != [] {
      assert s[0] in s;
      assert forall c <- s[1..] :: c in s;
      AllSpaces(s[1..]);
    }
  }

  lemma TrimEnd(line: seq<byte>, right: seq<byte>)
    requires line != [] && IsTrimmed(line) && forall c <- right :: IsSpace(c)
    ensures TrimRight(line + right) == line
    decreases |right|
  {
    if right == [] {
      assert line + right == line;
    } else {
      var front := right[..|right| - 1];
      assert right[|right| - 1] in right;
      assert forall c <- front :: c in right;
      assert (line + right)[..|line + right| - 1] == line + front;
      TrimEnd(line, front);
    }
  }

  function LinesOf(units: seq<seq<byte>>): seq<seq<byte>> {
    seq(|units|, i requires 0 <= i < |units| => LineOf(units[i]))
  }

  // ------------------------------------------------------------------ tokenizing

  predicate IsTrimmed(s: seq<byte>) {
    s != [] ==> !IsSpace(s[0]) && !IsSpace(s[|s| - 1])
  }

  function SkipSpaces(s: seq<byte>): (r: seq<byte>)
    ensures |r| <= |s|
  {
    if s != [] && s[0] == SPACE then SkipSpaces(s[1..]) else s
  }

  /** The words of a line; a word that starts with a colon, other than the first, takes all the rest. */
  function Words(s: seq<byte>, first: bool): seq<seq<byte>>
    decreases |s|
  {
    if s == [] then []
    else if s[0] == COLON && !first then [s[1..]]
    else
      var k := IndexOf(s, SPACE);
      if k == |s| then [s] else [s[..k]] + Words(SkipSpaces(s[k + 1..]), false)
  }

  /** prefix keeps its colon. */
  datatype Message = Message(prefix: seq<byte>, params: seq<seq<byte>>)

  /** What a non-empty line is taken apart into. */
  function Tokenize(line: seq<byte>): Message {
    var words := Words(line, true);
    if words != [] && words[0] != [] && words[0][0] == COLON then Message(words[0], words[1..])
    else Message([], words)
  }

  // -------------------------------------------------------------------- printing

  function PrintRest(params: seq<seq<byte>>, lastParamSpace: bool): seq<byte> {
    if params == [] then []
    else if |params| == 1 && lastParamSpace then [SPACE, COLON] + params[0]
    else [SPACE] + params[0] + PrintRest(params[1..], lastParamSpace)
  }

  /** sendReply without the line end. */
  function PrintLine(m: Message, lastParamSpace: bool): seq<byte> {
    (if m.prefix == [] then [] else m.prefix + [SPACE])
    + if m.params == [] then [] else m.params[0] + PrintRest(m.params[1..], lastParamSpace)
  }

  function Print(m: Message, lastParamSpace: bool): seq<byte> {
    PrintLine(m, lastParamSpace) + [RETURN, NEWLINE]
  }

  predicate IsMiddle(p: seq<byte>) {
    p != [] && SPACE !in p && p[0] != COLON
  }

  /** Prefix and parameters as RFC 1459 wants them: only a last parameter that is printed behind a colon
      is free. */
  predicate WellFormed(m: Message, lastParamSpace: bool) {
    && (m.prefix != [] ==> m.prefix[0] == COLON && SPACE !in m.prefix)
    && m.params != []
    && IsMiddle(m.params[0])
    && RestWellFormed(m.params[1..], lastParamSpace)
  }

  predicate RestWellFormed(params: seq<seq<byte>>, lastParamSpace: bool) {
    forall i | 0 <= i < |params| :: (lastParamSpace && i == |params| - 1) || IsMiddle(params[i])
  }

  lemma IndexOfWord(word: seq<byte>, rest: seq<byte>)
    requires SPACE !in word
    ensures IndexOf(word + [SPACE] + rest, SPACE) == |word| && IndexOf(word, SPACE) == |word|
  {
    var s := word + [SPACE] + rest;
    assert s[|word|] == SPACE;
    assert forall j | 0 <= j < |word| :: s[j] == word[j] && word[j] in word;
  }

  /** One word in front of a rest that does not start with a space. */
  lemma WordsOfWord(word: seq<byte>, rest: seq<byte>, first: bool)
    requires word != [] && SPACE !in word && (first || word[0] != COLON)
    requires rest != [] && rest[0] != SPACE
    ensures Words(word + [SPACE] + rest, first) == [word] + Words(rest, false)
  {
    hide IndexOf;
    var s := word + [SPACE] + rest;
    IndexOfWord(word, rest);
    assert s[..|word|] == word && s[|word| + 1..] == rest;
  }

  lemma LastWord(word: seq<byte>, first: bool)
    requires word != [] && SPACE !in word && (first || word[0] != COLON)
    ensures Words(word, first) == [word]
  {
    hide IndexOf;
    IndexOfWord(word, []);
  }

  /** A word followed by printed parameters. */
  lemma {:induction false} WordsOfPrinted(word: seq<byte>, params: seq<seq<byte>>, lastParamSpace: bool, first: bool)
    requires word != [] && SPACE !in word && (first || word[0] != COLON)
    requires RestWellFormed(params, lastParamSpace)
    ensures Words(word + PrintRest(params, lastParamSpace), first) == [word] + params
    decreases |params|
  {
    hide IndexOf, Words;
    if params == [] {
      LastWord(word, first);
      assert word + PrintRest(params, lastParamSpace) == word;
    } else if |params| == 1 && lastParamSpace {
      var rest := [COLON] + params[0];
      assert word + PrintRest(params, lastParamSpace) == word + [SPACE] + rest;
      WordsOfWord(word, rest, first);
      WordsOfTrailing(params[0]);
      assert [params[0]] == params;
    } else {
      assert IsMiddle(params[0]);
      var rest := params[0] + PrintRest(params[1..], lastParamSpace);
      assert word + PrintRest(params, lastParamSpace) == word + [SPACE] + rest;
      assert rest[0] == params[0][0];
      WordsOfWord(word, rest, first);
      WordsOfPrinted(params[0], params[1..], lastParamSpace, false);
      assert [params[0]] + params[1..] == params;
    }
  }

  lemma WordsOfTrailing(p: seq<byte>)
    ensures Words([COLON] + p, false) == [p]
  {
    assert ([COLON] + p)[1..] == p;
  }

  /** The tokenizer undoes the printer. */
  lemma PrintedIsTokenized(m: Message, lastParamSpace: bool)
    requires WellFormed(m, lastParamSpace)
    ensures Tokenize(PrintLine(m, lastParamSpace)) == m
  {
    hide IndexOf, Words, PrintRest;
    var first, rest := m.params[0], m.params[1..];
    assert [first] + rest == m.params;
    var body := first + PrintRest(rest, lastParamSpace);
    if m.prefix == [] {
      WordsOfPrinted(first, rest, lastParamSpace, true);
      assert PrintLine(m, lastParamSpace) == body;
    } else {
      assert body[0] == first[0];
      WordsOfPrinted(first, rest, lastParamSpace, false);
      WordsOfWord(m.prefix, body, true);
      assert PrintLine(m, lastParamSpace) == m.prefix + [SPACE] + body;
      assert ([m.prefix] + m.params)[1..] == m.params;
    }
  }

  // --------------------------------------------------- through the line splitter

  lemma TrimNothing(s: seq<byte>)
    requires IsTrimmed(s)
    ensures Trim(s) == s && TrimRight(s) == s
  {
  }

  lemma TrimReturn(s: seq<byte>)
    requires s != [] && IsTrimmed(s)
    ensures Trim(s + [RETURN]) == s
  {
    var t := s + [RETURN];
    assert t[0] == s[0] && t[..|t| - 1] == s;
    assert TrimLeft(t) == t;
    assert TrimRight(t) == TrimRight(s);
    TrimNothing(s);
  }

  /** A line that survives the splitter: no newline in it, nothing to trim, and short enough. */
  predicate Sendable(m: Message, lastParamSpace: bool) {
    var line := PrintLine(m, lastParamSpace);
    NEWLINE !in line && IsTrimmed(line) && |line| < LINE_LIMIT
  }

  lemma PrintedIsUnit(m: Message, lastParamSpace: bool)
    requires WellFormed(m, lastParamSpace) && Sendable(m, lastParamSpace)
    ensures IsUnit(NextLine, Print(m, lastParamSpace))
    ensures LineOf(Print(m, lastParamSpace)) == PrintLine(m, lastParamSpace) != []
  {
    hide PrintRest;
    var line, unit := PrintLine(m, lastParamSpace), Print(m, lastParamSpace);
    NewlineLast(line);
    assert line != [];
    assert unit[..|unit| - 1] == line + [RETURN];
    TrimReturn(line);
  }

  lemma NewlineLast(line: seq<byte>)
    requires NEWLINE !in line
    ensures IndexOf(line + [RETURN, NEWLINE], NEWLINE) == |line| + 1
  {
    var s := line + [RETURN, NEWLINE];
    assert s[|line| + 1] == NEWLINE;
    assert forall j | 0 <= j < |line| :: s[j] == line[j] && line[j] in line;
  }

  datatype Reply = Reply(message: Message, lastParamSpace: bool)

  predicate ReplyOk(r: Reply) {
    WellFormed(r.message, r.lastParamSpace) && Sendable(r.message, r.lastParamSpace)
  }

  function Printed(rs: seq<Reply>): seq<seq<byte>> {
    seq(|rs|, i requires 0 <= i < |rs| => Print(rs[i].message, rs[i].lastParamSpace))
  }

  /** Replies printed one after the other and read back in any chunks are the same messages: each is one
      line, in order, and each line is tokenized into its prefix and parameters. */
  lemma RepliesRoundTrip(rs: seq<Reply>, chunks: seq<seq<byte>>)
    requires (forall r <- rs :: ReplyOk(r)) && Concat(chunks) == Concat(Printed(rs))
    ensures Stable(NextLine)
    ensures var c := FeedAll(NextLine, Cut([], [], false), chunks);
            && c.left == [] && !c.stopped
            && var lines := LinesOf(c.units);
               |lines| == |rs| && forall i | 0 <= i < |rs| :: lines[i] != [] && Tokenize(lines[i]) == rs[i].message
  {
    hide NextLine, Print, Tokenize, LineOf, WellFormed, Sendable, FeedAll;
    NextLineIsStable();
    NothingWaits();
    ChunkIndependent(NextLine, [], chunks);
    var units := Printed(rs);
    assert [] + Concat(chunks) == Concat(units) + [];
    forall u <- units ensures IsUnit(NextLine, u) {
      var i :| 0 <= i < |rs| && u == Print(rs[i].message, rs[i].lastParamSpace);
      assert ReplyOk(rs[i]);
      PrintedIsUnit(rs[i].message, rs[i].lastParamSpace);
    }
    ParseUnits(NextLine, units, []);
    assert units + [] == units;
    forall i | 0 <= i < |rs| ensures LinesOf(units)[i] != [] && Tokenize(LinesOf(units)[i]) == rs[i].message {
      assert ReplyOk(rs[i]);
      PrintedIsUnit(rs[i].message, rs[i].lastParamSpace);
      PrintedIsTokenized(rs[i].message, rs[i].lastParamSpace);
    }
  }

  lemma NothingWaits()
    ensures NextLine([]) == Wait
    ensures Stable(NextLine) ==> Parse(NextLine, []) == Cut([], [], false)
  {
  }

  /** Lines delivered, and whether the connection is closed for a line of more than 4096 octets, do not
      depend on the reads. */
  lemma LinesDoNotDependOnReads(a: seq<seq<byte>>, b: seq<seq<byte>>)
    requires Concat(a) == Concat(b)
    ensures Stable(NextLine)
    ensures FeedAll(NextLine, Cut([], [], false), a) == FeedAll(NextLine, Cut([], [], false), b)
  {
    hide NextLine;
    NextLineIsStable();
    NothingWaits();
    ChunkIndependent(NextLine, [], a);
    ChunkIndependent(NextLine, [], b);
  }

  /** More than 4096 octets in a row without a newline, somewhere in the input. */
  ghost predicate HasLongLine(s: seq<byte>) {
    exists i: nat :: LongAt(s, i)
  }

  predicate LongAt(s: seq<byte>, i: nat) {
    i + LINE_LIMIT < |s| && NEWLINE !in s[i..i + LINE_LIMIT + 1]
  }

  /** The connection is closed exactly when the input has a line of more than 4096 octets, be it
      finished or not. */
  lemma {:induction false} ClosedIff(s: seq<byte>)
    ensures Stable(NextLine)
    ensures Parse(NextLine, s).stopped <==> HasLongLine(s)
    decreases |s|
  {
    hide NextLine, HasLongLine;
    NextLineIsStable();
    assert StableAt(NextLine, s, []);
    LongLineNext(s);
    if NextLine(s).Take? {
      ClosedIff(s[NextLine(s).n..]);
    }
  }

  lemma LongLineNext(s: seq<byte>)
    ensures match NextLine(s)
            case Wait => !HasLongLine(s)
            case Stop => HasLongLine(s)
            case Take(n) => 0 < n <= |s| && (HasLongLine(s) <==> HasLongLine(s[n..]))
  {
    hide IndexOf;
    var p := IndexOf(s, NEWLINE);
    if p > LINE_LIMIT {
      assert LongAt(s, 0);
    } else if p < |s| {
      LongLineBehind(s, p);
    }
  }

  lemma LongLineBehind(s: seq<byte>, p: nat)
    requires p < |s| && p <= LINE_LIMIT && s[p] == NEWLINE
    ensures HasLongLine(s) <==> HasLongLine(s[p + 1..])
  {
    var t := s[p + 1..];
    if HasLongLine(s) {
      var i: nat :| LongAt(s, i);
      if p < i {
        var j := i - (p + 1);
        assert t[j..j + LINE_LIMIT + 1] == s[i..i + LINE_LIMIT + 1];
        assert LongAt(t, j);
      }
    }
    if HasLongLine(t) {
      var j: nat :| LongAt(t, j);
      var i := j + p + 1;
      assert s[i..i + LINE_LIMIT + 1] == t[j..j + LINE_LIMIT + 1];
      assert LongAt(s, i);
    }
  }

  // -------------------------------------------------------------- any line at all

  lemma SkippedSpaces(s: seq<byte>)
    requires s != [] && s[|s| - 1] != SPACE
    ensures var r := SkipSpaces(s);
            r != [] && r[0] != SPACE && r[|r| - 1] == s[|s| - 1] && |r| <= |s|
  {
  }

  /** All words but the last are middles, the last is not empty or came behind a colon, and nothing
      trails it. */
  predicate Shape(words: seq<seq<byte>>, first: bool) {
    && words != []
    && (forall i | 0 <= i < |words| - 1 :: words[i] != [] && SPACE !in words[i] && (words[i][0] != COLON || (first && i == 0)))
    && (first ==> words[0] != [])
    && (first && |words| == 1 ==> SPACE !in words[0])
    && var last := words[|words| - 1];
       last != [] ==> !IsSpace(last[|last| - 1])
  }

  lemma ShapeNext(word: seq<byte>, words: seq<seq<byte>>, first: bool)
    requires word != [] && SPACE !in word && (first || word[0] != COLON) && Shape(words, false)
    ensures Shape([word] + words, first)
  {
    var all := [word] + words;
    forall i | 0 <= i < |all| - 1
      ensures all[i] != [] && SPACE !in all[i] && (all[i][0] != COLON || (first && i == 0))
    {
      if i > 0 {
        assert all[i] == words[i - 1];
      }
    }
  }

  lemma ShapeOfOne(word: seq<byte>, first: bool)
    requires word != [] ==> !IsSpace(word[|word| - 1])
    requires first ==> word != [] && SPACE !in word
    ensures Shape([word], first)
  {
  }

  lemma {:induction false} WordsHaveShape(s: seq<byte>, first: bool)
    requires s != [] && s[0] != SPACE && !IsSpace(s[|s| - 1])
    ensures Shape(Words(s, first), first)
    decreases |s|
  {
    hide IndexOf, Shape;
    var k := IndexOf(s, SPACE);
    if s[0] == COLON && !first {
      ShapeOfOne(s[1..], first);
    } else if k == |s| {
      ShapeOfOne(s, first);
    } else {
      SkippedSpaces(s[k + 1..]);
      var rest := SkipSpaces(s[k + 1..]);
      WordsHaveShape(rest, false);
      assert SPACE !in s[..k];
      ShapeNext(s[..k], Words(rest, false), first);
    }
  }

  /** The command list that a line yields is empty exactly when the line is a lone prefix: a colon and
      no space. Such a line leaves handleIrcCommand without its first element. */
  lemma NoCommandIff(line: seq<byte>)
    requires line != [] && IsTrimmed(line)
    ensures Tokenize(line).params == [] <==> line[0] == COLON && SPACE !in line
  {
    hide IndexOf;
    var k := IndexOf(line, SPACE);
    if k < |line| {
      SkippedSpaces(line[k + 1..]);
      var rest := SkipSpaces(line[k + 1..]);
      WordsHaveShape(rest, false);
      var tail := Words(rest, false);
      assert Words(line, true) == [line[..k]] + tail;
      assert ([line[..k]] + tail)[1..] == tail;
      assert line[k] in line;
    } else {
      assert Words(line, true) == [line];
    }
  }

  /** Printing what a line was tokenized into, and tokenizing again, changes nothing, as soon as there
      is a parameter behind the command. */
  lemma TokenizePrintTokenize(line: seq<byte>)
    requires line != [] && IsTrimmed(line) && 2 <= |Tokenize(line).params|
    ensures Tokenize(PrintLine(Tokenize(line), true)) == Tokenize(line)
  {
    hide Words;
    WordsHaveShape(line, true);
    var words, m := Words(line, true), Tokenize(line);
    forall i | 0 <= i < |m.params| - 1 ensures IsMiddle(m.params[i]) {
      assert m.params[i] == words[if m.prefix == [] then i else i + 1];
    }
    var rest := m.params[1..];
    forall i | 0 <= i < |rest| - 1 ensures IsMiddle(rest[i]) {
      assert rest[i] == m.params[i + 1];
    }
    PrintedIsTokenized(m, true);
  }

  // -------------------------------------------------------------------- objects

  /** ClientTcpLine: units records what was cut off the buffer, lines what handleLine was called with. */
  class LineClient {
    var readBuffer: seq<byte>
    var closed: bool
    var lines: seq<seq<byte>>
    ghost var units: seq<seq<byte>>

    constructor ()
      ensures Valid() && Model() == Cut([], [], false)
    {
      readBuffer, closed, lines, units := [], false, [], [];
    }

    ghost predicate Valid()
      reads this
    {
      lines == LinesOf(units)
    }

    ghost function Model(): Cut
      reads this
    {
      Cut(units, readBuffer, closed)
    }

    /** One read; a closed socket reads nothing more. */
    method HandleBuffer(buf: seq<byte>)
      requires Valid()
      modifies this
      ensures Valid() && Stable(NextLine) && Model() == Feed(NextLine, old(Model()), buf)
    {
      hide NextLine, LineOf, Parse;
      NextLineIsStable();
      if closed {
        return;
      }
      readBuffer := readBuffer + buf;
      ghost var cut: seq<seq<byte>> := [];
      NothingCut(readBuffer);
      while true
        invariant Valid() && !closed && units == old(units) + cut
        invariant Parse(NextLine, old(readBuffer) + buf) == Resume(cut, Parse(NextLine, readBuffer))
        decreases |readBuffer|
      {
        CutNext(cut, readBuffer);
        var p := IndexOf(readBuffer, NEWLINE);
        if p == |readBuffer| {
          if |readBuffer| > LINE_LIMIT {
            readBuffer, closed := [], true;
          }
          return;
        }
        if p > LINE_LIMIT {
          readBuffer, closed := [], true;
          return;
        }
        var line := Trim(readBuffer[..p]);
        assert line == LineOf(readBuffer[..p + 1]) by {
          assert readBuffer[..p + 1][..p] == readBuffer[..p];
          LineOfUnit(readBuffer[..p + 1]);
        }
        cut, units := cut + [readBuffer[..p + 1]], units + [readBuffer[..p + 1]];
        readBuffer := readBuffer[p + 1..];
        lines := lines + [line];
      }
    }
  }

  ghost function Resume(cut: seq<seq<byte>>, c: Cut): Cut {
    Cut(cut + c.units, c.left, c.stopped)
  }

  lemma NothingCut(s: seq<byte>)
    requires Stable(NextLine)
    ensures Parse(NextLine, s) == Resume([], Parse(NextLine, s))
  {
    hide NextLine, Parse;
    assert [] + Parse(NextLine, s).units == Parse(NextLine, s).units;
  }

  lemma LineOfUnit(unit: seq<byte>)
    requires unit != []
    ensures LineOf(unit) == Trim(unit[..|unit| - 1])
  {
  }

  lemma NextLineIs(s: seq<byte>)
    ensures var p := IndexOf(s, NEWLINE);
            NextLine(s) == if p == |s| then if |s| > LINE_LIMIT then Stop else Wait
                           else if p > LINE_LIMIT then Stop
                           else Take(p + 1)
  {
  }

  lemma CutNext(cut: seq<seq<byte>>, s: seq<byte>)
    requires Stable(NextLine)
    ensures var p, c := IndexOf(s, NEWLINE), Resume(cut, Parse(NextLine, s));
            if p == |s| then c == if |s| > LINE_LIMIT then Cut(cut, [], true) else Cut(cut, s, false)
            else if p > LINE_LIMIT then c == Cut(cut, [], true)
            else c == Resume(cut + [s[..p + 1]], Parse(NextLine, s[p + 1..]))
  {
    hide IndexOf, NextLine, Parse;
    assert cut + [] == cut;
    NextLineIs(s);
    ParseStep(NextLine, s);
    var p := IndexOf(s, NEWLINE);
    if p < |s| && p <= LINE_LIMIT {
      var d := Parse(NextLine, s[p + 1..]);
      assert cut + ([s[..p + 1]] + d.units) == (cut + [s[..p + 1]]) + d.units;
    }
  }

  /** handleLine's loop over a trimmed, non-empty line. */
  method SplitWords(line: seq<byte>) returns (tmp: seq<seq<byte>>)
    requires line != [] && IsTrimmed(line)
    ensures tmp == Words(line, true)
  {
    hide Words, IndexOf, SkipSpaces, IsTrimmed;
    tmp := [];
    var pos := 0;
    assert line[0..] == line;
    WordsAfter([], line[pos..], true);
    while pos < |line|
      invariant pos <= |line|
      invariant Words(line, true) == tmp + Words(line[pos..], pos == 0)
    {
      var rest := line[pos..];
      WordsAfter(tmp, rest, pos == 0);
      if line[pos] == COLON && pos != 0 {
        tmp := tmp + [rest[1..]];
        return;
      }
      var k := IndexOf(rest, SPACE);
      if k == |rest| {
        tmp := tmp + [rest];
        return;
      }
      tmp := tmp + [rest[..k]];
      assert rest[k + 1..] == line[pos + k + 1..];
      pos := SkipBlanks(line, pos + k + 1);
    }
    WordsAfter(tmp, line[pos..], pos == 0);
  }

  /** The inner loop. It would stop at the end of the line, but a trimmed line has no space there. */
  method SkipBlanks(line: seq<byte>, start: nat) returns (pos: nat)
    requires line != [] && IsTrimmed(line) && start <= |line|
    ensures start <= pos <= |line| && line[pos..] == SkipSpaces(line[start..])
  {
    pos := start;
    while pos < |line| && line[pos] == SPACE
      invariant start <= pos <= |line| && SkipSpaces(line[start..]) == SkipSpaces(line[pos..])
    {
      assert line[pos..][1..] == line[pos + 1..];
      pos := pos + 1;
    }
  }

  /** One turn of the loop: the word at the front, and what is left to split. */
  lemma WordsAfter(tmp: seq<seq<byte>>, s: seq<byte>, first: bool)
    ensures s == [] ==> tmp + Words(s, first) == tmp
    ensures [] + Words(s, first) == Words(s, first)
    ensures s != [] && s[0] == COLON && !first ==> tmp + Words(s, first) == tmp + [s[1..]]
    ensures s != [] && (s[0] != COLON || first) ==>
              var k := IndexOf(s, SPACE);
              if k == |s| then tmp + Words(s, first) == tmp + [s]
              else tmp + Words(s, first) == (tmp + [s[..k]]) + Words(SkipSpaces(s[k + 1..]), false)
  {
    hide IndexOf, SkipSpaces;
    if s != [] && (s[0] != COLON || first) && IndexOf(s, SPACE) < |s| {
      var k := IndexOf(s, SPACE);
      var more := Words(SkipSpaces(s[k + 1..]), false);
      assert tmp + ([s[..k]] + more) == (tmp + [s[..k]]) + more;
    }
  }

  /** handleLine up to the call of handleIrcCommand. */
  method HandleLine(line: seq<byte>) returns (m: Message)
    requires line != [] && IsTrimmed(line)
    ensures m == Tokenize(line)
  {
    hide Words;
    WordsHaveShape(line, true);
    var tmp := SplitWords(line);
    if tmp[0][0] == COLON {
      return Message(tmp[0], tmp[1..]);
    }
    return Message([], tmp);
  }

  /** sendReply. */
  method SendReply(m: Message, lastParamSpace: bool) returns (final: seq<byte>)
    ensures final == Print(m, lastParamSpace)
  {
    hide PrintRest;
    final := [];
    if m.prefix != [] {
      final := m.prefix + [SPACE];
    }
    ghost var head := final;
    ghost var body := if m.params == [] then [] else m.params[0] + PrintRest(m.params[1..], lastParamSpace);
    var i := 0;
    assert head + body == PrintLine(m, lastParamSpace);
    while i < |m.params|
      invariant i <= |m.params|
      invariant i == 0 ==> final == head
      invariant i > 0 ==> final + PrintRest(m.params[i..], lastParamSpace) == head + body
    {
      if i == 0 {
        final := final + m.params[0];
        i := i + 1;
        continue;
      }
      PrintStep(m.params, i, lastParamSpace);
      if i == |m.params| - 1 && lastParamSpace {
        final := final + ([SPACE, COLON] + m.params[i]);
        i := |m.params|;
        break;
      }
      final := final + ([SPACE] + m.params[i]);
      i := i + 1;
    }
    PrintNothing(m.params, lastParamSpace);
    final := final + [RETURN, NEWLINE];
  }

  lemma PrintNothing(params: seq<seq<byte>>, lastParamSpace: bool)
    ensures PrintRest(params[|params|..], lastParamSpace) == []
  {
  }

  lemma PrintStep(params: seq<seq<byte>>, i: nat, lastParamSpace: bool)
    requires i < |params|
    ensures PrintRest(params[i..], lastParamSpace) ==
            if i == |params| - 1 && lastParamSpace then [SPACE, COLON] + params[i]
            else [SPACE] + params[i] + PrintRest(params[i + 1..], lastParamSpace)
  {
    assert params[i..][1..] == params[i + 1..];
  }
}
